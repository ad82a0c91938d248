/** Inode numbers: preorder from the root, skipping hardlinks. */
module Numbering {
  import opened Bytes
  import opened Paths
  import opened Tree

  /** The paths that own an inode, in the order the numbering walk meets them. */
  function Owners(f: Forest, links: set<Path>): seq<Path> {
    match f
    case Nil => []
    case Cons(p, k, r) => (if p in links then [] else [p] + Owners(k, links)) + Owners(r, links)
  }

  /** Position of the first occurrence of `p`. */
  function Idx(ps: seq<Path>, p: Path): (i: nat)
    requires p in ps
    ensures i < |ps| && ps[i] == p
  {
    if ps[0] == p then 0 else 1 + Idx(ps[1..], p)
  }

  lemma {:induction false} IdxAppend(xs: seq<Path>, ys: seq<Path>, p: Path)
    requires p in xs + ys
    ensures Idx(xs + ys, p) == if p in xs then Idx(xs, p) else |xs| + Idx(ys, p)
  {
    if xs == [] {
      assert xs + ys == ys;
    } else {
      assert (xs + ys)[0] == xs[0] && (xs + ys)[1..] == xs[1..] + ys;
      if p != xs[0] {
        IdxAppend(xs[1..], ys, p);
      }
    }
  }

  /** The number of a path: the root gets 1. */
  function Number(order: seq<Path>, links: set<Path>, p: Path): nat
    requires Listed(order) && p in Owners(Whole(order), links)
  {
    1 + Idx(Owners(Whole(order), links), p)
  }

  /** Hardlinks have nothing below them. */
  ghost predicate LinksAreLeaves(order: seq<Path>, links: set<Path>) {
    ROOT !in links && forall l :: l in links ==> Kids(order, l) == []
  }

  lemma {:induction false} OwnersMembers(order: seq<Path>, f: Forest, links: set<Path>, p: Path)
    requires Shape(order, f) && LinksAreLeaves(order, links)
    ensures p in Owners(f, links) <==> p in Visit(f) && p !in links
  {
    hide Kids;
    if f.Cons? {
      OwnersMembers(order, f.kids, links, p);
      OwnersMembers(order, f.rest, links, p);
      if f.path in links {
        assert f.kids == Nil by { NoTops(f.kids); }
      }
    }
  }

  lemma NoTops(f: Forest)
    ensures Tops(f) == [] ==> f == Nil
  {
  }

  lemma {:induction false} OwnersNoDup(order: seq<Path>, f: Forest, links: set<Path>)
    requires Shape(order, f) && LinksAreLeaves(order, links) && NoDup(Visit(f))
    ensures NoDup(Owners(f, links))
  {
    hide Kids, LinksAreLeaves;
    if f.Cons? {
      var a, k, r := [f.path], Visit(f.kids), Visit(f.rest);
      SplitNoDup(a + k, r);
      SplitNoDup(a, k);
      OwnersNoDup(order, f.kids, links);
      OwnersNoDup(order, f.rest, links);
      forall p ensures (p in Owners(f.kids, links) ==> p in k) && (p in Owners(f.rest, links) ==> p in r) {
        OwnersMembers(order, f.kids, links, p);
        OwnersMembers(order, f.rest, links, p);
      }
      NoDupAppend(a, Owners(f.kids, links));
      if f.path !in links {
        NoDupAppend(a + Owners(f.kids, links), Owners(f.rest, links));
      }
    }
  }

  lemma SplitNoDup(xs: seq<Path>, ys: seq<Path>)
    requires NoDup(xs + ys)
    ensures NoDup(xs) && NoDup(ys) && forall x :: x in xs ==> x !in ys
  {
    var zs := xs + ys;
    forall i, j | 0 <= i < j < |xs| ensures xs[i] != xs[j] { assert zs[i] != zs[j]; }
    forall i, j | 0 <= i < j < |ys| ensures ys[i] != ys[j] { assert zs[|xs| + i] != zs[|xs| + j]; }
    forall i, j | 0 <= i < |xs| && 0 <= j < |ys| ensures xs[i] != ys[j] { assert zs[i] != zs[|xs| + j]; }
  }

  /** Numbering is a bijection from the root and the created paths that are not hardlinks onto
      1..n, and the root is 1. */
  lemma NumberBijection(order: seq<Path>, links: set<Path>)
    requires Listed(order) && Closed(order) && LinksAreLeaves(order, links)
    ensures var ps := Owners(Whole(order), links);
            && (forall p :: p in ps <==> (p == ROOT || p in order) && p !in links)
            && (forall p :: p in ps ==> 1 <= Number(order, links, p) <= |ps|)
            && (forall p, q :: p in ps && q in ps && Number(order, links, p) == Number(order, links, q) ==> p == q)
            && (forall i :: 0 <= i < |ps| ==> Number(order, links, ps[i]) == i + 1)
            && ROOT in ps && Number(order, links, ROOT) == 1
  {
    hide Shape, Closed, Visit, LinksAreLeaves, Owners, Idx, Whole;
    var w := Whole(order);
    var ps := Owners(w, links);
    WholeShape(order);
    WholeVisits(order);
    OwnersNoDup(order, w, links);
    IdxInverse(ps);
    forall p ensures p in ps <==> (p == ROOT || p in order) && p !in links {
      OwnersMembers(order, w, links, p);
    }
    RootNumber(order, links);
  }

  lemma IdxInverse(ps: seq<Path>)
    requires NoDup(ps)
    ensures forall i :: 0 <= i < |ps| ==> Idx(ps, ps[i]) == i
  {
    forall i | 0 <= i < |ps| ensures Idx(ps, ps[i]) == i {
      assert ps[Idx(ps, ps[i])] == ps[i];
    }
  }

  lemma RootNumber(order: seq<Path>, links: set<Path>)
    requires Listed(order) && LinksAreLeaves(order, links)
    ensures ROOT in Owners(Whole(order), links) && Number(order, links, ROOT) == 1
  {
    var k := Owners(Whole(order).kids, links);
    assert Owners(Whole(order), links) == [ROOT] + k + [];
    assert Owners(Whole(order), links)[0] == ROOT;
  }

  /** Where the walk meets `d`: right before the nodes below it. */
  lemma {:induction false} Locate(order: seq<Path>, f: Forest, links: set<Path>, d: Path)
    returns (pre: seq<Path>, k: Forest, post: seq<Path>)
    requires Shape(order, f) && d in Owners(f, links)
    ensures Owners(f, links) == pre + ([d] + Owners(k, links)) + post
    ensures Tops(k) == Kids(order, d) && Shape(order, k)
  {
    hide Kids;
    var r := Owners(f.rest, links);
    if f.path in links {
      pre, k, post := Locate(order, f.rest, links, d);
      assert Owners(f, links) == [] + r;
    } else {
      var ks := Owners(f.kids, links);
      if d == f.path {
        pre, k, post := [], f.kids, r;
        assert [] + ([d] + ks) + r == ([d] + ks) + r;
      } else if d in ks {
        pre, k, post := Locate(order, f.kids, links, d);
        Regroup([f.path], pre, [d] + Owners(k, links), post, r);
        pre, post := [f.path] + pre, post + r;
      } else {
        pre, k, post := Locate(order, f.rest, links, d);
        Regroup([f.path] + ks, pre, [d] + Owners(k, links), post, []);
        assert r + [] == r && post + [] == post;
        pre := [f.path] + ks + pre;
      }
    }
  }

  lemma Regroup<T>(a: seq<T>, pre: seq<T>, m: seq<T>, post: seq<T>, r: seq<T>)
    ensures a + (pre + m + post) + r == (a + pre) + m + (post + r)
    ensures (a + (pre + m + post)) + r == a + ((pre + m + post) + r)
  {
    Assoc(a, pre, m);
    Assoc(a, pre + m, post);
    Assoc(a + pre + m, post, r);
    Assoc(a, pre + m + post, r);
  }

  /** Among siblings that own inodes, numbers ascend from left to right. */
  lemma {:induction false} TopsAscend(f: Forest, links: set<Path>, i: nat, j: nat)
    requires NoDup(Owners(f, links)) && i < j < |Tops(f)| && Tops(f)[i] !in links && Tops(f)[j] !in links
    ensures Tops(f)[i] in Owners(f, links) && Tops(f)[j] in Owners(f, links)
    ensures Idx(Owners(f, links), Tops(f)[i]) < Idx(Owners(f, links), Tops(f)[j])
  {
    hide Owners, Idx, NoDup;
    var a, r := OwnersStep(f, links);
    SplitNoDup(a, r);
    TopOwned(f.rest, links, j - 1);
    var q := Tops(f.rest)[j - 1];
    assert Tops(f)[j] == q;
    IdxAppend(a, r, q);
    if i == 0 {
      IdxAppend(a, r, f.path);
    } else {
      TopsAscend(f.rest, links, i - 1, j - 1);
      IdxAppend(a, r, Tops(f.rest)[i - 1]);
    }
  }

  lemma OwnersStep(f: Forest, links: set<Path>) returns (a: seq<Path>, r: seq<Path>)
    requires f.Cons?
    ensures Owners(f, links) == a + r && r == Owners(f.rest, links)
    ensures f.path !in links ==> f.path in a
  {
    a := if f.path in links then [] else [f.path] + Owners(f.kids, links);
    r := Owners(f.rest, links);
    assert f.path !in links ==> a[0] == f.path;
  }

  lemma {:induction false} TopOwned(f: Forest, links: set<Path>, i: nat)
    requires i < |Tops(f)| && Tops(f)[i] !in links
    ensures Tops(f)[i] in Owners(f, links)
  {
    if i > 0 { TopOwned(f.rest, links, i - 1); }
  }

  lemma IdxIn(pre: seq<Path>, d: Path, ks: seq<Path>, post: seq<Path>, c: Path)
    requires NoDup(pre + ([d] + ks) + post) && c in ks
    ensures c in pre + ([d] + ks) + post && Idx(pre + ([d] + ks) + post, c) == |pre| + 1 + Idx(ks, c)
    ensures d in pre + ([d] + ks) + post && Idx(pre + ([d] + ks) + post, d) == |pre|
  {
    var m := [d] + ks;
    SplitNoDup(pre + m, post);
    SplitNoDup(pre, m);
    SplitNoDup([d], ks);
    assert c in m && d in m;
    IdxAppend(pre + m, post, c);
    IdxAppend(pre, m, c);
    IdxAppend([d], ks, c);
    IdxAppend(pre + m, post, d);
    IdxAppend(pre, m, d);
    IdxAppend([d], ks, d);
  }

  /** A directory is numbered before everything in it. */
  lemma ParentFirst(order: seq<Path>, links: set<Path>, d: Path, i: nat)
    requires Listed(order) && Closed(order) && LinksAreLeaves(order, links)
    requires d in Owners(Whole(order), links) && i < |Kids(order, d)| && Kids(order, d)[i] !in links
    ensures Kids(order, d)[i] in Owners(Whole(order), links)
    ensures Number(order, links, d) < Number(order, links, Kids(order, d)[i])
  {
    hide Shape, Closed, LinksAreLeaves, Kids, Visit, Whole;
    var w := Whole(order);
    WholeShape(order);
    WholeVisits(order);
    OwnersNoDup(order, w, links);
    var pre, k, post := Locate(order, w, links, d);
    TopOwned(k, links, i);
    IdxIn(pre, d, Owners(k, links), post, Kids(order, d)[i]);
  }

  /** Inside one directory, inode numbers ascend in name order among the children that are not
      hardlinks. */
  lemma KidsAscend(order: seq<Path>, links: set<Path>, d: Path, i: nat, j: nat)
    requires Listed(order) && Closed(order) && LinksAreLeaves(order, links)
    requires d in Owners(Whole(order), links) && i < j < |Kids(order, d)|
    requires Kids(order, d)[i] !in links && Kids(order, d)[j] !in links
    ensures Kids(order, d)[i] in Owners(Whole(order), links) && Kids(order, d)[j] in Owners(Whole(order), links)
    ensures Number(order, links, Kids(order, d)[i]) < Number(order, links, Kids(order, d)[j])
  {
    hide Shape, Closed, LinksAreLeaves, Kids, Visit, Whole;
    var w := Whole(order);
    WholeShape(order);
    WholeVisits(order);
    OwnersNoDup(order, w, links);
    var pre, k, post := Locate(order, w, links, d);
    var ks := Owners(k, links);
    SplitNoDup(pre + ([d] + ks), post);
    SplitNoDup(pre, [d] + ks);
    SplitNoDup([d], ks);
    TopsAscend(k, links, i, j);
    IdxIn(pre, d, ks, post, Kids(order, d)[i]);
    IdxIn(pre, d, ks, post, Kids(order, d)[j]);
  }
}

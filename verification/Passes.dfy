/** The passes Close runs over the entries: build the tree, number it, count links, intern ids. */
module Passes {
  import opened Bytes
  import opened Names
  import opened Paths
  import opened Tree
  import opened Numbering
  import opened IdTable
  import opened Entries
  import opened Layout
  import opened Finalize
  import opened LinkOrder

  /** Children of every directory, wired in creation order; stops at an entry whose parent is missing
      or not a directory. */
  method WireChildren(entries: map<Path, Entry>, order: seq<Path>) returns (ok: bool, children: map<Path, seq<Path>>)
    requires Listed(order)
    ensures ok <==> TreeOk(entries, order)
    ensures ok ==> forall d :: d in entries ==> d in children && children[d] == ChildrenOf(order, d)
  {
    hide Dir, GoodParts;
    children := map d | d in entries :: [];
    assert order[..0] == [];
    for i := 0 to |order|
      invariant TreeOk(entries, order[..i])
      invariant forall d :: d in entries ==> d in children && children[d] == ChildrenOf(order[..i], d)
    {
      var p := order[i];
      var parent := Dir(p);
      if parent !in entries || !entries[parent].kind.Directory? {
        assert order[i] == p;
        return false, children;
      }
      assert order[..i + 1] == order[..i] + [p];
      forall d | d in entries
        ensures ChildrenOf(order[..i + 1], d) == ChildrenOf(order[..i], d) + if d == parent then [p] else []
      {
        ChildrenPush(order[..i], p, d);
      }
      children := children[parent := children[parent] + [p]];
    }
    assert order[..|order|] == order;
    ok := true;
  }

  /** The tree with every directory's children in name order, from the wired children. */
  method SortChildren(entries: map<Path, Entry>, order: seq<Path>, children: map<Path, seq<Path>>, d: Path)
    returns (f: Forest)
    requires Listed(order) && TreeOk(entries, order) && d in entries && |d| <= MaxLen(order) + 1
    requires forall p :: p in order ==> p in entries
    requires forall d :: d in entries ==> d in children && children[d] == ChildrenOf(order, d)
    ensures Below(order, d, Kids(order, d)) && f == Build(order, d, Kids(order, d))
    decreases MaxLen(order) + 1 - |d|
  {
    hide Listed, TreeOk, SortBy, Build, MaxLen, Below, ChildrenOf;
    KidsBelow(order, d);
    var cs := SortBy(Base, children[d]);
    f := Nil;
    var i := |cs|;
    assert cs[|cs|..] == [];
    BuildNone(order, d);
    while i > 0
      invariant 0 <= i <= |cs|
      invariant Below(order, d, cs[i..])
      invariant f == Build(order, d, cs[i..])
    {
      i := i - 1;
      var c := cs[i];
      BelowAt(order, d, cs, i);
      var k := Nil;
      if entries[c].kind.Directory? {
        k := SortChildren(entries, order, children, c);
      } else {
        NotParent(entries, order, c);
        BuildNone(order, c);
      }
      BuildStep(order, d, cs, i, k);
      f := Cons(c, k, f);
    }
    assert cs[0..] == cs;
  }

  lemma BuildNone(order: seq<Path>, d: Path)
    requires Listed(order)
    ensures Below(order, d, []) && Build(order, d, []) == Nil
  {
  }

  lemma BelowAt(order: seq<Path>, d: Path, cs: seq<Path>, i: nat)
    requires Below(order, d, cs) && i < |cs|
    ensures cs[i] in order && |d| < |cs[i]|
  {
    assert cs[i] in cs;
  }

  lemma BuildStep(order: seq<Path>, d: Path, cs: seq<Path>, i: nat, k: Forest)
    requires Listed(order) && i < |cs| && Below(order, d, cs[i + 1..])
    requires cs[i] in order && |d| < |cs[i]|
    requires Below(order, cs[i], Kids(order, cs[i])) && k == Build(order, cs[i], Kids(order, cs[i]))
    ensures Below(order, d, cs[i..])
    ensures Build(order, d, cs[i..]) == Cons(cs[i], k, Build(order, d, cs[i + 1..]))
  {
    hide Listed, Kids;
    var t := cs[i..];
    assert t[0] == cs[i] && t[1..] == cs[i + 1..];
    forall c | c in t ensures c in order && |d| < |c| { assert c == t[0] || c in t[1..]; }
  }

  lemma NotParent(entries: map<Path, Entry>, order: seq<Path>, c: Path)
    requires Listed(order) && TreeOk(entries, order) && c in entries && !entries[c].kind.Directory?
    ensures Kids(order, c) == []
  {
    hide GoodParts, Dir;
    KidsSpec(order, c);
    if Kids(order, c) != [] {
      HasMember(Kids(order, c));
    }
  }

  /** Wires every entry into a tree under the root, or reports a missing or unsuitable parent. */
  method BuildTree(entries: map<Path, Entry>, order: seq<Path>) returns (ok: bool, root: Forest)
    requires Listed(order) && ROOT in entries && forall p :: p in order ==> p in entries
    ensures ok <==> TreeOk(entries, order)
    ensures ok ==> root == Whole(order)
  {
    hide TreeOk, ChildrenOf, Kids, Build, GoodParts;
    var children;
    root := Nil;
    ok, children := WireChildren(entries, order);
    if ok {
      var kids := SortChildren(entries, order, children, ROOT);
      root := Cons(ROOT, kids, Nil);
    }
  }

  // ---------------------------------------------------------------- inode numbers

  /** `a` and `b` agree away from `ps`. */
  ghost predicate SameOff(a: map<Path, nat>, b: map<Path, nat>, ps: seq<Path>) {
    forall q :: q !in ps ==> (q in a <==> q in b) && (q in a ==> a[q] == b[q])
  }

  /** The paths of `ps` are numbered from `from` on. */
  ghost predicate NumberedFrom(m: map<Path, nat>, ps: seq<Path>, from: nat) {
    forall q :: q in ps ==> q in m && m[q] == from + Idx(ps, q)
  }

  /** Top nodes have parent `par`; every other node has its directory's number. */
  ghost predicate ParentAt(ino: map<Path, nat>, parent: map<Path, nat>, tops: seq<Path>, ps: seq<Path>, par: nat,
                           q: Path) {
    && q in parent
    && if q in tops then parent[q] == par
       else q != [] && q[0] == SLASH && Dir(q) in ps && Dir(q) in ino && parent[q] == ino[Dir(q)]
  }

  ghost predicate ParentsIn(ino: map<Path, nat>, parent: map<Path, nat>, f: Forest, ps: seq<Path>, par: nat) {
    forall q :: q in ps ==> ParentAt(ino, parent, Tops(f), ps, par, q)
  }

  lemma NumberedJoin(m0: map<Path, nat>, m1: map<Path, nat>, m2: map<Path, nat>, p: Path, ks: seq<Path>, rs: seq<Path>,
                     from: nat)
    requires NoDup([p] + ks + rs)
    requires p in m0 && m0[p] == from
    requires NumberedFrom(m1, ks, from + 1) && SameOff(m0, m1, ks)
    requires NumberedFrom(m2, rs, from + 1 + |ks|) && SameOff(m1, m2, rs)
    ensures NumberedFrom(m2, [p] + ks + rs, from)
  {
    var a := [p] + ks;
    SplitNoDup(a, rs);
    SplitNoDup([p], ks);
    forall q | q in a + rs ensures q in m2 && m2[q] == from + Idx(a + rs, q) {
      IdxAppend(a, rs, q);
      if q in a {
        IdxAppend([p], ks, q);
      }
    }
  }

  /** The fields the numbering and link-count passes fill in. */
  class Marks {
    var inodeNumber: map<Path, nat>
    var parentInode: map<Path, nat>
    var next: nat

    constructor ()
      ensures inodeNumber == map[] && parentInode == map[] && next == 1
    {
      inodeNumber := map[];
      parentInode := map[];
      next := 1;
    }

    /** Numbers every entry that owns an inode, root first, parents before children. */
    method AssignInodeNumbers(root: Forest, entries: map<Path, Entry>, order: seq<Path>)
      requires EntriesShaped(entries, order) && root == Whole(order)
      requires inodeNumber == map[] && parentInode == map[] && next == 1
      modifies this
      ensures inodeNumber == Numbers(order, Links(entries))
      ensures parentInode == Parents(order, Links(entries))
    {
      hide Owners, Shape, Visit, NoDup, Whole, NumberedFrom, SameOff, ParentsIn, TreeOk, LinksAreLeaves, Numbers,
        Parents;
      ghost var links := Links(entries);
      ShapedLeaves(entries, order);
      WholeShape(order);
      WholeVisits(order);
      OwnersNoDup(order, root, links);
      Walk(root, entries, order, 1);
      NumbersAre(order, links, inodeNumber);
      ParentsAre(order, links, inodeNumber, parentInode);
    }

    /** Preorder over the forest: hardlinks take no number. */
    method Walk(f: Forest, entries: map<Path, Entry>, order: seq<Path>, par: nat)
      requires Listed(order) && Shape(order, f) && NoDup(Owners(f, Links(entries)))
      requires LinksAreLeaves(order, Links(entries)) && NoDup(Visit(f))
      requires forall q :: q in Visit(f) ==> q in entries
      modifies this
      ensures next == old(next) + |Owners(f, Links(entries))|
      ensures NumberedFrom(inodeNumber, Owners(f, Links(entries)), old(next))
      ensures SameOff(old(inodeNumber), inodeNumber, Owners(f, Links(entries)))
      ensures SameOff(old(parentInode), parentInode, Owners(f, Links(entries)))
      ensures ParentsIn(inodeNumber, parentInode, f, Owners(f, Links(entries)), par)
      decreases f
    {
      hide Listed, Kids, LinksAreLeaves, NoDup, NumberedFrom, SameOff, ParentsIn, Visit, Owners, Shape, Tops;
      match f {
        case Nil =>
          assert Owners(f, Links(entries)) == [] by { NobodyOwns(Links(entries)); }
          NothingNumbered(inodeNumber, parentInode, next, par);
        case Cons(p, k, r) =>
          ghost var links := Links(entries);
          ghost var ks, rs := Owners(k, links), Owners(r, links);
          ghost var from, ino0, par0 := next, inodeNumber, parentInode;
          SplitVisit(p, k, r);
          ShapeParts(order, f);
          OwnersCons(p, k, r, links);
          assert p in Visit(f) by { TopVisited(f); }
          VisitedParts(f, entries);
          OwnersNoDup(order, k, links);
          OwnersNoDup(order, r, links);
          if entries[p].kind.Hardlink? {
            LinkAlone(order, links, p, k);
            Walk(r, entries, order, par);
            LinkParents(inodeNumber, parentInode, p, r, rs, par, links);
          } else {
            inodeNumber := inodeNumber[p := next];
            parentInode := parentInode[p := par];
            next := next + 1;
            ghost var ino1, par1 := inodeNumber, parentInode;
            var number := inodeNumber[p];
            Walk(k, entries, order, number);
            ghost var ino2, par2 := inodeNumber, parentInode;
            Walk(r, entries, order, par);
            NumberedJoin(ino1, ino2, inodeNumber, p, ks, rs, from);
            SameJoin(ino0, ino1, ino2, inodeNumber, p, ks, rs);
            SameJoin(par0, par1, par2, parentInode, p, ks, rs);
            ParentsJoin(order, entries, f, number, par, ino1, ino2, inodeNumber, par1, par2, parentInode);
          }
      }
    }
  }

  lemma NothingNumbered(m: map<Path, nat>, n: map<Path, nat>, from: nat, par: nat)
    ensures NumberedFrom(m, [], from) && SameOff(m, m, []) && SameOff(n, n, []) && ParentsIn(m, n, Nil, [], par)
  {
  }

  lemma NobodyOwns(links: set<Path>)
    ensures Owners(Nil, links) == []
  {
  }

  lemma OwnersCons(p: Path, k: Forest, r: Forest, links: set<Path>)
    ensures Owners(Cons(p, k, r), links) == if p in links then Owners(r, links)
            else [p] + Owners(k, links) + Owners(r, links)
  {
  }

  lemma TopVisited(f: Forest)
    requires f.Cons?
    ensures f.path in Visit(f)
  {
  }

  lemma VisitedParts(f: Forest, entries: map<Path, Entry>)
    requires f.Cons? && forall q :: q in Visit(f) ==> q in entries
    ensures forall q :: q in Visit(f.kids) ==> q in entries
    ensures forall q :: q in Visit(f.rest) ==> q in entries
  {
  }

  lemma LinkAlone(order: seq<Path>, links: set<Path>, p: Path, k: Forest)
    requires LinksAreLeaves(order, links) && p in links && Tops(k) == Kids(order, p)
    ensures k == Nil
  {
    hide Kids;
    NoTops(k);
  }

  /** A hardlink in front changes no parent. */
  lemma LinkParents(ino: map<Path, nat>, parent: map<Path, nat>, p: Path, r: Forest, rs: seq<Path>, par: nat,
                    links: set<Path>)
    requires ParentsIn(ino, parent, r, rs, par) && p in links && rs == Owners(r, links)
    ensures ParentsIn(ino, parent, Cons(p, Nil, r), rs, par)
  {
    hide Dir;
    LinksUnowned(r, links, p);
  }

  lemma {:induction false} LinksUnowned(f: Forest, links: set<Path>, p: Path)
    requires p in links
    ensures p !in Owners(f, links)
  {
    if f.Cons? {
      LinksUnowned(f.kids, links, p);
      LinksUnowned(f.rest, links, p);
    }
  }

  lemma SameJoin(m0: map<Path, nat>, m1: map<Path, nat>, m2: map<Path, nat>, m3: map<Path, nat>, p: Path, ks: seq<Path>,
                 rs: seq<Path>)
    requires (forall q :: q != p ==> (q in m0 <==> q in m1) && (q in m0 ==> m0[q] == m1[q]))
    requires SameOff(m1, m2, ks) && SameOff(m2, m3, rs)
    ensures SameOff(m0, m3, [p] + ks + rs)
  {
  }

  /** Parents of a node, of what is below it, and of its later siblings. */
  lemma ParentsJoin(order: seq<Path>, entries: map<Path, Entry>, f: Forest, number: nat, par: nat,
                    ino1: map<Path, nat>, ino2: map<Path, nat>, ino: map<Path, nat>,
                    par1: map<Path, nat>, par2: map<Path, nat>, parent: map<Path, nat>)
    requires f.Cons? && Listed(order) && Shape(order, f) && f.path !in Links(entries) &&
             NoDup(Owners(f, Links(entries)))
    requires NoDup(Visit(f)) && LinksAreLeaves(order, Links(entries))
    requires f.path in ino1 && ino1[f.path] == number && f.path in par1 && par1[f.path] == par
    requires SameOff(ino1, ino2, Owners(f.kids, Links(entries))) && SameOff(ino2, ino, Owners(f.rest, Links(entries)))
    requires SameOff(par1, par2, Owners(f.kids, Links(entries))) &&
             SameOff(par2, parent, Owners(f.rest, Links(entries)))
    requires ParentsIn(ino2, par2, f.kids, Owners(f.kids, Links(entries)), number)
    requires ParentsIn(ino, parent, f.rest, Owners(f.rest, Links(entries)), par)
    ensures ParentsIn(ino, parent, f, Owners(f, Links(entries)), par)
  {
    hide Listed, Kids, LinksAreLeaves, Links, Visit, ParentAt, Tops, NoDup, SameOff, Owners;
    var links := Links(entries);
    var p, k, r := f.path, f.kids, f.rest;
    var ks, rs := Owners(k, links), Owners(r, links);
    OwnersCons(p, k, r, links);
    SplitNoDup([p] + ks, rs);
    SplitNoDup([p], ks);
    ShapeParts(order, f);
    forall q | q in [p] + ks + rs ensures ParentAt(ino, parent, Tops(f), [p] + ks + rs, par, q) {
      if q == p {
        TopParent(f, ks, rs, par, ino, par1, par2, parent);
      } else if q in ks {
        NotTopAgain(order, f, links, q);
        BelowParent(order, f, ks, rs, par, number, ino1, ino2, ino, par2, parent, q);
      } else {
        LaterParent(f, ks, rs, par, ino, parent, q);
      }
    }
  }

  lemma TopParent(f: Forest, ks: seq<Path>, rs: seq<Path>, par: nat, ino: map<Path, nat>,
                  par1: map<Path, nat>, par2: map<Path, nat>, parent: map<Path, nat>)
    requires f.Cons? && f.path in par1 && par1[f.path] == par && f.path !in ks && f.path !in rs
    requires SameOff(par1, par2, ks) && SameOff(par2, parent, rs)
    ensures ParentAt(ino, parent, Tops(f), [f.path] + ks + rs, par, f.path)
  {
    hide Dir;
    assert f.path in Tops(f);
  }

  lemma BelowParent(order: seq<Path>, f: Forest, ks: seq<Path>, rs: seq<Path>, par: nat, number: nat,
                    ino1: map<Path, nat>, ino2: map<Path, nat>, ino: map<Path, nat>,
                    par2: map<Path, nat>, parent: map<Path, nat>, q: Path)
    requires Listed(order) && f.Cons? && Tops(f.kids) == Kids(order, f.path) && q in ks && q !in Tops(f)
    requires f.path in ino1 && ino1[f.path] == number && f.path !in ks && f.path !in rs
    requires forall z :: z in ks ==> z !in rs
    requires SameOff(ino1, ino2, ks) && SameOff(ino2, ino, rs) && SameOff(par2, parent, rs)
    requires ParentAt(ino2, par2, Tops(f.kids), ks, number, q)
    ensures ParentAt(ino, parent, Tops(f), [f.path] + ks + rs, par, q)
  {
    hide Dir, Kids, Tops, Listed;
    KidsAreChildren(order, f.path);
    assert q !in rs;
    if q in Tops(f.kids) {
      assert Dir(q) == f.path;
    } else {
      assert Dir(q) in ks && Dir(q) !in rs;
    }
  }

  lemma LaterParent(f: Forest, ks: seq<Path>, rs: seq<Path>, par: nat, ino: map<Path, nat>, parent: map<Path, nat>,
                    q: Path)
    requires f.Cons? && q in rs && q != f.path && ParentAt(ino, parent, Tops(f.rest), rs, par, q)
    ensures ParentAt(ino, parent, Tops(f), [f.path] + ks + rs, par, q)
  {
    hide Dir;
  }

  lemma NotTopAgain(order: seq<Path>, f: Forest, links: set<Path>, q: Path)
    requires f.Cons? && Shape(order, f) && NoDup(Visit(f)) && LinksAreLeaves(order, links) && q in Owners(f.kids, links)
    ensures q !in Tops(f)
  {
    hide Kids;
    SplitVisit(f.path, f.kids, f.rest);
    OwnersMembers(order, f.kids, links, q);
    if q in Tops(f.rest) { TopsReached(f.rest, q); }
  }

  lemma NumbersAre(order: seq<Path>, links: set<Path>, ino: map<Path, nat>)
    requires Listed(order)
    requires NumberedFrom(ino, Owners(Whole(order), links), 1) && SameOff(map[], ino, Owners(Whole(order), links))
    ensures ino == Numbers(order, links)
  {
    hide Owners, Idx, Whole, Listed;
    var ps := Owners(Whole(order), links);
    var a := Numbers(order, links);
    forall q ensures (q in ino <==> q in a) && (q in a ==> ino[q] == a[q]) {
      assert q in a <==> q in ps;
    }
  }

  lemma ParentsAre(order: seq<Path>, links: set<Path>, ino: map<Path, nat>, parent: map<Path, nat>)
    requires Listed(order)
    requires NumberedFrom(ino, Owners(Whole(order), links), 1) && SameOff(map[], parent, Owners(Whole(order), links))
    requires ParentsIn(ino, parent, Whole(order), Owners(Whole(order), links), 1)
    ensures parent == Parents(order, links)
  {
    hide Owners, Idx, Dir, Whole, Listed, NumberedFrom, SameOff, ParentsIn;
    var ps := Owners(Whole(order), links);
    var b := Parents(order, links);
    forall q ensures (q in parent <==> q in b) && (q in b ==> parent[q] == b[q]) {
      assert q in b <==> q in ps;
      ParentIs(order, links, ino, parent, q);
    }
  }

  lemma ParentIs(order: seq<Path>, links: set<Path>, ino: map<Path, nat>, parent: map<Path, nat>, q: Path)
    requires Listed(order)
    requires NumberedFrom(ino, Owners(Whole(order), links), 1) && SameOff(map[], parent, Owners(Whole(order), links))
    requires ParentsIn(ino, parent, Whole(order), Owners(Whole(order), links), 1)
    ensures q in parent <==> q in Owners(Whole(order), links)
    ensures q in parent ==> parent[q] == Parents(order, links)[q]
  {
    hide Owners, Idx, Dir, Listed;
    var ps := Owners(Whole(order), links);
    assert Tops(Whole(order)) == [ROOT] by { TopsWhole(order); }
    if q in ps && q != ROOT {
      assert q !in Tops(Whole(order));
      assert ino[Dir(q)] == Number(order, links, Dir(q));
    }
  }

  lemma TopsWhole(order: seq<Path>)
    requires Listed(order)
    ensures Tops(Whole(order)) == [ROOT]
  {
  }

  // ---------------------------------------------------------------- link counts

  class LinkMarks {
    var nlinks: map<Path, nat>

    constructor ()
      ensures nlinks == map[]
    {
      nlinks := map[];
    }

    /** Everything that is not a directory, in whatever order the map yields it; `visited` is that order. */
    method InitLinkCounts(entries: map<Path, Entry>) returns (ghost visited: seq<Path>)
      requires TargetsAreFiles(entries) && nlinks == map[]
      modifies this
      ensures Enumerates(entries, visited)
      ensures forall p :: p in entries && IsPlain(entries[p].kind) ==> p in nlinks && nlinks[p] == 1
      ensures forall f :: f in entries && entries[f].kind.File? ==>
              f in nlinks && nlinks[f] == CountAfter(entries, visited, f)
    {
      hide CountAfter, LinkSet, FileCount;
      var todo := entries.Keys;
      visited := [];
      assert forall f :: FileCount(entries, nlinks, [], f) by { NothingCounted(entries); }
      while todo != {}
        invariant todo <= entries.Keys && NoDup(visited)
        invariant forall p :: p in visited <==> p in entries && p !in todo
        invariant forall p :: p in entries && p !in todo && IsPlain(entries[p].kind) ==> p in nlinks && nlinks[p] == 1
        invariant forall f :: FileCount(entries, nlinks, visited, f)
        decreases |todo|
      {
        var p :| p in todo;
        ghost var seen, before := visited, nlinks;
        match entries[p].kind {
          case Directory =>
          case Hardlink(link) =>
            nlinks := nlinks[link := 1 + if link in nlinks then nlinks[link] else 0];
          case _ =>
            nlinks := nlinks[p := 1];
        }
        todo := todo - {p};
        visited := visited + [p];
        CountMet(entries, before, seen, p);
        assert nlinks == Met(entries, before, p);
      }
      forall f | f in entries && entries[f].kind.File?
        ensures f in nlinks && nlinks[f] == CountAfter(entries, visited, f)
      {
        Counted(entries, nlinks, visited, f);
      }
    }

    method ComputeLinkCounts(root: Forest, entries: map<Path, Entry>, order: seq<Path>)
      returns (ghost visited: seq<Path>)
      requires EntriesShaped(entries, order) && root == Whole(order)
      requires TargetsAreFiles(entries) && nlinks == map[]
      modifies this
      ensures forall p :: p in entries && !entries[p].kind.Hardlink? && !entries[p].kind.File? ==>
                p in nlinks && nlinks[p] == LinkCount(entries, order, p)
      ensures Enumerates(entries, visited)
      ensures forall f :: f in entries && entries[f].kind.File? ==>
              f in nlinks && nlinks[f] == CountAfter(entries, visited, f)
    {
      hide Whole, Visit, Kids, TreeOk, Listed, CountDirs, CountAfter, Enumerates;
      visited := InitLinkCounts(entries);
      WholeShape(order);
      ShapedLeaves(entries, order);
      WholeVisits(order);
      var subdirs := WalkDirs(root, entries, order);
      assert forall p :: p in entries ==> p in Visit(root);
    }

    /** Post-order over sibling directories; returns how many there are. */
    method WalkDirs(f: Forest, entries: map<Path, Entry>, order: seq<Path>) returns (subdirs: nat)
      requires Shape(order, f) && NoDup(Visit(f))
      modifies this
      ensures subdirs == CountDirs(entries, Tops(f))
      ensures forall p :: p in Visit(f) && p in entries && entries[p].kind.Directory? ==>
              p in nlinks && nlinks[p] == 2 + CountDirs(entries, Kids(order, p))
      ensures forall p :: !(p in Visit(f) && p in entries && entries[p].kind.Directory?) ==>
                (p in nlinks <==> p in old(nlinks)) && (p in nlinks ==> nlinks[p] == old(nlinks)[p])
      decreases f
    {
      hide Kids, CountDirs, NoDup, Visit, Shape, Tops;
      match f {
        case Nil =>
          CountNone(entries);
          subdirs := 0;
        case Cons(p, k, r) =>
          SplitVisit(p, k, r);
          ShapeParts(order, f);
          CountCons(entries, p, k, r);
          subdirs := 0;
          if p in entries && entries[p].kind.Directory? {
            var n := WalkDirs(k, entries, order);
            nlinks := nlinks[p := 2 + n];
            subdirs := 1;
          } else {
            var _ := WalkDirs(k, entries, order);
          }
          var more := WalkDirs(r, entries, order);
          subdirs := subdirs + more;
      }
    }
  }

  /** What the loop has made of file `f` so far; an untouched count is Go's zero. */
  ghost predicate FileCount(entries: map<Path, Entry>, nlinks: map<Path, nat>, visited: seq<Path>, f: Path) {
    f in entries && entries[f].kind.File? ==>
      CountAfter(entries, visited, f) == if f in nlinks then nlinks[f] else 0
  }

  lemma NothingCounted(entries: map<Path, Entry>)
    ensures forall f :: FileCount(entries, map[], [], f)
  {
  }

  lemma Counted(entries: map<Path, Entry>, nlinks: map<Path, nat>, visited: seq<Path>, f: Path)
    requires Enumerates(entries, visited) && f in entries && entries[f].kind.File? &&
             FileCount(entries, nlinks, visited, f)
    ensures f in nlinks && nlinks[f] == CountAfter(entries, visited, f)
  {
    hide CountAfter, LinkSet, Enumerates;
    CountBounds(entries, visited, f);
  }

  /** One turn of the loop. */
  function Met(entries: map<Path, Entry>, nlinks: map<Path, nat>, p: Path): map<Path, nat>
    requires p in entries
  {
    match entries[p].kind
    case Directory => nlinks
    case Hardlink(link) => nlinks[link := 1 + if link in nlinks then nlinks[link] else 0]
    case _ => nlinks[p := 1]
  }

  lemma CountMet(entries: map<Path, Entry>, nlinks: map<Path, nat>, ps: seq<Path>, p: Path)
    requires p in entries && forall f :: FileCount(entries, nlinks, ps, f)
    ensures forall f :: FileCount(entries, Met(entries, nlinks, p), ps + [p], f)
  {
    hide CountAfter;
    forall f ensures FileCount(entries, Met(entries, nlinks, p), ps + [p], f) {
      assert FileCount(entries, nlinks, ps, f);
      CountPush(entries, ps, p, f);
    }
  }

  ghost predicate TargetsAreFiles(entries: map<Path, Entry>) {
    forall p :: p in entries && entries[p].kind.Hardlink? ==>
      entries[p].kind.link in entries && entries[entries[p].kind.link].kind.File?
  }

  lemma CountPush(entries: map<Path, Entry>, ps: seq<Path>, p: Path, f: Path)
    ensures CountAfter(entries, ps + [p], f) ==
            if p == f then 1 else CountAfter(entries, ps, f) + if LinkTo(entries, p, f) then 1 else 0
  {
    assert (ps + [p])[..|ps|] == ps;
  }

  predicate IsPlain(k: Kind) { !k.Directory? && !k.Hardlink? && !k.File? }

  lemma CountNone(entries: map<Path, Entry>)
    ensures Tops(Nil) == [] && CountDirs(entries, []) == 0 && Visit(Nil) == []
  {
  }

  lemma CountCons(entries: map<Path, Entry>, p: Path, k: Forest, r: Forest)
    ensures CountDirs(entries, Tops(Cons(p, k, r)))
            == (if p in entries && entries[p].kind.Directory? then 1 else 0) + CountDirs(entries, Tops(r))
  {
    assert ([p] + Tops(r))[1..] == Tops(r);
  }

  // ---------------------------------------------------------------- ids

  method InternIDs(entries: map<Path, Entry>, order: seq<Path>, ids: Table)
    returns (ok: bool, uid: map<Path, nat>, gid: map<Path, nat>)
    requires ROOT in entries && ids.Valid() && ids.list == []
    modifies ids
    ensures ids.Valid()
    ensures ok ==> IdsOf(entries, order) == Some(Ids(ids.list, uid, gid))
    ensures !ok ==> IdsOf(entries, order) == None
  {
    hide InternId, Table.Valid;
    uid, gid := map[], map[];
    assert order[0..] == order;
    for i := 0 to |order|
      invariant ids.Valid()
      invariant InternAll(entries, order[i..], Ids(ids.list, uid, gid)) == InternAll(entries, order, NO_IDS)
    {
      var p := order[i];
      assert order[i..][0] == p && order[i..][1..] == order[i + 1..];
      if p in entries && !entries[p].kind.Hardlink? {
        var u, g;
        ok, u := ids.Intern(entries[p].attrs.uid);
        if !ok {
          return;
        }
        ok, g := ids.Intern(entries[p].attrs.gid);
        if !ok {
          return;
        }
        uid, gid := uid[p := u], gid[p := g];
      }
    }
    assert order[|order|..] == [];
    var u, g;
    ok, u := ids.Intern(entries[ROOT].attrs.uid);
    if !ok {
      return;
    }
    ok, g := ids.Intern(entries[ROOT].attrs.gid);
    if !ok {
      return;
    }
    uid, gid := uid[ROOT := u], gid[ROOT := g];
  }

  // ---------------------------------------------------------------- superblock fields

  method TotalInodeCount(entries: map<Path, Entry>) returns (n: nat)
    ensures n == |OwnerSet(entries)|
  {
    n := 0;
    var todo := entries.Keys;
    ghost var done: set<Path> := {};
    while todo != {}
      invariant todo <= entries.Keys
      invariant done == set p | p in entries && p !in todo && !entries[p].kind.Hardlink?
      invariant n == |done|
      decreases |todo|
    {
      var p :| p in todo;
      if !entries[p].kind.Hardlink? {
        n := n + 1;
        done := done + {p};
      }
      todo := todo - {p};
    }
    assert done == OwnerSet(entries);
  }

  /** Which entries' times count for the image time. */
  predicate Timed(entries: map<Path, Entry>, p: Path) {
    p in entries && !entries[p].attrs.mtime.IsZero()
  }

  lemma {:induction false} LatestIs(entries: map<Path, Entry>, ps: seq<Path>, m: int)
    requires m >= 0 && (m == 0 || exists p :: p in ps && Timed(entries, p) && entries[p].attrs.mtime.sec == m)
    requires forall p :: p in ps && Timed(entries, p) ==> entries[p].attrs.mtime.sec <= m
    ensures Latest(entries, ps) == m
  {
    LatestBounds(entries, ps);
    var k := Latest(entries, ps);
    if k != 0 {
      var q :| q in ps && Timed(entries, q) && entries[q].attrs.mtime.sec == k;
    }
  }

  lemma {:induction false} LatestBounds(entries: map<Path, Entry>, ps: seq<Path>)
    ensures forall p :: p in ps && Timed(entries, p) ==> entries[p].attrs.mtime.sec <= Latest(entries, ps)
    ensures Latest(entries, ps) == 0 ||
            exists p :: p in ps && Timed(entries, p) && entries[p].attrs.mtime.sec == Latest(entries, ps)
  {
    if ps != [] {
      LatestBounds(entries, ps[1..]);
      assert forall p :: p in ps <==> p == ps[0] || p in ps[1..];
      var m := Latest(entries, ps[1..]);
      if Latest(entries, ps) == m && m != 0 {
        var q :| q in ps[1..] && Timed(entries, q) && entries[q].attrs.mtime.sec == m;
        assert q in ps;
      } else if Latest(entries, ps) != 0 {
        assert ps[0] in ps && Timed(entries, ps[0]);
      }
    }
  }

  /** The image time: the override, or the latest time of any entry in any iteration order. */
  method ImageMtime(cfg: Config, entries: map<Path, Entry>, order: seq<Path>) returns (t: nat)
    requires forall p :: p in entries <==> p == ROOT || p in order
    requires entries[ROOT].attrs.mtime == cfg.mtime && ROOT !in order
    ensures t == ImageTime(cfg, entries, order)
  {
    hide Latest;
    if !cfg.mtime.IsZero() {
      return Clamp32(cfg.mtime.sec);
    }
    var max := 0;
    var todo := entries.Keys;
    while todo != {}
      invariant todo <= entries.Keys && max >= 0
      invariant max == 0 || exists p :: p in order && Timed(entries, p) && entries[p].attrs.mtime.sec == max
      invariant forall p :: p in entries && p !in todo && Timed(entries, p) ==> entries[p].attrs.mtime.sec <= max
      decreases |todo|
    {
      var p :| p in todo;
      if !entries[p].attrs.mtime.IsZero() && entries[p].attrs.mtime.sec > max {
        max := entries[p].attrs.mtime.sec;
        assert p in order && Timed(entries, p);
      }
      todo := todo - {p};
    }
    LatestIs(entries, order, max);
    t := Clamp32(max);
  }
}

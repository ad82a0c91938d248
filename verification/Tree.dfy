/** The directory tree over a list of created paths: children in name order, every path reachable
    from the root, visited once in preorder. */
module Tree {
  import opened Bytes
  import opened Names
  import opened Paths

  /** Valid paths, none created twice. */
  ghost predicate Listed(order: seq<Path>) {
    && (forall i :: 0 <= i < |order| ==> ValidPath(order[i]))
    && forall i, j :: 0 <= i < j < |order| ==> order[i] != order[j]
  }

  /** Every parent that is not the root was created too. */
  ghost predicate Closed(order: seq<Path>)
    requires Listed(order)
  {
    forall p :: p in order && Dir(p) != ROOT ==> Dir(p) in order
  }

  predicate IsChild(p: Path, d: Path) {
    p != [] && p[0] == SLASH && Dir(p) == d
  }

  /** The paths directly below `d`, in creation order. */
  function ChildrenOf(order: seq<Path>, d: Path): seq<Path> {
    if order == [] then [] else
    (if IsChild(order[0], d) then [order[0]] else []) + ChildrenOf(order[1..], d)
  }

  /** The children of `d` in the order a listing has them. */
  function Kids(order: seq<Path>, d: Path): seq<Path> {
    SortBy(Base, ChildrenOf(order, d))
  }

  lemma {:induction false} ChildrenMembers(order: seq<Path>, d: Path, p: Path)
    ensures p in ChildrenOf(order, d) <==> p in order && IsChild(p, d)
  {
    if order != [] {
      ChildrenMembers(order[1..], d, p);
      assert p in order <==> p == order[0] || p in order[1..];
    }
  }

  lemma {:induction false} ChildrenPush(order: seq<Path>, p: Path, d: Path)
    ensures ChildrenOf(order + [p], d) == ChildrenOf(order, d) + if IsChild(p, d) then [p] else []
  {
    hide IsChild;
    if order == [] {
      assert order + [p] == [p] && [p][1..] == [];
    } else {
      assert (order + [p])[0] == order[0] && (order + [p])[1..] == order[1..] + [p];
      ChildrenPush(order[1..], p, d);
      Assoc(if IsChild(order[0], d) then [order[0]] else [], ChildrenOf(order[1..], d), if IsChild(p, d) then [p]
            else []);
    }
  }

  lemma {:induction false} ChildrenFew(order: seq<Path>, d: Path)
    ensures |ChildrenOf(order, d)| <= |order|
  {
    if order != [] { ChildrenFew(order[1..], d); }
  }

  lemma KidsFew(order: seq<Path>, d: Path)
    ensures |Kids(order, d)| <= |order|
  {
    ChildrenFew(order, d);
    SameElements(Kids(order, d), ChildrenOf(order, d));
  }

  lemma ListedTail(order: seq<Path>)
    requires Listed(order) && order != []
    ensures Listed(order[1..]) && order[0] !in order[1..]
  {
  }

  lemma {:induction false} ChildrenDistinct(order: seq<Path>, d: Path)
    requires Listed(order)
    ensures DistinctKeys(Base, ChildrenOf(order, d))
  {
    hide Listed, Base, IsChild;
    if order != [] {
      ListedTail(order);
      ChildrenDistinct(order[1..], d);
      var p, cs := order[0], ChildrenOf(order[1..], d);
      if IsChild(p, d) {
        forall j | 0 <= j < |cs| ensures Base(p) != Base(cs[j]) {
          ChildrenMembers(order[1..], d, cs[j]);
          DifferentBase(order, p, cs[j], d);
        }
      }
    }
  }

  lemma DifferentBase(order: seq<Path>, p: Path, q: Path, d: Path)
    requires Listed(order) && p in order && q in order && p != q
    requires IsChild(p, d) && IsChild(q, d)
    ensures Base(p) != Base(q)
  {
    if Base(p) == Base(q) { SamePath(p, q); }
  }

  /** What a directory's children are: exactly the created paths with that parent, strictly
      ascending by name. */
  lemma KidsSpec(order: seq<Path>, d: Path)
    requires Listed(order)
    ensures Ascending(Base, Kids(order, d))
    ensures forall p :: p in Kids(order, d) <==> p in order && IsChild(p, d)
  {
    ChildrenDistinct(order, d);
    SortByAscending(Base, ChildrenOf(order, d));
    SameElements(Kids(order, d), ChildrenOf(order, d));
    forall p ensures p in Kids(order, d) <==> p in order && IsChild(p, d) {
      ChildrenMembers(order, d, p);
    }
  }

  // ---------------------------------------------------------------- the forest

  /** A list of sibling nodes, each with the list of its children. */
  datatype Forest = Nil | Cons(path: Path, kids: Forest, rest: Forest)

  function Tops(f: Forest): seq<Path> {
    match f
    case Nil => []
    case Cons(p, _, r) => [p] + Tops(r)
  }

  /** Every path of the forest, parents before their children. */
  function Visit(f: Forest): seq<Path> {
    match f
    case Nil => []
    case Cons(p, k, r) => [p] + Visit(k) + Visit(r)
  }

  function MaxLen(order: seq<Path>): (m: nat)
    ensures forall p :: p in order ==> |p| <= m
  {
    if order == [] then 0 else
    var m := MaxLen(order[1..]);
    if |order[0]| > m then |order[0]| else m
  }

  /** Created paths, all longer than `d`. */
  ghost predicate Below(order: seq<Path>, d: Path, cs: seq<Path>) {
    forall c :: c in cs ==> c in order && |d| < |c|
  }

  /** The forest whose top nodes are `cs`, paths longer than `d`. */
  function Build(order: seq<Path>, d: Path, cs: seq<Path>): Forest
    requires Listed(order) && Below(order, d, cs)
    decreases MaxLen(order) - |d|, |cs|
  {
    if cs == [] then Nil else
    var c := cs[0];
    assert c in cs;
    KidsBelow(order, c);
    Cons(c, Build(order, c, Kids(order, c)), Build(order, d, cs[1..]))
  }

  lemma KidsBelow(order: seq<Path>, d: Path)
    requires Listed(order)
    ensures Below(order, d, Kids(order, d))
  {
    KidsSpec(order, d);
    forall c | c in Kids(order, d) ensures c in order && |d| < |c| { Parent(c); }
  }

  /** The whole tree under the root directory. */
  function Whole(order: seq<Path>): Forest
    requires Listed(order)
  {
    KidsBelow(order, ROOT);
    Cons(ROOT, Build(order, ROOT, Kids(order, ROOT)), Nil)
  }

  /** Below every node hang exactly the node's children, in name order. */
  ghost predicate Shape(order: seq<Path>, f: Forest) {
    match f
    case Nil => true
    case Cons(p, k, r) => Tops(k) == Kids(order, p) && Shape(order, k) && Shape(order, r)
  }

  lemma {:induction false} BuildShape(order: seq<Path>, d: Path, cs: seq<Path>)
    requires Listed(order) && Below(order, d, cs)
    ensures Tops(Build(order, d, cs)) == cs
    ensures Shape(order, Build(order, d, cs))
    decreases MaxLen(order) - |d|, |cs|
  {
    hide Kids, Listed, Shape, Tops, MaxLen;
    if cs == [] {
      NothingShape(order);
    } else {
      var c := cs[0];
      assert c in cs;
      KidsBelow(order, c);
      var ks := Kids(order, c);
      BuildShape(order, c, ks);
      BuildShape(order, d, cs[1..]);
      NodeShape(order, c, Build(order, c, ks), Build(order, d, cs[1..]));
      assert cs == [c] + cs[1..];
    }
  }

  lemma NothingShape(order: seq<Path>)
    ensures Shape(order, Nil) && Tops(Nil) == []
  {
  }

  lemma NodeShape(order: seq<Path>, p: Path, k: Forest, r: Forest)
    requires Shape(order, k) && Shape(order, r) && Tops(k) == Kids(order, p)
    ensures Shape(order, Cons(p, k, r)) && Tops(Cons(p, k, r)) == [p] + Tops(r)
  {
  }

  lemma WholeShape(order: seq<Path>)
    requires Listed(order)
    ensures Shape(order, Whole(order))
  {
    KidsBelow(order, ROOT);
    BuildShape(order, ROOT, Kids(order, ROOT));
  }

  // ---------------------------------------------------------------- reachability

  /** The children of any node of the forest are nodes of the forest. */
  lemma {:induction false} KidsReached(order: seq<Path>, f: Forest, d: Path, c: Path)
    requires Shape(order, f) && d in Visit(f) && c in Kids(order, d)
    ensures c in Visit(f)
  {
    hide Kids;
    if f.Cons? {
      if d == f.path {
        TopsReached(f.kids, c);
      } else if d in Visit(f.kids) {
        KidsReached(order, f.kids, d, c);
      } else {
        KidsReached(order, f.rest, d, c);
      }
    }
  }

  lemma {:induction false} TopsReached(f: Forest, c: Path)
    requires c in Tops(f)
    ensures c in Visit(f)
  {
    if f.Cons? && c != f.path { TopsReached(f.rest, c); }
  }

  /** Every created path is reached from the root. */
  lemma {:induction false} EveryPathReached(order: seq<Path>, p: Path)
    requires Listed(order) && Closed(order) && p in order
    ensures p in Visit(Whole(order))
    decreases |p|
  {
    hide Shape, Kids, Visit, Dir, ValidPath;
    WholeShape(order);
    Parent(p);
    var d := Dir(p);
    if d == ROOT {
      RootFirst(order);
    } else {
      EveryPathReached(order, d);
    }
    IsKid(order, p);
    KidsReached(order, Whole(order), d, p);
  }

  lemma RootFirst(order: seq<Path>)
    requires Listed(order)
    ensures ROOT in Visit(Whole(order))
  {
  }

  lemma IsKid(order: seq<Path>, p: Path)
    requires Listed(order) && p in order
    ensures p in Kids(order, Dir(p))
  {
    KidsSpec(order, Dir(p));
  }

  /** Nothing but created paths and the root is reached. */
  lemma {:induction false} OnlyCreated(order: seq<Path>, f: Forest, p: Path)
    requires Listed(order) && Shape(order, f) && p in Visit(f)
    requires forall c :: c in Tops(f) ==> c == ROOT || c in order
    ensures p == ROOT || p in order
  {
    hide Kids, Listed;
    if f.Cons? {
      if p == f.path {
        assert p in Tops(f);
      } else if p in Visit(f.kids) {
        KidsBelow(order, f.path);
        OnlyCreated(order, f.kids, p);
      } else {
        assert forall c :: c in Tops(f.rest) ==> c in Tops(f);
        OnlyCreated(order, f.rest, p);
      }
    }
  }

  // ---------------------------------------------------------------- no path twice

  /** `c` is `p` or one of its ancestors below the root. */
  ghost predicate Above(c: Path, p: Path)
    decreases |p|
  {
    p == c || (ValidPath(p) && |Dir(p)| < |p| && Above(c, Dir(p)))
  }

  lemma {:induction false} AboveLength(c: Path, p: Path)
    requires Above(c, p)
    ensures |c| <= |p|
    decreases |p|
  {
    if p != c { AboveLength(c, Dir(p)); }
  }

  /** Two different siblings have no common descendant. */
  lemma {:induction false} SiblingsApart(c: Path, c': Path, p: Path)
    requires ValidPath(c) && ValidPath(c') && Dir(c) == Dir(c') && c != c'
    requires Above(c, p)
    ensures !Above(c', p)
    decreases |p|
  {
    hide GoodParts, Dir;
    if Above(c', p) {
      Parent(c);
      Parent(c');
      if p == c {
        AboveLength(c', Dir(c));
      } else if p == c' {
        AboveLength(c, Dir(c'));
      } else {
        SiblingsApart(c, c', Dir(p));
      }
    }
  }

  /** Everything below a node has that node above it. */
  lemma {:induction false} NodesBelow(order: seq<Path>, f: Forest, d: Path, p: Path)
    requires Listed(order) && Shape(order, f) && p in Visit(f)
    requires forall c :: c in Tops(f) ==> c in order && IsChild(c, d)
    ensures exists c :: c in Tops(f) && Above(c, p)
  {
    hide Kids, Listed;
    var t := f.path;
    assert t in Tops(f);
    if p == t {
      assert Above(t, p);
    } else if p in Visit(f.kids) {
      KidsAreChildren(order, t);
      NodesBelow(order, f.kids, t, p);
      var c :| c in Tops(f.kids) && Above(c, p);
      ChildAbove(order, t, c, p);
    } else {
      assert forall c :: c in Tops(f.rest) ==> c in Tops(f);
      NodesBelow(order, f.rest, d, p);
    }
  }

  lemma KidsAreChildren(order: seq<Path>, d: Path)
    requires Listed(order)
    ensures forall c :: c in Kids(order, d) ==> c in order && IsChild(c, d)
  {
    KidsSpec(order, d);
  }

  /** An ancestor's parent is an ancestor. */
  lemma {:induction false} ChildAbove(order: seq<Path>, d: Path, c: Path, p: Path)
    requires Listed(order) && c in order && IsChild(c, d) && Above(c, p)
    ensures Above(d, p)
    decreases |p|
  {
    if p == c {
      Parent(c);
      assert Above(d, d);
    } else {
      ChildAbove(order, d, c, Dir(p));
    }
  }

  ghost predicate NoDup(ps: seq<Path>) {
    forall i, j :: 0 <= i < j < |ps| ==> ps[i] != ps[j]
  }

  lemma NoDupAppend(xs: seq<Path>, ys: seq<Path>)
    requires NoDup(xs) && NoDup(ys) && forall x :: x in xs ==> x !in ys
    ensures NoDup(xs + ys)
  {
    var zs := xs + ys;
    forall i, j | 0 <= i < j < |zs| ensures zs[i] != zs[j] {
      if i < |xs| <= j {
        assert zs[i] in xs && zs[j] in ys;
      }
    }
  }

  /** A forest of distinct siblings visits no path twice. */
  lemma {:induction false} VisitedOnce(order: seq<Path>, f: Forest, d: Path)
    requires Listed(order) && Shape(order, f) && NoDup(Tops(f))
    requires forall c :: c in Tops(f) ==> c in order && IsChild(c, d)
    ensures NoDup(Visit(f))
  {
    hide Kids, Listed, IsChild, ValidPath, Above;
    if f.Cons? {
      var t := f.path;
      assert t in Tops(f);
      assert forall c :: c in Tops(f.rest) ==> c in Tops(f);
      KidsAreChildren(order, t);
      KidsNoDup(order, t);
      VisitedOnce(order, f.kids, t);
      assert NoDup(Tops(f.rest)) by { TailNoDup(t, Tops(f.rest)); }
      VisitedOnce(order, f.rest, d);
      forall p | p in [t] + Visit(f.kids) ensures p !in Visit(f.rest) {
        BelowTop(order, f, p);
        if p in Visit(f.rest) {
          NodesBelow(order, f.rest, d, p);
          TopsApart(order, f, d, p);
        }
      }
      forall p | p in [t] ensures p !in Visit(f.kids) {
        if t in Visit(f.kids) { NotBelowItself(order, f.kids, t); }
      }
      NoDupAppend([t], Visit(f.kids));
      NoDupAppend([t] + Visit(f.kids), Visit(f.rest));
    }
  }

  lemma TailNoDup(t: Path, ts: seq<Path>)
    requires NoDup([t] + ts)
    ensures NoDup(ts) && t !in ts
  {
    forall i, j | 0 <= i < j < |ts| ensures ts[i] != ts[j] {
      assert ([t] + ts)[i + 1] != ([t] + ts)[j + 1];
    }
    forall i | 0 <= i < |ts| ensures ts[i] != t {
      assert ([t] + ts)[0] != ([t] + ts)[i + 1];
    }
  }

  lemma KidsNoDup(order: seq<Path>, d: Path)
    requires Listed(order)
    ensures NoDup(Kids(order, d))
  {
    KidsSpec(order, d);
    var ks := Kids(order, d);
    forall i, j | 0 <= i < j < |ks| ensures ks[i] != ks[j] {
      assert Less(Base(ks[i]), Base(ks[j]));
      LessIrreflexive(Base(ks[i]));
    }
  }

  lemma BelowTop(order: seq<Path>, f: Forest, p: Path)
    requires Listed(order) && f.Cons? && Shape(order, f) && p in [f.path] + Visit(f.kids)
    requires f.path in order
    ensures Above(f.path, p)
  {
    if p != f.path {
      KidsAreChildren(order, f.path);
      NodesBelow(order, f.kids, f.path, p);
      var c :| c in Tops(f.kids) && Above(c, p);
      ChildAbove(order, f.path, c, p);
    }
  }

  lemma TopsApart(order: seq<Path>, f: Forest, d: Path, p: Path)
    requires Listed(order) && f.Cons? && NoDup(Tops(f)) && Above(f.path, p)
    requires forall c :: c in Tops(f) ==> c in order && IsChild(c, d)
    ensures forall c :: c in Tops(f.rest) ==> !Above(c, p)
  {
    TailNoDup(f.path, Tops(f.rest));
    assert f.path in Tops(f);
    forall c | c in Tops(f.rest) ensures !Above(c, p) {
      assert c in Tops(f);
      SiblingsApart(f.path, c, p);
    }
  }

  lemma NotBelowItself(order: seq<Path>, k: Forest, t: Path)
    requires Listed(order) && Shape(order, k) && Tops(k) == Kids(order, t)
    ensures t !in Visit(k)
  {
    if t in Visit(k) {
      KidsAreChildren(order, t);
      NodesBelow(order, k, t, t);
      var c :| c in Tops(k) && Above(c, t);
      AboveLength(c, t);
      Parent(c);
    }
  }

  /** The walk from the root visits the root and every created path exactly once. */
  lemma WholeVisits(order: seq<Path>)
    requires Listed(order) && Closed(order)
    ensures NoDup(Visit(Whole(order)))
    ensures forall p :: p in Visit(Whole(order)) <==> p == ROOT || p in order
  {
    hide Kids, Shape, Closed;
    var w := Whole(order);
    WholeShape(order);
    KidsAreChildren(order, ROOT);
    KidsNoDup(order, ROOT);
    ShapeParts(order, w);
    VisitedOnce(order, w.kids, ROOT);
    assert Visit(w) == [ROOT] + Visit(w.kids);
    NotBelowItself(order, w.kids, ROOT);
    NoDupAppend([ROOT], Visit(w.kids));
    forall p ensures p in Visit(w) <==> p == ROOT || p in order {
      if p in order { EveryPathReached(order, p); }
      if p in Visit(w) { OnlyCreated(order, w, p); }
    }
  }

  lemma ShapeParts(order: seq<Path>, f: Forest)
    requires Shape(order, f) && f.Cons?
    ensures Tops(f.kids) == Kids(order, f.path) && Shape(order, f.kids) && Shape(order, f.rest)
  {
  }
}

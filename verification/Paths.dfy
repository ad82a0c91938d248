/** Canonical absolute paths, their parents and their last components. */
module Paths {
  import opened Bytes
  import opened Names

  type Path = seq<Byte>

  const SLASH: Byte := 47
  const DOT: Byte := 46
  const ROOT: Path := [SLASH]

  /** Pieces between separators; a string without separator is one piece. */
  function Split(s: seq<Byte>): (r: seq<Name>)
    ensures |r| >= 1
  {
    if s == [] then [[]] else
    var r := Split(s[1..]);
    if s[0] == SLASH then [[]] + r else [[s[0]] + r[0]] + r[1..]
  }

  predicate GoodPart(s: Name) {
    s != [] && s != [DOT] && s != [DOT, DOT]
  }

  predicate GoodParts(ps: seq<Name>) {
    forall i :: 0 <= i < |ps| ==> GoodPart(ps[i])
  }

  /** The writer's path check: leading separator, no trailing one, no empty, "." or ".." component. */
  predicate ValidPath(p: Path) {
    && p != [] && p != ROOT
    && p[0] == SLASH
    && p[|p| - 1] != SLASH
    && GoodParts(Split(p[1..]))
  }

  /** The bytes from `i` to `j` are a component: slashes or the ends around them, no slash among them. */
  predicate Piece(s: seq<Byte>, i: nat, j: nat) {
    && i <= j <= |s| && (i == 0 || s[i - 1] == 47) && (j == |s| || s[j] == 47)
    && forall k :: i <= k < j ==> s[k] != 47
  }

  lemma TailSlice(s: seq<Byte>, i: nat, j: nat)
    requires 0 < i <= j <= |s|
    ensures s[1..][i - 1..j - 1] == s[i..j]
  {
  }

  lemma {:induction false} PieceIsPart(s: seq<Byte>, i: nat, j: nat)
    requires Piece(s, i, j)
    ensures if i == 0 then s[..j] == Split(s)[0] else s[i..j] in Split(s)[1..]
  {
    if s != [] {
      var t := s[1..];
      if i > 0 {
        PieceIsPart(t, i - 1, j - 1);
        TailSlice(s, i, j);
        assert i == 1 ==> s[i..j] == Split(t)[0];
      } else if j > 0 {
        PieceIsPart(t, 0, j - 1);
        assert s[..j] == [s[0]] + t[..j - 1];
      }
    }
  }

  /** Components of the tail are components of the whole; one at the front grows by a byte that is no slash. */
  lemma TailPiece(s: seq<Byte>, i: nat, j: nat)
    requires s != [] && Piece(s[1..], i, j)
    ensures i > 0 || s[0] == 47 ==> Piece(s, i + 1, j + 1) && s[i + 1..j + 1] == s[1..][i..j]
    ensures i == 0 && s[0] != 47 ==> Piece(s, 0, j + 1) && s[..j + 1] == [s[0]] + s[1..][..j]
  {
    var t := s[1..];
    assert forall k :: 0 <= k < |t| ==> t[k] == s[k + 1];
  }

  lemma {:induction false} PartIsPiece(s: seq<Byte>, n: nat) returns (i: nat, j: nat)
    requires n < |Split(s)|
    ensures Piece(s, i, j) && s[i..j] == Split(s)[n] && (i == 0 <==> n == 0)
  {
    hide Piece;
    i, j := 0, 0;
    assert Piece([], 0, 0) by { NoPiece([]); }
    if s != [] {
      if s[0] == SLASH && n == 0 {
        assert Piece(s, 0, 0) by { NoPiece(s); }
      } else {
        i, j := PartIsPiece(s[1..], if s[0] == SLASH then n - 1 else n);
        TailPiece(s, i, j);
        i, j := if n == 0 then 0 else i + 1, j + 1;
      }
    }
  }

  lemma NoPiece(s: seq<Byte>)
    requires s == [] || s[0] == 47
    ensures Piece(s, 0, 0)
  {
  }

  predicate Proper(s: Name) { s != [] && s != [46] && s != [46, 46] }

  lemma GoodFromPieces(p: Path)
    requires |p| > 1 && p[0] == 47 && forall i: nat, j: nat | 0 < i && Piece(p, i, j) :: Proper(p[i..j])
    ensures ValidPath(p)
  {
    hide Split, Piece;
    var s := p[1..];
    forall n | 0 <= n < |Split(s)| ensures GoodPart(Split(s)[n]) {
      var i, j := PartIsPiece(s, n);
      TailPiece(p, i, j);
    }
    EndPiece(p);
  }

  lemma EndPiece(p: Path)
    requires p != []
    ensures Piece(p, |p|, |p|) <==> p[|p| - 1] == 47
    ensures p[|p|..|p|] == []
  {
  }

  lemma PieceIsGood(p: Path, i: nat, j: nat)
    requires ValidPath(p) && 0 < i && Piece(p, i, j)
    ensures Proper(p[i..j])
  {
    hide Split;
    var s := p[1..];
    TailSlice(p, i, j);
    assert Piece(s, i - 1, j - 1) by { HeadlessPiece(p, i, j); }
    PieceIsPart(s, i - 1, j - 1);
    assert p[i..j] in Split(s);
    var n :| 0 <= n < |Split(s)| && Split(s)[n] == p[i..j];
    assert GoodPart(Split(s)[n]);
  }

  lemma HeadlessPiece(s: seq<Byte>, i: nat, j: nat)
    requires 0 < i && Piece(s, i, j)
    ensures Piece(s[1..], i - 1, j - 1)
  {
    var t := s[1..];
    assert forall k :: 0 <= k < |t| ==> t[k] == s[k + 1];
  }

  /** A path is valid if and only if it starts with a slash and no component of it is empty, "." or "..". */
  lemma ValidPathMeans(p: Path)
    ensures ValidPath(p) <==>
              |p| > 1 && p[0] == 47 && forall i: nat, j: nat | 0 < i && Piece(p, i, j) :: Proper(p[i..j])
  {
    hide GoodParts, Proper;
    if ValidPath(p) {
      forall i: nat, j: nat | 0 < i && Piece(p, i, j) ensures Proper(p[i..j]) { PieceIsGood(p, i, j); }
    }
    if |p| > 1 && p[0] == 47 && forall i: nat, j: nat | 0 < i &&
        Piece(p, i, j) :: Proper(p[i..j]) { GoodFromPieces(p); }
  }

  predicate NoSlash(s: seq<Byte>) {
    forall i :: 0 <= i < |s| ==> s[i] != SLASH
  }

  /** Index of the last separator. */
  function LastSlash(p: Path): (k: nat)
    requires p != [] && p[0] == SLASH
    ensures k < |p| && p[k] == SLASH && NoSlash(p[k + 1..])
  {
    if p[|p| - 1] == SLASH then |p| - 1 else
    assert p[..|p| - 1][0] == p[0];
    var k := LastSlash(p[..|p| - 1]);
    assert p[k + 1..] == p[..|p| - 1][k + 1..] + [p[|p| - 1]];
    k
  }

  /** path.Dir on a canonical path: everything before the last separator, "/" at the top. */
  function Dir(p: Path): Path
    requires p != [] && p[0] == SLASH
  {
    if LastSlash(p) == 0 then ROOT else p[..LastSlash(p)]
  }

  /** path.Base on a canonical path: everything after the last separator. */
  function Base(p: Path): Name {
    if p != [] && p[0] == SLASH then p[LastSlash(p) + 1..] else p
  }

  function Join(d: Path, name: Name): Path {
    if d == ROOT then d + name else d + [SLASH] + name
  }

  lemma {:induction false} SplitNoSlash(s: seq<Byte>)
    requires NoSlash(s)
    ensures Split(s) == [s]
  {
    if s != [] {
      SplitNoSlash(s[1..]);
      assert s == [s[0]] + s[1..];
    }
  }

  /** Putting a byte before the first part commutes with appending parts. */
  lemma HeadAppend(h: Byte, r: seq<Name>, t: seq<Name>)
    requires r != []
    ensures [[h] + (r + t)[0]] + (r + t)[1..] == [[h] + r[0]] + r[1..] + t
  {
    assert (r + t)[0] == r[0];
    assert (r + t)[1..] == r[1..] + t;
    Assoc([[h] + r[0]], r[1..], t);
  }

  lemma {:induction false} SplitAppend(a: seq<Byte>, b: seq<Byte>)
    ensures Split(a + [SLASH] + b) == Split(a) + Split(b)
  {
    var s := a + [SLASH] + b;
    if a == [] {
      assert s[1..] == b && s[0] == SLASH;
    } else {
      SplitAppend(a[1..], b);
      assert s[0] == a[0];
      assert s[1..] == a[1..] + [SLASH] + b;
      if a[0] == SLASH {
        Assoc([[]], Split(a[1..]), Split(b));
      } else {
        HeadAppend(a[0], Split(a[1..]), Split(b));
      }
    }
  }

  /** A valid path is its parent joined with a proper name, and the parent is the root or valid. */
  lemma Parent(p: Path)
    requires ValidPath(p)
    ensures p == Join(Dir(p), Base(p))
    ensures |Dir(p)| < |p|
    ensures GoodPart(Base(p)) && NoSlash(Base(p))
    ensures Dir(p) == ROOT || ValidPath(Dir(p))
  {
    hide Split;
    var k := LastSlash(p);
    var base := p[k + 1..];
    if k == 0 {
      assert p == ROOT + base;
      assert p[1..] == base;
      SplitNoSlash(base);
      assert GoodPart([base][0]);
    } else {
      var a := p[1..k];
      assert p[1..] == a + [SLASH] + base;
      SplitAppend(a, base);
      SplitNoSlash(base);
      LastPart(Split(a), base);
      assert p == p[..k] + [SLASH] + base;
      assert p[..k][1..] == a;
      NotTrailing(p[..k]);
    }
  }

  lemma LastPart(ps: seq<Name>, base: Name)
    requires GoodParts(ps + [base])
    ensures GoodParts(ps) && GoodPart(base)
  {
    assert (ps + [base])[|ps|] == base;
    forall i | 0 <= i < |ps| ensures GoodPart(ps[i]) {
      assert (ps + [base])[i] == ps[i];
    }
  }

  /** Good components leave no room for a trailing separator. */
  lemma NotTrailing(d: Path)
    requires d != [] && d[0] == SLASH && GoodParts(Split(d[1..]))
    ensures d != ROOT && d[|d| - 1] != SLASH
  {
    if d == ROOT {
      assert d[1..] == [];
      EmptyPart(Split(d[1..]), 0);
    } else if d[|d| - 1] == SLASH {
      var a := d[1..|d| - 1];
      assert d[1..] == a + [SLASH] + [];
      SplitAppend(a, []);
      EmptyPart(Split(d[1..]), |Split(a)|);
    }
  }

  lemma EmptyPart(ps: seq<Name>, i: nat)
    requires i < |ps| && ps[i] == []
    ensures !GoodParts(ps)
  {
    assert !GoodPart(ps[i]);
  }

  lemma LastSlashIs(p: Path, at: nat)
    requires p != [] && p[0] == SLASH && at < |p| && p[at] == SLASH && NoSlash(p[at + 1..])
    ensures LastSlash(p) == at
  {
    var k := LastSlash(p);
    if k != at {
      assert false;
    }
  }

  /** Two valid paths with the same parent and the same last component are the same path. */
  lemma SamePath(p: Path, q: Path)
    requires ValidPath(p) && ValidPath(q) && Dir(p) == Dir(q) && Base(p) == Base(q)
    ensures p == q
  {
    Parent(p);
    Parent(q);
  }

  /** A child of a directory is where the directory's path and the child's name say. */
  lemma JoinParent(d: Path, name: Name)
    requires d == ROOT || ValidPath(d)
    requires name != [] && NoSlash(name)
    ensures var p := Join(d, name); p != [] && p[0] == SLASH && Dir(p) == d && Base(p) == name
  {
    var p := Join(d, name);
    var at := if d == ROOT then 0 else |d|;
    assert p[at] == SLASH && p[at + 1..] == name;
    LastSlashIs(p, at);
  }

  /** A plain name at the top is a valid path. */
  lemma TopLevel(b: seq<Byte>)
    requires NoSlash(b) && GoodPart(b)
    ensures var p := [SLASH] + b; ValidPath(p) && Dir(p) == ROOT && Base(p) == b
  {
    hide Split, LastSlash;
    var p := [SLASH] + b;
    assert p[1..] == b;
    SplitNoSlash(b);
    assert p[|p| - 1] == b[|b| - 1];
    LastSlashIs(p, 0);
  }
}

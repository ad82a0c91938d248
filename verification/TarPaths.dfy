/** Tar entry names and where they land in the image. */
module TarPaths {
  import opened Bytes
  import opened Names
  import opened Paths

  const HERE: seq<Byte> := [DOT, SLASH]

  /** "/.craftling": the directory that belongs to the image pipeline. */
  const INSTALL: Path := [47, 46, 99, 114, 97, 102, 116, 108, 105, 110, 103]
  /** "/.craftling/init". */
  const INIT: Path := INSTALL + [47, 105, 110, 105, 116]
  /** "/proc", "/sys", "/dev", "/tmp", "/run". */
  const TMP: Path := [47, 116, 109, 112]
  const MOUNTPOINTS: seq<Path> := [[47, 112, 114, 111, 99], [47, 115, 121, 115], [47, 100, 101, 118], TMP,
                                   [47, 114, 117, 110]]

  function TrimHere(s: seq<Byte>): seq<Byte> {
    if |s| >= 2 && s[..2] == HERE then s[2..] else s
  }

  function TrimSlash(s: seq<Byte>): seq<Byte> {
    if s != [] && s[|s| - 1] == SLASH then s[..|s| - 1] else s
  }

  /** The canonical path of a tar name; an empty path stands for the archive root, nothing for a
      name that is refused. */
  function NormalizeTarPath(name: seq<Byte>): Option<Path> {
    if name == [] || 0 in name then None else
    if name == [DOT] || name == [SLASH] || name == HERE then Some([]) else
    var s := TrimHere(name);
    if s != [] && s[0] == SLASH then None else
    var t := TrimSlash(s);
    if t == [] || !GoodParts(Split(t)) then None else Some([SLASH] + t)
  }

  /** The four ways a tar writer spells the path `p`. */
  predicate Spells(name: seq<Byte>, p: Path) {
    p != [] && var b := p[1..]; name == b || name == HERE + b || name == b + [SLASH] || name == HERE + b + [SLASH]
  }

  /** Good components rule out an empty or "." first component and a trailing separator. */
  lemma FirstPart(s: seq<Byte>)
    requires GoodParts(Split(s))
    ensures s != [] && s[0] != SLASH && s[|s| - 1] != SLASH && s != [DOT] && !(|s| >= 2 && s[..2] == HERE)
  {
    hide Split, GoodParts;
    var d := [SLASH] + s;
    assert d[1..] == s;
    NotTrailing(d);
    assert s[|s| - 1] == d[|d| - 1];
    LeadingSlash(s);
    LeadingDot(s);
  }

  lemma LeadingSlash(s: seq<Byte>)
    requires GoodParts(Split(s)) && s != []
    ensures s[0] != SLASH
  {
    if s[0] == SLASH { EmptyPart(Split(s), 0); }
  }

  lemma DotPart(ps: seq<Name>)
    requires |ps| > 0 && ps[0] == [DOT]
    ensures !GoodParts(ps)
  {
    assert !GoodPart(ps[0]);
  }

  lemma SplitHere(s: seq<Byte>)
    requires |s| >= 2 && s[..2] == HERE
    ensures Split(s)[0] == [DOT]
  {
    hide Split;
    var rest := s[2..];
    assert s == [DOT] + [SLASH] + rest;
    SplitAppend([DOT], rest);
    SplitNoSlash([DOT]);
  }

  lemma LeadingDot(s: seq<Byte>)
    requires GoodParts(Split(s))
    ensures s != [DOT] && !(|s| >= 2 && s[..2] == HERE)
  {
    hide Split, GoodParts;
    if |s| >= 2 && s[..2] == HERE {
      SplitHere(s);
      DotPart(Split(s));
    }
    SplitNoSlash([DOT]);
    if s == [DOT] {
      DotPart(Split(s));
    }
  }

  /** Every accepted name spells a path the writer accepts. */
  lemma NormalizedIsValid(name: seq<Byte>)
    requires NormalizeTarPath(name).Some? && NormalizeTarPath(name).value != []
    ensures var p := NormalizeTarPath(name).value; ValidPath(p) && 0 !in p && Spells(name, p)
  {
    hide Split, GoodParts;
    var s := TrimHere(name);
    var t := TrimSlash(s);
    var p := [SLASH] + t;
    assert p[1..] == t;
    FirstPart(t);
    assert p[|p| - 1] == t[|t| - 1];
    assert s == t || s == t + [SLASH];
    assert name == s || name == HERE + s;
    assert HERE + (t + [SLASH]) == HERE + t + [SLASH];
    forall i | 0 <= i < |t| ensures t[i] != 0 {
      assert t[i] == s[i] && s[i] in name;
    }
  }

  lemma NoNul(name: seq<Byte>, p: Path)
    requires 0 !in p && Spells(name, p)
    ensures 0 !in name
  {
  }

  lemma NotSpecial(name: seq<Byte>, b: seq<Byte>)
    requires b != [] && b[0] != SLASH && b != [DOT] && !(|b| >= 2 && b[..2] == HERE)
    requires name == b || name == HERE + b || name == b + [SLASH] || name == HERE + b + [SLASH]
    ensures name != [] && name != [DOT] && name != [SLASH] && name != HERE
  {
    NotHere(b);
    assert HERE[..2] == HERE;
  }

  /** And every path the writer accepts can be spelled, in any of the four ways. */
  lemma SpellingIsNormalized(name: seq<Byte>, p: Path)
    requires ValidPath(p) && 0 !in p && Spells(name, p)
    ensures NormalizeTarPath(name) == Some(p)
  {
    hide Split, GoodParts, TrimHere;
    var b := p[1..];
    FirstPart(b);
    NoNul(name, p);
    NotSpecial(name, b);
    TrimmedHere(name, b);
    assert (b + [SLASH])[..|b|] == b && (b + [SLASH])[0] == b[0];
    assert p == [SLASH] + b;
  }

  lemma NotHere(b: seq<Byte>)
    requires b != [] && b != [DOT] && !(|b| >= 2 && b[..2] == HERE)
    ensures (b + [SLASH])[..2] != HERE
  {
    var s := b + [SLASH];
    if |b| == 1 {
      assert b == [b[0]] && s[..2][0] == b[0];
    } else {
      assert s[..2] == b[..2];
    }
  }

  lemma TrimmedHere(name: seq<Byte>, b: seq<Byte>)
    requires b != [] && b[0] != SLASH && b != [DOT] && !(|b| >= 2 && b[..2] == HERE)
    requires name == b || name == HERE + b || name == b + [SLASH] || name == HERE + b + [SLASH]
    ensures TrimHere(name) == b || TrimHere(name) == b + [SLASH]
  {
    if name == HERE + b + [SLASH] {
      assert name == HERE + (b + [SLASH]);
    } else if name == b + [SLASH] {
      NotHere(b);
    }
  }

  /** All there is to say about a tar name: ".", "/" and "./" are the archive's root; a valid path without NUL, with or
      without a leading "./" and a trailing slash, is itself; anything else is refused. */
  lemma NormalizeExact(name: seq<Byte>, p: Path)
    ensures NormalizeTarPath(name) == Some([]) <==> name == [46] || name == [47] || name == [46, 47]
    ensures p != [] ==>
              (NormalizeTarPath(name) == Some(p) <==>
                 && ValidPath(p) && 0 !in p
                 && (name == p[1..] || name == [46, 47] + p[1..] || name == p[1..] + [47] ||
                     name == [46, 47] + p[1..] + [47]))
  {
    hide Split, GoodParts, TrimHere, TrimSlash;
    if p != [] {
      if NormalizeTarPath(name) == Some(p) { NormalizedIsValid(name); }
      if ValidPath(p) && 0 !in p && Spells(name, p) { SpellingIsNormalized(name, p); }
    }
  }

  // ---------------------------------------------------------------- below a directory

  predicate Under(d: Path, p: Path) {
    p == d || (|d| < |p| && p[..|d|] == d && p[|d|] == SLASH)
  }

  lemma SlashBefore(p: Path, i: nat)
    requires p != [] && p[0] == SLASH && i < |p| && p[i] == SLASH
    ensures i <= LastSlash(p)
  {
    var k := LastSlash(p);
    if k < i { SlashLater(p, k, i); }
  }

  lemma SlashLater(p: Path, k: int, i: int)
    requires 0 <= k < i < |p| && p[i] == SLASH
    ensures !NoSlash(p[k + 1..])
  {
    assert p[k + 1..][i - k - 1] == SLASH;
  }

  /** Below `d` means: `d` itself, or a path whose parent is below `d`. */
  lemma ParentUnder(d: Path, p: Path)
    requires ValidPath(p) && ValidPath(d)
    ensures Under(d, p) && p != d ==> Dir(p) != ROOT && Under(d, Dir(p))
    ensures Dir(p) != ROOT && Under(d, Dir(p)) ==> Under(d, p)
  {
    hide GoodParts;
    var k := LastSlash(p);
    if Under(d, p) && p != d {
      assert p[|d|] == SLASH;
      SlashBefore(p, |d|);
      assert p[..k][..|d|] == d;
      if k > |d| { assert p[..k][|d|] == SLASH; }
    }
    if Dir(p) != ROOT && Under(d, Dir(p)) {
      assert p[..|d|] == d;
    }
  }

  /** The directories above `p`, shallowest first. */
  function Ancestors(p: Path): seq<Path>
    requires ValidPath(p)
    decreases |p|
  {
    Parent(p);
    if Dir(p) == ROOT then [] else Ancestors(Dir(p)) + [Dir(p)]
  }

  ghost predicate Link(up: seq<Path>, i: nat)
    requires i < |up|
  {
    ValidPath(up[i]) && Dir(up[i]) == if i == 0 then ROOT else up[i - 1]
  }

  /** Valid paths, each one the parent of the next, starting at the top. */
  ghost predicate Chain(up: seq<Path>) {
    forall i :: 0 <= i < |up| ==> Link(up, i)
  }

  lemma ChainPush(up: seq<Path>, d: Path)
    requires Chain(up) && ValidPath(d) && Dir(d) == if up == [] then ROOT else up[|up| - 1]
    ensures Chain(up + [d])
  {
    hide GoodParts, Dir;
    var r := up + [d];
    forall i | 0 <= i < |r| ensures Link(r, i) {
      if i < |up| { assert Link(up, i); }
    }
  }

  /** The ancestors form such a chain, ending at the parent of `p`. */
  lemma {:induction false} AncestorChain(p: Path)
    requires ValidPath(p)
    ensures var up := Ancestors(p); Chain(up) && Dir(p) == if up == [] then ROOT else up[|up| - 1]
    decreases |p|
  {
    hide Chain, Dir;
    Parent(p);
    if Dir(p) == ROOT {
      assert Chain([]) by { EmptyChain(); }
    } else {
      AncestorChain(Dir(p));
      ChainPush(Ancestors(Dir(p)), Dir(p));
    }
  }

  lemma EmptyChain()
    ensures Chain([])
  {
  }

  /** An ancestor of something outside `d` is outside `d`. */
  lemma {:induction false} AncestorsOutside(d: Path, p: Path)
    requires ValidPath(p) && ValidPath(d) && !Under(d, p)
    ensures forall a :: a in Ancestors(p) ==> !Under(d, a)
    decreases |p|
  {
    Parent(p);
    if Dir(p) != ROOT {
      ParentUnder(d, p);
      AncestorsOutside(d, Dir(p));
    }
  }
}

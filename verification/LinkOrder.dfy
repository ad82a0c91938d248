/** The link count that the initializing loop leaves at a regular file, as a function of the order in which the
    loop meets the entries: Go ranges over a map in any order. */
module LinkOrder {
  import opened Bytes
  import opened Paths
  import opened Tree
  import opened Entries

  predicate LinkTo(entries: map<Path, Entry>, p: Path, f: Path) {
    p in entries && entries[p].kind.Hardlink? && entries[p].kind.link == f
  }

  function LinkSet(entries: map<Path, Entry>, f: Path): set<Path> { set p | p in entries && LinkTo(entries, p, f) }

  /** An order in which a range over the map may meet its entries. */
  ghost predicate Enumerates(entries: map<Path, Entry>, ps: seq<Path>) {
    NoDup(ps) && forall p :: p in ps <==> p in entries
  }

  /** The loop, seen from file `f`: the file itself is set to one, a hardlink to it adds one. */
  function CountAfter(entries: map<Path, Entry>, ps: seq<Path>, f: Path): nat {
    if ps == [] then 0 else
    var last, before := ps[|ps| - 1], CountAfter(entries, ps[..|ps| - 1], f);
    if last == f then 1 else if LinkTo(entries, last, f) then before + 1 else before
  }

  /** How many of these are hardlinks to `f`. */
  function LinksIn(entries: map<Path, Entry>, ps: seq<Path>, f: Path): nat {
    if ps == [] then 0 else LinksIn(entries, ps[..|ps| - 1], f) + if LinkTo(entries, ps[|ps| - 1], f) then 1 else 0
  }

  /** The hardlinks met before their file are forgotten when the file is set to one. */
  lemma {:induction false} CountsLinksAfter(entries: map<Path, Entry>, a: seq<Path>, b: seq<Path>, f: Path)
    requires f !in b
    ensures CountAfter(entries, a + [f] + b, f) == 1 + LinksIn(entries, b, f)
    decreases |b|
  {
    if b == [] {
      assert a + [f] + b == a + [f];
    } else {
      var ps := a + [f] + b;
      assert ps[..|ps| - 1] == a + [f] + b[..|b| - 1] && ps[|ps| - 1] == b[|b| - 1];
      CountsLinksAfter(entries, a, b[..|b| - 1], f);
    }
  }

  lemma {:induction false} LinksInSet(entries: map<Path, Entry>, ps: seq<Path>, f: Path)
    requires NoDup(ps)
    ensures LinksIn(entries, ps, f) == |set p | p in ps && LinkTo(entries, p, f)|
    decreases |ps|
  {
    var all := set p | p in ps && LinkTo(entries, p, f);
    if ps == [] {
      assert all == {};
    } else {
      var last, qs := ps[|ps| - 1], ps[..|ps| - 1];
      LinksInSet(entries, qs, f);
      var rest := set p | p in qs && LinkTo(entries, p, f);
      assert ps == qs + [last] && last !in rest;
      assert all == if LinkTo(entries, last, f) then rest + {last} else rest;
    }
  }

  lemma {:induction false} SomeOrder(s: set<Path>) returns (ps: seq<Path>)
    ensures NoDup(ps) && forall p :: p in ps <==> p in s
  {
    ps := [];
    if s != {} {
      var p :| p in s;
      var qs := SomeOrder(s - {p});
      ps := qs + [p];
    }
  }

  /** Meeting the file first gives the documented count, meeting it last gives one. */
  lemma BothExtremes(entries: map<Path, Entry>, f: Path) returns (first: seq<Path>, last: seq<Path>)
    requires f in entries && entries[f].kind.File?
    ensures Enumerates(entries, first) && CountAfter(entries, first, f) == 1 + |LinkSet(entries, f)|
    ensures Enumerates(entries, last) && CountAfter(entries, last, f) == 1
  {
    hide CountAfter, LinksIn;
    var others := SomeOrder(entries.Keys - {f});
    first, last := [] + [f] + others, others + [f] + [];
    CountsLinksAfter(entries, [], others, f);
    CountsLinksAfter(entries, others, [], f);
    LinksInSet(entries, others, f);
    assert (set p | p in others && LinkTo(entries, p, f)) == LinkSet(entries, f);
    LinksInSet(entries, [], f);
    assert (set p | p in [] && LinkTo(entries, p, f)) == {};
  }

  /** In no order is the count zero or above the documented one. */
  lemma CountBounds(entries: map<Path, Entry>, ps: seq<Path>, f: Path)
    requires Enumerates(entries, ps) && f in entries && entries[f].kind.File?
    ensures 1 <= CountAfter(entries, ps, f) <= 1 + |LinkSet(entries, f)|
  {
    hide CountAfter, LinksIn;
    var k :| 0 <= k < |ps| && ps[k] == f;
    var a, b := ps[..k], ps[k + 1..];
    assert ps == a + [f] + b;
    CountsLinksAfter(entries, a, b, f);
    LinksInSet(entries, b, f);
    var late := set p | p in b && LinkTo(entries, p, f);
    assert late <= LinkSet(entries, f);
    SubsetSize(late, LinkSet(entries, f));
  }

  /** The documented count, one plus the hardlinks naming the file, comes out whatever the order if and only if
      no hardlink names it. */
  lemma CountReliable(entries: map<Path, Entry>, f: Path)
    requires f in entries && entries[f].kind.File?
    ensures (forall ps :: Enumerates(entries, ps) ==> CountAfter(entries, ps, f) == 1 + |LinkSet(entries, f)|)
            <==> LinkSet(entries, f) == {}
  {
    hide CountAfter, LinkSet, Enumerates;
    var first, last := BothExtremes(entries, f);
    if LinkSet(entries, f) == {} {
      forall ps | Enumerates(entries, ps) ensures CountAfter(entries, ps, f) == 1 + |LinkSet(entries, f)| {
        CountBounds(entries, ps, f);
      }
    } else {
      assert CountAfter(entries, last, f) == 1;
    }
  }

  /** One file and one hardlink to it: the two orders give two and one. */
  lemma TwoOrders(entries: map<Path, Entry>, f: Path, l: Path)
    requires entries.Keys == {f, l} && f != l && entries[f].kind.File? && LinkTo(entries, l, f)
    ensures Enumerates(entries, [f, l]) && CountAfter(entries, [f, l], f) == 2
    ensures Enumerates(entries, [l, f]) && CountAfter(entries, [l, f], f) == 1
  {
    assert [f, l][..1] == [f] && [l, f][..1] == [l] && [f][..0] == [] && [l][..0] == [];
    forall p ensures p in entries <==> p in [f, l] { assert p in entries <==> p in entries.Keys; }
    forall p ensures p in entries <==> p in [l, f] { assert p in entries <==> p in entries.Keys; }
  }
}

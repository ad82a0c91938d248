/** The data region: the extents of all files, in creation order, back to back. */
module Region {
  import opened Bytes
  import opened Blocks
  import opened FileData
  import opened Paths

  /** Blocks of one finished file. */
  function Extent(c: Codec, n: nat, s: seq<Byte>): seq<Byte>
    requires n > 0
  {
    Disk(Sealed(c, n, s))
  }

  /** All extents of the files among `ps`; `contents` has a key for every file. */
  function DataOf(c: Codec, n: nat, contents: map<Path, seq<Byte>>, ps: seq<Path>): seq<Byte>
    requires n > 0
  {
    if ps == [] then [] else
    (if ps[0] in contents then Extent(c, n, contents[ps[0]]) else []) + DataOf(c, n, contents, ps[1..])
  }

  lemma {:induction false} DataAppend(c: Codec, n: nat, contents: map<Path, seq<Byte>>, ps: seq<Path>, qs: seq<Path>)
    requires n > 0
    ensures DataOf(c, n, contents, ps + qs) == DataOf(c, n, contents, ps) + DataOf(c, n, contents, qs)
  {
    hide Extent;
    if ps == [] {
      assert ps + qs == qs;
    } else {
      assert (ps + qs)[0] == ps[0] && (ps + qs)[1..] == ps[1..] + qs;
      DataAppend(c, n, contents, ps[1..], qs);
      Assoc(if ps[0] in contents then Extent(c, n, contents[ps[0]])
            else [], DataOf(c, n, contents, ps[1..]), DataOf(c, n, contents, qs));
    }
  }

  lemma DataOne(c: Codec, n: nat, contents: map<Path, seq<Byte>>, p: Path)
    requires n > 0
    ensures DataOf(c, n, contents, [p]) == if p in contents then Extent(c, n, contents[p]) else []
  {
    assert [p][1..] == [];
  }

  lemma DataPush(c: Codec, n: nat, contents: map<Path, seq<Byte>>, ps: seq<Path>, p: Path)
    requires n > 0
    ensures DataOf(c, n, contents, ps + [p])
            == DataOf(c, n, contents, ps) + if p in contents then Extent(c, n, contents[p]) else []
  {
    DataAppend(c, n, contents, ps, [p]);
    DataOne(c, n, contents, p);
  }

  /** Only the contents of the listed paths matter. */
  lemma {:induction false} DataSame(c: Codec, n: nat, a: map<Path, seq<Byte>>, b: map<Path, seq<Byte>>, ps: seq<Path>)
    requires n > 0
    requires forall p :: p in ps ==> (p in a <==> p in b) && (p in a ==> a[p] == b[p])
    ensures DataOf(c, n, a, ps) == DataOf(c, n, b, ps)
  {
    hide Extent;
    if ps != [] {
      assert ps[0] in ps;
      assert forall p :: p in ps[1..] ==> p in ps;
      DataSame(c, n, a, b, ps[1..]);
    }
  }

  /** Where the extent of the `i`-th created path starts in the region. */
  function StartOf(c: Codec, n: nat, contents: map<Path, seq<Byte>>, order: seq<Path>, i: nat): nat
    requires n > 0 && i <= |order|
  {
    |DataOf(c, n, contents, order[..i])|
  }

  /** Extents are contiguous, ordered and disjoint: one ends where the next begins, and each lies
      inside the region. */
  lemma ExtentsTile(c: Codec, n: nat, contents: map<Path, seq<Byte>>, order: seq<Path>, i: nat)
    requires n > 0 && i < |order|
    ensures var e := if order[i] in contents then Extent(c, n, contents[order[i]]) else [];
            var at := StartOf(c, n, contents, order, i);
            && StartOf(c, n, contents, order, i + 1) == at + |e|
            && at + |e| <= |DataOf(c, n, contents, order)|
            && DataOf(c, n, contents, order)[at..at + |e|] == e
  {
    hide Extent;
    var e := if order[i] in contents then Extent(c, n, contents[order[i]]) else [];
    var pre, post := order[..i], order[i + 1..];
    assert order[..i + 1] == pre + [order[i]];
    DataPush(c, n, contents, pre, order[i]);
    assert order == order[..i + 1] + post;
    DataAppend(c, n, contents, order[..i + 1], post);
    Middle(DataOf(c, n, contents, pre), e, DataOf(c, n, contents, post));
  }
}

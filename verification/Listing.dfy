/** Directory listings: entries in name order, grouped under headers. All entries under one header
    lie in one inode-table block, within an i16 inode-number delta of the header's base, at most 256. */
module Listing {
  import opened Bytes
  import opened Names

  const MAX_RUN: nat := 256
  const MAX_NAME: nat := 256

  /** One child: name, inode number, where its inode lies in the inode table, basic type. */
  datatype DirEntry = DirEntry(name: Name, ino: nat, blockByte: nat, off: nat, typ: nat)

  predicate ValidEntry(e: DirEntry) {
    && 1 <= |e.name| <= MAX_NAME
    && e.ino < 0x1_0000_0000 && e.blockByte < 0x1_0000_0000 && e.off < 0x1_0000 && e.typ < 0x1_0000
  }

  predicate ValidEntries(es: seq<DirEntry>) {
    forall i :: 0 <= i < |es| ==> ValidEntry(es[i])
  }

  function NameOf(e: DirEntry): Name { e.name }

  /** `e` may share the header whose first entry is `base`. */
  predicate Joins(base: DirEntry, e: DirEntry) {
    e.blockByte == base.blockByte && -32768 <= e.ino - base.ino <= 32767
  }

  /** A legal group: 1 to 256 entries that all join the first. */
  ghost predicate LegalRun(es: seq<DirEntry>) {
    1 <= |es| <= MAX_RUN && forall i :: 0 <= i < |es| ==> Joins(es[0], es[i])
  }

  /** Length of the longest legal group at the front, given that the first `k` entries are legal. */
  function RunLen(es: seq<DirEntry>, k: nat): (n: nat)
    requires 1 <= k <= |es| && LegalRun(es[..k])
    ensures k <= n <= |es| && LegalRun(es[..n])
    ensures n == |es| || n == MAX_RUN || !Joins(es[0], es[n])
    decreases |es| - k
  {
    if k < |es| && k < MAX_RUN && Joins(es[0], es[k]) then
      assert es[..k + 1] == es[..k] + [es[k]];
      RunLen(es, k + 1)
    else k
  }

  function FirstRun(es: seq<DirEntry>): (n: nat)
    requires es != []
    ensures 1 <= n <= |es| && LegalRun(es[..n])
    ensures n == |es| || n == MAX_RUN || !Joins(es[0], es[n])
  {
    RunLen(es, 1)
  }

  /** An inode-number delta as the two's-complement bits of an i16. */
  function Delta16(d: int): (n: nat)
    requires -32768 <= d <= 32767
    ensures n < 0x1_0000
  {
    if d >= 0 then d else d + 0x1_0000
  }

  function FromDelta16(n: nat): int {
    if n < 0x8000 then n else n - 0x1_0000
  }

  function EncodeEntry(base: DirEntry, e: DirEntry): (s: seq<Byte>)
    requires Joins(base, e) && e.name != []
    ensures |s| == 8 + |e.name|
  {
    Ints([e.off, Delta16(e.ino - base.ino), e.typ, |e.name| - 1], 2) + e.name
  }

  predicate Encodable(base: DirEntry, es: seq<DirEntry>) {
    forall i :: 0 <= i < |es| ==> Joins(base, es[i]) && es[i].name != []
  }

  function EncodeRun(base: DirEntry, es: seq<DirEntry>): seq<Byte>
    requires Encodable(base, es)
  {
    if es == [] then [] else EncodeEntry(base, es[0]) + EncodeRun(base, es[1..])
  }

  function EncodeHeader(count: nat, base: DirEntry): (s: seq<Byte>)
    requires count > 0
    ensures |s| == 12
  {
    Ints([count - 1, base.blockByte, base.ino], 4)
  }

  function EncodeListing(es: seq<DirEntry>): seq<Byte>
    requires ValidEntries(es)
    decreases |es|
  {
    if es == [] then [] else
    RunsValid(es, FirstRun(es));
    EncodeGroup(es) + EncodeListing(es[FirstRun(es)..])
  }

  /** The first group with its header. */
  function EncodeGroup(es: seq<DirEntry>): seq<Byte>
    requires es != [] && Encodable(es[0], es[..FirstRun(es)])
  {
    EncodeHeader(FirstRun(es), es[0]) + EncodeRun(es[0], es[..FirstRun(es)])
  }

  lemma RunsValid(es: seq<DirEntry>, n: nat)
    requires ValidEntries(es) && 1 <= n <= |es| && LegalRun(es[..n])
    ensures Encodable(es[0], es[..n])
    ensures ValidEntries(es[n..])
  {
    forall i | 0 <= i < n ensures Joins(es[0], es[..n][i]) && es[..n][i].name != [] {
      assert es[..n][0] == es[0];
    }
    forall i | 0 <= i < |es[n..]| ensures ValidEntry(es[n..][i]) {
      assert es[n..][i] == es[n + i];
    }
  }

  // ---------------------------------------------------------------- reading

  datatype Parsed = Parsed(es: seq<DirEntry>, rest: seq<Byte>)

  /** `n` entries under a header with this block and base inode number. */
  function ParseRun(b: seq<Byte>, n: nat, blockByte: nat, base: nat): (r: Option<Parsed>)
    ensures r.Some? ==> |r.value.rest| <= |b|
  {
    if n == 0 then Some(Parsed([], b)) else
    if |b| < 8 then None else
    var x := UnInts(b, 2, 4);
    var len := x[3] + 1;
    if |b| < 8 + len || base + FromDelta16(x[1]) < 0 then None else
    var e := DirEntry(b[8..8 + len], base + FromDelta16(x[1]), blockByte, x[0], x[2]);
    var p :- ParseRun(b[8 + len..], n - 1, blockByte, base);
    Some(Parsed([e] + p.es, p.rest))
  }

  function ParseListing(b: seq<Byte>): Option<seq<DirEntry>>
    decreases |b|
  {
    if b == [] then Some([]) else
    if |b| < 12 then None else
    var h := UnInts(b, 4, 3);
    if h[0] >= MAX_RUN then None else
    var p :- ParseRun(b[12..], h[0] + 1, h[1], h[2]);
    var es :- ParseListing(p.rest);
    Some(p.es + es)
  }

  /** The entry with this name, as path lookup finds it. */
  function Find(es: seq<DirEntry>, name: Name): Option<DirEntry> {
    if es == [] then None else if es[0].name == name then Some(es[0]) else Find(es[1..], name)
  }

  // ---------------------------------------------------------------- reading undoes writing

  lemma EntryRoundTrip(base: DirEntry, e: DirEntry, rest: seq<Byte>)
    requires Joins(base, e) && ValidEntry(e)
    ensures var b := EncodeEntry(base, e) + rest;
            && UnInts(b, 2, 4) == [e.off, Delta16(e.ino - base.ino), e.typ, |e.name| - 1]
            && b[8..8 + |e.name|] == e.name && b[8 + |e.name|..] == rest
  {
    hide Ints, UnInts;
    Spans();
    var vs := [e.off, Delta16(e.ino - base.ino), e.typ, |e.name| - 1];
    Assoc(Ints(vs, 2), e.name, rest);
    IntsRoundTrip(vs, 2, e.name + rest);
  }

  lemma {:induction false} RunRoundTrip(base: DirEntry, es: seq<DirEntry>, rest: seq<Byte>)
    requires Encodable(base, es) && ValidEntries(es)
    ensures ParseRun(EncodeRun(base, es) + rest, |es|, base.blockByte, base.ino) == Some(Parsed(es, rest))
  {
    hide UnInts, EncodeEntry, Joins, ValidEntry;
    if es == [] {
      assert EncodeRun(base, es) + rest == rest;
    } else {
      var e, tail := es[0], EncodeRun(base, es[1..]);
      Assoc(EncodeEntry(base, e), tail, rest);
      EntryRoundTrip(base, e, tail + rest);
      RunRoundTrip(base, es[1..], rest);
      SameEntry(base, e);
      assert [e] + es[1..] == es;
    }
  }

  lemma SameEntry(base: DirEntry, e: DirEntry)
    requires Joins(base, e)
    ensures DirEntry(e.name, base.ino + FromDelta16(Delta16(e.ino - base.ino)), base.blockByte, e.off, e.typ) == e
  {
  }

  lemma HeaderRoundTrip(count: nat, base: DirEntry, rest: seq<Byte>)
    requires 0 < count <= MAX_RUN && ValidEntry(base)
    ensures var b := EncodeHeader(count, base) + rest;
            UnInts(b, 4, 3) == [count - 1, base.blockByte, base.ino] && b[12..] == rest
  {
    hide Ints, UnInts;
    Spans();
    IntsRoundTrip([count - 1, base.blockByte, base.ino], 4, rest);
  }

  /** Parsing a listing gives back exactly the entries, in order, with every field recovered. */
  lemma {:induction false} ListingRoundTrip(es: seq<DirEntry>)
    requires ValidEntries(es)
    ensures ParseListing(EncodeListing(es)) == Some(es)
    decreases |es|
  {
    hide UnInts, EncodeHeader, EncodeRun, ParseRun, ParseListing, FirstRun, Joins, ValidEntry;
    if es == [] {
      NothingToParse();
    } else {
      var n := FirstRun(es);
      RunsValid(es, n);
      var run, tail := EncodeRun(es[0], es[..n]), EncodeListing(es[n..]);
      var b := EncodeHeader(n, es[0]) + (run + tail);
      Assoc(EncodeHeader(n, es[0]), run, tail);
      HeaderRoundTrip(n, es[0], run + tail);
      RunRoundTrip(es[0], es[..n], tail);
      ListingRoundTrip(es[n..]);
      ParseStep(b, run + tail, n, es[0], es[..n], tail, es[n..]);
      assert es[..n] + es[n..] == es;
    }
  }

  lemma NothingToParse()
    ensures ParseListing([]) == Some([])
  {
  }

  /** One group parsed in front of a listing that parses. */
  lemma ParseStep(b: seq<Byte>, body: seq<Byte>, n: nat, base: DirEntry, run: seq<DirEntry>, tail: seq<Byte>,
                  es: seq<DirEntry>)
    requires |b| >= 12 && 1 <= n <= MAX_RUN
    requires UnInts(b, 4, 3) == [n - 1, base.blockByte, base.ino] && b[12..] == body
    requires ParseRun(body, n, base.blockByte, base.ino) == Some(Parsed(run, tail))
    requires ParseListing(tail) == Some(es)
    ensures ParseListing(b) == Some(run + es)
  {
    hide UnInts, ParseRun;
  }

  /** In a listing with ascending names, lookup finds an entry exactly by its name. */
  lemma {:induction false} FindUnique(es: seq<DirEntry>, k: nat)
    requires Ascending(NameOf, es) && k < |es|
    ensures Find(es, es[k].name) == Some(es[k])
  {
    if k > 0 {
      assert Less(NameOf(es[0]), NameOf(es[k]));
      LessIrreflexive(es[0].name);
      FindUnique(es[1..], k - 1);
    }
  }

  lemma {:induction false} FindNone(es: seq<DirEntry>, name: Name)
    requires forall k :: 0 <= k < |es| ==> es[k].name != name
    ensures Find(es, name) == None
  {
    if es != [] { FindNone(es[1..], name); }
  }

  // ---------------------------------------------------------------- as few headers as possible

  /** Headers the greedy grouping uses. */
  function HeaderCount(es: seq<DirEntry>): nat
    decreases |es|
  {
    if es == [] then 0 else 1 + HeaderCount(es[FirstRun(es)..])
  }

  ghost predicate AscendingInodes(es: seq<DirEntry>) {
    forall i, j :: 0 <= i < j < |es| ==> es[i].ino < es[j].ino
  }

  /** Any way of cutting `es` into legal consecutive groups. */
  ghost predicate LegalSplit(es: seq<DirEntry>, runs: seq<seq<DirEntry>>)
    decreases |runs|
  {
    if runs == [] then es == [] else
    LegalRun(runs[0]) && runs[0] <= es && LegalSplit(es[|runs[0]|..], runs[1..])
  }

  /** A legal group stays legal when entries are dropped from its front, if inode numbers ascend. */
  lemma DropFront(es: seq<DirEntry>, n: nat, k: nat)
    requires AscendingInodes(es) && k < n <= |es| && LegalRun(es[..n])
    ensures LegalRun(es[k..][..n - k])
  {
    var r := es[k..][..n - k];
    forall i | 0 <= i < |r| ensures Joins(r[0], r[i]) {
      assert Joins(es[..n][0], es[..n][k]) && Joins(es[..n][0], es[..n][k + i]);
      assert k == 0 || es[0].ino < es[k].ino;
      assert i == 0 || es[k].ino < es[k + i].ino;
    }
  }

  /** The greedy group is at least as long as any legal group at the front. */
  lemma FirstRunLongest(es: seq<DirEntry>, m: nat)
    requires 1 <= m <= |es| && LegalRun(es[..m])
    ensures m <= FirstRun(es)
  {
    var n := FirstRun(es);
    if n < m {
      assert false;
    }
  }

  /** A shorter tail never needs more headers. */
  lemma {:induction false} TailNeedsNoMore(es: seq<DirEntry>, k: nat)
    requires AscendingInodes(es) && k <= |es|
    ensures HeaderCount(es[k..]) <= HeaderCount(es)
    decreases |es|
  {
    hide LegalRun, FirstRun;
    if es != [] && k < |es| {
      var n := FirstRun(es);
      var tail := es[n..];
      if k >= n {
        TailNeedsNoMore(tail, k - n);
        assert tail[k - n..] == es[k..];
      } else {
        DropFront(es, n, k);
        var ek := es[k..];
        FirstRunLongest(ek, n - k);
        var n' := FirstRun(ek);
        TailNeedsNoMore(tail, k + n' - n);
        assert tail[k + n' - n..] == ek[n'..];
      }
    }
  }

  /** With ascending inode numbers no legal split uses fewer headers than the greedy one. */
  lemma {:induction false} GreedyIsMinimal(es: seq<DirEntry>, runs: seq<seq<DirEntry>>)
    requires AscendingInodes(es) && LegalSplit(es, runs)
    ensures HeaderCount(es) <= |runs|
    decreases |runs|
  {
    hide LegalRun, FirstRun;
    if runs != [] {
      var m := |runs[0]|;
      assert es[..m] == runs[0];
      LegalNotEmpty(runs[0]);
      FirstRunLongest(es, m);
      var n := FirstRun(es);
      GreedyIsMinimal(es[m..], runs[1..]);
      TailNeedsNoMore(es[m..], n - m);
      assert es[m..][n - m..] == es[n..];
    }
  }

  lemma LegalNotEmpty(es: seq<DirEntry>)
    requires LegalRun(es)
    ensures es != []
  {
  }

  /** A directory entry that is a hardlink: it carries the inode number of a file elsewhere. */
  function LinkEntry(name: Byte, ino: nat, off: nat): DirEntry { DirEntry([name], ino, 0, off, 2) }

  const FOUR_LINKS: seq<DirEntry> :=
    [LinkEntry(97, 50000, 0), LinkEntry(98, 60000, 32), LinkEntry(99, 90000, 64), LinkEntry(100, 30000, 96)]

  /** Without ascending inode numbers greedy may lose: a directory of four hardlinks `a`, `b`, `c`, `d` gets three
      headers where two would do. */
  lemma GreedyNotMinimalInGeneral()
    ensures var es := FOUR_LINKS;
            && ValidEntries(es) && Ascending(NameOf, es)
            && var runs := [[es[0]], [es[1], es[2], es[3]]];
               LegalSplit(es, runs) && HeaderCount(es) > |runs|
  {
    var es := FOUR_LINKS;
    var runs := [[es[0]], [es[1], es[2], es[3]]];
    assert es[1..] == runs[1] && es[1..][3..] == [] && runs[1..][1..] == [];
    assert LegalSplit([], []);
    assert LegalSplit(es[1..], runs[1..]);
    assert FirstRun(es) == 2;
    var e2 := es[2..];
    assert e2 == [es[2], es[3]];
    assert FirstRun(e2) == 1;
    assert e2[1..] == [es[3]];
    assert FirstRun(e2[1..]) == 1;
  }
}

/** The ID table: distinct uid and gid values, stored as a metadata stream of u32, with a lookup
    list that says where each of its blocks lies in the image. */
module IdTable {
  import opened Bytes
  import opened Blocks
  import opened MetaStream

  const PER_BLOCK: nat := 2048
  const MAX_IDS: nat := 0xFFFF

  /** Position of the first occurrence, if any. */
  function IndexOf(list: seq<nat>, id: nat): (r: Option<nat>)
    ensures r.Some? ==> r.value < |list| && list[r.value] == id
    ensures r.None? ==> id !in list
  {
    if list == [] then None
    else if list[0] == id then Some(0)
    else match IndexOf(list[1..], id)
         case None => None
         case Some(i) => Some(i + 1)
  }

  datatype Interned = Interned(list: seq<nat>, idx: nat)

  /** Interning: an id already known keeps its index, a new one is appended while there is room. */
  function InternId(list: seq<nat>, id: nat): (r: Option<Interned>)
    ensures r.Some? ==> list <= r.value.list && r.value.idx < |r.value.list| && r.value.list[r.value.idx] == id
    ensures r.None? <==> id !in list && |list| >= MAX_IDS
    ensures r.Some? && |list| <= MAX_IDS ==> |r.value.list| <= MAX_IDS
  {
    match IndexOf(list, id)
    case Some(i) => Some(Interned(list, i))
    case None => if |list| >= MAX_IDS then None else Some(Interned(list + [id], |list|))
  }

  ghost predicate Distinct(list: seq<nat>) {
    forall i, j :: 0 <= i < j < |list| ==> list[i] != list[j]
  }

  /** No id is ever stored twice. */
  lemma InternDistinct(list: seq<nat>, id: nat)
    requires Distinct(list) && InternId(list, id).Some?
    ensures Distinct(InternId(list, id).value.list)
  {
    if IndexOf(list, id).None? {
      forall i | 0 <= i < |list| ensures list[i] != id { assert list[i] in list; }
    }
  }

  /** The table an inode refers to by index. */
  class Table {
    var index: map<nat, nat>
    var list: seq<nat>

    ghost predicate Valid()
      reads this
    {
      && |list| <= MAX_IDS
      && (forall i :: 0 <= i < |list| ==> list[i] in index && index[list[i]] == i)
      && (forall id :: id in index ==> index[id] < |list| && list[index[id]] == id)
    }

    constructor ()
      ensures Valid() && list == []
    {
      index := map[];
      list := [];
    }

    method Intern(id: nat) returns (ok: bool, idx: nat)
      requires Valid()
      modifies this
      ensures Valid()
      ensures ok <==> InternId(old(list), id).Some?
      ensures ok ==> InternId(old(list), id) == Some(Interned(list, idx))
      ensures !ok ==> list == old(list)
    {
      FirstOccurrence(id);
      if id in index {
        return true, index[id];
      }
      if |list| >= MAX_IDS {
        return false, 0;
      }
      idx := |list|;
      list := list + [id];
      index := index[id := idx];
      return true, idx;
    }

    /** The ids packed 2048 to a block, and at which block each batch starts. */
    method PackIds(comp: Codec) returns (ok: bool, meta: MetaWriter, startBlocks: seq<nat>)
      ensures fresh(meta) && meta.comp == comp
      ensures ok ==> meta.Flushed() && meta.content == Ints(list, 4)
      ensures ok ==> |startBlocks| == BlockCount(list) && forall k :: 0 <= k < |startBlocks| ==> startBlocks[k] == k
      ensures !ok ==> exists chunk :: comp.compress(chunk).Failed?
    {
      hide Ints, Full, Rem, BlockOf, LE, MetaWriter.Valid;
      meta := new MetaWriter(comp);
      ok, startBlocks := true, [];
      assert list[..0] == [] && Ints(list[..0], 4) == [] by { NoInts(list[..0]); }
      for i := 0 to |list|
        invariant fresh(meta) && meta.comp == comp && meta.Valid() && meta.content == Ints(list[..i], 4)
        invariant |startBlocks| == (i + PER_BLOCK - 1) / PER_BLOCK
        invariant forall k :: 0 <= k < |startBlocks| ==> startBlocks[k] == k
      {
        IdRef(comp, list, i);
        StreamLens(meta);
        if i % PER_BLOCK == 0 {
          if i != 0 {
            ok := meta.Flush();
          }
          StreamLens(meta);
          startBlocks := startBlocks + [|meta.blocks|];
        }
        ok := meta.Write(LE(list[i], 4));
        if !ok {
          return;
        }
        assert list[..i + 1] == list[..i] + [list[i]];
        IntsPush(list[..i], list[i]);
      }
      assert list[..|list|] == list;
      ok := meta.Flush();
    }

    /** The data section, and where each of its blocks will lie when it starts at image position `base`. */
    method WriteData(comp: Codec, base: nat) returns (ok: bool, blockOffsets: seq<nat>, bytes: seq<Byte>)
      ensures ok ==> bytes == Emit(comp, Ints(list, 4)) && blockOffsets == Offsets(comp, list, base)
      ensures !ok ==> exists chunk :: comp.compress(chunk).Failed?
    {
      hide Ints, Full, Rem, Emit, Frames, OffsetOf, BlockOf;
      blockOffsets, bytes := [], [];
      if |list| == 0 {
        NoIds(comp, list, base);
        return true, [], [];
      }
      var meta, startBlocks;
      ok, meta, startBlocks := PackIds(comp);
      if !ok {
        return;
      }
      for k := 0 to |startBlocks|
        invariant meta.Flushed() && meta.content == Ints(list, 4)
        invariant |blockOffsets| == k && forall j :: 0 <= j < k ==> blockOffsets[j] == BlockAt(comp, list, base, j)
      {
        StartBlock(comp, list, k);
        var off := meta.BlockByteOffset(startBlocks[k]);
        blockOffsets := blockOffsets + [base + off];
      }
      FullBlockSizes(comp, meta.content);
      ok, bytes := meta.EmitTo();
      EmitIs(comp, meta.content);
    }

    /** The lookup list: one u64 per block. */
    method WriteLookup(blockOffsets: seq<nat>) returns (buf: seq<Byte>)
      ensures buf == Ints(blockOffsets, 8)
    {
      hide Ints;
      buf := [];
      assert blockOffsets[..0] == [] && Ints(blockOffsets[..0], 8) == [] by { NoInts(blockOffsets[..0]); }
      for i := 0 to |blockOffsets|
        invariant buf == Ints(blockOffsets[..i], 8)
      {
        assert blockOffsets[..i + 1] == blockOffsets[..i] + [blockOffsets[i]];
        Ints64Push(blockOffsets[..i], blockOffsets[i]);
        buf := buf + LE(blockOffsets[i], 8);
      }
      assert blockOffsets[..|blockOffsets|] == blockOffsets;
    }

    lemma FirstOccurrence(id: nat)
      requires Valid()
      ensures id in index ==> IndexOf(list, id) == Some(index[id])
      ensures id !in index ==> IndexOf(list, id) == None
    {
      var r := IndexOf(list, id);
      if r.Some? {
        assert list[r.value] in index;
      }
    }
  }

  // ---------------------------------------------------------------- on disk

  function BlockCount(ids: seq<nat>): nat {
    (|ids| + PER_BLOCK - 1) / PER_BLOCK
  }

  /** Where block `k` of the table lies, when the table's data starts at `base`. */
  function BlockAt(c: Codec, ids: seq<nat>, base: nat, k: nat): nat
    requires k < BlockCount(ids)
  {
    base + BlockOf(c, Ints(ids[..k * PER_BLOCK], 4))
  }

  function Offsets(c: Codec, ids: seq<nat>, base: nat): (r: seq<nat>)
    ensures |r| == BlockCount(ids)
  {
    seq(BlockCount(ids), k requires 0 <= k < BlockCount(ids) => BlockAt(c, ids, base, k))
  }

  lemma StreamLens(m: MetaWriter)
    requires m.Valid()
    ensures |m.blocks| == |Full(m.comp, META, m.content)| && |m.cur| == OffsetOf(m.content)
  {
  }

  lemma NoInts(vs: seq<nat>)
    requires vs == []
    ensures Ints(vs, 4) == [] && Ints(vs, 8) == []
  {
  }

  lemma IntsOne(v: nat, w: nat)
    ensures Ints([v], w) == LE(v, w)
  {
    assert [v][1..] == [] && LE(v, w) + [] == LE(v, w);
  }

  lemma IntsPush(vs: seq<nat>, v: nat)
    ensures Ints(vs + [v], 4) == Ints(vs, 4) + LE(v, 4)
  {
    IntsAppend(vs, [v], 4);
    IntsOne(v, 4);
  }

  lemma Ints64Push(vs: seq<nat>, v: nat)
    ensures Ints(vs + [v], 8) == Ints(vs, 8) + LE(v, 8)
  {
    IntsAppend(vs, [v], 8);
    IntsOne(v, 8);
  }

  lemma NoIds(c: Codec, ids: seq<nat>, base: nat)
    requires ids == []
    ensures Emit(c, Ints(ids, 4)) == [] && Offsets(c, ids, base) == []
  {
  }

  lemma EmitIs(c: Codec, s: seq<Byte>)
    ensures Emit(c, s) == Frames(Sealed(c, META, s))
  {
  }

  /** Block `k` of the sealed table starts where the first `2048 * k` ids end. */
  lemma StartBlock(c: Codec, ids: seq<nat>, k: nat)
    requires k < BlockCount(ids)
    ensures var bs := Sealed(c, META, Ints(ids, 4));
            k <= |bs| && |Frames(bs[..k])| == BlockOf(c, Ints(ids[..k * PER_BLOCK], 4))
  {
    hide Ints, Full, Rem, Frames;
    var n := k * PER_BLOCK;
    var a, b := Ints(ids[..n], 4), Ints(ids[n..], 4);
    assert ids == ids[..n] + ids[n..];
    IntsAppend(ids[..n], ids[n..], 4);
    IdRef(c, ids, n);
    Grow(c, META, a, b);
    var bs := Sealed(c, META, a + b);
    assert bs[..k] == Full(c, META, a);
  }

  /** The `idx`-th id, found through the lookup list at image position `lookup`. */
  function ReadId(c: Codec, img: seq<Byte>, lookup: nat, idx: nat): Option<nat> {
    var at := lookup + 8 * (idx / PER_BLOCK);
    if at + 8 > |img| then None else
    var b :- ReadMeta(c, img, FromLE(img[at..at + 8]), 4 * (idx % PER_BLOCK), 4);
    Some(FromLE(b))
  }

  lemma {:induction false} AlignedStream(s: seq<Byte>, k: nat)
    requires |s| == META * k
    ensures Rem(META, s) == []
  {
    if k > 0 { AlignedStream(s[META..], k - 1); }
  }

  /** Reference to id `idx`: block `idx / 2048`, offset four times the rest. */
  lemma IdRef(c: Codec, ids: seq<nat>, idx: nat)
    requires idx <= |ids|
    ensures var k := idx / PER_BLOCK;
            && BlockOf(c, Ints(ids[..idx], 4)) == BlockOf(c, Ints(ids[..k * PER_BLOCK], 4))
            && OffsetOf(Ints(ids[..idx], 4)) == 4 * (idx % PER_BLOCK)
            && |Full(c, META, Ints(ids[..k * PER_BLOCK], 4))| == k
            && |Full(c, META, Ints(ids[..idx], 4))| == k
  {
    var k := idx / PER_BLOCK;
    var n := k * PER_BLOCK;
    var a, b := Ints(ids[..n], 4), Ints(ids[n..idx], 4);
    assert ids[..idx] == ids[..n] + ids[n..idx];
    IntsAppend(ids[..n], ids[n..idx], 4);
    AlignedStream(a, k);
    FullAppend(c, META, a, b);
    assert Full(c, META, b) == [];
    assert Full(c, META, a) + [] == Full(c, META, a);
    FullCount(c, a, k);
  }

  lemma {:induction false} FullCount(c: Codec, s: seq<Byte>, k: nat)
    requires |s| == META * k
    ensures |Full(c, META, s)| == k
  {
    if k > 0 { FullCount(c, s[META..], k - 1); }
  }

  /** Entry `k` of a list of u64. */
  lemma {:induction false} Slice64(vs: seq<nat>, k: nat)
    requires k < |vs|
    ensures Ints(vs, 8)[8 * k..8 * k + 8] == LE(vs[k], 8)
  {
    hide LE;
    var s, t := Ints(vs, 8), Ints(vs[1..], 8);
    assert s == LE(vs[0], 8) + t;
    if k == 0 {
      assert s[0..8] == LE(vs[0], 8);
    } else {
      Slice64(vs[1..], k - 1);
      assert s[8 * k..8 * k + 8] == t[8 * (k - 1)..8 * (k - 1) + 8];
    }
  }

  /** Every index handed out by interning reads back the id it was handed out for, through the
      lookup list. */
  lemma ReadIdAt(c: Codec, pre: seq<Byte>, ids: seq<nat>, post: seq<Byte>, idx: nat)
    requires Lossless(c) && idx < |ids| && ids[idx] < Span(4)
    requires |pre| + |Emit(c, Ints(ids, 4))| < Span(8)
    ensures var data := Emit(c, Ints(ids, 4));
            var img := pre + data + (Ints(Offsets(c, ids, |pre|), 8) + post);
            ReadId(c, img, |pre| + |data|, idx) == Some(ids[idx])
  {
    hide Ints, Emit, BlockOf, OffsetOf, ReadMeta, FromLE, LE;
    var data, offs := Emit(c, Ints(ids, 4)), Offsets(c, ids, |pre|);
    var img := pre + data + (Ints(offs, 8) + post);
    var k := idx / PER_BLOCK;
    var at := |pre| + |data| + 8 * k;
    Slice64(offs, k);
    assert img[at..at + 8] == Ints(offs, 8)[8 * k..8 * k + 8];
    OffsetInside(c, ids, k);
    LERoundTrip(offs[k], 8);
    IdRef(c, ids, idx);
    ReadIdBytes(c, pre, ids, Ints(offs, 8) + post, idx);
    LERoundTrip(ids[idx], 4);
  }

  lemma ReadIdBytes(c: Codec, pre: seq<Byte>, ids: seq<nat>, post: seq<Byte>, idx: nat)
    requires Lossless(c) && idx < |ids|
    ensures var a := Ints(ids[..idx], 4);
            ReadMeta(c, pre + Emit(c, Ints(ids, 4)) + post, |pre| + BlockOf(c, a), OffsetOf(a), 4)
                == Some(LE(ids[idx], 4))
  {
    hide Emit, BlockOf, OffsetOf, ReadMeta, LE;
    var a, t := Ints(ids[..idx], 4), Ints(ids[idx..], 4);
    assert ids == ids[..idx] + ids[idx..];
    IntsAppend(ids[..idx], ids[idx..], 4);
    ReadAt(c, pre, a, t, post, 4);
    assert t[..4] == LE(ids[idx], 4);
  }

  /** Block offsets stay within the emitted data. */
  lemma OffsetInside(c: Codec, ids: seq<nat>, k: nat)
    requires k < BlockCount(ids)
    ensures BlockOf(c, Ints(ids[..k * PER_BLOCK], 4)) <= |Emit(c, Ints(ids, 4))|
  {
    var n := k * PER_BLOCK;
    var a, b := Ints(ids[..n], 4), Ints(ids[n..], 4);
    assert ids == ids[..n] + ids[n..];
    IntsAppend(ids[..n], ids[n..], 4);
    AlignedStream(a, k);
    BlockInside(c, a, b);
  }

  lemma BlockInside(c: Codec, a: seq<Byte>, b: seq<Byte>)
    ensures BlockOf(c, a) <= |Emit(c, a + b)|
  {
    Grow(c, META, a, b);
    var more := Full(c, META, Rem(META, a) + b);
    var tail := if Rem(META, a + b) == [] then [] else [Store(c, Rem(META, a + b))];
    FramesAppend(Full(c, META, a), more);
    FramesAppend(Full(c, META, a + b), tail);
  }
}

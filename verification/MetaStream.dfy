/** Metadata streams: inode table, directory table and ID table are byte streams packed into
    8 KiB blocks, each stored behind a two-byte header. `MetaWriter` builds one; `ReadMeta` is how a reader
    fetches bytes back given a block's byte offset and an offset inside that block. */
module MetaStream {
  import opened Bytes
  import opened Blocks

  const META: nat := 8192
  const RAW_BIT: nat := 0x8000

  /** A stored block behind its header: on-disk size, with the top bit set when stored raw. */
  function Frame(b: Stored): seq<Byte> {
    LE(|b.data| + if b.raw then RAW_BIT else 0, 2) + b.data
  }

  function Frames(bs: seq<Stored>): seq<Byte> {
    if bs == [] then [] else Frame(bs[0]) + Frames(bs[1..])
  }

  /** The whole finalized stream whose uncompressed content is `s`. */
  function Emit(c: Codec, s: seq<Byte>): seq<Byte> {
    Frames(Sealed(c, META, s))
  }

  /** Byte offset, within the finalized stream, of the block that holds the next byte after `s`. */
  function BlockOf(c: Codec, s: seq<Byte>): nat {
    |Frames(Full(c, META, s))|
  }

  /** Offset of that byte inside its uncompressed block. */
  function OffsetOf(s: seq<Byte>): (o: nat)
    ensures o < META
  {
    |Rem(META, s)|
  }

  lemma {:induction false} FramesAppend(xs: seq<Stored>, ys: seq<Stored>)
    ensures Frames(xs + ys) == Frames(xs) + Frames(ys)
  {
    if xs == [] {
      assert xs + ys == ys;
    } else {
      assert (xs + ys)[1..] == xs[1..] + ys;
      FramesAppend(xs[1..], ys);
    }
  }

  lemma FramesNone()
    ensures Frames([]) == []
  {
  }

  lemma FramesPush(bs: seq<Stored>, i: nat)
    requires i < |bs|
    ensures Frames(bs[..i + 1]) == Frames(bs[..i]) + Frame(bs[i])
  {
    var one := [bs[i]];
    FramesAppend(bs[..i], one);
    assert bs[..i + 1] == bs[..i] + one;
    assert one[1..] == [];
    assert Frames(one) == Frame(bs[i]) + [];
  }

  // ---------------------------------------------------------------- reading

  /** A decoded block and the image position just after it. */
  datatype Loaded = Loaded(plain: seq<Byte>, next: nat)

  function ReadBlock(c: Codec, img: seq<Byte>, at: nat): (r: Option<Loaded>)
    ensures r.Some? ==> at < r.value.next <= |img|
  {
    if at + 2 > |img| then None else
    var h := FromLE(img[at..at + 2]);
    var size := h % RAW_BIT;
    if size == 0 || at + 2 + size > |img| then None else
    var plain :- Load(c, Stored(img[at + 2..at + 2 + size], h >= RAW_BIT));
    Some(Loaded(plain, at + 2 + size))
  }

  /** `len` bytes of a metadata stream, from offset `off` of the block stored at image position
      `at`, running on into the following blocks as far as needed. */
  function ReadMeta(c: Codec, img: seq<Byte>, at: nat, off: nat, len: nat): (r: Option<seq<Byte>>)
    ensures r.Some? ==> |r.value| == len
    decreases |img| - at
  {
    if len == 0 then Some([]) else
    var b :- ReadBlock(c, img, at);
    if off > |b.plain| then None else
    if off + len <= |b.plain| then Some(b.plain[off..off + len]) else
    var rest :- ReadMeta(c, img, b.next, 0, off + len - |b.plain|);
    Some(b.plain[off..] + rest)
  }

  /** Two adjacent pieces inside an image, each at its own position. */
  lemma Slices(pre: seq<Byte>, a: seq<Byte>, b: seq<Byte>, post: seq<Byte>)
    ensures var img := pre + (a + b) + post;
            && img[|pre|..|pre| + |a|] == a
            && img[|pre| + |a|..|pre| + |a| + |b|] == b
  {
    var img := pre + (a + b) + post;
    assert img[|pre|..|pre| + |a|] == a;
    assert img[|pre| + |a|..|pre| + |a| + |b|] == b;
  }

  lemma ReadBlockAt(c: Codec, pre: seq<Byte>, plain: seq<Byte>, post: seq<Byte>)
    requires Lossless(c) && 0 < |plain| <= META
    ensures var f := Frame(Store(c, plain));
            ReadBlock(c, pre + f + post, |pre|) == Some(Loaded(plain, |pre| + |f|))
  {
    LoadStore(c, plain);
    var b := Store(c, plain);
    var f := Frame(b);
    var h := |b.data| + if b.raw then RAW_BIT else 0;
    var img, at := pre + f + post, |pre|;
    Spans();
    LERoundTrip(h, 2);
    Slices(pre, LE(h, 2), b.data, post);
  }

  lemma AllStep(c: Codec, s: seq<Byte>)
    requires |s| >= META
    ensures Emit(c, s) == Frame(Store(c, s[..META])) + Emit(c, s[META..])
  {
    var b := Store(c, s[..META]);
    assert Sealed(c, META, s) == [b] + Sealed(c, META, s[META..]);
    assert ([b] + Sealed(c, META, s[META..]))[1..] == Sealed(c, META, s[META..]);
  }

  /** The block of an open tail comes first in what remains to be read. */
  lemma TailStep(c: Codec, s: seq<Byte>)
    requires 0 < |s| < META
    ensures Emit(c, s) == Frame(Store(c, s))
  {
    assert Sealed(c, META, s) == [Store(c, s)];
    assert Frames([Store(c, s)][1..]) == [];
  }

  lemma BlockStep(c: Codec, a: seq<Byte>)
    ensures |a| < META ==> BlockOf(c, a) == 0 && OffsetOf(a) == |a|
    ensures |a| >= META ==>
              && BlockOf(c, a) == |Frame(Store(c, a[..META]))| + BlockOf(c, a[META..])
              && OffsetOf(a) == OffsetOf(a[META..])
  {
    if |a| >= META {
      var bs := Full(c, META, a);
      assert bs[0] == Store(c, a[..META]) && bs[1..] == Full(c, META, a[META..]);
    }
  }

  /** A read that starts in the first block of the stream. */
  lemma {:induction false} ReadWithin(c: Codec, pre: seq<Byte>, s: seq<Byte>, post: seq<Byte>, off: nat, len: nat)
    requires Lossless(c) && off < META && off + len <= |s|
    ensures ReadMeta(c, pre + Emit(c, s) + post, |pre|, off, len) == Some(s[off..off + len])
    decreases |s|
  {
    hide Emit, Frame, Store, ReadBlock;
    if len > 0 {
      var b := if |s| < META then s else s[..META];
      var rest := if |s| < META then [] else Emit(c, s[META..]);
      if |s| < META { TailStep(c, s); } else { AllStep(c, s); }
      var img := pre + Emit(c, s) + post;
      assert img == pre + Frame(Store(c, b)) + (rest + post);
      ReadBlockAt(c, pre, b, rest + post);
      if off + len > META {
        var pre' := pre + Frame(Store(c, b));
        ReadWithin(c, pre', s[META..], post, 0, off + len - META);
        assert img == pre' + rest + post;
        assert b[off..] == s[off..META];
        assert s[META..][0..off + len - META] == s[META..off + len];
        assert s[off..off + len] == s[off..META] + s[META..off + len];
      } else {
        assert b[off..off + len] == s[off..off + len];
      }
    }
  }

  /** Random access: a record `t[..len]` written when the stream held `a` is what a reader gets at
      the reference taken at that moment, wherever the block boundaries fall and whatever was written,
      sealed and emitted afterwards. */
  lemma {:induction false} ReadAt(c: Codec, pre: seq<Byte>, a: seq<Byte>, t: seq<Byte>, post: seq<Byte>, len: nat)
    requires Lossless(c) && len <= |t|
    ensures ReadMeta(c, pre + Emit(c, a + t) + post, |pre| + BlockOf(c, a), OffsetOf(a), len) == Some(t[..len])
    decreases |a|
  {
    hide Emit, Frame, Store, ReadMeta, BlockOf, OffsetOf;
    BlockStep(c, a);
    var s := a + t;
    if |a| < META {
      ReadWithin(c, pre, s, post, |a|, len);
      assert s[|a|..|a| + len] == t[..len];
    } else {
      AllStep(c, s);
      assert a[..META] == s[..META] && s[META..] == a[META..] + t;
      var b := Store(c, a[..META]);
      var pre' := pre + Frame(b);
      assert pre + Emit(c, s) + post == pre' + Emit(c, a[META..] + t) + post;
      ReadAt(c, pre', a[META..], t, post, len);
    }
  }

  /** Decoding every emitted block gives back the concatenation of everything written. */
  lemma ReadWhole(c: Codec, pre: seq<Byte>, s: seq<Byte>, post: seq<Byte>)
    requires Lossless(c)
    ensures ReadMeta(c, pre + Emit(c, s) + post, |pre|, 0, |s|) == Some(s)
  {
    ReadAt(c, pre, [], s, post, |s|);
    assert [] + s == s && s[..|s|] == s;
  }

  // ---------------------------------------------------------------- writing

  /** A location in an open stream: index of the metadata block and offset inside it. */
  datatype MetaRef = MetaRef(blockIdx: nat, offset: nat)

  class MetaWriter {
    const comp: Codec
    var cur: seq<Byte>
    var blocks: seq<Stored>
    /** Everything written so far. */
    ghost var content: seq<Byte>

    ghost predicate Valid()
      reads this
    {
      blocks == Full(comp, META, content) && cur == Rem(META, content)
    }

    /** State after Flush: the tail is sealed, nothing is open. */
    ghost predicate Flushed()
      reads this
    {
      blocks == Sealed(comp, META, content) && cur == []
    }

    constructor (c: Codec)
      ensures Valid() && comp == c && content == []
    {
      comp := c;
      cur := [];
      blocks := [];
      content := [];
    }

    /** Location of the next byte to be written. */
    method Ref() returns (r: MetaRef)
      requires Valid()
      ensures r == MetaRef(|Full(comp, META, content)|, OffsetOf(content))
      ensures r.offset < META
    {
      r := MetaRef(|blocks|, |cur|);
    }

    method SealCurrent() returns (ok: bool)
      modifies this`cur, this`blocks
      ensures old(cur) == [] ==> ok && cur == [] && blocks == old(blocks)
      ensures ok && old(cur) != [] ==> cur == [] && blocks == old(blocks) + [Store(comp, old(cur))]
      ensures !ok ==> cur == old(cur) && blocks == old(blocks) && comp.compress(cur).Failed?
    {
      if cur == [] {
        return true;
      }
      var r := comp.compress(cur);
      if r.Failed? {
        return false;
      }
      var block := if r.Incompressible? || |r.out| >= |cur| then Stored(cur, true) else Stored(r.out, false);
      blocks := blocks + [block];
      cur := [];
      return true;
    }

    method Write(p: seq<Byte>) returns (ok: bool)
      requires Valid()
      modifies this
      ensures ok ==> Valid() && content == old(content) + p
      ensures !ok ==> exists chunk :: comp.compress(chunk).Failed?
    {
      var rest := p;
      while rest != []
        invariant Valid()
        invariant content + rest == old(content) + p
        decreases |rest|
      {
        var free := META - |cur|;
        var n := if |rest| > free then free else |rest|;
        ghost var before := content;
        cur := cur + rest[..n];
        content := content + rest[..n];
        Grow(comp, META, before, rest[..n]);
        rest := rest[n..];
        if |cur| == META {
          ghost var full := cur;
          ok := SealCurrent();
          if !ok {
            return;
          }
          assert full[..META] == full && full[META..] == [];
          assert Full(comp, META, full) == [Store(comp, full)];
        }
      }
      assert content + [] == content;
      return true;
    }

    method Flush() returns (ok: bool)
      requires Valid()
      modifies this
      ensures ok ==> Flushed() && content == old(content)
      ensures old(cur) == [] ==> ok && Valid()
      ensures !ok ==> exists chunk :: comp.compress(chunk).Failed?
    {
      ok := SealCurrent();
    }

    /** Byte offset of metadata block `blockIdx` from the start of the stream. */
    method BlockByteOffset(blockIdx: nat) returns (off: nat)
      requires blockIdx <= |blocks|
      ensures off == |Frames(blocks[..blockIdx])|
    {
      hide Frames;
      assert Frames(blocks[..0]) == [] by { FramesNone(); }
      off := 0;
      for i := 0 to blockIdx
        invariant off == |Frames(blocks[..i])|
      {
        off := off + 2 + |blocks[i].data|;
        FramesPush(blocks, i);
      }
    }

    /** The bytes of the finalized stream, or nothing if some block is larger than the format allows. */
    method EmitTo() returns (ok: bool, total: seq<Byte>)
      ensures ok <==> forall i :: 0 <= i < |blocks| ==> |blocks[i].data| <= META
      ensures ok ==> total == Frames(blocks)
    {
      hide Frames;
      assert Frames(blocks[..0]) == [] by { FramesNone(); }
      total := [];
      for i := 0 to |blocks|
        invariant total == Frames(blocks[..i])
        invariant forall j :: 0 <= j < i ==> |blocks[j].data| <= META
      {
        var b := blocks[i];
        if |b.data| > META {
          return false, total;
        }
        total := total + (LE(|b.data| + if b.raw then RAW_BIT else 0, 2) + b.data);
        FramesPush(blocks, i);
      }
      assert blocks[..|blocks|] == blocks;
      return true, total;
    }
  }

  /** No block ever grows: the emitter's size check cannot fire. */
  lemma {:induction false} FullBlockSizes(c: Codec, s: seq<Byte>)
    ensures forall i :: 0 <= i < |Sealed(c, META, s)| ==> |Sealed(c, META, s)[i].data| <= META
  {
    if |s| >= META {
      FullBlockSizes(c, s[META..]);
      assert Sealed(c, META, s) == [Store(c, s[..META])] + Sealed(c, META, s[META..]);
    }
  }
}

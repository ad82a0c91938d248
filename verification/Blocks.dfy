/** Compression with raw fallback, and the cutting of a byte stream into blocks of a fixed
    size. File data and metadata streams are both cut this way; they differ only in the block size
    and in how a stored block is framed. */
module Blocks {
  import opened Bytes

  /** What a Compressor answers for one block. */
  datatype Outcome = Compressed(out: seq<Byte>) | Incompressible | Failed

  /** The pluggable compression backend with the decoder a reader pairs it with. */
  datatype Codec = Codec(compress: seq<Byte> -> Outcome, decompress: seq<Byte> -> Option<seq<Byte>>)

  /** The contract a Compressor must honour: an output that is shorter than its input is not empty
      and decodes to that input. Nothing is asked of an output that saves no space. */
  ghost predicate Lossless(c: Codec) {
    forall s: seq<Byte> ::
      c.compress(s).Compressed? && |c.compress(s).out| < |s| ==>
        c.compress(s).out != [] && c.decompress(c.compress(s).out) == Some(s)
  }

  /** One block as it lies on disk; `raw` is the uncompressed bit. */
  datatype Stored = Stored(data: seq<Byte>, raw: bool)

  ghost predicate CanFail(c: Codec) {
    exists chunk :: c.compress(chunk).Failed?
  }

  /** Keep the compressed form only when it saves space. */
  function Store(c: Codec, plain: seq<Byte>): Stored {
    match c.compress(plain)
    case Compressed(out) => if |out| < |plain| then Stored(out, false) else Stored(plain, true)
    case _ => Stored(plain, true)
  }

  function Load(c: Codec, b: Stored): Option<seq<Byte>> {
    if b.raw then Some(b.data) else c.decompress(b.data)
  }

  /** Storing never grows a block. */
  lemma StoreShrinks(c: Codec, plain: seq<Byte>)
    ensures |Store(c, plain).data| <= |plain|
  {
  }

  lemma LoadStore(c: Codec, plain: seq<Byte>)
    requires Lossless(c) && plain != []
    ensures Load(c, Store(c, plain)) == Some(plain)
    ensures 0 < |Store(c, plain).data| <= |plain|
  {
    var o := c.compress(plain);
  }

  /** The sealed blocks of a stream `s` cut every `n` bytes; a short last piece stays open. */
  function Full(c: Codec, n: nat, s: seq<Byte>): (bs: seq<Stored>)
    requires n > 0
  {
    if |s| < n then [] else [Store(c, s[..n])] + Full(c, n, s[n..])
  }

  /** The open tail of the stream: the bytes after the last sealed block. */
  function Rem(n: nat, s: seq<Byte>): (t: seq<Byte>)
    requires n > 0
    ensures |t| < n && |t| <= |s|
  {
    if |s| < n then s else Rem(n, s[n..])
  }

  /** The blocks once the open tail, if any, has been sealed too. */
  function Sealed(c: Codec, n: nat, s: seq<Byte>): (bs: seq<Stored>)
    requires n > 0
  {
    Full(c, n, s) + if Rem(n, s) == [] then [] else [Store(c, Rem(n, s))]
  }

  /** Blocks of an aligned prefix do not change when the stream grows. */
  lemma {:induction false} FullAppend(c: Codec, n: nat, s: seq<Byte>, t: seq<Byte>)
    requires n > 0 && Rem(n, s) == []
    ensures Full(c, n, s + t) == Full(c, n, s) + Full(c, n, t)
    ensures Rem(n, s + t) == Rem(n, t)
  {
    if |s| < n {
      assert s + t == t;
    } else {
      var st := s + t;
      assert st[..n] == s[..n] && st[n..] == s[n..] + t;
      FullAppend(c, n, s[n..], t);
      assert Full(c, n, st) == [Store(c, s[..n])] + Full(c, n, s[n..] + t);
    }
  }

  /** The stream up to its last block boundary. */
  function Aligned(n: nat, s: seq<Byte>): (a: seq<Byte>)
    requires n > 0
  {
    s[..|s| - |Rem(n, s)|]
  }

  lemma {:induction false} AlignedFull(c: Codec, n: nat, s: seq<Byte>)
    requires n > 0
    ensures Aligned(n, s) + Rem(n, s) == s
    ensures Rem(n, Aligned(n, s)) == []
    ensures Full(c, n, Aligned(n, s)) == Full(c, n, s)
  {
    if |s| >= n {
      AlignedFull(c, n, s[n..]);
      var a := Aligned(n, s);
      assert a[..n] == s[..n];
      assert a[n..] == Aligned(n, s[n..]);
    }
  }

  /** Growing a stream by `p` seals exactly the blocks of the old tail followed by `p`. */
  lemma Grow(c: Codec, n: nat, s: seq<Byte>, p: seq<Byte>)
    requires n > 0
    ensures Full(c, n, s + p) == Full(c, n, s) + Full(c, n, Rem(n, s) + p)
    ensures Rem(n, s + p) == Rem(n, Rem(n, s) + p)
  {
    var a, t := Aligned(n, s), Rem(n, s);
    AlignedFull(c, n, s);
    assert s + p == a + (t + p);
    FullAppend(c, n, a, t + p);
  }
}

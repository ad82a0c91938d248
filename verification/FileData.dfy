/** File contents on disk: blocks of the image's block size, the last one possibly short, each
    recorded by a size word in the file's inode. */
module FileData {
  import opened Bytes
  import opened Blocks

  /** Bit 24 of a size word: the block is stored raw. */
  const RAW_WORD: nat := 0x100_0000
  const MIN_BLOCK: nat := 0x1000
  const MAX_BLOCK: nat := 0x10_0000

  function SizeWord(b: Stored): nat {
    |b.data| + if b.raw then RAW_WORD else 0
  }

  function Words(bs: seq<Stored>): (ws: seq<nat>)
    ensures |ws| == |bs|
  {
    if bs == [] then [] else [SizeWord(bs[0])] + Words(bs[1..])
  }

  /** The blocks back to back, as they lie in the data region. */
  function Disk(bs: seq<Stored>): seq<Byte> {
    if bs == [] then [] else bs[0].data + Disk(bs[1..])
  }

  lemma {:induction false} DiskAppend(a: seq<Stored>, b: seq<Stored>)
    ensures Disk(a + b) == Disk(a) + Disk(b)
  {
    if a == [] {
      assert a + b == b;
    } else {
      assert (a + b)[0] == a[0] && (a + b)[1..] == a[1..] + b;
      DiskAppend(a[1..], b);
    }
  }

  lemma {:induction false} WordsPush(bs: seq<Stored>, b: Stored)
    ensures Words(bs + [b]) == Words(bs) + [SizeWord(b)]
    ensures Disk(bs + [b]) == Disk(bs) + b.data
  {
    hide SizeWord;
    if bs == [] {
      assert bs + [b] == [b] && [b][1..] == [];
      assert Disk([b]) == b.data + [];
    } else {
      assert (bs + [b])[1..] == bs[1..] + [b] && (bs + [b])[0] == bs[0];
      WordsPush(bs[1..], b);
      Assoc([SizeWord(bs[0])], Words(bs[1..]), [SizeWord(b)]);
      Assoc(bs[0].data, Disk(bs[1..]), b.data);
    }
  }

  /** How a reader fetches a file of `size` bytes whose first block lies at image position `at`.
      Every block but the last must decode to a full block. */
  function ReadData(c: Codec, img: seq<Byte>, at: nat, words: seq<nat>, blockSize: nat, size: nat): Option<seq<Byte>>
    decreases |words|
  {
    if words == [] then if size == 0 then Some([]) else None else
    var len := words[0] % RAW_WORD;
    if at + len > |img| then None else
    var plain :- Load(c, Stored(img[at..at + len], words[0] / RAW_WORD == 1));
    var want := if size < blockSize then size else blockSize;
    if want == 0 || |plain| != want then None else
    var rest :- ReadData(c, img, at + len, words[1..], blockSize, size - want);
    Some(plain + rest)
  }

  lemma AllStep(c: Codec, n: nat, s: seq<Byte>)
    requires n > 0 && s != []
    ensures var k := if |s| < n then |s| else n;
            Sealed(c, n, s) == [Store(c, s[..k])] + Sealed(c, n, s[k..])
  {
    if |s| < n {
      assert s[..|s|] == s && s[|s|..] == [];
    }
  }

  /** What the blocks of `s` hold is `s`: reading an extent undoes writing it. */
  lemma {:induction false} ReadDataAt(c: Codec, n: nat, pre: seq<Byte>, s: seq<Byte>, post: seq<Byte>)
    requires Lossless(c) && 0 < n <= MAX_BLOCK
    ensures ReadData(c, pre + Disk(Sealed(c, n, s)) + post, |pre|, Words(Sealed(c, n, s)), n, |s|) == Some(s)
    decreases |s|
  {
    hide Store, Sealed, Full, Rem;
    if s == [] {
      assert Sealed(c, n, s) == [] by { AllNone(c, n); }
    } else {
      AllStep(c, n, s);
      var k := if |s| < n then |s| else n;
      var b := Store(c, s[..k]);
      LoadStore(c, s[..k]);
      var bs, rest := Sealed(c, n, s), Sealed(c, n, s[k..]);
      assert bs[0] == b && bs[1..] == rest;
      ReadDataAt(c, n, pre + b.data, s[k..], post);
      ReadStep(c, n, pre, s, post, k, b, rest);
      assert bs == [b] + rest;
    }
  }

  /** One block in front of an extent that reads back. */
  lemma ReadStep(c: Codec, n: nat, pre: seq<Byte>, s: seq<Byte>, post: seq<Byte>, k: nat, b: Stored, rest: seq<Stored>)
    requires 0 < n <= MAX_BLOCK && 0 < k <= |s| && k == (if |s| < n then |s| else n)
    requires Load(c, b) == Some(s[..k]) && |b.data| < RAW_WORD
    requires ReadData(c, pre + b.data + Disk(rest) + post, |pre + b.data|, Words(rest), n, |s| - k) == Some(s[k..])
    ensures ReadData(c, pre + Disk([b] + rest) + post, |pre|, Words([b] + rest), n, |s|) == Some(s)
  {
    hide Load, Disk;
    var bs := [b] + rest;
    assert bs[1..] == rest && bs[0] == b;
    DiskStep(b, rest);
    var img := pre + Disk(bs) + post;
    assert img == pre + b.data + Disk(rest) + post by {
      Assoc(pre, b.data, Disk(rest));
    }
    assert img[|pre|..|pre| + |b.data|] == b.data by {
      Assoc(pre + b.data, Disk(rest), post);
      Middle(pre, b.data, Disk(rest) + post);
    }
    assert s[..k] + s[k..] == s;
    assert Words(bs)[1..] == Words(rest);
  }

  lemma DiskStep(b: Stored, rest: seq<Stored>)
    ensures Disk([b] + rest) == b.data + Disk(rest)
  {
    assert ([b] + rest)[1..] == rest;
  }

  lemma AllNone(c: Codec, n: nat)
    requires n > 0
    ensures Sealed(c, n, []) == []
  {
  }

  lemma MulLess(x: int, y: int, n: nat)
    requires x < y
    ensures x * n + n <= y * n
  {
    assert (y - x - 1) * n >= 0;
  }

  lemma DivUnique(a: nat, n: nat, q: nat, r: nat)
    requires n > 0 && a == q * n + r && r < n
    ensures a / n == q
  {
    var q' := a / n;
    assert q' * n <= a < q' * n + n;
    if q' > q {
      MulLess(q, q', n);
    } else if q' < q {
      MulLess(q', q, n);
    }
  }

  lemma DivStep(a: nat, n: nat)
    requires n > 0
    ensures (a + n) / n == a / n + 1
  {
    var q := a / n;
    assert q * n <= a < q * n + n;
    DivUnique(a + n, n, q + 1, a - q * n);
  }

  /** A file of `|s|` bytes has as many blocks as its inode's reader expects, and every size word fits its field. */
  lemma {:induction false} BlockCount(c: Codec, n: nat, s: seq<Byte>)
    requires 0 < n <= MAX_BLOCK
    ensures |Sealed(c, n, s)| == (|s| + n - 1) / n
    ensures forall i :: 0 <= i < |Sealed(c, n, s)| ==> Words(Sealed(c, n, s))[i] < Span(4)
    decreases |s|
  {
    hide Store, Sealed, Full, Rem;
    Spans();
    if s == [] {
      AllNone(c, n);
      DivUnique(n - 1, n, 0, n - 1);
    } else {
      AllStep(c, n, s);
      var k := if |s| < n then |s| else n;
      StoreShrinks(c, s[..k]);
      BlockCount(c, n, s[k..]);
      var bs, rest := Sealed(c, n, s), Sealed(c, n, s[k..]);
      assert bs[0] == Store(c, s[..k]) && bs[1..] == rest;
      if |s| < n {
        DivUnique(|s| + n - 1, n, 1, |s| - 1);
        DivUnique(n - 1, n, 0, n - 1);
      } else {
        DivStep(|s| - n + n - 1, n);
      }
    }
  }
}

/** The bytes on disk, field by field at fixed offsets, as the format has them: every number here is a literal. */
module WireFormat {
  import opened Bytes
  import opened Blocks
  import opened FileData
  import opened MetaStream
  import opened Inodes
  import opened Listing
  import opened IdTable
  import opened Layout
  import opened Image
  import opened RoundTrip
  import opened ImageTheorem

  /** The little-endian number in the `w` bytes from `at` on. */
  function Num(s: seq<Byte>, at: nat, w: nat): nat
    requires at + w <= |s|
    decreases w
  {
    if w == 0 then 0 else s[at] + 256 * Num(s, at + 1, w - 1)
  }

  lemma {:induction false} NumIn(a: seq<Byte>, b: seq<Byte>, c: seq<Byte>, at: nat, w: nat)
    requires at + w <= |b|
    ensures Num(a + b + c, |a| + at, w) == Num(b, at, w)
    decreases w
  {
    if w > 0 {
      assert (a + b + c)[|a| + at] == b[at];
      NumIn(a, b, c, at + 1, w - 1);
    }
  }

  lemma {:induction false} NumLE(n: nat, w: nat)
    requires n < Span(w)
    ensures Num(LE(n, w), 0, w) == n
  {
    if w > 0 {
      var rest := LE(n / 256, w - 1);
      assert LE(n, w) == [n % 256] + rest + [];
      NumIn([n % 256], rest, [], 0, w - 1);
      NumLE(n / 256, w - 1);
    }
  }

  /** Value `i` of a row of numbers, which starts at `at`. */
  lemma {:induction false} NumInts(vs: seq<nat>, w: nat, i: nat, at: nat)
    requires i < |vs| && vs[i] < Span(w) && at == i * w
    ensures at + w <= |Ints(vs, w)| && Num(Ints(vs, w), at, w) == vs[i]
  {
    hide LE, Num, Span, Ints;
    var head, rest := LE(vs[0], w), Ints(vs[1..], w);
    assert Ints(vs, w) == head + rest by { IntsCons(vs, w); }
    if i == 0 {
      NumLE(vs[0], w);
      assert [] + head + rest == Ints(vs, w);
      NumIn([], head, rest, 0, w);
    } else {
      assert at - w == (i - 1) * w;
      NumInts(vs[1..], w, i - 1, at - w);
      assert head + rest + [] == Ints(vs, w);
      NumIn(head, rest, [], at - w, w);
    }
  }

  lemma IntsCons(vs: seq<nat>, w: nat)
    requires vs != []
    ensures Ints(vs, w) == LE(vs[0], w) + Ints(vs[1..], w)
  {
  }

  /** The same behind and before other bytes. */
  lemma NumRow(a: seq<Byte>, vs: seq<nat>, w: nat, c: seq<Byte>, i: nat)
    requires i < |vs| && vs[i] < Span(w)
    ensures var s := a + Ints(vs, w) + c; |a| + i * w + w <= |s| && Num(s, |a| + i * w, w) == vs[i]
  {
    hide Ints, Num;
    NumInts(vs, w, i, i * w);
    NumIn(a, Ints(vs, w), c, i * w, w);
  }

  // ---------------------------------------------------------------- superblock

  /** "hsqs", then the fields; version 4.0. */
  lemma SuperblockBytes(s: Super, rest: seq<Byte>)
    requires FitsSuper(s)
    ensures var b := EncodeSuper(s) + rest;
            && |b| == 96 + |rest| && b[0] == 0x68 && b[1] == 0x73 && b[2] == 0x71 && b[3] == 0x73
            && Num(b, 4, 4) == s.inodeCount && Num(b, 8, 4) == s.modTime
            && Num(b, 12, 4) == s.blockSize && Num(b, 16, 4) == s.fragCount
            && Num(b, 20, 2) == s.compressor && Num(b, 22, 2) == s.blockLog
            && Num(b, 24, 2) == s.flags && Num(b, 26, 2) == s.idCount && Num(b, 28, 2) == 4 && Num(b, 30, 2) == 0
            && Num(b, 32, 8) == s.rootRef && Num(b, 40, 8) == s.bytesUsed
            && Num(b, 48, 8) == s.idStart && Num(b, 56, 8) == s.xattrStart
            && Num(b, 64, 8) == s.inodeStart && Num(b, 72, 8) == s.dirStart
            && Num(b, 80, 8) == s.fragStart && Num(b, 88, 8) == s.exportStart
  {
    hide Ints, Num;
    Spans();
    var v4 := [MAGIC, s.inodeCount, s.modTime, s.blockSize, s.fragCount];
    var v2 := [s.compressor, s.blockLog, s.flags, s.idCount, 4, 0];
    var v8 := [s.rootRef, s.bytesUsed, s.idStart, s.xattrStart, s.inodeStart, s.dirStart, s.fragStart, s.exportStart];
    var x, y, z := Ints(v4, 4), Ints(v2, 2), Ints(v8, 8);
    var b := EncodeSuper(s) + rest;
    assert b == [] + x + (y + z + rest) && b == x + y + (z + rest) && b == (x + y) + z + rest;
    SuperRows4(v4, b, y + z + rest);
    SuperRows2(x, v2, b, z + rest);
    SuperRows8(x + y, v8, b, rest);
    MagicBytes(v4);
    assert b[..4] == x[..4];
  }

  lemma MagicBytes(v4: seq<nat>)
    requires v4 != [] && v4[0] == MAGIC
    ensures Ints(v4, 4)[..4] == [0x68, 0x73, 0x71, 0x73]
  {
    assert LE(MAGIC, 4) == [0x68, 0x73, 0x71, 0x73];
  }

  lemma SuperRows4(v: seq<nat>, b: seq<Byte>, c: seq<Byte>)
    requires |v| == 5 && b == [] + Ints(v, 4) + c && forall i :: 0 <= i < 5 ==> v[i] < Span(4)
    ensures |b| >= 20 && Num(b, 4, 4) == v[1] && Num(b, 8, 4) == v[2] && Num(b, 12, 4) == v[3] && Num(b, 16, 4) == v[4]
  {
    hide Ints, Num, Span;
    NumRow([], v, 4, c, 1);
    NumRow([], v, 4, c, 2);
    NumRow([], v, 4, c, 3);
    NumRow([], v, 4, c, 4);
  }

  lemma SuperRows2(a: seq<Byte>, v: seq<nat>, b: seq<Byte>, c: seq<Byte>)
    requires |a| == 20 && |v| == 6 && b == a + Ints(v, 2) + c && forall i :: 0 <= i < 6 ==> v[i] < Span(2)
    ensures |b| >= 32 && Num(b, 20, 2) == v[0] && Num(b, 22, 2) == v[1] && Num(b, 24, 2) == v[2]
    ensures Num(b, 26, 2) == v[3] && Num(b, 28, 2) == v[4] && Num(b, 30, 2) == v[5]
  {
    hide Ints, Num, Span;
    forall i | 0 <= i < 6 ensures 20 + i * 2 + 2 <= |b| && Num(b, 20 + i * 2, 2) == v[i] { NumRow(a, v, 2, c, i); }
    assert Num(b, 20 + 0 * 2, 2) == v[0] && Num(b, 20 + 1 * 2, 2) == v[1] && Num(b, 20 + 2 * 2, 2) == v[2];
    assert Num(b, 20 + 3 * 2, 2) == v[3] && Num(b, 20 + 4 * 2, 2) == v[4] && Num(b, 20 + 5 * 2, 2) == v[5];
  }

  lemma SuperRows8(a: seq<Byte>, v: seq<nat>, b: seq<Byte>, c: seq<Byte>)
    requires |a| == 32 && |v| == 8 && b == a + Ints(v, 8) + c && forall i :: 0 <= i < 8 ==> v[i] < Span(8)
    ensures |b| >= 96 && Num(b, 32, 8) == v[0] && Num(b, 40, 8) == v[1] && Num(b, 48, 8) == v[2] &&
            Num(b, 56, 8) == v[3]
    ensures Num(b, 64, 8) == v[4] && Num(b, 72, 8) == v[5] && Num(b, 80, 8) == v[6] && Num(b, 88, 8) == v[7]
  {
    hide Ints, Num, Span;
    forall i | 0 <= i < 8 ensures 32 + i * 8 + 8 <= |b| && Num(b, 32 + i * 8, 8) == v[i] { NumRow(a, v, 8, c, i); }
    assert Num(b, 32 + 0 * 8, 8) == v[0] && Num(b, 32 + 1 * 8, 8) == v[1] && Num(b, 32 + 2 * 8, 8) == v[2];
    assert Num(b, 32 + 3 * 8, 8) == v[3] && Num(b, 32 + 4 * 8, 8) == v[4] && Num(b, 32 + 5 * 8, 8) == v[5];
    assert Num(b, 32 + 6 * 8, 8) == v[6] && Num(b, 32 + 7 * 8, 8) == v[7];
  }

  // ---------------------------------------------------------------- inodes

  lemma HeaderBytes(typ: nat, h: Common, rest: seq<Byte>)
    requires FitsCommon(h) && typ < 0x1_0000
    ensures var b := Header(typ, h) + rest;
            && |b| == 16 + |rest| && Num(b, 0, 2) == typ && Num(b, 2, 2) == h.perm
            && Num(b, 4, 2) == h.uidIdx && Num(b, 6, 2) == h.gidIdx && Num(b, 8, 4) == h.mtime && Num(b, 12, 4) == h.ino
  {
    hide Ints, Num;
    Spans();
    var v2, v4 := [typ, h.perm, h.uidIdx, h.gidIdx], [h.mtime, h.ino];
    var x, y := Ints(v2, 2), Ints(v4, 4);
    var b := Header(typ, h) + rest;
    assert b == [] + x + (y + rest) && b == x + y + rest;
    NumRow([], v2, 2, y + rest, 0);
    NumRow([], v2, 2, y + rest, 1);
    NumRow([], v2, 2, y + rest, 2);
    NumRow([], v2, 2, y + rest, 3);
    NumRow(x, v4, 4, rest, 0);
    NumRow(x, v4, 4, rest, 1);
  }

  /** The type in the first two bytes: 1 directory, 2 file, 3 symlink, 4 block device, 5 character device, 6 pipe,
      7 socket; then permissions, owner, group, time and number. */
  lemma InodeBytesHead(i: Inode, blockSize: nat)
    requires blockSize > 0 && Fits(i, blockSize)
    ensures var b := Encode(i);
            && |b| >= 16
            && Num(b, 0, 2) == (match i
                                case DirInode(_, _, _, _, _, _) => 1
                                case FileInode(_, _, _, _) => 2
                                case SymlinkInode(_, _, _) => 3
                                case DeviceInode(_, block, _, _) => if block then 4 else 5
                                case IpcInode(_, socket, _) => if socket then 7 else 6)
            && Num(b, 2, 2) == i.h.perm && Num(b, 4, 2) == i.h.uidIdx && Num(b, 6, 2) == i.h.gidIdx
            && Num(b, 8, 4) == i.h.mtime && Num(b, 12, 4) == i.h.ino
  {
    hide Num, Header, Body;
    HeaderBytes(TypeOf(i), i.h, Body(i));
  }

  lemma DirInodeBytes(i: Inode, blockSize: nat)
    requires blockSize > 0 && Fits(i, blockSize) && i.DirInode?
    ensures var b := Encode(i);
            && |b| == 32 && Num(b, 16, 4) == i.blockStart && Num(b, 20, 4) == i.nlink && Num(b, 24, 2) == i.listSize
            && Num(b, 26, 2) == i.blockOffset && Num(b, 28, 4) == i.parent
  {
    hide Ints, Num, Header;
    Spans();
    var a, b := Header(TypeOf(i), i.h), Encode(i);
    var x, y, z := Ints([i.blockStart, i.nlink], 4), Ints([i.listSize, i.blockOffset], 2), Ints([i.parent], 4);
    assert b == a + x + (y + z) && b == (a + x) + y + z && b == (a + x + y) + z + [];
    NumRow(a, [i.blockStart, i.nlink], 4, y + z, 0);
    NumRow(a, [i.blockStart, i.nlink], 4, y + z, 1);
    NumRow(a + x, [i.listSize, i.blockOffset], 2, z, 0);
    NumRow(a + x, [i.listSize, i.blockOffset], 2, z, 1);
    NumRow(a + x + y, [i.parent], 4, [], 0);
  }

  /** No fragment, and one word per block. */
  lemma FileInodeBytes(i: Inode, blockSize: nat)
    requires blockSize > 0 && Fits(i, blockSize) && i.FileInode?
    ensures var b := Encode(i);
            && |b| == 32 + 4 * |i.words| && Num(b, 16, 4) == i.start && Num(b, 20, 4) == 0xFFFF_FFFF
            && Num(b, 24, 4) == 0 && Num(b, 28, 4) == i.size
            && forall k :: 0 <= k < |i.words| ==> Num(b, 32 + k * 4, 4) == i.words[k]
  {
    hide Ints, Num, Header;
    Spans();
    var a, b, v := Header(TypeOf(i), i.h), Encode(i), [i.start, NO_FRAGMENT, 0, i.size];
    var x, y := Ints(v, 4), Ints(i.words, 4);
    assert b == a + x + y && b == (a + x) + y + [];
    NumRow(a, v, 4, y, 0);
    NumRow(a, v, 4, y, 1);
    NumRow(a, v, 4, y, 2);
    NumRow(a, v, 4, y, 3);
    forall k | 0 <= k < |i.words| ensures 32 + k * 4 + 4 <= |b| && Num(b, 32 + k * 4, 4) == i.words[k] {
      NumRow(a + x, i.words, 4, [], k);
    }
  }

  lemma OtherInodeBytes(i: Inode, blockSize: nat)
    requires blockSize > 0 && Fits(i, blockSize) && !i.DirInode? && !i.FileInode?
    ensures var b := Encode(i);
            && |b| >= 20 && Num(b, 16, 4) == i.nlink
            && (i.SymlinkInode? ==> |b| == 24 + |i.target| && Num(b, 20, 4) == |i.target| && b[24..] == i.target)
            && (i.DeviceInode? ==> |b| == 24 && Num(b, 20, 4) == i.dev)
            && (i.IpcInode? ==> |b| == 20)
  {
    hide Ints, Num, Header;
    Spans();
    var a, b := Header(TypeOf(i), i.h), Encode(i);
    match i {
      case SymlinkInode(_, n, target) =>
        assert b == a + Ints([n, |target|], 4) + target;
        NumRow(a, [n, |target|], 4, target, 0);
        NumRow(a, [n, |target|], 4, target, 1);
      case DeviceInode(_, _, n, dev) =>
        assert b == a + Ints([n, dev], 4) + [];
        NumRow(a, [n, dev], 4, [], 0);
        NumRow(a, [n, dev], 4, [], 1);
      case IpcInode(_, _, n) =>
        assert b == a + Ints([n], 4) + [];
        NumRow(a, [n], 4, [], 0);
    }
  }

  // ---------------------------------------------------------------- directory listings

  lemma GroupHeaderBytes(count: nat, base: DirEntry, rest: seq<Byte>)
    requires 0 < count <= 256 && ValidEntry(base)
    ensures var b := EncodeHeader(count, base) + rest;
            |b| == 12 + |rest| && Num(b, 0, 4) == count - 1 && Num(b, 4, 4) == base.blockByte &&
                Num(b, 8, 4) == base.ino
  {
    hide Ints, Num;
    Spans();
    var v := [count - 1, base.blockByte, base.ino];
    assert EncodeHeader(count, base) + rest == [] + Ints(v, 4) + rest;
    NumRow([], v, 4, rest, 0);
    NumRow([], v, 4, rest, 1);
    NumRow([], v, 4, rest, 2);
  }

  /** Offset in the block, inode number relative to the header in two's complement, type, length of the name minus
      one, name. */
  lemma EntryBytesAt(base: DirEntry, e: DirEntry)
    requires Joins(base, e) && ValidEntry(e)
    ensures var b := EncodeEntry(base, e);
            && |b| == 8 + |e.name| && Num(b, 0, 2) == e.off && (Num(b, 2, 2) - (e.ino - base.ino)) % 0x1_0000 == 0
            && Num(b, 4, 2) == e.typ && Num(b, 6, 2) == |e.name| - 1 && b[8..] == e.name
  {
    hide Ints, Num;
    Spans();
    var v := [e.off, Delta16(e.ino - base.ino), e.typ, |e.name| - 1];
    assert EncodeEntry(base, e) == [] + Ints(v, 2) + e.name;
    NumRow([], v, 2, e.name, 0);
    NumRow([], v, 2, e.name, 1);
    NumRow([], v, 2, e.name, 2);
    NumRow([], v, 2, e.name, 3);
  }

  /** A group shares a header as long as it has at most 256 entries, one inode block and numbers within a signed
      16-bit distance of the first. */
  lemma LegalGroup(es: seq<DirEntry>)
    ensures LegalRun(es) <==>
              && 1 <= |es| <= 256
              && forall i :: 0 <= i < |es| ==>
                   es[i].blockByte == es[0].blockByte && -32768 <= es[i].ino - es[0].ino <= 32767
  {
    if LegalRun(es) {
      forall i | 0 <= i < |es| ensures es[i].blockByte == es[0].blockByte && -32768 <= es[i].ino - es[0].ino <= 32767 {
        assert Joins(es[0], es[i]);
      }
    }
  }

  // ---------------------------------------------------------------- blocks

  /** Metadata is cut every 8192 bytes; in front of a block its size in two bytes, with the top bit for a raw one. */
  lemma MetaBlocks(c: Codec, s: seq<Byte>)
    ensures |Full(c, META, s)| == |s| / 8192 && |Rem(META, s)| == |s| % 8192 && OffsetOf(s) == |s| % 8192
    decreases |s|
  {
    if |s| >= 8192 { MetaBlocks(c, s[8192..]); }
  }

  lemma FrameBytes(b: Stored)
    requires |b.data| <= 8192
    ensures var f := Frame(b);
            |f| == 2 + |b.data| && Num(f, 0, 2) == |b.data| + (if b.raw then 0x8000 else 0) && f[2..] == b.data
  {
    hide Num;
    Spans();
    var n := |b.data| + if b.raw then 0x8000 else 0;
    NumLE(n, 2);
    assert Frame(b) == [] + LE(n, 2) + b.data;
    NumIn([], LE(n, 2), b.data, 0, 2);
  }

  /** A data block's word: its size on disk, with bit 24 for a raw one. */
  lemma WordOf(b: Stored)
    requires |b.data| < 0x100_0000
    ensures SizeWord(b) % 0x100_0000 == |b.data| && SizeWord(b) / 0x100_0000 == if b.raw then 1 else 0
  {
  }

  /** 2048 ids to a block, 65535 ids at most. */
  lemma IdBlocks(c: Codec, ids: seq<nat>, base: nat)
    ensures |Offsets(c, ids, base)| == (|ids| + 2047) / 2048
    ensures forall id :: InternId(ids, id).None? <==> id !in ids && |ids| >= 65535
  {
  }

  // ---------------------------------------------------------------- the image

  /** Where everything lies, and what the superblock says about it. */
  lemma ImageBytes(x: Ctx, m: Parts)
    requires Assembled(x, m)
    ensures HasRoot(m)
    ensures var img := ImageOf(m);
            && |img| % 4096 == 0 && |img| >= 96
            && Num(img, 4, 4) == m.inodeCount && Num(img, 8, 4) == m.modTime && Num(img, 12, 4) == m.cfg.blockSize
            && Num(img, 16, 4) == 0 && Num(img, 20, 2) == m.cfg.compressorId && Num(img, 24, 2) == 0x210
            && Num(img, 26, 2) == |m.ids| && Num(img, 28, 2) == 4 && Num(img, 30, 2) == 0
            && Pow2(Num(img, 22, 2)) == m.cfg.blockSize
    ensures var img := ImageOf(m);
            && Num(img, 56, 8) == 0xFFFF_FFFF_FFFF_FFFF && Num(img, 80, 8) == 0xFFFF_FFFF_FFFF_FFFF
            && Num(img, 88, 8) == 0xFFFF_FFFF_FFFF_FFFF
            && 96 <= Num(img, 64, 8) <= Num(img, 72, 8) <= Num(img, 48, 8) <= Num(img, 40, 8) <= |img| < Num(img, 40,
               8) + 4096
            && img[96..Num(img, 64, 8)] == m.data
            && (forall k :: Num(img, 40, 8) <= k < |img| ==> img[k] == 0)
  {
    hide Num, Assembled, EncodeSuper, RootRef, Emit, LookupBytes, Ints, Offsets, Pow2, BlockLog;
    SuperFields(x, m);
    SuperblockBytes(SuperOf(m), AfterSuper(m));
    Regions(m);
  }

  lemma Regions(m: Parts)
    requires HasRoot(m)
    ensures var img := ImageOf(m);
            && |img| % 4096 == 0 && 96 <= InodeStart(m) <= DirStart(m) <= IdStart(m) <= BytesUsed(m) <= |img|
            && |img| < BytesUsed(m) + 4096 && img[96..InodeStart(m)] == m.data
            && forall k :: BytesUsed(m) <= k < |img| ==> img[k] == 0
  {
    hide EncodeSuper, SuperOf, Emit, LookupBytes;
    var img, head, z := ImageOf(m), EncodeSuper(SuperOf(m)), Padding(BytesUsed(m));
    var rest := InodeBytes(m) + DirBytes(m) + IdBytes(m) + LookupBytes(m);
    assert img == head + m.data + (rest + z) && img == (head + m.data + rest) + z;
    Middle(head, m.data, rest + z);
    forall k | BytesUsed(m) <= k < |img| ensures img[k] == 0 { assert img[k] == z[k - BytesUsed(m)]; }
  }
}

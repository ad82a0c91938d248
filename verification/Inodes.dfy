/** Basic inode records: their layout on the wire and how a reader gets one back from the inode
    table. */
module Inodes {
  import opened Bytes
  import opened Blocks
  import opened MetaStream

  const DIR: nat := 1
  const FILE: nat := 2
  const SYMLINK: nat := 3
  const BLOCKDEV: nat := 4
  const CHARDEV: nat := 5
  const FIFO: nat := 6
  const SOCKET: nat := 7
  const NO_FRAGMENT: nat := 0xFFFF_FFFF

  /** The fields every inode starts with; uid and gid are indices into the ID table. */
  datatype Common = Common(perm: nat, uidIdx: nat, gidIdx: nat, mtime: nat, ino: nat)

  datatype Inode =
    | DirInode(h: Common, blockStart: nat, nlink: nat, listSize: nat, blockOffset: nat, parent: nat)
    | FileInode(h: Common, start: nat, size: nat, words: seq<nat>)
    | SymlinkInode(h: Common, nlink: nat, target: seq<Byte>)
    | DeviceInode(h: Common, isBlock: bool, nlink: nat, dev: nat)
    | IpcInode(h: Common, isSocket: bool, nlink: nat)

  function TypeOf(i: Inode): nat {
    match i
    case DirInode(_, _, _, _, _, _) => DIR
    case FileInode(_, _, _, _) => FILE
    case SymlinkInode(_, _, _) => SYMLINK
    case DeviceInode(_, b, _, _) => if b then BLOCKDEV else CHARDEV
    case IpcInode(_, s, _) => if s then SOCKET else FIFO
  }

  predicate U16(n: nat) { n < 0x1_0000 }
  predicate U32(n: nat) { n < 0x1_0000_0000 }

  predicate FitsCommon(h: Common) {
    U16(h.perm) && U16(h.uidIdx) && U16(h.gidIdx) && U32(h.mtime) && U32(h.ino)
  }

  /** Every field is within its width on the wire, and a file records the block sizes its size calls for. */
  predicate Fits(i: Inode, blockSize: nat)
    requires blockSize > 0
  {
    && FitsCommon(i.h)
    && match i
       case DirInode(_, start, n, size, off, parent) => U32(start) && U32(n) && U16(size) && U16(off) && U32(parent)
       case FileInode(_, start, size, ws) =>
         && U32(start) && U32(size) && |ws| == (size + blockSize - 1) / blockSize
         && forall k :: 0 <= k < |ws| ==> U32(ws[k])
       case SymlinkInode(_, n, target) => U32(n) && U32(|target|)
       case DeviceInode(_, _, n, dev) => U32(n) && U32(dev)
       case IpcInode(_, _, n) => U32(n)
  }

  function Header(typ: nat, h: Common): (s: seq<Byte>)
    ensures |s| == 16
  {
    Ints([typ, h.perm, h.uidIdx, h.gidIdx], 2) + Ints([h.mtime, h.ino], 4)
  }

  function Body(i: Inode): seq<Byte> {
    match i
    case DirInode(_, start, n, size, off, parent) => Ints([start, n], 4) + Ints([size, off], 2) + Ints([parent], 4)
    case FileInode(_, start, size, ws) => Ints([start, NO_FRAGMENT, 0, size], 4) + Ints(ws, 4)
    case SymlinkInode(_, n, target) => Ints([n, |target|], 4) + target
    case DeviceInode(_, _, n, dev) => Ints([n, dev], 4)
    case IpcInode(_, _, n) => Ints([n], 4)
  }

  function Encode(i: Inode): (s: seq<Byte>)
    ensures |s| >= 16
  {
    Header(TypeOf(i), i.h) + Body(i)
  }

  // ---------------------------------------------------------------- reading

  datatype Head = Head(typ: nat, h: Common)

  function DecodeHead(b: seq<Byte>): Head
    requires |b| >= 16
  {
    var x := UnInts(b, 2, 4);
    var y := UnInts(b[8..], 4, 2);
    Head(x[0], Common(x[1], x[2], x[3], y[0], y[1]))
  }

  /** The inode at offset `off` of the metadata block stored at image position `at`. */
  function ReadInode(c: Codec, img: seq<Byte>, at: nat, off: nat, blockSize: nat): Option<Inode>
    requires blockSize > 0
  {
    var hb :- ReadMeta(c, img, at, off, 16);
    var head := DecodeHead(hb);
    if head.typ == DIR then ReadDir(c, img, at, off, head.h)
    else if head.typ == FILE then ReadFile(c, img, at, off, head.h, blockSize)
    else if head.typ == SYMLINK then ReadSymlink(c, img, at, off, head.h)
    else if head.typ == BLOCKDEV || head.typ == CHARDEV then ReadDevice(c, img, at, off, head)
    else if head.typ == FIFO || head.typ == SOCKET then ReadIpc(c, img, at, off, head)
    else None
  }

  function ReadDir(c: Codec, img: seq<Byte>, at: nat, off: nat, h: Common): Option<Inode> {
    var b :- ReadMeta(c, img, at, off, 32);
    var x := UnInts(b[16..], 4, 2);
    var y := UnInts(b[24..], 2, 2);
    var z := UnInts(b[28..], 4, 1);
    Some(DirInode(h, x[0], x[1], y[0], y[1], z[0]))
  }

  /** Files with a tail fragment are outside what this reader supports; the writer makes none. */
  function ReadFile(c: Codec, img: seq<Byte>, at: nat, off: nat, h: Common, blockSize: nat): Option<Inode>
    requires blockSize > 0
  {
    var b :- ReadMeta(c, img, at, off, 32);
    var x := UnInts(b[16..], 4, 4);
    if x[1] != NO_FRAGMENT then None else
    var n: nat := (x[3] + blockSize - 1) / blockSize;
    var full :- ReadMeta(c, img, at, off, 32 + 4 * n);
    Some(FileInode(h, x[0], x[3], UnInts(full[32..], 4, n)))
  }

  function ReadSymlink(c: Codec, img: seq<Byte>, at: nat, off: nat, h: Common): Option<Inode> {
    var b :- ReadMeta(c, img, at, off, 24);
    var x := UnInts(b[16..], 4, 2);
    var full :- ReadMeta(c, img, at, off, 24 + x[1]);
    Some(SymlinkInode(h, x[0], full[24..]))
  }

  function ReadDevice(c: Codec, img: seq<Byte>, at: nat, off: nat, head: Head): Option<Inode> {
    var b :- ReadMeta(c, img, at, off, 24);
    var x := UnInts(b[16..], 4, 2);
    Some(DeviceInode(head.h, head.typ == BLOCKDEV, x[0], x[1]))
  }

  function ReadIpc(c: Codec, img: seq<Byte>, at: nat, off: nat, head: Head): Option<Inode> {
    var b :- ReadMeta(c, img, at, off, 20);
    var x := UnInts(b[16..], 4, 1);
    Some(IpcInode(head.h, head.typ == SOCKET, x[0]))
  }

  // ---------------------------------------------------------------- reading undoes writing

  /** The bytes `s` are what a reader gets, to any length, at this place of the stream. */
  ghost predicate Holds(c: Codec, img: seq<Byte>, at: nat, off: nat, s: seq<Byte>) {
    forall n :: 0 <= n <= |s| ==> ReadMeta(c, img, at, off, n) == Some(s[..n])
  }

  lemma HeadRoundTrip(typ: nat, h: Common, rest: seq<Byte>)
    requires U16(typ) && FitsCommon(h)
    ensures DecodeHead(Header(typ, h) + rest) == Head(typ, h)
  {
    hide Ints, UnInts;
    Spans();
    var x, y := Ints([typ, h.perm, h.uidIdx, h.gidIdx], 2), Ints([h.mtime, h.ino], 4);
    var b := Header(typ, h) + rest;
    Assoc(x, y, rest);
    assert b[8..] == y + rest;
    IntsRoundTrip([typ, h.perm, h.uidIdx, h.gidIdx], 2, y + rest);
    IntsRoundTrip([h.mtime, h.ino], 4, rest);
  }

  /** The part of a held record between `k` and `n`. */
  lemma HeldPart(c: Codec, img: seq<Byte>, at: nat, off: nat, s: seq<Byte>, k: nat, n: nat)
    requires Holds(c, img, at, off, s) && k <= n <= |s|
    ensures ReadMeta(c, img, at, off, n) == Some(s[..n]) && s[..n][k..] == s[k..n]
  {
  }

  lemma ReadDirAt(c: Codec, img: seq<Byte>, at: nat, off: nat, i: Inode, head: seq<Byte>)
    requires i.DirInode? && Fits(i, 1) && |head| == 16
    requires Holds(c, img, at, off, head + Body(i))
    ensures ReadDir(c, img, at, off, i.h) == Some(i)
  {
    hide Ints, UnInts, ReadMeta;
    Spans();
    var x, y, z := Ints([i.blockStart, i.nlink], 4), Ints([i.listSize, i.blockOffset], 2), Ints([i.parent], 4);
    var s := head + Body(i);
    HeldPart(c, img, at, off, s, 16, 32);
    var b := s[..32];
    assert b[16..] == x + (y + z);
    assert b[24..] == y + z;
    assert b[28..] == z + [];
    IntsRoundTrip([i.blockStart, i.nlink], 4, y + z);
    IntsRoundTrip([i.listSize, i.blockOffset], 2, z);
    IntsRoundTrip([i.parent], 4, []);
  }

  lemma ReadFileAt(c: Codec, img: seq<Byte>, at: nat, off: nat, i: Inode, head: seq<Byte>, blockSize: nat)
    requires blockSize > 0 && i.FileInode? && Fits(i, blockSize) && |head| == 16
    requires Holds(c, img, at, off, head + Body(i))
    ensures ReadFile(c, img, at, off, i.h, blockSize) == Some(i)
  {
    hide Ints, UnInts, ReadMeta;
    Spans();
    var vs := [i.start, NO_FRAGMENT, 0, i.size];
    var x, y := Ints(vs, 4), Ints(i.words, 4);
    var s := head + Body(i);
    HeldPart(c, img, at, off, s, 16, 32);
    assert s[..32][16..] == x + [];
    IntsRoundTrip(vs, 4, []);
    HeldPart(c, img, at, off, s, 32, |s|);
    assert s[..|s|][32..] == y + [];
    IntsRoundTrip(i.words, 4, []);
  }

  lemma ReadSymlinkAt(c: Codec, img: seq<Byte>, at: nat, off: nat, i: Inode, head: seq<Byte>)
    requires i.SymlinkInode? && Fits(i, 1) && |head| == 16
    requires Holds(c, img, at, off, head + Body(i))
    ensures ReadSymlink(c, img, at, off, i.h) == Some(i)
  {
    hide Ints, UnInts, ReadMeta;
    Spans();
    var x := Ints([i.nlink, |i.target|], 4);
    var s := head + Body(i);
    HeldPart(c, img, at, off, s, 16, 24);
    assert s[..24][16..] == x + [];
    IntsRoundTrip([i.nlink, |i.target|], 4, []);
    HeldPart(c, img, at, off, s, 24, |s|);
    assert s[..|s|][24..] == i.target;
  }

  lemma ReadDeviceAt(c: Codec, img: seq<Byte>, at: nat, off: nat, i: Inode, head: seq<Byte>)
    requires i.DeviceInode? && Fits(i, 1) && |head| == 16
    requires Holds(c, img, at, off, head + Body(i))
    ensures ReadDevice(c, img, at, off, Head(TypeOf(i), i.h)) == Some(i)
  {
    hide Ints, UnInts, ReadMeta;
    Spans();
    var s := head + Body(i);
    HeldPart(c, img, at, off, s, 16, 24);
    assert s[..24][16..] == Body(i) + [];
    IntsRoundTrip([i.nlink, i.dev], 4, []);
  }

  lemma ReadIpcAt(c: Codec, img: seq<Byte>, at: nat, off: nat, i: Inode, head: seq<Byte>)
    requires i.IpcInode? && Fits(i, 1) && |head| == 16
    requires Holds(c, img, at, off, head + Body(i))
    ensures ReadIpc(c, img, at, off, Head(TypeOf(i), i.h)) == Some(i)
  {
    hide Ints, UnInts, ReadMeta;
    Spans();
    var s := head + Body(i);
    HeldPart(c, img, at, off, s, 16, 20);
    assert s[..20][16..] == Body(i) + [];
    IntsRoundTrip([i.nlink], 4, []);
  }

  /** An encoded inode held at some place of the inode table is read back from there, whole. */
  lemma ReadInodeAt(c: Codec, img: seq<Byte>, at: nat, off: nat, i: Inode, blockSize: nat)
    requires blockSize > 0 && Fits(i, blockSize)
    requires Holds(c, img, at, off, Encode(i))
    ensures ReadInode(c, img, at, off, blockSize) == Some(i)
  {
    hide DecodeHead, Header, Body, ReadMeta, ReadDir, ReadFile, ReadSymlink, ReadDevice, ReadIpc;
    var head := Header(TypeOf(i), i.h);
    HeldPart(c, img, at, off, Encode(i), 0, 16);
    assert Encode(i)[..16] == head + [];
    HeadRoundTrip(TypeOf(i), i.h, []);
    match i
    case DirInode(_, _, _, _, _, _) => ReadDirAt(c, img, at, off, i, head);
    case FileInode(_, _, _, _) => ReadFileAt(c, img, at, off, i, head, blockSize);
    case SymlinkInode(_, _, _) => ReadSymlinkAt(c, img, at, off, i, head);
    case DeviceInode(_, _, _, _) => ReadDeviceAt(c, img, at, off, i, head);
    case IpcInode(_, _, _) => ReadIpcAt(c, img, at, off, i, head);
  }

  /** Records are held where they were written: at the reference taken when the stream held `a`. */
  lemma HeldAt(c: Codec, pre: seq<Byte>, a: seq<Byte>, s: seq<Byte>, t: seq<Byte>, post: seq<Byte>)
    requires Lossless(c)
    ensures Holds(c, pre + Emit(c, a + s + t) + post, |pre| + BlockOf(c, a), OffsetOf(a), s)
  {
    hide ReadMeta, Emit, BlockOf, OffsetOf;
    Assoc(a, s, t);
    forall n | 0 <= n <= |s|
      ensures ReadMeta(c, pre + Emit(c, a + s + t) + post, |pre| + BlockOf(c, a), OffsetOf(a), n) == Some(s[..n])
    {
      ReadAt(c, pre, a, s + t, post, n);
      assert (s + t)[..n] == s[..n];
    }
  }
}

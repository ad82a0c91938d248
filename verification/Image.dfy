/** The whole image: superblock, data region, inode table, directory table, ID table, padding. */
module Image {
  import opened Bytes
  import opened MetaStream
  import opened IdTable
  import opened Entries
  import opened Paths
  import opened Layout

  const SUPER_SIZE: nat := 96
  const MAGIC: nat := 0x7371_7368
  const NO_TABLE: nat := 0xFFFF_FFFF_FFFF_FFFF
  /** No fragments, no extended attributes. */
  const FLAGS: nat := 0x210
  const PAD: nat := 4096
  const LIMIT48: nat := 0x1_0000_0000_0000

  datatype Super = Super(
    inodeCount: nat, modTime: nat, blockSize: nat, fragCount: nat,
    compressor: nat, blockLog: nat, flags: nat, idCount: nat,
    rootRef: nat, bytesUsed: nat, idStart: nat, xattrStart: nat,
    inodeStart: nat, dirStart: nat, fragStart: nat, exportStart: nat)

  predicate FitsSuper(s: Super) {
    && s.inodeCount <= MAX32 && s.modTime <= MAX32 && s.blockSize <= MAX32 && s.fragCount <= MAX32
    && s.compressor <= 0xFFFF && s.blockLog <= 0xFFFF && s.flags <= 0xFFFF && s.idCount <= 0xFFFF
    && s.rootRef <= NO_TABLE && s.bytesUsed <= NO_TABLE && s.idStart <= NO_TABLE && s.xattrStart <= NO_TABLE
    && s.inodeStart <= NO_TABLE && s.dirStart <= NO_TABLE && s.fragStart <= NO_TABLE && s.exportStart <= NO_TABLE
  }

  function EncodeSuper(s: Super): (b: seq<Byte>)
    ensures |b| == SUPER_SIZE
  {
    Ints([MAGIC, s.inodeCount, s.modTime, s.blockSize, s.fragCount], 4)
    + Ints([s.compressor, s.blockLog, s.flags, s.idCount, 4, 0], 2)
    + Ints([s.rootRef, s.bytesUsed, s.idStart, s.xattrStart, s.inodeStart, s.dirStart, s.fragStart, s.exportStart], 8)
  }

  /** log2 of the block size: the number of trailing zero bits. */
  function BlockLog(n: nat): nat {
    if n == 0 then 32 else if n % 2 == 1 then 0 else 1 + BlockLog(n / 2)
  }

  lemma {:induction false} BlockLogPow2(k: nat)
    ensures BlockLog(Pow2(k)) == k
  {
    if k > 0 { BlockLogPow2(k - 1); }
  }

  /** A reader's view of the superblock: magic, version 4.0, and a block size that agrees with its log. */
  function DecodeSuper(img: seq<Byte>): Option<Super> {
    if |img| < SUPER_SIZE then None else
    var a := UnInts(img, 4, 5);
    var b := UnInts(img[20..], 2, 6);
    var c := UnInts(img[32..], 8, 8);
    if a[0] != MAGIC || b[4] != 4 || b[5] != 0 || a[3] != Pow2(b[1]) then None else
    Some(Super(a[1], a[2], a[3], a[4], b[0], b[1], b[2], b[3], c[0], c[1], c[2], c[3], c[4], c[5], c[6], c[7]))
  }

  lemma SuperRoundTrip(s: Super, rest: seq<Byte>)
    requires FitsSuper(s) && s.blockSize == Pow2(s.blockLog)
    ensures DecodeSuper(EncodeSuper(s) + rest) == Some(s)
  {
    hide Ints, UnInts, Pow2;
    Spans();
    var v4 := [MAGIC, s.inodeCount, s.modTime, s.blockSize, s.fragCount];
    var v2 := [s.compressor, s.blockLog, s.flags, s.idCount, 4, 0];
    var v8 := [s.rootRef, s.bytesUsed, s.idStart, s.xattrStart, s.inodeStart, s.dirStart, s.fragStart, s.exportStart];
    var x, y, z := Ints(v4, 4), Ints(v2, 2), Ints(v8, 8);
    var img := EncodeSuper(s) + rest;
    assert img == x + (y + (z + rest)) by {
      Assoc(x, y, z);
      Assoc(x, y + z, rest);
      Assoc(y, z, rest);
    }
    assert img[20..] == y + (z + rest);
    assert img[32..] == z + rest;
    IntsRoundTrip(v4, 4, y + (z + rest));
    IntsRoundTrip(v2, 2, z + rest);
    IntsRoundTrip(v8, 8, rest);
  }

  // ---------------------------------------------------------------- assembling

  /** What Close puts together: the streamed data region, both tables, the interned ids, and two
      superblock fields. */
  datatype Parts = Parts(cfg: Config, data: seq<Byte>, t: Tables, ids: seq<nat>, inodeCount: nat, modTime: nat)

  function InodeBytes(m: Parts): seq<Byte> { Emit(m.cfg.codec, m.t.inodes) }
  function DirBytes(m: Parts): seq<Byte> { Emit(m.cfg.codec, m.t.dirs) }
  function IdBytes(m: Parts): seq<Byte> { Emit(m.cfg.codec, Ints(m.ids, 4)) }

  function InodeStart(m: Parts): nat { SUPER_SIZE + |m.data| }
  function DirStart(m: Parts): nat { InodeStart(m) + |InodeBytes(m)| }
  function IdDataStart(m: Parts): nat { DirStart(m) + |DirBytes(m)| }
  function IdStart(m: Parts): nat { IdDataStart(m) + |IdBytes(m)| }
  function LookupBytes(m: Parts): seq<Byte> { Ints(Offsets(m.cfg.codec, m.ids, IdDataStart(m)), 8) }
  function BytesUsed(m: Parts): nat { IdStart(m) + |LookupBytes(m)| }

  function RootRef(m: Parts): nat
    requires ROOT in m.t.pos && m.t.pos[ROOT] <= |m.t.inodes|
  {
    var a := m.t.inodes[..m.t.pos[ROOT]];
    BlockOf(m.cfg.codec, a) * 0x1_0000 + OffsetOf(a)
  }

  function SuperOf(m: Parts): Super
    requires ROOT in m.t.pos && m.t.pos[ROOT] <= |m.t.inodes|
  {
    Super(m.inodeCount, m.modTime, m.cfg.blockSize, 0, m.cfg.compressorId, BlockLog(m.cfg.blockSize), FLAGS, |m.ids|,
          RootRef(m), BytesUsed(m), IdStart(m), NO_TABLE, InodeStart(m), DirStart(m), NO_TABLE, NO_TABLE)
  }

  function Padding(n: nat): (z: seq<Byte>)
    ensures (n + |z|) % PAD == 0 && |z| < PAD
  {
    if n % PAD == 0 then [] else seq(PAD - n % PAD, i => 0)
  }

  /** Everything after the superblock. */
  function AfterSuper(m: Parts): seq<Byte> {
    m.data + InodeBytes(m) + DirBytes(m) + IdBytes(m) + LookupBytes(m) + Padding(BytesUsed(m))
  }

  function ImageOf(m: Parts): seq<Byte>
    requires ROOT in m.t.pos && m.t.pos[ROOT] <= |m.t.inodes|
  {
    EncodeSuper(SuperOf(m)) + AfterSuper(m)
  }
}

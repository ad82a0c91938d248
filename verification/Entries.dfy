/** Created entries: what the caller asked for, plus what streaming a file recorded. */
module Entries {
  import opened Bytes
  import opened Blocks
  import opened Paths
  import opened FileData

  const MAX32: nat := 0xFFFF_FFFF

  /** A point in time; seconds are relative to the Unix epoch. */
  datatype Time = Time(sec: int, nsec: nat) {
    /** Go's zero time, 1 January of year 1: read as "unset". */
    predicate IsZero() { sec == -62135596800 && nsec == 0 }
  }

  const UNSET: Time := Time(-62135596800, 0)

  datatype Attrs = Attrs(mode: nat, uid: nat, gid: nat, mtime: Time)

  datatype Kind =
    | File(start: nat, words: seq<nat>, size: nat)
    | Directory
    | Symlink(target: seq<Byte>)
    | Hardlink(link: Path)
    | CharDev(major: nat, minor: nat)
    | BlockDev(major: nat, minor: nat)
    | Fifo
    | Socket

  datatype Entry = Entry(attrs: Attrs, kind: Kind)

  /** Writer options; an unset mtime means "use each entry's own". */
  datatype Config = Config(codec: Codec, compressorId: nat, blockSize: nat, mtime: Time)

  /** A power of two between 4 KiB and 1 MiB. */
  predicate ValidConfig(cfg: Config) {
    cfg.compressorId < 0x1_0000 && exists k :: 12 <= k <= 20 && cfg.blockSize == Pow2(k)
  }

  lemma BlockSizeRange(cfg: Config)
    requires ValidConfig(cfg)
    ensures MIN_BLOCK <= cfg.blockSize <= MAX_BLOCK
  {
    Pow2Values();
  }

  lemma Pow2Values()
    ensures Pow2(12) == 0x1000 && Pow2(13) == 0x2000 && Pow2(14) == 0x4000 && Pow2(15) == 0x8000
    ensures Pow2(16) == 0x1_0000 && Pow2(17) == 0x2_0000 && Pow2(18) == 0x4_0000 && Pow2(19) == 0x8_0000
    ensures Pow2(20) == 0x10_0000
  {
    assert Pow2(4) == 16;
    assert Pow2(8) == 256;
    assert Pow2(12) == 0x1000;
    assert Pow2(16) == 0x1_0000;
    assert Pow2(20) == 0x10_0000;
  }

  /** The option check: in range, and a single bit set. */
  predicate BlockSizeOk(n: bv32) { 0x1000 <= n <= 0x10_0000 && n & (n - 1) == 0 }

  /** It accepts exactly the powers of two from 4 KiB to 1 MiB. */
  lemma BlockSizeExact(n: bv32)
    ensures BlockSizeOk(n) <==> exists k :: 12 <= k <= 20 && n as int == Pow2(k)
  {
    hide Pow2;
    Pow2Values();
    SingleBit(n);
    if BlockSizeOk(n) {
      var k := if n == 0x1000 then 12 else if n == 0x2000 then 13 else if n == 0x4000 then 14
          else if n == 0x8000 then 15
               else if n == 0x1_0000 then 16 else if n == 0x2_0000 then 17 else if n == 0x4_0000 then 18
                   else if n == 0x8_0000 then 19 else 20;
      assert n as int == Pow2(k);
    }
  }

  lemma SingleBit(n: bv32)
    ensures BlockSizeOk(n) <==> n in {0x1000, 0x2000, 0x4000, 0x8000, 0x1_0000, 0x2_0000, 0x4_0000, 0x8_0000, 0x10_0000}
  {
  }

  /** The widths Go's types give the fields of an entry. */
  predicate ValidAttrs(a: Attrs) {
    a.uid <= MAX32 && a.gid <= MAX32
  }

  ghost predicate ValidKind(k: Kind) {
    match k
    case File(_, ws, _) => forall i :: 0 <= i < |ws| ==> ws[i] <= MAX32
    case CharDev(a, b) => a <= MAX32 && b <= MAX32
    case BlockDev(a, b) => a <= MAX32 && b <= MAX32
    case _ => true
  }

  /** The low twelve mode bits: rwx for user, group, others, plus setuid, setgid and sticky. */
  function Perm(a: Attrs): (p: nat)
    ensures p < 0x1000 && p <= a.mode && (a.mode - p) % 0x1000 == 0
    ensures a.mode < 0x1000 ==> p == a.mode
  {
    a.mode % 0x1000
  }

  /** Bit `k` counts `n` = 2^k. */
  predicate Bit(m: nat, n: nat)
    requires n > 0
  {
    m / n % 2 == 1
  }

  lemma SameBit(m: nat, p: nat, q: nat, n: nat, k: nat)
    requires n > 0 && m == q * 0x1000 + p && 2 * k * n == 0x1000
    ensures Bit(m, n) <==> Bit(p, n)
  {
    var x, y := p / n, q * k;
    assert q * 0x1000 == (2 * y) * n by {
      assert q * (2 * k * n) == (2 * (q * k)) * n;
    }
    assert m == (2 * y + x) * n + p % n;
    DivUnique(m, n, 2 * y + x, p % n);
  }

  /** Bit by bit: read, write and execute for three classes, then sticky, setgid and setuid, survive. */
  lemma PermBits(a: Attrs, n: nat)
    requires n in {1, 2, 4, 8, 16, 32, 64, 128, 256, 512, 1024, 2048}
    ensures Bit(Perm(a), n) <==> Bit(a.mode, n)
  {
    hide Perm, Bit;
    var q := (a.mode - Perm(a)) / 0x1000;
    SameBit(a.mode, Perm(a), q, n, 0x800 / n);
  }

  /** Seconds since the epoch that an entry's inode records, or nothing if they do not fit 32 bits. */
  function EntryMtime(cfg: Config, a: Attrs): (r: Option<nat>)
    ensures !cfg.mtime.IsZero() ==>
              (r.Some? <==> 0 <= cfg.mtime.sec <= MAX32) && (r.Some? ==> r.value == cfg.mtime.sec)
    ensures cfg.mtime.IsZero() && a.mtime.IsZero() ==> r == Some(0)
    ensures cfg.mtime.IsZero() && !a.mtime.IsZero() ==>
              (r.Some? <==> 0 <= a.mtime.sec <= MAX32) && (r.Some? ==> r.value == a.mtime.sec)
    ensures r.Some? ==> r.value <= MAX32
  {
    var t := if cfg.mtime.IsZero() then a.mtime else cfg.mtime;
    if t.IsZero() then Some(0)
    else if t.sec < 0 || t.sec > MAX32 then None
    else Some(t.sec)
  }

  /** The device number: 12 bits of major above 8 bits of minor. */
  function DeviceNumber(major: nat, minor: nat): (r: Option<nat>)
    ensures r.Some? <==> major <= 0xFFF && minor <= 0xFF
    ensures r.Some? ==> r.value < 0x10_0000 && DeviceMajor(r.value) == major && DeviceMinor(r.value) == minor
  {
    if major > 0xFFF || minor > 0xFF then None else Some(major * 256 + minor)
  }

  /** How a reader splits a device number: low byte and bits 20..31 are the minor. */
  function DeviceMajor(dev: nat): nat { dev / 256 % 0x1000 }
  function DeviceMinor(dev: nat): nat { dev % 256 + dev / 0x10_0000 * 256 }
}

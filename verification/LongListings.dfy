/** A listing whose length does not fit its 32-bit field: when a directory reads back, exactly. */
module LongListings {
  import opened Bytes
  import opened Paths
  import opened Inodes
  import opened Blocks
  import opened Entries
  import opened Listing
  import opened Layout
  import opened Image
  import opened MetaStream
  import opened TableWriter
  import opened RoundTrip
  import Reader

  // ---------------------------------------------------------------- exactly when a directory reads back

  lemma {:induction false} ParsedRunSize(b: seq<Byte>, n: nat, blockByte: nat, base: nat)
    requires ParseRun(b, n, blockByte, base).Some?
    ensures var p := ParseRun(b, n, blockByte, base).value; 9 * |p.es| + |p.rest| <= |b|
  {
    hide UnInts;
    if n > 0 {
      var len := UnInts(b, 2, 4)[3] + 1;
      ParsedRunSize(b[8 + len..], n - 1, blockByte, base);
    }
  }

  /** Every entry takes at least nine bytes. */
  lemma {:induction false} ParsedSize(b: seq<Byte>)
    requires ParseListing(b).Some?
    ensures 9 * |ParseListing(b).value| <= |b|
    decreases |b|
  {
    hide UnInts, ParseRun;
    if b != [] {
      var h := UnInts(b, 4, 3);
      ParsedRunSize(b[12..], h[0] + 1, h[1], h[2]);
      ParsedSize(ParseRun(b[12..], h[0] + 1, h[1], h[2]).value.rest);
    }
  }

  /** The directory inode of a wrapped listing points a reader at too few bytes. */
  lemma WrappedUnread(x: Ctx, m: Parts, d: Path)
    requires Packed(x, m) && Layout.IsDir(x, d) && ListingLen(x, m.t, d) + 3 >= WRAP32
    ensures HasRoot(m) && InodeFor(x, m.t, d).Some? && InodeFor(x, m.t, d).value.DirInode?
    ensures Reader.ReadListing(x.cfg.codec, ImageOf(m), SuperOf(m), InodeFor(x, m.t, d).value) != ListingOf(x, m.t, d)
  {
    hide Packed, EncodeListing, Encode, BlockOf, OffsetOf, ImageOf, BytesUsed, Lossless, ReadMeta, ParseListing,
      EntryMtime, EntriesOf, RootRef, BlockLog, ValidEntries, Assigned, DirStart, InodeStart, IdStart, Placed, UnInts;
    PackedBasics(x, m);
    PackedOwner(x, m, d);
    var es, i := ListingOf(x, m.t, d).value, InodeFor(x, m.t, d).value;
    ListingSize(es);
    if i.listSize >= 3 {
      var b := ReadMeta(x.cfg.codec, ImageOf(m), SuperOf(m).dirStart + i.blockStart, i.blockOffset, i.listSize - 3);
      if b.Some? && ParseListing(b.value).Some? { ParsedSize(b.value); }
    }
  }

  /** A directory of an image reads back as its children if and only if its listing is shorter than 2^32 - 3
      bytes. */
  lemma ReadsIffShort(x: Ctx, m: Parts, d: Path)
    requires Packed(x, m) && Layout.IsDir(x, d)
    ensures HasRoot(m) && InodeFor(x, m.t, d).Some? && InodeFor(x, m.t, d).value.DirInode?
    ensures Reader.ReadListing(x.cfg.codec, ImageOf(m), SuperOf(m), InodeFor(x, m.t, d).value) == ListingOf(x, m.t, d)
            <==> ListingLen(x, m.t, d) + 3 < WRAP32
  {
    hide Packed, ListingLen, ListingOf, InodeFor, ImageOf, SuperOf, Reader.ReadListing;
    if ListingLen(x, m.t, d) + 3 < WRAP32 {
      PackedListing(x, m, d);
    } else {
      WrappedUnread(x, m, d);
    }
  }
}

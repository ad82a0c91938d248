/** Reading undoes writing: every path of the finished image resolves to exactly what was created. */
module RoundTrip {
  import opened Bytes
  import opened Blocks
  import opened MetaStream
  import opened Inodes
  import opened Listing
  import opened Paths
  import opened Tree
  import opened IdTable
  import opened FileData
  import opened Entries
  import opened Layout
  import opened Image
  import opened Reader

  /** The file written at `p` lies in the data region as the blocks of `s`. */
  ghost predicate Extent(cfg: Config, data: seq<Byte>, k: Kind, s: seq<Byte>)
    requires cfg.blockSize > 0
  {
    && k.File? && SUPER_SIZE <= k.start
    && Placed(data, k.start - SUPER_SIZE, Disk(Sealed(cfg.codec, cfg.blockSize, s)))
    && k.words == Words(Sealed(cfg.codec, cfg.blockSize, s)) && k.size == |s|
  }

  /** The tables were built from a prepared context, for an image that 48-bit offsets can address. */
  ghost predicate Packed(x: Ctx, m: Parts) {
    && Ready(x) && m.cfg == x.cfg && ValidConfig(x.cfg) && Lossless(x.cfg.codec)
    && BuildTables(x) == Some(m.t)
    && |m.ids| <= MAX_IDS && m.inodeCount <= MAX32 && m.modTime <= MAX32
    && BytesUsed(m) < LIMIT48
  }

  /** And every listing is shorter than its size field can say. */
  ghost predicate Assembled(x: Ctx, m: Parts) { Packed(x, m) && Unwrapped(x, m.t) }

  /** ID indices point at the owner's and group's numeric ids. */
  ghost predicate IdsOk(x: Ctx, ids: seq<nat>) {
    && (forall i :: 0 <= i < |ids| ==> ids[i] <= MAX32)
    && (forall p :: Owner(x, p) ==>
          && p in x.uid && x.uid[p] < |ids| && ids[x.uid[p]] == x.entries[p].attrs.uid
          && p in x.gid && x.gid[p] < |ids| && ids[x.gid[p]] == x.entries[p].attrs.gid)
  }

  /** Every file's bytes are in the data region. */
  ghost predicate DataOk(x: Ctx, data: seq<Byte>, contents: map<Path, seq<Byte>>)
    requires x.cfg.blockSize > 0
  {
    forall p :: p in x.entries && x.entries[p].kind.File? ==>
      p in contents && Extent(x.cfg, data, x.entries[p].kind, contents[p])
  }

  /** The inode in the table for an entry that owns one. */
  ghost function InodeFor(x: Ctx, t: Tables, p: Path): Option<Inode>
    requires x.cfg.blockSize > 0
  {
    if Layout.IsDir(x, p) then DirInodeIn(x, t, p)
    else if p in x.entries && Assigned(x, p) then LeafInode(x, p)
    else None
  }

  // ---------------------------------------------------------------- places in the image

  /** The image as something before and something after each of its tables. */
  lemma Cuts(m: Parts)
    requires ROOT in m.t.pos && m.t.pos[ROOT] <= |m.t.inodes|
    ensures var img, head := ImageOf(m), EncodeSuper(SuperOf(m));
            var i, d, u, l, z := InodeBytes(m), DirBytes(m), IdBytes(m), LookupBytes(m), Padding(BytesUsed(m));
            && img == head + m.data + (i + (d + (u + (l + z))))
            && img == (head + m.data) + i + (d + (u + (l + z)))
            && img == (head + m.data + i) + d + (u + (l + z))
            && img == (head + m.data + i + d) + u + (l + z)
  {
    hide EncodeSuper, SuperOf, InodeBytes, DirBytes, IdBytes, LookupBytes, Padding;
    var head := EncodeSuper(SuperOf(m));
    var i, d, u, l, z := InodeBytes(m), DirBytes(m), IdBytes(m), LookupBytes(m), Padding(BytesUsed(m));
    SixParts(head, m.data, i, d, u, l, z);
  }

  lemma SixParts(h: seq<Byte>, a: seq<Byte>, i: seq<Byte>, d: seq<Byte>, u: seq<Byte>, l: seq<Byte>, z: seq<Byte>)
    ensures var img := h + (a + i + d + u + l + z);
            && img == h + a + (i + (d + (u + (l + z))))
            && img == (h + a) + i + (d + (u + (l + z)))
            && img == (h + a + i) + d + (u + (l + z))
            && img == (h + a + i + d) + u + (l + z)
  {
    Assoc(a + i + d + u, l, z);
    Assoc(a + i + d, u, l + z);
    Assoc(a + i, d, u + (l + z));
    Assoc(a, i, d + (u + (l + z)));
    Assoc(h, a, i + (d + (u + (l + z))));
    Assoc(h + a, i, d + (u + (l + z)));
    Assoc(h + a + i, d, u + (l + z));
    Assoc(h + a + i + d, u, l + z);
  }

  /** Something placed in a table's content reads back at its reference, in the image. */
  lemma PlacedHolds(c: Codec, pre: seq<Byte>, s: seq<Byte>, post: seq<Byte>, at: nat, b: seq<Byte>)
    requires Lossless(c) && Placed(s, at, b)
    ensures Holds(c, pre + Emit(c, s) + post, |pre| + BlockOf(c, s[..at]), OffsetOf(s[..at]), b)
  {
    hide Holds, Emit, BlockOf, OffsetOf;
    var a, t := s[..at], s[at + |b|..];
    assert s == a + b + t;
    HeldAt(c, pre, a, b, t, post);
  }

  ghost predicate HasRoot(m: Parts) {
    ROOT in m.t.pos && m.t.pos[ROOT] <= |m.t.inodes|
  }

  lemma InodeReadAt(m: Parts, at: nat, i: Inode)
    requires HasRoot(m) && Lossless(m.cfg.codec) && m.cfg.blockSize > 0
    requires Fits(i, m.cfg.blockSize) && Placed(m.t.inodes, at, Encode(i))
    ensures var a := m.t.inodes[..at];
            ReadInode(m.cfg.codec, ImageOf(m), InodeStart(m) + BlockOf(m.cfg.codec, a), OffsetOf(a), m.cfg.blockSize)
                == Some(i)
  {
    hide Fits, Encode, ReadInode, BlockOf, OffsetOf, Emit, ImageOf, EncodeSuper, SuperOf, Lossless, Holds, LookupBytes,
      Padding;
    Cuts(m);
    var c, pre := m.cfg.codec, EncodeSuper(SuperOf(m)) + m.data;
    var post := DirBytes(m) + (IdBytes(m) + (LookupBytes(m) + Padding(BytesUsed(m))));
    PlacedHolds(c, pre, m.t.inodes, post, at, Encode(i));
    var a := m.t.inodes[..at];
    ReadInodeAt(c, ImageOf(m), InodeStart(m) + BlockOf(c, a), OffsetOf(a), i, m.cfg.blockSize);
  }

  lemma ListingReadAt(m: Parts, at: nat, es: seq<DirEntry>)
    requires HasRoot(m) && Lossless(m.cfg.codec) && ValidEntries(es) && Placed(m.t.dirs, at, EncodeListing(es))
    ensures var a, n := m.t.dirs[..at], |EncodeListing(es)|;
            ListingIn(m.cfg.codec, ImageOf(m), DirStart(m) + BlockOf(m.cfg.codec, a), OffsetOf(a), n) == Some(es)
  {
    hide EncodeListing, ReadMeta, BlockOf, OffsetOf, Emit, ImageOf, EncodeSuper, SuperOf, Lossless, LookupBytes,
      Padding, ParseListing, ValidEntries;
    Cuts(m);
    var c, pre := m.cfg.codec, EncodeSuper(SuperOf(m)) + m.data + InodeBytes(m);
    var post := IdBytes(m) + (LookupBytes(m) + Padding(BytesUsed(m)));
    var b, a := EncodeListing(es), m.t.dirs[..at];
    PlacedHolds(c, pre, m.t.dirs, post, at, b);
    HeldPart(c, ImageOf(m), DirStart(m) + BlockOf(c, a), OffsetOf(a), b, 0, |b|);
    assert b[..|b|] == b;
    ListingRoundTrip(es);
  }

  lemma PackedBasics(x: Ctx, m: Parts)
    requires Packed(x, m)
    ensures m.cfg == x.cfg && Lossless(m.cfg.codec) && MIN_BLOCK <= m.cfg.blockSize <= MAX_BLOCK
  {
    hide Ready, BuildTables, BytesUsed, Lossless;
    BlockSizeRange(x.cfg);
  }

  lemma Basics(x: Ctx, m: Parts)
    requires Assembled(x, m)
    ensures m.cfg == x.cfg && Lossless(m.cfg.codec) && MIN_BLOCK <= m.cfg.blockSize <= MAX_BLOCK
  {
    hide Packed, Unwrapped, Lossless;
    PackedBasics(x, m);
  }

  /** What the table passes guarantee for one owner. */
  lemma PackedOwner(x: Ctx, m: Parts, p: Path)
    requires Packed(x, m) && Owner(x, p)
    ensures HasRoot(m) && p in m.t.pos && InodeFor(x, m.t, p).Some?
    ensures Fits(InodeFor(x, m.t, p).value, x.cfg.blockSize)
    ensures Placed(m.t.inodes, m.t.pos[p], Encode(InodeFor(x, m.t, p).value))
    ensures Layout.IsDir(x, p) ==> GoodDir(x, m.t, p)
    ensures !Layout.IsDir(x, p) ==> !InodeFor(x, m.t, p).value.DirInode?
  {
    hide Unwrapped, BuildTables, Fits, DirInodeIn, LeafInode, EncodeListing, Encode, Assigned, BytesUsed, Lossless,
      ValidConfig, ValidKind;
    BuildTablesGood(x);
    assert Owner(x, ROOT);
    assert GoodDir(x, m.t, ROOT);
    if !Layout.IsDir(x, p) { LeafFits(x, p); }
  }

  lemma OwnerPlaced(x: Ctx, m: Parts, p: Path)
    requires Assembled(x, m) && Owner(x, p)
    ensures HasRoot(m) && p in m.t.pos && InodeFor(x, m.t, p).Some?
    ensures Fits(InodeFor(x, m.t, p).value, x.cfg.blockSize)
    ensures Placed(m.t.inodes, m.t.pos[p], Encode(InodeFor(x, m.t, p).value))
    ensures Layout.IsDir(x, p) ==> GoodDir(x, m.t, p)
    ensures !Layout.IsDir(x, p) ==> !InodeFor(x, m.t, p).value.DirInode?
  {
    hide Packed, Unwrapped, Fits, InodeFor, Encode, GoodDir;
    PackedOwner(x, m, p);
  }

  /** Every inode is found at the reference its directory entries (or the superblock) give. */
  lemma InodeRead(x: Ctx, m: Parts, p: Path)
    requires Assembled(x, m) && Owner(x, p)
    ensures HasRoot(m) && p in m.t.pos && m.t.pos[p] <= |m.t.inodes| && InodeFor(x, m.t, p).Some?
    ensures var a := m.t.inodes[..m.t.pos[p]];
            ReadInode(x.cfg.codec, ImageOf(m), InodeStart(m) + BlockOf(x.cfg.codec, a), OffsetOf(a), x.cfg.blockSize)
            == InodeFor(x, m.t, p)
  {
    hide Assembled, Fits, InodeFor, Encode, ReadInode, BlockOf, OffsetOf, ImageOf, Lossless, GoodDir, InodeStart;
    Basics(x, m);
    OwnerPlaced(x, m, p);
    InodeReadAt(m, m.t.pos[p], InodeFor(x, m.t, p).value);
  }

  /** A directory's listing, if it is not too long for its size field, reads back as its children, in name order. */
  lemma PackedListing(x: Ctx, m: Parts, d: Path)
    requires Packed(x, m) && Layout.IsDir(x, d) && ListingLen(x, m.t, d) + 3 < WRAP32
    ensures HasRoot(m) && InodeFor(x, m.t, d).Some? && InodeFor(x, m.t, d).value.DirInode?
    ensures ListingOf(x, m.t, d).Some?
    ensures ReadListing(x.cfg.codec, ImageOf(m), SuperOf(m), InodeFor(x, m.t, d).value) == ListingOf(x, m.t, d)
  {
    hide Packed, Fits, EncodeListing, Encode, BlockOf, OffsetOf, ImageOf, BytesUsed, Lossless, ListingIn, ListingOf,
      RootRef, BlockLog, ValidEntries, EntryMtime, Assigned, DirStart, Placed;
    PackedBasics(x, m);
    PackedOwner(x, m, d);
    ListingReadAt(m, m.t.dpos[d], ListingOf(x, m.t, d).value);
  }

  lemma ListingRead(x: Ctx, m: Parts, d: Path)
    requires Assembled(x, m) && Layout.IsDir(x, d)
    ensures HasRoot(m) && InodeFor(x, m.t, d).Some? && InodeFor(x, m.t, d).value.DirInode?
    ensures ListingOf(x, m.t, d).Some?
    ensures ReadListing(x.cfg.codec, ImageOf(m), SuperOf(m), InodeFor(x, m.t, d).value) == ListingOf(x, m.t, d)
  {
    hide Packed, ListingLen, ListingOf, InodeFor, ImageOf, SuperOf, ReadListing;
    PackedListing(x, m, d);
  }

  // ---------------------------------------------------------------- path lookup

  /** What lookup of `p` should find. */
  ghost function FoundAt(x: Ctx, t: Tables, p: Path): Option<Inode>
    requires x.cfg.blockSize > 0
  {
    if p in x.entries then InodeFor(x, t, Target(x, p)) else None
  }

  lemma RootLookup(x: Ctx, m: Parts)
    requires Assembled(x, m)
    ensures HasRoot(m) && ROOT in x.entries && Target(x, ROOT) == ROOT
    ensures m.cfg == x.cfg && x.cfg.blockSize > 0
    ensures Lookup(x.cfg.codec, ImageOf(m), SuperOf(m), ROOT) == FoundAt(x, m.t, ROOT)
  {
    hide Unwrapped, BuildTables, InodeFor, ReadInode, BlockOf, OffsetOf, ImageOf, Lossless, BytesUsed, BlockLog,
      InodeStart, DirStart, IdStart, Ready, ValidConfig;
    Basics(x, m);
    PathFacts(x, ROOT);
    ReadyOrder(x, ROOT);
    InodeRead(x, m, ROOT);
    var a := m.t.inodes[..m.t.pos[ROOT]];
    SplitRef(BlockOf(m.cfg.codec, a), OffsetOf(a));
  }

  lemma SplitRef(block: nat, off: nat)
    requires off < 0x1_0000
    ensures (block * 0x1_0000 + off) / 0x1_0000 == block && (block * 0x1_0000 + off) % 0x1_0000 == off
  {
  }

  lemma PathFacts(x: Ctx, p: Path)
    requires Ready(x)
    ensures p in x.entries ==> p == ROOT || (ValidPath(p) && p in x.order && Layout.IsDir(x, Dir(p)))
    ensures p in x.entries ==> Owner(x, Target(x, p)) && (!Layout.IsDir(x, p) ==> !Layout.IsDir(x, Target(x, p)))
    ensures Layout.IsDir(x, p) ==> Target(x, p) == p
    ensures Layout.IsDir(x, ROOT)
  {
    hide GoodParts, Dir, Assigned, ValidKind;
    if p in x.entries && p != ROOT {
      assert p in x.entries.Keys;
      assert p in x.order;
    }
  }

  /** Looking a name up in the listing of the directory where it was created. */
  lemma FindChild(x: Ctx, t: Tables, p: Path)
    requires Listed(x.order) && p in x.order && ListingOf(x, t, Dir(p)).Some?
    ensures EntryOf(x, t, p).Some? && Find(ListingOf(x, t, Dir(p)).value, Base(p)) == EntryOf(x, t, p)
  {
    hide EntryOf, Kids, GoodParts, Base, Dir;
    var d := Dir(p);
    var es := ListingOf(x, t, d).value;
    IsKid(x.order, p);
    EntriesNamed(x, t, Kids(x.order, d));
    EntriesAscend(x, t, d);
    var i :| 0 <= i < |Kids(x.order, d)| && Kids(x.order, d)[i] == p;
    FindUnique(es, i);
  }

  /** A name that was not created there is not found. */
  lemma FindNoChild(x: Ctx, t: Tables, p: Path)
    requires Listed(x.order) && ValidPath(p) && p !in x.order && ListingOf(x, t, Dir(p)).Some?
    ensures Find(ListingOf(x, t, Dir(p)).value, Base(p)) == None
  {
    hide EntryOf, Kids, GoodParts, Base, Dir, IsChild, Find;
    var d := Dir(p);
    var es, ks := ListingOf(x, t, d).value, Kids(x.order, d);
    EntriesNamed(x, t, ks);
    KidsSpec(x.order, d);
    forall k | 0 <= k < |es| ensures es[k].name != Base(p) {
      assert ks[k] in ks;
      OtherName(ks[k], p, d);
    }
    FindNone(es, Base(p));
  }

  lemma OtherName(q: Path, p: Path, d: Path)
    requires ValidPath(q) && ValidPath(p) && IsChild(q, d) && Dir(p) == d && p != q
    ensures Base(q) != Base(p)
  {
    if Base(q) == Base(p) { SamePath(p, q); }
  }

  /** The inode a directory entry refers to: it agrees with the entry about type and number. */
  lemma EntryRead(x: Ctx, m: Parts, p: Path)
    requires Assembled(x, m) && p in x.entries && EntryOf(x, m.t, p).Some?
    ensures HasRoot(m) && m.cfg == x.cfg && x.cfg.blockSize > 0
    ensures var e, i := EntryOf(x, m.t, p).value, FoundAt(x, m.t, p);
            && ReadInode(x.cfg.codec, ImageOf(m), InodeStart(m) + e.blockByte, e.off, x.cfg.blockSize) == i
            && i.Some? && e.typ == TypeOf(i.value) && e.ino == i.value.h.ino
  {
    hide Unwrapped, BuildTables, InodeFor, ReadInode, BlockOf, OffsetOf, ImageOf, Lossless, BytesUsed, InodeStart,
      Ready, ValidConfig, BasicType, TypeOf;
    Basics(x, m);
    PathFacts(x, p);
    InodeRead(x, m, Target(x, p));
    EntryAgrees(x, m.t, Target(x, p));
  }

  /** The type and number in a directory entry are those of the inode. */
  lemma EntryAgrees(x: Ctx, t: Tables, o: Path)
    requires x.cfg.blockSize > 0 && Owner(x, o) && InodeFor(x, t, o).Some? && o in x.ino
    ensures InodeFor(x, t, o).value.h.ino == x.ino[o] && TypeOf(InodeFor(x, t, o).value) == BasicType(x.entries[o].kind)
  {
    hide ListingOf, EncodeListing, ValidEntries, BlockOf, OffsetOf, EntryMtime, Assigned, DeviceNumber;
  }

  /** Lookup finds at every path what was created there, and nothing anywhere else. */
  lemma {:induction false} LookupIs(x: Ctx, m: Parts, p: Path)
    requires Assembled(x, m)
    ensures HasRoot(m) && m.cfg == x.cfg && x.cfg.blockSize > 0
    ensures Lookup(x.cfg.codec, ImageOf(m), SuperOf(m), p) == FoundAt(x, m.t, p)
    decreases |p|
  {
    hide Unwrapped, BuildTables, InodeFor, ReadInode, BlockOf, OffsetOf, ImageOf, Lossless, BytesUsed, BlockLog,
      InodeStart, DirStart, IdStart, RootRef, ReadListing, Find, ListingOf, EntryOf, ValidConfig, Ready, GoodParts, Dir,
      Base, TypeOf;
    RootLookup(x, m);
    PathFacts(x, p);
    if p != ROOT && ValidPath(p) {
      Parent(p);
      var d := Dir(p);
      LookupIs(x, m, d);
      PathFacts(x, d);
      if d in x.entries {
        OwnerPlaced(x, m, Target(x, d));
        if Layout.IsDir(x, d) {
          ListingRead(x, m, d);
          ReadyOrder(x, p);
          if p in x.order {
            FindChild(x, m.t, p);
            EntryRead(x, m, p);
          } else {
            FindNoChild(x, m.t, p);
          }
        }
      }
    }
  }

  lemma ReadyOrder(x: Ctx, p: Path)
    requires Ready(x)
    ensures Listed(x.order) && (p in x.entries <==> p in x.order || p == ROOT)
  {
    assert p in x.entries <==> p in x.entries.Keys;
  }
}

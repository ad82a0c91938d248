/** The whole-image theorem: what a reader finds at any path of the finished image. */
module ImageTheorem {
  import opened Bytes
  import opened Blocks
  import opened Names
  import opened MetaStream
  import opened Inodes
  import opened Listing
  import opened Paths
  import opened Tree
  import opened IdTable
  import opened FileData
  import opened Entries
  import opened Layout
  import opened Image
  import opened Reader
  import opened RoundTrip

  /** Last components of a list of paths. */
  function BaseNames(ps: seq<Path>): (ns: seq<Name>)
    ensures |ns| == |ps| && forall i :: 0 <= i < |ps| ==> ns[i] == Base(ps[i])
  {
    if ps == [] then [] else [Base(ps[0])] + BaseNames(ps[1..])
  }

  /** What the caller created, as a reader should see it. */
  ghost function NodeFor(x: Ctx, contents: map<Path, seq<Byte>>, p: Path): Node
    requires p in x.entries && Assigned(x, p)
  {
    match x.entries[p].kind
    case File(_, _, _) => IsFile(if p in contents then contents[p] else [])
    case Directory => Node.IsDir(x.nlink[p], x.parent[p], BaseNames(Kids(x.order, p)))
    case Symlink(target) => IsSymlink(x.nlink[p], target)
    case CharDev(major, minor) => IsDevice(false, x.nlink[p], major, minor)
    case BlockDev(major, minor) => IsDevice(true, x.nlink[p], major, minor)
    case Fifo => IsIpc(false, x.nlink[p])
    case Socket => IsIpc(true, x.nlink[p])
    case Hardlink(_) => IsFile([])
  }

  /** A hardlink is its target: same inode number, same everything. */
  ghost function StatFor(x: Ctx, contents: map<Path, seq<Byte>>, p: Path): Option<Stat> {
    if p !in x.entries then None else
    var o := Target(x, p);
    if o !in x.entries || !Assigned(x, o) then None else
    var a := x.entries[o].attrs;
    var mtime :- EntryMtime(x.cfg, a);
    Some(Stat(x.ino[o], Perm(a), a.uid, a.gid, mtime, NodeFor(x, contents, o)))
  }

  lemma RootRefFits(m: Parts)
    requires HasRoot(m) && BytesUsed(m) < LIMIT48
    ensures RootRef(m) <= NO_TABLE
  {
    hide BlockOf, OffsetOf, Emit, Ints;
    var at := m.t.pos[ROOT];
    var a, b := m.t.inodes[..at], m.t.inodes[at..];
    assert m.t.inodes == a + b;
    BlockInside(m.cfg.codec, a, b);
  }

  /** The superblock's fields fit their widths, and the block size agrees with its log. */
  lemma SuperFields(x: Ctx, m: Parts)
    requires Assembled(x, m)
    ensures HasRoot(m) && m.cfg == x.cfg && m.cfg.blockSize > 0
    ensures FitsSuper(SuperOf(m)) && SuperOf(m).blockSize == Pow2(SuperOf(m).blockLog)
  {
    hide Unwrapped, BuildTables, Ready, Lossless, BytesUsed, RootRef, InodeStart, DirStart, IdStart, EncodeSuper,
      AfterSuper, DecodeSuper, BlockLog, Pow2;
    RootLookup(x, m);
    RootRefFits(m);
    StartsFit(m);
    Basics(x, m);
    var k :| 12 <= k <= 20 && x.cfg.blockSize == Pow2(k);
    BlockLogPow2(k);
  }

  lemma SuperRead(x: Ctx, m: Parts)
    requires Assembled(x, m)
    ensures HasRoot(m) && DecodeSuper(ImageOf(m)) == Some(SuperOf(m)) && m.cfg == x.cfg && m.cfg.blockSize > 0
  {
    hide Assembled, EncodeSuper, AfterSuper, DecodeSuper, SuperOf, Pow2, FitsSuper;
    SuperFields(x, m);
    SuperRoundTrip(SuperOf(m), AfterSuper(m));
  }

  lemma StartsFit(m: Parts)
    requires BytesUsed(m) < LIMIT48
    ensures InodeStart(m) < LIMIT48 && DirStart(m) < LIMIT48 && IdStart(m) < LIMIT48
  {
  }

  /** Interned indices read back the numeric ids. */
  lemma IdRead(x: Ctx, m: Parts, idx: nat)
    requires Assembled(x, m) && idx < |m.ids| && m.ids[idx] <= MAX32
    ensures HasRoot(m) && ReadId(x.cfg.codec, ImageOf(m), IdStart(m), idx) == Some(m.ids[idx])
  {
    hide BuildTables, Ready, Lossless, RootRef, EncodeSuper, ImageOf, Emit, Ints, ReadId, SuperOf, Padding, Offsets,
      Unwrapped, Lookup, FoundAt, ValidConfig;
    RootLookup(x, m);
    Basics(x, m);
    Cuts(m);
    Spans();
    var pre := EncodeSuper(SuperOf(m)) + m.data + InodeBytes(m) + DirBytes(m);
    ReadIdAt(x.cfg.codec, pre, m.ids, Padding(BytesUsed(m)), idx);
  }

  /** A file's blocks read back its content. */
  lemma FileRead(x: Ctx, m: Parts, k: Kind, s: seq<Byte>)
    requires Assembled(x, m) && x.cfg.blockSize > 0 && Extent(x.cfg, m.data, k, s)
    ensures HasRoot(m) && ReadData(x.cfg.codec, ImageOf(m), k.start, k.words, x.cfg.blockSize, k.size) == Some(s)
  {
    hide Unwrapped, BuildTables, Ready, Lossless, BytesUsed, EncodeSuper, ImageOf, ReadData, SuperOf, Disk, Words,
      Sealed, Padding, Assembled;
    RootLookup(x, m);
    Basics(x, m);
    Cuts(m);
    var head, b := EncodeSuper(SuperOf(m)), Disk(Sealed(x.cfg.codec, x.cfg.blockSize, s));
    var at := k.start - SUPER_SIZE;
    var rest := InodeBytes(m) + (DirBytes(m) + (IdBytes(m) + (LookupBytes(m) + Padding(BytesUsed(m)))));
    Surround(head, m.data, at, b, rest);
    ReadDataAt(x.cfg.codec, x.cfg.blockSize, head + m.data[..at], s, m.data[at + |b|..] + rest);
  }

  lemma Surround(head: seq<Byte>, data: seq<Byte>, at: nat, b: seq<Byte>, rest: seq<Byte>)
    requires Placed(data, at, b)
    ensures head + data + rest == (head + data[..at]) + b + (data[at + |b|..] + rest)
  {
    var p, q := data[..at], data[at + |b|..];
    assert data == p + b + q;
    Assoc(head, p + b, q);
    Assoc(head, p, b);
    Assoc(head + p + b, q, rest);
  }

  lemma NamesRead(x: Ctx, t: Tables, d: Path)
    requires ListingOf(x, t, d).Some?
    ensures NamesOf(ListingOf(x, t, d).value) == BaseNames(Kids(x.order, d))
  {
    hide EntryOf, Kids, Base;
    EntriesNamed(x, t, Kids(x.order, d));
  }

  lemma NodeRead(x: Ctx, m: Parts, contents: map<Path, seq<Byte>>, p: Path)
    requires Assembled(x, m) && x.cfg.blockSize > 0 && DataOk(x, m.data, contents) && Owner(x, p) && Assigned(x, p)
    ensures HasRoot(m) && InodeFor(x, m.t, p).Some?
    ensures ReadNode(x.cfg.codec, ImageOf(m), SuperOf(m), InodeFor(x, m.t, p).value) == Some(NodeFor(x, contents, p))
  {
    hide Assembled, ImageOf, ReadListing, ReadData, Kids, BaseNames, NamesOf, Extent, RootRef, BytesUsed, InodeStart,
      DirStart, IdStart, BlockLog, ListingOf, EncodeListing, ValidEntries, BlockOf, OffsetOf, Fits, Encode, Assigned,
      DeviceMajor, DeviceMinor;
    Basics(x, m);
    OwnerPlaced(x, m, p);
    if Layout.IsDir(x, p) {
      ListingRead(x, m, p);
      NamesRead(x, m.t, p);
    } else if x.entries[p].kind.File? {
      FileRead(x, m, x.entries[p].kind, contents[p]);
    }
  }

  lemma HeadRead(x: Ctx, m: Parts, p: Path)
    requires Assembled(x, m) && x.cfg.blockSize > 0 && Owner(x, p) && Assigned(x, p)
    ensures InodeFor(x, m.t, p).Some?
    ensures EntryMtime(x.cfg, x.entries[p].attrs).Some?
    ensures InodeFor(x, m.t, p).value.h == CommonOf(x, p, EntryMtime(x.cfg, x.entries[p].attrs).value)
  {
    hide Assembled, ListingOf, EncodeListing, ValidEntries, BlockOf, OffsetOf, Fits, Encode, Assigned, EntryMtime;
    OwnerPlaced(x, m, p);
  }

  lemma StatRead(x: Ctx, m: Parts, contents: map<Path, seq<Byte>>, o: Path)
    requires Assembled(x, m) && x.cfg.blockSize > 0 && IdsOk(x, m.ids) && DataOk(x, m.data, contents) && Owner(x, o) &&
             Assigned(x, o)
    ensures HasRoot(m) && InodeFor(x, m.t, o).Some?
    ensures ReadStat(x.cfg.codec, ImageOf(m), SuperOf(m), InodeFor(x, m.t, o).value) == StatFor(x, contents, o)
  {
    hide Assembled, InodeFor, NodeFor, ReadNode, ReadId, ImageOf, DataOk, EntryMtime, Assigned, RootRef, BytesUsed,
      InodeStart, DirStart, IdStart, BlockLog, Perm;
    HeadRead(x, m, o);
    NodeRead(x, m, contents, o);
    IdRead(x, m, x.uid[o]);
    IdRead(x, m, x.gid[o]);
  }

  /** Whole-image round trip: at every path a reader finds exactly what was created there (kind,
      permissions, owner, group, time, content, target, device, directory entries, inode number), and
      nothing at any other path. */
  lemma ReadsBack(x: Ctx, m: Parts, contents: map<Path, seq<Byte>>, p: Path)
    requires Assembled(x, m) && x.cfg.blockSize > 0 && IdsOk(x, m.ids) && DataOk(x, m.data, contents)
    ensures HasRoot(m) && StatPath(x.cfg.codec, ImageOf(m), p) == StatFor(x, contents, p)
    ensures p in x.entries <==> StatPath(x.cfg.codec, ImageOf(m), p).Some?
  {
    hide Lookup, InodeFor, ReadStat, ImageOf, SuperOf, DecodeSuper, DataOk, IdsOk, BuildTables, BytesUsed, Lossless,
      ValidConfig, EntryMtime, NodeFor, Assigned, Perm;
    SuperRead(x, m);
    LookupIs(x, m, p);
    if p in x.entries {
      AssembledReady(x, m, p);
      StatRead(x, m, contents, Target(x, p));
      SameStat(x, contents, p);
      HeadRead(x, m, Target(x, p));
    }
  }

  lemma AssembledReady(x: Ctx, m: Parts, p: Path)
    requires Assembled(x, m) && p in x.entries
    ensures Owner(x, Target(x, p)) && Assigned(x, Target(x, p)) && Target(x, Target(x, p)) == Target(x, p)
  {
    hide Unwrapped, BuildTables, BytesUsed, Lossless, ValidConfig, Assigned, ValidKind;
    PathFacts(x, p);
  }

  lemma SameStat(x: Ctx, contents: map<Path, seq<Byte>>, p: Path)
    requires p in x.entries && Target(x, p) in x.entries && Target(x, Target(x, p)) == Target(x, p)
    ensures StatFor(x, contents, p) == StatFor(x, contents, Target(x, p))
  {
  }
}

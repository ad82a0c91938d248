/** The two metadata tables: leaf inodes in creation order, then every directory after its
    subdirectories, its listing in the directory table and its inode in the inode table. */
module Layout {
  import opened Bytes
  import opened Names
  import opened MetaStream
  import opened Inodes
  import opened Listing
  import opened Paths
  import opened Tree
  import opened Entries
  import Numbering

  /** Everything the table passes read: the entries (with the root) and what the earlier passes
      assigned to each of them. */
  datatype Ctx = Ctx(cfg: Config, entries: map<Path, Entry>, order: seq<Path>,
                     ino: map<Path, nat>, parent: map<Path, nat>, nlink: map<Path, nat>,
                     uid: map<Path, nat>, gid: map<Path, nat>)

  /** The entry whose inode a directory entry for `p` quotes. */
  function Target(x: Ctx, p: Path): Path
    requires p in x.entries
  {
    if x.entries[p].kind.Hardlink? then x.entries[p].kind.link else p
  }

  predicate Owner(x: Ctx, p: Path) {
    p in x.entries && !x.entries[p].kind.Hardlink?
  }

  predicate IsDir(x: Ctx, p: Path) {
    p in x.entries && x.entries[p].kind.Directory?
  }

  /** The finalization fields of `p` were assigned and fit their widths. */
  predicate Assigned(x: Ctx, p: Path) {
    && p in x.ino && p in x.parent && p in x.nlink && p in x.uid && p in x.gid
    && U32(x.ino[p]) && U32(x.parent[p]) && U32(x.nlink[p]) && U16(x.uid[p]) && U16(x.gid[p])
  }

  /** What holds once the tree was built and the numbering, link-count and ID passes have run. */
  ghost predicate Ready(x: Ctx) {
    && x.cfg.blockSize > 0
    && Listed(x.order)
    && x.entries.Keys == (set p | p in x.order) + {ROOT}
    && IsDir(x, ROOT)
    && (forall p :: p in x.order ==> IsDir(x, Dir(p)))
    && (forall p :: p in x.entries && x.entries[p].kind.Hardlink? ==>
        Target(x, p) in x.entries && x.entries[Target(x, p)].kind.File?)
    && (forall p :: p in x.entries ==> ValidKind(x.entries[p].kind))
    && (forall p :: Owner(x, p) ==> Assigned(x, p))
  }

  function CommonOf(x: Ctx, p: Path, mtime: nat): Common
    requires p in x.entries && Assigned(x, p)
  {
    Common(Perm(x.entries[p].attrs), x.uid[p], x.gid[p], mtime, x.ino[p])
  }

  /** The inode of an entry that is neither directory nor hardlink, or nothing where the encoder refuses. */
  function LeafInode(x: Ctx, p: Path): (r: Option<Inode>)
    requires x.cfg.blockSize > 0
    requires p in x.entries && Assigned(x, p)
  {
    var e := x.entries[p];
    var mtime :- EntryMtime(x.cfg, e.attrs);
    var h := CommonOf(x, p, mtime);
    match e.kind
    case File(start, ws, size) =>
      if start > MAX32 || size > MAX32 || |ws| != (size + x.cfg.blockSize - 1) / x.cfg.blockSize then None
      else Some(FileInode(h, start, size, ws))
    case Symlink(target) =>
      if |target| > 0xFFFF then None else Some(SymlinkInode(h, x.nlink[p], target))
    case CharDev(major, minor) =>
      var dev :- DeviceNumber(major, minor);
      Some(DeviceInode(h, false, x.nlink[p], dev))
    case BlockDev(major, minor) =>
      var dev :- DeviceNumber(major, minor);
      Some(DeviceInode(h, true, x.nlink[p], dev))
    case Fifo => Some(IpcInode(h, false, x.nlink[p]))
    case Socket => Some(IpcInode(h, true, x.nlink[p]))
    case _ => None
  }

  lemma LeafFits(x: Ctx, p: Path)
    requires x.cfg.blockSize > 0
    requires p in x.entries && Assigned(x, p) && ValidKind(x.entries[p].kind)
    ensures LeafInode(x, p).Some? ==> Fits(LeafInode(x, p).value, x.cfg.blockSize) && !LeafInode(x, p).value.DirInode?
  {
  }

  /** The type tag of a directory entry. */
  function BasicType(k: Kind): nat {
    match k
    case File(_, _, _) => FILE
    case Directory => DIR
    case Symlink(_) => SYMLINK
    case BlockDev(_, _) => BLOCKDEV
    case CharDev(_, _) => CHARDEV
    case Fifo => FIFO
    case Socket => SOCKET
    case Hardlink(_) => 0
  }

  // ---------------------------------------------------------------- the tables

  /** Uncompressed content of both tables so far, where each inode starts in the one and where each
      directory's listing starts in the other. */
  datatype Tables = Tables(inodes: seq<Byte>, dirs: seq<Byte>, pos: map<Path, nat>, dpos: map<Path, nat>)

  const EMPTY: Tables := Tables([], [], map[], map[])

  function EntryOf(x: Ctx, t: Tables, c: Path): (r: Option<DirEntry>) {
    if c !in x.entries then None else
    var o := Target(x, c);
    if o !in t.pos || o !in x.ino || o !in x.entries || t.pos[o] > |t.inodes| then None else
    var a := t.inodes[..t.pos[o]];
    var blockByte := BlockOf(x.cfg.codec, a);
    if blockByte > MAX32 then None else
    Some(DirEntry(Base(c), x.ino[o], blockByte, OffsetOf(a), BasicType(x.entries[o].kind)))
  }

  /** The directory entries of the children `cs`, whose inodes must have been written already. */
  function EntriesOf(x: Ctx, t: Tables, cs: seq<Path>): (r: Option<seq<DirEntry>>)
    ensures r.Some? ==> |r.value| == |cs|
  {
    if cs == [] then Some([]) else
    var e :- EntryOf(x, t, cs[0]);
    var es :- EntriesOf(x, t, cs[1..]);
    Some([e] + es)
  }

  /** The size field of a directory counts three more than its listing has bytes, in 32 bits. */
  function ListSize(len: nat): nat { (len + 3) % WRAP32 }

  /** The inode of directory `d` whose listing of `len` bytes starts where the directory table held `a`. */
  function DirInodeOf(x: Ctx, d: Path, mtime: nat, a: seq<Byte>, len: nat): Inode
    requires d in x.entries && Assigned(x, d)
  {
    DirInode(CommonOf(x, d, mtime), BlockOf(x.cfg.codec, a), x.nlink[d], ListSize(len), OffsetOf(a), x.parent[d])
  }

  /** Write one leaf inode. */
  function PutLeaf(x: Ctx, p: Path, t: Tables): Option<Tables> {
    if x.cfg.blockSize == 0 || p !in x.entries || !Assigned(x, p) then None else
    var i :- LeafInode(x, p);
    Some(t.(inodes := t.inodes + Encode(i), pos := t.pos[p := |t.inodes|]))
  }

  predicate IsLeaf(x: Ctx, p: Path) {
    Owner(x, p) && !IsDir(x, p)
  }

  /** Pass 1: every entry that is neither directory nor hardlink, in creation order. */
  function PutLeaves(x: Ctx, ps: seq<Path>, t: Tables): Option<Tables> {
    if ps == [] then Some(t) else
    if !IsLeaf(x, ps[0]) then PutLeaves(x, ps[1..], t) else
    var t' :- PutLeaf(x, ps[0], t);
    PutLeaves(x, ps[1..], t')
  }

  /** Write the listing and then the inode of directory `d` with children `cs`. */
  function PutDir(x: Ctx, d: Path, cs: seq<Path>, t: Tables): Option<Tables> {
    var es :- EntriesOf(x, t, cs);
    var sorted := SortBy(NameOf, es);
    if !ValidEntries(sorted) || d !in x.entries || !Assigned(x, d) then None else
    var mtime :- EntryMtime(x.cfg, x.entries[d].attrs);
    var listing := EncodeListing(sorted);
    if BlockOf(x.cfg.codec, t.dirs) > MAX32 || ListSize(|listing|) > 0xFFFF then None else
    var i := DirInodeOf(x, d, mtime, t.dirs, |listing|);
    Some(Tables(t.inodes + Encode(i), t.dirs + listing, t.pos[d := |t.inodes|], t.dpos[d := |t.dirs|]))
  }

  /** Pass 2: directories, each after the directories below it. */
  function PutDirs(x: Ctx, f: Forest, t: Tables): Option<Tables> {
    match f
    case Nil => Some(t)
    case Cons(p, k, r) =>
      if !IsDir(x, p) then PutDirs(x, r, t) else
      var t1 :- PutDirs(x, k, t);
      var t2 :- PutDir(x, p, Tops(k), t1);
      PutDirs(x, r, t2)
  }

  /** Both passes. */
  function BuildTables(x: Ctx): Option<Tables>
    requires Listed(x.order)
  {
    var t :- PutLeaves(x, x.order, EMPTY);
    PutDirs(x, Whole(x.order), t)
  }

  // ---------------------------------------------------------------- what the tables hold

  /** `b` lies in `s` from `at` on. */
  ghost predicate Placed(s: seq<Byte>, at: nat, b: seq<Byte>) {
    at + |b| <= |s| && s[at..at + |b|] == b
  }

  /** The listing of a directory, as entries. */
  function ListingOf(x: Ctx, t: Tables, d: Path): Option<seq<DirEntry>> {
    EntriesOf(x, t, Kids(x.order, d))
  }

  ghost predicate GoodLeaf(x: Ctx, t: Tables, p: Path)
    requires x.cfg.blockSize > 0
  {
    && IsLeaf(x, p) && Assigned(x, p) && p in t.pos
    && LeafInode(x, p).Some?
    && Placed(t.inodes, t.pos[p], Encode(LeafInode(x, p).value))
  }

  /** The inode of `d` in the finished table. */
  ghost function DirInodeIn(x: Ctx, t: Tables, d: Path): Option<Inode> {
    if d !in t.dpos || t.dpos[d] > |t.dirs| || d !in x.entries || !Assigned(x, d) then None else
    var mtime :- EntryMtime(x.cfg, x.entries[d].attrs);
    var es :- ListingOf(x, t, d);
    if !ValidEntries(es) then None else
    Some(DirInodeOf(x, d, mtime, t.dirs[..t.dpos[d]], |EncodeListing(es)|))
  }

  ghost predicate GoodDir(x: Ctx, t: Tables, d: Path)
    requires x.cfg.blockSize > 0
  {
    && IsDir(x, d) && d in t.pos && d in t.dpos
    && DirInodeIn(x, t, d).Some?
    && Fits(DirInodeIn(x, t, d).value, x.cfg.blockSize)
    && Placed(t.inodes, t.pos[d], Encode(DirInodeIn(x, t, d).value))
    && Placed(t.dirs, t.dpos[d], EncodeListing(ListingOf(x, t, d).value))
  }

  ghost function ListingLen(x: Ctx, t: Tables, d: Path): nat {
    var es := ListingOf(x, t, d);
    if es.Some? && ValidEntries(es.value) then |EncodeListing(es.value)| else 0
  }

  /** No listing is so long that its size field wraps around. */
  ghost predicate Unwrapped(x: Ctx, t: Tables) {
    forall d :: IsDir(x, d) ==> ListingLen(x, t, d) + 3 < WRAP32
  }

  /** Every inode written so far lies where its position says and records what it should. */
  ghost predicate Good(x: Ctx, t: Tables)
    requires x.cfg.blockSize > 0
  {
    forall p :: p in t.pos ==> if IsDir(x, p) then GoodDir(x, t, p) else GoodLeaf(x, t, p)
  }

  /** `t'` came from `t` by writing more. */
  ghost predicate Grows(t: Tables, t': Tables) {
    && t.inodes <= t'.inodes && t.dirs <= t'.dirs
    && (forall p :: p in t.pos ==> p in t'.pos && t'.pos[p] == t.pos[p])
    && (forall p :: p in t.dpos ==> p in t'.dpos && t'.dpos[p] == t.dpos[p])
  }

  lemma PlacedGrows(s: seq<Byte>, s': seq<Byte>, at: nat, b: seq<Byte>)
    requires s <= s' && Placed(s, at, b)
    ensures Placed(s', at, b)
  {
    assert s'[at..at + |b|] == s[at..at + |b|];
  }

  lemma PlacedEnd(s: seq<Byte>, b: seq<Byte>)
    ensures Placed(s + b, |s|, b) && s <= s + b
  {
  }

  lemma GrowsTransitive(t: Tables, t1: Tables, t2: Tables)
    requires Grows(t, t1) && Grows(t1, t2)
    ensures Grows(t, t2)
  {
  }

  /** References taken earlier stay what they were. */
  lemma {:induction false} EntriesGrow(x: Ctx, t: Tables, t': Tables, cs: seq<Path>)
    requires Grows(t, t') && EntriesOf(x, t, cs).Some?
    ensures EntriesOf(x, t', cs) == EntriesOf(x, t, cs)
  {
    hide BlockOf, OffsetOf, BasicType, Base;
    if cs != [] {
      EntriesGrow(x, t, t', cs[1..]);
      var o := Target(x, cs[0]);
      assert t'.inodes[..t.pos[o]] == t.inodes[..t.pos[o]];
    }
  }

  lemma GoodLeafGrows(x: Ctx, t: Tables, t': Tables, p: Path)
    requires x.cfg.blockSize > 0 && GoodLeaf(x, t, p) && Grows(t, t')
    ensures GoodLeaf(x, t', p)
  {
    hide LeafInode, Encode;
    PlacedGrows(t.inodes, t'.inodes, t.pos[p], Encode(LeafInode(x, p).value));
  }

  lemma GoodDirGrows(x: Ctx, t: Tables, t': Tables, d: Path)
    requires x.cfg.blockSize > 0 && GoodDir(x, t, d) && Grows(t, t')
    ensures GoodDir(x, t', d)
  {
    hide Encode, EncodeListing, Placed, Fits, EntriesOf, DirInodeOf, EntryMtime, ValidEntries, Kids, Assigned;
    EntriesGrow(x, t, t', Kids(x.order, d));
    assert t'.dirs[..t.dpos[d]] == t.dirs[..t.dpos[d]];
    assert DirInodeIn(x, t', d) == DirInodeIn(x, t, d);
    PlacedGrows(t.inodes, t'.inodes, t.pos[d], Encode(DirInodeIn(x, t, d).value));
    PlacedGrows(t.dirs, t'.dirs, t.dpos[d], EncodeListing(ListingOf(x, t, d).value));
  }

  lemma GoodGrows(x: Ctx, t: Tables, t': Tables, p: Path)
    requires x.cfg.blockSize > 0 && Good(x, t) && Grows(t, t') && p in t.pos
    ensures if IsDir(x, p) then GoodDir(x, t', p) else GoodLeaf(x, t', p)
  {
    hide GoodDir, GoodLeaf;
    if IsDir(x, p) { GoodDirGrows(x, t, t', p); } else { GoodLeafGrows(x, t, t', p); }
  }

  // ---------------------------------------------------------------- the passes keep that

  lemma PutLeafGood(x: Ctx, p: Path, t: Tables)
    requires x.cfg.blockSize > 0 && Good(x, t) && IsLeaf(x, p) && p !in t.pos && PutLeaf(x, p, t).Some?
    ensures var t' := PutLeaf(x, p, t).value;
            Grows(t, t') && Good(x, t') && t'.pos.Keys == t.pos.Keys + {p} && t'.dpos == t.dpos
  {
    hide GoodDir, Encode, LeafInode, Assigned;
    var t' := PutLeaf(x, p, t).value;
    PlacedEnd(t.inodes, Encode(LeafInode(x, p).value));
    assert Grows(t, t');
    forall q | q in t'.pos ensures if IsDir(x, q) then GoodDir(x, t', q) else GoodLeaf(x, t', q) {
      if q != p { GoodGrows(x, t, t', q); }
    }
  }

  ghost predicate Fresh(t: Tables, ps: seq<Path>) {
    forall i :: 0 <= i < |ps| ==> ps[i] !in t.pos
  }

  /** Pass 1 places every leaf of `ps` and nothing else. */
  lemma {:induction false} PutLeavesGood(x: Ctx, ps: seq<Path>, t: Tables)
    requires x.cfg.blockSize > 0 && Good(x, t) && NoDup(ps) && Fresh(t, ps) && PutLeaves(x, ps, t).Some?
    ensures var t' := PutLeaves(x, ps, t).value;
            && Grows(t, t') && Good(x, t') && t'.dpos == t.dpos
            && forall p :: p in t'.pos <==> p in t.pos || (p in ps && IsLeaf(x, p))
  {
    hide Good, PutLeaf;
    if ps == [] {
    } else {
      var p, rest := ps[0], ps[1..];
      assert ps == [p] + rest;
      TailNoDup(p, rest);
      var t1 := if IsLeaf(x, p) then PutLeaf(x, p, t).value else t;
      if IsLeaf(x, p) {
        PutLeafGood(x, p, t);
      }
      assert Fresh(t1, rest);
      PutLeavesGood(x, rest, t1);
      GrowsTransitive(t, t1, PutLeaves(x, ps, t).value);
    }
  }

  /** Directory entries of ascending children come out ascending by name. */
  lemma {:induction false} EntriesNamed(x: Ctx, t: Tables, cs: seq<Path>)
    requires EntriesOf(x, t, cs).Some?
    ensures var es := EntriesOf(x, t, cs).value;
            forall i :: 0 <= i < |cs| ==> EntryOf(x, t, cs[i]) == Some(es[i]) && es[i].name == Base(cs[i])
  {
    hide BlockOf, OffsetOf, BasicType, Base;
    if cs != [] {
      EntriesNamed(x, t, cs[1..]);
      var es := EntriesOf(x, t, cs).value;
      forall i | 0 <= i < |cs| ensures EntryOf(x, t, cs[i]) == Some(es[i]) && es[i].name == Base(cs[i]) {
        if i > 0 {
          assert es[i] == es[1..][i - 1] && cs[i] == cs[1..][i - 1];
        }
      }
    }
  }

  lemma EntriesAscend(x: Ctx, t: Tables, d: Path)
    requires Listed(x.order) && ListingOf(x, t, d).Some?
    ensures Ascending(NameOf, ListingOf(x, t, d).value)
  {
    hide EntryOf, Base, Less, Kids, Listed;
    KidsSpec(x.order, d);
    EntriesNamed(x, t, Kids(x.order, d));
  }

  lemma DirInodeFits(x: Ctx, d: Path, mtime: nat, a: seq<Byte>, len: nat)
    requires x.cfg.blockSize > 0 && d in x.entries && Assigned(x, d)
    requires mtime <= MAX32 && BlockOf(x.cfg.codec, a) <= MAX32 && ListSize(len) <= 0xFFFF
    ensures Fits(DirInodeOf(x, d, mtime, a, len), x.cfg.blockSize)
  {
    hide BlockOf;
  }

  /** One directory: its listing and inode are placed. */
  lemma PutDirPlaces(x: Ctx, d: Path, t: Tables)
    requires x.cfg.blockSize > 0 && Listed(x.order) && IsDir(x, d)
    requires PutDir(x, d, Kids(x.order, d), t).Some? && d !in t.pos && d !in t.dpos
    ensures var t' := PutDir(x, d, Kids(x.order, d), t).value;
            && Grows(t, t') && GoodDir(x, t', d)
            && t'.pos.Keys == t.pos.Keys + {d} && t'.dpos.Keys == t.dpos.Keys + {d}
  {
    hide Encode, EncodeListing, EntriesOf, ValidEntries, SortBy, Fits, DirInodeOf, BlockOf, Assigned, EntryMtime, Kids,
      Listed, Placed;
    var t' := PutDir(x, d, Kids(x.order, d), t).value;
    var es := ListingOf(x, t, d).value;
    EntriesAscend(x, t, d);
    SortByFixed(NameOf, es);
    var mtime := EntryMtime(x.cfg, x.entries[d].attrs).value;
    var i := DirInodeOf(x, d, mtime, t.dirs, |EncodeListing(es)|);
    PlacedEnd(t.inodes, Encode(i));
    PlacedEnd(t.dirs, EncodeListing(es));
    assert Grows(t, t');
    EntriesGrow(x, t, t', Kids(x.order, d));
    assert t'.dirs[..|t.dirs|] == t.dirs;
    DirInodeFits(x, d, mtime, t.dirs, |EncodeListing(es)|);
    assert DirInodeIn(x, t', d) == Some(i);
  }

  lemma PutDirGood(x: Ctx, d: Path, t: Tables)
    requires x.cfg.blockSize > 0 && Listed(x.order) && IsDir(x, d) && Good(x, t)
    requires PutDir(x, d, Kids(x.order, d), t).Some? && d !in t.pos && d !in t.dpos
    ensures var t' := PutDir(x, d, Kids(x.order, d), t).value;
            && Grows(t, t') && Good(x, t')
            && t'.pos.Keys == t.pos.Keys + {d} && t'.dpos.Keys == t.dpos.Keys + {d}
  {
    hide GoodDir, GoodLeaf, PutDir, Kids, Listed, Grows;
    var t' := PutDir(x, d, Kids(x.order, d), t).value;
    PutDirPlaces(x, d, t);
    forall q | q in t'.pos ensures if IsDir(x, q) then GoodDir(x, t', q) else GoodLeaf(x, t', q) {
      if q != d { GoodGrows(x, t, t', q); }
    }
  }

  /** No directory of the forest has been written yet. */
  ghost predicate FreshDirs(x: Ctx, t: Tables, ps: seq<Path>) {
    forall p :: p in ps && IsDir(x, p) ==> p !in t.pos && p !in t.dpos
  }

  /** Exactly the directories among `ps` were added. */
  ghost predicate AddedDirs(x: Ctx, t: Tables, t': Tables, ps: seq<Path>) {
    && (forall p :: p in t'.pos <==> p in t.pos || (p in ps && IsDir(x, p)))
    && (forall p :: p in t'.dpos <==> p in t.dpos || (p in ps && IsDir(x, p)))
  }

  /** Only directories have children. */
  ghost predicate DirsOnly(x: Ctx) {
    forall p :: p in x.entries && !IsDir(x, p) ==> Kids(x.order, p) == []
  }

  /** Pass 2 places every directory of the forest, each exactly once. */
  lemma {:induction false} PutDirsGood(x: Ctx, f: Forest, t: Tables)
    requires x.cfg.blockSize > 0 && Listed(x.order) && DirsOnly(x) && Good(x, t)
    requires Shape(x.order, f) && NoDup(Visit(f)) && FreshDirs(x, t, Visit(f))
    requires forall p :: p in Visit(f) ==> p in x.entries
    requires PutDirs(x, f, t).Some?
    ensures var t' := PutDirs(x, f, t).value;
            Grows(t, t') && Good(x, t') && AddedDirs(x, t, t', Visit(f))
  {
    hide Good, PutDir, Kids, Listed, Grows, FreshDirs, AddedDirs, NoDup, Visit;
    match f
    case Nil =>
      GrowsReflexive(t);
      NothingAdded(x, t);
    case Cons(p, k, r) =>
      SplitVisit(p, k, r);
      var t' := PutDirs(x, f, t).value;
      if !IsDir(x, p) {
        LeafKids(x, p, k);
        FreshRest(x, t, p, k, r);
        PutDirsGood(x, r, t);
        NoDirAdded(x, t, t', p, r);
      } else {
        FreshRest(x, t, p, k, r);
        PutDirsGood(x, k, t);
        var t1 := PutDirs(x, k, t).value;
        FreshSelf(x, t, t1, p, k, r);
        PutDirGood(x, p, t1);
        var t2 := PutDir(x, p, Kids(x.order, p), t1).value;
        FreshAfter(x, t, t1, t2, p, k, r);
        PutDirsGood(x, r, t2);
        GrowsTransitive(t, t1, t2);
        GrowsTransitive(t, t2, t');
        DirAdded(x, t, t1, t2, t', p, k, r);
      }
  }

  lemma NothingAdded(x: Ctx, t: Tables)
    ensures AddedDirs(x, t, t, Visit(Nil))
  {
  }

  lemma FreshRest(x: Ctx, t: Tables, p: Path, k: Forest, r: Forest)
    requires FreshDirs(x, t, Visit(Cons(p, k, r)))
    ensures FreshDirs(x, t, Visit(k)) && FreshDirs(x, t, Visit(r))
  {
  }

  lemma NoDirAdded(x: Ctx, t: Tables, t': Tables, p: Path, r: Forest)
    requires AddedDirs(x, t, t', Visit(r)) && !IsDir(x, p)
    ensures AddedDirs(x, t, t', Visit(Cons(p, Nil, r)))
  {
  }

  lemma FreshSelf(x: Ctx, t: Tables, t1: Tables, p: Path, k: Forest, r: Forest)
    requires FreshDirs(x, t, Visit(Cons(p, k, r))) && AddedDirs(x, t, t1, Visit(k)) && p !in Visit(k) && IsDir(x, p)
    ensures p !in t1.pos && p !in t1.dpos
  {
    assert p in Visit(Cons(p, k, r));
  }

  lemma FreshAfter(x: Ctx, t: Tables, t1: Tables, t2: Tables, p: Path, k: Forest, r: Forest)
    requires FreshDirs(x, t, Visit(r)) && AddedDirs(x, t, t1, Visit(k))
    requires t2.pos.Keys == t1.pos.Keys + {p} && t2.dpos.Keys == t1.dpos.Keys + {p}
    requires p !in Visit(r) && forall q :: q in Visit(k) ==> q !in Visit(r)
    ensures FreshDirs(x, t2, Visit(r))
  {
    hide Visit, IsDir;
    forall q | q in Visit(r) && IsDir(x, q) ensures q !in t2.pos && q !in t2.dpos {
      assert q !in t1.pos && q !in t1.dpos;
      assert q !in t2.pos.Keys && q !in t2.dpos.Keys;
    }
  }

  lemma DirAdded(x: Ctx, t: Tables, t1: Tables, t2: Tables, t': Tables, p: Path, k: Forest, r: Forest)
    requires AddedDirs(x, t, t1, Visit(k)) && AddedDirs(x, t2, t', Visit(r)) && IsDir(x, p)
    requires t2.pos.Keys == t1.pos.Keys + {p} && t2.dpos.Keys == t1.dpos.Keys + {p}
    requires forall q :: q in Visit(Cons(p, k, r)) <==> q == p || q in Visit(k) || q in Visit(r)
    ensures AddedDirs(x, t, t', Visit(Cons(p, k, r)))
  {
    hide Visit, IsDir;
    assert forall q :: q in t2.pos <==> q in t1.pos || q == p by {
      forall q ensures q in t2.pos <==> q in t1.pos || q == p { assert q in t2.pos <==> q in t2.pos.Keys; }
    }
    assert forall q :: q in t2.dpos <==> q in t1.dpos || q == p by {
      forall q ensures q in t2.dpos <==> q in t1.dpos || q == p { assert q in t2.dpos <==> q in t2.dpos.Keys; }
    }
  }

  lemma GrowsReflexive(t: Tables)
    ensures Grows(t, t)
  {
  }

  lemma LeafKids(x: Ctx, p: Path, k: Forest)
    requires DirsOnly(x) && p in x.entries && !IsDir(x, p) && Tops(k) == Kids(x.order, p)
    ensures k == Nil
  {
  }

  lemma SplitVisit(p: Path, k: Forest, r: Forest)
    requires NoDup(Visit(Cons(p, k, r)))
    ensures NoDup(Visit(k)) && NoDup(Visit(r)) && p !in Visit(k) && p !in Visit(r)
    ensures forall q :: q in Visit(k) ==> q !in Visit(r)
    ensures forall q :: q in Visit(Cons(p, k, r)) <==> q == p || q in Visit(k) || q in Visit(r)
  {
    Numbering.SplitNoDup([p] + Visit(k), Visit(r));
    Numbering.SplitNoDup([p], Visit(k));
    forall q | q in Visit(k) ensures q !in Visit(r) { assert q in [p] + Visit(k); }
    assert p in [p] + Visit(k);
    assert p in [p];
  }

  /** After both passes every entry that owns an inode has it in the table, where its position
      says, and every directory has its listing. */
  lemma BuildTablesGood(x: Ctx)
    requires Ready(x) && BuildTables(x).Some?
    ensures var t := BuildTables(x).value;
            Good(x, t) && forall p :: Owner(x, p) ==> p in t.pos
  {
    hide Good, PutLeaves, PutDirs, Whole, Kids, Listed, Shape, Visit, Grows;
    var t := PutLeaves(x, x.order, EMPTY).value;
    ReadyFacts(x);
    assert Good(x, EMPTY) by { EmptyGood(x); }
    PutLeavesGood(x, x.order, EMPTY);
    WholeShape(x.order);
    WholeVisits(x.order);
    var w := Whole(x.order);
    PutDirsGood(x, w, t);
  }

  lemma EmptyGood(x: Ctx)
    requires x.cfg.blockSize > 0
    ensures Good(x, EMPTY)
  {
  }

  lemma ReadyFacts(x: Ctx)
    requires Ready(x)
    ensures NoDup(x.order) && Closed(x.order) && DirsOnly(x)
    ensures forall p :: p in x.order || p == ROOT ==> p in x.entries
    ensures forall p :: p in x.entries ==> p in x.order || p == ROOT
  {
    hide ValidPath, Dir, Assigned, ValidKind, Target, Kids;
    forall p | p in x.entries && !IsDir(x, p) ensures Kids(x.order, p) == [] {
      NoKids(x, p);
    }
  }

  lemma NoKids(x: Ctx, p: Path)
    requires Listed(x.order) && !IsDir(x, p)
    requires forall c :: c in x.order ==> IsDir(x, Dir(c))
    ensures Kids(x.order, p) == []
  {
    hide ValidPath, Dir, IsDir;
    KidsSpec(x.order, p);
    if Kids(x.order, p) != [] {
      HasMember(Kids(x.order, p));
    }
  }

  lemma HasMember(ps: seq<Path>)
    requires ps != []
    ensures exists c :: c in ps
  {
    assert ps[0] in ps;
  }
}

/** The passes that fill the inode and directory tables, as the writer runs them over two open streams. */
module TableWriter {
  import opened Bytes
  import opened Blocks
  import opened Names
  import opened MetaStream
  import opened Inodes
  import opened Listing
  import opened ListingWriter
  import opened Paths
  import opened Tree
  import opened Entries
  import opened Layout
  import opened Finalize

  /** The reference a stream with content `a` hands out for its next byte. */
  function RefAt(c: Codec, a: seq<Byte>): MetaRef {
    MetaRef(|Full(c, META, a)|, OffsetOf(a))
  }

  /** Resolving a reference while its stream is still open gives the block's final offset. */
  lemma RefBlock(c: Codec, s: seq<Byte>, at: nat)
    requires at <= |s|
    ensures |Full(c, META, s[..at])| <= |Full(c, META, s)|
    ensures |Frames(Full(c, META, s)[..|Full(c, META, s[..at])|])| == BlockOf(c, s[..at])
  {
    hide Frames, OffsetOf;
    var a, b := s[..at], s[at..];
    assert s == a + b;
    Grow(c, META, a, b);
    var fa := Full(c, META, a);
    assert Full(c, META, s)[..|fa|] == fa;
  }

  lemma {:induction false} RunSize(base: DirEntry, es: seq<DirEntry>)
    requires Encodable(base, es) && ValidEntries(es)
    ensures |EncodeRun(base, es)| <= 264 * |es|
  {
    hide Joins;
    if es != [] { RunSize(base, es[1..]); }
  }

  /** A listing takes at most 276 bytes per entry. */
  lemma {:induction false} ListingSize(es: seq<DirEntry>)
    requires ValidEntries(es)
    ensures |EncodeListing(es)| <= 276 * |es|
    decreases |es|
  {
    hide FirstRun, EncodeRun, EncodeHeader, Joins, ValidEntry;
    if es != [] {
      var n := FirstRun(es);
      RunsValid(es, n);
      RunSize(es[0], es[..n]);
      ListingSize(es[n..]);
    }
  }

  // ---------------------------------------------------------------- what the passes keep

  /** Every placed inode's reference is the one taken just before it was written. */
  ghost predicate RefsOk(x: Ctx, t: Tables, refs: map<Path, MetaRef>) {
    forall p :: p in t.pos ==>
        p in refs && t.pos[p] <= |t.inodes| && refs[p] == RefAt(x.cfg.codec, t.inodes[..t.pos[p]])
  }

  /** A directory entry for `c` can be written: its inode is placed and `c` carries that inode's coordinates. */
  ghost predicate Resolved(x: Ctx, t: Tables, refs: map<Path, MetaRef>, nums: map<Path, nat>, c: Path) {
    && c in x.entries && Target(x, c) in x.entries && Target(x, c) in x.ino && Target(x, c) in t.pos
    && U32(x.ino[Target(x, c)])
    && c in nums && nums[c] == x.ino[Target(x, c)]
    && c in refs && Target(x, c) in refs && refs[c] == refs[Target(x, c)]
  }

  lemma RefsPush(x: Ctx, t: Tables, refs: map<Path, MetaRef>, p: Path, b: seq<Byte>)
    requires RefsOk(x, t, refs)
    ensures RefsOk(x, t.(inodes := t.inodes + b, pos := t.pos[p := |t.inodes|]),
                   refs[p := RefAt(x.cfg.codec, t.inodes)])
  {
    hide RefAt;
    var t' := t.(inodes := t.inodes + b, pos := t.pos[p := |t.inodes|]);
    forall q | q in t'.pos
      ensures t'.pos[q] <= |t'.inodes|
      ensures t'.inodes[..t'.pos[q]] == if q == p then t.inodes else t.inodes[..t.pos[q]]
    {
    }
  }

  class Tabler {
    const x: Ctx
    const inodeMeta: MetaWriter
    const dirMeta: MetaWriter
    var inodeRef: map<Path, MetaRef>
    var inodeNumber: map<Path, nat>
    /** The tables written so far. */
    ghost var t: Tables

    ghost predicate Valid()
      reads this, inodeMeta, dirMeta
    {
      && inodeMeta != dirMeta && inodeMeta.Valid() && dirMeta.Valid()
      && inodeMeta.comp == x.cfg.codec && dirMeta.comp == x.cfg.codec
      && inodeMeta.content == t.inodes && dirMeta.content == t.dirs
      && RefsOk(x, t, inodeRef)
    }

    constructor (x: Ctx)
      ensures Valid() && t == EMPTY && this.x == x && inodeNumber == x.ino && inodeRef == map[]
      ensures fresh(inodeMeta) && fresh(dirMeta)
    {
      this.x := x;
      inodeRef, inodeNumber := map[], x.ino;
      t := EMPTY;
      inodeMeta := new MetaWriter(x.cfg.codec);
      dirMeta := new MetaWriter(x.cfg.codec);
    }

    /** Records the reference and appends the record. */
    method WriteOneInode(p: Path, i: Inode) returns (ok: bool)
      requires Valid()
      modifies this`inodeRef, this`t, inodeMeta
      ensures ok ==> Valid() && t == old(t).(inodes := old(t).inodes + Encode(i),
                                             pos := old(t).pos[p := |old(t).inodes|])
      ensures forall q :: q != p && q in old(inodeRef) ==> q in inodeRef && inodeRef[q] == old(inodeRef)[q]
      ensures !ok ==> CanFail(x.cfg.codec)
    {
      hide MetaWriter.Valid, Encode, Full, OffsetOf;
      var r := inodeMeta.Ref();
      inodeRef := inodeRef[p := r];
      ok := inodeMeta.Write(Encode(i));
      if ok {
        RefsPush(x, t, old(inodeRef), p, Encode(i));
        t := t.(inodes := t.inodes + Encode(i), pos := t.pos[p := |t.inodes|]);
      }
    }

    /** Pass 1: every entry that is neither directory nor hardlink, in creation order. */
    method WriteLeafInodes() returns (ok: bool)
      requires Valid() && t == EMPTY && x.cfg.blockSize > 0
      requires forall p :: p in x.order ==> p in x.entries && (Owner(x, p) ==> Assigned(x, p))
      modifies this`inodeRef, this`t, inodeMeta
      ensures ok ==> Valid() && PutLeaves(x, x.order, EMPTY) == Some(t)
      ensures !ok ==> PutLeaves(x, x.order, EMPTY) == None || CanFail(x.cfg.codec)
    {
      hide Valid, Encode, LeafInode, Assigned, CanFail;
      assert x.order[0..] == x.order;
      for i := 0 to |x.order|
        invariant Valid()
        invariant PutLeaves(x, x.order[i..], t) == PutLeaves(x, x.order, EMPTY)
      {
        var p := x.order[i];
        assert x.order[i..][0] == p && x.order[i..][1..] == x.order[i + 1..];
        assert p in x.order;
        if IsLeaf(x, p) {
          var inode := LeafInode(x, p);
          if inode.None? {
            return false;
          }
          ok := WriteOneInode(p, inode.value);
          if !ok {
            return;
          }
        }
      }
      assert x.order[|x.order|..] == [];
      ok := true;
    }

    /** A hardlink takes over its target's coordinates. */
    method ResolveHardlinks()
      requires Valid() && forall p :: p in x.order ==> p in x.entries
      requires forall p :: p in x.entries && x.entries[p].kind.Hardlink? ==>
                 p !in t.pos && Target(x, p) in t.pos && Target(x, p) in inodeNumber && Owner(x, Target(x, p))
      modifies this`inodeRef, this`inodeNumber
      ensures Valid()
      ensures forall p :: Owner(x, p) ==>
              (p in inodeNumber <==> p in old(inodeNumber)) &&
              (p in inodeNumber ==> inodeNumber[p] == old(inodeNumber)[p])
      ensures forall p :: p in x.order && p in x.entries && x.entries[p].kind.Hardlink? ==>
              LinkResolved(x, inodeRef, inodeNumber, p)
    {
      hide MetaWriter.Valid, Full, OffsetOf, RefAt;
      for i := 0 to |x.order|
        invariant RefsOk(x, t, inodeRef)
        invariant forall p :: Owner(x, p) ==>
                  (p in inodeNumber <==> p in old(inodeNumber)) &&
                  (p in inodeNumber ==> inodeNumber[p] == old(inodeNumber)[p])
        invariant forall j :: 0 <= j < i && x.entries[x.order[j]].kind.Hardlink? ==>
                  LinkResolved(x, inodeRef, inodeNumber, x.order[j])
      {
        var p := x.order[i];
        assert p in x.order;
        if x.entries[p].kind.Hardlink? {
          inodeRef := inodeRef[p := inodeRef[Target(x, p)]];
          inodeNumber := inodeNumber[p := inodeNumber[Target(x, p)]];
        }
      }
    }

    /** One child's directory entry; nothing when the inode table has outgrown 32-bit offsets. */
    method ChildEntry(c: Path) returns (e: Option<DirEntry>)
      requires Valid() && Resolved(x, t, inodeRef, inodeNumber, c)
      ensures e == EntryOf(x, t, c)
      ensures e.Some? ==> FieldsFit([e.value])
    {
      hide Base, Full, OffsetOf, Frames, BlockOf;
      var o := if x.entries[c].kind.Hardlink? then x.entries[c].kind.link else c;
      RefBlock(x.cfg.codec, t.inodes, t.pos[o]);
      var blockByte := inodeMeta.BlockByteOffset(inodeRef[o].blockIdx);
      if blockByte > MAX32 {
        return None;
      }
      return Some(DirEntry(Base(c), inodeNumber[c], blockByte, inodeRef[c].offset, BasicType(x.entries[o].kind)));
    }

    /** The directory entries of `cs` from the references gathered so far, while the inode stream is open. */
    method DirEntries(cs: seq<Path>) returns (ok: bool, es: seq<DirEntry>)
      requires Valid()
      requires forall c :: c in cs ==> Resolved(x, t, inodeRef, inodeNumber, c)
      ensures ok ==> EntriesOf(x, t, cs) == Some(es) && FieldsFit(es)
      ensures !ok ==> EntriesOf(x, t, cs) == None
    {
      hide Valid, EntryOf, Resolved;
      es := [];
      assert cs[0..] == cs;
      Unprefixed(EntriesOf(x, t, cs));
      for i := 0 to |cs|
        invariant EntriesOf(x, t, cs) == Prefixed(es, EntriesOf(x, t, cs[i..]))
        invariant FieldsFit(es)
      {
        var c := cs[i];
        assert c in cs;
        assert cs[i..][0] == c && cs[i..][1..] == cs[i + 1..];
        var e := ChildEntry(c);
        if e.None? {
          return false, es;
        }
        Reprefix(es, e.value, EntriesOf(x, t, cs[i + 1..]));
        assert [e.value][0] == e.value;
        es := es + [e.value];
      }
      assert cs[|cs|..] == [];
      assert es + [] == es;
      ok := true;
    }

    /** One directory: its listing into the directory stream, then its inode. */
    method WriteDir(d: Path, cs: seq<Path>) returns (ok: bool)
      requires Valid() && IsDir(x, d) && Assigned(x, d)
      requires forall c :: c in cs ==> Resolved(x, t, inodeRef, inodeNumber, c)
      modifies this`inodeRef, this`t, inodeMeta, dirMeta
      ensures ok ==> Valid() && PutDir(x, d, cs, old(t)) == Some(t)
      ensures ok ==> forall q :: q != d && q in old(inodeRef) ==> q in inodeRef && inodeRef[q] == old(inodeRef)[q]
      ensures !ok ==> PutDir(x, d, cs, old(t)) == None || CanFail(x.cfg.codec)
    {
      hide MetaWriter.Valid, EntriesOf, SortBy, ValidEntries, EncodeListing, OffsetOf, BlockOf, Encode, Resolved,
        EntryMtime, FieldsFit, RefsOk, Target;
      var es, dirBlockStart, dirBlockOffset, dirListingSize;
      ok, es := DirEntries(cs);
      if !ok {
        return;
      }
      ok, dirBlockStart, dirBlockOffset, dirListingSize := WriteListing(dirMeta, es);
      if !ok {
        return;
      }
      var mtime := EntryMtime(x.cfg, x.entries[d].attrs);
      var listingSize := (dirListingSize + 3) % WRAP32;
      WrapOnce(|EncodeListing(SortBy(NameOf, es))|);
      if mtime.None? || dirBlockStart > MAX32 || listingSize > 0xFFFF {
        return false;
      }
      var inode := DirInode(CommonOf(x, d, mtime.value), dirBlockStart, x.nlink[d], listingSize, dirBlockOffset,
                            x.parent[d]);
      ghost var t1 := t.(dirs := t.dirs + EncodeListing(SortBy(NameOf, es)), dpos := t.dpos[d := |t.dirs|]);
      SameRefs(x, t, t1, inodeRef);
      t := t1;
      ok := WriteOneInode(d, inode);
    }

    /** Pass 2: directories in post-order, so that a listing only quotes inodes already written. */
    method WriteDirs(f: Forest) returns (ok: bool)
      requires Valid() && Prepped(x, t, inodeRef, inodeNumber)
      requires Listed(x.order) && Shape(x.order, f) && forall p :: p in Visit(f) ==> p in x.entries
      modifies this`inodeRef, this`t, inodeMeta, dirMeta
      ensures ok ==> Valid() && Prepped(x, t, inodeRef, inodeNumber) && PutDirs(x, f, old(t)) == Some(t)
      ensures !ok ==> PutDirs(x, f, old(t)) == None || CanFail(x.cfg.codec)
      decreases f
    {
      hide MetaWriter.Valid, RefsOk, Prepped, Listed, Shape, Visit, PutDir, CanFail, Resolved, Assigned, Tops;
      match f {
        case Nil =>
          ok := true;
        case Cons(p, k, r) =>
          ShapeParts(x.order, f);
          VisitParts(f, x.entries);
          if x.entries[p].kind.Directory? {
            ok := WriteDirs(k);
            if !ok {
              return;
            }
            var cs := Tops(k);
            PutDirsCovers(x, k, old(t));
            AllResolved(x, t, inodeRef, inodeNumber, k);
            ghost var t1, refs1 := t, inodeRef;
            assert Assigned(x, p) by { DirAssigned(x, t, inodeRef, inodeNumber, p); }
            ok := WriteDir(p, cs);
            if !ok {
              return;
            }
            PreppedStep(x, t1, t, refs1, inodeRef, inodeNumber, p, cs);
          }
          ok := WriteDirs(r);
      }
    }

    /** All passes: both streams end up with the tables the specification gives. */
    method WriteTables(root: Forest) returns (ok: bool)
      requires Valid() && t == EMPTY && inodeNumber == x.ino && Ready(x) && root == Whole(x.order)
      modifies this, inodeMeta, dirMeta
      ensures ok ==> Valid() && BuildTables(x) == Some(t)
      ensures !ok ==> BuildTables(x) == None || CanFail(x.cfg.codec)
    {
      hide MetaWriter.Valid, RefsOk, PutLeaves, PutDirs, Whole, Visit, Shape, CanFail, Assigned, Ready, Good, NoDup,
        LinkResolved, Target, Prepped, DirsOnly, Tree.Closed;
      ReadyPass(x);
      ok := WriteLeafInodes();
      if !ok {
        return;
      }
      assert Good(x, EMPTY) by { EmptyGood(x); }
      PutLeavesGood(x, x.order, EMPTY);
      assert LeavesPlaced(x, t);
      LinksPlaced(x, t);
      ResolveHardlinks();
      ReadyPrepped(x, t, inodeRef, inodeNumber);
      WholeShape(x.order);
      WholeVisits(x.order);
      ok := WriteDirs(root);
    }
  }

  lemma ReadyPass(x: Ctx)
    requires Ready(x)
    ensures x.cfg.blockSize > 0 && Listed(x.order) && NoDup(x.order) && Tree.Closed(x.order)
    ensures forall p :: p in x.order || p == ROOT ==> p in x.entries && (Owner(x, p) ==> Assigned(x, p))
  {
    hide ValidKind, Dir, GoodParts, Assigned;
    ReadyFacts(x);
  }

  lemma LinkFacts(x: Ctx, p: Path)
    requires Ready(x) && p in x.entries && x.entries[p].kind.Hardlink?
    ensures var o := Target(x, p); o in x.order && IsLeaf(x, o) && o in x.ino
  {
    hide ValidKind, Listed, Dir;
    var o := Target(x, p);
    assert o in x.entries && x.entries[o].kind.File?;
    assert Owner(x, o) && Assigned(x, o);
    assert o in x.entries.Keys && o != ROOT;
  }

  lemma OwnerFacts(x: Ctx, p: Path)
    requires Ready(x) && Owner(x, p)
    ensures Assigned(x, p) && (p in x.order || p == ROOT) && IsDir(x, ROOT)
  {
    hide ValidKind, Listed, Dir, Assigned;
    assert p in x.entries.Keys;
  }

  /** Pass 1 placed exactly the leaves. */
  ghost predicate LeavesPlaced(x: Ctx, t: Tables) {
    forall p :: p in t.pos <==> p in x.order && IsLeaf(x, p)
  }

  lemma LinksPlaced(x: Ctx, t: Tables)
    requires Ready(x) && LeavesPlaced(x, t)
    ensures forall p :: p in x.entries && x.entries[p].kind.Hardlink? ==>
              p !in t.pos && Target(x, p) in t.pos && Target(x, p) in x.ino && Owner(x, Target(x, p))
  {
    hide Ready;
    forall p | p in x.entries && x.entries[p].kind.Hardlink?
      ensures p !in t.pos && Target(x, p) in t.pos && Target(x, p) in x.ino && Owner(x, Target(x, p))
    {
      LinkFacts(x, p);
    }
  }

  ghost predicate LinkResolved(x: Ctx, refs: map<Path, MetaRef>, nums: map<Path, nat>, p: Path)
    requires p in x.entries
  {
    && p in refs && Target(x, p) in refs && refs[p] == refs[Target(x, p)]
    && p in nums && Target(x, p) in nums && nums[p] == nums[Target(x, p)]
  }

  lemma LeafResolved(x: Ctx, t: Tables, refs: map<Path, MetaRef>, nums: map<Path, nat>, p: Path)
    requires Ready(x) && RefsOk(x, t, refs) && LeavesPlaced(x, t) && p in x.entries && !IsDir(x, p)
    requires forall p :: Owner(x, p) ==> (p in nums <==> p in x.ino) && (p in nums ==> nums[p] == x.ino[p])
    requires x.entries[p].kind.Hardlink? ==> LinkResolved(x, refs, nums, p)
    ensures Resolved(x, t, refs, nums, p) && !IsDir(x, Target(x, p))
  {
    hide Ready, RefAt;
    if x.entries[p].kind.Hardlink? { LinkFacts(x, p); }
    OwnerFacts(x, Target(x, p));
  }

  /** After pass 1 and the hardlink resolution everything but directories can be quoted. */
  lemma ReadyPrepped(x: Ctx, t: Tables, refs: map<Path, MetaRef>, nums: map<Path, nat>)
    requires Ready(x) && RefsOk(x, t, refs) && LeavesPlaced(x, t)
    requires forall p :: Owner(x, p) ==> (p in nums <==> p in x.ino) && (p in nums ==> nums[p] == x.ino[p])
    requires forall p :: p in x.order && p in x.entries && x.entries[p].kind.Hardlink? ==>
             LinkResolved(x, refs, nums, p)
    ensures Prepped(x, t, refs, nums)
  {
    hide Ready, RefsOk, LeavesPlaced, LinkResolved, Resolved;
    forall p | p in x.entries && !IsDir(x, p) ensures Resolved(x, t, refs, nums, p) && !IsDir(x, Target(x, p)) {
      assert p in x.order by { InOrder(x, p); }
      LeafResolved(x, t, refs, nums, p);
    }
    forall p | IsDir(x, p) ensures Assigned(x, p) && p in nums && nums[p] == x.ino[p] {
      OwnerFacts(x, p);
    }
  }

  lemma InOrder(x: Ctx, p: Path)
    requires Ready(x) && p in x.entries && !IsDir(x, p)
    ensures p in x.order
  {
    hide ValidKind, Listed, Dir, Assigned;
    assert p in x.entries.Keys;
  }

  /** Everything but directories is ready to be quoted, and directories will be once placed. */
  ghost predicate Prepped(x: Ctx, t: Tables, refs: map<Path, MetaRef>, nums: map<Path, nat>) {
    && RefsOk(x, t, refs)
    && (forall p :: p in x.entries && !IsDir(x, p) ==> Resolved(x, t, refs, nums, p) && !IsDir(x, Target(x, p)))
    && forall p :: IsDir(x, p) ==> Assigned(x, p) && p in nums && nums[p] == x.ino[p]
  }

  lemma DirAssigned(x: Ctx, t: Tables, refs: map<Path, MetaRef>, nums: map<Path, nat>, p: Path)
    requires Prepped(x, t, refs, nums) && IsDir(x, p)
    ensures Assigned(x, p)
  {
  }

  lemma VisitParts(f: Forest, entries: map<Path, Entry>)
    requires f.Cons? && forall q :: q in Visit(f) ==> q in entries
    ensures f.path in entries && (forall q :: q in Visit(f.kids) ==> q in entries) && forall q :: q in Visit(f.rest) ==>
            q in entries
  {
    assert f.path in Visit(f);
  }

  lemma PutDirKeys(x: Ctx, d: Path, cs: seq<Path>, t: Tables)
    requires PutDir(x, d, cs, t).Some?
    ensures d in PutDir(x, d, cs, t).value.pos && forall p :: p in t.pos ==> p in PutDir(x, d, cs, t).value.pos
  {
    hide EntriesOf, EncodeListing, ValidEntries, SortBy, Encode, BlockOf, Assigned, EntryMtime;
  }

  /** Pass 2 places the directories at the top of the forest and displaces nothing. */
  lemma {:induction false} PutDirsCovers(x: Ctx, f: Forest, t: Tables)
    requires PutDirs(x, f, t).Some?
    ensures var t' := PutDirs(x, f, t).value;
            && (forall p :: p in t.pos ==> p in t'.pos)
            && forall p :: p in Tops(f) && IsDir(x, p) ==> p in t'.pos
  {
    hide PutDir, IsDir;
    if f.Cons? {
      if IsDir(x, f.path) {
        PutDirsCovers(x, f.kids, t);
        var t1 := PutDirs(x, f.kids, t).value;
        PutDirKeys(x, f.path, Tops(f.kids), t1);
        PutDirsCovers(x, f.rest, PutDir(x, f.path, Tops(f.kids), t1).value);
      } else {
        PutDirsCovers(x, f.rest, t);
      }
    }
  }

  lemma AllResolved(x: Ctx, t: Tables, refs: map<Path, MetaRef>, nums: map<Path, nat>, k: Forest)
    requires Prepped(x, t, refs, nums) && forall p :: p in Visit(k) ==> p in x.entries
    requires forall p :: p in Tops(k) && IsDir(x, p) ==> p in t.pos
    ensures forall c :: c in Tops(k) ==> Resolved(x, t, refs, nums, c)
  {
    hide RefAt, Tops, Visit;
    forall c | c in Tops(k) ensures Resolved(x, t, refs, nums, c) {
      TopsReached(k, c);
    }
  }

  /** Writing a directory disturbs no one else's coordinates. */
  lemma PreppedStep(x: Ctx, t: Tables, t': Tables, refs: map<Path, MetaRef>, refs': map<Path, MetaRef>, nums: map<Path,
                    nat>, d: Path, cs: seq<Path>)
    requires Prepped(x, t, refs, nums) && IsDir(x, d) && PutDir(x, d, cs, t) == Some(t') && RefsOk(x, t', refs')
    requires forall q :: q != d && q in refs ==> q in refs' && refs'[q] == refs[q]
    ensures Prepped(x, t', refs', nums)
  {
    hide RefsOk, PutDir, Assigned;
    PutDirKeys(x, d, cs, t);
    forall p | p in x.entries && !IsDir(x, p) ensures Resolved(x, t', refs', nums, p) {
      assert Resolved(x, t, refs, nums, p);
    }
  }

  lemma WrapOnce(len: nat)
    ensures (len % WRAP32 + 3) % WRAP32 == ListSize(len)
  {
  }

  /** Up to 0xE0_0000 children per directory no listing wraps. */
  lemma FewChildrenUnwrapped(x: Ctx, t: Tables)
    requires SmallDirs(x.order)
    ensures Unwrapped(x, t)
  {
    hide Kids, EntriesOf, EncodeListing, ValidEntries;
    forall d | IsDir(x, d) ensures ListingLen(x, t, d) + 3 < WRAP32 {
      var es := ListingOf(x, t, d);
      if es.Some? && ValidEntries(es.value) {
        ListingSize(es.value);
        assert |es.value| == |Kids(x.order, d)|;
      }
    }
  }

  lemma SameRefs(x: Ctx, t: Tables, t': Tables, refs: map<Path, MetaRef>)
    requires RefsOk(x, t, refs) && t'.inodes == t.inodes && t'.pos == t.pos
    ensures RefsOk(x, t', refs)
  {
  }

  /** A listing and where it starts, resolved while the directory stream is still open. */
  method WriteListing(dirMeta: MetaWriter, es: seq<DirEntry>) returns (ok: bool, start: nat, offset: nat, size: nat)
    requires dirMeta.Valid() && FieldsFit(es)
    modifies dirMeta
    ensures ok ==> ValidEntries(SortBy(NameOf, es))
    ensures ok ==> dirMeta.Valid() && dirMeta.content == old(dirMeta.content) + EncodeListing(SortBy(NameOf, es))
    ensures ok ==> start == BlockOf(dirMeta.comp, old(dirMeta.content)) && offset == OffsetOf(old(dirMeta.content))
    ensures ok ==> size == |EncodeListing(SortBy(NameOf, es))| % WRAP32
    ensures !ok ==> !ValidEntries(SortBy(NameOf, es)) || CanFail(dirMeta.comp)
  {
    hide SortBy, ValidEntries, EncodeListing, Full, OffsetOf, BlockOf, Frames, FieldsFit;
    var startRef;
    ghost var before := dirMeta.content;
    ok, startRef, size := WriteDirListing(dirMeta, es);
    start, offset := 0, 0;
    if !ok {
      NamesRefused(es);
      return;
    }
    ghost var all := before + EncodeListing(SortBy(NameOf, es));
    RefBlock(dirMeta.comp, all, |before|);
    assert all[..|before|] == before;
    start := dirMeta.BlockByteOffset(startRef.blockIdx);
    offset := startRef.offset;
  }

  lemma NamesRefused(es: seq<DirEntry>)
    ensures (exists e :: e in es && !NameOk(e)) ==> !ValidEntries(SortBy(NameOf, es))
  {
    var sorted := SortBy(NameOf, es);
    SameElements(sorted, es);
    if e :| e in es && !NameOk(e) {
      assert e in sorted;
      var i :| 0 <= i < |sorted| && sorted[i] == e;
      assert !ValidEntry(sorted[i]);
    }
  }

  /** `es` already collected, the rest still to come. */
  ghost function Prefixed(es: seq<DirEntry>, rest: Option<seq<DirEntry>>): Option<seq<DirEntry>> {
    if rest.None? then None else Some(es + rest.value)
  }

  lemma Unprefixed(rest: Option<seq<DirEntry>>)
    ensures rest == Prefixed([], rest)
  {
    if rest.Some? { assert [] + rest.value == rest.value; }
  }

  lemma Reprefix(es: seq<DirEntry>, e: DirEntry, rest: Option<seq<DirEntry>>)
    ensures Prefixed(es, if rest.None? then None else Some([e] + rest.value)) == Prefixed(es + [e], rest)
  {
    if rest.Some? { Assoc(es, [e], rest.value); }
  }
}

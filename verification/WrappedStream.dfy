/** A stream of Create calls that Close accepts and whose root directory does not read back: one file and so many
    hardlinks to it that the length of the root's listing wraps around. */
module WrappedStream {
  import opened Bytes
  import opened Blocks
  import opened Names
  import opened MetaStream
  import opened Inodes
  import opened Listing
  import opened Paths
  import opened Tree
  import opened IdTable
  import opened Entries
  import opened Layout
  import opened Image
  import opened Region
  import opened Streaming
  import opened Finalize
  import opened WrittenImage
  import opened Consequences
  import opened ImageWriter
  import opened RoundTrip
  import LongListings
  import Reader

  // ---------------------------------------------------------------- names

  function Power64(k: nat): nat { if k == 0 then 1 else 64 * Power64(k - 1) }

  lemma FiveLetters()
    ensures Power64(5) == 0x4000_0000
  {
    assert Power64(1) == 64 && Power64(2) == 4096 && Power64(3) == 0x4_0000;
  }

  /** `i` in `k` letters, least significant last. */
  function Letters(k: nat, i: nat): (s: Name)
    requires i < Power64(k)
    ensures |s| == k && forall j :: 0 <= j < k ==> s[j] >= 65
  {
    if k == 0 then [] else Letters(k - 1, i / 64) + [65 + i % 64]
  }

  lemma {:induction false} LessAppend(a: Name, b: Name, x: Byte, y: Byte)
    requires |a| == |b| && (Less(a, b) || (a == b && x < y))
    ensures Less(a + [x], b + [y])
  {
    if a != [] {
      assert (a + [x])[1..] == a[1..] + [x] && (b + [y])[1..] == b[1..] + [y];
      if a[0] == b[0] { LessAppend(a[1..], b[1..], x, y); }
    }
  }

  lemma {:induction false} LettersAscend(k: nat, i: nat, j: nat)
    requires i < j < Power64(k)
    ensures Less(Letters(k, i), Letters(k, j))
  {
    hide Less;
    if i / 64 < j / 64 { LettersAscend(k - 1, i / 64, j / 64); }
    LessAppend(Letters(k - 1, i / 64), Letters(k - 1, j / 64), 65 + i % 64, 65 + j % 64);
  }

  const FILE_PATH: Path := [SLASH, 65]

  /** The path of the `i`-th hardlink. */
  function LinkPath(i: nat): Path
    requires i < Power64(5)
  {
    [SLASH] + Letters(5, i)
  }

  function LinkPaths(n: nat): (ps: seq<Path>)
    requires n <= Power64(5)
    ensures |ps| == n && forall i :: 0 <= i < n ==> ps[i] == LinkPath(i)
  {
    seq(n, i requires 0 <= i < n => LinkPath(i))
  }

  /** The file, then the links. */
  function OrderOf(n: nat): (ps: seq<Path>)
    requires n <= Power64(5)
    ensures |ps| == n + 1
  {
    [FILE_PATH] + LinkPaths(n)
  }

  lemma AtTop(p: Path, n: nat)
    requires n <= Power64(5) && p in OrderOf(n)
    ensures ValidPath(p) && Dir(p) == ROOT && IsChild(p, ROOT)
  {
    hide Power64, Letters, GoodParts, Dir;
    TopLevel(p[1..]);
    assert p == [SLASH] + p[1..];
  }

  lemma AscendsAt(n: nat, i: nat, j: nat)
    requires n <= Power64(5) && i < j <= n
    ensures Less(Base(OrderOf(n)[i]), Base(OrderOf(n)[j]))
  {
    hide Power64, Less, Base, OrderOf;
    BaseOf(n, i);
    BaseOf(n, j);
    if i > 0 { LettersAscend(5, i - 1, j - 1); } else { FileFirst(Letters(5, j - 1)); }
  }

  lemma OrderAscends(n: nat)
    requires n <= Power64(5)
    ensures Ascending(Base, OrderOf(n))
  {
    hide Power64, Less, Base, OrderOf;
    var ps := OrderOf(n);
    forall i, j | 0 <= i < j < |ps| ensures Less(Base(ps[i]), Base(ps[j])) { AscendsAt(n, i, j); }
  }

  lemma BaseOf(n: nat, i: nat)
    requires n <= Power64(5) && i <= n
    ensures Base(OrderOf(n)[i]) == if i == 0 then [65] else Letters(5, i - 1)
  {
    hide Power64, Letters, GoodParts, Dir, Base;
    var p := OrderOf(n)[i];
    TopLevel(p[1..]);
    assert p == [SLASH] + p[1..];
  }

  lemma FileFirst(s: Name)
    requires |s| == 5 && s[0] >= 65
    ensures Less([65], s)
  {
    if s[0] == 65 { assert [65][1..] == []; }
  }

  lemma OrderListed(n: nat)
    requires n <= Power64(5)
    ensures Listed(OrderOf(n))
  {
    hide Power64, Less, Letters, GoodParts, Base;
    var ps := OrderOf(n);
    OrderAscends(n);
    forall i | 0 <= i < |ps| ensures ValidPath(ps[i]) { AtTop(ps[i], n); }
    forall i, j | 0 <= i < j < |ps| ensures ps[i] != ps[j] { LessIrreflexive(Base(ps[i])); }
  }

  // ---------------------------------------------------------------- the stream

  /** A compressor that always declines. */
  const RAW: Codec := Codec(s => Incompressible, s => None)

  const CFG: Config := Config(RAW, 1, 0x1000, UNSET)

  lemma RawIsFine()
    ensures Lossless(RAW) && !CanFail(RAW) && ValidConfig(CFG)
  {
    hide Pow2;
    Pow2Values();
  }

  const FILE_ENTRY: Entry := Entry(NO_ATTRS, File(SUPER_SIZE, [], 0))

  function EntryAt(p: Path): Entry { if p == FILE_PATH then FILE_ENTRY else Entry(NO_ATTRS, Hardlink(FILE_PATH)) }

  /** The writer after the file, which stays empty, and `n` links to it. */
  function Linked(n: nat): State
    requires n <= Power64(5)
  {
    State(map p | p in OrderOf(n) :: EntryAt(p), OrderOf(n), map[FILE_PATH := []], [], None, [])
  }

  const NOTHING: State := State(map[], [], map[], [], None, [])

  lemma NewLink(n: nat)
    requires n < Power64(5)
    ensures OrderOf(n + 1) == OrderOf(n) + [LinkPath(n)] && LinkPath(n) !in OrderOf(n) && ValidPath(LinkPath(n))
    ensures FILE_PATH in OrderOf(n) && ValidPath(FILE_PATH) && LinkPath(n) != FILE_PATH
  {
    hide Power64, Letters, GoodParts, Split;
    var a, b := OrderOf(n), OrderOf(n + 1);
    assert b == a + [LinkPath(n)];
    OrderListed(n + 1);
    assert b[n + 1] in b && b[0] in b && a[0] == FILE_PATH;
    AtTop(b[n + 1], n + 1);
    AtTop(b[0], n + 1);
    forall i | 0 <= i < |a| ensures a[i] != LinkPath(n) { assert b[i] != b[n + 1]; }
  }

  lemma LinkedEntries(n: nat, p: Path)
    requires n <= Power64(5)
    ensures p in Linked(n).entries <==> p in OrderOf(n)
    ensures p in OrderOf(n) ==> Linked(n).entries[p] == EntryAt(p)
  {
    hide Power64, OrderOf, EntryAt;
  }

  /** The calls: create the file, then one link after the other; each is accepted. */
  lemma LinkCreated(n: nat)
    requires n < Power64(5)
    ensures HardlinkVerdict(Linked(n), LinkPath(n), FILE_PATH) == Ok
    ensures Creating(CFG, Linked(n), LinkPath(n), Entry(NO_ATTRS, Hardlink(FILE_PATH))) == Linked(n + 1)
  {
    hide Power64, LinkPath, OrderOf, ValidPath;
    NewLink(n);
    var p, es := LinkPath(n), Linked(n).entries[LinkPath(n) := EntryAt(LinkPath(n))];
    LinkedEntries(n, FILE_PATH);
    LinkedEntries(n, p);
    forall q ensures (q in es <==> q in Linked(n + 1).entries) && (q in es ==> es[q] == Linked(n + 1).entries[q]) {
      LinkedEntries(n, q);
      LinkedEntries(n + 1, q);
    }
    assert es == Linked(n + 1).entries;
  }

  lemma FileCreated()
    ensures Verdict(NOTHING, FILE_PATH) == Ok
    ensures Sealing(CFG, Creating(CFG, NOTHING, FILE_PATH, FILE_ENTRY)) == Linked(0)
  {
    hide GoodParts, Split;
    AtTop(FILE_PATH, 0);
    assert OrderOf(0) == [FILE_PATH];
    assert map[FILE_PATH := FILE_ENTRY] == Linked(0).entries;
  }

  lemma NothingStreams()
    ensures Streams(CFG, NOTHING) && Streaming.Closed(CFG, NOTHING)
  {
    RawIsFine();
    BlockSizeRange(CFG);
  }

  /** So it is a finished stream of entries. */
  lemma {:induction false} LinkedStreams(n: nat)
    requires n <= Power64(5)
    ensures Streams(CFG, Linked(n)) && Streaming.Closed(CFG, Linked(n))
  {
    hide Power64, Streams, Linked, LinkPath, ValidPath;
    if n == 0 {
      FileCreated();
      NothingStreams();
      assert Addable(NOTHING, FILE_PATH, FILE_ENTRY);
      AddingKeeps(CFG, NOTHING, FILE_PATH, FILE_ENTRY);
      SealingKeeps(CFG, Adding(NOTHING, FILE_PATH, FILE_ENTRY));
    } else {
      LinkedStreams(n - 1);
      LinkCreated(n - 1);
      LinkAddable(n - 1);
      AddingKeeps(CFG, Linked(n - 1), LinkPath(n - 1), Entry(NO_ATTRS, Hardlink(FILE_PATH)));
      StillClosed(n);
    }
  }

  lemma LinkAddable(n: nat)
    requires n < Power64(5)
    ensures Addable(Linked(n), LinkPath(n), Entry(NO_ATTRS, Hardlink(FILE_PATH)))
    ensures Sealing(CFG, Linked(n)) == Linked(n)
  {
    hide Power64, LinkPath, OrderOf, ValidPath;
    NewLink(n);
    LinkedEntries(n, LinkPath(n));
  }

  lemma StillClosed(n: nat)
    requires n <= Power64(5) && Streams(CFG, Linked(n))
    ensures Streaming.Closed(CFG, Linked(n))
  {
    hide Power64, OrderOf, ValidConfig, Shaped, FinishedUpTo, DataOf;
  }

  // ---------------------------------------------------------------- tree and ids

  lemma {:induction false} AllChildren(ps: seq<Path>, d: Path)
    requires forall p :: p in ps ==> IsChild(p, d)
    ensures ChildrenOf(ps, d) == ps
  {
    hide IsChild;
    if ps != [] {
      assert ps[0] in ps;
      AllChildren(ps[1..], d);
      assert ps == [ps[0]] + ps[1..];
    }
  }

  /** Everything lies in the root, in name order. */
  lemma RootKids(n: nat)
    requires n <= Power64(5)
    ensures Kids(OrderOf(n), ROOT) == OrderOf(n)
  {
    hide Power64, OrderOf, IsChild, Base;
    forall p | p in OrderOf(n) ensures IsChild(p, ROOT) { AtTop(p, n); }
    AllChildren(OrderOf(n), ROOT);
    OrderAscends(n);
    SortByFixed(Base, OrderOf(n));
  }

  lemma {:induction false} LinksSkipped(entries: map<Path, Entry>, ps: seq<Path>, t: Ids)
    requires forall p :: p in ps ==> p in entries && entries[p].kind.Hardlink?
    ensures InternAll(entries, ps, t) == Some(t)
  {
    if ps != [] {
      assert ps[0] in ps;
      LinksSkipped(entries, ps[1..], t);
    }
  }

  ghost function AllEntries(n: nat): map<Path, Entry>
    requires n <= Power64(5)
  {
    WithRoot(CFG, Linked(n).entries)
  }

  lemma RootedEntries(n: nat, p: Path)
    requires n <= Power64(5)
    ensures p in AllEntries(n) <==> p == ROOT || p in OrderOf(n)
    ensures p in OrderOf(n) ==> p != ROOT && AllEntries(n)[p] == EntryAt(p)
    ensures p in LinkPaths(n) ==> p in OrderOf(n) && p != FILE_PATH
  {
    hide Power64, EntryAt, Letters, GoodParts, Split;
    LinkedEntries(n, p);
    if p in OrderOf(n) { AtTop(p, n); }
    if p in LinkPaths(n) {
      var i :| 0 <= i < n && LinkPaths(n)[i] == p;
      assert OrderOf(n)[i + 1] == p;
    }
  }

  lemma IdsFit(n: nat)
    requires n <= Power64(5)
    ensures IdsOf(AllEntries(n), OrderOf(n)).Some?
  {
    hide Power64, LinkPath, InternId;
    var es, ps := AllEntries(n), OrderOf(n);
    RootedEntries(n, FILE_PATH);
    assert ps[0] == FILE_PATH && ps[1..] == LinkPaths(n) && FILE_PATH in ps;
    forall p | p in LinkPaths(n) ensures p in es && es[p].kind.Hardlink? { RootedEntries(n, p); }
    OneFits(es, FILE_PATH, NO_IDS);
    var t := InternOne(es, FILE_PATH, NO_IDS).value;
    LinksSkipped(es, ps[1..], t);
    OneFits(es, ROOT, t);
  }

  lemma OneFits(entries: map<Path, Entry>, p: Path, t: Ids)
    requires p in entries && |t.list| + 2 <= MAX_IDS
    ensures InternOne(entries, p, t).Some? && |InternOne(entries, p, t).value.list| <= |t.list| + 2
  {
  }

  lemma TreeFits(n: nat)
    requires n <= Power64(5)
    ensures TreeOk(AllEntries(n), OrderOf(n))
  {
    hide Power64, OrderOf, Linked;
    var ps := OrderOf(n);
    forall i | 0 <= i < |ps|
      ensures ps[i] != [] && ps[i][0] == SLASH && Dir(ps[i]) in AllEntries(n) &&
              AllEntries(n)[Dir(ps[i])].kind.Directory?
    {
      assert ps[i] in ps;
      AtTop(ps[i], n);
    }
  }

  lemma LinkedFinalizable(n: nat)
    requires n <= Power64(5)
    ensures Finalizable(CFG, Linked(n))
  {
    hide Power64, Streams, Streaming.Closed, TreeOk, IdsOf, Listed;
    FiveLetters();
    LinkedStreams(n);
    OrderListed(n);
    TreeFits(n);
    IdsFit(n);
  }

  // ---------------------------------------------------------------- the tables

  ghost function CtxOf(n: nat): (x: Ctx)
    requires n <= Power64(5)
    ensures x.cfg == CFG && x.order == OrderOf(n) && x.entries == AllEntries(n) && Ready(x)
  {
    LinkedFinalizable(n);
    ContextReady(CFG, Linked(n));
    ContextOf(CFG, Linked(n))
  }

  /** A table in which the file's inode comes first. */
  ghost predicate FileAtStart(t: Tables) { FILE_PATH in t.pos && t.pos[FILE_PATH] == 0 }

  /** What a directory entry for any of the paths says. */
  ghost function Quoted(x: Ctx, p: Path): DirEntry
    requires FILE_PATH in x.ino
  {
    DirEntry(Base(p), x.ino[FILE_PATH], 0, 0, FILE)
  }

  lemma NoBytes(c: Codec)
    ensures BlockOf(c, []) == 0 && OffsetOf([]) == 0
  {
  }

  lemma FileOwner(n: nat)
    requires n <= Power64(5)
    ensures var x := CtxOf(n);
            Owner(x, FILE_PATH) && !IsDir(x, FILE_PATH) && Assigned(x, FILE_PATH) && x.entries[FILE_PATH] == FILE_ENTRY
    ensures var x := CtxOf(n); IsDir(x, ROOT) && Assigned(x, ROOT) && x.entries[ROOT] == RootEntry(CFG)
  {
    hide Power64, Assigned, Linked, Dir, LinkPath, ValidKind, GoodParts;
    var x := CtxOf(n);
    assert OrderOf(n)[0] == FILE_PATH && FILE_PATH in OrderOf(n);
    RootedEntries(n, FILE_PATH);
    assert Owner(x, FILE_PATH) && Owner(x, ROOT);
  }

  lemma FileNumbered(n: nat)
    requires n <= Power64(5)
    ensures FILE_PATH in CtxOf(n).ino
  {
    hide Power64, OrderOf, CtxOf, Ready;
    FileOwner(n);
  }

  lemma EntryIs(n: nat, t: Tables, p: Path)
    requires n <= Power64(5) && FileAtStart(t) && p in OrderOf(n)
    ensures FILE_PATH in CtxOf(n).ino && EntryOf(CtxOf(n), t, p) == Some(Quoted(CtxOf(n), p))
  {
    hide Power64, OrderOf, Linked, Base, BlockOf, OffsetOf, Ready;
    FileOwner(n);
    RootedEntries(n, p);
    NoBytes(RAW);
    assert t.inodes[..0] == [];
  }

  lemma {:induction false} EntriesAre(n: nat, t: Tables, cs: seq<Path>)
    requires n <= Power64(5) && FileAtStart(t) && forall p :: p in cs ==> p in OrderOf(n)
    ensures FILE_PATH in CtxOf(n).ino && EntriesOf(CtxOf(n), t, cs).Some?
    ensures forall i :: 0 <= i < |cs| ==> EntriesOf(CtxOf(n), t, cs).value[i] == Quoted(CtxOf(n), cs[i])
  {
    hide Power64, OrderOf, CtxOf, EntryOf, Quoted, Ready, FileAtStart;
    FileNumbered(n);
    if cs != [] {
      assert cs[0] in cs;
      EntryIs(n, t, cs[0]);
      EntriesAre(n, t, cs[1..]);
    }
  }

  // ---------------------------------------------------------------- how long the listing is

  /** Names for one file. */
  ghost predicate Alike(es: seq<DirEntry>) {
    forall i :: 0 <= i < |es| ==> es[i].ino == es[0].ino && es[i].blockByte == es[0].blockByte
  }

  lemma {:induction false} AlikeHeaders(es: seq<DirEntry>, groups: nat)
    requires Alike(es) && |es| == 256 * groups
    ensures HeaderCount(es) == groups
    decreases groups
  {
    if groups > 0 {
      assert FirstRun(es) == 256 by {
        if FirstRun(es) < 256 { assert Joins(es[0], es[FirstRun(es)]); }
      }
      AlikeHeaders(es[256..], groups - 1);
    }
  }

  lemma {:induction false} FiveLetterBytes(es: seq<DirEntry>)
    requires forall i :: 0 <= i < |es| ==> |es[i].name| == 5
    ensures EntryBytes(es) == 13 * |es|
  {
    if es != [] { FiveLetterBytes(es[1..]); }
  }

  /** The entries of the root. */
  ghost function RootEntries(n: nat, t: Tables): (es: seq<DirEntry>)
    requires n <= Power64(5) && FileAtStart(t)
    ensures EntriesOf(CtxOf(n), t, OrderOf(n)) == Some(es) && |es| == n + 1
  {
    EntriesAre(n, t, OrderOf(n));
    EntriesOf(CtxOf(n), t, OrderOf(n)).value
  }

  lemma RootEntriesAre(n: nat, t: Tables)
    requires n <= Power64(5) && FileAtStart(t)
    ensures var es := RootEntries(n, t); ValidEntries(es) && Ascending(NameOf, es) && Alike(es)
    ensures var es := RootEntries(n, t); |es[0].name| == 1 && forall i :: 0 < i < |es| ==> |es[i].name| == 5
  {
    hide Power64, OrderOf, CtxOf, Letters, Base, Less, Ready;
    var es := RootEntries(n, t);
    EntriesAre(n, t, OrderOf(n));
    FileOwner(n);
    forall i | 0 <= i < |es| ensures |es[i].name| == (if i == 0 then 1 else 5) && ValidEntry(es[i]) { BaseOf(n, i); }
    forall i, j | 0 <= i < j < |es| ensures Less(NameOf(es[i]), NameOf(es[j])) { AscendsAt(n, i, j); }
  }

  lemma AlikeListing(es: seq<DirEntry>, groups: nat)
    requires ValidEntries(es) && Alike(es) && |es| == 256 * groups && groups > 0
    requires |es[0].name| == 1 && forall i :: 0 < i < |es| ==> |es[i].name| == 5
    ensures |EncodeListing(es)| == 3340 * groups - 4
  {
    hide EncodeListing, HeaderCount, ValidEntries;
    AlikeHeaders(es, groups);
    FiveLetterBytes(es[1..]);
    ListingBytes(es);
  }

  lemma RootListing(n: nat, groups: nat, t: Tables)
    requires n + 1 == 256 * groups && n <= Power64(5) && FileAtStart(t)
    ensures var es := RootEntries(n, t); ValidEntries(es) && |EncodeListing(es)| == 3340 * groups - 4
  {
    hide Power64, RootEntries, EncodeListing, ValidEntries, Ascending, Alike, FileAtStart, Ready, CtxOf, OrderOf;
    RootEntriesAre(n, t);
    AlikeListing(RootEntries(n, t), groups);
  }

  // ---------------------------------------------------------------- both passes

  lemma FileInodeFits(n: nat)
    requires n <= Power64(5)
    ensures var x := CtxOf(n); FILE_PATH in x.entries && Assigned(x, FILE_PATH) && LeafInode(x, FILE_PATH).Some?
    ensures |Encode(LeafInode(CtxOf(n), FILE_PATH).value)| == 32
  {
    hide Power64, OrderOf, CtxOf, Assigned, Ready;
    FileOwner(n);
  }

  lemma {:induction false} NoLeaves(x: Ctx, ps: seq<Path>, t: Tables)
    requires forall p :: p in ps ==> !IsLeaf(x, p)
    ensures PutLeaves(x, ps, t) == Some(t)
  {
    hide IsLeaf;
    if ps != [] {
      assert ps[0] in ps;
      NoLeaves(x, ps[1..], t);
    }
  }

  lemma {:induction false} NoDirs(x: Ctx, f: Forest, t: Tables)
    requires forall p :: p in Tops(f) ==> !IsDir(x, p)
    ensures PutDirs(x, f, t) == Some(t)
  {
    hide IsDir, PutDir;
    if f.Cons? {
      assert f.path in Tops(f);
      forall p | p in Tops(f.rest) ensures p in Tops(f) { }
      NoDirs(x, f.rest, t);
    }
  }

  /** The first pass writes the file's inode and nothing else. */
  lemma LeafPass(n: nat)
    requires n <= Power64(5)
    ensures var x := CtxOf(n);
            && PutLeaves(x, x.order, EMPTY).Some?
            && var t := PutLeaves(x, x.order, EMPTY).value; FileAtStart(t) && |t.inodes| == 32 && t.dirs == []
  {
    hide Power64, LinkPath, CtxOf, LeafInode, Encode, Assigned, Linked;
    var x, ps := CtxOf(n), OrderOf(n);
    FileOwner(n);
    FileInodeFits(n);
    assert ps[0] == FILE_PATH && ps[1..] == LinkPaths(n);
    forall p | p in LinkPaths(n) ensures !IsLeaf(x, p) { RootedEntries(n, p); }
    var t := PutLeaf(x, FILE_PATH, EMPTY).value;
    NoLeaves(x, ps[1..], t);
    assert [] + Encode(LeafInode(x, FILE_PATH).value) == Encode(LeafInode(x, FILE_PATH).value);
  }

  /** The second pass writes the root's listing, if its size field is small enough, and the root's inode. */
  lemma DirPass(n: nat, t: Tables)
    requires n <= Power64(5) && FileAtStart(t) && t.dirs == [] && ValidEntries(RootEntries(n, t))
    requires ListSize(|EncodeListing(RootEntries(n, t))|) <= 0xFFFF
    ensures var x := CtxOf(n);
            && PutDir(x, ROOT, x.order, t).Some?
            && var t' := PutDir(x, ROOT, x.order, t).value;
               FileAtStart(t') && |t'.inodes| == |t.inodes| + 32 && |t'.dirs| == |EncodeListing(RootEntries(n, t))|
  {
    hide Power64, OrderOf, CtxOf, EntriesOf, EncodeListing, ValidEntries, BlockOf, OffsetOf, Assigned, EntryMtime,
      Encode, Ascending, Ready, RootEntries, CommonOf;
    var x, es := CtxOf(n), RootEntries(n, t);
    FileOwner(n);
    RootEntriesAre(n, t);
    SortByFixed(NameOf, es);
    NoBytes(RAW);
    assert EntryMtime(CFG, RootEntry(CFG).attrs) == Some(0) by { RootTime(); }
    DirBytes32(DirInodeOf(x, ROOT, 0, [], |EncodeListing(es)|));
    assert [] + EncodeListing(es) == EncodeListing(es);
  }

  lemma RootTime()
    ensures EntryMtime(CFG, RootEntry(CFG).attrs) == Some(0)
  {
  }

  lemma DirBytes32(i: Inode)
    requires i.DirInode?
    ensures |Encode(i)| == 32
  {
  }

  /** Below the root there is nothing to do for it. */
  lemma OnlyRoot(n: nat, t: Tables)
    requires n <= Power64(5)
    ensures var x := CtxOf(n); Listed(x.order) && PutDirs(x, Whole(x.order), t) == PutDir(x, ROOT, x.order, t)
  {
    hide Power64, OrderOf, CtxOf, PutDir, Kids, Listed, Ready;
    OrderListed(n);
    var x := CtxOf(n);
    FileOwner(n);
    RootKids(n);
    KidsBelow(x.order, ROOT);
    var k := Build(x.order, ROOT, Kids(x.order, ROOT));
    BuildShape(x.order, ROOT, Kids(x.order, ROOT));
    assert Whole(x.order) == Cons(ROOT, k, Nil);
    forall p | p in Tops(k) ensures !IsDir(x, p) { NotADir(n, p); }
    NoDirs(x, k, t);
    RootDone(x, k, t);
  }

  lemma RootDone(x: Ctx, k: Forest, t: Tables)
    requires IsDir(x, ROOT) && PutDirs(x, k, t) == Some(t)
    ensures PutDirs(x, Cons(ROOT, k, Nil), t) == PutDir(x, ROOT, Tops(k), t)
  {
    hide PutDir;
  }

  /** Both together. */
  lemma TablesBuilt(n: nat, groups: nat)
    requires n + 1 == 256 * groups && n <= Power64(5) && ListSize(3340 * groups - 4) <= 0xFFFF
    ensures var x := CtxOf(n);
            && Listed(x.order) && BuildTables(x).Some?
            && var t := BuildTables(x).value; FileAtStart(t) && |t.inodes| == 64 && |t.dirs| == 3340 * groups - 4
  {
    hide Power64, OrderOf, CtxOf, PutLeaves, PutDir, PutDirs, FileAtStart, Listed, Ready, RootEntries, EncodeListing,
      Whole, ValidEntries;
    var x := CtxOf(n);
    LeafPass(n);
    var t := PutLeaves(x, x.order, EMPTY).value;
    RootListing(n, groups, t);
    DirPass(n, t);
    OnlyRoot(n, t);
  }

  lemma NotADir(n: nat, p: Path)
    requires n <= Power64(5) && p in OrderOf(n)
    ensures !IsDir(CtxOf(n), p)
  {
    hide Power64, OrderOf, Linked;
    RootedEntries(n, p);
  }

  // ---------------------------------------------------------------- the image

  lemma {:induction false} FullBound(c: Codec, s: seq<Byte>)
    ensures |Frames(Full(c, META, s))| + |Rem(META, s)| <= 2 * |s|
  {
    hide Store;
    if |s| >= META {
      var rest := s[META..];
      FullBound(c, rest);
      StoreShrinks(c, s[..META]);
      var b, bs := Store(c, s[..META]), Full(c, META, rest);
      assert ([b] + bs)[0] == b && ([b] + bs)[1..] == bs;
    }
  }

  /** A metadata stream is not much longer than its content. */
  lemma EmitBound(c: Codec, s: seq<Byte>)
    ensures |Emit(c, s)| <= 2 * |s| + 2
  {
    hide Full, Rem, Store;
    FullBound(c, s);
    var bs, r := Full(c, META, s), Rem(META, s);
    if r == [] {
      assert bs + [] == bs;
    } else {
      StoreShrinks(c, r);
      FramesAppend(bs, [Store(c, r)]);
      assert [Store(c, r)][1..] == [];
    }
  }

  lemma UsedBound(m: Parts)
    requires |m.data| == 0 && |m.t.inodes| <= 64 && |m.t.dirs| <= 0x2_0000_0000 && |m.ids| <= MAX_IDS
    ensures BytesUsed(m) < LIMIT48 - 0x1_0000
  {
    hide Emit, Ints, Offsets;
    EmitBound(m.cfg.codec, m.t.inodes);
    EmitBound(m.cfg.codec, m.t.dirs);
    EmitBound(m.cfg.codec, Ints(m.ids, 4));
    FewIdBlocks(m.ids);
  }

  lemma FewIdBlocks(ids: seq<nat>)
    ensures IdTable.BlockCount(ids) <= |ids|
  {
  }

  /** Close makes an image of the stream. */
  lemma LinkedCloses(n: nat)
    requires n <= Power64(5) && BuildTables(CtxOf(n)).Some?
    ensures Listed(Linked(n).order) && Finalizable(CFG, Linked(n)) && ClosedParts(CFG, Linked(n)).Some?
    ensures var m := ClosedParts(CFG, Linked(n)).value;
            && Some(m.t) == BuildTables(CtxOf(n)) && m.data == [] && m.cfg == CFG
            && CtxOf(n) == ContextOf(CFG, Linked(n))
            && |m.ids| <= MAX_IDS && m.inodeCount <= MAX32 && m.modTime <= MAX32
  {
    hide Power64, OrderOf, BuildTables, Streams, Streaming.Closed, TreeOk, IdsOf, Listed, OwnerSet, Prepared, ImageTime,
      Shaped, IdsGood, Ready;
    var s := Linked(n);
    LinkedFinalizable(n);
    assert Shaped(s) by { StreamsShaped(s); }
    WithRootShaped(CFG, s);
    OwnerCount(WithRoot(CFG, s.entries), s.order);
    IdsOfGood(CFG, s);
    IdCount(WithRoot(CFG, s.entries), IdsOf(WithRoot(CFG, s.entries), s.order).value);
  }

  lemma StreamsShaped(s: State)
    requires Streams(CFG, s)
    ensures Shaped(s)
  {
  }

  /** The listing of the root in the finished tables. */
  lemma RootLength(n: nat, groups: nat, t: Tables)
    requires n + 1 == 256 * groups && n <= Power64(5) && FileAtStart(t)
    ensures ListingLen(CtxOf(n), t, ROOT) == 3340 * groups - 4
  {
    hide Power64, OrderOf, CtxOf, Kids, EntriesOf, EncodeListing, ValidEntries, FileAtStart, Ready;
    RootKids(n);
    RootListing(n, groups, t);
  }

  const GROUPS: nat := 1285919

  /** 329195263 hardlinks to one file, created after it in the root: Close has an image for this stream, which any
      sink of less than 2^48 bytes with room for it takes; the root's listing takes 2^32 + 2160 bytes, its size
      field says 2163, and a reader does not get the listing back. */
  lemma WrappedDirectory()
    ensures 256 * GROUPS <= Power64(5)
    ensures var s := Linked(256 * GROUPS - 1);
            && Streams(CFG, s) && !CanFail(CFG.codec) && Lossless(CFG.codec) && Finalizable(CFG, s)
            && ClosedParts(CFG, s).Some?
            && var x, m := ContextOf(CFG, s), ClosedParts(CFG, s).value;
            && Packed(x, m) && HasRoot(m) && |ImageOf(m)| < LIMIT48 && Layout.IsDir(x, ROOT)
            && ListingLen(x, m.t, ROOT) == WRAP32 + 2160 && ListSize(ListingLen(x, m.t, ROOT)) == 2163
            && InodeFor(x, m.t, ROOT).Some? && InodeFor(x, m.t, ROOT).value.DirInode?
            && Reader.ReadListing(CFG.codec, ImageOf(m), SuperOf(m), InodeFor(x, m.t, ROOT).value) !=
               ListingOf(x, m.t, ROOT)
  {
    hide Power64, Linked, OrderOf, CtxOf, BuildTables, Finalizable, ClosedParts, BytesUsed, ImageOf, SuperOf, InodeFor,
      ListingLen, ListingOf, Reader.ReadListing, Lossless, CanFail, Ready, FileAtStart, ContextOf;
    FiveLetters();
    RawIsFine();
    var n := 256 * GROUPS - 1;
    TablesBuilt(n, GROUPS);
    LinkedCloses(n);
    LinkedStreams(n);
    FileOwner(n);
    var s := Linked(n);
    var x, m := CtxOf(n), ClosedParts(CFG, s).value;
    UsedBound(m);
    assert Packed(x, m);
    RootLength(n, GROUPS, m.t);
    LongListings.ReadsIffShort(x, m, ROOT);
    ImageLength(m);
    PaddingSmall(BytesUsed(m));
  }

  lemma PaddingSmall(n: nat)
    ensures |Padding(n)| < 0x1_0000
  {
  }
}

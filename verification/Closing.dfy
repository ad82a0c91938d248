/** Close up to the point where bytes are emitted: all passes, and both table streams flushed. */
module Closing {
  import opened Bytes
  import opened Blocks
  import opened MetaStream
  import opened Paths
  import opened Tree
  import opened IdTable
  import opened Entries
  import opened Layout
  import opened Image
  import opened Streaming
  import opened Finalize
  import opened Passes
  import opened TableWriter
  import opened WrittenImage

  /** Link counts as the encoders use them: a file's is never written. */
  function EncodedCounts(entries: map<Path, Entry>, nlinks: map<Path, nat>): map<Path, nat> {
    map p | p in entries :: if entries[p].kind.File? || entries[p].kind.Hardlink? || p !in nlinks then 1 else nlinks[p]
  }

  /** Whatever order the map was walked in, what is encoded are the specified counts. */
  lemma CountsAre(entries: map<Path, Entry>, order: seq<Path>, nlinks: map<Path, nat>)
    requires forall p :: p in entries && !entries[p].kind.Hardlink? && !entries[p].kind.File? ==>
               p in nlinks && nlinks[p] == LinkCount(entries, order, p)
    ensures EncodedCounts(entries, nlinks) == LinkCounts(entries, order)
  {
    hide CountDirs, Kids;
    var a, b := EncodedCounts(entries, nlinks), LinkCounts(entries, order);
    forall p ensures (p in a <==> p in b) && (p in a ==> a[p] == b[p]) {
    }
  }

  lemma StreamFacts(cfg: Config, s: State)
    requires Streams(cfg, s)
    ensures Listed(s.order) && ROOT in WithRoot(cfg, s.entries) && forall p :: p in s.order ==>
            p in WithRoot(cfg, s.entries)
  {
    hide ValidConfig, Listed, ValidKind;
    forall p | p in s.order ensures p in s.entries { assert ShapedAt(s, p); }
  }

  lemma LinkTargets(cfg: Config, s: State)
    requires Shaped(s) && TreeOk(WithRoot(cfg, s.entries), s.order)
    ensures TargetsAreFiles(WithRoot(cfg, s.entries))
  {
    hide ValidKind, Listed, TreeOk;
    WithRootShaped(cfg, s);
    var es := WithRoot(cfg, s.entries);
    forall p | p in es && es[p].kind.Hardlink? ensures es[p].kind.link in es && es[es[p].kind.link].kind.File? {
      assert ShapedAt(s, p) && ShapedAt(s, es[p].kind.link);
    }
  }

  /** The finalization fields of every entry, or nothing when the tree is broken or ids run out. */
  method PrepareEntries(cfg: Config, entries: map<Path, Entry>, order: seq<Path>, ghost s: State)
    returns (ok: bool, root: Forest, x: Ctx, ids: Table)
    requires Streams(cfg, s) && Streaming.Closed(cfg, s) && |s.order| <= MAX_ENTRIES
    requires order == s.order && entries == WithRoot(cfg, s.entries)
    ensures fresh(ids) && Listed(s.order)
    ensures ok ==> Finalizable(cfg, s) && x == ContextOf(cfg, s) && root == Whole(order)
    ensures ok ==> IdsOf(entries, order).value.list == ids.list
    ensures !ok ==> ClosedParts(cfg, s) == None
  {
    hide Streams, Streaming.Closed, Listed, TreeOk, IdsOf, Whole, BuildTables, Table.Valid, Numbers, Parents,
      LinkCounts, EncodedCounts, ImageTime;
    StreamFacts(cfg, s);
    ids := new Table();
    x := Ctx(cfg, entries, order, map[], map[], map[], map[], map[]);
    ok, root := BuildTree(entries, order);
    if !ok {
      return;
    }
    assert Shaped(s) by { ShapedOf(cfg, s); }
    WithRootShaped(cfg, s);
    LinkTargets(cfg, s);
    var marks := new Marks();
    marks.AssignInodeNumbers(root, entries, order);
    var links := new LinkMarks();
    ghost var _ := links.ComputeLinkCounts(root, entries, order);
    CountsAre(entries, order, links.nlinks);
    var uid, gid;
    ok, uid, gid := InternIDs(entries, order, ids);
    x := Ctx(cfg, entries, order, marks.inodeNumber, marks.parentInode, EncodedCounts(entries, links.nlinks), uid, gid);
  }

  /** Both streams flushed, holding exactly the specified tables. */
  ghost predicate TablesDone(tab: Tabler, codec: Codec)
    reads tab, tab.inodeMeta, tab.dirMeta
  {
    && tab.inodeMeta.Flushed() && tab.inodeMeta.comp == codec && tab.inodeMeta.content == tab.t.inodes
    && tab.dirMeta.Flushed() && tab.dirMeta.comp == codec && tab.dirMeta.content == tab.t.dirs
    && tab.x.cfg.codec == codec && RefsOk(tab.x, tab.t, tab.inodeRef)
  }

  /** Everything Close does before it emits the tables. */
  method PrepareTables(cfg: Config, entries: map<Path, Entry>, order: seq<Path>, ghost s: State)
    returns (ok: bool, tab: Tabler?, ids: Table)
    requires Streams(cfg, s) && Streaming.Closed(cfg, s) && |s.order| <= MAX_ENTRIES
    requires order == s.order && entries == WithRoot(cfg, s.entries)
    ensures Listed(s.order)
    ensures ok ==> tab != null && TablesDone(tab, cfg.codec) && Finalizable(cfg, s)
    ensures ok ==> ClosedParts(cfg, s) == Some(Parts(cfg, s.data, tab.t, ids.list, |OwnerSet(entries)|,
                                                     ImageTime(cfg, entries, order)))
    ensures ok ==> ROOT in tab.t.pos
    ensures !ok ==> ClosedParts(cfg, s) == None || CanFail(cfg.codec)
  {
    hide Streams, Streaming.Closed, Listed, TreeOk, IdsOf, Whole, BuildTables, Numbers, Parents, LinkCounts, ImageTime,
      Ready, OwnerSet, RefsOk, Sealed, Full, Rem;
    var root, x;
    tab := null;
    ok, root, x, ids := PrepareEntries(cfg, entries, order, s);
    if !ok {
      return;
    }
    ContextReady(cfg, s);
    tab := new Tabler(x);
    ok := tab.WriteTables(root);
    if !ok {
      return;
    }
    RootPlaced(x);
    ok := tab.inodeMeta.Flush();
    if !ok {
      return;
    }
    ok := tab.dirMeta.Flush();
  }

  lemma RootPlaced(x: Ctx)
    requires Listed(x.order) && BuildTables(x).Some? && Layout.IsDir(x, ROOT)
    ensures ROOT in BuildTables(x).value.pos
  {
    hide PutLeaves, PutDirs, Listed, Build, Kids;
    PutDirsCovers(x, Whole(x.order), PutLeaves(x, x.order, EMPTY).value);
    assert ROOT in Tops(Whole(x.order)) by { TopsWhole(x.order); }
  }

  /** A reference resolved after the flush still gives its block's offset. */
  lemma FlushedRef(c: Codec, s: seq<Byte>, at: nat)
    requires at <= |s|
    ensures |Full(c, META, s[..at])| <= |Sealed(c, META, s)|
    ensures |Frames(Sealed(c, META, s)[..|Full(c, META, s[..at])|])| == BlockOf(c, s[..at])
  {
    hide Full, Rem, Frames;
    RefBlock(c, s, at);
    var k := |Full(c, META, s[..at])|;
    assert Sealed(c, META, s)[..k] == Full(c, META, s)[..k];
  }

  lemma ShapedOf(cfg: Config, s: State)
    requires Streams(cfg, s)
    ensures Shaped(s)
  {
  }
}

/** What Close writes reads back as what was created, for every stream of Create calls. */
module WrittenImage {
  import opened Bytes
  import opened Blocks
  import opened FileData
  import opened Paths
  import opened Tree
  import opened Numbering
  import opened IdTable
  import opened Inodes
  import opened Entries
  import opened Layout
  import opened Image
  import opened Region
  import opened Streaming
  import opened Finalize
  import opened Reader
  import RoundTrip
  import ImageTheorem

  /** A finished stream of entries whose tree is closed and whose ids fit: the table passes can start. */
  ghost predicate Finalizable(cfg: Config, s: State) {
    && Streams(cfg, s) && Streaming.Closed(cfg, s) && |s.order| <= MAX_ENTRIES && Listed(s.order)
    && TreeOk(WithRoot(cfg, s.entries), s.order) && IdsOf(WithRoot(cfg, s.entries), s.order).Some?
  }

  /** A finished stream of entries that Close accepts, without a listing whose length needs more than 32 bits. */
  ghost predicate ShortListings(cfg: Config, s: State) {
    Finalizable(cfg, s) && ClosedParts(cfg, s).Some? && Unwrapped(ContextOf(cfg, s), ClosedParts(cfg, s).value.t)
  }

  ghost predicate Accepted(cfg: Config, s: State) { Lossless(cfg.codec) && ShortListings(cfg, s) }

  lemma RootNotListed(order: seq<Path>)
    requires Listed(order)
    ensures ROOT !in order
  {
    hide GoodParts;
  }

  lemma WithRootShaped(cfg: Config, s: State)
    requires Shaped(s) && TreeOk(WithRoot(cfg, s.entries), s.order)
    ensures EntriesShaped(WithRoot(cfg, s.entries), s.order)
    ensures forall p :: p in s.order ==> p != ROOT && p in s.entries && WithRoot(cfg, s.entries)[p] == s.entries[p]
  {
    hide ValidPath, TreeOk, ValidKind, ValidAttrs;
    RootNotListed(s.order);
    var es := WithRoot(cfg, s.entries);
    forall p ensures p in es <==> p == ROOT || p in s.order {
      assert ShapedAt(s, p);
    }
    forall p | p in s.order ensures p != ROOT && p in s.entries && es[p] == s.entries[p] {
      assert ShapedAt(s, p);
    }
  }

  /** Every entry's kind is well formed; files record what streaming produced. */
  lemma KindsValid(cfg: Config, s: State, p: Path)
    requires Streams(cfg, s) && Streaming.Closed(cfg, s) && p in s.order
    ensures p in s.entries && ValidKind(s.entries[p].kind)
  {
    hide ValidConfig, Sealed, Words, Listed, StartOf, DataOf;
    assert ShapedAt(s, p);
    if p in s.contents {
      var i :| 0 <= i < |s.order| && s.order[i] == p;
      BlockSizeRange(cfg);
      FileData.BlockCount(cfg.codec, cfg.blockSize, s.contents[p]);
      Spans();
    }
  }

  lemma FilePlaced(cfg: Config, s: State, p: Path)
    requires Streams(cfg, s) && Streaming.Closed(cfg, s) && p in s.contents
    ensures p in s.entries && RoundTrip.Extent(cfg, s.data, s.entries[p].kind, s.contents[p])
  {
    hide ValidConfig, Sealed, Words, Listed, DataOf, Disk;
    assert ShapedAt(s, p);
    var i :| 0 <= i < |s.order| && s.order[i] == p;
    ExtentsTile(cfg.codec, cfg.blockSize, s.contents, s.order, i);
  }

  /** Numbers, parents and link counts are assigned to every owner and fit 32 bits. */
  lemma NumbersFit(entries: map<Path, Entry>, order: seq<Path>, p: Path)
    requires EntriesShaped(entries, order) && |order| <= MAX_ENTRIES && p in OwnerSet(entries)
    ensures p in Numbers(order, Links(entries)) && U32(Numbers(order, Links(entries))[p])
    ensures p in Parents(order, Links(entries)) && U32(Parents(order, Links(entries))[p])
    ensures p in LinkCounts(entries, order) && U32(LinkCounts(entries, order)[p])
  {
    hide Owners, Whole, Kids, OwnerSet, Dir, TreeOk, Idx;
    OwnerCount(entries, order);
    NumberBijection(order, Links(entries));
    KidsFew(order, p);
    assert p in entries by { OwnerIn(entries, p); }
  }

  lemma OwnerIn(entries: map<Path, Entry>, p: Path)
    requires p in OwnerSet(entries)
    ensures p in entries && !entries[p].kind.Hardlink?
  {
  }

  lemma IdsOfGood(cfg: Config, s: State)
    requires Shaped(s) && TreeOk(WithRoot(cfg, s.entries), s.order) && IdsOf(WithRoot(cfg, s.entries), s.order).Some?
    ensures var t := IdsOf(WithRoot(cfg, s.entries), s.order).value;
            IdsGood(WithRoot(cfg, s.entries), t) && forall p :: p in OwnerSet(WithRoot(cfg, s.entries)) ==> p in t.uid
  {
    hide ValidKind, TreeOk, InternAll, InternOne, IdsGood, Listed;
    var es := WithRoot(cfg, s.entries);
    WithRootShaped(cfg, s);
    assert IdsGood(es, NO_IDS) by { NoIdsGood(es); }
    forall p | p in s.order && p in es ensures ValidAttrs(es[p].attrs) {
      assert ShapedAt(s, p);
    }
    InternAllGood(es, s.order, NO_IDS);
    InternOneGood(es, ROOT, InternAll(es, s.order, NO_IDS).value);
  }

  lemma NoIdsGood(entries: map<Path, Entry>)
    ensures IdsGood(entries, NO_IDS)
  {
  }

  lemma OwnerReady(cfg: Config, s: State, p: Path)
    requires Finalizable(cfg, s) && Owner(ContextOf(cfg, s), p)
    ensures Assigned(ContextOf(cfg, s), p)
    ensures var t := IdsOf(WithRoot(cfg, s.entries), s.order).value;
            && IdsGood(WithRoot(cfg, s.entries), t) && p in t.uid && p in t.gid
  {
    hide ValidConfig, Listed, Numbers, Parents, LinkCounts, IdsOf, Links, Streaming.Closed;
    var es := WithRoot(cfg, s.entries);
    WithRootShaped(cfg, s);
    IdsOfGood(cfg, s);
    assert p in OwnerSet(es);
    NumbersFit(es, s.order, p);
  }

  lemma EntryReady(cfg: Config, s: State, p: Path)
    requires Finalizable(cfg, s) && p in WithRoot(cfg, s.entries)
    ensures var es := WithRoot(cfg, s.entries);
            && ValidKind(es[p].kind)
            && (es[p].kind.Hardlink? ==> es[p].kind.link in es && es[es[p].kind.link].kind.File?)
            && (es[p].kind.File? ==> p in s.contents && RoundTrip.Extent(cfg, s.data, es[p].kind, s.contents[p]))
  {
    hide ValidConfig, Listed, IdsOf, ValidKind, ValidAttrs, DataOf, FinishedUpTo, RoundTrip.Extent;
    WithRootShaped(cfg, s);
    assert ShapedAt(s, p);
    if p in s.order {
      KindsValid(cfg, s, p);
      if s.entries[p].kind.Hardlink? { assert ShapedAt(s, s.entries[p].kind.link); }
      if p in s.contents { FilePlaced(cfg, s, p); }
    } else {
      DirKind();
    }
  }

  lemma ParentReady(cfg: Config, s: State, p: Path)
    requires Finalizable(cfg, s) && p in s.order
    ensures Layout.IsDir(ContextOf(cfg, s), Dir(p))
  {
    hide ValidConfig, IdsOf, Streaming.Closed, Shaped, Dir;
    var i :| 0 <= i < |s.order| && s.order[i] == p;
  }

  /** The streams of a closed writer prepare the table passes. */
  lemma ContextReady(cfg: Config, s: State)
    requires Finalizable(cfg, s)
    ensures Ready(ContextOf(cfg, s))
  {
    hide Streams, Streaming.Closed, ValidKind, Numbers, Parents, LinkCounts, IdsOf, Dir, Links, Assigned, GoodParts;
    ContextFields(cfg, s);
    var x := ContextOf(cfg, s);
    forall p | Owner(x, p) ensures Assigned(x, p) { OwnerReady(cfg, s, p); }
    forall p | p in x.entries ensures ValidKind(x.entries[p].kind) { EntryReady(cfg, s, p); }
    forall p | p in x.entries && x.entries[p].kind.Hardlink?
      ensures Target(x, p) in x.entries && x.entries[Target(x, p)].kind.File?
    {
      EntryReady(cfg, s, p);
    }
    forall p | p in s.order ensures Layout.IsDir(x, Dir(p)) { ParentReady(cfg, s, p); }
    assert x.entries.Keys == (set p | p in s.order) + {ROOT};
  }

  lemma IdsReady(cfg: Config, s: State)
    requires Finalizable(cfg, s)
    ensures RoundTrip.IdsOk(ContextOf(cfg, s), IdsOf(WithRoot(cfg, s.entries), s.order).value.list)
  {
    hide Streams, Streaming.Closed, Numbers, Parents, LinkCounts, IdsOf, Links, Assigned, Listed;
    ContextFields(cfg, s);
    var x := ContextOf(cfg, s);
    assert Owner(x, ROOT);
    OwnerReady(cfg, s, ROOT);
    forall p | Owner(x, p) ensures p in x.uid && p in x.gid { OwnerReady(cfg, s, p); }
  }

  lemma DataReady(cfg: Config, s: State)
    requires Finalizable(cfg, s)
    ensures RoundTrip.DataOk(ContextOf(cfg, s), s.data, s.contents)
  {
    hide Streams, Streaming.Closed, Numbers, Parents, LinkCounts, IdsOf, Links, Listed, RoundTrip.Extent, ValidKind;
    ContextFields(cfg, s);
    var x := ContextOf(cfg, s);
    forall p | p in x.entries && x.entries[p].kind.File?
      ensures p in s.contents && RoundTrip.Extent(cfg, s.data, x.entries[p].kind, s.contents[p])
    {
      EntryReady(cfg, s, p);
    }
  }

  lemma DirKind()
    ensures ValidKind(Directory)
  {
  }

  /** The whole-image round trip for a closed writer: at every path, exactly what was created. */
  lemma WrittenImageReads(cfg: Config, s: State, p: Path)
    requires Accepted(cfg, s) && BytesUsed(ClosedParts(cfg, s).value) < LIMIT48
    ensures RoundTrip.HasRoot(ClosedParts(cfg, s).value)
    ensures StatPath(cfg.codec, ImageOf(ClosedParts(cfg, s).value), p)
            == ImageTheorem.StatFor(ContextOf(cfg, s), s.contents, p)
    ensures StatPath(cfg.codec, ImageOf(ClosedParts(cfg, s).value), p).Some? <==> p == ROOT || p in s.order
  {
    hide StatPath, ImageOf, ImageTheorem.StatFor, BytesUsed, BuildTables, Streams, Streaming.Closed, Listed, ImageTime,
      TreeOk, IdsOf, Prepared, Lossless, ValidConfig, RoundTrip.DataOk, RoundTrip.IdsOk, IdsGood;
    var x, m := ContextOf(cfg, s), ClosedParts(cfg, s).value;
    ContextReady(cfg, s);
    IdsReady(cfg, s);
    DataReady(cfg, s);
    CountFits(cfg, s);
    ContextFields(cfg, s);
    assert RoundTrip.Assembled(x, m);
    ImageTheorem.ReadsBack(x, m, s.contents, p);
  }

  lemma ContextFields(cfg: Config, s: State)
    requires Finalizable(cfg, s)
    ensures ContextOf(cfg, s).cfg == cfg && ValidConfig(cfg) && cfg.blockSize > 0 && Listed(s.order)
    ensures IdsOf(WithRoot(cfg, s.entries), s.order).Some?
    ensures forall p :: p in ContextOf(cfg, s).entries <==> p == ROOT || p in s.order
  {
    hide IdsOf, ValidConfig, Streaming.Closed, Listed;
    WithRootShaped(cfg, s);
  }

  lemma CountFits(cfg: Config, s: State)
    requires Accepted(cfg, s)
    ensures |ClosedParts(cfg, s).value.ids| <= MAX_IDS && ClosedParts(cfg, s).value.inodeCount <= MAX32
  {
    hide Unwrapped, BuildTables, IdsOf, ValidConfig, Streaming.Closed, Lossless, Listed, OwnerSet, IdsGood, Prepared;
    WithRootShaped(cfg, s);
    OwnerCount(WithRoot(cfg, s.entries), s.order);
    IdsOfGood(cfg, s);
    IdCount(WithRoot(cfg, s.entries), IdsOf(WithRoot(cfg, s.entries), s.order).value);
  }

  lemma IdCount(entries: map<Path, Entry>, t: Ids)
    requires IdsGood(entries, t)
    ensures |t.list| <= MAX_IDS
  {
  }
}

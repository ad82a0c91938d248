/** What follows for callers of the writer. */
module Consequences {
  import opened Blocks
  import opened FileData
  import opened Paths
  import opened Tree
  import opened Numbering
  import opened Entries
  import opened Listing
  import opened Layout
  import opened Image
  import opened Region
  import opened Streaming
  import opened Finalize
  import opened WrittenImage

  /** Same calls up to how file contents were cut into writes: same paths, same contents, same
      attributes, and the same kind for everything that is not a file. */
  ghost predicate SameCalls(s: State, s': State) {
    && s.order == s'.order && s.contents == s'.contents && s.cur == s'.cur
    && forall p :: p in s.entries && p in s'.entries ==>
         s.entries[p].attrs == s'.entries[p].attrs &&
             (!s.entries[p].kind.File? ==> s.entries[p].kind == s'.entries[p].kind)
  }

  lemma SameEntry(cfg: Config, s: State, s': State, p: Path)
    requires Streams(cfg, s) && Streams(cfg, s') && SameCalls(s, s')
    ensures p in s.entries <==> p in s'.entries
    ensures p in s.entries ==> s.entries[p] == s'.entries[p]
  {
    hide ValidConfig, Listed, DataOf, Words, Sealed, Full, Rem, Disk, ValidKind;
    assert ShapedAt(s, p) && ShapedAt(s', p);
    if p in s.contents {
      var i :| 0 <= i < |s.order| && s.order[i] == p;
    }
  }

  /** The whole writer state, emitted bytes included, depends on the contents of the files and not on
      how they were cut across Write calls. */
  lemma CutsDoNotMatter(cfg: Config, s: State, s': State)
    requires Streams(cfg, s) && Streams(cfg, s') && SameCalls(s, s')
    ensures s == s'
  {
    hide ValidConfig, Shaped, FinishedUpTo, DataOf, Words, Full, Rem, Disk, StartOf;
    forall p ensures (p in s.entries <==> p in s'.entries) && (p in s.entries ==> s.entries[p] == s'.entries[p]) {
      SameEntry(cfg, s, s', p);
    }
    assert s.entries == s'.entries;
    assert s.data == s'.data && s.buf == s'.buf;
  }

  /** Every finished file has exactly the number of block sizes its inode encoder expects, so that check
      cannot fail: a file is refused only for its time stamp, its position or its size. */
  lemma BlockCountReached(cfg: Config, s: State, p: Path)
    requires Finalizable(cfg, s) && p in s.contents
    ensures var x := ContextOf(cfg, s);
            && p in x.entries && x.entries[p].kind.File? && Assigned(x, p)
            && |x.entries[p].kind.words| == (|s.contents[p]| + cfg.blockSize - 1) / cfg.blockSize
            && (LeafInode(x, p).None? <==>
                EntryMtime(cfg, x.entries[p].attrs).None? || x.entries[p].kind.start > MAX32 || |s.contents[p]| > MAX32)
  {
    hide ValidConfig, TreeOk, IdsOf, StartOf, DataOf, Sealed, Listed, Words, EntryMtime, Assigned, Numbers, Parents,
      LinkCounts;
    ContextFields(cfg, s);
    WithRootShaped(cfg, s);
    assert ShapedAt(s, p);
    var i :| 0 <= i < |s.order| && s.order[i] == p;
    BlockSizeRange(cfg);
    FileData.BlockCount(cfg.codec, cfg.blockSize, s.contents[p]);
    OwnerReady(cfg, s, p);
  }

  /** What an inode encoder refuses: a time outside 32 bits; a file that starts or ends beyond 4 GiB or whose block
      count is off; a target of more than 65535 bytes; a device number beyond 12 and 8 bits. Nothing else. */
  lemma RefusedLeaf(x: Ctx, p: Path)
    requires x.cfg.blockSize > 0 && p in x.entries && Assigned(x, p)
    requires !x.entries[p].kind.Directory? && !x.entries[p].kind.Hardlink?
    ensures LeafInode(x, p).None? <==>
              || EntryMtime(x.cfg, x.entries[p].attrs).None?
              || match x.entries[p].kind
                 case File(start, words, size) =>
                   start > 0xFFFF_FFFF || size > 0xFFFF_FFFF ||
                       |words| != (size + x.cfg.blockSize - 1) / x.cfg.blockSize
                 case Symlink(target) => |target| > 0xFFFF
                 case CharDev(major, minor) => major > 0xFFF || minor > 0xFF
                 case BlockDev(major, minor) => major > 0xFFF || minor > 0xFF
                 case _ => false
  {
    hide Assigned, EntryMtime;
  }

  /** Bytes of the entries alone, without group headers. */
  function EntryBytes(es: seq<DirEntry>): nat {
    if es == [] then 0 else 8 + |es[0].name| + EntryBytes(es[1..])
  }

  lemma {:induction false} EntryBytesSplit(es: seq<DirEntry>, n: nat)
    requires n <= |es|
    ensures EntryBytes(es) == EntryBytes(es[..n]) + EntryBytes(es[n..])
  {
    if n == 0 {
      assert es[0..] == es;
    } else {
      EntryBytesSplit(es[1..], n - 1);
      assert es[..n][1..] == es[1..][..n - 1] && es[1..][n - 1..] == es[n..];
    }
  }

  lemma {:induction false} RunBytes(base: DirEntry, es: seq<DirEntry>)
    requires Encodable(base, es)
    ensures |EncodeRun(base, es)| == EntryBytes(es)
  {
    hide Joins;
    if es != [] { RunBytes(base, es[1..]); }
  }

  /** What grouping costs: twelve bytes per header on top of the entries. */
  lemma {:induction false} ListingBytes(es: seq<DirEntry>)
    requires ValidEntries(es)
    ensures |EncodeListing(es)| == 12 * HeaderCount(es) + EntryBytes(es)
    decreases |es|
  {
    hide FirstRun, EncodeRun, EncodeHeader, Joins, ValidEntry;
    if es != [] {
      var n := FirstRun(es);
      RunsValid(es, n);
      RunBytes(es[0], es[..n]);
      EntryBytesSplit(es, n);
      ListingBytes(es[n..]);
    }
  }

  /** Preorder numbers make inode numbers ascend along a listing without hardlinks. */
  lemma ListingAscends(cfg: Config, s: State, t: Tables, d: Path)
    requires Finalizable(cfg, s) && Layout.IsDir(ContextOf(cfg, s), d)
    requires forall c :: c in Kids(s.order, d) ==> c !in Links(WithRoot(cfg, s.entries))
    requires ListingOf(ContextOf(cfg, s), t, d).Some?
    ensures AscendingInodes(ListingOf(ContextOf(cfg, s), t, d).value)
  {
    hide Streams, Streaming.Closed, TreeOk, IdsOf, Kids, Owners, LinksAreLeaves, Whole, Listed, Tree.Closed, Number,
      EntryOf, ContextOf;
    var x, links := ContextOf(cfg, s), Links(WithRoot(cfg, s.entries));
    DirOwned(cfg, s, d);
    var cs, es := Kids(s.order, d), ListingOf(x, t, d).value;
    EntriesNamed(x, t, cs);
    forall i, j | 0 <= i < j < |es| ensures es[i].ino < es[j].ino {
      assert cs[i] in cs && cs[j] in cs;
      KidsAscend(s.order, links, d, i, j);
      EntryNumber(cfg, s, t, cs[i]);
      EntryNumber(cfg, s, t, cs[j]);
    }
  }

  lemma DirOwned(cfg: Config, s: State, d: Path)
    requires Finalizable(cfg, s) && Layout.IsDir(ContextOf(cfg, s), d)
    ensures ContextOf(cfg, s).order == s.order
    ensures Tree.Closed(s.order) && LinksAreLeaves(s.order, Links(WithRoot(cfg, s.entries)))
    ensures d in Owners(Whole(s.order), Links(WithRoot(cfg, s.entries)))
  {
    hide Streaming.Closed, IdsOf, Kids, Owners, LinksAreLeaves, Whole, Listed, Tree.Closed;
    WithRootShaped(cfg, s);
    OwnerCount(WithRoot(cfg, s.entries), s.order);
  }

  lemma EntryNumber(cfg: Config, s: State, t: Tables, c: Path)
    requires Finalizable(cfg, s) && EntryOf(ContextOf(cfg, s), t, c).Some?
    requires c !in Links(WithRoot(cfg, s.entries)) && c in Owners(Whole(s.order), Links(WithRoot(cfg, s.entries)))
    ensures EntryOf(ContextOf(cfg, s), t, c).value.ino == Number(s.order, Links(WithRoot(cfg, s.entries)), c)
  {
    hide Streams, Streaming.Closed, TreeOk, IdsOf, Owners, Whole, Listed, Number, Base;
  }

  /** In a directory without hardlinks the listing uses the fewest headers any legal grouping could,
      and therefore the fewest bytes. */
  lemma FewestHeaders(cfg: Config, s: State, t: Tables, d: Path, runs: seq<seq<DirEntry>>)
    requires Finalizable(cfg, s) && Layout.IsDir(ContextOf(cfg, s), d)
    requires forall c :: c in Kids(s.order, d) ==> c !in Links(WithRoot(cfg, s.entries))
    requires ListingOf(ContextOf(cfg, s), t, d).Some? && ValidEntries(ListingOf(ContextOf(cfg, s), t, d).value)
    requires LegalSplit(ListingOf(ContextOf(cfg, s), t, d).value, runs)
    ensures var es := ListingOf(ContextOf(cfg, s), t, d).value;
            HeaderCount(es) <= |runs| && |EncodeListing(es)| <= 12 * |runs| + EntryBytes(es)
  {
    hide Streams, Streaming.Closed, TreeOk, IdsOf, Listed, ContextOf, ValidEntries, LegalSplit, EncodeListing,
      HeaderCount, EntryBytes, AscendingInodes, ListingOf;
    var es := ListingOf(ContextOf(cfg, s), t, d).value;
    ListingAscends(cfg, s, t, d);
    GreedyIsMinimal(es, runs);
    ListingBytes(es);
  }

  /** A hardlink and its target cannot be told apart in the image: same inode number, same everything. */
  lemma HardlinkSharesInode(cfg: Config, s: State, p: Path)
    requires Accepted(cfg, s) && BytesUsed(ClosedParts(cfg, s).value) < LIMIT48
    requires p in s.entries && s.entries[p].kind.Hardlink?
    ensures RoundTrip.HasRoot(ClosedParts(cfg, s).value)
    ensures var img := ImageOf(ClosedParts(cfg, s).value);
            Reader.StatPath(cfg.codec, img, p).Some? &&
                Reader.StatPath(cfg.codec, img, p) == Reader.StatPath(cfg.codec, img, s.entries[p].kind.link)
  {
    hide ClosedParts, BytesUsed, ImageOf, Reader.StatPath, Streaming.Closed, TreeOk, Lossless, IdsOf, ValidKind,
      ValidAttrs, ImageTheorem.NodeFor, Assigned, Listed;
    var q := s.entries[p].kind.link;
    WrittenImageReads(cfg, s, p);
    WrittenImageReads(cfg, s, q);
    assert ShapedAt(s, p) && ShapedAt(s, q);
    WithRootShaped(cfg, s);
  }
}

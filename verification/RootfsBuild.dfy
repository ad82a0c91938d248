/** Building a root file system: every readable image of a tar stream shows exactly the plan of that
    stream, and the pipeline's own directory holds the init agent and nothing else. */
module RootfsBuild {
  import opened Bytes
  import opened Blocks
  import opened Names
  import opened Paths
  import opened Tree
  import opened Entries
  import opened Layout
  import opened Streaming
  import opened Finalize
  import opened Region
  import opened WrittenImage
  import opened Reader
  import opened ImageTheorem
  import opened ImageWriter
  import opened TarPaths
  import opened TarState
  import opened TarImage
  import opened PlanWidth
  import opened PlanReads
  import opened TarReads
  import opened Consequences
  import opened TableWriter

  // ---------------------------------------------------------------- reading a plan back

  lemma StatParts(x: Ctx, contents: map<Path, seq<Byte>>, p: Path)
    requires StatFor(x, contents, p).Some? && p in x.entries && !x.entries[p].kind.Hardlink?
    ensures var st, a := StatFor(x, contents, p).value, x.entries[p].attrs;
            && st.perm == Perm(a) && st.uid == a.uid && st.gid == a.gid && Some(st.mtime) == EntryMtime(x.cfg, a)
            && Assigned(x, p) && st.node == NodeFor(x, contents, p)
  {
    hide Assigned, NodeFor, EntryMtime;
  }

  lemma StepIsShown(cfg: Config, s: State, img: seq<Byte>, t: Step)
    requires Finalizable(cfg, s) && Holds(s, t) && Shows(cfg, img, s, t.path)
    requires t.entry.kind.Hardlink? ==> Shows(cfg, img, s, t.entry.kind.link)
    ensures StepShown(cfg, img, t)
  {
    hide StatPath, EntryMtime, Assigned, ValidConfig, Streaming.Closed, TreeOk, IdsOf, Listed, ValidKind, Kids, Perm,
      Numbers, Parents, LinkCounts, BaseNames;
    var x := ContextOf(cfg, s);
    ContextFields(cfg, s);
    WithRootShaped(cfg, s);
    assert ShapedAt(s, t.path);
    var o := Target(x, t.path);
    assert ShapedAt(s, o);
    StatParts(x, s.contents, o);
  }

  /** The root as the writer makes it. */
  lemma RootIsShown(cfg: Config, s: State, img: seq<Byte>)
    requires Finalizable(cfg, s) && Shows(cfg, img, s, ROOT)
    ensures RootShown(cfg, img)
  {
    hide StatPath, Assigned, ValidConfig, Streaming.Closed, TreeOk, IdsOf, Listed, Kids, Numbers, Parents, LinkCounts,
      BaseNames, Shaped;
    var x := ContextOf(cfg, s);
    ContextFields(cfg, s);
    assert x.entries[ROOT] == RootEntry(cfg);
    StatParts(x, s.contents, ROOT);
  }

  lemma NamesAre(order: seq<Path>, p: Path, b: Name)
    requires Listed(order)
    ensures b in BaseNames(Kids(order, p)) <==> exists q :: q in order && IsChild(q, p) && Base(q) == b
  {
    hide Kids, Base, IsChild, Listed;
    KidsSpec(order, p);
    var ks, ns := Kids(order, p), BaseNames(Kids(order, p));
    if b in ns {
      var i :| 0 <= i < |ns| && ns[i] == b;
      assert ks[i] in ks;
    }
    if q :| q in order && IsChild(q, p) && Base(q) == b {
      assert q in ks;
      var i :| 0 <= i < |ks| && ks[i] == q;
      assert ns[i] == b;
    }
  }

  lemma NamesAscend(order: seq<Path>, p: Path)
    requires Listed(order)
    ensures AscendingNames(BaseNames(Kids(order, p)))
  {
    hide Kids, Base, Listed, Less;
    KidsSpec(order, p);
    var ks, ns := Kids(order, p), BaseNames(Kids(order, p));
    forall i, j | 0 <= i < j < |ns| ensures Less(ns[i], ns[j]) { assert Less(Base(ks[i]), Base(ks[j])); }
  }

  /** A directory's names are those of its children. */
  lemma DirIsShown(cfg: Config, s: State, img: seq<Byte>, p: Path)
    requires Finalizable(cfg, s) && Shows(cfg, img, s, p)
    requires StatPath(cfg.codec, img, p).Some? && StatPath(cfg.codec, img, p).value.node.IsDir?
    ensures AscendingNames(StatPath(cfg.codec, img, p).value.node.names)
    ensures forall b :: b in StatPath(cfg.codec, img, p).value.node.names <==>
                        exists q :: q in s.order && IsChild(q, p) && Base(q) == b
  {
    hide StatPath, Assigned, ValidConfig, Streaming.Closed, TreeOk, IdsOf, Listed, Kids, Numbers, Parents, LinkCounts,
      BaseNames, Shaped, EntryMtime, IsChild, Base, AscendingNames;
    ContextFields(cfg, s);
    NamesAscend(s.order, p);
    forall b ensures b in BaseNames(Kids(s.order, p)) <==> exists q :: q in s.order && IsChild(q, p) && Base(q) == b {
      NamesAre(s.order, p, b);
    }
    LinkIsNoDir(cfg, s, p);
  }

  lemma LinkIsNoDir(cfg: Config, s: State, p: Path)
    requires Finalizable(cfg, s)
    ensures Listed(s.order) && IdsOf(WithRoot(cfg, s.entries), s.order).Some?
    ensures var x := ContextOf(cfg, s);
            p in x.entries && x.entries[p].kind.Hardlink? ==>
              Target(x, p) in x.entries && x.entries[Target(x, p)].kind.File?
  {
    hide Finalizable, ContextOf;
    FinalizableListed(cfg, s);
    ContextReady(cfg, s);
  }

  lemma AllStepsShown(cfg: Config, s: State, img: seq<Byte>, plan: seq<Step>)
    requires Finalizable(cfg, s) && Matches(s, plan) && forall p :: Shows(cfg, img, s, p)
    ensures PlanShown(cfg, img, plan)
  {
    hide Finalizable, Holds, StepShown, StatPath, ContextOf, StatFor, RootShown, DirShown;
    FinalizableListed(cfg, s);
    assert Shows(cfg, img, s, ROOT);
    RootIsShown(cfg, s, img);
    PathsMatch(s, plan);
    forall p ensures DirShown(cfg, img, plan, p) {
      assert Shows(cfg, img, s, p);
      DirOfPlan(cfg, s, img, plan, p);
    }
    forall i | 0 <= i < |plan| ensures StepShown(cfg, img, plan[i]) {
      StepIsShown(cfg, s, img, plan[i]);
    }
    forall p ensures StatPath(cfg.codec, img, p).Some? <==> p == ROOT || p in PathsOf(plan) {
      assert Shows(cfg, img, s, p);
    }
  }

  lemma PathsMatch(s: State, plan: seq<Step>)
    requires Matches(s, plan)
    ensures forall p :: p in s.order <==> p in PathsOf(plan)
  {
    hide Holds;
    forall p ensures p in s.order <==> p in PathsOf(plan) {
      if p in s.order {
        var i :| 0 <= i < |s.order| && s.order[i] == p;
        assert plan[i].path == p;
      }
      if p in PathsOf(plan) {
        var i :| 0 <= i < |plan| && plan[i].path == p;
        assert s.order[i] == p;
      }
    }
  }

  lemma DirOfPlan(cfg: Config, s: State, img: seq<Byte>, plan: seq<Step>, p: Path)
    requires Finalizable(cfg, s) && Shows(cfg, img, s, p) && forall q :: q in s.order <==> q in PathsOf(plan)
    ensures DirShown(cfg, img, plan, p)
  {
    hide Finalizable, StatPath, ContextOf, StatFor, AscendingNames, IsChild, Base;
    if StatPath(cfg.codec, img, p).Some? && StatPath(cfg.codec, img, p).value.node.IsDir? { DirIsShown(cfg, s, img, p);
        }
  }

  lemma FinalizableListed(cfg: Config, s: State)
    requires Finalizable(cfg, s)
    ensures Listed(s.order) && IdsOf(WithRoot(cfg, s.entries), s.order).Some?
  {
  }

  // ---------------------------------------------------------------- the pipeline's own directory

  lemma {:induction false} MissingPaths(ps: seq<Path>, created: set<Path>)
    ensures forall i :: 0 <= i < |Missing(ps, created)| ==> Missing(ps, created)[i].path in ps
  {
    if ps != [] {
      var rest := Missing(ps[1..], created + {ps[0]});
      MissingPaths(ps[1..], created + {ps[0]});
      var now: seq<Step> := if ps[0] in created then [] else [DirStep(ps[0], RWX)];
      forall i | 0 <= i < |now + rest| ensures (now + rest)[i].path in ps {
        if i >= |now| { assert (now + rest)[i] == rest[i - |now|]; }
      }
    }
  }

  ghost predicate AllOutside(plan: seq<Step>) {
    forall i :: 0 <= i < |plan| ==> !Under(INSTALL, plan[i].path)
  }

  lemma OutsideAppend(a: seq<Step>, b: seq<Step>)
    requires AllOutside(a) && AllOutside(b)
    ensures AllOutside(a + b)
  {
    hide Under;
  }

  lemma MissingOutside(ps: seq<Path>, created: set<Path>)
    requires forall a :: a in ps ==> !Under(INSTALL, a)
    ensures AllOutside(Missing(ps, created))
  {
    hide Under, Missing;
    MissingPaths(ps, created);
  }

  lemma OwnOutside(h: Header, p: Path)
    requires !Under(INSTALL, p)
    ensures AllOutside(Optional(OwnStep(h, p)))
  {
    hide Under, NormalizeTarPath, AttrsOf;
  }

  lemma ItemOutside(h: Header, created: set<Path>)
    ensures AllOutside(ItemPlan(h, created))
  {
    hide Under, NormalizeTarPath, Missing, Ancestors, ValidPath, OwnStep, Optional, AllOutside;
    assert AllOutside([]) by { NoneOutside(); }
    var n := NormalizeTarPath(h.name);
    if n.Some? && n.value != [] && !Under(INSTALL, n.value) && n.value !in created {
      var p := n.value;
      NormalizedIsValid(h.name);
      InstallValid();
      AncestorsOutside(INSTALL, p);
      MissingOutside(Ancestors(p), created);
      OwnOutside(h, p);
      OutsideAppend(Missing(Ancestors(p), created), Optional(OwnStep(h, p)));
    }
  }

  lemma NoneOutside()
    ensures AllOutside([])
  {
  }

  /** Nothing the tar stream brings lands in the pipeline's directory. */
  lemma {:induction false} TarOutside(items: seq<Item>, created: set<Path>)
    ensures AllOutside(TarPlan(items, created))
  {
    hide Under, ItemPlan, PathsOf;
    if items != [] && items[0].Next? {
      var now := ItemPlan(items[0].h, created);
      ItemOutside(items[0].h, created);
      TarOutside(items[1..], created + PathsOf(now));
      OutsideAppend(now, TarPlan(items[1..], created + PathsOf(now)));
    }
  }

  lemma {:induction false} MountOutside(ps: seq<Path>, created: set<Path>)
    requires forall i :: 0 <= i < |ps| ==> !Under(INSTALL, ps[i])
    ensures AllOutside(MountPlan(ps, created))
  {
    hide Under;
    if ps != [] {
      MountOutside(ps[1..], created + {ps[0]});
      var now := if ps[0] in created then [] else [DirStep(ps[0], if ps[0] == TMP then STICKY else RWX)];
      OutsideAppend(now, MountPlan(ps[1..], created + {ps[0]}));
    }
  }

  /** In every plan the pipeline's directory holds itself and the init agent, nothing else. */
  lemma OnlyInit(items: seq<Item>, initBin: seq<Byte>)
    ensures var plan := ImagePlan(items, initBin);
            && (forall i :: 0 <= i < |plan| && Under(INSTALL, plan[i].path) ==> plan[i] in InitPlan(initBin))
            && forall t :: t in InitPlan(initBin) ==> t in plan
  {
    hide Under, TarPlan, MountPlan, PathsOf, InitPlan;
    var tar, mine := TarPlan(items, {}), InitPlan(initBin);
    var core := tar + mine;
    var mounts := MountPlan(MOUNTPOINTS, PathsOf(core));
    TarOutside(items, {});
    forall i | 0 <= i < |MOUNTPOINTS| ensures !Under(INSTALL, MOUNTPOINTS[i]) { MountValid(i); }
    MountOutside(MOUNTPOINTS, PathsOf(core));
    MiddleOnly(tar, mine, mounts);
  }

  lemma MiddleOnly(a: seq<Step>, m: seq<Step>, b: seq<Step>)
    requires AllOutside(a) && AllOutside(b)
    ensures forall i :: 0 <= i < |a + m + b| && Under(INSTALL, (a + m + b)[i].path) ==> (a + m + b)[i] in m
    ensures forall t :: t in m ==> t in a + m + b
  {
    hide Under;
  }

  /** What a reader finds in the pipeline's directory. */
  ghost predicate InstallExact(cfg: Config, img: seq<Byte>, initBin: seq<Byte>) {
    && (forall p :: Under(INSTALL, p) && StatPath(cfg.codec, img, p).Some? ==> p == INSTALL || p == INIT)
    && (var r := StatPath(cfg.codec, img, INSTALL); r.Some? && r.value.node.IsDir?)
    && var r := StatPath(cfg.codec, img, INIT);
       r.Some? && r.value.node == IsFile(initBin) && r.value.perm == 0x1ED && r.value.uid == 0 && r.value.gid == 0
  }

  lemma InitRead(cfg: Config, img: seq<Byte>, items: seq<Item>, initBin: seq<Byte>)
    requires PlanShown(cfg, img, ImagePlan(items, initBin))
    ensures InstallExact(cfg, img, initBin)
  {
    hide StatPath, ImagePlan, EntryMtime;
    var plan := ImagePlan(items, initBin);
    OnlyInit(items, initBin);
    InitStepsAre(initBin);
    var d, f := InitPlan(initBin)[0], InitPlan(initBin)[1];
    assert d in InitPlan(initBin) && f in InitPlan(initBin);
    var i :| 0 <= i < |plan| && plan[i] == d;
    var j :| 0 <= j < |plan| && plan[j] == f;
    assert StepShown(cfg, img, plan[i]) && StepShown(cfg, img, plan[j]);
    forall p | Under(INSTALL, p) && StatPath(cfg.codec, img, p).Some? ensures p == INSTALL || p == INIT {
      RootNotUnder();
      var k :| 0 <= k < |plan| && plan[k].path == p;
      assert plan[k] in InitPlan(initBin);
    }
  }

  lemma RootNotUnder()
    ensures !Under(INSTALL, ROOT)
  {
  }

  lemma InitStepsAre(initBin: seq<Byte>)
    ensures |InitPlan(initBin)| == 2 && InitPlan(initBin)[0] == DirStep(INSTALL, RWX)
    ensures InitPlan(initBin)[1] == Step(INIT, Entry(DirAttrs(RWX), File(0, [], 0)), initBin) &&
            Perm(DirAttrs(RWX)) == RWX
    ensures forall t :: t in InitPlan(initBin) ==> t.path == INSTALL || t.path == INIT
  {
  }

  // ---------------------------------------------------------------- the build

  datatype BuildResult = Built | TarFailed(t: TarResult) | CreateFailed(e: Result) | CloseFailed(e: Result) | TooLarge

  /** With `created` closed under parents, Close can object to the tree only because some parent is not a directory. */
  lemma MissingParentUnreachable(cfg: Config, s: State, created: set<Path>)
    requires Streams(cfg, s) && Tracked(s, created)
    ensures TreeOk(WithRoot(cfg, s.entries), s.order) <==>
              forall p :: p in created && Dir(p) != ROOT ==> s.entries[Dir(p)].kind.Directory?
  {
    hide ValidConfig, Dir, GoodParts, ValidKind, Streaming.Closed, Open;
    var es := WithRoot(cfg, s.entries);
    forall p ensures p in created <==> p in s.order { assert ShapedAt(s, p); }
    RootNotListed(s.order);
    forall i | 0 <= i < |s.order| ensures s.order[i] in created { assert s.order[i] in s.order; }
    if forall p :: p in created && Dir(p) != ROOT ==> s.entries[Dir(p)].kind.Directory? {
      forall i | 0 <= i < |s.order| ensures Dir(s.order[i]) in es && es[Dir(s.order[i])].kind.Directory? {
        assert s.order[i] in created;
      }
    }
    if TreeOk(es, s.order) {
      forall p | p in created && Dir(p) != ROOT ensures s.entries[Dir(p)].kind.Directory? {
        var i :| 0 <= i < |s.order| && s.order[i] == p;
      }
    }
  }

  lemma Fresh(w: Writer)
    requires |w.out| >= Image.SUPER_SIZE && w.View() == State(map[], [], map[], [], None, [])
    ensures Following(w.View(), {}, [])
  {
  }

  lemma SealedMatches(cfg: Config, s: State, plan: seq<Step>)
    requires Streams(cfg, s) && Matches(s, plan)
    ensures cfg.blockSize > 0 && Matches(Sealing(cfg, s), plan) && Streams(cfg, Sealing(cfg, s))
    ensures Streaming.Closed(cfg, Sealing(cfg, s)) && Listed(Sealing(cfg, s).order) && Sealing(cfg, s).order == s.order
  {
    hide Matches, Keeps, ValidConfig, Shaped, Streaming.Closed, Open, Sealing;
    SealingFrame(cfg, s);
    SealingKeeps(cfg, s);
    ListedOf(cfg, s);
    MatchesKept(s, Sealing(cfg, s), plan);
  }

  // ---------------------------------------------------------------- the writer's state is the plan's

  /** `s` is where a writer ends up that has created exactly `plan` and sealed its last file. */
  ghost predicate Yields(cfg: Config, plan: seq<Step>, s: State) {
    Streams(cfg, s) && Streaming.Closed(cfg, s) && Matches(s, plan)
  }

  lemma PlanEntry(cfg: Config, plan: seq<Step>, s: State, s': State, p: Path)
    requires Streams(cfg, s) && Streams(cfg, s') && Matches(s, plan) && Matches(s', plan)
    ensures p in s.contents <==> p in s'.contents
    ensures p in s.contents ==> s.contents[p] == s'.contents[p]
    ensures p in s.entries && p in s'.entries ==>
              s.entries[p].attrs == s'.entries[p].attrs &&
                  (!s.entries[p].kind.File? ==> s.entries[p].kind == s'.entries[p].kind)
  {
    hide ValidConfig, Streaming.Closed, Open, ValidKind, ValidAttrs, Listed;
    assert ShapedAt(s, p) && ShapedAt(s', p);
    if p in s.order {
      var i :| 0 <= i < |s.order| && s.order[i] == p;
      assert Holds(s, plan[i]) && Holds(s', plan[i]);
      assert s'.order[i] in s'.order;
    }
    if p in s'.order {
      var i :| 0 <= i < |s'.order| && s'.order[i] == p;
      assert Holds(s, plan[i]) && Holds(s', plan[i]);
      assert s.order[i] in s.order;
    }
  }

  /** There is at most one such state, so an image is a function of the plan. */
  lemma OneState(cfg: Config, plan: seq<Step>, s: State, s': State)
    requires Yields(cfg, plan, s) && Yields(cfg, plan, s')
    ensures s == s'
  {
    hide Streams, Holds, FinishedUpTo, DataOf, Listed;
    forall p ensures (p in s.contents <==> p in s'.contents) && (p in s.contents ==> s.contents[p] == s'.contents[p]) {
      PlanEntry(cfg, plan, s, s', p);
    }
    assert s.contents == s'.contents;
    forall p | p in s.entries && p in s'.entries
      ensures s.entries[p].attrs == s'.entries[p].attrs &&
              (!s.entries[p].kind.File? ==> s.entries[p].kind == s'.entries[p].kind)
    {
      PlanEntry(cfg, plan, s, s', p);
    }
    BlockSize(cfg, s);
    assert s.cur == s'.cur by { BothClosed(cfg, s, s'); }
    CutsDoNotMatter(cfg, s, s');
  }

  lemma BothClosed(cfg: Config, s: State, s': State)
    requires cfg.blockSize > 0 && Streaming.Closed(cfg, s) && Streaming.Closed(cfg, s')
    ensures s.cur == s'.cur == None
  {
  }

  /** Close has an image for this state, and the sink takes it. */
  ghost predicate ImageFits(cfg: Config, capacity: nat, s: State) {
    && Listed(s.order) && ClosedParts(cfg, s).Some? && RoundTrip.HasRoot(ClosedParts(cfg, s).value)
    && |Image.ImageOf(ClosedParts(cfg, s).value)| <= capacity
  }

  /** A plan whose files alone do not fit has no image that does. */
  lemma FitsThenRoom(cfg: Config, capacity: nat, plan: seq<Step>, s: State)
    requires Yields(cfg, plan, s) && ImageFits(cfg, capacity, s) && !CanFail(cfg.codec)
    ensures !IoFails(cfg, capacity, plan) && Image.SUPER_SIZE + |s.data| <= capacity
  {
    hide Streams, Matches, CanFail, TreeOk, IdsOf, BuildTables, Prepared, ImageTime, OwnerSet, Image.EncodeSuper,
      DataOf, PlanDisk, FinishedUpTo, Image.SuperOf, Listed;
    PlanDataSize(cfg, s, plan);
    SuperLength(ClosedParts(cfg, s).value);
  }

  lemma SuperLength(m: Image.Parts)
    requires RoundTrip.HasRoot(m)
    ensures |Image.ImageOf(m)| >= Image.SUPER_SIZE + |m.data|
  {
    hide Image.EncodeSuper, Image.SuperOf, Image.LookupBytes, Image.Padding, Image.BytesUsed;
  }

  /** Without a failing compressor, a build that reaches Close succeeds exactly if the image fits. */
  lemma CloseDecides(cfg: Config, capacity: nat, s: State, c: Result, out: seq<Byte>)
    requires Listed(s.order) && CloseSpec(cfg, capacity, s, c, out) && c in {Ok, ErrFormat, ErrIO} &&
             !CanFail(cfg.codec)
    requires ImageFits(cfg, capacity, s) ==> Image.SUPER_SIZE + |s.data| <= capacity
    ensures c == Ok <==> ImageFits(cfg, capacity, s)
  {
    hide CanFail, ClosedParts, Image.ImageOf, Listed, Shows, ShortListings;
  }

  /** What a reader sees of a plan. */
  lemma ClosedShows(cfg: Config, capacity: nat, s: State, out: seq<Byte>, plan: seq<Step>)
    requires Yields(cfg, plan, s) && Listed(s.order)
    requires CloseSpec(cfg, capacity, s, Ok, out) && Lossless(cfg.codec) && ShortListings(cfg, s)
    ensures PlanShown(cfg, out, plan)
  {
    hide Streams, Streaming.Closed, Listed, Holds, Lossless, BuildTables, TreeOk, IdsOf, Image.ImageOf, Shows,
      PlanShown, ImageTime, Unwrapped;
    AllStepsShown(cfg, s, out, plan);
  }

  /** No listing of the plan's image is too long for its size field. */
  ghost predicate ShortPlan(cfg: Config, plan: seq<Step>) {
    forall s :: Yields(cfg, plan, s) ==> ShortListings(cfg, s)
  }

  lemma SmallIsShort(cfg: Config, capacity: nat, s: State, out: seq<Byte>, plan: seq<Step>)
    requires Yields(cfg, plan, s) && Listed(s.order) && |plan| <= MAX_ENTRIES && SmallPlan(plan)
    requires CloseSpec(cfg, capacity, s, Ok, out)
    ensures ShortPlan(cfg, plan)
  {
    hide Streams, Streaming.Closed, Listed, Holds, BuildTables, TreeOk, IdsOf, Image.ImageOf, Shows, ImageTime,
      Unwrapped, SmallPlan;
    SmallPlanDirs(plan, s.order);
    FewChildrenUnwrapped(ContextOf(cfg, s), ClosedParts(cfg, s).value.t) by { SameOrderIn(cfg, s); }
    assert ShortListings(cfg, s);
    forall s' | Yields(cfg, plan, s') ensures ShortListings(cfg, s') { OneState(cfg, plan, s, s'); }
  }

  lemma SameOrderIn(cfg: Config, s: State)
    requires Listed(s.order) && IdsOf(WithRoot(cfg, s.entries), s.order).Some?
    ensures ContextOf(cfg, s).order == s.order
  {
    hide Listed, IdsOf, Numbers, Parents, LinkCounts;
  }

  predicate HasDir(plan: seq<Step>, p: Path) {
    exists i :: 0 <= i < |plan| && plan[i].path == p && plan[i].entry.kind.Directory?
  }

  ghost predicate DirAbove(plan: seq<Step>, p: Path) { ValidPath(p) ==> Dir(p) == ROOT || HasDir(plan, Dir(p)) }

  /** Everything the plan creates below the root lies in a directory that the plan creates. */
  ghost predicate DirsAbove(plan: seq<Step>) {
    forall p :: p in PathsOf(plan) ==> DirAbove(plan, p)
  }

  lemma DirsHeld(s: State, created: set<Path>, plan: seq<Step>, p: Path)
    requires Following(s, created, plan)
    ensures HasDir(plan, p) <==> p in s.entries && s.entries[p].kind.Directory?
  {
    if p in s.entries {
      TrackedIs(s, created, p);
      var i :| 0 <= i < |plan| && plan[i].path == p;
      assert Holds(s, plan[i]);
    }
    if HasDir(plan, p) {
      var i :| 0 <= i < |plan| && plan[i].path == p && plan[i].entry.kind.Directory?;
      assert Holds(s, plan[i]);
    }
  }

  lemma TreeShaped(cfg: Config, s: State, created: set<Path>, plan: seq<Step>)
    requires Streams(cfg, s) && Following(s, created, plan)
    ensures TreeOk(WithRoot(cfg, s.entries), s.order) <==> DirsAbove(plan)
  {
    hide Streams, TreeOk, Dir, GoodParts, HasDir, PathsOf, Matches;
    MissingParentUnreachable(cfg, s, created);
    forall p | p in created ensures DirAbove(plan, p) <==> Dir(p) == ROOT || s.entries[Dir(p)].kind.Directory? {
      DirsHeld(s, created, plan, Dir(p));
    }
  }

  /** The outcome of closing a writer that has created exactly `plan`. */
  ghost predicate BuiltFrom(cfg: Config, capacity: nat, plan: seq<Step>, c: Result, out: seq<Byte>) {
    && (exists s :: Yields(cfg, plan, s))
    && forall s :: Yields(cfg, plan, s) ==> Listed(s.order) && CloseSpec(cfg, capacity, s, c, out)
  }

  lemma BuiltOnce(cfg: Config, capacity: nat, plan: seq<Step>, s: State, c: Result, out: seq<Byte>)
    requires Yields(cfg, plan, s) && Listed(s.order) && CloseSpec(cfg, capacity, s, c, out)
    ensures BuiltFrom(cfg, capacity, plan, c, out)
  {
    hide Yields, Listed, CloseSpec;
    forall s' | Yields(cfg, plan, s') ensures Listed(s'.order) && CloseSpec(cfg, capacity, s', c, out) {
      OneState(cfg, plan, s, s');
    }
  }

  /** Everything needed for a root file system is there. */
  ghost predicate Buildable(cfg: Config, capacity: nat, plan: seq<Step>) {
    exists s :: Yields(cfg, plan, s) && ImageFits(cfg, capacity, s)
  }

  lemma BuildableRoom(cfg: Config, capacity: nat, plan: seq<Step>)
    requires !CanFail(cfg.codec) && IoFails(cfg, capacity, plan)
    ensures !Buildable(cfg, capacity, plan)
  {
    hide Yields, ImageFits, CanFail, IoFails;
    if Buildable(cfg, capacity, plan) {
      var s :| Yields(cfg, plan, s) && ImageFits(cfg, capacity, s);
      FitsThenRoom(cfg, capacity, plan, s);
    }
  }

  lemma BuildableDecides(cfg: Config, capacity: nat, plan: seq<Step>, s: State, c: Result, out: seq<Byte>)
    requires Yields(cfg, plan, s) && Listed(s.order) && CloseSpec(cfg, capacity, s, c, out) &&
             c in {Ok, ErrFormat, ErrIO}
    requires !CanFail(cfg.codec)
    ensures c == Ok <==> Buildable(cfg, capacity, plan)
  {
    hide Yields, ImageFits, CanFail, Listed, CloseSpec;
    if ImageFits(cfg, capacity, s) { FitsThenRoom(cfg, capacity, plan, s); }
    CloseDecides(cfg, capacity, s, c, out);
    if Buildable(cfg, capacity, plan) {
      var s' :| Yields(cfg, plan, s') && ImageFits(cfg, capacity, s');
      OneState(cfg, plan, s, s');
    }
  }

  /** The last step: the writer holds `plan`; what Close makes of it. */
  method Seal(w: Writer, created: set<Path>, ghost plan: seq<Step>) returns (c: Result)
    requires w.Valid() && Following(w.View(), created, plan) && |plan| <= MAX_ENTRIES
    modifies w
    ensures c in {Ok, ErrFormat, ErrIO} && BuiltFrom(w.cfg, w.capacity, plan, c, w.out)
    ensures !CanFail(w.cfg.codec) ==> (c == Ok <==> Buildable(w.cfg, w.capacity, plan))
    ensures c == Ok ==> DirsAbove(plan)
    ensures c == Ok && SmallPlan(plan) ==> ShortPlan(w.cfg, plan)
    ensures c == Ok && Lossless(w.cfg.codec) && ShortPlan(w.cfg, plan) ==> PlanShown(w.cfg, w.out, plan)
  {
    hide Streams, Following, Lossless, PlanShown, CloseSpec, Sealing, Streaming.Closed, Listed, Matches, BuiltFrom,
      Buildable, CanFail, DirsAbove, SmallPlan, ShortListings;
    ghost var v := w.View();
    ReadyMatches(v, created, plan);
    SealedMatches(w.cfg, v, plan);
    ghost var s := Sealing(w.cfg, v);
    PlanLength(s, plan);
    c := w.Close();
    BuiltOnce(w.cfg, w.capacity, plan, s, c, w.out);
    if !CanFail(w.cfg.codec) { BuildableDecides(w.cfg, w.capacity, plan, s, c, w.out); }
    if c == Ok {
      SealedTree(w.cfg, w.capacity, v, created, plan, w.out);
      if SmallPlan(plan) { SmallIsShort(w.cfg, w.capacity, s, w.out, plan); }
      if Lossless(w.cfg.codec) && ShortPlan(w.cfg, plan) { ClosedShows(w.cfg, w.capacity, s, w.out, plan); }
    }
  }

  lemma PlanLength(s: State, plan: seq<Step>)
    requires Matches(s, plan)
    ensures |s.order| == |plan|
  {
  }

  lemma SealedTree(cfg: Config, capacity: nat, v: State, created: set<Path>, plan: seq<Step>, out: seq<Byte>)
    requires Streams(cfg, v) && Following(v, created, plan) && cfg.blockSize > 0 && Listed(Sealing(cfg, v).order)
    requires CloseSpec(cfg, capacity, Sealing(cfg, v), Ok, out)
    ensures DirsAbove(plan)
  {
    hide DirsAbove, BuildTables, Prepared, Image.ImageOf, Shows, ShortListings, Listed, Sealing, TreeOk, IdsOf,
      ImageTime, OwnerSet;
    var s := Sealing(cfg, v);
    SealedMatches(cfg, v, plan);
    SealedTracked(cfg, v, created);
    assert TreeOk(WithRoot(cfg, s.entries), s.order);
    TreeShaped(cfg, s, created, plan);
  }

  lemma SealedTracked(cfg: Config, v: State, created: set<Path>)
    requires Streams(cfg, v) && Tracked(v, created)
    ensures cfg.blockSize > 0 && Tracked(Sealing(cfg, v), created)
  {
    hide Dir, GoodParts, Streams, Sealing;
    BlockSize(cfg, v);
    SealingFrame(cfg, v);
  }

  /** From a tar stream to a root file system. Apart from what the compressor and the sink do, the outcome is the
      one `TarVerdict` gives, and then the one of closing a writer that has created exactly `ImagePlan`. */
  method BuildSquashfs(cfg: Config, capacity: nat, items: seq<Item>, initBin: seq<Byte>, caps: Caps)
    returns (r: BuildResult, w: Writer)
    requires ValidConfig(cfg) && Image.SUPER_SIZE <= capacity < Image.LIMIT48
    ensures r.TarFailed? ==> r.t != Done && (r.t == TarVerdict(items, [], 0, caps) || r.t == WriterFailed(ErrIO))
    ensures !r.TarFailed? ==> TarVerdict(items, [], 0, caps) == Done
    ensures r == TarFailed(WriterFailed(ErrIO)) && TarVerdict(items, [], 0, caps) == Done ==>
              IoFails(cfg, capacity, ImagePlan(items, initBin))
    ensures r.CreateFailed? ==> r.e == ErrIO && IoFails(cfg, capacity, ImagePlan(items, initBin))
    ensures r == TooLarge ==> |ImagePlan(items, initBin)| > MAX_ENTRIES
    ensures r.CloseFailed? ==>
            r.e in {ErrFormat, ErrIO} && BuiltFrom(cfg, capacity, ImagePlan(items, initBin), r.e, w.out)
    ensures r == Built ==>
            BuiltFrom(cfg, capacity, ImagePlan(items, initBin), Ok, w.out) && DirsAbove(ImagePlan(items, initBin))
    ensures !CanFail(cfg.codec) && |ImagePlan(items, initBin)| <= MAX_ENTRIES ==>
              (r == Built <==>
                 TarVerdict(items, [], 0, caps) == Done && Buildable(cfg, capacity, ImagePlan(items, initBin)))
    ensures r == Built ==> PlanBytes(TarPlan(items, {})) <= caps.totalBytes && |items| <= caps.entryCount
    ensures r == Built && caps.entryCount <= 0x10_0000 ==> ShortPlan(cfg, ImagePlan(items, initBin))
    ensures r == Built && Lossless(cfg.codec) && ShortPlan(cfg, ImagePlan(items, initBin)) ==>
              && PlanShown(cfg, w.out, ImagePlan(items, initBin)) && InstallExact(cfg, w.out, initBin)
              && TarShown(cfg, w.out, items)
  {
    hide Streams, Following, TarPlan, TarVerdict, MountPlan, InitPlan, Lossless, PlanShown, InstallExact, PathsOf,
      Outside, PlanBytes, ValidConfig, IoFails, BuiltFrom, Buildable, DirsAbove, CanFail, SmallPlan, ShortPlan,
      TarShown;
    w := new Writer(cfg, capacity);
    Fresh(w);
    ghost var tar, plan := TarPlan(items, {}), ImagePlan(items, initBin);
    ghost var core := tar + InitPlan(initBin);
    if !CanFail(cfg.codec) && IoFails(cfg, capacity, plan) { BuildableRoom(cfg, capacity, plan); }
    IoFailsMore(cfg, capacity, tar, InitPlan(initBin));
    IoFailsMore(cfg, capacity, core, MountPlan(MOUNTPOINTS, PathsOf(core)));
    var t, created := StreamTar(w, items, caps);
    if t != Done {
      return TarFailed(t), w;
    }
    var c;
    c, created := InjectInit(w, initBin, created, tar);
    if c != Ok {
      return CreateFailed(c), w;
    }
    assert created == PathsOf(core) by { ReadyPaths(w.View(), created, core); }
    c, created := EnsureStandardMountpoints(w, created, core);
    if c != Ok {
      return CreateFailed(c), w;
    }
    ReadyMatches(w.View(), created, plan);
    PlanLength(w.View(), plan);
    if |w.entryOrder| > MAX_ENTRIES {
      return TooLarge, w;
    }
    c := Seal(w, created, plan);
    if c != Ok {
      return CloseFailed(c), w;
    }
    if |items| <= 0x10_0000 { FewHeaders(items, initBin); }
    if Lossless(cfg.codec) && ShortPlan(cfg, plan) {
      InitRead(cfg, w.out, items, initBin);
      HeadersShown(cfg, w.out, items, initBin, caps);
    }
    r := Built;
  }

  lemma ReadyPaths(s: State, created: set<Path>, plan: seq<Step>)
    requires Following(s, created, plan)
    ensures created == PathsOf(plan)
  {
  }

  lemma ReadyMatches(s: State, created: set<Path>, plan: seq<Step>)
    requires Following(s, created, plan)
    ensures Matches(s, plan)
  {
  }
}

/** From the headers of a tar to what a reader of the image finds, without a plan in between. */
module TarReads {
  import opened Bytes
  import opened Paths
  import opened Entries
  import opened Reader
  import opened TarPaths
  import opened TarState
  import opened TarImage
  import opened PlanReads

  // ---------------------------------------------------------------- what a header stands for

  /** The path an item is about; the root and the pipeline's own directory are nobody's business. */
  function PathFor(it: Item): Option<Path> {
    if it.Broken? then None else
    var n := NormalizeTarPath(it.h.name);
    if n.None? || n.value == [] || Under(INSTALL, n.value) then None else n
  }

  /** The item creates `p` unless it exists: as its own path, or as a directory on the way to it. */
  predicate Claims(it: Item, p: Path) {
    && PathFor(it).Some? && Under(p, PathFor(it).value)
    && (p == PathFor(it).value ==> it.h.flag != Meta && it.h.flag != Unknown)
  }

  ghost predicate Claimed(items: seq<Item>, p: Path) { exists i :: 0 <= i < |items| && Claims(items[i], p) }

  /** The first item that creates `p`. */
  ghost predicate FirstClaim(items: seq<Item>, i: nat, p: Path) {
    i < |items| && ValidPath(p) && Claims(items[i], p) && forall j :: 0 <= j < i ==> !Claims(items[j], p)
  }

  // ---------------------------------------------------------------- what a reader should find

  function TimeFor(cfg: Config, t: Time): int {
    if !cfg.mtime.IsZero() then cfg.mtime.sec else if t.IsZero() then 0 else t.sec
  }

  ghost predicate KindShown(n: Node, h: Header) {
    match h.flag
    case Reg => n.IsFile? && n.content == h.body
    case DirFlag => n.IsDir?
    case SymFlag => n.IsSymlink? && n.target == h.linkname
    case CharFlag => n.IsDevice? && !n.block && n.major == h.devmajor % 0x1_0000_0000 &&
        n.minor == h.devminor % 0x1_0000_0000
    case BlockFlag => n.IsDevice? && n.block && n.major == h.devmajor % 0x1_0000_0000 &&
        n.minor == h.devminor % 0x1_0000_0000
    case FifoFlag => n.IsIpc? && !n.socket
    case LinkFlag => n.IsFile?
    case _ => false
  }

  /** What is at `p` is what the header says: permission bits, owner, group, time and kind; a hardlink is the file at
      its target. */
  ghost predicate HeaderShown(cfg: Config, img: seq<Byte>, h: Header, p: Path) {
    var r := StatPath(cfg.codec, img, p);
    && r.Some? && KindShown(r.value.node, h)
    && if h.flag == LinkFlag then
         var target := NormalizeTarPath(h.linkname);
         target.Some? && r == StatPath(cfg.codec, img, target.value)
       else
         && r.value.perm == h.mode % 0x200 && r.value.uid == h.uid % 0x1_0000_0000
         && r.value.gid == h.gid % 0x1_0000_0000
         && r.value.mtime == TimeFor(cfg, h.mtime)
  }

  /** A directory that nobody asked for: owned by root, without a time of its own. */
  ghost predicate MadeDir(cfg: Config, img: seq<Byte>, p: Path, mode: nat) {
    var r := StatPath(cfg.codec, img, p);
    && r.Some? && r.value.node.IsDir? && r.value.perm == mode && r.value.uid == 0 && r.value.gid == 0
    && r.value.mtime == TimeFor(cfg, UNSET)
  }

  /** ASCII text as bytes. */
  function Text(s: string): (b: seq<Byte>)
    requires forall i :: 0 <= i < |s| ==> s[i] < 128 as char
    ensures |b| == |s| && forall i :: 0 <= i < |s| ==> b[i] == s[i] as int
  {
    seq(|s|, i requires 0 <= i < |s| => s[i] as int)
  }

  predicate IsMountpoint(p: Path) {
    p == Text("/proc") || p == Text("/sys") || p == Text("/dev") || p == Text("/tmp") || p == Text("/run")
  }

  lemma FixedPaths()
    ensures INSTALL == Text("/.craftling") && INIT == Text("/.craftling/init") && TMP == Text("/tmp")
    ensures MOUNTPOINTS == [Text("/proc"), Text("/sys"), Text("/dev"), Text("/tmp"), Text("/run")]
  {
    assert MOUNTPOINTS[0] == Text("/proc") && MOUNTPOINTS[1] == Text("/sys") && MOUNTPOINTS[2] == Text("/dev");
    assert MOUNTPOINTS[3] == Text("/tmp") && MOUNTPOINTS[4] == Text("/run");
  }

  lemma MountpointsAre(p: Path)
    ensures p in MOUNTPOINTS <==> IsMountpoint(p)
  {
    hide Text;
    FixedPaths();
  }

  // ---------------------------------------------------------------- which paths there are

  /** With a path all directories above it are there. */
  ghost predicate ClosedUp(created: set<Path>) {
    forall q :: q in created ==> ValidPath(q) && (Dir(q) == ROOT || Dir(q) in created)
  }

  lemma {:induction false} AboveCreated(created: set<Path>, q: Path, p: Path)
    requires ClosedUp(created) && q in created && ValidPath(p) && Under(p, q)
    ensures p in created
    decreases |q|
  {
    hide GoodParts, Dir;
    if q != p {
      ParentUnder(p, q);
      Parent(q);
      AboveCreated(created, Dir(q), p);
    }
  }

  lemma {:induction false} AncestorsAre(q: Path, p: Path)
    requires ValidPath(q) && ValidPath(p)
    ensures p in Ancestors(q) <==> p != q && Under(p, q)
    decreases |q|
  {
    hide GoodParts, Dir, Under;
    Parent(q);
    ParentUnder(p, q);
    AncestorsShorter(q);
    assert Under(p, p) by { UnderSelf(p); }
    if Dir(q) != ROOT { AncestorsAre(Dir(q), p); }
  }

  lemma UnderSelf(p: Path)
    ensures Under(p, p)
  {
  }

  lemma {:induction false} AncestorsValid(q: Path)
    requires ValidPath(q)
    ensures forall p :: p in Ancestors(q) ==> ValidPath(p)
    decreases |q|
  {
    hide GoodParts, Dir;
    Parent(q);
    if Dir(q) != ROOT { AncestorsValid(Dir(q)); }
  }

  lemma {:induction false} MissingCovers(ps: seq<Path>, created: set<Path>, p: Path)
    ensures p in PathsOf(Missing(ps, created)) <==> p in ps && p !in created
    ensures p in ps && p !in created ==> DirStep(p, RWX) in Missing(ps, created)
  {
    if ps != [] {
      var now: seq<Step> := if ps[0] in created then [] else [DirStep(ps[0], RWX)];
      var rest := Missing(ps[1..], created + {ps[0]});
      MissingCovers(ps[1..], created + {ps[0]}, p);
      PathsAppend(now, rest);
      assert ps[0] !in created ==> PathsOf(now) == {ps[0]} by { if ps[0] !in created { OnePath(now[0]); } else { } }
      assert ps[0] in created ==> PathsOf(now) == {};
      assert p in ps <==> p == ps[0] || p in ps[1..];
      if p == ps[0] && p !in created { assert now[0] in now + rest; }
    }
  }

  lemma OwnPath(h: Header, p: Path)
    ensures PathsOf(Optional(OwnStep(h, p))) == if OwnStep(h, p).Some? then {p} else {}
    ensures OwnStep(h, p).Some? ==> OwnStep(h, p).value in Optional(OwnStep(h, p))
    ensures OwnStep(h, p).Some? <==>
            h.flag != Meta && h.flag != Unknown && (h.flag == LinkFlag ==> NormalizeTarPath(h.linkname).Some?)
  {
    hide NormalizeTarPath, AttrsOf;
    if OwnStep(h, p).Some? { OnePath(OwnStep(h, p).value); }
  }

  /** The step an item contributes for `p`. */
  function StepFor(it: Item, p: Path): Option<Step>
    requires it.Next?
  {
    if PathFor(it) == Some(p) then OwnStep(it.h, p) else Some(DirStep(p, RWX))
  }

  /** One header that passes: what exists afterwards, and the step for what it newly creates. */
  lemma ItemClaims(it: Item, plan: seq<Step>, remaining: nat, p: Path)
    requires it.Next? && ClosedUp(PathsOf(plan)) && ItemVerdict(it.h, plan, remaining) == Done && ValidPath(p)
    ensures var now := ItemPlan(it.h, PathsOf(plan));
            && (p in PathsOf(plan) || p in PathsOf(now) <==> p in PathsOf(plan) || Claims(it, p))
            && (p !in PathsOf(plan) && Claims(it, p) ==> StepFor(it, p).Some? && StepFor(it, p).value in now)
  {
    hide NormalizeTarPath, Under, Missing, OwnStep, Optional, GoodParts, Dir, ClosedUp, PathsOf, HasFile, Ancestors;
    var created, h := PathsOf(plan), it.h;
    NoSteps();
    if PathFor(it).Some? {
      var q := PathFor(it).value;
      NormalizedIsValid(h.name);
      if q in created {
        if Under(p, q) { AboveCreated(created, q, p); }
      } else {
        var up, own := Missing(Ancestors(q), created), Optional(OwnStep(h, q));
        AncestorsAre(q, p);
        UnderSelf(q);
        MissingCovers(Ancestors(q), created, p);
        OwnPath(h, q);
        PathsAppend(up, own);
      }
    }
  }

  /** What one header leaves is closed upwards again. */
  lemma ItemClosed(it: Item, plan: seq<Step>, remaining: nat)
    requires it.Next? && ClosedUp(PathsOf(plan)) && ItemVerdict(it.h, plan, remaining) == Done
    ensures ClosedUp(PathsOf(plan) + PathsOf(ItemPlan(it.h, PathsOf(plan))))
  {
    hide NormalizeTarPath, Under, PathsOf, ItemPlan, ItemVerdict, GoodParts, Dir, Claims;
    var created := PathsOf(plan);
    var all := created + PathsOf(ItemPlan(it.h, created));
    forall q | q in all ensures ValidPath(q) && (Dir(q) == ROOT || Dir(q) in all) {
      if q !in created {
        ItemValid(it.h, created, q);
        Parent(q);
        if Dir(q) != ROOT {
          ItemClaims(it, plan, remaining, q);
          ClaimsAbove(it, q);
          ItemClaims(it, plan, remaining, Dir(q));
        }
      }
    }
  }

  lemma ClaimsAbove(it: Item, q: Path)
    requires Claims(it, q) && ValidPath(q) && Dir(q) != ROOT
    ensures Claims(it, Dir(q))
  {
    hide NormalizeTarPath, Under, GoodParts, Dir;
    var top := PathFor(it).value;
    Parent(q);
    NormalizedIsValid(it.h.name);
    UnderParent(q, top);
    ShorterUnder(q, top);
  }

  lemma UnderParent(q: Path, top: Path)
    requires ValidPath(q) && ValidPath(top) && Under(q, top) && Dir(q) != ROOT && ValidPath(Dir(q))
    ensures Under(Dir(q), top)
  {
    hide GoodParts, Under, Dir;
    assert Under(Dir(q), q) by {
      UnderSelf(Dir(q));
      ParentUnder(Dir(q), q);
    }
    UnderTransitive(Dir(q), q, top);
  }

  lemma UnderTransitive(a: Path, b: Path, c: Path)
    requires Under(a, b) && Under(b, c)
    ensures Under(a, c)
  {
    if a != b && b != c {
      assert c[..|a|] == b[..|a|];
      assert c[|a|] == c[..|b|][|a|];
    }
  }

  lemma ShorterUnder(q: Path, top: Path)
    requires Under(q, top)
    ensures |q| <= |top|
  {
  }

  lemma ItemValid(h: Header, created: set<Path>, q: Path)
    requires q in PathsOf(ItemPlan(h, created))
    ensures ValidPath(q)
  {
    hide NormalizeTarPath, Under, Missing, OwnStep, Optional, GoodParts, PathsOf, Ancestors;
    NoSteps();
    var p := NormalizeTarPath(h.name).value;
    NormalizedIsValid(h.name);
    AncestorsValid(p);
    MissingCovers(Ancestors(p), created, q);
    OwnPath(h, p);
    PathsAppend(Missing(Ancestors(p), created), Optional(OwnStep(h, p)));
  }

  lemma ClaimedCons(it: Item, rest: seq<Item>, p: Path)
    ensures Claimed([it] + rest, p) <==> Claims(it, p) || Claimed(rest, p)
  {
    hide Claims;
    var items := [it] + rest;
    if Claims(it, p) { assert items[0] == it; }
    if Claimed(rest, p) {
      var i :| 0 <= i < |rest| && Claims(rest[i], p);
      assert items[i + 1] == rest[i];
    }
    if Claimed(items, p) {
      var i :| 0 <= i < |items| && Claims(items[i], p);
      assert i > 0 ==> rest[i - 1] == items[i];
    }
  }

  /** One header more of a stream that passes. */
  lemma TarNext(items: seq<Item>, plan: seq<Step>, count: nat, caps: Caps)
    requires items != [] && ClosedUp(PathsOf(plan)) && TarVerdict(items, plan, count, caps) == Done
    ensures items[0].Next? && PlanBytes(plan) <= caps.totalBytes
    ensures ItemVerdict(items[0].h, plan, caps.totalBytes - PlanBytes(plan)) == Done
    ensures var now := ItemPlan(items[0].h, PathsOf(plan));
            && TarVerdict(items[1..], plan + now, count + 1, caps) == Done
            && PathsOf(plan + now) == PathsOf(plan) + PathsOf(now) && ClosedUp(PathsOf(plan + now))
            && TarPlan(items, PathsOf(plan)) == now + TarPlan(items[1..], PathsOf(plan + now))
  {
    hide ItemVerdict, ItemPlan, PathsOf, PlanBytes, ClosedUp;
    var now := ItemPlan(items[0].h, PathsOf(plan));
    PathsAppend(plan, now);
    ItemClosed(items[0], plan, caps.totalBytes - PlanBytes(plan));
  }

  /** The paths the stream creates are those its headers claim. */
  lemma {:induction false} TarClaims(items: seq<Item>, plan: seq<Step>, count: nat, caps: Caps, p: Path)
    requires ClosedUp(PathsOf(plan)) && TarVerdict(items, plan, count, caps) == Done && ValidPath(p)
    ensures p in PathsOf(plan) || p in PathsOf(TarPlan(items, PathsOf(plan))) <==>
            p in PathsOf(plan) || Claimed(items, p)
  {
    hide ItemVerdict, ItemPlan, PathsOf, PlanBytes, ClosedUp, ValidPath, Claims, TarVerdict;
    if items == [] {
      NoSteps();
    } else {
      TarNext(items, plan, count, caps);
      var now := ItemPlan(items[0].h, PathsOf(plan));
      ItemClaims(items[0], plan, caps.totalBytes - PlanBytes(plan), p);
      TarClaims(items[1..], plan + now, count + 1, caps, p);
      PathsAppend(now, TarPlan(items[1..], PathsOf(plan + now)));
      assert items == [items[0]] + items[1..];
      ClaimedCons(items[0], items[1..], p);
    }
  }

  lemma {:induction false} TarValid(items: seq<Item>, created: set<Path>, p: Path)
    requires p in PathsOf(TarPlan(items, created))
    ensures ValidPath(p)
  {
    hide ItemPlan, PathsOf, ValidPath;
    NoSteps();
    var now := ItemPlan(items[0].h, created);
    PathsAppend(now, TarPlan(items[1..], created + PathsOf(now)));
    if p in PathsOf(now) { ItemValid(items[0].h, created, p); }
        else { TarValid(items[1..], created + PathsOf(now), p); }
  }

  /** The first header that claims a path decides what is created there. */
  lemma {:induction false} TarStep(items: seq<Item>, plan: seq<Step>, count: nat, caps: Caps, i: nat, p: Path)
    requires ClosedUp(PathsOf(plan)) && TarVerdict(items, plan, count, caps) == Done
    requires FirstClaim(items, i, p) && p !in PathsOf(plan)
    ensures items[i].Next? && StepFor(items[i], p).Some? && StepFor(items[i], p).value in TarPlan(items, PathsOf(plan))
  {
    hide ItemVerdict, ItemPlan, PathsOf, PlanBytes, ClosedUp, ValidPath, Claims, TarVerdict, StepFor, TarPlan;
    TarNext(items, plan, count, caps);
    var now := ItemPlan(items[0].h, PathsOf(plan));
    ItemClaims(items[0], plan, caps.totalBytes - PlanBytes(plan), p);
    if i > 0 {
      var rest := items[1..];
      assert rest[i - 1] == items[i] && forall j :: 0 <= j < i - 1 ==> rest[j] == items[j + 1];
      TarStep(rest, plan + now, count + 1, caps, i - 1, p);
    }
  }

  // ---------------------------------------------------------------- the whole image

  lemma {:induction false} MountCovers(ps: seq<Path>, created: set<Path>, p: Path)
    ensures p in PathsOf(MountPlan(ps, created)) <==> p in ps && p !in created
    ensures p in ps && p !in created ==> DirStep(p, if p == TMP then STICKY else RWX) in MountPlan(ps, created)
  {
    if ps != [] {
      var now: seq<Step> := if ps[0] in created then [] else [DirStep(ps[0], if ps[0] == TMP then STICKY else RWX)];
      var rest := MountPlan(ps[1..], created + {ps[0]});
      MountCovers(ps[1..], created + {ps[0]}, p);
      PathsAppend(now, rest);
      if ps[0] !in created { OnePath(now[0]); }
      assert p in ps <==> p == ps[0] || p in ps[1..];
      if p == ps[0] && p !in created { assert now[0] in now + rest; }
    }
  }

  /** What is in the image besides the root. */
  ghost predicate InImage(items: seq<Item>, p: Path) {
    (ValidPath(p) && Claimed(items, p)) || p == Text("/.craftling") || p == Text("/.craftling/init") || IsMountpoint(p)
  }

  /** What is at `p` if the item was the first to claim it. */
  ghost predicate ItemShown(cfg: Config, img: seq<Byte>, it: Item, p: Path) {
    if PathFor(it) == Some(p) then HeaderShown(cfg, img, it.h, p) else MadeDir(cfg, img, p, 0x1ED)
  }

  /** Path by path: the first header that claims a path decides what is there; a claimed directory without a header of
      its own is plain; mountpoints that nobody claimed are added, with the sticky bit for /tmp; and nothing else is
      there. */
  ghost predicate TarShown(cfg: Config, img: seq<Byte>, items: seq<Item>) {
    && (forall p :: StatPath(cfg.codec, img, p).Some? <==> p == ROOT || InImage(items, p))
    && (forall i: nat, p :: FirstClaim(items, i, p) ==> ItemShown(cfg, img, items[i], p))
    && (forall p :: IsMountpoint(p) && !Claimed(items, p) ==>
        MadeDir(cfg, img, p, if p == Text("/tmp") then 0x3FF else 0x1ED))
  }

  lemma InitPaths(initBin: seq<Byte>)
    ensures PathsOf(InitPlan(initBin)) == {INSTALL, INIT}
  {
    var plan := InitPlan(initBin);
    assert plan[0].path == INSTALL && plan[1].path == INIT;
  }

  lemma NothingYet()
    ensures ClosedUp(PathsOf([]))
  {
  }

  lemma ImagePaths(items: seq<Item>, initBin: seq<Byte>, caps: Caps, p: Path)
    requires TarVerdict(items, [], 0, caps) == Done
    ensures p in PathsOf(ImagePlan(items, initBin)) <==> InImage(items, p)
  {
    hide TarPlan, MountPlan, InitPlan, PathsOf, TarVerdict, Claimed, ValidPath, Text, ClosedUp;
    var tar := TarPlan(items, {});
    var core := tar + InitPlan(initBin);
    var mounts := MountPlan(MOUNTPOINTS, PathsOf(core));
    NoSteps();
    NothingYet();
    if ValidPath(p) { TarClaims(items, [], 0, caps, p); }
    if p in PathsOf(tar) { TarValid(items, {}, p); }
    PathsAppend(tar, InitPlan(initBin));
    PathsAppend(core, mounts);
    InitPaths(initBin);
    MountCovers(MOUNTPOINTS, PathsOf(core), p);
    MountpointsAre(p);
    FixedPaths();
  }

  lemma InPlan(a: seq<Step>, m: seq<Step>, b: seq<Step>, t: Step)
    ensures t in a || t in m || t in b <==> t in a + m + b
  {
  }

  lemma Shown(cfg: Config, img: seq<Byte>, plan: seq<Step>, t: Step)
    requires PlanShown(cfg, img, plan) && t in plan
    ensures StepShown(cfg, img, t)
  {
    hide StepShown, StatPath;
    var i :| 0 <= i < |plan| && plan[i] == t;
  }

  lemma DirStepShown(cfg: Config, img: seq<Byte>, p: Path, mode: nat)
    requires StepShown(cfg, img, DirStep(p, mode)) && mode < 0x1000
    ensures MadeDir(cfg, img, p, mode)
  {
    hide StatPath;
  }

  lemma OwnStepShown(cfg: Config, img: seq<Byte>, h: Header, p: Path)
    requires OwnStep(h, p).Some? && StepShown(cfg, img, OwnStep(h, p).value)
    ensures HeaderShown(cfg, img, h, p)
  {
    hide StatPath, NormalizeTarPath;
  }

  /** A mountpoint is not in the pipeline's own directory. */
  lemma MountNotInit(p: Path)
    requires IsMountpoint(p)
    ensures p != INSTALL && p != INIT && ValidPath(p)
  {
    hide Text, ValidPath;
    MountpointsAre(p);
    var i :| 0 <= i < |MOUNTPOINTS| && MOUNTPOINTS[i] == p;
    MountValid(i);
    InitValid();
    UnderSelf(INSTALL);
  }

  lemma MountShown(cfg: Config, img: seq<Byte>, items: seq<Item>, initBin: seq<Byte>, caps: Caps, p: Path)
    requires TarVerdict(items, [], 0, caps) == Done && PlanShown(cfg, img, ImagePlan(items, initBin))
    requires IsMountpoint(p) && !Claimed(items, p)
    ensures MadeDir(cfg, img, p, if p == Text("/tmp") then 0x3FF else 0x1ED)
  {
    hide TarPlan, MountPlan, InitPlan, PathsOf, TarVerdict, Claimed, ValidPath, Text, PlanShown, StepShown, MadeDir,
      ClosedUp;
    var tar := TarPlan(items, {});
    var core := tar + InitPlan(initBin);
    NoSteps();
    NothingYet();
    MountNotInit(p);
    TarClaims(items, [], 0, caps, p);
    PathsAppend(tar, InitPlan(initBin));
    InitPaths(initBin);
    MountpointsAre(p);
    FixedPaths();
    MountCovers(MOUNTPOINTS, PathsOf(core), p);
    var t := DirStep(p, if p == TMP then STICKY else RWX);
    InPlan(tar, InitPlan(initBin), MountPlan(MOUNTPOINTS, PathsOf(core)), t);
    Shown(cfg, img, ImagePlan(items, initBin), t);
    DirStepShown(cfg, img, p, if p == TMP then STICKY else RWX);
  }

  lemma ClaimShown(cfg: Config, img: seq<Byte>, items: seq<Item>, initBin: seq<Byte>, caps: Caps, i: nat, p: Path)
    requires TarVerdict(items, [], 0, caps) == Done && PlanShown(cfg, img, ImagePlan(items, initBin))
    requires FirstClaim(items, i, p)
    ensures ItemShown(cfg, img, items[i], p)
  {
    hide TarPlan, MountPlan, InitPlan, PathsOf, TarVerdict, ValidPath, PlanShown, StepShown, MadeDir, HeaderShown,
      Claims, PathFor, OwnStep, ClosedUp;
    var tar := TarPlan(items, {});
    var core := tar + InitPlan(initBin);
    NoSteps();
    NothingYet();
    TarStep(items, [], 0, caps, i, p);
    var t := StepFor(items[i], p).value;
    InPlan(tar, InitPlan(initBin), MountPlan(MOUNTPOINTS, PathsOf(core)), t);
    Shown(cfg, img, ImagePlan(items, initBin), t);
    if PathFor(items[i]) == Some(p) { OwnStepShown(cfg, img, items[i].h, p); } else { DirStepShown(cfg, img, p, RWX); }
  }

  /** Whoever sees the plan of a stream that passes sees its headers. */
  lemma HeadersShown(cfg: Config, img: seq<Byte>, items: seq<Item>, initBin: seq<Byte>, caps: Caps)
    requires TarVerdict(items, [], 0, caps) == Done && PlanShown(cfg, img, ImagePlan(items, initBin))
    ensures TarShown(cfg, img, items)
  {
    hide TarVerdict, ImagePlan, StepShown, MadeDir, ItemShown, ValidPath, Claims, Claimed, InImage, IsMountpoint,
      StatPath, DirShown, RootShown, Text;
    forall p ensures StatPath(cfg.codec, img, p).Some? <==> p == ROOT || InImage(items, p) {
      ImagePaths(items, initBin, caps, p);
    }
    forall i: nat, p | FirstClaim(items, i, p) ensures ItemShown(cfg, img, items[i], p) {
      ClaimShown(cfg, img, items, initBin, caps, i, p);
    }
    forall p | IsMountpoint(p) && !Claimed(items, p)
      ensures MadeDir(cfg, img, p, if p == Text("/tmp") then 0x3FF else 0x1ED)
    {
      MountShown(cfg, img, items, initBin, caps, p);
    }
  }
}

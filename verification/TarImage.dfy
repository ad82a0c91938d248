/** From a layer tar to an image: stream the entries, inject the init agent, add the mountpoints, close. */
module TarImage {
  import opened Bytes
  import opened Paths
  import opened Entries
  import opened Blocks
  import opened Image
  import opened Region
  import opened Streaming
  import opened ImageWriter
  import opened TarPaths
  import opened TarState

  datatype Flag = Reg | DirFlag | SymFlag | LinkFlag | CharFlag | BlockFlag | FifoFlag | Meta | Unknown

  /** A tar header with the bytes a reader gets for it; `bodyOk` is false when reading them ends in an error. */
  datatype Header = Header(name: seq<Byte>, flag: Flag, size: int, mode: int, uid: int, gid: int, mtime: Time,
                           linkname: seq<Byte>, devmajor: int, devminor: int, body: seq<Byte>, bodyOk: bool)

  /** What the tar reader yields; an unreadable header ends the stream with an error. */
  datatype Item = Next(h: Header) | Broken

  datatype Caps = Caps(totalBytes: nat, entryCount: nat)

  datatype TarResult =
    | Done | BadHeader | TooManyEntries | TooManyBytes | BadName | BadSymlink | BadLink | BadBody
    | WriterFailed(e: Result)

  const COPY_CHUNK: nat := 32768

  /** Permission bits only; ids narrowed to 32 bits. */
  function AttrsOf(h: Header): (a: Attrs)
    ensures ValidAttrs(a) && Perm(a) < 0x200
  {
    Attrs(h.mode % 0x200, h.uid % WRAP32, h.gid % WRAP32, h.mtime)
  }

  /** A directory the pipeline makes itself. */
  function DirAttrs(mode: nat): Attrs { Attrs(mode, 0, 0, UNSET) }

  const RWX: nat := 0x1ED
  const STICKY: nat := 0x3FF

  function DirStep(p: Path, mode: nat): Step { Step(p, Entry(DirAttrs(mode), Directory), []) }

  // ---------------------------------------------------------------- what should be created

  /** Directories of `ps` that do not exist yet. */
  function Missing(ps: seq<Path>, created: set<Path>): seq<Step> {
    if ps == [] then [] else
    (if ps[0] in created then [] else [DirStep(ps[0], RWX)]) + Missing(ps[1..], created + {ps[0]})
  }

  /** The entry a header asks for, if it asks for one. */
  function OwnStep(h: Header, p: Path): Option<Step> {
    match h.flag
    case Reg => Some(Step(p, Entry(AttrsOf(h), File(0, [], 0)), h.body))
    case DirFlag => Some(Step(p, Entry(AttrsOf(h), Directory), []))
    case SymFlag => Some(Step(p, Entry(AttrsOf(h), Symlink(h.linkname)), []))
    case LinkFlag =>
      var target :- NormalizeTarPath(h.linkname);
      Some(Step(p, Entry(NO_ATTRS, Hardlink(target)), []))
    case CharFlag => Some(Step(p, Entry(AttrsOf(h), CharDev(h.devmajor % WRAP32, h.devminor % WRAP32)), []))
    case BlockFlag => Some(Step(p, Entry(AttrsOf(h), BlockDev(h.devmajor % WRAP32, h.devminor % WRAP32)), []))
    case FifoFlag => Some(Step(p, Entry(AttrsOf(h), Fifo), []))
    case Meta => None
    case Unknown => None
  }

  function Optional(t: Option<Step>): seq<Step> { if t.None? then [] else [t.value] }

  /** What one header adds when `created` exists already: nothing for the root, for the pipeline's own
      directory and for a path that is taken; otherwise the missing parents and the entry. */
  function ItemPlan(h: Header, created: set<Path>): seq<Step> {
    var n := NormalizeTarPath(h.name);
    if n.None? || n.value == [] || Under(INSTALL, n.value) || n.value in created then [] else
    NormalizedIsValid(h.name);
    Missing(Ancestors(n.value), created) + Optional(OwnStep(h, n.value))
  }

  function TarPlan(items: seq<Item>, created: set<Path>): seq<Step> {
    if items == [] || items[0].Broken? then [] else
    var now := ItemPlan(items[0].h, created);
    now + TarPlan(items[1..], created + PathsOf(now))
  }

  /** The init agent, owned by root, executable. */
  function InitPlan(initBin: seq<Byte>): seq<Step> {
    [DirStep(INSTALL, RWX), Step(INIT, Entry(DirAttrs(RWX), File(0, [], 0)), initBin)]
  }

  function MountPlan(ps: seq<Path>, created: set<Path>): seq<Step> {
    if ps == [] then [] else
    (if ps[0] in created then [] else [DirStep(ps[0], if ps[0] == TMP then STICKY else RWX)]) + MountPlan(ps[1..],
        created + {ps[0]})
  }

  /** Everything the image of a tar stream holds. */
  function ImagePlan(items: seq<Item>, initBin: seq<Byte>): seq<Step> {
    var tar := TarPlan(items, {});
    var core := tar + InitPlan(initBin);
    core + MountPlan(MOUNTPOINTS, PathsOf(core))
  }

  // ---------------------------------------------------------------- how the stream ends

  /** What the copy of a body stops at: one byte more than may be left. */
  function Limited(h: Header, remaining: nat): (r: seq<Byte>)
    ensures r <= h.body && |r| <= remaining + 1
    ensures |r| < |h.body| ==> |r| == remaining + 1
  {
    if |h.body| > remaining + 1 then h.body[..remaining + 1] else h.body
  }

  function FileVerdict(h: Header, remaining: nat): TarResult {
    if !h.bodyOk && |h.body| <= remaining then BadBody else if |h.body| > remaining then TooManyBytes else Done
  }

  predicate HasFile(plan: seq<Step>, p: Path) {
    exists i :: 0 <= i < |plan| && plan[i].path == p && plan[i].entry.kind.File?
  }

  /** Links must say where they lead, and a hardlink must lead to a file the stream brought before. */
  function NodeVerdict(h: Header, plan: seq<Step>): TarResult {
    if h.flag == SymFlag && h.linkname == [] then BadSymlink else
    if h.flag != LinkFlag then Done else
    var target := NormalizeTarPath(h.linkname);
    if target.None? || target.value == [] then BadLink else
    if HasFile(plan, target.value) then Done else WriterFailed(ErrHardlinkTarget)
  }

  function OwnVerdict(h: Header, plan: seq<Step>, remaining: nat): TarResult {
    if h.flag == Reg then FileVerdict(h, remaining) else NodeVerdict(h, plan)
  }

  function NewVerdict(h: Header, p: Path, plan: seq<Step>, remaining: nat): TarResult
    requires ValidPath(p)
  {
    OwnVerdict(h, plan + Missing(Ancestors(p), PathsOf(plan)), remaining)
  }

  /** One header after `plan`, with `remaining` bytes left. */
  function ItemVerdict(h: Header, plan: seq<Step>, remaining: nat): TarResult {
    if h.size > 0 && h.size > remaining then TooManyBytes else
    var n := NormalizeTarPath(h.name);
    if n.None? then BadName else
    if n.value == [] || Under(INSTALL, n.value) || n.value in PathsOf(plan) then Done else
    NormalizedIsValid(h.name);
    NewVerdict(h, n.value, plan, remaining)
  }

  /** The stream, `count` headers of which brought `plan`; what the compressor and the sink do aside. */
  function TarVerdict(items: seq<Item>, plan: seq<Step>, count: nat, caps: Caps): TarResult {
    if items == [] then Done else
    if items[0].Broken? then BadHeader else
    if count + 1 > caps.entryCount then TooManyEntries else
    if PlanBytes(plan) > caps.totalBytes then TooManyBytes else
    var v := ItemVerdict(items[0].h, plan, caps.totalBytes - PlanBytes(plan));
    if v != Done then v else
    TarVerdict(items[1..], plan + ItemPlan(items[0].h, PathsOf(plan)), count + 1, caps)
  }

  // ---------------------------------------------------------------- when the writer gives up

  /** The compressor fails, or the sink has no room for the files of the plan. */
  ghost predicate IoFails(cfg: Config, capacity: nat, plan: seq<Step>) {
    cfg.blockSize > 0 && (CanFail(cfg.codec) || SUPER_SIZE + PlanDisk(cfg, plan) > capacity)
  }

  lemma IoFailsMore(cfg: Config, capacity: nat, a: seq<Step>, b: seq<Step>)
    ensures IoFails(cfg, capacity, a) ==> IoFails(cfg, capacity, a + b)
  {
    hide PlanDisk, CanFail;
    if cfg.blockSize > 0 { DiskGrows(cfg, a, b); }
  }

  lemma CreateFails(cfg: Config, capacity: nat, s: State, plan: seq<Step>)
    requires Streams(cfg, s) && Matches(s, plan)
    ensures IoCause(cfg, capacity, s.contents, s.order) ==> IoFails(cfg, capacity, plan)
  {
    hide Streams, Matches, DataSize, PlanDisk, CanFail;
    PlanDataSize(cfg, s, plan);
  }

  /** A file that is being filled, and does not fit. */
  lemma FillFails(cfg: Config, capacity: nat, s: State, plan: seq<Step>, t: Step)
    requires Streams(cfg, s) && Matches(s, plan) && t.path !in s.order && t.entry.kind.File?
    ensures WriteCause(cfg, capacity, s.contents[t.path := t.body], s.order + [t.path]) ==>
            IoFails(cfg, capacity, plan + [t])
  {
    hide Streams, Matches, DataOf, CanFail, OpenSize, Extent;
    var order, contents := s.order + [t.path], s.contents[t.path := t.body];
    PlanDataSize(cfg, s, plan);
    assert order[..|s.order|] == s.order && (plan + [t])[..|plan|] == plan;
    OpenBelow(cfg, contents, order);
    DataPush(cfg.codec, cfg.blockSize, contents, s.order, t.path);
    DataSame(cfg.codec, cfg.blockSize, contents, s.contents, s.order);
  }

  // ---------------------------------------------------------------- one entry

  /** Ready to create: the writer holds `plan`, and `created` are its paths, closed under parents. */
  ghost predicate Following(s: State, created: set<Path>, plan: seq<Step>) {
    Tracked(s, created) && Matches(s, plan) && created == PathsOf(plan)
  }

  ghost predicate Creatable(created: set<Path>, p: Path) {
    p !in created && ValidPath(p) && (Dir(p) == ROOT || Dir(p) in created)
  }

  lemma FollowingMatches(s: State, created: set<Path>, plan: seq<Step>)
    requires Following(s, created, plan)
    ensures Matches(s, plan) && created == PathsOf(plan) && forall p :: p in created <==> p in s.entries
  {
  }

  lemma TrackedIs(s: State, created: set<Path>, p: Path)
    requires Tracked(s, created)
    ensures p in created <==> p in s.entries
  {
  }

  lemma Positive(cfg: Config, s: State)
    requires Streams(cfg, s)
    ensures cfg.blockSize > 0
  {
  }

  lemma OnePath(t: Step)
    ensures PathsOf([t]) == {t.path}
  {
    assert [t][0].path == t.path;
  }

  /** Everything a Create call for a new path with an existing parent does to the pipeline's state. */
  lemma CreatedFrame(cfg: Config, s: State, t: Step, created: set<Path>, plan: seq<Step>)
    requires Streams(cfg, s) && Following(s, created, plan) && Creatable(created, t.path)
    ensures cfg.blockSize > 0 && Verdict(s, t.path) == Ok && t.path !in s.entries
    ensures !t.entry.kind.File? ==> Following(Creating(cfg, s, t.path, t.entry), created + {t.path}, plan + [t])
  {
    hide Streams, Creating, Tracked, Keeps, Dir, GoodParts, Matches;
    var p := t.path;
    TrackedIs(s, created, p);
    Positive(cfg, s);
    var s' := Creating(cfg, s, p, t.entry);
    CreatingFrame(cfg, s, p, t.entry);
    TrackedAdd(s, s', created, p);
    PathsAppend(plan, [t]);
    OnePath(t);
    if !t.entry.kind.File? {
      assert Holds(s', t);
      MatchesAdd(s, s', plan, t);
    }
  }

  /** Creates one directory the pipeline needs. */
  method MakeDir(w: Writer, p: Path, mode: nat, created: set<Path>, ghost plan: seq<Step>)
    returns (r: Result, made: set<Path>)
    requires w.Valid() && Following(w.View(), created, plan) && Creatable(created, p)
    modifies w
    ensures r == Ok || r == ErrIO
    ensures r == Ok ==> w.Valid() && made == created + {p} && Following(w.View(), made, plan + [DirStep(p, mode)])
    ensures r == ErrIO ==> IoFails(w.cfg, w.capacity, plan)
  {
    hide Streams, Creating, Following, Creatable, IoFails, IoCause;
    CreatedFrame(w.cfg, w.View(), DirStep(p, mode), created, plan);
    FollowingMatches(w.View(), created, plan);
    CreateFails(w.cfg, w.capacity, w.View(), plan);
    r := w.CreateDir(p, DirAttrs(mode));
    made := created + {p};
  }

  /** Makes every directory above `p` that is still missing, shallowest first. */
  method EnsureAncestors(w: Writer, p: Path, created: set<Path>, ghost plan: seq<Step>)
    returns (r: Result, made: set<Path>)
    requires w.Valid() && Following(w.View(), created, plan) && ValidPath(p)
    modifies w
    ensures r == Ok || r == ErrIO
    ensures r == Ok ==> w.Valid() && Following(w.View(), made, plan + Missing(Ancestors(p), created))
    ensures r == Ok ==> Dir(p) == ROOT || Dir(p) in made
    ensures r == Ok ==> forall q :: q in made ==> q in created || q in Ancestors(p)
    ensures r == ErrIO ==> IoFails(w.cfg, w.capacity, plan + Missing(Ancestors(p), created))
  {
    hide Streams, Following, GoodParts, Dir, IoFails;
    var ancestors := ListAncestors(p);
    AncestorChain(p);
    made := created;
    ghost var done := plan;
    assert ancestors[0..] == ancestors;
    for i := 0 to |ancestors|
      invariant w.Valid() && Following(w.View(), made, done)
      invariant plan + Missing(ancestors, created) == done + Missing(ancestors[i..], made)
      invariant i > 0 ==> ancestors[i - 1] in made
      invariant forall q :: q in made ==> q in created || q in ancestors
    {
      var a := ancestors[i];
      assert Link(ancestors, i);
      assert ancestors[i..][0] == a && ancestors[i..][1..] == ancestors[i + 1..];
      if a in made {
        assert made + {a} == made;
        assert [] + Missing(ancestors[i + 1..], made) == Missing(ancestors[i + 1..], made);
      } else {
        Assoc(done, [DirStep(a, RWX)], Missing(ancestors[i + 1..], made + {a}));
        IoFailsMore(w.cfg, w.capacity, done, Missing(ancestors[i..], made));
        r, made := MakeDir(w, a, RWX, made, done);
        if r != Ok {
          return;
        }
        done := done + [DirStep(a, RWX)];
      }
    }
    assert ancestors[|ancestors|..] == [];
    assert done + [] == done;
    r := Ok;
  }

  /** The walk up from the parent, collected shallowest first. */
  method ListAncestors(p: Path) returns (ancestors: seq<Path>)
    requires ValidPath(p)
    ensures ancestors == Ancestors(p)
  {
    hide GoodParts, Dir;
    Parent(p);
    var cur := Dir(p);
    ancestors := [];
    assert Ancestors(p) == Upto(cur) + [];
    while cur != ROOT
      invariant cur == ROOT || ValidPath(cur)
      invariant Ancestors(p) == Upto(cur) + ancestors
      decreases |cur|
    {
      Parent(cur);
      Assoc(Upto(Dir(cur)), [cur], ancestors);
      ancestors := [cur] + ancestors;
      cur := Dir(cur);
    }
    assert [] + ancestors == ancestors;
  }

  /** `d` and the directories above it, shallowest first. */
  ghost function Upto(d: Path): seq<Path>
    requires d == ROOT || ValidPath(d)
  {
    if d == ROOT then [] else Ancestors(d) + [d]
  }

  /** io.Copy: chunk by chunk into the open file. */
  method CopyBody(w: Writer, p: Path, data: seq<Byte>) returns (r: Result)
    requires w.Valid() && w.curFile == Some(p)
    modifies w
    ensures r == Ok || r == ErrIO
    ensures r == Ok ==>
            w.Valid() && p in old(w.contents) && w.contents == old(w.contents)[p := old(w.contents)[p] + data]
    ensures r == Ok ==> SameBut(old(w.View()), w.View(), p)
    ensures r == ErrIO ==> p in old(w.contents) && old(w.entryOrder) == w.entryOrder
    ensures r == ErrIO ==> WriteCause(w.cfg, w.capacity, old(w.contents)[p := old(w.contents)[p] + data], w.entryOrder)
  {
    hide Streams, SameBut, WriteCause;
    IsOpen(w.cfg, w.View());
    ghost var s0 := w.View();
    SameStart(s0, p);
    var n := 0;
    assert w.contents[p] + data[..0] == w.contents[p];
    while n < |data|
      invariant w.Valid() && w.curFile == Some(p) && n <= |data| && SameBut(s0, w.View(), p) && w.entryOrder == s0.order
      invariant w.contents == s0.contents[p := s0.contents[p] + data[..n]]
    {
      var m := if n + COPY_CHUNK < |data| then n + COPY_CHUNK else |data|;
      var written;
      ghost var s := w.View();
      r, written := w.FileWrite(p, data[n..m]);
      if r != Ok {
        CopyFails(w.cfg, w.capacity, s0, s, p, data, n, m);
        return;
      }
      SameButTransitive(s0, s, w.View(), p);
      Assoc(s0.contents[p], data[..n], data[n..m]);
      assert data[..m] == data[..n] + data[n..m];
      n := m;
    }
    assert data[..n] == data;
    r := Ok;
  }

  /** A chunk that does not fit is part of a body that does not fit. */
  lemma CopyFails(cfg: Config, capacity: nat, s0: State, s: State, p: Path, data: seq<Byte>, n: nat, m: nat)
    requires Streams(cfg, s) && s.cur == Some(p) && p in s0.contents && p in s.contents && n <= m <= |data| &&
             s.order == s0.order
    requires s.contents == s0.contents[p := s0.contents[p] + data[..n]]
    ensures WriteCause(cfg, capacity, s.contents[p := s.contents[p] + data[n..m]], s.order) ==>
              WriteCause(cfg, capacity, s0.contents[p := s0.contents[p] + data], s0.order)
  {
    hide Streams, OpenSize, Open, CanFail;
    IsOpen(cfg, s);
    ListedOf(cfg, s);
    OpenLast(cfg, s);
    var contents := s.contents[p := s.contents[p] + data[n..m]];
    OpenGrows(cfg, contents, s.order, data[m..]);
    Assoc(s0.contents[p], data[..n], data[n..m]);
    Assoc(s0.contents[p], data[..n] + data[n..m], data[m..]);
    assert data[..n] + data[n..m] + data[m..] == data;
    assert contents[p := contents[p] + data[m..]] == s0.contents[p := s0.contents[p] + data];
  }

  lemma OpenLast(cfg: Config, s: State)
    requires Streams(cfg, s) && Open(cfg, s)
    ensures s.order != [] && s.cur == Some(s.order[|s.order| - 1])
  {
  }

  lemma SameButTransitive(s: State, s1: State, s2: State, p: Path)
    requires SameBut(s, s1, p) && SameBut(s1, s2, p)
    ensures SameBut(s, s2, p) && s2.cur == s.cur && s2.order == s.order
  {
  }

  /** Filling a file that was just created leaves everything older alone. */
  lemma FilledFrame(cfg: Config, s: State, s2: State, t: Step, created: set<Path>, plan: seq<Step>)
    requires Streams(cfg, s) && Following(s, created, plan) && Creatable(created, t.path) && t.entry.kind.File?
    requires t.path !in s.entries && cfg.blockSize > 0 && t.path !in s.contents
    requires var s1 := Creating(cfg, s, t.path, t.entry);
             SameBut(s1, s2, t.path) && s2.contents == s1.contents[t.path := t.body]
    requires t.path in s2.entries ==> s2.entries[t.path].kind.File?
    ensures Following(s2, created + {t.path}, plan + [t])
  {
    hide Streams, Creating, Tracked, Dir, GoodParts, Matches;
    var p := t.path;
    var s1 := Creating(cfg, s, p, t.entry);
    CreatingFrame(cfg, s, p, t.entry);
    forall q ensures Kept(s, s2, q) { assert Kept(s, s1, q); }
    TrackedAdd(s, s2, created, p);
    PathsAppend(plan, [t]);
    OnePath(t);
    MatchesAdd(s, s2, plan, t);
  }

  /** A file filled from `data`. */
  method MakeFile(w: Writer, p: Path, attrs: Attrs, data: seq<Byte>, created: set<Path>, ghost plan: seq<Step>)
    returns (r: Result)
    requires w.Valid() && Following(w.View(), created, plan) && Creatable(created, p) && ValidAttrs(attrs)
    modifies w
    ensures r == Ok || r == ErrIO
    ensures r == Ok ==>
            w.Valid() && Following(w.View(), created + {p}, plan + [Step(p, Entry(attrs, File(0, [], 0)), data)])
    ensures r == ErrIO ==> IoFails(w.cfg, w.capacity, plan + [Step(p, Entry(attrs, File(0, [], 0)), data)])
  {
    hide Streams, Creating, Following, Creatable, SameBut, ValidAttrs, IoFails, IoCause, WriteCause;
    ghost var s, t := w.View(), Step(p, Entry(attrs, File(0, [], 0)), data);
    CreatedFrame(w.cfg, s, t, created, plan);
    NotListed(w.cfg, s, p);
    CreatingFrame(w.cfg, s, p, t.entry);
    FollowingMatches(s, created, plan);
    CreateFails(w.cfg, w.capacity, s, plan);
    IoFailsMore(w.cfg, w.capacity, plan, [t]);
    FillFails(w.cfg, w.capacity, s, plan, t);
    assert [] + data == data;
    r := w.CreateFile(p, attrs);
    if r != Ok {
      return;
    }
    assert w.contents == s.contents[p := []] && w.entryOrder == s.order + [p];
    assert w.contents[p := w.contents[p] + data] == s.contents[p := data];
    r := CopyBody(w, p, data);
    if r != Ok {
      return;
    }
    StillFile(w.cfg, w.View(), p);
    FilledFrame(w.cfg, s, w.View(), t, created, plan);
  }

  lemma StillFile(cfg: Config, s: State, p: Path)
    requires Streams(cfg, s) && p in s.contents
    ensures p in s.entries && s.entries[p].kind.File?
  {
    hide ValidConfig, ValidKind;
    assert ShapedAt(s, p);
  }

  /** A regular file with at most `remaining` bytes of content. */
  method PutFile(w: Writer, h: Header, p: Path, created: set<Path>, remaining: nat, ghost plan: seq<Step>)
    returns (r: TarResult, n: nat)
    requires w.Valid() && Following(w.View(), created, plan) && Creatable(created, p)
    modifies w
    ensures r == FileVerdict(h, remaining) || r == WriterFailed(ErrIO)
    ensures r == WriterFailed(ErrIO) ==>
              IoFails(w.cfg, w.capacity, plan + [Step(p, Entry(AttrsOf(h), File(0, [], 0)), Limited(h, remaining))])
    ensures r == Done ==> h.bodyOk && n == |h.body| <= remaining
    ensures r == Done ==>
            w.Valid() && Following(w.View(), created + {p}, plan + [Step(p, Entry(AttrsOf(h), File(0, [], 0)), h.body)])
  {
    hide Streams, Following, Creatable, AttrsOf, IoFails;
    var limited := Limited(h, remaining);
    var c := MakeFile(w, p, AttrsOf(h), limited, created, plan);
    if c != Ok {
      return WriterFailed(c), 0;
    }
    if !h.bodyOk && |h.body| <= remaining {
      return BadBody, 0;
    }
    n := |limited|;
    if n > remaining {
      return TooManyBytes, 0;
    }
    r := Done;
  }

  lemma FilesHeld(s: State, created: set<Path>, plan: seq<Step>, p: Path)
    requires Following(s, created, plan)
    ensures HasFile(plan, p) <==> p in s.entries && s.entries[p].kind.File?
  {
    if p in s.entries {
      TrackedIs(s, created, p);
      var i :| 0 <= i < |plan| && plan[i].path == p;
      assert Holds(s, plan[i]);
    }
    if HasFile(plan, p) {
      var i :| 0 <= i < |plan| && plan[i].path == p && plan[i].entry.kind.File?;
      assert Holds(s, plan[i]);
    }
  }

  /** Links, devices, pipes and directories; other headers create nothing. */
  method PutNode(w: Writer, h: Header, p: Path, created: set<Path>, ghost plan: seq<Step>)
    returns (r: TarResult, made: bool)
    requires w.Valid() && Following(w.View(), created, plan) && Creatable(created, p) && h.flag != Reg
    modifies w
    ensures r == NodeVerdict(h, plan) || r == WriterFailed(ErrIO)
    ensures r == WriterFailed(ErrIO) ==> IoFails(w.cfg, w.capacity, plan)
    ensures r == Done ==> (made <==> OwnStep(h, p).Some?)
    ensures r == Done ==>
            w.Valid() && Following(w.View(), if made then created + {p} else created, plan + Optional(OwnStep(h, p)))
  {
    hide Streams, Creating, Following, Creatable, AttrsOf, ValidPath, NormalizeTarPath, IoFails, IoCause, HasFile;
    ghost var s := w.View();
    FollowingMatches(s, created, plan);
    CreateFails(w.cfg, w.capacity, s, plan);
    var c, attrs := Ok, AttrsOf(h);
    var major, minor := h.devmajor % WRAP32, h.devminor % WRAP32;
    if h.flag == LinkFlag {
      var target := NormalizeTarPath(h.linkname);
      if target.None? || target.value == [] {
        return BadLink, false;
      }
      NormalizedIsValid(h.linkname);
    }
    assert plan + [] == plan;
    if OwnStep(h, p).Some? {
      CreatedFrame(w.cfg, s, OwnStep(h, p).value, created, plan);
    }
    match h.flag {
      case DirFlag =>
        c := w.CreateDir(p, attrs);
      case SymFlag =>
        if h.linkname == [] {
          return BadSymlink, false;
        }
        c := w.CreateSymlink(p, attrs, h.linkname);
      case LinkFlag =>
        FilesHeld(s, created, plan, NormalizeTarPath(h.linkname).value);
        c := w.CreateHardlink(p, NormalizeTarPath(h.linkname).value);
      case CharFlag =>
        c := w.CreateCharDevice(p, attrs, major, minor);
      case BlockFlag =>
        c := w.CreateBlockDevice(p, attrs, major, minor);
      case FifoFlag =>
        c := w.CreateFIFO(p, attrs);
      case _ =>
        return Done, false;
    }
    if c != Ok {
      return WriterFailed(c), false;
    }
    return Done, true;
  }

  // ---------------------------------------------------------------- the stream

  ghost predicate Outside(created: set<Path>) {
    forall q :: q in created ==> !Under(INSTALL, q)
  }

  function NewPlan(h: Header, p: Path, created: set<Path>): seq<Step>
    requires ValidPath(p)
  {
    Missing(Ancestors(p), created) + Optional(OwnStep(h, p))
  }

  /** The entry itself, once its parents exist. */
  method PutOwn(w: Writer, h: Header, p: Path, created: set<Path>, remaining: nat, ghost plan: seq<Step>)
    returns (r: TarResult, made: set<Path>, n: nat)
    requires w.Valid() && Following(w.View(), created, plan) && Creatable(created, p)
    modifies w
    ensures r == OwnVerdict(h, plan, remaining) || r == WriterFailed(ErrIO)
    ensures r == WriterFailed(ErrIO) && OwnVerdict(h, plan, remaining) == Done ==>
              IoFails(w.cfg, w.capacity, plan + Optional(OwnStep(h, p)))
    ensures r == Done ==> n <= remaining && n == if h.flag == Reg then |h.body| else 0
    ensures r == Done ==> w.Valid() && Following(w.View(), made, plan + Optional(OwnStep(h, p)))
    ensures made == created || made == created + {p}
  {
    hide Streams, Following, Creatable, OwnStep, AttrsOf, Optional, IoFails, NodeVerdict;
    made, n := created, 0;
    IoFailsMore(w.cfg, w.capacity, plan, Optional(OwnStep(h, p)));
    if h.flag == Reg {
      OwnFile(h, p);
      r, n := PutFile(w, h, p, created, remaining, plan);
      made := created + {p};
    } else {
      var added;
      r, added := PutNode(w, h, p, created, plan);
      if added {
        made := created + {p};
      }
    }
  }

  /** A header for a path that does not exist yet: its missing parents, then the entry. */
  method PutNew(w: Writer, h: Header, p: Path, created: set<Path>, remaining: nat, ghost plan: seq<Step>)
    returns (r: TarResult, made: set<Path>, n: nat)
    requires w.Valid() && Following(w.View(), created, plan) && ValidPath(p) && p !in created
    modifies w
    ensures r == NewVerdict(h, p, plan, remaining) || r == WriterFailed(ErrIO)
    ensures r == WriterFailed(ErrIO) && NewVerdict(h, p, plan, remaining) == Done ==>
              IoFails(w.cfg, w.capacity, plan + NewPlan(h, p, created))
    ensures r == Done ==> n <= remaining && n == if h.flag == Reg then |h.body| else 0
    ensures r == Done ==> w.Valid() && Following(w.View(), made, plan + NewPlan(h, p, created))
    ensures r == Done ==> forall q :: q in made ==> q in created || q == p || q in Ancestors(p)
  {
    hide Streams, Following, Dir, GoodParts, OwnStep, AttrsOf, Missing, Optional, IoFails, OwnVerdict, Ancestors,
      PathsOf;
    n := 0;
    AncestorsShorter(p);
    FollowingMatches(w.View(), created, plan);
    ghost var plan1 := plan + Missing(Ancestors(p), created);
    IoFailsMore(w.cfg, w.capacity, plan1, Optional(OwnStep(h, p)));
    Assoc(plan, Missing(Ancestors(p), created), Optional(OwnStep(h, p)));
    var c;
    c, made := EnsureAncestors(w, p, created, plan);
    if c != Ok {
      return WriterFailed(c), made, 0;
    }
    r, made, n := PutOwn(w, h, p, made, remaining, plan1);
  }

  lemma OwnFile(h: Header, p: Path)
    requires h.flag == Reg
    ensures Optional(OwnStep(h, p)) == [Step(p, Entry(AttrsOf(h), File(0, [], 0)), h.body)]
  {
  }

  /** One header, in the order of the checks the stream loop makes. */
  method PutItem(w: Writer, h: Header, created: set<Path>, remaining: nat, ghost plan: seq<Step>)
    returns (r: TarResult, made: set<Path>, n: nat)
    requires w.Valid() && Following(w.View(), created, plan) && Outside(created)
    modifies w
    ensures r == ItemVerdict(h, plan, remaining) || r == WriterFailed(ErrIO)
    ensures r == WriterFailed(ErrIO) && ItemVerdict(h, plan, remaining) == Done ==>
              IoFails(w.cfg, w.capacity, plan + ItemPlan(h, created))
    ensures r == Done ==> NormalizeTarPath(h.name).Some? && n <= remaining && n == PlanBytes(ItemPlan(h, created))
    ensures r == Done ==> w.Valid() && Following(w.View(), made, plan + ItemPlan(h, created)) && Outside(made)
  {
    hide Streams, Following, NormalizeTarPath, Ancestors, Dir, GoodParts, Under, NewPlan, ItemPlan, PlanBytes, IoFails,
      NewVerdict, PathsOf;
    made, n := created, 0;
    FollowingMatches(w.View(), created, plan);
    if h.size > 0 && h.size > remaining {
      return TooManyBytes, made, 0;
    }
    var name := NormalizeTarPath(h.name);
    if name.None? {
      return BadName, made, 0;
    }
    var p := name.value;
    ItemPlanIs(h, created);
    if p == [] || Under(INSTALL, p) || p in created {
      assert plan + [] == plan;
      return Done, made, 0;
    }
    InstallValid();
    AncestorsOutside(INSTALL, p);
    r, made, n := PutNew(w, h, p, created, remaining, plan);
  }

  lemma ItemPlanIs(h: Header, created: set<Path>)
    requires NormalizeTarPath(h.name).Some?
    ensures var p := NormalizeTarPath(h.name).value;
            if p == [] || Under(INSTALL, p) || p in created then ItemPlan(h, created) == [] &&
                PlanBytes(ItemPlan(h, created)) == 0
            else ValidPath(p) && ItemPlan(h, created) == NewPlan(h, p, created)
                 && PlanBytes(ItemPlan(h, created)) == if h.flag == Reg then |h.body| else 0
  {
    hide NormalizeTarPath, Ancestors, GoodParts, Under, Missing, OwnStep, Optional;
    var p := NormalizeTarPath(h.name).value;
    if p != [] {
      NormalizedIsValid(h.name);
      MissingBytes(Ancestors(p), created);
      BytesAppend(Missing(Ancestors(p), created), Optional(OwnStep(h, p)));
      OwnBytes(h, p);
    }
  }

  lemma InstallValid()
    ensures ValidPath(INSTALL) && Dir(INSTALL) == ROOT
  {
    hide Split, LastSlash;
    TopLevel(INSTALL[1..]);
    assert INSTALL == [SLASH] + INSTALL[1..];
  }

  lemma {:induction false} AncestorsShorter(p: Path)
    requires ValidPath(p)
    ensures p !in Ancestors(p) && forall a :: a in Ancestors(p) ==> |a| < |p|
    decreases |p|
  {
    hide GoodParts, Dir;
    Parent(p);
    if Dir(p) != ROOT { AncestorsShorter(Dir(p)); }
  }

  lemma {:induction false} MissingBytes(ps: seq<Path>, created: set<Path>)
    ensures PlanBytes(Missing(ps, created)) == 0
  {
    if ps != [] {
      MissingBytes(ps[1..], created + {ps[0]});
      BytesAppend(if ps[0] in created then [] else [DirStep(ps[0], RWX)], Missing(ps[1..], created + {ps[0]}));
    }
  }

  lemma OwnBytes(h: Header, p: Path)
    ensures PlanBytes(Optional(OwnStep(h, p))) == if h.flag == Reg then |h.body| else 0
  {
    if OwnStep(h, p).Some? {
      var t := OwnStep(h, p).value;
      assert [t][1..] == [];
    }
  }

  /** The stream loop: entry cap, byte cap, one entry after the other. */
  method StreamTar(w: Writer, items: seq<Item>, caps: Caps) returns (r: TarResult, created: set<Path>)
    requires w.Valid() && Following(w.View(), {}, [])
    modifies w
    ensures r == TarVerdict(items, [], 0, caps) || r == WriterFailed(ErrIO)
    ensures r == WriterFailed(ErrIO) && TarVerdict(items, [], 0, caps) == Done ==>
              IoFails(w.cfg, w.capacity, TarPlan(items, {}))
    ensures r == Done ==> w.Valid() && Following(w.View(), created, TarPlan(items, {})) && Outside(created)
    ensures r == Done ==> |items| <= caps.entryCount && PlanBytes(TarPlan(items, {})) <= caps.totalBytes
    ensures r == Done ==> forall i :: 0 <= i < |items| ==> items[i].Next? && NormalizeTarPath(items[i].h.name).Some?
  {
    hide Streams, ItemPlan, NormalizeTarPath, Following, Under, PlanBytes, PathsOf, IoFails, ItemVerdict;
    created := {};
    ghost var done: seq<Step> := [];
    var entryCount, totalBytes := 0, 0;
    assert items[0..] == items && [] + TarPlan(items, {}) == TarPlan(items, {});
    NoSteps();
    for i := 0 to |items|
      invariant w.Valid() && Following(w.View(), created, done) && Outside(created)
      invariant created == PathsOf(done) && TarPlan(items, {}) == done + TarPlan(items[i..], created)
      invariant TarVerdict(items, [], 0, caps) == TarVerdict(items[i..], done, i, caps)
      invariant totalBytes == PlanBytes(done) <= caps.totalBytes && entryCount == i && (i > 0 ==> i <= caps.entryCount)
      invariant forall j :: 0 <= j < i ==> items[j].Next? && NormalizeTarPath(items[j].h.name).Some?
    {
      if items[i].Broken? {
        return BadHeader, created;
      }
      var h := items[i].h;
      entryCount := entryCount + 1;
      if entryCount > caps.entryCount {
        return TooManyEntries, created;
      }
      ghost var now, rest := ItemPlan(h, created), items[i + 1..];
      assert items[i..][0] == items[i] && items[i..][1..] == rest;
      var n, made;
      Assoc(done, now, TarPlan(rest, created + PathsOf(now)));
      IoFailsMore(w.cfg, w.capacity, done + now, TarPlan(rest, created + PathsOf(now)));
      r, made, n := PutItem(w, h, created, caps.totalBytes - totalBytes, done);
      if r != Done {
        return;
      }
      PathsAppend(done, now);
      BytesAppend(done, now);
      FollowingMatches(w.View(), made, done + now);
      done := done + now;
      created := made;
      totalBytes := totalBytes + n;
    }
    assert items[|items|..] == [] && done + [] == done;
    r := Done;
  }

  lemma NoSteps()
    ensures PlanBytes([]) == 0 && PathsOf([]) == {}
  {
  }

  /** The pipeline's own directory and the agent in it. */
  method InjectInit(w: Writer, initBin: seq<Byte>, created: set<Path>, ghost plan: seq<Step>)
    returns (r: Result, made: set<Path>)
    requires w.Valid() && Following(w.View(), created, plan) && Outside(created)
    modifies w
    ensures r == Ok || r == ErrIO
    ensures r == Ok ==>
            w.Valid() && Following(w.View(), made, plan + InitPlan(initBin)) && made == created + {INSTALL} + {INIT}
    ensures r == ErrIO ==> IoFails(w.cfg, w.capacity, plan + InitPlan(initBin))
  {
    hide Streams, Following, Creatable, ValidAttrs, IoFails;
    IoFailsMore(w.cfg, w.capacity, plan, InitPlan(initBin));
    made, r := created, Ok;
    InitFresh(created);
    ghost var plan1 := plan + [DirStep(INSTALL, RWX)];
    if INSTALL !in made {
      r, made := MakeDir(w, INSTALL, RWX, made, plan);
      if r != Ok {
        return;
      }
    }
    InitSteps(plan, initBin);
    r := MakeFile(w, INIT, DirAttrs(RWX), initBin, made, plan1);
    made := made + {INIT};
  }

  lemma InitFresh(created: set<Path>)
    requires Outside(created)
    ensures INSTALL !in created && Creatable(created, INSTALL) && Creatable(created + {INSTALL}, INIT) &&
            ValidAttrs(DirAttrs(RWX))
  {
    hide GoodParts, Dir;
    InstallValid();
    InitValid();
    assert Under(INSTALL, INSTALL);
  }

  lemma InitSteps(plan: seq<Step>, initBin: seq<Byte>)
    ensures plan + [DirStep(INSTALL, RWX)] + [Step(INIT, Entry(DirAttrs(RWX), File(0, [], 0)), initBin)]
            == plan + InitPlan(initBin)
  {
  }

  lemma InitValid()
    ensures ValidPath(INIT) && Dir(INIT) == INSTALL && INIT != INSTALL && Under(INSTALL, INIT)
  {
    hide Split, LastSlash;
    InstallValid();
    var name := INIT[|INSTALL| + 1..];
    assert INIT == Join(INSTALL, name);
    JoinParent(INSTALL, name);
    assert INIT[1..] == INSTALL[1..] + [SLASH] + name;
    SplitAppend(INSTALL[1..], name);
    SplitNoSlash(name);
    assert INIT[..|INSTALL|] == INSTALL;
  }

  /** Mountpoints the image did not bring along. */
  method EnsureStandardMountpoints(w: Writer, created: set<Path>, ghost plan: seq<Step>)
    returns (r: Result, made: set<Path>)
    requires w.Valid() && Following(w.View(), created, plan)
    modifies w
    ensures r == Ok || r == ErrIO
    ensures r == Ok ==> w.Valid() && Following(w.View(), made, plan + MountPlan(MOUNTPOINTS, created))
    ensures r == ErrIO ==> IoFails(w.cfg, w.capacity, plan + MountPlan(MOUNTPOINTS, created))
  {
    hide Streams, Following, GoodParts, Dir, IoFails;
    made := created;
    ghost var done, ps := plan, MOUNTPOINTS;
    assert ps[0..] == ps;
    for i := 0 to |MOUNTPOINTS|
      invariant w.Valid() && Following(w.View(), made, done)
      invariant plan + MountPlan(ps, created) == done + MountPlan(ps[i..], made)
    {
      var p := MOUNTPOINTS[i];
      assert ps[i..][0] == p && ps[i..][1..] == ps[i + 1..];
      var mode := if p == TMP then STICKY else RWX;
      if p in made {
        assert made + {p} == made;
        assert [] + MountPlan(ps[i + 1..], made) == MountPlan(ps[i + 1..], made);
      } else {
        MountValid(i);
        Assoc(done, [DirStep(p, mode)], MountPlan(ps[i + 1..], made + {p}));
        IoFailsMore(w.cfg, w.capacity, done, MountPlan(ps[i..], made));
        r, made := MakeDir(w, p, mode, made, done);
        if r != Ok {
          return;
        }
        done := done + [DirStep(p, mode)];
      }
    }
    assert ps[|ps|..] == [] && done + [] == done;
    r := Ok;
  }

  lemma MountValid(i: nat)
    requires i < |MOUNTPOINTS|
    ensures ValidPath(MOUNTPOINTS[i]) && Dir(MOUNTPOINTS[i]) == ROOT && !Under(INSTALL, MOUNTPOINTS[i])
  {
    hide Split, LastSlash;
    var p := MOUNTPOINTS[i];
    assert p[0] == SLASH && |p| <= 5 && |p| > 3 && NoSlash(p[1..]);
    TopLevel(p[1..]);
    assert p == [SLASH] + p[1..];
  }
}

/** What the tar pipeline keeps true of the writer it drives. */
module TarState {
  import opened Bytes
  import opened Blocks
  import opened Paths
  import opened Tree
  import opened Entries
  import opened Region
  import opened Streaming

  /** Nothing already created is lost or changed, apart from what sealing a file records about it. */
  ghost predicate Kept(s: State, s': State, q: Path) {
    && (q in s.order ==> q in s'.order)
    && (q in s.entries ==>
          && q in s'.entries && s'.entries[q].attrs == s.entries[q].attrs
          && (if s.entries[q].kind.File? then s'.entries[q].kind.File? else s'.entries[q].kind == s.entries[q].kind))
    && (q in s.contents ==> q in s'.contents && s'.contents[q] == s.contents[q])
  }

  ghost predicate Keeps(s: State, s': State) {
    forall q :: Kept(s, s', q)
  }

  /** `created` is exactly what the writer holds, and is closed under parents. */
  ghost predicate Tracked(s: State, created: set<Path>) {
    && (forall q :: q in created <==> q in s.entries)
    && forall q :: q in created ==> ValidPath(q) && (Dir(q) == ROOT || Dir(q) in created)
  }

  lemma SealingFrame(cfg: Config, s: State)
    requires Streams(cfg, s)
    ensures var s' := Sealing(cfg, s);
            Keeps(s, s') && s'.contents == s.contents && s'.order == s.order && forall q :: q in s'.entries <==>
                q in s.entries
  {
    hide Store, ValidConfig, Shaped;
  }

  /** A successful Create call adds one path. */
  lemma CreatingFrame(cfg: Config, s: State, p: Path, e: Entry)
    requires Streams(cfg, s) && p !in s.entries
    ensures var s' := Creating(cfg, s, p, e);
            && Keeps(s, s') && s'.order == s.order + [p]
            && s'.contents == (if e.kind.File? then s.contents[p := []] else s.contents)
            && (forall q :: q in s'.entries <==> q in s.entries || q == p)
            && s'.entries[p].attrs == e.attrs && (if e.kind.File? then s'.entries[p].kind.File? && s'.cur == Some(p)
                                                  else s'.entries[p].kind == e.kind)
  {
    hide ValidConfig, Sealing, ValidKind, Listed;
    var s1 := Sealing(cfg, s);
    SealingFrame(cfg, s);
    assert p !in s.contents by { assert ShapedAt(s, p); }
    var s' := Creating(cfg, s, p, e);
    forall q ensures Kept(s, s', q) { assert Kept(s, s1, q); }
  }

  lemma TrackedAdd(s: State, s': State, created: set<Path>, p: Path)
    requires Tracked(s, created) && ValidPath(p) && (Dir(p) == ROOT || Dir(p) in created)
    requires forall q :: q in s'.entries <==> q in s.entries || q == p
    ensures Tracked(s', created + {p})
  {
    hide Dir, GoodParts;
  }

  // ---------------------------------------------------------------- plans

  /** One entry to create; a file's kind is a placeholder, its content is `body`. */
  datatype Step = Step(path: Path, entry: Entry, body: seq<Byte>)

  /** The writer holds what the step asks for. */
  ghost predicate Holds(s: State, t: Step) {
    && t.path in s.entries && s.entries[t.path].attrs == t.entry.attrs
    && if t.entry.kind.File? then s.entries[t.path].kind.File? && t.path in s.contents && s.contents[t.path] == t.body
       else s.entries[t.path].kind == t.entry.kind
  }

  /** The writer holds exactly the steps of `plan`, in that order. */
  ghost predicate Matches(s: State, plan: seq<Step>) {
    |s.order| == |plan| && forall i :: 0 <= i < |plan| ==> s.order[i] == plan[i].path && Holds(s, plan[i])
  }

  lemma HoldsKept(s: State, s': State, t: Step)
    requires Holds(s, t) && Keeps(s, s')
    ensures Holds(s', t)
  {
    assert Kept(s, s', t.path);
  }

  lemma MatchesKept(s: State, s': State, plan: seq<Step>)
    requires Matches(s, plan) && Keeps(s, s') && s'.order == s.order
    ensures Matches(s', plan)
  {
    hide Holds, Keeps;
    forall i | 0 <= i < |plan| ensures s'.order[i] == plan[i].path && Holds(s', plan[i]) { HoldsKept(s, s', plan[i]); }
  }

  lemma MatchesAdd(s: State, s': State, plan: seq<Step>, t: Step)
    requires Matches(s, plan) && Keeps(s, s') && s'.order == s.order + [t.path] && Holds(s', t)
    ensures Matches(s', plan + [t])
  {
    hide Holds, Keeps;
    forall i | 0 <= i < |plan + [t]| ensures s'.order[i] == (plan + [t])[i].path && Holds(s', (plan + [t])[i]) {
      if i < |plan| { HoldsKept(s, s', plan[i]); }
    }
  }

  function PlanBytes(plan: seq<Step>): nat {
    if plan == [] then 0 else |plan[0].body| + PlanBytes(plan[1..])
  }

  lemma {:induction false} BytesAppend(a: seq<Step>, b: seq<Step>)
    ensures PlanBytes(a + b) == PlanBytes(a) + PlanBytes(b)
  {
    if a == [] {
      assert a + b == b;
    } else {
      assert (a + b)[1..] == a[1..] + b;
      BytesAppend(a[1..], b);
    }
  }

  /** Bytes the step's content takes in the data region. */
  function StepDisk(cfg: Config, t: Step): nat
    requires cfg.blockSize > 0
  {
    if t.entry.kind.File? then |Extent(cfg.codec, cfg.blockSize, t.body)| else 0
  }

  function PlanDisk(cfg: Config, plan: seq<Step>): nat
    requires cfg.blockSize > 0
  {
    if plan == [] then 0 else PlanDisk(cfg, plan[..|plan| - 1]) + StepDisk(cfg, plan[|plan| - 1])
  }

  lemma {:induction false} DiskGrows(cfg: Config, a: seq<Step>, b: seq<Step>)
    requires cfg.blockSize > 0
    ensures PlanDisk(cfg, a) <= PlanDisk(cfg, a + b)
    decreases |b|
  {
    hide StepDisk;
    if b == [] {
      assert a + b == a;
    } else {
      assert (a + b)[..|a + b| - 1] == a + b[..|b| - 1];
      DiskGrows(cfg, a, b[..|b| - 1]);
    }
  }

  lemma StepData(cfg: Config, s: State, t: Step)
    requires Streams(cfg, s) && Holds(s, t)
    ensures StepDisk(cfg, t) == if t.path in s.contents then |Extent(cfg.codec, cfg.blockSize, s.contents[t.path])|
            else 0
  {
    hide ValidConfig, ValidKind, Extent, Streaming.Closed, Open;
    assert ShapedAt(s, t.path);
  }

  /** A writer that holds a plan will have that much data. */
  lemma {:induction false} PlanData(cfg: Config, s: State, plan: seq<Step>, k: nat)
    requires Streams(cfg, s) && Matches(s, plan) && k <= |plan|
    ensures |DataOf(cfg.codec, cfg.blockSize, s.contents, s.order[..k])| == PlanDisk(cfg, plan[..k])
  {
    hide Streams, Holds, DataOf, StepDisk, Extent;
    assert cfg.blockSize > 0 by { BlockSize(cfg, s); }
    if k == 0 {
      NoData(cfg, s.contents);
    } else {
      PlanData(cfg, s, plan, k - 1);
      assert s.order[..k] == s.order[..k - 1] + [s.order[k - 1]] && plan[..k][..k - 1] == plan[..k - 1];
      DataPush(cfg.codec, cfg.blockSize, s.contents, s.order[..k - 1], s.order[k - 1]);
      StepData(cfg, s, plan[k - 1]);
    }
  }

  lemma NoData(cfg: Config, contents: map<Path, seq<Byte>>)
    requires cfg.blockSize > 0
    ensures DataOf(cfg.codec, cfg.blockSize, contents, []) == []
  {
  }

  lemma BlockSize(cfg: Config, s: State)
    requires Streams(cfg, s)
    ensures cfg.blockSize > 0 && Listed(s.order)
  {
  }

  lemma PlanDataSize(cfg: Config, s: State, plan: seq<Step>)
    requires Streams(cfg, s) && Matches(s, plan)
    ensures cfg.blockSize > 0 && DataSize(cfg, s.contents, s.order) == PlanDisk(cfg, plan)
  {
    hide Streams, Holds, DataOf;
    BlockSize(cfg, s);
    PlanData(cfg, s, plan, |plan|);
    assert s.order[..|plan|] == s.order && plan[..|plan|] == plan;
  }

  function PathsOf(plan: seq<Step>): set<Path> {
    set i | 0 <= i < |plan| :: plan[i].path
  }

  lemma PathsAppend(a: seq<Step>, b: seq<Step>)
    ensures PathsOf(a + b) == PathsOf(a) + PathsOf(b)
  {
    var ab := a + b;
    forall p ensures p in PathsOf(ab) <==> p in PathsOf(a) || p in PathsOf(b) {
      if p in PathsOf(a) {
        var i :| 0 <= i < |a| && a[i].path == p;
        assert ab[i].path == p;
      }
      if p in PathsOf(b) {
        var i :| 0 <= i < |b| && b[i].path == p;
        assert ab[|a| + i].path == p;
      }
      if p in PathsOf(ab) {
        var i :| 0 <= i < |ab| && ab[i].path == p;
        assert if i < |a| then a[i].path == p else b[i - |a|].path == p;
      }
    }
  }

  lemma NotListed(cfg: Config, s: State, p: Path)
    requires Streams(cfg, s) && p !in s.entries
    ensures p !in s.order && p !in s.contents
  {
    hide ValidConfig, ValidKind;
    assert ShapedAt(s, p);
  }
}

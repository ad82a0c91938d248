/** How many children the directories of a plan get: one header of the tar adds at most one child to any directory. */
module PlanWidth {
  import opened Bytes
  import opened Names
  import opened Paths
  import opened Tree
  import opened Finalize
  import opened TarPaths
  import opened TarState
  import opened TarImage

  /** Steps that create something directly below `d`. */
  function StepsIn(plan: seq<Step>, d: Path): nat {
    if plan == [] then 0 else (if IsChild(plan[0].path, d) then 1 else 0) + StepsIn(plan[1..], d)
  }

  lemma {:induction false} StepsAppend(a: seq<Step>, b: seq<Step>, d: Path)
    ensures StepsIn(a + b, d) == StepsIn(a, d) + StepsIn(b, d)
  {
    hide IsChild;
    if a == [] {
      assert a + b == b;
    } else {
      assert (a + b)[0] == a[0] && (a + b)[1..] == a[1..] + b;
      StepsAppend(a[1..], b, d);
    }
  }

  /** A writer that holds the plan has that many children there. */
  lemma {:induction false} StepsAreChildren(plan: seq<Step>, order: seq<Path>, d: Path)
    requires |order| == |plan| && forall i :: 0 <= i < |plan| ==> order[i] == plan[i].path
    ensures |ChildrenOf(order, d)| == StepsIn(plan, d)
  {
    hide IsChild;
    if plan != [] { StepsAreChildren(plan[1..], order[1..], d); }
  }

  lemma {:induction false} MissingIn(ps: seq<Path>, created: set<Path>, d: Path)
    ensures StepsIn(Missing(ps, created), d) <= |ChildrenOf(ps, d)|
  {
    hide IsChild;
    if ps != [] {
      var now: seq<Step> := if ps[0] in created then [] else [DirStep(ps[0], RWX)];
      MissingIn(ps[1..], created + {ps[0]}, d);
      StepsAppend(now, Missing(ps[1..], created + {ps[0]}), d);
    }
  }

  /** The paths from the top down to `p` all have different parents. */
  lemma {:induction false} OneChildEach(p: Path, d: Path)
    requires ValidPath(p)
    ensures |ChildrenOf(Ancestors(p) + [p], d)| <= 1
    ensures |d| >= |p| ==> ChildrenOf(Ancestors(p) + [p], d) == []
    decreases |p|
  {
    hide GoodParts, Dir;
    Parent(p);
    var up := Ancestors(p);
    ChildrenPush(up, p, d);
    if Dir(p) == ROOT {
      assert up == [];
    } else {
      OneChildEach(Dir(p), d);
    }
  }

  lemma OwnIn(h: Header, p: Path, d: Path)
    ensures StepsIn(Optional(OwnStep(h, p)), d) <= if IsChild(p, d) then 1 else 0
  {
    hide IsChild, NormalizeTarPath, AttrsOf;
  }

  /** One header, at most one child per directory. */
  lemma ItemIn(h: Header, created: set<Path>, d: Path)
    ensures StepsIn(ItemPlan(h, created), d) <= 1
  {
    hide IsChild, NormalizeTarPath, Under, Missing, OwnStep, Optional, GoodParts;
    var n := NormalizeTarPath(h.name);
    if n.Some? && n.value != [] && !Under(INSTALL, n.value) && n.value !in created {
      var p := n.value;
      NormalizedIsValid(h.name);
      OneChildEach(p, d);
      ChildrenPush(Ancestors(p), p, d);
      MissingIn(Ancestors(p), created, d);
      OwnIn(h, p, d);
      StepsAppend(Missing(Ancestors(p), created), Optional(OwnStep(h, p)), d);
    }
  }

  lemma {:induction false} TarIn(items: seq<Item>, created: set<Path>, d: Path)
    ensures StepsIn(TarPlan(items, created), d) <= |items|
  {
    hide IsChild, ItemPlan, PathsOf;
    if items != [] && items[0].Next? {
      var now := ItemPlan(items[0].h, created);
      ItemIn(items[0].h, created, d);
      TarIn(items[1..], created + PathsOf(now), d);
      StepsAppend(now, TarPlan(items[1..], created + PathsOf(now)), d);
    }
  }

  lemma {:induction false} StepsFew(plan: seq<Step>, d: Path)
    ensures StepsIn(plan, d) <= |plan|
  {
    hide IsChild;
    if plan != [] { StepsFew(plan[1..], d); }
  }

  lemma {:induction false} MountFew(ps: seq<Path>, created: set<Path>)
    ensures |MountPlan(ps, created)| <= |ps|
  {
    if ps != [] { MountFew(ps[1..], created + {ps[0]}); }
  }

  /** What the pipeline adds of its own: its directory, the init agent and five mountpoints. */
  const OWN_STEPS: nat := 7

  /** No directory of the image gets more children than the tar has headers, and the pipeline's own. */
  lemma ImageIn(items: seq<Item>, initBin: seq<Byte>, d: Path)
    ensures StepsIn(ImagePlan(items, initBin), d) <= |items| + OWN_STEPS
  {
    hide StepsIn, TarPlan, MountPlan, PathsOf;
    var tar, mine := TarPlan(items, {}), InitPlan(initBin);
    var core := tar + mine;
    var mounts := MountPlan(MOUNTPOINTS, PathsOf(core));
    TarIn(items, {}, d);
    StepsFew(mine, d);
    MountFew(MOUNTPOINTS, PathsOf(core));
    StepsFew(mounts, d);
    StepsAppend(tar, mine, d);
    StepsAppend(core, mounts, d);
  }

  /** Every directory stays below the size at which a listing length could wrap. */
  ghost predicate SmallPlan(plan: seq<Step>) {
    forall d :: StepsIn(plan, d) <= MAX_CHILDREN
  }

  lemma FewHeaders(items: seq<Item>, initBin: seq<Byte>)
    requires |items| + OWN_STEPS <= MAX_CHILDREN
    ensures SmallPlan(ImagePlan(items, initBin))
  {
    hide StepsIn, ImagePlan;
    forall d ensures StepsIn(ImagePlan(items, initBin), d) <= MAX_CHILDREN { ImageIn(items, initBin, d); }
  }

  lemma SmallPlanDirs(plan: seq<Step>, order: seq<Path>)
    requires SmallPlan(plan) && |order| == |plan| && forall i :: 0 <= i < |plan| ==> order[i] == plan[i].path
    ensures SmallDirs(order)
  {
    hide StepsIn, ChildrenOf, SortBy;
    forall d ensures |Kids(order, d)| <= MAX_CHILDREN {
      StepsAreChildren(plan, order, d);
      SameElements(Kids(order, d), ChildrenOf(order, d));
      assert StepsIn(plan, d) <= MAX_CHILDREN;
    }
  }
}

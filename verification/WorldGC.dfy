/** Removing stored worlds that no live server claims, while servers come, go and upload. */
module WorldGC {
  import opened Bytes

  // ---------------------------------------------------------------- keys

  predicate SafeChar(c: char) {
    'a' <= c <= 'z' || 'A' <= c <= 'Z' || '0' <= c <= '9' || c == '.' || c == '_' || c == '-'
  }

  function Squash(s: string): string {
    if s == [] then [] else [if SafeChar(s[0]) then s[0] else '_'] + Squash(s[1..])
  }

  /** The token a server id is stored under. */
  function SafeKey(id: string): string { if id == [] then "_" else Squash(id) }

  predicate Safe(s: string) { s != [] && forall i :: 0 <= i < |s| ==> SafeChar(s[i]) }

  lemma {:induction false} SquashAt(s: string)
    ensures |Squash(s)| == |s| && forall i :: 0 <= i < |s| ==> Squash(s)[i] == if SafeChar(s[i]) then s[i] else '_'
  {
    if s != [] { SquashAt(s[1..]); }
  }

  /** Keys are safe, and a key is its own key: what the store lists goes back in unchanged. */
  lemma SafeKeyIdempotent(id: string)
    ensures Safe(SafeKey(id)) && SafeKey(SafeKey(id)) == SafeKey(id)
  {
    SquashAt(id);
    SafeIsKey(SafeKey(id));
  }

  lemma SafeIsKey(id: string)
    requires Safe(id)
    ensures SafeKey(id) == id
  {
    SquashAt(id);
  }

  /** The builder loop. */
  method BuildKey(id: string) returns (key: string)
    ensures key == SafeKey(id)
  {
    SquashAt(id);
    var b: string := [];
    for i := 0 to |id|
      invariant b == Squash(id)[..i]
    {
      var c := id[i];
      if 'a' <= c <= 'z' || 'A' <= c <= 'Z' || '0' <= c <= '9' || c == '.' || c == '_' || c == '-' {
        b := b + [c];
      } else {
        b := b + ['_'];
      }
    }
    if |b| == 0 {
      return "_";
    }
    assert Squash(id)[..|id|] == Squash(id);
    key := b;
  }

  // ---------------------------------------------------------------- one pass

  /** Keys no listed server claims. */
  predicate Claimed(live: seq<string>, key: string) {
    exists i :: 0 <= i < |live| && SafeKey(live[i]) == key
  }

  class WorldStore {
    var keys: set<string>

    constructor ()
      ensures keys == {}
    {
      keys := {};
    }

    /** `ok` is whether the backend manages it; a missing key is not an error. */
    method Delete(key: string, ok: bool)
      modifies this
      ensures keys == if ok then old(keys) - {SafeKey(key)} else old(keys)
    {
      if ok { keys := keys - {SafeKey(key)}; }
    }
  }

  /** A stored world that no listed server claims, and that the backend does delete. */
  predicate Orphan(live: seq<string>, fails: set<string>, key: string) { !Claimed(live, key) && key !in fails }

  ghost function OrphansBelow(live: seq<string>, fails: set<string>, stored: seq<string>, n: nat): set<int>
    requires n <= |stored|
  {
    set i | 0 <= i < n && Orphan(live, fails, stored[i])
  }

  lemma OneMore(live: seq<string>, fails: set<string>, stored: seq<string>, n: nat)
    requires n < |stored|
    ensures |OrphansBelow(live, fails, stored, n + 1)|
            == |OrphansBelow(live, fails, stored, n)| + if Orphan(live, fails, stored[n]) then 1 else 0
  {
    hide Orphan, OrphansBelow;
    var a, b := OrphansBelow(live, fails, stored, n), OrphansBelow(live, fails, stored, n + 1);
    var here: set<int> := if Orphan(live, fails, stored[n]) then {n} else {};
    forall i: int ensures i in b <==> i in a + here {
      BelowHas(live, fails, stored, n, i);
      BelowHas(live, fails, stored, n + 1, i);
    }
    assert b == a + here;
    BelowHas(live, fails, stored, n, n);
  }

  lemma BelowHas(live: seq<string>, fails: set<string>, stored: seq<string>, n: nat, i: int)
    requires n <= |stored|
    ensures i in OrphansBelow(live, fails, stored, n) <==> 0 <= i < n && Orphan(live, fails, stored[i])
  {
  }

  /** The reaper's pass: `stored` was listed first, `ids` after it; without the second list nothing is touched. */
  method ReapWorlds(store: WorldStore, stored: seq<string>, ids: Option<seq<string>>, fails: set<string>)
    returns (removed: nat)
    requires forall i :: 0 <= i < |stored| ==> Safe(stored[i])
    modifies store
    ensures ids.None? || stored == [] ==> store.keys == old(store.keys) && removed == 0
    ensures ids.Some? ==> forall k :: k in store.keys <==>
              k in old(store.keys) && !(k in stored && !Claimed(ids.value, k) && k !in fails)
    ensures ids.Some? ==> removed == |set i | 0 <= i < |stored| && Orphan(ids.value, fails, stored[i])|
  {
    removed := 0;
    if |stored| == 0 || ids.None? {
      return;
    }
    var live := ids.value;
    var claimed: set<string> := {};
    for i := 0 to |live|
      invariant store.keys == old(store.keys)
      invariant forall k :: k in claimed <==> exists j :: 0 <= j < i && SafeKey(live[j]) == k
    {
      var key := BuildKey(live[i]);
      claimed := claimed + {key};
    }
    assert forall k :: k in claimed <==> Claimed(live, k);
    assert stored[..0] == [];
    assert OrphansBelow(live, fails, stored, 0) == {};
    for i := 0 to |stored|
      invariant removed == |OrphansBelow(live, fails, stored, i)|
      invariant forall k :: k in store.keys <==>
                k in old(store.keys) && !(k in stored[..i] && !Claimed(live, k) && k !in fails)
    {
      var key := stored[i];
      assert stored[..i + 1] == stored[..i] + [key];
      OneMore(live, fails, stored, i);
      if key !in claimed {
        SafeIsKey(key);
        store.Delete(key, key !in fails);
        if key !in fails {
          removed := removed + 1;
        }
      }
    }
    assert stored[..|stored|] == stored;
  }

  // ---------------------------------------------------------------- interleavings

  datatype Pass = NotRunning | Listed(stored: set<string>) | Sweeping(stored: set<string>, live: set<string>)

  /** Servers ever created, those deleted, what is stored, and where the reaper is. */
  datatype World = World(created: set<string>, deleted: set<string>, store: set<string>, pass: Pass)

  datatype Act = Create(id: string) | SoftDelete(id: string) | Upload(id: string) | Teardown(id: string)
               | ListStore | ListLive | Sweep(key: string) | Finish

  const EMPTY_WORLD: World := World({}, {}, {}, NotRunning)

  predicate ClaimedBy(ids: set<string>, key: string) { exists id :: id in ids && SafeKey(id) == key }

  /** Server ids are never used before; deletion is for good. */
  function Do(w: World, a: Act): Option<World> {
    match a
    case Create(id) => if id in w.created then None else Some(w.(created := w.created + {id}))
    case SoftDelete(id) => if id !in w.created then None else Some(w.(deleted := w.deleted + {id}))
    case Upload(id) => if id !in w.created then None else Some(w.(store := w.store + {SafeKey(id)}))
    case Teardown(id) => if id !in w.deleted then None else Some(w.(store := w.store - {SafeKey(id)}))
    case ListStore => Some(w.(pass := Listed(w.store)))
    case ListLive => if !w.pass.Listed? then None else Some(w.(pass := Sweeping(w.pass.stored, w.created - w.deleted)))
    case Sweep(key) =>
      if !w.pass.Sweeping? || key !in w.pass.stored || ClaimedBy(w.pass.live, key) then None
      else Some(w.(store := w.store - {key}))
    case Finish => Some(w.(pass := NotRunning))
  }

  function Doing(w: World, acts: seq<Act>): Option<World>
    decreases |acts|
  {
    if acts == [] then Some(w) else
    var v :- Doing(w, acts[..|acts| - 1]);
    Do(v, acts[|acts| - 1])
  }

  /** The pass as it stands would remove no world of a live server. */
  ghost predicate Harmless(w: World) {
    forall id :: id in w.created && id !in w.deleted ==> Do(w, Sweep(SafeKey(id))).None?
  }

  /** A server is created, after the live servers were listed, under the key of a listed world that none of them
      claims. */
  predicate Reuses(w: World, a: Act) {
    a.Create? && w.pass.Sweeping? && SafeKey(a.id) in w.pass.stored && !ClaimedBy(w.pass.live, SafeKey(a.id))
  }

  ghost predicate KeysOf(created: set<string>, keys: set<string>) {
    forall k :: k in keys ==> ClaimedBy(created, k)
  }

  /** Only created servers are deleted and have worlds. */
  ghost predicate Sane(w: World) {
    && w.deleted <= w.created && KeysOf(w.created, w.store)
    && (!w.pass.NotRunning? ==> KeysOf(w.created, w.pass.stored))
  }

  lemma StillClaimed(a: set<string>, b: set<string>, keys: set<string>)
    requires KeysOf(a, keys) && a <= b
    ensures KeysOf(b, keys)
  {
    hide SafeKey;
    forall k | k in keys ensures ClaimedBy(b, k) {
      assert ClaimedBy(a, k);
      var id :| id in a && SafeKey(id) == k;
      assert id in b;
    }
  }

  lemma DoSane(w: World, a: Act)
    requires Sane(w) && Do(w, a).Some?
    ensures Sane(Do(w, a).value)
  {
    hide SafeKey;
    var v := Do(w, a).value;
    StillClaimed(w.created, v.created, w.store);
    if !w.pass.NotRunning? { StillClaimed(w.created, v.created, w.pass.stored); }
    if a.Upload? { assert ClaimedBy(w.created, SafeKey(a.id)); }
  }

  lemma {:induction false} RunSane(acts: seq<Act>)
    requires Doing(EMPTY_WORLD, acts).Some?
    ensures Sane(Doing(EMPTY_WORLD, acts).value)
    decreases |acts|
  {
    hide Do;
    if acts != [] {
      hide Sane;
      RunSane(acts[..|acts| - 1]);
      DoSane(Doing(EMPTY_WORLD, acts[..|acts| - 1]).value, acts[|acts| - 1]);
    }
  }

  /** The condition is exact: of everything that can interleave with a pass, exactly the reuse of a listed key puts
      the world of a live server at its mercy. */
  lemma HarmlessStep(w: World, a: Act)
    requires Sane(w) && Harmless(w) && Do(w, a).Some?
    ensures Harmless(Do(w, a).value) <==> !Reuses(w, a)
  {
    hide SafeKey;
    var v := Do(w, a).value;
    if Reuses(w, a) {
      assert a.id in v.created && a.id !in v.deleted;
      assert Do(v, Sweep(SafeKey(a.id))).Some?;
    } else {
      forall id | id in v.created && id !in v.deleted ensures Do(v, Sweep(SafeKey(id))).None? {
        if id in w.created { assert Do(w, Sweep(SafeKey(id))).None?; }
        if a.ListLive? { assert ClaimedBy(v.pass.live, SafeKey(id)); }
      }
    }
  }

  ghost predicate Unreused(acts: seq<Act>)
    decreases |acts|
  {
    acts == [] ||
    (var before, a := acts[..|acts| - 1], acts[|acts| - 1];
     Unreused(before) && (Doing(EMPTY_WORLD, before).Some? ==> !Reuses(Doing(EMPTY_WORLD, before).value, a)))
  }

  lemma {:induction false} RunHarmless(acts: seq<Act>)
    requires Doing(EMPTY_WORLD, acts).Some? && Unreused(acts)
    ensures Harmless(Doing(EMPTY_WORLD, acts).value)
    decreases |acts|
  {
    hide Do, Reuses;
    if acts != [] {
      hide Harmless;
      var before := acts[..|acts| - 1];
      RunHarmless(before);
      RunSane(before);
      HarmlessStep(Doing(EMPTY_WORLD, before).value, acts[|acts| - 1]);
    }
  }

  /** Whatever interleaves with the pass, if no listed key is reused it never removes the world of a server that is
      live at that moment. */
  lemma NeverReapsLive(acts: seq<Act>, key: string, id: string)
    requires Doing(EMPTY_WORLD, acts).Some? && Unreused(acts) && Do(Doing(EMPTY_WORLD, acts).value, Sweep(key)).Some?
    requires id in Doing(EMPTY_WORLD, acts).value.created && id !in Doing(EMPTY_WORLD, acts).value.deleted
    ensures SafeKey(id) != key
  {
    hide Doing, SafeKey;
    RunHarmless(acts);
  }

  /** Every server gets a key that no server had before it, as generated ids do. */
  ghost predicate DistinctKeys(acts: seq<Act>) {
    forall i, j :: 0 <= i < j < |acts| && acts[i].Create? && acts[j].Create? ==>
        SafeKey(acts[i].id) != SafeKey(acts[j].id)
  }

  lemma {:induction false} CreatedEarlier(acts: seq<Act>, id: string)
    requires Doing(EMPTY_WORLD, acts).Some? && id in Doing(EMPTY_WORLD, acts).value.created
    ensures exists i :: 0 <= i < |acts| && acts[i] == Create(id)
    decreases |acts|
  {
    var k := |acts| - 1;
    if acts[k] != Create(id) {
      CreatedEarlier(acts[..k], id);
      var i :| 0 <= i < k && acts[..k][i] == Create(id);
      assert acts[i] == Create(id);
    }
  }

  lemma KeyIsNew(acts: seq<Act>, k: nat, id: string)
    requires DistinctKeys(acts) && k < |acts| && acts[k].Create? && Doing(EMPTY_WORLD, acts[..k]).Some?
    requires id in Doing(EMPTY_WORLD, acts[..k]).value.created
    ensures SafeKey(id) != SafeKey(acts[k].id)
  {
    hide Do, SafeKey;
    CreatedEarlier(acts[..k], id);
    var i :| 0 <= i < k && acts[..k][i] == Create(id);
    assert acts[i] == Create(id);
  }

  /** That is enough. */
  lemma {:induction false} DistinctNeverReuse(acts: seq<Act>)
    requires DistinctKeys(acts)
    ensures Unreused(acts)
    decreases |acts|
  {
    hide Do, SafeKey;
    if acts != [] {
      var k := |acts| - 1;
      var before, a := acts[..k], acts[k];
      DistinctNeverReuse(before);
      if Doing(EMPTY_WORLD, before).Some? && a.Create? {
        var w := Doing(EMPTY_WORLD, before).value;
        RunSane(before);
        forall id | id in w.created ensures SafeKey(id) != SafeKey(a.id) { KeyIsNew(acts, k, id); }
        assert !ClaimedBy(w.created, SafeKey(a.id));
      }
    }
  }

  /** And without it the pass does: the first server is deleted and leaves its world behind, both lists are taken,
      the second server comes under the same key and uploads, and the sweep removes its world. */
  lemma ReusedKeyIsReaped(a: string, b: string)
    requires a != b && SafeKey(a) == SafeKey(b)
    ensures var acts := [Create(a), Upload(a), SoftDelete(a), ListStore, ListLive, Create(b), Upload(b),
                         Sweep(SafeKey(b))];
            && Doing(EMPTY_WORLD, acts).Some?
            && var w := Doing(EMPTY_WORLD, acts).value; b in w.created && b !in w.deleted && SafeKey(b) !in w.store
  {
    hide SafeKey;
    var key := SafeKey(a);
    assert {} + {a} == {a} && {} + {key} == {key};
    var acts := [Create(a), Upload(a), SoftDelete(a), ListStore, ListLive, Create(b), Upload(b), Sweep(SafeKey(b))];
    var w1 := World({a}, {}, {}, NotRunning);
    var w3 := World({a}, {a}, {key}, NotRunning);
    var w5 := World({a}, {a}, {key}, Sweeping({key}, {}));
    var w7 := World({a, b}, {a}, {key}, Sweeping({key}, {}));
    Unrolled(acts, 1, EMPTY_WORLD, w1);
    Unrolled(acts, 2, w1, w1.(store := {key}));
    Unrolled(acts, 3, w1.(store := {key}), w3);
    Unrolled(acts, 4, w3, w3.(pass := Listed({key})));
    assert {a} - {a} == {};
    Unrolled(acts, 5, w3.(pass := Listed({key})), w5);
    assert {a} + {b} == {a, b};
    Unrolled(acts, 6, w5, w5.(created := {a, b}));
    Unrolled(acts, 7, w5.(created := {a, b}), w7);
    Unrolled(acts, 8, w7, w7.(store := {}));
    assert acts[..8] == acts;
  }

  lemma Unrolled(acts: seq<Act>, k: nat, w: World, v: World)
    requires 0 < k <= |acts| && Do(w, acts[k - 1]) == Some(v)
    requires if k == 1 then w == EMPTY_WORLD else Doing(EMPTY_WORLD, acts[..k - 1]) == Some(w)
    ensures Doing(EMPTY_WORLD, acts[..k]) == Some(v)
  {
    hide Do;
    assert acts[..k][..k - 1] == acts[..k - 1];
  }

  /** Two ids with one key. */
  lemma SameKey()
    ensures SafeKey("a/b") == SafeKey("a_b") == "a_b"
  {
    SquashAt("a/b");
    SquashAt("a_b");
  }

  /** A pass that has both lists can remove a key if and only if it was stored and no server that was live then has it;
      removing it is all it does. */
  lemma PassRemovesOrphans(w: World, key: string)
    ensures var a := Do(w, ListStore);
            && a.Some? && var b := Do(a.value, ListLive);
            && b.Some? && b.value == w.(pass := b.value.pass)
            && (Do(b.value, Sweep(key)).Some? <==>
                  key in w.store && forall id :: id in w.created && id !in w.deleted ==> SafeKey(id) != key)
            && (Do(b.value, Sweep(key)).Some? ==> Do(b.value, Sweep(key)).value == b.value.(store := w.store - {key}))
  {
    hide SafeKey;
    var v := Do(Do(w, ListStore).value, ListLive).value;
    if ClaimedBy(v.pass.live, key) {
      var id :| id in v.pass.live && SafeKey(id) == key;
      assert id in w.created && id !in w.deleted;
    }
    forall id | id in w.created && id !in w.deleted && SafeKey(id) == key ensures ClaimedBy(v.pass.live, key) {
      assert id in v.pass.live;
    }
  }

  /** A server's upload is stored under its key, and its teardown takes that away again. */
  lemma UploadTeardown(w: World, id: string)
    requires id in w.created && id in w.deleted
    ensures Do(w, Upload(id)).Some? && SafeKey(id) in Do(w, Upload(id)).value.store
    ensures var v := Do(w, Upload(id)).value;
            Do(v, Teardown(id)).Some? && Do(v, Teardown(id)).value == w.(store := w.store - {SafeKey(id)})
  {
    hide SafeKey;
    assert w.store + {SafeKey(id)} - {SafeKey(id)} == w.store - {SafeKey(id)};
  }

  /** The order of the two lists matters: listing servers first and the store second would reap the world of a
      server created and uploaded in between. */
  lemma OtherOrderReapsLive(id: string)
    ensures Doing(EMPTY_WORLD, [Create(id), Upload(id)]).Some?
    ensures var w := Doing(EMPTY_WORLD, [Create(id), Upload(id)]).value;
            var v := w.(pass := Sweeping(w.store, EMPTY_WORLD.created - EMPTY_WORLD.deleted));
            && id in v.created && id !in v.deleted && SafeKey(id) in v.store
            && Do(v, Sweep(SafeKey(id))) == Some(v.(store := v.store - {SafeKey(id)}))
  {
    var acts := [Create(id), Upload(id)];
    assert acts[..1] == [Create(id)] && acts[..1][..0] == [];
    assert Doing(EMPTY_WORLD, acts[..1][..0]) == Some(EMPTY_WORLD);
    assert Doing(EMPTY_WORLD, acts[..1]) == Do(EMPTY_WORLD, Create(id));
  }
}

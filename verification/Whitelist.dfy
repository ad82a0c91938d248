/** Reconciling a server's in-game whitelist with the granted players. */
module Whitelist {
  import opened Bytes
  import opened Names

  /** Space, tab, newline, vertical tab, form feed, carriage return. */
  predicate IsSpace(b: Byte) { b == 32 || 9 <= b <= 13 }

  function TrimLeft(s: Name): Name { if s != [] && IsSpace(s[0]) then TrimLeft(s[1..]) else s }

  function TrimRight(s: Name): Name
    decreases |s|
  {
    if s != [] && IsSpace(s[|s| - 1]) then TrimRight(s[..|s| - 1]) else s
  }

  function Trim(s: Name): Name { TrimRight(TrimLeft(s)) }

  ghost predicate Blank(s: Name) {
    forall i :: 0 <= i < |s| ==> s[i] in {9, 10, 11, 12, 13, 32}
  }

  lemma {:induction false} TrimLeftSpec(s: Name) returns (a: Name)
    ensures s == a + TrimLeft(s) && Blank(a)
    ensures TrimLeft(s) != [] ==> TrimLeft(s)[0] !in {9, 10, 11, 12, 13, 32}
  {
    a := [];
    if s != [] && IsSpace(s[0]) {
      var b := TrimLeftSpec(s[1..]);
      a := [s[0]] + b;
      assert s == [s[0]] + s[1..];
      Assoc([s[0]], b, TrimLeft(s[1..]));
    } else {
      assert TrimLeft(s) == s;
    }
  }

  lemma {:induction false} TrimRightSpec(s: Name) returns (b: Name)
    ensures s == TrimRight(s) + b && Blank(b)
    ensures TrimRight(s) != [] ==> TrimRight(s)[|TrimRight(s)| - 1] !in {9, 10, 11, 12, 13, 32}
    decreases |s|
  {
    b := [];
    if s != [] && IsSpace(s[|s| - 1]) {
      var init, last := s[..|s| - 1], s[|s| - 1];
      var c := TrimRightSpec(init);
      b := c + [last];
      assert TrimRight(s) == TrimRight(init);
      assert s == init + [last];
      Assoc(TrimRight(init), c, [last]);
    } else {
      assert TrimRight(s) == s;
    }
  }

  /** Trimming cuts blanks off both ends, all of them, and nothing else. */
  lemma TrimSpec(s: Name) returns (a: Name, b: Name)
    ensures s == a + Trim(s) + b && Blank(a) && Blank(b)
    ensures var t := Trim(s);
            t != [] ==> t[0] !in {9, 10, 11, 12, 13, 32} && t[|t| - 1] !in {9, 10, 11, 12, 13, 32}
  {
    hide TrimLeft, TrimRight;
    a := TrimLeftSpec(s);
    b := TrimRightSpec(TrimLeft(s));
    assert a + (Trim(s) + b) == a + Trim(s) + b;
    if Trim(s) != [] { assert Trim(s)[0] == TrimLeft(s)[0]; }
  }

  /** Lower-case form to spelling; a later spelling replaces an earlier one, blanks are skipped. */
  function LowerIndex(low: Name -> Name, names: seq<Name>): map<Name, Name> {
    if names == [] then map[] else
    var m := LowerIndex(low, names[..|names| - 1]);
    var n := Trim(names[|names| - 1]);
    if n == [] then m else m[low(n) := n]
  }

  /** Every spelling is filed under its own lower-case form. */
  ghost predicate Indexed(low: Name -> Name, m: map<Name, Name>) {
    forall k :: k in m ==> low(m[k]) == k
  }

  lemma {:induction false} IndexIndexed(low: Name -> Name, names: seq<Name>)
    ensures Indexed(low, LowerIndex(low, names))
    decreases |names|
  {
    if names != [] { IndexIndexed(low, names[..|names| - 1]); }
  }

  /** Who is on a list: the lower-case forms of its non-blank names. */
  ghost predicate OnList(low: Name -> Name, names: seq<Name>, k: Name) {
    exists i :: 0 <= i < |names| && Trim(names[i]) != [] && low(Trim(names[i])) == k
  }

  lemma {:induction false} IndexKeys(low: Name -> Name, names: seq<Name>, k: Name)
    ensures k in LowerIndex(low, names) <==> OnList(low, names, k)
    decreases |names|
  {
    if names != [] {
      var init, last := names[..|names| - 1], names[|names| - 1];
      IndexKeys(low, init, k);
      if OnList(low, init, k) {
        var i :| 0 <= i < |init| && Trim(init[i]) != [] && low(Trim(init[i])) == k;
        assert names[i] == init[i];
      }
      if OnList(low, names, k) {
        var i :| 0 <= i < |names| && Trim(names[i]) != [] && low(Trim(names[i])) == k;
        assert i < |init| ==> init[i] == names[i];
      }
    }
  }

  // ---------------------------------------------------------------- commands

  datatype Cmd = Add(name: Name) | Remove(name: Name) | On | Off

  /** A server's whitelist ignores case: it is a set of lower-case forms. */
  datatype Server = Server(players: set<Name>, enforced: bool)

  function Exec(low: Name -> Name, s: Server, c: Cmd): Server {
    match c
    case Add(n) => s.(players := s.players + {low(n)})
    case Remove(n) => s.(players := s.players - {low(n)})
    case On => s.(enforced := true)
    case Off => s.(enforced := false)
  }

  function ExecAll(low: Name -> Name, s: Server, cs: seq<Cmd>): Server
    decreases |cs|
  {
    if cs == [] then s else Exec(low, ExecAll(low, s, cs[..|cs| - 1]), cs[|cs| - 1])
  }

  function Self(n: Name): Name { n }

  /** Spellings of the keys of `a` that `b` lacks. */
  ghost function Extra(a: map<Name, Name>, b: map<Name, Name>): set<Name> {
    set k | k in a && k !in b :: a[k]
  }

  /** `ns` lists exactly the spellings in `a` that are not in `b`, in byte order. */
  ghost predicate SortedExtra(a: map<Name, Name>, b: map<Name, Name>, ns: seq<Name>) {
    Ascending(Self, ns) && forall n :: n in ns <==> n in Extra(a, b)
  }

  /** There is only one such list: the order a map is walked in cannot show. */
  lemma OneSortedExtra(a: map<Name, Name>, b: map<Name, Name>, ns: seq<Name>, ms: seq<Name>)
    requires SortedExtra(a, b, ns) && SortedExtra(a, b, ms)
    ensures ns == ms
  {
    hide Extra;
    SameSets(ns, ms);
    SortedUnique(Self, ns, ms);
  }

  lemma {:induction false} SetCounts(xs: seq<Name>)
    requires Ascending(Self, xs)
    ensures forall n :: multiset(xs)[n] == if n in xs then 1 else 0
  {
    if xs != [] {
      var rest := xs[1..];
      assert xs == [xs[0]] + rest;
      SetCounts(rest);
      LessIrreflexive(xs[0]);
      forall i | 0 <= i < |rest| ensures rest[i] != xs[0] { assert Less(Self(xs[0]), Self(xs[i + 1])); }
    }
  }

  lemma SameSets(ns: seq<Name>, ms: seq<Name>)
    requires Ascending(Self, ns) && Ascending(Self, ms) && forall n :: n in ns <==> n in ms
    ensures multiset(ns) == multiset(ms)
  {
    SetCounts(ns);
    SetCounts(ms);
  }

  /** `found` holds the spellings of the keys in `seen`, each once. */
  ghost predicate Collected(a: map<Name, Name>, seen: set<Name>, found: seq<Name>) {
    && (forall k :: k in seen ==> k in a)
    && |found| == |seen| && DistinctKeys(Self, found)
    && forall n :: n in found <==> exists k :: k in seen && a[k] == n
  }

  lemma CollectStep(low: Name -> Name, a: map<Name, Name>, seen: set<Name>, found: seq<Name>, k: Name)
    requires Indexed(low, a) && Collected(a, seen, found) && k in a && k !in seen
    ensures Collected(a, seen + {k}, found + [a[k]])
  {
    assert a[k] !in found by {
      forall j | j in seen ensures a[j] != a[k] { assert low(a[j]) == j && low(a[k]) == k; }
    }
    var r := found + [a[k]];
    forall i, j | 0 <= i < j < |r| ensures Self(r[i]) != Self(r[j]) {
      if j == |found| { assert r[i] in found; }
    }
  }

  ghost function Missing(a: map<Name, Name>, b: map<Name, Name>): set<Name> {
    set k | k in a && k !in b
  }

  /** Collects what `a` has and `b` lacks, walking the map in any order, and sorts it. */
  method CollectExtra(low: Name -> Name, a: map<Name, Name>, b: map<Name, Name>) returns (ns: seq<Name>)
    requires Indexed(low, a)
    ensures SortedExtra(a, b, ns) && |ns| == |Missing(a, b)|
  {
    hide Indexed, Collected, SortBy, SortedExtra, Missing;
    var found: seq<Name> := [];
    var todo := a.Keys;
    NothingCollected(a, b);
    while todo != {}
      invariant todo <= a.Keys
      invariant Collected(a, Missing(a, b) - todo, found)
      decreases |todo|
    {
      var k :| k in todo;
      MissingStep(a, b, todo, k);
      if k !in b {
        CollectStep(low, a, Missing(a, b) - todo, found, k);
        found := found + [a[k]];
      }
      todo := todo - {k};
    }
    assert Missing(a, b) - {} == Missing(a, b);
    ns := SortBy(Self, found);
    CollectedSorted(a, b, found);
  }

  lemma NothingCollected(a: map<Name, Name>, b: map<Name, Name>)
    ensures Collected(a, Missing(a, b) - a.Keys, [])
  {
    assert Missing(a, b) - a.Keys == {};
  }

  lemma MissingStep(a: map<Name, Name>, b: map<Name, Name>, todo: set<Name>, k: Name)
    requires k in todo && k in a
    ensures k !in Missing(a, b) - todo
    ensures Missing(a, b) - (todo - {k}) == if k in b then Missing(a, b) - todo else Missing(a, b) - todo + {k}
  {
  }

  lemma CollectedSorted(a: map<Name, Name>, b: map<Name, Name>, found: seq<Name>)
    requires Collected(a, Missing(a, b), found)
    ensures SortedExtra(a, b, SortBy(Self, found)) && |SortBy(Self, found)| == |Missing(a, b)|
  {
    hide SortBy;
    SortByAscending(Self, found);
    SameElements(SortBy(Self, found), found);
    forall n ensures n in found <==> n in Extra(a, b) {
    }
  }

  // ---------------------------------------------------------------- syncing

  function Adds(ns: seq<Name>): (cs: seq<Cmd>)
    ensures |cs| == |ns| && forall i :: 0 <= i < |ns| ==> cs[i] == Add(ns[i])
  {
    seq(|ns|, i requires 0 <= i < |ns| => Add(ns[i]))
  }

  function Removes(ns: seq<Name>): (cs: seq<Cmd>)
    ensures |cs| == |ns| && forall i :: 0 <= i < |ns| ==> cs[i] == Remove(ns[i])
  {
    seq(|ns|, i requires 0 <= i < |ns| => Remove(ns[i]))
  }

  /** The commands, in a fixed order: grants, revocations, then the switch. */
  method WhitelistSyncCommands(low: Name -> Name, current: seq<Name>, desired: seq<Name>)
    returns (cmds: seq<Cmd>, ghost adds: seq<Name>, ghost removes: seq<Name>)
    ensures var cur, des := LowerIndex(low, current), LowerIndex(low, desired);
            && SortedExtra(des, cur, adds) && |adds| == |Missing(des, cur)|
            && SortedExtra(cur, des, removes) && |removes| == |Missing(cur, des)|
            && cmds == Adds(adds) + Removes(removes) + [if des == map[] then Off else On]
  {
    hide LowerIndex, SortedExtra, Missing;
    var cur := BuildIndex(low, current);
    var des := BuildIndex(low, desired);
    IndexIndexed(low, current);
    IndexIndexed(low, desired);
    var granted := CollectExtra(low, des, cur);
    var revoked := CollectExtra(low, cur, des);
    adds, removes := granted, revoked;
    cmds := [];
    for i := 0 to |granted|
      invariant cmds == Adds(granted)[..i]
    {
      cmds := cmds + [Add(granted[i])];
    }
    assert Adds(granted)[..|granted|] == Adds(granted);
    for i := 0 to |revoked|
      invariant cmds == Adds(granted) + Removes(revoked)[..i]
    {
      cmds := cmds + [Remove(revoked[i])];
    }
    assert Removes(revoked)[..|revoked|] == Removes(revoked);
    if |des| == 0 {
      assert des == map[];
      cmds := cmds + [Off];
    } else {
      cmds := cmds + [On];
    }
  }

  /** The index loop. */
  method BuildIndex(low: Name -> Name, names: seq<Name>) returns (m: map<Name, Name>)
    ensures m == LowerIndex(low, names)
  {
    m := map[];
    assert names[..0] == [];
    for i := 0 to |names|
      invariant m == LowerIndex(low, names[..i])
    {
      assert names[..i + 1][..i] == names[..i];
      var n := Trim(names[i]);
      if n != [] {
        m := m[low(n) := n];
      }
    }
    assert names[..|names|] == names;
  }

  lemma {:induction false} ExecAppend(low: Name -> Name, s: Server, a: seq<Cmd>, b: seq<Cmd>)
    ensures ExecAll(low, s, a + b) == ExecAll(low, ExecAll(low, s, a), b)
    decreases |b|
  {
    if b == [] {
      assert a + b == a;
    } else {
      var init := b[..|b| - 1];
      assert (a + b)[..|a + b| - 1] == a + init;
      ExecAppend(low, s, a, init);
    }
  }

  lemma {:induction false} ExecAdds(low: Name -> Name, s: Server, ns: seq<Name>)
    ensures var t := ExecAll(low, s, Adds(ns));
            t.enforced == s.enforced && forall k :: k in t.players <==>
                k in s.players || exists n :: n in ns && low(n) == k
    decreases |ns|
  {
    if ns != [] {
      var init := ns[..|ns| - 1];
      assert Adds(ns)[..|ns| - 1] == Adds(init);
      ExecAdds(low, s, init);
      assert forall n :: n in ns <==> n in init || n == ns[|ns| - 1];
    }
  }

  lemma {:induction false} ExecRemoves(low: Name -> Name, s: Server, ns: seq<Name>)
    ensures var t := ExecAll(low, s, Removes(ns));
            t.enforced == s.enforced && forall k :: k in t.players <==>
                k in s.players && !exists n :: n in ns && low(n) == k
    decreases |ns|
  {
    if ns != [] {
      var init := ns[..|ns| - 1];
      assert Removes(ns)[..|ns| - 1] == Removes(init);
      ExecRemoves(low, s, init);
      assert forall n :: n in ns <==> n in init || n == ns[|ns| - 1];
    }
  }

  /** The lower-case forms of the extra spellings are the missing keys. */
  lemma ExtraKeys(low: Name -> Name, a: map<Name, Name>, b: map<Name, Name>, ns: seq<Name>, k: Name)
    requires Indexed(low, a) && SortedExtra(a, b, ns)
    ensures (exists n :: n in ns && low(n) == k) <==> k in Missing(a, b)
  {
    if k in Missing(a, b) {
      assert a[k] in Extra(a, b);
      assert a[k] in ns && low(a[k]) == k;
    }
    if n :| n in ns && low(n) == k {
      assert n in Extra(a, b);
    }
  }

  /** Running the commands on a whitelist that holds the current names leaves exactly the desired ones, enforced if
      and only if there are any. */
  lemma SyncConverges(low: Name -> Name, current: seq<Name>, desired: seq<Name>, adds: seq<Name>, removes: seq<Name>,
                      s: Server)
    requires var cur, des := LowerIndex(low, current), LowerIndex(low, desired);
             SortedExtra(des, cur, adds) && SortedExtra(cur, des, removes)
    requires forall k :: k in s.players <==> OnList(low, current, k)
    ensures var cmds := Adds(adds) + Removes(removes) + [if LowerIndex(low, desired) == map[] then Off else On];
            var t := ExecAll(low, s, cmds);
            && (forall k :: k in t.players <==> OnList(low, desired, k))
            && (t.enforced <==> exists k :: OnList(low, desired, k))
  {
    hide LowerIndex, OnList, SortedExtra, Adds, Removes;
    var cur, des := LowerIndex(low, current), LowerIndex(low, desired);
    var last := if des == map[] then Off else On;
    IndexIndexed(low, current);
    IndexIndexed(low, desired);
    var s1 := ExecAll(low, s, Adds(adds));
    var s2 := ExecAll(low, s1, Removes(removes));
    ExecAppend(low, s, Adds(adds), Removes(removes));
    ExecLast(low, s, Adds(adds) + Removes(removes), last);
    ExecAdds(low, s, adds);
    ExecRemoves(low, s1, removes);
    forall k ensures k in s2.players <==> OnList(low, desired, k) {
      ExtraKeys(low, des, cur, adds, k);
      ExtraKeys(low, cur, des, removes, k);
      IndexKeys(low, current, k);
      IndexKeys(low, desired, k);
    }
    if des == map[] {
      forall k ensures !OnList(low, desired, k) { IndexKeys(low, desired, k); }
    } else {
      var k :| k in des;
      IndexKeys(low, desired, k);
    }
  }

  lemma ExecLast(low: Name -> Name, s: Server, cs: seq<Cmd>, c: Cmd)
    ensures ExecAll(low, s, cs + [c]) == Exec(low, ExecAll(low, s, cs), c)
  {
    assert (cs + [c])[..|cs|] == cs;
  }

  predicate Changes(c: Cmd) { c.Add? || c.Remove? }

  /** Grants and revocations in a list of commands. */
  function ChangeCount(cs: seq<Cmd>): nat {
    if cs == [] then 0 else ChangeCount(cs[..|cs| - 1]) + if Changes(cs[|cs| - 1]) then 1 else 0
  }

  function Touched(low: Name -> Name, cs: seq<Cmd>): set<Name> { set c | c in cs && Changes(c) :: low(c.name) }

  lemma {:induction false} TouchedFew(low: Name -> Name, cs: seq<Cmd>)
    ensures |Touched(low, cs)| <= ChangeCount(cs)
    decreases |cs|
  {
    if cs == [] {
      assert Touched(low, cs) == {};
    } else {
      var init, c := cs[..|cs| - 1], cs[|cs| - 1];
      assert cs == init + [c];
      TouchedFew(low, init);
      assert Touched(low, cs) == Touched(low, init) + if Changes(c) then {low(c.name)} else {};
    }
  }

  /** A name that no command mentions keeps its place. */
  lemma {:induction false} Untouched(low: Name -> Name, s: Server, cs: seq<Cmd>, k: Name)
    requires k !in Touched(low, cs)
    ensures k in ExecAll(low, s, cs).players <==> k in s.players
    decreases |cs|
  {
    if cs != [] {
      var init, c := cs[..|cs| - 1], cs[|cs| - 1];
      assert cs == init + [c];
      Untouched(low, s, init, k);
    }
  }

  /** Whatever commands lead from one set of players to another, they change at least as many as differ. */
  lemma ChangesNeeded(low: Name -> Name, s: Server, cs: seq<Cmd>)
    ensures var t := ExecAll(low, s, cs); |(s.players - t.players) + (t.players - s.players)| <= ChangeCount(cs)
  {
    var t := ExecAll(low, s, cs);
    var d := (s.players - t.players) + (t.players - s.players);
    forall k | k in d ensures k in Touched(low, cs) {
      if k !in Touched(low, cs) { Untouched(low, s, cs, k); }
    }
    SubsetSize(d, Touched(low, cs));
    TouchedFew(low, cs);
  }

  lemma {:induction false} ChangeCountAll(cs: seq<Cmd>)
    requires forall c :: c in cs ==> Changes(c)
    ensures ChangeCount(cs) == |cs|
    decreases |cs|
  {
    if cs != [] { ChangeCountAll(cs[..|cs| - 1]); }
  }

  lemma ChangeCountSync(adds: seq<Name>, removes: seq<Name>, last: Cmd)
    requires !Changes(last)
    ensures ChangeCount(Adds(adds) + Removes(removes) + [last]) == |adds| + |removes|
  {
    var cs := Adds(adds) + Removes(removes);
    ChangeCountAll(cs);
    assert (cs + [last])[..|cs|] == cs;
  }

  lemma MissingSizes(cur: map<Name, Name>, des: map<Name, Name>, p: set<Name>, q: set<Name>)
    requires forall k :: (k in cur <==> k in p) && (k in des <==> k in q)
    ensures |Missing(cur, des)| + |Missing(des, cur)| == |(p - q) + (q - p)|
  {
    var x, y := Missing(cur, des), Missing(des, cur);
    assert x == p - q && y == q - p;
    assert x !! y;
  }

  /** Once the lists agree, only the switch is left. */
  lemma NothingToSync(low: Name -> Name, current: seq<Name>, desired: seq<Name>, adds: seq<Name>, removes: seq<Name>)
    requires var cur, des := LowerIndex(low, current), LowerIndex(low, desired);
             && SortedExtra(des, cur, adds) && |adds| == |Missing(des, cur)|
             && SortedExtra(cur, des, removes) && |removes| == |Missing(cur, des)|
    ensures (forall k :: OnList(low, current, k) <==> OnList(low, desired, k)) <==> adds == [] && removes == []
  {
    hide LowerIndex, OnList, SortedExtra;
    var cur, des := LowerIndex(low, current), LowerIndex(low, desired);
    forall k ensures (k in cur <==> OnList(low, current, k)) && (k in des <==> OnList(low, desired, k)) {
      IndexKeys(low, current, k);
      IndexKeys(low, desired, k);
    }
    if forall k :: OnList(low, current, k) <==> OnList(low, desired, k) {
      assert Missing(cur, des) == {} && Missing(des, cur) == {};
    }
    if adds == [] && removes == [] {
      assert Missing(cur, des) == {} && Missing(des, cur) == {};
      forall k ensures OnList(low, current, k) <==> OnList(low, desired, k) {
        assert k !in Missing(cur, des) && k !in Missing(des, cur);
      }
    }
  }

  /** The commands change exactly as many names as differ, and no list of commands that leads from the current
      names to the desired ones changes fewer. */
  lemma SyncIsMinimal(low: Name -> Name, current: seq<Name>, desired: seq<Name>, adds: seq<Name>, removes: seq<Name>,
                      s: Server, others: seq<Cmd>)
    requires var cur, des := LowerIndex(low, current), LowerIndex(low, desired);
             && SortedExtra(des, cur, adds) && |adds| == |Missing(des, cur)|
             && SortedExtra(cur, des, removes) && |removes| == |Missing(cur, des)|
    requires forall k :: k in s.players <==> OnList(low, current, k)
    requires forall k :: k in ExecAll(low, s, others).players <==> OnList(low, desired, k)
    ensures ChangeCount(Adds(adds) + Removes(removes) + [if LowerIndex(low, desired) == map[] then Off else On])
            == |adds| + |removes| <= ChangeCount(others)
  {
    hide LowerIndex, OnList, SortedExtra, ExecAll, ChangeCount, Adds, Removes, Missing;
    var cur, des := LowerIndex(low, current), LowerIndex(low, desired);
    var t := ExecAll(low, s, others);
    forall k ensures (k in cur <==> k in s.players) && (k in des <==> k in t.players) {
      IndexKeys(low, current, k);
      IndexKeys(low, desired, k);
    }
    MissingSizes(cur, des, s.players, t.players);
    ChangesNeeded(low, s, others);
    ChangeCountSync(adds, removes, if des == map[] then Off else On);
  }
}

/** The in-memory host inventory and the scheduler over it. */
module Fleet {
  import opened Bytes

  /** Host and VM ids; zero stands for the empty one. */
  type Id = nat

  const NO_ID: Id := 0

  /** Cpus and memory: what a server asks for, what a host has. */
  datatype Spec = Spec(cpus: int, mem: int) {
    function Plus(o: Spec): Spec { Spec(cpus + o.cpus, mem + o.mem) }
    function Minus(o: Spec): Spec { Spec(cpus - o.cpus, mem - o.mem) }
    predicate Within(o: Spec) { cpus <= o.cpus && mem <= o.mem }
  }

  const NONE: Spec := Spec(0, 0)

  datatype Host = Host(id: Id, hostname: string, total: Spec, alloc: Spec, ready: bool, heartbeat: int)

  type Hosts = map<Id, Host>

  /** Keys are ids. */
  ghost predicate Keyed(hosts: Hosts) {
    forall h :: h in hosts ==> hosts[h].id == h
  }

  // ---------------------------------------------------------------- inventory operations

  function Floor0(v: int): (r: int)
    ensures r >= 0 && r >= v && (r == v || r == 0)
  {
    if v < 0 then 0 else v
  }

  function Min(a: int, b: int): int { if a < b then a else b }

  datatype Reply = Reserved | NotFound | NotReady | Insufficient

  /** What an attempt to reserve answers. */
  function ReserveReply(hosts: Hosts, id: Id, spec: Spec): Reply {
    if id !in hosts then NotFound
    else if !hosts[id].ready then NotReady
    else if !spec.Within(hosts[id].alloc) then Insufficient
    else Reserved
  }

  function Reserving(hosts: Hosts, id: Id, spec: Spec): Hosts {
    if ReserveReply(hosts, id, spec) != Reserved then hosts
        else hosts[id := hosts[id].(alloc := hosts[id].alloc.Minus(spec))]
  }

  /** Give capacity back, never above the total; an unknown host is left alone. */
  function Releasing(hosts: Hosts, id: Id, spec: Spec): Hosts {
    if id !in hosts then hosts else
    var h := hosts[id];
    hosts[id := h.(alloc := Spec(Min(h.alloc.cpus + spec.cpus, h.total.cpus),
                                 Min(h.alloc.mem + spec.mem, h.total.mem)))]
  }

  function SetReady(hosts: Hosts, id: Id, ready: bool): Hosts {
    if id !in hosts then hosts else hosts[id := hosts[id].(ready := ready)]
  }

  /** A sign of life. */
  function Hearing(hosts: Hosts, id: Id, now: int): Hosts {
    if id !in hosts then hosts else hosts[id := hosts[id].(ready := true, heartbeat := now)]
  }

  /** A host that registers under id `id`: a known one keeps its allocatable, a new one starts with what
      is not committed already. */
  function Registering(hosts: Hosts, id: Id, hostname: string, total: Spec, used: Spec, now: int): Hosts {
    if id in hosts then hosts[id := hosts[id].(hostname := hostname, total := total, ready := true, heartbeat := now)]
    else hosts[id := Host(id, hostname, total, Spec(Floor0(total.cpus - used.cpus), Floor0(total.mem - used.mem)), true,
                          now)]
  }

  // ---------------------------------------------------------------- placement

  predicate Fits(h: Host, spec: Spec) { spec.Within(h.alloc) }

  /** Strictly more free memory, or the same and more free cpu. */
  predicate Freer(a: Host, b: Host) {
    a.alloc.mem > b.alloc.mem || (a.alloc.mem == b.alloc.mem && a.alloc.cpus > b.alloc.cpus)
  }

  ghost predicate MostFreeFirst(hs: seq<Host>) {
    forall i, j :: 0 <= i < j < |hs| ==> !Freer(hs[j], hs[i])
  }

  class HostRepository {
    var hosts: Hosts

    constructor ()
      ensures hosts == map[]
    {
      hosts := map[];
    }

    /** The record a registration refers to: by id when given, else by hostname. */
    method MatchExisting(id: Id, hostname: string) returns (m: Option<Id>)
      ensures id != NO_ID ==> m == if id in hosts then Some(id) else None
      ensures id == NO_ID && m.Some? ==> m.value in hosts && hosts[m.value].hostname == hostname
      ensures id == NO_ID && m.None? ==> forall h :: h in hosts ==> hosts[h].hostname != hostname
    {
      if id != NO_ID {
        return if id in hosts then Some(id) else None;
      }
      var todo := hosts.Keys;
      while todo != {}
        invariant todo <= hosts.Keys && forall h :: h in hosts && h !in todo ==> hosts[h].hostname != hostname
        decreases |todo|
      {
        var h :| h in todo;
        if hosts[h].hostname == hostname {
          return Some(h);
        }
        todo := todo - {h};
      }
      m := None;
    }

    /** Upsert. `freshId` is the id generated for a host that brings none. */
    method RegisterReserved(id: Id, hostname: string, total: Spec, used: Spec, now: int, freshId: Id)
      returns (stored: Id)
      requires freshId !in hosts
      modifies this
      ensures hosts == Registering(old(hosts), stored, hostname, total, used, now)
      ensures id != NO_ID ==> stored == id
      ensures id == NO_ID ==> stored == freshId || (stored in old(hosts) && old(hosts)[stored].hostname == hostname)
    {
      var m := MatchExisting(id, hostname);
      if m.Some? {
        stored := m.value;
        hosts := hosts[stored := hosts[stored].(hostname := hostname, total := total, ready := true, heartbeat := now)];
        return;
      }
      stored := if id == NO_ID then freshId else id;
      var alloc := Spec(Floor0(total.cpus - used.cpus), Floor0(total.mem - used.mem));
      hosts := hosts[stored := Host(stored, hostname, total, alloc, true, now)];
    }

    method Reserve(id: Id, spec: Spec) returns (r: Reply)
      modifies this
      ensures r == ReserveReply(old(hosts), id, spec)
      ensures hosts == Reserving(old(hosts), id, spec)
    {
      if id !in hosts {
        return NotFound;
      }
      var h := hosts[id];
      if !h.ready {
        return NotReady;
      }
      if h.alloc.cpus < spec.cpus || h.alloc.mem < spec.mem {
        return Insufficient;
      }
      hosts := hosts[id := h.(alloc := Spec(h.alloc.cpus - spec.cpus, h.alloc.mem - spec.mem))];
      return Reserved;
    }

    method Release(id: Id, spec: Spec)
      modifies this
      ensures hosts == Releasing(old(hosts), id, spec)
    {
      if id !in hosts {
        return;
      }
      var h := hosts[id];
      hosts := hosts[id := h.(alloc := Spec(Min(h.alloc.cpus + spec.cpus, h.total.cpus),
                                            Min(h.alloc.mem + spec.mem, h.total.mem)))];
    }

    method Heartbeat(id: Id, now: int) returns (ok: bool)
      modifies this
      ensures ok <==> id in old(hosts)
      ensures hosts == Hearing(old(hosts), id, now)
    {
      if id !in hosts {
        return false;
      }
      hosts := hosts[id := hosts[id].(ready := true, heartbeat := now)];
      ok := true;
    }

    method MarkDown(id: Id)
      modifies this
      ensures hosts == SetReady(old(hosts), id, false)
    {
      if id !in hosts || !hosts[id].ready {
        assert id in hosts ==> hosts == hosts[id := hosts[id].(ready := false)];
        return;
      }
      hosts := hosts[id := hosts[id].(ready := false)];
    }

    /** Hosts silent since before `cutoff` go down; everything else about them stays. */
    method MarkStale(cutoff: int) returns (n: nat)
      modifies this
      ensures forall h :: h in hosts <==> h in old(hosts)
      ensures forall h :: h in old(hosts) && h in hosts ==>
                hosts[h] == old(hosts)[h].(ready := old(hosts)[h].ready && old(hosts)[h].heartbeat >= cutoff)
      ensures n == |set h | h in old(hosts) && old(hosts)[h].ready && old(hosts)[h].heartbeat < cutoff|
    {
      hide Stale, StaleSet, AgedOff;
      n := 0;
      var todo := hosts.Keys;
      ghost var before := hosts;
      AgedStart(before, cutoff);
      while todo != {}
        invariant AgedOff(before, hosts, todo, cutoff)
        invariant n == |StaleSet(before, cutoff) - todo|
        decreases |todo|
      {
        var h :| h in todo;
        AgedAt(before, hosts, todo, h, cutoff);
        StaleStep(before, cutoff, todo, h);
        if Stale(hosts[h], cutoff) {
          hosts := hosts[h := hosts[h].(ready := false)];
          n := n + 1;
        }
        todo := todo - {h};
      }
      assert StaleSet(before, cutoff) - {} == StaleSet(before, cutoff);
      AgedMeans(before, hosts, cutoff);
    }

    /** Copies of the ready hosts, in no particular order. */
    method ListReady() returns (hs: seq<Host>)
      requires Keyed(hosts)
      ensures forall h :: h in hosts && hosts[h].ready ==> hosts[h] in hs
      ensures forall x :: x in hs ==> x.id in hosts && hosts[x.id] == x && x.ready
    {
      hs := [];
      var todo := hosts.Keys;
      while todo != {}
        invariant todo <= hosts.Keys
        invariant forall h :: h in hosts && h !in todo && hosts[h].ready ==> hosts[h] in hs
        invariant forall x :: x in hs ==> x.id in hosts && hosts[x.id] == x && x.ready
        decreases |todo|
      {
        var h :| h in todo;
        if hosts[h].ready {
          hs := hs + [hosts[h]];
        }
        todo := todo - {h};
      }
    }
  }

  predicate Stale(h: Host, cutoff: int) { h.ready && h.heartbeat < cutoff }

  function Aged(h: Host, cutoff: int): Host { if Stale(h, cutoff) then h.(ready := false) else h }

  ghost function StaleSet(hosts: Hosts, cutoff: int): set<Id> {
    set h | h in hosts && Stale(hosts[h], cutoff)
  }

  /** Everyone outside `todo` has been aged, everyone in it is as before. */
  ghost predicate AgedOff(before: Hosts, hosts: Hosts, todo: set<Id>, cutoff: int) {
    && (forall h :: h in todo ==> h in before)
    && (forall h :: h in before <==> h in hosts)
    && forall h :: h in before ==> h in hosts && hosts[h] == if h in todo then before[h] else Aged(before[h], cutoff)
  }

  lemma AgedMeans(before: Hosts, hosts: Hosts, cutoff: int)
    requires AgedOff(before, hosts, {}, cutoff)
    ensures forall h :: h in hosts <==> h in before
    ensures forall h :: h in before && h in hosts ==>
              hosts[h] == before[h].(ready := before[h].ready && before[h].heartbeat >= cutoff)
    ensures StaleSet(before, cutoff) == set h | h in before && before[h].ready && before[h].heartbeat < cutoff
  {
  }

  lemma AgedStart(hosts: Hosts, cutoff: int)
    ensures AgedOff(hosts, hosts, hosts.Keys, cutoff) && StaleSet(hosts, cutoff) - hosts.Keys == {}
  {
  }

  lemma AgedAt(before: Hosts, hosts: Hosts, todo: set<Id>, h: Id, cutoff: int)
    requires AgedOff(before, hosts, todo, cutoff) && h in todo
    ensures h in before && h in hosts && hosts[h] == before[h]
    ensures AgedOff(before, if Stale(hosts[h], cutoff) then hosts[h := hosts[h].(ready := false)]
                    else hosts, todo - {h}, cutoff)
  {
    hide Stale;
  }

  lemma StaleStep(hosts: Hosts, cutoff: int, todo: set<Id>, h: Id)
    requires h in todo && h in hosts
    ensures |StaleSet(hosts, cutoff) - (todo - {h})| == |StaleSet(hosts, cutoff) - todo| + if Stale(hosts[h], cutoff)
            then 1 else 0
  {
    var s := StaleSet(hosts, cutoff);
    if h in s {
      assert s - (todo - {h}) == (s - todo) + {h};
    } else {
      assert s - (todo - {h}) == s - todo;
    }
  }

  // ---------------------------------------------------------------- scheduling

  /** Stable insertion: in front of the first host that is not freer. */
  function InsertFree(x: Host, hs: seq<Host>): (r: seq<Host>)
    ensures multiset(r) == multiset{x} + multiset(hs)
  {
    if hs == [] || !Freer(hs[0], x) then [x] + hs else
    assert hs == [hs[0]] + hs[1..];
    [hs[0]] + InsertFree(x, hs[1..])
  }

  function SortFree(hs: seq<Host>): (r: seq<Host>)
    ensures multiset(r) == multiset(hs)
  {
    if hs == [] then [] else
    assert hs == [hs[0]] + hs[1..];
    InsertFree(hs[0], SortFree(hs[1..]))
  }

  lemma SameMembers(a: seq<Host>, b: seq<Host>)
    requires multiset(a) == multiset(b)
    ensures forall x :: x in a <==> x in b
  {
    forall x ensures x in a <==> x in b {
      assert x in a <==> x in multiset(a);
      assert x in b <==> x in multiset(b);
    }
  }

  lemma {:induction false} InsertMostFree(x: Host, hs: seq<Host>)
    requires MostFreeFirst(hs)
    ensures MostFreeFirst(InsertFree(x, hs))
  {
    if hs != [] && Freer(hs[0], x) {
      var rest := hs[1..];
      InsertMostFree(x, rest);
      var r := InsertFree(x, rest);
      assert multiset(r) == multiset([x] + rest);
      SameMembers(r, [x] + rest);
      forall j | 0 <= j < |r| ensures !Freer(r[j], hs[0]) {
        assert r[j] in r;
        if r[j] != x {
          var k :| 0 <= k < |rest| && rest[k] == r[j];
          assert hs[k + 1] == r[j];
        }
      }
    }
  }

  lemma {:induction false} SortMostFree(hs: seq<Host>)
    ensures MostFreeFirst(SortFree(hs))
  {
    if hs != [] {
      SortMostFree(hs[1..]);
      InsertMostFree(hs[0], SortFree(hs[1..]));
    }
  }

  /** Hosts whose free capacity covers the spec, most free first. */
  method FittingHosts(hs: seq<Host>, spec: Spec) returns (out: seq<Host>)
    ensures forall x :: x in out <==> x in hs && Fits(x, spec)
    ensures forall x :: x in out ==> x.alloc.cpus >= spec.cpus && x.alloc.mem >= spec.mem
    ensures MostFreeFirst(out)
    ensures forall i, j :: 0 <= i < j < |out| ==>
              out[i].alloc.mem > out[j].alloc.mem ||
              (out[i].alloc.mem == out[j].alloc.mem && out[i].alloc.cpus >= out[j].alloc.cpus)
  {
    var kept: seq<Host> := [];
    for i := 0 to |hs|
      invariant forall x :: x in kept <==> x in hs[..i] && Fits(x, spec)
    {
      assert hs[..i + 1] == hs[..i] + [hs[i]];
      if hs[i].alloc.cpus >= spec.cpus && hs[i].alloc.mem >= spec.mem {
        kept := kept + [hs[i]];
      }
    }
    assert hs[..|hs|] == hs;
    out := SortFree(kept);
    SortMostFree(kept);
    SameMembers(out, kept);
  }

  ghost predicate CanPlace(hosts: Hosts, spec: Spec) {
    exists h :: h in hosts && hosts[h].ready && Fits(hosts[h], spec)
  }

  /** No ready host with room has more free memory than `h`, or as much and more free cpu. */
  ghost predicate Freest(hosts: Hosts, spec: Spec, h: Id) {
    h in hosts && forall k :: k in hosts && hosts[k].ready && Fits(hosts[k], spec) ==>
      hosts[h].alloc.mem > hosts[k].alloc.mem ||
      (hosts[h].alloc.mem == hosts[k].alloc.mem && hosts[h].alloc.cpus >= hosts[k].alloc.cpus)
  }

  /** The inventory that attempt `i` finds when those before it were refused; `others` is what everyone else makes
      of the inventory before each attempt. */
  function Found(hosts: Hosts, others: (nat, Hosts) -> Hosts, i: nat): Hosts {
    others(i, if i == 0 then hosts else Found(hosts, others, i - 1))
  }

  ghost predicate Refused(hosts: Hosts, others: (nat, Hosts) -> Hosts, tried: seq<Host>, spec: Spec, i: nat)
    requires i < |tried|
  {
    ReserveReply(Found(hosts, others, i), tried[i].id, spec) != Reserved
  }

  /** Nobody has less than nothing left. */
  ghost predicate Nonnegative(hosts: Hosts) {
    forall h :: h in hosts ==> NONE.Within(hosts[h].alloc)
  }

  lemma ReserveKeepsNonnegative(hosts: Hosts, id: Id, spec: Spec)
    requires Nonnegative(hosts)
    ensures Nonnegative(Reserving(hosts, id, spec))
  {
  }

  /** Candidates are chosen from one snapshot and tried most free first, while others register, reserve and
      release. A host that is returned accepted the reservation on the inventory of that very moment, after all
      candidates before it had refused on theirs; without a result all candidates refused. */
  method ScheduleAmid(repo: HostRepository, spec: Spec, others: (nat, Hosts) -> Hosts)
    returns (r: Option<Id>, ghost tried: seq<Host>, ghost k: nat)
    requires Keyed(repo.hosts)
    modifies repo
    ensures MostFreeFirst(tried)
    ensures forall x :: x in tried ==> x.id in old(repo.hosts) && old(repo.hosts)[x.id] == x && x.ready && Fits(x, spec)
    ensures forall h :: h in old(repo.hosts) && old(repo.hosts)[h].ready && Fits(old(repo.hosts)[h], spec) ==>
              old(repo.hosts)[h] in tried
    ensures k <= |tried| && forall i :: 0 <= i < k ==> Refused(old(repo.hosts), others, tried, spec, i)
    ensures r.None? ==>
            k == |tried| && repo.hosts == if k == 0 then old(repo.hosts) else Found(old(repo.hosts), others, k - 1)
    ensures r.Some? ==> k < |tried| && r.value == tried[k].id && var at := Found(old(repo.hosts), others, k);
              ReserveReply(at, r.value, spec) == Reserved && repo.hosts == Reserving(at, r.value, spec)
    ensures Nonnegative(old(repo.hosts)) && (forall i, hs :: Nonnegative(hs) ==> Nonnegative(others(i, hs))) ==>
              Nonnegative(repo.hosts)
  {
    hide Nonnegative, Reserving, ReserveReply;
    var ready := repo.ListReady();
    var fitting := FittingHosts(ready, spec);
    tried := fitting;
    ghost var before := repo.hosts;
    ghost var kept := Nonnegative(before) && forall i, hs :: Nonnegative(hs) ==> Nonnegative(others(i, hs));
    for i := 0 to |fitting|
      invariant repo.hosts == if i == 0 then before else Found(before, others, i - 1)
      invariant forall j :: 0 <= j < i ==> Refused(before, others, tried, spec, j)
      invariant kept ==> Nonnegative(repo.hosts)
    {
      repo.hosts := others(i, repo.hosts);
      ghost var at := repo.hosts;
      assert at == Found(before, others, i);
      if kept { ReserveKeepsNonnegative(at, fitting[i].id, spec); }
      var reply := repo.Reserve(fitting[i].id, spec);
      if reply == Reserved {
        return Some(fitting[i].id), tried, i;
      }
      NotReserving(at, fitting[i].id, spec);
    }
    r, k := None, |tried|;
  }

  lemma NotReserving(hosts: Hosts, id: Id, spec: Spec)
    ensures ReserveReply(hosts, id, spec) != Reserved ==> Reserving(hosts, id, spec) == hosts
  {
  }

  lemma {:induction false} FoundAlone(hosts: Hosts, i: nat)
    ensures Found(hosts, (j, hs) => hs, i) == hosts
  {
    if i > 0 { FoundAlone(hosts, i - 1); }
  }

  lemma FirstAccepts(hosts: Hosts, tried: seq<Host>, spec: Spec)
    requires tried != [] && tried[0].id in hosts && hosts[tried[0].id] == tried[0] && tried[0].ready &&
             Fits(tried[0], spec)
    ensures !Refused(hosts, (j, hs) => hs, tried, spec, 0)
  {
    FoundAlone(hosts, 0);
  }

  /** Undisturbed, the scheduler places exactly when some ready host fits, on one that no other fitting host is
      freer than, and takes exactly the spec from it and nothing from anyone else. */
  method Schedule(repo: HostRepository, spec: Spec) returns (r: Option<Id>)
    requires Keyed(repo.hosts)
    modifies repo
    ensures r.Some? <==> CanPlace(old(repo.hosts), spec)
    ensures r.None? ==> repo.hosts == old(repo.hosts)
    ensures r.Some? ==>
              && r.value in old(repo.hosts) && ReserveReply(old(repo.hosts), r.value, spec) == Reserved
              && repo.hosts == Reserving(old(repo.hosts), r.value, spec)
              && forall h :: h in old(repo.hosts) && old(repo.hosts)[h].ready && Fits(old(repo.hosts)[h], spec) ==>
                   var a, b := old(repo.hosts)[r.value].alloc, old(repo.hosts)[h].alloc;
                   a.mem > b.mem || (a.mem == b.mem && a.cpus >= b.cpus)
  {
    hide Reserving;
    ghost var before, tried, k := repo.hosts, [], 0;
    r, tried, k := ScheduleAmid(repo, spec, (j, hs) => hs);
    if tried != [] {
      assert tried[0] in tried;
      FirstAccepts(before, tried, spec);
      FoundAlone(before, 0);
      forall h | h in before && before[h].ready && Fits(before[h], spec) ensures !Freer(before[h], tried[0]) {
        assert before[h] in tried;
        var m :| 0 <= m < |tried| && tried[m] == before[h];
      }
    }
  }

  /** Whether a host can take work now. */
  method Placeable(repo: HostRepository, id: Id) returns (ok: bool)
    requires Keyed(repo.hosts)
    ensures ok <==> id in repo.hosts && repo.hosts[id].ready
  {
    var ready := repo.ListReady();
    for i := 0 to |ready|
      invariant forall j :: 0 <= j < i ==> ready[j].id != id
    {
      assert ready[i] in ready;
      if ready[i].id == id {
        return true;
      }
    }
    ok := false;
  }
}

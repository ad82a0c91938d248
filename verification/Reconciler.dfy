/** The reconciler's passes over one server, run against the repositories, follow the control-plane machine. */
module Reconciler {
  import opened Bytes
  import opened Fleet
  import opened Servers
  import opened Metering
  import opened ControlPlane
  import opened Capacity
  import opened Events

  /** What the agent and the database answer during one pass. */
  datatype Answers = Answers(agentOk: bool, vm: Id, assignOk: bool)

  function Steps(cap: Id -> Spec, s: Plane, es: seq<Event>): Option<Plane>
    decreases |es|
  {
    if es == [] then Some(s) else
    var t :- Next(cap, s, es[0]);
    Steps(cap, t, es[1..])
  }

  ghost predicate Reaches(cap: Id -> Spec, s: Plane, t: Plane) {
    exists es: seq<Event> :: Steps(cap, s, es) == Some(t) && forall i :: 0 <= i < |es| ==> !es[i].CommitFails?
  }

  lemma ReachesSelf(cap: Id -> Spec, s: Plane)
    ensures Reaches(cap, s, s)
  {
    assert Steps(cap, s, []) == Some(s);
  }

  lemma {:induction false} StepsPush(cap: Id -> Spec, s: Plane, es: seq<Event>, e: Event)
    requires Steps(cap, s, es).Some?
    ensures Steps(cap, s, es + [e]) == Next(cap, Steps(cap, s, es).value, e)
    decreases |es|
  {
    hide Next;
    if es == [] {
      assert (es + [e])[1..] == [];
    } else {
      assert (es + [e])[0] == es[0] && (es + [e])[1..] == es[1..] + [e];
      StepsPush(cap, Next(cap, s, es[0]).value, es[1..], e);
    }
  }

  lemma ReachesNext(cap: Id -> Spec, s: Plane, t: Plane, e: Event)
    requires Reaches(cap, s, t) && Next(cap, t, e).Some? && !e.CommitFails?
    ensures Reaches(cap, s, Next(cap, t, e).value)
  {
    hide Next;
    var es: seq<Event> :| Steps(cap, s, es) == Some(t) && forall i :: 0 <= i < |es| ==> !es[i].CommitFails?;
    StepsPush(cap, s, es, e);
  }

  predicate DeadTooLong(hosts: Hosts, snap: Row, grace: int, now: int) {
    snap.host.None? || snap.host.value !in hosts || now - hosts[snap.host.value].heartbeat > grace
  }

  class Reconciler {
    const servers: GameServerRepository
    const hosts: HostRepository
    const meter: BillingRepository
    ghost const cap: Id -> Spec
    /** The machine state this process is in. */
    ghost var p: Plane

    ghost predicate Valid()
      reads this, servers, hosts, meter
    {
      && p.rows == servers.rows && p.hosts == hosts.hosts && p.usage == meter.usage
      && |meter.usage| == |servers.rows| && Keyed(hosts.hosts) && Inv(cap, p)
    }

    /** A process that starts up: an empty inventory over whatever the database holds. */
    constructor (servers: GameServerRepository, hosts: HostRepository, meter: BillingRepository, ghost cap: Id -> Spec,
                 ghost p: Plane)
      requires hosts.hosts == map[] && p.hosts == map[] && p.rows == servers.rows && p.usage == meter.usage
      requires |meter.usage| == |servers.rows| && Inv(cap, p)
      ensures Valid() && this.p == p && this.servers == servers && this.hosts == hosts && this.meter == meter &&
              this.cap == cap
    {
      this.servers, this.hosts, this.meter := servers, hosts, meter;
      this.cap, this.p := cap, p;
    }

    /** One machine event. */
    ghost method Do(e: Event, from: Plane)
      requires Inv(cap, p) && Reaches(cap, from, p) && Next(cap, p, e).Some? && !e.CommitFails?
      modifies this`p
      ensures p == Next(cap, old(p), e).value && Inv(cap, p) && Reaches(cap, from, p)
    {
      hide Inv, Next, Reaches;
      StepKeeps(cap, p, e);
      ReachesNext(cap, from, p, e);
      p := Next(cap, p, e).value;
    }

    /** An agent's heartbeat and the end of its stream, at any point of a pass. */
    method Hear(h: Id, now: int) returns (known: bool)
      requires Valid() && p.now == now
      modifies this`p, hosts
      ensures Valid() && Reaches(cap, old(p), p) && p.pc == old(p.pc) && (known <==> h in old(hosts.hosts))
      ensures known ==> hosts.hosts == old(hosts.hosts)[h := old(hosts.hosts)[h].(ready := true, heartbeat := now)]
      ensures !known ==> hosts.hosts == old(hosts.hosts)
    {
      hide Inv, Reaches;
      ReachesSelf(cap, p);
      Do(Heard(h), p);
      known := hosts.Heartbeat(h, now);
    }

    method Disconnect(h: Id)
      requires Valid()
      modifies this`p, hosts
      ensures Valid() && Reaches(cap, old(p), p) && p.pc == old(p.pc)
      ensures hosts.hosts == if h in old(hosts.hosts) then old(hosts.hosts)[h := old(hosts.hosts)[h].(ready := false)]
                             else old(hosts.hosts)
    {
      hide Inv, Reaches;
      ReachesSelf(cap, p);
      Do(Down(h), p);
      hosts.MarkDown(h);
    }

    /** The pass takes copies of up to `limit` rows: those that need work, or those to probe. */
    method ListWork(alive: bool, limit: nat) returns (ids: seq<nat>)
      requires Valid() && p.pc.Idle?
      modifies this`p
      ensures Valid() && Reaches(cap, old(p), p) && p.pc.Idle? && p.live == alive && |ids| <= limit
      ensures forall i :: i in ids ==> i < |servers.rows| && i in p.batch && p.batch[i] == servers.rows[i]
      ensures forall i :: i in ids ==> Listable(servers.rows, alive, i)
      ensures |ids| < limit ==> forall i: nat :: Listable(servers.rows, alive, i) ==> i in ids
    {
      hide Inv, Reaches;
      if alive {
        ids := servers.ListRunning(limit);
      } else {
        ids := servers.ListReconcilable(limit);
      }
      ghost var all := set i: nat | i in ids;
      forall i | i in all ensures Listable(p.rows, alive, i) { assert i in ids; }
      ReachesSelf(cap, p);
      Do(List(alive, all), p);
    }

    /** Returns the reservation, clears the row, stops the clock. The agent has halted and evicted the VM already. */
    method FinishStop(sid: nat, snap: Row, now: int, ghost from: Plane)
      requires Valid() && Reaches(cap, from, p) && p.pc == Busy(sid, snap, Halt) && p.now == now && sid < |servers.rows|
      modifies this`p, servers, hosts, meter
      ensures Valid() && Reaches(cap, from, p) && p.pc.Idle?
      ensures servers.rows == old(servers.rows)[sid := StoppedRow(old(servers.rows)[sid])]
      ensures meter.usage == old(meter.usage)[sid := Metering.Closed(old(meter.usage)[sid], now)]
      ensures hosts.hosts == if snap.host.Some? then Releasing(old(hosts.hosts), snap.host.value, snap.spec)
              else old(hosts.hosts)
    {
      hide Inv, Reaches, Metering.Closed, Releasing, Next;
      ReturnEvents(cap, p, sid, snap);
      Do(Halted, from);
      CommitEvent(cap, p, sid, snap, p.pc.phase);
      if snap.host.Some? {
        KeyedRelease(hosts.hosts, snap.host.value, snap.spec);
        hosts.Release(snap.host.value, snap.spec);
      }
      Do(Commit, from);
      servers.MarkStopped(sid);
      MeterEvent(cap, p, sid, snap);
      Do(Meter(true), from);
      meter.StopRunning(sid, now);
    }

    /** A server nobody wants any more: gone once its agent says so, or once its host cannot be reached. */
    method FinishDelete(sid: nat, snap: Row, now: int, ghost from: Plane)
      requires Valid() && Reaches(cap, from, p) && p.pc == Busy(sid, snap, Destroy) && p.now == now &&
               sid < |servers.rows|
      modifies this`p, servers, hosts, meter
      ensures Valid() && Reaches(cap, from, p) && p.pc.Idle?
      ensures servers.rows == old(servers.rows)[sid := DeletedRow(old(servers.rows)[sid])]
      ensures meter.usage == old(meter.usage)[sid := Metering.Closed(old(meter.usage)[sid], now)]
      ensures hosts.hosts == if snap.host.Some? then Releasing(old(hosts.hosts), snap.host.value, snap.spec)
              else old(hosts.hosts)
    {
      hide Inv, Reaches, Metering.Closed, Releasing, Next;
      ReturnEvents(cap, p, sid, snap);
      Do(Destroyed, from);
      CommitEvent(cap, p, sid, snap, p.pc.phase);
      if snap.host.Some? {
        KeyedRelease(hosts.hosts, snap.host.value, snap.spec);
        hosts.Release(snap.host.value, snap.spec);
      }
      Do(Commit, from);
      servers.SoftDelete(sid);
      MeterEvent(cap, p, sid, snap);
      Do(Meter(true), from);
      meter.StopRunning(sid, now);
    }

    /** Any error before a release: the row is marked and nothing else changes. */
    method MarkError(sid: nat, snap: Row, phase: Phase, ghost from: Plane)
      requires Valid() && Reaches(cap, from, p) && p.pc == Busy(sid, snap, phase) && Abortable(phase) &&
               !phase.Probe? && sid < |servers.rows|
      modifies this`p, servers
      ensures Valid() && Reaches(cap, from, p) && p.pc.Idle?
      ensures servers.rows == old(servers.rows)[sid := old(servers.rows)[sid].(status := Error)]
    {
      hide Inv, Reaches, Next;
      FailEvent(cap, p, sid, snap, phase);
      Do(Fail(true), from);
      servers.MarkStatus(sid, Error);
    }

    /** An unbooted server leaves a host that can no longer take it. */
    method DropStalePlacement(sid: nat, snap: Row, ghost from: Plane) returns (snap': Row)
      requires Valid() && Reaches(cap, from, p) && p.pc == Busy(sid, snap, Drop) && sid < |servers.rows|
      modifies this`p, servers, hosts
      ensures Valid() && Reaches(cap, from, p) && p.pc == Busy(sid, snap', if snap'.host.None? then Place else Boot)
      ensures var keep := snap.host.None? || ControlPlane.Placeable(old(hosts.hosts), snap.host.value);
              && snap' == (if keep then snap else snap.(host := None))
              && servers.rows == (if keep then old(servers.rows)
                                  else old(servers.rows)[sid := old(servers.rows)[sid].(host := None)])
              && hosts.hosts == if keep then old(hosts.hosts)
                 else Releasing(old(hosts.hosts), snap.host.value, snap.spec)
      ensures p.now == old(p.now)
    {
      hide Inv, Reaches, Releasing, Next;
      if snap.host.None? {
        KeepEvent(cap, p, sid, snap);
        Do(KeepPlacement, from);
        return snap;
      }
      var h := snap.host.value;
      var ok := Fleet.Placeable(hosts, h);
      if ok {
        KeepEvent(cap, p, sid, snap);
        Do(KeepPlacement, from);
        return snap;
      }
      ReturnEvents(cap, p, sid, snap);
      Do(DropStale, from);
      CommitEvent(cap, p, sid, snap, p.pc.phase);
      KeyedRelease(hosts.hosts, h, snap.spec);
      hosts.Release(h, snap.spec);
      Do(Commit, from);
      servers.AssignHost(sid, None);
      return snap.(host := None);
    }

    /** Asks the scheduler for a host and writes the assignment down; a reservation that cannot be written is
        given back. */
    method PlaceServer(sid: nat, snap: Row, assignOk: bool, ghost from: Plane) returns (snap': Option<Row>)
      requires Valid() && Reaches(cap, from, p) && p.pc == Busy(sid, snap, Place) && sid < |servers.rows|
      modifies this`p, servers, hosts
      ensures Valid() && Reaches(cap, from, p) && p.now == old(p.now) && |servers.rows| == |old(servers.rows)|
      ensures snap'.Some? <==> CanPlace(old(hosts.hosts), snap.spec) && assignOk
      ensures snap'.Some? ==>
                && snap'.value.host.Some? && snap'.value == snap.(host := snap'.value.host)
                && p.pc == Busy(sid, snap'.value, Boot)
                && servers.rows == old(servers.rows)[sid := old(servers.rows)[sid].(host := snap'.value.host)]
                && ReserveReply(old(hosts.hosts), snap'.value.host.value, snap.spec) == Reserved
                && Freest(old(hosts.hosts), snap.spec, snap'.value.host.value)
                && hosts.hosts == Reserving(old(hosts.hosts), snap'.value.host.value, snap.spec)
      ensures snap'.None? ==>
                var st := if CanPlace(old(hosts.hosts), snap.spec) then Error else Unschedulable;
                && p.pc.Idle? && servers.rows == old(servers.rows)[sid := old(servers.rows)[sid].(status := st)]
                && hosts.hosts == old(hosts.hosts)
    {
      hide Inv, Reaches, Releasing, Reserving, ReserveReply, CanPlace, Next;
      var h := Schedule(hosts, snap.spec);
      PlaceEvents(cap, p, sid, snap, if h.Some? then h.value else NO_ID);
      if h.None? {
        Do(NoRoom(true), from);
        servers.MarkStatus(sid, Unschedulable);
        return None;
      }
      KeyedReserve(old(hosts.hosts), h.value, snap.spec);
      Do(Reserve(h.value), from);
      AssignEvents(cap, p, sid, snap, h.value);
      if !assignOk {
        Do(Assign(false, true), from);
        GivenBack(cap, old(p), h.value, snap.spec);
        KeyedRelease(hosts.hosts, h.value, snap.spec);
        hosts.Release(h.value, snap.spec);
        servers.MarkStatus(sid, Error);
        return None;
      }
      Do(Assign(true, true), from);
      servers.AssignHost(sid, h);
      return Some(snap.(host := h));
    }

    /** Boots a placed server. */
    method BootServer(sid: nat, snap: Row, a: Answers, now: int, ghost from: Plane)
      requires Valid() && Reaches(cap, from, p) && p.pc == Busy(sid, snap, Boot) && p.now == now &&
               sid < |servers.rows| && a.vm != NO_ID
      modifies this`p, servers, meter
      ensures Valid() && Reaches(cap, from, p) && p.pc.Idle?
      ensures servers.rows == old(servers.rows)[sid := if a.agentOk then RunningRow(old(servers.rows)[sid], a.vm)
                                                else old(servers.rows)[sid].(status := Error)]
      ensures meter.usage == if a.agentOk then old(meter.usage)[sid := Opened(old(meter.usage)[sid], now)]
              else old(meter.usage)
    {
      hide Inv, Reaches, Opened, Next;
      BootEvents(cap, p, sid, snap, a.vm);
      Do(Provision, from);
      servers.MarkStatus(sid, Provisioning);
      if !a.agentOk {
        MarkError(sid, snap, Booting, from);
        return;
      }
      BootEvents(cap, p, sid, snap, a.vm);
      Do(Booted(a.vm, true, true), from);
      servers.MarkRunning(sid, a.vm);
      MeterEvent(cap, p, sid, snap);
      Do(Meter(true), from);
      meter.StartRunning(sid, now);
    }

    /** An unbooted server keeps a host that can take it, and otherwise gets one from the scheduler if it can. */
    method SettleServer(sid: nat, snap: Row, assignOk: bool, ghost from: Plane) returns (snap': Option<Row>)
      requires Valid() && Reaches(cap, from, p) && p.pc == Busy(sid, snap, Drop) && sid < |servers.rows|
      modifies this`p, servers, hosts
      ensures Valid() && Reaches(cap, from, p) && p.now == old(p.now)
      ensures p.pc == if snap'.Some? then Busy(sid, snap'.value, Boot) else Idle
      ensures !AsksScheduler(snap, old(hosts.hosts)) ==>
                snap' == Some(snap) && servers.rows == old(servers.rows) && hosts.hosts == old(hosts.hosts)
      ensures AsksScheduler(snap, old(hosts.hosts)) ==>
                && |servers.rows| == |old(servers.rows)| && servers.rows == old(servers.rows)[sid := servers.rows[sid]]
                && Settled(snap, assignOk, old(hosts.hosts), hosts.hosts, old(servers.rows)[sid], servers.rows[sid],
                           snap')
    {
      hide Inv, Reaches, CanPlace, Next, Releasing, Reserving, ReserveReply, Freest;
      SnapAccurate(cap, p);
      ghost var before, was, rows := hosts.hosts, servers.rows[sid], servers.rows;
      var s := DropStalePlacement(sid, snap, from);
      if s.host.Some? {
        return Some(s);
      }
      ghost var base := hosts.hosts;
      if snap.host.Some? { StillPlaceable(before, snap.host.value, snap.spec); }
      assert servers.rows == rows[sid := was.(host := None)];
      snap' := PlaceServer(sid, s, assignOk, from);
    }

    /** start: move off a dead host if unbooted, place if unplaced, boot. */
    method StartServer(sid: nat, snap: Row, a: Answers, now: int, ghost from: Plane)
      requires Valid() && Reaches(cap, from, p) && p.pc == Busy(sid, snap, if snap.vm.None? then Drop else Boot) &&
               p.now == now
      requires sid < |servers.rows| && a.vm != NO_ID
      modifies this`p, servers, hosts, meter
      ensures Valid() && Reaches(cap, from, p) && p.pc.Idle?
      ensures |servers.rows| == |old(servers.rows)| && servers.rows == old(servers.rows)[sid := servers.rows[sid]]
      ensures meter.usage == if servers.rows[sid].status == Running
                             then old(meter.usage)[sid := Opened(old(meter.usage)[sid], now)] else old(meter.usage)
      ensures StartOutcome(snap, a, old(hosts.hosts), hosts.hosts, old(servers.rows)[sid], servers.rows[sid])
    {
      hide Inv, Reaches, Next, Opened, StartOutcome, Settled;
      ghost var before, was := hosts.hosts, servers.rows[sid];
      var s := Some(snap);
      if snap.vm.None? {
        s := SettleServer(sid, snap, a.assignOk, from);
      }
      ghost var mid := servers.rows[sid];
      SettledThenBooted(snap, a, before, hosts.hosts, was, mid, s);
      if s.None? {
        return;
      }
      BootServer(sid, s.value, a, now, from);
    }

    /** Probes a server believed up: `alive` is what the agent reports, if it answers. A server whose VM is gone, or
        whose host has been silent for longer than the grace, goes back to pending and its clock stops. */
    method CheckServerLiveness(sid: nat, snap: Row, answer: Option<bool>, grace: int, now: int)
      requires Valid() && p.pc.Idle? && sid in p.batch && p.batch[sid] == snap && p.live && p.now == now &&
               sid < |servers.rows|
      modifies this`p, servers, meter
      ensures Valid() && Reaches(cap, old(p), p) && p.pc.Idle?
      ensures var dead := if answer.Some? then !answer.value else DeadTooLong(hosts.hosts, snap, grace, now);
              && servers.rows == (if dead then old(servers.rows)[sid := LostRow(old(servers.rows)[sid])]
                                  else old(servers.rows))
              && meter.usage == (if dead then old(meter.usage)[sid := Metering.Closed(old(meter.usage)[sid], now)]
                                 else old(meter.usage))
    {
      hide Inv, Reaches, Metering.Closed, Next, LostRow;
      ghost var from := p;
      ReachesSelf(cap, p);
      BeginEvent(cap, p, sid);
      Untouched(p, sid);
      Do(Begin(sid), from);
      ProbeEvents(cap, p, sid, snap);
      var dead := true;
      if answer.Some? {
        dead := !answer.value;
      } else if snap.host.Some? && snap.host.value in hosts.hosts {
        dead := now - hosts.hosts[snap.host.value].heartbeat > grace;
      }
      if !dead {
        Do(Healthy, from);
        return;
      }
      Do(Lost(true), from);
      servers.MarkLost(sid);
      MeterEvent(cap, p, sid, snap);
      Do(Meter(true), from);
      meter.StopRunning(sid, now);
    }

    /** One step towards what the snapshot says is wanted: it ends between steps again, in a state the machine
        can reach, with every book still balanced. */
    method Reconcile(sid: nat, snap: Row, a: Answers, now: int)
      requires Valid() && p.pc.Idle? && sid in p.batch && p.batch[sid] == snap && !p.live && p.now == now &&
               a.vm != NO_ID && sid < |servers.rows|
      modifies this`p, servers, hosts, meter
      ensures Valid() && Reaches(cap, old(p), p) && p.pc.Idle?
      ensures |servers.rows| == |old(servers.rows)| && servers.rows == old(servers.rows)[sid := servers.rows[sid]]
      ensures snap.desired == WantStopped && snap.status != Stopped ==>
                && servers.rows[sid] == (if a.agentOk then old(servers.rows)[sid].(status := Stopped, vm := None,
                   host := None)
                                         else old(servers.rows)[sid].(status := Error))
                && EndedOutcome(snap, a.agentOk, now, old(hosts.hosts), hosts.hosts, old(meter.usage), meter.usage, sid)
      ensures snap.desired == WantRunning && snap.status != Running ==>
                && StartOutcome(snap, a, old(hosts.hosts), hosts.hosts, old(servers.rows)[sid], servers.rows[sid])
                && meter.usage == if servers.rows[sid].status == Running
                                  then old(meter.usage)[sid := Opened(old(meter.usage)[sid], now)] else old(meter.usage)
      ensures snap.desired == WantDeleted ==>
                var gone := a.agentOk || snap.host.None? || !ControlPlane.Placeable(old(hosts.hosts), snap.host.value);
                && servers.rows[sid] == (if gone then old(servers.rows)[sid].(status := Deleted, vm := None,
                   host := None,
                                                                              deleted := true)
                                         else old(servers.rows)[sid].(status := Error))
                && EndedOutcome(snap, gone, now, old(hosts.hosts), hosts.hosts, old(meter.usage), meter.usage, sid)
      ensures (snap.desired == WantStopped && snap.status == Stopped) ||
              (snap.desired == WantRunning && snap.status == Running) ==>
                unchanged(servers) && unchanged(hosts) && unchanged(meter)
    {
      hide Inv, Reaches, Metering.Closed, Opened, Next, Releasing, StartOutcome;
      ghost var from := p;
      ReachesSelf(cap, p);
      BeginEvent(cap, p, sid);
      Untouched(p, sid);
      assert SameLife(snap, servers.rows[sid]) by { BatchAt(cap, p, sid); }
      Do(Begin(sid), from);
      match snap.desired {
        case WantDeleted =>
          if snap.status != Deleting {
            servers.MarkStatus(sid, Deleting);
          }
          var reachable := false;
          if snap.host.Some? {
            reachable := Fleet.Placeable(hosts, snap.host.value);
          }
          if !a.agentOk && reachable {
            MarkError(sid, snap, Destroy, from);
          } else {
            FinishDelete(sid, snap, now, from);
          }
        case WantStopped =>
          if snap.status != Stopped {
            servers.MarkStatus(sid, Stopping);
            if a.agentOk {
              FinishStop(sid, snap, now, from);
            } else {
              MarkError(sid, snap, Halt, from);
            }
          }
        case WantRunning =>
          if snap.status != Running {
            StartServer(sid, snap, a, now, from);
          }
      }
    }
  }

  /** A server without a VM and without a host that can take it asks the scheduler. */
  predicate AsksScheduler(snap: Row, hosts: Hosts) {
    snap.vm.None? && (snap.host.None? || snap.host.value !in hosts || !hosts[snap.host.value].ready)
  }

  /** How a start ends: unschedulable exactly if it asks and no ready host has room; in error exactly if it could go
      on and the assignment cannot be written or the agent fails; otherwise running. */
  ghost function StartStatus(snap: Row, a: Answers, hosts: Hosts): Status {
    if AsksScheduler(snap, hosts) && !CanPlace(hosts, snap.spec) then Unschedulable
    else if (AsksScheduler(snap, hosts) && !a.assignOk) || !a.agentOk then Error
    else Running
  }

  /** The row and the inventory after a start: a server that asks gives a stale placement back, and takes its spec
      from a freest host if there is one and the assignment is written; nothing else changes hands. */
  ghost predicate StartOutcome(snap: Row, a: Answers, hosts: Hosts, after: Hosts, was: Row, r: Row) {
    && r == was.(status := StartStatus(snap, a, hosts), host := r.host, vm := r.vm)
    && r.vm == (if r.status == Running then Some(a.vm) else was.vm)
    && (!AsksScheduler(snap, hosts) ==> r.host == was.host && after == hosts)
    && (AsksScheduler(snap, hosts) ==>
          var base := if snap.host.Some? then Releasing(hosts, snap.host.value, snap.spec) else hosts;
          if CanPlace(hosts, snap.spec) && a.assignOk then
            && r.host.Some? && ReserveReply(base, r.host.value, snap.spec) == Reserved
            && Freest(base, snap.spec, r.host.value) && after == Reserving(base, r.host.value, snap.spec)
          else r.host.None? && after == base)
  }

  /** After a server asked: what it holds, and the snapshot to go on with, if any. */
  ghost predicate Settled(snap: Row, assignOk: bool, hosts: Hosts, after: Hosts, was: Row, r: Row, snap': Option<Row>) {
    var base := if snap.host.Some? then Releasing(hosts, snap.host.value, snap.spec) else hosts;
    if CanPlace(hosts, snap.spec) && assignOk then
      && snap'.Some? && snap'.value == snap.(host := r.host) && r.host.Some? && r == was.(host := r.host)
      && ReserveReply(base, r.host.value, snap.spec) == Reserved && Freest(base, snap.spec, r.host.value)
      && after == Reserving(base, r.host.value, snap.spec)
    else
      && snap'.None? && after == base
      && r == was.(host := None, status := if CanPlace(hosts, snap.spec) then Error else Unschedulable)
  }

  /** The row once the agent has answered. */
  function Answered(a: Answers, r: Row): Row { if a.agentOk then RunningRow(r, a.vm) else r.(status := Error) }

  /** Settling and booting together are a start. */
  lemma SettledThenBooted(snap: Row, a: Answers, hosts: Hosts, after: Hosts, was: Row, mid: Row, s: Option<Row>)
    requires if AsksScheduler(snap, hosts) then Settled(snap, a.assignOk, hosts, after, was, mid, s)
             else s == Some(snap) && after == hosts && mid == was
    ensures StartOutcome(snap, a, hosts, after, was, if s.None? then mid else Answered(a, mid))
    ensures s.None? ==> mid.status != Running
  {
    hide CanPlace, Freest, ReserveReply, Reserving, Releasing;
  }

  /** The inventory and the meters after a stop or a delete that went through or not. */
  ghost predicate EndedOutcome(snap: Row, done: bool, now: int, hosts: Hosts, after: Hosts,
                               usage: seq<seq<Interval>>, usage': seq<seq<Interval>>, sid: nat)
    requires sid < |usage|
  {
    && after == (if done && snap.host.Some? then Releasing(hosts, snap.host.value, snap.spec) else hosts)
    && usage' == if done then usage[sid := Metering.Closed(usage[sid], now)] else usage
  }

  /** Giving capacity back to a host that takes no work makes no room. */
  lemma StillPlaceable(hosts: Hosts, h: Id, spec: Spec)
    requires h !in hosts || !hosts[h].ready
    ensures CanPlace(Releasing(hosts, h, spec), spec) <==> CanPlace(hosts, spec)
  {
    var after := Releasing(hosts, h, spec);
    if CanPlace(hosts, spec) {
      var k :| k in hosts && hosts[k].ready && Fits(hosts[k], spec);
      assert k in after && after[k] == hosts[k];
    }
    if CanPlace(after, spec) {
      var k :| k in after && after[k].ready && Fits(after[k], spec);
      assert k in hosts && after[k] == hosts[k];
    }
  }

  /** While a start is under way the snapshot still says where the server is. */
  lemma SnapAccurate(cap: Id -> Spec, s: Plane)
    requires Inv(cap, s) && s.pc.Busy? && (s.pc.phase.Drop? || s.pc.phase.Boot?)
    ensures s.pc.sid < |s.rows| && s.rows[s.pc.sid].host == s.pc.snap.host && s.rows[s.pc.sid].vm == s.pc.snap.vm
    ensures s.pc.phase.Drop? ==> s.pc.snap.vm.None?
  {
    hide Used, RowsOk, BatchOk, CapOk, PendingOk;
  }

  lemma BatchAt(cap: Id -> Spec, s: Plane, sid: nat)
    requires Inv(cap, s) && sid in s.batch
    ensures sid < |s.rows| && SameLife(s.batch[sid], s.rows[sid])
  {
  }

  /** The free capacity of a host is within its total, so a reservation given back at once leaves no trace. */
  lemma GivenBack(cap: Id -> Spec, s: Plane, h: Id, spec: Spec)
    requires Inv(cap, s) && (s.pc.Idle? || s.pc.phase.Place?) && ReserveReply(s.hosts, h, spec) == Reserved
    ensures Releasing(Reserving(s.hosts, h, spec), h, spec) == s.hosts
  {
    hide Used, RowsOk, BatchOk, PcOk;
    assert Booked(cap, s.rows, s.hosts, s.pc, h);
    SpecsFromRows(s.rows) by { assert RowsOk(s.rows); }
    UsedNonneg(s.rows, h);
  }

  lemma KeyedReserve(hosts: Hosts, h: Id, spec: Spec)
    requires Keyed(hosts)
    ensures Keyed(Reserving(hosts, h, spec))
  {
  }

  lemma KeyedRelease(hosts: Hosts, h: Id, spec: Spec)
    requires Keyed(hosts)
    ensures Keyed(Releasing(hosts, h, spec))
  {
  }
}

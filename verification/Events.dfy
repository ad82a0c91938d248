/** What each event of the control plane does, one equation per event. */
module Events {
  import opened Bytes
  import opened Fleet
  import opened Servers
  import opened Metering
  import opened ControlPlane

  ghost predicate At(s: Plane, sid: nat, snap: Row, p: Phase) {
    s.pc == Busy(sid, snap, p) && sid < |s.rows| && sid < |s.usage|
  }

  function GaveBack(s: Plane, snap: Row): Hosts {
    if snap.host.Some? then Releasing(s.hosts, snap.host.value, snap.spec) else s.hosts
  }

  function Returns(s: Plane, snap: Row, next: After): Phase {
    Returning(snap.host, snap.host.Some? && snap.host.value in s.hosts, next)
  }

  lemma ReturnEvents(cap: Id -> Spec, s: Plane, sid: nat, snap: Row)
    ensures At(s, sid, snap, Halt) ==>
            Next(cap, s, Halted) == Some(s.(hosts := GaveBack(s, snap), pc := Busy(sid, snap, Returns(s, snap, Stop))))
    ensures At(s, sid, snap, Destroy) ==>
            Next(cap, s, Destroyed) == Some(s.(hosts := GaveBack(s, snap),
                                               pc := Busy(sid, snap, Returns(s, snap, Delete))))
    ensures At(s, sid, snap, Drop) && snap.host.Some? && !ControlPlane.Placeable(s.hosts, snap.host.value) ==>
              Next(cap, s, DropStale) == Some(s.(hosts := GaveBack(s, snap),
                                                 pc := Busy(sid, snap, Returns(s, snap, Unassign))))
  {
    hide Releasing;
    if sid < |s.rows| && sid < |s.usage| { Untouched(s, sid); }
  }

  lemma Untouched(s: Plane, sid: nat)
    requires sid < |s.rows| && sid < |s.usage|
    ensures s.rows[sid := s.rows[sid]] == s.rows && s.usage[sid := s.usage[sid]] == s.usage
  {
  }

  lemma CommitEvent(cap: Id -> Spec, s: Plane, sid: nat, snap: Row, p: Phase)
    requires At(s, sid, snap, p) && p.Returning?
    ensures Next(cap, s, Commit) == Some(match p.next
              case Unassign => s.(rows := s.rows[sid := s.rows[sid].(host := None)],
                                  pc := Busy(sid, snap.(host := None), Place))
              case Stop => s.(rows := s.rows[sid := StoppedRow(s.rows[sid])], pc := Busy(sid, snap, Closing))
              case Delete => s.(rows := s.rows[sid := DeletedRow(s.rows[sid])], pc := Busy(sid, snap, Closing)))
  {
    Untouched(s, sid);
  }

  lemma MeterEvent(cap: Id -> Spec, s: Plane, sid: nat, snap: Row)
    ensures At(s, sid, snap, Opening) ==>
            Next(cap, s, Meter(true)) == Some(s.(usage := s.usage[sid := Opened(s.usage[sid], s.now)], pc := Idle))
    ensures At(s, sid, snap, Closing) ==>
            Next(cap, s, Meter(true)) == Some(s.(usage := s.usage[sid := Metering.Closed(s.usage[sid], s.now)],
                                                 pc := Idle))
  {
    hide Opened, Metering.Closed;
    if sid < |s.rows| && sid < |s.usage| { Untouched(s, sid); }
  }

  lemma FailEvent(cap: Id -> Spec, s: Plane, sid: nat, snap: Row, p: Phase)
    requires At(s, sid, snap, p) && Abortable(p) && !p.Probe?
    ensures Next(cap, s, Fail(true)) == Some(s.(rows := s.rows[sid := s.rows[sid].(status := Error)], pc := Idle))
  {
    Untouched(s, sid);
  }

  lemma KeepEvent(cap: Id -> Spec, s: Plane, sid: nat, snap: Row)
    requires At(s, sid, snap, Drop) && (snap.host.Some? ==> ControlPlane.Placeable(s.hosts, snap.host.value))
    ensures Next(cap, s, KeepPlacement) == Some(s.(pc := Busy(sid, snap, if snap.host.None? then Place else Boot)))
  {
    Untouched(s, sid);
  }

  lemma PlaceEvents(cap: Id -> Spec, s: Plane, sid: nat, snap: Row, h: Id)
    requires At(s, sid, snap, Place)
    ensures Next(cap, s, NoRoom(true)) == Some(s.(rows := s.rows[sid := s.rows[sid].(status := Unschedulable)],
                                                  pc := Idle))
    ensures ReserveReply(s.hosts, h, snap.spec) == Reserved ==>
              Next(cap, s, Reserve(h)) == Some(s.(hosts := Reserving(s.hosts, h, snap.spec),
                                                  pc := Busy(sid, snap, Holding(h))))
  {
    hide ReserveReply, Reserving;
    Untouched(s, sid);
  }

  lemma AssignEvents(cap: Id -> Spec, s: Plane, sid: nat, snap: Row, h: Id)
    requires At(s, sid, snap, Holding(h))
    ensures Next(cap, s, Assign(true, true))
            == Some(s.(rows := s.rows[sid := s.rows[sid].(host := Some(h))],
                       pc := Busy(sid, snap.(host := Some(h)), Boot)))
    ensures Next(cap, s, Assign(false, true)) ==
            Some(s.(rows := s.rows[sid := s.rows[sid].(status := Error)], hosts := Releasing(s.hosts, h, snap.spec),
                    pc := Idle))
  {
    hide Releasing;
    Untouched(s, sid);
  }

  lemma BootEvents(cap: Id -> Spec, s: Plane, sid: nat, snap: Row, vm: Id)
    ensures At(s, sid, snap, Boot) ==>
            Next(cap, s, Provision) == Some(s.(rows := s.rows[sid := s.rows[sid].(status := Provisioning)],
                                               pc := Busy(sid, snap, Booting)))
    ensures At(s, sid, snap, Booting) && vm != NO_ID ==>
              Next(cap, s, Booted(vm, true, true)) == Some(s.(rows := s.rows[sid := RunningRow(s.rows[sid], vm)],
                                                              pc := Busy(sid, snap, Opening)))
  {
    if sid < |s.rows| && sid < |s.usage| { Untouched(s, sid); }
  }

  lemma ProbeEvents(cap: Id -> Spec, s: Plane, sid: nat, snap: Row)
    requires At(s, sid, snap, Probe)
    ensures Next(cap, s, Healthy) == Some(s.(pc := Idle))
    ensures Next(cap, s, Lost(true)) == Some(s.(rows := s.rows[sid := LostRow(s.rows[sid])],
                                                pc := Busy(sid, snap, Closing)))
  {
    hide LostRow;
    Untouched(s, sid);
  }

  lemma BeginEvent(cap: Id -> Spec, s: Plane, sid: nat)
    requires s.pc.Idle? && sid in s.batch && sid < |s.rows|
    ensures var (r, p) := Entering(s.live, s.rows[sid], s.batch[sid]);
            Next(cap, s, Begin(sid)) == Some(s.(rows := s.rows[sid := r], batch := s.batch - {sid},
                                                pc := GoTo(sid, s.batch[sid], p)))
  {
    hide Entering;
  }
}

/** Who has a host, and who has none. */
module Placement {
  import opened Bytes
  import opened Fleet
  import opened Servers
  import opened Metering
  import opened ControlPlane
  import opened Capacity

  lemma NextShape(cap: Id -> Spec, s: Plane, e: Event)
    requires Shape(s) && Next(cap, s, e).Some?
    ensures Shape(Next(cap, s, e).value)
  {
    hide Shape, Picking, Outside, Working;
    match e {
      case List(_, _) => PickingShape(s, e);
      case Begin(_) => PickingShape(s, e);
      case BeginFails(_, _) => PickingShape(s, e);
      case Tick => OutsideShape(cap, s, e);
      case Create(_) => OutsideShape(cap, s, e);
      case Want(_, _) => OutsideShape(cap, s, e);
      case AskBackup(_) => OutsideShape(cap, s, e);
      case ReadUsed(_, _) => OutsideShape(cap, s, e);
      case Register(_) => OutsideShape(cap, s, e);
      case Heard(_) => OutsideShape(cap, s, e);
      case Down(_) => OutsideShape(cap, s, e);
      case Crash => OutsideShape(cap, s, e);
      case _ => WorkingShape(s, e);
    }
  }

  lemma {:induction false} RunShape(cap: Id -> Spec, es: seq<Event>)
    requires Run(cap, START, es).Some?
    ensures Shape(Run(cap, START, es).value)
    decreases |es|
  {
    hide Next;
    if es != [] {
      hide Shape;
      RunShape(cap, es[..|es| - 1]);
      NextShape(cap, Run(cap, START, es[..|es| - 1]).value, es[|es| - 1]);
    }
  }

  // ---------------------------------------------------------------- no call without a host

  datatype Call = Provisions | Starts | Stops | Evicts | Deprovisions | Reports

  /** The provisioner's guards: what happens to a call for snapshot `snap` before anything is sent. */
  datatype Sent = Nothing | Unplaced | ToHost(h: Id)

  function Assigned(snap: Row): Sent { if snap.host.None? then Unplaced else ToHost(snap.host.value) }

  function Guard(c: Call, snap: Row): Sent {
    match c
    case Provisions => Assigned(snap)
    case Starts => Assigned(snap)
    case Stops => if snap.vm.None? then Nothing else Assigned(snap)
    case Evicts => if snap.host.None? || snap.vm.None? then Nothing else Assigned(snap)
    case Deprovisions => if snap.host.None? || snap.vm.None? then Nothing else Assigned(snap)
    case Reports => if snap.vm.None? then Nothing else Assigned(snap)
  }

  /** Calls the reconciler makes in a phase. */
  predicate Makes(p: Phase, snap: Row, c: Call) {
    match p
    case Booting => if snap.vm.Some? then c == Starts else c == Provisions
    case Halt => c == Stops || c == Evicts
    case Destroy => c == Deprovisions
    case Probe => c == Reports
    case _ => false
  }

  /** On every run a row with a VM has a host, and no call of the reconciler reaches the provisioner without
      one: the "server has no host" error cannot come from here. */
  lemma AlwaysPlaced(cap: Id -> Spec, es: seq<Event>)
    requires Run(cap, START, es).Some?
    ensures var s := Run(cap, START, es).value;
            && (forall i :: 0 <= i < |s.rows| && s.rows[i].vm.Some? ==> s.rows[i].host.Some?)
            && (forall i :: 0 <= i < |s.rows| && s.rows[i].deleted ==> s.rows[i].host.None? && s.rows[i].vm.None?)
            && forall c :: s.pc.Busy? && Makes(s.pc.phase, s.pc.snap, c) ==> Guard(c, s.pc.snap) != Unplaced
  {
    hide Run, BatchOk;
    RunShape(cap, es);
    var s := Run(cap, START, es).value;
    forall i | 0 <= i < |s.rows| ensures RowOk(s.rows[i]) {
    }
    if s.pc.Busy? { assert RowOk(s.rows[s.pc.sid]); }
  }

  // ---------------------------------------------------------------- stopped means gone

  predicate Gone(r: Row) { r.status == Stopped || r.status == Deleted }

  /** A row that is marked stopped or deleted holds nothing, except one that is just being started again. */
  ghost predicate CleanRow(r: Row, starting: bool) {
    Gone(r) && !starting ==> r.host.None? && r.vm.None?
  }

  predicate Starting(pc: Pc, i: nat) { pc.Busy? && pc.sid == i && pc.phase.Boot? }

  ghost predicate Clean(s: Plane) {
    forall i :: 0 <= i < |s.rows| ==> CleanRow(s.rows[i], Starting(s.pc, i))
  }

  /** The start of a stopped server is cut off between its assignment and its first status write. */
  predicate Interrupts(s: Plane, e: Event) {
    s.pc.Busy? && s.pc.phase.Boot? && (e.Crash? || e == Fail(false)) && s.pc.sid < |s.rows| && Gone(s.rows[s.pc.sid])
  }

  lemma ProbeClean(m: Move, sid: nat, snap: Row, p: Phase, e: Event)
    requires m.pc == Busy(sid, snap, p) && PcFits(m.hosts, m.row, m.pc, sid) && ProbeMove(m, sid, snap, p, e).Some?
    requires CleanRow(m.row, p.Boot?) && !(p.Boot? && e == Fail(false) && Gone(m.row))
    ensures var m' := ProbeMove(m, sid, snap, p, e).value;
            CleanRow(m'.row, Starting(m'.pc, sid)) && (m'.pc.Busy? ==> m'.pc.sid == sid)
  {
  }

  lemma PlaceClean(m: Move, sid: nat, snap: Row, p: Phase, e: Event)
    requires m.pc == Busy(sid, snap, p) && PcFits(m.hosts, m.row, m.pc, sid) && PlaceMove(m, sid, snap, p, e).Some? &&
             CleanRow(m.row, p.Boot?)
    ensures var m' := PlaceMove(m, sid, snap, p, e).value;
            CleanRow(m'.row, Starting(m'.pc, sid)) && (m'.pc.Busy? ==> m'.pc.sid == sid)
  {
  }

  lemma AgentClean(m: Move, sid: nat, snap: Row, p: Phase, e: Event)
    requires m.pc == Busy(sid, snap, p) && PcFits(m.hosts, m.row, m.pc, sid) && AgentMove(m, sid, snap, p, e).Some? &&
             CleanRow(m.row, p.Boot?)
    ensures var m' := AgentMove(m, sid, snap, p, e).value;
            CleanRow(m'.row, Starting(m'.pc, sid)) && (m'.pc.Busy? ==> m'.pc.sid == sid)
  {
  }

  lemma CommitClean(m: Move, sid: nat, snap: Row, p: Phase, e: Event, now: int)
    requires m.pc == Busy(sid, snap, p) && PcFits(m.hosts, m.row, m.pc, sid) &&
             CommitMove(m, sid, snap, p, e, now).Some? && CleanRow(m.row, p.Boot?)
    ensures var m' := CommitMove(m, sid, snap, p, e, now).value;
            CleanRow(m'.row, Starting(m'.pc, sid)) && (m'.pc.Busy? ==> m'.pc.sid == sid)
  {
    hide Opened, Metering.Closed;
  }

  lemma MoveClean(m: Move, sid: nat, snap: Row, p: Phase, e: Event, now: int)
    requires m.pc == Busy(sid, snap, p) && PcFits(m.hosts, m.row, m.pc, sid) && MoveOf(m, sid, snap, p, e, now).Some?
    requires CleanRow(m.row, p.Boot?) && !(p.Boot? && e == Fail(false) && Gone(m.row))
    ensures var m' := MoveOf(m, sid, snap, p, e, now).value;
            CleanRow(m'.row, Starting(m'.pc, sid)) && (m'.pc.Busy? ==> m'.pc.sid == sid)
  {
    hide PcFits, CleanRow, Starting, ProbeMove, PlaceMove, AgentMove, CommitMove;
    match e {
      case Fail(_) => ProbeClean(m, sid, snap, p, e);
      case Healthy => ProbeClean(m, sid, snap, p, e);
      case Lost(_) => ProbeClean(m, sid, snap, p, e);
      case Provision => AgentClean(m, sid, snap, p, e);
      case Booted(_, _, _) => AgentClean(m, sid, snap, p, e);
      case Halted => AgentClean(m, sid, snap, p, e);
      case Destroyed => AgentClean(m, sid, snap, p, e);
      case Commit => CommitClean(m, sid, snap, p, e, now);
      case CommitFails(_) => CommitClean(m, sid, snap, p, e, now);
      case Meter(_) => CommitClean(m, sid, snap, p, e, now);
      case _ => PlaceClean(m, sid, snap, p, e);
    }
  }

  lemma WorkingClean(s: Plane, e: Event)
    requires Shape(s) && Clean(s) && Working(s, e).Some? && !Interrupts(s, e)
    ensures Clean(Working(s, e).value)
  {
    hide MoveOf, RowsOk, BatchOk, CleanRow, PhaseOk;
    var t, sid := Working(s, e).value, s.pc.sid;
    MoveClean(MoveAt(s, sid), sid, s.pc.snap, s.pc.phase, e, s.now);
    forall i | 0 <= i < |t.rows| ensures CleanRow(t.rows[i], Starting(t.pc, i)) {
      assert CleanRow(s.rows[i], Starting(s.pc, i));
    }
  }

  lemma EnteringClean(live: bool, r: Row, snap: Row)
    requires CleanRow(r, false) && SameLife(snap, r)
    ensures CleanRow(Entering(live, r, snap).0, Entering(live, r, snap).1 == Some(Boot))
  {
  }

  lemma OtherClean(cap: Id -> Spec, s: Plane, e: Event)
    requires Shape(s) && Clean(s) && !Interrupts(s, e)
    ensures Picking(s, e).Some? ==> Clean(Picking(s, e).value)
    ensures Outside(cap, s, e).Some? ==> Clean(Outside(cap, s, e).value)
  {
    hide Used, RowsOk, PhaseOk, Registering, Entering;
    if Picking(s, e).Some? {
      var t := Picking(s, e).value;
      forall i | 0 <= i < |t.rows| ensures CleanRow(t.rows[i], Starting(t.pc, i)) {
        assert CleanRow(s.rows[i], Starting(s.pc, i));
        if e.Begin? && e.sid == i { EnteringClean(s.live, s.rows[i], s.batch[i]); }
      }
    }
    if Outside(cap, s, e).Some? {
      var t := Outside(cap, s, e).value;
      forall i | 0 <= i < |t.rows| ensures CleanRow(t.rows[i], Starting(t.pc, i)) {
        if i < |s.rows| { assert CleanRow(s.rows[i], Starting(s.pc, i)); }
      }
    }
  }

  lemma NextClean(cap: Id -> Spec, s: Plane, e: Event)
    requires Shape(s) && Clean(s) && Next(cap, s, e).Some? && !Interrupts(s, e)
    ensures Clean(Next(cap, s, e).value)
  {
    hide Shape, Clean, Interrupts, Picking, Outside, Working;
    OtherClean(cap, s, e);
    if Working(s, e).Some? { WorkingClean(s, e); }
  }

  ghost predicate Uninterrupted(cap: Id -> Spec, es: seq<Event>)
    decreases |es|
  {
    es == [] ||
    (var before, e := es[..|es| - 1], es[|es| - 1];
     Uninterrupted(cap, before) && (Run(cap, START, before).Some? ==> !Interrupts(Run(cap, START, before).value, e)))
  }

  lemma {:induction false} RunClean(cap: Id -> Spec, es: seq<Event>)
    requires Run(cap, START, es).Some? && Uninterrupted(cap, es)
    ensures Shape(Run(cap, START, es).value) && Clean(Run(cap, START, es).value)
    decreases |es|
  {
    hide Next, Shape, Clean, Interrupts;
    RunShape(cap, es);
    if es == [] {
      assert Clean(START) by { StartClean(); }
    } else {
      RunClean(cap, es[..|es| - 1]);
      NextClean(cap, Run(cap, START, es[..|es| - 1]).value, es[|es| - 1]);
    }
  }

  lemma StartClean()
    ensures Clean(START)
  {
  }

  /** Between steps of an uninterrupted run every stopped or deleted row holds neither a host nor a VM. */
  lemma StoppedHoldsNothing(cap: Id -> Spec, es: seq<Event>, i: nat)
    requires Run(cap, START, es).Some? && Uninterrupted(cap, es)
    requires i < |Run(cap, START, es).value.rows| && Run(cap, START, es).value.pc.Idle?
    ensures var r := Run(cap, START, es).value.rows[i];
            r.status == Stopped || r.status == Deleted ==> r.host.None? && r.vm.None?
  {
    hide Run, Shape;
    RunClean(cap, es);
  }

  /** The condition is exact: of all events, exactly the interruption of a stopped server's start breaks it. */
  lemma CleanStep(cap: Id -> Spec, s: Plane, e: Event)
    requires Shape(s) && Clean(s) && Next(cap, s, e).Some?
    ensures Clean(Next(cap, s, e).value) <==> !Interrupts(s, e)
  {
    hide Next, Shape, Clean, Interrupts;
    if Interrupts(s, e) {
      InterruptionLeavesHost(cap, s, e);
    } else {
      NextClean(cap, s, e);
    }
  }

  lemma InterruptionLeavesHost(cap: Id -> Spec, s: Plane, e: Event)
    requires Shape(s) && Interrupts(s, e) && Next(cap, s, e).Some?
    ensures var t := Next(cap, s, e).value;
            && t.pc.Idle? && s.pc.sid < |t.rows| && Gone(t.rows[s.pc.sid]) && t.rows[s.pc.sid].host.Some? && !Clean(t)
  {
    hide RowsOk, BatchOk;
    var t := Next(cap, s, e).value;
    assert !CleanRow(t.rows[s.pc.sid], Starting(t.pc, s.pc.sid));
  }
}

/** No host is ever overcommitted, on any run. */
module Capacity {
  import opened Bytes
  import opened Fleet
  import opened Servers
  import opened Metering
  import opened ControlPlane

  // ---------------------------------------------------------------- the invariant

  /** What a snapshot is relied on for. */
  predicate SameLife(a: Row, b: Row) {
    a.spec == b.spec && a.host == b.host && a.vm == b.vm && a.status == b.status && a.deleted == b.deleted
  }

  ghost predicate RowOk(r: Row) {
    && NONE.Within(r.spec)
    && (r.vm.Some? ==> r.host.Some?)
    && (r.deleted ==> r.host.None?)
  }

  ghost predicate RowsOk(rows: Rows) {
    forall i :: 0 <= i < |rows| ==> RowOk(rows[i])
  }

  /** Snapshots waiting for their turn are still accurate: only the reconciler changes what they record. */
  ghost predicate BatchOk(s: Plane) {
    forall i :: i in s.batch ==>
        i < |s.rows| && SameLife(s.batch[i], s.rows[i]) && !s.rows[i].deleted &&
        (s.live ==> s.rows[i].status == Running)
  }

  ghost predicate PhaseOk(hosts: Hosts, r: Row, snap: Row, p: Phase) {
    match p
    case Probe => !r.deleted && r.host == snap.host && r.vm == snap.vm && r.status == Running
    case Drop => !r.deleted && r.host == snap.host && r.vm == snap.vm == None
    case Place => !r.deleted && r.host == snap.host == None && r.vm == snap.vm == None
    case Holding(h) => !r.deleted && r.host == snap.host == None && r.vm == snap.vm == None && h in hosts
    case Boot => !r.deleted && r.host == snap.host && r.host.Some? && r.vm == snap.vm
    case Booting => !r.deleted && r.host == snap.host && r.host.Some? && r.vm == snap.vm
    case Halt => !r.deleted && r.host == snap.host && r.vm == snap.vm
    case Destroy => !r.deleted && r.host == snap.host && r.vm == snap.vm
    case Returning(host, returned, next) =>
      && !r.deleted && r.host == snap.host == host && r.vm == snap.vm
      && (returned ==> host.Some? && host.value in hosts)
      && (next.Unassign? ==> r.vm.None?)
    case Opening => !r.deleted && r.vm.Some?
    case Closing => r.vm.None?
  }

  ghost predicate PcOk(s: Plane) {
    s.pc.Busy? ==>
      && s.pc.sid < |s.rows| && s.pc.sid !in s.batch && s.rows[s.pc.sid].spec == s.pc.snap.spec
      && PhaseOk(s.hosts, s.rows[s.pc.sid], s.pc.snap, s.pc.phase)
  }

  /** Capacity in flight on `h`: reserved but not assigned, or given back but still assigned. */
  function InFlight(pc: Pc, h: Id): Spec {
    if pc.Idle? then NONE
    else if pc.phase.Holding? && pc.phase.h == h then pc.snap.spec
    else if pc.phase.Returning? && pc.phase.returned && pc.phase.host == Some(h) then NONE.Minus(pc.snap.spec)
    else NONE
  }

  /** The books of one host balance: free capacity, committed capacity and capacity in flight fit its total. */
  ghost predicate Balanced(total: Spec, used: Spec, hosts: Hosts, pc: Pc, h: Id) {
    && used.Within(total)
    && (h in hosts ==>
          && hosts[h].total == total && NONE.Within(hosts[h].alloc)
          && hosts[h].alloc.Plus(used).Plus(InFlight(pc, h)).Within(total))
  }

  ghost predicate Booked(cap: Id -> Spec, rows: Rows, hosts: Hosts, pc: Pc, h: Id) {
    Balanced(cap(h), Used(rows, h), hosts, pc, h)
  }

  ghost predicate CapOk(cap: Id -> Spec, s: Plane) {
    forall h :: Booked(cap, s.rows, s.hosts, s.pc, h)
  }

  /** What a registration read stays an upper bound until the host is in the inventory. */
  ghost predicate PendingOk(cap: Id -> Spec, s: Plane) {
    forall c :: c in s.pending ==>
      && s.pending[c].used.Within(cap(s.pending[c].host))
      && (s.pending[c].host !in s.hosts ==> Used(s.rows, s.pending[c].host).Within(s.pending[c].used))
  }

  ghost predicate Inv(cap: Id -> Spec, s: Plane) {
    RowsOk(s.rows) && BatchOk(s) && PcOk(s) && CapOk(cap, s) && PendingOk(cap, s)
  }

  // ---------------------------------------------------------------- rows

  lemma SpecsFromRows(rows: Rows)
    requires RowsOk(rows)
    ensures SpecsOk(rows)
  {
  }

  /** A row update that leaves placement alone changes no sum. */
  lemma UsedSame(rows: Rows, sid: nat, r: Row, h: Id)
    requires sid < |rows| && r.spec == rows[sid].spec && r.host == rows[sid].host && r.deleted == rows[sid].deleted
    ensures Used(rows[sid := r], h) == Used(rows, h)
  {
    hide Used;
    UsedUpdate(rows, sid, r, h);
  }

  // ---------------------------------------------------------------- rows, snapshots and the program counter

  ghost predicate PcFits(hosts: Hosts, r: Row, pc: Pc, sid: nat) {
    pc.Busy? ==> pc.sid == sid && r.spec == pc.snap.spec && PhaseOk(hosts, r, pc.snap, pc.phase)
  }

  ghost predicate GoodMove(m: Move, m': Move, sid: nat) {
    RowOk(m'.row) && PcFits(m'.hosts, m'.row, m'.pc, sid) && m'.hosts.Keys == m.hosts.Keys
  }

  lemma ProbeGood(m: Move, sid: nat, snap: Row, p: Phase, e: Event)
    requires RowOk(m.row) && m.pc == Busy(sid, snap, p) && PcFits(m.hosts, m.row, m.pc, sid) &&
             ProbeMove(m, sid, snap, p, e).Some?
    ensures GoodMove(m, ProbeMove(m, sid, snap, p, e).value, sid)
  {
  }

  lemma PlaceGood(m: Move, sid: nat, snap: Row, p: Phase, e: Event)
    requires RowOk(m.row) && m.pc == Busy(sid, snap, p) && PcFits(m.hosts, m.row, m.pc, sid) &&
             PlaceMove(m, sid, snap, p, e).Some?
    ensures GoodMove(m, PlaceMove(m, sid, snap, p, e).value, sid)
  {
  }

  lemma AgentGood(m: Move, sid: nat, snap: Row, p: Phase, e: Event)
    requires RowOk(m.row) && m.pc == Busy(sid, snap, p) && PcFits(m.hosts, m.row, m.pc, sid) &&
             AgentMove(m, sid, snap, p, e).Some?
    ensures GoodMove(m, AgentMove(m, sid, snap, p, e).value, sid)
  {
  }

  lemma CommitGood(m: Move, sid: nat, snap: Row, p: Phase, e: Event, now: int)
    requires RowOk(m.row) && m.pc == Busy(sid, snap, p) && PcFits(m.hosts, m.row, m.pc, sid) &&
             CommitMove(m, sid, snap, p, e, now).Some?
    ensures GoodMove(m, CommitMove(m, sid, snap, p, e, now).value, sid)
  {
    hide Opened, Metering.Closed;
  }

  lemma MoveGood(m: Move, sid: nat, snap: Row, p: Phase, e: Event, now: int)
    requires RowOk(m.row) && m.pc == Busy(sid, snap, p) && PcFits(m.hosts, m.row, m.pc, sid) &&
             MoveOf(m, sid, snap, p, e, now).Some?
    ensures GoodMove(m, MoveOf(m, sid, snap, p, e, now).value, sid)
  {
    hide RowOk, PcFits, GoodMove, ProbeMove, PlaceMove, AgentMove, CommitMove;
    match e {
      case Fail(_) => ProbeGood(m, sid, snap, p, e);
      case Healthy => ProbeGood(m, sid, snap, p, e);
      case Lost(_) => ProbeGood(m, sid, snap, p, e);
      case Provision => AgentGood(m, sid, snap, p, e);
      case Booted(_, _, _) => AgentGood(m, sid, snap, p, e);
      case Halted => AgentGood(m, sid, snap, p, e);
      case Destroyed => AgentGood(m, sid, snap, p, e);
      case Commit => CommitGood(m, sid, snap, p, e, now);
      case CommitFails(_) => CommitGood(m, sid, snap, p, e, now);
      case Meter(_) => CommitGood(m, sid, snap, p, e, now);
      case _ => PlaceGood(m, sid, snap, p, e);
    }
  }

  ghost predicate Shape(s: Plane) {
    RowsOk(s.rows) && BatchOk(s) && PcOk(s)
  }

  lemma WorkingShape(s: Plane, e: Event)
    requires Shape(s) && Working(s, e).Some?
    ensures Shape(Working(s, e).value)
  {
    hide RowOk, PhaseOk, MoveOf, SameLife;
    var sid, snap, p := s.pc.sid, s.pc.snap, s.pc.phase;
    MoveGood(MoveAt(s, sid), sid, snap, p, e, s.now);
  }

  lemma EnteringGood(hosts: Hosts, live: bool, r: Row, snap: Row, sid: nat)
    requires RowOk(r) && SameLife(snap, r) && !r.deleted && (live ==> r.status == Running)
    ensures RowOk(Entering(live, r, snap).0) &&
            PcFits(hosts, Entering(live, r, snap).0, GoTo(sid, snap, Entering(live, r, snap).1), sid)
  {
  }

  lemma PickingShape(s: Plane, e: Event)
    requires Shape(s) && Picking(s, e).Some?
    ensures Shape(Picking(s, e).value)
  {
    hide RowOk, PhaseOk, Entering, SameLife, Reconcilable;
    match e {
      case Begin(sid) => EnteringGood(s.hosts, s.live, s.rows[sid], s.batch[sid], sid);
      case BeginFails(sid, written) => MarkedOk(s.rows[sid], written);
      case List(alive, ids) => ListedOk(s, alive, ids);
    }
  }

  lemma MarkedOk(r: Row, written: bool)
    requires RowOk(r)
    ensures RowOk(Marked(r, Error, written))
  {
  }

  lemma ListedOk(s: Plane, alive: bool, ids: set<nat>)
    requires forall i :: i in ids ==> i < |s.rows| && Listable(s.rows, alive, i)
    ensures BatchOk(s.(batch := Snapshots(s.rows, ids), live := alive))
  {
  }

  lemma SetRowShape(s: Plane, sid: nat, r: Row)
    requires Shape(s) && sid < |s.rows| && SameLife(r, s.rows[sid])
    ensures Shape(s.(rows := s.rows[sid := r]))
  {
    var t := s.(rows := s.rows[sid := r]);
    assert RowOk(s.rows[sid]);
    assert BatchOk(t);
    if s.pc.Busy? { SamePhase(s.hosts, s.rows[s.pc.sid], t.rows[s.pc.sid], s.pc.snap, s.pc.phase); }
  }

  lemma SamePhase(hosts: Hosts, r: Row, r': Row, snap: Row, p: Phase)
    requires PhaseOk(hosts, r, snap, p) && SameLife(r', r)
    ensures PhaseOk(hosts, r', snap, p)
  {
  }

  lemma MoreHosts(hosts: Hosts, hosts': Hosts, r: Row, snap: Row, p: Phase)
    requires PhaseOk(hosts, r, snap, p) && forall h :: h in hosts ==> h in hosts'
    ensures PhaseOk(hosts', r, snap, p)
  {
  }

  lemma HostsShape(s: Plane, hosts: Hosts, pending: map<nat, Enrolment>)
    requires Shape(s) && forall h :: h in s.hosts ==> h in hosts
    ensures Shape(s.(hosts := hosts, pending := pending))
  {
    hide PhaseOk, RowOk, SameLife;
    if s.pc.Busy? { MoreHosts(s.hosts, hosts, s.rows[s.pc.sid], s.pc.snap, s.pc.phase); }
  }

  lemma CreateShape(s: Plane, spec: Spec, usage: seq<seq<Interval>>, hist: seq<seq<bool>>)
    requires Shape(s) && NONE.Within(spec)
    ensures Shape(s.(rows := s.rows + [NewRow(spec)], usage := usage, hist := hist))
  {
    hide PhaseOk;
  }

  lemma OutsideShape(cap: Id -> Spec, s: Plane, e: Event)
    requires Shape(s) && Outside(cap, s, e).Some?
    ensures Shape(Outside(cap, s, e).value)
  {
    hide Used, RowOk, PhaseOk, BatchOk;
    match e {
      case Create(spec) => CreateShape(s, spec, s.usage + [[]], s.hist + [DownSince(s.now)]);
      case Want(sid, d) => SetRowShape(s, sid, s.rows[sid].(desired := d));
      case AskBackup(sid) => SetRowShape(s, sid, s.rows[sid].(backup := true));
      case Register(conn) =>
        var t := Outside(cap, s, e).value;
        HostsShape(s, t.hosts, t.pending);
      case Heard(h) => HostsShape(s, Hearing(s.hosts, h, s.now), s.pending);
      case Down(h) => HostsShape(s, SetReady(s.hosts, h, false), s.pending);
      case ReadUsed(_, _) => SameShape(s, Outside(cap, s, e).value);
      case Tick => SameShape(s, Outside(cap, s, e).value);
      case Crash => EmptyBatch(Outside(cap, s, e).value);
    }
  }

  lemma SameShape(s: Plane, t: Plane)
    requires Shape(s) && t.rows == s.rows && t.batch == s.batch && t.live == s.live && t.pc == s.pc &&
             t.hosts == s.hosts
    ensures Shape(t)
  {
    hide PhaseOk, RowOk, SameLife;
  }

  lemma EmptyBatch(t: Plane)
    requires t.batch == map[]
    ensures BatchOk(t)
  {
  }

  // ---------------------------------------------------------------- the books

  /** What a move does to the sum of `h`. */
  function Moved(used: Spec, m: Move, m': Move, h: Id): Spec { used.Minus(Weight(m.row, h)).Plus(Weight(m'.row, h)) }

  ghost predicate BeforeMove(total: Spec, used: Spec, m: Move, sid: nat, snap: Row, p: Phase, h: Id) {
    && RowOk(m.row) && m.pc == Busy(sid, snap, p) && PcFits(m.hosts, m.row, m.pc, sid)
    && Balanced(total, used, m.hosts, m.pc, h) && Weight(m.row, h).Within(used)
  }

  lemma ProbeBalanced(total: Spec, used: Spec, m: Move, sid: nat, snap: Row, p: Phase, e: Event, h: Id)
    requires BeforeMove(total, used, m, sid, snap, p, h) && ProbeMove(m, sid, snap, p, e).Some?
    ensures var m' := ProbeMove(m, sid, snap, p, e).value; Balanced(total, Moved(used, m, m', h), m'.hosts, m'.pc, h)
    ensures h !in m.hosts ==> Weight(ProbeMove(m, sid, snap, p, e).value.row, h).Within(Weight(m.row, h))
  {
  }

  lemma PlaceBalanced(total: Spec, used: Spec, m: Move, sid: nat, snap: Row, p: Phase, e: Event, h: Id)
    requires BeforeMove(total, used, m, sid, snap, p, h) && PlaceMove(m, sid, snap, p, e).Some?
    ensures var m' := PlaceMove(m, sid, snap, p, e).value; Balanced(total, Moved(used, m, m', h), m'.hosts, m'.pc, h)
    ensures h !in m.hosts ==> Weight(PlaceMove(m, sid, snap, p, e).value.row, h).Within(Weight(m.row, h))
  {
  }

  lemma AgentBalanced(total: Spec, used: Spec, m: Move, sid: nat, snap: Row, p: Phase, e: Event, h: Id)
    requires BeforeMove(total, used, m, sid, snap, p, h) && AgentMove(m, sid, snap, p, e).Some?
    ensures var m' := AgentMove(m, sid, snap, p, e).value; Balanced(total, Moved(used, m, m', h), m'.hosts, m'.pc, h)
    ensures h !in m.hosts ==> Weight(AgentMove(m, sid, snap, p, e).value.row, h).Within(Weight(m.row, h))
  {
  }

  lemma CommitBalanced(total: Spec, used: Spec, m: Move, sid: nat, snap: Row, p: Phase, e: Event, now: int, h: Id)
    requires BeforeMove(total, used, m, sid, snap, p, h) && CommitMove(m, sid, snap, p, e, now).Some? && !e.CommitFails?
    ensures var m' := CommitMove(m, sid, snap, p, e, now).value;
            Balanced(total, Moved(used, m, m', h), m'.hosts, m'.pc, h)
    ensures h !in m.hosts ==> Weight(CommitMove(m, sid, snap, p, e, now).value.row, h).Within(Weight(m.row, h))
  {
    hide Opened, Metering.Closed;
  }

  lemma MoveBalanced(total: Spec, used: Spec, m: Move, sid: nat, snap: Row, p: Phase, e: Event, now: int, h: Id)
    requires BeforeMove(total, used, m, sid, snap, p, h) && MoveOf(m, sid, snap, p, e, now).Some? && !e.CommitFails?
    ensures var m' := MoveOf(m, sid, snap, p, e, now).value; Balanced(total, Moved(used, m, m', h), m'.hosts, m'.pc, h)
    ensures h !in m.hosts ==> Weight(MoveOf(m, sid, snap, p, e, now).value.row, h).Within(Weight(m.row, h))
  {
    hide BeforeMove, Balanced, Moved, Weight, ProbeMove, PlaceMove, AgentMove, CommitMove;
    match e {
      case Fail(_) => ProbeBalanced(total, used, m, sid, snap, p, e, h);
      case Healthy => ProbeBalanced(total, used, m, sid, snap, p, e, h);
      case Lost(_) => ProbeBalanced(total, used, m, sid, snap, p, e, h);
      case Provision => AgentBalanced(total, used, m, sid, snap, p, e, h);
      case Booted(_, _, _) => AgentBalanced(total, used, m, sid, snap, p, e, h);
      case Halted => AgentBalanced(total, used, m, sid, snap, p, e, h);
      case Destroyed => AgentBalanced(total, used, m, sid, snap, p, e, h);
      case Commit => CommitBalanced(total, used, m, sid, snap, p, e, now, h);
      case Meter(_) => CommitBalanced(total, used, m, sid, snap, p, e, now, h);
      case _ => PlaceBalanced(total, used, m, sid, snap, p, e, h);
    }
  }

  lemma InvParts(cap: Id -> Spec, s: Plane, sid: nat, h: Id)
    requires Inv(cap, s) && s.pc.Busy? && s.pc.sid == sid && sid < |s.usage|
    ensures BeforeMove(cap(h), Used(s.rows, h), MoveAt(s, sid), sid, s.pc.snap, s.pc.phase, h)
  {
    hide Used, PhaseOk;
    assert Booked(cap, s.rows, s.hosts, s.pc, h);
    assert RowOk(s.rows[sid]);
    SpecsFromRows(s.rows);
    UsedBounds(s.rows, sid, h);
  }

  lemma WorkingBooks(cap: Id -> Spec, s: Plane, e: Event, h: Id)
    requires Inv(cap, s) && Working(s, e).Some? && !e.CommitFails?
    ensures var t := Working(s, e).value;
            && Booked(cap, t.rows, t.hosts, t.pc, h) && (h in t.hosts <==> h in s.hosts)
            && (h !in s.hosts ==> Used(t.rows, h).Within(Used(s.rows, h)))
  {
    hide Used, MoveOf, Inv, BeforeMove, Balanced, Weight, PcFits, RowOk;
    var sid := s.pc.sid;
    var m := MoveAt(s, sid);
    InvParts(cap, s, sid, h);
    MoveBalanced(cap(h), Used(s.rows, h), m, sid, s.pc.snap, s.pc.phase, e, s.now, h);
    BeforeParts(cap(h), Used(s.rows, h), m, sid, s.pc.snap, s.pc.phase, h);
    MoveGood(m, sid, s.pc.snap, s.pc.phase, e, s.now);
    var m' := MoveOf(m, sid, s.pc.snap, s.pc.phase, e, s.now).value;
    UsedUpdate(s.rows, sid, m'.row, h);
    assert h in m'.hosts <==> h in m.hosts by { assert h in m'.hosts.Keys <==> h in m.hosts.Keys; }
  }

  lemma BeforeParts(total: Spec, used: Spec, m: Move, sid: nat, snap: Row, p: Phase, h: Id)
    requires BeforeMove(total, used, m, sid, snap, p, h)
    ensures RowOk(m.row) && m.pc == Busy(sid, snap, p) && PcFits(m.hosts, m.row, m.pc, sid)
  {
  }

  lemma WorkingInv(cap: Id -> Spec, s: Plane, e: Event)
    requires Inv(cap, s) && Working(s, e).Some? && !e.CommitFails?
    ensures Inv(cap, Working(s, e).value)
  {
    hide Used, RowsOk, BatchOk, PcOk, Booked, MoveOf;
    var t := Working(s, e).value;
    WorkingShape(s, e);
    forall h ensures Booked(cap, t.rows, t.hosts, t.pc, h) { WorkingBooks(cap, s, e, h); }
    forall c | c in t.pending
      ensures t.pending[c].used.Within(cap(t.pending[c].host)) &&
              (t.pending[c].host !in t.hosts ==> Used(t.rows, t.pending[c].host).Within(t.pending[c].used))
    {
      WorkingBooks(cap, s, e, t.pending[c].host);
    }
  }

  /** Sums, inventory and flight unchanged: the books still balance. */
  lemma QuietInv(cap: Id -> Spec, s: Plane, t: Plane)
    requires Inv(cap, s) && Shape(t) && t.pending == s.pending
    requires forall h :: Used(t.rows, h) == Used(s.rows, h) && InFlight(t.pc, h) == InFlight(s.pc, h)
    requires forall h :: (h in t.hosts <==> h in s.hosts) && (h in s.hosts ==>
               t.hosts[h].total == s.hosts[h].total && t.hosts[h].alloc == s.hosts[h].alloc)
    ensures Inv(cap, t)
  {
    hide Used, RowsOk, BatchOk, PcOk, InFlight;
    forall h ensures Booked(cap, t.rows, t.hosts, t.pc, h) { assert Booked(cap, s.rows, s.hosts, s.pc, h); }
  }

  lemma PickingInv(cap: Id -> Spec, s: Plane, e: Event)
    requires Inv(cap, s) && Picking(s, e).Some?
    ensures Inv(cap, Picking(s, e).value)
  {
    hide Used, RowsOk, BatchOk, PcOk, CapOk, PendingOk;
    var t := Picking(s, e).value;
    PickingShape(s, e);
    forall h ensures Used(t.rows, h) == Used(s.rows, h) && InFlight(t.pc, h) == InFlight(s.pc, h) {
      match e {
        case Begin(sid) => UsedSame(s.rows, sid, Entering(s.live, s.rows[sid], s.batch[sid]).0, h);
        case BeginFails(sid, written) => UsedSame(s.rows, sid, Marked(s.rows[sid], Error, written), h);
        case List(_, _) =>
      }
    }
    QuietInv(cap, s, t);
  }

  lemma CreateInv(cap: Id -> Spec, s: Plane, spec: Spec)
    requires Inv(cap, s) && NONE.Within(spec)
    ensures Inv(cap, Outside(cap, s, Create(spec)).value)
  {
    hide Used, RowsOk, BatchOk, PcOk, CapOk, PendingOk;
    var t := Outside(cap, s, Create(spec)).value;
    OutsideShape(cap, s, Create(spec));
    forall h ensures Used(t.rows, h) == Used(s.rows, h) { UsedAppend(s.rows, NewRow(spec), h); }
    QuietInv(cap, s, t);
  }

  lemma ReadInv(cap: Id -> Spec, s: Plane, conn: nat, h: Id)
    requires Inv(cap, s)
    ensures Inv(cap, Outside(cap, s, ReadUsed(conn, h)).value)
  {
    hide Used, RowsOk, BatchOk, PcOk;
    OutsideShape(cap, s, ReadUsed(conn, h));
    assert Booked(cap, s.rows, s.hosts, s.pc, h);
  }

  lemma RegisterInv(cap: Id -> Spec, s: Plane, conn: nat)
    requires Inv(cap, s) && conn in s.pending
    ensures Inv(cap, Outside(cap, s, Register(conn)).value)
  {
    hide Used, RowsOk, BatchOk, PhaseOk;
    var t, p := Outside(cap, s, Register(conn)).value, s.pending[conn];
    OutsideShape(cap, s, Register(conn));
    forall h ensures Booked(cap, t.rows, t.hosts, t.pc, h) {
      assert Booked(cap, s.rows, s.hosts, s.pc, h);
      if h == p.host && h !in s.hosts { NoFlight(s, h); }
    }
    forall c | c in t.pending
      ensures t.pending[c].used.Within(cap(t.pending[c].host)) &&
              (t.pending[c].host !in t.hosts ==> Used(t.rows, t.pending[c].host).Within(t.pending[c].used))
    {
      assert c in s.pending;
    }
  }

  /** Nothing is in flight on a host nobody knows. */
  lemma NoFlight(s: Plane, h: Id)
    requires PcOk(s) && h !in s.hosts
    ensures InFlight(s.pc, h) == NONE
  {
  }

  lemma CrashInv(cap: Id -> Spec, s: Plane)
    requires Inv(cap, s)
    ensures Inv(cap, Outside(cap, s, Crash).value)
  {
    hide Used, RowsOk, BatchOk, PcOk;
    var t := Outside(cap, s, Crash).value;
    OutsideShape(cap, s, Crash);
    forall h ensures Booked(cap, t.rows, t.hosts, t.pc, h) { assert Booked(cap, s.rows, s.hosts, s.pc, h); }
  }

  lemma OutsideInv(cap: Id -> Spec, s: Plane, e: Event)
    requires Inv(cap, s) && Outside(cap, s, e).Some?
    ensures Inv(cap, Outside(cap, s, e).value)
  {
    hide Used, RowsOk, BatchOk, PcOk, CapOk, PendingOk;
    var t := Outside(cap, s, e).value;
    match e {
      case Create(spec) => CreateInv(cap, s, spec);
      case ReadUsed(conn, h) => ReadInv(cap, s, conn, h);
      case Register(conn) => RegisterInv(cap, s, conn);
      case Crash => CrashInv(cap, s);
      case Want(sid, d) =>
        OutsideShape(cap, s, e);
        forall h ensures Used(t.rows, h) == Used(s.rows, h) { UsedSame(s.rows, sid, s.rows[sid].(desired := d), h); }
        QuietInv(cap, s, t);
      case AskBackup(sid) =>
        OutsideShape(cap, s, e);
        forall h ensures Used(t.rows, h) == Used(s.rows, h) { UsedSame(s.rows, sid, s.rows[sid].(backup := true), h); }
        QuietInv(cap, s, t);
      case _ =>
        OutsideShape(cap, s, e);
        QuietInv(cap, s, t);
    }
  }

  /** A row write fails after its server's capacity went back to a known host: that capacity is now both free and
      still assigned. */
  predicate Doubles(s: Plane, e: Event) {
    && e.CommitFails? && s.pc.Busy? && s.pc.phase.Returning? && s.pc.phase.returned
    && s.pc.snap.spec != NONE
  }

  /** The state after a failed row write, seen from one host. */
  lemma FailedWrite(s: Plane, written: bool, h: Id)
    requires PcOk(s) && Working(s, CommitFails(written)).Some?
    ensures var t := Working(s, CommitFails(written)).value;
            && t.hosts == s.hosts && t.pending == s.pending && t.pc == Idle
            && Used(t.rows, h) == Used(s.rows, h) && InFlight(t.pc, h) == NONE
            && (!Doubles(s, CommitFails(written)) ==> InFlight(s.pc, h) == NONE)
            && (h !in s.hosts || s.pc.phase.host != Some(h) ==> InFlight(s.pc, h) == NONE)
  {
    hide Used;
    UsedSame(s.rows, s.pc.sid, Marked(s.rows[s.pc.sid], Error, written), h);
  }

  /** A failed row write that doubles nothing: the books are as they were. */
  lemma HarmlessFailure(cap: Id -> Spec, s: Plane, written: bool)
    requires Inv(cap, s) && Working(s, CommitFails(written)).Some? && !Doubles(s, CommitFails(written))
    ensures Inv(cap, Working(s, CommitFails(written)).value)
  {
    hide Used, RowsOk, BatchOk, PcOk, CapOk, PendingOk, Working, Doubles, InFlight;
    var t := Working(s, CommitFails(written)).value;
    WorkingShape(s, CommitFails(written));
    forall h ensures Used(t.rows, h) == Used(s.rows, h) && InFlight(t.pc, h) == InFlight(s.pc, h) {
      FailedWrite(s, written, h);
    }
    FailedWrite(s, written, NO_ID);
    QuietInv(cap, s, t);
  }

  /** Every event keeps the books, except one that doubles capacity. */
  lemma StepKeeps(cap: Id -> Spec, s: Plane, e: Event)
    requires Inv(cap, s) && Next(cap, s, e).Some? && !Doubles(s, e)
    ensures Inv(cap, Next(cap, s, e).value)
  {
    hide Inv, Picking, Outside, Working, Doubles;
    match e {
      case CommitFails(written) => HarmlessFailure(cap, s, written);
      case List(_, _) => PickingInv(cap, s, e);
      case Begin(_) => PickingInv(cap, s, e);
      case BeginFails(_, _) => PickingInv(cap, s, e);
      case Tick => OutsideInv(cap, s, e);
      case Create(_) => OutsideInv(cap, s, e);
      case Want(_, _) => OutsideInv(cap, s, e);
      case AskBackup(_) => OutsideInv(cap, s, e);
      case ReadUsed(_, _) => OutsideInv(cap, s, e);
      case Register(_) => OutsideInv(cap, s, e);
      case Heard(_) => OutsideInv(cap, s, e);
      case Down(_) => OutsideInv(cap, s, e);
      case Crash => OutsideInv(cap, s, e);
      case _ => WorkingInv(cap, s, e);
    }
  }

  /** And the host has not lost that much before. */
  ghost predicate Overbooks(cap: Id -> Spec, s: Plane, e: Event) {
    && Doubles(s, e)
    && (s.pc.phase.host.Some? && s.pc.phase.host.value in s.hosts ==>
          var h := s.pc.phase.host.value; !s.hosts[h].alloc.Plus(Used(s.rows, h)).Within(cap(h)))
  }

  lemma FailureBooks(cap: Id -> Spec, s: Plane, written: bool, h: Id)
    requires Inv(cap, s) && Working(s, CommitFails(written)).Some? && Doubles(s, CommitFails(written))
    ensures s.pc.phase.host.Some? && s.pc.phase.host.value in s.hosts
    ensures var t := Working(s, CommitFails(written)).value;
            Booked(cap, t.rows, t.hosts, t.pc, h) <==>
              h != s.pc.phase.host.value || s.hosts[h].alloc.Plus(Used(s.rows, h)).Within(cap(h))
  {
    hide Used, RowsOk, BatchOk, Working, InFlight;
    FailedWrite(s, written, h);
    assert Booked(cap, s.rows, s.hosts, s.pc, h);
  }

  /** The condition is exact: of all events, exactly the failed row write that overbooks a host breaks the books. */
  lemma StepKeepsIff(cap: Id -> Spec, s: Plane, e: Event)
    requires Inv(cap, s) && Next(cap, s, e).Some?
    ensures Inv(cap, Next(cap, s, e).value) <==> !Overbooks(cap, s, e)
  {
    hide Used, RowsOk, BatchOk, PcOk, Booked, Working, Picking, Outside;
    if !Doubles(s, e) {
      StepKeeps(cap, s, e);
    } else {
      DoubledInv(cap, s, e.written);
    }
  }

  lemma DoubledInv(cap: Id -> Spec, s: Plane, written: bool)
    requires Inv(cap, s) && Working(s, CommitFails(written)).Some? && Doubles(s, CommitFails(written))
    ensures Inv(cap, Working(s, CommitFails(written)).value) <==> !Overbooks(cap, s, CommitFails(written))
  {
    hide Used, RowsOk, BatchOk, PcOk, Booked, Working;
    var t := Working(s, CommitFails(written)).value;
    WorkingShape(s, CommitFails(written));
    FailureBooks(cap, s, written, NO_ID);
    var back := s.pc.phase.host.value;
    forall h ensures Booked(cap, t.rows, t.hosts, t.pc, h) <==>
                       h != back || s.hosts[h].alloc.Plus(Used(s.rows, h)).Within(cap(h)) {
      FailureBooks(cap, s, written, h);
    }
    forall c | c in t.pending
      ensures t.pending[c].used.Within(cap(t.pending[c].host)) &&
              (t.pending[c].host !in t.hosts ==> Used(t.rows, t.pending[c].host).Within(t.pending[c].used))
    {
      FailedWrite(s, written, t.pending[c].host);
    }
    FailedWrite(s, written, NO_ID);
  }

  ghost predicate CapNonneg(cap: Id -> Spec) { forall h :: NONE.Within(cap(h)) }

  /** No event of the run doubled capacity. */
  ghost predicate Undoubled(cap: Id -> Spec, es: seq<Event>)
    decreases |es|
  {
    es == [] ||
    (var before, e := es[..|es| - 1], es[|es| - 1];
     Undoubled(cap, before) && (Run(cap, START, before).Some? ==> !Doubles(Run(cap, START, before).value, e)))
  }

  lemma {:induction false} RunKeeps(cap: Id -> Spec, es: seq<Event>)
    requires CapNonneg(cap) && Run(cap, START, es).Some? && Undoubled(cap, es)
    ensures Inv(cap, Run(cap, START, es).value)
    decreases |es|
  {
    hide Inv, Next, Doubles;
    if es == [] {
      StartInv(cap);
    } else {
      RunKeeps(cap, es[..|es| - 1]);
      StepKeeps(cap, Run(cap, START, es[..|es| - 1]).value, es[|es| - 1]);
    }
  }

  lemma StartInv(cap: Id -> Spec)
    requires CapNonneg(cap)
    ensures Inv(cap, START)
  {
  }

  /** On every run that doubles no capacity, whatever interleaves: what the durable rows commit to a host never
      exceeds it, not even mid-step; no allocatable is ever negative; and between steps free and committed capacity
      together fit. */
  lemma NoOvercommit(cap: Id -> Spec, es: seq<Event>, h: Id)
    requires CapNonneg(cap) && Run(cap, START, es).Some? && Undoubled(cap, es)
    ensures var s := Run(cap, START, es).value;
            && Used(s.rows, h).Within(cap(h))
            && (h in s.hosts ==> NONE.Within(s.hosts[h].alloc))
            && (h in s.hosts && s.pc.Idle? ==> s.hosts[h].alloc.Plus(Used(s.rows, h)).Within(cap(h)))
  {
    hide Run, Used, RowsOk, BatchOk, PcOk, PendingOk;
    RunKeeps(cap, es);
    var s := Run(cap, START, es).value;
    assert Booked(cap, s.rows, s.hosts, s.pc, h);
  }
}

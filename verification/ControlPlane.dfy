/** The control plane as a state machine: durable rows and billing intervals, a volatile host inventory, a
    reconciler that works through snapshots one write at a time, agents that register in two steps, users,
    and crashes. Every point where another goroutine or a crash can get in between is its own event. */
module ControlPlane {
  import opened Bytes
  import opened Fleet
  import opened Servers
  import opened Metering

  /** The durable write that follows a release. */
  datatype After = Unassign | Stop | Delete

  /** Where the reconciler is inside the step for one server. */
  datatype Phase =
    | Probe                                                    // liveness check of a running server
    | Drop                                                     // start: look at an old placement
    | Place                                                    // start: ask the scheduler
    | Holding(h: Id)                                           // capacity reserved, assignment not yet written
    | Boot                                                     // placed
    | Booting                                                  // waiting for the agent
    | Halt                                                     // stop: waiting for the agent
    | Destroy                                                  // delete: waiting for the agent
    | Returning(host: Option<Id>, returned: bool, next: After) // capacity given back, row not yet written
    | Opening                                                  // running, interval not yet opened
    | Closing                                                  // VM gone, interval not yet closed

  datatype Pc = Idle | Busy(sid: nat, snap: Row, phase: Phase)

  /** A registration between reading the committed capacity and entering the inventory. */
  datatype Enrolment = Enrolment(host: Id, used: Spec)

  datatype Plane = Plane(
    rows: Rows, usage: seq<seq<Interval>>,                                                // durable
    hosts: Hosts, pending: map<nat, Enrolment>, batch: map<nat, Row>, live: bool, pc: Pc, // lost in a crash
    now: nat, hist: seq<seq<bool>>)                            // the clock, and when each row recorded a VM

  datatype Event =
    | Tick
    | Create(spec: Spec) | Want(sid: nat, d: Desired) | AskBackup(sid: nat)
    | ReadUsed(conn: nat, h: Id) | Register(conn: nat) | Heard(h: Id) | Down(h: Id)
    | Crash
    | List(alive: bool, ids: set<nat>) | Begin(sid: nat) | BeginFails(sid: nat, written: bool) | Fail(written: bool)
    | Healthy | Lost(ok: bool)
    | KeepPlacement | DropStale | Reserve(h: Id) | NoRoom(written: bool) | Assign(ok: bool, written: bool)
    | Provision | Booted(vm: Id, ok: bool, written: bool)
    | Halted | Destroyed | Commit | CommitFails(written: bool)
    | Meter(ok: bool)

  const START: Plane := Plane([], [], map[], map[], map[], false, Idle, 0, [])

  // ---------------------------------------------------------------- inside one reconcile step

  /** What one event does to the server at hand, the inventory and the program counter. */
  datatype Move = Move(row: Row, hosts: Hosts, pc: Pc, ivs: seq<Interval>)

  function Marked(r: Row, st: Status, written: bool): Row { if written then r.(status := st) else r }

  predicate Placeable(hosts: Hosts, h: Id) { h in hosts && hosts[h].ready }

  /** The first thing the reconciler does with a snapshot: the status it writes, and where it goes. */
  function Entering(live: bool, r: Row, snap: Row): (Row, Option<Phase>) {
    if live then (r, Some(Probe)) else
    match snap.desired
    case WantDeleted => (Marked(r, Deleting, snap.status != Deleting), Some(Destroy))
    case WantStopped => if snap.status == Stopped then (r, None) else (r.(status := Stopping), Some(Halt))
    case WantRunning => if snap.status == Running then (r, None) else (r, Some(if snap.vm.None? then Drop else Boot))
  }

  function GoTo(sid: nat, snap: Row, p: Option<Phase>): Pc { if p.None? then Idle else Busy(sid, snap, p.value) }

  predicate Abortable(p: Phase) { p.Probe? || p.Drop? || p.Place? || p.Boot? || p.Booting? || p.Halt? || p.Destroy? }

  /** Give back whatever the snapshot says is held. */
  function ReturnedMove(m: Move, sid: nat, snap: Row, next: After): Move {
    m.(hosts := if snap.host.Some? then Releasing(m.hosts, snap.host.value, snap.spec) else m.hosts,
       pc := Busy(sid, snap, Returning(snap.host, snap.host.Some? && snap.host.value in m.hosts, next)))
  }

  /** The liveness check and errors. */
  function ProbeMove(m: Move, sid: nat, snap: Row, p: Phase, e: Event): Option<Move> {
    match e
    case Fail(written) => if !Abortable(p) || (p.Probe? && written) then None
        else Some(m.(row := Marked(m.row, Error, written), pc := Idle))
    case Healthy => if !p.Probe? then None else Some(m.(pc := Idle))
    case Lost(ok) => if !p.Probe? then None else
      Some(if ok then m.(row := LostRow(m.row), pc := Busy(sid, snap, Closing)) else m.(pc := Idle))
    case _ => None
  }

  /** Placement. */
  function PlaceMove(m: Move, sid: nat, snap: Row, p: Phase, e: Event): Option<Move> {
    match e
    case KeepPlacement => if !p.Drop? then None else
      if snap.host.None? then Some(m.(pc := Busy(sid, snap, Place)))
      else if Placeable(m.hosts, snap.host.value) then Some(m.(pc := Busy(sid, snap, Boot))) else None
    case DropStale => if !p.Drop? || snap.host.None? || Placeable(m.hosts, snap.host.value) then None else
      Some(ReturnedMove(m, sid, snap, Unassign))
    case Reserve(h) => if !p.Place? || ReserveReply(m.hosts, h, snap.spec) != Reserved then None else
      Some(m.(hosts := Reserving(m.hosts, h, snap.spec), pc := Busy(sid, snap, Holding(h))))
    case NoRoom(written) => if !p.Place? then None
        else Some(m.(row := Marked(m.row, Unschedulable, written), pc := Idle))
    case Assign(ok, written) => if !p.Holding? then None else
      Some(if ok then m.(row := m.row.(host := Some(p.h)), pc := Busy(sid, snap.(host := Some(p.h)), Boot))
           else m.(row := Marked(m.row, Error, written), hosts := Releasing(m.hosts, p.h, snap.spec), pc := Idle))
    case _ => None
  }

  /** Booting, halting, destroying. */
  function AgentMove(m: Move, sid: nat, snap: Row, p: Phase, e: Event): Option<Move> {
    match e
    case Provision => if !p.Boot? then None else Some(m.(row := m.row.(status := Provisioning),
                                                         pc := Busy(sid, snap, Booting)))
    case Booted(vm, ok, written) => if !p.Booting? || vm == NO_ID then None else
      Some(if ok then m.(row := RunningRow(m.row, vm), pc := Busy(sid, snap, Opening))
           else m.(row := Marked(m.row, Error, written), pc := Idle))
    case Halted => if !p.Halt? then None else Some(ReturnedMove(m, sid, snap, Stop))
    case Destroyed => if !p.Destroy? then None else Some(ReturnedMove(m, sid, snap, Delete))
    case _ => None
  }

  /** The durable write after a release, and the meter. */
  function CommitMove(m: Move, sid: nat, snap: Row, p: Phase, e: Event, now: int): Option<Move> {
    match e
    case Commit => if !p.Returning? then None else
      Some(match p.next
           case Unassign => m.(row := m.row.(host := None), pc := Busy(sid, snap.(host := None), Place))
           case Stop => m.(row := StoppedRow(m.row), pc := Busy(sid, snap, Closing))
           case Delete => m.(row := DeletedRow(m.row), pc := Busy(sid, snap, Closing)))
    case CommitFails(written) => if !p.Returning? then None
        else Some(m.(row := Marked(m.row, Error, written), pc := Idle))
    case Meter(ok) =>
      if p.Opening? then Some(m.(ivs := if ok then Opened(m.ivs, now) else m.ivs, pc := Idle))
      else if p.Closing? then Some(m.(ivs := if ok then Metering.Closed(m.ivs, now) else m.ivs, pc := Idle))
      else None
    case _ => None
  }

  function MoveOf(m: Move, sid: nat, snap: Row, p: Phase, e: Event, now: int): Option<Move> {
    match e
    case Fail(_) => ProbeMove(m, sid, snap, p, e)
    case Healthy => ProbeMove(m, sid, snap, p, e)
    case Lost(_) => ProbeMove(m, sid, snap, p, e)
    case Provision => AgentMove(m, sid, snap, p, e)
    case Booted(_, _, _) => AgentMove(m, sid, snap, p, e)
    case Halted => AgentMove(m, sid, snap, p, e)
    case Destroyed => AgentMove(m, sid, snap, p, e)
    case Commit => CommitMove(m, sid, snap, p, e, now)
    case CommitFails(_) => CommitMove(m, sid, snap, p, e, now)
    case Meter(_) => CommitMove(m, sid, snap, p, e, now)
    case _ => PlaceMove(m, sid, snap, p, e)
  }

  // ---------------------------------------------------------------- steps of the whole

  function MoveAt(s: Plane, sid: nat): Move
    requires sid < |s.rows| && sid < |s.usage|
  {
    Move(s.rows[sid], s.hosts, s.pc, s.usage[sid])
  }

  function Apply(s: Plane, sid: nat, m: Move): Plane
    requires sid < |s.rows| && sid < |s.usage|
  {
    s.(rows := s.rows[sid := m.row], hosts := m.hosts, pc := m.pc, usage := s.usage[sid := m.ivs])
  }

  /** The reconciler inside a step. */
  function Working(s: Plane, e: Event): Option<Plane> {
    if s.pc.Idle? || s.pc.sid >= |s.rows| || s.pc.sid >= |s.usage| then None else
    var m :- MoveOf(MoveAt(s, s.pc.sid), s.pc.sid, s.pc.snap, s.pc.phase, e, s.now);
    Some(Apply(s, s.pc.sid, m))
  }

  predicate Listable(rows: Rows, live: bool, i: nat) {
    i < |rows| && if live then BelievedUp(rows[i]) else Reconcilable(rows[i])
  }

  function Snapshots(rows: Rows, ids: set<nat>): map<nat, Row>
    requires forall i :: i in ids ==> i < |rows|
  {
    map i | i in ids :: rows[i]
  }

  /** The reconciler picks work. */
  function Picking(s: Plane, e: Event): Option<Plane> {
    if !s.pc.Idle? then None else
    match e
    case List(alive, ids) =>
      if !(forall i :: i in ids ==> Listable(s.rows, alive, i)) then None
          else Some(s.(batch := Snapshots(s.rows, ids), live := alive))
    case Begin(sid) =>
      if sid !in s.batch || sid >= |s.rows| then None else
      var (r, p) := Entering(s.live, s.rows[sid], s.batch[sid]);
      Some(s.(rows := s.rows[sid := r], batch := s.batch - {sid}, pc := GoTo(sid, s.batch[sid], p)))
    case BeginFails(sid, written) =>
      if sid !in s.batch || sid >= |s.rows| || s.live then None else
      Some(s.(rows := s.rows[sid := Marked(s.rows[sid], Error, written)], batch := s.batch - {sid}))
    case _ => None
  }

  /** The history of a server that did not exist yet. */
  function DownSince(n: nat): (hist: seq<bool>)
    ensures |hist| == n && forall t :: 0 <= t < n ==> !hist[t]
  {
    seq(n, i => false)
  }

  /** Users, agents, the clock, and the process itself. */
  function Outside(cap: Id -> Spec, s: Plane, e: Event): Option<Plane> {
    match e
    case Tick => if |s.hist| != |s.rows| then None else
      Some(s.(now := s.now + 1, hist := seq(|s.rows|,
                                            i requires 0 <= i < |s.rows| => s.hist[i] + [s.rows[i].vm.Some?])))
    case Create(spec) => if !NONE.Within(spec) then None else
      Some(s.(rows := s.rows + [NewRow(spec)], usage := s.usage + [[]], hist := s.hist + [DownSince(s.now)]))
    case Want(sid, d) => if sid >= |s.rows| then None else Some(s.(rows := s.rows[sid := s.rows[sid].(desired := d)]))
    case AskBackup(sid) => if sid >= |s.rows| then None
        else Some(s.(rows := s.rows[sid := s.rows[sid].(backup := true)]))
    case ReadUsed(conn, h) => Some(s.(pending := s.pending[conn := Enrolment(h, Used(s.rows, h))]))
    case Register(conn) => if conn !in s.pending then None else
      var p := s.pending[conn];
      Some(s.(hosts := Registering(s.hosts, p.host, "", cap(p.host), p.used, s.now), pending := s.pending - {conn}))
    case Heard(h) => Some(s.(hosts := Hearing(s.hosts, h, s.now)))
    case Down(h) => Some(s.(hosts := SetReady(s.hosts, h, false)))
    case Crash => Some(s.(hosts := map[], pending := map[], batch := map[], pc := Idle))
    case _ => None
  }

  function Next(cap: Id -> Spec, s: Plane, e: Event): Option<Plane> {
    match e
    case List(_, _) => Picking(s, e)
    case Begin(_) => Picking(s, e)
    case BeginFails(_, _) => Picking(s, e)
    case Tick => Outside(cap, s, e)
    case Create(_) => Outside(cap, s, e)
    case Want(_, _) => Outside(cap, s, e)
    case AskBackup(_) => Outside(cap, s, e)
    case ReadUsed(_, _) => Outside(cap, s, e)
    case Register(_) => Outside(cap, s, e)
    case Heard(_) => Outside(cap, s, e)
    case Down(_) => Outside(cap, s, e)
    case Crash => Outside(cap, s, e)
    case _ => Working(s, e)
  }

  /** A backup request or a wish is written on that one row and nowhere else; a new server comes after the others. Each
      puts its row on the reconciler's list: a wish exactly unless the row is settled in it with no backup to take. */
  lemma RequestsAreListed(cap: Id -> Spec, s: Plane, sid: nat, d: Desired, spec: Spec)
    requires sid < |s.rows| && !s.rows[sid].deleted
    ensures var t := Next(cap, s, AskBackup(sid));
            && t.Some? && t.value.rows == s.rows[sid := t.value.rows[sid]] && t.value.(rows := s.rows) == s
            && t.value.rows[sid].backup && t.value.rows[sid].(backup := s.rows[sid].backup) == s.rows[sid]
            && Listable(t.value.rows, false, sid)
    ensures var t := Next(cap, s, Want(sid, d));
            && t.Some? && t.value.rows == s.rows[sid := t.value.rows[sid]] && t.value.(rows := s.rows) == s
            && t.value.rows[sid].desired == d && t.value.rows[sid].(desired := s.rows[sid].desired) == s.rows[sid]
            && (Listable(t.value.rows, false, sid) <==>
                  s.rows[sid].backup || !((d == WantRunning && s.rows[sid].status == Running) ||
                                          (d == WantStopped && s.rows[sid].status == Stopped)))
    ensures NONE.Within(spec) ==>
              var t := Next(cap, s, Create(spec));
              && t.Some? && t.value.rows[..|s.rows|] == s.rows && |t.value.rows| == |s.rows| + 1
              && t.value.rows[|s.rows|].spec == spec && t.value.hosts == s.hosts && t.value.now == s.now
              && t.value.usage == s.usage + [[]]
              && Listable(t.value.rows, false, |s.rows|)
  {
    ReconcilableMeans(s.rows[sid].(backup := true));
    ReconcilableMeans(s.rows[sid].(desired := d));
    ReconcilableMeans(NewRow(spec));
  }

  /** The state after all of `es`, if each was possible. */
  function Run(cap: Id -> Spec, s: Plane, es: seq<Event>): Option<Plane>
    decreases |es|
  {
    if es == [] then Some(s) else
    var t :- Run(cap, s, es[..|es| - 1]);
    Next(cap, t, es[|es| - 1])
  }
}

/** When the books balance to the last cpu, and what throws them off. */
module Exactness {
  import opened Bytes
  import opened Fleet
  import opened Servers
  import opened Metering
  import opened ControlPlane
  import opened Capacity
  import opened Events

  /** Nothing is lost: free, committed and in-flight capacity add up to the total. */
  ghost predicate Exact(total: Spec, used: Spec, hosts: Hosts, pc: Pc, h: Id) {
    h in hosts ==> hosts[h].alloc.Plus(used).Plus(InFlight(pc, h)) == total
  }

  ghost predicate AllExact(cap: Id -> Spec, s: Plane) {
    forall h :: Exact(cap(h), Used(s.rows, h), s.hosts, s.pc, h)
  }

  /** A registration that is as good as atomic: what it read is still true, and no release of that very host is
      half done. */
  predicate Prompt(s: Plane, e: Event) {
    e.Register? && e.conn in s.pending ==>
      var p := s.pending[e.conn];
      p.host in s.hosts || (p.used == Used(s.rows, p.host) &&
                            !(s.pc.Busy? && s.pc.phase.Returning? && s.pc.phase.host == Some(p.host)))
  }

  lemma ProbeExact(total: Spec, used: Spec, m: Move, sid: nat, snap: Row, p: Phase, e: Event, h: Id)
    requires BeforeMove(total, used, m, sid, snap, p, h) && ProbeMove(m, sid, snap, p, e).Some? &&
             Exact(total, used, m.hosts, m.pc, h)
    ensures var m' := ProbeMove(m, sid, snap, p, e).value; Exact(total, Moved(used, m, m', h), m'.hosts, m'.pc, h)
  {
  }

  lemma PlaceExact(total: Spec, used: Spec, m: Move, sid: nat, snap: Row, p: Phase, e: Event, h: Id)
    requires BeforeMove(total, used, m, sid, snap, p, h) && PlaceMove(m, sid, snap, p, e).Some? &&
             Exact(total, used, m.hosts, m.pc, h)
    requires NONE.Within(used)
    ensures var m' := PlaceMove(m, sid, snap, p, e).value; Exact(total, Moved(used, m, m', h), m'.hosts, m'.pc, h)
  {
  }

  lemma AgentExact(total: Spec, used: Spec, m: Move, sid: nat, snap: Row, p: Phase, e: Event, h: Id)
    requires BeforeMove(total, used, m, sid, snap, p, h) && AgentMove(m, sid, snap, p, e).Some? &&
             Exact(total, used, m.hosts, m.pc, h)
    ensures var m' := AgentMove(m, sid, snap, p, e).value; Exact(total, Moved(used, m, m', h), m'.hosts, m'.pc, h)
  {
  }

  /** An unfinished release of a host that was not known when it happened. */
  ghost predicate Unreturned(p: Phase, hosts: Hosts) {
    p.Returning? && p.host.Some? && !p.returned && p.host.value in hosts
  }

  lemma CommitExact(total: Spec, used: Spec, m: Move, sid: nat, snap: Row, p: Phase, e: Event, now: int, h: Id)
    requires BeforeMove(total, used, m, sid, snap, p, h) && CommitMove(m, sid, snap, p, e, now).Some? &&
             Exact(total, used, m.hosts, m.pc, h)
    requires !e.CommitFails? && !Unreturned(p, m.hosts)
    ensures var m' := CommitMove(m, sid, snap, p, e, now).value; Exact(total, Moved(used, m, m', h), m'.hosts, m'.pc, h)
  {
    hide Opened, Metering.Closed;
  }

  lemma MoveExact(total: Spec, used: Spec, m: Move, sid: nat, snap: Row, p: Phase, e: Event, now: int, h: Id)
    requires BeforeMove(total, used, m, sid, snap, p, h) && MoveOf(m, sid, snap, p, e, now).Some? &&
             Exact(total, used, m.hosts, m.pc, h)
    requires !e.CommitFails? && !Unreturned(p, m.hosts) && NONE.Within(used)
    ensures var m' := MoveOf(m, sid, snap, p, e, now).value; Exact(total, Moved(used, m, m', h), m'.hosts, m'.pc, h)
  {
    hide BeforeMove, Exact, Moved, ProbeMove, PlaceMove, AgentMove, CommitMove, Unreturned;
    match e {
      case Fail(_) => ProbeExact(total, used, m, sid, snap, p, e, h);
      case Healthy => ProbeExact(total, used, m, sid, snap, p, e, h);
      case Lost(_) => ProbeExact(total, used, m, sid, snap, p, e, h);
      case Provision => AgentExact(total, used, m, sid, snap, p, e, h);
      case Booted(_, _, _) => AgentExact(total, used, m, sid, snap, p, e, h);
      case Halted => AgentExact(total, used, m, sid, snap, p, e, h);
      case Destroyed => AgentExact(total, used, m, sid, snap, p, e, h);
      case Commit => CommitExact(total, used, m, sid, snap, p, e, now, h);
      case Meter(_) => CommitExact(total, used, m, sid, snap, p, e, now, h);
      case _ => PlaceExact(total, used, m, sid, snap, p, e, h);
    }
  }

  ghost predicate Settled(s: Plane) {
    s.pc.Busy? ==> !Unreturned(s.pc.phase, s.hosts)
  }

  /** A half-done release is settled as soon as it starts, by the inventory of that moment. */
  lemma MoveSettled(m: Move, sid: nat, snap: Row, p: Phase, e: Event, now: int)
    requires MoveOf(m, sid, snap, p, e, now).Some? && m.pc == Busy(sid, snap, p)
    ensures var m' := MoveOf(m, sid, snap, p, e, now).value; m'.pc.Busy? ==> !Unreturned(m'.pc.phase, m'.hosts)
  {
    hide Opened, Metering.Closed, Reserving, ReserveReply, ReturnedMove, Releasing, LostRow;
    ReturnSettled(m, sid, snap, Unassign);
    ReturnSettled(m, sid, snap, Stop);
    ReturnSettled(m, sid, snap, Delete);
  }

  lemma ReturnSettled(m: Move, sid: nat, snap: Row, next: After)
    ensures var m' := ReturnedMove(m, sid, snap, next); m'.pc.Busy? && !Unreturned(m'.pc.phase, m'.hosts)
  {
    hide Releasing;
    if snap.host.Some? { SameHosts(m.hosts, snap.host.value, snap.spec); }
  }

  lemma SameHosts(hosts: Hosts, h: Id, spec: Spec)
    ensures forall x :: x in Releasing(hosts, h, spec) <==> x in hosts
  {
  }

  lemma WorkingExact(cap: Id -> Spec, s: Plane, e: Event)
    requires Inv(cap, s) && AllExact(cap, s) && Settled(s) && Working(s, e).Some? && !e.CommitFails?
    ensures AllExact(cap, Working(s, e).value) && Settled(Working(s, e).value)
  {
    hide Used, MoveOf, Inv, BeforeMove, Exact, Weight, Unreturned;
    var t, sid := Working(s, e).value, s.pc.sid;
    var m := MoveAt(s, sid);
    var m' := MoveOf(m, sid, s.pc.snap, s.pc.phase, e, s.now).value;
    MoveSettled(m, sid, s.pc.snap, s.pc.phase, e, s.now);
    assert SpecsOk(s.rows) by { InvSpecs(cap, s); }
    forall h ensures Exact(cap(h), Used(t.rows, h), t.hosts, t.pc, h) {
      InvParts(cap, s, sid, h);
      UsedNonneg(s.rows, h);
      MoveExact(cap(h), Used(s.rows, h), m, sid, s.pc.snap, s.pc.phase, e, s.now, h);
      UsedUpdate(s.rows, sid, m'.row, h);
    }
  }

  lemma InvSpecs(cap: Id -> Spec, s: Plane)
    requires Inv(cap, s)
    ensures SpecsOk(s.rows)
  {
    SpecsFromRows(s.rows);
  }

  /** Same sums, same inventory figures, nothing in flight either way. */
  lemma QuietExact(cap: Id -> Spec, s: Plane, t: Plane)
    requires AllExact(cap, s)
    requires forall h :: Used(t.rows, h) == Used(s.rows, h) && InFlight(t.pc, h) == InFlight(s.pc, h)
    requires forall h :: (h in t.hosts ==> h in s.hosts && t.hosts[h].alloc == s.hosts[h].alloc)
    ensures AllExact(cap, t)
  {
    hide Used, InFlight;
    forall h ensures Exact(cap(h), Used(t.rows, h), t.hosts, t.pc, h) {
      assert Exact(cap(h), Used(s.rows, h), s.hosts, s.pc, h);
    }
  }

  lemma PickingExact(cap: Id -> Spec, s: Plane, e: Event)
    requires AllExact(cap, s) && Settled(s) && Picking(s, e).Some?
    ensures AllExact(cap, Picking(s, e).value) && Settled(Picking(s, e).value)
  {
    hide Used, Exact;
    var t := Picking(s, e).value;
    forall h ensures Used(t.rows, h) == Used(s.rows, h) && InFlight(t.pc, h) == InFlight(s.pc, h) {
      match e {
        case Begin(sid) => UsedSame(s.rows, sid, Entering(s.live, s.rows[sid], s.batch[sid]).0, h);
        case BeginFails(sid, written) => UsedSame(s.rows, sid, Marked(s.rows[sid], Error, written), h);
        case List(_, _) =>
      }
    }
    QuietExact(cap, s, t);
  }

  /** A prompt registration starts the books of a new host exactly. */
  lemma RegisterExact(cap: Id -> Spec, s: Plane, conn: nat)
    requires Inv(cap, s) && AllExact(cap, s) && Settled(s) && conn in s.pending && Prompt(s, Register(conn))
    ensures var t := Outside(cap, s, Register(conn)).value; AllExact(cap, t) && Settled(t)
  {
    hide Used, RowsOk, BatchOk, PhaseOk;
    var t, p := Outside(cap, s, Register(conn)).value, s.pending[conn];
    forall h ensures Exact(cap(h), Used(t.rows, h), t.hosts, t.pc, h) {
      assert Exact(cap(h), Used(s.rows, h), s.hosts, s.pc, h) && Booked(cap, s.rows, s.hosts, s.pc, h);
      if h == p.host && h !in s.hosts { NoFlight(s, h); }
    }
  }

  lemma CrashExact(cap: Id -> Spec, s: Plane)
    ensures var t := Outside(cap, s, Crash).value; AllExact(cap, t) && Settled(t)
  {
  }

  lemma OutsideExact(cap: Id -> Spec, s: Plane, e: Event)
    requires Inv(cap, s) && AllExact(cap, s) && Settled(s) && Outside(cap, s, e).Some? && Prompt(s, e)
    ensures AllExact(cap, Outside(cap, s, e).value) && Settled(Outside(cap, s, e).value)
  {
    hide Used, Inv, AllExact;
    var t := Outside(cap, s, e).value;
    match e {
      case Register(conn) => RegisterExact(cap, s, conn);
      case Crash => CrashExact(cap, s);
      case Create(spec) =>
        forall h ensures Used(t.rows, h) == Used(s.rows, h) { UsedAppend(s.rows, NewRow(spec), h); }
        QuietExact(cap, s, t);
      case Want(sid, d) =>
        forall h ensures Used(t.rows, h) == Used(s.rows, h) { UsedSame(s.rows, sid, s.rows[sid].(desired := d), h); }
        QuietExact(cap, s, t);
      case AskBackup(sid) =>
        forall h ensures Used(t.rows, h) == Used(s.rows, h) { UsedSame(s.rows, sid, s.rows[sid].(backup := true), h); }
        QuietExact(cap, s, t);
      case _ => QuietExact(cap, s, t);
    }
  }

  /** A failed row write that doubles nothing changes no figure. */
  lemma HarmlessExact(cap: Id -> Spec, s: Plane, written: bool)
    requires Inv(cap, s) && AllExact(cap, s) && Working(s, CommitFails(written)).Some? &&
             !Doubles(s, CommitFails(written))
    ensures var t := Working(s, CommitFails(written)).value; AllExact(cap, t) && Settled(t)
  {
    hide Used, RowsOk, BatchOk, CapOk, PendingOk, AllExact, Working, Doubles, InFlight;
    var t := Working(s, CommitFails(written)).value;
    forall h ensures Used(t.rows, h) == Used(s.rows, h) && InFlight(t.pc, h) == InFlight(s.pc, h) {
      FailedWrite(s, written, h);
    }
    FailedWrite(s, written, NO_ID);
    QuietExact(cap, s, t);
  }

  lemma StepExact(cap: Id -> Spec, s: Plane, e: Event)
    requires Inv(cap, s) && AllExact(cap, s) && Settled(s) && Next(cap, s, e).Some? && !Doubles(s, e) && Prompt(s, e)
    ensures AllExact(cap, Next(cap, s, e).value) && Settled(Next(cap, s, e).value)
  {
    hide Inv, AllExact, Settled, Prompt, Picking, Outside, Working, Doubles;
    match e {
      case CommitFails(written) => HarmlessExact(cap, s, written);
      case List(_, _) => PickingExact(cap, s, e);
      case Begin(_) => PickingExact(cap, s, e);
      case BeginFails(_, _) => PickingExact(cap, s, e);
      case Tick => OutsideExact(cap, s, e);
      case Create(_) => OutsideExact(cap, s, e);
      case Want(_, _) => OutsideExact(cap, s, e);
      case AskBackup(_) => OutsideExact(cap, s, e);
      case ReadUsed(_, _) => OutsideExact(cap, s, e);
      case Register(_) => OutsideExact(cap, s, e);
      case Heard(_) => OutsideExact(cap, s, e);
      case Down(_) => OutsideExact(cap, s, e);
      case Crash => OutsideExact(cap, s, e);
      case _ => WorkingExact(cap, s, e);
    }
  }

  /** Every registration along the run was prompt, and no event doubled capacity. */
  ghost predicate PromptRun(cap: Id -> Spec, es: seq<Event>)
    decreases |es|
  {
    es == [] ||
    (var before, e := es[..|es| - 1], es[|es| - 1];
     PromptRun(cap, before) &&
     (Run(cap, START, before).Some? ==>
        var s := Run(cap, START, before).value; Prompt(s, e) && !Doubles(s, e)))
  }

  /** With prompt registrations nothing is ever lost either: between steps the bound is an equality. */
  lemma {:induction false} ExactBooks(cap: Id -> Spec, es: seq<Event>)
    requires CapNonneg(cap) && PromptRun(cap, es) && Run(cap, START, es).Some?
    ensures var s := Run(cap, START, es).value;
            && Inv(cap, s) && AllExact(cap, s) && Settled(s)
            && forall h :: h in s.hosts && s.pc.Idle? ==> s.hosts[h].alloc.Plus(Used(s.rows, h)) == cap(h)
    decreases |es|
  {
    hide Inv, Next, Used, Prompt, Doubles;
    if es == [] {
      StartInv(cap);
    } else {
      var before := es[..|es| - 1];
      ExactBooks(cap, before);
      var s := Run(cap, START, before).value;
      StepKeeps(cap, s, es[|es| - 1]);
      StepExact(cap, s, es[|es| - 1]);
    }
    var t := Run(cap, START, es).value;
    forall h | h in t.hosts && t.pc.Idle? ensures t.hosts[h].alloc.Plus(Used(t.rows, h)) == cap(h) {
      assert Exact(cap(h), Used(t.rows, h), t.hosts, t.pc, h);
    }
  }

  // ---------------------------------------------------------------- what throws them off

  /** The condition is exact: a registration keeps the books balanced if and only if it is prompt. */
  lemma PromptIsExact(cap: Id -> Spec, s: Plane, conn: nat)
    requires Inv(cap, s) && AllExact(cap, s) && Settled(s) && conn in s.pending
    ensures var t := Outside(cap, s, Register(conn)).value;
            AllExact(cap, t) && Settled(t) <==> Prompt(s, Register(conn))
  {
    hide Used, Inv, AllExact;
    var h, t := s.pending[conn].host, Outside(cap, s, Register(conn)).value;
    if Prompt(s, Register(conn)) {
      RegisterExact(cap, s, conn);
    } else if s.pending[conn].used == Used(s.rows, h) {
      UnknownUnreturned(cap, s);
    } else {
      LateRegistrationLoses(cap, s, conn);
      if AllExact(cap, t) && Settled(t) { BalancedAt(cap, s, t, h); }
    }
  }

  /** A host the inventory does not know is not being given anything back. */
  lemma UnknownUnreturned(cap: Id -> Spec, s: Plane)
    requires Inv(cap, s) && s.pc.Busy? && s.pc.phase.Returning? && s.pc.phase.host.Some? &&
             s.pc.phase.host.value !in s.hosts
    ensures !s.pc.phase.returned
  {
    hide Used, RowsOk, BatchOk;
  }

  lemma BalancedAt(cap: Id -> Spec, s: Plane, t: Plane, h: Id)
    requires Inv(cap, s) && h !in s.hosts && AllExact(cap, t) && h in t.hosts && t.rows == s.rows && t.pc == s.pc
    ensures t.hosts[h].alloc.Plus(Used(t.rows, h)) == cap(h)
  {
    hide Used, RowsOk, BatchOk, PhaseOk;
    NoFlight(s, h);
    assert Exact(cap(h), Used(t.rows, h), t.hosts, t.pc, h);
  }

  /** A registration that is not prompt loses exactly what was freed since it read. */
  lemma LateRegistrationLoses(cap: Id -> Spec, s: Plane, conn: nat)
    requires Inv(cap, s) && conn in s.pending && s.pending[conn].host !in s.hosts
    ensures var h, t := s.pending[conn].host, Outside(cap, s, Register(conn)).value;
            && h in t.hosts
            && t.hosts[h].alloc.Plus(Used(t.rows, h)) == cap(h).Minus(s.pending[conn].used.Minus(Used(s.rows, h)))
            && (t.hosts[h].alloc.Plus(Used(t.rows, h)) == cap(h) <==> s.pending[conn].used == Used(s.rows, h))
  {
    hide Used, RowsOk, BatchOk, PcOk;
  }

  /** The host joins with what the rows leave over. */
  function Joined(cap: Id -> Spec, s: Plane, conn: nat, h: Id): Plane {
    s.(hosts := Registering(s.hosts, h, "", cap(h), Used(s.rows, h), s.now), pending := s.pending - {conn})
  }

  lemma AtomicRegistration(cap: Id -> Spec, s: Plane, conn: nat, h: Id)
    requires Inv(cap, s) && h !in s.hosts
    ensures Next(cap, s, ReadUsed(conn, h)) == Some(s.(pending := s.pending[conn := Enrolment(h, Used(s.rows, h))]))
    ensures Next(cap, Next(cap, s, ReadUsed(conn, h)).value, Register(conn)) == Some(Joined(cap, s, conn, h))
    ensures var t := Joined(cap, s, conn, h); h in t.hosts && t.hosts[h].alloc == cap(h).Minus(Used(s.rows, h))
  {
    hide Used, RowsOk, BatchOk, PcOk;
    assert Booked(cap, s.rows, s.hosts, s.pc, h);
    var a := Next(cap, s, ReadUsed(conn, h)).value;
    assert a.pending - {conn} == s.pending - {conn};
  }

  function Cleared(r: Row, next: After): Row {
    match next
    case Unassign => r.(host := None)
    case Stop => StoppedRow(r)
    case Delete => DeletedRow(r)
  }

  lemma ClearingFrees(cap: Id -> Spec, s: Plane)
    requires Inv(cap, s) && s.pc.Busy? && s.pc.phase.Returning? && s.pc.phase.host.Some?
    ensures var h, sid := s.pc.phase.host.value, s.pc.sid;
            && sid < |s.rows|
            && Used(s.rows[sid := Cleared(s.rows[sid], s.pc.phase.next)], h) == Used(s.rows, h).Minus(s.pc.snap.spec)
  {
    hide Used, BatchOk;
    InvSpecs(cap, s);
    UsedUpdate(s.rows, s.pc.sid, Cleared(s.rows[s.pc.sid], s.pc.phase.next), s.pc.phase.host.value);
  }

  /** Reading and registering at once is not enough. A release of a host that the inventory did not know gave
      nothing back, and the row is still assigned; a registration then counts it as committed, and nothing
      returns that capacity when the row is cleared. */
  lemma ReleaseUnderwayLoses(cap: Id -> Spec, s: Plane, conn: nat)
    requires Inv(cap, s) && s.pc.Busy? && s.pc.sid < |s.usage|
    requires s.pc.phase.Returning? && s.pc.phase.host.Some? && s.pc.phase.host.value !in s.hosts
    ensures var h := s.pc.phase.host.value;
            && Run(cap, s, [ReadUsed(conn, h), Register(conn), Commit]).Some?
            && var t := Run(cap, s, [ReadUsed(conn, h), Register(conn), Commit]).value;
               h in t.hosts && t.hosts[h].alloc.Plus(Used(t.rows, h)) == cap(h).Minus(s.pc.snap.spec)
  {
    hide Used, Inv, Next, Registering;
    var h, sid := s.pc.phase.host.value, s.pc.sid;
    AtomicRegistration(cap, s, conn, h);
    ClearingFrees(cap, s);
    CommitEvent(cap, Joined(cap, s, conn, h), sid, s.pc.snap, s.pc.phase);
    ThreeEvents(cap, s, ReadUsed(conn, h), Register(conn), Commit);
  }

  lemma ThreeEvents(cap: Id -> Spec, s: Plane, a: Event, b: Event, c: Event)
    requires Next(cap, s, a).Some? && Next(cap, Next(cap, s, a).value, b).Some?
    ensures Run(cap, s, [a, b, c]) == Next(cap, Next(cap, Next(cap, s, a).value, b).value, c)
  {
    hide Next;
    assert [a, b, c][..2] == [a, b] && [a, b][..1] == [a] && [a][..0] == [];
    assert Run(cap, s, []) == Some(s);
    assert Run(cap, s, [a]) == Next(cap, s, a);
  }

  /** The write after a release fails and the process lives on: the books claim that much more than the host
      has, because the row is still assigned. The next attempt releases again. */
  lemma FailedCommitOverbooks(cap: Id -> Spec, s: Plane, written: bool)
    requires Inv(cap, s) && AllExact(cap, s) && s.pc.Busy? && s.pc.sid < |s.usage|
    requires s.pc.phase.Returning? && s.pc.phase.returned
    ensures var h, t := s.pc.phase.host.value, Next(cap, s, CommitFails(written)).value;
            && h in t.hosts && t.hosts[h].alloc.Plus(Used(t.rows, h)) == cap(h).Plus(s.pc.snap.spec)
            && (t.hosts[h].alloc.Plus(Used(t.rows, h)).Within(cap(h)) <==> s.pc.snap.spec == NONE)
  {
    hide Used, BatchOk;
    var h := s.pc.phase.host.value;
    assert RowOk(s.rows[s.pc.sid]);
    assert Exact(cap(h), Used(s.rows, h), s.hosts, s.pc, h);
    UsedSame(s.rows, s.pc.sid, Marked(s.rows[s.pc.sid], Error, written), h);
  }

  /** The conditions are exact. Where the books balance, of all events exactly one that doubles capacity breaks the
      bound, and exactly such an event or a registration that is not prompt breaks the equality. */
  lemma BooksStep(cap: Id -> Spec, s: Plane, e: Event)
    requires Inv(cap, s) && AllExact(cap, s) && Settled(s) && Next(cap, s, e).Some?
    ensures Inv(cap, Next(cap, s, e).value) <==> !Doubles(s, e)
    ensures AllExact(cap, Next(cap, s, e).value) && Settled(Next(cap, s, e).value) <==> Prompt(s, e) && !Doubles(s, e)
  {
    hide Inv, AllExact, Settled, Prompt, Picking, Outside, Working;
    if Doubles(s, e) {
      DoublingBreaks(cap, s, e.written);
    } else {
      StepKeeps(cap, s, e);
      if e.Register? {
        RegisterDecides(cap, s, e.conn);
      } else {
        OnlyRegistrations(s, e);
        StepExact(cap, s, e);
      }
    }
  }

  lemma OnlyRegistrations(s: Plane, e: Event)
    requires !e.Register?
    ensures Prompt(s, e)
  {
  }

  lemma RegisterDecides(cap: Id -> Spec, s: Plane, conn: nat)
    requires Inv(cap, s) && AllExact(cap, s) && Settled(s) && Next(cap, s, Register(conn)).Some?
    ensures var t := Next(cap, s, Register(conn)).value; AllExact(cap, t) && Settled(t) <==> Prompt(s, Register(conn))
  {
    hide Inv, AllExact, Settled, Prompt, Registering;
    PromptIsExact(cap, s, conn);
  }

  lemma DoublingBreaks(cap: Id -> Spec, s: Plane, written: bool)
    requires Inv(cap, s) && AllExact(cap, s) && Next(cap, s, CommitFails(written)).Some? &&
             Doubles(s, CommitFails(written))
    ensures var t := Next(cap, s, CommitFails(written)).value; !Inv(cap, t) && !AllExact(cap, t)
  {
    hide Used, RowsOk, BatchOk, PendingOk;
    FailureBooks(cap, s, written, NO_ID);
    var t, h := Next(cap, s, CommitFails(written)).value, s.pc.phase.host.value;
    FailedCommitOverbooks(cap, s, written);
    FailedWrite(s, written, h);
    assert !Booked(cap, t.rows, t.hosts, t.pc, h);
    assert !Exact(cap(h), Used(t.rows, h), t.hosts, t.pc, h);
  }

  /** The books balanced to the last cpu at every point of the run. */
  ghost predicate AlwaysExact(cap: Id -> Spec, es: seq<Event>)
    decreases |es|
  {
    && (es == [] || AlwaysExact(cap, es[..|es| - 1]))
    && (Run(cap, START, es).Some? ==>
          var s := Run(cap, START, es).value; Inv(cap, s) && AllExact(cap, s) && Settled(s))
  }

  /** So over whole runs: the books always balance if and only if all registrations are prompt and nothing is ever
      doubled. */
  lemma {:induction false} ExactRuns(cap: Id -> Spec, es: seq<Event>)
    requires CapNonneg(cap) && Run(cap, START, es).Some?
    ensures AlwaysExact(cap, es) <==> PromptRun(cap, es)
    decreases |es|
  {
    hide Inv, Next, AllExact, Settled, Prompt, Doubles;
    if es == [] {
      ExactBooks(cap, es);
    } else {
      var before := es[..|es| - 1];
      ExactRuns(cap, before);
      if AlwaysExact(cap, before) { BooksStep(cap, Run(cap, START, before).value, es[|es| - 1]); }
    }
  }
}

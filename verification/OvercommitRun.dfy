/** A concrete run in which the write after a release fails and the process lives on: the host is sold twice. */
module OvercommitRun {
  import opened Bytes
  import opened Fleet
  import opened Servers
  import opened Metering
  import opened ControlPlane
  import opened Events

  const ONE: Spec := Spec(1, 1)

  /** Every host has room for one server. */
  function OneEach(h: Id): Spec { ONE }

  lemma Then(es: seq<Event>, s: Plane, e: Event, t: Plane)
    requires Run(OneEach, START, es) == Some(s) && Next(OneEach, s, e) == Some(t)
    ensures Run(OneEach, START, es + [e]) == Some(t)
  {
    hide Next;
    assert (es + [e])[..|es|] == es;
  }

  function HostOne(alloc: Spec): Hosts { map[1 := Host(1, "", ONE, alloc, true, 0)] }

  function Lists(n: nat): seq<seq<bool>> { if n == 0 then [] else Lists(n - 1) + [[]] }

  function Bills(n: nat): seq<seq<Interval>> { if n == 0 then [] else Bills(n - 1) + [[]] }

  function With(rows: Rows, hosts: Hosts, batch: map<nat, Row>, pc: Pc): Plane {
    Plane(rows, Bills(|rows|), hosts, map[], batch, false, pc, 0, Lists(|rows|))
  }

  lemma Created(rows: Rows, hosts: Hosts)
    ensures Next(OneEach, With(rows, hosts, map[], Idle), Create(ONE))
            == Some(With(rows + [NewRow(ONE)], hosts, map[], Idle))
  {
    assert DownSince(0) == [];
  }

  lemma Picked(rows: Rows, hosts: Hosts, i: nat)
    requires i < |rows| && Reconcilable(rows[i])
    ensures Next(OneEach, With(rows, hosts, map[], Idle), List(false, {i}))
            == Some(With(rows, hosts, map[i := rows[i]], Idle))
  {
    assert Listable(rows, false, i);
    assert Snapshots(rows, {i}) == map[i := rows[i]];
  }

  lemma Begun(rows: Rows, hosts: Hosts, i: nat, r: Row, p: Phase)
    requires i < |rows| && Entering(false, rows[i], rows[i]) == (r, Some(p))
    ensures Next(OneEach, With(rows, hosts, map[i := rows[i]], Idle), Begin(i))
            == Some(With(rows[i := r], hosts, map[], Busy(i, rows[i], p)))
  {
    hide Entering;
    var s := With(rows, hosts, map[i := rows[i]], Idle);
    BeginEvent(OneEach, s, i);
    assert s.batch - {i} == map[];
  }

  lemma Sizes(n: nat)
    ensures |Bills(n)| == n && |Lists(n)| == n
  {
  }

  /** An unplaced server that fits is given the host. */
  lemma Placing(es: seq<Event>, rows: Rows, i: nat)
    requires i < |rows| && rows[i] == NewRow(ONE) &&
             Run(OneEach, START, es) == Some(With(rows, HostOne(ONE), map[], Idle))
    ensures Run(OneEach, START, es + [List(false, {i})] + [Begin(i)] + [KeepPlacement] + [Reserve(1)] + [Assign(true,
            true)]) ==
            Some(With(rows[i := rows[i].(host := Some(1))], HostOne(NONE), map[],
                      Busy(i, rows[i].(host := Some(1)), Boot)))
  {
    hide Next, Run, Reserving, ReserveReply;
    var r, free, taken := rows[i], HostOne(ONE), HostOne(NONE);
    var s1, s2 := With(rows, free, map[i := r], Idle), With(rows, free, map[], Busy(i, r, Drop));
    var s3, s4 := With(rows, free, map[], Busy(i, r, Place)), With(rows, taken, map[], Busy(i, r, Holding(1)));
    var es1 := es + [List(false, {i})];
    var es2 := es1 + [Begin(i)];
    var es3 := es2 + [KeepPlacement];
    Sizes(|rows|);
    Picked(rows, free, i);
    Then(es, With(rows, free, map[], Idle), List(false, {i}), s1);
    assert rows[i := r] == rows;
    Begun(rows, free, i, r, Drop);
    Then(es1, s1, Begin(i), s2);
    KeepEvent(OneEach, s2, i, r);
    Then(es2, s2, KeepPlacement, s3);
    Room();
    PlaceEvents(OneEach, s3, i, r, 1);
    Then(es3, s3, Reserve(1), s4);
    AssignEvents(OneEach, s4, i, r, 1);
    Then(es3 + [Reserve(1)], s4, Assign(true, true),
         With(rows[i := r.(host := Some(1))], taken, map[], Busy(i, r.(host := Some(1)), Boot)));
  }

  lemma Room()
    ensures ReserveReply(HostOne(ONE), 1, ONE) == Reserved && Reserving(HostOne(ONE), 1, ONE) == HostOne(NONE)
    ensures Releasing(HostOne(NONE), 1, ONE) == HostOne(ONE)
  {
  }

  /** Stopping it gives the host back; the row update fails. */
  lemma FailingStop(es: seq<Event>, rows: Rows, i: nat)
    requires i < |rows| && rows[i].host == Some(1) && rows[i].spec == ONE && !rows[i].deleted &&
             rows[i].desired == WantStopped && rows[i].status == Error
    requires Run(OneEach, START, es) == Some(With(rows, HostOne(NONE), map[], Idle))
    ensures Run(OneEach, START, es + [List(false, {i})] + [Begin(i)] + [Halted] + [CommitFails(true)])
            == Some(With(rows, HostOne(ONE), map[], Idle))
  {
    hide Next, Run, Releasing;
    var r, busy := rows[i], rows[i].(status := Stopping);
    var s1, s2 := With(rows, HostOne(NONE), map[i := r], Idle),
        With(rows[i := busy], HostOne(NONE), map[], Busy(i, r, Halt));
    var s3 := With(rows[i := busy], HostOne(ONE), map[], Busy(i, r, Returning(Some(1), true, Stop)));
    var es1 := es + [List(false, {i})];
    var es2 := es1 + [Begin(i)];
    Sizes(|rows|);
    Picked(rows, HostOne(NONE), i);
    Then(es, With(rows, HostOne(NONE), map[], Idle), List(false, {i}), s1);
    Begun(rows, HostOne(NONE), i, busy, Halt);
    Then(es1, s1, Begin(i), s2);
    Room();
    ReturnEvents(OneEach, s2, i, r);
    Then(es2, s2, Halted, s3);
    CommitFailure(s3, i, r);
    assert rows[i := busy][i := busy.(status := Error)] == rows;
    Then(es2 + [Halted], s3, CommitFails(true), With(rows, HostOne(ONE), map[], Idle));
  }

  lemma CommitFailure(s: Plane, i: nat, r: Row)
    requires s.pc.Busy? && At(s, i, r, s.pc.phase) && s.pc.phase.Returning?
    ensures Next(OneEach, s, CommitFails(true))
            == Some(s.(rows := s.rows[i := s.rows[i].(status := Error)], pc := Idle))
  {
    Untouched(s, i);
  }

  lemma Registered()
    ensures Run(OneEach, START, [ReadUsed(0, 1)] + [Register(0)] + [Create(ONE)])
            == Some(With([NewRow(ONE)], HostOne(ONE), map[], Idle))
  {
    var s1 := START.(pending := map[0 := Enrolment(1, NONE)]);
    var s2 := With([], HostOne(ONE), map[], Idle);
    assert Run(OneEach, START, []) == Some(START);
    Then([], START, ReadUsed(0, 1), s1);
    assert s1.pending - {0} == map[];
    assert [] + [ReadUsed(0, 1)] == [ReadUsed(0, 1)];
    Then([ReadUsed(0, 1)], s1, Register(0), s2);
    Created([], HostOne(ONE));
    assert [] + [NewRow(ONE)] == [NewRow(ONE)];
    Then([ReadUsed(0, 1)] + [Register(0)], s2, Create(ONE), With([NewRow(ONE)], HostOne(ONE), map[], Idle));
  }

  const HELD: Row := Row(ONE, WantRunning, Error, Some(1), None, false, false)
  const UNWANTED: Row := HELD.(desired := WantStopped)

  /** The first server has the host, its boot failed, and now it shall stop. */
  lemma Unwanted() returns (es: seq<Event>)
    ensures Run(OneEach, START, es) == Some(With([UNWANTED], HostOne(NONE), map[], Idle))
  {
    hide Next, Run, With, HostOne;
    var r := NewRow(ONE);
    var placed := r.(host := Some(1));
    es := [ReadUsed(0, 1)] + [Register(0)] + [Create(ONE)];
    Registered();
    Placing(es, [r], 0);
    es := es + [List(false, {0})] + [Begin(0)] + [KeepPlacement] + [Reserve(1)] + [Assign(true, true)];
    assert [r][0 := placed] == [placed] && [placed][0 := HELD] == [HELD] && [HELD][0 := UNWANTED] == [UNWANTED];
    Failed(placed);
    Then(es, With([placed], HostOne(NONE), map[], Busy(0, placed, Boot)), Fail(true),
         With([HELD], HostOne(NONE), map[], Idle));
    es := es + [Fail(true)];
    Wanted([HELD], HostOne(NONE), 0, WantStopped);
    Then(es, With([HELD], HostOne(NONE), map[], Idle), Want(0, WantStopped),
         With([UNWANTED], HostOne(NONE), map[], Idle));
    es := es + [Want(0, WantStopped)];
  }

  lemma Failed(r: Row)
    ensures Next(OneEach, With([r], HostOne(NONE), map[], Busy(0, r, Boot)), Fail(true))
            == Some(With([r][0 := r.(status := Error)], HostOne(NONE), map[], Idle))
  {
    hide Next;
    Sizes(1);
    FailEvent(OneEach, With([r], HostOne(NONE), map[], Busy(0, r, Boot)), 0, r, Boot);
  }

  /** Two servers end up on a host with room for one. */
  lemma HostSoldTwice() returns (es: seq<Event>)
    ensures Run(OneEach, START, es).Some? && !Used(Run(OneEach, START, es).value.rows, 1).Within(OneEach(1))
  {
    hide Next, Run, HostOne, Used;
    var r := NewRow(ONE);
    es := Unwanted();
    FailingStop(es, [UNWANTED], 0);
    es := es + [List(false, {0})] + [Begin(0)] + [Halted] + [CommitFails(true)];
    Created([UNWANTED], HostOne(ONE));
    Then(es, With([UNWANTED], HostOne(ONE), map[], Idle), Create(ONE),
         With([UNWANTED] + [r], HostOne(ONE), map[], Idle));
    es := es + [Create(ONE)];
    Placing(es, [UNWANTED] + [r], 1);
    es := es + [List(false, {1})] + [Begin(1)] + [KeepPlacement] + [Reserve(1)] + [Assign(true, true)];
    assert ([UNWANTED] + [r])[1 := r.(host := Some(1))] == [UNWANTED] + [r.(host := Some(1))];
    Both(UNWANTED, r.(host := Some(1)));
  }

  lemma Wanted(rows: Rows, hosts: Hosts, i: nat, d: Desired)
    requires i < |rows|
    ensures Next(OneEach, With(rows, hosts, map[], Idle), Want(i, d))
            == Some(With(rows[i := rows[i].(desired := d)], hosts, map[], Idle))
  {
  }

  lemma Both(a: Row, b: Row)
    requires a.host == b.host == Some(1) && a.spec == b.spec == ONE && !a.deleted && !b.deleted
    ensures Used([a] + [b], 1) == Spec(2, 2)
  {
    UsedAppend([a], b, 1);
    assert [a][1..] == [];
  }
}

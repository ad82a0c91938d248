/** Runs from the empty system, with one server and one host, at which the promises that need a condition fail. */
module BrokenRuns {
  import opened Bytes
  import opened Fleet
  import opened Servers
  import opened Metering
  import opened ControlPlane
  import opened OvercommitRun

  function One(r: Row, ivs: seq<Interval>, hosts: Hosts, pending: map<nat, Enrolment>, pc: Pc): Plane {
    Plane([r], [ivs], hosts, pending, map[], false, pc, 0, [[]])
  }

  ghost predicate Shows(es: seq<Event>, s: Plane) { Run(OneEach, START, es) == Some(s) }

  // ---------------------------------------------------------------- single events

  /** The reconciler takes the server up. */
  lemma Taken(es: seq<Event>, r: Row, ivs: seq<Interval>, hosts: Hosts, pending: map<nat, Enrolment>, r': Row, p: Phase)
    requires Shows(es, One(r, ivs, hosts, pending, Idle)) && Reconcilable(r) && Entering(false, r, r) == (r', Some(p))
    ensures Shows(es + [List(false, {0})] + [Begin(0)], One(r', ivs, hosts, pending, Busy(0, r, p)))
  {
    hide Entering, Run;
    var s := One(r, ivs, hosts, pending, Idle);
    var t := s.(batch := map[0 := r]);
    assert Listable(s.rows, false, 0) && Snapshots(s.rows, {0}) == t.batch;
    Then(es, s, List(false, {0}), t);
    assert t.batch - {0} == map[] && [r][0 := r'] == [r'];
    Then(es + [List(false, {0})], t, Begin(0), One(r', ivs, hosts, pending, Busy(0, r, p)));
  }

  /** The reconciler makes one move. */
  lemma Moved(es: seq<Event>, m: Move, pending: map<nat, Enrolment>, snap: Row, p: Phase, e: Event, m': Move)
    requires m.pc == Busy(0, snap, p) && Shows(es, One(m.row, m.ivs, m.hosts, pending, m.pc))
    requires MoveOf(m, 0, snap, p, e, 0) == Some(m')
    ensures Shows(es + [e], One(m'.row, m'.ivs, m'.hosts, pending, m'.pc))
  {
    hide MoveOf, Run, Next;
    var s, t := One(m.row, m.ivs, m.hosts, pending, m.pc), One(m'.row, m'.ivs, m'.hosts, pending, m'.pc);
    assert [m.row][0 := m'.row] == [m'.row] && [m.ivs][0 := m'.ivs] == [m'.ivs];
    assert Working(s, e) == Some(t);
    Inner(s, m, snap, p, e);
    Then(es, s, e, t);
  }

  lemma Inner(s: Plane, m: Move, snap: Row, p: Phase, e: Event)
    requires MoveOf(m, 0, snap, p, e, 0).Some?
    ensures Next(OneEach, s, e) == Working(s, e)
  {
    hide Working, Picking, Outside, ProbeMove, AgentMove, CommitMove;
  }

  lemma Crashed(es: seq<Event>, r: Row, ivs: seq<Interval>, hosts: Hosts, pending: map<nat, Enrolment>, pc: Pc)
    requires Shows(es, One(r, ivs, hosts, pending, pc))
    ensures Shows(es + [Crash], One(r, ivs, map[], map[], Idle))
  {
    hide Run;
    Then(es, One(r, ivs, hosts, pending, pc), Crash, One(r, ivs, map[], map[], Idle));
  }

  lemma Wished(es: seq<Event>, r: Row, ivs: seq<Interval>, hosts: Hosts, pending: map<nat, Enrolment>, pc: Pc,
               d: Desired)
    requires Shows(es, One(r, ivs, hosts, pending, pc))
    ensures Shows(es + [Want(0, d)], One(r.(desired := d), ivs, hosts, pending, pc))
  {
    hide Run;
    assert [r][0 := r.(desired := d)] == [r.(desired := d)];
    Then(es, One(r, ivs, hosts, pending, pc), Want(0, d), One(r.(desired := d), ivs, hosts, pending, pc));
  }

  /** What the rows of one server commit to host 1. */
  function Committed(r: Row): Spec { Weight(r, 1) }

  lemma UsedOne(r: Row)
    ensures Used([r], 1) == Committed(r)
  {
    assert [r][1..] == [];
  }

  /** Host 1 reads what is committed to it. */
  lemma Reads(es: seq<Event>, r: Row, ivs: seq<Interval>, hosts: Hosts, pc: Pc)
    requires Shows(es, One(r, ivs, hosts, map[], pc))
    ensures Shows(es + [ReadUsed(0, 1)], One(r, ivs, hosts, map[0 := Enrolment(1, Committed(r))], pc))
  {
    hide Run, Used, Committed;
    UsedOne(r);
    Then(es, One(r, ivs, hosts, map[], pc), ReadUsed(0, 1),
         One(r, ivs, hosts, map[0 := Enrolment(1, Committed(r))], pc));
  }

  /** It joins an empty inventory with what it read. */
  lemma Joins(es: seq<Event>, r: Row, ivs: seq<Interval>, used: Spec, pc: Pc)
    requires Shows(es, One(r, ivs, map[], map[0 := Enrolment(1, used)], pc)) && used.Within(ONE)
    ensures Shows(es + [Register(0)], One(r, ivs, HostOne(ONE.Minus(used)), map[], pc))
  {
    hide Run;
    var s := One(r, ivs, map[], map[0 := Enrolment(1, used)], pc);
    assert s.pending - {0} == map[];
    Then(es, s, Register(0), One(r, ivs, HostOne(ONE.Minus(used)), map[], pc));
  }

  // ---------------------------------------------------------------- one start, one stop

  /** The server is given the host; its next write will be its first status. */
  lemma Assigned(es: seq<Event>, r: Row, ivs: seq<Interval>) returns (fs: seq<Event>)
    requires Shows(es, One(r, ivs, HostOne(ONE), map[], Idle)) && r.spec == ONE && r.host.None? && r.vm.None? &&
             !r.deleted
    requires r.desired == WantRunning && r.status != Running
    ensures Shows(fs, One(r.(host := Some(1)), ivs, HostOne(NONE), map[], Busy(0, r.(host := Some(1)), Boot)))
  {
    hide Run, Shows, Reserving, ReserveReply, HostOne;
    Taken(es, r, ivs, HostOne(ONE), map[], r, Drop);
    fs := es + [List(false, {0})] + [Begin(0)];
    var m := Move(r, HostOne(ONE), Busy(0, r, Drop), ivs);
    Moved(fs, m, map[], r, Drop, KeepPlacement, m.(pc := Busy(0, r, Place)));
    fs := fs + [KeepPlacement];
    Room();
    var held := m.(hosts := HostOne(NONE), pc := Busy(0, r, Holding(1)));
    Moved(fs, m.(pc := Busy(0, r, Place)), map[], r, Place, Reserve(1), held);
    fs := fs + [Reserve(1)];
    var placed := r.(host := Some(1));
    Moved(fs, held, map[], r, Holding(1), Assign(true, true), held.(row := placed, pc := Busy(0, placed, Boot)));
    fs := fs + [Assign(true, true)];
  }

  const NEW: Row := NewRow(ONE)
  const PLACED: Row := NEW.(host := Some(1))
  const UP: Row := RunningRow(PLACED, 7)
  const UNWANTED_UP: Row := UP.(desired := WantStopped)
  const BILLED: seq<Interval> := [Interval(0, None)]

  lemma Enrolled() returns (es: seq<Event>)
    ensures Shows(es, One(NEW, [], HostOne(ONE), map[], Idle))
  {
    hide Run, HostOne;
    Registered();
    es := [ReadUsed(0, 1)] + [Register(0)] + [Create(ONE)];
    assert Bills(1) == [[]] && Lists(1) == [[]];
  }

  /** The machine is up and the row says so; nothing is metered yet. */
  lemma Started() returns (es: seq<Event>)
    ensures Shows(es, One(UP, [], HostOne(NONE), map[], Busy(0, PLACED, Opening)))
  {
    hide Run, Shows, HostOne;
    es := Enrolled();
    es := Assigned(es, NEW, []);
    var m := Move(PLACED, HostOne(NONE), Busy(0, PLACED, Boot), []);
    var m' := m.(row := PLACED.(status := Provisioning), pc := Busy(0, PLACED, Booting));
    Moved(es, m, map[], PLACED, Boot, Provision, m');
    es := es + [Provision];
    Moved(es, m', map[], PLACED, Booting, Booted(7, true, true), m'.(row := UP, pc := Busy(0, PLACED, Opening)));
    es := es + [Booted(7, true, true)];
  }

  /** The machine is gone and the row says so; the meter still runs. */
  lemma WindingDown() returns (es: seq<Event>)
    ensures Shows(es, One(StoppedRow(UNWANTED_UP), BILLED, HostOne(ONE), map[], Busy(0, UNWANTED_UP, Closing)))
  {
    hide Run, Shows, HostOne, Releasing;
    es := Started();
    var m := Move(UP, HostOne(NONE), Busy(0, PLACED, Opening), []);
    assert Opened([], 0) == BILLED;
    Moved(es, m, map[], PLACED, Opening, Meter(true), m.(ivs := BILLED, pc := Idle));
    es := es + [Meter(true)];
    Wished(es, UP, BILLED, HostOne(NONE), map[], Idle, WantStopped);
    es := es + [Want(0, WantStopped)];
    var stopping := UNWANTED_UP.(status := Stopping);
    Taken(es, UNWANTED_UP, BILLED, HostOne(NONE), map[], stopping, Halt);
    es := es + [List(false, {0})] + [Begin(0)];
    Room();
    var h := Move(stopping, HostOne(NONE), Busy(0, UNWANTED_UP, Halt), BILLED);
    var b := h.(hosts := HostOne(ONE), pc := Busy(0, UNWANTED_UP, Returning(Some(1), true, Stop)));
    assert 1 in HostOne(NONE) by { KnownOne(); }
    Moved(es, h, map[], UNWANTED_UP, Halt, Halted, b);
    es := es + [Halted];
    Moved(es, b, map[], UNWANTED_UP, b.pc.phase, Commit,
          b.(row := StoppedRow(UNWANTED_UP), pc := Busy(0, UNWANTED_UP, Closing)));
    es := es + [Commit];
  }

  lemma KnownOne()
    ensures 1 in HostOne(NONE)
  {
  }

  // ---------------------------------------------------------------- where the promises fail

  /** The only server has a machine, or not, and its meter runs, or not, and so it stays for `n` units of time. */
  ghost predicate Ends(es: seq<Event>, up: bool, metered: bool, n: nat) {
    && Run(OneEach, START, es).Some?
    && var s := Run(OneEach, START, es).value;
    && |s.rows| == |s.usage| == |s.hist| == 1 && s.pc.Idle? && s.now == |s.hist[0]| == n
    && s.rows[0].vm.Some? == up && CountUp(s.hist[0], 0) == (if up then n else 0)
    && HasOpen(s.usage[0]) == metered && Seconds(s.usage[0], 0, n) == (if metered then n else 0)
  }

  lemma MeterRuns(n: nat)
    ensures HasOpen(BILLED) && !HasOpen([]) && Seconds(BILLED, 0, n) == n && Seconds([], 0, n) == 0
  {
    assert BILLED[0].end.None? && BILLED[..0] == [];
  }

  /** Nothing happens for a while. */
  lemma {:induction false} Passes(es: seq<Event>, up: bool, metered: bool, n: nat) returns (fs: seq<Event>)
    requires Ends(es, up, metered, 0)
    requires var s := Run(OneEach, START, es).value; s.usage == [if metered then BILLED else []]
    ensures Ends(fs, up, metered, n) && Run(OneEach, START, fs).value.usage == Run(OneEach, START, es).value.usage
  {
    hide Run, HasOpen, Seconds;
    fs := es;
    if n > 0 {
      fs := Passes(es, up, metered, n - 1);
      var s := Run(OneEach, START, fs).value;
      var t := Next(OneEach, s, Tick).value;
      assert t.hist[0][..|s.hist[0]|] == s.hist[0];
      Then(fs, s, Tick, t);
      fs := fs + [Tick];
      MeterRuns(n);
    }
  }

  /** The process dies between the row update and the meter call: a machine that runs and is never metered. */
  lemma VmNeverBilled(n: nat) returns (es: seq<Event>)
    ensures Ends(es, true, false, n)
  {
    hide Run, HostOne, HasOpen, Seconds;
    MeterRuns(0);
    es := Started();
    Crashed(es, UP, [], HostOne(NONE), map[], Busy(0, PLACED, Opening));
    es := Passes(es + [Crash], true, false, n);
  }

  /** The same on the way down: the machine is gone and its meter never stops. */
  lemma BillNeverStops(n: nat) returns (es: seq<Event>)
    ensures Ends(es, false, true, n)
  {
    hide Run, HostOne, HasOpen, Seconds;
    MeterRuns(0);
    es := WindingDown();
    Crashed(es, StoppedRow(UNWANTED_UP), BILLED, HostOne(ONE), map[], Busy(0, UNWANTED_UP, Closing));
    es := Passes(es + [Crash], false, true, n);
  }

  const DOWN: Row := StoppedRow(UNWANTED_UP)
  const AGAIN: Row := DOWN.(desired := WantRunning)

  /** A stopped server is started again; it has its host and its row still says stopped. */
  lemma Restarting() returns (es: seq<Event>)
    ensures Shows(es, One(AGAIN.(host := Some(1)), [Interval(0, Some(0))], HostOne(NONE), map[],
                          Busy(0, AGAIN.(host := Some(1)), Boot)))
  {
    hide Run, Shows, HostOne;
    es := WindingDown();
    var m, ended := Move(DOWN, HostOne(ONE), Busy(0, UNWANTED_UP, Closing), BILLED), [Interval(0, Some(0))];
    assert Metering.Closed(BILLED, 0) == ended;
    Moved(es, m, map[], UNWANTED_UP, Closing, Meter(true), m.(ivs := ended, pc := Idle));
    es := es + [Meter(true)];
    Wished(es, DOWN, ended, HostOne(ONE), map[], Idle, WantRunning);
    es := es + [Want(0, WantRunning)];
    es := Assigned(es, AGAIN, ended);
  }

  /** A crash or an unwritten failure there leaves a stopped server that holds a host. */
  lemma StoppedKeepsHost(crash: bool) returns (es: seq<Event>)
    ensures Run(OneEach, START, es).Some? && es != [] && es[|es| - 1] == (if crash then Crash else Fail(false))
    ensures var s := Run(OneEach, START, es).value;
            s.pc.Idle? && |s.rows| == 1 && s.rows[0].status == Stopped && s.rows[0].host == Some(1)
  {
    hide Run, HostOne, Next;
    es := Restarting();
    var r, ended := AGAIN.(host := Some(1)), [Interval(0, Some(0))];
    if crash {
      Crashed(es, r, ended, HostOne(NONE), map[], Busy(0, r, Boot));
    } else {
      var m := Move(r, HostOne(NONE), Busy(0, r, Boot), ended);
      Moved(es, m, map[], r, Boot, Fail(false), m.(pc := Idle));
    }
    es := es + [if crash then Crash else Fail(false)];
  }

  const LEFT: Row := PLACED.(desired := WantStopped)

  /** A server was placed, the inventory is gone, and now the server shall stop. */
  lemma Forgotten() returns (es: seq<Event>)
    ensures Shows(es, One(LEFT, [], map[], map[], Idle))
  {
    hide Run, Shows, HostOne;
    es := Enrolled();
    es := Assigned(es, NEW, []);
    Crashed(es, PLACED, [], HostOne(NONE), map[], Busy(0, PLACED, Boot));
    es := es + [Crash];
    Wished(es, PLACED, [], map[], map[], Idle, WantStopped);
    es := es + [Want(0, WantStopped)];
  }

  /** The stop gives nothing back: the inventory does not know the host. */
  lemma NothingReturned(es: seq<Event>, pending: map<nat, Enrolment>) returns (fs: seq<Event>)
    requires Shows(es, One(LEFT, [], map[], pending, Idle))
    ensures Shows(fs, One(LEFT.(status := Stopping), [], map[], pending,
                          Busy(0, LEFT, Returning(Some(1), false, Stop))))
  {
    hide Run, Shows;
    Taken(es, LEFT, [], map[], pending, LEFT.(status := Stopping), Halt);
    fs := es + [List(false, {0})] + [Begin(0)];
    var m := Move(LEFT.(status := Stopping), map[], Busy(0, LEFT, Halt), []);
    Moved(fs, m, pending, LEFT, Halt, Halted, m.(pc := Busy(0, LEFT, Returning(Some(1), false, Stop))));
    fs := fs + [Halted];
  }

  lemma RowCleared(es: seq<Event>, hosts: Hosts, pending: map<nat, Enrolment>)
    requires Shows(es, One(LEFT.(status := Stopping), [], hosts, pending,
                           Busy(0, LEFT, Returning(Some(1), false, Stop))))
    ensures Shows(es + [Commit] + [Meter(true)], One(StoppedRow(LEFT), [], hosts, pending, Idle))
  {
    hide Run, Shows;
    var m := Move(LEFT.(status := Stopping), hosts, Busy(0, LEFT, Returning(Some(1), false, Stop)), []);
    var m' := m.(row := StoppedRow(LEFT), pc := Busy(0, LEFT, Closing));
    Moved(es, m, pending, LEFT, m.pc.phase, Commit, m');
    assert Metering.Closed([], 0) == [];
    Moved(es + [Commit], m', pending, LEFT, Closing, Meter(true), m'.(pc := Idle));
  }

  /** All of host 1 is lost: nothing is assigned to it and nothing of it is free. */
  ghost predicate AllLost(es: seq<Event>) {
    && Run(OneEach, START, es).Some?
    && var s := Run(OneEach, START, es).value;
       s.pc.Idle? && 1 in s.hosts && s.hosts[1].total == ONE && s.hosts[1].alloc == NONE && Used(s.rows, 1) == NONE
  }

  lemma LostAll(es: seq<Event>)
    requires Shows(es, One(StoppedRow(LEFT), [], HostOne(NONE), map[], Idle))
    ensures AllLost(es)
  {
    hide Run, Used;
    UsedOne(StoppedRow(LEFT));
  }

  /** The host reads what is committed to it, the server stops, the host joins with what it read. */
  lemma LateRegistration() returns (es: seq<Event>)
    ensures AllLost(es)
  {
    hide Run, Shows, HostOne, AllLost;
    es := Forgotten();
    Reads(es, LEFT, [], map[], Idle);
    es := es + [ReadUsed(0, 1)];
    es := NothingReturned(es, map[0 := Enrolment(1, ONE)]);
    RowCleared(es, map[], map[0 := Enrolment(1, ONE)]);
    es := es + [Commit] + [Meter(true)];
    Joins(es, StoppedRow(LEFT), [], ONE, Idle);
    es := es + [Register(0)];
    LostAll(es);
  }

  /** The host reads and joins at once, but in the middle of the stop. */
  lemma ReleaseUnderway() returns (es: seq<Event>)
    ensures AllLost(es)
  {
    hide Run, Shows, HostOne, AllLost;
    es := Forgotten();
    es := NothingReturned(es, map[]);
    var pc := Busy(0, LEFT, Returning(Some(1), false, Stop));
    Reads(es, LEFT.(status := Stopping), [], map[], pc);
    es := es + [ReadUsed(0, 1)];
    Joins(es, LEFT.(status := Stopping), [], ONE, pc);
    es := es + [Register(0)];
    RowCleared(es, HostOne(NONE), map[]);
    es := es + [Commit] + [Meter(true)];
    LostAll(es);
  }
}

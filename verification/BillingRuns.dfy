/** What is billed is what was recorded as running, over whole runs. */
module BillingRuns {
  import opened Fleet
  import opened Servers
  import opened Metering
  import opened ControlPlane
  import opened Capacity
  import opened Placement

  // ---------------------------------------------------------------- one server's intervals against its history

  lemma FaithfulNew(hist: seq<bool>)
    requires forall t :: 0 <= t < |hist| ==> !hist[t]
    ensures Faithful([], hist)
  {
  }

  lemma FaithfulOpened(ivs: seq<Interval>, hist: seq<bool>)
    requires Faithful(ivs, hist)
    ensures Faithful(Opened(ivs, |hist|), hist) && HasOpen(Opened(ivs, |hist|))
  {
    var now := |hist|;
    OpenedOrdered(ivs, now);
    var r := Opened(ivs, now);
    forall t | 0 <= t < now ensures hist[t] <==> Covers(r, t, now) {
      if Covers(ivs, t, now) {
        var i :| 0 <= i < |ivs| && ivs[i].start <= t < Until(ivs[i], now);
        assert r[i] == ivs[i];
      }
      if Covers(r, t, now) {
        var i :| 0 <= i < |r| && r[i].start <= t < Until(r[i], now);
        assert i < |ivs| && ivs[i] == r[i];
      }
    }
  }

  lemma FaithfulClosed(ivs: seq<Interval>, hist: seq<bool>)
    requires Faithful(ivs, hist)
    ensures Faithful(Metering.Closed(ivs, |hist|), hist) && !HasOpen(Metering.Closed(ivs, |hist|))
  {
    var now := |hist|;
    ClosedOrdered(ivs, now);
    ClosedAt(ivs, now);
    var r := Metering.Closed(ivs, now);
    assert forall i :: 0 <= i < |ivs| ==> r[i].start == ivs[i].start && Until(r[i], now) == Until(ivs[i], now);
    forall t | 0 <= t < now ensures Covers(ivs, t, now) <==> Covers(r, t, now) {
      if Covers(ivs, t, now) {
        var i :| 0 <= i < |ivs| && ivs[i].start <= t < Until(ivs[i], now);
        assert r[i].start <= t < Until(r[i], now);
      }
      if Covers(r, t, now) {
        var i :| 0 <= i < |r| && r[i].start <= t < Until(r[i], now);
        assert ivs[i].start <= t < Until(ivs[i], now);
      }
    }
  }

  /** Time passes: the open interval, if any, grows by the unit just recorded. */
  lemma FaithfulTick(ivs: seq<Interval>, hist: seq<bool>, up: bool)
    requires Faithful(ivs, hist) && (HasOpen(ivs) <==> up)
    ensures Faithful(ivs, hist + [up])
  {
    var now, h := |hist|, hist + [up];
    OrderedLater(ivs, now);
    OpenIsLast(ivs, now);
    forall t | 0 <= t < |h| ensures h[t] <==> Covers(ivs, t, now + 1) {
      if t < now {
        EarlierSame(ivs, now, t);
      } else {
        NowCovered(ivs, now);
      }
    }
  }

  lemma EarlierSame(ivs: seq<Interval>, now: int, t: int)
    requires Ordered(ivs, now) && t < now
    ensures Covers(ivs, t, now) <==> Covers(ivs, t, now + 1)
  {
    if Covers(ivs, t, now) {
      var i :| 0 <= i < |ivs| && ivs[i].start <= t < Until(ivs[i], now);
      assert ivs[i].start <= t < Until(ivs[i], now + 1);
    }
    if Covers(ivs, t, now + 1) {
      var i :| 0 <= i < |ivs| && ivs[i].start <= t < Until(ivs[i], now + 1);
      assert ivs[i].start <= t < Until(ivs[i], now);
    }
  }

  lemma NowCovered(ivs: seq<Interval>, now: int)
    requires Ordered(ivs, now)
    ensures Covers(ivs, now, now + 1) <==> HasOpen(ivs)
  {
    if HasOpen(ivs) {
      var i :| 0 <= i < |ivs| && ivs[i].end.None?;
      assert ivs[i].start <= now < Until(ivs[i], now + 1);
    }
    if Covers(ivs, now, now + 1) {
      var i :| 0 <= i < |ivs| && ivs[i].start <= now < Until(ivs[i], now + 1);
      assert ivs[i].end.None?;
    }
  }

  // ---------------------------------------------------------------- metered time

  /** For every elapsed unit of time whether it is metered. */
  ghost function Billing(ivs: seq<Interval>, now: nat): (b: seq<bool>)
    ensures |b| == now
  {
    seq(now, t requires 0 <= t < now => Covers(ivs, t, now))
  }

  lemma FaithfulBilling(ivs: seq<Interval>, now: nat)
    requires Ordered(ivs, now)
    ensures Faithful(ivs, Billing(ivs, now))
  {
    hide Ordered, Covers;
  }

  lemma OneBilling(ivs: seq<Interval>, hist: seq<bool>)
    requires Faithful(ivs, hist)
    ensures hist == Billing(ivs, |hist|)
  {
    hide Ordered, Covers;
  }

  /** Starting and stopping the meter changes nothing about the past. */
  lemma MeterBilling(ivs: seq<Interval>, now: nat)
    requires Ordered(ivs, now)
    ensures Ordered(Opened(ivs, now), now) && HasOpen(Opened(ivs, now)) &&
            Billing(Opened(ivs, now), now) == Billing(ivs, now)
    ensures var c := Metering.Closed(ivs, now); Ordered(c, now) && !HasOpen(c) && Billing(c, now) == Billing(ivs, now)
  {
    hide HasOpen, Ordered, Billing, Opened, Metering.Closed, Covers;
    var h := Billing(ivs, now);
    FaithfulBilling(ivs, now);
    FaithfulOpened(ivs, h);
    FaithfulClosed(ivs, h);
    OneBilling(Opened(ivs, now), h);
    OneBilling(Metering.Closed(ivs, now), h);
  }

  lemma TickBilling(ivs: seq<Interval>, now: nat)
    requires Ordered(ivs, now)
    ensures Ordered(ivs, now + 1) && Billing(ivs, now + 1) == Billing(ivs, now) + [HasOpen(ivs)]
  {
    hide HasOpen, Ordered, Billing, Covers;
    FaithfulBilling(ivs, now);
    FaithfulTick(ivs, Billing(ivs, now), HasOpen(ivs));
    OneBilling(ivs, Billing(ivs, now) + [HasOpen(ivs)]);
  }

  /** In how many units two histories differ. */
  function Differ(a: seq<bool>, b: seq<bool>): nat
    requires |a| == |b|
  {
    if a == [] then 0 else
    Differ(a[..|a| - 1], b[..|b| - 1]) + if a[|a| - 1] != b[|b| - 1] then 1 else 0
  }

  lemma DifferPush(a: seq<bool>, b: seq<bool>, x: bool, y: bool)
    requires |a| == |b|
    ensures Differ(a + [x], b + [y]) == Differ(a, b) + if x != y then 1 else 0
  {
    assert (a + [x])[..|a|] == a && (b + [y])[..|b|] == b;
  }

  lemma {:induction false} DifferSame(a: seq<bool>)
    ensures Differ(a, a) == 0
  {
    if a != [] { DifferSame(a[..|a| - 1]); }
  }

  lemma {:induction false} CountsDiffer(a: seq<bool>, b: seq<bool>, from: int)
    requires |a| == |b|
    ensures 0 - Differ(a, b) <= CountUp(a, from) - CountUp(b, from) <= Differ(a, b)
    decreases |a|
  {
    if a != [] { CountsDiffer(a[..|a| - 1], b[..|b| - 1], from); }
  }

  /** The counts of all periods tell every unit. */
  lemma {:induction false} CountsTell(a: seq<bool>, b: seq<bool>)
    requires |a| == |b| && forall from :: 0 <= from <= |a| ==> CountUp(a, from) == CountUp(b, from)
    ensures Differ(a, b) == 0
    decreases |a|
  {
    if a != [] {
      var k := |a| - 1;
      assert CountUp(a, k) == CountUp(b, k);
      CountLate(a[..k], k);
      CountLate(b[..k], k);
      forall from | 0 <= from <= k ensures CountUp(a[..k], from) == CountUp(b[..k], from) {
        assert CountUp(a, from) == CountUp(b, from);
      }
      CountsTell(a[..k], b[..k]);
    }
  }

  // ---------------------------------------------------------------- all servers

  /** Between the row update and the meter call for server `i`. */
  predicate AtMeter(pc: Pc, i: nat) { pc.Busy? && pc.sid == i && (pc.phase.Opening? || pc.phase.Closing?) }

  ghost predicate AgreedAt(r: Row, ivs: seq<Interval>, hist: seq<bool>, now: nat, mid: bool) {
    |hist| == now && Ordered(ivs, now) && (!mid ==> (HasOpen(ivs) <==> r.vm.Some?))
  }

  /** Intervals are in order, and meters run for exactly the rows that record a VM, except that the one being
      switched may lag behind. */
  ghost predicate Agreed(s: Plane) {
    && |s.usage| == |s.rows| && |s.hist| == |s.rows|
    && forall i :: 0 <= i < |s.rows| ==> AgreedAt(s.rows[i], s.usage[i], s.hist[i], s.now, AtMeter(s.pc, i))
  }

  /** The row of server `i` is updated and its meter still says the opposite. */
  predicate Split(s: Plane, i: nat) {
    i < |s.rows| && i < |s.usage| && AtMeter(s.pc, i) && HasOpen(s.usage[i]) != s.rows[i].vm.Some?
  }

  /** The meter call that is due never happens. */
  predicate Cuts(s: Plane, e: Event) { (e.Crash? || e == Meter(false)) && s.pc.Busy? && Split(s, s.pc.sid) }

  ghost function Drift(s: Plane, i: nat): nat
    requires Agreed(s) && i < |s.rows|
  {
    Differ(Billing(s.usage[i], s.now), s.hist[i])
  }

  /** A step that takes no time bills no time. */
  ghost predicate SameBilling(s: Plane, t: Plane) {
    && t.now == s.now && |t.usage| == |s.usage| && t.hist == s.hist
    && forall i :: 0 <= i < |s.usage| ==> Billing(t.usage[i], s.now) == Billing(s.usage[i], s.now)
  }

  /** Away from the meter a move keeps whether a VM is recorded, or goes to the meter. */
  ghost predicate KeepsVm(m: Move, sid: nat, m': Move) {
    && m'.ivs == m.ivs && (AtMeter(m'.pc, sid) || m'.row.vm == m.row.vm)
    && (m'.pc.Busy? ==> m'.pc.sid == sid)
  }

  lemma ProbeOrAgentVm(m: Move, sid: nat, snap: Row, p: Phase, e: Event)
    requires m.pc == Busy(sid, snap, p) && !p.Opening? && !p.Closing?
    ensures ProbeMove(m, sid, snap, p, e).Some? ==> KeepsVm(m, sid, ProbeMove(m, sid, snap, p, e).value)
    ensures AgentMove(m, sid, snap, p, e).Some? ==> KeepsVm(m, sid, AgentMove(m, sid, snap, p, e).value)
  {
    hide Releasing;
  }

  lemma PlaceOrCommitVm(m: Move, sid: nat, snap: Row, p: Phase, e: Event, now: int)
    requires m.pc == Busy(sid, snap, p) && !p.Opening? && !p.Closing?
    ensures PlaceMove(m, sid, snap, p, e).Some? ==> KeepsVm(m, sid, PlaceMove(m, sid, snap, p, e).value)
    ensures CommitMove(m, sid, snap, p, e, now).Some? ==>
              KeepsVm(m, sid, CommitMove(m, sid, snap, p, e, now).value) && e != Meter(false)
  {
    hide Releasing, Reserving, ReserveReply;
  }

  lemma MoveVm(m: Move, sid: nat, snap: Row, p: Phase, e: Event, now: int)
    requires m.pc == Busy(sid, snap, p) && MoveOf(m, sid, snap, p, e, now).Some? && !p.Opening? && !p.Closing?
    ensures KeepsVm(m, sid, MoveOf(m, sid, snap, p, e, now).value) && e != Meter(false)
  {
    hide KeepsVm, ProbeMove, PlaceMove, AgentMove, CommitMove;
    ProbeOrAgentVm(m, sid, snap, p, e);
    PlaceOrCommitVm(m, sid, snap, p, e, now);
  }

  /** At the meter only the meter call comes next. */
  lemma MeterMove(m: Move, sid: nat, snap: Row, p: Phase, e: Event, now: nat)
    requires m.pc == Busy(sid, snap, p) && MoveOf(m, sid, snap, p, e, now).Some? && (p.Opening? || p.Closing?)
    requires PcFits(m.hosts, m.row, m.pc, sid) && Ordered(m.ivs, now)
    ensures var m' := MoveOf(m, sid, snap, p, e, now).value;
            && m'.pc.Idle? && m'.row == m.row && Ordered(m'.ivs, now) && Billing(m'.ivs, now) == Billing(m.ivs, now)
            && (if e == Meter(false) then m'.ivs == m.ivs else (HasOpen(m'.ivs) <==> m'.row.vm.Some?))
  {
    hide Ordered, Opened, Metering.Closed, HasOpen, Billing, Reserving, ReserveReply, ReturnedMove, LostRow;
    MeterBilling(m.ivs, now);
  }

  lemma WorkingAgreed(s: Plane, e: Event)
    requires Shape(s) && Agreed(s) && Working(s, e).Some? && !e.Crash?
    ensures Agreed(Working(s, e).value) <==> !Cuts(s, e)
    ensures SameBilling(s, Working(s, e).value)
  {
    hide MoveOf, RowsOk, BatchOk, PhaseOk, Ordered, HasOpen, Billing;
    var t, sid := Working(s, e).value, s.pc.sid;
    var m, snap, p := MoveAt(s, sid), s.pc.snap, s.pc.phase;
    assert AgreedAt(s.rows[sid], s.usage[sid], s.hist[sid], s.now, AtMeter(s.pc, sid));
    if p.Opening? || p.Closing? {
      MeterMove(m, sid, snap, p, e, s.now);
    } else {
      MoveVm(m, sid, snap, p, e, s.now);
    }
    assert AgreedAt(t.rows[sid], t.usage[sid], t.hist[sid], t.now, AtMeter(t.pc, sid)) <==> !Cuts(s, e);
    forall i | 0 <= i < |t.rows| && i != sid
      ensures AgreedAt(t.rows[i], t.usage[i], t.hist[i], t.now, AtMeter(t.pc, i))
    {
      assert AgreedAt(s.rows[i], s.usage[i], s.hist[i], s.now, AtMeter(s.pc, i));
    }
  }

  /** A tick bills what the meters say and records what the rows say. */
  lemma TickAgreed(cap: Id -> Spec, s: Plane)
    requires Agreed(s)
    ensures Outside(cap, s, Tick).Some? && var t := Outside(cap, s, Tick).value;
            && Agreed(t) && |t.rows| == |s.rows|
            && forall i :: 0 <= i < |s.rows| ==> Drift(t, i) == Drift(s, i) + if Split(s, i) then 1 else 0
  {
    hide Ordered, HasOpen, Billing, Differ;
    var t := Outside(cap, s, Tick).value;
    forall i | 0 <= i < |t.rows|
      ensures AgreedAt(t.rows[i], t.usage[i], t.hist[i], t.now, AtMeter(t.pc, i))
      ensures Differ(Billing(t.usage[i], t.now), t.hist[i]) == Drift(s, i) + if Split(s, i) then 1 else 0
    {
      assert AgreedAt(s.rows[i], s.usage[i], s.hist[i], s.now, AtMeter(s.pc, i));
      TickBilling(s.usage[i], s.now);
      DifferPush(Billing(s.usage[i], s.now), s.hist[i], HasOpen(s.usage[i]), s.rows[i].vm.Some?);
    }
  }

  lemma CreateAgreed(cap: Id -> Spec, s: Plane, spec: Spec)
    requires Shape(s) && Agreed(s) && Outside(cap, s, Create(spec)).Some?
    ensures var t, n := Outside(cap, s, Create(spec)).value, |s.rows|;
            && Agreed(t) && |t.rows| == n + 1 && Drift(t, n) == 0
            && forall i :: 0 <= i < n ==> Drift(t, i) == Drift(s, i)
  {
    hide PhaseOk, Billing, Differ;
    var t, n := Outside(cap, s, Create(spec)).value, |s.rows|;
    FaithfulNew(t.hist[n]);
    OneBilling([], t.hist[n]);
    DifferSame(t.hist[n]);
    assert !HasOpen([]);
    forall i | 0 <= i < |t.rows| ensures AgreedAt(t.rows[i], t.usage[i], t.hist[i], t.now, AtMeter(t.pc, i)) {
      if i < n { assert AgreedAt(s.rows[i], s.usage[i], s.hist[i], s.now, AtMeter(s.pc, i)); }
    }
  }

  /** Rows keep their VMs, clocks and meters are untouched, and no meter call gets lost. */
  lemma QuietAgreed(s: Plane, t: Plane)
    requires Agreed(s) && |t.rows| == |s.rows| && t.usage == s.usage && t.hist == s.hist && t.now == s.now
    requires forall i :: 0 <= i < |s.rows| ==>
             t.rows[i].vm == s.rows[i].vm && (AtMeter(s.pc, i) ==> AtMeter(t.pc, i))
    ensures Agreed(t) && SameBilling(s, t)
  {
    hide Ordered, HasOpen, AtMeter, Billing;
    forall i | 0 <= i < |t.rows| ensures AgreedAt(t.rows[i], t.usage[i], t.hist[i], t.now, AtMeter(t.pc, i)) {
      assert AgreedAt(s.rows[i], s.usage[i], s.hist[i], s.now, AtMeter(s.pc, i));
    }
  }

  lemma CrashAgreed(cap: Id -> Spec, s: Plane)
    requires Shape(s) && Agreed(s)
    ensures var t := Outside(cap, s, Crash).value;
            (Agreed(t) <==> !Cuts(s, Crash)) && SameBilling(s, t) && |t.rows| == |s.rows|
  {
    hide Ordered, HasOpen, Billing, RowsOk, BatchOk, PhaseOk;
    var t := Outside(cap, s, Crash).value;
    if s.pc.Busy? {
      assert AgreedAt(s.rows[s.pc.sid], s.usage[s.pc.sid], s.hist[s.pc.sid], s.now, AtMeter(s.pc, s.pc.sid));
      assert AgreedAt(t.rows[s.pc.sid], t.usage[s.pc.sid], t.hist[s.pc.sid], t.now, false) <==> !Cuts(s, Crash);
    }
    forall i | 0 <= i < |t.rows| && !(s.pc.Busy? && i == s.pc.sid)
      ensures AgreedAt(t.rows[i], t.usage[i], t.hist[i], t.now, AtMeter(t.pc, i))
    {
      assert AgreedAt(s.rows[i], s.usage[i], s.hist[i], s.now, AtMeter(s.pc, i));
    }
  }

  lemma OtherAgreed(cap: Id -> Spec, s: Plane, e: Event)
    requires Shape(s) && Agreed(s) && !e.Tick? && !e.Create? && !e.Crash?
    ensures Picking(s, e).Some? ==> Agreed(Picking(s, e).value) && SameBilling(s, Picking(s, e).value)
    ensures Outside(cap, s, e).Some? ==> Agreed(Outside(cap, s, e).value) && SameBilling(s, Outside(cap, s, e).value)
  {
    hide Used, Shape, Agreed, Registering, SameBilling;
    if Picking(s, e).Some? { QuietAgreed(s, Picking(s, e).value); }
    if Outside(cap, s, e).Some? { QuietAgreed(s, Outside(cap, s, e).value); }
  }

  /** The condition is exact: of all events, exactly a crash or a failed write at a split breaks the agreement
      of meters and rows. Time may pass at any point. */
  lemma AgreedStep(cap: Id -> Spec, s: Plane, e: Event)
    requires Shape(s) && Agreed(s) && Next(cap, s, e).Some?
    ensures Agreed(Next(cap, s, e).value) <==> !Cuts(s, e)
    ensures !e.Tick? && !e.Create? ==> SameBilling(s, Next(cap, s, e).value)
  {
    hide Shape, Agreed, Picking, Outside, Working, SameBilling, Split;
    match e {
      case Tick => TickAgreed(cap, s);
      case Create(spec) => CreateAgreed(cap, s, spec);
      case Crash => CrashAgreed(cap, s);
      case Meter(_) => WorkingAgreed(s, e);
      case _ =>
        OtherAgreed(cap, s, e);
        if Working(s, e).Some? { WorkingAgreed(s, e); }
    }
  }

  // ---------------------------------------------------------------- runs

  /** No meter call that was due got lost. */
  ghost predicate MeteredRun(cap: Id -> Spec, es: seq<Event>)
    decreases |es|
  {
    es == [] ||
    (var before, e := es[..|es| - 1], es[|es| - 1];
     MeteredRun(cap, before) && (Run(cap, START, before).Some? ==> !Cuts(Run(cap, START, before).value, e)))
  }

  /** The ticks that fell between a row update of server `i` and the meter call it asked for. */
  ghost function SplitTicks(cap: Id -> Spec, es: seq<Event>, i: nat): nat
    decreases |es|
  {
    if es == [] then 0 else
    var before := es[..|es| - 1];
    SplitTicks(cap, before, i) +
    if es[|es| - 1].Tick? && Run(cap, START, before).Some? && Split(Run(cap, START, before).value, i) then 1 else 0
  }

  lemma StartAgreed()
    ensures Agreed(START)
  {
  }

  lemma {:induction false} RunAgreed(cap: Id -> Spec, es: seq<Event>)
    requires Run(cap, START, es).Some? && MeteredRun(cap, es)
    ensures Agreed(Run(cap, START, es).value)
    decreases |es|
  {
    hide Next, Shape, Agreed, Cuts;
    if es == [] {
      StartAgreed();
    } else {
      var before := es[..|es| - 1];
      RunAgreed(cap, before);
      RunShape(cap, before);
      AgreedStep(cap, Run(cap, START, before).value, es[|es| - 1]);
    }
  }

  /** One step of the drift of server `i`, which may be new. */
  lemma DriftStep(cap: Id -> Spec, s: Plane, e: Event, i: nat)
    requires Shape(s) && Agreed(s) && Next(cap, s, e).Some? && !Cuts(s, e)
    ensures var t := Next(cap, s, e).value;
            && Agreed(t)
            && (i >= |t.rows| ==> i >= |s.rows|)
            && (i < |t.rows| ==>
                Drift(t, i) == if i >= |s.rows| then 0 else Drift(s, i) + if e.Tick? && Split(s, i) then 1 else 0)
  {
    hide Shape, Picking, Outside, Working, Split, Cuts, AgreedAt, Differ, Billing;
    AgreedStep(cap, s, e);
    match e {
      case Tick => TickAgreed(cap, s);
      case Create(spec) => CreateAgreed(cap, s, spec);
      case _ =>
    }
  }

  /** Meters and rows drift apart by exactly the ticks at splits. */
  lemma {:induction false} DriftIsSplitTicks(cap: Id -> Spec, es: seq<Event>, i: nat)
    requires Run(cap, START, es).Some? && MeteredRun(cap, es)
    ensures var s := Run(cap, START, es).value;
            Agreed(s) && SplitTicks(cap, es, i) == if i < |s.rows| then Drift(s, i) else 0
    decreases |es|
  {
    hide Next, Shape, Cuts, Agreed, Drift, Split;
    RunAgreed(cap, es);
    if es != [] {
      var before := es[..|es| - 1];
      DriftIsSplitTicks(cap, before, i);
      RunShape(cap, before);
      DriftStep(cap, Run(cap, START, before).value, es[|es| - 1], i);
      if es[|es| - 1].Tick? { SplitExists(Run(cap, START, before).value, i); }
    }
  }

  lemma SplitExists(s: Plane, i: nat)
    ensures Split(s, i) ==> i < |s.rows|
  {
  }

  /** Over every run that loses no meter call, between steps: an interval is open exactly for the servers whose
      row records a VM, intervals never overlap, and the ledger of any period is off the recorded time by at most
      the ticks that fell between a row update and its meter call. */
  lemma BillsFollowRows(cap: Id -> Spec, es: seq<Event>, i: nat, from: nat)
    requires Run(cap, START, es).Some? && MeteredRun(cap, es)
    requires i < |Run(cap, START, es).value.rows| && Run(cap, START, es).value.pc.Idle?
    requires from <= Run(cap, START, es).value.now
    ensures var s := Run(cap, START, es).value;
            && i < |s.usage| && i < |s.hist| && |s.hist[i]| == s.now
            && (HasOpen(s.usage[i]) <==> s.rows[i].vm.Some?)
            && Ordered(s.usage[i], s.now)
            && var gap := Seconds(s.usage[i], from, s.now) - CountUp(s.hist[i], from);
            && 0 - SplitTicks(cap, es, i) <= gap <= SplitTicks(cap, es, i)
            && 0 <= Seconds(s.usage[i], from, s.now) <= s.now - from
  {
    hide Run, HasOpen, Ordered, Seconds, CountUp, Billing, SplitTicks;
    DriftIsSplitTicks(cap, es, i);
    var s := Run(cap, START, es).value;
    assert AgreedAt(s.rows[i], s.usage[i], s.hist[i], s.now, AtMeter(s.pc, i));
    BilledSeconds(s.usage[i], s.now, from);
    CountsDiffer(Billing(s.usage[i], s.now), s.hist[i], from);
  }

  /** The ledger counts the metered time. */
  lemma BilledSeconds(ivs: seq<Interval>, now: nat, from: nat)
    requires Ordered(ivs, now) && from <= now
    ensures Seconds(ivs, from, now) == CountUp(Billing(ivs, now), from) && 0 <= Seconds(ivs, from, now) <= now - from
  {
    hide Ordered, Seconds, CountUp, Billing, Covers;
    FaithfulBilling(ivs, now);
    LedgerIsUptime(ivs, Billing(ivs, now), from);
    LedgerBounded(ivs, Billing(ivs, now), from);
  }

  ghost predicate ExactLedger(ivs: seq<Interval>, hist: seq<bool>, now: nat) {
    forall from :: 0 <= from <= now ==> Seconds(ivs, from, now) == CountUp(hist, from)
  }

  lemma ExactMeansSame(ivs: seq<Interval>, hist: seq<bool>, now: nat)
    requires Ordered(ivs, now) && |hist| == now
    ensures ExactLedger(ivs, hist, now) <==> Differ(Billing(ivs, now), hist) == 0
  {
    hide Ordered, Seconds, CountUp, Billing, Differ;
    var b := Billing(ivs, now);
    forall from | 0 <= from <= now ensures Seconds(ivs, from, now)
        == CountUp(b, from) { BilledSeconds(ivs, now, from); }
    if ExactLedger(ivs, hist, now) {
      forall from | 0 <= from <= |b| ensures CountUp(b, from) == CountUp(hist, from) {
        assert Seconds(ivs, from, now) == CountUp(hist, from);
      }
      CountsTell(b, hist);
    }
    if Differ(b, hist) == 0 {
      forall from | 0 <= from <= now ensures CountUp(b, from) == CountUp(hist, from) { CountsDiffer(b, hist, from); }
    }
  }

  /** Every period is billed exactly if and only if no tick ever fell into a split. */
  lemma BillsAreExact(cap: Id -> Spec, es: seq<Event>, i: nat)
    requires Run(cap, START, es).Some? && MeteredRun(cap, es) && i < |Run(cap, START, es).value.rows|
    ensures var s := Run(cap, START, es).value;
            && i < |s.usage| && i < |s.hist|
            && (ExactLedger(s.usage[i], s.hist[i], s.now) <==> SplitTicks(cap, es, i) == 0)
  {
    hide Run, Ordered, ExactLedger, Billing, SplitTicks, HasOpen;
    DriftIsSplitTicks(cap, es, i);
    var s := Run(cap, START, es).value;
    assert AgreedAt(s.rows[i], s.usage[i], s.hist[i], s.now, AtMeter(s.pc, i));
    ExactMeansSame(s.usage[i], s.hist[i], s.now);
  }
}

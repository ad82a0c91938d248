/** Metered running time: intervals opened and closed as servers come and go, and the ledger that
    prices them. */
module Metering {
  import opened Bytes

  /** A running interval; an open one has no end. */
  datatype Interval = Interval(start: int, end: Option<int>)

  predicate HasOpen(ivs: seq<Interval>) {
    exists i :: 0 <= i < |ivs| && ivs[i].end.None?
  }

  /** Opening is idempotent: at most one interval is open. */
  function Opened(ivs: seq<Interval>, now: int): seq<Interval> {
    if HasOpen(ivs) then ivs else ivs + [Interval(now, None)]
  }

  function CloseOne(iv: Interval, now: int): Interval { if iv.end.None? then iv.(end := Some(now)) else iv }

  /** Closes whatever is open. */
  function Closed(ivs: seq<Interval>, now: int): seq<Interval> {
    if ivs == [] then [] else [CloseOne(ivs[0], now)] + Closed(ivs[1..], now)
  }

  function Until(iv: Interval, now: int): int { if iv.end.Some? then iv.end.value else now }

  /** In time order, one after the other, at most the last one open, none in the future. */
  ghost predicate Ordered(ivs: seq<Interval>, now: int) {
    && (forall i :: 0 <= i < |ivs| ==> 0 <= ivs[i].start <= Until(ivs[i], now) <= now)
    && (forall i :: 0 <= i < |ivs| - 1 ==> ivs[i].end.Some?)
    && forall i, j :: 0 <= i < j < |ivs| ==> Until(ivs[i], now) <= ivs[j].start
  }

  lemma OpenIsLast(ivs: seq<Interval>, now: int)
    requires Ordered(ivs, now)
    ensures HasOpen(ivs) <==> ivs != [] && ivs[|ivs| - 1].end.None?
  {
    if HasOpen(ivs) {
      var i :| 0 <= i < |ivs| && ivs[i].end.None?;
      assert i == |ivs| - 1;
    }
  }

  lemma {:induction false} ClosedAt(ivs: seq<Interval>, now: int)
    ensures |Closed(ivs, now)| == |ivs|
    ensures forall i :: 0 <= i < |ivs| ==> Closed(ivs, now)[i] == CloseOne(ivs[i], now)
  {
    if ivs != [] { ClosedAt(ivs[1..], now); }
  }

  /** No interval ever overlaps another, whatever is opened and closed. */
  lemma OpenedOrdered(ivs: seq<Interval>, now: int)
    requires Ordered(ivs, now) && now >= 0
    ensures Ordered(Opened(ivs, now), now) && HasOpen(Opened(ivs, now))
  {
    OpenIsLast(ivs, now);
    if !HasOpen(ivs) {
      var r := ivs + [Interval(now, None)];
      assert r[|ivs|].end.None?;
      forall i | 0 <= i < |r| - 1 ensures r[i].end.Some? { assert r[i] == ivs[i]; }
    }
  }

  lemma ClosedOrdered(ivs: seq<Interval>, now: int)
    requires Ordered(ivs, now)
    ensures Ordered(Closed(ivs, now), now) && !HasOpen(Closed(ivs, now))
  {
    ClosedAt(ivs, now);
  }

  lemma OrderedLater(ivs: seq<Interval>, now: int)
    requires Ordered(ivs, now)
    ensures Ordered(ivs, now + 1)
  {
  }

  // ---------------------------------------------------------------- ledger

  /** Billed seconds of one interval for a period that begins at `from`. */
  function Span(iv: Interval, from: int, now: int): int {
    Until(iv, now) - if iv.start > from then iv.start else from
  }

  predicate Counts(iv: Interval, from: int) { iv.end.None? || iv.end.value >= from }

  /** The ledger query: every interval that reaches into the period, clamped to it. */
  function Seconds(ivs: seq<Interval>, from: int, now: int): int {
    if ivs == [] then 0 else
    Seconds(ivs[..|ivs| - 1], from, now) + if Counts(ivs[|ivs| - 1], from) then Span(ivs[|ivs| - 1], from, now) else 0
  }

  /** A history: for every elapsed unit of time whether the server's row recorded a VM. */
  function CountUp(hist: seq<bool>, from: int): (n: nat)
    ensures 0 <= from <= |hist| ==> n <= |hist| - from
    decreases |hist|
  {
    if |hist| == 0 || from >= |hist| then 0 else
    CountUp(hist[..|hist| - 1], from) + if hist[|hist| - 1] then 1 else 0
  }

  ghost predicate Covers(ivs: seq<Interval>, t: int, now: int) {
    exists i :: 0 <= i < |ivs| && ivs[i].start <= t < Until(ivs[i], now)
  }

  /** The intervals cover exactly the recorded time. */
  ghost predicate Faithful(ivs: seq<Interval>, hist: seq<bool>) {
    Ordered(ivs, |hist|) && forall t :: 0 <= t < |hist| ==> (hist[t] <==> Covers(ivs, t, |hist|))
  }

  lemma {:induction false} CountIdle(hist: seq<bool>, from: int, c: nat)
    requires c <= |hist| && forall t :: c <= t < |hist| ==> !hist[t]
    ensures CountUp(hist, from) == CountUp(hist[..c], from)
    decreases |hist|
  {
    if c == |hist| {
      assert hist[..c] == hist;
    } else {
      var h := hist[..|hist| - 1];
      CountIdle(h, from, c);
      assert h[..c] == hist[..c];
      if from >= |hist| { CountLate(hist[..c], from); } else if from == |hist| - 1 { CountLate(h, from); }
    }
  }

  lemma CountLate(hist: seq<bool>, from: int)
    requires from >= |hist|
    ensures CountUp(hist, from) == 0
  {
  }

  lemma {:induction false} CountBusy(hist: seq<bool>, from: int, b: nat)
    requires b <= |hist| && forall t :: b <= t < |hist| ==> hist[t]
    ensures CountUp(hist, from) == CountUp(hist[..b], from) + if from >= |hist| then 0 else |hist| - if b > from then b
            else from
    decreases |hist|
  {
    if b == |hist| {
      assert hist[..b] == hist;
      if from >= |hist| { CountLate(hist, from); }
    } else {
      var h := hist[..|hist| - 1];
      assert h[..b] == hist[..b];
      CountBusy(h, from, b);
      if from >= |hist| { CountLate(hist[..b], from); }
    }
  }

  /** Ended intervals do not care how late it is. */
  lemma {:induction false} SecondsEnded(ivs: seq<Interval>, from: int, now: int, later: int)
    requires forall i :: 0 <= i < |ivs| ==> ivs[i].end.Some?
    ensures Seconds(ivs, from, now) == Seconds(ivs, from, later)
  {
    if ivs != [] { SecondsEnded(ivs[..|ivs| - 1], from, now, later); }
  }

  /** Without its last interval the list is faithful to the history up to that interval's start. */
  lemma FaithfulBefore(ivs: seq<Interval>, hist: seq<bool>)
    requires Faithful(ivs, hist) && ivs != []
    ensures var last := ivs[|ivs| - 1];
            && 0 <= last.start <= Until(last, |hist|) <= |hist|
            && Faithful(ivs[..|ivs| - 1], hist[..last.start])
            && (forall i :: 0 <= i < |ivs| - 1 ==> ivs[i].end.Some?)
            && (forall t :: last.start <= t < Until(last, |hist|) ==> hist[t])
            && forall t :: Until(last, |hist|) <= t < |hist| ==> !hist[t]
  {
    var k, now := |ivs| - 1, |hist|;
    var last, a := ivs[k], ivs[..k];
    var h := hist[..last.start];
    forall t | 0 <= t < |h| ensures h[t] <==> Covers(a, t, |h|) {
      assert h[t] == hist[t];
      if Covers(ivs, t, now) {
        var i :| 0 <= i < |ivs| && ivs[i].start <= t < Until(ivs[i], now);
        assert a[i] == ivs[i];
      }
      if Covers(a, t, |h|) {
        var i :| 0 <= i < |a| && a[i].start <= t < Until(a[i], |h|);
        assert ivs[i] == a[i];
      }
    }
    forall t | last.start <= t < Until(last, now) ensures hist[t] { assert Covers(ivs, t, now); }
    forall t | Until(last, now) <= t < now ensures !hist[t] {
      assert !Covers(ivs, t, now);
    }
  }

  /** The ledger bills exactly the time the row recorded a VM within the period. */
  lemma {:induction false} LedgerIsUptime(ivs: seq<Interval>, hist: seq<bool>, from: int)
    requires Faithful(ivs, hist) && 0 <= from && (from <= |hist| || !HasOpen(ivs))
    ensures Seconds(ivs, from, |hist|) == CountUp(hist, from)
    decreases |ivs|
  {
    hide Faithful, Covers;
    var now := |hist|;
    if ivs == [] {
      NeverUp(hist, from);
    } else {
      var k := |ivs| - 1;
      var last, a := ivs[k], ivs[..k];
      var b, c := last.start, Until(last, now);
      FaithfulBefore(ivs, hist);
      LedgerIsUptime(a, hist[..b], from);
      SecondsEnded(a, from, now, b);
      CountIdle(hist, from, c);
      assert hist[..c][..b] == hist[..b];
      CountBusy(hist[..c], from, b);
      assert last.end.None? ==> HasOpen(ivs);
    }
  }

  lemma NeverUp(hist: seq<bool>, from: int)
    requires Faithful([], hist)
    ensures CountUp(hist, from) == 0
  {
    CountIdle(hist, from, 0);
  }

  /** So the bill never exceeds the time elapsed in the period, and the clamp at zero has nothing to clamp. */
  lemma LedgerBounded(ivs: seq<Interval>, hist: seq<bool>, from: int)
    requires Faithful(ivs, hist) && 0 <= from <= |hist|
    ensures 0 <= Seconds(ivs, from, |hist|) <= |hist| - from
    ensures forall i :: 0 <= i < |ivs| && Counts(ivs[i], from) ==> Span(ivs[i], from, |hist|) >= 0
  {
    LedgerIsUptime(ivs, hist, from);
  }

  /** A period that starts in the future: the ended intervals do not reach it, the open one counts backwards. */
  lemma FuturePeriod(ivs: seq<Interval>, now: int, from: int)
    requires Ordered(ivs, now) && from > now
    ensures Seconds(ivs, from, now) == if HasOpen(ivs) then now - from else 0
  {
    hide Ordered;
    OpenIsLast(ivs, now);
    if ivs != [] {
      EndedByNow(ivs, now);
      NoneReaches(ivs[..|ivs| - 1], now, from);
    }
  }

  lemma EndedByNow(ivs: seq<Interval>, now: int)
    requires Ordered(ivs, now) && ivs != []
    ensures forall i :: 0 <= i < |ivs| - 1 ==> ivs[i].end.Some? && ivs[i].end.value <= now
    ensures var last := ivs[|ivs| - 1]; last.start <= now && (last.end.Some? ==> last.end.value <= now)
  {
    forall i | 0 <= i < |ivs| - 1 ensures ivs[i].end.Some? &&
        ivs[i].end.value <= now { assert Until(ivs[i], now) <= now; }
    assert Until(ivs[|ivs| - 1], now) <= now;
  }

  lemma {:induction false} NoneReaches(ivs: seq<Interval>, now: int, from: int)
    requires from > now && forall i :: 0 <= i < |ivs| ==> ivs[i].end.Some? && ivs[i].end.value <= now
    ensures Seconds(ivs, from, now) == 0
  {
    if ivs != [] { NoneReaches(ivs[..|ivs| - 1], now, from); }
  }

  /** The clamp at zero has something to clamp exactly for a period in the future and an open interval. */
  lemma ClampNeeded(ivs: seq<Interval>, hist: seq<bool>, from: int)
    requires Faithful(ivs, hist) && 0 <= from
    ensures Seconds(ivs, from, |hist|) < 0 <==> from > |hist| && HasOpen(ivs)
  {
    hide Covers, Seconds, CountUp, HasOpen, Ordered;
    if from > |hist| {
      FuturePeriod(ivs, |hist|, from);
    } else {
      LedgerBounded(ivs, hist, from);
    }
  }

  class BillingRepository {
    var usage: seq<seq<Interval>>

    constructor ()
      ensures usage == []
    {
      usage := [];
    }

    /** ON CONFLICT DO NOTHING: a second open for the same server changes nothing. */
    method StartRunning(server: nat, now: int)
      requires server < |usage|
      modifies this
      ensures usage == old(usage)[server := Opened(old(usage)[server], now)]
    {
      var ivs := usage[server];
      var i := 0;
      while i < |ivs|
        invariant i <= |ivs| && forall j :: 0 <= j < i ==> ivs[j].end.Some?
      {
        if ivs[i].end.None? {
          assert usage == usage[server := ivs];
          return;
        }
        i := i + 1;
      }
      usage := usage[server := ivs + [Interval(now, None)]];
    }

    method StopRunning(server: nat, now: int)
      requires server < |usage|
      modifies this
      ensures usage == old(usage)[server := Closed(old(usage)[server], now)]
    {
      var ivs := usage[server];
      var out: seq<Interval> := [];
      ClosedAt(ivs, now);
      for i := 0 to |ivs|
        invariant out == Closed(ivs, now)[..i]
      {
        var iv := ivs[i];
        out := out + [if iv.end.None? then iv.(end := Some(now)) else iv];
      }
      assert out == Closed(ivs, now);
      usage := usage[server := out];
    }

    /** Summed seconds of one server since `from`, as the query and the clamp after it compute them. */
    method LedgerSeconds(server: nat, from: int, now: int) returns (seconds: int)
      requires server < |usage|
      ensures seconds == if Seconds(usage[server], from, now) < 0 then 0 else Seconds(usage[server], from, now)
    {
      var ivs := usage[server];
      seconds := 0;
      assert ivs[..0] == [];
      for i := 0 to |ivs|
        invariant seconds == Seconds(ivs[..i], from, now)
      {
        assert ivs[..i + 1][..i] == ivs[..i];
        if ivs[i].end.None? || ivs[i].end.value >= from {
          var until := if ivs[i].end.Some? then ivs[i].end.value else now;
          seconds := seconds + until - if ivs[i].start > from then ivs[i].start else from;
        }
      }
      assert ivs[..|ivs|] == ivs;
      if seconds < 0 {
        seconds := 0;
      }
    }
  }
}

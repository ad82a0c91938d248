/** The agent link: commands matched to replies, and which connection a host is reached by, under every
    interleaving of callers, receive loops and reconnects. */
module Hub {
  import opened Bytes

  datatype Result = Result(id: nat, payload: nat)

  // ---------------------------------------------------------------- the registry

  type Conns = map<nat, nat>

  function Adding(conns: Conns, host: nat, c: nat): Conns { conns[host := c] }

  /** A connection is dropped only while it is the current one. */
  function Removing(conns: Conns, host: nat, c: nat): Conns {
    if host in conns && conns[host] == c then conns - {host} else conns
  }

  class Registry {
    var conns: Conns

    constructor ()
      ensures conns == map[]
    {
      conns := map[];
    }

    method Add(host: nat, c: nat)
      modifies this
      ensures conns == Adding(old(conns), host, c)
    {
      conns := conns[host := c];
    }

    method Remove(host: nat, c: nat)
      modifies this
      ensures conns == Removing(old(conns), host, c)
    {
      if host in conns && conns[host] == c {
        conns := conns - {host};
      }
    }

    method Get(host: nat) returns (c: Option<nat>)
      ensures c == if host in conns then Some(conns[host]) else None
    {
      c := if host in conns then Some(conns[host]) else None;
    }
  }

  // ---------------------------------------------------------------- calls

  /** A caller's channel has room for one reply. */
  datatype Phase = Waiting(slot: Option<Result>) | Answered(r: Result) | GaveUp

  datatype Call = Call(conn: nat, phase: Phase)

  /** `picked` holds the connection a caller has looked up and not yet enlisted at, `found` the reply a receive loop
      has matched to a waiter and not yet handed over. */
  datatype State = State(picked: map<nat, nat>, calls: map<nat, Call>, found: map<nat, Result>, conns: Conns,
                         // history
                         arrived: set<(nat, Result)>, last: Conns, dropped: set<(nat, nat)>,
                         known: set<nat>)

  const START: State := State(map[], map[], map[], map[], {}, map[], {}, {})

  datatype Event =
    | Pick(caller: nat, host: nat) // a caller looks up the host's connection
    | Enlist(caller: nat, id: nat) // it registers there under a fresh id; then the command goes out
    | Arrive(c: nat, r: Result)    // a reply comes in; its waiter is looked up
    | Hand(c: nat)                 // the reply is offered to the waiter's channel
    | Take(id: nat)                // the caller picks it up
    | GiveUp(id: nat)              // the caller's context ends first
    | Add(host: nat, c: nat) | Remove(host: nat, c: nat)

  predicate Waits(s: State, id: nat, c: nat) { id in s.calls && s.calls[id].conn == c && s.calls[id].phase.Waiting? }

  function SetPhase(s: State, id: nat, p: Phase): State
    requires id in s.calls
  {
    s.(calls := s.calls[id := s.calls[id].(phase := p)])
  }

  function Next(s: State, e: Event): Option<State> {
    match e
    case Pick(caller, host) => if host !in s.conns then None else Some(s.(picked := s.picked[caller := s.conns[host]]))
    case Enlist(caller, id) =>
      if caller !in s.picked || id in s.calls || (exists p :: p in s.arrived && p.1.id == id) then None else
      Some(s.(calls := s.calls[id := Call(s.picked[caller], Waiting(None))], picked := s.picked - {caller}))
    case Arrive(c, r) => if c in s.found then None else
      var t := s.(arrived := s.arrived + {(c, r)});
      if Waits(s, r.id, c) then Some(t.(found := s.found[c := r])) else Some(t)
    case Hand(c) => if c !in s.found then None else
      var r := s.found[c];
      var t := s.(found := s.found - {c});
      if Waits(s, r.id, c) && s.calls[r.id].phase.slot.None? then Some(SetPhase(t, r.id, Waiting(Some(r)))) else Some(t)
    case Take(id) =>
      if id !in s.calls || !s.calls[id].phase.Waiting? || s.calls[id].phase.slot.None? then None else
      Some(SetPhase(s, id, Answered(s.calls[id].phase.slot.value)))
    case GiveUp(id) => if id !in s.calls || !s.calls[id].phase.Waiting? then None else Some(SetPhase(s, id, GaveUp))
    case Add(host, c) => if c in s.known then None else
      Some(s.(conns := Adding(s.conns, host, c), last := s.last[host := c], known := s.known + {c}))
    case Remove(host, c) => Some(s.(conns := Removing(s.conns, host, c), dropped := s.dropped + {(host, c)}))
  }

  function Run(es: seq<Event>): Option<State>
    decreases |es|
  {
    if es == [] then Some(START) else
    var s :- Run(es[..|es| - 1]);
    Next(s, es[|es| - 1])
  }

  // ---------------------------------------------------------------- what always holds

  /** A reply at a call, in its channel or returned, carries the call's id and came in on its connection. */
  ghost predicate CallOk(s: State, id: nat)
    requires id in s.calls
  {
    var k := s.calls[id];
    match k.phase
    case Waiting(slot) =>
      && (slot.Some? ==> slot.value.id == id && (k.conn, slot.value) in s.arrived)
      && (slot.None? ==> (k.conn in s.found && s.found[k.conn].id == id) ||
                         forall r :: (k.conn, r) in s.arrived ==> r.id != id)
    case Answered(r) => r.id == id && (k.conn, r) in s.arrived
    case GaveUp => true
  }

  ghost predicate CallsOk(s: State) {
    && (forall id :: id in s.calls ==> CallOk(s, id))
    && forall c :: c in s.found ==> (c, s.found[c]) in s.arrived
  }

  ghost predicate RegistryOk(s: State) {
    && (forall h :: h in s.conns <==> h in s.last && (h, s.last[h]) !in s.dropped)
    && (forall h :: h in s.conns ==> s.conns[h] == s.last[h])
    && (forall h :: h in s.last ==> s.last[h] in s.known)
  }

  /** Nobody ever held a connection that was not set up. */
  ghost predicate ConnsKnown(s: State) {
    && (forall h :: h in s.conns ==> s.conns[h] in s.known)
    && (forall k :: k in s.picked ==> s.picked[k] in s.known)
    && forall id :: id in s.calls ==> s.calls[id].conn in s.known
  }

  lemma NextKnown(s: State, e: Event)
    requires ConnsKnown(s) && Next(s, e).Some?
    ensures ConnsKnown(Next(s, e).value)
  {
  }

  lemma NextCalls(s: State, e: Event)
    requires CallsOk(s) && Next(s, e).Some?
    ensures CallsOk(Next(s, e).value)
  {
    hide CallOk;
    var t := Next(s, e).value;
    forall id | id in t.calls ensures CallOk(t, id) { NextCall(s, e, id); }
    NextFound(s, e);
  }

  lemma NextCall(s: State, e: Event, id: nat)
    requires CallsOk(s) && Next(s, e).Some? && id in Next(s, e).value.calls
    ensures CallOk(Next(s, e).value, id)
  {
    if id in s.calls { assert CallOk(s, id); }
  }

  lemma NextFound(s: State, e: Event)
    requires CallsOk(s) && Next(s, e).Some?
    ensures var t := Next(s, e).value;
            forall c :: c in t.found ==> (c, t.found[c]) in t.arrived
  {
    hide CallOk;
  }

  /** Removals before the connection was added do not count: connections are new objects. */
  ghost predicate DroppedKnown(s: State) {
    forall p :: p in s.dropped ==> p.1 in s.known
  }

  lemma NextRegistry(s: State, e: Event)
    requires RegistryOk(s) && DroppedKnown(s) && Next(s, e).Some? && (e.Remove? ==> e.c in s.known)
    ensures RegistryOk(Next(s, e).value) && DroppedKnown(Next(s, e).value)
  {
    hide Next;
    if e.Add? {
      AddRegistry(s, e.host, e.c);
    } else if e.Remove? {
      RemoveRegistry(s, e.host, e.c);
    } else {
      OtherRegistry(s, e);
    }
  }

  lemma AddRegistry(s: State, host: nat, c: nat)
    requires RegistryOk(s) && DroppedKnown(s) && Next(s, Add(host, c)).Some?
    ensures var t := Next(s, Add(host, c)).value; RegistryOk(t) && DroppedKnown(t)
  {
  }

  lemma RemoveRegistry(s: State, host: nat, c: nat)
    requires RegistryOk(s) && DroppedKnown(s) && c in s.known
    ensures var t := Next(s, Remove(host, c)).value; RegistryOk(t) && DroppedKnown(t)
  {
  }

  /** Nobody else touches the registry. */
  lemma OtherRegistry(s: State, e: Event)
    requires Next(s, e).Some? && !e.Add? && !e.Remove?
    ensures var t := Next(s, e).value;
            t.conns == s.conns && t.last == s.last && t.dropped == s.dropped && t.known == s.known
  {
    hide Waits;
  }

  /** A stream is only torn down after it was set up. */
  ghost predicate Orderly(es: seq<Event>)
    decreases |es|
  {
    es == [] ||
    (var before, e := es[..|es| - 1], es[|es| - 1];
     Orderly(before) && (e.Remove? && Run(before).Some? ==> e.c in Run(before).value.known))
  }

  lemma {:induction false} RunOk(es: seq<Event>)
    requires Run(es).Some? && Orderly(es)
    ensures var s := Run(es).value; CallsOk(s) && RegistryOk(s) && DroppedKnown(s) && ConnsKnown(s)
    decreases |es|
  {
    hide Next;
    if es != [] {
      hide CallsOk, RegistryOk, DroppedKnown, ConnsKnown;
      var before := es[..|es| - 1];
      RunOk(before);
      NextCalls(Run(before).value, es[|es| - 1]);
      NextRegistry(Run(before).value, es[|es| - 1]);
      NextKnown(Run(before).value, es[|es| - 1]);
    }
  }

  /** On every run a call waits at a connection that some host had, replaced or removed since or not; it returns only
      a reply that carries its own id and arrived on that connection; and no such reply is lost: while the call
      waits, one is in its channel or about to be handed over. */
  lemma RepliesCorrelate(es: seq<Event>, id: nat)
    requires Run(es).Some? && Orderly(es) && id in Run(es).value.calls
    ensures var s := Run(es).value;
            var k := s.calls[id];
            && k.conn in s.known
            && (k.phase.Answered? ==> k.phase.r.id == id && (k.conn, k.phase.r) in s.arrived)
            && (k.phase.Waiting? ==>
                  forall r :: (k.conn, r) in s.arrived && r.id == id ==>
                    || (k.phase.slot.Some? && k.phase.slot.value.id == id)
                    || (k.conn in s.found && s.found[k.conn].id == id))
  {
    hide Run, RegistryOk;
    RunOk(es);
    assert CallOk(Run(es).value, id);
  }

  /** Nothing takes a reply back: once in the channel it stays, duplicates or not, until the caller takes that very
      reply or gives up; and from then on its fate is sealed. */
  lemma ReplyStays(s: State, e: Event, id: nat)
    requires id in s.calls && Next(s, e).Some?
    ensures var t := Next(s, e).value;
            && id in t.calls && t.calls[id].conn == s.calls[id].conn
            && (!s.calls[id].phase.Waiting? ==> t.calls[id] == s.calls[id])
            && (s.calls[id].phase.Waiting? && s.calls[id].phase.slot.Some? ==>
                  || t.calls[id] == s.calls[id]
                  || (e == GiveUp(id) && t.calls[id].phase == GaveUp)
                  || (e == Take(id) && t.calls[id].phase == Answered(s.calls[id].phase.slot.value)))
  {
  }

  /** From any state: a reply to a waiting call that has none yet, coming in on a free receive loop, can be handed over
      and taken, and then the call returns that very reply; a call whose channel is filled returns what is in it; and
      a waiting call can give up at any time. */
  lemma ReplyIsDelivered(s: State, id: nat, r: Result)
    requires id in s.calls && s.calls[id].phase.Waiting? && r.id == id
    ensures var c := s.calls[id].conn;
            c !in s.found && s.calls[id].phase.slot.None? ==>
              && Next(s, Arrive(c, r)).Some? && var s1 := Next(s, Arrive(c, r)).value;
              && Next(s1, Hand(c)).Some? && var s2 := Next(s1, Hand(c)).value;
              && Next(s2, Take(id)).Some? && var t := Next(s2, Take(id)).value;
              && id in t.calls && t.calls[id] == Call(c, Answered(r)) && c !in t.found
    ensures s.calls[id].phase.slot.Some? ==>
              && Next(s, Take(id)).Some? && id in Next(s, Take(id)).value.calls
              && Next(s, Take(id)).value.calls[id].phase == Answered(s.calls[id].phase.slot.value)
    ensures Next(s, GiveUp(id)).Some? && id in Next(s, GiveUp(id)).value.calls
    ensures Next(s, GiveUp(id)).value.calls[id].phase == GaveUp
  {
  }

  /** One call from beginning to end. */
  lemma CallAnswered(caller: nat, host: nat, id: nat, c: nat, r: Result)
    requires r.id == id
    ensures var es := [Add(host, c), Pick(caller, host), Enlist(caller, id), Arrive(c, r), Hand(c), Take(id)];
            Run(es).Some? && id in Run(es).value.calls && Run(es).value.calls[id] == Call(c, Answered(r))
  {
    hide Next;
    var es := [Add(host, c), Pick(caller, host), Enlist(caller, id), Arrive(c, r), Hand(c), Take(id)];
    var s1, s2 := Hosted(host, c, map[]), Hosted(host, c, map[caller := c]);
    var s3 := s1.(calls := map[id := Call(c, Waiting(None))]);
    CallBegun(caller, host, id, c);
    ReplyIsDelivered(s3, id, r);
    assert es[..6] == es && es[..0] == [];
    Unrolled(es, 1, START, s1);
    Unrolled(es, 2, s1, s2);
    Unrolled(es, 3, s2, s3);
    var s4 := Next(s3, Arrive(c, r)).value;
    var s5 := Next(s4, Hand(c)).value;
    Unrolled(es, 4, s3, s4);
    Unrolled(es, 5, s4, s5);
    Unrolled(es, 6, s5, Next(s5, Take(id)).value);
  }

  lemma CallBegun(caller: nat, host: nat, id: nat, c: nat)
    ensures var s1, s2 := Hosted(host, c, map[]), Hosted(host, c, map[caller := c]);
            && Next(START, Add(host, c)) == Some(s1) && Next(s1, Pick(caller, host)) == Some(s2)
            && Next(s2, Enlist(caller, id)) == Some(s1.(calls := map[id := Call(c, Waiting(None))]))
  {
    assert {} + {c} == {c} && map[caller := c] - {caller} == map[];
  }

  /** The registry always leads to the connection added last, unless that very connection was removed. */
  lemma LatestConnection(es: seq<Event>, h: nat)
    requires Run(es).Some? && Orderly(es)
    ensures var s := Run(es).value;
            && (h in s.conns <==> h in s.last && (h, s.last[h]) !in s.dropped)
            && (h in s.conns ==> s.conns[h] == s.last[h])
  {
    hide Run, CallsOk;
    RunOk(es);
  }

  /** A reconnect between lookup and registration: the call waits at the old connection, and what arrives on the new
      one under its id is not for it. */
  lemma ReconnectBetween(caller: nat, host: nat, id: nat, a: nat, b: nat, r: Result)
    requires a != b && r.id == id
    ensures var es := [Add(host, a), Pick(caller, host), Add(host, b), Enlist(caller, id), Arrive(b, r)];
            && Run(es).Some?
            && var s := Run(es).value;
            && host in s.conns && s.conns[host] == b && id in s.calls && s.calls[id] == Call(a, Waiting(None))
            && b !in s.found
  {
    hide Next;
    var s1, s2 := Hosted(host, a, map[]), Hosted(host, a, map[caller := a]);
    var s3 := s2.(conns := map[host := b], last := map[host := b], known := {a, b});
    var s4 := s3.(calls := map[id := Call(a, Waiting(None))], picked := map[]);
    Reconnects(caller, host, id, a, b, r);
    var es := [Add(host, a), Pick(caller, host), Add(host, b), Enlist(caller, id), Arrive(b, r)];
    assert es[..5] == es && es[..0] == [];
    Unrolled(es, 1, START, s1);
    Unrolled(es, 2, s1, s2);
    Unrolled(es, 3, s2, s3);
    Unrolled(es, 4, s3, s4);
    Unrolled(es, 5, s4, s4.(arrived := {(b, r)}));
  }

  /** One host with one connection. */
  function Hosted(host: nat, c: nat, picked: map<nat, nat>): State {
    START.(conns := map[host := c], last := map[host := c], known := {c}, picked := picked)
  }

  lemma Reconnects(caller: nat, host: nat, id: nat, a: nat, b: nat, r: Result)
    requires a != b && r.id == id
    ensures var s1, s2 := Hosted(host, a, map[]), Hosted(host, a, map[caller := a]);
            var s3 := s2.(conns := map[host := b], last := map[host := b], known := {a, b});
            var s4 := s3.(calls := map[id := Call(a, Waiting(None))], picked := map[]);
            && Next(START, Add(host, a)) == Some(s1) && Next(s1, Pick(caller, host)) == Some(s2)
            && Next(s2, Add(host, b)) == Some(s3) && Next(s3, Enlist(caller, id)) == Some(s4)
            && Next(s4, Arrive(b, r)) == Some(s4.(arrived := {(b, r)}))
  {
    assert {a} + {b} == {a, b} && {} + {a} == {a} && {} + {(b, r)} == {(b, r)};
    assert map[host := a][host := b] == map[host := b];
    assert map[caller := a] - {caller} == map[];
  }

  lemma Unrolled(es: seq<Event>, k: nat, s: State, t: State)
    requires 0 < k <= |es| && Next(s, es[k - 1]) == Some(t) && Run(es[..k - 1]) == Some(s)
    ensures Run(es[..k]) == Some(t)
  {
    hide Next;
    assert es[..k][..k - 1] == es[..k - 1];
  }
}

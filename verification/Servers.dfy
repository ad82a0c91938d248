/** The durable server rows and the guarded updates on them. A server's id is its position: rows are
    appended and never removed. */
module Servers {
  import opened Bytes
  import opened Fleet

  datatype Desired = WantRunning | WantStopped | WantDeleted

  datatype Status = Pending | Unschedulable | Provisioning | Running | Stopping | Stopped | Deleting | Deleted | Error

  datatype Row = Row(spec: Spec, desired: Desired, status: Status, host: Option<Id>, vm: Option<Id>, backup: bool,
                     deleted: bool)

  type Rows = seq<Row>

  // ---------------------------------------------------------------- row transitions

  function NewRow(spec: Spec): Row { Row(spec, WantRunning, Pending, None, None, false, false) }

  /** A VM that is gone: only a live row that is still believed running is touched; the host stays. */
  function LostRow(r: Row): Row {
    if r.deleted || r.status != Running then r else r.(status := Pending, vm := None)
  }

  function RunningRow(r: Row, vm: Id): Row { r.(status := Running, vm := Some(vm)) }

  function StoppedRow(r: Row): Row { r.(status := Stopped, vm := None, host := None) }

  function DeletedRow(r: Row): Row { r.(status := Deleted, vm := None, host := None, deleted := true) }

  predicate Reconcilable(r: Row) {
    && !r.deleted
    && (|| r.desired == WantDeleted || r.backup
        || (r.desired == WantRunning && r.status != Running) || (r.desired == WantStopped && r.status != Stopped))
  }

  /** Work is left exactly on a live row with a backup to take or one that is not settled in what is wanted; nothing
      settles a row that is to be deleted. */
  lemma ReconcilableMeans(r: Row)
    ensures Reconcilable(r) <==>
              !r.deleted && (r.backup || !((r.desired == WantRunning && r.status == Running) ||
                                           (r.desired == WantStopped && r.status == Stopped)))
    ensures r.desired == WantDeleted && !r.deleted ==> Reconcilable(r)
  {
  }

  predicate BelievedUp(r: Row) { !r.deleted && r.status == Running && r.desired == WantRunning }

  /** Every live row that shall run is looked at: by the reconciler while it does not run, by the health check while
      it is believed to; and a lost one goes from the second to the first, without a VM and with its host. */
  lemma AlwaysLookedAt(r: Row)
    requires !r.deleted && r.desired == WantRunning
    ensures Reconcilable(r) || BelievedUp(r)
    ensures BelievedUp(r) <==> r.status == Running
    ensures BelievedUp(r) ==>
              && LostRow(r).status == Pending && LostRow(r).vm.None? && LostRow(r).host == r.host
              && LostRow(r).spec == r.spec
              && Reconcilable(LostRow(r)) && !BelievedUp(LostRow(r))
    ensures !BelievedUp(r) ==> LostRow(r) == r
  {
  }

  // ---------------------------------------------------------------- committed capacity

  /** What one row takes from host `h`. */
  function Weight(r: Row, h: Id): Spec { if r.host == Some(h) && !r.deleted then r.spec else NONE }

  /** Sum over the live rows assigned to `h`. */
  function Used(rows: Rows, h: Id): Spec {
    if rows == [] then NONE else Weight(rows[0], h).Plus(Used(rows[1..], h))
  }

  ghost predicate SpecsOk(rows: Rows) {
    forall i :: 0 <= i < |rows| ==> NONE.Within(rows[i].spec)
  }

  lemma {:induction false} UsedAppend(rows: Rows, r: Row, h: Id)
    ensures Used(rows + [r], h) == Used(rows, h).Plus(Weight(r, h))
  {
    if rows == [] {
      assert rows + [r] == [r] && [r][1..] == [];
    } else {
      assert (rows + [r])[1..] == rows[1..] + [r] && (rows + [r])[0] == rows[0];
      UsedAppend(rows[1..], r, h);
    }
  }

  lemma PrefixEnds(rows: Rows, h: Id)
    ensures Used(rows[..0], h) == NONE && Used(rows[..|rows|], h) == Used(rows, h)
  {
    assert rows[..|rows|] == rows;
  }

  lemma UsedPrefix(rows: Rows, i: nat, h: Id)
    requires i < |rows|
    ensures Used(rows[..i + 1], h) == if rows[i].host == Some(h) &&
            !rows[i].deleted then Used(rows[..i], h).Plus(rows[i].spec) else Used(rows[..i], h)
  {
    hide Used;
    assert rows[..i + 1] == rows[..i] + [rows[i]];
    UsedAppend(rows[..i], rows[i], h);
  }

  lemma {:induction false} UsedUpdate(rows: Rows, i: nat, r: Row, h: Id)
    requires i < |rows|
    ensures Used(rows[i := r], h) == Used(rows, h).Minus(Weight(rows[i], h)).Plus(Weight(r, h))
  {
    var rows' := rows[i := r];
    if i == 0 {
      assert rows'[1..] == rows[1..];
    } else {
      assert rows'[1..] == rows[1..][i - 1 := r];
      UsedUpdate(rows[1..], i - 1, r, h);
    }
  }

  lemma {:induction false} UsedBounds(rows: Rows, i: nat, h: Id)
    requires SpecsOk(rows) && i < |rows|
    ensures NONE.Within(Weight(rows[i], h)) && Weight(rows[i], h).Within(Used(rows, h))
  {
    UsedNonneg(rows[1..], h);
    if i > 0 { UsedBounds(rows[1..], i - 1, h); }
  }

  lemma {:induction false} UsedNonneg(rows: Rows, h: Id)
    requires SpecsOk(rows)
    ensures NONE.Within(Used(rows, h))
  {
    if rows != [] { UsedNonneg(rows[1..], h); }
  }

  class GameServerRepository {
    var rows: Rows

    constructor ()
      ensures rows == []
    {
      rows := [];
    }

    method Create(spec: Spec) returns (id: nat)
      modifies this
      ensures id == |old(rows)| && rows == old(rows) + [NewRow(spec)]
    {
      id := |rows|;
      rows := rows + [Row(spec, WantRunning, Pending, None, None, false, false)];
    }

    method SetDesiredState(id: nat, d: Desired)
      modifies this
      ensures rows == if id < |old(rows)| then old(rows)[id := old(rows)[id].(desired := d)] else old(rows)
    {
      if id < |rows| { rows := rows[id := rows[id].(desired := d)]; }
    }

    /** Committed capacity of a host; an agent without a stable id has none. */
    method UsedCapacity(h: Id) returns (used: Spec)
      ensures used == if h == NO_ID then NONE else Used(rows, h)
    {
      if h == NO_ID {
        return NONE;
      }
      hide Used;
      used := NONE;
      PrefixEnds(rows, h);
      for i := 0 to |rows|
        invariant used == Used(rows[..i], h)
      {
        UsedPrefix(rows, i, h);
        var r := rows[i];
        if r.host == Some(h) && !r.deleted {
          used := used.Plus(r.spec);
        }
      }
    }

    /** Ids of the rows that were not deleted. */
    method ListActiveIDs() returns (ids: seq<nat>)
      ensures forall i: nat :: i in ids <==> i < |rows| && !rows[i].deleted
    {
      ids := [];
      for i := 0 to |rows|
        invariant forall j: nat :: j in ids <==> j < i && !rows[j].deleted
      {
        if !rows[i].deleted { ids := ids + [i]; }
      }
    }

    /** At most `limit` rows that need work. */
    method ListReconcilable(limit: nat) returns (ids: seq<nat>)
      ensures |ids| <= limit && forall i :: i in ids ==> i < |rows| && Reconcilable(rows[i])
      ensures |ids| < limit ==> forall i :: 0 <= i < |rows| && Reconcilable(rows[i]) ==> i in ids
    {
      ids := [];
      for i := 0 to |rows|
        invariant |ids| <= limit && forall j :: j in ids ==> j < i && Reconcilable(rows[j])
        invariant |ids| < limit ==> forall j :: 0 <= j < i && Reconcilable(rows[j]) ==> j in ids
      {
        var r := rows[i];
        if |ids| < limit && !r.deleted &&
           (r.desired == WantDeleted || r.backup || (r.desired == WantRunning && r.status != Running) ||
            (r.desired == WantStopped && r.status != Stopped)) {
          ids := ids + [i];
        }
      }
    }

    /** At most `limit` rows that run as they should, for the health check. */
    method ListRunning(limit: nat) returns (ids: seq<nat>)
      ensures |ids| <= limit && forall i :: i in ids ==> i < |rows| && BelievedUp(rows[i])
      ensures |ids| < limit ==> forall i :: 0 <= i < |rows| && BelievedUp(rows[i]) ==> i in ids
    {
      ids := [];
      for i := 0 to |rows|
        invariant |ids| <= limit && forall j :: j in ids ==> j < i && BelievedUp(rows[j])
        invariant |ids| < limit ==> forall j :: 0 <= j < i && BelievedUp(rows[j]) ==> j in ids
      {
        if |ids| < limit && !rows[i].deleted && rows[i].status == Running && rows[i].desired == WantRunning {
          ids := ids + [i];
        }
      }
    }

    method MarkStatus(id: nat, status: Status)
      requires id < |rows|
      modifies this
      ensures rows == old(rows)[id := old(rows)[id].(status := status)]
    {
      rows := rows[id := rows[id].(status := status)];
    }

    method AssignHost(id: nat, host: Option<Id>)
      requires id < |rows|
      modifies this
      ensures rows == old(rows)[id := old(rows)[id].(host := host)]
    {
      rows := rows[id := rows[id].(host := host)];
    }

    method MarkRunning(id: nat, vm: Id)
      requires id < |rows|
      modifies this
      ensures rows == old(rows)[id := RunningRow(old(rows)[id], vm)]
    {
      rows := rows[id := rows[id].(status := Running, vm := Some(vm))];
    }

    method MarkStopped(id: nat)
      requires id < |rows|
      modifies this
      ensures rows == old(rows)[id := StoppedRow(old(rows)[id])]
    {
      rows := rows[id := rows[id].(status := Stopped, vm := None, host := None)];
    }

    method SoftDelete(id: nat)
      requires id < |rows|
      modifies this
      ensures rows == old(rows)[id := DeletedRow(old(rows)[id])]
    {
      rows := rows[id := rows[id].(status := Deleted, vm := None, host := None, deleted := true)];
    }

    method MarkLost(id: nat)
      requires id < |rows|
      modifies this
      ensures rows == old(rows)[id := LostRow(old(rows)[id])]
      ensures var r := old(rows)[id];
              rows[id] == if r.deleted || r.status != Running then r else r.(status := Pending, vm := None)
    {
      var r := rows[id];
      if !r.deleted && r.status == Running {
        rows := rows[id := r.(status := Pending, vm := None)];
      } else {
        assert rows[id := r] == rows;
      }
    }
  }
}

/** The endpoints of ai-queue/api.ts on a table that is updated in place. Every method is tied to the
    step functions of `SlotTable`; the wakeups it owes are returned instead of delivered. */
module SlotService {
  import opened SlotTable

  datatype PollStatus = PollActive | PollWaiting | PollCancelled

  class Service {
    var rows: Table
    var nextId: SlotId
    var now: nat

    ghost predicate Valid()
      reads this
    {
      && DistinctTimes(rows)
      && forall id | id in rows :: id < nextId && rows[id].enqueuedAt < now
    }

    constructor ()
      ensures Valid() && rows == map[]
    {
      rows, nextId, now := map[], 0, 0;
    }

    method AcquireSlot(model: Model, priority: int) returns (slotId: SlotId, status: Status, position: nat)
      requires Valid()
      modifies this
      ensures Valid()
      ensures slotId !in old(rows) && rows == Acquired(old(rows), slotId, model, priority, old(now))
      ensures status == rows[slotId].status
      ensures position == if status == Active then 0 else Position(rows, slotId)
    {
      slotId := nextId;
      rows, nextId, now := Inserted(rows, slotId, model, priority, now), nextId + 1, now + 1;
      AcquireIsInsertThenActivate(old(rows), slotId, model, priority, old(now));
      rows := ActivatedIfIdle(rows, slotId);
      status := rows[slotId].status;
      position := if status == Active then 0 else Position(rows, slotId);
    }

    method PollSlot(slotId: SlotId) returns (status: PollStatus, position: nat)
      ensures status == PollCancelled <==> slotId !in rows
      ensures status == PollActive <==> IsActive(rows, slotId)
      ensures position == if IsWaiting(rows, slotId) then Position(rows, slotId) else 0
    {
      if slotId !in rows {
        return PollCancelled, 0;
      }
      if rows[slotId].status == Active {
        return PollActive, 0;
      }
      return PollWaiting, Position(rows, slotId);
    }

    method PromoteNext(model: Model) returns (woken: set<SlotId>)
      requires Valid()
      modifies this`rows
      ensures Valid() && Promoted(old(rows), model, rows, woken)
    {
      if HasWaiting(rows, model) {
        NextExists(rows, model);
        var id: SlotId :| id in rows && IsNext(rows, model, id);
        rows := Activate(rows, id);
        woken := {id};
      } else {
        woken := {};
      }
    }

    method ReleaseSlot(slotId: SlotId) returns (woken: set<SlotId>)
      requires Valid()
      modifies this`rows
      ensures Valid() && Released(old(rows), slotId, rows, woken)
    {
      if slotId !in rows {
        return {};
      }
      var model := rows[slotId].model;
      rows := rows - {slotId};
      woken := PromoteNext(model);
    }

    method CancelSlot(slotId: SlotId)
      requires Valid()
      modifies this`rows
      ensures Valid() && rows == Cancelled(old(rows), slotId)
    {
      if IsWaiting(rows, slotId) {
        rows := rows - {slotId};
      }
    }

    /** `stale` stands for the rows the time limit picks. */
    method CleanupStaleSlots(stale: set<SlotId>) returns (cleaned: nat, woken: set<SlotId>)
      requires Valid()
      modifies this`rows
      ensures Valid() && CleanedUp(old(rows), stale, rows, woken)
      ensures cleaned == |Swept(old(rows), stale)|
    {
      var gone := Swept(rows, stale);
      cleaned, woken := |gone|, {};
      ghost var was := rows;
      var todo := set id | id in gone :: rows[id].model;
      rows := rows - gone;
      ghost var rest := rows;
      forall m: Model ensures m in todo <==> Lost(was, stale, m) { }
      while todo != {}
        invariant Valid() && forall m | m in todo :: Lost(was, stale, m)
        invariant rows.Keys == rest.Keys && SweepDone(was, stale, rest, todo, rows, woken)
        decreases |todo|
      {
        var model :| model in todo;
        ghost var before := rows;
        var more := PromoteNext(model);
        SweepStep(was, stale, rest, todo, model, before, rows, woken, more);
        woken := woken + more;
        todo := todo - {model};
      }
    }
  }

  ghost predicate SweepDone(was: Table, stale: set<SlotId>, rest: Table, todo: set<Model>, rows: Table,
                            woken: set<SlotId>)
  {
    && woken <= rest.Keys
    && forall m: Model :: LaneDone(rest, m, m !in todo && Lost(was, stale, m), rows, woken)
  }

  lemma SweepStep(was: Table, stale: set<SlotId>, rest: Table, todo: set<Model>, model: Model,
                  before: Table, after: Table, woken: set<SlotId>, more: set<SlotId>)
    requires model in todo && Lost(was, stale, model) && SweepDone(was, stale, rest, todo, before, woken)
    requires before.Keys == rest.Keys && Promoted(before, model, after, more)
    ensures after.Keys == rest.Keys && SweepDone(was, stale, rest, todo - {model}, after, woken + more)
  {
    PromotedLane(rest, before, model, after, woken, more);
    forall m: Model | m != model
      ensures InLane(rest, m, woken + more) == InLane(rest, m, woken) && Lane(after, m) == Lane(before, m)
    {
      OtherLane(rest, before, model, after, woken, more, m);
    }
  }

  /** Whether the sweep is through with a model: promoted once where due, untouched otherwise. */
  ghost predicate LaneDone(rest: Table, m: Model, due: bool, rows: Table, woken: set<SlotId>) {
    if due
    then exists u :: Promoted(rest, m, u, InLane(rest, m, woken)) && Lane(rows, m) == Lane(u, m)
    else InLane(rest, m, woken) == {} && Lane(rows, m) == Lane(rest, m)
  }

  lemma SameLane(t: Table, u: Table, m: Model)
    requires Lane(t, m) == Lane(u, m)
    ensures forall id :: id in t && t[id].model == m <==> id in u && u[id].model == m
    ensures forall id | id in t && t[id].model == m :: t[id] == u[id]
  {
    forall id ensures id in t && t[id].model == m <==> id in u && u[id].model == m {
      LaneAt(t, m, id);
      LaneAt(u, m, id);
    }
    forall id | id in t && t[id].model == m ensures t[id] == u[id] {
      LaneAt(t, m, id);
      LaneAt(u, m, id);
    }
  }

  lemma SameLaneBack(t: Table, u: Table, m: Model)
    requires forall id :: id in t && t[id].model == m <==> id in u && u[id].model == m
    requires forall id | id in t && t[id].model == m :: t[id] == u[id]
    ensures Lane(t, m) == Lane(u, m)
  {
  }

  lemma PromotedLane(rest: Table, before: Table, model: Model, after: Table, woken: set<SlotId>, more: set<SlotId>)
    requires Promoted(before, model, after, more)
    requires before.Keys == rest.Keys && LaneDone(rest, model, false, before, woken)
    ensures after.Keys == rest.Keys && more <= rest.Keys
    ensures LaneDone(rest, model, true, after, woken + more)
  {
    SameLane(before, rest, model);
    if HasWaiting(before, model) {
      var id: SlotId :| IsNext(before, model, id) && after == Activate(before, id) && more == {id};
      PromotedTo(rest, before, model, id);
      assert InLane(rest, model, woken + more) == {id} by {
        assert forall j :: j in InLane(rest, model, woken + more) <==> j in InLane(rest, model, woken) || j == id;
      }
      var u := Activate(rest, id);
      assert Promoted(rest, model, u, {id});
    } else {
      assert InLane(rest, model, woken + more) == InLane(rest, model, woken);
      assert Promoted(rest, model, rest, {});
    }
  }

  lemma PromotedTo(rest: Table, before: Table, model: Model, id: SlotId)
    requires IsNext(before, model, id) && Lane(before, model) == Lane(rest, model)
    ensures IsNext(rest, model, id) && HasWaiting(rest, model)
    ensures Lane(Activate(before, id), model) == Lane(Activate(rest, id), model)
  {
    SameLane(before, rest, model);
    SameLaneBack(Activate(before, id), Activate(rest, id), model);
  }

  lemma OtherLane(rest: Table, before: Table, model: Model, after: Table, woken: set<SlotId>, more: set<SlotId>,
                  m: Model)
    requires Promoted(before, model, after, more) && m != model
    requires before.Keys == rest.Keys && LaneDone(rest, model, false, before, woken)
    ensures InLane(rest, m, woken + more) == InLane(rest, m, woken)
    ensures Lane(after, m) == Lane(before, m)
  {
    SameLane(before, rest, model);
  }
}

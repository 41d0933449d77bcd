/** What the AI queue promises over whole runs of `SlotProtocol`. */
module SlotGuarantees {
  import opened Common
  import opened SlotTable
  import opened Waiters
  import opened SlotProtocol

  // -------------------------------------------------------------- no lost wakeup

  /** Whoever sleeps although the row was promoted or swept has its wakeup, or is about to get it. */
  lemma NoLostWakeup(run: seq<State>, i: nat, c: CallId, id: SlotId)
    requires IsRun(run) && i < |run| && c in run[i].calls
    requires run[i].calls[c].pc.Blocked? && run[i].calls[c].slot == Some(id)
    requires !IsWaiting(run[i].table, id)
    ensures var w, r := run[i].calls[c].pc.w, run[i].registry;
            w in r.resolved || (id in run[i].wakes && w in Woken(r, id).resolved)
  {
    ReachableInv(run, i);
    assert CallInv(run[i], c);
  }

  // ------------------------------------------------------------ the table is sound

  lemma QueueSound(run: seq<State>, i: nat)
    requires IsRun(run) && i < |run|
    ensures QueueInv(run[i].table)
  {
    ReachableInv(run, i);
  }

  /** The cancel-then-release order at work: no call releases a row that still waits. */
  lemma NeverReleasesWaiting(run: seq<State>, i: nat, c: CallId, id: SlotId)
    requires IsRun(run) && i < |run| && c in run[i].calls
    requires run[i].calls[c].pc == Releasing && run[i].calls[c].slot == Some(id)
    ensures !IsWaiting(run[i].table, id)
  {
    ReachableInv(run, i);
    assert CallInv(run[i], c);
  }

  /** A finished call has left nothing behind, and every row belongs to a call that is still on its way. */
  lemma ExitLeavesNothing(run: seq<State>, i: nat)
    requires IsRun(run) && i < |run|
    ensures forall c | c in run[i].calls && run[i].calls[c].pc == Done ::
              && run[i].calls[c].slot.Some?
              && run[i].calls[c].slot.value !in run[i].table
              && run[i].calls[c].slot.value !in run[i].registry.waiting
    ensures forall id | id in run[i].table ::
              && id in run[i].owner && run[i].owner[id] in run[i].calls
              && var call := run[i].calls[run[i].owner[id]];
              call.slot == Some(id) && call.pc != Done && call.model == run[i].table[id].model
  {
    ReachableInv(run, i);
    forall c | c in run[i].calls ensures CallInv(run[i], c) { }
  }

  /** Two jobs that both still have their row never run as owners of the same model's slot. */
  lemma OneOwnerPerModel(run: seq<State>, i: nat, c: CallId, d: CallId)
    requires IsRun(run) && i < |run| && c in run[i].calls && d in run[i].calls
    requires run[i].calls[c].pc == Running && run[i].calls[d].pc == Running
    requires run[i].calls[c].model == run[i].calls[d].model
    requires run[i].calls[c].slot.Some? ==> run[i].calls[c].slot.value !in run[i].swept
    requires run[i].calls[d].slot.Some? ==> run[i].calls[d].slot.value !in run[i].swept
    ensures c == d
  {
    var s := run[i];
    ReachableInv(run, i);
    assert CallInv(s, c) && CallInv(s, d);
    assert IsActive(s.table, s.calls[c].slot.value) && IsActive(s.table, s.calls[d].slot.value);
  }

  // --------------------------------------------------------------------- chains

  /** A call that queues, or is about to, waits for nobody up its own chain: whoever up there queued for
      the same model has let go of the slot. */
  lemma NoChainWaitsForItself(run: seq<State>, i: nat, c: CallId, a: CallId)
    requires IsRun(run) && i < |run| && c in run[i].calls && a in run[i].calls[c].above
    requires run[i].calls[c].slot.Some? || run[i].calls[c].pc == Asked
    ensures a in run[i].calls
    ensures run[i].calls[a].model == run[i].calls[c].model ==>
              run[i].calls[a].pc == Inside || TokenReleased(run[i], a)
  {
    ReachableInv(run, i);
    assert CallInv(run[i], c) && InContext(run[i], run[i].calls[c].held, a);
  }

  // ------------------------------------------------------------------- the wait

  lemma StepMovesLine(s: State, s': State, step: Step)
    requires RowsInv(s) && NextStep(s, s', step)
    ensures LineStep(s.table, s'.table)
  {
    match step {
      case Enqueue(c) => AcquireMovesLine(s.table, s.nextSlot, s.calls[c].model, s.calls[c].priority, s.now);
      case Release(c) => ReleaseMovesLine(s.table, s.calls[c].slot.value, s'.table);
      case Sweep(stale) => SweepMovesLine(s.table, stale, s'.table);
      case CancelRow(c) => CancelMovesLine(s.table, s.calls[c].slot.value);
      case _ => assert s'.table == s.table;
    }
  }

  lemma AcquireMovesLine(t: Table, id: SlotId, m: Model, priority: int, now: nat)
    requires QueueInv(t) && forall i | i in t :: i < id && t[i].enqueuedAt < now
    ensures LineStep(t, Acquired(t, id, m, priority, now))
  {
    AcquireKeepsQueue(t, id, m, priority, now);
  }

  lemma CancelMovesLine(t: Table, id: SlotId)
    ensures LineStep(t, t) && LineStep(t, Cancelled(t, id))
  {
  }

  lemma ReleaseMovesLine(t: Table, id: SlotId, t': Table)
    requires exists who :: Released(t, id, t', who)
    ensures LineStep(t, t')
  {
    var who :| Released(t, id, t', who);
    if id in t {
      forall j: SlotId ensures j in t' <==> j in t - {id} {
        PromotedAt(t - {id}, t[id].model, t', who, j);
      }
      forall j | j in t' ensures t'[j] == if j in who then t[j].(status := Active) else t[j] {
        PromotedAt(t - {id}, t[id].model, t', who, j);
      }
      forall j, k | j in t && IsWaiting(t, j) && IsActive(t', j) && k in t && IsWaiting(t', k) && t[k].model == t[j].model
        ensures Before(t[j], t[k])
      {
        PromotedAt(t - {id}, t[id].model, t', who, j);
      }
    }
  }

  lemma SweepMovesLine(t: Table, stale: set<SlotId>, t': Table)
    requires exists who :: CleanedUp(t, stale, t', who)
    ensures LineStep(t, t')
  {
    var who :| CleanedUp(t, stale, t', who);
    forall j | j in t'
      ensures j in t && j !in Swept(t, stale) && t'[j] == if j in who then t[j].(status := Active) else t[j]
    {
      CleanupRow(t, stale, t', who, j);
    }
    forall j, k | j in t && IsWaiting(t, j) && IsActive(t', j) && k in t && IsWaiting(t', k) && t[k].model == t[j].model
      ensures Before(t[j], t[k])
    {
      CleanupRow(t, stale, t', who, j);
      CleanupRow(t, stale, t', who, k);
      var rest := t - Swept(t, stale);
      assert j in t' && k in t' && j in who && k !in who;
      assert IsWaiting(rest, k) && rest[k].model == t[j].model;
    }
  }

  function PromotionsBetween(run: seq<State>, i: nat, j: nat, m: Model): nat
    requires i <= j < |run|
    decreases j
  {
    if i == j then 0
    else PromotionsBetween(run, i, j - 1, m) + |Promotions(run[j - 1].table, run[j].table, m)|
  }

  /** Arrivals with strictly better priority than `id`, while `id` is in the table. */
  function ArrivalsBetween(run: seq<State>, i: nat, j: nat, id: SlotId): nat
    requires i <= j < |run|
    decreases j
  {
    if i == j then 0
    else ArrivalsBetween(run, i, j - 1, id) +
         if id in run[j - 1].table then |Arrivals(run[j - 1].table, run[j].table, id)| else 0
  }

  /** One step of the run, whatever its kind. */
  lemma RunStep(run: seq<State>, j: nat)
    requires IsRun(run) && 0 < j < |run|
    ensures Inv(run[j - 1]) && LineStep(run[j - 1].table, run[j].table)
  {
    ReachableInv(run, j - 1);
    assert Steps(run[j - 1], run[j]);
    var step :| NextStep(run[j - 1], run[j], step);
    StepMovesLine(run[j - 1], run[j], step);
  }

  /** What one step of the run does to the position of a row that goes on waiting. */
  lemma PositionMoves(run: seq<State>, j: nat, id: SlotId)
    requires IsRun(run) && 0 < j < |run|
    requires IsWaiting(run[j - 1].table, id) && IsWaiting(run[j].table, id)
    ensures run[j].table[id] == run[j - 1].table[id]
    ensures Position(run[j].table, id) + |Promotions(run[j - 1].table, run[j].table, run[j - 1].table[id].model)|
         <= Position(run[j - 1].table, id) + |Arrivals(run[j - 1].table, run[j].table, id)|
  {
    RunStep(run, j);
    PositionStep(run[j - 1].table, run[j].table, id);
  }

  predicate WaitsOver(run: seq<State>, i: nat, j: nat, id: SlotId)
    requires i <= j < |run|
  {
    forall k: nat | i <= k <= j :: IsWaiting(run[k].table, id)
  }

  lemma {:induction false} PositionOverRun(run: seq<State>, i: nat, j: nat, id: SlotId)
    requires IsRun(run) && i <= j < |run| && WaitsOver(run, i, j, id)
    ensures id in run[i].table && id in run[j].table && run[j].table[id] == run[i].table[id]
    ensures Position(run[j].table, id) + PromotionsBetween(run, i, j, run[i].table[id].model)
         <= Position(run[i].table, id) + ArrivalsBetween(run, i, j, id)
    decreases j
  {
    hide IsRun, Position, Promotions, Arrivals;
    assert IsWaiting(run[i].table, id) && IsWaiting(run[j].table, id);
    if i < j {
      PositionOverRun(run, i, j - 1, id);
      PositionMoves(run, j, id);
    }
  }

  /** Bounded bypass: a slot at position p has left the line once its model saw p promotions plus one for
      every strictly more urgent arrival, and it left at some step `k` by becoming active, unless its own
      caller was withdrawing it. */
  lemma BoundedBypass(run: seq<State>, i: nat, j: nat, id: SlotId) returns (k: nat)
    requires IsRun(run) && i <= j < |run| && IsWaiting(run[i].table, id)
    requires PromotionsBetween(run, i, j, run[i].table[id].model)
          >= Position(run[i].table, id) + ArrivalsBetween(run, i, j, id)
    ensures i < k <= j && IsWaiting(run[k - 1].table, id) && !IsWaiting(run[k].table, id)
    ensures IsActive(run[k].table, id) || Withdrawn(run[k - 1], id)
  {
    if WaitsOver(run, i, j, id) {
      PositionOverRun(run, i, j, id);
    }
    k :| i <= k <= j && !IsWaiting(run[k].table, id);
    k := FirstChange(run, i, k, id);
    WaitEnds(run, k, id);
  }

  lemma {:induction false} FirstChange(run: seq<State>, i: nat, k: nat, id: SlotId) returns (l: nat)
    requires i <= k < |run| && IsWaiting(run[i].table, id) && !IsWaiting(run[k].table, id)
    ensures i < l <= k && IsWaiting(run[l - 1].table, id) && !IsWaiting(run[l].table, id)
    decreases k
  {
    l := k;
    if !IsWaiting(run[k - 1].table, id) { l := FirstChange(run, i, k - 1, id); }
  }

  /** A slot leaves the line only by becoming active, or because its own caller withdrew it. */
  lemma WaitEnds(run: seq<State>, k: nat, id: SlotId)
    requires IsRun(run) && 0 < k < |run|
    requires IsWaiting(run[k - 1].table, id) && !IsWaiting(run[k].table, id)
    ensures IsActive(run[k].table, id) || Withdrawn(run[k - 1], id)
  {
    ReachableInv(run, k - 1);
    assert Steps(run[k - 1], run[k]);
    var step :| NextStep(run[k - 1], run[k], step);
    StepEndsWait(run[k - 1], run[k], step, id);
  }

  ghost predicate Withdrawn(s: State, id: SlotId) {
    exists c | c in s.calls :: s.calls[c].pc.Withdrawing? && s.calls[c].slot == Some(id)
  }

  lemma ReleaseEndsWait(s: State, s': State, c: CallId, id: SlotId)
    requires Inv(s) && NextStep(s, s', Release(c)) && IsWaiting(s.table, id) && !IsWaiting(s'.table, id)
    ensures IsActive(s'.table, id)
  {
    hide QueueInv, DistinctTimes, ChainInv, WakeInv, Released;
    assert CallInv(s, c);
    ReleaseLocal(s, s', c);
    assert RowStep(s, s', id);
  }

  lemma StepEndsWait(s: State, s': State, step: Step, id: SlotId)
    requires Inv(s) && NextStep(s, s', step) && IsWaiting(s.table, id) && !IsWaiting(s'.table, id)
    ensures IsActive(s'.table, id) || Withdrawn(s, id)
  {
    hide QueueInv, DistinctTimes, CallInv, Released, CleanedUp, Registered, Unregistered, NewCall;
    assert id < s.nextSlot;
    match step {
      case Release(c) => ReleaseEndsWait(s, s', c, id);
      case Sweep(stale) =>
        SweepLocal(s, s', stale);
        assert RowStep(s, s', id);
      case CancelRow(c) =>
        assert s.calls[c].slot == Some(id);
      case _ =>
    }
  }
}

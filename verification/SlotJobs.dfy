/** What becomes of a call of `withAiSlot` (ai-queue/slot-helper.ts): one aborted on entry never queues nor runs, one that
    queues does so for what it asked, and one that ends without its job gave up or lost its row to the sweep. */
module SlotJobs {
  import opened Common
  import opened SlotTable
  import opened Waiters
  import opened SlotProtocol
  import opened SlotLanes
  import opened SlotHolders

  /** The lanes around a new call: those of its caller, and behind them those opened since. */
  function LanesAround(s: State, step: Step): seq<int>
    requires step.Spawn? && (step.parent.Some? ==> step.parent.value in s.calls)
  {
    (if step.parent.Some? then s.calls[step.parent.value].lanes else []) + step.lanes
  }

  /** What a new call is: what was asked for, not queued, and refused exactly when its signal was aborted. */
  lemma SpawnSays(s: State, s': State, step: Step)
    requires step.Spawn? && NextStep(s, s', step)
    ensures step.parent.Some? ==> step.parent.value in s.calls
    ensures s.nextCall in s'.calls
    ensures var call := s'.calls[s.nextCall];
            && call.model == step.model && call.asked == step.priority && call.lanes == LanesAround(s, step)
            && call.slot == None && (call.pc == Refused <==> step.aborted)
  {
    hide InnerHeld, LaneAfter;
    assert [] + step.lanes == step.lanes;
  }

  /** A call keeps what it is; and a refused one stays refused. */
  lemma CallKeptStep(s: State, s': State, step: Step, c: CallId)
    requires Inv(s) && NextStep(s, s', step) && c in s.calls
    ensures c in s'.calls && SameCall(s.calls[c], s'.calls[c]) && s'.calls[c].model == s.calls[c].model
    ensures s.calls[c].pc == Refused ==> s'.calls[c] == s.calls[c]
  {
    hide QueueInv, DistinctTimes, RowInv, WakeInv, ChainInv;
    if step.Spawn? {
      SpawnedLast(s, s', step);
    } else {
      OthersStay(s, s', step);
      if OwnStep(step) && step.c == c { OwnKeeps(s, s', step); }
    }
  }

  lemma OwnKeeps(s: State, s': State, step: Step)
    requires NextStep(s, s', step) && OwnStep(step) && step.c in s.calls && step.c in s'.calls
    ensures SameCall(s.calls[step.c], s'.calls[step.c]) && s'.calls[step.c].model == s.calls[step.c].model
    ensures s.calls[step.c].pc != Refused
  {
    hide Acquired, Released, CleanedUp, Swept, NewCall, Registered, Unregistered, Woken, Cancelled, IsActive;
  }

  lemma {:induction false} CallKept(run: seq<State>, i: nat, j: nat, c: CallId)
    requires IsRun(run) && i <= j < |run| && c in run[i].calls
    ensures c in run[j].calls && SameCall(run[i].calls[c], run[j].calls[c]) && run[j].calls[c].model == run[i].calls[c].model
    ensures run[i].calls[c].pc == Refused ==> run[j].calls[c] == run[i].calls[c]
    decreases j
  {
    hide IsRun, Inv, NextStep;
    if i < j {
      CallKept(run, i, j - 1, c);
      var step := StepAt(run, j);
      CallKeptStep(run[j - 1], run[j], step, c);
    }
  }

  /** Aborted on entry: in every later state the call has no slot, its job has not run, and no row in the table is its. */
  lemma AbortedNeverQueues(run: seq<State>, i: nat, step: Step, j: nat)
    requires IsRun(run) && 0 < i <= j < |run| && step.Spawn? && NextStep(run[i - 1], run[i], step) && step.aborted
    ensures run[i - 1].nextCall in run[j].calls
    ensures var call := run[j].calls[run[i - 1].nextCall]; call.slot == None && !call.ran && call.pc == Refused
    ensures forall id | id in run[j].table :: id in run[j].owner && run[j].owner[id] != run[i - 1].nextCall
  {
    hide QueueInv, DistinctTimes, RowInv, WakeInv, NextStep;
    var c := run[i - 1].nextCall;
    SpawnSays(run[i - 1], run[i], step);
    CallKept(run, i, j, c);
    ReachableInv(run, j);
    assert CallInv(run[j], c);
  }

  /** A row stands for what its owner asked for when it was called: that model, at that priority or the innermost lane's. */
  lemma QueuedForIt(run: seq<State>, i: nat, step: Step, j: nat, id: SlotId)
    requires IsRun(run) && 0 < i <= j < |run| && step.Spawn? && NextStep(run[i - 1], run[i], step)
    requires id in run[j].table && id in run[j].owner && run[j].owner[id] == run[i - 1].nextCall
    ensures step.parent.Some? ==> step.parent.value in run[i - 1].calls
    ensures !step.aborted && run[j].table[id].model == step.model
    ensures run[j].table[id].priority == QueuesAt(step.priority, LanesAround(run[i - 1], step))
  {
    hide QueueInv, DistinctTimes, WakeInv, NextStep;
    var c := run[i - 1].nextCall;
    SpawnSays(run[i - 1], run[i], step);
    CallKept(run, i, j, c);
    RowPriority(run, j, id);
    ReachableInv(run, j);
    assert CallInv(run[j], c);
    if step.aborted { AbortedNeverQueues(run, i, step, j); }
  }

  // -------------------------------------------------------------------- the job

  /** The call was about to withdraw: it was aborted or out of time while it waited. */
  ghost predicate GaveUp(run: seq<State>, i: nat, c: CallId)
    requires i < |run|
  {
    exists k: nat :: k <= i && c in run[k].calls && run[k].calls[c].pc.Withdrawing?
  }

  ghost predicate MissedIt(run: seq<State>, i: nat, c: CallId)
    requires i < |run| && c in run[i].calls
  {
    run[i].calls[c].slot.Some? && (run[i].calls[c].slot.value in run[i].swept || GaveUp(run, i, c))
  }

  ghost predicate JobInv(run: seq<State>, i: nat, c: CallId)
    requires i < |run| && c in run[i].calls
  {
    var call := run[i].calls[c];
    && (call.pc == Running ==> call.ran)
    && (call.pc == Unregister(Lost) || (call.pc in {Releasing, Done} && !call.ran) ==> MissedIt(run, i, c))
  }

  /** What one step of its own makes of a call's chance to run its job. */
  lemma OwnJobStep(s: State, s': State, step: Step)
    requires NextStep(s, s', step) && OwnStep(step) && step.c in s.calls && step.c in s'.calls && RowInv(s, step.c)
    requires s.calls[step.c].pc == Running ==> s.calls[step.c].ran
    ensures var a, b := s.calls[step.c], s'.calls[step.c];
            && (b.pc == Running ==> b.ran)
            && (b.pc == Unregister(Lost) ==>
                  b.slot == a.slot && b.slot.Some? && (b.slot.value in s.swept || a.pc.Withdrawing?))
            && (b.pc in {Releasing, Done} && !b.ran ==>
                  b.slot == a.slot && !a.ran && (a.pc == Unregister(Lost) || a.pc == Releasing))
  {
    hide Acquired, Released, CleanedUp, NewCall, Registered, Unregistered, Woken, Cancelled, IsActive;
  }

  lemma SweptGrows(s: State, s': State, step: Step)
    requires NextStep(s, s', step)
    ensures s.swept <= s'.swept
  {
    hide Acquired, Released, CleanedUp, NewCall, Registered, Unregistered, Woken, Cancelled, IsActive;
  }

  lemma JobStep(run: seq<State>, i: nat, step: Step, c: CallId)
    requires IsRun(run) && 0 < i < |run| && Inv(run[i - 1]) && NextStep(run[i - 1], run[i], step)
    requires c in run[i - 1].calls && JobInv(run, i - 1, c) && c in run[i].calls
    ensures JobInv(run, i, c)
  {
    hide QueueInv, DistinctTimes, RowInv, WakeInv, ChainInv, NextStep, IsRun;
    var s, s' := run[i - 1], run[i];
    assert CallInv(s, c);
    SweptGrows(s, s', step);
    assert GaveUp(run, i - 1, c) ==> GaveUp(run, i, c);
    if step.Spawn? {
      SpawnedLast(s, s', step);
    } else {
      OthersStay(s, s', step);
      if OwnStep(step) && step.c == c {
        OwnJobStep(s, s', step);
        assert s.calls[c].pc.Withdrawing? ==> GaveUp(run, i, c);
      }
    }
  }

  lemma NewJob(run: seq<State>, i: nat, step: Step)
    requires 0 < i < |run| && step.Spawn? && NextStep(run[i - 1], run[i], step)
    ensures run[i - 1].nextCall in run[i].calls && JobInv(run, i, run[i - 1].nextCall)
  {
    hide InnerHeld, LaneAfter;
  }

  lemma {:induction false} JobsReachable(run: seq<State>, i: nat)
    requires IsRun(run) && i < |run|
    ensures forall c | c in run[i].calls :: JobInv(run, i, c)
  {
    if i > 0 {
      JobsReachable(run, i - 1);
      var step := StepAt(run, i);
      forall c | c in run[i].calls ensures JobInv(run, i, c) {
        if c in run[i - 1].calls {
          JobStep(run, i, step, c);
        } else {
          if step.Spawn? {
            SpawnedLast(run[i - 1], run[i], step);
            NewJob(run, i, step);
          } else {
            OthersStay(run[i - 1], run[i], step);
          }
        }
      }
    }
  }

  /** A call that is through ran its job, unless it was aborted or out of time while it waited, or the sweep took its row. */
  lemma JobDone(run: seq<State>, i: nat, c: CallId)
    requires IsRun(run) && i < |run| && c in run[i].calls && run[i].calls[c].pc == Done
    ensures run[i].calls[c].slot.Some?
    ensures run[i].calls[c].ran || run[i].calls[c].slot.value in run[i].swept || GaveUp(run, i, c)
  {
    ReachableInv(run, i);
    JobsReachable(run, i);
    assert CallInv(run[i], c) && JobInv(run, i, c);
  }
}

/** Reentrance (ai-queue/slot-helper.ts, withAiSlot): a call that runs without queueing does so under a slot of a caller
    that holds it. */
module SlotHolders {
  import opened Common
  import opened SlotTable
  import opened Waiters
  import opened SlotProtocol
  import opened SlotGuarantees

  /** The token for `m` belongs to a caller up the chain that queued for `m` and got its slot. */
  ghost predicate TokenInv(s: State, c: CallId, m: Model)
    requires c in s.calls && m in s.calls[c].held
  {
    var h := s.calls[c].held[m];
    h in s.calls[c].above && h in s.calls && s.calls[h].model == m && s.calls[h].ran && s.calls[h].pc != Inside
  }

  ghost predicate HolderInv(s: State, c: CallId)
    requires c in s.calls
  {
    var call := s.calls[c];
    && (forall m | m in call.held :: TokenInv(s, c, m))
    && (call.ran ==> call.pc in {Inside, Running, Releasing, Done})
    && (call.pc == Inside ==> call.model in call.held)
  }

  /** What no step but the start of a call changes, and what stays once it is so. */
  ghost predicate GoesOn(a: Call, b: Call) {
    && a.model == b.model && a.held == b.held && a.above == b.above
    && (a.ran ==> b.ran) && (a.pc == Inside <==> b.pc == Inside)
    && (b.ran ==> b.pc in {Inside, Running, Releasing, Done})
  }

  /** A step that is some call's own. */
  predicate OwnStep(step: Step) {
    !step.Spawn? && !step.Sweep? && !step.Wake?
  }

  lemma OthersStay(s: State, s': State, step: Step)
    requires NextStep(s, s', step) && !step.Spawn?
    ensures OwnStep(step) ==> step.c in s.calls && step.c in s'.calls && s'.calls == s.calls[step.c := s'.calls[step.c]]
    ensures !OwnStep(step) ==> s'.calls == s.calls
  {
    hide Acquired, Released, CleanedUp, Swept, NewCall, Registered, Unregistered, Woken, Cancelled, IsActive;
  }

  lemma OwnGoesOn(s: State, s': State, step: Step)
    requires NextStep(s, s', step) && OwnStep(step) && step.c in s.calls && step.c in s'.calls
    requires s.calls[step.c].ran ==> s.calls[step.c].pc in {Inside, Running, Releasing, Done}
    ensures GoesOn(s.calls[step.c], s'.calls[step.c])
  {
    hide Acquired, Released, CleanedUp, Swept, NewCall, Registered, Unregistered, Woken, Cancelled, IsActive;
  }

  lemma CallsGoOn(s: State, s': State, step: Step)
    requires NextStep(s, s', step) && !step.Spawn?
    requires forall c | c in s.calls :: s.calls[c].ran ==> s.calls[c].pc in {Inside, Running, Releasing, Done}
    ensures s'.calls.Keys == s.calls.Keys && forall c | c in s.calls :: GoesOn(s.calls[c], s'.calls[c])
  {
    hide NextStep;
    OthersStay(s, s', step);
    if OwnStep(step) { OwnGoesOn(s, s', step); }
  }

  lemma HolderGoesOn(s: State, s': State, c: CallId)
    requires c in s.calls && HolderInv(s, c)
    requires s.calls.Keys <= s'.calls.Keys && forall d | d in s.calls :: GoesOn(s.calls[d], s'.calls[d])
    ensures HolderInv(s', c)
  {
    forall m | m in s'.calls[c].held ensures TokenInv(s', c, m) {
      assert TokenInv(s, c, m);
    }
  }

  /** What a new call inherits is its caller's own token and those its caller inherited. */
  lemma SpawnedHolder(s: State, s': State, step: Step)
    requires Inv(s) && step.Spawn? && NextStep(s, s', step)
    requires forall c | c in s.calls :: HolderInv(s, c)
    ensures HolderInv(s', s.nextCall)
  {
    hide QueueInv, DistinctTimes, RowInv, WakeInv, ChainInv;
    if step.parent.Some? {
      var p := step.parent.value;
      assert HolderInv(s, p) && CallInv(s, p);
      forall m | m in InnerHeld(s, p) ensures TokenInv(s', s.nextCall, m) {
        assert InnerHeld(s, p)[m] != p ==> TokenInv(s, p, m);
        assert s.nextCall in s.calls ==> CallInv(s, s.nextCall);
      }
    }
  }

  lemma HolderStep(s: State, s': State, step: Step)
    requires Inv(s) && NextStep(s, s', step) && forall c | c in s.calls :: HolderInv(s, c)
    ensures forall c | c in s'.calls :: HolderInv(s', c)
  {
    if step.Spawn? {
      SpawnedHolder(s, s', step);
      SpawnedLast(s, s', step);
    } else {
      CallsGoOn(s, s', step);
    }
    forall c | c in s'.calls ensures HolderInv(s', c) {
      if c in s.calls { HolderGoesOn(s, s', c); }
    }
  }

  lemma SpawnedLast(s: State, s': State, step: Step)
    requires Inv(s) && step.Spawn? && NextStep(s, s', step)
    ensures s.nextCall !in s.calls && s'.calls.Keys == s.calls.Keys + {s.nextCall}
    ensures forall c | c in s.calls :: s'.calls[c] == s.calls[c]
  {
    hide QueueInv, DistinctTimes, RowInv, WakeInv, ChainInv;
    assert s.nextCall in s.calls ==> CallInv(s, s.nextCall);
  }

  lemma {:induction false} HoldersReachable(run: seq<State>, i: nat)
    requires IsRun(run) && i < |run|
    ensures forall c | c in run[i].calls :: HolderInv(run[i], c)
  {
    if i > 0 {
      HoldersReachable(run, i - 1);
      var step := StepAt(run, i);
      HolderStep(run[i - 1], run[i], step);
    }
  }

  // ------------------------------------------------------------------ what follows

  /** The call runs its job as the owner of an active slot, unless the sweep took the row. */
  ghost predicate Owns(s: State, h: CallId, m: Model) {
    && h in s.calls && s.calls[h].model == m && s.calls[h].pc == Running && s.calls[h].slot.Some?
    && (IsActive(s.table, s.calls[h].slot.value) || s.calls[h].slot.value in s.swept)
  }

  /** A token in a context that was not released is that of a caller up the chain who owns the slot at this moment. */
  lemma HolderOwns(run: seq<State>, i: nat, c: CallId, m: Model)
    requires IsRun(run) && i < |run| && c in run[i].calls && m in run[i].calls[c].held
    ensures var h := run[i].calls[c].held[m];
            h in run[i].calls[c].above && (TokenReleased(run[i], h) || Owns(run[i], h, m))
  {
    var s := run[i];
    ReachableInv(run, i);
    HoldersReachable(run, i);
    var h := s.calls[c].held[m];
    assert HolderInv(s, c) && TokenInv(s, c, m) && HolderInv(s, h) && CallInv(s, h);
  }

  /** A call that runs without queueing has a caller up its chain that owns the slot or, once it did, let go of it. */
  lemma InsideUnderOwner(run: seq<State>, i: nat, c: CallId)
    requires IsRun(run) && i < |run| && c in run[i].calls && run[i].calls[c].pc == Inside
    ensures var m := run[i].calls[c].model;
            && m in run[i].calls[c].held && run[i].calls[c].held[m] in run[i].calls[c].above
            && (TokenReleased(run[i], run[i].calls[c].held[m]) || Owns(run[i], run[i].calls[c].held[m], m))
  {
    HoldersReachable(run, i);
    assert HolderInv(run[i], c);
    HolderOwns(run, i, c, run[i].calls[c].model);
  }

  lemma SpawnedPc(s: State, s': State, step: Step)
    requires step.Spawn? && !step.aborted && NextStep(s, s', step)
    ensures s.nextCall in s'.calls
    ensures var call := s'.calls[s.nextCall];
            && call.model == step.model
            && call.pc == if step.model in call.held && !TokenReleased(s, call.held[step.model]) then Inside else Asked
  {
    hide InnerHeld, LaneAfter;
  }

  /** An owner up the chain is found in the context. */
  lemma OwnerInContext(s: State, c: CallId, a: CallId, m: Model)
    requires c in s.calls && ChainInv(s, c) && a in s.calls[c].above && Owns(s, a, m)
    ensures m in s.calls[c].held && s.calls[c].held[m] == a && !TokenReleased(s, a)
  {
    assert InContext(s, s.calls[c].held, a);
  }

  lemma SameTokens(s: State, s': State, step: Step, h: CallId)
    requires Inv(s) && step.Spawn? && !step.aborted && NextStep(s, s', step)
    ensures TokenReleased(s', h) <==> TokenReleased(s, h)
  {
    hide NewCall, RowsInv, RowInv, WakeInv, ChainInv;
    SpawnedLast(s, s', step);
    SpawnedPc(s, s', step);
  }

  /** Whoever is let in without queueing: exactly those with an owner of the model up their chain. */
  lemma SkipsQueueIff(run: seq<State>, i: nat, step: Step)
    requires IsRun(run) && 0 < i < |run| && step.Spawn? && !step.aborted && NextStep(run[i - 1], run[i], step)
    ensures run[i - 1].nextCall in run[i].calls
    ensures var call := run[i].calls[run[i - 1].nextCall];
            && call.model == step.model
            && (call.pc == Inside || call.pc == Asked)
            && (call.pc == Inside <==> exists a :: a in call.above && Owns(run[i], a, step.model))
  {
    hide NextStep, RowsInv, RowInv, WakeInv, ChainInv, Owns, HolderInv, IsRun;
    var s, s', c := run[i - 1], run[i], run[i - 1].nextCall;
    ReachableInv(run, i - 1);
    ReachableInv(run, i);
    SpawnedPc(s, s', step);
    assert CallInv(s', c);
    var call := s'.calls[c];
    if call.pc == Inside {
      InsideUnderOwner(run, i, c);
      SameTokens(s, s', step, call.held[step.model]);
    }
    if a :| a in call.above && Owns(s', a, step.model) {
      OwnerInContext(s', c, a, step.model);
      SameTokens(s, s', step, a);
    }
  }

  /** The owner a call runs under: one whose token it inherited, who did not let go and whose row was not swept. */
  ghost predicate RunsUnder(s: State, c: CallId, h: CallId) {
    && c in s.calls && s.calls[c].pc == Inside && s.calls[c].model in s.calls[c].held
    && s.calls[c].held[s.calls[c].model] == h
    && h in s.calls && !TokenReleased(s, h) && s.calls[h].slot.Some? && s.calls[h].slot.value !in s.swept
  }

  /** All jobs of a model at one moment, owners and those running under them, are of one owner's chain. */
  lemma OneOwnerInside(run: seq<State>, i: nat, c: CallId, h: CallId, d: CallId)
    requires IsRun(run) && i < |run| && RunsUnder(run[i], c, h) && d in run[i].calls
    requires run[i].calls[d].model == run[i].calls[c].model
    ensures h in run[i].calls[c].above && Owns(run[i], h, run[i].calls[c].model)
    ensures run[i].calls[d].pc == Running && (run[i].calls[d].slot.Some? ==> run[i].calls[d].slot.value !in run[i].swept) ==>
              d == h
    ensures forall k :: RunsUnder(run[i], d, k) ==> k == h
  {
    var s, m := run[i], run[i].calls[c].model;
    HolderOwns(run, i, c, m);
    if s.calls[d].pc == Running && (s.calls[d].slot.Some? ==> s.calls[d].slot.value !in s.swept) {
      OneOwnerPerModel(run, i, d, h);
    }
    forall k | RunsUnder(s, d, k) ensures k == h {
      HolderOwns(run, i, d, m);
      OneOwnerPerModel(run, i, k, h);
    }
  }
}

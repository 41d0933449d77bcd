/** Everybody who uses a slot: `withAiSlot` and `waitForActiveSlot` (ai-queue/slot-helper.ts) over the
    endpoints (ai-queue/api.ts) and the wakeup registry (ai-queue/waiters.ts), as one transition system.
    Any number of calls interleave at every await; a promotion and the `wakeWaiter` that follows it are
    separate steps; the stale sweep may delete any set of active rows at any time. */
module SlotProtocol {
  import opened Common
  import opened SlotTable
  import opened Waiters

  type CallId = nat

  datatype Next = Again | Won | Lost

  /** Where one call of `withAiSlot` stands. */
  datatype Pc =
    | Refused                  // the signal was aborted on entry
    | Inside                   // runs under a slot held up the chain, without queueing
    | Asked                    // about to call acquireSlot
    | AtTop                    // top of the wait loop
    | Listening(w: Promise)    // registered, about to poll
    | SawWaiting(w: Promise)   // the poll said "waiting"
    | Blocked(w: Promise)      // awaits wakeup, timer or abort
    | Withdrawing(w: Promise)  // aborted or out of time, about to call cancelSlot
    | Unregister(next: Next)
    | Running                  // runs the job as the owner of its slot
    | Releasing                // token.released = true, about to call releaseSlot
    | Done

  datatype Call = Call(
    model: Model,
    asked: int,                 // the priority the caller named
    priority: int,              // after priority inheritance
    lane: Option<int>,          // SlotContext.priority
    lanes: seq<int>,            // history: every withAiPriority up the chain, the innermost last
    held: map<Model, CallId>,   // SlotContext.held: the token is the call that made it
    above: set<CallId>,         // the calls up the async chain
    slot: Option<SlotId>,
    ran: bool,
    pc: Pc)

  datatype State = State(
    table: Table,
    nextSlot: SlotId,
    now: nat,
    registry: Registry,
    wakes: multiset<SlotId>,    // promotions whose wakeWaiter call is still to come
    calls: map<CallId, Call>,
    nextCall: CallId,
    owner: map<SlotId, CallId>, // history: who asked for the slot
    swept: set<SlotId>)         // history: rows the stale sweep deleted

  datatype Step =
    // `lanes`: the withAiPriority calls between the caller's job and this call
    | Spawn(parent: Option<CallId>, model: Model, priority: int, lanes: seq<int>, aborted: bool)
    | Enqueue(c: CallId)
    | Listen(c: CallId)
    | Poll(c: CallId)
    | Withdraw(c: CallId)
    | Block(c: CallId)
    | Unblock(c: CallId)
    | CancelRow(c: CallId)
    | LeaveWait(c: CallId)
    | FinishJob(c: CallId)
    | Release(c: CallId)
    | Sweep(stale: set<SlotId>)
    | Wake(id: SlotId)

  ghost predicate Init(s: State) {
    s == State(map[], 0, 0, Registry(map[], {}, 0), multiset{}, map[], 0, map[], {})
  }

  predicate TokenReleased(s: State, c: CallId) {
    c in s.calls && s.calls[c].pc in {Releasing, Done}
  }

  // --------------------------------------------------------------------- steps

  function SetPc(s: State, c: CallId, pc: Pc): State
    requires c in s.calls
  {
    s.(calls := s.calls[c := s.calls[c].(pc := pc)])
  }

  /** The context `fn` runs in: the caller's own token on top of what it inherited. */
  function InnerHeld(s: State, p: CallId): map<Model, CallId>
    requires p in s.calls
  {
    if s.calls[p].pc == Inside then s.calls[p].held else s.calls[p].held[s.calls[p].model := p]
  }

  function Min(a: int, b: int): int { if a < b then a else b }

  /** withAiPriority: the new lane takes the place of the one around it. */
  function LaneAfter(lane: Option<int>, lanes: seq<int>): Option<int>
    decreases |lanes|
  {
    if lanes == [] then lane else LaneAfter(Some(lanes[0]), lanes[1..])
  }

  function NewCall(s: State, parent: Option<CallId>, model: Model, priority: int, lanes: seq<int>, aborted: bool): Call
    requires parent.Some? ==> parent.value in s.calls
  {
    var held := if parent.Some? then InnerHeld(s, parent.value) else map[];
    var above := if parent.Some? then s.calls[parent.value].above + {parent.value} else {};
    var lane := LaneAfter(if parent.Some? then s.calls[parent.value].lane else None, lanes);
    var chain := if parent.Some? then s.calls[parent.value].lanes + lanes else lanes;
    var pc :=
      if aborted then Refused
      else if model in held && !TokenReleased(s, held[model]) then Inside
      else Asked;
    var effective := if lane.Some? then Min(priority, lane.value) else priority;
    Call(model, priority, effective, lane, chain, held, above, None, pc == Inside, pc)
  }

  predicate At(s: State, c: CallId, pcs: set<Pc>) {
    c in s.calls && s.calls[c].pc in pcs
  }

  predicate Waits(s: State, c: CallId) {
    c in s.calls && s.calls[c].slot.Some?
  }

  ghost predicate NextStep(s: State, s': State, step: Step) {
    match step
    case Spawn(parent, model, priority, lanes, aborted) =>
      && (parent.Some? ==> parent.value in s.calls && s.calls[parent.value].ran)
      && s' == s.(calls := s.calls[s.nextCall := NewCall(s, parent, model, priority, lanes, aborted)],
                  nextCall := s.nextCall + 1)
    case Enqueue(c) =>
      && At(s, c, {Asked})
      && var call := s.calls[c];
      var table := Acquired(s.table, s.nextSlot, call.model, call.priority, s.now);
      var won := IsActive(table, s.nextSlot);
      s' == s.(table := table, nextSlot := s.nextSlot + 1, now := s.now + 1, owner := s.owner[s.nextSlot := c],
               calls := s.calls[c := call.(slot := Some(s.nextSlot), ran := won, pc := if won then Running else AtTop)])
    case Listen(c) =>
      && At(s, c, {AtTop}) && Waits(s, c)
      && s' == SetPc(s, c, Listening(s.registry.issued)).(registry := Registered(s.registry, s.calls[c].slot.value))
    case Poll(c) =>
      && c in s.calls && s.calls[c].pc.Listening? && Waits(s, c)
      && var id := s.calls[c].slot.value;
      s' == SetPc(s, c,
                  if id !in s.table then Unregister(Lost)
                  else if IsActive(s.table, id) then Unregister(Won)
                  else SawWaiting(s.calls[c].pc.w))
    case Withdraw(c) =>
      && c in s.calls && s.calls[c].pc.SawWaiting?
      && s' == SetPc(s, c, Withdrawing(s.calls[c].pc.w))
    case Block(c) =>
      && c in s.calls && s.calls[c].pc.SawWaiting?
      && s' == SetPc(s, c, Blocked(s.calls[c].pc.w))
    case Unblock(c) =>  // the wakeup, the timer or the abort won the race
      && c in s.calls && s.calls[c].pc.Blocked?
      && s' == SetPc(s, c, Unregister(Again))
    case CancelRow(c) =>
      && c in s.calls && s.calls[c].pc.Withdrawing? && Waits(s, c)
      && s' == SetPc(s, c, Unregister(Lost)).(table := Cancelled(s.table, s.calls[c].slot.value))
    case LeaveWait(c) =>
      && c in s.calls && s.calls[c].pc.Unregister? && Waits(s, c)
      && var call := s.calls[c];
      s' == s.(registry := Unregistered(s.registry, call.slot.value),
               calls := s.calls[c := match call.pc.next
                                     case Again => call.(pc := AtTop)
                                     case Won => call.(pc := Running, ran := true)
                                     case Lost => call.(pc := Releasing)])
    case FinishJob(c) =>  // with a result or an exception
      && At(s, c, {Running})
      && s' == SetPc(s, c, Releasing)
    case Release(c) =>
      && At(s, c, {Releasing}) && Waits(s, c)
      && exists table, who ::
           && Released(s.table, s.calls[c].slot.value, table, who)
           && s' == SetPc(s, c, Done).(table := table, wakes := s.wakes + multiset(who))
    case Sweep(stale) =>
      exists table, who ::
        && CleanedUp(s.table, stale, table, who)
        && s' == s.(table := table, wakes := s.wakes + multiset(who), swept := s.swept + Swept(s.table, stale))
    case Wake(id) =>
      && id in s.wakes
      && s' == s.(wakes := s.wakes - multiset{id}, registry := Woken(s.registry, id))
  }

  ghost predicate Steps(s: State, s': State) {
    exists step :: NextStep(s, s', step)
  }

  /** A run: any number of steps from the empty queue. */
  ghost predicate IsRun(run: seq<State>) {
    && |run| > 0 && Init(run[0])
    && forall i | 0 < i < |run| :: Steps(run[i - 1], run[i])
  }

  // ----------------------------------------------------------------- invariant

  predicate MayStillWait(pc: Pc) {
    pc.AtTop? || pc.Listening? || pc.SawWaiting? || pc.Blocked? || pc.Withdrawing? || pc == Unregister(Again)
  }

  /** How a call and its row fit together. */
  ghost predicate RowInv(s: State, c: CallId)
    requires c in s.calls
  {
    var call := s.calls[c];
    if call.slot.None? then call.pc in {Refused, Inside, Asked} else
    var id := call.slot.value;
    && call.pc !in {Refused, Inside, Asked}
    && id in s.owner && s.owner[id] == c && id < s.nextSlot
    && (id in s.table ==> s.table[id].model == call.model && s.table[id].priority == call.priority)
    && (call.pc == Done ==> id !in s.table)
    && (!MayStillWait(call.pc) ==> !IsWaiting(s.table, id))
    && (MayStillWait(call.pc) || call.pc in {Unregister(Won), Running} ==> id in s.table || id in s.swept)
  }

  /** How a call and its wakeup fit together. */
  ghost predicate WakeInv(s: State, c: CallId)
    requires c in s.calls
  {
    var call := s.calls[c];
    call.slot.Some? ==>
      var id := call.slot.value;
      && (call.pc.Listening? || call.pc.SawWaiting? || call.pc.Blocked? || call.pc.Withdrawing? ==>
            call.pc.w in s.registry.resolved || (id in s.registry.waiting && s.registry.waiting[id] == call.pc.w))
      && (call.pc.SawWaiting? || call.pc.Blocked? ==>
            IsWaiting(s.table, id) || call.pc.w in s.registry.resolved || id in s.wakes)
      && (call.pc in {AtTop, Running, Releasing, Done} ==> id !in s.registry.waiting)
  }

  /** How a call and the calls up its chain fit together. */
  ghost predicate ChainInv(s: State, c: CallId)
    requires c in s.calls
  {
    var call := s.calls[c];
    && (forall m | m in call.held :: call.held[m] in s.calls && s.calls[call.held[m]].model == m)
    && (call.slot.Some? || call.pc == Asked ==> call.model in call.held ==> TokenReleased(s, call.held[call.model]))
    && (call.ran ==> call.pc !in {Refused, Asked})
    && forall a | a in call.above :: InContext(s, call.held, a)
  }

  /** A slot taken up the chain and not yet let go of is found in the context. */
  ghost predicate InContext(s: State, held: map<Model, CallId>, a: CallId) {
    && a in s.calls && s.calls[a].ran
    && (s.calls[a].pc == Inside || TokenReleased(s, a) ||
        (s.calls[a].model in held && held[s.calls[a].model] == a))
  }

  /** The table, and whose rows are in it. */
  ghost predicate RowsInv(s: State) {
    && QueueInv(s.table) && DistinctTimes(s.table)
    && (forall id | id in s.table ::
          && id < s.nextSlot && s.table[id].enqueuedAt < s.now
          && id in s.owner && s.owner[id] in s.calls && s.calls[s.owner[id]].slot == Some(id))
    && (forall id | id in s.registry.waiting :: id < s.nextSlot)
  }

  ghost predicate CallInv(s: State, c: CallId)
    requires c in s.calls
  {
    c < s.nextCall && RowInv(s, c) && WakeInv(s, c) && ChainInv(s, c)
  }

  ghost predicate Inv(s: State) {
    RowsInv(s) && forall c | c in s.calls :: CallInv(s, c)
  }

  // --------------------------------------------------------- what others notice

  /** What a step may do to a row of somebody else's: promote it, with a wakeup owed, or sweep it. */
  ghost predicate RowStep(s: State, s': State, id: SlotId) {
    && (id in s'.table ==>
          && id in s.table
          && (s'.table[id] == s.table[id] ||
              (IsWaiting(s.table, id) && s'.table[id] == s.table[id].(status := Active) && id in s'.wakes)))
    && (id in s.table && id !in s'.table ==> id in s'.swept && IsActive(s.table, id))
  }

  ghost predicate Grows(s: State, s': State) {
    && s.calls.Keys <= s'.calls.Keys
    && (forall e | e in s.calls ::
          && s'.calls[e].model == s.calls[e].model
          && (TokenReleased(s, e) ==> TokenReleased(s', e))
          && (s.calls[e].ran ==> s'.calls[e].ran)
          && (s.calls[e].pc == Inside ==> s'.calls[e].pc == Inside))
    && s.nextSlot <= s'.nextSlot && s.swept <= s'.swept && s.registry.resolved <= s'.registry.resolved
  }

  ghost predicate FrameFor(s: State, s': State, d: CallId)
    requires d in s.calls
  {
    && d in s'.calls && s'.calls[d] == s.calls[d]
    && (s.calls[d].slot.Some? ==>
          var id := s.calls[d].slot.value;
          && id in s.owner && id in s'.owner && s'.owner[id] == s.owner[id]
          && RowStep(s, s', id)
          && s.wakes[id] <= s'.wakes[id]
          && (id in s'.registry.waiting <==> id in s.registry.waiting)
          && (id in s.registry.waiting ==> s'.registry.waiting[id] == s.registry.waiting[id]))
  }

  lemma KeepOther(s: State, s': State, d: CallId)
    requires d in s.calls && RowInv(s, d) && WakeInv(s, d) && ChainInv(s, d)
    requires Grows(s, s') && FrameFor(s, s', d)
    ensures RowInv(s', d) && WakeInv(s', d) && ChainInv(s', d)
  {
  }

  // ------------------------------------------------------------------ each step

  lemma SpawnKeeps(s: State, s': State, step: Step)
    requires Inv(s) && step.Spawn? && NextStep(s, s', step)
    ensures Inv(s')
  {
    hide QueueInv, DistinctTimes, ChainInv;
    SpawnedChain(s, s', step);
    forall d | d in s.calls ensures CallInv(s', d) {
      SpawnedOther(s, s', step, d);
    }
  }

  lemma SpawnedOther(s: State, s': State, step: Step, d: CallId)
    requires Inv(s) && step.Spawn? && NextStep(s, s', step) && d in s.calls
    ensures d in s'.calls && s'.calls[d] == s.calls[d] && RowInv(s', d) && WakeInv(s', d) && ChainInv(s', d)
  {
    hide QueueInv, DistinctTimes, WakeInv, ChainInv;
    assert CallInv(s, d) && d != s.nextCall;
    KeepOther(s, s', d);
  }

  /** What the new call inherits holds of every call above it. */
  lemma SpawnedContext(s: State, p: CallId, a: CallId)
    requires Inv(s) && p in s.calls && s.calls[p].ran && a in s.calls[p].above + {p}
    ensures InContext(s, InnerHeld(s, p), a)
  {
    hide QueueInv, DistinctTimes, WakeInv;
    assert CallInv(s, p);
    if a != p {
      assert InContext(s, s.calls[p].held, a);
    }
  }

  lemma SpawnedChain(s: State, s': State, step: Step)
    requires Inv(s) && step.Spawn? && NextStep(s, s', step)
    ensures ChainInv(s', s.nextCall)
  {
    hide QueueInv, DistinctTimes, WakeInv, RowInv, InnerHeld;
    if step.parent.Some? {
      var p := step.parent.value;
      SpawnedHeld(s, p);
      forall a | a in s.calls[p].above + {p} ensures InContext(s', InnerHeld(s, p), a) {
        SpawnedContext(s, p, a);
        assert a != s.nextCall;
      }
    }
  }

  lemma SpawnedHeld(s: State, p: CallId)
    requires Inv(s) && p in s.calls
    ensures s.nextCall !in s.calls
    ensures forall m | m in InnerHeld(s, p) :: InnerHeld(s, p)[m] in s.calls && s.calls[InnerHeld(s, p)[m]].model == m
  {
    hide QueueInv, DistinctTimes, WakeInv, RowInv;
    assert CallInv(s, p);
    assert s.nextCall in s.calls ==> CallInv(s, s.nextCall);
  }

  /** A change of call `c` and its own row that leaves everybody else alone, save for promotions. */
  ghost predicate Local(s: State, s': State, c: CallId)
    requires c in s.calls && s.calls[c].slot.Some?
  {
    var mine := s.calls[c].slot.value;
    && c in s'.calls && s'.calls == s.calls[c := s'.calls[c]]
    && s'.calls[c] == s.calls[c].(pc := s'.calls[c].pc, ran := s'.calls[c].ran)
    && (s.calls[c].ran ==> s'.calls[c].ran)
    && s.calls[c].pc != Done && (s.calls[c].pc == Releasing ==> s'.calls[c].pc == Done)
    && s'.nextCall == s.nextCall && s'.nextSlot == s.nextSlot && s'.owner == s.owner && s'.now == s.now
    && s.swept == s'.swept && s.registry.resolved == s'.registry.resolved && s.wakes <= s'.wakes
    && s'.registry.waiting - {mine} == s.registry.waiting - {mine}
    && (forall id | id != mine :: RowStep(s, s', id))
    && (mine in s'.table ==> mine in s.table && s'.table[mine] == s.table[mine])
  }

  lemma LocalOther(s: State, s': State, c: CallId, d: CallId)
    requires Inv(s) && c in s.calls && s.calls[c].slot.Some? && Local(s, s', c) && RowInv(s', c)
    requires d in s.calls && d != c
    ensures CallInv(s', d)
  {
    hide QueueInv, DistinctTimes, WakeInv, ChainInv;
    var mine := s.calls[c].slot.value;
    assert CallInv(s, d) && CallInv(s, c);
    if s.calls[d].slot.Some? {
      var id := s.calls[d].slot.value;
      assert id != mine;
      assert id in s.registry.waiting <==> id in s.registry.waiting - {mine};
      assert id in s'.registry.waiting <==> id in s'.registry.waiting - {mine};
      assert id in s'.registry.waiting ==> (s'.registry.waiting - {mine})[id] == s'.registry.waiting[id];
      assert id in s.registry.waiting ==> (s.registry.waiting - {mine})[id] == s.registry.waiting[id];
    }
    KeepOther(s, s', d);
  }

  lemma LocalChain(s: State, s': State, c: CallId)
    requires Inv(s) && c in s.calls && s.calls[c].slot.Some? && Local(s, s', c) && RowInv(s', c)
    ensures RowInv(s, c) && ChainInv(s', c)
  {
    hide QueueInv, DistinctTimes, WakeInv;
    assert CallInv(s, c);
    forall a | a in s.calls[c].above ensures InContext(s', s.calls[c].held, a) {
      assert InContext(s, s.calls[c].held, a);
    }
  }

  lemma LocalKeeps(s: State, s': State, c: CallId)
    requires Inv(s) && c in s.calls && s.calls[c].slot.Some? && Local(s, s', c)
    requires QueueInv(s'.table) && DistinctTimes(s'.table) && RowInv(s', c) && WakeInv(s', c)
    ensures Inv(s')
  {
    hide QueueInv, DistinctTimes, WakeInv, ChainInv;
    var mine := s.calls[c].slot.value;
    LocalChain(s, s', c);
    forall d | d in s.calls && d != c ensures CallInv(s', d) {
      LocalOther(s, s', c, d);
    }
    forall id | id in s'.registry.waiting ensures id < s'.nextSlot {
      if id != mine { assert id in s'.registry.waiting - {mine}; }
    }
    forall id | id in s'.table
      ensures id in s.table && s'.table[id].enqueuedAt == s.table[id].enqueuedAt
    {
      assert id != mine ==> RowStep(s, s', id);
    }
  }

  lemma WaitingStepsLocal(s: State, s': State, c: CallId, step: Step)
    requires c in s.calls && RowInv(s, c) && WakeInv(s, c) && NextStep(s, s', step)
    requires step in {Listen(c), Poll(c), Withdraw(c), Block(c), Unblock(c)}
    ensures s.calls[c].slot.Some? && Local(s, s', c) && s'.table == s.table
    ensures RowInv(s', c) && WakeInv(s', c)
  {
  }

  lemma LeavingStepsLocal(s: State, s': State, c: CallId, step: Step)
    requires c in s.calls && RowInv(s, c) && WakeInv(s, c) && NextStep(s, s', step)
    requires step in {CancelRow(c), LeaveWait(c), FinishJob(c)}
    ensures s.calls[c].slot.Some? && Local(s, s', c)
    ensures s'.table == s.table || s'.table == Cancelled(s.table, s.calls[c].slot.value)
    ensures RowInv(s', c) && WakeInv(s', c)
  {
  }

  lemma LocalStepKeeps(s: State, s': State, c: CallId, step: Step)
    requires Inv(s) && c in s.calls && NextStep(s, s', step)
    requires step in {Listen(c), Poll(c), Withdraw(c), Block(c), Unblock(c), CancelRow(c), LeaveWait(c), FinishJob(c)}
    ensures Inv(s')
  {
    if step in {CancelRow(c), LeaveWait(c), FinishJob(c)} {
      LeavingStepsLocal(s, s', c, step);
      CancelKeepsQueue(s.table, s.calls[c].slot.value);
    } else {
      WaitingStepsLocal(s, s', c, step);
    }
    LocalKeeps(s, s', c);
  }

  lemma ReleaseLocal(s: State, s': State, c: CallId)
    requires c in s.calls && RowInv(s, c) && WakeInv(s, c) && NextStep(s, s', Release(c))
    requires QueueInv(s.table) && DistinctTimes(s.table)
    ensures s.calls[c].slot.Some? && Local(s, s', c) && RowInv(s', c) && WakeInv(s', c)
    ensures QueueInv(s'.table) && DistinctTimes(s'.table)
  {
    var mine := s.calls[c].slot.value;
    var table, who :| && Released(s.table, mine, table, who)
                      && s' == SetPc(s, c, Done).(table := table, wakes := s.wakes + multiset(who));
    // the row is not waiting: the protocol cancelled it first or saw it active
    ReleaseActive(s.table, mine, table, who);
    forall id: SlotId ensures if id == mine then id !in table else RowStep(s, s', id) {
      if mine in s.table { PromotedAt(s.table - {mine}, s.table[mine].model, table, who, id); }
    }
  }

  lemma SweepLocal(s: State, s': State, stale: set<SlotId>)
    requires NextStep(s, s', Sweep(stale))
    requires QueueInv(s.table) && DistinctTimes(s.table)
    ensures forall id: SlotId :: RowStep(s, s', id)
    ensures QueueInv(s'.table) && DistinctTimes(s'.table) && Grows(s, s') && s.wakes <= s'.wakes
    ensures s' == s.(table := s'.table, wakes := s'.wakes, swept := s'.swept)
  {
    var table, who :|
      && CleanedUp(s.table, stale, table, who)
      && s' == s.(table := table, wakes := s.wakes + multiset(who), swept := s.swept + Swept(s.table, stale));
    CleanupKeepsQueue(s.table, stale, table, who);
    forall id: SlotId ensures RowStep(s, s', id) {
      CleanupRow(s.table, stale, table, who, id);
    }
  }

  lemma SweepKeeps(s: State, s': State, stale: set<SlotId>)
    requires Inv(s) && NextStep(s, s', Sweep(stale))
    ensures Inv(s')
  {
    hide QueueInv, DistinctTimes, WakeInv, ChainInv;
    SweepLocal(s, s', stale);
    forall d | d in s.calls ensures CallInv(s', d) {
      assert CallInv(s, d);
      KeepOther(s, s', d);
    }
    forall id | id in s'.table ensures id in s.table && s'.table[id].enqueuedAt == s.table[id].enqueuedAt {
      assert RowStep(s, s', id);
    }
  }

  lemma WakeKeeps(s: State, s': State, step: Step)
    requires Inv(s) && step.Wake? && NextStep(s, s', step)
    ensures Inv(s')
  {
    hide QueueInv, DistinctTimes, RowInv, WakeInv, ChainInv;
    forall d | d in s.calls ensures CallInv(s', d) {
      assert CallInv(s, d);
      WakeOther(s, s', step, d);
    }
  }

  lemma WakeOther(s: State, s': State, step: Step, d: CallId)
    requires d in s.calls && RowInv(s, d) && WakeInv(s, d) && ChainInv(s, d) && step.Wake? && NextStep(s, s', step)
    ensures RowInv(s', d) && WakeInv(s', d) && ChainInv(s', d)
  {
  }

  lemma EnqueueKeeps(s: State, s': State, c: CallId)
    requires Inv(s) && NextStep(s, s', Enqueue(c))
    ensures Inv(s')
  {
    EnqueuedRows(s, s', c);
    forall d | d in s.calls ensures CallInv(s', d) {
      if d == c { EnqueuedCall(s, s', c); } else { EnqueuedOther(s, s', c, d); }
    }
  }

  lemma EnqueuedRows(s: State, s': State, c: CallId)
    requires Inv(s) && NextStep(s, s', Enqueue(c))
    ensures RowsInv(s')
  {
    hide CallInv, IsActive;
    AcquireKeepsQueue(s.table, s.nextSlot, s.calls[c].model, s.calls[c].priority, s.now);
    forall id | id in s'.table
      ensures id < s'.nextSlot && s'.table[id].enqueuedAt < s'.now
      ensures id in s'.owner && s'.owner[id] in s'.calls && s'.calls[s'.owner[id]].slot == Some(id)
    {
      EnqueuedRow(s, s', c, id);
    }
  }

  lemma EnqueuedRow(s: State, s': State, c: CallId, id: SlotId)
    requires Inv(s) && NextStep(s, s', Enqueue(c)) && id in s'.table
    ensures id < s'.nextSlot && s'.table[id].enqueuedAt < s'.now
    ensures id in s'.owner && s'.owner[id] in s'.calls && s'.calls[s'.owner[id]].slot == Some(id)
  {
    hide QueueInv, DistinctTimes, WakeInv, ChainInv;
    assert CallInv(s, c);
  }

  lemma EnqueuedOther(s: State, s': State, c: CallId, d: CallId)
    requires Inv(s) && NextStep(s, s', Enqueue(c)) && d in s.calls && d != c
    ensures CallInv(s', d)
  {
    hide QueueInv, DistinctTimes, RowInv, WakeInv, ChainInv, Grows, FrameFor;
    assert CallInv(s, d);
    EnqueuedGrows(s, s', c);
    EnqueuedFrame(s, s', c, d);
    KeepOther(s, s', d);
  }

  lemma EnqueuedGrows(s: State, s': State, c: CallId)
    requires Inv(s) && NextStep(s, s', Enqueue(c))
    ensures Grows(s, s') && s'.nextCall == s.nextCall
  {
    hide QueueInv, DistinctTimes, WakeInv, Acquired, Before;
    assert CallInv(s, c);
  }

  lemma EnqueuedFrame(s: State, s': State, c: CallId, d: CallId)
    requires Inv(s) && NextStep(s, s', Enqueue(c)) && d in s.calls && d != c
    ensures FrameFor(s, s', d)
  {
    hide QueueInv, DistinctTimes, WakeInv, ChainInv;
    assert CallInv(s, d);
  }

  lemma EnqueuedCall(s: State, s': State, c: CallId)
    requires Inv(s) && NextStep(s, s', Enqueue(c))
    ensures CallInv(s', c)
  {
    assert CallInv(s, c);
    forall a | a in s.calls[c].above ensures InContext(s', s.calls[c].held, a) {
      assert InContext(s, s.calls[c].held, a);
    }
  }

  lemma StepKeeps(s: State, s': State, step: Step)
    requires Inv(s) && NextStep(s, s', step)
    ensures Inv(s')
  {
    hide QueueInv, DistinctTimes, RowInv, WakeInv, ChainInv, Local;
    match step {
      case Spawn(_, _, _, _, _) => SpawnKeeps(s, s', step);
      case Enqueue(c) => EnqueueKeeps(s, s', c);
      case Release(c) => ReleaseLocal(s, s', c); LocalKeeps(s, s', c);
      case Sweep(stale) => SweepKeeps(s, s', stale);
      case Wake(_) => WakeKeeps(s, s', step);
      case _ => LocalStepKeeps(s, s', step.c, step);
    }
  }

  lemma InitKeeps(s: State)
    requires Init(s)
    ensures Inv(s)
  {
  }

  lemma {:induction false} ReachableInv(run: seq<State>, i: nat)
    requires IsRun(run) && i < |run|
    ensures Inv(run[i])
  {
    if i == 0 {
      InitKeeps(run[0]);
    } else {
      ReachableInv(run, i - 1);
      assert Steps(run[i - 1], run[i]);
      var step :| NextStep(run[i - 1], run[i], step);
      StepKeeps(run[i - 1], run[i], step);
    }
  }

  /** The step of a run that leads to state `j`. */
  lemma StepAt(run: seq<State>, j: nat) returns (step: Step)
    requires IsRun(run) && 0 < j < |run|
    ensures Inv(run[j - 1]) && NextStep(run[j - 1], run[j], step)
  {
    ReachableInv(run, j - 1);
    assert Steps(run[j - 1], run[j]);
    step :| NextStep(run[j - 1], run[j], step);
  }
}

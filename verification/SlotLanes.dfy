/** Priority lanes (ai-queue/slot-helper.ts, withAiPriority): what a lane around a chain of calls is worth. The
    innermost lane takes the place of those around it, so an outer lane is kept exactly when no looser one was
    opened inside it. */
module SlotLanes {
  import opened Common
  import opened SlotTable
  import opened Waiters
  import opened SlotProtocol

  /** The priority a request queues at inside the lanes of its chain. */
  function QueuesAt(asked: int, lanes: seq<int>): int {
    if lanes == [] then asked else Min(asked, lanes[|lanes| - 1])
  }

  function Innermost(lanes: seq<int>): Option<int> {
    if lanes == [] then None else Some(lanes[|lanes| - 1])
  }

  /** What a call keeps for good. */
  predicate SameCall(a: Call, b: Call) {
    && a.asked == b.asked && a.priority == b.priority && a.lane == b.lane && a.lanes == b.lanes && a.above == b.above
  }

  /** The context knows the innermost lane, and no lane of a caller is ever forgotten on the way down. */
  ghost predicate LaneInv(s: State, c: CallId)
    requires c in s.calls
  {
    var call := s.calls[c];
    && call.lane == Innermost(call.lanes)
    && call.priority == QueuesAt(call.asked, call.lanes)
    && forall a | a in call.above :: a in s.calls && s.calls[a].lanes <= call.lanes
  }

  lemma {:induction false} LaneAfterIs(lane: Option<int>, lanes: seq<int>)
    ensures LaneAfter(lane, lanes) == if lanes == [] then lane else Innermost(lanes)
    decreases |lanes|
  {
    if lanes != [] {
      LaneAfterIs(Some(lanes[0]), lanes[1..]);
    }
  }

  lemma SpawnedLane(s: State, s': State, step: Step)
    requires step.Spawn? && NextStep(s, s', step) && s.nextCall !in s.calls
    requires forall c | c in s.calls :: LaneInv(s, c)
    ensures LaneInv(s', s.nextCall)
  {
    LaneAfterIs(if step.parent.Some? then s.calls[step.parent.value].lane else None, step.lanes);
    if step.parent.Some? {
      var p := step.parent.value;
      assert LaneInv(s, p);
      assert s.calls[p].lanes + step.lanes == s'.calls[s.nextCall].lanes;
    }
  }

  /** No step but the start of a call touches what lanes depend on. */
  lemma CallsStay(s: State, s': State, step: Step)
    requires NextStep(s, s', step) && !step.Spawn?
    ensures s'.calls.Keys == s.calls.Keys && forall c | c in s.calls :: SameCall(s.calls[c], s'.calls[c])
  {
    hide Acquired, Released, CleanedUp, Swept, NewCall, Registered, Unregistered, Woken, Cancelled, IsActive;
    if !step.Sweep? && !step.Wake? {
      var c := step.c;
      assert c in s.calls && c in s'.calls && SameCall(s.calls[c], s'.calls[c]);
      assert s'.calls == s.calls[c := s'.calls[c]];
    }
  }

  lemma LaneStep(s: State, s': State, step: Step)
    requires Inv(s) && NextStep(s, s', step) && forall c | c in s.calls :: LaneInv(s, c)
    ensures forall c | c in s'.calls :: LaneInv(s', c)
  {
    assert forall c | c in s.calls :: CallInv(s, c);
    if step.Spawn? {
      SpawnedLane(s, s', step);
      forall c | c in s.calls ensures LaneInv(s', c) { assert LaneInv(s, c); }
    } else {
      CallsStay(s, s', step);
      forall c | c in s'.calls ensures LaneInv(s', c) { assert LaneInv(s, c); }
    }
  }

  lemma {:induction false} LanesReachable(run: seq<State>, i: nat)
    requires IsRun(run) && i < |run|
    ensures forall c | c in run[i].calls :: LaneInv(run[i], c)
  {
    if i > 0 {
      LanesReachable(run, i - 1);
      var step := StepAt(run, i);
      LaneStep(run[i - 1], run[i], step);
    }
  }

  /** In every reachable state a row queues at the priority its caller named, or at the innermost lane if better. */
  lemma RowPriority(run: seq<State>, i: nat, id: SlotId)
    requires IsRun(run) && i < |run| && id in run[i].table
    ensures id in run[i].owner && run[i].owner[id] in run[i].calls
    ensures var call := run[i].calls[run[i].owner[id]];
            run[i].table[id].priority == QueuesAt(call.asked, call.lanes) && call.lane == Innermost(call.lanes)
  {
    ReachableInv(run, i);
    LanesReachable(run, i);
    assert CallInv(run[i], run[i].owner[id]) && LaneInv(run[i], run[i].owner[id]);
  }

  /** Whatever is asked for inside lanes queues at lane `k` or better if and only if the innermost lane does. */
  lemma EveryRequestIff(lanes: seq<int>, k: nat)
    requires k < |lanes|
    ensures (forall asked :: QueuesAt(asked, lanes) <= lanes[k]) <==> lanes[|lanes| - 1] <= lanes[k]
  {
    assert QueuesAt(lanes[|lanes| - 1], lanes) == lanes[|lanes| - 1];
  }

  /** A row queues at the lane of a caller `a` up its chain, or better, if and only if it asked for that much or the
      lane it runs in is no looser. The lane of a caller is never lost: something of it or inside it is in force. */
  lemma LaneKeptIff(run: seq<State>, i: nat, id: SlotId, a: CallId)
    requires IsRun(run) && i < |run| && id in run[i].table
    ensures id in run[i].owner && run[i].owner[id] in run[i].calls
    ensures var call := run[i].calls[run[i].owner[id]];
            a in call.above && a in run[i].calls && run[i].calls[a].lane.Some? ==>
              && call.lane.Some?
              && (run[i].table[id].priority <= run[i].calls[a].lane.value
                  <==> call.asked <= run[i].calls[a].lane.value || call.lane.value <= run[i].calls[a].lane.value)
  {
    RowPriority(run, i, id);
    LanesReachable(run, i);
    assert LaneInv(run[i], run[i].owner[id]);
    if a in run[i].calls { assert LaneInv(run[i], a); }
  }

  /** Enough for a caller to keep its lane: no looser lane is opened below it. With no lane opened below it at all,
      this is the innermost lane. */
  lemma LaneHolds(run: seq<State>, i: nat, id: SlotId, k: nat)
    requires IsRun(run) && i < |run| && id in run[i].table
    ensures id in run[i].owner && run[i].owner[id] in run[i].calls
    ensures var call := run[i].calls[run[i].owner[id]];
            k < |call.lanes| && (forall j: nat | k < j < |call.lanes| :: call.lanes[j] <= call.lanes[k]) ==>
              run[i].table[id].priority <= call.lanes[k]
  {
    RowPriority(run, i, id);
  }

  // -------------------------------------------------------------- a looser lane inside

  function Spawned(s: State, parent: Option<CallId>, model: Model, priority: int, lanes: seq<int>): State
    requires parent.Some? ==> parent.value in s.calls
  {
    s.(calls := s.calls[s.nextCall := NewCall(s, parent, model, priority, lanes, false)], nextCall := s.nextCall + 1)
  }

  lemma SpawnedStep(s: State, parent: Option<CallId>, model: Model, priority: int, lanes: seq<int>)
    requires parent.Some? ==> parent.value in s.calls && s.calls[parent.value].ran
    ensures Steps(s, Spawned(s, parent, model, priority, lanes))
  {
    assert NextStep(s, Spawned(s, parent, model, priority, lanes), Spawn(parent, model, priority, lanes, false));
  }

  /** The call gets its slot at once. */
  function Entered(s: State, c: CallId): State
    requires c in s.calls
  {
    var call := s.calls[c];
    s.(table := Acquired(s.table, s.nextSlot, call.model, call.priority, s.now), nextSlot := s.nextSlot + 1,
       now := s.now + 1, owner := s.owner[s.nextSlot := c],
       calls := s.calls[c := call.(slot := Some(s.nextSlot), ran := true, pc := Running)])
  }

  lemma EnteredStep(s: State, c: CallId)
    requires At(s, c, {Asked}) && !HasActive(s.table, s.calls[c].model) && s.nextSlot !in s.table
    ensures Steps(s, Entered(s, c))
    ensures s.nextSlot in Entered(s, c).table
    ensures Entered(s, c).table[s.nextSlot] == Row(s.calls[c].model, s.calls[c].priority, s.now, Active)
  {
    assert IsActive(Acquired(s.table, s.nextSlot, s.calls[c].model, s.calls[c].priority, s.now), s.nextSlot);
    assert NextStep(s, Entered(s, c), Enqueue(c));
  }

  lemma OneLane(lane: Option<int>, l: int)
    ensures LaneAfter(lane, [l]) == Some(l)
  {
    assert [l][1..] == [];
  }

  const NOTHING := State(map[], 0, 0, Registry(map[], {}, 0), multiset{}, map[], 0, map[], {})

  /** A job under the embedding slot, in a lane of 0. */
  lemma OuterJob() returns (s1: State, s2: State)
    ensures Init(NOTHING) && Steps(NOTHING, s1) && Steps(s1, s2)
    ensures s2.table.Keys == {0} && s2.table[0].model == Embedding && s2.nextSlot == 1 && s2.nextCall == 1
    ensures s2.calls.Keys == {0} && s2.calls[0].ran && s2.calls[0].pc == Running && s2.calls[0].model == Embedding
    ensures s2.calls[0].lane == Some(0) && s2.calls[0].held == map[] && s2.calls[0].above == {}
  {
    OneLane(None, 0);
    s1 := Spawned(NOTHING, None, Embedding, 2, [0]);
    SpawnedStep(NOTHING, None, Embedding, 2, [0]);
    EnteredStep(s1, 0);
    s2 := Entered(s1, 0);
  }

  /** Inside it a lane of 5, and in that a request for the llm slot at priority 2. */
  lemma InnerRequest(s2: State) returns (s3: State, s4: State)
    requires s2.table.Keys == {0} && s2.table[0].model == Embedding && s2.nextSlot == 1 && s2.nextCall == 1
    requires s2.calls.Keys == {0} && s2.calls[0].ran && s2.calls[0].pc == Running && s2.calls[0].model == Embedding
    requires s2.calls[0].lane == Some(0) && s2.calls[0].held == map[] && s2.calls[0].above == {}
    ensures Steps(s2, s3) && Steps(s3, s4)
    ensures 1 in s4.table && s4.table[1].priority == 2 && 1 in s4.owner && s4.owner[1] == 1
    ensures 1 in s4.calls && s4.calls[1].above == {0} && 0 in s4.calls && s4.calls[0].lane == Some(0)
  {
    OneLane(Some(0), 5);
    SpawnedStep(s2, Some(0), Llm, 2, [5]);
    s3 := Spawned(s2, Some(0), Llm, 2, [5]);
    EnteredStep(s3, 1);
    s4 := Entered(s3, 1);
  }

  /** A lane of 0, and inside it, around a job, a lane of 5: what that job asks for at priority 2 queues at 2. */
  lemma NestedLaneBreaks() returns (run: seq<State>)
    ensures IsRun(run) && |run| == 5
    ensures var s := run[4];
            && 1 in s.table && s.table[1].priority == 2
            && 1 in s.owner && s.owner[1] == 1 && 1 in s.calls && s.calls[1].above == {0}
            && 0 in s.calls && s.calls[0].lane == Some(0)
  {
    var s1, s2 := OuterJob();
    var s3, s4 := InnerRequest(s2);
    run := [NOTHING, s1, s2, s3, s4];
  }
}

/** The slot table of the AI queue (ai-queue/api.ts): one row per request for a model's slot.
    An endpoint call is one atomic step here; `Statements` below takes `releaseSlot` and
    `acquireSlot` apart into their SQL statements and shows what that assumption is worth. */
module SlotTable {
  import opened Common

  datatype Model = Insightface | Embedding | Landmark | Llm

  datatype Status = Waiting | Active

  datatype Row = Row(model: Model, priority: int, enqueuedAt: nat, status: Status)

  type SlotId = nat

  type Table = map<SlotId, Row>

  predicate IsWaiting(t: Table, id: SlotId) {
    id in t && t[id].status == Waiting
  }

  predicate IsActive(t: Table, id: SlotId) {
    id in t && t[id].status == Active
  }

  predicate HasActive(t: Table, m: Model) {
    exists id | id in t :: IsActive(t, id) && t[id].model == m
  }

  predicate HasWaiting(t: Table, m: Model) {
    exists id | id in t :: IsWaiting(t, id) && t[id].model == m
  }

  /** `ORDER BY priority ASC, enqueued_at ASC`, strictly. */
  predicate Before(a: Row, b: Row) {
    a.priority < b.priority || (a.priority == b.priority && a.enqueuedAt < b.enqueuedAt)
  }

  ghost predicate DistinctTimes(t: Table) {
    forall i, j | i in t && j in t && i != j :: t[i].enqueuedAt != t[j].enqueuedAt
  }

  /** What the table promises its callers: one active row per model, and nobody waits for an idle model. */
  ghost predicate AtMostOneActive(t: Table) {
    forall i, j | IsActive(t, i) && IsActive(t, j) && t[i].model == t[j].model :: i == j
  }

  ghost predicate NoIdleWait(t: Table) {
    forall i | IsWaiting(t, i) :: HasActive(t, t[i].model)
  }

  ghost predicate QueueInv(t: Table) {
    AtMostOneActive(t) && NoIdleWait(t)
  }

  // ------------------------------------------------------------------ the line

  /** The waiting rows that go before `id`; a poll counts them. */
  function Ahead(t: Table, id: SlotId): set<SlotId>
    requires id in t
  {
    set j | j in t && IsWaiting(t, j) && t[j].model == t[id].model && Before(t[j], t[id])
  }

  function Position(t: Table, id: SlotId): nat
    requires id in t
  {
    |Ahead(t, id)| + 1
  }

  /** `id` is the row `ORDER BY priority, enqueued_at LIMIT 1` picks among the waiting rows of `m`. */
  predicate IsNext(t: Table, m: Model, id: SlotId) {
    && IsWaiting(t, id)
    && t[id].model == m
    && forall j | j in t && j != id && IsWaiting(t, j) && t[j].model == m :: Before(t[id], t[j])
  }

  function Activate(t: Table, id: SlotId): Table
    requires id in t
  {
    t[id := t[id].(status := Active)]
  }

  /** The promotion that follows a DELETE: the next waiting row of `m`, if any, becomes active. */
  ghost predicate Promoted(t: Table, m: Model, t': Table, who: set<SlotId>) {
    if HasWaiting(t, m) then
      exists id: SlotId :: IsNext(t, m, id) && t' == Activate(t, id) && who == {id}
    else
      t' == t && who == {}
  }

  lemma {:induction false} NextAmong(t: Table, m: Model, ids: set<SlotId>) returns (next: SlotId)
    requires DistinctTimes(t)
    requires ids != {} && forall i | i in ids :: IsWaiting(t, i) && t[i].model == m
    ensures next in ids && next in t
    ensures forall j | j in ids && j != next :: j in t && Before(t[next], t[j])
    decreases |ids|
  {
    next :| next in ids;
    if ids != {next} {
      var rest := ids - {next};
      assert ids == rest + {next};
      var r := NextAmong(t, m, rest);
      if Before(t[r], t[next]) { next := r; }
    }
  }

  /** With distinct arrival times the line of a model has exactly one head, unless it is empty. */
  lemma NextExists(t: Table, m: Model)
    requires DistinctTimes(t)
    requires HasWaiting(t, m)
    ensures exists id: SlotId :: IsNext(t, m, id)
  {
    var ids := set id | id in t && IsWaiting(t, id) && t[id].model == m;
    var some :| some in t && IsWaiting(t, some) && t[some].model == m;
    assert some in ids;
    var next := NextAmong(t, m, ids);
    assert IsNext(t, m, next);
  }

  /** Position 1 is the place of the row that is promoted next. */
  lemma FirstInLine(t: Table, id: SlotId)
    requires IsWaiting(t, id) && DistinctTimes(t)
    ensures Position(t, id) == 1 <==> IsNext(t, t[id].model, id)
  {
    if Position(t, id) == 1 {
      assert Ahead(t, id) == {};
      forall j | j in t && j != id && IsWaiting(t, j) && t[j].model == t[id].model ensures Before(t[id], t[j]) {
        assert j !in Ahead(t, id);
      }
    }
    if IsNext(t, t[id].model, id) {
      forall j ensures j !in Ahead(t, id) { }
      assert Ahead(t, id) == {};
    }
  }

  /** Who goes first stands further in front: each row's place is behind those of all rows before it. */
  lemma PositionsOrdered(t: Table, i: SlotId, j: SlotId)
    requires IsWaiting(t, i) && IsWaiting(t, j) && t[i].model == t[j].model && Before(t[i], t[j])
    ensures Position(t, i) < Position(t, j)
  {
    assert Ahead(t, i) + {i} <= Ahead(t, j);
    SubsetSize(Ahead(t, i) + {i}, Ahead(t, j));
  }

  /** The line has no gaps: the last place is at most the number of rows that wait. */
  lemma PositionWithin(t: Table, id: SlotId)
    requires IsWaiting(t, id)
    ensures Position(t, id) <= |set j | j in t && IsWaiting(t, j) && t[j].model == t[id].model|
  {
    var line := set j | j in t && IsWaiting(t, j) && t[j].model == t[id].model;
    assert Ahead(t, id) + {id} <= line && id !in Ahead(t, id);
    SubsetSize(Ahead(t, id) + {id}, line);
  }

  // ------------------------------------------------------------- the endpoints

  /** acquireSlot: insert a waiting row, activate it when its model has no active row. */
  function Acquired(t: Table, id: SlotId, m: Model, priority: int, now: nat): Table {
    t[id := Row(m, priority, now, if HasActive(t, m) then Waiting else Active)]
  }

  /** cancelSlot: the row goes only while it waits. */
  function Cancelled(t: Table, id: SlotId): Table {
    if IsWaiting(t, id) then t - {id} else t
  }

  /** releaseSlot: the row goes in any state, and the next of its model moves up. */
  ghost predicate Released(t: Table, id: SlotId, t': Table, who: set<SlotId>) {
    if id in t then Promoted(t - {id}, t[id].model, t', who) else t' == t && who == {}
  }

  /** The rows of one model. */
  function Lane(t: Table, m: Model): Table {
    map id | id in t && t[id].model == m :: t[id]
  }

  /** The active rows among `stale`: what the sweep deletes. */
  function Swept(t: Table, stale: set<SlotId>): set<SlotId> {
    set id | id in stale && IsActive(t, id)
  }

  function InLane(t: Table, m: Model, ids: set<SlotId>): set<SlotId> {
    set id | id in ids && id in t && t[id].model == m
  }

  predicate Lost(t: Table, stale: set<SlotId>, m: Model) {
    exists id | id in Swept(t, stale) :: t[id].model == m
  }

  /** cleanupStaleSlots: the stale active rows go, and every model that lost one moves up once. */
  ghost predicate CleanedUp(t: Table, stale: set<SlotId>, t': Table, who: set<SlotId>) {
    var rest := t - Swept(t, stale);
    && who <= rest.Keys
    && forall m: Model ::
      var mine := InLane(rest, m, who);
      if Lost(t, stale, m)
      then exists u :: Promoted(rest, m, u, mine) && Lane(t', m) == Lane(u, m)
      else mine == {} && Lane(t', m) == Lane(rest, m)
  }

  // ------------------------------------------------------------ what they keep

  lemma AcquireKeepsQueue(t: Table, id: SlotId, m: Model, priority: int, now: nat)
    requires QueueInv(t) && id !in t
    ensures QueueInv(Acquired(t, id, m, priority, now))
    // a newcomer never passes a waiting slot
    ensures IsActive(Acquired(t, id, m, priority, now), id) ==>
              forall j | IsWaiting(t, j) :: t[j].model != m
  {
    var t' := Acquired(t, id, m, priority, now);
    forall i | IsWaiting(t', i) ensures HasActive(t', t'[i].model) {
      if i == id {
        var a :| a in t && IsActive(t, a) && t[a].model == m;
        assert IsActive(t', a) && t'[a].model == m;
      } else {
        assert IsWaiting(t, i);
        var a :| a in t && IsActive(t, a) && t[a].model == t[i].model;
        assert IsActive(t', a) && t'[a].model == t[i].model;
      }
    }
    assert AtMostOneActive(t') by {
      forall i, j | IsActive(t', i) && IsActive(t', j) && t'[i].model == t'[j].model ensures i == j {
        assert i != id ==> IsActive(t, i);
        assert j != id ==> IsActive(t, j);
      }
    }
  }

  lemma CancelKeepsQueue(t: Table, id: SlotId)
    requires QueueInv(t)
    ensures QueueInv(Cancelled(t, id))
  {
    var t' := Cancelled(t, id);
    forall i | IsWaiting(t', i) ensures HasActive(t', t'[i].model) {
      assert IsWaiting(t, i);
      var a :| a in t && IsActive(t, a) && t[a].model == t[i].model;
      assert IsActive(t', a) && t'[a].model == t[i].model;
    }
    forall i, j | IsActive(t', i) && IsActive(t', j) && t'[i].model == t'[j].model ensures i == j {
      assert IsActive(t, i) && IsActive(t, j);
    }
  }

  /** One promotion repairs a model that just lost its active row, and no other model notices. */
  lemma PromoteRepairs(t: Table, m: Model, t': Table, who: set<SlotId>)
    requires Promoted(t, m, t', who) && DistinctTimes(t)
    requires AtMostOneActive(t) && !HasActive(t, m)
    requires forall i | IsWaiting(t, i) && t[i].model != m :: HasActive(t, t[i].model)
    ensures QueueInv(t') && DistinctTimes(t') && t'.Keys == t.Keys
    ensures forall i | i in t && t[i].model != m :: t'[i] == t[i]
  {
    if HasWaiting(t, m) {
      var id: SlotId :| IsNext(t, m, id) && t' == Activate(t, id) && who == {id};
      forall i | IsWaiting(t', i) ensures HasActive(t', t'[i].model) {
        assert IsWaiting(t, i);
        if t'[i].model == m {
          assert IsActive(t', id);
        } else {
          var a :| a in t && IsActive(t, a) && t[a].model == t[i].model;
          assert IsActive(t', a) && t'[a].model == t[i].model;
        }
      }
      forall i, j | IsActive(t', i) && IsActive(t', j) && t'[i].model == t'[j].model ensures i == j {
        assert i != id ==> IsActive(t, i);
        assert j != id ==> IsActive(t, j);
      }
    }
  }

  lemma WithoutRow(t: Table, id: SlotId)
    requires QueueInv(t) && DistinctTimes(t) && id in t
    ensures AtMostOneActive(t - {id}) && DistinctTimes(t - {id})
    ensures forall i | IsWaiting(t - {id}, i) && t[i].model != t[id].model :: HasActive(t - {id}, t[i].model)
    ensures IsActive(t, id) ==> !HasActive(t - {id}, t[id].model)
  {
    var rest := t - {id};
    forall i, j | IsActive(rest, i) && IsActive(rest, j) && rest[i].model == rest[j].model ensures i == j {
      assert IsActive(t, i) && IsActive(t, j);
    }
    forall i | IsWaiting(rest, i) && t[i].model != t[id].model ensures HasActive(rest, t[i].model) {
      assert IsWaiting(t, i);
      var a :| a in t && IsActive(t, a) && t[a].model == t[i].model;
      assert IsActive(rest, a) && rest[a].model == t[i].model;
    }
    assert forall a | IsActive(rest, a) :: IsActive(t, a);
  }

  lemma ReleaseActive(t: Table, id: SlotId, t': Table, who: set<SlotId>)
    requires QueueInv(t) && DistinctTimes(t) && Released(t, id, t', who) && !IsWaiting(t, id)
    ensures QueueInv(t') && DistinctTimes(t')
  {
    if id in t {
      WithoutRow(t, id);
      PromoteRepairs(t - {id}, t[id].model, t', who);
    }
  }

  lemma ReleaseWaiting(t: Table, id: SlotId, t': Table, who: set<SlotId>)
    requires QueueInv(t) && DistinctTimes(t) && Released(t, id, t', who) && IsWaiting(t, id)
    ensures AtMostOneActive(t') <==> !HasWaiting(t - {id}, t[id].model)
    ensures !HasWaiting(t - {id}, t[id].model) ==> QueueInv(t')
  {
    var m, rest := t[id].model, t - {id};
    if HasWaiting(rest, m) {
      var j: SlotId :| IsNext(rest, m, j) && t' == Activate(rest, j);
      var a :| a in t && IsActive(t, a) && t[a].model == m;
      assert IsActive(t', a) && IsActive(t', j) && a != j;
    } else {
      CancelKeepsQueue(t, id);
    }
  }

  /** The one thing a caller must not do: release a slot that still waits while others wait for the
      same model. Exactly then a second row becomes active. */
  lemma ReleaseKeepsQueueIff(t: Table, id: SlotId, t': Table, who: set<SlotId>)
    requires QueueInv(t) && DistinctTimes(t) && Released(t, id, t', who)
    ensures QueueInv(t') <==>
              (IsWaiting(t, id) ==> forall j | IsWaiting(t, j) && t[j].model == t[id].model :: j == id)
  {
    if IsWaiting(t, id) {
      ReleaseWaiting(t, id, t', who);
      forall j | IsWaiting(t, j) && t[j].model == t[id].model && j != id ensures HasWaiting(t - {id}, t[id].model) {
        assert IsWaiting(t - {id}, j);
      }
      assert forall j | IsWaiting(t - {id}, j) :: IsWaiting(t, j);
    } else {
      ReleaseActive(t, id, t', who);
    }
  }

  lemma LaneAt(t: Table, m: Model, id: SlotId)
    ensures id in Lane(t, m) <==> id in t && t[id].model == m
    ensures id in Lane(t, m) ==> Lane(t, m)[id] == t[id]
  {
  }

  /** Row by row, what a sweep does to a row it does not delete: nothing, or the step from waiting to
      active of the head of a line that lost its active row. */
  lemma CleanupRow(t: Table, stale: set<SlotId>, t': Table, who: set<SlotId>, id: SlotId)
    requires CleanedUp(t, stale, t', who)
    ensures id in t' <==> id in t && id !in Swept(t, stale)
    ensures id in t' ==> t'[id] == (if id in who then t[id].(status := Active) else t[id])
    ensures id in t' && id in who ==>
              && IsWaiting(t, id) && IsNext(t - Swept(t, stale), t[id].model, id)
              && Lost(t, stale, t[id].model)
  {
    var rest := t - Swept(t, stale);
    if id in t' {
      LaneAt(t', t'[id].model, id);
      CleanupLane(t, stale, t', who, t'[id].model, id);
    }
    if id in rest {
      CleanupLane(t, stale, t', who, rest[id].model, id);
      LaneAt(t', rest[id].model, id);
    }
  }

  lemma CleanupLane(t: Table, stale: set<SlotId>, t': Table, who: set<SlotId>, m: Model, id: SlotId)
    requires CleanedUp(t, stale, t', who)
    ensures id in Lane(t', m) <==> id in t && id !in Swept(t, stale) && t[id].model == m
    ensures id in Lane(t', m) ==> t'[id] == (if id in who then t[id].(status := Active) else t[id])
    ensures id in Lane(t', m) && id in who ==>
              && IsWaiting(t, id) && IsNext(t - Swept(t, stale), m, id)
              && Lost(t, stale, m)
  {
    var rest := t - Swept(t, stale);
    var mine := InLane(rest, m, who);
    LaneAt(t', m, id);
    assert id in rest && rest[id].model == m ==> (id in who <==> id in mine);
    if Lost(t, stale, m) {
      var u :| Promoted(rest, m, u, mine) && Lane(t', m) == Lane(u, m);
      LaneAt(u, m, id);
      PromotedAt(rest, m, u, mine, id);
    } else {
      LaneAt(rest, m, id);
    }
  }

  /** What a promotion does to one row. */
  lemma PromotedAt(t: Table, m: Model, t': Table, who: set<SlotId>, id: SlotId)
    requires Promoted(t, m, t', who)
    ensures id in t' <==> id in t
    ensures id in t ==> t'[id] == if id in who then t[id].(status := Active) else t[id]
    ensures id in who ==> IsNext(t, m, id)
  {
  }

  lemma CleanupKeepsQueue(t: Table, stale: set<SlotId>, t': Table, who: set<SlotId>)
    requires QueueInv(t) && DistinctTimes(t) && CleanedUp(t, stale, t', who)
    ensures QueueInv(t') && DistinctTimes(t')
  {
    var rest := t - Swept(t, stale);
    forall i | IsWaiting(t', i) ensures HasActive(t', t'[i].model) {
      CleanupRow(t, stale, t', who, i);
      var m := t[i].model;
      var a :| a in t && IsActive(t, a) && t[a].model == m;
      CleanupRow(t, stale, t', who, a);
      if a in Swept(t, stale) {
        assert Lost(t, stale, m);
        var mine := InLane(rest, m, who);
        var u :| Promoted(rest, m, u, mine) && Lane(t', m) == Lane(u, m);
        assert IsWaiting(rest, i);
        var next: SlotId :| IsNext(rest, m, next) && u == Activate(rest, next) && mine == {next};
        LaneAt(u, m, next);
        LaneAt(t', m, next);
        assert IsActive(t', next) && t'[next].model == m;
      } else {
        assert IsActive(t', a) && t'[a].model == m;
      }
    }
    forall i, j | IsActive(t', i) && IsActive(t', j) && t'[i].model == t'[j].model ensures i == j {
      CleanupRow(t, stale, t', who, i);
      CleanupRow(t, stale, t', who, j);
      if i in who || j in who {
        var lost :| lost in Swept(t, stale) && t[lost].model == t[i].model;
        assert IsActive(t, lost);
        assert i in who && j in who;
      } else {
        assert IsActive(t, i) && IsActive(t, j);
      }
    }
    forall i, j | i in t' && j in t' && i != j ensures t'[i].enqueuedAt != t'[j].enqueuedAt {
      CleanupRow(t, stale, t', who, i);
      CleanupRow(t, stale, t', who, j);
    }
  }

  // -------------------------------------------------- statements, one at a time

  function Inserted(t: Table, id: SlotId, m: Model, priority: int, now: nat): Table {
    t[id := Row(m, priority, now, Waiting)]
  }

  function ActivatedIfIdle(t: Table, id: SlotId): Table {
    if id in t && !HasActive(t, t[id].model) then Activate(t, id) else t
  }

  /** acquireSlot is its two statements with nothing in between. */
  lemma AcquireIsInsertThenActivate(t: Table, id: SlotId, m: Model, priority: int, now: nat)
    requires id !in t
    ensures ActivatedIfIdle(Inserted(t, id, m, priority, now), id) == Acquired(t, id, m, priority, now)
  {
    var u := Inserted(t, id, m, priority, now);
    if HasActive(t, m) {
      var a :| a in t && IsActive(t, a) && t[a].model == m;
      assert IsActive(u, a) && u[a].model == m;
    }
    if HasActive(u, m) {
      var a :| a in u && IsActive(u, a) && u[a].model == m;
      assert IsActive(t, a) && t[a].model == m;
    }
  }

  /** The promotion statement does not look for an active row: on its own it keeps the table sound
      exactly when the model is idle or nobody waits for it. */
  lemma PromotionAloneIff(t: Table, m: Model, t': Table, who: set<SlotId>)
    requires AtMostOneActive(t) && Promoted(t, m, t', who)
    ensures AtMostOneActive(t') <==> !(HasActive(t, m) && HasWaiting(t, m))
  {
    if HasWaiting(t, m) {
      var id: SlotId :| IsNext(t, m, id) && t' == Activate(t, id);
      if HasActive(t, m) {
        var a :| a in t && IsActive(t, a) && t[a].model == m;
        assert IsActive(t', a) && IsActive(t', id) && a != id;
      } else {
        forall i, j | IsActive(t', i) && IsActive(t', j) && t'[i].model == t'[j].model ensures i == j {
          assert i != id ==> IsActive(t, i);
          assert j != id ==> IsActive(t, j);
        }
      }
    }
  }

  /** Why an endpoint call has to be atomic: whatever sound table has a holder `a` and a waiter, when
      an acquire's statements fall between the DELETE and the promotion of `a`'s release, the newcomer
      and the promoted waiter are active together. */
  lemma SplitReleaseActivatesTwo(t: Table, a: SlotId, n: SlotId, priority: int, now: nat, t': Table, who: set<SlotId>)
    requires QueueInv(t) && DistinctTimes(t) && IsActive(t, a) && HasWaiting(t, t[a].model)
    requires n !in t && forall i | i in t :: t[i].enqueuedAt < now
    requires Promoted(Acquired(t - {a}, n, t[a].model, priority, now), t[a].model, t', who)
    ensures n in t' && IsActive(t', n) && !AtMostOneActive(t')
  {
    var m, rest := t[a].model, t - {a};
    WithoutRow(t, a);
    var u := Acquired(rest, n, m, priority, now);
    var w :| w in t && IsWaiting(t, w) && t[w].model == m;
    assert IsWaiting(u, w) && u[w].model == m;
    assert IsActive(u, n);
    assert AtMostOneActive(u) by {
      forall i, j | IsActive(u, i) && IsActive(u, j) && u[i].model == u[j].model ensures i == j {
        assert i != n ==> IsActive(rest, i);
        assert j != n ==> IsActive(rest, j);
      }
    }
    PromotionAloneIff(u, m, t', who);
    var id: SlotId :| IsNext(u, m, id) && t' == Activate(u, id);
    assert t'[n].status == Active;
  }

  // ------------------------------------------------------------------ the wait

  function Arrivals(t: Table, t': Table, id: SlotId): set<SlotId>
    requires id in t
  {
    set j | j in t' && j !in t && IsWaiting(t', j) && t'[j].model == t[id].model && t'[j].priority < t[id].priority
  }

  function Promotions(t: Table, t': Table, m: Model): set<SlotId> {
    set j | j in t && IsWaiting(t, j) && t[j].model == m && IsActive(t', j)
  }

  /** What every step of the queue does to the line. */
  ghost predicate LineStep(t: Table, t': Table) {
    // rows only move from waiting to active
    && (forall j | j in t && j in t' :: t'[j] == t[j] || (IsWaiting(t, j) && t'[j] == t[j].(status := Active)))
    // a promoted row was ahead of everyone of its model who still waits
    && (forall j, k | j in t && IsWaiting(t, j) && IsActive(t', j) && k in t && IsWaiting(t', k) && t[k].model == t[j].model
          :: Before(t[j], t[k]))
    // a new row arrives last, and active only when nobody waited
    && (forall j, k | j in t' && j !in t && k in t :: t[k].enqueuedAt < t'[j].enqueuedAt)
    && (forall j, k | IsActive(t', j) && j !in t && IsWaiting(t, k) :: t[k].model != t'[j].model)
  }

  lemma PositionStep(t: Table, t': Table, id: SlotId)
    requires LineStep(t, t') && IsWaiting(t, id) && IsWaiting(t', id)
    ensures Position(t', id) + |Promotions(t, t', t[id].model)| <= Position(t, id) + |Arrivals(t, t', id)|
  {
    var m := t[id].model;
    var old', new', up, late := Ahead(t, id), Ahead(t', id), Promotions(t, t', m), Arrivals(t, t', id);
    assert up <= old';
    assert new' <= (old' - up) + late by {
      forall j | j in new' ensures j in (old' - up) + late { }
    }
    SubsetSize(new', (old' - up) + late);
    assert |(old' - up) + late| <= |old' - up| + |late|;
    assert |old' - up| == |old'| - |up|;
  }
}

/** The objects behind assistant/live.ts: a turn whose fields every operation updates, and the map of known turns. */
module LiveTurns {
  import opened Common
  import opened LiveTurn

  datatype Outcome<T> = Ok(value: T) | Fail(message: string)

  class Turn {
    const userId: string
    var events: seq<Event>
    var listeners: seq<nat>
    var finished: bool
    var aborted: bool
    /** What each watcher's listener accepted. */
    var received: map<nat, seq<Event>>

    constructor (userId: string)
      ensures Value() == NewTurn(userId)
    {
      this.userId := userId;
      events, listeners, finished, aborted, received := [], [], false, false, map[];
    }

    function Value(): LiveTurn.Turn
      reads this
    {
      LiveTurn.Turn(userId, events, listeners, finished, aborted, received)
    }

    predicate Valid()
      reads this
    {
      Inv(Value())
    }

    /** The emitter: how many watchers took the event. */
    method Emit(event: Event, throwing: set<nat>) returns (delivered: nat)
      requires Valid()
      modifies this
      ensures Value() == Emitted(old(Value()), event, throwing)
      ensures Valid()
      ensures delivered == if old(finished) then 0 else |Without(old(listeners), throwing)|
    {
      EmitKeeps(Value(), event, throwing);
      if finished {
        return 0;
      }
      events := events + [event];
      delivered := Deliver(event, throwing);
      if IsLast(event) {
        finished := true;
      }
    }

    /** The watchers one by one: who throws is dropped and not counted, and a terminal event lets everyone go. */
    method Deliver(event: Event, throwing: set<nat>) returns (delivered: nat)
      requires Distinct(listeners) && forall w | w in listeners :: w in received
      modifies this`listeners, this`received
      ensures received == Delivered(old(received), old(listeners), event, throwing)
      ensures listeners == if IsLast(event) then [] else Without(old(listeners), throwing)
      ensures delivered == |Without(old(listeners), throwing)|
    {
      delivered := 0;
      var snapshot := listeners;
      ghost var leaving := Leaving(snapshot, event, throwing);
      LeftAtStart(snapshot, leaving);
      DeliveredAtStart(received, event, throwing);
      for i := 0 to |snapshot|
        invariant listeners == Left(snapshot, i, leaving)
        invariant received == Delivered(old(received), snapshot[..i], event, throwing)
        invariant delivered == |Without(snapshot[..i], throwing)|
      {
        var took := Hand(snapshot[i], event, snapshot[i] in throwing, snapshot, i, throwing, old(received));
        if took {
          delivered := delivered + 1;
        }
        WithoutStep(snapshot, i, throwing);
      }
      LeftAtEnd(snapshot, event, throwing);
    }

    /** One watcher's turn. */
    method Hand(w: nat, event: Event, throws: bool, ghost ws: seq<nat>, ghost i: nat, ghost throwing: set<nat>,
                ghost before: map<nat, seq<Event>>)
      returns (took: bool)
      requires i < |ws| && Distinct(ws) && w == ws[i] && (throws <==> w in throwing) && forall v | v in ws :: v in before
      requires listeners == Left(ws, i, Leaving(ws, event, throwing))
      requires received == Delivered(before, ws[..i], event, throwing)
      modifies this`listeners, this`received
      ensures listeners == Left(ws, i + 1, Leaving(ws, event, throwing))
      ensures received == Delivered(before, ws[..i + 1], event, throwing)
      ensures took == !throws
    {
      LeftStep(ws, i, Leaving(ws, event, throwing));
      InDomain(before, ws, i);
      DeliveredStep(before, ws, i, event, throwing);
      if throws {
        listeners := Detached(listeners, w);
        return false;
      }
      received := received[w := received[w] + [event]];
      if IsLast(event) {
        listeners := Detached(listeners, w);
      }
      return true;
    }

    /** Replays the log, then attaches; false when the listener threw on the way. */
    method Follow(w: nat, throwsAt: Option<nat>) returns (replayed: bool)
      requires Valid() && w !in received
      modifies this
      ensures Value() == Followed(old(Value()), w, throwsAt)
      ensures Valid()
      ensures replayed <==> !(throwsAt.Some? && throwsAt.value < |events|)
    {
      FollowKeeps(Value(), w, throwsAt);
      replayed := Replay(w, throwsAt);
      if replayed && !finished {
        listeners := listeners + [w];
      }
    }

    method Replay(w: nat, throwsAt: Option<nat>) returns (replayed: bool)
      modifies this`received
      ensures replayed <==> !(throwsAt.Some? && throwsAt.value < |events|)
      ensures received == old(received)[w := if replayed then events else events[..throwsAt.value]]
    {
      received := received[w := []];
      for i := 0 to |events|
        invariant received == old(received)[w := events[..i]]
        invariant throwsAt.Some? ==> i <= throwsAt.value
      {
        if throwsAt == Some(i) {
          return false;
        }
        assert events[..i + 1] == events[..i] + [events[i]];
        received := received[w := received[w] + [events[i]]];
      }
      assert events[..|events|] == events;
      return true;
    }

    method GiveUp(w: nat)
      requires Valid()
      modifies this
      ensures Value() == GaveUp(old(Value()), w)
      ensures Valid()
    {
      GiveUpKeeps(Value(), w);
      if w in listeners && w in received && events == [] {
        listeners := Without(listeners, {w});
        received := received[w := received[w] + [NOT_POSTED]];
      }
    }
  }

  function Detached(ws: seq<nat>, w: nat): seq<nat> {
    Without(ws, {w})
  }

  /** The known turns of this instance. */
  class LiveTurns {
    var turns: map<string, Turn>

    constructor ()
      ensures Valid() && turns == map[]
    {
      turns := map[];
    }

    ghost predicate Valid()
      reads this, set id | id in turns :: turns[id]
    {
      forall id | id in turns :: turns[id].Valid()
    }

    /** The turn of this id, made when it is not known; nobody else's. */
    method TurnFor(turnId: string, userId: string) returns (r: Outcome<Turn>)
      requires Valid()
      modifies this
      ensures Valid()
      ensures turnId in old(turns) ==> turns == old(turns)
      ensures turnId in old(turns) ==>
                r == if old(turns)[turnId].userId == userId then Ok(old(turns)[turnId])
                     else Fail("turn belongs to someone else")
      ensures turnId !in old(turns) ==>
                r.Ok? && fresh(r.value) && r.value.Value() == NewTurn(userId) && turns == old(turns)[turnId := r.value]
    {
      if turnId in turns {
        var existing := turns[turnId];
        if existing.userId != userId {
          return Fail("turn belongs to someone else");
        }
        return Ok(existing);
      }
      var turn := new Turn(userId);
      turns := turns[turnId := turn];
      return Ok(turn);
    }

    /** An emitter is handed out only for a turn of this user that has reported nothing yet. */
    method OpenTurn(turnId: string, userId: string) returns (r: Outcome<Turn>)
      requires Valid()
      modifies this
      ensures Valid()
      ensures r.Ok? ==> turnId in turns && r.value == turns[turnId] && r.value.userId == userId
                        && r.value.events == [] && !r.value.finished
      ensures r.Fail? <==> turnId in old(turns)
                           && (old(turns)[turnId].userId != userId || old(turns)[turnId].events != [])
      ensures r.Fail? && old(turns)[turnId].userId == userId ==> r == Fail("turn id already used")
      ensures turnId in old(turns) ==> turns == old(turns)
    {
      r := TurnFor(turnId, userId);
      if r.Ok? && (r.value.finished || r.value.events != []) {
        return Fail("turn id already used");
      }
    }

    /** Replays and follows this user's turn, known or still to be posted. */
    method FollowTurn(turnId: string, userId: string, w: nat, throwsAt: Option<nat>) returns (r: Outcome<Turn>)
      requires Valid() && (turnId in turns ==> w !in turns[turnId].received)
      modifies this, if turnId in turns then {turns[turnId]} else {}
      ensures Valid()
      ensures r.Ok? <==> turnId !in old(turns) || old(turns[turnId].userId) == userId
      ensures r.Ok? ==> turnId in turns && r.value == turns[turnId]
      ensures r.Ok? && turnId in old(turns) ==>
                turns == old(turns) && r.value.Value() == Followed(old(turns[turnId].Value()), w, throwsAt)
      ensures r.Ok? && turnId !in old(turns) ==> r.value.Value() == Followed(NewTurn(userId), w, throwsAt)
    {
      r := TurnFor(turnId, userId);
      if r.Ok? {
        var _ := r.value.Follow(w, throwsAt);
      }
    }

    method HasWatchers(turnId: string, userId: string) returns (any: bool)
      requires Valid()
      ensures any <==> turnId in turns && turns[turnId].userId == userId && turns[turnId].listeners != []
      ensures any ==> !turns[turnId].finished
    {
      any := turnId in turns && turns[turnId].userId == userId && |turns[turnId].listeners| > 0;
    }

    /** False when there is nothing left to stop. */
    method CancelTurn(turnId: string, userId: string) returns (stopped: bool)
      requires Valid()
      modifies if turnId in turns then {turns[turnId]} else {}
      ensures Valid()
      ensures stopped <==> turnId in turns && turns[turnId].userId == userId && !old(turns[turnId].finished)
      ensures stopped ==> turns[turnId].Value() == CancelledTurn(old(turns[turnId].Value())) && turns[turnId].aborted
      ensures !stopped && turnId in turns ==> turns[turnId].Value() == old(turns[turnId].Value())
    {
      if turnId !in turns || turns[turnId].userId != userId || turns[turnId].finished {
        return false;
      }
      turns[turnId].aborted := true;
      return true;
    }

    /** An expiry timer forgets a turn, but not a newer one of the same id. */
    method Expire(turnId: string, turn: Turn)
      requires Valid()
      modifies this
      ensures Valid()
      ensures turns == if turnId in old(turns) && old(turns)[turnId] == turn then old(turns) - {turnId} else old(turns)
    {
      if turnId in turns && turns[turnId] == turn {
        turns := turns - {turnId};
      }
    }
  }

  /** Who is still attached when the first `i` watchers have had their turn. */
  function Left(ws: seq<nat>, i: nat, leaving: set<nat>): seq<nat>
    requires i <= |ws|
  {
    Without(ws[..i], leaving) + ws[i..]
  }

  /** A terminal event lets everyone go. */
  function Leaving(ws: seq<nat>, e: Event, throwing: set<nat>): set<nat> {
    if IsLast(e) then set w | w in ws else throwing
  }

  lemma LeftAtStart(ws: seq<nat>, leaving: set<nat>)
    ensures Left(ws, 0, leaving) == ws
  {
  }

  lemma {:induction false} WithoutAll(ws: seq<nat>, gone: set<nat>)
    requires forall w | w in ws :: w in gone
    ensures Without(ws, gone) == []
  {
    if ws != [] {
      assert ws[|ws| - 1] in ws;
      WithoutAll(ws[..|ws| - 1], gone);
    }
  }

  lemma LeftAtEnd(ws: seq<nat>, e: Event, throwing: set<nat>)
    ensures Left(ws, |ws|, Leaving(ws, e, throwing)) == if IsLast(e) then [] else Without(ws, throwing)
    ensures ws[..|ws|] == ws
  {
    assert ws[..|ws|] == ws;
    if IsLast(e) { WithoutAll(ws, Leaving(ws, e, throwing)); }
  }

  lemma DeliveredAtStart(received: map<nat, seq<Event>>, e: Event, throwing: set<nat>)
    ensures Delivered(received, [], e, throwing) == received
  {
  }

  lemma InDomain(received: map<nat, seq<Event>>, ws: seq<nat>, i: nat)
    requires i < |ws| && forall w | w in ws :: w in received
    ensures ws[i] in received
  {
    assert ws[i] in ws;
  }

  lemma {:induction false} WithoutNone(ws: seq<nat>, gone: set<nat>)
    requires forall w | w in ws :: w !in gone
    ensures Without(ws, gone) == ws
  {
    if ws != [] {
      var before := ws[..|ws| - 1];
      assert ws == before + [ws[|ws| - 1]];
      assert ws[|ws| - 1] in ws;
      WithoutNone(before, gone);
    }
  }

  lemma {:induction false} WithoutPlus(a: seq<nat>, b: seq<nat>, gone: set<nat>)
    ensures Without(a + b, gone) == Without(a, gone) + Without(b, gone)
    decreases |b|
  {
    if b == [] {
      assert a + b == a;
    } else {
      assert (a + b)[..|a + b| - 1] == a + b[..|b| - 1];
      WithoutPlus(a, b[..|b| - 1], gone);
    }
  }

  lemma WithoutOnly(w: nat)
    ensures Without([w], {w}) == []
  {
    assert [w][..0] == [];
  }

  lemma Assoc(a: seq<nat>, b: seq<nat>, c: seq<nat>)
    ensures (a + b) + c == a + (b + c)
  {
  }

  /** Detaching one of distinct watchers. */
  lemma DetachMiddle(a: seq<nat>, w: nat, b: seq<nat>)
    requires w !in a && w !in b
    ensures Detached(a + ([w] + b), w) == a + b
  {
    WithoutPlus(a, [w] + b, {w});
    WithoutPlus([w], b, {w});
    WithoutOnly(w);
    WithoutNone(a, {w});
    WithoutNone(b, {w});
    assert [] + b == b;
  }

  lemma NotAround(ws: seq<nat>, i: nat)
    requires i < |ws| && Distinct(ws)
    ensures ws[i] !in ws[..i] && ws[i] !in ws[i + 1..]
  {
  }

  lemma LeftUnfold(ws: seq<nat>, i: nat, leaving: set<nat>)
    requires i < |ws|
    ensures Left(ws, i, leaving) == Without(ws[..i], leaving) + ([ws[i]] + ws[i + 1..])
  {
    assert ws[i..] == [ws[i]] + ws[i + 1..];
  }

  /** The `i`-th watcher has its turn: it stays, or is detached from among those kept and those to come. */
  lemma LeftStep(ws: seq<nat>, i: nat, leaving: set<nat>)
    requires i < |ws| && Distinct(ws)
    ensures Left(ws, i + 1, leaving)
         == if ws[i] in leaving then Detached(Left(ws, i, leaving), ws[i]) else Left(ws, i, leaving)
  {
    var kept, w, b := Without(ws[..i], leaving), ws[i], ws[i + 1..];
    LeftUnfold(ws, i, leaving);
    WithoutStep(ws, i, leaving);
    if w in leaving {
      NotAround(ws, i);
      WithoutMembers(ws[..i], leaving);
      DetachMiddle(kept, w, b);
      assert kept + [] == kept;
    } else {
      Assoc(kept, [w], b);
    }
  }

  lemma WithoutStep(ws: seq<nat>, i: nat, throwing: set<nat>)
    requires i < |ws|
    ensures Without(ws[..i + 1], throwing) == Without(ws[..i], throwing) + if ws[i] in throwing then [] else [ws[i]]
  {
    assert ws[..i + 1][..i] == ws[..i];
  }

  lemma DeliveredStep(received: map<nat, seq<Event>>, ws: seq<nat>, i: nat, e: Event, throwing: set<nat>)
    requires i < |ws| && Distinct(ws) && ws[i] in received
    ensures Delivered(received, ws[..i + 1], e, throwing)
         == var now := Delivered(received, ws[..i], e, throwing);
            if ws[i] in throwing then now else now[ws[i] := now[ws[i]] + [e]]
  {
    assert ws[..i + 1] == ws[..i] + [ws[i]];
    NotAround(ws, i);
  }
}

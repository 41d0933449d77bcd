/** A running turn's event log, replay and watchers (assistant/live.ts), as values: what each operation makes of one
    turn, and what holds after every run of them. */
module LiveTurn {
  import opened Common

  datatype Event = Progress(text: string) | Done | Error(message: string) | Cancelled

  predicate IsLast(e: Event) { !e.Progress? }

  const NOT_POSTED := Error("no question was posted for this turn")

  /** `received` records what each watcher's listener accepted; `listeners` are the attached ones, oldest first. */
  datatype Turn = Turn(userId: string, events: seq<Event>, listeners: seq<nat>, finished: bool, aborted: bool,
                       received: map<nat, seq<Event>>)

  function NewTurn(userId: string): Turn {
    Turn(userId, [], [], false, false, map[])
  }

  // ------------------------------------------------------------------- operations

  function Without(ws: seq<nat>, gone: set<nat>): seq<nat> {
    if ws == [] then []
    else Without(ws[..|ws| - 1], gone) + if ws[|ws| - 1] in gone then [] else [ws[|ws| - 1]]
  }

  /** The attached watchers that do not throw get the event. */
  function Delivered(received: map<nat, seq<Event>>, ws: seq<nat>, e: Event, throwing: set<nat>): map<nat, seq<Event>> {
    map w | w in received :: if w in ws && w !in throwing then received[w] + [e] else received[w]
  }

  /** The running turn reports an event; `throwing` are the watchers whose listener throws on it. */
  function Emitted(t: Turn, e: Event, throwing: set<nat>): Turn {
    if t.finished then t
    else t.(events := t.events + [e],
            received := Delivered(t.received, t.listeners, e, throwing),
            listeners := if IsLast(e) then [] else Without(t.listeners, throwing),
            finished := IsLast(e))
  }

  /** A new watcher: the log so far is replayed, unless its listener throws at event `throwsAt`. */
  function Followed(t: Turn, w: nat, throwsAt: Option<nat>): Turn {
    if throwsAt.Some? && throwsAt.value < |t.events| then
      t.(received := t.received[w := t.events[..throwsAt.value]])
    else
      t.(received := t.received[w := t.events],
         listeners := if t.finished then t.listeners else t.listeners + [w])
  }

  /** The timer of a watcher that waited for a question nobody posted. */
  function GaveUp(t: Turn, w: nat): Turn {
    if w in t.listeners && w in t.received && t.events == [] then
      t.(listeners := Without(t.listeners, {w}), received := t.received[w := t.received[w] + [NOT_POSTED]])
    else t
  }

  function CancelledTurn(t: Turn): Turn {
    if t.finished then t else t.(aborted := true)
  }

  datatype Step = Emit(event: Event, throwing: set<nat>) | Follow(w: nat, throwsAt: Option<nat>) | GiveUp(w: nat) | Cancel

  function Next(t: Turn, s: Step): Turn {
    match s
    case Emit(e, throwing) => Emitted(t, e, throwing)
    case Follow(w, throwsAt) => Followed(t, w, throwsAt)
    case GiveUp(w) => GaveUp(t, w)
    case Cancel => CancelledTurn(t)
  }

  function Run(userId: string, steps: seq<Step>): Turn {
    if steps == [] then NewTurn(userId) else Next(Run(userId, steps[..|steps| - 1]), steps[|steps| - 1])
  }

  /** Every stream is a watcher of its own. */
  predicate NewWatcher(t: Turn, s: Step) {
    s.Follow? ==> s.w !in t.received
  }

  predicate LegalRun(userId: string, steps: seq<Step>) {
    steps == [] ||
    var before := steps[..|steps| - 1];
    LegalRun(userId, before) && NewWatcher(Run(userId, before), steps[|steps| - 1])
  }

  // -------------------------------------------------------------------- invariant

  predicate Distinct(ws: seq<nat>) {
    forall i: nat, j: nat | i < j < |ws| :: ws[i] != ws[j]
  }

  /** Each attached watcher has exactly the log. */
  predicate UpToDate(t: Turn) {
    forall w | w in t.listeners :: w in t.received && t.received[w] == t.events
  }

  /** A terminal event is the last one. */
  predicate EndsOnce(events: seq<Event>) {
    forall i: nat | i < |events| && IsLast(events[i]) :: i == |events| - 1
  }

  /** Nobody was told anything that is not in the log, but for the one who gave up on an unposted question. */
  predicate OnlyTheLog(t: Turn) {
    forall w | w in t.received :: t.received[w] <= t.events || t.received[w] == [NOT_POSTED]
  }

  predicate Inv(t: Turn) {
    && Distinct(t.listeners)
    && UpToDate(t)
    && EndsOnce(t.events)
    && OnlyTheLog(t)
    && (t.finished <==> t.events != [] && IsLast(t.events[|t.events| - 1]))
    && (t.finished ==> t.listeners == [])
  }

  lemma {:induction false} WithoutMembers(ws: seq<nat>, gone: set<nat>)
    ensures forall w :: w in Without(ws, gone) <==> w in ws && w !in gone
    ensures Distinct(ws) ==> Distinct(Without(ws, gone))
  {
    if ws != [] {
      var before, last := ws[..|ws| - 1], ws[|ws| - 1];
      WithoutMembers(before, gone);
      assert ws == before + [last];
      if Distinct(ws) {
        assert last !in before;
        assert Distinct(before);
      }
    }
  }

  lemma EmitKeeps(t: Turn, e: Event, throwing: set<nat>)
    requires Inv(t)
    ensures Inv(Emitted(t, e, throwing))
  {
    if !t.finished {
      var u := Emitted(t, e, throwing);
      WithoutMembers(t.listeners, throwing);
      assert forall i: nat | i < |t.events| :: u.events[i] == t.events[i] && !IsLast(t.events[i]);
      assert UpToDate(u);
      forall w | w in u.received ensures u.received[w] <= u.events || u.received[w] == [NOT_POSTED] {
        assert t.received[w] <= t.events || t.received[w] == [NOT_POSTED];
      }
    }
  }

  lemma FollowKeeps(t: Turn, w: nat, throwsAt: Option<nat>)
    requires Inv(t) && w !in t.received
    ensures Inv(Followed(t, w, throwsAt))
  {
    assert w !in t.listeners;
  }

  lemma GiveUpKeeps(t: Turn, w: nat)
    requires Inv(t)
    ensures Inv(GaveUp(t, w))
  {
    WithoutMembers(t.listeners, {w});
  }

  /** After every run each attached watcher has received exactly the log, the log has at most one terminal event and
      nothing after it, and a finished turn has no watchers. */
  lemma {:induction false} EveryRunKeeps(userId: string, steps: seq<Step>)
    requires LegalRun(userId, steps)
    ensures Inv(Run(userId, steps))
    decreases |steps|
  {
    if steps != [] {
      var before, s := steps[..|steps| - 1], steps[|steps| - 1];
      EveryRunKeeps(userId, before);
      var t := Run(userId, before);
      match s
      case Emit(e, throwing) => EmitKeeps(t, e, throwing);
      case Follow(w, throwsAt) => FollowKeeps(t, w, throwsAt);
      case GiveUp(w) => GiveUpKeeps(t, w);
      case Cancel =>
    }
  }

  // ---------------------------------------------------------- watchers that stay

  /** `w` joined without throwing and neither threw nor gave up since. */
  predicate Stayed(steps: seq<Step>, w: nat) {
    && steps != []
    && var s := steps[|steps| - 1];
       if s == Follow(w, None) then true
       else
         && Stayed(steps[..|steps| - 1], w)
         && (s.Emit? ==> w !in s.throwing)
         && (s.GiveUp? ==> s.w != w)
  }

  /** `w` has the log, and is attached as long as the turn runs. */
  predicate HasTheLog(t: Turn, w: nat) {
    w in t.received && t.received[w] == t.events && (!t.finished ==> w in t.listeners)
  }

  lemma StayStep(t: Turn, s: Step, w: nat)
    requires Inv(t) && HasTheLog(t, w) && NewWatcher(t, s)
    requires s.Emit? ==> w !in s.throwing
    requires s.GiveUp? ==> s.w != w
    ensures HasTheLog(Next(t, s), w)
  {
    match s
    case Emit(e, throwing) => WithoutMembers(t.listeners, throwing);
    case GiveUp(v) => WithoutMembers(t.listeners, {v});
    case _ =>
  }

  /** Whenever it joined, a watcher that stayed has the whole log, and is still attached until the turn is finished. */
  lemma {:induction false} StayedHasTheLog(userId: string, steps: seq<Step>, w: nat)
    requires LegalRun(userId, steps) && Stayed(steps, w)
    ensures HasTheLog(Run(userId, steps), w)
    decreases |steps|
  {
    var before, s := steps[..|steps| - 1], steps[|steps| - 1];
    if s != Follow(w, None) {
      EveryRunKeeps(userId, before);
      StayedHasTheLog(userId, before, w);
      StayStep(Run(userId, before), s, w);
    }
  }

  /** The log only grows, and not once the turn is finished. */
  lemma {:induction false} LogGrows(userId: string, steps: seq<Step>, more: seq<Step>)
    ensures var t, u := Run(userId, steps), Run(userId, steps + more);
            t.events <= u.events && (t.finished ==> u.finished && u.events == t.events)
    decreases |more|
  {
    if more == [] {
      assert steps + more == steps;
    } else {
      LogGrows(userId, steps, more[..|more| - 1]);
      assert (steps + more)[..|steps + more| - 1] == steps + more[..|more| - 1];
    }
  }
}

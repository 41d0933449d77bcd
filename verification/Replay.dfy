/** What `History` guarantees about the turns it rebuilds, for any rows. */
module Replay {
  import opened Common
  import opened Messages
  import opened History

  /** A stored message with an empty list of calls. */
  predicate HollowRow(row: Row) {
    row.role == RoleAssistant && row.toolCalls == Some([])
  }

  /** One of the turn's rows is such a message. */
  predicate Hollow(t: StoredTurn) {
    exists i: nat :: i < |t.rows| && HollowRow(t.rows[i])
  }

  lemma HollowMore(t: StoredTurn, u: StoredTurn, row: Row)
    requires u.rows == t.rows + [row]
    ensures Hollow(u) <==> Hollow(t) || HollowRow(row)
  {
    assert u.rows[|t.rows|] == row;
    if Hollow(t) {
      var i: nat :| i < |t.rows| && HollowRow(t.rows[i]);
      assert u.rows[i] == t.rows[i];
    }
  }

  // ------------------------------------------------------------- a turn in progress

  /** Some calls answered, the others still open; nothing else. */
  ghost predicate Partial(calls: seq<ToolCall>, tools: seq<Message>, open: seq<OpenCall>) {
    && (forall i | 0 <= i < |tools| :: tools[i].Tool? && Called(calls, tools[i].callId))
    && (forall i, j | 0 <= i < j < |tools| :: tools[i].callId != tools[j].callId)
    && (forall i | 0 <= i < |open| :: Called(calls, open[i].id))
    && DistinctOpen(open)
    && (forall i, j | 0 <= i < |tools| && 0 <= j < |open| :: tools[i].callId != open[j].id)
    && (forall c | c in calls :: Answered(tools, c.id) || IsOpen(open, c.id))
  }

  ghost predicate DistinctOpen(open: seq<OpenCall>) {
    forall i, j | 0 <= i < j < |open| :: open[i].id != open[j].id
  }

  ghost predicate Sound(t: StoredTurn) {
    WellFormed(t.messages) <==> !Hollow(t)
  }

  ghost predicate PendingAt(t: StoredTurn, open: seq<OpenCall>, done: seq<Message>, calls: seq<ToolCall>,
                            tools: seq<Message>)
  {
    && t.messages == done + ([Assistant(None, Some(calls))] + tools)
    && calls != [] && Partial(calls, tools, open)
    && (WellFormed(done) <==> !Hollow(t))
  }

  ghost predicate Pending(t: StoredTurn, open: seq<OpenCall>) {
    if open == [] then Sound(t) else exists done, calls, tools :: PendingAt(t, open, done, calls, tools)
  }

  lemma RoundAnswered(calls: seq<ToolCall>, tools: seq<Message>)
    requires calls != [] && forall i | 0 <= i < |tools| :: tools[i].Tool?
    ensures WellFormed([Assistant(None, Some(calls))] + tools) <==> Answers(calls, tools)
  {
    var ms := [Assistant(None, Some(calls))] + tools;
    assert ms[1..] == tools;
    AllTools(tools);
    assert tools[..|tools|] == tools && tools[|tools|..] == [];
  }

  /** When nothing is open any more, the round stands. */
  lemma RoundStands(t: StoredTurn, done: seq<Message>, calls: seq<ToolCall>, tools: seq<Message>)
    requires PendingAt(t, [], done, calls, tools)
    ensures Sound(t)
  {
    assert Answers(calls, tools);
    RoundAnswered(calls, tools);
    WellFormedConcat(done, [Assistant(None, Some(calls))] + tools);
  }

  /** The next open call is answered, whoever answers it. */
  lemma PartialAnswer(calls: seq<ToolCall>, tools: seq<Message>, open: seq<OpenCall>, id: string, text: string)
    requires Partial(calls, tools, open) && IsOpen(open, id)
    ensures Partial(calls, tools + [Tool(id, text)], Without(open, id))
  {
    WithoutFacts(open, id);
    var tools' := tools + [Tool(id, text)];
    forall c | c in calls ensures Answered(tools', c.id) || IsOpen(Without(open, id), c.id) {
      if Answered(tools, c.id) {
        var i :| 0 <= i < |tools| && tools[i].Tool? && tools[i].callId == c.id;
        assert tools'[i].callId == c.id;
      } else if c.id == id {
        assert tools'[|tools|].callId == id;
      }
    }
  }

  lemma {:induction false} WithoutFacts(open: seq<OpenCall>, id: string)
    requires DistinctOpen(open) && IsOpen(open, id)
    ensures DistinctOpen(Without(open, id))
    ensures forall x :: IsOpen(Without(open, id), x) <==> IsOpen(open, x) && x != id
    ensures forall i | 0 <= i < |Without(open, id)| :: Without(open, id)[i] in open && Without(open, id)[i].id != id
  {
    if open[0].id == id {
      forall x ensures IsOpen(open[1..], x) <==> IsOpen(open, x) && x != id {
        if IsOpen(open, x) && x != id {
          var i :| 0 <= i < |open| && open[i].id == x;
          assert open[1..][i - 1].id == x;
        }
      }
    } else {
      var i :| 0 <= i < |open| && open[i].id == id;
      assert open[1..][i - 1].id == id;
      WithoutFacts(open[1..], id);
      var r := [open[0]] + Without(open[1..], id);
      forall x ensures IsOpen(r, x) <==> IsOpen(open, x) && x != id {
        OpenCons(open[0], Without(open[1..], id), x);
        assert open == [open[0]] + open[1..];
        OpenCons(open[0], open[1..], x);
      }
      forall k | 0 < k < |r| ensures r[k].id != open[0].id {
        assert r[k] in open[1..];
        var m :| 0 <= m < |open[1..]| && open[1..][m] == r[k];
        assert open[m + 1] == r[k];
      }
    }
  }

  lemma OpenCons(o: OpenCall, rest: seq<OpenCall>, x: string)
    ensures IsOpen([o] + rest, x) <==> o.id == x || IsOpen(rest, x)
  {
    var r := [o] + rest;
    if o.id == x { assert r[0].id == x; }
    if IsOpen(rest, x) {
      var i :| 0 <= i < |rest| && rest[i].id == x;
      assert r[i + 1].id == x;
    }
    if IsOpen(r, x) && o.id != x {
      var i :| 0 <= i < |r| && r[i].id == x;
      assert rest[i - 1].id == x;
    }
  }

  // ----------------------------------------------------------------- closing

  lemma {:induction false} ClosersPartial(calls: seq<ToolCall>, tools: seq<Message>, open: seq<OpenCall>)
    requires Partial(calls, tools, open)
    ensures Partial(calls, tools + Closers(open), [])
    decreases |open|
  {
    if open == [] {
      assert tools + Closers(open) == tools;
    } else {
      assert open[0].id == open[0].id;
      PartialAnswer(calls, tools, open, open[0].id, NO_RESULT);
      ClosersPartial(calls, tools + [Tool(open[0].id, NO_RESULT)], open[1..]);
      assert tools + Closers(open) == tools + [Tool(open[0].id, NO_RESULT)] + Closers(open[1..]);
    }
  }

  lemma CloseSound(t: StoredTurn, open: seq<OpenCall>)
    requires Pending(t, open)
    ensures Sound(Closed(t, open))
  {
    if open == [] {
      assert Closed(t, open).messages == t.messages;
    } else {
      var done, calls, tools :| PendingAt(t, open, done, calls, tools);
      ClosersPartial(calls, tools, open);
      var head := [Assistant(None, Some(calls))];
      assert t.messages + Closers(open) == done + (head + (tools + Closers(open)));
      RoundStands(Closed(t, open), done, calls, tools + Closers(open));
    }
  }

  lemma {:induction false} ClosersAreTools(open: seq<OpenCall>)
    ensures forall i | 0 <= i < |Closers(open)| :: Closers(open)[i].Tool?
  {
    if open != [] { ClosersAreTools(open[1..]); }
  }

  // ------------------------------------------------------------------ one row

  lemma {:induction false} OpenedFacts(open: seq<OpenCall>, c: OpenCall)
    requires DistinctOpen(open)
    ensures DistinctOpen(Opened(open, c)) && Opened(open, c) != []
    ensures forall x :: IsOpen(Opened(open, c), x) <==> IsOpen(open, x) || x == c.id
  {
    if open == [] {
      forall x ensures IsOpen([c], x) <==> x == c.id { OpenCons(c, [], x); assert [c] + [] == [c]; }
    } else {
      var rest := if open[0].id == c.id then open[1..] else Opened(open[1..], c);
      var first := if open[0].id == c.id then c else open[0];
      if open[0].id != c.id { OpenedFacts(open[1..], c); }
      forall x ensures IsOpen([first] + rest, x) <==> IsOpen(open, x) || x == c.id {
        OpenCons(first, rest, x);
        OpenCons(open[0], open[1..], x);
        assert open == [open[0]] + open[1..];
      }
      forall m | 0 <= m < |open[1..]| ensures open[1..][m].id != open[0].id {
        assert open[1..][m] == open[m + 1];
      }
      forall k | 0 <= k < |rest| ensures rest[k].id != first.id {
        assert IsOpen(rest, rest[k].id);
      }
    }
  }

  lemma {:induction false} OpenedAllFacts(open: seq<OpenCall>, calls: seq<ToolCall>)
    requires DistinctOpen(open)
    ensures DistinctOpen(OpenedAll(open, calls)) && (calls != [] || open != [] ==> OpenedAll(open, calls) != [])
    ensures forall x :: IsOpen(OpenedAll(open, calls), x) <==> IsOpen(open, x) || Called(calls, x)
    decreases |calls|
  {
    if calls != [] {
      var c := OpenCall(calls[0].id, calls[0].name);
      OpenedFacts(open, c);
      OpenedAllFacts(Opened(open, c), calls[1..]);
      forall x ensures Called(calls, x) <==> calls[0].id == x || Called(calls[1..], x) {
        if Called(calls[1..], x) {
          var i :| 0 <= i < |calls[1..]| && calls[1..][i].id == x;
          assert calls[i + 1].id == x;
        }
        if Called(calls, x) && calls[0].id != x {
          var i :| 0 <= i < |calls| && calls[i].id == x;
          assert calls[1..][i - 1].id == x;
        }
      }
    }
  }

  lemma FreshRound(calls: seq<ToolCall>)
    ensures Partial(calls, [], OpenedAll([], calls)) && (calls != [] ==> OpenedAll([], calls) != [])
  {
    OpenedAllFacts([], calls);
    var open := OpenedAll([], calls);
    forall i | 0 <= i < |open| ensures Called(calls, open[i].id) {
      assert IsOpen(open, open[i].id);
    }
    forall c | c in calls ensures IsOpen(open, c.id) {
      var i :| 0 <= i < |calls| && calls[i] == c;
      assert Called(calls, c.id);
    }
  }

  lemma TakeToolPending(t: StoredTurn, open: seq<OpenCall>, row: Row, current: string -> string)
    requires Pending(t, open) && row.role == RoleTool && Present(row.callId) && IsOpen(open, row.callId.value)
    ensures var (t', open') := TakeRow(t, open, row, current); Pending(t', open')
  {
    var (t', open') := TakeRow(t, open, row, current);
    HollowMore(t, t', row);
    var done, calls, tools :| PendingAt(t, open, done, calls, tools);
    var m := t'.messages[|t'.messages| - 1];
    PartialAnswer(calls, tools, open, row.callId.value, m.text);
    var head := [Assistant(None, Some(calls))];
    assert t'.messages == done + (head + (tools + [m]));
    assert PendingAt(t', open', done, calls, tools + [m]);
    if open' == [] { RoundStands(t', done, calls, tools + [m]); }
  }

  lemma TakeCallsPending(t: StoredTurn, open: seq<OpenCall>, row: Row, current: string -> string)
    requires Pending(t, open) && row.role == RoleAssistant && row.toolCalls.Some?
    ensures var (t', open') := TakeRow(t, open, row, current); Pending(t', open')
  {
    var (t', open') := TakeRow(t, open, row, current);
    HollowMore(t, t', row);
    var calls := row.toolCalls.value;
    CloseSound(t, open);
    var done := Closed(t, open).messages;
    if calls == [] {
      var hollow := [Assistant(None, Some([]))];
      assert t'.messages == done + hollow;
      WellFormedConcat(done, hollow);
      assert !WellFormed(hollow);
    } else {
      FreshRound(calls);
      assert t'.messages == done + ([Assistant(None, Some(calls))] + []);
      assert PendingAt(t', open', done, calls, []);
    }
  }

  lemma TakeTextPending(t: StoredTurn, open: seq<OpenCall>, row: Row, current: string -> string)
    requires Pending(t, open) && row.role == RoleAssistant && row.toolCalls == None && Present(row.content)
    ensures var (t', open') := TakeRow(t, open, row, current); Pending(t', open')
  {
    var (t', _) := TakeRow(t, open, row, current);
    HollowMore(t, t', row);
    CloseSound(t, open);
    var answer := [Assistant(row.content, None)];
    assert t'.messages == Closed(t, open).messages + answer;
    assert answer[1..] == [];
    WellFormedConcat(Closed(t, open).messages, answer);
  }

  /** A row that says nothing. */
  lemma SkippedPending(t: StoredTurn, open: seq<OpenCall>, row: Row)
    requires Pending(t, open) && !HollowRow(row)
    ensures Pending(t.(rows := t.rows + [row]), open)
  {
    var u := t.(rows := t.rows + [row]);
    HollowMore(t, u, row);
    if open != [] {
      var done, calls, tools :| PendingAt(t, open, done, calls, tools);
      assert PendingAt(u, open, done, calls, tools);
    }
  }

  lemma TakeRowKeeps(t: StoredTurn, open: seq<OpenCall>, row: Row, current: string -> string)
    requires Pending(t, open) && OneQuestion(t.messages) && row.role != RoleUser
    ensures var (t', open') := TakeRow(t, open, row, current); Pending(t', open') && OneQuestion(t'.messages)
  {
    ClosersAreTools(open);
    if row.role == RoleTool {
      if Present(row.callId) && IsOpen(open, row.callId.value) {
        TakeToolPending(t, open, row, current);
      } else {
        SkippedPending(t, open, row);
      }
    } else if row.toolCalls.Some? {
      TakeCallsPending(t, open, row, current);
    } else if Present(row.content) {
      TakeTextPending(t, open, row, current);
    } else {
      SkippedPending(t, open, row);
    }
  }

  // ----------------------------------------------------------------- all rows

  ghost predicate GoodTurn(t: StoredTurn) {
    Sound(t) && OneQuestion(t.messages)
  }

  /** Whatever the rows: every turn is one question followed by no other, and it is a well formed conversation
      exactly when none of its rows carried an empty list of calls. */
  lemma {:induction false} TurnsGood(rows: seq<Row>, current: string -> string)
    ensures forall t | t in TurnsOf(rows, current) :: GoodTurn(t)
    decreases |rows|, 0
  {
    if rows != [] {
      if rows[0].role == RoleUser && Present(rows[0].content) {
        var t := NewTurn(rows[0].content.value);
        assert t.messages[1..] == [];
        LiveGood(t, [], rows[1..], current);
      } else {
        TurnsGood(rows[1..], current);
      }
    }
  }

  lemma {:induction false} LiveGood(t: StoredTurn, open: seq<OpenCall>, rows: seq<Row>, current: string -> string)
    requires Pending(t, open) && OneQuestion(t.messages)
    ensures forall u | u in LiveTurns(t, open, rows, current) :: GoodTurn(u)
    decreases |rows|, 1
  {
    if rows == [] || rows[0].role == RoleUser {
      CloseSound(t, open);
      ClosersAreTools(open);
      assert GoodTurn(Closed(t, open));
      TurnsGood(rows, current);
    } else {
      var (t', open') := TakeRow(t, open, rows[0], current);
      TakeRowKeeps(t, open, rows[0], current);
      LiveGood(t', open', rows[1..], current);
    }
  }

  // ----------------------------------------------------- the rows behind a question

  /** How many rows follow before the next question. */
  function Behind(rows: seq<Row>): (k: nat)
    ensures k <= |rows| && (k < |rows| ==> rows[k].role == RoleUser)
    ensures forall i: nat | i < k :: rows[i].role != RoleUser
  {
    if rows == [] || rows[0].role == RoleUser then 0 else 1 + Behind(rows[1..])
  }

  lemma TakeRowStays(t: StoredTurn, open: seq<OpenCall>, row: Row, current: string -> string)
    requires row.role != RoleUser && t.messages != []
    ensures var u := TakeRow(t, open, row, current).0;
            u.rows == t.rows + [row] && u.messages != [] && u.messages[0] == t.messages[0]
  {
  }

  /** The turn in progress takes the rows up to the next question; the rest of the turns begin there. */
  lemma {:induction false} LiveRows(t: StoredTurn, open: seq<OpenCall>, rows: seq<Row>, current: string -> string)
    returns (u: StoredTurn)
    requires t.messages != []
    ensures LiveTurns(t, open, rows, current) == [u] + TurnsOf(rows[Behind(rows)..], current)
    ensures u.rows == t.rows + rows[..Behind(rows)] && u.messages != [] && u.messages[0] == t.messages[0]
    decreases |rows|
  {
    if rows == [] || rows[0].role == RoleUser {
      u := Closed(t, open);
      assert rows[..0] == [] && rows[0..] == rows;
    } else {
      var (t', open') := TakeRow(t, open, rows[0], current);
      TakeRowStays(t, open, rows[0], current);
      u := LiveRows(t', open', rows[1..], current);
      var k := Behind(rows[1..]);
      assert rows[1..][k..] == rows[1 + k..];
      assert rows[..1 + k] == [rows[0]] + rows[1..][..k];
    }
  }

  /** The turn stands at row `i`: its question, and behind it exactly the rows up to the next question. */
  ghost predicate StandsAt(t: StoredTurn, rows: seq<Row>, i: nat) {
    && i < |rows| && rows[i].role == RoleUser && Present(rows[i].content)
    && t.messages != [] && t.messages[0] == User(rows[i].content.value)
    && t.rows == rows[i + 1..][..Behind(rows[i + 1..])]
  }

  lemma StandsLater(t: StoredTurn, rows: seq<Row>, d: nat, i: nat)
    requires d <= |rows| && StandsAt(t, rows[d..], i)
    ensures StandsAt(t, rows, d + i)
  {
    assert rows[d..][i] == rows[d + i] && rows[d..][i + 1..] == rows[d + i + 1..];
  }

  /** A question's turn, the stored rows behind it, and the turns of what follows. */
  lemma TurnStands(rows: seq<Row>, current: string -> string) returns (u: StoredTurn, k: nat)
    requires rows != [] && rows[0].role == RoleUser && Present(rows[0].content)
    ensures k < |rows| && StandsAt(u, rows, 0) && TurnsOf(rows, current) == [u] + TurnsOf(rows[1 + k..], current)
  {
    var t := NewTurn(rows[0].content.value);
    u := LiveRows(t, [], rows[1..], current);
    k := Behind(rows[1..]);
    assert rows[1..][k..] == rows[1 + k..];
    assert t.rows + rows[1..][..k] == rows[1..][..k];
  }

  /** What `rows` of a turn records: the stored rows behind its question. */
  lemma {:induction false} TurnHasItsRows(rows: seq<Row>, current: string -> string, t: StoredTurn) returns (i: nat)
    requires t in TurnsOf(rows, current)
    ensures StandsAt(t, rows, i)
    decreases |rows|
  {
    hide StandsAt, LiveTurns;
    if rows[0].role == RoleUser && Present(rows[0].content) {
      var u, k := TurnStands(rows, current);
      if t == u {
        i := 0;
      } else {
        i := TurnHasItsRows(rows[1 + k..], current, t);
        StandsLater(t, rows, 1 + k, i);
        i := 1 + k + i;
      }
    } else {
      i := TurnHasItsRows(rows[1..], current, t);
      StandsLater(t, rows, 1, i);
      i := 1 + i;
    }
  }

  // ------------------------------------------------------------ the conversation

  predicate Whole(ts: seq<StoredTurn>, i: nat)
    requires i < |ts|
  {
    !GoesAsSummary(ts[i], i < |ts| - WHOLE_TURNS)
  }

  lemma {:induction false} ReplayedWellFormed(ts: seq<StoredTurn>, note: seq<Note> -> string)
    requires forall t | t in ts :: GoodTurn(t)
    ensures WellFormed(ReplayedAll(ts, note)) <==> forall i | 0 <= i < |ts| && Whole(ts, i) :: !Hollow(ts[i])
    ensures ReplayedAll(ts, note) != [] ==> ReplayedAll(ts, note)[0].User?
  {
    if ts != [] {
      var first, rest := Replayed(ts[0], |ts| > WHOLE_TURNS, note), ReplayedAll(ts[1..], note);
      assert GoodTurn(ts[0]);
      ReplayedWellFormed(ts[1..], note);
      WellFormedConcat(first, rest);
      if !Whole(ts, 0) { SummaryWellFormed(first); }
      forall i | 0 <= i < |ts| - 1 ensures Whole(ts[1..], i) <==> Whole(ts, i + 1) { }
      assert forall i | 0 < i < |ts| :: ts[i] == ts[1..][i - 1] && (Whole(ts, i) <==> Whole(ts[1..], i - 1));
    }
  }

  lemma SummaryWellFormed(ms: seq<Message>)
    requires |ms| == 2 && ms[0].User? && ms[1].Assistant? && ms[1].toolCalls == None
    requires ms[1].content.Some? && ms[1].content.value != ""
    ensures WellFormed(ms)
  {
    assert ms[1..][0] == ms[1] && ms[1..][1..] == [];
  }

  lemma {:induction false} CompleteOnlyFacts(ts: seq<StoredTurn>)
    ensures forall t | t in CompleteOnly(ts) :: t in ts && Complete(t)
  {
    if ts != [] { CompleteOnlyFacts(ts[1..]); }
  }

  lemma KeptGood(rows: seq<Row>, current: string -> string)
    ensures |Kept(rows, current)| <= HISTORY_TURNS
    ensures forall t | t in Kept(rows, current) :: GoodTurn(t) && Complete(t)
  {
    var window := Last(rows, ROW_LIMIT);
    TurnsGood(window, current);
    CompleteOnlyFacts(TurnsOf(window, current));
    var all := CompleteOnly(TurnsOf(window, current));
    forall t | t in Last(all, HISTORY_TURNS) ensures t in all { }
  }

  /** `history` for any rows whatever: at most fifty complete turns, and a well formed conversation exactly when no
      turn replayed whole holds a row with an empty list of calls. */
  lemma HistoryWellFormedIff(rows: seq<Row>, current: string -> string, note: seq<Note> -> string)
    ensures WellFormed(HistoryOf(rows, current, note)) <==>
              forall i | 0 <= i < |Kept(rows, current)| && Whole(Kept(rows, current), i) :: !Hollow(Kept(rows, current)[i])
    ensures HistoryOf(rows, current, note) != [] ==> HistoryOf(rows, current, note)[0].User?
  {
    KeptGood(rows, current);
    ReplayedWellFormed(Kept(rows, current), note);
  }

  // ------------------------------------------------------- when rows are hollow

  lemma {:induction false} NotHollow(rows: seq<Row>, current: string -> string)
    requires forall r | r in rows :: !HollowRow(r)
    ensures forall t | t in TurnsOf(rows, current) :: !Hollow(t)
    decreases |rows|, 0
  {
    if rows != [] {
      if rows[0].role == RoleUser && Present(rows[0].content) {
        LiveNotHollow(NewTurn(rows[0].content.value), [], rows[1..], current);
      } else {
        NotHollow(rows[1..], current);
      }
    }
  }

  lemma {:induction false} LiveNotHollow(t: StoredTurn, open: seq<OpenCall>, rows: seq<Row>, current: string -> string)
    requires !Hollow(t) && forall r | r in rows :: !HollowRow(r)
    ensures forall u | u in LiveTurns(t, open, rows, current) :: !Hollow(u)
    decreases |rows|, 1
  {
    if rows == [] || rows[0].role == RoleUser {
      NotHollow(rows, current);
    } else {
      assert !HollowRow(rows[0]);
      var (t', open') := TakeRow(t, open, rows[0], current);
      HollowMore(t, t', rows[0]);
      LiveNotHollow(t', open', rows[1..], current);
    }
  }

  /** The guard a caller can check: no stored row has an empty list of calls. */
  lemma HistoryWellFormed(rows: seq<Row>, current: string -> string, note: seq<Note> -> string)
    requires forall r | r in rows :: !HollowRow(r)
    ensures WellFormed(HistoryOf(rows, current, note))
  {
    HistoryWellFormedIff(rows, current, note);
    var window := Last(rows, ROW_LIMIT);
    NotHollow(window, current);
    CompleteOnlyFacts(TurnsOf(window, current));
    forall t | t in Kept(rows, current) ensures !Hollow(t) { }
  }

  /** Without it: a question, a row with an empty list of calls, an answer. */
  lemma HollowRowBreaks(current: string -> string, note: seq<Note> -> string)
    ensures var rows := [Row(RoleUser, Some("q"), None, None, None, None),
                         Row(RoleAssistant, None, Some([]), None, None, None),
                         Row(RoleAssistant, Some("a"), None, None, None, None)];
            HistoryOf(rows, current, note) == [User("q"), Assistant(None, Some([])), Assistant(Some("a"), None)]
            && !WellFormed(HistoryOf(rows, current, note))
  {
    var q := Row(RoleUser, Some("q"), None, None, None, None);
    var c := Row(RoleAssistant, None, Some([]), None, None, None);
    var a := Row(RoleAssistant, Some("a"), None, None, None, None);
    var rows := [q, c, a];
    var t0 := NewTurn("q");
    var (t1, o1) := TakeRow(t0, [], c, current);
    var (t2, o2) := TakeRow(t1, o1, a, current);
    assert rows[1..] == [c, a] && [c, a][1..] == [a] && [a][1..] == [];
    assert LiveTurns(t2, o2, [], current) == [Closed(t2, o2)];
    assert LiveTurns(t1, o1, [a], current) == [Closed(t2, o2)];
    assert LiveTurns(t0, [], [c, a], current) == [Closed(t2, o2)];
    assert TurnsOf(rows, current) == [Closed(t2, o2)];
    var t := Closed(t2, o2);
    assert t.messages == [User("q"), Assistant(None, Some([])), Assistant(Some("a"), None)];
    assert [t][1..] == [];
    assert CompleteOnly([t][1..]) == [] && CompleteOnly([t]) == [t];
    assert ReplayedAll([t][1..], note) == [] && ReplayedAll([t], note) == t.messages;
    assert t.messages[1..][0] == Assistant(None, Some([]));
  }
}

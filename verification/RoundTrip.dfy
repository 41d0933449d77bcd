/** Storing turns and replaying them gives the same turns back, but for the text beside tool calls. */
module RoundTrip {
  import opened Common
  import opened Messages
  import opened History
  import opened Replay

  /** What a finished turn leaves: one question, answered calls, an answer in words. */
  ghost predicate Transcript(ms: seq<Message>, current: string -> string) {
    && OneQuestion(ms) && ms[0].text != "" && WellFormed(ms)
    && ms[|ms| - 1].Assistant? && ms[|ms| - 1].toolCalls == None
    && forall m | m in ms :: Storable(m, current)
  }

  /** Call ids are not empty, no list of calls is, and no proposal of the turn was decided since. */
  ghost predicate Storable(m: Message, current: string -> string) {
    && (m.Assistant? ==> m.toolCalls != Some([]))
    && (m.Tool? ==> m.callId != "" && current(m.text) == m.text)
  }

  function Erased(m: Message): Message {
    if m.Assistant? && m.toolCalls.Some? then m.(content := None) else m
  }

  function Erase(ms: seq<Message>): seq<Message> {
    if ms == [] then [] else [Erased(ms[0])] + Erase(ms[1..])
  }

  /** The tool behind a call id: that of the last call with it. */
  function NameIn(calls: seq<ToolCall>, id: string): string {
    if calls == [] then ""
    else if Called(calls[1..], id) then NameIn(calls[1..], id)
    else if calls[0].id == id then calls[0].name else ""
  }

  /** The stored one-line form of a result, as it reads now. */
  function DigestNow(results: map<string, string>, id: string, current: string -> string): Option<string> {
    if id in results then Some(current(results[id])) else None
  }

  /** What is noted of a turn: for each result its call, tool and one-line form. `calls` are those of the round so far. */
  function NotesOf(calls: seq<ToolCall>, ms: seq<Message>, results: map<string, string>,
                   current: string -> string): seq<Note>
    decreases |ms|
  {
    if ms == [] then []
    else if ms[0].Tool? then
      [Note(ms[0].callId, NameIn(calls, ms[0].callId), DigestNow(results, ms[0].callId, current))]
      + NotesOf(calls, ms[1..], results, current)
    else NotesOf(Calls(ms[0]), ms[1..], results, current)
  }

  lemma {:induction false} NotesConcat(calls: seq<ToolCall>, a: seq<Message>, b: seq<Message>,
                                       results: map<string, string>,
                                       current: string -> string)
    requires b == [] || !b[0].Tool?
    ensures NotesOf(calls, a + b, results, current)
         == NotesOf(calls, a, results, current) + NotesOf([], b, results, current)
    decreases |a|
  {
    if a == [] {
      assert a + b == b;
    } else {
      assert (a + b)[0] == a[0] && (a + b)[1..] == a[1..] + b;
      NotesConcat(if a[0].Tool? then calls else Calls(a[0]), a[1..], b, results, current);
    }
  }

  /** The open calls have the names of these calls. */
  ghost predicate NamedBy(open: seq<OpenCall>, calls: seq<ToolCall>) {
    forall x: string | IsOpen(open, x) :: NameOf(open, x) == NameIn(calls, x)
  }

  lemma {:induction false} OpenedName(open: seq<OpenCall>, c: OpenCall, x: string)
    requires DistinctOpen(open) && IsOpen(Opened(open, c), x)
    ensures x != c.id ==> IsOpen(open, x)
    ensures NameOf(Opened(open, c), x) == if x == c.id then c.name else NameOf(open, x)
  {
    OpenedFacts(open, c);
    if open != [] && open[0].id != c.id && open[0].id != x {
      assert DistinctOpen(open[1..]) by {
        forall i, j | 0 <= i < j < |open[1..]| ensures open[1..][i].id != open[1..][j].id {
          assert open[i + 1].id != open[j + 1].id;
        }
      }
      OpenCons(open[0], Opened(open[1..], c), x);
      OpenedName(open[1..], c, x);
    }
  }

  lemma {:induction false} OpenedAllName(open: seq<OpenCall>, calls: seq<ToolCall>, x: string)
    requires DistinctOpen(open) && IsOpen(OpenedAll(open, calls), x)
    ensures !Called(calls, x) ==> IsOpen(open, x)
    ensures NameOf(OpenedAll(open, calls), x) == if Called(calls, x) then NameIn(calls, x) else NameOf(open, x)
    decreases |calls|
  {
    OpenedAllFacts(open, calls);
    if calls != [] {
      var c := OpenCall(calls[0].id, calls[0].name);
      OpenedFacts(open, c);
      OpenedAllName(Opened(open, c), calls[1..], x);
      CalledCons(calls, x);
      if !Called(calls[1..], x) { OpenedName(open, c, x); }
    }
  }

  lemma CalledCons(calls: seq<ToolCall>, x: string)
    requires calls != []
    ensures Called(calls, x) <==> calls[0].id == x || Called(calls[1..], x)
  {
    if Called(calls[1..], x) {
      var i :| 0 <= i < |calls[1..]| && calls[1..][i].id == x;
      assert calls[i + 1].id == x;
    }
    if Called(calls, x) && calls[0].id != x {
      var i :| 0 <= i < |calls| && calls[i].id == x;
      assert calls[1..][i - 1].id == x;
    }
  }

  lemma {:induction false} WithoutName(open: seq<OpenCall>, id: string, x: string)
    requires x != id && IsOpen(open, x) && IsOpen(Without(open, id), x)
    ensures NameOf(Without(open, id), x) == NameOf(open, x)
  {
    if open[0].id != id && open[0].id != x {
      OpenCons(open[0], open[1..], x);
      OpenCons(open[0], Without(open[1..], id), x);
      assert open == [open[0]] + open[1..];
      WithoutName(open[1..], id, x);
    }
  }

  // ------------------------------------------------------------- rows of a turn

  function TakeAll(t: StoredTurn, open: seq<OpenCall>, rows: seq<Row>,
                   current: string -> string): (StoredTurn, seq<OpenCall>)
    requires forall r | r in rows :: r.role != RoleUser
    decreases |rows|
  {
    if rows == [] then (t, open)
    else
      var (t', open') := TakeRow(t, open, rows[0], current);
      TakeAll(t', open', rows[1..], current)
  }

  lemma {:induction false} LiveTakesAll(t: StoredTurn, open: seq<OpenCall>, rows: seq<Row>, rest: seq<Row>,
                                        current: string -> string)
    requires forall r | r in rows :: r.role != RoleUser
    ensures var (t', open') := TakeAll(t, open, rows, current);
            LiveTurns(t, open, rows + rest, current) == LiveTurns(t', open', rest, current)
    decreases |rows|
  {
    if rows == [] {
      assert rows + rest == rest;
    } else {
      assert (rows + rest)[0] == rows[0] && (rows + rest)[1..] == rows[1..] + rest;
      var (t', open') := TakeRow(t, open, rows[0], current);
      LiveTakesAll(t', open', rows[1..], rest, current);
    }
  }

  lemma {:induction false} TakeAllConcat(t: StoredTurn, open: seq<OpenCall>, a: seq<Row>, b: seq<Row>,
                                         current: string -> string)
    requires forall r | r in a + b :: r.role != RoleUser
    ensures (forall r | r in a :: r.role != RoleUser) && (forall r | r in b :: r.role != RoleUser)
    ensures var (t', open') := TakeAll(t, open, a, current);
            TakeAll(t, open, a + b, current) == TakeAll(t', open', b, current)
    decreases |a|
  {
    assert forall r | r in a :: r in a + b;
    assert forall r | r in b :: r in a + b;
    if a == [] {
      assert a + b == b;
    } else {
      assert (a + b)[1..] == a[1..] + b;
      var (t', open') := TakeRow(t, open, a[0], current);
      TakeAllConcat(t', open', a[1..], b, current);
    }
  }

  lemma {:induction false} NoUserRows(ms: seq<Message>, results: map<string, string>)
    requires forall m | m in ms :: !m.User?
    ensures forall r | r in RowsOf(ms, results) :: r.role != RoleUser
  {
    if ms != [] { NoUserRows(ms[1..], results); }
  }

  /** Exactly the calls that `tools` answer are open. */
  ghost predicate OpenFor(open: seq<OpenCall>, tools: seq<Message>) {
    DistinctOpen(open) && forall x: string :: IsOpen(open, x) <==> Answered(tools, x)
  }

  ghost predicate DistinctAnswers(tools: seq<Message>, current: string -> string) {
    && (forall i | 0 <= i < |tools| :: tools[i].Tool? && Storable(tools[i], current))
    && (forall i, j | 0 <= i < j < |tools| :: tools[i].callId != tools[j].callId)
  }

  lemma NoneOpen(open: seq<OpenCall>)
    requires OpenFor(open, [])
    ensures open == []
  {
    if open != [] { assert IsOpen(open, open[0].id); }
  }

  /** The first result closes its call and no other. */
  lemma OpenForRest(open: seq<OpenCall>, tools: seq<Message>, current: string -> string)
    requires tools != [] && DistinctAnswers(tools, current) && OpenFor(open, tools)
    ensures IsOpen(open, tools[0].callId) && OpenFor(Without(open, tools[0].callId), tools[1..])
    ensures DistinctAnswers(tools[1..], current)
  {
    var id := tools[0].callId;
    assert Answered(tools, id);
    WithoutFacts(open, id);
    forall x: string ensures IsOpen(Without(open, id), x) <==> Answered(tools[1..], x) {
      TailAnswered(tools, x);
    }
  }

  /** What the row of a result does to the turn. */
  lemma ToolRow(t: StoredTurn, open: seq<OpenCall>, m: Message, results: map<string, string>, current: string -> string)
    requires m.Tool? && Storable(m, current) && IsOpen(open, m.callId)
    ensures var (t', open') := TakeRow(t, open, RowOf(m, results), current);
            && t'.messages == t.messages + [m] && t'.summary == t.summary && open' == Without(open, m.callId)
            && t'.tools == t.tools + [Note(m.callId, NameOf(open, m.callId), DigestNow(results, m.callId, current))]
  {
  }

  lemma {:induction false} WithoutKeeps(open: seq<OpenCall>, id: string, x: string)
    requires DistinctOpen(open) && IsOpen(Without(open, id), x)
    ensures x != id && IsOpen(open, x)
  {
    if IsOpen(open, id) { WithoutFacts(open, id); } else { WithoutNone(open, id); }
  }

  lemma {:induction false} WithoutNone(open: seq<OpenCall>, id: string)
    requires !IsOpen(open, id)
    ensures Without(open, id) == open
  {
    if open != [] {
      assert open[0].id != id && open == [open[0]] + open[1..];
      OpenCons(open[0], open[1..], id);
      WithoutNone(open[1..], id);
    }
  }

  lemma NamedWithout(open: seq<OpenCall>, calls: seq<ToolCall>, id: string)
    requires DistinctOpen(open) && NamedBy(open, calls)
    ensures NamedBy(Without(open, id), calls)
  {
    forall x: string | IsOpen(Without(open, id), x) ensures NameOf(Without(open, id), x) == NameIn(calls, x) {
      WithoutKeeps(open, id, x);
      WithoutName(open, id, x);
    }
  }

  lemma TakeFirst(t: StoredTurn, open: seq<OpenCall>, row: Row, more: seq<Row>, current: string -> string)
    requires row.role != RoleUser && forall r | r in more :: r.role != RoleUser
    ensures forall r | r in [row] + more :: r.role != RoleUser
    ensures TakeAll(t, open, [row] + more, current)
         == var (t', open') := TakeRow(t, open, row, current); TakeAll(t', open', more, current)
  {
    assert ([row] + more)[1..] == more;
  }

  /** Results that answer exactly the open calls leave none open. */
  lemma {:induction false} ToolsReplay(t: StoredTurn, open: seq<OpenCall>, calls: seq<ToolCall>, tools: seq<Message>,
                                       results: map<string, string>, current: string -> string)
    requires DistinctAnswers(tools, current) && OpenFor(open, tools) && NamedBy(open, calls)
    ensures forall r | r in RowsOf(tools, results) :: r.role != RoleUser
    ensures var (t', open') := TakeAll(t, open, RowsOf(tools, results), current);
            && open' == [] && t'.messages == t.messages + tools && t'.summary == t.summary
            && t'.tools == t.tools + NotesOf(calls, tools, results, current)
    decreases |tools|
  {
    if tools == [] {
      NoneOpen(open);
      assert t.messages + tools == t.messages && t.tools + [] == t.tools;
    } else {
      OpenForRest(open, tools, current);
      ToolRow(t, open, tools[0], results, current);
      var (t', open') := TakeRow(t, open, RowOf(tools[0], results), current);
      NamedWithout(open, calls, tools[0].callId);
      ToolsReplay(t', open', calls, tools[1..], results, current);
      TakeFirst(t, open, RowOf(tools[0], results), RowsOf(tools[1..], results), current);
      Assoc(t.messages, [tools[0]], tools[1..]);
      assert [tools[0]] + tools[1..] == tools;
      Assoc(t.tools, [Note(tools[0].callId, NameIn(calls, tools[0].callId), DigestNow(results, tools[0].callId, current))],
            NotesOf(calls, tools[1..], results, current));
    }
  }

  lemma TailAnswered(tools: seq<Message>, x: string)
    requires tools != [] && forall i | 0 <= i < |tools| :: tools[i].Tool?
    requires forall i, j | 0 <= i < j < |tools| :: tools[i].callId != tools[j].callId
    ensures Answered(tools[1..], x) <==> Answered(tools, x) && x != tools[0].callId
  {
    if Answered(tools[1..], x) {
      var i :| 0 <= i < |tools[1..]| && tools[1..][i].Tool? && tools[1..][i].callId == x;
      assert tools[i + 1].callId == x;
    }
    if Answered(tools, x) && x != tools[0].callId {
      var i :| 0 <= i < |tools| && tools[i].Tool? && tools[i].callId == x;
      assert tools[1..][i - 1].callId == x;
    }
  }

  /** Turn `u` is turn `t` with `ms` replayed behind it, and noted. */
  ghost predicate Followed(t: StoredTurn, u: StoredTurn, ms: seq<Message>, results: map<string, string>,
                           current: string -> string)
  {
    && u.messages == t.messages + Erase(ms) && u.summary == None
    && u.tools == t.tools + NotesOf([], ms, results, current)
  }

  lemma Assoc<T>(a: seq<T>, b: seq<T>, c: seq<T>)
    ensures (a + b) + c == a + (b + c)
  {
  }

  lemma {:induction false} EraseConcat(a: seq<Message>, b: seq<Message>)
    ensures Erase(a + b) == Erase(a) + Erase(b)
  {
    if a == [] {
      assert a + b == b;
    } else {
      assert (a + b)[1..] == a[1..] + b;
      EraseConcat(a[1..], b);
    }
  }

  lemma {:induction false} EraseTools(tools: seq<Message>)
    requires forall i | 0 <= i < |tools| :: tools[i].Tool?
    ensures Erase(tools) == tools
  {
    if tools != [] {
      EraseTools(tools[1..]);
      assert tools == [tools[0]] + tools[1..];
    }
  }

  lemma {:induction false} EraseLast(ms: seq<Message>)
    ensures |Erase(ms)| == |ms|
    ensures ms != [] ==> Erase(ms)[|ms| - 1] == Erased(ms[|ms| - 1])
  {
    if ms != [] { EraseLast(ms[1..]); }
  }

  lemma FollowedTwice(t: StoredTurn, u: StoredTurn, v: StoredTurn, a: seq<Message>, b: seq<Message>,
                      results: map<string, string>, current: string -> string)
    requires Followed(t, u, a, results, current) && Followed(u, v, b, results, current) && (b == [] || !b[0].Tool?)
    ensures Followed(t, v, a + b, results, current)
  {
    EraseConcat(a, b);
    Assoc(t.messages, Erase(a), Erase(b));
    NotesConcat([], a, b, results, current);
    Assoc(t.tools, NotesOf([], a, results, current), NotesOf([], b, results, current));
  }

  /** What follows the question comes back as it was stored, calls without their text. */
  lemma {:induction false} BodyReplays(t: StoredTurn, ms: seq<Message>, results: map<string, string>,
                                       current: string -> string)
    requires WellFormed(ms) && t.summary == None
    requires forall m | m in ms :: !m.User? && Storable(m, current)
    ensures forall r | r in RowsOf(ms, results) :: r.role != RoleUser
    ensures var (t', open') := TakeAll(t, [], RowsOf(ms, results), current);
            open' == [] && Followed(t, t', ms, results, current)
    decreases |ms|
  {
    NoUserRows(ms, results);
    if ms == [] {
      assert t.messages + Erase(ms) == t.messages && t.tools + [] == t.tools;
    } else {
      var n := if Calls(ms[0]) == [] then 0 else LeadingTools(ms[1..]);
      var head, rest := [ms[0]] + ms[1..][..n], ms[1..][n..];
      assert ms == head + rest;
      assert ms[1..][0..] == ms[1..];
      NoUserRows(head, results);
      if n == 0 && Calls(ms[0]) == [] {
        assert head == [ms[0]];
        TextReplays(t, ms[0], results, current);
      } else {
        CallsReplay(t, ms[0], ms[1..][..n], results, current);
      }
      var (u, _) := TakeAll(t, [], RowsOf(head, results), current);
      BodyReplays(u, rest, results, current);
      RowsOfConcat(head, rest, results);
      TakeAllConcat(t, [], RowsOf(head, results), RowsOf(rest, results), current);
      var (v, _) := TakeAll(u, [], RowsOf(rest, results), current);
      FollowedTwice(t, u, v, head, rest, results, current);
    }
  }

  lemma TextReplays(t: StoredTurn, m: Message, results: map<string, string>, current: string -> string)
    requires WellFormed([m]) && Calls(m) == [] && !m.User? && Storable(m, current) && t.summary == None
    ensures forall r | r in RowsOf([m], results) :: r.role != RoleUser
    ensures var (t', open') := TakeAll(t, [], RowsOf([m], results), current);
            open' == [] && Followed(t, t', [m], results, current)
  {
    var row := RowOf(m, results);
    assert RowsOf([m], results) == [row] by { assert [m][1..] == []; }
    var (t', open') := TakeRow(t, [], row, current);
    assert [row][1..] == [] && TakeAll(t', open', [], current) == (t', open');
    assert Erase([m]) == [m];
    assert t.messages + [] + [m] == t.messages + [m];
    assert [m][1..] == [] && NotesOf([], [m], results, current) == [] && t.tools + [] == t.tools;
  }

  /** A message with calls and its results. */
  lemma CallsReplay(t: StoredTurn, m: Message, tools: seq<Message>, results: map<string, string>,
                    current: string -> string)
    requires m.Assistant? && Calls(m) != [] && t.summary == None
    requires forall i | 0 <= i < |tools| :: tools[i].Tool? && Storable(tools[i], current)
    requires Answers(Calls(m), tools)
    ensures forall r | r in RowsOf([m] + tools, results) :: r.role != RoleUser
    ensures var (t', open') := TakeAll(t, [], RowsOf([m] + tools, results), current);
            open' == [] && Followed(t, t', [m] + tools, results, current)
  {
    CallRow(t, m, results, current);
    CallsRows(m, tools, results);
    var (t1, open1) := TakeRow(t, [], RowOf(m, results), current);
    NowOpen(Calls(m), tools);
    ToolsReplay(t1, open1, Calls(m), tools, results, current);
    TakeFirst(t, [], RowOf(m, results), RowsOf(tools, results), current);
    EraseParts(m, tools);
    Assoc(t.messages, [Erased(m)], tools);
    assert ([m] + tools)[1..] == tools;
  }

  lemma CallsRows(m: Message, tools: seq<Message>, results: map<string, string>)
    requires m.Assistant? && forall i | 0 <= i < |tools| :: tools[i].Tool?
    ensures RowsOf([m] + tools, results) == [RowOf(m, results)] + RowsOf(tools, results)
    ensures ([RowOf(m, results)] + RowsOf(tools, results))[1..] == RowsOf(tools, results)
    ensures forall r | r in RowsOf([m] + tools, results) :: r.role != RoleUser
  {
    NoUserRows([m] + tools, results);
    assert ([m] + tools)[1..] == tools;
  }

  lemma NowOpen(calls: seq<ToolCall>, tools: seq<Message>)
    requires (forall i | 0 <= i < |tools| :: tools[i].Tool?) && Answers(calls, tools)
    ensures OpenFor(OpenedAll([], calls), tools) && NamedBy(OpenedAll([], calls), calls)
  {
    OpenedAllFacts([], calls);
    forall x: string | IsOpen(OpenedAll([], calls), x) ensures NameOf(OpenedAll([], calls), x) == NameIn(calls, x) {
      OpenedAllName([], calls, x);
    }
    forall x: string ensures IsOpen(OpenedAll([], calls), x) <==> Answered(tools, x) { AnsweredIffCalled(calls, tools, x); }
  }

  lemma CallRow(t: StoredTurn, m: Message, results: map<string, string>, current: string -> string)
    requires m.Assistant? && Calls(m) != []
    ensures var (t', open') := TakeRow(t, [], RowOf(m, results), current);
            && t'.messages == t.messages + [Erased(m)] && t'.summary == t.summary && t'.tools == t.tools
            && open' == OpenedAll([], Calls(m))
  {
    assert t.messages + [] + [Erased(m)] == t.messages + [Erased(m)];
  }

  lemma AnsweredIffCalled(calls: seq<ToolCall>, tools: seq<Message>, x: string)
    requires (forall i | 0 <= i < |tools| :: tools[i].Tool?) && Answers(calls, tools)
    ensures Answered(tools, x) <==> Called(calls, x)
  {
    if Answered(tools, x) {
      var i :| 0 <= i < |tools| && tools[i].Tool? && tools[i].callId == x;
      assert Called(calls, tools[i].callId);
    }
    if Called(calls, x) {
      var i :| 0 <= i < |calls| && calls[i].id == x;
      assert calls[i] in calls;
    }
  }

  lemma EraseParts(first: Message, tools: seq<Message>)
    requires forall i | 0 <= i < |tools| :: tools[i].Tool?
    ensures Erase([first] + tools) == [Erased(first)] + tools
  {
    assert ([first] + tools)[1..] == tools;
    EraseTools(tools);
  }

  // -------------------------------------------------------------- a turn in the table

  /** A turn in the table: its transcript, the one-line forms of its results, and the summary written later, if any. */
  datatype Saved = Saved(transcript: seq<Message>, results: map<string, string>, summary: Option<string>)

  /** Its rows: those `persist` wrote, with the summary on the answer's. */
  function SavedRows(s: Saved): seq<Row> {
    var rows := RowsOf(s.transcript, s.results);
    if rows == [] then [] else rows[|rows| - 1 := rows[|rows| - 1].(summary := s.summary)]
  }

  /** What `Persist` wrote, and what its rows become when the summary arrives. */
  lemma SummaryLands(before: seq<Row>, ms: seq<Message>, results: map<string, string>, summary: string)
    requires ms != [] && ms[|ms| - 1].Assistant?
    ensures SavedRows(Saved(ms, results, None)) == RowsOf(ms, results)
    ensures var rows, finalId := before + RowsOf(ms, results), |before + RowsOf(ms, results)| - 1;
            rows[finalId := rows[finalId].(summary := Some(summary))]
              == before + SavedRows(Saved(ms, results, Some(summary)))
  {
    RowsAt(ms, results, |ms| - 1);
  }

  lemma {:induction false} RowsAt(ms: seq<Message>, results: map<string, string>, k: nat)
    requires k < |ms|
    ensures RowsOf(ms, results)[k] == RowOf(ms[k], results)
  {
    if k > 0 { RowsAt(ms[1..], results, k - 1); }
  }

  /** The turn as it is rebuilt. */
  ghost predicate Mirror(u: StoredTurn, s: Saved, current: string -> string) {
    && u.messages == Erase(s.transcript) && u.summary == s.summary && Complete(u)
    && u.tools == NotesOf([], s.transcript, s.results, current)
  }

  lemma SavedParts(s: Saved)
    requires |s.transcript| >= 2 && s.transcript[0].User? && s.transcript[|s.transcript| - 1].Assistant?
    ensures var n := |s.transcript| - 1;
            SavedRows(s) == [RowOf(s.transcript[0], s.results)]
                            + (RowsOf(s.transcript[1..n], s.results)
                               + [RowOf(s.transcript[n], s.results).(summary := s.summary)])
  {
    var ms, n := s.transcript, |s.transcript| - 1;
    var body, answer := RowsOf(ms[1..n], s.results), RowOf(ms[n], s.results);
    assert ms[1..] == ms[1..n] + [ms[n]];
    RowsOfConcat(ms[1..n], [ms[n]], s.results);
    assert RowsOf([ms[n]], s.results) == [answer] by { assert [ms[n]][1..] == []; }
    var rows := [RowOf(ms[0], s.results)] + (body + [answer]);
    assert RowsOf(ms, s.results) == rows;
    assert rows[|rows| - 1 := answer.(summary := s.summary)]
        == [RowOf(ms[0], s.results)] + (body + [answer.(summary := s.summary)]);
  }

  /** The answer's row ends the turn and brings its summary. */
  lemma AnswerRow(t: StoredTurn, m: Message, results: map<string, string>, summary: Option<string>,
                  current: string -> string)
    requires m.Assistant? && m.toolCalls == None && Present(m.content)
    ensures var (t', open') := TakeRow(t, [], RowOf(m, results).(summary := summary), current);
            && open' == [] && t'.messages == t.messages + [m] && t'.summary == summary && t'.tools == t.tools
  {
    assert t.messages + [] + [m] == t.messages + [m];
  }

  /** What stands between the question and the answer. */
  lemma MiddleParts(ms: seq<Message>, current: string -> string)
    requires Transcript(ms, current) && |ms| >= 2
    ensures WellFormed(ms[1..|ms| - 1]) && forall m | m in ms[1..|ms| - 1] :: !m.User? && Storable(m, current)
    ensures Present(ms[|ms| - 1].content)
  {
    var n := |ms| - 1;
    QuestionFirst(ms);
    WellFormedCut(ms[1..], n - 1);
    assert ms[1..][..n - 1] == ms[1..n] && ms[1..][n - 1] == ms[n] && ms[1..][n - 1..] == [ms[n]];
  }

  lemma LongEnough(ms: seq<Message>, current: string -> string)
    requires Transcript(ms, current)
    ensures |ms| >= 2
  {
  }

  lemma MirrorParts(s: Saved, current: string -> string)
    requires |s.transcript| >= 2 && s.transcript[0].User?
    requires var m := s.transcript[|s.transcript| - 1]; m.Assistant? && m.toolCalls == None
    ensures var ms, n := s.transcript, |s.transcript| - 1;
            && Erase(ms) == [ms[0]] + Erase(ms[1..n]) + [ms[n]]
            && NotesOf([], ms, s.results, current) == NotesOf([], ms[1..n], s.results, current)
  {
    var ms, n := s.transcript, |s.transcript| - 1;
    assert ms[1..] == ms[1..n] + [ms[n]];
    assert [ms[n]][1..] == [] && Erase([ms[n]]) == [ms[n]] && NotesOf([], [ms[n]], s.results, current) == [];
    EraseConcat(ms[1..n], [ms[n]]);
    NotesConcat([], ms[1..n], [ms[n]], s.results, current);
    assert [ms[0]] + (Erase(ms[1..n]) + [ms[n]]) == [ms[0]] + Erase(ms[1..n]) + [ms[n]];
  }

  /** One turn in front of rows that begin with a question. */
  lemma SavedTurn(s: Saved, rest: seq<Row>, current: string -> string) returns (u: StoredTurn)
    requires Transcript(s.transcript, current) && (rest == [] || rest[0].role == RoleUser)
    ensures TurnsOf(SavedRows(s) + rest, current) == [u] + TurnsOf(rest, current) && Mirror(u, s, current)
  {
    var ms, n := s.transcript, |s.transcript| - 1;
    LongEnough(ms, current);
    MiddleParts(ms, current);
    SavedParts(s);
    MirrorParts(s, current);
    var t, body, answer := NewTurn(ms[0].text), RowsOf(ms[1..n], s.results), RowOf(ms[n], s.results).(summary := s.summary);
    BodyReplays(t, ms[1..n], s.results, current);
    var (v, _) := TakeAll(t, [], body, current);
    AnswerRow(v, ms[n], s.results, s.summary, current);
    u := TakeRow(v, [], answer, current).0;
    LiveTakesAll(t, [], body, [answer] + rest, current);
    LastRow(v, answer, rest, current);
    NothingToClose(u);
    QuestionRow(ms[0], s.results, body + [answer], rest, current);
    Assoc(body, [answer], rest);
    assert [] + NotesOf([], ms[1..n], s.results, current) == NotesOf([], ms[1..n], s.results, current);
  }

  lemma LastRow(v: StoredTurn, answer: Row, rest: seq<Row>, current: string -> string)
    requires answer.role != RoleUser && (rest == [] || rest[0].role == RoleUser)
    requires TakeRow(v, [], answer, current).1 == []
    ensures LiveTurns(v, [], [answer] + rest, current)
         == [Closed(TakeRow(v, [], answer, current).0, [])] + TurnsOf(rest, current)
  {
    assert ([answer] + rest)[0] == answer && ([answer] + rest)[1..] == rest;
    var u := TakeRow(v, [], answer, current).0;
    if rest == [] { assert [Closed(u, [])] + [] == [Closed(u, [])]; }
  }

  lemma NothingToClose(u: StoredTurn)
    ensures Closed(u, []) == u
  {
    assert u.messages + [] == u.messages;
  }

  lemma FirstRow(row: Row, more: seq<Row>, rest: seq<Row>)
    ensures ([row] + more + rest)[0] == row && ([row] + more + rest)[1..] == more + rest
  {
  }

  lemma QuestionFirst(ms: seq<Message>)
    requires OneQuestion(ms) && WellFormed(ms)
    ensures WellFormed(ms[1..]) && forall m | m in ms[1..] :: !m.User?
  {
  }

  lemma QuestionRow(m: Message, results: map<string, string>, more: seq<Row>, rest: seq<Row>, current: string -> string)
    requires m.User? && m.text != ""
    ensures TurnsOf([RowOf(m, results)] + more + rest, current) == LiveTurns(NewTurn(m.text), [], more + rest, current)
  {
    FirstRow(RowOf(m, results), more, rest);
  }

  lemma {:induction false} SkipPartial(partial: seq<Row>, rows: seq<Row>, current: string -> string)
    requires forall r | r in partial :: r.role != RoleUser
    ensures TurnsOf(partial + rows, current) == TurnsOf(rows, current)
  {
    if partial == [] {
      assert partial + rows == rows;
    } else {
      assert (partial + rows)[0] == partial[0] && (partial + rows)[1..] == partial[1..] + rows;
      SkipPartial(partial[1..], rows, current);
    }
  }

  // ----------------------------------------------------- what stands before a question

  /** A question closes the turn before it: the rows from there on are read as if they stood alone. */
  lemma {:induction false} TurnsConcat(a: seq<Row>, b: seq<Row>, current: string -> string)
    requires b == [] || b[0].role == RoleUser
    ensures TurnsOf(a + b, current) == TurnsOf(a, current) + TurnsOf(b, current)
    decreases |a|, 0
  {
    if a == [] {
      assert a + b == b;
    } else {
      assert (a + b)[0] == a[0] && (a + b)[1..] == a[1..] + b;
      if a[0].role == RoleUser && Present(a[0].content) {
        LiveConcat(NewTurn(a[0].content.value), [], a[1..], b, current);
      } else {
        TurnsConcat(a[1..], b, current);
      }
    }
  }

  lemma {:induction false} LiveConcat(t: StoredTurn, open: seq<OpenCall>, a: seq<Row>, b: seq<Row>,
                                      current: string -> string)
    requires b == [] || b[0].role == RoleUser
    ensures LiveTurns(t, open, a + b, current) == LiveTurns(t, open, a, current) + TurnsOf(b, current)
    decreases |a|, 1
  {
    if a == [] {
      assert a + b == b;
    } else {
      assert (a + b)[0] == a[0] && (a + b)[1..] == a[1..] + b;
      if a[0].role == RoleUser {
        TurnsConcat(a, b, current);
        assert [Closed(t, open)] + (TurnsOf(a, current) + TurnsOf(b, current))
            == ([Closed(t, open)] + TurnsOf(a, current)) + TurnsOf(b, current);
      } else {
        var (t', open') := TakeRow(t, open, a[0], current);
        LiveConcat(t', open', a[1..], b, current);
      }
    }
  }

  lemma {:induction false} CompleteConcat(a: seq<StoredTurn>, b: seq<StoredTurn>)
    ensures CompleteOnly(a + b) == CompleteOnly(a) + CompleteOnly(b)
  {
    if a == [] {
      assert a + b == b;
    } else {
      assert (a + b)[1..] == a[1..] + b;
      CompleteConcat(a[1..], b);
    }
  }

  // -------------------------------------------------------------- turns without an answer

  /** Words of the assistant, as opposed to calls. */
  predicate IsAnswer(row: Row) {
    row.role == RoleAssistant && row.toolCalls == None && Present(row.content)
  }

  predicate IsCall(row: Row) {
    row.role == RoleAssistant && row.toolCalls.Some?
  }

  /** The last thing the assistant did in these rows was to answer. */
  predicate EndsInAnswer(rows: seq<Row>)
    decreases |rows|
  {
    rows != [] && var last := rows[|rows| - 1];
    IsAnswer(last) || (!IsCall(last) && EndsInAnswer(rows[..|rows| - 1]))
  }

  /** A turn with calls still open is no complete turn, whatever its last message. */
  lemma TakeComplete(t: StoredTurn, open: seq<OpenCall>, row: Row, current: string -> string)
    requires row.role != RoleUser && t.messages != [] && (Complete(t) ==> open == [])
    ensures var (t', open') := TakeRow(t, open, row, current);
            && t'.messages != [] && (Complete(t') ==> open' == [])
            && (Complete(t') <==> IsAnswer(row) || (!IsCall(row) && Complete(t)))
  {
  }

  lemma {:induction false} AnsweredIff(t: StoredTurn, open: seq<OpenCall>, rows: seq<Row>, current: string -> string)
    requires (forall r | r in rows :: r.role != RoleUser) && t.messages != [] && !Complete(t)
    ensures var (t', open') := TakeAll(t, open, rows, current);
            && t'.messages != [] && (Complete(t') ==> open' == []) && (Complete(t') <==> EndsInAnswer(rows))
    decreases |rows|
  {
    if rows != [] {
      var n := |rows| - 1;
      assert rows == rows[..n] + [rows[n]];
      AnsweredIff(t, open, rows[..n], current);
      TakeAllConcat(t, open, rows[..n], [rows[n]], current);
      var (u, o) := TakeAll(t, open, rows[..n], current);
      TakeComplete(u, o, rows[n], current);
      assert [rows[n]][1..] == [];
    }
  }

  lemma ClosedComplete(t: StoredTurn, open: seq<OpenCall>)
    requires t.messages != [] && (Complete(t) ==> open == [])
    ensures Complete(Closed(t, open)) <==> Complete(t)
  {
    if open == [] { NothingToClose(t); } else { ClosersLast(open); }
  }

  lemma {:induction false} ClosersLast(open: seq<OpenCall>)
    requires open != []
    ensures Closers(open) != [] && Closers(open)[|Closers(open)| - 1].Tool?
  {
    if |open| > 1 { ClosersLast(open[1..]); }
  }

  /** One question and what follows it in the table: a complete turn if and only if it is not empty and the assistant
      answered last. */
  lemma {:induction false} CompleteIff(rows: seq<Row>, current: string -> string)
    requires rows != [] && rows[0].role == RoleUser && forall r | r in rows[1..] :: r.role != RoleUser
    ensures CompleteOnly(TurnsOf(rows, current)) != [] <==> Present(rows[0].content) && EndsInAnswer(rows[1..])
  {
    var body := rows[1..];
    if Present(rows[0].content) {
      var t := NewTurn(rows[0].content.value);
      AnsweredIff(t, [], body, current);
      var (u, open) := TakeAll(t, [], body, current);
      assert body + [] == body;
      LiveTakesAll(t, [], body, [], current);
      ClosedComplete(u, open);
      assert [Closed(u, open)][1..] == [];
    } else {
      assert body + [] == body;
      SkipPartial(body, [], current);
    }
  }

  // ------------------------------------------------------------------ many turns

  /** A stretch of rows: a turn as it was stored, or a question without an answer. */
  datatype Stretch = Stored(saved: Saved) | Broken(rows: seq<Row>)

  /** A broken stretch is a question, real or empty, behind which the assistant did not answer last. */
  ghost predicate ProperStretch(s: Stretch, current: string -> string) {
    match s
    case Stored(saved) => Transcript(saved.transcript, current)
    case Broken(rows) =>
      && rows != [] && rows[0].role == RoleUser && (forall r | r in rows[1..] :: r.role != RoleUser)
      && !(Present(rows[0].content) && EndsInAnswer(rows[1..]))
  }

  function StretchRows(s: Stretch): seq<Row> {
    match s case Stored(saved) => SavedRows(saved) case Broken(rows) => rows
  }

  function AllRows(ss: seq<Stretch>): seq<Row> {
    if ss == [] then [] else StretchRows(ss[0]) + AllRows(ss[1..])
  }

  function SavedOnly(ss: seq<Stretch>): seq<Saved> {
    if ss == [] then [] else (if ss[0].Stored? then [ss[0].saved] else []) + SavedOnly(ss[1..])
  }

  ghost predicate Mirrors(turns: seq<StoredTurn>, ts: seq<Saved>, current: string -> string) {
    |turns| == |ts| && forall i: nat | i < |ts| :: Mirror(turns[i], ts[i], current)
  }

  lemma AllRowsStart(ss: seq<Stretch>, current: string -> string)
    requires forall i: nat | i < |ss| :: ProperStretch(ss[i], current)
    ensures AllRows(ss) == [] || AllRows(ss)[0].role == RoleUser
  {
    if ss != [] && ss[0].Stored? { SavedStart(ss[0].saved, current); }
  }

  /** The complete turns of one stretch. */
  lemma OneStretch(s: Stretch, current: string -> string)
    requires ProperStretch(s, current)
    ensures Mirrors(CompleteOnly(TurnsOf(StretchRows(s), current)), SavedOnly([s]), current)
  {
    assert [s][1..] == [] && SavedOnly([]) == [];
    if s.Stored? {
      var u := SavedTurn(s.saved, [], current);
      assert SavedRows(s.saved) + [] == SavedRows(s.saved);
      assert [u] + [] == [u] && [u][1..] == [] && CompleteOnly([]) == [];
    } else {
      CompleteIff(s.rows, current);
    }
  }

  lemma MirrorsConcat(a: seq<StoredTurn>, ts: seq<Saved>, b: seq<StoredTurn>, us: seq<Saved>, current: string -> string)
    requires Mirrors(a, ts, current) && Mirrors(b, us, current)
    ensures Mirrors(a + b, ts + us, current)
  {
  }

  lemma OneStretchMore(s: Stretch, rest: seq<Row>, ts: seq<Saved>, current: string -> string)
    requires ProperStretch(s, current) && (rest == [] || rest[0].role == RoleUser)
    requires Mirrors(CompleteOnly(TurnsOf(rest, current)), ts, current)
    ensures Mirrors(CompleteOnly(TurnsOf(StretchRows(s) + rest, current)), SavedOnly([s]) + ts, current)
  {
    hide TurnsOf, CompleteOnly, Mirrors, ProperStretch, SavedOnly;
    var a := StretchRows(s);
    OneStretch(s, current);
    TurnsConcat(a, rest, current);
    CompleteConcat(TurnsOf(a, current), TurnsOf(rest, current));
    MirrorsConcat(CompleteOnly(TurnsOf(a, current)), SavedOnly([s]), CompleteOnly(TurnsOf(rest, current)), ts, current);
  }

  /** Broken stretches leave no trace; each stored turn becomes one complete turn again. */
  lemma {:induction false} StretchesMirror(ss: seq<Stretch>, current: string -> string)
    requires forall i: nat | i < |ss| :: ProperStretch(ss[i], current)
    ensures Mirrors(CompleteOnly(TurnsOf(AllRows(ss), current)), SavedOnly(ss), current)
  {
    hide ProperStretch;
    if ss != [] {
      StretchesMirror(ss[1..], current);
      AllRowsStart(ss[1..], current);
      OneStretchMore(ss[0], AllRows(ss[1..]), SavedOnly(ss[1..]), current);
      assert [ss[0]][1..] == [] && SavedOnly([]) == [];
      assert SavedOnly([ss[0]]) + SavedOnly(ss[1..]) == SavedOnly(ss);
    }
  }

  /** How a stored turn is remembered: whole, or when `older` and summarized, as its question and the summary with the
      note of its tools. */
  function Remembered(s: Saved, older: bool, current: string -> string, note: seq<Note> -> string): seq<Message>
    requires s.transcript != [] && s.transcript[0].User?
  {
    if older && Present(s.summary) then
      [s.transcript[0],
       Assistant(Some(s.summary.value + "\n\n" + note(NotesOf([], s.transcript, s.results, current))), None)]
    else Erase(s.transcript)
  }

  /** The newest `WHOLE_TURNS` are not older. */
  function AllRemembered(ts: seq<Saved>, current: string -> string, note: seq<Note> -> string): seq<Message>
    requires forall i: nat | i < |ts| :: ts[i].transcript != [] && ts[i].transcript[0].User?
  {
    if ts == [] then []
    else Remembered(ts[0], |ts| > WHOLE_TURNS, current, note) + AllRemembered(ts[1..], current, note)
  }

  ghost predicate AllTranscripts(ts: seq<Saved>, current: string -> string) {
    forall i: nat | i < |ts| :: Transcript(ts[i].transcript, current)
  }

  lemma {:induction false} SavedProper(ss: seq<Stretch>, current: string -> string)
    requires forall i: nat | i < |ss| :: ProperStretch(ss[i], current)
    ensures AllTranscripts(SavedOnly(ss), current)
  {
    if ss != [] { SavedProper(ss[1..], current); }
  }

  lemma {:induction false} ReplayedRemembered(turns: seq<StoredTurn>, ts: seq<Saved>, current: string -> string,
                                              note: seq<Note> -> string)
    requires Mirrors(turns, ts, current) && AllTranscripts(ts, current)
    ensures ReplayedAll(turns, note) == AllRemembered(ts, current, note)
  {
    if ts != [] {
      assert Mirror(turns[0], ts[0], current) && Transcript(ts[0].transcript, current);
      ReplayedRemembered(turns[1..], ts[1..], current, note);
    }
  }

  /** The round trip. Whatever stands in front of the window, and whatever questions without an answer stand inside it,
      the newest fifty stored turns come back as they are remembered. */
  lemma StoreThenReplay(rows: seq<Row>, partial: seq<Row>, ss: seq<Stretch>, current: string -> string,
                        note: seq<Note> -> string)
    requires Last(rows, ROW_LIMIT) == partial + AllRows(ss)
    requires forall r | r in partial :: r.role != RoleUser
    requires forall i: nat | i < |ss| :: ProperStretch(ss[i], current)
    ensures AllTranscripts(Last(SavedOnly(ss), HISTORY_TURNS), current)
    ensures HistoryOf(rows, current, note) == AllRemembered(Last(SavedOnly(ss), HISTORY_TURNS), current, note)
  {
    hide CompleteOnly, TurnsOf, AllRows, SavedOnly, ProperStretch, Transcript;
    StretchesMirror(ss, current);
    SkipPartial(partial, AllRows(ss), current);
    SavedProper(ss, current);
    var turns := CompleteOnly(TurnsOf(AllRows(ss), current));
    ReplayedRemembered(Last(turns, HISTORY_TURNS), Last(SavedOnly(ss), HISTORY_TURNS), current, note);
  }

  function EraseAll(ts: seq<Saved>): seq<Message> {
    if ts == [] then [] else Erase(ts[0].transcript) + EraseAll(ts[1..])
  }

  /** Without summaries everything comes back as it was, save for the text beside tool calls. */
  lemma {:induction false} WithoutSummaries(ts: seq<Saved>, current: string -> string, note: seq<Note> -> string)
    requires AllTranscripts(ts, current) && forall i: nat | i < |ts| :: !Present(ts[i].summary)
    ensures AllRemembered(ts, current, note) == EraseAll(ts)
  {
    if ts != [] { WithoutSummaries(ts[1..], current, note); }
  }

  // ---------------------------------------------------------- one more stored turn

  lemma {:induction false} ReplayedEnds(ts: seq<StoredTurn>, u: StoredTurn, note: seq<Note> -> string)
    returns (front: seq<Message>)
    ensures ReplayedAll(ts + [u], note) == front + u.messages
    decreases |ts|
  {
    if ts == [] {
      assert ts + [u] == [u] && [u][1..] == [];
      front := [];
      assert u.messages + [] == u.messages && [] + u.messages == u.messages;
    } else {
      assert (ts + [u])[1..] == ts[1..] + [u];
      var rest := ReplayedEnds(ts[1..], u, note);
      front := Replayed(ts[0], |ts + [u]| > WHOLE_TURNS, note) + rest;
    }
  }

  lemma LastOfConcat(a: seq<Row>, b: seq<Row>, n: nat)
    requires |b| <= n
    ensures Last(a + b, n) == Last(a, n - |b|) + b
  {
  }

  /** The turns of a window that ends with a stored turn. */
  lemma WindowEnds(rows: seq<Row>, s: Saved, current: string -> string) returns (ts: seq<StoredTurn>, u: StoredTurn)
    requires Transcript(s.transcript, current) && |s.transcript| <= ROW_LIMIT
    ensures TurnsOf(Last(rows + SavedRows(s), ROW_LIMIT), current) == ts + [u] && Mirror(u, s, current)
    ensures Kept(rows + SavedRows(s), current) == Last(CompleteOnly(ts) + [u], HISTORY_TURNS)
  {
    assert TurnsOf([], current) == [];
    hide CompleteOnly, Last, SavedRows, Mirror, Transcript, TurnsOf;
    var b := SavedRows(s);
    SavedStart(s, current);
    var a := Last(rows, ROW_LIMIT - |b|);
    LastOfConcat(rows, b, ROW_LIMIT);
    u := SavedTurn(s, [], current);
    assert b + [] == b && [u] + [] == [u];
    TurnsConcat(a, b, current);
    ts := TurnsOf(a, current);
    CompleteConcat(ts, [u]);
    OneComplete(u, s, current);
  }

  lemma OneComplete(u: StoredTurn, s: Saved, current: string -> string)
    requires Mirror(u, s, current)
    ensures CompleteOnly([u]) == [u]
  {
    assert [u][1..] == [] && CompleteOnly([]) == [] && [u] + [] == [u];
  }

  lemma SavedStart(s: Saved, current: string -> string)
    requires Transcript(s.transcript, current)
    ensures |SavedRows(s)| == |s.transcript| && SavedRows(s)[0].role == RoleUser
  {
    LongEnough(s.transcript, current);
    SavedParts(s);
  }

  /** Whatever is in the table, a transcript stored behind it that fits the window ends the next history as it was,
      save for the text beside tool calls. */
  lemma StoredLast(rows: seq<Row>, s: Saved, current: string -> string, note: seq<Note> -> string)
    returns (front: seq<Message>)
    requires Transcript(s.transcript, current) && |s.transcript| <= ROW_LIMIT
    ensures HistoryOf(rows + SavedRows(s), current, note) == front + Erase(s.transcript)
  {
    var ts, u := WindowEnds(rows, s, current);
    front := NewestStays(CompleteOnly(ts), u, note);
  }

  /** The digest a note list leaves for a call: that of its last note with one. */
  lemma {:induction false} NotedDigest(digests: map<string, string>, notes: seq<Note>, id: string, digest: string)
    requires digest != "" && exists i: nat :: i < |notes| && notes[i].callId == id
    requires forall i: nat | i < |notes| && notes[i].callId == id :: notes[i].digest == Some(digest)
    ensures id in AddNotes(digests, notes) && AddNotes(digests, notes)[id] == digest
    decreases |notes|
  {
    var n := |notes| - 1;
    if notes[n].callId != id {
      var i: nat :| i < |notes| && notes[i].callId == id;
      assert notes[..n][i] == notes[i];
      NotedDigest(digests, notes[..n], id, digest);
    }
  }

  lemma {:induction false} NoteOfResult(calls: seq<ToolCall>, ms: seq<Message>, results: map<string, string>,
                                        current: string -> string, k: nat)
    returns (i: nat)
    requires k < |ms| && ms[k].Tool?
    ensures i < |NotesOf(calls, ms, results, current)| && NotesOf(calls, ms, results, current)[i].callId == ms[k].callId
    decreases |ms|
  {
    var more := if ms[0].Tool? then calls else Calls(ms[0]);
    if k == 0 {
      i := 0;
    } else {
      i := NoteOfResult(more, ms[1..], results, current, k - 1);
      if ms[0].Tool? { i := i + 1; }
    }
  }

  lemma {:induction false} NotesHoldDigests(calls: seq<ToolCall>, ms: seq<Message>, results: map<string, string>,
                                            current: string -> string)
    ensures forall i: nat | i < |NotesOf(calls, ms, results, current)| ::
              var n := NotesOf(calls, ms, results, current)[i]; n.digest == DigestNow(results, n.callId, current)
    decreases |ms|
  {
    if ms != [] { NotesHoldDigests(if ms[0].Tool? then calls else Calls(ms[0]), ms[1..], results, current); }
  }

  /** Each result of the newest stored turn goes along with its one-line form as it reads now, unless an older turn that
      goes as its summary used the same call id. */
  lemma StoredDigests(rows: seq<Row>, s: Saved, current: string -> string, k: nat)
    requires Transcript(s.transcript, current) && |s.transcript| <= ROW_LIMIT
    requires k < |s.transcript| && s.transcript[k].Tool?
    requires s.transcript[k].callId in s.results && current(s.results[s.transcript[k].callId]) != ""
    requires s.transcript[k].callId !in SummarizedIds(Kept(rows + SavedRows(s), current))
    ensures var id, digests := s.transcript[k].callId, DigestsFor(rows + SavedRows(s), current);
            id in digests && digests[id] == current(s.results[id])
  {
    var id, notes := s.transcript[k].callId, NotesOf([], s.transcript, s.results, current);
    var ts, u := WindowEnds(rows, s, current);
    assert (ts + [u])[..|ts|] == ts;
    var i := NoteOfResult([], s.transcript, s.results, current, k);
    NotesHoldDigests([], s.transcript, s.results, current);
    NotedDigest(DigestsOf(ts), notes, id, current(s.results[id]));
  }

  lemma NewestStays(ts: seq<StoredTurn>, u: StoredTurn, note: seq<Note> -> string) returns (front: seq<Message>)
    ensures ReplayedAll(Last(ts + [u], HISTORY_TURNS), note) == front + u.messages
  {
    var kept := Last(ts, HISTORY_TURNS - 1);
    assert Last(ts + [u], HISTORY_TURNS) == kept + [u];
    front := ReplayedEnds(kept, u, note);
  }
}

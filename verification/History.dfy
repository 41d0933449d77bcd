/** How a conversation is stored and replayed (assistant/assistant.ts, `persist` and `history`): one row per
    message, folded back into turns that the next request can carry. */
module History {
  import opened Common
  import opened Messages

  const HISTORY_TURNS := 50
  const WHOLE_TURNS := 3
  const ROW_LIMIT := HISTORY_TURNS * 12
  const NO_RESULT := "[no result kept]"

  datatype Role = RoleUser | RoleAssistant | RoleTool

  datatype Row = Row(
    role: Role,
    content: Option<string>,
    toolCalls: Option<seq<ToolCall>>,
    callId: Option<string>,
    digest: Option<string>,
    summary: Option<string>)

  datatype Note = Note(callId: string, tool: string, digest: Option<string>)

  /** A turn under construction. `rows` records the rows behind its question. */
  datatype StoredTurn = StoredTurn(messages: seq<Message>, summary: Option<string>, tools: seq<Note>, rows: seq<Row>)

  datatype OpenCall = OpenCall(id: string, name: string)

  predicate Present(text: Option<string>) {
    text.Some? && text.value != ""
  }

  /** The stored text as it reads now: a card decided since its turn says so. */
  function Current(current: string -> string, text: Option<string>): Option<string> {
    if text.Some? then Some(current(text.value)) else None
  }

  function Or(a: Option<string>, b: Option<string>, c: string): string {
    if a.Some? then a.value else if b.Some? then b.value else c
  }

  // ------------------------------------------------------------- open calls

  predicate IsOpen(open: seq<OpenCall>, id: string) {
    exists i | 0 <= i < |open| :: open[i].id == id
  }

  /** `Map.set`: a known id keeps its place. */
  function Opened(open: seq<OpenCall>, c: OpenCall): seq<OpenCall> {
    if open == [] then [c]
    else if open[0].id == c.id then [c] + open[1..]
    else [open[0]] + Opened(open[1..], c)
  }

  function OpenedAll(open: seq<OpenCall>, calls: seq<ToolCall>): seq<OpenCall>
    decreases |calls|
  {
    if calls == [] then open
    else OpenedAll(Opened(open, OpenCall(calls[0].id, calls[0].name)), calls[1..])
  }

  function NameOf(open: seq<OpenCall>, id: string): string
    requires IsOpen(open, id)
  {
    if open[0].id == id then open[0].name else NameOf(open[1..], id)
  }

  function Without(open: seq<OpenCall>, id: string): seq<OpenCall> {
    if open == [] then [] else if open[0].id == id then open[1..] else [open[0]] + Without(open[1..], id)
  }

  function Closers(open: seq<OpenCall>): seq<Message> {
    if open == [] then [] else [Tool(open[0].id, NO_RESULT)] + Closers(open[1..])
  }

  // ------------------------------------------------------- turns, said recursively

  function NewTurn(question: string): StoredTurn {
    StoredTurn([User(question)], None, [], [])
  }

  function Closed(t: StoredTurn, open: seq<OpenCall>): StoredTurn {
    t.(messages := t.messages + Closers(open))
  }

  /** A row that is not a question, inside a turn. */
  function TakeRow(before: StoredTurn, open: seq<OpenCall>, row: Row,
                   current: string -> string): (StoredTurn, seq<OpenCall>)
    requires row.role != RoleUser
  {
    var t := before.(rows := before.rows + [row]);
    if row.role == RoleTool then
      if !Present(row.callId) || !IsOpen(open, row.callId.value) then (t, open)
      else
        var id, digest := row.callId.value, Current(current, row.digest);
        (t.(messages := t.messages + [Tool(id, Or(Current(current, row.content), digest, NO_RESULT))],
            tools := t.tools + [Note(id, NameOf(open, id), digest)]),
         Without(open, id))
    else if row.toolCalls.Some? then
      (t.(messages := t.messages + Closers(open) + [Assistant(None, row.toolCalls)]),
       OpenedAll([], row.toolCalls.value))
    else if Present(row.content) then
      (t.(messages := t.messages + Closers(open) + [Assistant(row.content, None)],
          summary := row.summary),
       [])
    else (t, open)
  }

  /** The turns of a row sequence; rows before the first question are skipped. */
  function TurnsOf(rows: seq<Row>, current: string -> string): seq<StoredTurn>
    decreases |rows|, 0
  {
    if rows == [] then []
    else if rows[0].role == RoleUser && Present(rows[0].content)
    then LiveTurns(NewTurn(rows[0].content.value), [], rows[1..], current)
    else TurnsOf(rows[1..], current)
  }

  /** The same, inside turn `t` with `open` calls still unanswered. */
  function LiveTurns(t: StoredTurn, open: seq<OpenCall>, rows: seq<Row>, current: string -> string): seq<StoredTurn>
    decreases |rows|, 1
  {
    if rows == [] then [Closed(t, open)]
    else if rows[0].role == RoleUser then [Closed(t, open)] + TurnsOf(rows, current)
    else
      var (t', open') := TakeRow(t, open, rows[0], current);
      LiveTurns(t', open', rows[1..], current)
  }

  // ---------------------------------------------------------- what is replayed

  predicate Complete(t: StoredTurn) {
    t.messages != [] && var last := t.messages[|t.messages| - 1]; last.Assistant? && last.toolCalls == None
  }

  function CompleteOnly(ts: seq<StoredTurn>): seq<StoredTurn> {
    if ts == [] then [] else (if Complete(ts[0]) then [ts[0]] else []) + CompleteOnly(ts[1..])
  }

  function Last<T>(s: seq<T>, n: nat): seq<T> {
    if |s| <= n then s else s[|s| - n..]
  }

  predicate GoesAsSummary(t: StoredTurn, old': bool) {
    old' && Present(t.summary)
  }

  /** An older turn with a summary goes as its question and that summary. */
  function Replayed(t: StoredTurn, old': bool, note: seq<Note> -> string): seq<Message> {
    if GoesAsSummary(t, old') && t.messages != [] && t.messages[0].User?
    then [t.messages[0], Assistant(Some(t.summary.value + "\n\n" + note(t.tools)), None)]
    else t.messages
  }

  function ReplayedAll(ts: seq<StoredTurn>, note: seq<Note> -> string): seq<Message> {
    if ts == [] then [] else Replayed(ts[0], |ts| > WHOLE_TURNS, note) + ReplayedAll(ts[1..], note)
  }

  function Kept(rows: seq<Row>, current: string -> string): seq<StoredTurn> {
    Last(CompleteOnly(TurnsOf(Last(rows, ROW_LIMIT), current)), HISTORY_TURNS)
  }

  function HistoryOf(rows: seq<Row>, current: string -> string, note: seq<Note> -> string): seq<Message> {
    ReplayedAll(Kept(rows, current), note)
  }

  /** The one-line forms of the results, by call; a later result of the same id counts. */
  function AddNotes(digests: map<string, string>, notes: seq<Note>): map<string, string> {
    if notes == [] then digests
    else
      var before, last := AddNotes(digests, notes[..|notes| - 1]), notes[|notes| - 1];
      if Present(last.digest) then before[last.callId := last.digest.value] else before
  }

  function DigestsOf(ts: seq<StoredTurn>): map<string, string> {
    if ts == [] then map[] else AddNotes(DigestsOf(ts[..|ts| - 1]), ts[|ts| - 1].tools)
  }

  function ToolIds(ms: seq<Message>): set<string> {
    set m | m in ms && m.Tool? :: m.callId
  }

  /** The calls whose results do not go along because their turn goes as its summary. */
  function SummarizedIds(ts: seq<StoredTurn>): set<string> {
    if ts == [] then {}
    else (if GoesAsSummary(ts[0], |ts| > WHOLE_TURNS) then ToolIds(ts[0].messages) else {}) + SummarizedIds(ts[1..])
  }

  function SummarizedCount(ts: seq<StoredTurn>): nat {
    if ts == [] then 0 else (if GoesAsSummary(ts[0], |ts| > WHOLE_TURNS) then 1 else 0) + SummarizedCount(ts[1..])
  }

  /** The digests that go along with the history. */
  function DigestsFor(rows: seq<Row>, current: string -> string): map<string, string> {
    DigestsOf(TurnsOf(Last(rows, ROW_LIMIT), current)) - SummarizedIds(Kept(rows, current))
  }

  // ---------------------------------------------------------------- the loop

  /** The digests follow the notes of the turn that takes the row. */
  lemma NoteTaken(turns: seq<StoredTurn>, t: StoredTurn, notes: seq<Note>)
    requires turns != [] && t.tools == turns[|turns| - 1].tools + notes && |notes| <= 1
    ensures DigestsOf(turns[..|turns| - 1] + [t]) == AddNotes(DigestsOf(turns), notes)
  {
    var init, old' := turns[..|turns| - 1], turns[|turns| - 1].tools;
    assert (init + [t])[..|init|] == init;
    if notes == [] {
      assert t.tools == old';
    } else {
      assert t.tools[..|t.tools| - 1] == old' && notes[..0] == [];
    }
  }

  lemma DigestsUnchanged(turns: seq<StoredTurn>, t: StoredTurn)
    requires turns != [] && t.tools == turns[|turns| - 1].tools
    ensures DigestsOf(turns[..|turns| - 1] + [t]) == DigestsOf(turns)
  {
    NoteTaken(turns, t, []);
  }

  lemma DigestsOfNew(turns: seq<StoredTurn>, t: StoredTurn)
    requires t.tools == []
    ensures DigestsOf(turns + [t]) == DigestsOf(turns)
  {
    assert (turns + [t])[..|turns|] == turns;
  }

  /** The note a row adds, if any. */
  function NewNotes(t: StoredTurn, open: seq<OpenCall>, row: Row, current: string -> string): (notes: seq<Note>)
    requires row.role != RoleUser
    ensures |notes| <= 1 && TakeRow(t, open, row, current).0.tools == t.tools + notes
  {
    if row.role == RoleTool && Present(row.callId) && IsOpen(open, row.callId.value)
    then [Note(row.callId.value, NameOf(open, row.callId.value), Current(current, row.digest))]
    else []
  }

  /** One row behind a question: the turn, its open calls, and the digests. */
  method TakeInto(turns: seq<StoredTurn>, open: seq<OpenCall>, digests: map<string, string>, m: Row,
                  current: string -> string)
    returns (turns': seq<StoredTurn>, open': seq<OpenCall>, digests': map<string, string>)
    requires turns != [] && m.role != RoleUser && digests == DigestsOf(turns)
    ensures (turns', open') == (var (t, o) := TakeRow(turns[|turns| - 1], open, m, current);
                                (turns[..|turns| - 1] + [t], o))
    ensures digests' == DigestsOf(turns')
  {
    var (t, o) := TakeRow(turns[|turns| - 1], open, m, current);
    var notes := NewNotes(turns[|turns| - 1], open, m, current);
    NoteTaken(turns, t, notes);
    turns', open', digests' := turns[..|turns| - 1] + [t], o, digests;
    if notes != [] {
      assert notes[..0] == [] && AddNotes(digests, []) == digests;
      if Present(notes[0].digest) {
        digests' := digests[notes[0].callId := notes[0].digest.value];
      }
    }
  }

  /** The fold over the rows as `history` does it: the current turn is the last one pushed, or none. */
  method FoldRows(rows: seq<Row>, current: string -> string)
    returns (turns: seq<StoredTurn>, digests: map<string, string>)
    ensures turns == TurnsOf(rows, current) && digests == DigestsOf(turns)
  {
    turns, digests := [], map[];
    assert digests == DigestsOf(turns);
    hide DigestsOf, Closed, NewTurn, TakeRow;
    var live := false;
    var open: seq<OpenCall> := [];
    for i := 0 to |rows|
      invariant live ==> turns != []
      invariant !live ==> TurnsOf(rows, current) == turns + TurnsOf(rows[i..], current)
      invariant live ==>
          TurnsOf(rows, current) == turns[..|turns| - 1] + LiveTurns(turns[|turns| - 1], open, rows[i..], current)
      invariant digests == DigestsOf(turns)
    {
      var m := rows[i];
      assert rows[i..][0] == m && rows[i..][1..] == rows[i + 1..];
      if m.role == RoleUser {
        if live {
          DigestsUnchanged(turns, Closed(turns[|turns| - 1], open));
          turns := turns[..|turns| - 1] + [Closed(turns[|turns| - 1], open)];
        }
        open := [];
        live := Present(m.content);
        if live {
          DigestsOfNew(turns, NewTurn(m.content.value));
          turns := turns + [NewTurn(m.content.value)];
        }
      } else if live {
        turns, open, digests := TakeInto(turns, open, digests, m, current);
      }
    }
    if live {
      DigestsUnchanged(turns, Closed(turns[|turns| - 1], open));
      turns := turns[..|turns| - 1] + [Closed(turns[|turns| - 1], open)];
    }
  }

  /** The conversation, how many turns go as summaries, and the digests of all results that go along. */
  method History(allRows: seq<Row>, current: string -> string, note: seq<Note> -> string)
    returns (messages: seq<Message>, summarized: nat, digests: map<string, string>)
    ensures messages == HistoryOf(allRows, current, note)
    ensures summarized == SummarizedCount(Kept(allRows, current))
    ensures digests == DigestsFor(allRows, current)
  {
    assert ReplayedAll([], note) == [] && SummarizedCount([]) == 0 && SummarizedIds([]) == {};
    hide ReplayedAll, SummarizedCount, SummarizedIds, Replayed, GoesAsSummary, ToolIds, CompleteOnly, TurnsOf,
         DigestsOf;
    var turns;
    turns, digests := FoldRows(Last(allRows, ROW_LIMIT), current);
    ghost var all := digests;
    var complete := Last(CompleteOnly(turns), HISTORY_TURNS);
    assert complete[0..] == complete && complete[|complete|..] == [];
    messages, summarized := [], 0;
    for i := 0 to |complete|
      invariant ReplayedAll(complete, note) == messages + ReplayedAll(complete[i..], note)
      invariant SummarizedCount(complete) == summarized + SummarizedCount(complete[i..])
      invariant all - SummarizedIds(complete) == digests - SummarizedIds(complete[i..])
    {
      ReplayedNext(complete, i, note, messages);
      SummarizedNext(complete, i, digests);
      var old' := i < |complete| - WHOLE_TURNS;
      messages := messages + Replayed(complete[i], old', note);
      if GoesAsSummary(complete[i], old') {
        summarized := summarized + 1;
        digests := digests - ToolIds(complete[i].messages);
      }
    }
  }

  lemma SummarizedNext(ts: seq<StoredTurn>, i: nat, digests: map<string, string>)
    requires i < |ts|
    ensures var goes := GoesAsSummary(ts[i], i < |ts| - WHOLE_TURNS);
            && SummarizedCount(ts[i..]) == (if goes then 1 else 0) + SummarizedCount(ts[i + 1..])
            && digests - SummarizedIds(ts[i..])
               == (if goes then digests - ToolIds(ts[i].messages) else digests) - SummarizedIds(ts[i + 1..])
  {
    assert ts[i..][1..] == ts[i + 1..];
  }

  lemma ReplayedNext(ts: seq<StoredTurn>, i: nat, note: seq<Note> -> string, before: seq<Message>)
    requires i < |ts|
    ensures before + ReplayedAll(ts[i..], note)
         == (before + Replayed(ts[i], i < |ts| - WHOLE_TURNS, note)) + ReplayedAll(ts[i + 1..], note)
  {
    assert ts[i..][1..] == ts[i + 1..];
  }

  // ---------------------------------------------------------------- storing

  /** The row `persist` writes for a message; a new answer has no summary yet. */
  function RowOf(m: Message, results: map<string, string>): Row {
    match m
    case System(text) => Row(RoleAssistant, Some(text), None, None, None, None)
    case User(text) => Row(RoleUser, Some(text), None, None, None, None)
    case Assistant(content, toolCalls) => Row(RoleAssistant, content, toolCalls, None, None, None)
    case Tool(id, text) =>
      Row(RoleTool, Some(text), None, Some(id), if id in results then Some(results[id]) else None, None)
  }

  function RowsOf(ms: seq<Message>, results: map<string, string>): (r: seq<Row>)
    ensures |r| == |ms|
  {
    if ms == [] then [] else [RowOf(ms[0], results)] + RowsOf(ms[1..], results)
  }

  lemma {:induction false} RowsOfConcat(a: seq<Message>, b: seq<Message>, results: map<string, string>)
    ensures RowsOf(a + b, results) == RowsOf(a, results) + RowsOf(b, results)
  {
    if a == [] {
      assert a + b == b;
    } else {
      assert (a + b)[1..] == a[1..] + b;
      RowsOfConcat(a[1..], b, results);
    }
  }

  class MessageTable {
    var rows: seq<Row>

    /** Inserts the transcript, message by message; the last row's id stands for the answer. */
    method Persist(transcript: seq<Message>, results: map<string, string>) returns (finalId: nat)
      modifies this
      ensures rows == old(rows) + RowsOf(transcript, results)
      ensures transcript != [] ==> finalId == |rows| - 1
    {
      finalId := 0;
      assert transcript[..0] == [];
      for i := 0 to |transcript|
        invariant rows == old(rows) + RowsOf(transcript[..i], results)
        invariant i == |transcript| && i > 0 ==> finalId == |rows| - 1
      {
        assert transcript[..i + 1] == transcript[..i] + [transcript[i]];
        RowsOfConcat(transcript[..i], [transcript[i]], results);
        assert [transcript[i]][1..] == [];
        rows := rows + [RowOf(transcript[i], results)];
        if i == |transcript| - 1 {
          finalId := |rows| - 1;
        }
      }
      assert transcript[..|transcript|] == transcript;
    }

    /** The summary of a turn, written later to the row whose id `Persist` returned. */
    method Summarize(finalId: nat, summary: string)
      modifies this
      ensures rows == if finalId < |old(rows)|
                      then old(rows)[finalId := old(rows)[finalId].(summary := Some(summary))] else old(rows)
    {
      if finalId < |rows| {
        rows := rows[finalId := rows[finalId].(summary := Some(summary))];
      }
    }
  }
}

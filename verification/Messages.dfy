/** The chat messages the assistant sends and stores, and what makes a list of them a legal conversation
    for llm-service. */
module Messages {
  import opened Common

  datatype ToolCall = ToolCall(id: string, name: string, arguments: string)

  datatype Message =
    | System(text: string)
    | User(text: string)
    | Assistant(content: Option<string>, toolCalls: Option<seq<ToolCall>>)
    | Tool(callId: string, text: string)

  function Calls(m: Message): seq<ToolCall> {
    if m.Assistant? && m.toolCalls.Some? then m.toolCalls.value else []
  }

  predicate DistinctIds(calls: seq<ToolCall>) {
    forall i, j | 0 <= i < j < |calls| :: calls[i].id != calls[j].id
  }

  // ------------------------------------------------------------------- legality

  /** How many tool messages stand at the front. */
  function LeadingTools(ms: seq<Message>): (n: nat)
    ensures n <= |ms| && (forall i | 0 <= i < n :: ms[i].Tool?) && (n < |ms| ==> !ms[n].Tool?)
  {
    if ms != [] && ms[0].Tool? then 1 + LeadingTools(ms[1..]) else 0
  }

  /** Exactly one tool message per call id, and none for anything else. */
  ghost predicate Answers(calls: seq<ToolCall>, tools: seq<Message>)
    requires forall i | 0 <= i < |tools| :: tools[i].Tool?
  {
    && (forall i, j | 0 <= i < j < |tools| :: tools[i].callId != tools[j].callId)
    && (forall i | 0 <= i < |tools| :: Called(calls, tools[i].callId))
    && (forall c | c in calls :: Answered(tools, c.id))
  }

  predicate Called(calls: seq<ToolCall>, id: string) {
    exists i | 0 <= i < |calls| :: calls[i].id == id
  }

  predicate Answered(tools: seq<Message>, id: string) {
    exists i | 0 <= i < |tools| :: tools[i].Tool? && tools[i].callId == id
  }

  /** Turns after the system prompt: calls answered at once, no orphan results, no empty assistant message. */
  ghost predicate WellFormed(ms: seq<Message>)
    decreases |ms|
  {
    ms == [] ||
    match ms[0]
    case User(_) => WellFormed(ms[1..])
    case Assistant(content, _) =>
      if Calls(ms[0]) == [] then
        content.Some? && content.value != "" && WellFormed(ms[1..])
      else
        var n := LeadingTools(ms[1..]);
        Answers(Calls(ms[0]), ms[1..][..n]) && WellFormed(ms[1..][n..])
    case _ => false
  }

  ghost predicate Legal(request: seq<Message>) {
    && request != [] && request[0].System?
    && WellFormed(request[1..])
    && !request[|request| - 1].Assistant?
  }

  lemma {:induction false} NoSystemInside(ms: seq<Message>, i: nat)
    requires WellFormed(ms) && i < |ms|
    ensures !ms[i].System?
    decreases |ms|
  {
    if i > 0 {
      var n := if Calls(ms[0]) == [] then 0 else LeadingTools(ms[1..]);
      if i - 1 >= n {
        NoSystemInside(ms[1..][n..], i - 1 - n);
        assert ms[1..][n..][i - 1 - n] == ms[i];
      } else {
        assert ms[1..][i - 1] == ms[i];
      }
    }
  }

  /** A legal request has exactly one system message, at its front. */
  lemma OneSystemMessage(request: seq<Message>, i: nat)
    requires Legal(request) && i < |request|
    ensures request[i].System? <==> i == 0
  {
    if i > 0 { NoSystemInside(request[1..], i - 1); }
  }

  /** A turn is one question and what follows it. */
  ghost predicate OneQuestion(ms: seq<Message>) {
    ms != [] && ms[0].User? && forall i | 0 < i < |ms| :: !ms[i].User? && !ms[i].System?
  }

  // ----------------------------------------------------------------- composing

  lemma {:induction false} LeadingToolsConcat(a: seq<Message>, b: seq<Message>)
    requires b == [] || !b[0].Tool?
    ensures LeadingTools(a + b) == LeadingTools(a)
  {
    if a != [] && a[0].Tool? {
      assert (a + b)[1..] == a[1..] + b;
      LeadingToolsConcat(a[1..], b);
    } else if a == [] {
      assert a + b == b;
    }
  }

  /** Cut anywhere but before a tool result, a conversation is well formed exactly when both parts are. */
  lemma {:induction false} WellFormedConcat(a: seq<Message>, b: seq<Message>)
    requires b == [] || !b[0].Tool?
    ensures WellFormed(a + b) <==> WellFormed(a) && WellFormed(b)
    decreases |a|
  {
    if a == [] {
      assert a + b == b;
    } else {
      var u := a + b;
      assert u[0] == a[0] && u[1..] == a[1..] + b;
      if Calls(a[0]) == [] {
        WellFormedConcat(a[1..], b);
      } else {
        LeadingToolsConcat(a[1..], b);
        var n := LeadingTools(a[1..]);
        assert u[1..][..n] == a[1..][..n];
        assert u[1..][n..] == a[1..][n..] + b;
        WellFormedConcat(a[1..][n..], b);
      }
    }
  }

  lemma WellFormedCut(ms: seq<Message>, k: nat)
    requires k < |ms| && !ms[k].Tool?
    ensures WellFormed(ms) <==> WellFormed(ms[..k]) && WellFormed(ms[k..])
  {
    assert ms == ms[..k] + ms[k..];
    WellFormedConcat(ms[..k], ms[k..]);
  }

  /** Same messages, except that results may read differently. */
  ghost predicate SameShape(a: seq<Message>, b: seq<Message>) {
    && |a| == |b|
    && forall i | 0 <= i < |a| :: a[i] == b[i] || (a[i].Tool? && b[i].Tool? && a[i].callId == b[i].callId)
  }

  lemma {:induction false} LeadingToolsShape(a: seq<Message>, b: seq<Message>)
    requires SameShape(a, b)
    ensures LeadingTools(a) == LeadingTools(b)
  {
    if a != [] && a[0].Tool? { LeadingToolsShape(a[1..], b[1..]); }
  }

  lemma ShapeCut(a: seq<Message>, b: seq<Message>, n: nat)
    requires SameShape(a, b) && n <= |a|
    ensures n <= |b| && SameShape(a[..n], b[..n]) && SameShape(a[n..], b[n..])
  {
  }

  lemma {:induction false} WellFormedShape(a: seq<Message>, b: seq<Message>)
    requires SameShape(a, b)
    ensures WellFormed(a) <==> WellFormed(b)
    decreases |a|
  {
    assert |a| == |b| && (a != [] ==> a[0] == b[0] || (a[0].Tool? && b[0].Tool?));
    hide SameShape, Answers;
    if a != [] {
      var x, y := a[1..], b[1..];
      ShapeCut(a, b, 1);
      if Calls(a[0]) == [] {
        WellFormedShape(x, y);
      } else {
        LeadingToolsShape(x, y);
        var n := LeadingTools(x);
        ShapeCut(x, y, n);
        WellFormedShape(x[n..], y[n..]);
        AnswersShape(Calls(a[0]), x[..n], y[..n], n);
      }
    }
  }

  lemma AnswersShape(calls: seq<ToolCall>, a: seq<Message>, b: seq<Message>, n: nat)
    requires SameShape(a, b) && |a| == n && forall i | 0 <= i < n :: a[i].Tool? && b[i].Tool?
    ensures Answers(calls, a) <==> Answers(calls, b)
  {
    if Answers(calls, a) { AnswersCarry(calls, a, b); }
    if Answers(calls, b) { AnswersCarry(calls, b, a); }
  }

  lemma AnswersCarry(calls: seq<ToolCall>, a: seq<Message>, b: seq<Message>)
    requires |a| == |b| && forall i | 0 <= i < |a| :: a[i].Tool? && b[i].Tool? && a[i].callId == b[i].callId
    requires Answers(calls, a)
    ensures Answers(calls, b)
  {
    forall c | c in calls ensures Answered(b, c.id) {
      var i :| 0 <= i < |a| && a[i].Tool? && a[i].callId == c.id;
      assert b[i].callId == c.id;
    }
    assert forall i, j | 0 <= i < j < |b| :: a[i].callId != a[j].callId;
  }

  // ------------------------------------------------------------------ tool rounds

  /** One result per call, in the order of the calls. */
  ghost predicate AnswersInOrder(calls: seq<ToolCall>, tools: seq<Message>) {
    && |tools| == |calls|
    && forall i | 0 <= i < |tools| :: tools[i].Tool? && tools[i].callId == calls[i].id
  }

  lemma {:induction false} AllTools(tools: seq<Message>)
    requires forall i | 0 <= i < |tools| :: tools[i].Tool?
    ensures LeadingTools(tools) == |tools|
  {
    if tools != [] { AllTools(tools[1..]); }
  }

  /** A round of calls answered one by one is well formed exactly when the reply repeated no call id. */
  lemma RoundWellFormed(content: Option<string>, calls: seq<ToolCall>, tools: seq<Message>)
    requires calls != [] && AnswersInOrder(calls, tools)
    ensures WellFormed([Assistant(content, Some(calls))] + tools) <==> DistinctIds(calls)
  {
    var ms := [Assistant(content, Some(calls))] + tools;
    assert ms[1..] == tools;
    AllTools(tools);
    assert tools[..|tools|] == tools && tools[|tools|..] == [];
    AnsweredOneByOne(calls, tools);
  }

  lemma AnsweredOneByOne(calls: seq<ToolCall>, tools: seq<Message>)
    requires AnswersInOrder(calls, tools)
    ensures Answers(calls, tools) <==> DistinctIds(calls)
  {
    assert forall i | 0 <= i < |calls| :: tools[i].callId == calls[i].id;
    forall c | c in calls ensures Answered(tools, c.id) {
      var i :| 0 <= i < |calls| && calls[i] == c;
      assert tools[i].callId == c.id;
    }
    if Answers(calls, tools) {
      forall i, j | 0 <= i < j < |calls| ensures calls[i].id != calls[j].id {
        assert tools[i].callId != tools[j].callId;
      }
    }
  }

  /** A reply that repeats a call id: two results for one id. */
  lemma RepeatedIdBreaks()
    ensures var call := ToolCall("call_0", "search", "{}");
            !WellFormed([Assistant(None, Some([call, call])), Tool("call_0", "rows"), Tool("call_0", "rows")])
  {
    var call := ToolCall("call_0", "search", "{}");
    var calls, tools := [call, call], [Tool("call_0", "rows"), Tool("call_0", "rows")];
    RoundWellFormed(None, calls, tools);
    assert calls[0].id == calls[1].id;
    assert [Assistant(None, Some(calls))] + tools
        == [Assistant(None, Some([call, call])), Tool("call_0", "rows"), Tool("call_0", "rows")];
  }
}

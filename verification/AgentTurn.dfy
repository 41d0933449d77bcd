/** One turn of the assistant (assistant/agent.ts, `runTurn` and `fitContext`). The model, the tools, the
    user's cancel and every judgement about a text are adversarial: the `World` answers each question the
    turn asks, by the number of questions asked before. */
module AgentTurn {
  import opened Common
  import opened Texts
  import opened Canonical
  import opened CallKeys
  import opened Messages
  import opened Fitting

  // ------------------------------------------------------------------ the world

  datatype Reply = Reply(content: Option<string>, toolCalls: seq<ToolCall>)

  datatype Sending = Got(reply: Reply) | Big | Thrown

  datatype ChatOutcome = Replied(reply: Reply) | Malformed | TooLarge | Failed

  datatype Verdict = Verdict(grounded: bool, missing: string, wrongArea: Option<string>)

  datatype ToolOutcome =
    | Ran(text: string, digest: string, rowCount: nat, advice: bool)
    | Threw(message: string)

  /** What a call of the model came to. */
  datatype Handling = NotAnObject | Meta | Repeat | NotOffered | BadArguments | AgainstAdvice | Executed | Planned

  /** One call with its result: the text the model reads, whether a tool returned, the one-line form of what it returned,
      and the question at which the tool was asked. */
  datatype Handled = Handled(call: ToolCall, how: Handling, text: string, ok: bool, digest: Option<string>, n: nat)

  datatype ToolRun = ToolRun(name: string, args: Json)

  datatype PlanStep = PlanStep(tool: string, goal: string, done: bool)

  /** What the loop reads off a draft answer and the state of the cards; only looked at where the source looks. */
  datatype Signs = Signs(permissionMissing: bool, userData: bool, asksConsent: bool, claimsRevision: bool, cardShown: bool)

  /** What the model is told when its reply does not stand, with what the text is made of. */
  datatype Nudge = EmptyReply | FakeCall | BareYes | Grounding | Consent | Revision | PlanOpen(steps: seq<PlanStep>)
                 | DataQuestion | FinalAnswer | Ungrounded(missing: string) | WrongArea(area: string)

  datatype World = World(
    chat: nat -> ChatOutcome,
    check: nat -> Option<Verdict>,
    aborted: nat -> bool,
    tool: nat -> ToolOutcome,
    signs: nat -> Signs,
    guard: nat -> bool,
    objection: nat -> string,              // what a guard says when it holds a call back
    metaText: nat -> string,               // the text of a described tool or an area
    described: nat -> set<string>,
    areaArgument: nat -> string,
    weight: nat -> seq<Message> -> int,
    budget: nat -> int,
    parse: string -> Option<Json>,
    planSteps: string -> seq<PlanStep>,
    fakeCall: string -> bool,
    clean: string -> string,
    nudgeText: Nudge -> string,
    planText: seq<PlanStep> -> string,     // the plan as a checklist, with its status
    planDigest: seq<PlanStep> -> string,   // and in one line
    statusText: seq<PlanStep> -> string,
    note: string -> string)
  {
    /** The arguments of a call: nothing counts as no arguments, and anything but an object is refused. */
    function ParseArguments(raw: string): Option<Json> {
      if Trim(raw) == "" then Some(Obj([]))
      else if parse(raw).Some? && parse(raw).value.Obj? then parse(raw)
      else None
    }

    /** The run a call asks for. */
    function RunOf(call: ToolCall): ToolRun {
      var args := ParseArguments(call.arguments);
      ToolRun(call.name, if args.Some? then args.value else Null)
    }

    /** The runs of tool bodies, in order. */
    function RunsOf(hs: seq<Handled>): seq<ToolRun>
      decreases |hs|
    {
      if hs == [] then []
      else
        var n := |hs| - 1;
        RunsOf(hs[..n]) + if hs[n].how == Executed then [RunOf(hs[n].call)] else []
    }

    /** The record of a call is what its tool gave: the whole result to the model and its one-line form aside, or the
        error. Without a run there is neither. */
    predicate Faithful(h: Handled) {
      match h.how
      case Executed =>
        (match tool(h.n)
         case Ran(result, digest, _, _) => h.ok && h.text == result && h.digest == Some(digest)
         case Threw(message) => !h.ok && h.text == "error: " + h.call.name + " failed: " + message && h.digest == None)
      case Planned => !h.ok && h.digest.Some?
      case _ => !h.ok && h.digest == None
    }

    /** A tool ran exactly on readable arguments it had not run on before; an equal call is refused as a repeat. */
    ghost predicate RightlyHandled(h: Handled, runs: seq<ToolRun>) {
      && (h.how == NotAnObject ==> ParseArguments(h.call.arguments) == None)
      && (h.how in {Repeat, NotOffered, BadArguments, AgainstAdvice, Executed} ==>
            ParseArguments(h.call.arguments).Some? && (h.how == Repeat <==> RanBefore(runs, RunOf(h.call))))
    }

    /** Each call was handled rightly, given the runs before it. */
    ghost predicate Through(hs: seq<Handled>)
      decreases |hs|
    {
      hs == [] ||
      var n := |hs| - 1;
      Through(hs[..n]) && Faithful(hs[n]) && RightlyHandled(hs[n], RunsOf(hs[..n]))
    }

    lemma HandledMore(hs: seq<Handled>, h: Handled)
      requires Through(hs) && Faithful(h) && RightlyHandled(h, RunsOf(hs))
      ensures Through(hs + [h])
      ensures RunsOf(hs + [h]) == RunsOf(hs) + if h.how == Executed then [RunOf(h.call)] else []
    {
      assert (hs + [h])[..|hs|] == hs;
    }

    /** The first reply could not be parsed and the user did not cancel: the request goes once more. */
    predicate AsksAgain(n: nat) {
      chat(n).Malformed? && !aborted(n + 1)
    }

    /** What a sending comes to whose first question to the world is number `n`. */
    function SendingAt(n: nat): Sending {
      if !chat(n).Malformed? then Heard(chat(n)) else if aborted(n + 1) then Thrown else Heard(chat(n + 2))
    }

    /** The number of the question after that sending. */
    function AfterSending(n: nat): nat {
      if !chat(n).Malformed? then n + 1 else if aborted(n + 1) then n + 2 else n + 3
    }

    /** What a round's request comes to: when it was too large, the conversation is fitted, which is one question, and
        sent once more. */
    function AskingAt(n: nat): Sending {
      if !SendingAt(n).Big? then SendingAt(n)
      else if SendingAt(AfterSending(n) + 1).Big? then Thrown
      else SendingAt(AfterSending(n) + 1)
    }

    /** Nothing goes wrong at question `n`: no abort, and a sending gets its reply. */
    predicate Fine(n: nat) {
      SendingAt(n).Got? && !aborted(n)
    }

    ghost predicate FineBefore(n: nat) {
      forall k: nat | k < n :: Fine(k)
    }

    /** The text is that of reply `k`, or nothing in place of a call written as words. */
    predicate SaidAt(k: nat, text: string) {
      chat(k).Replied? && var said := TextOf(chat(k).reply);
      said == text || (text == "" && said != "" && fakeCall(said))
    }

    ghost predicate Said(text: string, n: nat) {
      exists k: nat :: k < n && SaidAt(k, text)
    }

    /** The answer is the cleaned words of a reply, not empty and no call written as words, with at most a note behind
        them. */
    predicate Gave(k: nat, answer: string) {
      chat(k).Replied? && var words := clean(TextOf(chat(k).reply));
      words != "" && !fakeCall(words) && words <= answer
    }

    ghost predicate FromReply(answer: string, n: nat) {
      exists k: nat :: k < n && Gave(k, answer)
    }

    /** A reply without words for the user: nothing is left of it, or it is a call written as words. */
    predicate NoWords(k: nat) {
      chat(k).Replied? && var said := TextOf(chat(k).reply);
      clean(said) == "" || fakeCall(clean(said)) || (said != "" && fakeCall(said))
    }

    ghost predicate Wordless(n: nat) {
      exists k: nat :: k < n && NoWords(k)
    }

    /** A reply's words; one of the fixed texts only in place of a reply without any. */
    ghost predicate FromModel(answer: string, n: nat) {
      FromReply(answer, n) || (answer in {NO_ANSWER, OUT_OF_ROUNDS} && Wordless(n))
    }

    lemma Trouble(k: nat, n: nat)
      requires k < n && !Fine(k)
      ensures !FineBefore(n)
    {
    }

    lemma SaidLater(text: string, m: nat, n: nat)
      requires Said(text, m) && m <= n
      ensures Said(text, n)
    {
    }

    lemma SendingSaid(n: nat)
      ensures n < AfterSending(n)
      ensures SendingAt(n).Got? ==> Said(TextOf(SendingAt(n).reply), AfterSending(n))
    {
      if SendingAt(n).Got? {
        assert SaidAt(n, TextOf(SendingAt(n).reply)) || SaidAt(n + 2, TextOf(SendingAt(n).reply));
      }
    }

    lemma GivenLater(answer: string, longer: string, m: nat, n: nat)
      requires FromReply(answer, m) && answer <= longer && m <= n
      ensures FromReply(longer, n)
    {
      var k: nat :| k < m && Gave(k, answer);
      assert Gave(k, longer);
    }

    /** A call written as words is passed on as no words. */
    lemma FakeSaid(text: string, n: nat)
      requires Said(text, n) && text != "" && fakeCall(text)
      ensures Said("", n)
    {
      var k: nat :| k < n && SaidAt(k, text);
      assert SaidAt(k, "");
    }

    lemma WordsOf(text: string, n: nat)
      requires clean("") == "" && Said(text, n)
      ensures clean(text) != "" && !fakeCall(clean(text)) ==> FromReply(clean(text), n)
      ensures clean(text) == "" || fakeCall(clean(text)) ==> Wordless(n)
    {
      var k: nat :| k < n && SaidAt(k, text);
      assert clean(text) != "" && !fakeCall(clean(text)) ==> Gave(k, clean(text));
      assert clean(text) == "" || fakeCall(clean(text)) ==> NoWords(k);
    }
  }

  /** What a single call to the model comes to. */
  function Heard(outcome: ChatOutcome): Sending {
    match outcome
    case Replied(reply) => Got(reply)
    case TooLarge => Big
    case _ => Thrown
  }

  function TextOf(reply: Reply): string {
    if reply.content.Some? then reply.content.value else ""
  }

  datatype Input = Input(
    maxRounds: int,
    verify: bool,
    needsPlan: bool,
    dataQuestion: bool,
    bareYes: bool,
    missingAreas: bool,
    mayPropose: bool,
    deferred: bool,
    tools: set<string>,                    // the catalog this user may use
    firstTools: set<string>,               // those of the areas the router chose
    areaTools: map<string, set<string>>,   // every area with its tools, the borrowed ones too
    home: map<string, string>)             // the one area a tool belongs to

  const DESCRIBE_TOOLS := "describe_tools"
  const WRITE_PLAN := "write_plan"
  const SWITCH_AREA := "switch_area"
  const MAX_FAILED_CHECKS := 2
  const PLAN_STEPS_MAX := 4
  const NO_OBJECT := " are not a JSON object"
  const NO_SUCH_TOOL := " is not in the catalog"
  const ALREADY_CALLED :=
    " with these arguments in this turn; its result is above. Use it, change the arguments, or answer."
  const NO_ANSWER := "Dazu habe ich keine Antwort gefunden."
  const OUT_OF_ROUNDS := "Ich konnte die Frage nicht in der vorgesehenen Zahl von Schritten beantworten."

  // --------------------------------------------------------------- what is kept

  /** A request on its way to the model: its messages, how many tool rounds stood behind it, and the tools it shows. */
  datatype Sent = Sent(messages: seq<Message>, rounds: nat, choice: Choice, tools: set<string>)

  /** How a request lets the model go on: with the plan tool only, with any offered tool, in words while tools are shown,
      or in words without any. `PlanByPrompt` is the plan request without the bound. */
  datatype Choice = BoundToPlan | PlanByPrompt | AnyTool | NoTool | WordsOnly

  /** The first `n` rounds repeat no call id. */
  predicate AllDistinct(rounds: seq<seq<ToolCall>>, n: nat)
    requires n <= |rounds|
  {
    n == 0 || (AllDistinct(rounds, n - 1) && DistinctIds(rounds[n - 1]))
  }

  lemma {:induction false} AllDistinctMeans(rounds: seq<seq<ToolCall>>, n: nat)
    requires n <= |rounds|
    ensures AllDistinct(rounds, n) <==> forall r: nat | r < n :: DistinctIds(rounds[r])
  {
    if n > 0 { AllDistinctMeans(rounds, n - 1); }
  }

  lemma {:induction false} AllDistinctSame(rounds: seq<seq<ToolCall>>, more: seq<seq<ToolCall>>, n: nat)
    requires n <= |rounds| && rounds <= more
    ensures AllDistinct(more, n) <==> AllDistinct(rounds, n)
  {
    if n > 0 { AllDistinctSame(rounds, more, n - 1); }
  }

  /** A message of the turn's own part: calls and results are those of its tool rounds. */
  ghost predicate OwnMessage(m: Message, rounds: seq<seq<ToolCall>>) {
    && (m.Assistant? && m.toolCalls.Some? ==> m.toolCalls.value != [] && m.toolCalls.value in rounds)
    && (m.Tool? ==> exists r: nat :: r < |rounds| && Called(rounds[r], m.callId))
  }

  /** What the turn added: one question, and behind it nothing but its tool rounds and words. */
  ghost predicate Own(ms: seq<Message>, rounds: seq<seq<ToolCall>>)
    decreases |ms|
  {
    if |ms| <= 1 then |ms| == 1 && ms[0].User?
    else
      var last := ms[|ms| - 1];
      Own(ms[..|ms| - 1], rounds) && !last.User? && !last.System? && OwnMessage(last, rounds)
  }

  lemma {:induction false} OwnMeans(ms: seq<Message>, rounds: seq<seq<ToolCall>>)
    requires Own(ms, rounds)
    ensures OneQuestion(ms) && forall i: nat | i < |ms| :: OwnMessage(ms[i], rounds)
    decreases |ms|
  {
    if |ms| > 1 {
      var before := ms[..|ms| - 1];
      OwnMeans(before, rounds);
      forall i: nat | i < |before| ensures OwnMessage(ms[i], rounds) && (i > 0 ==> !ms[i].User? && !ms[i].System?) {
        assert OwnMessage(before[i], rounds) && before[i] == ms[i];
      }
    }
  }

  lemma OwnMessageLater(m: Message, rounds: seq<seq<ToolCall>>, calls: seq<ToolCall>)
    requires OwnMessage(m, rounds)
    ensures OwnMessage(m, rounds + [calls])
  {
    var more := rounds + [calls];
    if m.Tool? {
      var r: nat :| r < |rounds| && Called(rounds[r], m.callId);
      assert more[r] == rounds[r];
    }
    if m.Assistant? && m.toolCalls.Some? { assert m.toolCalls.value in more; }
  }

  lemma OwnRound(content: Option<string>, calls: seq<ToolCall>, answers: seq<Message>, rounds: seq<seq<ToolCall>>,
                 i: nat)
    requires calls != [] && AnswersInOrder(calls, answers) && i < 1 + |answers|
    ensures var m := ([Assistant(content, Some(calls))] + answers)[i];
            OwnMessage(m, rounds + [calls]) && !m.User? && !m.System?
  {
    var more := rounds + [calls];
    assert more[|rounds|] == calls;
    if i > 0 { assert calls[i - 1].id == answers[i - 1].callId; }
  }

  lemma OwnSnoc(ms: seq<Message>, rounds: seq<seq<ToolCall>>, m: Message)
    requires Own(ms, rounds) && !m.User? && !m.System? && OwnMessage(m, rounds)
    ensures Own(ms + [m], rounds)
  {
    assert (ms + [m])[..|ms|] == ms;
  }

  lemma {:induction false} OwnLater(ms: seq<Message>, rounds: seq<seq<ToolCall>>, calls: seq<ToolCall>)
    requires Own(ms, rounds)
    ensures Own(ms, rounds + [calls])
    decreases |ms|
  {
    if |ms| > 1 {
      OwnLater(ms[..|ms| - 1], rounds, calls);
      OwnMessageLater(ms[|ms| - 1], rounds, calls);
    }
  }

  lemma {:induction false} OwnMany(ms: seq<Message>, rounds: seq<seq<ToolCall>>, more: seq<Message>)
    requires Own(ms, rounds)
    requires forall i: nat | i < |more| :: OwnMessage(more[i], rounds) && !more[i].User? && !more[i].System?
    ensures Own(ms + more, rounds)
    decreases |more|
  {
    if more == [] {
      assert ms + more == ms;
    } else {
      var n := |more| - 1;
      OwnMany(ms, rounds, more[..n]);
      OwnSnoc(ms + more[..n], rounds, more[n]);
      assert ms + more[..n] + [more[n]] == ms + more;
    }
  }

  lemma OwnMore(ms: seq<Message>, rounds: seq<seq<ToolCall>>, content: Option<string>, calls: seq<ToolCall>,
                answers: seq<Message>)
    requires Own(ms, rounds) && calls != [] && AnswersInOrder(calls, answers)
    ensures Own(ms + ([Assistant(content, Some(calls))] + answers), rounds + [calls])
  {
    var round := [Assistant(content, Some(calls))] + answers;
    OwnLater(ms, rounds, calls);
    forall i: nat | i < |round| ensures OwnMessage(round[i], rounds + [calls]) && !round[i].User? && !round[i].System? {
      OwnRound(content, calls, answers, rounds, i);
    }
    OwnMany(ms, rounds + [calls], round);
  }

  lemma {:induction false} OwnShape(a: seq<Message>, b: seq<Message>, rounds: seq<seq<ToolCall>>)
    requires SameShape(a, b) && Own(a, rounds)
    ensures Own(b, rounds)
    decreases |a|
  {
    if |a| > 1 {
      OwnShape(a[..|a| - 1], b[..|b| - 1], rounds);
    }
  }

  lemma OwnAnswer(ms: seq<Message>, rounds: seq<seq<ToolCall>>, answer: string)
    requires Own(ms, rounds)
    ensures Own(ms + [Assistant(Some(answer), None)], rounds)
  {
    OwnSnoc(ms, rounds, Assistant(Some(answer), None));
  }

  /** The conversation a turn works on. Its own part is as well formed as the replies' call ids allow. */
  ghost predicate Placed(messages: seq<Message>, q: nat, start: nat, rounds: seq<seq<ToolCall>>) {
    && 1 <= q <= start <= |messages| && q < |messages|
    && messages[0].System? && messages[q].User? && !messages[|messages| - 1].Assistant?
    && WellFormed(messages[1..q])
    && (WellFormed(messages[q..]) <==> AllDistinct(rounds, |rounds|))
    && Own(messages[q..], rounds)
  }

  /** Every request was legal exactly as far as the ids of the rounds behind it allow. */
  ghost predicate SentSound(sent: seq<Sent>, rounds: seq<seq<ToolCall>>)
    decreases |sent|
  {
    sent == [] || (SentSound(sent[..|sent| - 1], rounds) && SentOk(sent[|sent| - 1], rounds))
  }

  lemma {:induction false} SentSoundMeans(sent: seq<Sent>, rounds: seq<seq<ToolCall>>)
    ensures SentSound(sent, rounds) <==> forall k: nat | k < |sent| :: SentOk(sent[k], rounds)
    decreases |sent|
  {
    if sent != [] {
      var n := |sent| - 1;
      SentSoundMeans(sent[..n], rounds);
      assert sent == sent[..n] + [sent[n]];
      if SentSound(sent[..n], rounds) {
        forall k: nat | k < n ensures SentOk(sent[k], rounds) { assert SentOk(sent[..n][k], rounds); }
      }
    }
  }

  lemma SentMore(sent: seq<Sent>, rounds: seq<seq<ToolCall>>, s: Sent)
    requires SentSound(sent, rounds) && SentOk(s, rounds)
    ensures SentSound(sent + [s], rounds)
  {
    assert (sent + [s])[..|sent|] == sent;
  }

  ghost predicate SentOk(s: Sent, rounds: seq<seq<ToolCall>>) {
    s.rounds <= |rounds| && (Legal(s.messages) <==> AllDistinct(rounds, s.rounds))
  }

  ghost predicate ProperNudge(nudge: seq<Message>) {
    || nudge == []
    || (|nudge| == 1 && nudge[0].User?)
    || (|nudge| == 2 && nudge[1].User? && nudge[0].Assistant? && nudge[0].toolCalls == None
        && nudge[0].content.Some? && nudge[0].content.value != "")
  }

  lemma ProperNudgeWellFormed(nudge: seq<Message>)
    requires ProperNudge(nudge)
    ensures WellFormed(nudge) && (nudge != [] ==> !nudge[0].Tool? && nudge[|nudge| - 1].User?)
  {
    if |nudge| == 1 { assert nudge[1..] == []; }
    if |nudge| == 2 { assert nudge[1..] == [nudge[1]] && nudge[1..][1..] == []; }
  }

  /** The request made of the conversation and a nudge is legal exactly when the conversation is well formed. */
  lemma RequestLegal(messages: seq<Message>, q: nat, start: nat, rounds: seq<seq<ToolCall>>, nudge: seq<Message>)
    requires Placed(messages, q, start, rounds) && ProperNudge(nudge)
    ensures Legal(messages + nudge) <==> AllDistinct(rounds, |rounds|)
  {
    ProperNudgeWellFormed(nudge);
    PlacedWellFormed(messages, q, start, rounds);
    NudgedShape(messages, nudge);
    WellFormedConcat(messages[1..], nudge);
  }

  /** Behind the prompt: the history and the turn's own part. */
  lemma PlacedWellFormed(messages: seq<Message>, q: nat, start: nat, rounds: seq<seq<ToolCall>>)
    requires Placed(messages, q, start, rounds)
    ensures WellFormed(messages[1..]) <==> AllDistinct(rounds, |rounds|)
  {
    CutAtQuestion(messages, q);
    WellFormedCut(messages[1..], q - 1);
  }

  lemma CutAtQuestion(messages: seq<Message>, q: nat)
    requires 1 <= q < |messages|
    ensures messages[1..][..q - 1] == messages[1..q] && messages[1..][q - 1..] == messages[q..]
    ensures messages[1..][q - 1] == messages[q]
  {
  }

  lemma NudgedShape(messages: seq<Message>, nudge: seq<Message>)
    requires messages != []
    ensures (messages + nudge)[0] == messages[0] && (messages + nudge)[1..] == messages[1..] + nudge
    ensures (messages + nudge)[|messages + nudge| - 1]
         == if nudge == [] then messages[|messages| - 1] else nudge[|nudge| - 1]
  {
  }

  lemma {:induction false} MoreRounds(sent: seq<Sent>, rounds: seq<seq<ToolCall>>, calls: seq<ToolCall>)
    requires SentSound(sent, rounds)
    ensures SentSound(sent, rounds + [calls])
    decreases |sent|
  {
    if sent != [] {
      MoreRounds(sent[..|sent| - 1], rounds, calls);
      AllDistinctSame(rounds, rounds + [calls], sent[|sent| - 1].rounds);
    }
  }

  lemma AllDistinctMore(rounds: seq<seq<ToolCall>>, calls: seq<ToolCall>)
    ensures AllDistinct(rounds + [calls], |rounds + [calls]|) <==> AllDistinct(rounds, |rounds|) && DistinctIds(calls)
  {
    AllDistinctSame(rounds, rounds + [calls], |rounds|);
  }

  /** A round of calls, each answered once and in order, keeps the conversation in place. */
  lemma RoundPlaced(messages: seq<Message>, q: nat, start: nat, rounds: seq<seq<ToolCall>>,
                    content: Option<string>, calls: seq<ToolCall>, answers: seq<Message>)
    requires Placed(messages, q, start, rounds) && calls != [] && AnswersInOrder(calls, answers)
    ensures Placed(messages + ([Assistant(content, Some(calls))] + answers), q, |messages|, rounds + [calls])
  {
    var round := [Assistant(content, Some(calls))] + answers;
    RoundWellFormed(content, calls, answers);
    GrownShape(messages, q, round);
    WellFormedConcat(messages[q..], round);
    AllDistinctMore(rounds, calls);
    OwnMore(messages[q..], rounds, content, calls, answers);
    assert round[|round| - 1] == answers[|answers| - 1];
  }

  lemma GrownShape(messages: seq<Message>, q: nat, round: seq<Message>)
    requires 1 <= q < |messages| && round != []
    ensures var grown := messages + round;
            && grown[0] == messages[0] && grown[q] == messages[q]
            && grown[1..q] == messages[1..q] && grown[q..] == messages[q..] + round
            && grown[|grown| - 1] == round[|round| - 1]
  {
  }

  // --------------------------------------------------------- one run per argument

  ghost predicate SameCall(a: ToolRun, b: ToolRun) {
    a.name == b.name && Equiv(a.args, b.args)
  }

  ghost predicate ProperRun(r: ToolRun) {
    r.args.Obj? && Valid(r.args)
  }

  ghost predicate RanBefore(runs: seq<ToolRun>, r: ToolRun)
    decreases |runs|
  {
    runs != [] && (SameCall(runs[|runs| - 1], r) || RanBefore(runs[..|runs| - 1], r))
  }

  lemma {:induction false} RanBeforeMeans(runs: seq<ToolRun>, r: ToolRun)
    ensures RanBefore(runs, r) <==> exists i: nat :: i < |runs| && SameCall(runs[i], r)
    decreases |runs|
  {
    if runs != [] {
      var n := |runs| - 1;
      RanBeforeMeans(runs[..n], r);
      if i: nat :| i < |runs| && SameCall(runs[i], r) {
        assert i < n ==> SameCall(runs[..n][i], r);
      }
    }
  }

  /** No run is the same call as one before it. */
  ghost predicate DistinctRuns(runs: seq<ToolRun>)
    decreases |runs|
  {
    runs == [] ||
    var before, last := runs[..|runs| - 1], runs[|runs| - 1];
    DistinctRuns(before) && ProperRun(last) && !RanBefore(before, last)
  }

  function KeysOf(runs: seq<ToolRun>): set<string>
    decreases |runs|
  {
    if runs == [] then {}
    else KeysOf(runs[..|runs| - 1]) + {Key(runs[|runs| - 1].name, runs[|runs| - 1].args)}
  }

  /** `seenCalls` holds the keys of the runs, and no two runs were the same call. */
  ghost predicate RunsSound(runs: seq<ToolRun>, seen: set<string>) {
    DistinctRuns(runs) && seen == KeysOf(runs)
  }

  lemma {:induction false} DistinctRunsMeans(runs: seq<ToolRun>)
    requires DistinctRuns(runs)
    ensures forall i: nat | i < |runs| :: ProperRun(runs[i])
    ensures forall i: nat, j: nat | i < j < |runs| :: !SameCall(runs[i], runs[j])
    decreases |runs|
  {
    if runs != [] {
      var n := |runs| - 1;
      DistinctRunsMeans(runs[..n]);
      RanBeforeMeans(runs[..n], runs[n]);
      forall i: nat | i < n ensures ProperRun(runs[i]) && !SameCall(runs[i], runs[n]) {
        assert ProperRun(runs[..n][i]) && runs[..n][i] == runs[i];
      }
      forall i: nat, j: nat | i < j < n ensures !SameCall(runs[i], runs[j]) {
        assert !SameCall(runs[..n][i], runs[..n][j]);
      }
    }
  }

  lemma {:induction false} SeenIffRan(runs: seq<ToolRun>, seen: set<string>, r: ToolRun)
    requires RunsSound(runs, seen) && ProperRun(r)
    ensures Key(r.name, r.args) in seen <==> RanBefore(runs, r)
    decreases |runs|
  {
    if runs != [] {
      var before, last := runs[..|runs| - 1], runs[|runs| - 1];
      SeenIffRan(before, KeysOf(before), r);
      KeyComplete(last.name, last.args, r.name, r.args);
    }
  }

  lemma RunAdded(runs: seq<ToolRun>, seen: set<string>, r: ToolRun)
    requires RunsSound(runs, seen) && ProperRun(r) && !RanBefore(runs, r)
    ensures RunsSound(runs + [r], seen + {Key(r.name, r.args)})
  {
    assert (runs + [r])[..|runs|] == runs;
  }

  // ---------------------------------------------------------------- handled calls

  /** One-line forms by call id, with those of the results; a later one of the same id counts. */
  function Noted(before: map<string, string>, hs: seq<Handled>): map<string, string>
    decreases |hs|
  {
    if hs == [] then before
    else
      var n := |hs| - 1;
      if hs[n].digest.Some? then Noted(before, hs[..n])[hs[n].call.id := hs[n].digest.value] else Noted(before, hs[..n])
  }

  /** The tools that returned, in order. */
  function OkNames(hs: seq<Handled>): seq<string>
    decreases |hs|
  {
    if hs == [] then []
    else OkNames(hs[..|hs| - 1]) + if hs[|hs| - 1].ok then [hs[|hs| - 1].call.name] else []
  }

  lemma OneMore(before: map<string, string>, hs: seq<Handled>, h: Handled)
    ensures Noted(before, hs + [h])
         == if h.digest.Some? then Noted(before, hs)[h.call.id := h.digest.value] else Noted(before, hs)
    ensures OkNames(hs + [h]) == OkNames(hs) + if h.ok then [h.call.name] else []
  {
    assert (hs + [h])[..|hs|] == hs;
  }

  /** The records are those of the first calls, in order. */
  ghost predicate OfCalls(hs: seq<Handled>, calls: seq<ToolCall>) {
    |hs| <= |calls| && forall k: nat | k < |hs| :: hs[k].call == calls[k]
  }

  /** The results the model reads, the last one with `more` behind it. */
  function Results(hs: seq<Handled>, more: string): seq<Message>
    decreases |hs|
  {
    if hs == [] then []
    else
      var last := hs[|hs| - 1];
      Results(hs[..|hs| - 1], "") + [Tool(last.call.id, last.text + more)]
  }

  lemma ResultsMore(hs: seq<Handled>, h: Handled)
    ensures Results(hs + [h], "") == Results(hs, "") + [Tool(h.call.id, h.text)]
  {
    assert (hs + [h])[..|hs|] == hs && h.text + "" == h.text;
  }

  lemma {:induction false} ResultsInOrder(hs: seq<Handled>, calls: seq<ToolCall>, more: string)
    requires OfCalls(hs, calls)
    ensures AnswersInOrder(calls[..|hs|], Results(hs, more))
    decreases |hs|
  {
    if hs != [] {
      var n := |hs| - 1;
      ResultsInOrder(hs[..n], calls, "");
      assert calls[..n + 1] == calls[..n] + [calls[n]];
    }
  }

  /** What is put behind the last message is put behind the last result. */
  lemma ResultsExtended(before: seq<Message>, hs: seq<Handled>, more: string)
    requires hs != []
    ensures var all, last := before + Results(hs, ""), hs[|hs| - 1];
            && all != [] && all[|all| - 1] == Tool(last.call.id, last.text)
            && all[|all| - 1 := Tool(last.call.id, last.text + more)] == before + Results(hs, more)
  {
    var last := hs[|hs| - 1];
    assert last.text + "" == last.text;
  }

  // ------------------------------------------------------------------- the plan

  /** The steps that name a tool of this turn, at most four. */
  function UsableSteps(steps: seq<PlanStep>, allowed: set<string>): (r: seq<PlanStep>)
    ensures |r| <= PLAN_STEPS_MAX
    ensures forall i | 0 <= i < |r| :: r[i].tool in allowed && !r[i].done
  {
    Take(Filtered(steps, allowed), PLAN_STEPS_MAX)
  }

  function Take(steps: seq<PlanStep>, n: nat): seq<PlanStep> {
    if |steps| <= n then steps else steps[..n]
  }

  function Filtered(steps: seq<PlanStep>, allowed: set<string>): (r: seq<PlanStep>)
    ensures forall i | 0 <= i < |r| :: r[i].tool in allowed && !r[i].done
  {
    if steps == [] then []
    else (if steps[0].tool in allowed then [steps[0].(done := false)] else []) + Filtered(steps[1..], allowed)
  }

  lemma {:induction false} FilteredConcat(a: seq<PlanStep>, b: seq<PlanStep>, allowed: set<string>)
    ensures Filtered(a + b, allowed) == Filtered(a, allowed) + Filtered(b, allowed)
  {
    if a == [] {
      assert a + b == b;
    } else {
      assert (a + b)[1..] == a[1..] + b;
      FilteredConcat(a[1..], b, allowed);
    }
  }

  lemma FilteredMore(steps: seq<PlanStep>, i: nat, allowed: set<string>)
    requires i < |steps|
    ensures Filtered(steps[..i + 1], allowed)
         == Filtered(steps[..i], allowed) + if steps[i].tool in allowed then [steps[i].(done := false)] else []
  {
    assert steps[..i + 1] == steps[..i] + [steps[i]];
    FilteredConcat(steps[..i], [steps[i]], allowed);
    assert [steps[i]][1..] == [];
  }

  lemma FilteredStarts(steps: seq<PlanStep>, i: nat, allowed: set<string>)
    requires i <= |steps|
    ensures Filtered(steps[..i], allowed) <= Filtered(steps, allowed)
  {
    assert steps == steps[..i] + steps[i..];
    FilteredConcat(steps[..i], steps[i..], allowed);
  }

  /** The first open step of the tool is done. */
  function Ticked(steps: seq<PlanStep>, tool: string): seq<PlanStep> {
    if steps == [] then []
    else if !steps[0].done && steps[0].tool == tool then [steps[0].(done := true)] + steps[1..]
    else [steps[0]] + Ticked(steps[1..], tool)
  }

  predicate OpenFor(step: PlanStep, tool: string) {
    !step.done && step.tool == tool
  }

  predicate NoneOpen(steps: seq<PlanStep>, tool: string) {
    forall i: nat | i < |steps| :: !OpenFor(steps[i], tool)
  }

  /** Said at length: behind steps that are not open for that tool, the first that is gets marked done; nothing else
      changes. */
  lemma {:induction false} TickedIs(before: seq<PlanStep>, rest: seq<PlanStep>, tool: string)
    requires NoneOpen(before, tool) && (rest == [] || OpenFor(rest[0], tool))
    ensures Ticked(before + rest, tool) == before + if rest == [] then [] else [rest[0].(done := true)] + rest[1..]
  {
    if before == [] {
      assert before + rest == rest;
    } else {
      assert !OpenFor(before[0], tool) && (before + rest)[1..] == before[1..] + rest;
      assert NoneOpen(before[1..], tool) by {
        forall i: nat | i < |before[1..]| ensures !OpenFor(before[1..][i], tool) { assert !OpenFor(before[i + 1], tool); }
      }
      TickedIs(before[1..], rest, tool);
    }
  }

  function TickedAll(steps: seq<PlanStep>, names: seq<string>): seq<PlanStep> {
    if names == [] then steps else Ticked(TickedAll(steps, names[..|names| - 1]), names[|names| - 1])
  }

  /** The plan after a round in which these tools ran: for each of them its first open step is done. */
  function TicksTo(plan: Option<seq<PlanStep>>, names: seq<string>): Option<seq<PlanStep>> {
    if plan.Some? then Some(TickedAll(plan.value, names)) else None
  }

  /** What a plan adds to the last result of a round. */
  function StatusBehind(plan: Option<seq<PlanStep>>, status: seq<PlanStep> -> string): string {
    if plan.Some? then "\n\n" + status(plan.value) else ""
  }

  /** A round that is through: behind what was there the reply, then exactly one result for each call, in order, as it
      was recorded; the plan has ticked for the tools that returned, and its status ends the last result. */
  ghost predicate RoundClosed(before: seq<Message>, reply: Reply, after: seq<Message>, plan: Option<seq<PlanStep>>,
                              hs: seq<Handled>, now: Option<seq<PlanStep>>, status: seq<PlanStep> -> string) {
    && |hs| == |reply.toolCalls| && OfCalls(hs, reply.toolCalls)
    && now == TicksTo(plan, OkNames(hs))
    && after == before + ([Assistant(reply.content, Some(reply.toolCalls))] + Results(hs, StatusBehind(now, status)))
  }

  predicate HasOpenStep(plan: Option<seq<PlanStep>>) {
    plan.Some? && exists i | 0 <= i < |plan.value| :: !plan.value[i].done
  }

  /** Open is a plan with a step that is not done, wherever it stands. */
  lemma HasOpenStepIff(before: seq<PlanStep>, step: PlanStep, after: seq<PlanStep>)
    ensures HasOpenStep(Some(before + [step] + after)) <==> !step.done || HasOpenStep(Some(before + after))
    ensures !HasOpenStep(Some([])) && !HasOpenStep(None)
  {
    var all, rest := before + [step] + after, before + after;
    assert all[|before|] == step;
    forall i: nat | i < |rest| ensures rest[i] == all[if i < |before| then i else i + 1] {}
    if i: nat :| i < |all| && !all[i].done {
      assert i != |before| ==> all[i] == rest[if i < |before| then i else i - 1];
    }
    if i: nat :| i < |rest| && !rest[i].done {
      assert !all[if i < |before| then i else i + 1].done;
    }
  }

  function FirstPlanCall(calls: seq<ToolCall>): (r: Option<ToolCall>)
    ensures r.Some? ==> r.value in calls && r.value.name == WRITE_PLAN
  {
    if calls == [] then None else if calls[0].name == WRITE_PLAN then Some(calls[0]) else FirstPlanCall(calls[1..])
  }

  /** It is the first call of the plan tool. */
  lemma {:induction false} FirstPlanCallIs(calls: seq<ToolCall>)
    ensures FirstPlanCall(calls) == None <==> forall i: nat | i < |calls| :: calls[i].name != WRITE_PLAN
    ensures forall i: nat | i < |calls| && calls[i].name == WRITE_PLAN
                            && (forall k: nat | k < i :: calls[k].name != WRITE_PLAN) ::
              FirstPlanCall(calls) == Some(calls[i])
  {
    if calls != [] && calls[0].name != WRITE_PLAN {
      var rest := calls[1..];
      FirstPlanCallIs(rest);
      assert forall i: nat | i < |rest| :: rest[i] == calls[i + 1];
      assert forall i: nat | 0 < i < |calls| :: calls[i] == rest[i - 1];
    }
  }

  lemma {:induction false} OtherCallsConcat(a: seq<ToolCall>, b: seq<ToolCall>)
    ensures OtherCalls(a + b) == OtherCalls(a) + OtherCalls(b)
  {
    if a == [] {
      assert a + b == b;
    } else {
      assert (a + b)[1..] == a[1..] + b;
      OtherCallsConcat(a[1..], b);
    }
  }

  /** The calls of other tools are left, all of them and in order. */
  lemma {:induction false} OtherCallsAre(calls: seq<ToolCall>, call: ToolCall)
    ensures call in OtherCalls(calls) <==> call in calls && call.name != WRITE_PLAN
    ensures OtherCalls(calls + [call]) == OtherCalls(calls) + if call.name != WRITE_PLAN then [call] else []
  {
    OtherCallsConcat(calls, [call]);
    assert [call][1..] == [];
    if calls != [] {
      assert call in calls <==> call == calls[0] || call in calls[1..];
      OtherCallsAre(calls[1..], call);
    }
  }

  function OtherCalls(calls: seq<ToolCall>): seq<ToolCall> {
    if calls == [] then []
    else (if calls[0].name != WRITE_PLAN then [calls[0]] else []) + OtherCalls(calls[1..])
  }

  // -------------------------------------------------------------------- the turn

  datatype RoundEnd = Next(nudge: seq<Message>) | Done(answer: string) | Halt

  datatype Outcome = Answered(answer: string, rounds: int, transcript: seq<Message>) | Cancelled

  /** A round: the place of its first request among those sent, whether it asked the model, what it was to say beside
      the conversation, and how it ended. */
  datatype RoundLog = RoundLog(first: nat, asks: bool, nudge: seq<Message>, end: RoundEnd)

  class Turn {
    const w: World
    const in_: Input
    const question: string
    const historyDigests: Digests

    var messages: seq<Message>
    var questionIndex: nat
    var lastRoundStart: nat
    var digests: Digests

    var asked: nat                         // questions put to the world so far
    var sent: seq<Sent>
    ghost var log: seq<RoundLog>
    var toolRounds: seq<seq<ToolCall>>
    var handled: seq<Handled>
    var runs: seq<ToolRun>
    var seenCalls: set<string>
    var toolResults: map<string, string>   // the one-line forms of this turn's results, kept with the transcript
    var advised: set<string>               // tools with the advice of their last empty result
    var active: set<string>                // areas in play
    var offered: set<string>
    var plan: Option<seq<PlanStep>>

    var calledTools: bool
    var emptyRetried: bool
    var afterEmptyReply: bool
    var consentNudged: bool
    var revisionNudged: bool
    var yesNudged: bool
    var planNudged: bool
    var rerouted: bool
    var extraRounds: nat
    var failedChecks: nat
    var reroutes: nat
    var emptyRequests: nat                 // requests made only because a reply was empty

    ghost predicate Sound()
      reads this
    {
      Standing() && Bounded() && Recorded()
    }

    /** Every call is on record: handled rightly and with the result its tool gave, no two runs alike, and the one-line
        forms of exactly those results noted. */
    ghost predicate Recorded()
      reads this`handled, this`runs, this`seenCalls, this`toolResults, this`digests
    {
      && w.Through(handled) && runs == w.RunsOf(handled) && RunsSound(runs, seenCalls)
      && toolResults == Noted(map[], handled) && digests == Noted(historyDigests, handled)
    }

    /** What holds at every moment, however the turn ends. */
    ghost predicate Accountable()
      reads this`sent, this`toolRounds, this`handled, this`runs, this`seenCalls, this`toolResults, this`digests
      reads this`failedChecks, this`reroutes, this`rerouted, this`emptyRequests, this`emptyRetried
    {
      SentSound(sent, toolRounds) && Bounded() && Recorded()
    }

    /** Said at length: every request was legal as long as the rounds behind it repeated no call id, and no tool body
        ran twice on equal arguments. */
    lemma AccountableMeans()
      requires Accountable()
      ensures forall k: nat | k < |sent| ::
                && sent[k].rounds <= |toolRounds|
                && (Legal(sent[k].messages) <==> forall r: nat | r < sent[k].rounds :: DistinctIds(toolRounds[r]))
      ensures forall i: nat, j: nat | i < j < |runs| :: !SameCall(runs[i], runs[j])
    {
      hide Legal, DistinctIds, SameCall;
      SentSoundMeans(sent, toolRounds);
      DistinctRunsMeans(runs);
      forall k: nat | k < |sent|
        ensures Legal(sent[k].messages) <==> forall r: nat | r < sent[k].rounds :: DistinctIds(toolRounds[r])
      {
        assert SentOk(sent[k], toolRounds);
        AllDistinctMeans(toolRounds, sent[k].rounds);
      }
    }

    /** A turn stops only where something went wrong, and an answer is the model's. */
    ghost predicate Onward(r: RoundEnd)
      reads this`asked
    {
      (w.FineBefore(asked) ==> !r.Halt?) && (r.Done? ==> w.FromModel(r.answer, asked))
    }

    /** The conversation, with the question where the turn left it. */
    ghost predicate InPlace()
      reads this`messages, this`questionIndex, this`lastRoundStart, this`toolRounds
    {
      && Placed(messages, questionIndex, lastRoundStart, toolRounds)
      && messages[questionIndex] == User(question)
    }

    lemma RoundInside()
      requires InPlace()
      ensures lastRoundStart <= |messages| && 1 <= questionIndex < |messages|
    {
    }

    ghost predicate Standing()
      reads this`messages, this`questionIndex, this`lastRoundStart, this`toolRounds, this`sent
    {
      InPlace() && SentSound(sent, toolRounds)
    }

    ghost predicate Bounded()
      reads this`failedChecks, this`reroutes, this`rerouted, this`emptyRequests, this`emptyRetried
    {
      && failedChecks <= MAX_FAILED_CHECKS
      && reroutes <= 1 && (reroutes == 1 ==> rerouted)
      && emptyRequests <= 1 && (emptyRequests == 1 ==> emptyRetried)
    }

    constructor (w: World, input: Input, prompt: string, history: seq<Message>, question: string,
                 historyDigests: Digests, areas: set<string>)
      requires WellFormed(history)
      ensures Sound() && sent == [] && toolRounds == [] && runs == [] && extraRounds == 0 && plan == None
      ensures messages == [System(prompt)] + history + [User(question)] && questionIndex == |history| + 1
      ensures this.w == w && this.in_ == input && this.question == question && asked == 0
      ensures active == areas && offered == (if input.deferred then {} else input.firstTools) && advised == {}
      ensures !calledTools && !emptyRetried && !afterEmptyReply && !rerouted && failedChecks == 0 && reroutes == 0
      ensures !consentNudged && !revisionNudged && !yesNudged && !planNudged
      ensures log == [] && handled == [] && toolResults == map[]
      ensures this.historyDigests == historyDigests && digests == historyDigests
    {
      this.w, in_, this.question := w, input, question;
      messages := [System(prompt)] + history + [User(question)];
      questionIndex, lastRoundStart := |history| + 1, |history| + 1;
      this.historyDigests, digests := historyDigests, historyDigests;
      handled, toolResults, log := [], map[], [];
      asked, sent, toolRounds, runs, seenCalls, advised := 0, [], [], [], {}, {};
      active := areas;
      offered := if input.deferred then {} else input.firstTools;
      plan := None;
      calledTools, emptyRetried, afterEmptyReply := false, false, false;
      consentNudged, revisionNudged, yesNudged, planNudged, rerouted := false, false, false, false, false;
      extraRounds, failedChecks, reroutes, emptyRequests := 0, 0, 0, 0;
      new;
      assert messages[1..questionIndex] == history;
      assert messages[questionIndex..] == [User(question)] && [User(question)][1..] == [];
      assert Own([User(question)], []);
    }

    /** First loop of `fitContext`: older results become their digests. */
    method DigestOld(weight: seq<Message> -> int, budget: int, protectFrom: nat) returns (ghost k: nat)
      requires messages != [] && protectFrom <= |messages|
      modifies this`messages
      ensures DigestsStopAt(old(messages), digests, weight, budget, protectFrom, k)
      ensures messages == DigestUpTo(old(messages), digests, k)
    {
      ghost var ms := messages;
      var i := 1;
      assert DigestUpTo(ms, digests, 1) == ms;
      while i < protectFrom && weight(messages) > budget
        invariant 1 <= i && (i == 1 || i <= protectFrom)
        invariant messages == DigestUpTo(ms, digests, i)
        invariant forall k | 1 <= k < i :: weight(DigestUpTo(ms, digests, k)) > budget
      {
        var m := messages[i];
        DigestStep(ms, digests, i);
        if m.Tool? && m.callId in digests && digests[m.callId] != "" && m.text != digests[m.callId] {
          messages := messages[i := m.(text := digests[m.callId])];
        }
        i := i + 1;
      }
      k := i;
    }

    /** `messages.splice(1, 1)` */
    method DropSecond(ghost d: seq<Message>, ghost j: nat)
      requires 1 <= j < |d| && messages == DropTo(d, j)
      modifies this`messages
      ensures messages == DropTo(d, j + 1)
    {
      DropStep(d, j);
      messages := messages[..1] + messages[2..];
    }

    /** The oldest turn goes whole: its first message, then everything before the next question. */
    method DropTurn(ghost d: seq<Message>, removed: nat) returns (now: nat)
      requires 1 <= questionIndex < |d| && removed + 1 < questionIndex && messages == DropTo(d, removed + 1)
      modifies this`messages
      ensures removed < now < questionIndex && messages == DropTo(d, now + 1)
      ensures now + 1 == questionIndex || d[now + 1].User?
      ensures NoQuestion(d, removed + 1, now + 1)
    {
      DropSecond(d, removed + 1);
      now := removed + 1;
      DropStep(d, now + 1);
      while questionIndex - now > 1 && !messages[1].User?
        invariant removed < now < questionIndex && messages == DropTo(d, now + 1) && messages[1] == d[now + 1]
        invariant NoQuestion(d, removed + 1, now + 1)
        decreases questionIndex - now
      {
        NoQuestionMore(d, removed + 1, now + 1);
        DropSecond(d, now + 1);
        now := now + 1;
        DropStep(d, now + 1);
      }
    }

    /** Second loop of `fitContext`: whole turns go, oldest first. */
    method DropTurns(weight: seq<Message> -> int, budget: int) returns (removed: nat)
      requires 1 <= questionIndex < |messages|
      modifies this`messages
      ensures DropsStopAt(old(messages), weight, budget, questionIndex, removed + 1)
      ensures messages == DropTo(old(messages), removed + 1)
    {
      ghost var d := messages;
      removed := 0;
      DropNone(d);
      while weight(messages) > budget && questionIndex - removed > 1
        invariant removed < questionIndex && Boundary(d, questionIndex, removed + 1)
        invariant messages == DropTo(d, removed + 1)
        invariant TooBigBefore(d, weight, budget, questionIndex, removed + 1)
        decreases questionIndex - removed
      {
        ghost var from := removed + 1;
        removed := DropTurn(d, removed);
        TooBigStep(d, weight, budget, questionIndex, from, removed + 1);
      }
    }

    /** Shrinks `messages` in place; see `Fitted`. */
    method FitContext(weight: seq<Message> -> int, budget: int, protectFrom: nat) returns (removed: nat)
      requires 1 <= questionIndex < |messages| && protectFrom <= |messages|
      modifies this`messages
      ensures Fitted(old(messages), digests, weight, budget, protectFrom, questionIndex, messages, removed)
    {
      ghost var k := DigestOld(weight, budget, protectFrom);
      removed := DropTurns(weight, budget);
    }

    /** `ms'` is `ms` fitted to so many tenths of the budget, as it is at question `n`. */
    ghost predicate FitsFrom(ms: seq<Message>, q: nat, protectFrom: nat, tenths: nat, n: nat, ms': seq<Message>,
                             removed: int)
      reads this`digests
    {
      && 1 <= q < |ms| && 0 <= removed
      && Fitted(ms, digests, w.weight(n), w.budget(n) * tenths / 10, protectFrom, q, ms', removed)
    }

    /** The list shrinks and stays a conversation in place, `shift` further to the front. */
    method Shrink(weight: seq<Message> -> int, budget: int, protectFrom: nat) returns (shift: nat)
      requires InPlace() && protectFrom <= |messages|
      modifies this`messages
      ensures shift < questionIndex <= lastRoundStart && 1 <= questionIndex < |old(messages)|
      ensures Fitted(old(messages), digests, weight, budget, protectFrom, questionIndex, messages, shift)
      ensures Placed(messages, questionIndex - shift, lastRoundStart - shift, toolRounds)
      ensures messages[questionIndex - shift] == User(question)
      ensures SameShape(old(messages[questionIndex..]), messages[questionIndex - shift..])
    {
      hide WellFormed, Own, AllDistinct, Fitted, SameShape;
      ghost var ms := messages;
      shift := FitContext(weight, budget, protectFrom);
      FittedPlaced(ms, digests, weight, budget, protectFrom, questionIndex, lastRoundStart, toolRounds, messages, shift);
    }

    /** Before a request: to the budget, with the round that is still open protected. `tenths` is the share of it. */
    method Fit(protectFrom: nat, tenths: nat)
      requires InPlace() && protectFrom <= |messages|
      modifies this`messages, this`questionIndex, this`lastRoundStart, this`asked
      ensures InPlace()
      ensures FitsFrom(old(messages), old(questionIndex), protectFrom, tenths, old(asked), messages,
                       old(questionIndex) - questionIndex)
      ensures old(lastRoundStart) - lastRoundStart == old(questionIndex) - questionIndex
      ensures SameShape(old(messages[questionIndex..]), messages[questionIndex..])
      ensures asked == old(asked) + 1
    {
      hide Placed, Fitted, SameShape;
      var shift := Shrink(w.weight(asked), w.budget(asked) * tenths / 10, protectFrom);
      questionIndex := questionIndex - shift;
      lastRoundStart := lastRoundStart - shift;
      asked := asked + 1;
    }

    // ------------------------------------------------------------ sending

    method Aborted() returns (aborted: bool)
      modifies this`asked
      ensures aborted == w.aborted(old(asked)) && asked == old(asked) + 1
      ensures aborted ==> !w.FineBefore(asked)
    {
      aborted := w.aborted(asked);
      asked := asked + 1;
      if aborted { w.Trouble(asked - 1, asked); }
    }

    /** The offered tools go along with a request, except where the model is to answer in words or, by prompt, to plan. */
    function Shown(choice: Choice): set<string>
      reads this`offered
    {
      if choice in {BoundToPlan, AnyTool, NoTool} then offered else {}
    }

    /** The request as it stands. */
    function Request(messages: seq<Message>, choice: Choice): Sent
      reads this`toolRounds, this`offered
    {
      Sent(messages, |toolRounds|, choice, Shown(choice))
    }

    function Unbound(choice: Choice): Choice {
      if choice == BoundToPlan then PlanByPrompt else choice
    }

    /** One /chat call. */
    method Chat(out: Sent) returns (outcome: ChatOutcome)
      requires SentSound(sent, toolRounds) && SentOk(out, toolRounds)
      modifies this`sent, this`asked
      ensures SentSound(sent, toolRounds) && sent == old(sent) + [out]
      ensures outcome == w.chat(old(asked)) && asked == old(asked) + 1
    {
      SentMore(sent, toolRounds, out);
      sent := sent + [out];
      outcome := w.chat(asked);
      asked := asked + 1;
    }

    /** A request; a reply the server could not parse is asked for once more with the same messages, a bound call
        without its bound. */
    method Send(request: seq<Message>, choice: Choice) returns (r: Sending)
      requires SentSound(sent, toolRounds)
      requires Legal(request) <==> AllDistinct(toolRounds, |toolRounds|)
      modifies this`sent, this`asked
      ensures SentSound(sent, toolRounds)
      ensures sent == old(sent) + [Request(request, choice)]
                      + if w.AsksAgain(old(asked)) then [Request(request, Unbound(choice))] else []
      ensures r == w.SendingAt(old(asked))
      ensures asked == w.AfterSending(old(asked))
    {
      hide Legal, AllDistinct, SentSound;
      var out := Sent(request, |toolRounds|, choice, if choice in {PlanByPrompt, WordsOnly} then {} else offered);
      var outcome := Chat(out);
      if outcome.Malformed? {
        var aborted := Aborted();
        if aborted {
          return Thrown;
        }
        if choice == BoundToPlan {
          out := out.(choice := PlanByPrompt, tools := {});
        }
        outcome := Chat(out);
      }
      match outcome {
        case Replied(reply) => r := Got(reply);
        case TooLarge => r := Big;
        case _ => r := Thrown;
      }
    }

    /** The conversation with what is said once and not kept. */
    method SendWith(nudge: seq<Message>, choice: Choice) returns (r: Sending)
      requires InPlace() && SentSound(sent, toolRounds)
      requires ProperNudge(nudge)
      modifies this`sent, this`asked
      ensures SentSound(sent, toolRounds)
      ensures sent == old(sent) + [Request(messages + nudge, choice)]
                      + if w.AsksAgain(old(asked)) then [Request(messages + nudge, Unbound(choice))] else []
      ensures r == w.SendingAt(old(asked))
      ensures asked == w.AfterSending(old(asked)) > old(asked) && (r.Got? || !w.FineBefore(asked))
      ensures r.Got? ==> w.Said(TextOf(r.reply), asked)
    {
      hide Placed, SentSound, Legal, AllDistinct, ProperNudge, World.FineBefore, World.Said, World.AfterSending;
      RequestLegal(messages, questionIndex, lastRoundStart, toolRounds, nudge);
      w.SendingSaid(asked);
      r := Send(messages + nudge, choice);
      if !r.Got? { w.Trouble(old(asked), asked); }
    }

    /** The request of a round; when it is too large after all, everything that can shrink does, to six tenths of the
        budget, and the request goes once more. */
    method Ask(nudge: seq<Message>, choice: Choice) returns (r: Sending)
      requires InPlace() && SentSound(sent, toolRounds)
      requires ProperNudge(nudge)
      modifies this`sent, this`asked, this`messages, this`questionIndex, this`lastRoundStart
      ensures InPlace() && SentSound(sent, toolRounds)
      ensures |old(sent)| < |sent| <= |old(sent)| + 4 && old(sent) <= sent
      ensures sent[|old(sent)|] == Request(old(messages) + nudge, choice)
      // not too large: nothing changes, and what went out is this request
      ensures !w.SendingAt(old(asked)).Big? ==>
                && messages == old(messages) && questionIndex == old(questionIndex)
                && sent == old(sent) + [Request(messages + nudge, choice)]
                           + if w.AsksAgain(old(asked)) then [Request(messages + nudge, Unbound(choice))] else []
      // too large: another request, of the conversation fitted with nothing protected
      ensures w.SendingAt(old(asked)).Big? ==>
                && FitsFrom(old(messages), old(questionIndex), |old(messages)|, 6, w.AfterSending(old(asked)), messages,
                            old(questionIndex) - questionIndex)
                && |old(sent)| + 2 <= |sent| && sent[|sent| - 1].messages == messages + nudge
      ensures r == w.AskingAt(old(asked)) && old(asked) < asked && (r.Got? || !w.FineBefore(asked))
      ensures r.Got? ==> w.Said(TextOf(r.reply), asked)
      ensures SameShape(old(messages[questionIndex..]), messages[questionIndex..])
    {
      hide Placed, SentSound, World.FineBefore, World.Said, Fitted;
      r := SendWith(nudge, choice);
      if r.Big? {
        Fit(|messages|, 6);
        r := SendWith(nudge, choice);
        if r.Big? {
          r := Thrown;
        }
      }
    }

    // -------------------------------------------------------- the calls of a reply

    function HomesOf(names: set<string>): set<string> {
      set name | name in names && name in in_.home :: in_.home[name]
    }

    lemma HomesOfOne(name: string)
      ensures HomesOf({name}) == if name in in_.home then {in_.home[name]} else {}
    {
      if name in in_.home { assert name in {name}; }
    }

    /** The user's tools of these areas. */
    function ToolsOf(areas: set<string>): set<string> {
      set area, name | area in areas && area in in_.areaTools && name in in_.areaTools[area] && name in in_.tools :: name
    }

    /** An area joins the turn; without a deferred catalog the tools of all areas in play are offered. */
    method Activate(areas: set<string>)
      modifies this`active, this`offered
      ensures active == old(active) + areas
      ensures offered == old(offered) + if in_.deferred then {} else ToolsOf(active)
    {
      active := active + areas;
      if !in_.deferred {
        offered := offered + set area, name | area in active && area in in_.areaTools && name in in_.areaTools[area]
                               && name in in_.tools :: name;
      }
    }

    predicate IsMeta(name: string)
      reads this`plan
    {
      name == DESCRIBE_TOOLS || name == SWITCH_AREA || (name == WRITE_PLAN && plan.Some?)
    }

    /** Whether and which areas join the turn with a call: those of the tools described, the one switched to, and those
        of a tool called by its name alone. */
    function Joining(how: Handling, name: string, n: nat, offered: set<string>): set<string> {
      match how
      case Meta =>
        if name == DESCRIBE_TOOLS then HomesOf(w.described(n) * in_.tools)
        else if name == SWITCH_AREA && w.areaArgument(n) in in_.areaTools then {w.areaArgument(n)}
        else {}
      case BadArguments | AgainstAdvice | Executed => if name in offered then {} else HomesOf({name})
      case _ => {}
    }

    /** The tools a call brings by themselves. */
    function Bringing(how: Handling, name: string, n: nat): set<string> {
      match how
      case Meta =>
        if name == DESCRIBE_TOOLS then w.described(n) * in_.tools
        else if name == SWITCH_AREA && in_.deferred then ToolsOf({w.areaArgument(n)})
        else {}
      case BadArguments | AgainstAdvice | Executed => {name}
      case _ => {}
    }

    /** Without a deferred catalog areas that join bring all tools in play; described areas that are in play already do
        not. */
    predicate Reopens(how: Handling, name: string, n: nat, active: set<string>, offered: set<string>) {
      var joining := Joining(how, name, n, offered);
      !in_.deferred && joining != {} && (how == Meta && name == DESCRIBE_TOOLS ==> !(joining <= active))
    }

    /** The areas in play and the tools on offer behind a call. */
    predicate Opened(how: Handling, name: string, n: nat, active: set<string>, offered: set<string>,
                     active': set<string>,
                     offered': set<string>)
    {
      && active' == active + Joining(how, name, n, offered)
      && offered' == offered + Bringing(how, name, n)
                     + if Reopens(how, name, n, active, offered) then ToolsOf(active') else {}
    }

    /** What a meta tool answers. */
    function MetaText(name: string, n: nat): string
      requires IsMeta(name)
      reads this`plan
    {
      if name == WRITE_PLAN then "The plan is written; follow it.\n" + w.planText(plan.value)
      else if name == SWITCH_AREA && w.areaArgument(n) !in in_.areaTools then "error: unknown area"
      else w.metaText(n)
    }

    /** describe_tools: what was asked for and the user may use is offered from now on, and its areas join. */
    method Describe() returns (text: string)
      modifies this`asked, this`active, this`offered
      ensures asked == old(asked) + 1 && text == w.metaText(old(asked))
      ensures Opened(Meta, DESCRIBE_TOOLS, old(asked), old(active), old(offered), active, offered)
    {
      var described := w.described(asked) * in_.tools;
      text := w.metaText(asked);
      asked := asked + 1;
      var homes := set name | name in described && name in in_.home :: in_.home[name];
      if !(homes <= active) {
        Activate(homes - active);
      }
      offered := offered + described;
    }

    /** The tools that are offered once an area has joined: its own, or without a deferred catalog those of all in play. */
    function NewTools(area: string, active: set<string>): set<string> {
      if in_.deferred then ToolsOf({area}) else ToolsOf(active)
    }

    /** A known area joins, and its tools are offered. */
    method JoinArea(area: string)
      requires area in in_.areaTools
      modifies this`active, this`offered
      ensures active == old(active) + {area} && offered == old(offered) + NewTools(area, active)
    {
      Activate({area});
      if in_.deferred {
        offered := offered + in_.areaTools[area] * in_.tools;
      }
    }

    /** switch_area: a known area joins, and its tools are offered. */
    method SwitchArea() returns (text: string)
      modifies this`asked, this`active, this`offered
      ensures asked == old(asked) + 1
      ensures text == if w.areaArgument(old(asked)) in in_.areaTools then w.metaText(old(asked)) else "error: unknown area"
      ensures Opened(Meta, SWITCH_AREA, old(asked), old(active), old(offered), active, offered)
    {
      var area := w.areaArgument(asked);
      text := w.metaText(asked);
      asked := asked + 1;
      if area !in in_.areaTools {
        return "error: unknown area";
      }
      JoinArea(area);
    }

    /** The text of a call refused before it reaches its tool. */
    function Refusal(how: Handling, name: string, n: nat): string {
      match how
      case NotAnObject => "error: the arguments of " + name + NO_OBJECT
      case Repeat =>
        "error: you already called " + name + ALREADY_CALLED
      case NotOffered =>
        if name in in_.tools then "error: call " + DESCRIBE_TOOLS + " for " + name + " first"
        else "error: " + name + NO_SUCH_TOOL
      case _ => w.objection(n)
    }

    method Refuse(how: Handling, name: string) returns (text: string)
      requires how !in {Meta, Executed, Planned}
      ensures text == Refusal(how, name, asked)
    {
      if how == NotAnObject {
        text := "error: the arguments of " + name + NO_OBJECT;
      } else if how == Repeat {
        text := "error: you already called " + name + ALREADY_CALLED;
      } else if how == NotOffered {
        if name in in_.tools {
          text := "error: call " + DESCRIBE_TOOLS + " for " + name + " first";
        } else {
          text := "error: " + name + NO_SUCH_TOOL;
        }
      } else {
        text := w.objection(asked);
      }
    }

    /** A tool counts as advised with its last empty result, until it runs again. */
    function Advised(before: set<string>, name: string, n: nat): set<string> {
      before - {name} + if w.tool(n).Ran? && w.tool(n).rowCount == 0 && w.tool(n).advice then {name} else {}
    }

    /** A call that passed every check: it counts, and its tool body runs. */
    method Execute(call: ToolCall, run: ToolRun) returns (h: Handled)
      requires RunsSound(runs, seenCalls) && ProperRun(run) && !RanBefore(runs, run) && run == w.RunOf(call)
      modifies this`asked, this`digests, this`toolResults, this`advised, this`seenCalls, this`runs
      ensures RunsSound(runs, seenCalls) && runs == old(runs) + [run]
      ensures asked == old(asked) + 1
      ensures h.call == call && h.how == Executed && h.n == old(asked) && w.Faithful(h)
      ensures digests == if h.digest.Some? then old(digests)[call.id := h.digest.value] else old(digests)
      ensures toolResults == if h.digest.Some? then old(toolResults)[call.id := h.digest.value] else old(toolResults)
      ensures advised == Advised(old(advised), run.name, h.n)
    {
      hide Key, DistinctRuns, KeysOf, RanBefore, Equiv, Valid;
      advised := advised - {run.name};
      RunAdded(runs, seenCalls, run);
      seenCalls := seenCalls + {Key(run.name, run.args)};
      runs := runs + [run];
      var n, outcome := asked, w.tool(asked);
      asked := asked + 1;
      match outcome {
        case Ran(result, digest, rowCount, advice) =>
          digests := digests[call.id := digest];
          toolResults := toolResults[call.id := digest];
          if rowCount == 0 && advice {
            advised := advised + {run.name};
          }
          h := Handled(call, Executed, result, true, Some(digest), n);
        case Threw(message) =>
          h := Handled(call, Executed, "error: " + run.name + " failed: " + message, false, None, n);
      }
    }

    /** A call by a name that is in the catalog and, when the catalog is deferred, was described first. */
    predicate IsOffered(name: string)
      reads this`offered
    {
      name in in_.tools && (in_.deferred ==> name in offered)
    }

    /** A tool called by name joins with its areas. */
    method Join(name: string)
      modifies this`active, this`offered
      ensures Opened(Executed, name, asked, old(active), old(offered), active, offered)
    {
      hide HomesOf, ToolsOf;
      if name !in offered {
        HomesOfOne(name);
        if name in in_.home {
          Activate({in_.home[name]});
        }
        offered := offered + {name};
      }
    }

    /** The checks between an unseen call and its tool body, in their order. */
    method Admit(name: string) returns (how: Handling)
      modifies this`asked, this`active, this`offered
      ensures how in {NotOffered, BadArguments, AgainstAdvice, Executed}
      ensures how == NotOffered <==> !old(IsOffered(name))
      ensures how == BadArguments <==> old(IsOffered(name)) && w.guard(old(asked))
      ensures how == AgainstAdvice <==>
                old(IsOffered(name)) && !w.guard(old(asked)) && name in advised && w.guard(old(asked) + 1)
      // a tool called by name joins with its areas
      ensures Opened(how, name, old(asked), old(active), old(offered), active, offered)
      ensures asked == old(asked) + if how == NotOffered then 0 else if how == BadArguments || name !in advised then 1 else 2
    {
      hide HomesOf, ToolsOf;
      if name !in in_.tools || (in_.deferred && name !in offered) {
        return NotOffered;
      }
      Join(name);
      var bad := w.guard(asked);
      asked := asked + 1;
      if bad {
        return BadArguments;
      }
      if name in advised {
        var held := w.guard(asked);
        asked := asked + 1;
        if held {
          return AgainstAdvice;
        }
      }
      return Executed;
    }

    /** A call that is parsed, no meta tool and not a repeat. */
    ghost predicate IsFresh(call: ToolCall)
      reads this`plan, this`runs
    {
      && w.ParseArguments(call.arguments).Some? && !IsMeta(call.name)
      && !RanBefore(runs, w.RunOf(call))
    }

    /** describe_tools, write_plan once a plan exists, switch_area: nothing runs. */
    method HandleMeta(name: string) returns (text: string)
      requires IsMeta(name)
      modifies this`asked, this`active, this`offered
      ensures old(asked) <= asked
      ensures text == MetaText(name, old(asked))
      ensures Opened(Meta, name, old(asked), old(active), old(offered), active, offered)
    {
      if name == DESCRIBE_TOOLS {
        text := Describe();
      } else if name == WRITE_PLAN {
        text := "The plan is written; follow it.\n" + w.planText(plan.value);
      } else {
        text := SwitchArea();
      }
    }

    /** A call of a tool, with its arguments: not twice in a turn, and only past the checks. */
    method HandleTool(call: ToolCall, args: Json) returns (h: Handled)
      requires RunsSound(runs, seenCalls) && ParsesValid(w) && w.ParseArguments(call.arguments) == Some(args)
      modifies this`asked, this`digests, this`toolResults, this`active, this`offered, this`advised, this`seenCalls, this`runs
      ensures RunsSound(runs, seenCalls) && h.call == call && h.how !in {NotAnObject, Meta, Planned}
      ensures h.how == Repeat <==> RanBefore(old(runs), w.RunOf(call))
      ensures h.how == NotOffered <==> h.how != Repeat && !old(IsOffered(call.name))
      ensures h.how == BadArguments <==> h.how != Repeat && old(IsOffered(call.name)) && w.guard(old(asked))
      ensures h.how == AgainstAdvice <==>
                && h.how != Repeat && old(IsOffered(call.name)) && !w.guard(old(asked))
                && call.name in old(advised) && w.guard(old(asked) + 1)
      ensures w.Faithful(h)
      ensures h.how != Executed ==> h.text == Refusal(h.how, call.name, h.n)
      ensures old(asked) <= h.n <= asked && (h.how == Executed ==> h.n < asked)
      ensures runs == old(runs) + if h.how == Executed then [w.RunOf(call)] else []
      ensures digests == if h.digest.Some? then old(digests)[call.id := h.digest.value] else old(digests)
      ensures toolResults == if h.digest.Some? then old(toolResults)[call.id := h.digest.value] else old(toolResults)
      ensures Opened(h.how, call.name, old(asked), old(active), old(offered), active, offered)
      ensures advised == if h.how == Executed then Advised(old(advised), call.name, h.n) else old(advised)
    {
      hide Key, RanBefore, DistinctRuns, KeysOf, RunsSound, Refusal, Trim, HomesOf, ToolsOf, IsOffered, Advised;
      var name := call.name;
      var run := ToolRun(name, args);
      SeenIffRan(runs, seenCalls, run);
      if Key(name, args) in seenCalls {
        var text := Refuse(Repeat, name);
        return Handled(call, Repeat, text, false, None, asked);
      }
      var how := Admit(name);
      if how != Executed {
        var text := Refuse(how, name);
        return Handled(call, how, text, false, None, asked);
      }
      h := Execute(call, run);
    }

    /** One call: how it is handled, and the result the model reads. */
    method HandleCall(call: ToolCall) returns (h: Handled)
      requires RunsSound(runs, seenCalls) && ParsesValid(w)
      modifies this`asked, this`digests, this`toolResults, this`active, this`offered, this`advised, this`seenCalls, this`runs
      ensures RunsSound(runs, seenCalls) && h.call == call && h.how != Planned
      // each way to handle a call exactly in its case
      ensures h.how == NotAnObject <==> w.ParseArguments(call.arguments) == None
      ensures h.how == Meta <==> w.ParseArguments(call.arguments).Some? && IsMeta(call.name)
      ensures h.how == Repeat <==>
                w.ParseArguments(call.arguments).Some? && !IsMeta(call.name) && RanBefore(old(runs), w.RunOf(call))
      ensures h.how == NotOffered <==> old(IsFresh(call)) && !old(IsOffered(call.name))
      ensures h.how == BadArguments <==> old(IsFresh(call)) && old(IsOffered(call.name)) && w.guard(old(asked))
      ensures h.how == AgainstAdvice <==>
                && old(IsFresh(call)) && old(IsOffered(call.name)) && !w.guard(old(asked))
                && call.name in old(advised) && w.guard(old(asked) + 1)
      // what the model reads, and what is noted
      ensures w.Faithful(h) && w.RightlyHandled(h, old(runs))
      ensures h.how == Meta ==> h.text == MetaText(call.name, old(asked))
      ensures h.how !in {Executed, Meta} ==> h.text == Refusal(h.how, call.name, h.n)
      ensures old(asked) <= h.n <= asked && (h.how == Executed ==> h.n < asked)
      ensures runs == old(runs) + if h.how == Executed then [w.RunOf(call)] else []
      ensures digests == if h.digest.Some? then old(digests)[call.id := h.digest.value] else old(digests)
      ensures toolResults == if h.digest.Some? then old(toolResults)[call.id := h.digest.value] else old(toolResults)
      // what joins the turn
      ensures Opened(h.how, call.name, old(asked), old(active), old(offered), active, offered)
      ensures advised == if h.how == Executed then Advised(old(advised), call.name, h.n) else old(advised)
    {
      hide Key, RanBefore, DistinctRuns, KeysOf, RunsSound, Refusal, Trim, HomesOf, ToolsOf, IsOffered, Advised,
           MetaText;
      var name := call.name;
      var args := if Trim(call.arguments) == "" then Some(Obj([])) else w.parse(call.arguments);
      if args == None || !args.value.Obj? {
        var text := Refuse(NotAnObject, name);
        return Handled(call, NotAnObject, text, false, None, asked);
      }
      if name == DESCRIBE_TOOLS || (name == WRITE_PLAN && plan.Some?) || name == SWITCH_AREA {
        var n := asked;
        var text := HandleMeta(name);
        return Handled(call, Meta, text, false, None, n);
      }
      h := HandleTool(call, args.value);
    }

    /** The next call gets its result, behind those of the calls before it, and goes on record. */
    method AnswerOne(calls: seq<ToolCall>, ghost hs: seq<Handled>, ghost before: seq<Message>,
                     i: nat) returns (h: Handled)
      requires i < |calls| && i == |hs| && OfCalls(hs, calls) && Recorded() && ParsesValid(w)
      requires messages == before + Results(hs, "")
      modifies this`messages, this`handled, this`toolResults
      modifies this`asked, this`digests, this`active, this`offered, this`advised, this`seenCalls, this`runs
      ensures Recorded() && handled == old(handled) + [h] && old(runs) <= runs
      ensures h.call == calls[i] && OfCalls(hs + [h], calls) && messages == before + Results(hs + [h], "")
      ensures old(asked) <= asked
    {
      hide RunsSound, RanBefore, Equiv, Valid, World.Faithful, World.RightlyHandled, World.Through, World.RunsOf,
           Noted, Results, Opened, MetaText, Refusal, Advised;
      h := HandleCall(calls[i]);
      w.HandledMore(handled, h);
      OneMore(map[], handled, h);
      OneMore(historyDigests, handled, h);
      handled := handled + [h];
      ResultsMore(hs, h);
      messages := messages + [Tool(calls[i].id, h.text)];
    }

    /** One result per call, in order, behind the reply; stops when the user cancels. */
    method AnswerCalls(reply: Reply) returns (ghost hs: seq<Handled>, ranOk: seq<string>, stopped: bool)
      requires Recorded() && ParsesValid(w)
      modifies this`messages, this`handled, this`toolResults
      modifies this`asked, this`digests, this`active, this`offered, this`advised, this`seenCalls, this`runs
      ensures Recorded() && handled == old(handled) + hs && old(runs) <= runs
      ensures messages == (old(messages) + [Assistant(reply.content, Some(reply.toolCalls))]) + Results(hs, "")
      ensures OfCalls(hs, reply.toolCalls) && (!stopped ==> |hs| == |reply.toolCalls|)
      ensures ranOk == OkNames(hs)
      ensures old(asked) <= asked
      ensures stopped ==> old(asked) < asked && w.aborted(asked - 1) && !w.FineBefore(asked)
    {
      hide Recorded, ParsesValid, World.FineBefore;
      var calls := reply.toolCalls;
      hs, ranOk := [], [];
      messages := messages + [Assistant(reply.content, Some(calls))];
      ghost var before := messages;
      assert before + [] == before && handled + [] == handled;
      for i := 0 to |calls|
        invariant messages == before + Results(hs, "") && OfCalls(hs, calls) && |hs| == i
        invariant Recorded() && handled == old(handled) + hs && old(runs) <= runs
        invariant ranOk == OkNames(hs) && old(asked) <= asked
      {
        stopped := Aborted();
        if stopped {
          return;
        }
        var h := AnswerOne(calls, hs, before, i);
        OneMore(map[], hs, h);
        hs := hs + [h];
        if h.ok {
          ranOk := ranOk + [calls[i].name];
        }
      }
      stopped := false;
    }

    /** With a plan, its status goes to the end of the round's last result. */
    method TickPlan(ranOk: seq<string>)
      requires messages != [] && messages[|messages| - 1].Tool?
      modifies this`messages, this`plan
      ensures plan == TicksTo(old(plan), ranOk)
      ensures var tail := old(messages)[|old(messages)| - 1];
              messages == old(messages)[|old(messages)| - 1 :=
                                        Tool(tail.callId, tail.text + StatusBehind(plan, w.statusText))]
    {
      var tail := messages[|messages| - 1];
      if plan.Some? {
        var steps := plan.value;
        assert ranOk[..0] == [] && ranOk[..|ranOk|] == ranOk;
        for i := 0 to |ranOk|
          invariant steps == TickedAll(plan.value, ranOk[..i])
        {
          assert ranOk[..i + 1][..i] == ranOk[..i];
          steps := Ticked(steps, ranOk[i]);
        }
        plan := Some(steps);
        messages := messages[|messages| - 1 := tail.(text := tail.text + "\n\n" + w.statusText(plan.value))];
        assert tail.text + "\n\n" + w.statusText(plan.value) == tail.text + ("\n\n" + w.statusText(plan.value));
      } else {
        assert tail.text + "" == tail.text;
      }
    }

    /** The round is complete: the plan ticks, and the conversation stands again. */
    method CloseRound(reply: Reply, ghost before: seq<Message>, ghost hs: seq<Handled>, ranOk: seq<string>)
      requires Placed(before, questionIndex, lastRoundStart, toolRounds) && before[questionIndex] == User(question)
      requires SentSound(sent, toolRounds)
      requires reply.toolCalls != [] && OfCalls(hs, reply.toolCalls) && |hs| == |reply.toolCalls| && ranOk == OkNames(hs)
      requires messages == (before + [Assistant(reply.content, Some(reply.toolCalls))]) + Results(hs, "")
      modifies this`messages, this`plan, this`lastRoundStart, this`toolRounds
      ensures InPlace() && SentSound(sent, toolRounds)
      ensures toolRounds == old(toolRounds) + [reply.toolCalls] && lastRoundStart == |before|
      ensures RoundClosed(before, reply, messages, old(plan), hs, plan, w.statusText)
    {
      hide Placed, SentSound, Results;
      ghost var head := before + [Assistant(reply.content, Some(reply.toolCalls))];
      ResultsExtended(head, hs, "");
      TickPlan(ranOk);
      ghost var more := StatusBehind(plan, w.statusText);
      ResultsExtended(head, hs, more);
      RoundDone(before, questionIndex, lastRoundStart, toolRounds, reply, hs, more);
      MoreRounds(sent, toolRounds, reply.toolCalls);
      lastRoundStart := |messages| - 1 - |reply.toolCalls|;
      toolRounds := toolRounds + [reply.toolCalls];
    }

    /** A reply with tool calls: the assistant's message, then one result per call, in order. */
    method ToolRound(reply: Reply) returns (stopped: bool, ghost hs: seq<Handled>)
      requires InPlace() && SentSound(sent, toolRounds) && Recorded()
      requires reply.toolCalls != [] && ParsesValid(w)
      modifies this`messages, this`lastRoundStart, this`toolRounds, this`plan, this`calledTools, this`afterEmptyReply
      modifies this`handled, this`toolResults
      modifies this`asked, this`digests, this`active, this`offered, this`advised, this`seenCalls, this`runs
      ensures calledTools && !afterEmptyReply
      ensures !stopped ==> && InPlace() && toolRounds == old(toolRounds) + [reply.toolCalls]
                           && lastRoundStart == |old(messages)|
      ensures !stopped ==> RoundClosed(old(messages), reply, messages, old(plan), hs, plan, w.statusText)
      // the calls are on record, whatever happens, and what ran in between stands in the record
      ensures SentSound(sent, toolRounds) && Recorded() && handled == old(handled) + hs && old(runs) <= runs
      // it stops only because the user cancelled, which was the last thing asked
      ensures stopped ==> toolRounds == old(toolRounds) && plan == old(plan)
      ensures stopped ==> old(asked) < asked && w.aborted(asked - 1) && !w.FineBefore(asked)
      ensures old(asked) <= asked
    {
      hide Placed, RoundClosed, SentSound, Recorded, ParsesValid, World.FineBefore, Results, OfCalls, OkNames;
      calledTools, afterEmptyReply := true, false;
      ghost var before := messages;
      var ranOk;
      hs, ranOk, stopped := AnswerCalls(reply);
      if !stopped {
        CloseRound(reply, before, hs, ranOk);
      }
    }

    // -------------------------------------------------------------- the plan call

    predicate PlansFirst() {
      in_.needsPlan && |in_.firstTools| >= 2 && in_.maxRounds > 2
    }

    /** What is left of the reply to the plan request when it held no plan: its calls of other tools, if any. */
    function Carried(r: Sending): Option<Reply> {
      if r.Got? && OtherCalls(r.reply.toolCalls) != [] then Some(r.reply.(toolCalls := OtherCalls(r.reply.toolCalls)))
      else None
    }

    /** The plan a reply holds: the usable steps of its first call of the plan tool. */
    function PlanOf(r: Sending): Option<seq<PlanStep>> {
      var call := if r.Got? then FirstPlanCall(r.reply.toolCalls) else None;
      var steps := if call.Some? then UsableSteps(w.planSteps(call.value.arguments), in_.firstTools) else [];
      if steps != [] then Some(steps) else None
    }

    /** The plan call counts as a round unless its reply becomes round 1 or there was no room for it. */
    function PlanRounds(n: nat): nat {
      if PlansFirst() && !w.aborted(n) && w.SendingAt(n + 2).Got?
         && (PlanOf(w.SendingAt(n + 2)).Some? || Carried(w.SendingAt(n + 2)) == None)
      then 1 else 0
    }

    /** One bound call before the first round; a real tool call in its place becomes round 1. */
    method PlanCall() returns (stopped: bool, carried: Option<Reply>, planRounds: nat)
      requires Standing() && Recorded() && toolRounds == [] && plan == None && sent == []
      modifies this`messages, this`questionIndex, this`lastRoundStart, this`toolRounds, this`plan
      modifies this`asked, this`digests, this`sent, this`handled, this`toolResults
      ensures Standing() && Recorded()
      ensures |toolRounds| == (if plan.Some? then 1 else 0) && |toolRounds| <= planRounds
      ensures planRounds == PlanRounds(old(asked))
      ensures carried.Some? ==> planRounds == 0 && carried.value.toolCalls != []
      ensures |sent| <= 2
      // asked at most once, bound to the plan tool; what is carried is its reply without the calls of that tool
      ensures sent != [] <==> PlansFirst() && !w.aborted(old(asked))
      ensures sent != [] ==> sent[0].choice == BoundToPlan
      ensures plan == if PlansFirst() && !w.aborted(old(asked)) then PlanOf(w.SendingAt(old(asked) + 2)) else None
      ensures carried == if PlansFirst() && !w.aborted(old(asked)) && plan == None
                         then Carried(w.SendingAt(old(asked) + 2)) else None
      ensures stopped <==> PlansFirst() && (w.aborted(old(asked)) || w.SendingAt(old(asked) + 2).Thrown?)
      ensures old(asked) <= asked && (w.FineBefore(asked) ==> !stopped)
      ensures !PlansFirst() ==> asked == old(asked)
      ensures carried.Some? ==> w.Said(TextOf(carried.value), asked)
    {
      hide Placed, SentSound, UsableSteps, FirstPlanCall, OtherCalls, World.Said, World.FineBefore, Recorded,
           FitsFrom, World.SendingAt;
      stopped, carried, planRounds := false, None, 0;
      if in_.needsPlan && |in_.firstTools| >= 2 && in_.maxRounds > 2 {
        stopped := Aborted();
        if stopped {
          return;
        }
        var r := SendPlanRequest();
        if r.Thrown? {
          stopped := true;
        } else if r.Got? {
          planRounds, carried := TakePlan(r.reply);
        }
      }
    }

    /** The conversation, fitted, with the plan tool as the only way to go on. */
    method SendPlanRequest() returns (r: Sending)
      requires Standing() && sent == []
      modifies this`messages, this`questionIndex, this`lastRoundStart, this`asked, this`sent
      ensures Standing()
      ensures FitsFrom(old(messages), old(questionIndex), old(lastRoundStart), 10, old(asked), messages,
                       old(questionIndex) - questionIndex)
      ensures 0 < |sent| <= 2 && r == w.SendingAt(old(asked) + 1)
      ensures sent[0] == Request(messages, BoundToPlan)
      ensures old(asked) + 1 < asked && (r.Got? || !w.FineBefore(asked)) && (r.Got? ==> w.Said(TextOf(r.reply), asked))
    {
      hide Placed, SentSound, Fitted, World.FineBefore, World.Said, World.AfterSending, World.SendingAt, FitsFrom;
      RoundInside();
      Fit(lastRoundStart, 10);
      r := SendWith([], BoundToPlan);
      assert messages + [] == messages;
    }

    /** The steps that name a tool of this turn, up to four of them. */
    method ReadSteps(steps: seq<PlanStep>) returns (r: seq<PlanStep>)
      ensures r == UsableSteps(steps, in_.firstTools)
    {
      r := [];
      assert steps[..|steps|] == steps;
      for i := 0 to |steps|
        invariant r == Filtered(steps[..i], in_.firstTools) && |r| < PLAN_STEPS_MAX
      {
        FilteredMore(steps, i, in_.firstTools);
        if steps[i].tool in in_.firstTools {
          r := r + [steps[i].(done := false)];
          if |r| == PLAN_STEPS_MAX {
            FilteredStarts(steps, i + 1, in_.firstTools);
            return;
          }
        }
      }
    }

    method TakePlan(reply: Reply) returns (planRounds: nat, carried: Option<Reply>)
      requires Standing() && Recorded() && toolRounds == [] && plan == None
      modifies this`messages, this`lastRoundStart, this`toolRounds, this`plan, this`digests, this`handled, this`toolResults
      ensures Standing() && Recorded()
      ensures plan == PlanOf(Got(reply))
      ensures toolRounds == if plan.Some? then [[FirstPlanCall(reply.toolCalls).value]] else []
      ensures planRounds == if carried.Some? then 0 else 1
      ensures carried == if plan == None then Carried(Got(reply)) else None
    {
      hide Placed, SentSound, Recorded, UsableSteps, OtherCalls;
      planRounds, carried := 1, None;
      var call := FirstPlanCall(reply.toolCalls);
      var steps := [];
      if call.Some? {
        steps := ReadSteps(w.planSteps(call.value.arguments));
      }
      if steps != [] {
        KeepPlan(call.value, steps);
      } else if OtherCalls(reply.toolCalls) != [] {
        planRounds, carried := 0, Some(reply.(toolCalls := OtherCalls(reply.toolCalls)));
      }
    }

    /** The plan goes on record with its one-line form. */
    method NotePlan(call: ToolCall, steps: seq<PlanStep>)
      requires Recorded()
      modifies this`digests, this`handled, this`toolResults
      ensures Recorded() && toolResults == old(toolResults)[call.id := w.planDigest(steps)]
      ensures exists n: nat :: handled == old(handled) + [Handled(call, Planned, w.planText(steps), false,
                                                                  Some(w.planDigest(steps)), n)]
    {
      hide RunsSound;
      var h := Handled(call, Planned, w.planText(steps), false, Some(w.planDigest(steps)), asked);
      w.HandledMore(handled, h);
      OneMore(map[], handled, h);
      OneMore(historyDigests, handled, h);
      digests := digests[call.id := w.planDigest(steps)];
      toolResults := toolResults[call.id := w.planDigest(steps)];
      handled := handled + [h];
    }

    /** The plan enters the transcript as a tool round of its own. */
    method KeepPlan(call: ToolCall, steps: seq<PlanStep>)
      requires InPlace() && SentSound(sent, toolRounds) && Recorded()
      modifies this`messages, this`lastRoundStart, this`toolRounds, this`plan, this`digests, this`handled, this`toolResults
      ensures InPlace() && SentSound(sent, toolRounds) && Recorded()
      ensures toolRounds == old(toolRounds) + [[call]] && plan == Some(steps)
      ensures messages == old(messages) + [Assistant(None, Some([call])), Tool(call.id, w.planText(steps))]
      ensures lastRoundStart == |old(messages)|
      ensures toolResults == old(toolResults)[call.id := w.planDigest(steps)]
    {
      hide SentSound, Recorded;
      var result := Tool(call.id, w.planText(steps));
      RoundPlaced(messages, questionIndex, lastRoundStart, toolRounds, None, [call], [result]);
      assert [Assistant(None, Some([call]))] + [result] == [Assistant(None, Some([call])), result];
      MoreRounds(sent, toolRounds, [call]);
      NotePlan(call, steps);
      lastRoundStart := |messages|;
      messages := messages + [Assistant(None, Some([call])), result];
      plan := Some(steps);
      toolRounds := toolRounds + [[call]];
    }

    // ------------------------------------------------------------ draft answers

    predicate IsFake(content: Option<string>) {
      content.Some? && content.value != "" && w.fakeCall(content.value)
    }

    predicate IsEmptyReply(reply: Reply) {
      reply.toolCalls == [] && (reply.content.None? || Trim(reply.content.value) == "")
    }

    /** The reasons to send a draft back, in the order they are looked at. */
    function ReasonAt(i: nat): Nudge
      requires i < 7
      reads this`plan
    {
      match i
      case 0 => FakeCall
      case 1 => BareYes
      case 2 => Grounding
      case 3 => Consent
      case 4 => Revision
      case 5 => PlanOpen(if plan.Some? then plan.value else [])
      case 6 => DataQuestion
    }

    /** The reason applies and was not yet given, where it is given once. */
    predicate Applies(why: Nudge, reply: Reply, signs: Signs)
      reads this`calledTools, this`plan, this`consentNudged, this`revisionNudged, this`yesNudged, this`planNudged
    {
      var refusal := in_.missingAreas && signs.permissionMissing;
      match why
      case FakeCall => IsFake(reply.content)
      case BareYes => !calledTools && in_.bareYes && !yesNudged
      case Grounding => !calledTools && signs.userData
      case Consent => in_.mayPropose && !signs.cardShown && signs.asksConsent && !consentNudged
      case Revision => in_.mayPropose && !signs.cardShown && signs.claimsRevision && !revisionNudged
      case PlanOpen(_) => HasOpenStep(plan) && !signs.cardShown && !refusal && !planNudged
      case DataQuestion => !calledTools && in_.dataQuestion && !refusal
      case _ => false
    }

    /** The first reason that applies, from the `i`-th on. */
    function FirstReason(i: nat, reply: Reply, signs: Signs): Option<Nudge>
      requires i <= 7
      reads this`calledTools, this`plan, this`consentNudged, this`revisionNudged, this`yesNudged, this`planNudged
      decreases 7 - i
    {
      if i == 7 then None
      else if Applies(ReasonAt(i), reply, signs) then Some(ReasonAt(i))
      else FirstReason(i + 1, reply, signs)
    }

    /** Why a draft without tool calls goes back to the model, if it does. */
    function Reason(reply: Reply): Option<Nudge>
      reads this`asked
      reads this`calledTools, this`plan, this`consentNudged, this`revisionNudged, this`yesNudged, this`planNudged
    {
      FirstReason(0, reply, w.signs(asked))
    }

    /** The draft and what is said to it: neither is kept. */
    function DraftWith(content: Option<string>, why: Nudge): seq<Message> {
      [Assistant(content, None), User(w.nudgeText(why))]
    }

    /** The reason as the loop works it out. */
    method DraftReason(reply: Reply, signs: Signs) returns (nudge: Option<Nudge>)
      requires reply.toolCalls == []
      ensures nudge == FirstReason(0, reply, signs)
    {
      hide HasOpenStep;
      var refusal := in_.missingAreas && signs.permissionMissing;
      var fakeCall := reply.content.Some? && reply.content.value != "" && w.fakeCall(reply.content.value);
      var dataQuestion := !calledTools && in_.dataQuestion && !refusal;
      var ungrounded := !calledTools && signs.userData;
      var asksConsent := !consentNudged && in_.mayPropose && !signs.cardShown && signs.asksConsent;
      var claimsRevision := !revisionNudged && in_.mayPropose && !signs.cardShown && signs.claimsRevision;
      var planOpen := HasOpenStep(plan) && !planNudged && !signs.cardShown && !refusal;
      var answersYes := !calledTools && !yesNudged && in_.bareYes;
      nudge := if fakeCall then Some(FakeCall)
               else if answersYes then Some(BareYes)
               else if ungrounded then Some(Grounding)
               else if asksConsent then Some(Consent)
               else if claimsRevision then Some(Revision)
               else if planOpen then Some(PlanOpen(if plan.Some? then plan.value else []))
               else if dataQuestion then Some(DataQuestion)
               else None;
      assert FirstReason(6, reply, signs) == if dataQuestion then Some(DataQuestion) else None;
      assert FirstReason(5, reply, signs) == if planOpen then Some(ReasonAt(5)) else FirstReason(6, reply, signs);
      assert FirstReason(4, reply, signs) == if claimsRevision then Some(Revision) else FirstReason(5, reply, signs);
      assert FirstReason(3, reply, signs) == if asksConsent then Some(Consent) else FirstReason(4, reply, signs);
      assert FirstReason(2, reply, signs) == if ungrounded then Some(Grounding) else FirstReason(3, reply, signs);
    }

    /** The reason, if there is one; four of them are given once in a turn. */
    method DraftNudge(reply: Reply) returns (nudge: Option<Nudge>)
      requires reply.toolCalls == []
      modifies this`asked, this`consentNudged, this`revisionNudged, this`yesNudged, this`planNudged
      ensures nudge == old(Reason(reply))
      ensures consentNudged == (old(consentNudged) || nudge == Some(Consent))
      ensures revisionNudged == (old(revisionNudged) || nudge == Some(Revision))
      ensures yesNudged == (old(yesNudged) || nudge == Some(BareYes))
      ensures planNudged == (old(planNudged) || (nudge.Some? && nudge.value.PlanOpen?))
      ensures asked == old(asked) + 1
    {
      hide FirstReason;
      nudge := DraftReason(reply, w.signs(asked));
      asked := asked + 1;
      match nudge {
        case Some(BareYes) => yesNudged := true;
        case Some(Consent) => consentNudged := true;
        case Some(Revision) => revisionNudged := true;
        case Some(PlanOpen(_)) => planNudged := true;
        case _ =>
      }
    }

    // ---------------------------------------------------------------- the answer

    /** Asks once more, for words only. */
    method AskForWords() returns (answer: string, stopped: bool)
      requires w.clean("") == ""
      requires Standing()
      modifies this`sent, this`asked
      ensures Standing() && old(sent) <= sent && |sent| <= |old(sent)| + 2
      ensures old(asked) <= asked && (w.FineBefore(asked) ==> !stopped)
      ensures answer != "" && !IsFake(Some(answer)) ==> w.FromReply(answer, asked)
      ensures !stopped && (answer == "" || IsFake(Some(answer))) ==> w.Wordless(asked)
      ensures |old(sent)| < |sent|
      ensures sent[|old(sent)|] == Request(messages + [User(w.nudgeText(FinalAnswer))], WordsOnly)
      ensures stopped <==> !w.SendingAt(old(asked)).Got?
      ensures !stopped ==> answer == w.clean(TextOf(w.SendingAt(old(asked)).reply))
    {
      var retry := SendWith([User(w.nudgeText(FinalAnswer))], WordsOnly);
      if retry.Got? {
        answer, stopped := w.clean(if retry.reply.content.Some? then retry.reply.content.value else ""), false;
        w.WordsOf(TextOf(retry.reply), asked);
      } else {
        answer, stopped := "", true;
      }
    }

    /** The words of a reply; when there are none, they are asked for once, without tools. */
    method Words(reply: Reply) returns (answer: string, stopped: bool)
      requires w.clean("") == "" && w.Said(TextOf(reply), asked)
      requires Standing() && Bounded()
      modifies this`sent, this`asked, this`emptyRetried, this`emptyRequests, this`extraRounds
      ensures Standing() && Bounded() && old(sent) <= sent && |sent| <= |old(sent)| + 2
      ensures emptyRetried == (old(emptyRetried) || (w.clean(TextOf(reply)) == "" && !IsFake(reply.content)))
      ensures extraRounds == old(extraRounds) + if emptyRetried == old(emptyRetried) then 0 else 1
      ensures emptyRequests == old(emptyRequests) + if emptyRetried == old(emptyRetried) then 0 else 1
      ensures emptyRetried == old(emptyRetried) ==> answer == w.clean(TextOf(reply)) && !stopped && sent == old(sent)
      ensures emptyRetried != old(emptyRetried) && !stopped ==>
                w.SendingAt(old(asked)).Got? && answer == w.clean(TextOf(w.SendingAt(old(asked)).reply))
      ensures old(asked) <= asked && (w.FineBefore(asked) ==> !stopped)
      ensures answer != "" && !IsFake(Some(answer)) ==> w.FromReply(answer, asked)
      ensures !stopped && (answer == "" || IsFake(Some(answer))) ==> w.Wordless(asked)
      ensures w.clean(TextOf(reply)) != "" ==> asked == old(asked)
    {
      hide Placed, SentSound;
      var content := if reply.content.Some? then reply.content.value else "";
      answer, stopped := w.clean(content), false;
      w.WordsOf(TextOf(reply), asked);
      if answer == "" && !emptyRetried && !(content != "" && w.fakeCall(content)) {
        emptyRetried := true;
        emptyRequests := emptyRequests + 1;
        answer, stopped := AskForWords();
        extraRounds := extraRounds + 1;
      }
    }

    /** The checker, asked from question `n` on, holds that the results do not carry the answer. */
    predicate Refuted(n: nat) {
      !w.aborted(n) && w.check(n + 1).Some? && !w.check(n + 1).value.grounded
    }

    /** It names an area that can still join the turn, which happens once. */
    predicate Misplaced(n: nat)
      reads this`rerouted, this`active
    {
      && !w.aborted(n) && w.check(n + 1).Some? && w.check(n + 1).value.grounded && !rerouted
      && var area := w.check(n + 1).value.wrongArea;
      area.Some? && area.value !in active && area.value in in_.areaTools && in_.areaTools[area.value] * in_.tools != {}
    }

    /** What the model is told after such a verdict. */
    function CheckNudge(n: nat): Nudge {
      match w.check(n + 1)
      case Some(Verdict(false, missing, _)) => Ungrounded(missing)
      case Some(Verdict(true, _, Some(area))) => WrongArea(area)
      case _ => FinalAnswer
    }

    /** The check ends the turn: the user cancelled. */
    predicate CheckStops(n: nat) {
      w.aborted(n) || (w.check(n + 1) == None && w.aborted(n + 2))
    }

    /** The checker's verdict on an answer that passed everything else. */
    method Check(answer: string, content: Option<string>) returns (r: RoundEnd)
      requires answer != "" && content.Some? && content.value != ""
      requires failedChecks < MAX_FAILED_CHECKS && reroutes <= 1 && (reroutes == 1 ==> rerouted)
      modifies this`asked, this`failedChecks, this`reroutes, this`rerouted, this`active, this`offered
      ensures failedChecks <= MAX_FAILED_CHECKS && reroutes <= 1 && (reroutes == 1 ==> rerouted)
      ensures old(asked) < asked && (w.FineBefore(asked) ==> !r.Halt?)
      ensures r.Halt? <==> CheckStops(old(asked))
      // a draft goes back for an ungrounded verdict that is not the last one allowed, and for a reroute
      ensures failedChecks == old(failedChecks) + if Refuted(old(asked)) then 1 else 0
      ensures rerouted == (old(rerouted) || old(Misplaced(asked)))
      ensures active == old(active) + if old(Misplaced(asked)) then {w.check(old(asked) + 1).value.wrongArea.value} else {}
      ensures offered == old(offered) + if old(Misplaced(asked))
                                        then NewTools(w.check(old(asked) + 1).value.wrongArea.value, active) else {}
      ensures r.Next? <==> old(Misplaced(asked)) || (Refuted(old(asked)) && failedChecks < MAX_FAILED_CHECKS)
      ensures r.Next? ==> ProperNudge(r.nudge) && r.nudge == DraftWith(content, CheckNudge(old(asked)))
      ensures r.Next? ==> failedChecks + reroutes == old(failedChecks) + old(reroutes) + 1
      // otherwise the answer goes out, behind the last allowed failure with a note
      ensures r.Done? ==> r.answer == if Refuted(old(asked))
                                      then answer + "\n\n" + w.note(w.check(old(asked) + 1).value.missing) else answer
    {
      hide World.FineBefore, NewTools;
      var stopped := Aborted();
      if stopped {
        return Halt;
      }
      var verdict := w.check(asked);
      asked := asked + 1;
      if verdict == None {
        stopped := Aborted();
        if stopped {
          return Halt;
        }
        return Done(answer);
      }
      if !verdict.value.grounded {
        failedChecks := failedChecks + 1;
        if failedChecks >= MAX_FAILED_CHECKS {
          return Done(answer + "\n\n" + w.note(verdict.value.missing));
        }
        return Next([Assistant(content, None), User(w.nudgeText(Ungrounded(verdict.value.missing)))]);
      }
      var area := verdict.value.wrongArea;
      if area.Some? && !rerouted && area.value !in active && area.value in in_.areaTools
         && in_.areaTools[area.value] * in_.tools != {} {
        rerouted := true;
        reroutes := 1;
        JoinArea(area.value);
        return Next([Assistant(content, None), User(w.nudgeText(WrongArea(area.value)))]);
      }
      return Done(answer);
    }

    /** A check is due. */
    predicate Checkable(last: bool, signs: Signs)
      reads this`emptyRetried, this`calledTools, this`failedChecks
    {
      && in_.verify && !last && !emptyRetried && (calledTools || in_.dataQuestion)
      && !(in_.missingAreas && signs.permissionMissing) && failedChecks < MAX_FAILED_CHECKS
    }

    /** An answer in words goes out, or back if a check is due and fails. */
    method Judge(answer: string, reply: Reply, last: bool) returns (r: RoundEnd)
      requires Bounded() && answer != "" && (reply.content.None? || reply.content.value == "" ==> emptyRetried)
      modifies this`asked, this`failedChecks, this`reroutes, this`rerouted, this`active, this`offered
      ensures Bounded() && (last ==> !r.Next?)
      ensures r.Done? ==> r.answer != "" && answer <= r.answer
      ensures r.Next? ==> !emptyRetried && ProperNudge(r.nudge)
                          && r.nudge == DraftWith(reply.content, CheckNudge(old(asked) + 1))
      ensures old(asked) < asked && (w.FineBefore(asked) ==> !r.Halt?)
      // exactly a check that is due holds an answer back
      ensures r.Halt? <==> old(Checkable(last, w.signs(asked))) && CheckStops(old(asked) + 1)
      ensures failedChecks == old(failedChecks)
                              + if old(Checkable(last, w.signs(asked))) && Refuted(old(asked) + 1) then 1 else 0
      ensures r.Next? <==> old(Checkable(last, w.signs(asked)))
                           && (old(Misplaced(asked + 1))
                               || (Refuted(old(asked) + 1) && failedChecks < MAX_FAILED_CHECKS))
      ensures r.Next? ==> failedChecks + reroutes == old(failedChecks) + old(reroutes) + 1
    {
      var signs := w.signs(asked);
      asked := asked + 1;
      var checkable := in_.verify && !last && !emptyRetried && (calledTools || in_.dataQuestion)
        && !(in_.missingAreas && signs.permissionMissing) && failedChecks < MAX_FAILED_CHECKS;
      if checkable {
        r := Check(answer, reply.content);
      } else {
        r := Done(answer);
      }
    }

    /** The reply's words are an answer that a check is due for. */
    predicate DueCheck(reply: Reply, last: bool)
      reads this`emptyRetried, this`calledTools, this`failedChecks, this`asked
    {
      && w.clean(TextOf(reply)) != "" && !IsFake(Some(w.clean(TextOf(reply))))
      && Checkable(last, w.signs(asked))
    }

    /** From a reply in words, or any reply of the last round, to an answer. */
    method Conclude(reply: Reply, last: bool) returns (r: RoundEnd)
      requires w.Said(TextOf(reply), asked)
      requires Standing() && Bounded() && (reply.toolCalls == [] || last) && w.clean("") == ""
      modifies this`sent, this`asked, this`emptyRetried, this`emptyRequests, this`extraRounds
      modifies this`failedChecks, this`reroutes, this`rerouted, this`active, this`offered
      ensures Standing() && Bounded() && old(sent) <= sent && |sent| <= |old(sent)| + 2
      ensures last ==> !r.Next?
      ensures r.Done? ==> r.answer != ""
      ensures r.Next? ==> ProperNudge(r.nudge) && extraRounds == old(extraRounds) && sent == old(sent)
                          && r.nudge == DraftWith(reply.content, CheckNudge(old(asked) + 1))
      ensures extraRounds == old(extraRounds) + if emptyRetried == old(emptyRetried) then 0 else 1
      ensures old(emptyRetried) ==> emptyRetried
      ensures old(asked) <= asked && Onward(r)
      ensures r.Done? ==> w.FromReply(r.answer, asked) || r.answer == if last then OUT_OF_ROUNDS else NO_ANSWER
      ensures r.Next? ==> failedChecks + reroutes == old(failedChecks) + old(reroutes) + 1
      ensures failedChecks == old(failedChecks)
                              + if old(DueCheck(reply, last)) && Refuted(old(asked) + 1) then 1 else 0
      ensures r.Next? <==> old(DueCheck(reply, last))
                           && (old(Misplaced(asked + 1))
                               || (Refuted(old(asked) + 1) && failedChecks < MAX_FAILED_CHECKS))
    {
      hide Placed, SentSound, World.FromReply, World.Wordless, World.Said, World.FineBefore, DraftWith, CheckNudge,
           Refuted, Misplaced;
      var answer, stopped := Words(reply);
      if stopped {
        return Halt;
      }
      if answer == "" || w.fakeCall(answer) {
        return Done(if last then OUT_OF_ROUNDS else NO_ANSWER);
      }
      ghost var n := asked;
      r := Judge(answer, reply, last);
      if r.Done? { w.GivenLater(answer, r.answer, n, asked); }
    }

    // ----------------------------------------------------------------- the rounds

    /** The forced last round wrote a call instead of an answer: once more, without tools. */
    method AskForAnswer(reply: Reply) returns (r: Sending)
      requires Standing() && Bounded() && IsFake(reply.content)
      modifies this`sent, this`asked, this`emptyRetried, this`extraRounds
      ensures Standing() && Bounded() && emptyRetried && extraRounds == old(extraRounds) + 1
      ensures old(sent) <= sent && |sent| <= |old(sent)| + 2
      ensures r.Got? ==> r.reply.toolCalls == [] && !IsFake(r.reply.content)
      ensures r.Got? <==> w.SendingAt(old(asked)).Got?
      ensures r.Got? ==> var content := w.SendingAt(old(asked)).reply.content;
                         r.reply.content == if IsFake(content) then None else content
      ensures old(asked) <= asked && (w.FineBefore(asked) ==> r.Got?)
      ensures r.Got? ==> w.Said(TextOf(r.reply), asked)
      ensures |old(sent)| < |sent|
      ensures sent[|old(sent)|] == Request(messages + DraftWith(reply.content, FinalAnswer), WordsOnly)
    {
      hide Placed, SentSound;
      r := SendWith([Assistant(reply.content, None), User(w.nudgeText(FinalAnswer))], WordsOnly);
      extraRounds := extraRounds + 1;
      emptyRetried := true;
      if r.Got? {
        var content := r.reply.content;
        if content.Some? && content.value != "" && w.fakeCall(content.value) {
          w.FakeSaid(TextOf(r.reply), asked);
          content := None;
        }
        r := Got(Reply(content, []));
      }
    }

    /** The reply a round goes by: its own, unless the last round wrote a call where an answer belongs. */
    method KeptReply(reply: Reply, last: bool) returns (r: Sending)
      requires w.Said(TextOf(reply), asked)
      requires Standing() && Bounded()
      modifies this`sent, this`asked, this`emptyRetried, this`extraRounds
      ensures Standing() && Bounded() && old(sent) <= sent && |sent| <= |old(sent)| + 2
      ensures (last && reply.toolCalls == [] && IsFake(reply.content)) || (r == Got(reply) && sent == old(sent))
      ensures extraRounds == old(extraRounds) + (if last && reply.toolCalls == [] && IsFake(reply.content) then 1 else 0)
      ensures extraRounds > old(extraRounds) ==> emptyRetried
      ensures extraRounds == old(extraRounds) ==> emptyRetried == old(emptyRetried)
      ensures old(asked) <= asked && (w.FineBefore(asked) ==> r.Got?)
      ensures r.Got? ==> w.Said(TextOf(r.reply), asked)
    {
      var fakeCall := reply.content.Some? && reply.content.value != "" && w.fakeCall(reply.content.value);
      if last && reply.toolCalls == [] && fakeCall {
        r := AskForAnswer(reply);
      } else {
        r := Got(reply);
      }
    }

    /** The draft goes back: it is empty and no tool ran yet, which is asked for once, or there is a reason to nudge and
        the draft before it did not go back, unless for being empty. */
    predicate GoesBack(reply: Reply, nudge: seq<Message>)
      reads this`calledTools, this`emptyRetried, this`afterEmptyReply, this`asked
      reads this`plan, this`consentNudged, this`revisionNudged, this`yesNudged, this`planNudged
    {
      if IsEmptyReply(reply) then !calledTools && !emptyRetried
      else (nudge == [] || afterEmptyReply) && Reason(reply).Some?
    }

    /** What a draft goes back with: for its first reason, or as an empty reply, which is not sent along. */
    predicate BackFor(reply: Reply, back: seq<Message>)
      reads this`calledTools, this`plan, this`consentNudged, this`revisionNudged, this`yesNudged, this`planNudged
      reads this`asked
    {
      if IsEmptyReply(reply) then back == [User(w.nudgeText(EmptyReply))]
      else Reason(reply).Some? && back == DraftWith(reply.content, Reason(reply).value)
    }

    /** A draft that goes back before anything else is looked at. */
    method SendBack(reply: Reply, nudge: seq<Message>) returns (back: seq<Message>)
      requires Bounded() && reply.toolCalls == []
      modifies this`asked, this`consentNudged, this`revisionNudged, this`yesNudged, this`planNudged
      modifies this`emptyRetried, this`afterEmptyReply, this`emptyRequests
      ensures Bounded() && ProperNudge(back) && (old(emptyRetried) ==> emptyRetried)
      ensures back != [] <==> old(GoesBack(reply, nudge))
      ensures back != [] ==> old(BackFor(reply, back))
      ensures emptyRetried == (old(emptyRetried) || (back != [] && IsEmptyReply(reply)))
      ensures emptyRequests == old(emptyRequests) + if emptyRetried == old(emptyRetried) then 0 else 1
      ensures afterEmptyReply == if back != [] then IsEmptyReply(reply) else old(afterEmptyReply)
      ensures old(asked) <= asked
    {
      back := [];
      if reply.content.None? || Trim(reply.content.value) == "" {
        if !calledTools && !emptyRetried {
          emptyRetried, afterEmptyReply := true, true;
          emptyRequests := emptyRequests + 1;
          back := [User(w.nudgeText(EmptyReply))];
        }
      } else if nudge == [] || afterEmptyReply {
        var why := DraftNudge(reply);
        if why.Some? {
          afterEmptyReply := false;
          back := [Assistant(reply.content, None), User(w.nudgeText(why.value))];
        }
      }
    }

    /** The calls a reply asks for; the next round follows. */
    method CallTools(reply: Reply) returns (r: RoundEnd)
      requires Sound() && reply.toolCalls != [] && ParsesValid(w)
      modifies this`messages, this`lastRoundStart, this`toolRounds, this`plan, this`calledTools, this`afterEmptyReply
      modifies this`handled, this`toolResults
      modifies this`asked, this`digests, this`active, this`offered, this`advised, this`seenCalls, this`runs
      ensures Accountable() && old(runs) <= runs
      ensures r == Halt || (r == Next([]) && Sound())
      ensures toolRounds == old(toolRounds) + if r.Next? then [reply.toolCalls] else []
      ensures plan.Some? <==> old(plan).Some?
      ensures old(asked) <= asked && (w.FineBefore(asked) ==> !r.Halt?)
    {
      hide Placed, SentSound, Recorded, Results, OfCalls;
      var stopped, _ := ToolRound(reply);
      r := if stopped then Halt else Next([]);
    }

    /** An answer, or a draft that goes back; calls in the last round are not run. */
    method AnswerNow(reply: Reply, last: bool) returns (r: RoundEnd)
      requires w.Said(TextOf(reply), asked)
      requires Sound() && (reply.toolCalls == [] || last) && w.clean("") == ""
      modifies this`calledTools, this`afterEmptyReply, this`sent, this`asked, this`emptyRetried, this`emptyRequests
      modifies this`extraRounds, this`failedChecks, this`reroutes, this`rerouted, this`active, this`offered
      ensures Sound() && |sent| <= |old(sent)| + 2
      ensures calledTools == (old(calledTools) || reply.toolCalls != [])
      ensures afterEmptyReply == (old(afterEmptyReply) && reply.toolCalls == [])
      ensures r.Next? ==> !last && ProperNudge(r.nudge) && extraRounds == old(extraRounds) && sent == old(sent)
                          && r.nudge == DraftWith(reply.content, CheckNudge(old(asked) + 1))
      ensures r.Done? ==> r.answer != "" && extraRounds <= old(extraRounds) + (if old(emptyRetried) then 0 else 1)
      ensures old(asked) <= asked && Onward(r) && old(sent) <= sent
      ensures r.Next? ==> failedChecks + reroutes == old(failedChecks) + old(reroutes) + 1
      ensures failedChecks == old(failedChecks)
                              + if old(DueCheck(reply, last)) && Refuted(old(asked) + 1) then 1 else 0
      ensures r.Next? <==> old(DueCheck(reply, last))
                           && (old(Misplaced(asked + 1))
                               || (Refuted(old(asked) + 1) && failedChecks < MAX_FAILED_CHECKS))
    {
      hide Placed, SentSound, Recorded;
      if reply.toolCalls != [] {
        calledTools, afterEmptyReply := true, false;
      }
      r := Conclude(reply, last);
    }

    /** A round whose reply did not go back: an answer, or the calls it asks for. */
    method AnswerOrCall(reply: Reply, last: bool) returns (r: RoundEnd)
      requires w.Said(TextOf(reply), asked)
      requires Sound() && ParsesValid(w) && w.clean("") == ""
      modifies this
      ensures Accountable() && old(runs) <= runs
      ensures !r.Halt? ==> Sound()
      ensures r.Next? ==> !last && ProperNudge(r.nudge) && extraRounds == old(extraRounds) && sent == old(sent)
      ensures r.Done? ==> r.answer != "" && extraRounds <= old(extraRounds) + (if old(emptyRetried) then 0 else 1)
      ensures |sent| <= |old(sent)| + 2
      ensures toolRounds == old(toolRounds) + if r.Next? && reply.toolCalls != [] && !last then [reply.toolCalls] else []
      ensures plan.Some? <==> old(plan).Some?
      ensures old(asked) <= asked && Onward(r) && old(sent) <= sent
      ensures r.Next? ==> (r.nudge == [] && |toolRounds| == |old(toolRounds)| + 1)
                           || failedChecks + reroutes == old(failedChecks) + old(reroutes) + 1
      ensures log == old(log)
    {
      hide Placed, SentSound, Recorded, ParsesValid;
      if reply.toolCalls == [] || last {
        r := AnswerNow(reply, last);
      } else {
        r := CallTools(reply);
      }
    }

    /** The round goes on with the reply it keeps. */
    method GoOn(reply: Reply, last: bool) returns (r: RoundEnd)
      requires w.Said(TextOf(reply), asked)
      requires Sound() && extraRounds == 0 && ParsesValid(w) && w.clean("") == ""
      modifies this
      ensures Accountable() && old(runs) <= runs
      ensures !r.Halt? ==> Sound()
      ensures r.Next? ==> !last && ProperNudge(r.nudge) && extraRounds == 0 && sent == old(sent)
      ensures r.Done? ==> r.answer != "" && extraRounds <= 1
      ensures |sent| <= |old(sent)| + 4
      ensures toolRounds == old(toolRounds) + if r.Next? && reply.toolCalls != [] && !last then [reply.toolCalls] else []
      ensures plan.Some? <==> old(plan).Some?
      ensures old(asked) <= asked && Onward(r) && old(sent) <= sent
      ensures r.Next? ==> (r.nudge == [] && |toolRounds| == |old(toolRounds)| + 1)
                           || failedChecks + reroutes == old(failedChecks) + old(reroutes) + 1
      ensures log == old(log)
    {
      hide Placed, SentSound, Recorded, ParsesValid;
      var kept := KeptReply(reply, last);
      if kept.Got? {
        r := AnswerOrCall(kept.reply, last);
      } else {
        r := Halt;
      }
    }

    /** A round from the model's reply on. */
    method Settle(reply: Reply, nudge: seq<Message>, last: bool) returns (r: RoundEnd)
      requires w.Said(TextOf(reply), asked)
      requires Sound() && ProperNudge(nudge) && extraRounds == 0 && ParsesValid(w) && w.clean("") == ""
      modifies this
      ensures Accountable() && old(runs) <= runs
      ensures !r.Halt? ==> Sound()
      ensures r.Next? ==> !last && ProperNudge(r.nudge) && extraRounds == 0 && sent == old(sent)
      ensures r.Done? ==> r.answer != "" && extraRounds <= 1
      ensures |sent| <= |old(sent)| + 4
      ensures toolRounds == old(toolRounds) + if r.Next? && reply.toolCalls != [] && !last then [reply.toolCalls] else []
      ensures plan.Some? <==> old(plan).Some?
      ensures old(asked) <= asked && Onward(r) && old(sent) <= sent
      ensures r.Next? ==> || (r.nudge == [] && |toolRounds| == |old(toolRounds)| + 1)
                           || failedChecks + reroutes == old(failedChecks) + old(reroutes) + 1
                           || (r.nudge != [] && (nudge == [] || old(afterEmptyReply) || emptyRetried != old(emptyRetried)))
      ensures old(reply.toolCalls == [] && !last && GoesBack(reply, nudge)) ==>
                && r.Next? && r.nudge != [] && old(BackFor(reply, r.nudge))
                && sent == old(sent) && toolRounds == old(toolRounds)
      ensures log == old(log)
    {
      hide Placed, SentSound, Recorded, ParsesValid, BackFor, World.FineBefore, World.FromModel, Reason;
      var back := [];
      if reply.toolCalls == [] && !last {
        back := SendBack(reply, nudge);
      }
      if back != [] {
        r := Next(back);
      } else {
        r := GoOn(reply, last);
      }
    }

    /** The reply a round works on: the list is fitted, and the model asked unless the plan call brought the reply. In the
        last round the tools are shown but not to be called. */
    method RoundReply(nudge: seq<Message>, carried: Option<Reply>, last: bool)
      returns (r: Sending, ghost fitted: seq<Message>, ghost removed: nat)
      requires Standing() && ProperNudge(nudge)
      requires carried.Some? ==> w.Said(TextOf(carried.value), asked)
      modifies this`sent, this`asked, this`messages, this`questionIndex, this`lastRoundStart
      ensures Standing()
      ensures old(sent) <= sent && |sent| <= |old(sent)| + 4
      ensures carried.Some? ==> sent == old(sent) && r in {Got(carried.value), Thrown}
      // the request of the round: the conversation fitted to the budget, and behind it the nudge
      ensures !w.aborted(old(asked)) ==>
                FitsFrom(old(messages), old(questionIndex), old(lastRoundStart), 10, old(asked) + 1, fitted, removed)
      ensures !w.aborted(old(asked)) && carried == None ==>
                |old(sent)| < |sent|
                && sent[|old(sent)|] == Request(fitted + nudge, if last then NoTool else AnyTool)
      ensures !w.aborted(old(asked)) && carried == None ==> r == w.AskingAt(old(asked) + 2)
      ensures old(asked) <= asked && (w.FineBefore(asked) ==> r.Got?)
      ensures w.aborted(old(asked)) ==> r.Thrown? && sent == old(sent)
      ensures r.Got? ==> w.Said(TextOf(r.reply), asked)
    {
      hide Placed, SentSound, World.FineBefore, World.Said, Fitted, World.AskingAt;
      fitted, removed := messages, 0;
      var stopped := Aborted();
      if stopped {
        return Thrown, fitted, removed;
      }
      ghost var q := questionIndex;
      RoundInside();
      Fit(lastRoundStart, 10);
      fitted, removed := messages, q - questionIndex;
      if carried.Some? {
        w.SaidLater(TextOf(carried.value), old(asked), asked);
        return Got(carried.value), fitted, removed;
      }
      r := Ask(nudge, if last then NoTool else AnyTool);
    }

    /** The calls of the reply a round goes by, when it begins at question `n`. */
    function CallsAt(carried: Option<Reply>, n: nat): seq<ToolCall> {
      if carried.Some? then carried.value.toolCalls
      else if w.AskingAt(n + 2).Got? then w.AskingAt(n + 2).reply.toolCalls
      else []
    }

    /** One round: fit, ask (unless the plan call already brought the reply), settle. The loop goes on only after tools
        ran, after a check sent the answer back, or with a draft sent back; and a draft written after such a nudge does
        not go back again, unless an empty reply was in between. */
    method Round(nudge: seq<Message>, carried: Option<Reply>, last: bool)
      returns (r: RoundEnd, ghost fitted: seq<Message>, ghost removed: nat)
      requires Sound() && ProperNudge(nudge) && extraRounds == 0 && ParsesValid(w) && w.clean("") == ""
      requires carried.Some? ==> w.Said(TextOf(carried.value), asked)
      modifies this
      ensures Accountable() && old(runs) <= runs
      ensures !r.Halt? ==> Sound()
      ensures r.Next? ==> !last && ProperNudge(r.nudge) && extraRounds == 0 && |sent| <= |old(sent)| + 4
      ensures r.Done? ==> r.answer != "" && extraRounds <= 1
      ensures |sent| <= |old(sent)| + 8 && old(sent) <= sent
      // the calls of its reply are a tool round, unless it is the last
      ensures toolRounds == old(toolRounds) + if r.Next? && !last && CallsAt(carried, old(asked)) != []
                                              then [CallsAt(carried, old(asked))] else []
      ensures plan.Some? <==> old(plan).Some?
      ensures old(asked) <= asked && Onward(r)
      ensures w.aborted(old(asked)) ==> r.Halt?
      // the request of the round: the conversation fitted to the budget, and behind it the nudge
      ensures !w.aborted(old(asked)) ==>
                old(FitsFrom(messages, questionIndex, lastRoundStart, 10, asked + 1, fitted, removed))
      ensures !w.aborted(old(asked)) && carried == None ==>
                |old(sent)| < |sent|
                && sent[|old(sent)|] == old(Request(fitted + nudge, if last then NoTool else AnyTool))
      // why the loop goes on
      ensures r.Next? ==> || (r.nudge == [] && |toolRounds| == |old(toolRounds)| + 1)
                          || failedChecks + reroutes == old(failedChecks) + old(reroutes) + 1
                          || (r.nudge != [] && (nudge == [] || old(afterEmptyReply) || emptyRetried != old(emptyRetried)))
      ensures log == old(log) + [RoundLog(|old(sent)|, carried == None && !w.aborted(old(asked)), nudge, r)]
    {
      hide Placed, SentSound, Recorded, ParsesValid, World.FineBefore, World.Said, World.FromModel, FitsFrom,
           GoesBack, BackFor, ProperNudge;
      ghost var first, asks := |sent|, carried == None && !w.aborted(asked);
      var reply;
      reply, fitted, removed := RoundReply(nudge, carried, last);
      if reply.Got? {
        r := Settle(reply.reply, nudge, last);
      } else {
        r := Halt;
      }
      log := log + [RoundLog(first, asks, nudge, r)];
    }

    /** Where the loop stands before round `round`, or behind the round that brought the answer. */
    ghost predicate AtRound(round: int, answer: Option<string>)
      reads this
    {
      && 1 <= round && Sound()
      && (answer.Some? ==> w.FromModel(answer.value, asked))
      && (answer.Some? ==> answer.value != "" && extraRounds <= 1 && 1 < round && round - 1 <= in_.maxRounds)
      && (answer == None ==> extraRounds == 0 && (round <= in_.maxRounds || (round == 1 && in_.maxRounds < 1)))
      && |toolRounds| <= round - 1 - (if answer.Some? then 1 else 0) + (if plan.Some? then 1 else 0)
      && |sent| <= 2 + 4 * (round - 1) + (if answer.Some? then 4 else 0)
    }

    /** One pass through the loop: the next round, an answer, or the end of the turn. */
    method Pass(nudge: seq<Message>, carried: Option<Reply>, round: int) returns (r: RoundEnd, answer: Option<string>)
      requires AtRound(round, None) && round <= in_.maxRounds && ProperNudge(nudge)
      requires ParsesValid(w) && w.clean("") == ""
      requires carried.Some? ==> w.Said(TextOf(carried.value), asked)
      modifies this
      ensures Accountable() && |sent| <= 6 + 4 * round
      ensures r.Halt? || (AtRound(round + 1, answer))
      ensures r.Next? ==> answer == None && ProperNudge(r.nudge)
      ensures r.Done? ==> answer == Some(r.answer)
      ensures old(asked) <= asked && (w.FineBefore(asked) ==> !r.Halt?) && old(sent) <= sent
      ensures w.aborted(old(asked)) ==> r.Halt?
      ensures !w.aborted(old(asked)) && carried == None ==>
                |old(sent)| < |sent| && EndsWith(sent[|old(sent)|].messages, nudge)
      ensures log == old(log) + [RoundLog(|old(sent)|, carried == None && !w.aborted(old(asked)), nudge, r)]
    {
      hide Placed, SentSound, Recorded, ParsesValid, World.FineBefore, World.Said, FitsFrom;
      ghost var fitted, removed;
      r, fitted, removed := Round(nudge, carried, round == in_.maxRounds);
      answer := if r.Done? then Some(r.answer) else None;
    }

    /** The loop. */
    method Rounds(first: Option<Reply>) returns (stopped: bool, answer: Option<string>, round: int)
      requires AtRound(1, None) && ParsesValid(w) && w.clean("") == "" && log == []
      requires first.Some? ==> w.Said(TextOf(first.value), asked)
      modifies this
      ensures Accountable() && |sent| <= 6 + 4 * (if in_.maxRounds < 0 then 0 else in_.maxRounds)
      ensures !stopped ==> AtRound(round, answer) && round == 1 + |log|
      ensures !stopped ==> (answer == None <==> in_.maxRounds < 1)
      ensures old(asked) <= asked && (w.FineBefore(asked) ==> !stopped)
      ensures old(sent) <= sent
      ensures !stopped && in_.maxRounds >= 1 && first == None ==> |old(sent)| < |sent|
      ensures in_.maxRounds >= 1 && w.aborted(old(asked)) ==> stopped
      // round after round, each nudge is put to the model with the next request
      ensures Logged(log, sent) && LoopEnded(log, stopped, answer, in_.maxRounds)
    {
      hide Placed, SentSound, Recorded, ParsesValid, World.FineBefore, World.Said, World.FromModel, Logged, EndsWith,
           InPlace, Bounded;
      var nudge: seq<Message> := [];
      var carried := first;
      stopped, answer, round := false, None, 1;
      LoggedNone(sent);
      while round <= in_.maxRounds && answer == None
        invariant AtRound(round, answer) && ProperNudge(nudge)
        invariant carried.Some? ==> w.Said(TextOf(carried.value), asked)
        invariant old(asked) <= asked && old(sent) <= sent
        invariant if round == 1 then asked == old(asked) && carried == first else carried == None
        invariant round > 1 ==> !w.aborted(old(asked)) && (first == None ==> |old(sent)| < |sent|)
        invariant Logged(log, sent) && |log| == round - 1 && (answer == None ==> nudge == NudgeBehind(log))
        invariant if round == 1 then answer == None
                  else if answer.Some? then log[round - 2].end == Done(answer.value) else log[round - 2].end.Next?
        decreases in_.maxRounds - round
      {
        ghost var entries, before := log, sent;
        var end;
        end, answer := Pass(nudge, carried, round);
        LoggedMore(entries, before, sent, log[round - 1]);
        if end.Halt? {
          stopped := true;
          return;
        }
        nudge, carried := if end.Next? then end.nudge else [], None;
        round := round + 1;
      }
    }

    /** The whole turn. */
    method Run() returns (outcome: Outcome)
      requires Sound() && toolRounds == [] && runs == [] && sent == [] && plan == None && extraRounds == 0 && log == []
      requires ParsesValid(w) && w.clean("") == ""
      modifies this
      // for every outcome: what was sent was legal exactly as far as the ids allow, each call is on record with the result
      // its tool gave, no tool body ran twice on equal arguments, and checks, reroutes, retries and requests stayed within
      // their bounds
      ensures Accountable()
      ensures |sent| <= 4 * (if in_.maxRounds < 0 then 0 else in_.maxRounds) + 6
      // a turn without an answer saw an abort or a request without a reply among what it asked; one that the user
      // cancelled before it began has none
      ensures old(asked) <= asked && (outcome.Cancelled? ==> !w.FineBefore(asked))
      ensures in_.maxRounds >= 1 && w.aborted(old(asked)) ==> outcome.Cancelled?
      // round after round, each nudge was put to the model with the next request, until the answer
      ensures Logged(log, sent)
      ensures outcome.Answered? && in_.maxRounds >= 1 ==> log != [] && log[|log| - 1].end == Done(outcome.answer)
      // the answer is what the model said during the turn, or says that it said nothing
      ensures outcome.Answered? && in_.maxRounds >= 1 ==> w.FromModel(outcome.answer, asked) && sent != []
      // an answer within the rounds
      ensures outcome.Answered? ==>
                && outcome.answer != ""
                && outcome.rounds == PlanRounds(old(asked)) + |log| + extraRounds && extraRounds <= 1
                && |log| <= (if in_.maxRounds < 0 then 0 else in_.maxRounds)
                && (in_.maxRounds < 1 ==> outcome.answer == OUT_OF_ROUNDS)
                && |toolRounds| <= (if in_.maxRounds < 1 then 0 else in_.maxRounds - 1) + (if plan.Some? then 1 else 0)
      // and the transcript from the question to it
      ensures outcome.Answered? ==>
                && Own(outcome.transcript, toolRounds)
                && outcome.transcript[0] == User(question)
                && outcome.transcript[|outcome.transcript| - 1] == Assistant(Some(outcome.answer), None)
                && (WellFormed(outcome.transcript) <==> AllDistinct(toolRounds, |toolRounds|))
    {
      hide World.FineBefore, World.FromModel, World.Said, World.SendingAt, OtherCalls, UsableSteps, FirstPlanCall,
           SentSound, Recorded, ParsesValid, WellFormed, Own, AllDistinct, Logged, PlanOf, Carried;
      hide SentSound, Recorded, ParsesValid, WellFormed, Own, AllDistinct, Logged;
      var stopped, carried, planRounds := PlanCall();
      if stopped {
        LoggedNone(sent);
        return Cancelled;
      }
      var answer, round;
      stopped, answer, round := Rounds(carried);
      if stopped {
        return Cancelled;
      }
      var final := if answer.Some? then answer.value else OUT_OF_ROUNDS;
      FinalTranscript(messages, questionIndex, lastRoundStart, toolRounds, final);
      messages := messages + [Assistant(Some(final), None)];
      outcome := Answered(final, planRounds + (round - 1) + extraRounds, messages[questionIndex..]);
    }
  }

  // ------------------------------------------------------------------- the rounds, logged

  ghost predicate EndsWith(ms: seq<Message>, nudge: seq<Message>) {
    |nudge| <= |ms| && ms[|ms| - |nudge|..] == nudge
  }

  /** What the last round left for the next request. */
  function NudgeBehind(log: seq<RoundLog>): seq<Message> {
    if log != [] && log[|log| - 1].end.Next? then log[|log| - 1].end.nudge else []
  }

  /** Every round but the first follows one that went on, sends what that one left, and asks the model; and the request
      of a round that asked ends with what it was to send. */
  ghost predicate Logged(log: seq<RoundLog>, sent: seq<Sent>)
    decreases |log|
  {
    log == [] ||
    var before, last := log[..|log| - 1], log[|log| - 1];
    && Logged(before, sent) && last.nudge == NudgeBehind(before)
    && (before != [] ==> before[|before| - 1].end.Next?)
    && (before != [] && !last.end.Halt? ==> last.asks)
    && (last.asks ==> last.first < |sent| && EndsWith(sent[last.first].messages, last.nudge))
  }

  lemma LoggedNone(sent: seq<Sent>)
    ensures Logged([], sent)
  {
  }

  lemma {:induction false} LoggedLater(log: seq<RoundLog>, sent: seq<Sent>, more: seq<Sent>)
    requires Logged(log, sent) && sent <= more
    ensures Logged(log, more)
    decreases |log|
  {
    if log != [] { LoggedLater(log[..|log| - 1], sent, more); }
  }

  lemma LoggedMore(log: seq<RoundLog>, sent: seq<Sent>, more: seq<Sent>, entry: RoundLog)
    requires Logged(log, sent) && sent <= more
    requires entry.nudge == NudgeBehind(log) && (log != [] ==> log[|log| - 1].end.Next?)
    requires log != [] && !entry.end.Halt? ==> entry.asks
    requires entry.asks ==> entry.first < |more| && EndsWith(more[entry.first].messages, entry.nudge)
    ensures Logged(log + [entry], more)
  {
    LoggedLater(log, sent, more);
    assert (log + [entry])[..|log|] == log;
  }

  /** How the loop ended: stopped in its last round, with the answer of its last round, or without any round. */
  predicate LoopEnded(log: seq<RoundLog>, stopped: bool, answer: Option<string>, maxRounds: int) {
    if maxRounds < 1 then log == [] && !stopped
    else && log != [] && |log| <= maxRounds
         && (if stopped then log[|log| - 1].end == Halt else answer.Some? && log[|log| - 1].end == Done(answer.value))
  }

  lemma FinalTranscript(messages: seq<Message>, q: nat, start: nat, rounds: seq<seq<ToolCall>>, answer: string)
    requires Placed(messages, q, start, rounds) && answer != ""
    ensures var t := (messages + [Assistant(Some(answer), None)])[q..];
            && t[0] == messages[q] && t[|t| - 1] == Assistant(Some(answer), None)
            && (WellFormed(t) <==> AllDistinct(rounds, |rounds|))
            && Own(t, rounds)
  {
    var last := [Assistant(Some(answer), None)];
    OwnAnswer(messages[q..], rounds, answer);
    assert (messages + last)[q..] == messages[q..] + last;
    assert last[1..] == [];
    WellFormedConcat(messages[q..], last);
  }

  /** A round behind the conversation keeps it in place. */
  lemma RoundDone(before: seq<Message>, q: nat, start: nat, rounds: seq<seq<ToolCall>>, reply: Reply, hs: seq<Handled>,
                  more: string)
    requires Placed(before, q, start, rounds) && reply.toolCalls != []
    requires OfCalls(hs, reply.toolCalls) && |hs| == |reply.toolCalls|
    ensures var head := [Assistant(reply.content, Some(reply.toolCalls))];
            var after := before + (head + Results(hs, more));
            && Placed(after, q, |before|, rounds + [reply.toolCalls]) && after[q] == before[q]
            && |after| == |before| + 1 + |reply.toolCalls| && after == (before + head) + Results(hs, more)
  {
    ResultsInOrder(hs, reply.toolCalls, more);
    assert reply.toolCalls[..|hs|] == reply.toolCalls;
    RoundPlaced(before, q, start, rounds, reply.content, reply.toolCalls, Results(hs, more));
  }

  ghost predicate ParsesValid(w: World) {
    forall raw :: w.parse(raw).Some? ==> Valid(w.parse(raw).value)
  }

  lemma FittedPlaced(ms: seq<Message>, digests: Digests, weight: seq<Message> -> int, budget: int, protectFrom: nat,
                     q: nat, start: nat, rounds: seq<seq<ToolCall>>, ms': seq<Message>, shift: nat)
    requires Placed(ms, q, start, rounds)
    requires Fitted(ms, digests, weight, budget, protectFrom, q, ms', shift)
    ensures shift < q && Placed(ms', q - shift, start - shift, rounds)
    ensures ms'[q - shift] == ms[q] && SameShape(ms[q..], ms'[q - shift..])
  {
    FittedPositions(ms, digests, weight, budget, protectFrom, q, ms', shift);
    FittedKeeps(ms, digests, weight, budget, protectFrom, q, ms', shift);
    LastKept(ms, q, ms', q - shift);
    OwnShape(ms[q..], ms'[q - shift..], rounds);
  }

  lemma LastKept(ms: seq<Message>, q: nat, ms': seq<Message>, q': nat)
    requires q < |ms| && q' < |ms'| && SameShape(ms[q..], ms'[q'..])
    ensures ms[|ms| - 1].Assistant? <==> ms'[|ms'| - 1].Assistant?
  {
    var n := |ms| - q;
    assert ms[q..][n - 1] == ms[|ms| - 1] && ms'[q'..][n - 1] == ms'[|ms'| - 1];
  }
}

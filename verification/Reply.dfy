/** Folding the streamed chunks into one reply (assistant/llm-client.ts, ReplyAssembler). An absent text and an empty
    one are the same to the code, so both are `""` here. */
module Reply {
  import opened Common
  import opened Texts

  /** A fragment of a tool call. */
  datatype Part = Part(index: Option<int>, id: string, name: string, arguments: string)

  datatype Usage = Usage(window: Option<int>, prompt: Option<int>, completion: Option<int>)

  datatype Chunk =
    | NotAnObject
    | Failed(status: Option<int>, message: Option<string>)
    | Context(usage: Usage)
    | NoChoice
    | Choice(content: string, parts: seq<Part>, finish: string)

  datatype Failure = ContextTooLarge(message: string) | MalformedReply(message: string) | Unavailable(message: string)

  datatype Call = Call(id: string, name: string, arguments: string)

  datatype State = State(content: string, calls: map<int, Call>, finish: Option<string>, usage: Option<Usage>)

  const START := State("", map[], None, None)

  // ------------------------------------------------------------------- one chunk

  function Extend(call: Call, part: Part): Call {
    Call(if part.id != "" then part.id else call.id, call.name + part.name, call.arguments + part.arguments)
  }

  /** A fragment without an index goes to the number of calls so far. */
  function Put(calls: map<int, Call>, part: Part): map<int, Call> {
    var index := if part.index.Some? then part.index.value else |calls|;
    calls[index := Extend(if index in calls then calls[index] else Call("", "", ""), part)]
  }

  function PutAll(calls: map<int, Call>, parts: seq<Part>): map<int, Call> {
    if parts == [] then calls else Put(PutAll(calls, parts[..|parts| - 1]), parts[|parts| - 1])
  }

  function FailureOf(malformed: string -> bool, chunk: Chunk): Failure
    requires chunk.Failed?
  {
    var message := if chunk.message.Some? then chunk.message.value else "llm-service error";
    if chunk.status == Some(413) then ContextTooLarge(message)
    else if malformed(message) then MalformedReply(message)
    else Unavailable(message)
  }

  function Step(s: State, chunk: Chunk): State {
    match chunk
    case Context(usage) => s.(usage := Some(usage))
    case Choice(content, parts, finish) =>
      s.(content := s.content + content, calls := PutAll(s.calls, parts),
         finish := if finish != "" then Some(finish) else s.finish)
    case _ => s
  }

  // -------------------------------------------------------------------- the reply

  datatype ToolCall = ToolCall(id: string, name: string, arguments: string)

  datatype ChatReply = ChatReply(content: Option<string>, toolCalls: seq<ToolCall>, finish: Option<string>,
                                 usage: Option<Usage>)

  lemma Member<T>(s: set<T>) returns (x: T)
    requires s != {}
    ensures x in s
  {
    x :| x in s;
  }

  lemma {:induction false} LeastExists(s: set<int>)
    requires s != {}
    ensures exists m :: m in s && forall x | x in s :: m <= x
    decreases |s|
  {
    var m := Member(s);
    if s == {m} {
      assert forall x | x in s :: m <= x;
    } else {
      LeastExists(s - {m});
      var n :| n in s - {m} && forall x | x in s - {m} :: n <= x;
      var least := if m < n then m else n;
      assert least in s && forall x | x in s :: least <= x by {
        forall x | x in s ensures least <= x { assert x == m || x in s - {m}; }
      }
    }
  }

  function Least(s: set<int>): (m: int)
    requires s != {}
    ensures m in s && forall x | x in s :: m <= x
  {
    LeastExists(s);
    var m :| m in s && forall x | x in s :: m <= x;
    m
  }

  predicate Increasing(r: seq<int>) {
    forall i, j | 0 <= i < j < |r| :: r[i] < r[j]
  }

  /** The members of a set, smallest first. */
  function Sorted(s: set<int>): (r: seq<int>)
    ensures Increasing(r) && forall x :: x in r <==> x in s
    decreases |s|
  {
    if s == {} then []
    else
      var m := Least(s);
      var rest := Sorted(s - {m});
      assert forall i | 0 <= i < |rest| :: rest[i] in rest && m < rest[i];
      [m] + rest
  }

  /** The calls that got a name. */
  function Named(calls: map<int, Call>): set<int> {
    set i | i in calls && calls[i].name != ""
  }

  /** What the finished call at `i` says; `made` makes up an id for a call that never got one. */
  function Finished(i: int, call: Call, made: int -> string): ToolCall {
    ToolCall(if call.id != "" then call.id else made(i), call.name, if call.arguments != "" then call.arguments else "{}")
  }

  function ReplyOf(s: State, made: int -> string): ChatReply {
    var indices := Sorted(Named(s.calls));
    var calls := seq(|indices|, k requires 0 <= k < |indices| =>
                      assert indices[k] in indices; Finished(indices[k], s.calls[indices[k]], made));
    ChatReply(if Trim(s.content) != "" then Some(Trim(s.content)) else None, calls,
              if calls != [] then Some("tool_calls") else s.finish, s.usage)
  }

  /** The state of one streamed reply. */
  class ReplyAssembler {
    var content: string
    var calls: map<int, Call>
    var finish: Option<string>
    var usage: Option<Usage>
    /** What `onToken` was told. */
    var told: seq<string>

    constructor ()
      ensures Value() == START && told == []
    {
      content, calls, finish, usage, told := "", map[], None, None, [];
    }

    function Value(): State
      reads this
    {
      State(content, calls, finish, usage)
    }

    /** A chunk that names an error is raised and leaves the reply as it was. */
    method Push(malformed: string -> bool, chunk: Chunk) returns (failure: Option<Failure>)
      modifies this
      ensures failure == if chunk.Failed? then Some(FailureOf(malformed, chunk)) else None
      ensures Value() == Step(old(Value()), chunk)
      ensures told == old(told) + if chunk.Choice? && chunk.content != "" then [chunk.content] else []
    {
      failure := None;
      match chunk
      case NotAnObject =>
      case NoChoice =>
      case Failed(status, message) =>
        var text := if message.Some? then message.value else "llm-service error";
        if status == Some(413) {
          return Some(ContextTooLarge(text));
        }
        return Some(if malformed(text) then MalformedReply(text) else Unavailable(text));
      case Context(counts) =>
        usage := Some(counts);
      case Choice(text, parts, end) =>
        if text != "" {
          content, told := content + text, told + [text];
        }
        PutParts(parts);
        if end != "" {
          finish := Some(end);
        }
    }

    /** The reply so far. `made` makes up ids. */
    method Finish(made: int -> string) returns (r: ChatReply)
      ensures r == ReplyOf(Value(), made)
    {
      var indices := Sorted(Named(calls));
      var toolCalls: seq<ToolCall> := [];
      for k := 0 to |indices|
        invariant toolCalls == ReplyOf(Value(), made).toolCalls[..k]
      {
        assert indices[k] in indices;
        var i, call := indices[k], calls[indices[k]];
        var id, arguments := call.id, call.arguments;
        if id == "" { id := made(i); }
        if arguments == "" { arguments := "{}"; }
        toolCalls := toolCalls + [ToolCall(id, call.name, arguments)];
      }
      var text := Trim(content);
      r := ChatReply(if text != "" then Some(text) else None, toolCalls,
                     if |toolCalls| > 0 then Some("tool_calls") else finish, usage);
    }

    /** Each fragment extends its call in place, or starts it. */
    method PutParts(parts: seq<Part>)
      modifies this`calls
      ensures calls == PutAll(old(calls), parts)
    {
      assert parts[..0] == [] && parts[..|parts|] == parts;
      for k := 0 to |parts|
        invariant calls == PutAll(old(calls), parts[..k])
      {
        var part := parts[k];
        var index := if part.index.Some? then part.index.value else |calls|;
        var call := if index in calls then calls[index] else Call("", "", "");
        ghost var next := Extend(call, part);
        ExtendEmpty(call, part);
        if part.id != "" { call := call.(id := part.id); }
        if part.name != "" { call := call.(name := call.name + part.name); }
        if part.arguments != "" { call := call.(arguments := call.arguments + part.arguments); }
        assert call == next && parts[..k + 1][..k] == parts[..k];
        calls := calls[index := call];
      }
    }
  }

  lemma ExtendEmpty(call: Call, part: Part)
    ensures part.name == "" ==> Extend(call, part).name == call.name
    ensures part.arguments == "" ==> Extend(call, part).arguments == call.arguments
  {
  }

  // ------------------------------------------------------- what the reply depends on

  /** The fragments that name index `i`, in order. */
  function Own(parts: seq<Part>, i: int): seq<Part> {
    if parts == [] then []
    else Own(parts[..|parts| - 1], i) + if parts[|parts| - 1].index == Some(i) then [parts[|parts| - 1]] else []
  }

  function LastId(parts: seq<Part>): string {
    if parts == [] then ""
    else if parts[|parts| - 1].id != "" then parts[|parts| - 1].id else LastId(parts[..|parts| - 1])
  }

  function Names(parts: seq<Part>): string {
    if parts == [] then "" else Names(parts[..|parts| - 1]) + parts[|parts| - 1].name
  }

  function Arguments(parts: seq<Part>): string {
    if parts == [] then "" else Arguments(parts[..|parts| - 1]) + parts[|parts| - 1].arguments
  }

  /** What the fragments of one call come to. */
  function Whole(own: seq<Part>): Call {
    Call(LastId(own), Names(own), Arguments(own))
  }

  predicate Explicit(parts: seq<Part>) {
    forall k: nat | k < |parts| :: parts[k].index.Some?
  }

  lemma WholeSnoc(own: seq<Part>, part: Part)
    ensures Whole(own + [part]) == Extend(Whole(own), part)
  {
    assert (own + [part])[..|own|] == own;
  }

  /** When every fragment names its index, a call is what its own fragments come to. */
  lemma {:induction false} CallsAreTheirFragments(parts: seq<Part>, i: int)
    requires Explicit(parts)
    ensures i in PutAll(map[], parts) <==> Own(parts, i) != []
    ensures i in PutAll(map[], parts) ==> PutAll(map[], parts)[i] == Whole(Own(parts, i))
    decreases |parts|
  {
    if parts != [] {
      var before, last := parts[..|parts| - 1], parts[|parts| - 1];
      CallsAreTheirFragments(before, i);
      WholeSnoc(Own(before, i), last);
      assert parts[|parts| - 1].index.Some?;
      assert Whole([]) == Call("", "", "");
      assert Own(before, i) + [] == Own(before, i);
    }
  }

  /** The fragments say the same about index `i`. */
  predicate SameCall(p: seq<Part>, q: seq<Part>, i: int) {
    (Own(p, i) == [] <==> Own(q, i) == []) && Whole(Own(p, i)) == Whole(Own(q, i))
  }

  lemma SameCallsSameMap(p: seq<Part>, q: seq<Part>)
    requires Explicit(p) && Explicit(q) && forall i :: SameCall(p, q, i)
    ensures PutAll(map[], p) == PutAll(map[], q)
  {
    forall i ensures i in PutAll(map[], p) <==> i in PutAll(map[], q)
             ensures i in PutAll(map[], p) ==> PutAll(map[], p)[i] == PutAll(map[], q)[i] {
      assert SameCall(p, q, i);
      CallsAreTheirFragments(p, i);
      CallsAreTheirFragments(q, i);
    }
  }

  // -------------------------------------------------------------------- whole streams

  function Fold(chunks: seq<Chunk>): State {
    if chunks == [] then START else Step(Fold(chunks[..|chunks| - 1]), chunks[|chunks| - 1])
  }

  function PartsOf(chunks: seq<Chunk>): seq<Part> {
    if chunks == [] then []
    else PartsOf(chunks[..|chunks| - 1])
         + if chunks[|chunks| - 1].Choice? then chunks[|chunks| - 1].parts else []
  }

  function ContentOf(chunks: seq<Chunk>): string {
    if chunks == [] then ""
    else ContentOf(chunks[..|chunks| - 1])
         + if chunks[|chunks| - 1].Choice? then chunks[|chunks| - 1].content else ""
  }

  function FinishOf(chunks: seq<Chunk>): Option<string> {
    if chunks == [] then None
    else if chunks[|chunks| - 1].Choice? && chunks[|chunks| - 1].finish != "" then Some(chunks[|chunks| - 1].finish)
    else FinishOf(chunks[..|chunks| - 1])
  }

  function UsageOf(chunks: seq<Chunk>): Option<Usage> {
    if chunks == [] then None
    else if chunks[|chunks| - 1].Context? then Some(chunks[|chunks| - 1].usage)
    else UsageOf(chunks[..|chunks| - 1])
  }

  lemma {:induction false} PutAllTwice(calls: map<int, Call>, p: seq<Part>, q: seq<Part>)
    ensures PutAll(calls, p + q) == PutAll(PutAll(calls, p), q)
    decreases |q|
  {
    if q == [] {
      assert p + q == p;
    } else {
      assert (p + q)[..|p + q| - 1] == p + q[..|q| - 1];
      PutAllTwice(calls, p, q[..|q| - 1]);
    }
  }

  lemma {:induction false} FoldOf(chunks: seq<Chunk>)
    ensures Fold(chunks) == State(ContentOf(chunks), PutAll(map[], PartsOf(chunks)), FinishOf(chunks), UsageOf(chunks))
    decreases |chunks|
  {
    if chunks != [] {
      var before, last := chunks[..|chunks| - 1], chunks[|chunks| - 1];
      FoldOf(before);
      if last.Choice? {
        PutAllTwice(map[], PartsOf(before), last.parts);
      } else {
        assert PartsOf(before) + [] == PartsOf(before);
        assert ContentOf(before) + "" == ContentOf(before);
      }
    }
  }

  /** Two streams with the same text, the same last finish reason and usage, and for each index the same fragments up
      to how they are cut and interleaved, give the same reply. */
  lemma ReplyDependsOnEachCall(c: seq<Chunk>, d: seq<Chunk>, made: int -> string)
    requires ContentOf(c) == ContentOf(d) && FinishOf(c) == FinishOf(d) && UsageOf(c) == UsageOf(d)
    requires Explicit(PartsOf(c)) && Explicit(PartsOf(d))
    requires forall i :: SameCall(PartsOf(c), PartsOf(d), i)
    ensures ReplyOf(Fold(c), made) == ReplyOf(Fold(d), made)
  {
    FoldOf(c);
    FoldOf(d);
    SameCallsSameMap(PartsOf(c), PartsOf(d));
  }

  /** The finished calls: exactly the named ones, in the order of their indices, each with an id and arguments. */
  lemma ReplyCalls(s: State, made: int -> string)
    requires forall i :: made(i) != ""
    ensures var r := ReplyOf(s, made); var indices := Sorted(Named(s.calls));
            && |r.toolCalls| == |indices| && Increasing(indices)
            && (forall i :: i in indices <==> i in s.calls && s.calls[i].name != "")
            && (forall k: nat | k < |indices| ::
                  && r.toolCalls[k] == Finished(indices[k], s.calls[indices[k]], made)
                  && r.toolCalls[k].id != "" && r.toolCalls[k].name != "" && r.toolCalls[k].arguments != "")
            && (r.toolCalls != [] ==> r.finish == Some("tool_calls"))
  {
    var indices := Sorted(Named(s.calls));
    forall k: nat | k < |indices| ensures indices[k] in Named(s.calls) {
      assert indices[k] in indices;
    }
  }

  /** What the reply to a stream says, read off its chunks: all text, trimmed; the last usage; and for each index whose
      fragments give a name, in the order of the indices, the last id or one made up, the joined names and arguments. */
  lemma StreamReply(chunks: seq<Chunk>, made: int -> string)
    requires Explicit(PartsOf(chunks))
    ensures var r, text, parts := ReplyOf(Fold(chunks), made), ContentOf(chunks), PartsOf(chunks);
            && r.content == (if Trim(text) == "" then None else Some(Trim(text)))
            && r.usage == UsageOf(chunks)
            && r.finish == (if r.toolCalls == [] then FinishOf(chunks) else Some("tool_calls"))
            && exists indices: seq<int> :: IndicesOf(parts, indices) && CallsAt(parts, indices, r.toolCalls, made)
  {
    FoldOf(chunks);
    var s, parts := Fold(chunks), PartsOf(chunks);
    var indices := Sorted(Named(s.calls));
    forall i: int ensures i in indices <==> Own(parts, i) != [] && Names(Own(parts, i)) != "" {
      CallsAreTheirFragments(parts, i);
    }
    forall k: nat | k < |indices| ensures indices[k] in s.calls && s.calls[indices[k]] == Whole(Own(parts, indices[k])) {
      assert indices[k] in indices;
      CallsAreTheirFragments(parts, indices[k]);
    }
    assert IndicesOf(parts, indices) && CallsAt(parts, indices, ReplyOf(s, made).toolCalls, made);
  }

  /** The indices whose fragments give a name, smallest first. */
  ghost predicate IndicesOf(parts: seq<Part>, indices: seq<int>) {
    Increasing(indices) && forall i: int :: i in indices <==> Own(parts, i) != [] && Names(Own(parts, i)) != ""
  }

  predicate CallsAt(parts: seq<Part>, indices: seq<int>, calls: seq<ToolCall>, made: int -> string) {
    && |calls| == |indices|
    && forall k: nat | k < |calls| ::
         var own := Own(parts, indices[k]);
         && calls[k].id == (if LastId(own) != "" then LastId(own) else made(indices[k]))
         && calls[k].name == Names(own)
         && calls[k].arguments == (if Arguments(own) != "" then Arguments(own) else "{}")
  }

  /** The calls at `0 .. n`, each a single fragment. */
  ghost predicate OnePerPart(calls: map<int, Call>, parts: seq<Part>) {
    && |calls| == |parts|
    && (forall i: int :: i in calls <==> 0 <= i < |parts|)
    && (forall i: int :: i in calls ==> calls[i] == Call(parts[i].id, parts[i].name, parts[i].arguments))
  }

  lemma OneKeyMore(calls: map<int, Call>, n: int, call: Call)
    requires n !in calls
    ensures |calls[n := call]| == |calls| + 1
  {
    assert calls[n := call].Keys == calls.Keys + {n};
  }

  lemma OnePerPartStep(calls: map<int, Call>, parts: seq<Part>, part: Part)
    requires OnePerPart(calls, parts) && part.index == None
    ensures OnePerPart(Put(calls, part), parts + [part])
  {
    var n := |parts|;
    assert "" + part.name == part.name && "" + part.arguments == part.arguments;
    assert n !in calls && Put(calls, part) == calls[n := Call(part.id, part.name, part.arguments)];
    OneKeyMore(calls, n, Call(part.id, part.name, part.arguments));
  }

  /** Without indices every fragment is a call of its own, in order. */
  lemma {:induction false} ImplicitFragments(parts: seq<Part>)
    requires forall k: nat | k < |parts| :: parts[k].index == None
    ensures OnePerPart(PutAll(map[], parts), parts)
    decreases |parts|
  {
    if parts != [] {
      var n := |parts| - 1;
      ImplicitFragments(parts[..n]);
      assert parts[n].index == None && parts == parts[..n] + [parts[n]];
      OnePerPartStep(PutAll(map[], parts[..n]), parts[..n], parts[n]);
    }
  }
}

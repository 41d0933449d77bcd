/** The streamed reply (assistant/llm-client.ts): cutting the event stream into its data lines, and folding the
    chunks they hold into one reply. */
module LlmStream {
  import opened Common
  import opened Texts

  // --------------------------------------------------------------- the data lines

  function Flat(chunks: seq<string>): string {
    if chunks == [] then "" else chunks[0] + Flat(chunks[1..])
  }

  /** Position of the first line feed, or the length of the text when it has none. */
  function LineEnd(s: string): (n: nat)
    ensures n <= |s| && '\n' !in s[..n] && (n < |s| ==> s[n] == '\n')
  {
    if s == "" || s[0] == '\n' then 0 else 1 + LineEnd(s[1..])
  }

  datatype Line = Other | Done | Data(payload: string)

  /** What a line says: only `data:` lines count. */
  function Read(line: string): Line {
    var l := Trim(line);
    if !("data:" <= l) then Other
    else
      var data := Trim(l[5..]);
      if data == "[DONE]" then Done else Data(data)
  }

  /** What the unterminated rest of the text yields: an empty payload too. */
  function Rest(text: string): seq<string> {
    match Read(text)
    case Data(d) => [d]
    case _ => []
  }

  /** A complete line's payload before what follows; `[DONE]` ends the stream. */
  function Then(line: Line, more: seq<string>): seq<string> {
    match line
    case Done => []
    case Other => more
    case Data(d) => (if d == "" then [] else [d]) + more
  }

  /** The payloads of the whole text, in order. */
  function Payloads(text: string): seq<string>
    decreases |text|
  {
    var n := LineEnd(text);
    if n == |text| then Rest(text) else Then(Read(text[..n]), Payloads(text[n + 1..]))
  }

  predicate OneLine(s: string) { '\n' !in s }

  lemma {:induction false} LineEndIs(line: string, rest: string)
    requires OneLine(line)
    ensures LineEnd(line + "\n" + rest) == |line|
  {
    var s := line + "\n" + rest;
    if line != "" {
      assert s[1..] == line[1..] + "\n" + rest;
      LineEndIs(line[1..], rest);
    }
  }

  lemma PayloadsCut(line: string, rest: string)
    requires OneLine(line)
    ensures Payloads(line + "\n" + rest) == Then(Read(line), Payloads(rest))
  {
    LineEndIs(line, rest);
    var s := line + "\n" + rest;
    assert s[..|line|] == line && s[|line| + 1..] == rest;
  }

  lemma {:induction false} NoLineEnd(text: string)
    requires OneLine(text)
    ensures LineEnd(text) == |text|
  {
    if text != "" {
      NoLineEnd(text[1..]);
    }
  }

  lemma PayloadsRest(text: string)
    requires OneLine(text)
    ensures Payloads(text) == Rest(text)
  {
    NoLineEnd(text);
  }

  lemma Cut(s: string, n: nat)
    requires n < |s|
    ensures s == s[..n] + [s[n]] + s[n + 1..]
  {
  }

  lemma Assoc(a: string, b: string, c: string)
    ensures (a + b) + c == a + (b + c)
  {
  }

  lemma FirstLine(buffer: string, later: string)
    requires LineEnd(buffer) < |buffer|
    ensures var nl := LineEnd(buffer);
            buffer + later == buffer[..nl] + "\n" + (buffer[nl + 1..] + later)
  {
    var nl := LineEnd(buffer);
    Cut(buffer, nl);
    Assoc(buffer[..nl] + "\n", buffer[nl + 1..], later);
  }

  lemma OutThen(out: seq<string>, line: Line, more: seq<string>)
    requires !line.Done?
    ensures out + Then(line, more) == (if line.Data? && line.payload != "" then out + [line.payload] else out) + more
  {
    if line.Data? && line.payload != "" {
      assert out + ([line.payload] + more) == out + [line.payload] + more;
    } else {
      assert [] + more == more;
    }
  }

  /** The lines complete so far: stops at `[DONE]`. */
  method DrainLines(buffered: string, ghost later: string, got: seq<string>)
    returns (buffer: string, out: seq<string>, done: bool)
    ensures done ==> out == got + Payloads(buffered + later)
    ensures !done ==> out + Payloads(buffer + later) == got + Payloads(buffered + later)
    ensures !done ==> OneLine(buffer)
  {
    buffer, out, done := buffered, got, false;
    while LineEnd(buffer) < |buffer|
      invariant out + Payloads(buffer + later) == got + Payloads(buffered + later)
      decreases |buffer|
    {
      var nl := LineEnd(buffer);
      ghost var said := Read(buffer[..nl]);
      FirstLine(buffer, later);
      PayloadsCut(buffer[..nl], buffer[nl + 1..] + later);
      var line := Trim(buffer[..nl]);
      buffer := buffer[nl + 1..];
      ghost var rest := Payloads(buffer + later);
      if !said.Done? { OutThen(out, said, rest); }
      if "data:" <= line {
        var data := Trim(line[5..]);
        if data == "[DONE]" {
          done := true;
          assert out + [] == out;
          return;
        }
        if data != "" {
          out := out + [data];
        }
      }
    }
    assert buffer[..|buffer|] == buffer;
  }

  lemma FlatStep(chunks: seq<string>, i: nat)
    requires i < |chunks|
    ensures Flat(chunks[i..]) == chunks[i] + Flat(chunks[i + 1..])
  {
    assert chunks[i..][1..] == chunks[i + 1..];
  }

  /** What is still to come when the chunks before the `i`-th were read. */
  function Pending(buffer: string, chunks: seq<string>, i: nat): seq<string>
    requires i <= |chunks|
  {
    Payloads(buffer + Flat(chunks[i..]))
  }

  lemma Refill(buffer: string, chunks: seq<string>, i: nat)
    requires i < |chunks|
    ensures Pending(buffer, chunks, i) == Payloads(buffer + chunks[i] + Flat(chunks[i + 1..]))
  {
    FlatStep(chunks, i);
    Assoc(buffer, chunks[i], Flat(chunks[i + 1..]));
  }

  lemma AtStart(chunks: seq<string>)
    ensures [] + Pending("", chunks, 0) == Payloads(Flat(chunks))
  {
    assert chunks[0..] == chunks;
    assert "" + Flat(chunks) == Flat(chunks);
  }

  lemma AtEnd(buffer: string, chunks: seq<string>)
    requires OneLine(buffer)
    ensures Pending(buffer, chunks, |chunks|) == Rest(buffer)
  {
    assert buffer + Flat(chunks[|chunks|..]) == buffer;
    PayloadsRest(buffer);
  }

  /** The payloads of a stream depend on its text only, not on where the chunks were cut. */
  method SseData(chunks: seq<string>) returns (out: seq<string>)
    ensures out == Payloads(Flat(chunks))
  {
    out := [];
    var buffer := "";
    AtStart(chunks);
    for i := 0 to |chunks|
      invariant out + Pending(buffer, chunks, i) == Payloads(Flat(chunks))
      invariant OneLine(buffer)
    {
      Refill(buffer, chunks, i);
      var done;
      buffer, out, done := DrainLines(buffer + chunks[i], Flat(chunks[i + 1..]), out);
      if done {
        return;
      }
    }
    AtEnd(buffer, chunks);
    var rest := Trim(buffer);
    if "data:" <= rest && Trim(rest[5..]) != "[DONE]" {
      out := out + [Trim(rest[5..])];
    } else {
      assert out + [] == out;
    }
  }

  // ------------------------------------------------- the same, said line by line

  function Joined(lines: seq<string>): string {
    if lines == [] then "" else lines[0] + "\n" + Joined(lines[1..])
  }

  /** The non-empty payloads of the lines, up to the first `[DONE]`. */
  function LinePayloads(lines: seq<string>): seq<string> {
    if lines == [] || Read(lines[0]).Done? then []
    else (if Read(lines[0]).Data? && Read(lines[0]).payload != "" then [Read(lines[0]).payload] else [])
         + LinePayloads(lines[1..])
  }

  predicate Ended(lines: seq<string>) {
    exists i: nat :: i < |lines| && Read(lines[i]).Done?
  }

  /** Complete lines drop empty payloads and stop at `[DONE]`; an unterminated last line is read the same way
      but keeps an empty payload. */
  lemma {:induction false} PayloadsOfLines(lines: seq<string>, rest: string)
    requires OneLine(rest) && forall i: nat | i < |lines| :: OneLine(lines[i])
    ensures Payloads(Joined(lines) + rest) == LinePayloads(lines) + if Ended(lines) then [] else Rest(rest)
    decreases |lines|
  {
    var ends := if Ended(lines) then [] else Rest(rest);
    if lines == [] {
      assert Joined(lines) + rest == rest && LinePayloads(lines) + ends == ends;
      PayloadsRest(rest);
    } else {
      var later := Joined(lines[1..]) + rest;
      assert Joined(lines) + rest == lines[0] + "\n" + later;
      PayloadsCut(lines[0], later);
      PayloadsOfLines(lines[1..], rest);
      EndedSplit(lines);
      ThenPayloads(lines, ends);
    }
  }

  lemma ThenPayloads(lines: seq<string>, ends: seq<string>)
    requires lines != []
    requires Read(lines[0]).Done? ==> ends == []
    ensures Then(Read(lines[0]), LinePayloads(lines[1..]) + ends) == LinePayloads(lines) + ends
  {
    hide Read;
    var rest := LinePayloads(lines[1..]);
    assert [] + rest == rest;
    assert LinePayloads(lines) == Then(Read(lines[0]), rest);
    ThenMore(Read(lines[0]), rest, ends);
  }

  lemma ThenMore(line: Line, more: seq<string>, ends: seq<string>)
    requires line.Done? ==> ends == []
    ensures Then(line, more + ends) == Then(line, more) + ends
  {
    if line.Data? && line.payload != "" {
      assert ([line.payload] + more) + ends == [line.payload] + (more + ends);
    } else {
      assert [] + more == more && [] + (more + ends) == more + ends;
    }
  }

  lemma EndedSplit(lines: seq<string>)
    requires lines != []
    ensures Ended(lines) <==> Read(lines[0]).Done? || Ended(lines[1..])
  {
    if Ended(lines) && !Read(lines[0]).Done? {
      var i: nat :| i < |lines| && Read(lines[i]).Done?;
      assert Read(lines[1..][i - 1]).Done?;
    }
    if Ended(lines[1..]) {
      var i: nat :| i < |lines[1..]| && Read(lines[1..][i]).Done?;
      assert Read(lines[i + 1]).Done?;
    }
  }

  // -------------------------------------------------------------- what a service writes

  /** A `data:` line says what stands behind the colon, without the white space around it. */
  lemma ReadOf(a: string, b: string, d: string, c: string)
    requires AllSpace(a) && AllSpace(b) && Trimmed(d) && AllSpace(c) && (d == "" ==> b == "" && c == "")
    ensures Read(a + ("data:" + b + d) + c) == if d == "[DONE]" then Done else Data(d)
  {
    var said := "data:" + b + d;
    assert said[0] == 'd' && said[|said| - 1] == if d == "" then ':' else d[|d| - 1];
    TrimOf(a, said, c);
    assert "data:" <= said && said[5..] == b + d + "";
    TrimOf(b, d, "");
  }

  /** Any other line is passed over. */
  lemma ReadOther(a: string, t: string, c: string)
    requires AllSpace(a) && Trimmed(t) && AllSpace(c) && !("data:" <= t)
    ensures Read(a + t + c) == Other
  {
    TrimOf(a, t, c);
  }

  /** The event stream of these payloads: one event each, and the end mark. */
  function Written(ds: seq<string>): string {
    if ds == [] then "data: [DONE]\n" else "data: " + ds[0] + "\n" + ("\n" + Written(ds[1..]))
  }

  /** A payload that fits on a data line. */
  predicate Fits(d: string) {
    d != "" && d != "[DONE]" && Trimmed(d) && OneLine(d)
  }

  /** One event: its line, and an empty one. */
  lemma OneEvent(d: string, rest: string)
    requires Fits(d)
    ensures Payloads("data: " + d + "\n" + ("\n" + rest)) == [d] + Payloads(rest)
  {
    hide Read, Payloads;
    DataLine(d);
    PayloadsCut("data: " + d, "\n" + rest);
    assert "\n" + rest == "" + "\n" + rest;
    PayloadsCut("", rest);
    ReadOther("", "", "");
    assert "" + "" + "" == "";
  }

  lemma EndMark(more: string)
    ensures Payloads("data: [DONE]\n" + more) == []
  {
    hide Read, Payloads;
    assert "data: " + "[DONE]" == "data: [DONE]" && "data: [DONE]" + "\n" + more == "data: [DONE]\n" + more;
    DataLine("[DONE]");
    PayloadsCut("data: [DONE]", more);
  }

  /** What is written comes back, payload for payload, whatever follows the end mark. */
  lemma {:induction false} WrittenReadsBack(ds: seq<string>, more: string)
    requires forall i: nat | i < |ds| :: Fits(ds[i])
    ensures Payloads(Written(ds) + more) == ds
  {
    hide Payloads, Fits;
    if ds == [] {
      EndMark(more);
    } else {
      var d, rest := ds[0], Written(ds[1..]);
      assert Fits(d) && forall i: nat | i < |ds[1..]| :: ds[1..][i] == ds[i + 1];
      WrittenReadsBack(ds[1..], more);
      OneEvent(d, rest + more);
      Assoc("data: " + d + "\n", "\n" + rest, more);
      Assoc("\n", rest, more);
      assert ds == [d] + ds[1..];
    }
  }

  lemma DataLine(d: string)
    requires d != "" && Trimmed(d) && OneLine(d)
    ensures OneLine("data: " + d) && Read("data: " + d) == if d == "[DONE]" then Done else Data(d)
  {
    ReadOf("", " ", d, "");
    assert "" + ("data:" + " " + d) + "" == "data: " + d;
  }
}

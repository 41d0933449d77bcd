/** One question from the stored conversation to the stored answer (assistant/assistant.ts, answerQuestion): history,
    the turn, and what is kept of it. */
module Answering {
  import opened Common
  import opened Messages
  import opened Fitting
  import opened History
  import opened Replay
  import opened RoundTrip
  import opened AgentTurn

  /** No stored row has an empty list of calls. */
  predicate NoHollowRows(rows: seq<Row>) {
    forall i: nat | i < |rows| :: !HollowRow(rows[i])
  }

  /** No result answers a call without an id. */
  predicate IdsGiven(ms: seq<Message>) {
    forall i: nat | i < |ms| && ms[i].Tool? :: ms[i].callId != ""
  }

  /** No proposal card of these messages was decided since. */
  predicate Undecided(ms: seq<Message>, current: string -> string) {
    forall i: nat | i < |ms| && ms[i].Tool? :: current(ms[i].text) == ms[i].text
  }

  /** What a turn leaves is a transcript that can be stored and replayed, when the model gave each of its calls an id of
      its own. */
  lemma TurnIsTranscript(ms: seq<Message>, rounds: seq<seq<ToolCall>>, answer: string, current: string -> string)
    requires Own(ms, rounds) && ms[0].User? && ms[0].text != "" && ms[|ms| - 1] == Assistant(Some(answer), None)
    requires WellFormed(ms) && IdsGiven(ms) && Undecided(ms, current)
    ensures Transcript(ms, current)
  {
    OwnMeans(ms, rounds);
    forall m | m in ms ensures Storable(m, current) {
      var i: nat :| i < |ms| && ms[i] == m;
      assert OwnMessage(ms[i], rounds);
    }
  }

  lemma {:induction false} OwnRowsNotHollow(ms: seq<Message>, rounds: seq<seq<ToolCall>>, results: map<string, string>)
    requires forall i: nat | i < |ms| :: OwnMessage(ms[i], rounds)
    ensures NoHollowRows(RowsOf(ms, results))
  {
    if ms != [] {
      assert OwnMessage(ms[0], rounds);
      assert forall i: nat | i < |ms[1..]| :: OwnMessage(ms[1..][i], rounds) by {
        forall i: nat | i < |ms[1..]| ensures OwnMessage(ms[1..][i], rounds) { assert OwnMessage(ms[i + 1], rounds); }
      }
      OwnRowsNotHollow(ms[1..], rounds, results);
      var rest := RowsOf(ms[1..], results);
      forall i: nat | i < |RowsOf(ms, results)| ensures !HollowRow(RowsOf(ms, results)[i]) {
        if i > 0 { assert !HollowRow(rest[i - 1]); }
      }
    }
  }

  lemma NoHollowConcat(a: seq<Row>, b: seq<Row>)
    requires NoHollowRows(a) && NoHollowRows(b)
    ensures NoHollowRows(a + b)
  {
    forall i: nat | i < |a + b| ensures !HollowRow((a + b)[i]) {
      if i < |a| { assert !HollowRow(a[i]); } else { assert !HollowRow(b[i - |a|]); }
    }
  }

  lemma HistoryLegal(rows: seq<Row>, current: string -> string, note: seq<Note> -> string)
    requires NoHollowRows(rows)
    ensures WellFormed(HistoryOf(rows, current, note))
  {
    HistoryWellFormed(rows, current, note);
  }

  /** Everything a stored answer guarantees about the next history. */
  ghost predicate ComesBack(rows: seq<Row>, transcript: seq<Message>, current: string -> string,
                            note: seq<Note> -> string)
  {
    exists front: seq<Message> :: HistoryOf(rows, current, note) == front + Erase(transcript)
  }

  /** Runs the turn on the stored conversation and stores it; `rounds` are the calls of the turn, `handled` is what
      became of them, and `asked` counts what it asked the world. A turn that is cancelled or fails leaves nothing. What
      is stored never breaks a later history; and when the model gave each call of the turn an id of its own, the next
      history ends with the turn as it was, save for the text beside its calls. */
  method AnswerQuestion(table: MessageTable, w: World, input: Input, prompt: string, question: string,
                        areas: set<string>, current: string -> string, note: seq<Note> -> string)
    returns (outcome: Outcome, rounds: seq<seq<ToolCall>>, handled: seq<Handled>, asked: nat)
    requires NoHollowRows(table.rows) && question != "" && ParsesValid(w) && w.clean("") == ""
    modifies table
    ensures NoHollowRows(table.rows)
    // no answer only after an abort or a request without a reply, and always after an abort before the first question
    ensures outcome.Cancelled? ==> !w.FineBefore(asked)
    ensures input.maxRounds >= 1 && w.aborted(0) ==> outcome.Cancelled?
    ensures outcome.Answered? && input.maxRounds >= 1 ==> w.FromModel(outcome.answer, asked)
    ensures outcome.Cancelled? ==> table.rows == old(table.rows)
    // what is stored is the transcript, each result with the one-line form its tool gave
    ensures w.Through(handled)
    ensures outcome.Answered? ==> table.rows == old(table.rows) + RowsOf(outcome.transcript, Noted(map[], handled))
    ensures outcome.Answered? ==> outcome.transcript != [] && outcome.transcript[0] == User(question)
                                  && outcome.transcript[|outcome.transcript| - 1] == Assistant(Some(outcome.answer), None)
    ensures outcome.Answered? ==> && Own(outcome.transcript, rounds)
                                  && (WellFormed(outcome.transcript) <==> AllDistinct(rounds, |rounds|))
    ensures outcome.Answered? && AllDistinct(rounds, |rounds|) && IdsGiven(outcome.transcript)
            && Undecided(outcome.transcript, current) && |outcome.transcript| <= ROW_LIMIT ==>
              ComesBack(table.rows, outcome.transcript, current, note)
  {
    hide World.FineBefore, World.FromModel, World.Through, Noted, SentSound, RunsSound, WellFormed, Own, RowsOf,
         HistoryOf, ParsesValid;
    HistoryLegal(table.rows, current, note);
    var earlier, _, digests := History.History(table.rows, current, note);
    var turn := new Turn(w, input, prompt, earlier, question, digests, areas);
    outcome := turn.Run();
    rounds, handled, asked := turn.toolRounds, turn.handled, turn.asked;
    if outcome.Answered? {
      var ms, results := outcome.transcript, turn.toolResults;
      ghost var before := table.rows;
      OwnMeans(ms, rounds);
      OwnRowsNotHollow(ms, rounds, results);
      NoHollowConcat(before, RowsOf(ms, results));
      var _ := table.Persist(ms, results);
      if AllDistinct(rounds, |rounds|) && IdsGiven(ms) && Undecided(ms, current) && |ms| <= ROW_LIMIT {
        TurnIsTranscript(ms, rounds, outcome.answer, current);
        SummaryLands(before, ms, results, "");
        ghost var front := StoredLast(before, Saved(ms, results, None), current, note);
      }
    }
  }
}

# Verified models of the AI queue, the assistant and the export algorithms

Dafny models of the parts of the system whose correctness rests on more than one function: the AI slot queue with its
client protocol, the assistant's conversation loop with its storage, and a group of compact algorithms. Check
everything with `dafny verify dfyconfig.toml`.

## The models

**The AI slot queue.** `SlotTable` holds the row table and what each endpoint makes of it; `SlotService` is the
service whose endpoints update the table; `Waiters` is the wakeup registry. `SlotProtocol` is a state machine: one
atomic step for each endpoint call, and for each client of `withAiSlot` the steps register, poll, block, unregister,
cancel, run and release, with nested calls, priority lanes, timeouts, aborts and sweeps of active rows at any moment.
A promotion and the `wakeWaiter` call that follows it are separate steps. `SlotGuarantees` states what holds in every
run, `SlotHolders` who may run without queueing, `SlotJobs` what becomes of one call from its start to its end,
`SlotLanes` what a priority lane is worth. The protocol is a state machine and not a method because its point is the
interleaving of many clients.

Assumptions: an endpoint call is one atomic step and does not fail; arrival times are distinct. Why the first is
needed is itself a result: `SlotTable.SplitReleaseActivatesTwo` shows that every sound table with a holder and a
waiter ends up with two active rows when the two statements of a release are split by an acquire. Stale cleanup may
take any set of active rows, so exclusive use is claimed only for callers whose row was not swept.

**The assistant.** `Messages` says what a legal conversation is. `AgentTurn` is the loop with its fields, branch by
branch as in the source: planning call, rounds, tool calls, nudges, retries, checks, and `fitContext` working on the
message list in place. Everything the outside decides (the model's replies, tool outcomes, aborts, the regular
expressions, token estimates) is a parameter, the `World`, asked anew at each step, so that all theorems hold for
every answer it could give. `Fitting` is the specification of `fitContext`. `Canonical` and `CallKeys` deal with the
key of the seen-call guard. `History`, `Replay` and `RoundTrip` fold stored rows into turns and back, and `Answering`
composes it all: history, turn, storage, and the history of the next question.

**Algorithms.** `EditDistance`, `LlmStream` and `Reply`, `Calendar`, `Schedule` and `Periods`, `Bits`, `IpText` and
`IpAllow`, `LiveTurn` (values) and `LiveTurns` (objects), `UniqueName`, `Readings`. `Texts` and `Common` hold text
helpers and the option type.

## Where the code and its documentation part ways

The first five are stated as equivalences, so that the condition under which the description holds is exact; the other
two are modelled as the code has them.

- A request of the loop is a legal conversation exactly when no executed reply repeated a call id
  (`AgentTurn.RequestLegal`, `Messages.RepeatedIdBreaks`); the assembler passes repeated ids on.
- `history` returns a well-formed conversation for all rows but those with an empty list of tool calls in a turn
  replayed whole, which becomes an assistant message with neither words nor calls (`Replay.HistoryWellFormedIff`,
  `Replay.HollowRowBreaks`).
- Date.UTC reads the years 0 to 99 as 1900 to 1999. So `nextRunAt`, `elapsedPeriod` and `lastDay` meet their
  description exactly outside the named years (`Schedule.NextRunIff`, `Periods.ElapsedIff`, `Periods.InPeriodIff`,
  `Periods.LastDayIff`).
- `withAiPriority` promises that every slot asked for inside it is queued at its priority or better, but a lane opened
  inside another one takes its place even when it is looser. Whatever is asked for keeps an outer lane exactly when the
  innermost lane is no looser (`SlotLanes.EveryRequestIff`, `SlotLanes.LaneKeptIff`, `SlotLanes.NestedLaneBreaks`).
- `releaseSlot` keeps the queue sound exactly when it is not called for a waiting row that others wait behind
  (`SlotTable.ReleaseKeepsQueueIff`); no run of the client protocol calls it so.
- A stream that ends in an unterminated `data:` line without payload yields an empty item, while a complete line
  of that kind yields none (`LlmStream.PayloadsOfLines`).
- An IPv6 text with fewer than eight groups and no `::` is filled with zeros at its end instead of being refused, and a
  second `::` with what follows it is ignored; `IpText.Filled` does the same.

## Model

| member | source | states |
|---|---|---|
| SlotTable.AcquireKeepsQueue | ai-queue/api.ts:95-116 | Taking a slot keeps "one active row per model, nobody waits for an idle model", and a newcomer becomes active only when nobody of its model waits: no barging |
| SlotTable.CancelKeepsQueue | ai-queue/api.ts:213-216 | Withdrawing keeps the queue sound, whatever the row's state |
| SlotTable.PromoteRepairs | ai-queue/api.ts:187-198 | One promotion after the loss of the active row restores the invariant, and every row of another model stays as it was |
| SlotTable.ReleaseKeepsQueueIff | ai-queue/api.ts:178-198 | A release leaves a sound queue if and only if it does not free a waiting row while others of the model wait |
| SlotTable.CleanupKeepsQueue | ai-queue/api.ts:295-323 | Deleting any set of stale active rows with one promotion for each model that lost one keeps the queue sound |
| SlotTable.AcquireIsInsertThenActivate | ai-queue/api.ts:95-110 | The two statements of acquire, with nothing between them, are the atomic step of the model |
| SlotTable.PromotionAloneIff | ai-queue/api.ts:187-198 | The promotion statement never looks for an active row: alone it keeps one active row per model if and only if the model is idle or nobody waits |
| SlotTable.SplitReleaseActivatesTwo | ai-queue/api.ts:102-110 | From every sound table with a holder and a waiter, an acquire between a release's DELETE and its promotion makes two active rows |
| SlotTable.PositionStep | ai-queue/api.ts:159-171 | In one step a waiting row's position falls by the promotions of its model and rises at most by the arrivals of strictly better priority |
| SlotTable.FirstInLine | ai-queue/api.ts:159-171 | A waiting row is reported in first place if and only if it is the one the next promotion of its model takes |
| SlotTable.PositionsOrdered | ai-queue/api.ts:159-171 | Of two rows waiting for one model the one that goes first has the lower place |
| SlotTable.PositionWithin | ai-queue/api.ts:159-171 | No place is further back than the number of rows that wait for the model |
| SlotService.Service.AcquireSlot | ai-queue/api.ts:90-134 | The new table is the old one with the inserted row, active when its model was idle; status and position are the row's |
| SlotService.Service.PollSlot | ai-queue/api.ts:136-173 | Reports active, gone or the place in the line, and changes nothing |
| SlotService.Service.ReleaseSlot | ai-queue/api.ts:175-208 | The row goes in any state, the least (priority, arrival) of its model moves up, and exactly that one is woken |
| SlotService.Service.CancelSlot | ai-queue/api.ts:210-218 | The row goes only while it waits |
| SlotService.Service.CleanupStaleSlots | ai-queue/api.ts:285-331 | The loop over the affected models promotes once in each, wakes exactly those promoted, and counts what it deleted |
| Waiters.RegistrationSurvivesOthers | ai-queue/waiters.ts:34-56 | A registered wakeup is touched by no registration, removal or wakeup of another slot and resolved by its own |
| Waiters.WaiterRegistry.RegisterWaiter | ai-queue/waiters.ts:34-38 | The slot's entry becomes a new unresolved promise, replacing the old one |
| Waiters.WaiterRegistry.UnregisterWaiter | ai-queue/waiters.ts:41-43 | The entry goes and nothing is resolved |
| Waiters.WaiterRegistry.WakeWaiter | ai-queue/waiters.ts:50-56 | A registered promise is resolved and removed; for an unknown slot nothing happens |
| SlotProtocol.StepKeeps | ai-queue/slot-helper.ts:99-234 | Every step of every client, promoter and sweep keeps the protocol invariant: rows fit the calls that own them, wakeups fit the waits, contexts fit the call chains |
| SlotProtocol.ReachableInv | ai-queue/slot-helper.ts:99-234 | The invariant holds in every state of every run |
| SlotGuarantees.NoLostWakeup | ai-queue/slot-helper.ts:112-147 | In every run a waiter that blocks although its row was promoted or swept has its wakeup resolved, or a pending `wakeWaiter` for its row that will resolve the very promise it waits on |
| SlotGuarantees.QueueSound | ai-queue/slot-helper.ts:218-228 | In every reachable state each model has at most one active row, and one if anybody waits |
| SlotGuarantees.NeverReleasesWaiting | ai-queue/slot-helper.ts:123-137 | The cancel-then-release order never releases a row that still waits |
| SlotGuarantees.ExitLeavesNothing | ai-queue/slot-helper.ts:188-233 | A finished call, however it ended, has left no row, and every row has an unfinished owner |
| SlotGuarantees.OneOwnerPerModel | ai-queue/slot-helper.ts:161-234 | Two jobs whose rows were not swept never run as owners of one model's slot |
| SlotGuarantees.NoChainWaitsForItself | ai-queue/slot-helper.ts:170-178 | Whoever queues, or is about to, has nobody up its own call chain that still holds or waits for a slot of the same model |
| SlotHolders.HolderOwns | ai-queue/slot-helper.ts:170-178 | In every reachable state each token a call carries is released, or is that of a caller up its chain that runs its job as the owner of the slot, with an active row unless it was swept |
| SlotHolders.SkipsQueueIff | ai-queue/slot-helper.ts:170-173 | A new call runs without queueing if and only if some caller up its chain owns the slot of its model at that moment |
| SlotHolders.InsideUnderOwner | ai-queue/slot-helper.ts:170-173 | A call that runs without queueing has a caller up its chain that owns the slot, or has let go of it since |
| SlotHolders.OneOwnerInside | ai-queue/slot-helper.ts:170-178 | All jobs of a model that run under unswept slots at one moment, its owner and everybody running without queueing, belong to that one owner |
| SlotJobs.SpawnSays | ai-queue/slot-helper.ts:161-178 | A new call is refused if and only if its signal was aborted; it is for the model asked for, inside the lanes of its caller and those opened since |
| SlotJobs.AbortedNeverQueues | ai-queue/slot-helper.ts:161-169 | A call whose signal is aborted on entry has, in every later state of the run, no slot, no job that ran, and no row in the table |
| SlotJobs.CallKept | ai-queue/slot-helper.ts:161-234 | Over any stretch of a run a call keeps its caller, its model and what it asked for, and a refused one stays refused |
| SlotJobs.QueuedForIt | ai-queue/slot-helper.ts:173-183 | In every later state the row of a call was not aborted on entry, waits for or holds the model the call asked for, and queues at the better of its own priority and the innermost lane around it |
| SlotJobs.JobDone | ai-queue/slot-helper.ts:179-233 | A call that is through ran its job, unless it was aborted or out of time while it waited, or the sweep took its row |
| SlotLanes.RowPriority | ai-queue/slot-helper.ts:173-178 | In every reachable state a row queues at the better of what its caller asked for and the innermost lane around it |
| SlotLanes.EveryRequestIff | ai-queue/slot-helper.ts:40-47 | Everything that can be asked for inside nested lanes queues at the k-th of them or better if and only if the innermost lane is no looser than it |
| SlotLanes.LaneKeptIff | ai-queue/slot-helper.ts:40-47 | For every caller up the chain that runs in a lane: its callees always run in some lane, and a row of theirs queues at the caller's lane or better if and only if it asked for that much or its own lane is no looser |
| SlotLanes.LaneHolds | ai-queue/slot-helper.ts:40-47 | A lane is kept by every row inside it when no looser lane is opened below it |
| SlotLanes.NestedLaneBreaks | ai-queue/slot-helper.ts:40-47 | A concrete run in which a request inside a lane of 0, made in an inner lane of 5, queues at 2 |
| SlotGuarantees.PositionOverRun | ai-queue/api.ts:159-198 | Over any stretch of a run in which a row waits, its position plus the promotions is at most its position before plus the better arrivals |
| SlotGuarantees.BoundedBypass | ai-queue/api.ts:187-198 | After p promotions, plus one for each strictly better arrival, a row that stood at position p has become active, or left because its own caller was withdrawing it |
| SlotGuarantees.WaitEnds | ai-queue/slot-helper.ts:123-137 | A row leaves the line only by becoming active or because its own caller withdrew it |
| Messages.WellFormedConcat | assistant/agent.ts:614-640 | A conversation cut anywhere but before a tool result is well formed if and only if both parts are |
| Messages.RoundWellFormed | assistant/agent.ts:1126-1134 | A reply's calls answered one by one form a legal round if and only if no call id repeats |
| Messages.RepeatedIdBreaks | assistant/agent.ts:1126-1134 | A concrete reply that repeats a call id is not legal once answered |
| Messages.OneSystemMessage | assistant/agent.ts:957-976 | A legal request has exactly one system message, at its front |
| Fitting.FittedPositions | assistant/agent.ts:607-640 | `fitContext` keeps the prompt, the question and everything behind it in place, counted from the end; protected results stay verbatim, others read as themselves or their digest; history left over begins with a question |
| Fitting.FittedKeeps | assistant/agent.ts:628-638 | What is left of a well-formed history is well formed, and the turn's own part is well formed if and only if it was |
| AgentTurn.Turn.FitContext | assistant/agent.ts:614-640 | The in-place loops meet the specification: as few results digested and whole oldest turns dropped as suffice, in that order, ending in a fitting list or no history, with the number of removed messages |
| AgentTurn.Turn.Fit | assistant/agent.ts:887-892 | Before a request the list becomes the one that `fitContext` specifies for the given share of the budget, and both indices move with what was removed |
| AgentTurn.RequestLegal | assistant/agent.ts:957-976 | A request made of the standing conversation and a nudge is a legal conversation, not ending in the assistant's message, if and only if no executed round repeated a call id |
| AgentTurn.RoundPlaced | assistant/agent.ts:1126-1134 | A complete tool round keeps the question, the history before it and the equivalence above |
| AgentTurn.SeenIffRan | assistant/agent.ts:1172-1176 | The guard refuses a call if and only if an equal call (same tool, equal arguments up to key order) already ran in this turn |
| AgentTurn.RunAdded | assistant/agent.ts:1213 | Noting a run keeps the guard exact: no two runs of a turn are the same call |
| AgentTurn.Turn.AccountableMeans | assistant/agent.ts:949-1280 | What the methods below keep at every moment, said at length: each request sent was legal if and only if no tool round before it repeated a call id, and no two runs were the same call |
| AgentTurn.Turn.Send | assistant/agent.ts:833-874 | The request goes out, and a second time exactly after an unreadable first reply the user did not abort; which answer of the server becomes the result, which means too large, and which ends the turn |
| AgentTurn.Turn.Ask | assistant/agent.ts:963-978 | The first request is the conversation with the nudge behind it; exactly when it was too large, the conversation is fitted to six tenths of the budget with nothing protected and sent once more with the nudge; the result is that of the last sending; every request sent keeps the legality equivalence |
| AgentTurn.Turn.SendPlanRequest | assistant/agent.ts:910-920 | The conversation fitted to the whole budget with the open round protected goes out bound to the plan tool |
| AgentTurn.Turn.PlanCall | assistant/agent.ts:894-947 | Asked exactly when a plan is due and nobody cancelled, with at most two requests; the plan is exactly the usable steps of the reply's plan call, and enters as a legal round of its own; without a plan, round 1 carries exactly the reply without its plan calls, if any call is left; it stops the turn exactly for an abort or a failed request |
| AgentTurn.Turn.ReadSteps | assistant/agent.ts:224-237 | The loop keeps the steps that name a tool of the first round, in order, up to four of them, all of them open |
| AgentTurn.FirstPlanCallIs | assistant/agent.ts:923 | The plan is read off the first call of the plan tool, if there is one |
| AgentTurn.OtherCallsAre | assistant/agent.ts:925-930 | What round 1 carries over are all calls of other tools and no other, in order |
| AgentTurn.Turn.RoundReply | assistant/agent.ts:949-978 | Unless it was cancelled, a round fits the conversation to the budget with the open round protected, and unless the plan call brought its reply, its first request is exactly the fitted conversation with the nudge behind it, tools shown but not to be called in the last round |
| AgentTurn.Turn.HandleCall | assistant/agent.ts:1130-1262 | Each of the six refusals exactly when a call ends in it (unreadable arguments, meta tool, repeat, not offered, refused arguments, held back by advice), and otherwise one run of that tool with those arguments; the model reads the full result of that run or its error, and its one-line form, and nothing else, is noted for that call; which areas and tools join the turn, and which tools count as advised |
| AgentTurn.Turn.Execute | assistant/agent.ts:1211-1262 | A tool that returned is answered with its whole result, and its one-line form is noted for its call and kept for storage; one that threw is answered with the error and nothing is noted; either counts as run |
| AgentTurn.Turn.ToolRound | assistant/agent.ts:1126-1275 | Behind the reply exactly one result per call, in order, each with the text its call was handled with, the last one followed by the plan status; the plan has ticked once for each tool that returned, in order, and for no other; every call is on record, however the round ends; only a cancel, as the last thing asked, stops it |
| AgentTurn.TickedIs | assistant/agent.ts:1268-1271 | Ticking marks the first open step of that tool done and changes nothing else |
| AgentTurn.HasOpenStepIff | assistant/agent.ts:1012 | A plan is open if and only if one of its steps, wherever it stands, is not done |
| AgentTurn.Turn.DraftNudge | assistant/agent.ts:993-1026 | The reason a draft goes back for is the first of the seven that applies, in the order of the source, and there is none exactly when none applies; four of them are given once in a turn |
| AgentTurn.Turn.SendBack | assistant/agent.ts:982-1030 | A draft goes back if and only if it is empty before any tool ran and for the first time, or there is a reason and the draft before it did not go back, unless for being empty; the next request then ends with the draft and the text of that reason, or for an empty reply with its text alone |
| AgentTurn.Turn.Check | assistant/agent.ts:1069-1124 | A draft goes back, with what the checker found missing or the area it named, exactly for an ungrounded verdict before the last one allowed, and once for an area that can still join, which then joins with its tools; the last allowed failure keeps the answer with the note behind it; every other verdict, or none, lets the answer out as it is; only a cancel stops the turn |
| AgentTurn.Turn.Judge | assistant/agent.ts:1073-1124 | The checker is asked exactly when a check is due, and nothing else holds an answer back |
| AgentTurn.Turn.Round | assistant/agent.ts:949-1278 | The first request of a round is the fitted conversation with the nudge behind it. The loop goes on only after a complete tool round, which holds exactly the calls of the reply, after a check that sent the answer back, or with a draft sent back; and a draft written after such a nudge does not go back again unless an empty reply came between; a cancel before the round stops the turn |
| AgentTurn.Turn.Rounds | assistant/agent.ts:949-1278 | Round after round: each one but the first follows a round that went on, and what that round left is put to the model at the end of the next request; the loop ends with the answer of its last round, stopped in it, or without any |
| AgentTurn.Turn.Run | assistant/agent.ts:949-1280 | For every world: the turn ends with an answer by `maxRounds`, unless among what it asked there was an abort or a sending without a reply; a cancel before the first question leaves none. Round after round each nudge is put to the model with the next request, up to the answer, and the rounds reported are the plan call, those rounds and the extra request for words, if made. The answer is not empty and is the cleaned words of a reply during this turn, with at most the note behind them, or one of the two fixed texts where a reply had no words for the user. For every outcome, also cancelled and failed turns: each request sent was legal if and only if no tool round before it repeated a call id, each call handled is on record with what its tool gave, no tool body ran twice on equal arguments, and failed checks, reroutes, retries and requests stay within their bounds. The transcript runs from the question to the answer, holds one question and only this turn's rounds, and is as legal as the requests |
| AgentTurn.FinalTranscript | assistant/agent.ts:1278-1280 | The stored transcript starts with the question, ends with the answer, and is well formed exactly when the ids were distinct |
| Canonical.CanonPrefix | assistant/agent.ts:643-650 | The canonical text is self-delimiting: followed by any structural text it determines the value up to key order and what follows |
| Canonical.CanonComplete | assistant/agent.ts:642-650 | Two JSON values, with any finite numbers, print alike if and only if they are equal up to object key order at every depth |
| CallKeys.KeyComplete | assistant/agent.ts:1172 | Two calls have one key if and only if they name the same tool with equal arguments, whatever characters tool names hold |
| History.FoldRows | assistant/assistant.ts:284-322 | The loop over the rows with its open calls computes the turns of the recursive specification, and the digest of every result taken in |
| History.History | assistant/assistant.ts:259-339 | The messages are the replay of the newest fifty complete turns of the row window; the count is that of the turns replayed as summaries; the digests are those of all rebuilt turns without the calls of summarized ones |
| History.MessageTable.Persist | assistant/assistant.ts:369-399 | The transcript is appended row by row, and the last row's id is returned |
| History.MessageTable.Summarize | assistant/assistant.ts:687-697 | The summary lands on the row whose id was given, and nothing else changes |
| Replay.TurnsGood | assistant/assistant.ts:287-322 | Whatever the rows (a window that starts mid-turn, missing or unknown results, failed turns), each turn is one question with every call answered at once, well formed unless a row has an empty list of calls |
| Replay.TurnHasItsRows | assistant/assistant.ts:287-320 | Each rebuilt turn stands at a question in the table, and the rows it records are exactly those up to the next question |
| Replay.HistoryWellFormedIff | assistant/assistant.ts:322-338 | The rebuilt history is well formed if and only if no row of a turn replayed whole holds an empty list of calls |
| Replay.HistoryWellFormed | assistant/assistant.ts:259-339 | Rows without empty call lists always give a well-formed history |
| Replay.HollowRowBreaks | assistant/assistant.ts:308-315 | Three concrete rows that do not |
| RoundTrip.StoreThenReplay | assistant/assistant.ts:256-339 | Whatever partial turn the row window begins with and whatever questions without an answer stand in it, the next history is, turn by turn, the newest fifty stored turns in order: each as its transcript, up to the text beside tool calls, and one older than the newest whole turns that has a summary as its question and the summary with the note of exactly its calls, each with its one-line form as it reads now |
| RoundTrip.WithoutSummaries | assistant/assistant.ts:369-399 | Without summaries that is every transcript as it was, up to the text beside tool calls |
| RoundTrip.CompleteIff | assistant/assistant.ts:322-327 | A question with what follows it in the table is a complete turn if and only if it is not empty and the assistant answered last |
| RoundTrip.StoredLast | assistant/assistant.ts:369-399 | A transcript stored behind any rows at all ends the next history as it was, up to the text beside tool calls |
| RoundTrip.SummaryLands | assistant/assistant.ts:687-697 | Written to the id that storing returned, a summary makes the stored turn one with that summary |
| RoundTrip.StoredDigests | assistant/assistant.ts:369-399 | Each result of the newest stored turn goes into the next history with the one-line form stored for it, as it reads now, unless an older turn that goes as its summary used the same call id |
| Answering.TurnIsTranscript | assistant/assistant.ts:468-514 | What a turn leaves can be stored and replayed when the model gave each of its calls an id of its own |
| Answering.AnswerQuestion | assistant/assistant.ts:468-548 | History, turn and storage in one: a question is answered, in words of the model, unless there was an abort or a sending without a reply; then nothing changes. An answer appends its transcript, each result with the one-line form its tool gave; it never breaks a later history, and when the call ids were distinct it ends the next history as it was, up to the text beside tool calls |
| EditDistance.LevIsShortestScript | assistant/arguments.ts:30-43 | The distance is the length of a shortest script of insertions, deletions and substitutions |
| EditDistance.LevSymmetric | assistant/arguments.ts:31-43 | The distance is symmetric |
| EditDistance.LevZeroIffEqual | assistant/arguments.ts:31-43 | It is zero for equal texts only |
| EditDistance.LevTriangle | assistant/arguments.ts:31-43 | The triangle inequality, by composing scripts |
| EditDistance.Distance | assistant/arguments.ts:31-43 | One array row, overwritten in place, computes it |
| EditDistance.NearestName | assistant/arguments.ts:46-56 | The first known name at the smallest distance, if within the limit or one contains the other |
| EditDistance.NearestUnique | assistant/arguments.ts:46-56 | That determines the result |
| EditDistance.IncludesIff | assistant/arguments.ts:55 | A name is included if and only if it stands somewhere in the text, at its ends too |
| LlmStream.SseData | assistant/llm-client.ts:168-192 | The payloads depend on the concatenated text alone, however it was cut into chunks |
| LlmStream.PayloadsOfLines | assistant/llm-client.ts:176-188 | Said line by line: the non-empty payloads of the `data:` lines up to `[DONE]`, then the unterminated rest |
| LlmStream.ReadOf | assistant/llm-client.ts:179-183 | A `data:` line says what stands behind the colon, without the white space around it, and `[DONE]` alone ends the stream |
| LlmStream.WrittenReadsBack | assistant/llm-client.ts:168-192 | Any payloads written as events, a `data:` line and an empty one each, with the end mark behind them, come back exactly, whatever follows the mark |
| Reply.ReplyAssembler.Push | assistant/llm-client.ts:114-145 | A chunk makes exactly the specified change; an error chunk is raised by its kind and changes nothing; `onToken` hears the content |
| Reply.ReplyAssembler.Finish | assistant/llm-client.ts:147-165 | The loop over the sorted indices builds the specified reply |
| Reply.CallsAreTheirFragments | assistant/llm-client.ts:137-144 | With explicit indices each call is its own fragments: last id, joined names, joined arguments |
| Reply.ReplyDependsOnEachCall | assistant/llm-client.ts:106-165 | Streams that agree in text, end and usage and in each index's fragments give the same reply, however those interleave or are subdivided |
| Reply.StreamReply | assistant/llm-client.ts:106-165 | What the reply says, read off the chunks: all text, trimmed, or none; the last usage; the last end unless there are calls; and for each index whose fragments give a name, in the order of the indices, the last id or one made up, the joined names and the joined arguments |
| Reply.ReplyCalls | assistant/llm-client.ts:147-165 | The reply holds exactly the named calls in the order of their indices, each with an id and arguments |
| Reply.ImplicitFragments | assistant/llm-client.ts:137-144 | Without indices every fragment is a call of its own, in order |
| Calendar.MonthStartFormula | collections/schedule-dates.ts:52-54 | Adding up month lengths gives the closed day formula of ECMA-262, for every year and month |
| Schedule.NormalizedIsValid | collections/schedule-dates.ts:34-50 | What passes the check is a spec within its ranges with only its cadence's fields; checking again changes nothing; every valid spec passes |
| Schedule.NextSlotIsFirst | collections/schedule-dates.ts:57-79 | The slot in or after the week, month or year of an instant is the least regular 04:00 UTC run strictly after it |
| Schedule.NextRunIff | collections/schedule-dates.ts:56-79 | `nextRunAt` returns the least regular run strictly after its argument, for every cadence and instant, if and only if no year from 0 to 99 is involved |
| Schedule.YearZeroIsLate | collections/schedule-dates.ts:52-54 | A concrete instant for which it does not |
| Schedule.RunsFollow | collections/schedule-dates.ts:57-79 | Run after run visits the regular days without skipping one |
| Periods.PeriodsTile | collections/schedule-dates.ts:85-102 | The periods of consecutive runs tile the calendar: each day lies in exactly one |
| Periods.ElapsedIff | collections/schedule-dates.ts:90-102 | `elapsedPeriod` of a regular run is its period if and only if no old year is involved |
| Periods.IsoOrder | collections/schedule-dates.ts:81-83 | ISO dates with four-digit years compare as strings as their days do |
| Periods.LessIff | collections/schedule-dates.ts:104-109 | The order of texts is that of the first difference, and a prefix is less |
| Periods.InPeriodIff | collections/schedule-dates.ts:104-109 | A run of a year up to 9999 passes exactly the days it reports on, given as dates or timestamps of any year, if and only if no old year is involved |
| Periods.NotInPeriod | collections/schedule-dates.ts:104-109 | A missing value, and a text cut off where its period begins, are in no period |
| Periods.BlurredPeriods | collections/schedule-dates.ts:104-109 | In other years all days of a month have the same first ten characters, so that no test by them tells apart the days of two runs |
| Periods.LastDayIff | collections/schedule-dates.ts:111-115 | For every day, `lastDay` of its ISO date is the ISO date of the day before if and only if its year has four digits and is past 99 |
| Periods.YearZeroIsWrong | collections/schedule-dates.ts:90-115 | A concrete run and end date for which period and last day are wrong |
| Bits.MaskedEqual | backup/ip-allow.ts:109-110 | Agreement under a mask of ones above k zeros is equality after division by 2^k |
| Bits.ShiftedOnes | backup/ip-allow.ts:109 | Shifting a 32-bit word of ones bit by bit, losing what leaves it, gives that mask |
| IpAllow.JoinedBytes | backup/ip-allow.ts:82 | The shifts and joins of four bytes are the 32-bit number |
| IpAllow.Ipv4PrefixIff | backup/ip-allow.ts:77-111 | The IPv4 test holds if and only if both texts read, the prefix length fits, and the numbers agree after division by 2^(32 - bits) |
| IpAllow.Ipv6ToBytes | backup/ip-allow.ts:85-98 | The byte array holds the eight groups, high byte first, or nothing when a group is missing or malformed |
| IpAllow.SplitByte | backup/ip-allow.ts:118-130 | Whole bytes and the top bits of the next one agree if and only if the 128-bit numbers agree after the division |
| IpAllow.Ipv6InCidr | backup/ip-allow.ts:113-131 | The byte loop and the masked byte decide equality of the 128-bit numbers after division by 2^(128 - bits) |
| IpText.ParseIntOf | backup/ip-allow.ts:77-98 | `parseInt` reads white space, a sign, for radix 16 a prefix, and the digits up to the first other character, and without a digit there is no number |
| IpText.RadixDigits | backup/ip-allow.ts:77-98 | The digits of both radices, in both cases |
| IpText.RadixDigitIs | backup/ip-allow.ts:77-98 | Each digit, small or capital, is worth its place in the order of the digits |
| IpText.OctetsOfDotted | backup/ip-allow.ts:77-83 | Any numbers written in dotted decimal read back as themselves if they are four bytes, and as no address otherwise |
| IpText.GroupsOfShorthand | backup/ip-allow.ts:85-98 | An address with `::` in place of any run of zero groups reads back to its eight groups |
| IpText.GroupsOfFull | backup/ip-allow.ts:85-98 | So does one with all eight groups written out |
| LiveTurn.EveryRunKeeps | assistant/live.ts:79-140 | After every run of emits, joins, throwing listeners, time-outs and cancels each attached watcher has received exactly the log, at most one terminal event stands in it, as the last one, and a finished turn has no watchers |
| LiveTurn.StayedHasTheLog | assistant/live.ts:109-140 | A watcher that never threw nor gave up has the whole log, whenever it joined, and stays attached until the end |
| LiveTurn.LogGrows | assistant/live.ts:83-99 | The log only grows, and not once the turn is finished |
| LiveTurns.Turn.Emit | assistant/live.ts:83-100 | The loop over the listeners makes the specified change and counts exactly those that took the event |
| LiveTurns.Turn.Follow | assistant/live.ts:109-140 | The log is replayed event by event; a listener that throws on the way is not attached |
| LiveTurns.LiveTurns.OpenTurn | assistant/live.ts:79-82 | An emitter is handed out if and only if the turn is new or this user's and has reported nothing |
| LiveTurns.LiveTurns.FollowTurn | assistant/live.ts:109-112 | Following fails for another user's turn only, and otherwise replays and attaches |
| LiveTurns.LiveTurns.HasWatchers | assistant/live.ts:143-146 | True only for this user's known turn with an attached watcher, never for a finished one |
| LiveTurns.LiveTurns.CancelTurn | assistant/live.ts:165-170 | Aborts if and only if the turn is known, this user's and not finished |
| LiveTurns.LiveTurns.Expire | assistant/live.ts:46-52 | A timer forgets its own turn, never a newer one of the same id |
| UniqueName.Folder.UniqueName | collections/export-options.ts:233-242 | Ends, and returns the name itself or the free numbered name with the least number, at most the number of taken names plus two; it was not taken, and is now |
| UniqueName.NumberGoesBeforeExtension | collections/export-options.ts:235-237 | The number goes between stem and extension: the part from the last dot, unless that dot begins the name |
| UniqueName.AllocatedUnique | collections/export-options.ts:234-242 | That determines the name |
| UniqueName.LeavingKeepsNumbers | collections/export-options.ts:239 | A lower-casing under which a numbered name is its number between two texts that depend on the name alone, however it treats letters and their neighbours, keeps numbered names apart, which is all that the termination argument needs |
| UniqueName.LetterwiseKeepsNumbers | collections/export-options.ts:239 | So does every lower-casing letter by letter, to one letter or several, that leaves digits alone |
| UniqueName.Folder.NameAll | collections/exporters.ts:216-240 | Each name of a whole export is the one allocated for the name asked for, against those given out before it; they are pairwise distinct ignoring case and new to the folder |
| UniqueName.AllNamedUnique | collections/export-options.ts:233-242 | That determines all of them |
| Readings.ReadingCells | collections/exporters.ts:661-670 | Each cell is the difference to the previous reading of the same device, and empty for its first |
| Readings.TotalTelescopes | collections/exporters.ts:727-728 | The total is the sum over the devices of last minus first reading, however the readings interleave |
| Readings.DeviceChangeAddsNothing | collections/exporters.ts:661-670 | At a device change consumption starts anew: the step between two devices adds nothing |
| Readings.Footer | collections/exporters.ts:728-733 | The loop adds up the cells, for more than one reading only |
| Readings.Section | collections/exporters.ts:727-733 | The footer of a meter's section is the sum over its devices of last minus first reading, and is there exactly for more than one reading |

## Left out

- SQL, Drizzle, row locks (`FOR UPDATE SKIP LOCKED`), clocks and the queue's status and startup endpoints: the table
  is a map, time a counter, staleness any choice.
- Failing endpoint calls inside the queue protocol: a poll or cancel that fails lets a release hit a waiting row.
- Liveness of the queue beyond the counting bounds: nothing says that a holder ever finishes.
- The checker's own requests, the tool router and the search for areas: they build a system message and one question
  and do not touch the conversation.
- `emit`, `log`, result blocks and references, usage numbers and their calibration: dropped.
- The texts of prompts, nudges, plan, status and objections are parameters of the world, made of what the source makes
  them of; the status does not tell a plan that waits for a confirmation apart, and the error of a tool that threw
  ends with its message.
- Blocks and references stored with a transcript.
- RoundTrip.StoreThenReplay: for turns without decided proposal cards and with non-empty call ids and call lists, since
  those are rewritten or skipped on purpose when read.
- Answering.AnswerQuestion: the conversation's title and the usage counters are not modelled, when the summary is
  written is left open (`History.MessageTable.Summarize`), and the replay is stated for transcripts within the row window.
- Canonical.CanonComplete: a number is its parts as ECMA-262 prints them, which negative zero and non-finite numbers do
  not have; strings are sequences of Unicode scalar values, so lone surrogates and the UTF-16 order of keys are not
  modelled.
- EditDistance.Distance: on Unicode scalar values where the host counts UTF-16 units.
- JSON parsing, UTF-8 decoding, the transport and the byte reader behind the stream; chunks are texts.
- Reply.ReplyCalls: a made-up id is any non-empty text.
- Instants beyond the range of Date (8.64e15 milliseconds either way).
- Periods.InPeriodIff: for runs of the years 0 to 9999; `Periods.BlurredPeriods` shows why no such test works beyond.
- `lastDay` of texts whose parts are not plain numbers.
- The list search of `isRemoteAllowed`, `normaliseIp`, `parseCidrs` and the choice of the peer address: a filter and a
  linear search around the two tests; dotted IPv4 tails inside IPv6 texts read as the hexadecimal prefix they begin
  with.
- LiveTurn.EveryRunKeeps: listeners do not call back into the turn, a turn has one emitter, and timers are modelled
  by what they do, at any moment.
- UniqueName.Folder.UniqueName: lower-casing is a parameter that keeps numbers apart, as
  `UniqueName.LeavingKeepsNumbers` says; the Unicode tables themselves and `safeFileName` are not modelled.
- Readings.ReadingCells: values are whole thousandths, so that rounding to three decimals is exact.
- `backup/api.ts` and `backup/state.ts`, proposals, tool rules, rendering, mail, permissions and data generators.

# Ownware: a verified model of its stateful core

Ownware runs agents behind a gateway and shows their work in chat clients and messaging channels.
This project models, in Dafny, the parts of it that are state machines or protocols, and proves
what they keep over whole runs:

- **The transcript replica.** A gateway numbers its events; a client receives them at least once,
  with drops, gaps, reconnects and authoritative restores, and has to show one transcript
  (`ChatModel`, `ChatReducer`, `ChatDelivery`, `ChatInvariant`, `ChatEvents`, `ChatRowIds`,
  `FirstFrame`, `ChatMeaning`, `Hydration`), while a stream loop with its own cursor and its own gap detector drives it
  (`StreamHook`, `StreamLoop`).
- **Evidence.** Paged receipts are collected (`EvidencePages`, with `Resources`) and projected by
  fail-closed selectors over unordered sets (`Bags`, `Projection`, `ProjectionRules`).
- **Pairing and the gate.** Codes, cooldowns, lockouts and approvals, in memory and in a file shared
  by two processes, and the gate that lets a direct message through (`Pairing`, `PairingRules`,
  `PairingStores`, `PairingGate`, `PairingRates`).
- **The channel pipeline.** Debouncing, approvals from the chat, live editing against
  collect-then-send, chunking and session keys (`Debouncing`, `Approvals`, `Delivery`, `Chunking`,
  `SessionKeys`).
- **The event-stream parser** of the client (`Sse`) and **the signal backtest** (`Backtest`).

`Common` and `Text` hold the shared helpers. Code that the repository writes as loops and field
updates is written as methods and classes here, each proved against a function of its inputs; the
lemmas are about those functions. `dafny verify dfyconfig.toml` checks everything.

## How the pieces are modelled

- Strings are sequences of characters; a missing wire field is the empty string, as `readString`
  returns it. Numbers that the source tests with `Number.isSafeInteger` are `Option<int>` with that
  test written out. Trimming, lower- and upper-casing of codes and replies cover ASCII letters.
- `ChatState` is a transcript (everything but `connection`) and a connection. Malformed events are
  kept as values and take the branches the source gives them.
- The stream loop runs over a script of connection attempts: what arrived, whether the connection
  failed, whether it was aborted, and what a restore returned. `seenPhase` in an attempt is the
  connection phase that the loop reads from a React ref, which may lag behind.
- Clocks are arguments, one reading per operation. File operations are atomic. The digest of a code
  is represented by the text that is hashed, so it is injective. Generated codes and salts are
  arguments. The gate awaits between looking a sender up and requesting a code, so a request is also
  a step of its own and the owner may act in between.
- Transports are a log of sends and edits; the visible messages are a function of it. Which sends
  return an id to the caller is an arbitrary property of the platform. Timers are armed deadlines.
- Prices, equity and results are reals; the backtest score is an arbitrary function of the window of
  rows seen so far.
- A restore that the loop accepts carries a number as `lastClosedTurnEndSeq`.

## Where the code does not give what one might expect

Each of these is a lemma: an exact condition where there is one, a concrete run otherwise.

- Gaps are held back only once something was delivered (`ChatDelivery.GapIsHeldIff`). In every
  reachable state `lastDeliveredSeq` equals `lastSeq` (`ChatInvariant.ReachableKeepsInv`), so this
  concerns cursor 0 only. There a frame that moves the client leaves it with a prefix of the log,
  whatever the log is, exactly when it is the observation numbered 1 (`FirstFrame.FirstFrameIff`, with `ChatDelivery.SecondEventFirst`): an observation further on, or a
  start frame that seeds a number, is taken and what it skipped is never shown. Every theorem about
  deliveries, replays and the loop therefore asks of a connection that meets cursor 0 that the first
  log event comes before any other frame that moves it, and asks nothing about order past 0.
- As long as callers keep off the reducer's own forms of ids, rows keep distinct ids exactly when no
  caller repeats an id in use and no row numbered 0 does (`ChatRowIds.ReachableIdsDistinctIff`, with
  `ChatRowIds.NumberZeroRepeatsId`).
- The whole invariant of the chat survives a restore exactly when the restored rows are well formed
  themselves (`Hydration.RestoredInvIff`).
- The hook's cursor leaves the reducer's on a heartbeat beyond a gap, on a control frame with a
  newer number of its own, on a start frame that seeds an empty replica with a number other than its
  own (`StreamHook.ReceiveAlignedIff`, `StreamHook.HeartbeatGapMisaligns`), and on a restore whose
  rows are refused, because the loop takes its number all the same (`StreamHook.RestoreAlignedIff`,
  `StreamHook.RefusedRestoreMisaligns`). `StreamLoop.LoopAlignedIff` gives the exact condition on a
  whole script.
- Exactly the transcripts whose rows are durable can come out of a restore
  (`Hydration.RestorableIff`).
- Pairing keys `channel:user` of two channels coincide iff one channel name continues the other past
  a colon (`Pairing.KeysClashIff`); exactly then approvals on one can answer someone on the other who
  was never paired (`PairingGate.UnpairedAnswerIff`).
- On the day a position is left, the tracked equity applies the open gain on top of the result
  already booked (`Backtest.ExitDayMarkIff`, with `Backtest.ExitDayMarkExample`).
- A chunk is empty iff its piece of the text, not being the last, is all white space
  (`Chunking.EmptyChunkIff`, with `Chunking.EmptyChunkExample`); a text without a white-space stretch
  above three fifths of the limit has none (`Chunking.NoLongBlankNoEmptyChunk`).
- Live editing ends like collect-then-send exactly when nothing was sent live, or the first live send
  returned an id and the reply is not empty (`Delivery.EndsAsChunksIff`). On a platform that returns
  no ids every fitting text stays as a message of its own (`Delivery.WithoutIdsTextsPileUp`, with
  `Delivery.PileUpExample`); an empty reply leaves one empty live message behind.
- Typing signals defeat the debouncer's cap exactly when one comes later than `maxWaitMs` after the
  first item (`Debouncing.DueInTimeIff`, `Debouncing.BumpsDelayForever`).
- A printed event comes back from the parser iff its name is one line that does not end in CR and
  none of its data lines does (`Sse.PrintParseIff`). The parser follows sections 9.2.5 and 9.2.6 of
  the WHATWG HTML Living Standard for LF and CRLF only; a lone CR does not end a line.

## Model

| member | source | states |
|---|---|---|
| ChatReducer.ApplyEvents | packages/ui/src/reducer.ts:59-63 | the loop over events computes the left fold of the reducer, the function all replica theorems are about |
| ChatDelivery.ObserveReadsTranscriptOnly | packages/ui/src/reducer.ts:137-441 | for every kind of event, what it does to the transcript does not depend on the connection |
| ChatDelivery.InOrderStepReadsTranscriptOnly | packages/ui/src/reducer.ts:108-135 | the next event in order has the same effect on equal transcripts whatever their connections, and moves the cursor to its number |
| ChatDelivery.ControlKeepsTranscriptIff | packages/ui/src/reducer.ts:445-518 | a control frame, well formed or not, leaves the transcript alone iff the cursor is past 0 or the frame seeds nothing; it never lowers the cursor |
| ChatDelivery.GapIsHeldIff | packages/ui/src/reducer.ts:111-124 | an event beyond the next number is held back with a resync request iff something was delivered before; otherwise it is taken and the cursor jumps |
| ChatDelivery.FirstFrameStepIff | packages/ui/src/reducer.ts:108-135 | at cursor 0 a delivered frame leaves the client with none or one of the log's events iff it does not move the cursor or is the first log event, or seeds 1 when the first log event shows nothing |
| FirstFrame.FirstFrameIff | packages/ui/src/reducer.ts:108-135 | at cursor 0 a frame leaves the client with some prefix of the log, for every log it can come from, iff it does not move the cursor or is the observation numbered 1 |
| ChatDelivery.SecondEventFirst | packages/ui/src/reducer.ts:108-135 | a new thread that gets event 2 before event 1 ends at cursor 2 with a transcript that is the fold of no log prefix |
| ChatDelivery.DeliveryExtendsPrefix | packages/ui/src/reducer.ts:97-135 | delivery in any order on a replica that holds a log prefix leaves a replica that holds an equal or longer prefix; a replica at cursor 0 needs the first log event before any other frame that moves it |
| ChatDelivery.DeliveryIsPrefixFold | packages/ui/src/reducer.ts:97-135 | for every reordering, repetition, drop and interleaving of control and malformed frames, the transcript is the fold of the contiguous log prefix ending at its cursor; from cursor 0, under that condition on the first frame |
| ChatDelivery.ReplayCatchesUp | packages/ui/src/reducer.ts:97-135 | replaying a stretch of the log from at or before the cursor, with any control and unnumbered frames in it, ends at the later of the cursor and the stretch's end, whatever the connection says; at cursor 0 no start frame may seed the client first |
| ChatDelivery.DeliveryThenReplayConverges | packages/ui/src/reducer.ts:97-135 | any such delivery followed by a replay from at or before its cursor, control and unnumbered frames included, yields the transcript of the whole log |
| ChatInvariant.StepKeepsInv | packages/ui/src/reducer.ts:97-441 | every event keeps the whole invariant: rows, pending lists, status and connection |
| ChatInvariant.ReachKeepsInv | packages/ui/src/reducer.ts:85-441 | from any state with the invariant, events and optimistic prompts in any order keep it |
| ChatInvariant.ReachableKeepsInv | packages/ui/src/reducer.ts:85-441 | every state reached by events and optimistic prompts satisfies the invariant: text parts spell the row's text and are coalesced, tool parts name distinct calls of their row, ids are distinct, heads and status agree with the pending lists, the expected number is the cursor plus one, at most 32 distinct unsupported types |
| ChatInvariant.ObserveRowsOk | packages/ui/src/reducer.ts:137-441 | every observation keeps each row's parts, text and calls consistent |
| ChatInvariant.ObservePendingOk | packages/ui/src/reducer.ts:263-421 | idle or error means nothing is pending, awaiting states have what they await, pending heads are the first entries, ids stay distinct |
| ChatInvariant.ObserveConnectionOk | packages/ui/src/reducer.ts:126-135 | the delivered number equals the cursor, the expected one follows it, unsupported types stay distinct and bounded |
| ChatInvariant.UpsertOk | packages/ui/src/reducer.ts:603-609 | replace-or-append keeps ids distinct, contains the item and adds nothing else |
| ChatInvariant.WithoutOk | packages/ui/src/reducer.ts:283-293 | answering removes exactly the answered request |
| ChatInvariant.AppendMessagePartOk | packages/ui/src/reducer.ts:703-716 | a part is merged with a neighbour of its kind, and the text grows by exactly the part's text |
| ChatInvariant.AppendToolPartOk | packages/ui/src/reducer.ts:718-723 | a tool part is added at most once and leaves the text alone |
| ChatInvariant.DeltaSplitDoesNotMatter | packages/ui/src/reducer.ts:157-167 | any way of cutting a text into deltas gives the rows of one delta with the whole text |
| ChatEvents.PromptShows | packages/ui/src/reducer.ts:138-155 | a prompt shows the first of its texts that is not empty, in place of the client's own row for it, and the chat streams without error |
| ChatEvents.OwnPromptShows | packages/ui/src/reducer.ts:85-95 | a prompt put there by the client is a row of its own with the caller's id or one of its position |
| ChatEvents.DeltaShows | packages/ui/src/reducer.ts:157-167 | a delta adds its text to the open reply, or to a new one, and to its last text part |
| ChatEvents.CompleteShows | packages/ui/src/reducer.ts:169-182 | a complete text counts only where no reply with text is last, and is then the reply's one text |
| ChatEvents.ThinkingShows | packages/ui/src/reducer.ts:183-194 | a thinking delta grows the reply's thinking by its text and leaves the visible text alone |
| ChatEvents.ToolStartShows | packages/ui/src/reducer.ts:195-217 | a start shows one running card with its fields, once per reply |
| ChatEvents.ToolProgressShows | packages/ui/src/reducer.ts:218-234 | progress is noted on the cards of a known call and nowhere else; an unknown call gets a running card marked partial |
| ChatEvents.ToolEndShows | packages/ui/src/reducer.ts:235-262 | an end gives the cards of a known call its status, result, error flag, duration and descriptor, keeps their name, input, progress and origin, and leaves every other call and row alone; an unknown call gets a finished card |
| ChatEvents.FinishedCallIsOneCard | packages/ui/src/reducer.ts:195-262 | a call that starts and then ends is one finished card at the end of the reply with the literal fields of both events |
| ChatEvents.ReachableCardsAreTold | packages/ui/src/reducer.ts:195-262 | in every reachable state a card runs exactly until its end is told, is failed iff told so, and has a result iff it ended |
| ChatEvents.ApprovalRequestShows | packages/ui/src/reducer.ts:263-282 | a request waits with its fields, defaults for what is missing and its hash only if it is one, in the place of one with its id |
| ChatEvents.ApprovalResponseShows | packages/ui/src/reducer.ts:283-294 | an answer takes away exactly its request; the status says what still waits |
| ChatEvents.InputRequestShows | packages/ui/src/reducer.ts:295-330 | a request for input waits iff none of its fields is missing; approvals keep precedence |
| ChatEvents.InputResponseShows | packages/ui/src/reducer.ts:331-344 | an answered input is taken away and the status says what still waits |
| ChatEvents.ActivationShows | packages/ui/src/reducer.ts:345-385 | an activation is shown with its fields iff its ids, digests and numbers have the right form |
| ChatEvents.TurnEndShows | packages/ui/src/reducer.ts:386-422 | which stop reasons end the turn, which let it go on, and that any other asks for a restore |
| ChatEvents.FailureShows | packages/ui/src/reducer.ts:423-432 | an error or interruption closes the reply, clears what waits and shows its message |
| ChatEvents.SessionAndOthersShow | packages/ui/src/reducer.ts:433-441 | a session names its model; any other event is only remembered as unsupported, 32 of them at most |
| ChatEvents.StartShows | packages/ui/src/reducer.ts:445-463 | a start frame starts a replay at the client's cursor or seeds one at 0; a mismatch asks for a restore, a malformed one is remembered |
| ChatEvents.ReplayCompleteShows | packages/ui/src/reducer.ts:465-498 | the end of a replay is believed iff it is well formed and ends at the client's cursor |
| ChatEvents.ShutdownShows | packages/ui/src/reducer.ts:500-518 | a shutdown for the gateway's sake means reconnecting, one for a slow client a restore, and done closes |
| ChatEvents.OutOfOrderShows | packages/ui/src/reducer.ts:108-124 | an observation without a usable number or with one taken before changes nothing; one past a gap asks for a restore |
| ChatRowIds.ReachableIdsDistinctIff | packages/ui/src/reducer.ts:85-164 | over every run whose callers leave the ids of the reducer's own forms to it, no two rows share an id at any moment iff each caller's id, and each row numbered 0, is new where it is added |
| ChatRowIds.ReachableIdsAreDistinct | packages/ui/src/reducer.ts:85-164 | so they do in every run of prompts without a caller's id and events in which no row-adding observation is numbered 0 |
| ChatRowIds.NumberZeroRepeatsId | packages/ui/src/reducer.ts:524-544 | two replies numbered 0 with an error between them share an id |
| ChatMeaning.PromptIsReconciled | packages/ui/src/reducer.ts:566-580 | a prompt shown optimistically and then observed is one row with the stream's id, not two |
| ChatMeaning.RequestThenResponse | packages/ui/src/reducer.ts:263-293 | a new permission request joins the end of the queue and its response restores exactly the queue before it |
| ChatMeaning.TurnBuildsReply | packages/ui/src/reducer.ts:138-167 | a prompt, deltas and a stop fold to the prompt row and one closed reply carrying the whole text, idle and without error |
| Hydration.NormalizeTools | packages/ui/src/hydration.ts:47-57 | the loop refuses a row iff one of its tools is malformed and otherwise yields its calls and whether parts can refer to them |
| Hydration.HydrateChatState | packages/ui/src/hydration.ts:36-88 | the row loop either restores the rows with the given cursor or, on any refused row, leaves the state as it was |
| Hydration.RestoredRowsAre | packages/ui/src/hydration.ts:36-88 | a restore takes its rows iff each is whole, and shows exactly those of users and of the assistant, in order, each with its own id, content, cards and parts |
| Hydration.RestoreIs | packages/ui/src/hydration.ts:36-88 | a taken restore leaves its rows, idle at its number with nothing pending and a replay to follow; any other changes nothing |
| Hydration.RowRoundTrip | packages/ui/src/hydration.ts:111-143 | a durable row printed and restored is the same row |
| Hydration.RestorableIff | packages/ui/src/hydration.ts:90-161 | a list of rows comes out of some restore iff every row is durable |
| Hydration.RestoredKeepsInvariants | packages/ui/src/hydration.ts:36-88 | after an accepted restore, for all later events and prompts, pending requests, status and connection stay consistent and every row added since the restore is well formed |
| Hydration.RestoredInvIff | packages/ui/src/hydration.ts:36-88 | after an accepted restore the whole chat invariant holds now and after all later events and prompts iff the restored rows are well formed |
| Hydration.HydrationForgetsThePast | packages/ui/src/hydration.ts:36-88 | after an accepted restore, for all later events, what is shown does not depend on the earlier state |
| Hydration.ResyncConverges | packages/ui/src/hydration.ts:36-88 | a client in any state that restores at a quiet point and replays from at or before it, with any control and unnumbered frames in the replay, shows what an uninterrupted client shows |
| Hydration.HydratedDeliveryIsPrefixFold | packages/ui/src/hydration.ts:36-88 | under any delivery a restored client shows a log prefix at least as long as the restored one; after a restore at number 0 the first frame that moves it must be the first log event |
| StreamHook.ReceiveAlignedIff | packages/react/src/useOwnwareAgent.ts:439-447 | one stream event keeps hook cursor and reducer cursor equal iff a condition on the cursor and the frame's own fields holds |
| StreamHook.RestoreAlignedIff | packages/react/src/useOwnwareAgent.ts:481-482 | a restore keeps the cursors equal iff its rows are accepted or it names the cursor in force |
| StreamHook.RefusedRestoreMisaligns | packages/react/src/useOwnwareAgent.ts:481-482 | a restore with one unusable row leaves the chat alone and moves the hook's cursor |
| StreamHook.DetectorsAgree | packages/react/src/useOwnwareAgent.ts:439-454 | for a fresh run observation the hook asks for a restore iff the reducer lands in `resync_required` |
| StreamHook.TerminalIs | packages/react/src/useOwnwareAgent.ts:829-854 | which events end a run and which stop reasons are unknown, by name; done is the one terminal control frame |
| StreamHook.TerminalMeansOver | packages/react/src/useOwnwareAgent.ts:829-834 | with nothing pending the loop takes an observation for terminal exactly when the reducer leaves the chat idle or failed |
| StreamHook.HeartbeatGapMisaligns | packages/react/src/useOwnwareAgent.ts:829-854 | a heartbeat beyond a gap moves the hook's cursor and not the reducer's |
| StreamHook.AlignedThroughoutIff | packages/react/src/useOwnwareAgent.ts:422-510 | over every interleaving of events, own frames and restores the two cursors are equal after every step iff each frame is aligned where it is read and each restore is accepted or names the current cursor |
| StreamHook.FoldEvent | packages/react/src/useOwnwareAgent.ts:439-454 | one pass of the inner loop moves state and cursor together and reports exactly the terminal and restore conditions |
| StreamHook.ReadingIsFirstStop | packages/react/src/useOwnwareAgent.ts:435-458 | a connection is read up to and including its first terminal event or request to restore, and to the end if there is none |
| StreamHook.ReadAttempt | packages/react/src/useOwnwareAgent.ts:431-461 | the inner loop folds exactly the events of that reading and reports whether the last one was terminal or asked for a restore; none before it did either |
| StreamHook.SettleAttempt | packages/react/src/useOwnwareAgent.ts:459-505 | after a connection the loop dispatches the own frames and the restore its outcome calls for, in order, and ends or goes round again |
| StreamHook.StartStream | packages/react/src/useOwnwareAgent.ts:422-510 | the loop takes exactly the steps the script of attempts dictates and ends with their outcome |
| StreamLoop.OutcomeIsExplained | packages/react/src/useOwnwareAgent.ts:462-505 | the loop's outcome is explained by the first attempt that does not go round again: abort, terminal event, failed restore, other run, ended run |
| StreamLoop.LoopAlignedIff | packages/react/src/useOwnwareAgent.ts:422-510 | over every script the loop's cursor equals the reducer's after every step, and at the end, iff every frame read is aligned where it is read and every restore used is accepted or names the current cursor |
| StreamLoop.LoopSettles | packages/react/src/useOwnwareAgent.ts:448-505 | in every run of the loop each request to restore is directly followed by a restore, save one the end overtakes; completion follows a terminal event and closes the connection |
| StreamLoop.LoopShowsLogPrefix | packages/react/src/useOwnwareAgent.ts:422-510 | from any cursor, 0 included: if connections deliver the log in any order with drops and repeats, to a chat at cursor 0 its first event before any other that moves it, and restores are of log prefixes, the chat shows a log prefix at every moment of every run; a failed restore shows its error on top of one |
| StreamLoop.ServedLogIsRead | packages/react/src/useOwnwareAgent.ts:435-458 | a connection whose run observations are the log from at or before the cursor, with passed-over frames anywhere, is read exactly up to the terminal event of the log |
| StreamLoop.ServesInTurnIff | packages/react/src/useOwnwareAgent.ts:422-510 | while the cursors stay together, what the loop theorems ask of the connections is a condition on the script and the starting cursor alone |
| StreamLoop.PastZeroServesInTurn | packages/react/src/useOwnwareAgent.ts:422-510 | for a chat past cursor 0 whose restores are past 0, connections that deliver the log in any order at all satisfy it |
| StreamLoop.LoopCompletes | packages/react/src/useOwnwareAgent.ts:422-510 | from any cursor, 0 included: after any attempts that keep the cursors together, one connection whose run observations are the log from at or before the cursor, with start frames, replay marks and unnumbered frames anywhere in it, completes the loop with exactly the whole log shown |
| StreamLoop.LoopCompletesTurn | packages/react/src/useOwnwareAgent.ts:422-510 | the same for a log of one turn by name: it ends with end_turn, and before that nothing fails and every stop goes on |
| StreamLoop.GatewayServesRest | packages/cortex/src/gateway/handlers/agent-events.ts:685-721 | what the gateway sends, a start frame, the backlog, its end mark and the live tail, is such a connection; a start frame that echoes cursor 0 seeds nothing |
| EvidencePages.LoadAllPages | packages/react/src/useOwnwareAgent.ts:802-827 | for every server: at most 1000 calls over distinct cursors, ready only at a null cursor with the pages concatenated in order, partial otherwise |
| Pairing.KeysClashIff | adapters/shuttle/src/pairing.ts:74-76 | two channels share a key for some users iff one name continues the other past a colon |
| Pairing.KeyIdentifies | adapters/shuttle/src/pairing.ts:74-76 | away from such names a key determines channel and user |
| Pairing.GeneratedCodeIsNormal | adapters/shuttle/src/pairing.ts:129-133 | a generated code survives the trimming and upper-casing of what the owner types |
| PairingRules.AlphabetIs | adapters/shuttle/src/pairing.ts:30-31 | the letters and digits that codes are made of |
| PairingRules.RequestIs | adapters/shuttle/src/pairing.ts:91-102 | a request within the cooldown is refused and changes nothing; any other keeps the live entries, adds one with its expiry and notes the time |
| PairingRules.ApproveIs | adapters/shuttle/src/pairing.ts:104-126 | a locked channel answers so; a matching live code approves its user and clears the count; any other counts and locks at the limit |
| Pairing.MintedCodeRedeemsOnce | adapters/shuttle/src/pairing.ts:91-126 | a minted code typed in time on an unlocked channel approves its user, clears the failures, and fails when entered again directly after; over whole runs see `PairingGate.RedeemedOnce` |
| PairingStores.ApplyUpToSalt | adapters/shuttle/src/pairing.ts:78-126 | every operation gives the same result under two salts and keeps the stores equal up to salt |
| PairingStores.ResultsIgnoreSalt | adapters/shuttle/src/pairing.ts:78-126 | over whole runs the salt is invisible |
| PairingStores.InMemoryPairingStore.PurgeExpired | adapters/shuttle/src/pairing.ts:82-85 | the loop deletes exactly the expired entries |
| PairingStores.InMemoryPairingStore.IsApproved | adapters/shuttle/src/pairing.ts:87-89 | membership of the key in the approved set, changing nothing |
| PairingStores.InMemoryPairingStore.RequestCode | adapters/shuttle/src/pairing.ts:91-102 | the fields after the call and the result are those of the pairing transition, cooldown refusal included |
| PairingStores.InMemoryPairingStore.ApproveCode | adapters/shuttle/src/pairing.ts:104-126 | the fields after the call and the result are those of the approval transition, lockout and failure counting included |
| PairingStores.FilePairingStore.IsApproved | adapters/shuttle/src/pairing.ts:226-228 | what the loaded file says, absent or corrupt files approving nobody; the file is untouched |
| PairingStores.FilePairingStore.RequestCode | adapters/shuttle/src/pairing.ts:230-243 | result and file are those of the operation on the file: the next state saved under the loaded salt when a code is minted, the file untouched on cooldown |
| PairingStores.FilePairingStore.ApproveCode | adapters/shuttle/src/pairing.ts:245-273 | result and file are those of the operation on the file: the next state saved with the key listed once more only if new, the file untouched while locked |
| PairingStores.FileStepAgrees | adapters/shuttle/src/pairing.ts:185-273 | one operation on the file returns what the in-memory store returns, they agree afterwards, and a readable file keeps its salt |
| PairingStores.FileActsAsOneStore | adapters/shuttle/src/pairing.ts:185-273 | the results of any calls of two processes on one file are those of one in-memory store on the same timed operations, and file and store agree afterwards |
| PairingStores.SaltIsFixed | adapters/shuttle/src/pairing.ts:185-273 | between any two moments of a run the salt stays what it is once the file is readable, and the approved list stays duplicate-free |
| PairingStores.TwoProcessesActAsOneStore | adapters/shuttle/src/pairing.ts:185-273 | the two processes and the in-memory store as objects: both lists of results are those of the store transitions on the calls, and file and store end in the states these lead to |
| PairingGate.PolicyGate.AskStore | adapters/shuttle/src/gate.ts:92-102 | the pairing step on the store object: pass if approved, else a code or the already-pending text |
| PairingGate.PolicyGate.DmAccess | adapters/shuttle/src/gate.ts:84-105 | the access decision for direct messages under open, pairing and allowlist policies, with and without a store |
| PairingGate.PolicyGate.Evaluate | adapters/shuttle/src/gate.ts:73-119 | the whole decision and the store's next state, handoff, group, direct-message and filter stages in order |
| PairingGate.AnswersIff | adapters/shuttle/src/gate.ts:73-119 | for every policy, message and store the agent answers iff the thread is not paused, the message passes its line (open, listed sender, approved key; all messages, mention) and the filter does not object |
| PairingGate.RefusalIs | adapters/shuttle/src/gate.ts:73-119 | otherwise a person takes over, a code is asked for, or the message is dropped for the reason of the stage that stopped it; the store changes only when a code is asked for |
| PairingGate.CodeReplyIs | adapters/shuttle/src/gate.ts:60-103 | what an unknown sender is told: the code with the command that approves it, or, on cooldown, that one is pending |
| PairingGate.PendingWasMinted | adapters/shuttle/src/gate.ts:84-105 | in every run each pending entry was minted by an earlier message and not consumed since |
| PairingGate.RedemptionHasMint | adapters/shuttle/src/pairing.ts:104-126 | each successful approval consumes a code minted earlier on that channel, before its expiry, for the user it approves |
| PairingGate.RedeemedOnce | adapters/shuttle/src/pairing.ts:111-116 | no minted code is consumed by two approvals |
| PairingGate.ApprovalsOnlyGrow | adapters/shuttle/src/pairing.ts:87-126 | approvals are never withdrawn |
| PairingGate.ApprovedWasRedeemed | adapters/shuttle/src/pairing.ts:104-116 | every approved key was put there by a redemption |
| PairingGate.AnsweredDmWasPaired | adapters/shuttle/src/gate.ts:84-105 | an answered direct message on a pairing line has an earlier mint for that sender and channel and its one redemption in time on an unlocked channel, given that no channel the owner approves on clashes with it |
| PairingGate.AnsweredIffPaired | adapters/shuttle/src/gate.ts:73-119 | with no clash, a direct message on a pairing line is answered iff its sender was paired before, the thread is not paused and the filter does not object |
| PairingGate.SharedKeyAnswersUnpaired | adapters/shuttle/src/gate.ts:92-92 | for every two channels and senders that share a key, pairing one answers the other, who was never paired |
| PairingGate.UnpairedAnswerIff | adapters/shuttle/src/gate.ts:84-105 | approvals on one channel can let someone through on another without pairing iff the two channel names clash |
| PairingGate.FileGateAgrees | adapters/shuttle/src/gate.ts:73-119 | a gate on the shared file and the owner's separate process show, step by step, what they would on one in-memory store, also when the owner acts between the gate's look-up and its request |
| PairingGate.FileAnsweredIffPaired | adapters/shuttle/src/gate.ts:73-119 | on the shared file, too, a direct message on a pairing line is answered iff its sender was paired before and nothing else holds it back |
| PairingGate.JudgeIsLookThenAsk | adapters/shuttle/src/gate.ts:92-102 | a judgement that mints or refuses a code is a look-up that changes nothing followed by the request as a step of its own |
| PairingRates.StepCounts | adapters/shuttle/src/pairing.ts:118-125 | what one step does to a channel's counter and lock |
| PairingRates.WrongCodesAccount | adapters/shuttle/src/pairing.ts:104-126 | without a success, wrong codes plus the starting counter are the counter plus maxFailed per lock, and the locks took their full time since the first wrong code |
| PairingRates.WrongCodesAreBounded | adapters/shuttle/src/pairing.ts:104-126 | without a success, the wrong codes evaluated by a time are at most maxFailed per lockout period started since the first one, and the counter stays below maxFailed |
| PairingRates.ReachableIsSpaced | adapters/shuttle/src/pairing.ts:91-102 | in every reachable store two pending codes of one user were minted at least a cooldown apart |
| PairingRates.OpenCodesAreFew | adapters/shuttle/src/pairing.ts:82-102 | at any instant one user has at most ceil(codeTtlMs / cooldownMs) unexpired codes on a channel |
| Backtest.HoldPosition | profiles/ownware-trade-research/tools/backtest.ts:118-174 | the holding branch over local variables computes the holding day: exit check, trade, equity tracking |
| Backtest.EntrySignalIs | profiles/ownware-trade-research/tools/backtest.ts:100-114 | the entry rule in scores and prices |
| Backtest.ExitSignalIs | profiles/ownware-trade-research/tools/backtest.ts:118-140 | the exit rule: the stop as a condition on the close on each side, then the score |
| Backtest.DayIsTracked | profiles/ownware-trade-research/tools/backtest.ts:163-173 | exactly the days that start in a position are tracked, at the booked equity scaled by the open result |
| Backtest.RunBacktest | profiles/ownware-trade-research/tools/backtest.ts:63-196 | the day loop and the closing step compute the run whose properties follow, entries, exits, prices and results included |
| Backtest.DaysReadOnlyThePast | profiles/ownware-trade-research/tools/backtest.ts:87-98 | the first days of a longer history give the book of the shorter one |
| Backtest.NeverLooksAhead | profiles/ownware-trade-research/tools/backtest.ts:87-196 | trades closed before the end of data on the first n rows are a prefix of those on all rows |
| Backtest.TradesNeverOverlap | profiles/ownware-trade-research/tools/backtest.ts:100-196 | each trade is entered strictly after the previous exit, and its holding days are the distance of its indices |
| Backtest.EquityIsCompoundedTrades | profiles/ownware-trade-research/tools/backtest.ts:146-184 | final equity is 10000 times the product of one plus each result |
| Backtest.DrawdownIsWorst | profiles/ownware-trade-research/tools/backtest.ts:163-173 | no tracked day falls further below its running peak, as a part of that peak, than the reported drawdown, which is zero or attained |
| Backtest.ExitDayMarkIff | profiles/ownware-trade-research/tools/backtest.ts:146-167 | on every day a position is left, the tracked equity equals the booked one iff the close is the entry price, the trade loses everything or no equity was left |
| Backtest.ExitDayMarkExample | profiles/ownware-trade-research/tools/backtest.ts:146-167 | a run over 202 rows that books 20000 and tracks 40000 |
| Backtest.TradesAreFaithful | profiles/ownware-trade-research/tools/backtest.ts:100-196 | every reported trade, in scores and prices alone: long at or above the threshold and short at or below minus it, entered at the close with the fee, left on the first day whose close hits the stop or whose score flips or at the end, with the result of the two prices |
| Backtest.NoSignalIsMissed | profiles/ownware-trade-research/tools/backtest.ts:85-114 | every row from 200 and the lookback on whose score calls for an entry lies within a reported trade, and no trade starts before |
| Backtest.TradesAreDetermined | profiles/ownware-trade-research/tools/backtest.ts:63-196 | a list is the run's list of trades iff it is ordered, each element is such a trade, and no score from row 200 and the lookback on is missed |
| Chunking.ChunkText | adapters/shuttle/src/delivery.ts:79-97 | the loop terminates and computes the chunks the lemmas below describe |
| Chunking.CutIsPreferred | adapters/shuttle/src/delivery.ts:86-91 | a cut follows the last late newline, else the last late space, else the limit |
| Chunking.EmptyChunkIff | adapters/shuttle/src/delivery.ts:85-95 | a text yields an empty chunk iff one of its pieces but the last is all white space |
| Chunking.NoLongBlankNoEmptyChunk | adapters/shuttle/src/delivery.ts:85-95 | a text without a white-space stretch longer than three fifths of the limit yields no empty chunk |
| Chunking.BlankWindowEmptyChunk | adapters/shuttle/src/delivery.ts:85-95 | a longer text that starts with white space of the limit's length yields an empty first chunk |
| Chunking.EmptyChunkExample | adapters/shuttle/src/delivery.ts:85-95 | two spaces and a letter at a limit of two give an empty chunk and the letter |
| Chunking.ChunksAreTrimmedPieces | adapters/shuttle/src/delivery.ts:79-97 | the pieces are nonempty, fit and concatenate to the text; chunks are the pieces without trailing white space, the last one whole |
| Chunking.ChunksFit | adapters/shuttle/src/delivery.ts:79-97 | every chunk fits the limit |
| Chunking.ChunksKeepInk | adapters/shuttle/src/delivery.ts:79-97 | joined chunks equal the text once white space is erased from both |
| Chunking.ChunksAreFew | adapters/shuttle/src/delivery.ts:89-91 | n chunks satisfy 3 maxChars (n - 1) <= 5 length |
| Delivery.ResolvedModeIsSupported | adapters/shuttle/src/delivery.ts:65-73 | the effective mode needs no missing capability, is the requested one when nothing is missing, and is stable |
| Delivery.SettingsAre | adapters/shuttle/src/delivery.ts:109-111 | a policy's own limit and throttle count; otherwise the platform's limit and 60 characters |
| Delivery.EditLast | adapters/shuttle/src/delivery.ts:155-155 | editing the newest message changes that one alone |
| Delivery.ShowLive | adapters/shuttle/src/delivery.ts:133-145 | one delta opens the live message, or leaves a message behind when its send returns no id, or re-edits the live one, keeping it a fitting prefix, the edits throttled, and what is shown less than a throttle behind |
| Delivery.SendAll | adapters/shuttle/src/delivery.ts:161-164 | the transport sends exactly one message per chunk, in order, and the ids that come back are recorded |
| Delivery.Consume | adapters/shuttle/src/delivery.ts:118-149 | the stream loop accumulates the reply or stops at the first error; every fitting text is a message of its own until a send returns an id, which makes the live message; that one lags every fitting beginning by less than the throttle |
| Delivery.Finish | adapters/shuttle/src/delivery.ts:151-165 | after the stream come exactly the final edit of the live message, if one is open, and one message per remaining chunk; the visible messages are then the chunks |
| Delivery.Deliver | adapters/shuttle/src/delivery.ts:103-168 | in every mode and for every pattern of returned ids the acts of an error-free reply are determined: the live sends without id, the acts on the live message, and the closing acts that end it as the chunks; before the closing acts only fitting prefixes are shown, the live message keeps up, and edits times throttle stay within the length; an error ends in the warning |
| Delivery.DeliveredShows | adapters/shuttle/src/delivery.ts:103-168 | the person then sees the live texts whose sends returned no id, followed by the chunks, and the result lists exactly the returned ids of the new messages |
| Delivery.EndsAsChunksIff | adapters/shuttle/src/delivery.ts:132-165 | a delivered reply ends as exactly its chunks iff nothing was sent live, or the first live send returned an id and the reply is not empty |
| Delivery.WithoutIdsTextsPileUp | adapters/shuttle/src/delivery.ts:132-165 | on a platform that returns no ids every fitting text stays as a message of its own before the chunks |
| Delivery.PileUpExample | adapters/shuttle/src/delivery.ts:132-165 | two deltas on such a platform leave three messages |
| Sse.HandleLine | packages/client/src/sse.ts:34-59 | one line updates name and data lines and dispatches on a blank one |
| Sse.FieldLineIs | packages/client/src/sse.ts:51-58 | a line with a colon sets the name, adds a data line or does nothing; its text loses one leading space if it has one |
| Sse.BareLineIs | packages/client/src/sse.ts:53-58 | a line without a colon is a field with empty text |
| Sse.BlankLineIs | packages/client/src/sse.ts:34-50 | a blank line hands over the joined data lines, if any, and starts an event named message |
| Sse.OtherLineIs | packages/client/src/sse.ts:34-58 | any other line is read without its final CR and hands over nothing |
| Sse.DrainBuffer | packages/client/src/sse.ts:31-60 | the inner loop handles every complete line and leaves the unfinished one in the buffer |
| Sse.ParseSseFrames | packages/client/src/sse.ts:15-69 | the frames are those of the whole text, however it was cut into reads |
| Sse.LinesConcat | packages/client/src/sse.ts:28-33 | lines of a concatenation are the lines of the first text, then those of its rest with the second |
| Sse.PrintParseIff | packages/client/src/sse.ts:31-60 | printing and parsing returns the frame iff its name is one line that does not end in CR and no data line ends in CR, for all names and data |
| Sse.PrintedFramesParse | packages/client/src/sse.ts:15-69 | printed frames followed by an unfinished event parse to exactly those frames |
| Sse.NoBlankNoFrame | packages/client/src/sse.ts:36-50 | without a blank line nothing is dispatched |
| Debouncing.Debouncer.Push | adapters/shuttle/src/debouncer.ts:36-50 | buffers, timers and deliveries after the call are those of the push transition, flush on the cap included |
| Debouncing.Debouncer.Bump | adapters/shuttle/src/debouncer.ts:53-58 | a bump re-arms the key's timer and nothing else |
| Debouncing.Debouncer.Flush | adapters/shuttle/src/debouncer.ts:61-67 | a flush delivers the buffer as one batch and clears its timer |
| Debouncing.Debouncer.Fire | adapters/shuttle/src/debouncer.ts:45-47 | a fired timer is disarmed and flushes its key |
| Debouncing.RunSound | adapters/shuttle/src/debouncer.ts:36-67 | in every run each buffered key has exactly one armed timer, each timer a buffered key, and no buffer or batch is empty |
| Debouncing.QuietPeriod | adapters/shuttle/src/debouncer.ts:36-58 | in every run a waiting key's timer is due exactly debounceMs after its last push or bump |
| Debouncing.FirstAtIsOldest | adapters/shuttle/src/debouncer.ts:36-50 | the time a batch is measured from is that of the oldest push that still waits |
| Debouncing.StepDelivers | adapters/shuttle/src/debouncer.ts:36-67 | a timer, a flush, or a push that finds the first item maxWaitMs old hands over everything that waits, the pushed item included |
| Debouncing.StepDeliversNothing | adapters/shuttle/src/debouncer.ts:36-67 | nothing else hands anything over |
| Debouncing.TimerLeavesAfterQuiet | adapters/shuttle/src/debouncer.ts:45-47 | a batch that leaves by a timer that is not early leaves a full quiet period after the key's last activity |
| Debouncing.ItemsAreConserved | adapters/shuttle/src/debouncer.ts:36-67 | per key, delivered batches followed by the buffer are the pushed items in order |
| Debouncing.DueInTimeIff | adapters/shuttle/src/debouncer.ts:36-58 | in every run a key's timer is due within maxWaitMs + debounceMs of its first item at every moment iff every bump of the key comes no later than maxWaitMs after that item |
| Debouncing.TimerIsDueInTime | adapters/shuttle/src/debouncer.ts:36-58 | with such bumps the timer keeps that bound after every prefix of the run |
| Debouncing.BatchesLeaveOnTime | adapters/shuttle/src/debouncer.ts:36-67 | with such bumps, if time does not pass an armed deadline, every batch leaves within that bound |
| Debouncing.NothingWaitsTooLong | adapters/shuttle/src/debouncer.ts:36-67 | with such bumps and no timer overdue, no item still waits past that bound |
| Debouncing.BumpsDelayForever | adapters/shuttle/src/debouncer.ts:53-58 | with later bumps the first item can wait any number of quiet periods |
| Approvals.ApprovalDesk.Park | adapters/shuttle/src/adapter.ts:273-291 | a permission event appends an entry with its expiry to its chat's queue |
| Approvals.ApprovalDesk.End | adapters/shuttle/src/adapter.ts:292-317 | a terminal event forgets its chat's queue |
| Approvals.ApprovalDesk.ShiftExpired | adapters/shuttle/src/adapter.ts:157-158 | the loop drops the expired head of the queue |
| Approvals.ApprovalDesk.Intercept | adapters/shuttle/src/adapter.ts:151-209 | the queue and the decisions after a reply are those of the reply transition; the message is consumed iff a live entry waits |
| Approvals.RepliesAre | adapters/shuttle/src/adapter.ts:72-74 | which words approve and which deny, and that none does both |
| Approvals.ConsumesIs | adapters/shuttle/src/adapter.ts:151-163 | a reply is consumed iff some entry of its chat has not expired |
| Approvals.DropExpiredIsComplete | adapters/shuttle/src/adapter.ts:157-162 | in a sorted queue dropping the expired prefix removes every expired entry and no other |
| Approvals.QueuesStaySorted | adapters/shuttle/src/adapter.ts:278-286 | with one ttl and a clock that does not go back every queue stays sorted by expiry |
| Approvals.DecisionsAreInTime | adapters/shuttle/src/adapter.ts:151-209 | no decision at or after its entry's expiry |
| Approvals.LineFollowsArrival | adapters/shuttle/src/adapter.ts:151-209 | per chat, what was decided followed by what waits is a subsequence of what arrived |
| Approvals.DecisionsFollowArrival | adapters/shuttle/src/adapter.ts:151-209 | decisions follow arrival order in their own chat; with distinct ids none is decided twice or waits after its decision |
| Approvals.DecisionsComeFromReplies | adapters/shuttle/src/adapter.ts:164-184 | every decision repeats what a reply in that chat said at that moment |
| Approvals.ReplyAnswersOldestLive | adapters/shuttle/src/adapter.ts:157-184 | a reply decides iff it says yes or no and an entry is live; it then answers the oldest live one and leaves exactly those behind it |
| SessionKeys.PartIsIdempotent | adapters/shuttle/src/session-key.ts:28-30 | sanitising twice is sanitising once |
| SessionKeys.PartReads | adapters/shuttle/src/session-key.ts:28-30 | text without separators stays and each run of them is one underscore |
| SessionKeys.KeyIs | adapters/shuttle/src/session-key.ts:36-54 | the text of a key, part by part: a thread when there is one, a user only outside direct messages and when asked for |
| SessionKeys.SessionKey | adapters/shuttle/src/session-key.ts:36-54 | a key is built iff the required parts are not blank, with thread and user appended when folded in |
| SessionKeys.ParseSessionKey | adapters/shuttle/src/session-key.ts:75-95 | the loop over marker and value pairs computes the parse, any malformed text giving none |
| SessionKeys.ParseOfKey | adapters/shuttle/src/session-key.ts:75-95 | parsing a produced key returns exactly the sanitised parts, thread and user present iff folded in |
| SessionKeys.RebuildReturnsKey | adapters/shuttle/src/session-key.ts:36-54 | rebuilding from the parse returns the same key |
| SessionKeys.SameKeyIff | adapters/shuttle/src/session-key.ts:36-54 | two conversations share a key iff their sanitised parts agree |
| SessionKeys.IsProducedIff | adapters/shuttle/src/session-key.ts:57-95 | the produced keys are exactly the texts that parse to complete parts and rebuild to themselves |
| SessionKeys.PrefixMatchesIff | adapters/shuttle/src/session-key.ts:66-68 | prefix and delimiter match a key iff sanitised profile and channel agree |
| Bags.HasDuplicateIdentity | packages/ui/src/projection.ts:1063-1078 | one pass with two sets finds a repeated id or number iff there is one |
| Bags.DupIsBagProperty | packages/ui/src/projection.ts:1063-1078 | having a repeated identity depends only on the bag of receipts |
| Projection.FindObservedVersion | packages/ui/src/projection.ts:85-113 | the loop finds the observed version of a capability |
| Projection.ObservedIsHighest | packages/ui/src/projection.ts:85-113 | that version is present and the highest published |
| Projection.CapabilityOrderDoesNotMatter | packages/ui/src/projection.ts:85-113 | support is the same for every order of published capabilities |
| ProjectionRules.UnreadyIs | packages/ui/src/projection.ts:590-606 | a resource that is not ready blocks in its own state with its own reason |
| ProjectionRules.SupportIs | packages/ui/src/projection.ts:85-113 | supported iff the set is sound and the newest published version reaches the minimum; otherwise the first thing that is wrong |
| Projection.CheckRanks | packages/ui/src/projection.ts:316-375 | the loop accepts receipts iff consequences never fall and all name one effect |
| Projection.EffectOrderDoesNotMatter | packages/ui/src/projection.ts:316-375 | the tool effect is the same for every permutation of the receipts |
| Projection.ObservedEffectIsLatestAndGravest | packages/ui/src/projection.ts:316-375 | an observed effect carries the highest sequence and the highest consequence of its call, one effect id throughout |
| Projection.ConfirmedMeansObserved | packages/ui/src/projection.ts:883-917 | a reported effect is confirmed iff an effect observer confirmed it with authority |
| ProjectionRules.ToolEffectIs | packages/ui/src/projection.ts:316-375 | the tool effect is blocked by the first thing missing or wrong, not observed, or the last receipt of a call whose receipts speak of one effect and never of a lesser consequence later |
| ProjectionRules.SoundEffectIs | packages/ui/src/projection.ts:883-917 | which effect receipts are believed: complete, with a consequence that kind and observer may claim |
| Projection.EgressOrderDoesNotMatter | packages/ui/src/projection.ts:393-431 | egress evidence is order independent and, when ready, is all receipts in sequence order |
| ProjectionRules.EgressIs | packages/ui/src/projection.ts:393-431 | egress is shown iff both capabilities, snapshot and receipts are there and sound, with the run's mode; otherwise the first thing wrong |
| Projection.SkillOrderDoesNotMatter | packages/ui/src/projection.ts:446-478 | skill placement is order independent |
| ProjectionRules.SkillPlacementIs | packages/ui/src/projection.ts:446-478 | skill placement is shown iff capability and receipts are there and sound: all receipts in order and whether there are any |
| Projection.ReversalOrderDoesNotMatter | packages/ui/src/projection.ts:506-584 | reversal, with the newest receipt it shows, is independent of the order of offers and of receipts |
| Projection.EnabledIff | packages/ui/src/projection.ts:506-584 | a reversal is enabled for an offer iff both capabilities are supported, both resources are ready and sound, run and offer are named, the time is valid and the offer is an available, unexpired one of that id without receipts |
| ProjectionRules.ReversalIs | packages/ui/src/projection.ts:506-584 | for a published offer: blocked by the first thing missing, malformed or in conflict, else the offer with its last receipt, disabled for its reason or enabled |
| ProjectionRules.NoOfferIs | packages/ui/src/projection.ts:506-540 | without an offer of that id the view says so, once the evidence is sound |
| Projection.EnabledHasNoReceipt | packages/ui/src/projection.ts:540-583 | an enabled reversal shows no receipt |
| Projection.LatestReceiptIsNewest | packages/ui/src/projection.ts:540-562 | a disabled reversal with receipts shows the one with the highest sequence, whose outcome is the offer's status |
| Projection.EnabledEarlier | packages/ui/src/projection.ts:506-584 | what is enabled at a time was enabled at every earlier valid time |

## Left out

- HTTP calls and field-by-field wire guards of `packages/client/src/client.ts`: one reading settles them.
- React state, refs and effects around the stream loop; backoff delays; capability negotiation and model listing.
- Real timers, the file system, JSON text, SHA-256, randomness, UTF-8 decoding and URL parsing: arguments or stated assumptions.
- Two file operations that overlap in time: load and save of one operation are one step here.
- Channel names like an inherited property (`constructor`) in the file form of the store: it keeps `failCount` and `lockUntil` in plain objects (adapters/shuttle/src/pairing.ts:261-270), where such a channel never counts up to a lock, while the model's maps, like the in-memory form, know no inherited names.
- Observations that the host dispatches itself with number 0 (`permission.response` and `sensitive.input.response`, packages/react/src/useOwnwareAgent.ts:629-668) and optimistic prompts entered while the loop runs: they change the transcript beside the loop, and `StreamLoop.LoopShowsLogPrefix` and `StreamLoop.LoopCompletes` speak of what the loop does alone. A prompt entered before the loop starts is part of the state it starts from.
- Row ids after a restore: the server chooses them.
- The second clock reading that `requestCode` and `approveCode` take while purging: the model uses the first.
- Event data of the parser stays raw text; `JSON.parse` of it is not modelled.
- CVSS scoring, notes, todo and report tools of the profiles: finite or easy.
- `computeTechScore`, indicators and data loading of the backtest; Sharpe, Sortino, win rates, rounding and the equity-curve samples.
- Backtest.RunBacktest: requires every entry price to be nonzero, because the source divides by it and reals have no infinity or NaN.
- Floating-point rounding everywhere, including the 0.6 late-cut test of `chunkText`, which is compared exactly.
- `chunkText` with a limit below one: the source's loop does not end there.
- Thread map, cursors and batching of `adapter.ts`, its hint, confirmation and next-request texts, and a failing `resume`.
- The version that `selectCapabilitySupport` reports beside a version that is too old.
- Run consequence, activity trail and display statements of `packages/ui/src/projection.ts`; payloads that are not arrays.
- Field guards of egress, skill and reversal receipts beyond ids, sequence, run and status: one boolean per receipt stands for them.
- Hydration.RestoredKeepsInvariants: does not claim the row invariant of the restored rows themselves, because they may come without parts; `Hydration.RestoredInvIff` gives the exact condition.
- PairingGate.PolicyGate.Evaluate: the store object is the in-memory one; `PairingGate.FileGateAgrees` carries its decisions to the file form.
- UTF-16: characters are Unicode scalar values here, so lengths in code units and a cut inside a surrogate pair are not modelled.
- CLI, themes, REPL and `packages/cli/src/stream-run.ts`, a simpler form of the reconnect loop; cortex and loom wiring.

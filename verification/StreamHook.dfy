/** The stream loop beside the reducer: two cursors, two gap detectors (packages/react/src/useOwnwareAgent.ts). */
module StreamHook {
  import opened Common
  import opened ChatModel
  import opened ChatReducer
  import opened ChatDelivery
  import opened ChatEvents
  import opened Hydration

  // ---- event classifiers ------------------------------------------------------

  predicate IsHeartbeat(e: Event) {
    e.body == OtherEvent("heartbeat")
  }

  predicate IsSequencedRunObservation(e: Event) {
    IsSafeInteger(e.seqNo) && e.seqNo.value > 0 && !IsControl(e) && !IsHeartbeat(e)
  }

  predicate IsTerminalEvent(e: Event) {
    e.body.TurnInterrupted? || e.body.ErrorEvent? || e.body.Done?
    || (e.body.TurnEnd? && IsTerminalReason(e.body.stopReason))
  }

  predicate HasUnknownStopReason(e: Event) {
    e.body.TurnEnd? && !IsContinueReason(e.body.stopReason) && !IsTerminalReason(e.body.stopReason)
  }

  predicate HookSeesGap(cursor: int, e: Event) {
    IsSequencedRunObservation(e) && cursor > 0 && e.seqNo.value > cursor + 1
  }

  /** The events after which the loop stops reading and asks for a hydration. */
  predicate AsksHydration(cursor: int, e: Event) {
    HookSeesGap(cursor, e) || e.body == StreamShutdown("slow_consumer") || HasUnknownStopReason(e)
  }

  function CursorAfter(cursor: int, e: Event): int {
    if HookSeesGap(cursor, e) then cursor
    else if IsSafeInteger(e.seqNo) && e.seqNo.value > cursor then e.seqNo.value
    else cursor
  }

  /** Which events end a run, by name. */
  lemma TerminalIs(e: Event)
    ensures IsTerminalEvent(e) <==>
              || e.body.Done? || e.body.TurnInterrupted? || e.body.ErrorEvent?
              || (e.body.TurnEnd? && e.body.stopReason in {"end_turn", "max_tokens", "stop_sequence"})
    ensures HasUnknownStopReason(e) <==>
              e.body.TurnEnd? && e.body.stopReason !in {"end_turn", "max_tokens", "stop_sequence", "tool_use", "pause_turn"}
    ensures IsTerminalEvent(e) && IsControl(e) <==> e.body.Done?
  {
  }

  /** With nothing pending, the loop takes an observation for terminal exactly when it leaves the chat idle or failed. */
  lemma TerminalMeansOver(s: ChatState, e: Event, n: nat)
    requires IsNext(s, e, n) && s.transcript.status == Streaming
    requires s.transcript.pendingApprovals == [] && s.transcript.pendingSensitives == []
    ensures IsTerminalEvent(e) <==> Step(s, e).transcript.status in {Idle, Failed}
  {
    hide DeltaRows, CompleteRows, ThinkingRows, ToolStartRows, UpdateOrInsertToolCall, ReconcileOptimisticUser, CloseOpenAssistant;
    hide UpsertById, WithoutId, IsActivation, IsOperationHash, TypeName;
  }

  // ---- the pair of replicas ---------------------------------------------------

  datatype HookState = HookState(chat: ChatState, cursor: int)

  ghost predicate Aligned(h: HookState) {
    && h.cursor == h.chat.transcript.lastSeq >= 0
    && h.chat.connection.lastDeliveredSeq == h.chat.transcript.lastSeq
  }

  /** What happens to the pair: a stream event, an event the hook dispatches itself, a hydration. */
  datatype HookStep = Got(e: Event) | Local(e: Event) | Rehydrated(h: ChatHydration)

  function HookApply(h: HookState, step: HookStep): HookState {
    match step
    case Got(e) => HookState(Step(h.chat, e), CursorAfter(h.cursor, e))
    case Local(e) => h.(chat := Step(h.chat, e))
    case Rehydrated(hy) =>
      HookState(Hydrate(h.chat, hy), if hy.lastClosedTurnEndSeq.Some? then hy.lastClosedTurnEndSeq.value else h.cursor)
  }

  function HookRun(h: HookState, steps: seq<HookStep>): HookState {
    if steps == [] then h else HookApply(HookRun(h, steps[..|steps| - 1]), steps[|steps| - 1])
  }

  /** The frame carries a number of its own beyond the cursor. */
  predicate IsNewer(cursor: int, e: Event) {
    IsSafeInteger(e.seqNo) && e.seqNo.value > cursor
  }

  /**
   * A frame that leaves the two cursors together. A start frame that seeds an empty replica must
   * carry the seed as its number; other control frames must not carry a newer number; a heartbeat
   * must not lie beyond a gap; every other frame will do.
   */
  predicate FrameIsAligned(cursor: int, e: Event) {
    if e.body.StreamStart? && cursor == 0 && SeedsReplica(e.body) then e.seqNo == e.body.since
    else if IsControl(e) then !IsNewer(cursor, e)
    else if IsHeartbeat(e) then !(cursor > 0 && IsNewer(cursor + 1, e))
    else true
  }

  /** Exactly when one stream event keeps the hook's cursor equal to the reducer's. */
  lemma ReceiveAlignedIff(h: HookState, e: Event)
    requires Aligned(h)
    ensures Aligned(HookApply(h, Got(e))) <==> FrameIsAligned(h.cursor, e)
  {
    if !IsControl(e) && IsSafeNat(e.seqNo) {
      ObserveKeepsCursor(Advance(h.chat, e.seqNo.value), e.seqNo.value, e.body);
    }
  }

  /** On a new run observation the two gap detectors agree. */
  lemma DetectorsAgree(h: HookState, e: Event)
    requires Aligned(h) && IsSequencedRunObservation(e) && e.seqNo.value > h.cursor
    ensures AsksHydration(h.cursor, e) <==> Step(h.chat, e).connection.phase == ResyncRequired
  {
    var n := e.seqNo.value;
    if !IsGap(h.chat, n) && !e.body.TurnEnd? {
      ObserveKeepsPhase(Advance(h.chat, n), n, e.body);
    }
  }

  lemma ObserveKeepsPhase(b: ChatState, n: nat, body: Body)
    requires !body.TurnEnd?
    ensures Observe(b, n, body).connection.phase == b.connection.phase
  {
  }

  /** A heartbeat with a number beyond a gap is the one observation that separates the cursors. */
  lemma HeartbeatGapMisaligns(h: HookState, n: int)
    requires Aligned(h) && h.cursor > 0 && h.cursor + 1 < n <= MAX_SAFE_INTEGER
    ensures HookApply(h, Got(Event(Some(n), OtherEvent("heartbeat")))).cursor == n
    ensures HookApply(h, Got(Event(Some(n), OtherEvent("heartbeat")))).chat.transcript.lastSeq == h.cursor
  {
  }

  /** The events the hook dispatches on its own account. */
  ghost predicate IsLocalEvent(e: Event) {
    || (e.seqNo.Some? && e.body == StreamShutdown("gateway_shutdown"))
    || (e.seqNo.Some? && e.body == Done)
    || (e.seqNo == Some(0) && e.body.ErrorEvent?)
  }

  /** Exactly when a restore keeps the cursors together: the hook takes its number even when the rows are refused. */
  lemma RestoreAlignedIff(h: HookState, hy: ChatHydration)
    requires Aligned(h) && hy.lastClosedTurnEndSeq.Some?
    ensures Aligned(HookApply(h, Rehydrated(hy))) <==> IsAccepted(hy) || hy.lastClosedTurnEndSeq.value == h.cursor
  {
  }

  /** One unusable row leaves the chat as it was and moves the hook's cursor all the same. */
  lemma RefusedRestoreMisaligns(h: HookState, n: int)
    requires Aligned(h) && n != h.cursor
    ensures var hy := ChatHydration(Some([NotARow]), Some(n));
            HookApply(h, Rehydrated(hy)) == HookState(h.chat, n) && !Aligned(HookApply(h, Rehydrated(hy)))
  {
    assert [NotARow][..0] == [];
    assert HydrateRows([NotARow]).None?;
  }

  /** What a step must be like for the cursors to stay together. */
  ghost predicate StepIsOk(h: HookState, step: HookStep) {
    match step
    case Got(e) => FrameIsAligned(h.cursor, e)
    case Local(_) => true
    case Rehydrated(hy) => hy.lastClosedTurnEndSeq.None? || IsAccepted(hy) || hy.lastClosedTurnEndSeq.value == h.cursor
  }

  lemma StepAlignedIff(h: HookState, step: HookStep)
    requires Aligned(h) && (step.Local? ==> IsLocalEvent(step.e))
    ensures Aligned(HookApply(h, step)) <==> StepIsOk(h, step)
  {
    match step
    case Got(e) => ReceiveAlignedIff(h, e);
    case Local(e) =>
      if e.body.ErrorEvent? { ObserveKeepsCursor(Advance(h.chat, 0), 0, e.body); }
    case Rehydrated(hy) => if hy.lastClosedTurnEndSeq.Some? { RestoreAlignedIff(h, hy); }
  }

  ghost predicate LocalsOk(steps: seq<HookStep>) {
    forall i :: 0 <= i < |steps| && steps[i].Local? ==> IsLocalEvent(steps[i].e)
  }

  ghost predicate RunIsOk(h: HookState, steps: seq<HookStep>) {
    forall i :: 0 <= i < |steps| ==> StepIsOk(HookRun(h, steps[..i]), steps[i])
  }

  ghost predicate AlignedThroughout(h: HookState, steps: seq<HookStep>) {
    forall n :: 0 <= n <= |steps| ==> Aligned(HookRun(h, steps[..n]))
  }

  /** `HookRun` by one more step, on prefixes of a run. */
  lemma RunNext(h: HookState, steps: seq<HookStep>, n: nat)
    requires n < |steps|
    ensures HookRun(h, steps[..n + 1]) == HookApply(HookRun(h, steps[..n]), steps[n])
  {
    assert steps[..n + 1][..n] == steps[..n];
  }

  lemma {:induction false} OkUpTo(h: HookState, steps: seq<HookStep>, n: nat)
    requires Aligned(h) && LocalsOk(steps) && RunIsOk(h, steps) && n <= |steps|
    ensures Aligned(HookRun(h, steps[..n]))
    decreases n
  {
    hide HookApply, StepIsOk, Aligned, IsLocalEvent;
    if n == 0 {
      assert steps[..0] == [];
    } else {
      OkUpTo(h, steps, n - 1);
      RunNext(h, steps, n - 1);
      StepAlignedIff(HookRun(h, steps[..n - 1]), steps[n - 1]);
    }
  }

  /**
   * Over every interleaving of events, drops, reconnects, own frames and restores, the two cursors
   * are equal after every step iff every frame is aligned where it is read and every restore is
   * accepted or names the cursor the hook already has.
   */
  lemma AlignedThroughoutIff(h: HookState, steps: seq<HookStep>)
    requires Aligned(h) && LocalsOk(steps)
    ensures AlignedThroughout(h, steps) <==> RunIsOk(h, steps)
  {
    hide HookApply, StepIsOk, Aligned, IsLocalEvent, HookRun;
    if RunIsOk(h, steps) {
      forall n | 0 <= n <= |steps| ensures Aligned(HookRun(h, steps[..n])) { OkUpTo(h, steps, n); }
    }
    if AlignedThroughout(h, steps) {
      forall i | 0 <= i < |steps| ensures StepIsOk(HookRun(h, steps[..i]), steps[i]) {
        RunNext(h, steps, i);
        StepAlignedIff(HookRun(h, steps[..i]), steps[i]);
      }
    }
  }

  lemma {:induction false} RunConcat(h: HookState, a: seq<HookStep>, b: seq<HookStep>)
    ensures HookRun(h, a + b) == HookRun(HookRun(h, a), b)
    decreases |b|
  {
    hide HookApply;
    if b == [] {
      assert a + b == a;
    } else {
      assert (a + b)[..|a + b| - 1] == a + b[..|b| - 1];
      RunConcat(h, a, b[..|b| - 1]);
    }
  }

  lemma RunSnoc(h: HookState, steps: seq<HookStep>, step: HookStep)
    ensures HookRun(h, steps + [step]) == HookApply(HookRun(h, steps), step)
  {
    assert (steps + [step])[..|steps|] == steps;
  }

  // ---- the script -------------------------------------------------------------

  datatype RunningRun = NoRun | ThisRun | OtherRun

  datatype HydrationReply = HydrationFailed | HydrationReply(h: ChatHydration, running: RunningRun)

  /**
   * What the server and the host do during one connection attempt. `seenPhase` is the phase
   * that the host's last rendered state shows when the connection ends; it may lag the reducer.
   */
  datatype Attempt = Attempt(
    events: seq<Event>,
    throws: bool,
    aborted: bool,
    seenPhase: Phase,
    reply: HydrationReply,
    snapshotTerminal: bool)

  datatype Outcome = Cancelled | Complete | RunEnded | Switched | CouldNotRestore | StillReconnecting

  function ShutdownEvent(cursor: int): Event { Event(Some(cursor), StreamShutdown("gateway_shutdown")) }

  function DoneEvent(cursor: int): Event { Event(Some(cursor), Done) }

  const RESTORE_MESSAGE := "Could not restore the live thread."

  const RESTORE_ERROR: Event := Event(Some(0), ErrorEvent(RESTORE_MESSAGE))

  /** The events after which the inner loop stops reading. */
  predicate Stops(cursor: int, e: Event) {
    IsTerminalEvent(e) || AsksHydration(cursor, e)
  }

  /** How far one connection is read, and what the last event read was. */
  datatype Reading = Reading(count: nat, terminal: bool, asks: bool)

  function Read(cursor: int, events: seq<Event>): Reading
    decreases |events|
  {
    if events == [] then Reading(0, false, false)
    else if Stops(cursor, events[0]) then Reading(1, IsTerminalEvent(events[0]), AsksHydration(cursor, events[0]))
    else
      var r := Read(CursorAfter(cursor, events[0]), events[1..]);
      r.(count := r.count + 1)
  }

  function Gots(events: seq<Event>): seq<HookStep> {
    seq(|events|, i requires 0 <= i < |events| => Got(events[i]))
  }

  datatype Verdict = Ends(outcome: Outcome) | Again

  /** What the loop dispatches once the connection is over, and whether it goes round again. */
  function Settlement(at: Attempt, terminal: bool, asks: bool, cursor: int): (seq<HookStep>, Verdict) {
    var dropped := !terminal && !asks;
    var shutdown := if dropped then [Local(ShutdownEvent(cursor))] else [];
    if dropped && at.throws && at.aborted then ([], Ends(Cancelled))
    else if at.aborted then (shutdown, Ends(Cancelled))
    else if terminal then ([Local(DoneEvent(cursor))], Ends(Complete))
    else if asks || at.seenPhase == ResyncRequired then
      match at.reply
      case HydrationFailed => (shutdown + [Local(RESTORE_ERROR)], Ends(CouldNotRestore))
      case HydrationReply(hy, running) =>
        (shutdown + [Rehydrated(hy)],
         if running.NoRun? then Ends(RunEnded) else if running.OtherRun? then Ends(Switched) else Again)
    else (shutdown, if at.snapshotTerminal then Ends(RunEnded) else Again)
  }

  /** The events of an attempt that are read from `cursor`. */
  function ReadPart(cursor: int, at: Attempt): seq<Event> {
    ReadIsPrefix(cursor, at.events);
    at.events[..Read(cursor, at.events).count]
  }

  function EventsRead(h: HookState, at: Attempt): seq<HookStep> {
    Gots(ReadPart(h.cursor, at))
  }

  function AttemptSettlement(h: HookState, at: Attempt): (seq<HookStep>, Verdict) {
    var r := Read(h.cursor, at.events);
    Settlement(at, r.terminal, r.asks, HookRun(h, EventsRead(h, at)).cursor)
  }

  function AttemptSteps(h: HookState, at: Attempt): seq<HookStep> {
    EventsRead(h, at) + AttemptSettlement(h, at).0
  }

  /** Every step the loop takes on a script, and how it ends. */
  function ScriptRun(h: HookState, script: seq<Attempt>): (seq<HookStep>, Outcome)
    decreases |script|
  {
    if script == [] then ([], StillReconnecting)
    else
      var steps, v := AttemptSteps(h, script[0]), AttemptSettlement(h, script[0]).1;
      if v.Ends? then (steps, v.outcome)
      else
        var (rest, outcome) := ScriptRun(HookRun(h, steps), script[1..]);
        (steps + rest, outcome)
  }

  lemma {:induction false} ReadIsPrefix(cursor: int, events: seq<Event>)
    ensures Read(cursor, events).count <= |events|
    decreases |events|
  {
    if events != [] && !Stops(cursor, events[0]) { ReadIsPrefix(CursorAfter(cursor, events[0]), events[1..]); }
  }

  // ---- the loops --------------------------------------------------------------

  /** One pass of the inner loop: dispatch the event and move the cursor. */
  method FoldEvent(h: HookState, event: Event) returns (h': HookState, terminal: bool, needsHydration: bool)
    ensures h' == HookApply(h, Got(event))
    ensures needsHydration == AsksHydration(h.cursor, event)
    ensures terminal == IsTerminalEvent(event)
  {
    terminal, needsHydration := false, false;
    var cursor := h.cursor;
    var sequenceGap := IsSequencedRunObservation(event) && cursor > 0 && event.seqNo.value > cursor + 1;
    var chat := Step(h.chat, event);
    if sequenceGap {
      needsHydration := true;
    } else if IsSafeInteger(event.seqNo) && event.seqNo.value > cursor {
      cursor := event.seqNo.value;
    }
    if event.body == StreamShutdown("slow_consumer") { needsHydration := true; }
    if HasUnknownStopReason(event) { needsHydration := true; }
    if IsTerminalEvent(event) { terminal := true; }
    h' := HookState(chat, cursor);
  }

  /** The cursor after reading some events. */
  function CursorOver(cursor: int, events: seq<Event>): int {
    if events == [] then cursor else CursorAfter(CursorOver(cursor, events[..|events| - 1]), events[|events| - 1])
  }

  /** The first `n` events stop the reading at the last of them, or nowhere. */
  ghost predicate StopsOnlyAtEnd(cursor: int, events: seq<Event>, n: int) {
    0 <= n <= |events| && forall i :: 0 <= i < n - 1 ==> !Stops(CursorOver(cursor, events[..i]), events[i])
  }

  /** Reading goes up to and including the first event that stops it, and to the end if there is none. */
  ghost predicate ReadsToFirstStop(cursor: int, events: seq<Event>, r: Reading) {
    && StopsOnlyAtEnd(cursor, events, r.count)
    && r.terminal == (r.count > 0 && IsTerminalEvent(events[r.count - 1]))
    && r.asks == (r.count > 0 && AsksHydration(CursorOver(cursor, events[..r.count - 1]), events[r.count - 1]))
    && (r.terminal || r.asks || r.count == |events|)
  }

  lemma {:induction false} CursorOverCons(cursor: int, e: Event, events: seq<Event>)
    ensures CursorOver(cursor, [e] + events) == CursorOver(CursorAfter(cursor, e), events)
    decreases |events|
  {
    hide CursorAfter;
    if events == [] {
      assert [e] + events == [e] && [e][..0] == [];
    } else {
      assert ([e] + events)[..|events|] == [e] + events[..|events| - 1];
      CursorOverCons(cursor, e, events[..|events| - 1]);
    }
  }

  /** What a reading is, said without computing it. */
  lemma {:induction false} ReadingIsFirstStop(cursor: int, events: seq<Event>)
    ensures ReadsToFirstStop(cursor, events, Read(cursor, events))
    decreases |events|
  {
    hide CursorAfter, CursorOver, IsTerminalEvent, AsksHydration;
    if events != [] {
      var e, tail := events[0], events[1..];
      var c := CursorAfter(cursor, e);
      assert CursorOver(cursor, events[..0]) == cursor by { NothingRead(cursor); }
      if !Stops(cursor, e) {
        ReadingIsFirstStop(c, tail);
        forall i | 0 <= i < |tail| ensures CursorOver(cursor, events[..i + 1]) == CursorOver(c, tail[..i]) {
          assert events[..i + 1] == [e] + tail[..i];
          CursorOverCons(cursor, e, tail[..i]);
        }
        forall i | 0 < i < |events| ensures events[i] == tail[i - 1] {}
      }
    }
  }

  lemma NothingRead(cursor: int)
    ensures CursorOver(cursor, []) == cursor
  {
  }

  /** One connection: fold events until the stream ends, a terminal event, or a request to hydrate. */
  method ReadAttempt(h: HookState, at: Attempt) returns (h': HookState, terminal: bool, needsHydration: bool)
    ensures h' == HookRun(h, EventsRead(h, at))
    ensures var r := Read(h.cursor, at.events);
            terminal == r.terminal && needsHydration == r.asks && ReadsToFirstStop(h.cursor, at.events, r)
  {
    hide HookApply, HookRun, Stops, IsTerminalEvent, AsksHydration, ReadsToFirstStop, CursorAfter, Read;
    h', terminal, needsHydration := h, false, false;
    var i := 0;
    NothingYet(h);
    assert at.events[0..] == at.events && Gots(at.events[..0]) == [];
    while i < |at.events| && !terminal && !needsHydration
      invariant i <= |at.events| && h' == HookRun(h, Gots(at.events[..i]))
      invariant !terminal && !needsHydration ==>
                  Read(h.cursor, at.events) == var r := Read(h'.cursor, at.events[i..]); r.(count := r.count + i)
      invariant terminal || needsHydration ==> Read(h.cursor, at.events) == Reading(i, terminal, needsHydration)
    {
      GotsSnoc(at.events, i);
      RunSnoc(h, Gots(at.events[..i]), Got(at.events[i]));
      ReadOne(h'.cursor, at.events, i);
      GotMovesCursor(h', at.events[i]);
      h', terminal, needsHydration := FoldEvent(h', at.events[i]);
      i := i + 1;
    }
    if !terminal && !needsHydration {
      assert at.events[i..] == [];
      ReadNothing(h'.cursor);
    }
    ReadingIsFirstStop(h.cursor, at.events);
  }

  lemma ReadNothing(cursor: int)
    ensures Read(cursor, []) == Reading(0, false, false)
  {
  }

  lemma GotsSnoc(events: seq<Event>, i: nat)
    requires i < |events|
    ensures Gots(events[..i + 1]) == Gots(events[..i]) + [Got(events[i])]
  {
  }

  /** The rest of a reading, unfolded by one event. */
  lemma ReadOne(cursor: int, events: seq<Event>, i: nat)
    requires i < |events|
    ensures var r := Read(cursor, events[i..]);
            if Stops(cursor, events[i]) then r == Reading(1, IsTerminalEvent(events[i]), AsksHydration(cursor, events[i]))
            else var q := Read(CursorAfter(cursor, events[i]), events[i + 1..]); r == q.(count := q.count + 1)
    ensures Stops(cursor, events[i]) <==> IsTerminalEvent(events[i]) || AsksHydration(cursor, events[i])
  {
    hide CursorAfter, IsTerminalEvent, AsksHydration;
    assert events[i..][0] == events[i] && events[i..][1..] == events[i + 1..];
  }

  lemma GotMovesCursor(h: HookState, e: Event)
    ensures HookApply(h, Got(e)).cursor == CursorAfter(h.cursor, e)
  {
  }

  /** The rest of one turn of the outer loop. */
  method SettleAttempt(h: HookState, at: Attempt, terminal: bool, needsHydration: bool) returns (h': HookState, verdict: Verdict)
    requires at.reply.HydrationReply? ==> at.reply.h.lastClosedTurnEndSeq.Some?
    ensures var (steps, v) := Settlement(at, terminal, needsHydration, h.cursor);
            h' == HookRun(h, steps) && verdict == v
  {
    hide Step, Hydrate;
    h' := h;
    ghost var steps := [];
    if !terminal && !needsHydration {
      if at.throws && at.aborted { return h', Ends(Cancelled); }
      RunSnoc(h, [], Local(ShutdownEvent(h.cursor)));
      h', steps := h.(chat := Step(h.chat, ShutdownEvent(h.cursor))), [Local(ShutdownEvent(h.cursor))];
    }
    if at.aborted { return h', Ends(Cancelled); }
    if terminal {
      RunSnoc(h, [], Local(DoneEvent(h.cursor)));
      h' := h'.(chat := Step(h'.chat, DoneEvent(h.cursor)));
      return h', Ends(Complete);
    }
    if needsHydration || at.seenPhase == ResyncRequired {
      if at.reply.HydrationFailed? {
        RunSnoc(h, steps, Local(RESTORE_ERROR));
        h' := h'.(chat := Step(h'.chat, RESTORE_ERROR));
        return h', Ends(CouldNotRestore);
      }
      var hy := at.reply.h;
      RunSnoc(h, steps, Rehydrated(hy));
      h' := HookState(Hydrate(h'.chat, hy), hy.lastClosedTurnEndSeq.value);
      if at.reply.running.NoRun? { return h', Ends(RunEnded); }
      if at.reply.running.OtherRun? { return h', Ends(Switched); }
    } else if at.snapshotTerminal {
      return h', Ends(RunEnded);
    }
    verdict := Again;
  }

  /** `startStream`, over a script of connection attempts: it takes the steps of the script, in order. */
  method StartStream(chat: ChatState, since: int, script: seq<Attempt>) returns (h: HookState, outcome: Outcome)
    requires forall i :: 0 <= i < |script| && script[i].reply.HydrationReply? ==> script[i].reply.h.lastClosedTurnEndSeq.Some?
    ensures outcome == ScriptRun(HookState(chat, since), script).1
    ensures h == HookRun(HookState(chat, since), ScriptRun(HookState(chat, since), script).0)
  {
    hide HookRun, HookApply, Settlement, EventsRead, AttemptSettlement;
    ghost var h0 := HookState(chat, since);
    ghost var steps: seq<HookStep> := [];
    h := HookState(chat, since);
    NothingYet(h0);
    assert script[0..] == script && [] + ScriptRun(h0, script).0 == ScriptRun(h0, script).0;
    var n := 0;
    while n < |script|
      invariant n <= |script| && h == HookRun(h0, steps)
      invariant var (rest, o) := ScriptRun(h, script[n..]); ScriptRun(h0, script) == (steps + rest, o)
    {
      ghost var here := h;
      var at := script[n];
      assert script[n..][0] == at && script[n..][1..] == script[n + 1..];
      var terminal, needsHydration, verdict;
      h, terminal, needsHydration := ReadAttempt(h, at);
      h, verdict := SettleAttempt(h, at, terminal, needsHydration);
      AttemptIsRun(here, at);
      ghost var more := AttemptSteps(here, at);
      RunConcat(h0, steps, more);
      if verdict.Ends? {
        return h, verdict.outcome;
      }
      assert steps + (more + ScriptRun(h, script[n + 1..]).0) == steps + more + ScriptRun(h, script[n + 1..]).0;
      steps := steps + more;
      n := n + 1;
    }
    assert script[n..] == [] && steps + [] == steps;
    outcome := StillReconnecting;
  }

  lemma NothingYet(h: HookState)
    ensures HookRun(h, []) == h
  {
  }

  lemma AttemptIsRun(h: HookState, at: Attempt)
    ensures var r := Read(h.cursor, at.events);
            var mid := HookRun(h, EventsRead(h, at));
            && AttemptSettlement(h, at) == Settlement(at, r.terminal, r.asks, mid.cursor)
            && HookRun(h, AttemptSteps(h, at)) == HookRun(mid, Settlement(at, r.terminal, r.asks, mid.cursor).0)
  {
    hide HookApply, Settlement;
    RunConcat(h, EventsRead(h, at), AttemptSettlement(h, at).0);
  }
}

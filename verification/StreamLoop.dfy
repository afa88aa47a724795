/** What the stream loop does over a whole script of connection attempts (packages/react/src/useOwnwareAgent.ts). */
module StreamLoop {
  import opened Common
  import opened ChatModel
  import opened ChatReducer
  import opened ChatDelivery
  import opened Hydration
  import opened StreamHook

  // ---- how the loop ends ------------------------------------------------------

  /** The loop asks for a restore after this attempt and gets one. */
  predicate Restored(at: Attempt, r: Reading) {
    !at.aborted && !r.terminal && (r.asks || at.seenPhase == ResyncRequired) && at.reply.HydrationReply?
  }

  /** The attempt ends the loop, and this is why. */
  ghost predicate IsWhy(at: Attempt, r: Reading, outcome: Outcome) {
    match outcome
    case Cancelled => at.aborted
    case Complete => !at.aborted && r.terminal
    case CouldNotRestore =>
      !at.aborted && !r.terminal && (r.asks || at.seenPhase == ResyncRequired) && at.reply.HydrationFailed?
    case Switched => Restored(at, r) && at.reply.running.OtherRun?
    case RunEnded =>
      || (Restored(at, r) && at.reply.running.NoRun?)
      || (!at.aborted && !r.terminal && !r.asks && at.seenPhase != ResyncRequired && at.snapshotTerminal)
    case StillReconnecting => false
  }

  /** The loop goes round again exactly when no reason to end applies, and a reason to end is the only one. */
  lemma VerdictIsWhy(at: Attempt, r: Reading, cursor: int)
    ensures match Settlement(at, r.terminal, r.asks, cursor).1
            case Ends(o) => IsWhy(at, r, o)
            case Again => forall o :: !IsWhy(at, r, o)
    ensures forall o, o' :: IsWhy(at, r, o) && IsWhy(at, r, o') ==> o == o'
  {
  }

  /** The cursor at which attempt `k` starts when the earlier ones all went round again. */
  function CursorAt(cursor: int, script: seq<Attempt>, k: nat): int
    requires k <= |script|
  {
    if k == 0 then cursor else AttemptCursor(CursorAt(cursor, script, k - 1), script[k - 1])
  }

  /** The hook's cursor after one attempt. */
  function AttemptCursor(cursor: int, at: Attempt): int {
    if Restored(at, Read(cursor, at.events)) && at.reply.h.lastClosedTurnEndSeq.Some? then at.reply.h.lastClosedTurnEndSeq.value
    else CursorOver(cursor, ReadPart(cursor, at))
  }

  lemma {:induction false} CursorAfterGots(h: HookState, events: seq<Event>)
    ensures HookRun(h, Gots(events)).cursor == CursorOver(h.cursor, events)
  {
    hide HookApply, CursorAfter;
    if events == [] {
      assert Gots(events) == [];
    } else {
      var n := |events| - 1;
      CursorAfterGots(h, events[..n]);
      assert events[..n + 1] == events;
      GotsSnoc(events, n);
      RunSnoc(h, Gots(events[..n]), Got(events[n]));
      GotMovesCursor(HookRun(h, Gots(events[..n])), events[n]);
    }
  }

  lemma LocalKeepsCursor(h: HookState, e: Event)
    ensures HookApply(h, Local(e)).cursor == h.cursor
  {
  }

  lemma RestoreSetsCursor(h: HookState, hy: ChatHydration)
    ensures HookApply(h, Rehydrated(hy)).cursor
            == if hy.lastClosedTurnEndSeq.Some? then hy.lastClosedTurnEndSeq.value else h.cursor
  {
  }

  /** The steps after the reading: at most one own frame, then at most one restore or error. */
  ghost predicate IsSettling(at: Attempt, r: Reading, cursor: int, steps: seq<HookStep>) {
    || steps == []
    || (steps == [Local(ShutdownEvent(cursor))] && !r.terminal && !r.asks)
    || (steps == [Local(DoneEvent(cursor))] && r.terminal)
    || (steps == [Local(RESTORE_ERROR)] && r.asks && at.reply.HydrationFailed?)
    || (steps == [Local(ShutdownEvent(cursor)), Local(RESTORE_ERROR)] && !r.terminal && !r.asks && at.reply.HydrationFailed?)
    || (Restored(at, r) && steps == [Rehydrated(at.reply.h)] && r.asks)
    || (Restored(at, r) && steps == [Local(ShutdownEvent(cursor)), Rehydrated(at.reply.h)] && !r.asks)
  }

  lemma SettlementShape(at: Attempt, r: Reading, cursor: int)
    ensures IsSettling(at, r, cursor, Settlement(at, r.terminal, r.asks, cursor).0)
    ensures Restored(at, r) <==> exists s :: s in Settlement(at, r.terminal, r.asks, cursor).0 && s.Rehydrated?
    ensures r.asks && !r.terminal && Settlement(at, r.terminal, r.asks, cursor).1 != Ends(Cancelled) ==>
              Settlement(at, r.terminal, r.asks, cursor).0 != []
    ensures Settlement(at, r.terminal, r.asks, cursor).1 == Ends(Complete) ==>
              Settlement(at, r.terminal, r.asks, cursor).0 == [Local(DoneEvent(cursor))]
  {
    if Restored(at, r) {
      var steps := Settlement(at, r.terminal, r.asks, cursor).0;
      assert steps[|steps| - 1] == Rehydrated(at.reply.h);
    }
  }

  lemma RunOfTwo(h: HookState, a: HookStep, b: HookStep)
    ensures HookRun(h, [a]) == HookApply(h, a)
    ensures HookRun(h, [a, b]) == HookApply(HookApply(h, a), b)
  {
    hide HookApply;
    RunSnoc(h, [], a);
    assert [] + [a] == [a] && [a] + [b] == [a, b];
    NothingYet(h);
    RunSnoc(h, [a], b);
  }

  lemma AttemptMovesCursor(h: HookState, at: Attempt)
    ensures HookRun(h, AttemptSteps(h, at)).cursor == AttemptCursor(h.cursor, at)
    ensures HookRun(h, EventsRead(h, at)).cursor == CursorOver(h.cursor, ReadPart(h.cursor, at))
  {
    hide HookApply, HookRun, Settlement, Read, CursorOver;
    var r := Read(h.cursor, at.events);
    var mid := HookRun(h, EventsRead(h, at));
    CursorAfterGots(h, ReadPart(h.cursor, at));
    AttemptIsRun(h, at);
    SettlementShape(at, r, mid.cursor);
    var steps := Settlement(at, r.terminal, r.asks, mid.cursor).0;
    if steps == [] {
      NothingYet(mid);
    } else {
      RunOfTwo(mid, steps[0], steps[|steps| - 1]);
      SettlingCursor(mid, at, r, steps);
    }
  }

  lemma SettlingCursor(mid: HookState, at: Attempt, r: Reading, steps: seq<HookStep>)
    requires steps != [] && IsSettling(at, r, mid.cursor, steps)
    requires Restored(at, r) <==> exists s :: s in steps && s.Rehydrated?
    ensures HookRun(mid, steps).cursor
            == if Restored(at, r) && at.reply.h.lastClosedTurnEndSeq.Some? then at.reply.h.lastClosedTurnEndSeq.value else mid.cursor
  {
    hide HookApply, HookRun;
    RunOfTwo(mid, steps[0], steps[|steps| - 1]);
    if steps[0].Local? { LocalKeepsCursor(mid, steps[0].e); } else { RestoreSetsCursor(mid, steps[0].h); }
    var next := HookApply(mid, steps[0]);
    var last := steps[|steps| - 1];
    if last.Local? { LocalKeepsCursor(next, last.e); } else { RestoreSetsCursor(next, last.h); }
  }

  /** The loop's outcome is explained by the first attempt that does not go round again. */
  lemma {:induction false} OutcomeIsExplained(h: HookState, script: seq<Attempt>) returns (k: nat)
    ensures k <= |script| && (ScriptRun(h, script).1 == StillReconnecting <==> k == |script|)
    ensures forall j, o :: 0 <= j < k ==> !IsWhy(script[j], Read(CursorAt(h.cursor, script, j), script[j].events), o)
    ensures k < |script| ==> IsWhy(script[k], Read(CursorAt(h.cursor, script, k), script[k].events), ScriptRun(h, script).1)
    decreases |script|
  {
    hide HookRun, IsWhy, Settlement, AttemptCursor, Read, EventsRead;
    k := 0;
    if script != [] {
      var at := script[0];
      AttemptIsRun(h, at);
      AttemptMovesCursor(h, at);
      VerdictIsWhy(at, Read(h.cursor, at.events), HookRun(h, EventsRead(h, at)).cursor);
      if AttemptSettlement(h, at).1.Again? {
        var h' := HookRun(h, AttemptSteps(h, at));
        var k' := OutcomeIsExplained(h', script[1..]);
        k := k' + 1;
        forall j | 1 <= j <= |script| ensures CursorAt(h.cursor, script, j) == CursorAt(h'.cursor, script[1..], j - 1) {
          CursorAtTail(h.cursor, script, j);
        }
        forall j, o | 0 <= j < k ensures !IsWhy(script[j], Read(CursorAt(h.cursor, script, j), script[j].events), o) {
          if j > 0 { assert script[j] == script[1..][j - 1]; }
        }
      } else {
        NoReasonToReconnect(at, Read(h.cursor, at.events));
      }
    }
  }

  lemma NoReasonToReconnect(at: Attempt, r: Reading)
    ensures !IsWhy(at, r, StillReconnecting)
  {
  }

  lemma {:induction false} CursorAtTail(cursor: int, script: seq<Attempt>, j: nat)
    requires 1 <= j <= |script|
    ensures CursorAt(cursor, script, j) == CursorAt(AttemptCursor(cursor, script[0]), script[1..], j - 1)
    decreases j
  {
    hide AttemptCursor;
    if j > 1 { CursorAtTail(cursor, script, j - 1); }
  }

  // ---- the cursors ------------------------------------------------------------

  lemma {:induction false} LoopLocalsOk(h: HookState, script: seq<Attempt>)
    ensures LocalsOk(ScriptRun(h, script).0)
    decreases |script|
  {
    hide HookRun, AttemptSteps;
    if script != [] {
      AttemptLocalsOk(h, script[0]);
      LoopLocalsOk(HookRun(h, AttemptSteps(h, script[0])), script[1..]);
    }
  }

  lemma AttemptLocalsOk(h: HookState, at: Attempt)
    ensures LocalsOk(AttemptSteps(h, at))
  {
    hide HookRun, Read, ReadPart;
    SettlementShape(at, Read(h.cursor, at.events), HookRun(h, EventsRead(h, at)).cursor);
  }

  /** A restore that the hook uses keeps the cursors together: its rows are accepted, or it names the cursor in force. */
  ghost predicate ReplyIsOk(at: Attempt, cursor: int)
    requires at.reply.HydrationReply?
  {
    var n := at.reply.h.lastClosedTurnEndSeq;
    n.None? || IsAccepted(at.reply.h) || n.value == cursor
  }

  /** Every frame read in an attempt is aligned where it is read. */
  ghost predicate FramesAreAligned(cursor: int, events: seq<Event>) {
    forall i :: 0 <= i < |events| ==> FrameIsAligned(CursorOver(cursor, events[..i]), events[i])
  }

  ghost predicate AttemptIsOk(cursor: int, at: Attempt) {
    && FramesAreAligned(cursor, ReadPart(cursor, at))
    && (Restored(at, Read(cursor, at.events)) ==> ReplyIsOk(at, CursorOver(cursor, ReadPart(cursor, at))))
  }

  /** What the server must do for the cursors to stay together, said on the script and the starting cursor alone. */
  ghost predicate ScriptIsOk(cursor: int, script: seq<Attempt>) {
    InEachRound(cursor, script, AttemptIsOk)
  }

  /** Every attempt that the loop gets to is as demanded at the cursor where it starts. */
  ghost predicate InEachRound(cursor: int, script: seq<Attempt>, ok: (int, Attempt) -> bool) {
    forall k :: 0 <= k < |script| && GoesRound(cursor, script, k) ==> ok(CursorAt(cursor, script, k), script[k])
  }

  /** Every attempt before `k` goes round again. */
  ghost predicate GoesRound(cursor: int, script: seq<Attempt>, k: int) {
    0 <= k <= |script| && forall j, o :: 0 <= j < k ==> !IsWhy(script[j], Read(CursorAt(cursor, script, j), script[j].events), o)
  }

  lemma RunOkConcat(h: HookState, a: seq<HookStep>, b: seq<HookStep>)
    ensures RunIsOk(h, a + b) <==> RunIsOk(h, a) && RunIsOk(HookRun(h, a), b)
  {
    hide HookRun, StepIsOk;
    forall i | 0 <= i < |a| ensures (a + b)[..i] == a[..i] {}
    forall i | 0 <= i < |b| ensures HookRun(h, (a + b)[..|a| + i]) == HookRun(HookRun(h, a), b[..i]) {
      assert (a + b)[..|a| + i] == a + b[..i];
      RunConcat(h, a, b[..i]);
    }
    if RunIsOk(h, a + b) {
      forall i | 0 <= i < |a| ensures StepIsOk(HookRun(h, a[..i]), a[i]) {
        assert (a + b)[i] == a[i];
      }
      forall i | 0 <= i < |b| ensures StepIsOk(HookRun(HookRun(h, a), b[..i]), b[i]) {
        assert (a + b)[|a| + i] == b[i];
      }
    }
    if RunIsOk(h, a) && RunIsOk(HookRun(h, a), b) {
      forall i | 0 <= i < |a + b| ensures StepIsOk(HookRun(h, (a + b)[..i]), (a + b)[i]) {
        if i >= |a| { assert (a + b)[i] == b[i - |a|]; }
      }
    }
  }

  lemma GotsOkIff(h: HookState, events: seq<Event>)
    ensures RunIsOk(h, Gots(events)) <==> FramesAreAligned(h.cursor, events)
  {
    hide HookRun, CursorOver, FrameIsAligned;
    forall i | 0 <= i < |events| ensures StepIsOk(HookRun(h, Gots(events)[..i]), Gots(events)[i])
                                         <==> FrameIsAligned(CursorOver(h.cursor, events[..i]), events[i]) {
      assert Gots(events)[..i] == Gots(events[..i]);
      CursorAfterGots(h, events[..i]);
    }
  }

  lemma SettlingOkIff(mid: HookState, at: Attempt, r: Reading)
    ensures RunIsOk(mid, Settlement(at, r.terminal, r.asks, mid.cursor).0) <==> (Restored(at, r) ==> ReplyIsOk(at, mid.cursor))
  {
    hide HookApply, HookRun, Settlement, IsAccepted, FrameIsAligned;
    SettlementShape(at, r, mid.cursor);
    var steps := Settlement(at, r.terminal, r.asks, mid.cursor).0;
    NothingYet(mid);
    forall i | 0 <= i < |steps| ensures HookRun(mid, steps[..i]).cursor == mid.cursor {
      if i == 0 {
        assert steps[..0] == [];
      } else {
        assert steps[..1] == [steps[0]];
        RunOfTwo(mid, steps[0], steps[0]);
        LocalKeepsCursor(mid, steps[0].e);
      }
    }
    if Restored(at, r) { assert steps[|steps| - 1] == Rehydrated(at.reply.h); }
  }

  lemma AttemptOkIff(h: HookState, at: Attempt)
    ensures RunIsOk(h, AttemptSteps(h, at)) <==> AttemptIsOk(h.cursor, at)
  {
    hide HookRun, RunIsOk, Settlement, Read, CursorOver, FramesAreAligned, ReplyIsOk, ReadPart;
    AttemptIsRun(h, at);
    AttemptMovesCursor(h, at);
    RunOkConcat(h, EventsRead(h, at), AttemptSettlement(h, at).0);
    GotsOkIff(h, ReadPart(h.cursor, at));
    SettlingOkIff(HookRun(h, EventsRead(h, at)), at, Read(h.cursor, at.events));
  }

  lemma {:induction false} ScriptOkIff(h: HookState, script: seq<Attempt>)
    ensures RunIsOk(h, ScriptRun(h, script).0) <==> ScriptIsOk(h.cursor, script)
    decreases |script|
  {
    hide HookRun, RunIsOk, Settlement, AttemptIsOk, IsWhy, Read, EventsRead, AttemptCursor, AttemptSettlement, AttemptSteps;
    if script == [] {
      NothingToCheck(h);
    } else {
      var at := script[0];
      var v := AttemptSettlement(h, at).1;
      AttemptOkIff(h, at);
      AttemptIsRun(h, at);
      VerdictIsWhy(at, Read(h.cursor, at.events), HookRun(h, EventsRead(h, at)).cursor);
      if v.Again? {
        var h' := HookRun(h, AttemptSteps(h, at));
        AttemptMovesCursor(h, at);
        ScriptOkIff(h', script[1..]);
        RunOkConcat(h, AttemptSteps(h, at), ScriptRun(h', script[1..]).0);
        RoundsShift(h.cursor, script, AttemptIsOk);
      } else {
        StopsAtFirst(h.cursor, script, v.outcome, AttemptIsOk);
      }
    }
  }

  lemma NothingToCheck(h: HookState)
    ensures RunIsOk(h, []) && ScriptIsOk(h.cursor, [])
  {
  }

  lemma StopsAtFirst(cursor: int, script: seq<Attempt>, o: Outcome, ok: (int, Attempt) -> bool)
    requires script != [] && IsWhy(script[0], Read(cursor, script[0].events), o)
    ensures InEachRound(cursor, script, ok) <==> ok(cursor, script[0])
  {
    hide IsWhy, Read, AttemptCursor;
    assert CursorAt(cursor, script, 0) == cursor;
    assert GoesRound(cursor, script, 0);
  }

  lemma RoundsShift(cursor: int, script: seq<Attempt>, ok: (int, Attempt) -> bool)
    requires script != [] && forall o :: !IsWhy(script[0], Read(cursor, script[0].events), o)
    ensures InEachRound(cursor, script, ok)
            <==> ok(cursor, script[0]) && InEachRound(AttemptCursor(cursor, script[0]), script[1..], ok)
  {
    hide IsWhy, Read, AttemptCursor;
    var next, tail := AttemptCursor(cursor, script[0]), script[1..];
    assert CursorAt(cursor, script, 0) == cursor && GoesRound(cursor, script, 0);
    forall k | 0 <= k <= |tail| ensures CursorAt(cursor, script, k + 1) == CursorAt(next, tail, k) {
      CursorAtTail(cursor, script, k + 1);
    }
    forall k | 0 <= k <= |tail| ensures GoesRound(cursor, script, k + 1) <==> GoesRound(next, tail, k) {
      RoundShifts(cursor, script, k);
    }
    if ok(cursor, script[0]) && InEachRound(next, tail, ok) {
      forall k | 0 <= k < |script| && GoesRound(cursor, script, k) ensures ok(CursorAt(cursor, script, k), script[k]) {
        if k > 0 { assert GoesRound(next, tail, k - 1) && tail[k - 1] == script[k]; }
      }
    }
    if InEachRound(cursor, script, ok) {
      forall k | 0 <= k < |tail| && GoesRound(next, tail, k) ensures ok(CursorAt(next, tail, k), tail[k]) {
        assert GoesRound(cursor, script, k + 1) && tail[k] == script[k + 1];
      }
    }
  }

  lemma RoundShifts(cursor: int, script: seq<Attempt>, k: nat)
    requires script != [] && k < |script| && forall o :: !IsWhy(script[0], Read(cursor, script[0].events), o)
    ensures GoesRound(cursor, script, k + 1) <==> GoesRound(AttemptCursor(cursor, script[0]), script[1..], k)
  {
    hide IsWhy, Read, AttemptCursor, CursorAt;
    var next, tail := AttemptCursor(cursor, script[0]), script[1..];
    StartsAt(cursor, script);
    forall j | 0 <= j < k ensures CursorAt(cursor, script, j + 1) == CursorAt(next, tail, j) {
      CursorAtTail(cursor, script, j + 1);
    }
    if GoesRound(cursor, script, k + 1) {
      forall j, o | 0 <= j < k ensures !IsWhy(tail[j], Read(CursorAt(next, tail, j), tail[j].events), o) {
        assert tail[j] == script[j + 1];
      }
    }
    if GoesRound(next, tail, k) {
      forall j, o | 0 <= j < k + 1 ensures !IsWhy(script[j], Read(CursorAt(cursor, script, j), script[j].events), o) {
        if j > 0 {
          CursorAtTail(cursor, script, j);
          assert tail[j - 1] == script[j];
        }
      }
    }
  }

  lemma StartsAt(cursor: int, script: seq<Attempt>)
    ensures CursorAt(cursor, script, 0) == cursor
  {
  }

  /**
   * The loop's cursor equals the reducer's after every step of every run of the loop, iff every frame
   * is aligned where it is read and every restore that is used is accepted or names the current cursor.
   */
  lemma LoopAlignedIff(h: HookState, script: seq<Attempt>)
    requires Aligned(h)
    ensures AlignedThroughout(h, ScriptRun(h, script).0) <==> ScriptIsOk(h.cursor, script)
    ensures ScriptIsOk(h.cursor, script) ==> Aligned(HookRun(h, ScriptRun(h, script).0))
  {
    hide HookRun, ScriptRun, RunIsOk, ScriptIsOk, Aligned;
    var steps := ScriptRun(h, script).0;
    LoopLocalsOk(h, script);
    AlignedThroughoutIff(h, steps);
    ScriptOkIff(h, script);
    assert steps[..|steps|] == steps;
  }

  lemma AttemptKeepsAligned(h: HookState, at: Attempt)
    requires Aligned(h) && AttemptIsOk(h.cursor, at)
    ensures Aligned(HookRun(h, AttemptSteps(h, at)))
  {
    hide HookRun, AttemptSteps, RunIsOk, AttemptIsOk, Aligned, LocalsOk;
    var steps := AttemptSteps(h, at);
    AttemptLocalsOk(h, at);
    AttemptOkIff(h, at);
    AlignedThroughoutIff(h, steps);
    assert steps[..|steps|] == steps;
  }

  // ---- every request to restore is settled ------------------------------------

  /** The step at `i` is a stream event that asks for a restore. */
  ghost predicate AsksAt(h: HookState, steps: seq<HookStep>, i: int)
    requires 0 <= i < |steps|
  {
    steps[i].Got? && AsksHydration(HookRun(h, steps[..i]).cursor, steps[i].e)
  }

  /** Every request to restore among the first `n` steps is directly followed by a restore. */
  ghost predicate Settled(h: HookState, steps: seq<HookStep>, n: int) {
    forall i :: 0 <= i < n && i < |steps| && AsksAt(h, steps, i) ==> i + 1 < |steps| && steps[i + 1].Rehydrated?
  }

  /** How a run ends: settled, cut off, completed by a terminal event, or failed to restore. */
  ghost predicate EndsSettled(h: HookState, steps: seq<HookStep>, outcome: Outcome) {
    match outcome
    case Cancelled => Settled(h, steps, |steps| - 1)
    case Complete =>
      && Settled(h, steps, |steps| - 2) && |steps| >= 2
      && steps[|steps| - 2].Got? && IsTerminalEvent(steps[|steps| - 2].e)
      && steps[|steps| - 1].Local? && steps[|steps| - 1].e.body.Done?
    case CouldNotRestore => Settled(h, steps, |steps| - 2) && steps != [] && steps[|steps| - 1] == Local(RESTORE_ERROR)
    case _ => Settled(h, steps, |steps|)
  }

  lemma SettledConcat(h: HookState, a: seq<HookStep>, b: seq<HookStep>, n: int)
    requires Settled(h, a, |a|) && Settled(HookRun(h, a), b, n)
    ensures Settled(h, a + b, |a| + n)
  {
    hide HookRun, AsksHydration;
    var all := a + b;
    forall i | 0 <= i < |a| + n && i < |all| && AsksAt(h, all, i) ensures i + 1 < |all| && all[i + 1].Rehydrated? {
      if i < |a| {
        assert all[..i] == a[..i] && AsksAt(h, a, i);
      } else {
        assert all[..i] == a + b[..i - |a|];
        RunConcat(h, a, b[..i - |a|]);
        assert AsksAt(HookRun(h, a), b, i - |a|);
      }
    }
  }

  lemma EndsSettledConcat(h: HookState, a: seq<HookStep>, b: seq<HookStep>, outcome: Outcome)
    requires Settled(h, a, |a|) && EndsSettled(HookRun(h, a), b, outcome)
    ensures EndsSettled(h, a + b, outcome)
  {
    hide HookRun, Settled, IsTerminalEvent;
    var n := match outcome case Cancelled => |b| - 1 case Complete => |b| - 2 case CouldNotRestore => |b| - 2 case _ => |b|;
    SettledConcat(h, a, b, n);
  }

  /** Among the events read, only the last can ask, and it does iff the reading says so. */
  lemma OnlyLastAsks(h: HookState, at: Attempt, i: nat)
    requires i < |EventsRead(h, at)| && AsksAt(h, EventsRead(h, at), i)
    ensures i == |EventsRead(h, at)| - 1 && Read(h.cursor, at.events).asks
  {
    hide HookRun, CursorOver, AsksHydration, IsTerminalEvent, Read;
    var r, part := Read(h.cursor, at.events), ReadPart(h.cursor, at);
    ReadIsPrefix(h.cursor, at.events);
    ReadingIsFirstStop(h.cursor, at.events);
    assert EventsRead(h, at)[..i] == Gots(part[..i]) && part[..i] == at.events[..i];
    CursorAfterGots(h, part[..i]);
  }

  lemma AttemptSettles(h: HookState, at: Attempt)
    ensures match AttemptSettlement(h, at).1
            case Again => Settled(h, AttemptSteps(h, at), |AttemptSteps(h, at)|)
            case Ends(o) => EndsSettled(h, AttemptSteps(h, at), o)
  {
    hide HookRun, AsksHydration, Read, ReadPart, IsTerminalEvent;
    var r, got, steps := Read(h.cursor, at.events), EventsRead(h, at), AttemptSteps(h, at);
    ReadIsPrefix(h.cursor, at.events);
    ReadCounts(h, at);
    var cursor := HookRun(h, got).cursor;
    forall i | 0 <= i < |steps| && AsksAt(h, steps, i) ensures i == |got| - 1 && r.asks {
      if i < |got| {
        assert steps[..i] == got[..i] && AsksAt(h, got, i);
        OnlyLastAsks(h, at, i);
      } else {
        SettlementShape(at, r, cursor);
      }
    }
    ReadingIsFirstStop(h.cursor, at.events);
  }

  lemma ReadCounts(h: HookState, at: Attempt)
    ensures |EventsRead(h, at)| == Read(h.cursor, at.events).count <= |at.events|
    ensures forall i :: 0 <= i < |EventsRead(h, at)| ==> EventsRead(h, at)[i] == Got(at.events[i])
  {
    ReadIsPrefix(h.cursor, at.events);
  }

  /**
   * In every run of the loop each request to restore is directly followed by a restore, save one that
   * the end of the loop overtakes; the loop completes on a terminal event and closes the connection.
   */
  lemma {:induction false} LoopSettles(h: HookState, script: seq<Attempt>)
    ensures EndsSettled(h, ScriptRun(h, script).0, ScriptRun(h, script).1)
    decreases |script|
  {
    hide HookRun, AttemptSteps, AttemptSettlement, Settled;
    if script == [] {
      NothingToSettle(h);
    } else {
      var steps := AttemptSteps(h, script[0]);
      AttemptSettles(h, script[0]);
      if AttemptSettlement(h, script[0]).1.Again? {
        LoopSettles(HookRun(h, steps), script[1..]);
        EndsSettledConcat(h, steps, ScriptRun(HookRun(h, steps), script[1..]).0, ScriptRun(h, script).1);
      }
    }
  }

  lemma NothingToSettle(h: HookState)
    ensures Settled(h, [], 0)
  {
  }

  // ---- the chat shows the log -------------------------------------------------

  /**
   * A step that the log accounts for: a delivered frame, at cursor 0 none that moves it but the first
   * log event; an own frame that closes or reports; or a restore of a log prefix.
   */
  ghost predicate IsFromLog(s: ChatState, log: seq<Event>, chat: ChatState, step: HookStep) {
    match step
    case Got(e) => IsDelivered(e, log) && (chat.transcript.lastSeq == 0 && MovesFromZero(e) ==> log != [] && e == log[0])
    case Local(e) => IsControl(e) && !e.body.StreamStart?
    case Rehydrated(hy) => RestoresSome(hy, s, log)
  }

  ghost predicate RestoresSome(hy: ChatHydration, s: ChatState, log: seq<Event>) {
    exists n: nat :: Restores(hy, s, log, n)
  }

  ghost predicate ShowsSome(s: ChatState, log: seq<Event>, r: ChatState) {
    exists m: nat :: Shows(s, log, r, m)
  }

  ghost predicate IsLog(s: ChatState, log: seq<Event>) {
    s.transcript.lastSeq >= 0 && IsLogFrom(log, s.transcript.lastSeq) && s.transcript.lastSeq + |log| <= MAX_SAFE_INTEGER
  }

  lemma LogStepShows(s: ChatState, log: seq<Event>, h: HookState, step: HookStep)
    requires IsLog(s, log) && ShowsSome(s, log, h.chat) && IsFromLog(s, log, h.chat, step)
    ensures ShowsSome(s, log, HookApply(h, step).chat)
  {
    hide Step, Hydrate, Restores, SameView, FoldTo, IsLogFrom, CursorAfter;
    match step
    case Got(e) =>
      var m: nat :| Shows(s, log, h.chat, m);
      var m' := ShowsNext(s, log, h.chat, m, e);
    case Local(e) =>
      var m: nat :| Shows(s, log, h.chat, m);
      var m' := ShowsNext(s, log, h.chat, m, e);
    case Rehydrated(hy) =>
      var n: nat :| Restores(hy, s, log, n);
      RestoreShows(s, log, n, h.chat, hy);
  }

  /** Every step comes from the log at the state in which it is taken. */
  ghost predicate RunIsFromLog(s: ChatState, log: seq<Event>, h: HookState, steps: seq<HookStep>) {
    forall i :: 0 <= i < |steps| ==> IsFromLog(s, log, HookRun(h, steps[..i]).chat, steps[i])
  }

  lemma {:induction false} LogRunShows(s: ChatState, log: seq<Event>, h: HookState, steps: seq<HookStep>, n: nat)
    requires IsLog(s, log) && ShowsSome(s, log, h.chat) && RunIsFromLog(s, log, h, steps) && n <= |steps|
    ensures ShowsSome(s, log, HookRun(h, steps[..n]).chat)
    decreases n
  {
    hide HookRun, HookApply, IsFromLog, ShowsSome, IsLog;
    if n == 0 {
      NothingYet(h);
    } else {
      LogRunShows(s, log, h, steps, n - 1);
      LogStepShows(s, log, HookRun(h, steps[..n - 1]), steps[n - 1]);
      RunNext(h, steps, n - 1);
    }
  }

  lemma FromLogConcat(s: ChatState, log: seq<Event>, h: HookState, a: seq<HookStep>, b: seq<HookStep>)
    requires RunIsFromLog(s, log, h, a) && RunIsFromLog(s, log, HookRun(h, a), b)
    ensures RunIsFromLog(s, log, h, a + b)
  {
    hide HookRun, IsFromLog;
    forall i | 0 <= i < |a + b| ensures IsFromLog(s, log, HookRun(h, (a + b)[..i]).chat, (a + b)[i]) {
      FromLogAt(s, log, h, a, b, i);
    }
  }

  lemma FromLogAt(s: ChatState, log: seq<Event>, h: HookState, a: seq<HookStep>, b: seq<HookStep>, i: nat)
    requires RunIsFromLog(s, log, h, a) && RunIsFromLog(s, log, HookRun(h, a), b) && i < |a + b|
    ensures IsFromLog(s, log, HookRun(h, (a + b)[..i]).chat, (a + b)[i])
  {
    hide HookRun, IsFromLog, RunIsFromLog;
    if i < |a| {
      assert (a + b)[..i] == a[..i] && (a + b)[i] == a[i];
      FromLogStep(s, log, h, a, i);
    } else {
      var k := i - |a|;
      assert (a + b)[..i] == a + b[..k] && (a + b)[i] == b[k];
      RunConcat(h, a, b[..k]);
      FromLogStep(s, log, HookRun(h, a), b, k);
    }
  }

  lemma FromLogStep(s: ChatState, log: seq<Event>, h: HookState, steps: seq<HookStep>, i: nat)
    requires RunIsFromLog(s, log, h, steps) && i < |steps|
    ensures IsFromLog(s, log, HookRun(h, steps[..i]).chat, steps[i])
  {
  }

  /**
   * The server delivers the log, in any order and with any control frames, and restores prefixes of it.
   * To a client that is still at cursor 0 it serves the first log event before any other that moves it.
   */
  ghost predicate ServesLog(s: ChatState, log: seq<Event>, cursor: int, at: Attempt) {
    && IsDeliveryOf(at.events, log) && (cursor == 0 ==> StartsAtFirst(at.events, log))
    && (at.reply.HydrationReply? ==> RestoresSome(at.reply.h, s, log))
  }

  /** Every attempt that the loop gets to serves the log at the cursor the chat then has. */
  ghost predicate ServesInTurn(s: ChatState, log: seq<Event>, h: HookState, script: seq<Attempt>)
    decreases |script|
  {
    script != [] ==>
      && ServesLog(s, log, h.chat.transcript.lastSeq, script[0])
      && (AttemptSettlement(h, script[0]).1.Again? ==>
            ServesInTurn(s, log, HookRun(h, AttemptSteps(h, script[0])), script[1..]))
  }

  /** All steps come from the log, except a last one that reports a failed restore. */
  ghost predicate LogSteps(s: ChatState, log: seq<Event>, h: HookState, steps: seq<HookStep>, outcome: Outcome) {
    if outcome.CouldNotRestore? then
      steps != [] && steps[|steps| - 1] == Local(RESTORE_ERROR) && RunIsFromLog(s, log, h, steps[..|steps| - 1])
    else RunIsFromLog(s, log, h, steps)
  }

  lemma GotsFromLog(s: ChatState, log: seq<Event>, h: HookState, events: seq<Event>, n: nat)
    requires IsLog(s, log) && ShowsSome(s, log, h.chat) && n <= |events| && IsDeliveryOf(events, log)
    requires h.chat.transcript.lastSeq == 0 ==> StartsAtFirst(events, log)
    ensures RunIsFromLog(s, log, h, Gots(events[..n]))
  {
    hide HookRun, Fold, IsDelivered, MovesFromZero, IsLogFrom, StartsAtFirst, SameView, FoldTo;
    var got := Gots(events[..n]);
    forall i | 0 <= i < |got| ensures IsFromLog(s, log, HookRun(h, got[..i]).chat, got[i]) {
      assert got[..i] == Gots(events[..i]);
      GotsFold(h, events[..i]);
      MayFollowNext(h.chat, events, log, i);
    }
  }

  /** The steps after the reading come from the log whatever the state. */
  lemma SettlingFromLog(s: ChatState, log: seq<Event>, mid: HookState, at: Attempt, r: Reading)
    requires at.reply.HydrationReply? ==> RestoresSome(at.reply.h, s, log)
    ensures var (steps, v) := Settlement(at, r.terminal, r.asks, mid.cursor);
            LogSteps(s, log, mid, steps, if v.Ends? then v.outcome else StillReconnecting)
  {
    hide HookRun, RestoresSome;
  }

  lemma LogStepsConcat(s: ChatState, log: seq<Event>, h: HookState, a: seq<HookStep>, b: seq<HookStep>, outcome: Outcome)
    requires RunIsFromLog(s, log, h, a) && LogSteps(s, log, HookRun(h, a), b, outcome)
    ensures LogSteps(s, log, h, a + b, outcome)
  {
    hide HookRun, RunIsFromLog;
    if outcome.CouldNotRestore? {
      assert (a + b)[..|a + b| - 1] == a + b[..|b| - 1];
      FromLogConcat(s, log, h, a, b[..|b| - 1]);
    } else {
      FromLogConcat(s, log, h, a, b);
    }
  }

  lemma AttemptStepsFromLog(s: ChatState, log: seq<Event>, h: HookState, at: Attempt)
    requires IsLog(s, log) && ShowsSome(s, log, h.chat) && ServesLog(s, log, h.chat.transcript.lastSeq, at)
    ensures var v := AttemptSettlement(h, at).1;
            LogSteps(s, log, h, AttemptSteps(h, at), if v.Ends? then v.outcome else StillReconnecting)
  {
    hide HookRun, Read, RestoresSome, IsLog, ShowsSome, IsDeliveryOf, StartsAtFirst, LogSteps, RunIsFromLog, Settlement;
    var r := Read(h.cursor, at.events);
    ReadIsPrefix(h.cursor, at.events);
    GotsFromLog(s, log, h, at.events, r.count);
    AttemptIsRun(h, at);
    SettlingFromLog(s, log, HookRun(h, EventsRead(h, at)), at, r);
    var v := AttemptSettlement(h, at).1;
    LogStepsConcat(s, log, h, EventsRead(h, at), AttemptSettlement(h, at).0, if v.Ends? then v.outcome else StillReconnecting);
  }

  lemma {:induction false} LoopStepsFromLog(s: ChatState, log: seq<Event>, h: HookState, script: seq<Attempt>)
    requires IsLog(s, log) && ShowsSome(s, log, h.chat) && ServesInTurn(s, log, h, script)
    ensures LogSteps(s, log, h, ScriptRun(h, script).0, ScriptRun(h, script).1)
    decreases |script|
  {
    hide HookRun, AttemptSteps, AttemptSettlement, RunIsFromLog, ServesLog, IsLog, ShowsSome;
    if script == [] {
      NoStepFromLog(s, log, h);
    } else {
      var steps := AttemptSteps(h, script[0]);
      AttemptStepsFromLog(s, log, h, script[0]);
      if AttemptSettlement(h, script[0]).1.Again? {
        var h' := HookRun(h, steps);
        LogRunShows(s, log, h, steps, |steps|);
        assert steps[..|steps|] == steps;
        LoopStepsFromLog(s, log, h', script[1..]);
        LogStepsConcat(s, log, h, steps, ScriptRun(h', script[1..]).0, ScriptRun(h, script).1);
      }
    }
  }

  lemma NoStepFromLog(s: ChatState, log: seq<Event>, h: HookState)
    ensures RunIsFromLog(s, log, h, [])
  {
  }

  /** While the cursors stay together, serving in turn is a demand on the script and the starting cursor alone. */
  ghost predicate ServesFrom(s: ChatState, log: seq<Event>, cursor: int, script: seq<Attempt>) {
    InEachRound(cursor, script, (c, at) => ServesLog(s, log, c, at))
  }

  lemma {:induction false} ServesInTurnIff(s: ChatState, log: seq<Event>, h: HookState, script: seq<Attempt>)
    requires Aligned(h) && ScriptIsOk(h.cursor, script)
    ensures ServesInTurn(s, log, h, script) <==> ServesFrom(s, log, h.cursor, script)
    decreases |script|
  {
    hide HookRun, Settlement, AttemptIsOk, ServesLog, IsWhy, Read, EventsRead, AttemptCursor, AttemptSettlement, AttemptSteps, InEachRound;
    if script == [] {
      NoRounds(h.cursor, (c, at) => ServesLog(s, log, c, at));
    } else {
      var at := script[0];
      var v := AttemptSettlement(h, at).1;
      AttemptIsRun(h, at);
      VerdictIsWhy(at, Read(h.cursor, at.events), HookRun(h, EventsRead(h, at)).cursor);
      if v.Again? {
        RoundsShift(h.cursor, script, AttemptIsOk);
        RoundsShift(h.cursor, script, (c, at) => ServesLog(s, log, c, at));
        AttemptMovesCursor(h, at);
        AttemptKeepsAligned(h, at);
        ServesInTurnIff(s, log, HookRun(h, AttemptSteps(h, at)), script[1..]);
      } else {
        StopsAtFirst(h.cursor, script, v.outcome, (c, at) => ServesLog(s, log, c, at));
      }
    }
  }

  lemma NoRounds(cursor: int, ok: (int, Attempt) -> bool)
    ensures InEachRound(cursor, [], ok)
  {
  }

  /** Past 0 nothing is asked of the order: every attempt may deliver the log in any way and restore past 0. */
  ghost predicate ServesAnyhow(s: ChatState, log: seq<Event>, at: Attempt) {
    && IsDeliveryOf(at.events, log)
    && (at.reply.HydrationReply? ==> exists n: nat :: Restores(at.reply.h, s, log, n) && s.transcript.lastSeq + n > 0)
  }

  lemma {:induction false} StepsStayPastZero(s: ChatState, log: seq<Event>, h: HookState, steps: seq<HookStep>)
    requires h.chat.transcript.lastSeq > 0
    requires forall hy :: Rehydrated(hy) in steps ==> exists n: nat :: Restores(hy, s, log, n) && s.transcript.lastSeq + n > 0
    ensures HookRun(h, steps).chat.transcript.lastSeq > 0
  {
    hide Step, CursorAfter, Restores;
    if steps != [] {
      var k := |steps| - 1;
      StepsStayPastZero(s, log, h, steps[..k]);
      var chat := HookRun(h, steps[..k]).chat;
      match steps[k]
      case Got(e) => StepFromZero(chat, e, log);
      case Local(e) => StepFromZero(chat, e, log);
      case Rehydrated(hy) =>
        assert Rehydrated(hy) in steps;
        var n: nat :| Restores(hy, s, log, n) && s.transcript.lastSeq + n > 0;
        RestoreSetsChat(s, log, n, chat, hy);
    }
  }

  lemma RestoreSetsChat(s: ChatState, log: seq<Event>, n: nat, chat: ChatState, hy: ChatHydration)
    requires Restores(hy, s, log, n)
    ensures Hydrate(chat, hy).transcript.lastSeq == s.transcript.lastSeq + n
  {
  }

  lemma {:induction false} PastZeroServesInTurn(s: ChatState, log: seq<Event>, h: HookState, script: seq<Attempt>)
    requires h.chat.transcript.lastSeq > 0 && forall k :: 0 <= k < |script| ==> ServesAnyhow(s, log, script[k])
    ensures ServesInTurn(s, log, h, script)
    decreases |script|
  {
    hide HookRun, AttemptSteps, AttemptSettlement, IsDeliveryOf, StartsAtFirst, Restores;
    if script != [] {
      var at, steps := script[0], AttemptSteps(h, script[0]);
      assert ServesAnyhow(s, log, at);
      AttemptRestores(h, at);
      StepsStayPastZero(s, log, h, steps);
      PastZeroServesInTurn(s, log, HookRun(h, steps), script[1..]);
    }
  }

  lemma AttemptRestores(h: HookState, at: Attempt)
    ensures forall hy :: Rehydrated(hy) in AttemptSteps(h, at) ==> at.reply.HydrationReply? && hy == at.reply.h
  {
    hide HookRun, Read, ReadPart;
    SettlementShape(at, Read(h.cursor, at.events), HookRun(h, EventsRead(h, at)).cursor);
  }

  /**
   * Safety of the whole loop: if every connection delivers the log in any order with drops and repeats,
   * to a chat at cursor 0 its first event first, and every restore is of a log prefix, then at every
   * moment of every run of the loop the chat shows a prefix of the log; a failed restore shows its
   * error on top of one.
   */
  lemma LoopShowsLogPrefix(s: ChatState, log: seq<Event>, h: HookState, script: seq<Attempt>, n: nat)
    requires IsLog(s, log) && ShowsSome(s, log, h.chat) && ServesInTurn(s, log, h, script)
    requires n <= |ScriptRun(h, script).0|
    ensures var (steps, outcome) := ScriptRun(h, script);
            var chat := HookRun(h, steps[..n]).chat;
            if n == |steps| && outcome.CouldNotRestore? then
              && n > 0 && ShowsSome(s, log, HookRun(h, steps[..n - 1]).chat)
              && chat.transcript.status.Failed? && chat.transcript.error == Some("Could not restore the live thread.")
              && chat.transcript.messages == CloseOpenAssistant(HookRun(h, steps[..n - 1]).chat.transcript.messages)
            else ShowsSome(s, log, chat)
  {
    hide HookRun, ScriptRun, ShowsSome, RunIsFromLog, IsLog, ServesInTurn;
    var steps, outcome := ScriptRun(h, script).0, ScriptRun(h, script).1;
    LoopStepsFromLog(s, log, h, script);
    if n == |steps| && outcome.CouldNotRestore? {
      LogRunShows(s, log, h, steps[..n - 1], n - 1);
      assert steps[..n - 1][..n - 1] == steps[..n - 1];
      RunNext(h, steps, n - 1);
      RestoreErrorShows(HookRun(h, steps[..n - 1]));
    } else if n == |steps| || !outcome.CouldNotRestore? {
      LogRunShows(s, log, h, steps, n);
    } else {
      LogRunShows(s, log, h, steps[..|steps| - 1], n);
      assert steps[..|steps| - 1][..n] == steps[..n];
    }
  }

  lemma RestoreErrorShows(h: HookState)
    ensures var t := HookApply(h, Local(RESTORE_ERROR)).chat.transcript;
            t.status.Failed? && t.error == Some("Could not restore the live thread.") && t.messages == CloseOpenAssistant(h.chat.transcript.messages)
  {
  }

  // ---- the loop catches up ----------------------------------------------------

  /** The log closes with its only terminal event, and no stop reason in it is unknown. */
  ghost predicate ClosesOnce(log: seq<Event>) {
    && log != [] && IsTerminalEvent(log[|log| - 1])
    && (forall i :: 0 <= i < |log| ==> !HasUnknownStopReason(log[i]))
    && (forall i :: 0 <= i < |log| - 1 ==> !IsTerminalEvent(log[i]))
  }

  /** A frame outside the run that does not end the reading. */
  predicate IsPassedOver(e: Event) {
    !IsCounted(e) && !IsTerminalEvent(e) && !HasUnknownStopReason(e) && e.body != StreamShutdown("slow_consumer")
  }

  /**
   * The first `k` frames of a connection serve the log from position `from` to its end: the
   * observations of the run in order, with start frames, replay marks and whatever else is passed
   * over in between. What follows is not read.
   */
  ghost predicate ServesRest(log: seq<Event>, from: nat, events: seq<Event>, k: nat) {
    && from < |log| && 0 < k <= |events| && IsCounted(events[k - 1])
    && RunPart(events[..k]) == log[from..]
    && forall i :: 0 <= i < k ==> IsCounted(events[i]) || IsPassedOver(events[i])
  }

  /** A passed-over frame lets the reading go on, and never lowers the cursor. */
  lemma PassedOverGoesOn(cursor: int, e: Event)
    requires IsPassedOver(e)
    ensures !Stops(cursor, e) && CursorAfter(cursor, e) >= cursor
  {
  }

  /** A log event at or before the next number is no gap, and the cursor reaches it. */
  lemma LogEventGoesOn(s: ChatState, log: seq<Event>, cursor: int, from: nat)
    requires IsLog(s, log) && ClosesOnce(log) && from < |log| && s.transcript.lastSeq + from <= cursor
    ensures IsCounted(log[from]) && !AsksHydration(cursor, log[from])
    ensures IsTerminalEvent(log[from]) <==> from == |log| - 1
    ensures CursorAfter(cursor, log[from]) >= s.transcript.lastSeq + from + 1
  {
  }

  /** A connection that serves the log from at or before the cursor is read up to the log's end. */
  lemma {:induction false} ServedLogIsRead(s: ChatState, log: seq<Event>, cursor: int, events: seq<Event>, k: nat, from: nat)
    requires IsLog(s, log) && ClosesOnce(log) && ServesRest(log, from, events, k)
    requires s.transcript.lastSeq + from <= cursor
    ensures Read(cursor, events) == Reading(k, true, false)
    decreases k
  {
    hide IsLog, ClosesOnce, IsTerminalEvent, AsksHydration, CursorAfter, IsPassedOver, IsCounted, RunPart;
    var e, tail := events[0], events[1..];
    var part := events[..k][1..];
    assert events[..k] == [e] + part && part == tail[..k - 1];
    RunPartConcat([e], part);
    RunPartOne(e);
    if IsCounted(e) {
      assert RunPart(events[..k])[0] == e == log[from];
      LogEventGoesOn(s, log, cursor, from);
      assert RunPart(part) == log[from + 1..];
      if from + 1 < |log| {
        assert k > 1 by { NothingInRun(); }
        ServedLogIsRead(s, log, CursorAfter(cursor, e), tail, k - 1, from + 1);
      } else if k > 1 {
        LastIsInRun(part);
      }
    } else {
      PassedOverGoesOn(cursor, e);
      assert RunPart(part) == log[from..];
      ServedLogIsRead(s, log, CursorAfter(cursor, e), tail, k - 1, from);
    }
  }

  /** The frames of a gateway connection: a start frame, the backlog, its end mark, the live tail, and anything after the run. */
  ghost function GatewayFrames(log: seq<Event>, from: nat, mark: nat, start: Event, complete: Event, rest: seq<Event>): seq<Event>
    requires from <= mark <= |log|
  {
    [start] + log[from..mark] + [complete] + log[mark..] + rest
  }

  /** Such a connection serves the rest of the log; a start frame that echoes cursor 0 seeds nothing. */
  lemma GatewayServesRest(s: ChatState, log: seq<Event>, from: nat, mark: nat, start: Event, complete: Event, rest: seq<Event>)
    returns (k: nat)
    requires IsLog(s, log) && from <= mark <= |log| && from < |log|
    requires start.body.StreamStart? && complete.body.ReplayComplete?
    ensures ServesRest(log, from, GatewayFrames(log, from, mark, start, complete, rest), k)
    ensures s.transcript.lastSeq == 0 && from == 0 && start.body.since == Some(0) ==>
              StartsAtFirst(GatewayFrames(log, from, mark, start, complete, rest), log)
  {
    hide RunPart, StartsAtFirst, IsCounted, IsPassedOver, IsLogFrom;
    var events := GatewayFrames(log, from, mark, start, complete, rest);
    k := |log| - from + if mark < |log| then 2 else 1;
    GatewayRunPart(s, log, from, mark, start, complete);
    assert events[..k] == if mark < |log| then [start] + log[from..mark] + ([complete] + log[mark..]) else [start] + log[from..];
    forall i | 0 <= i < k ensures IsCounted(events[i]) || IsPassedOver(events[i]) {
      assert events[i] in [start, complete] || events[i] in log;
    }
    assert events[k - 1] in log;
    if s.transcript.lastSeq == 0 && from == 0 && start.body.since == Some(0) {
      EchoStartsAtFirst(log, mark, start, complete, rest);
    }
  }

  lemma GatewayRunPart(s: ChatState, log: seq<Event>, from: nat, mark: nat, start: Event, complete: Event)
    requires IsLog(s, log) && from <= mark <= |log| && start.body.StreamStart? && complete.body.ReplayComplete?
    ensures RunPart([start] + log[from..mark] + ([complete] + log[mark..])) == log[from..]
    ensures RunPart([start] + log[from..]) == log[from..]
    ensures IsPassedOver(start) && IsPassedOver(complete) && forall e :: e in log ==> IsCounted(e)
  {
    hide RunPart;
    RunPartOne(start);
    RunPartOne(complete);
    LogIsItsRunPart(log, s.transcript.lastSeq, from, mark);
    LogIsItsRunPart(log, s.transcript.lastSeq, mark, |log|);
    LogIsItsRunPart(log, s.transcript.lastSeq, from, |log|);
    assert log[mark..|log|] == log[mark..] && log[from..|log|] == log[from..] == log[from..mark] + log[mark..];
    RunPartConcat([start] + log[from..mark], [complete] + log[mark..]);
    RunPartConcat([start], log[from..mark]);
    RunPartConcat([complete], log[mark..]);
    RunPartConcat([start], log[from..]);
  }

  lemma EchoStartsAtFirst(log: seq<Event>, mark: nat, start: Event, complete: Event, rest: seq<Event>)
    requires IsLogFrom(log, 0) && mark <= |log| && log != [] && |log| <= MAX_SAFE_INTEGER
    requires start.body.StreamStart? && start.body.since == Some(0) && complete.body.ReplayComplete?
    ensures StartsAtFirst(GatewayFrames(log, 0, mark, start, complete, rest), log)
  {
    var events := GatewayFrames(log, 0, mark, start, complete, rest);
    var p := if mark > 0 then 1 else 2;
    assert !MovesFromZero(events[0]) && events[p] == log[0] && MovesFromZero(events[p]);
    if p == 2 { assert events[1] == complete; }
    forall i | IsFirstMover(events, i) ensures events[i] == log[0] {
      assert i == p;
    }
  }

  lemma NothingInRun()
    ensures RunPart([]) == []
  {
  }

  lemma LastIsInRun(es: seq<Event>)
    requires es != [] && IsCounted(es[|es| - 1])
    ensures RunPart(es) != []
  {
  }

  lemma {:induction false} GotsFold(h: HookState, events: seq<Event>)
    ensures HookRun(h, Gots(events)).chat == Fold(h.chat, events)
  {
    hide Step, CursorAfter;
    if events == [] {
      assert Gots(events) == [];
    } else {
      var n := |events| - 1;
      GotsFold(h, events[..n]);
      assert events[..n + 1] == events;
      GotsSnoc(events, n);
      RunSnoc(h, Gots(events[..n]), Got(events[n]));
    }
  }

  /** Replaying the rest of the log on a client that shows a prefix shows all of it. */
  lemma ReplayShowsAll(s: ChatState, log: seq<Event>, r: ChatState, m: nat, es: seq<Event>, from: nat)
    requires IsLog(s, log) && Shows(s, log, r, m) && from <= m && RunPart(es) == log[from..]
    requires r.transcript.lastSeq == 0 ==> StartsAtFirst(es, log)
    ensures SameView(Fold(r, es).transcript, Fold(s, log).transcript)
  {
    hide Step, FoldTo, Fold, IsLogFrom, StartsAtFirst;
    var q := ChatState(FoldTo(s, log, m).transcript, r.connection);
    FoldSameView(r, q, es);
    ReplayCatchesUp(s, log, q, m, es, from);
    WholeFold(s, log);
  }

  /** One connection that serves the rest of the log completes the run. */
  lemma ServedAttemptCompletes(s: ChatState, log: seq<Event>, h: HookState, at: Attempt, k: nat, from: nat)
    requires IsLog(s, log) && ClosesOnce(log) && ShowsSome(s, log, h.chat) && h.cursor == h.chat.transcript.lastSeq
    requires ServesRest(log, from, at.events, k) && s.transcript.lastSeq + from <= h.cursor && !at.aborted
    requires h.cursor == 0 ==> StartsAtFirst(at.events, log)
    ensures AttemptSettlement(h, at).1 == Ends(Complete)
    ensures var chat := HookRun(h, AttemptSteps(h, at)).chat;
            SameView(chat.transcript, Fold(s, log).transcript) && chat.connection.phase == Closed
  {
    hide Step, Fold, HookRun, Read, ClosesOnce, SameView, StartsAtFirst, IsCounted, IsPassedOver, RunPart;
    var m: nat :| Shows(s, log, h.chat, m);
    ServedLogIsRead(s, log, h.cursor, at.events, k, from);
    var mid, served := HookRun(h, EventsRead(h, at)), at.events[..k];
    assert ReadPart(h.cursor, at) == served;
    GotsFold(h, served);
    if h.cursor == 0 { StartsAtFirstPrefix(at.events, log, k); }
    ReplayShowsAll(s, log, h.chat, m, served, from);
    AttemptIsRun(h, at);
    var done := Local(DoneEvent(mid.cursor));
    assert AttemptSettlement(h, at) == ([done], Ends(Complete));
    RunOfTwo(mid, done, done);
    DoneCloses(mid, mid.cursor);
  }

  lemma DoneCloses(h: HookState, cursor: int)
    ensures var chat := HookApply(h, Local(DoneEvent(cursor))).chat;
            chat.transcript == h.chat.transcript && chat.connection.phase == Closed
  {
  }

  /** A script whose first part never ends the loop goes on with the rest. */
  lemma {:induction false} LoopGoesOn(h: HookState, before: seq<Attempt>, rest: seq<Attempt>)
    requires ScriptRun(h, before).1 == StillReconnecting
    ensures var steps := ScriptRun(h, before).0;
            ScriptRun(h, before + rest) == (steps + ScriptRun(HookRun(h, steps), rest).0, ScriptRun(HookRun(h, steps), rest).1)
    decreases |before|
  {
    hide HookRun, AttemptSteps, AttemptSettlement;
    if before == [] {
      assert before + rest == rest && [] + ScriptRun(h, rest).0 == ScriptRun(h, rest).0;
      NothingYet(h);
    } else {
      var at, all := before[0], before + rest;
      VerdictOf(h, at);
      assert all[0] == at && all[1..] == before[1..] + rest;
      var steps := AttemptSteps(h, at);
      var h' := HookRun(h, steps);
      LoopGoesOn(h', before[1..], rest);
      var more := ScriptRun(h', before[1..]).0;
      RunConcat(h, steps, more);
      var last := ScriptRun(HookRun(h', more), rest).0;
      assert steps + (more + last) == steps + more + last;
    }
  }

  lemma VerdictOf(h: HookState, at: Attempt)
    ensures AttemptSettlement(h, at).1 != Ends(StillReconnecting)
  {
    hide HookRun, Read, EventsRead;
  }

  /**
   * Liveness of the whole loop, from cursor 0 on: after any attempts that deliver the log badly but keep
   * the cursors together, one connection that serves the log from at or before the cursor, with any start
   * frames and replay marks in it, completes the loop, and the chat then shows exactly the whole log.
   */
  lemma LoopCompletes(s: ChatState, log: seq<Event>, h: HookState, before: seq<Attempt>, at: Attempt, after: seq<Attempt>,
                      k: nat, from: nat)
    requires IsLog(s, log) && ClosesOnce(log) && ShowsSome(s, log, h.chat) && Aligned(h)
    requires ScriptIsOk(h.cursor, before) && ScriptRun(h, before).1 == StillReconnecting
    requires ServesInTurn(s, log, h, before)
    requires ServesRest(log, from, at.events, k) && !at.aborted
    requires var cursor := HookRun(h, ScriptRun(h, before).0).cursor;
             s.transcript.lastSeq + from <= cursor && (cursor == 0 ==> StartsAtFirst(at.events, log))
    ensures var (steps, outcome) := ScriptRun(h, before + [at] + after);
            var chat := HookRun(h, steps).chat;
            && outcome == Complete && chat.connection.phase == Closed
            && SameView(chat.transcript, Fold(s, log).transcript)
  {
    hide HookRun, ScriptIsOk, ShowsSome, IsLog, ClosesOnce, ServesInTurn, ServesRest, StartsAtFirst, Fold, SameView;
    hide AttemptSteps, AttemptSettlement;
    var steps := ScriptRun(h, before).0;
    var mid := HookRun(h, steps);
    LoopAlignedIff(h, before);
    LoopShowsLogPrefix(s, log, h, before, |steps|);
    assert steps[..|steps|] == steps;
    ServedAttemptCompletes(s, log, mid, at, k, from);
    assert before + [at] + after == before + ([at] + after);
    LoopGoesOn(h, before, [at] + after);
    assert ([at] + after)[0] == at;
    RunConcat(h, steps, AttemptSteps(mid, at));
  }

  /** A log of one turn, by name: it ends with `end_turn`, and before that nothing fails and every stop goes on. */
  ghost predicate IsOneTurn(log: seq<Event>) {
    && log != [] && log[|log| - 1].body.TurnEnd? && log[|log| - 1].body.stopReason == "end_turn"
    && forall i :: 0 <= i < |log| - 1 ==>
         && !log[i].body.ErrorEvent? && !log[i].body.TurnInterrupted?
         && (log[i].body.TurnEnd? ==> log[i].body.stopReason in {"tool_use", "pause_turn"})
  }

  /** So the loop completes on the turn's own end: a served turn shows the whole turn and closes. */
  lemma LoopCompletesTurn(s: ChatState, log: seq<Event>, h: HookState, before: seq<Attempt>, at: Attempt, after: seq<Attempt>,
                          k: nat, from: nat)
    requires IsLog(s, log) && IsOneTurn(log) && ShowsSome(s, log, h.chat) && Aligned(h)
    requires ScriptIsOk(h.cursor, before) && ScriptRun(h, before).1 == StillReconnecting
    requires ServesInTurn(s, log, h, before) && ServesRest(log, from, at.events, k) && !at.aborted
    requires var cursor := HookRun(h, ScriptRun(h, before).0).cursor;
             s.transcript.lastSeq + from <= cursor && (cursor == 0 ==> StartsAtFirst(at.events, log))
    ensures var (steps, outcome) := ScriptRun(h, before + [at] + after);
            var chat := HookRun(h, steps).chat;
            && outcome == Complete && chat.connection.phase == Closed
            && SameView(chat.transcript, Fold(s, log).transcript)
  {
    hide HookRun, ScriptIsOk, ShowsSome, ServesInTurn, ServesRest, StartsAtFirst, Fold, SameView, ScriptRun;
    forall i | 0 <= i < |log| ensures IsTerminalEvent(log[i]) <==> i == |log| - 1 { TerminalIs(log[i]); }
    forall i | 0 <= i < |log| ensures !HasUnknownStopReason(log[i]) { TerminalIs(log[i]); }
    LoopCompletes(s, log, h, before, at, after, k, from);
  }
}

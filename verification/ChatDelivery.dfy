/** The reducer as a replica of the run's log: reordering, repeats, drops and gaps. */
module ChatDelivery {
  import opened Common
  import opened ChatModel
  import opened ChatReducer

  /** `log` holds run observations numbered c+1, c+2, ... */
  ghost predicate IsLogFrom(log: seq<Event>, c: int) {
    forall i :: 0 <= i < |log| ==> !IsControl(log[i]) && log[i].seqNo == Some(c + 1 + i)
  }

  /** What may reach the reducer: any log event, any control frame, or anything without a usable number. */
  ghost predicate IsDelivered(d: Event, log: seq<Event>) {
    d in log || IsControl(d) || !IsSafeNat(d.seqNo)
  }

  ghost predicate IsDeliveryOf(delivery: seq<Event>, log: seq<Event>) {
    forall i :: 0 <= i < |delivery| ==> IsDelivered(delivery[i], log)
  }

  /** A well-formed start frame that takes an empty replica past 0. */
  predicate SeedsReplica(b: Body)
    requires b.StreamStart?
  {
    IsSafeNat(b.since) && b.since.value > 0 && IsSafeInteger(b.maxSeqAtStart) && b.maxSeqAtStart.value >= b.since.value
  }

  /** The frames that take a new replica past 0: numbered observations and seeding start frames. */
  predicate MovesFromZero(d: Event) {
    if IsControl(d) then d.body.StreamStart? && SeedsReplica(d.body) else IsSafeNat(d.seqNo) && d.seqNo.value > 0
  }

  /** Frame `i` is the first that takes a new replica past 0. */
  ghost predicate IsFirstMover(delivery: seq<Event>, i: int) {
    && 0 <= i < |delivery| && MovesFromZero(delivery[i])
    && forall j :: 0 <= j < i ==> !MovesFromZero(delivery[j])
  }

  /** The first frame to take a new replica past 0, if there is one, is the first log event. */
  ghost predicate StartsAtFirst(delivery: seq<Event>, log: seq<Event>) {
    forall i :: IsFirstMover(delivery, i) ==> log != [] && delivery[i] == log[0]
  }

  /** At 0 the gap detector is off, so the delivery itself has to start right; past 0 nothing is asked of it. */
  ghost predicate MayFollow(r: ChatState, delivery: seq<Event>, log: seq<Event>) {
    if r.transcript.lastSeq == 0 then StartsAtFirst(delivery, log) else r.connection.lastDeliveredSeq > 0
  }

  /** The same for one frame. */
  ghost predicate MayFollowOne(r: ChatState, d: Event, log: seq<Event>) {
    if r.transcript.lastSeq == 0 then MovesFromZero(d) ==> log != [] && d == log[0] else r.connection.lastDeliveredSeq > 0
  }

  /** An observation changes the transcript in a way that reads only the transcript. */
  lemma ObserveReadsTranscriptOnly(b1: ChatState, b2: ChatState, seqNo: nat, body: Body)
    requires b1.transcript == b2.transcript
    ensures Observe(b1, seqNo, body).transcript == Observe(b2, seqNo, body).transcript
  {
    hide DeltaRows, CompleteRows, ThinkingRows, ToolStartRows, UpdateOrInsertToolCall, ReconcileOptimisticUser, CloseOpenAssistant;
    hide UpsertById, WithoutId, IsActivation, IsOperationHash, TypeName;
  }

  /** Observations never move the cursor; `Advance` already did. */
  lemma ObserveKeepsCursor(b: ChatState, seqNo: nat, body: Body)
    ensures Observe(b, seqNo, body).transcript.lastSeq == b.transcript.lastSeq
    ensures Observe(b, seqNo, body).connection.lastDeliveredSeq == b.connection.lastDeliveredSeq
  {
    hide DeltaRows, CompleteRows, ThinkingRows, ToolStartRows, UpdateOrInsertToolCall, ReconcileOptimisticUser, CloseOpenAssistant;
    hide UpsertById, WithoutId, IsActivation, IsOperationHash, TypeName;
  }

  lemma InOrderStepReadsTranscriptOnly(s1: ChatState, s2: ChatState, e: Event)
    requires s1.transcript == s2.transcript && !IsControl(e)
    requires s1.transcript.lastSeq >= 0 && e.seqNo == Some(s1.transcript.lastSeq + 1)
    ensures Step(s1, e).transcript == Step(s2, e).transcript
    ensures IsSafeNat(e.seqNo) ==> Step(s1, e).transcript.lastSeq == e.seqNo.value
  {
    if IsSafeNat(e.seqNo) {
      var n := e.seqNo.value;
      ObserveReadsTranscriptOnly(Advance(s1, n), Advance(s2, n), n, e.body);
      ObserveKeepsCursor(Advance(s1, n), n, e.body);
    }
  }

  /** A control frame changes the transcript iff it seeds a replica at 0; otherwise only the connection moves. */
  lemma ControlKeepsTranscriptIff(s: ChatState, e: Event)
    requires IsControl(e) && s.transcript.lastSeq >= 0
    ensures Step(s, e).transcript == s.transcript <==> s.transcript.lastSeq > 0 || !MovesFromZero(e)
    ensures Step(s, e).transcript.lastSeq >= s.transcript.lastSeq
    ensures s.transcript.lastSeq > 0 && s.connection.lastDeliveredSeq > 0 ==> Step(s, e).connection.lastDeliveredSeq > 0
  {
  }

  /**
   * Exactly when a skipped number is held back: an event further than one past the cursor
   * leaves the transcript alone iff something was already delivered.
   */
  lemma GapIsHeldIff(s: ChatState, e: Event)
    requires !IsControl(e) && IsSafeNat(e.seqNo) && s.transcript.lastSeq >= 0
    requires e.seqNo.value > s.transcript.lastSeq + 1
    ensures Step(s, e).transcript == s.transcript <==> s.connection.lastDeliveredSeq > 0
    ensures s.connection.lastDeliveredSeq <= 0 ==> Step(s, e).transcript.lastSeq == e.seqNo.value
    ensures s.connection.lastDeliveredSeq > 0 ==> Step(s, e).connection.phase == ResyncRequired
  {
    ObserveKeepsCursor(Advance(s, e.seqNo.value), e.seqNo.value, e.body);
  }

  /** The state after the first `n` log events. */
  ghost function FoldTo(s: ChatState, log: seq<Event>, n: nat): ChatState
    requires n <= |log|
  {
    if n == 0 then s else Step(FoldTo(s, log, n - 1), log[n - 1])
  }

  lemma {:induction false} FoldToIsFold(s: ChatState, log: seq<Event>, n: nat)
    requires n <= |log|
    ensures FoldTo(s, log, n) == Fold(s, log[..n])
  {
    if n > 0 {
      FoldToIsFold(s, log, n - 1);
      SliceSnoc(log, 0, n);
      FoldSnoc(s, log[..n - 1], log[n - 1], log[..n]);
    }
  }

  lemma WholeFold(s: ChatState, log: seq<Event>)
    ensures FoldTo(s, log, |log|) == Fold(s, log)
  {
    FoldToIsFold(s, log, |log|);
    assert log[..|log|] == log;
  }

  /** `r` holds exactly the transcript of the first `n` log events. */
  ghost predicate Holds(s: ChatState, log: seq<Event>, r: ChatState, n: int) {
    0 <= n <= |log| && r.transcript.lastSeq == s.transcript.lastSeq + n && r.transcript == FoldTo(s, log, n).transcript
  }

  lemma HoldsNothing(s: ChatState, log: seq<Event>)
    ensures Holds(s, log, s, 0)
  {
  }

  /** A delivered item either changes nothing or extends the held prefix by one. */
  lemma DeliverOne(s: ChatState, log: seq<Event>, r: ChatState, n: nat, d: Event)
    requires s.transcript.lastSeq >= 0 && IsLogFrom(log, s.transcript.lastSeq)
    requires Holds(s, log, r, n) && MayFollowOne(r, d, log) && IsDelivered(d, log)
    ensures Step(r, d).transcript.lastSeq > 0 ==> Step(r, d).connection.lastDeliveredSeq > 0
    ensures Holds(s, log, Step(r, d), n) || Holds(s, log, Step(r, d), n + 1)
  {
    if IsControl(d) {
      ControlKeepsTranscriptIff(r, d);
    } else if IsSafeNat(d.seqNo) && d.seqNo.value == r.transcript.lastSeq + 1 {
      assert log[n] == d;
      InOrderStepReadsTranscriptOnly(r, FoldTo(s, log, n), d);
      ObserveKeepsCursor(Advance(r, d.seqNo.value), d.seqNo.value, d.body);
    }
  }

  /** The cursor never falls; at 0 the first log event, and nothing but a mover, takes it past 0. */
  lemma StepFromZero(r: ChatState, d: Event, log: seq<Event>)
    requires r.transcript.lastSeq >= 0
    ensures Step(r, d).transcript.lastSeq >= r.transcript.lastSeq
    ensures r.transcript.lastSeq == 0 && Step(r, d).transcript.lastSeq > 0 ==> MovesFromZero(d)
    ensures r.transcript.lastSeq == 0 && MovesFromZero(d) && IsLogFrom(log, 0) && log != [] && d == log[0] ==>
              Step(r, d).transcript.lastSeq > 0
  {
    if IsControl(d) {
      ControlKeepsTranscriptIff(r, d);
    } else if IsSafeNat(d.seqNo) {
      ObserveKeepsCursor(Advance(r, d.seqNo.value), d.seqNo.value, d.body);
    }
  }

  /** A replica that is still at 0 was there before and has seen nothing that could move it. */
  lemma {:induction false} StillAtZero(r: ChatState, log: seq<Event>, delivery: seq<Event>)
    requires r.transcript.lastSeq >= 0
    requires r.transcript.lastSeq == 0 ==> IsLogFrom(log, 0) && StartsAtFirst(delivery, log)
    ensures Fold(r, delivery).transcript.lastSeq >= r.transcript.lastSeq
    ensures Fold(r, delivery).transcript.lastSeq == 0 ==> forall i :: 0 <= i < |delivery| ==> !MovesFromZero(delivery[i])
    decreases |delivery|
  {
    hide Step, MovesFromZero, IsLogFrom;
    if delivery != [] {
      var n := |delivery| - 1;
      if r.transcript.lastSeq == 0 { StartsAtFirstPrefix(delivery, log, n); }
      StillAtZero(r, log, delivery[..n]);
      StepFromZero(Fold(r, delivery[..n]), delivery[n], log);
      if Fold(r, delivery[..n]).transcript.lastSeq == 0 {
        assert forall i :: 0 <= i < n ==> delivery[..n][i] == delivery[i];
        assert MovesFromZero(delivery[n]) ==> IsFirstMover(delivery, n);
      }
    }
  }

  lemma StartsAtFirstPrefix(delivery: seq<Event>, log: seq<Event>, n: nat)
    requires n <= |delivery| && StartsAtFirst(delivery, log)
    ensures StartsAtFirst(delivery[..n], log)
  {
    hide MovesFromZero;
    forall i | IsFirstMover(delivery[..n], i) ensures log != [] && delivery[..n][i] == log[0] {
      assert forall j :: 0 <= j <= i ==> delivery[..n][j] == delivery[j];
      assert IsFirstMover(delivery, i);
    }
  }

  /** What a delivery allows as a whole it allows frame by frame. */
  lemma MayFollowNext(r: ChatState, delivery: seq<Event>, log: seq<Event>, n: nat)
    requires n < |delivery| && r.transcript.lastSeq >= 0
    requires r.transcript.lastSeq == 0 ==> IsLogFrom(log, 0) && StartsAtFirst(delivery, log)
    ensures Fold(r, delivery[..n]).transcript.lastSeq == 0 && MovesFromZero(delivery[n]) ==> log != [] && delivery[n] == log[0]
  {
    hide Fold, MovesFromZero, IsLogFrom;
    if r.transcript.lastSeq == 0 { StartsAtFirstPrefix(delivery, log, n); }
    StillAtZero(r, log, delivery[..n]);
    if Fold(r, delivery[..n]).transcript.lastSeq == 0 && MovesFromZero(delivery[n]) {
      assert forall i :: 0 <= i < n ==> delivery[..n][i] == delivery[i];
      assert IsFirstMover(delivery, n);
    }
  }

  /** Delivery on top of a replica that already holds a log prefix. */
  lemma {:induction false} DeliveryExtendsPrefix(s: ChatState, log: seq<Event>, r: ChatState, n: nat, delivery: seq<Event>)
    returns (m: nat)
    requires s.transcript.lastSeq >= 0 && IsLogFrom(log, s.transcript.lastSeq)
    requires Holds(s, log, r, n) && MayFollow(r, delivery, log) && IsDeliveryOf(delivery, log)
    ensures m >= n && Holds(s, log, Fold(r, delivery), m)
    ensures Fold(r, delivery).transcript.lastSeq > 0 ==> Fold(r, delivery).connection.lastDeliveredSeq > 0
    decreases |delivery|
  {
    hide Step, IsLogFrom, FoldTo, MovesFromZero, StartsAtFirst, IsDelivered;
    m := n;
    if delivery != [] {
      var k := |delivery| - 1;
      if r.transcript.lastSeq == 0 { StartsAtFirstPrefix(delivery, log, k); }
      m := DeliveryExtendsPrefix(s, log, r, n, delivery[..k]);
      MayFollowNext(r, delivery, log, k);
      var q := Fold(r, delivery[..k]);
      DeliverOne(s, log, q, m, delivery[k]);
      if !Holds(s, log, Step(q, delivery[k]), m) { m := m + 1; }
    }
  }

  /**
   * Safety of the replica: whatever is reordered, repeated, dropped or interleaved, the
   * transcript is always the fold of the contiguous log prefix that ends at its cursor. A new
   * replica is safe once the first frame to move it is the first log event.
   */
  lemma DeliveryIsPrefixFold(s: ChatState, log: seq<Event>, delivery: seq<Event>)
    requires s.transcript.lastSeq >= 0 && MayFollow(s, delivery, log)
    requires IsLogFrom(log, s.transcript.lastSeq) && IsDeliveryOf(delivery, log)
    ensures var r := Fold(s, delivery);
            var n := r.transcript.lastSeq - s.transcript.lastSeq;
            0 <= n <= |log| && r.transcript == Fold(s, log[..n]).transcript
  {
    var n := DeliveryExtendsPrefix(s, log, s, 0, delivery);
    FoldToIsFold(s, log, n);
  }

  /**
   * At 0 the demand on the first frame is exact: it leaves the replica with none or one of the log's
   * events iff it does not move it or is the first log event, or seeds 1 when the first log event
   * shows nothing.
   */
  lemma FirstFrameStepIff(s: ChatState, log: seq<Event>, d: Event)
    requires s.transcript.lastSeq == 0 && s.connection.lastDeliveredSeq <= 0 && IsLogFrom(log, 0) && IsDelivered(d, log)
    ensures Holds(s, log, Step(s, d), 0) || Holds(s, log, Step(s, d), 1) <==> MayFollowOne(s, d, log) || SeedsSilentFirst(s, d, log)
  {
    hide Step, FoldTo;
    FoldToIsFold(s, log, 0);
    if MayFollowOne(s, d, log) {
      DeliverOne(s, log, s, 0, d);
    } else {
      MoverJumps(s, d);
      if log != [] { OneEvent(s, log); }
    }
  }

  /** The frame seeds 1, and the first log event would change nothing but the cursor. */
  ghost predicate SeedsSilentFirst(s: ChatState, d: Event, log: seq<Event>) {
    && d.body.StreamStart? && SeedsReplica(d.body) && d.body.since == Some(1)
    && log != [] && Step(s, log[0]).transcript == s.transcript.(lastSeq := 1)
  }

  lemma OneEvent(s: ChatState, log: seq<Event>)
    requires log != []
    ensures FoldTo(s, log, 1) == Step(s, log[0])
  {
    hide Step;
    assert FoldTo(s, log, 0) == s;
  }

  /** A frame that moves a new replica takes it to its number, or to the number it seeds. */
  lemma MoverJumps(s: ChatState, d: Event)
    requires s.transcript.lastSeq == 0 && s.connection.lastDeliveredSeq <= 0 && MovesFromZero(d)
    ensures Some(Step(s, d).transcript.lastSeq) == if d.body.StreamStart? then d.body.since else d.seqNo
    ensures d.body.StreamStart? ==> Step(s, d).transcript == s.transcript.(lastSeq := d.body.since.value)
  {
    if !IsControl(d) { ObserveKeepsCursor(Advance(s, d.seqNo.value), d.seqNo.value, d.body); }
  }

  /** A new thread whose second event arrives first takes it and never shows the first one. */
  lemma SecondEventFirst()
    ensures var log := [Event(Some(1), TextDelta("a")), Event(Some(2), TextDelta("b"))];
            var r := Fold(INITIAL_STATE, [log[1], log[0]]);
            && IsLogFrom(log, 0) && IsDeliveryOf([log[1], log[0]], log) && r.transcript.lastSeq == 2
            && forall n: nat :: n <= 2 ==> r.transcript != Fold(INITIAL_STATE, log[..n]).transcript
  {
    hide Step;
    var one, two := Event(Some(1), TextDelta("a")), Event(Some(2), TextDelta("b"));
    var log := [one, two];
    FirstDelta(1, "a");
    FirstDelta(2, "b");
    var r, q := Step(INITIAL_STATE, two), Step(INITIAL_STATE, one);
    FoldSnoc(INITIAL_STATE, [], two, [two]);
    FoldSnoc(INITIAL_STATE, [], one, [one]);
    FoldSnoc(INITIAL_STATE, [two], one, [two, one]);
    FoldSnoc(INITIAL_STATE, [one], two, log);
    assert log[..1] == [one];
    DuplicateIsIgnored(r, one);
    forall n: nat | n <= 2 ensures r.transcript != Fold(INITIAL_STATE, log[..n]).transcript {
      if n == 2 {
        assert log[..2] == log;
        NextDelta(q, two, "b");
      }
    }
  }

  /** The first delta of a new thread opens a reply that holds its text. */
  lemma FirstDelta(n: nat, text: string)
    requires 0 < n <= MAX_SAFE_INTEGER && text != ""
    ensures var t := Step(INITIAL_STATE, Event(Some(n), TextDelta(text))).transcript;
            t.lastSeq == n && |t.messages| == 1 && IsOpen(t.messages[0]) && t.messages[0].text == text
  {
  }

  /** A further delta in order adds its text to the open reply. */
  lemma NextDelta(s: ChatState, e: Event, text: string)
    requires |s.transcript.messages| == 1 && IsOpen(s.transcript.messages[0]) && s.transcript.lastSeq >= 0
    requires e == Event(Some(s.transcript.lastSeq + 1), TextDelta(text)) && IsSafeNat(e.seqNo)
    ensures |Step(s, e).transcript.messages| == 1
    ensures Step(s, e).transcript.messages[0].text == s.transcript.messages[0].text + text
  {
  }

  /** A repeated event is ignored. */
  lemma DuplicateIsIgnored(s: ChatState, e: Event)
    requires !IsControl(e) && e.seqNo.Some? && 0 < e.seqNo.value <= s.transcript.lastSeq
    ensures Step(s, e) == s
  {
  }

  lemma ReplayOne(s: ChatState, log: seq<Event>, q: ChatState, n: nat, k: nat)
    requires s.transcript.lastSeq >= 0 && IsLogFrom(log, s.transcript.lastSeq)
    requires s.transcript.lastSeq + |log| <= MAX_SAFE_INTEGER
    requires Holds(s, log, q, n) && k <= n && k < |log|
    ensures Holds(s, log, Step(q, log[k]), if k == n then n + 1 else n)
  {
    hide Step;
    if k == n {
      InOrderStepReadsTranscriptOnly(q, FoldTo(s, log, n), log[k]);
    } else {
      DuplicateIsIgnored(q, log[k]);
    }
  }

  /** `es` is the stretch of the log that starts at position `from`. */
  ghost predicate IsStretch(es: seq<Event>, log: seq<Event>, from: nat) {
    from + |es| <= |log| && forall i :: 0 <= i < |es| ==> es[i] == log[from + i]
  }

  function Max(a: int, b: int): int {
    if a > b then a else b
  }

  /** A run observation with a usable number; the reducer takes nothing else into the transcript. */
  predicate IsCounted(e: Event) {
    !IsControl(e) && IsSafeNat(e.seqNo)
  }

  /** What a connection says about the run: its frames without control frames and unnumbered ones. */
  function RunPart(es: seq<Event>): seq<Event> {
    if es == [] then []
    else RunPart(es[..|es| - 1]) + (if IsCounted(es[|es| - 1]) then [es[|es| - 1]] else [])
  }

  /** A frame outside the run part leaves the transcript alone, unless it seeds a replica at 0. */
  lemma UncountedKeeps(r: ChatState, e: Event)
    requires !IsCounted(e) && r.transcript.lastSeq >= 0 && (r.transcript.lastSeq == 0 ==> !MovesFromZero(e))
    ensures Step(r, e).transcript == r.transcript
  {
    if IsControl(e) { ControlKeepsTranscriptIff(r, e); }
  }

  /**
   * Replaying from at or before the cursor catches up, whatever the connection says and whatever
   * control and unnumbered frames come with the replay; at 0 none of them may seed the replica.
   */
  lemma {:induction false} ReplayCatchesUp(s: ChatState, log: seq<Event>, r: ChatState, n: nat, es: seq<Event>, from: nat)
    requires s.transcript.lastSeq >= 0 && IsLogFrom(log, s.transcript.lastSeq)
    requires s.transcript.lastSeq + |log| <= MAX_SAFE_INTEGER
    requires Holds(s, log, r, n) && from <= n && IsStretch(RunPart(es), log, from)
    requires r.transcript.lastSeq == 0 ==> StartsAtFirst(es, log)
    ensures Holds(s, log, Fold(r, es), Max(n, from + |RunPart(es)|))
    decreases |es|
  {
    hide Step, IsLogFrom, FoldTo, MovesFromZero, StartsAtFirst, IsCounted;
    if es != [] {
      var k := |es| - 1;
      var part := RunPart(es[..k]);
      assert forall i :: 0 <= i < |part| ==> part[i] == RunPart(es)[i];
      if r.transcript.lastSeq == 0 { StartsAtFirstPrefix(es, log, k); }
      ReplayCatchesUp(s, log, r, n, es[..k], from);
      var q := Fold(r, es[..k]);
      if IsCounted(es[k]) {
        assert RunPart(es)[|part|] == es[k];
        ReplayOne(s, log, q, Max(n, from + |part|), from + |part|);
      } else {
        MayFollowNext(r, es, log, k);
        UncountedIsNotFirst(s, log, es[k]);
        UncountedKeeps(q, es[k]);
      }
    }
  }

  lemma UncountedIsNotFirst(s: ChatState, log: seq<Event>, e: Event)
    requires s.transcript.lastSeq >= 0 && IsLogFrom(log, s.transcript.lastSeq)
    requires s.transcript.lastSeq + |log| <= MAX_SAFE_INTEGER && !IsCounted(e)
    ensures e !in log
  {
  }

  lemma {:induction false} RunPartConcat(a: seq<Event>, b: seq<Event>)
    ensures RunPart(a + b) == RunPart(a) + RunPart(b)
    decreases |b|
  {
    hide IsCounted;
    if b == [] {
      assert a + b == a;
    } else {
      assert (a + b)[..|a + b| - 1] == a + b[..|b| - 1];
      RunPartConcat(a, b[..|b| - 1]);
    }
  }

  lemma RunPartOne(e: Event)
    ensures RunPart([e]) == if IsCounted(e) then [e] else []
  {
    assert [e][..0] == [];
  }

  /** A stretch of the log is its own run part. */
  lemma {:induction false} LogIsItsRunPart(log: seq<Event>, c: int, lo: nat, hi: nat)
    requires c >= 0 && IsLogFrom(log, c) && c + |log| <= MAX_SAFE_INTEGER && lo <= hi <= |log|
    ensures RunPart(log[lo..hi]) == log[lo..hi]
    decreases hi
  {
    if lo < hi {
      LogIsItsRunPart(log, c, lo, hi - 1);
      SliceSnoc(log, lo, hi);
      assert log[lo..hi][..hi - 1 - lo] == log[lo..hi - 1];
    }
  }

  /** The log itself starts at its first event. */
  lemma LogStartsAtFirst(log: seq<Event>, n: nat)
    requires IsLogFrom(log, 0) && n <= |log| <= MAX_SAFE_INTEGER
    ensures StartsAtFirst(log[..n], log)
  {
    if n > 0 { assert MovesFromZero(log[..n][0]); }
  }

  /** Liveness half: any delivery, then a replay from at or before its cursor, yields the whole log. */
  lemma DeliveryThenReplayConverges(s: ChatState, log: seq<Event>, delivery: seq<Event>, replay: seq<Event>, from: nat)
    requires s.transcript.lastSeq >= 0 && MayFollow(s, delivery, log)
    requires IsLogFrom(log, s.transcript.lastSeq) && IsDeliveryOf(delivery, log)
    requires s.transcript.lastSeq + |log| <= MAX_SAFE_INTEGER
    requires s.transcript.lastSeq + from <= Fold(s, delivery).transcript.lastSeq && from <= |log|
    requires RunPart(replay) == log[from..]
    requires Fold(s, delivery).transcript.lastSeq == 0 ==> StartsAtFirst(replay, log)
    ensures Fold(s, delivery + replay).transcript == Fold(s, log).transcript
  {
    hide Step, Fold, FoldTo, IsLogFrom, MayFollow, IsDeliveryOf, StartsAtFirst, RunPart;
    var r, rest := Fold(s, delivery), log[from..];
    HoldsNothing(s, log);
    var m := DeliveryExtendsPrefix(s, log, s, 0, delivery);
    FoldConcat(s, delivery, replay);
    assert |rest| == |log| - from && IsStretch(rest, log, from);
    ReplayCatchesUp(s, log, r, m, replay, from);
    WholeFold(s, log);
  }
}

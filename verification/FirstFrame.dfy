/** What the first frame of a new thread may be (packages/ui/src/reducer.ts). */
module FirstFrame {
  import opened Common
  import opened ChatModel
  import opened ChatReducer
  import opened ChatDelivery
  import opened ChatInvariant
  import opened ChatRowIds

  /** The frame can come from a server with this log: an event of it, or a control frame that seeds no later number. */
  ghost predicate ComesFrom(d: Event, log: seq<Event>) {
    IsDelivered(d, log) && (d.body.StreamStart? && SeedsReplica(d.body) ==> d.body.since.value <= |log|)
  }

  /** Whatever log the frame comes from, it leaves the client with a prefix of that log. */
  ghost predicate IsSafeFirst(s: ChatState, d: Event) {
    forall log :: IsLogFrom(log, 0) && ComesFrom(d, log) ==> exists n :: Holds(s, log, Step(s, d), n)
  }

  /** Text that no row of the state shows at the end. */
  ghost function OtherText(ms: seq<Message>): string {
    if ms == [] then "x" else ms[|ms| - 1].text + "x"
  }

  /** A log in which a prompt and nothing else visible comes before `d`. */
  ghost function SkippedLog(ms: seq<Message>, d: Event, v: nat): seq<Event> {
    seq(v, i requires 0 <= i < v =>
      if i == v - 1 then d else Event(Some(i + 1), if i == 0 then UserMessage(OtherText(ms), "", "") else OtherEvent("skipped")))
  }

  /** An observation in order is folded into the rows. */
  lemma InOrderRows(s: ChatState, e: Event, n: nat)
    requires !IsControl(e) && e.seqNo == Some(n) && IsSafeNat(e.seqNo) && n > s.transcript.lastSeq >= 0
    requires n == s.transcript.lastSeq + 1 || s.connection.lastDeliveredSeq <= 0
    ensures Step(s, e).transcript.lastSeq == n
    ensures Step(s, e).transcript.messages == RowsAfter(s.transcript.messages, n, e.body)
  {
    hide Observe, RowsAfter;
    ObserveKeepsCursor(Advance(s, n), n, e.body);
    ObserveRows(Advance(s, n), n, e.body);
  }

  /** Before `d` that log shows the rows of the start and the prompt. */
  lemma {:induction false} SkippedRows(s: ChatState, d: Event, v: nat, k: nat)
    requires s.transcript.lastSeq == 0 && 1 <= k < v && k <= MAX_SAFE_INTEGER
    ensures var t := FoldTo(s, SkippedLog(s.transcript.messages, d, v), k).transcript;
            && t.lastSeq == k
            && t.messages == s.transcript.messages + [UserRow("u" + Decimal(1), OtherText(s.transcript.messages))]
    decreases k
  {
    hide Step, Decimal;
    var ms, log := s.transcript.messages, SkippedLog(s.transcript.messages, d, v);
    assert FoldTo(s, log, 0) == s;
    if k > 1 { SkippedRows(s, d, v, k - 1); }
    InOrderRows(FoldTo(s, log, k - 1), log[k - 1], k);
  }

  /** An observation numbered above 1 never makes up for a prompt that was numbered 1. */
  lemma RowsApart(ms: seq<Message>, u: Message, v: nat, body: Body)
    requires v > 1 && u.id == "u" + Decimal(1)
    ensures RowsAfter(ms, v, body) != RowsAfter(ms + [u], v, body)
  {
    hide RowsAfter, Decimal;
    var with := ms + [u];
    var a, b := RowsAfter(ms, v, body), RowsAfter(with, v, body);
    RowsAfterIds(ms, v, body);
    RowsAfterIds(with, v, body);
    assert IdsOf(with)[|ms|] == u.id && IsNumbered(u.id, 1);
    LocalIsNotNumbered(u.id, 1);
    assert IdsOf(b)[|ms|] == u.id;
    if a == b {
      assert IdsOf(a)[|ms|] == NewRowId(body, v) && IsNumbered(NewRowId(body, v), v);
      NumberedApart(u.id, 1, v);
    }
  }

  /** Event `v` first, `v` above 1: the log with a prompt before it is not shown. */
  lemma LateEventIsUnsafe(s: ChatState, d: Event)
    requires s.transcript.lastSeq == 0 && s.connection.lastDeliveredSeq <= 0
    requires IsCounted(d) && d.seqNo.value > 1
    ensures !IsSafeFirst(s, d)
  {
    hide Step, RowsAfter, Decimal;
    var v, ms := d.seqNo.value, s.transcript.messages;
    var log := SkippedLog(ms, d, v);
    assert log[v - 1] == d && IsLogFrom(log, 0);
    InOrderRows(s, d, v);
    SkippedRows(s, d, v, v - 1);
    var q := FoldTo(s, log, v - 1);
    InOrderRows(q, d, v);
    RowsApart(ms, UserRow("u" + Decimal(1), OtherText(ms)), v, d.body);
    forall n ensures !Holds(s, log, Step(s, d), n) {
      assert FoldTo(s, log, v) == Step(q, d);
    }
  }

  /** A start frame that seeds a new client: a log that begins with a prompt is not shown. */
  lemma SeedIsUnsafe(s: ChatState, d: Event)
    requires s.transcript.lastSeq == 0 && s.connection.lastDeliveredSeq <= 0 && IsControl(d) && MovesFromZero(d)
    ensures !IsSafeFirst(s, d)
  {
    hide Step, FoldTo, Decimal;
    MoverJumps(s, d);
    var v, ms := d.body.since.value, s.transcript.messages;
    var last := Event(Some(v + 1), OtherEvent("skipped"));
    var log := SkippedLog(ms, last, v + 1);
    SkippedRows(s, last, v + 1, v);
    assert IsLogFrom(log, 0) && ComesFrom(d, log);
    forall n ensures !Holds(s, log, Step(s, d), n) {}
  }

  /**
   * At cursor 0, exactly the frames that do not move the client and the observations numbered 1 leave it
   * with a prefix of the log, whatever the log is.
   */
  lemma FirstFrameIff(s: ChatState, d: Event)
    requires s.transcript.lastSeq == 0 && s.connection.lastDeliveredSeq <= 0
    ensures IsSafeFirst(s, d) <==> !MovesFromZero(d) || (!IsControl(d) && d.seqNo == Some(1))
  {
    hide Step, FoldTo;
    if !MovesFromZero(d) || (!IsControl(d) && d.seqNo == Some(1)) {
      forall log | IsLogFrom(log, 0) && ComesFrom(d, log) ensures exists n :: Holds(s, log, Step(s, d), n) {
        HoldsNothing(s, log);
        DeliverOne(s, log, s, 0, d);
      }
    } else if IsControl(d) {
      SeedIsUnsafe(s, d);
    } else {
      LateEventIsUnsafe(s, d);
    }
  }
}

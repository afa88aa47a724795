/** The ids the reducer gives to rows: never one id for two rows. */
module ChatRowIds {
  import opened Common
  import opened ChatModel
  import opened ChatReducer
  import opened ChatDelivery
  import opened ChatInvariant

  // ---- numbers as text --------------------------------------------------------

  predicate IsDigit(c: char) {
    '0' <= c <= '9'
  }

  lemma {:induction false} DecimalIsDigits(n: nat)
    ensures Decimal(n) != [] && IsDigit(Decimal(n)[0])
    ensures n >= 10 ==> |Decimal(n)| >= 2
  {
    if n >= 10 {
      DecimalIsDigits(n / 10);
      DecimalIsDigits(n % 10);
    }
  }

  /** Different numbers have different texts. */
  lemma {:induction false} DecimalIsInjective(a: nat, b: nat)
    requires Decimal(a) == Decimal(b)
    ensures a == b
  {
    DecimalIsDigits(a);
    DecimalIsDigits(b);
    if a >= 10 && b >= 10 {
      var s, p, q := Decimal(a), Decimal(a / 10), Decimal(b / 10);
      assert s[..|s| - 1] == p && s[..|s| - 1] == q;
      assert Decimal(a % 10) == s[|s| - 1..] == Decimal(b % 10);
      DecimalIsInjective(a / 10, b / 10);
    }
  }

  // ---- ids of rows ------------------------------------------------------------

  ghost function IdsOf(ms: seq<Message>): seq<string> {
    seq(|ms|, i requires 0 <= i < |ms| => ms[i].id)
  }

  /** The id that an observation numbered `n` gives: `u` for a prompt, `a` for a reply. */
  ghost predicate IsNumbered(id: string, n: nat) {
    id == "u" + Decimal(n) || id == "a" + Decimal(n)
  }

  /** The ids that the reducer gives out; a caller's own id may be any other. */
  ghost predicate IsReserved(id: string) {
    exists n: nat :: IsNumbered(id, n) || id == LOCAL_USER_PREFIX + Decimal(n)
  }

  /** A row's id names the observation that made it, or its own position if it is a local prompt, or is a caller's. */
  ghost predicate IsRowId(id: string, i: nat, last: int) {
    || (exists n: nat :: n <= last && IsNumbered(id, n))
    || id == LOCAL_USER_PREFIX + Decimal(i)
    || !IsReserved(id)
  }

  ghost predicate IdsOk(ids: seq<string>, last: int) {
    Distinct(ids) && forall i :: 0 <= i < |ids| ==> IsRowId(ids[i], i, last)
  }

  lemma NumberedApart(id: string, n: nat, m: nat)
    requires IsNumbered(id, n) && IsNumbered(id, m)
    ensures n == m
  {
    assert id[1..] == Decimal(n) && id[1..] == Decimal(m);
    DecimalIsInjective(n, m);
  }

  lemma LocalIsNotNumbered(id: string, n: nat)
    requires IsNumbered(id, n)
    ensures !(LOCAL_USER_PREFIX <= id)
  {
    DecimalIsDigits(n);
    assert id[1] == Decimal(n)[0];
  }

  lemma LocalsApart(i: nat, j: nat)
    requires LOCAL_USER_PREFIX + Decimal(i) == LOCAL_USER_PREFIX + Decimal(j)
    ensures i == j
  {
    var k := |LOCAL_USER_PREFIX|;
    assert (LOCAL_USER_PREFIX + Decimal(i))[k..] == Decimal(i) && (LOCAL_USER_PREFIX + Decimal(j))[k..] == Decimal(j);
    DecimalIsInjective(i, j);
  }

  /** An id of a newer observation is none of those in use. */
  lemma NumberedIsNew(id: string, n: nat, ids: seq<string>, last: int)
    requires IdsOk(ids, last) && IsNumbered(id, n) && n > last
    ensures id !in ids
  {
    hide IsNumbered;
    LocalIsNotNumbered(id, n);
    forall i | 0 <= i < |ids| ensures ids[i] != id {
      assert IsRowId(ids[i], i, last);
      if ids[i] == id {
        assert LOCAL_USER_PREFIX <= LOCAL_USER_PREFIX + Decimal(i);
        var m: nat :| m <= last && IsNumbered(ids[i], m);
        NumberedApart(id, n, m);
      }
    }
  }

  /** A local id of a position past the end is none of those in use. */
  lemma LocalIsNew(ids: seq<string>, last: int)
    requires IdsOk(ids, last)
    ensures LOCAL_USER_PREFIX + Decimal(|ids|) !in ids
  {
    hide IsNumbered;
    var id := LOCAL_USER_PREFIX + Decimal(|ids|);
    assert LOCAL_USER_PREFIX <= id;
    forall i | 0 <= i < |ids| ensures ids[i] != id {
      assert IsRowId(ids[i], i, last);
      if ids[i] == id {
        if n: nat :| n <= last && IsNumbered(ids[i], n) { LocalIsNotNumbered(id, n); }
        LocalsApart(i, |ids|);
      }
    }
  }

  // ---- what an observation does to the ids ------------------------------------

  /** The id of a row that an observation adds. */
  function NewRowId(b: Body, n: nat): string {
    (if b.UserMessage? then "u" else "a") + Decimal(n)
  }

  /** The ids stay, `id` is added at the end, or it takes the place of a local prompt there. */
  ghost predicate IdsMove(before: seq<string>, after: seq<string>, id: string) {
    || after == before
    || after == before + [id]
    || (before != [] && LOCAL_USER_PREFIX <= before[|before| - 1] && after == before[..|before| - 1] + [id])
  }

  lemma OpenIds(ms: seq<Message>, n: nat)
    ensures IdsMove(IdsOf(ms), IdsOf(EnsureOpenAssistant(ms, n)), "a" + Decimal(n))
  {
    hide Decimal;
    var r := EnsureOpenAssistant(ms, n);
    if r != ms { assert IdsOf(r) == IdsOf(ms) + ["a" + Decimal(n)]; }
  }

  lemma SameIds(ms: seq<Message>, r: seq<Message>)
    requires |r| == |ms| && forall i :: 0 <= i < |ms| ==> r[i].id == ms[i].id
    ensures IdsOf(r) == IdsOf(ms)
  {
  }

  lemma ReplyIds(ms: seq<Message>, n: nat, r: seq<Message>)
    requires var open := EnsureOpenAssistant(ms, n);
             |r| == |open| && forall i :: 0 <= i < |open| ==> r[i].id == open[i].id
    ensures IdsMove(IdsOf(ms), IdsOf(r), "a" + Decimal(n))
  {
    hide EnsureOpenAssistant, IdsOf, IdsMove;
    OpenIds(ms, n);
    SameIds(EnsureOpenAssistant(ms, n), r);
  }

  lemma OpenReplyIds(ms: seq<Message>, n: nat, text: string)
    ensures IdsMove(IdsOf(ms), IdsOf(DeltaRows(ms, n, text)), "a" + Decimal(n))
    ensures IdsMove(IdsOf(ms), IdsOf(CompleteRows(ms, n, text)), "a" + Decimal(n))
    ensures IdsMove(IdsOf(ms), IdsOf(ThinkingRows(ms, n, text)), "a" + Decimal(n))
  {
    hide IdsMove, IdsOf, AppendMessagePart;
    ReplyIds(ms, n, DeltaRows(ms, n, text));
    ReplyIds(ms, n, CompleteRows(ms, n, text));
    ReplyIds(ms, n, ThinkingRows(ms, n, text));
  }

  lemma ToolStartIds(ms: seq<Message>, n: nat, call: ToolCall)
    ensures IdsMove(IdsOf(ms), IdsOf(ToolStartRows(ms, n, call)), "a" + Decimal(n))
  {
    hide IdsMove, IdsOf, AppendToolPart, HasCall;
    ReplyIds(ms, n, ToolStartRows(ms, n, call));
  }

  lemma UpdateIds(ms: seq<Message>, n: nat, call: ToolCall, u: ToolUpdate)
    ensures IdsMove(IdsOf(ms), IdsOf(UpdateOrInsertToolCall(ms, n, call, u)), "a" + Decimal(n))
  {
    hide IdsMove, IdsOf;
    var r := UpdateOrInsertToolCall(ms, n, call, u);
    if exists i :: 0 <= i < |ms| && HasCall(ms[i], call.id) {
      SameIds(ms, r);
      NoMove(IdsOf(ms), "a" + Decimal(n));
    } else {
      ReplyIds(ms, n, r);
    }
  }

  lemma NoMove(ids: seq<string>, id: string)
    ensures IdsMove(ids, ids, id)
  {
  }

  lemma PromptIds(ms: seq<Message>, n: nat, text: string)
    ensures IdsMove(IdsOf(ms), IdsOf(ReconcileOptimisticUser(ms, UserRow("u" + Decimal(n), text))), "u" + Decimal(n))
  {
    hide Decimal;
    var r := ReconcileOptimisticUser(ms, UserRow("u" + Decimal(n), text));
    if |r| == |ms| {
      assert IdsOf(r) == IdsOf(ms)[..|ms| - 1] + ["u" + Decimal(n)];
    } else {
      assert IdsOf(r) == IdsOf(ms) + ["u" + Decimal(n)];
    }
  }

  /** The observations that can add a row. */
  predicate CanAddRow(b: Body) {
    b.UserMessage? || b.TextDelta? || b.TextComplete? || b.ThinkingDelta? || IsToolBody(b)
  }

  lemma RowsAfterIds(ms: seq<Message>, n: nat, body: Body)
    ensures IdsMove(IdsOf(ms), IdsOf(RowsAfter(ms, n, body)), NewRowId(body, n))
    ensures !CanAddRow(body) ==> IdsOf(RowsAfter(ms, n, body)) == IdsOf(ms)
  {
    hide IdsMove, IdsOf, DeltaRows, CompleteRows, ThinkingRows, ToolStartRows, UpdateOrInsertToolCall, ReconcileOptimisticUser;
    NoMove(IdsOf(ms), NewRowId(body, n));
    match body
    case UserMessage(text, content, prompt) => PromptIds(ms, n, OrElse(text, OrElse(content, prompt)));
    case TextDelta(text) => OpenReplyIds(ms, n, text);
    case TextComplete(text) => OpenReplyIds(ms, n, text);
    case ThinkingDelta(text) => OpenReplyIds(ms, n, text);
    case ToolCallStart(id, name, input, descriptor) =>
      ToolStartIds(ms, n, ToolCall(id, name, input, ToolRunning, None, None, None, None, descriptor, false));
    case ToolCallProgress(id, name, progress) =>
      UpdateIds(ms, n, ToolCall(id, OrElse(name, "unknown"), map[], ToolRunning, Some(progress), None, None, None, None, true),
                SetProgress(progress));
    case ToolCallEnd(id, name, isError, result, durationMs, descriptor) =>
      UpdateIds(ms, n, ToolCall(id, name, map[], if isError then ToolError else ToolDone, None, Some(result), Some(isError),
                                durationMs, descriptor, true), Finish(isError, result, durationMs, descriptor));
    case _ => SameIds(ms, RowsAfter(ms, n, body));
  }

  lemma LaterIds(ids: seq<string>, last: int, next: int)
    requires IdsOk(ids, last) && last <= next
    ensures IdsOk(ids, next)
  {
    forall i | 0 <= i < |ids| ensures IsRowId(ids[i], i, next) { assert IsRowId(ids[i], i, last); }
  }

  /** A numbered id that moves in keeps the ids apart iff it was not in use. */
  lemma MovedIdsIff(before: seq<string>, after: seq<string>, id: string, n: nat, last: int, next: int)
    requires IdsOk(before, last) && IsNumbered(id, n) && IdsMove(before, after, id) && last <= next && n <= next
    ensures after == before || id !in before ==> IdsOk(after, next)
    ensures Distinct(after) ==> after == before || id !in before
  {
    hide IsNumbered, IsReserved;
    LaterIds(before, last, next);
    LocalIsNotNumbered(id, n);
    if after != before {
      var k := |after| - 1;
      assert after[k] == id && forall i :: 0 <= i < k ==> after[i] == before[i];
      assert IsRowId(id, k, next);
      if id in before {
        var i :| 0 <= i < |before| && before[i] == id;
        assert after[i] == after[k];
      }
    }
  }

  // ---- reachable states -------------------------------------------------------

  /** A prompt takes the reducer's id or one that the reducer never gives out. */
  ghost predicate UsesFreeId(a: Action) {
    a.Prompt? && a.id.Some? ==> !IsReserved(a.id.value)
  }

  /** The action does not name a row like one that is there: a caller's id is new, and so is a row numbered 0. */
  ghost predicate ActsApart(s: ChatState, a: Action) {
    var ms := s.transcript.messages;
    match a
    case Prompt(_, id) => id.Some? ==> id.value !in IdsOf(ms)
    case Receive(e) =>
      !IsControl(e) && e.seqNo == Some(0) && IdsOf(RowsAfter(ms, 0, e.body)) != IdsOf(ms) ==> NewRowId(e.body, 0) !in IdsOf(ms)
  }

  lemma StepIdsIff(s: ChatState, e: Event)
    requires s.transcript.lastSeq >= 0 && IdsOk(IdsOf(s.transcript.messages), s.transcript.lastSeq)
    ensures var t := Step(s, e).transcript;
            && t.lastSeq >= s.transcript.lastSeq
            && (ActsApart(s, Receive(e)) ==> IdsOk(IdsOf(t.messages), t.lastSeq))
            && (Distinct(IdsOf(t.messages)) ==> ActsApart(s, Receive(e)))
  {
    hide IdsOk, IdsOf, IdsMove, Observe, RowsAfter, ReduceControl, Distinct, Decimal;
    var ids, last := IdsOf(s.transcript.messages), s.transcript.lastSeq;
    StepFromZero(s, e, []);
    if IsControl(e) {
      ControlKeepsRows(s, e);
      LaterIds(ids, last, Step(s, e).transcript.lastSeq);
    } else if IsSafeNat(e.seqNo) && !IsDuplicate(s, e.seqNo.value) && !IsGap(s, e.seqNo.value) {
      var n := e.seqNo.value;
      var base, id := Advance(s, n), NewRowId(e.body, n);
      ObserveKeepsCursor(base, n, e.body);
      ObserveRows(base, n, e.body);
      RowsAfterIds(base.transcript.messages, n, e.body);
      if n > last { NumberedIsNew(id, n, ids, last); }
      MovedIdsIff(ids, IdsOf(Step(s, e).transcript.messages), id, n, last, Step(s, e).transcript.lastSeq);
    }
  }

  lemma PromptIdsIff(s: ChatState, text: string, id: Option<string>)
    requires IdsOk(IdsOf(s.transcript.messages), s.transcript.lastSeq) && UsesFreeId(Prompt(text, id))
    ensures var ids := IdsOf(AddUserMessage(s, text, id).transcript.messages);
            && (ActsApart(s, Prompt(text, id)) ==> IdsOk(ids, s.transcript.lastSeq))
            && (Distinct(ids) ==> ActsApart(s, Prompt(text, id)))
  {
    hide Decimal, IsNumbered, IsReserved;
    var ids, after := IdsOf(s.transcript.messages), IdsOf(AddUserMessage(s, text, id).transcript.messages);
    LocalIsNew(ids, s.transcript.lastSeq);
    var added := if id.Some? then id.value else LOCAL_USER_PREFIX + Decimal(|ids|);
    assert after == ids + [added];
    if added in ids {
      var i :| 0 <= i < |ids| && ids[i] == added;
      assert after[i] == after[|ids|];
    }
  }

  lemma PerformIdsIff(s: ChatState, a: Action)
    requires s.transcript.lastSeq >= 0 && IdsOk(IdsOf(s.transcript.messages), s.transcript.lastSeq) && UsesFreeId(a)
    ensures var t := Perform(s, a).transcript;
            && t.lastSeq >= 0
            && (ActsApart(s, a) ==> IdsOk(IdsOf(t.messages), t.lastSeq))
            && (Distinct(IdsOf(t.messages)) ==> ActsApart(s, a))
  {
    hide Step, IdsOk, IdsOf, ActsApart, Distinct, IsReserved;
    match a
    case Receive(e) => StepIdsIff(s, e);
    case Prompt(text, id) => PromptIdsIff(s, text, id);
  }

  /** No two rows share an id after the first `n` actions. */
  ghost predicate IdsApartAt(actions: seq<Action>, n: int) {
    0 <= n <= |actions| && Distinct(IdsOf(Reach(INITIAL_STATE, actions[..n]).transcript.messages))
  }

  lemma ReachNext(s: ChatState, actions: seq<Action>, n: nat)
    requires n < |actions|
    ensures Reach(s, actions[..n + 1]) == Perform(Reach(s, actions[..n]), actions[n])
  {
    hide Perform;
    assert actions[..n + 1][..n] == actions[..n];
  }

  lemma {:induction false} IdsOkUpTo(actions: seq<Action>, n: nat)
    requires n <= |actions| && forall i :: 0 <= i < |actions| ==> UsesFreeId(actions[i])
    requires forall i :: 0 <= i < n ==> ActsApart(Reach(INITIAL_STATE, actions[..i]), actions[i]) || IdsApartAt(actions, i + 1)
    ensures var t := Reach(INITIAL_STATE, actions[..n]).transcript; t.lastSeq >= 0 && IdsOk(IdsOf(t.messages), t.lastSeq)
    decreases n
  {
    hide Perform, ActsApart, UsesFreeId, IsRowId, Reach;
    if n == 0 {
      NothingReached(actions[..0]);
    } else {
      IdsOkUpTo(actions, n - 1);
      ReachNext(INITIAL_STATE, actions, n - 1);
      PerformIdsIff(Reach(INITIAL_STATE, actions[..n - 1]), actions[n - 1]);
      assert ActsApart(Reach(INITIAL_STATE, actions[..n - 1]), actions[n - 1]) || IdsApartAt(actions, n - 1 + 1);
    }
  }

  lemma NothingReached(actions: seq<Action>)
    requires actions == []
    ensures Reach(INITIAL_STATE, actions) == INITIAL_STATE
  {
  }

  /**
   * Over every run whose callers leave the reducer's ids to it, rows keep distinct ids at every moment
   * iff each action does: a caller's id is not in use, nor is the id of a row numbered 0.
   */
  lemma ReachableIdsDistinctIff(actions: seq<Action>)
    requires forall i :: 0 <= i < |actions| ==> UsesFreeId(actions[i])
    ensures (forall n :: 0 <= n <= |actions| ==> IdsApartAt(actions, n))
            <==> (forall i :: 0 <= i < |actions| ==> ActsApart(Reach(INITIAL_STATE, actions[..i]), actions[i]))
  {
    hide Perform, ActsApart, UsesFreeId, IsRowId, Reach;
    if forall n :: 0 <= n <= |actions| ==> IdsApartAt(actions, n) {
      forall i | 0 <= i < |actions| ensures ActsApart(Reach(INITIAL_STATE, actions[..i]), actions[i]) {
        IdsOkUpTo(actions, i);
        ReachNext(INITIAL_STATE, actions, i);
        PerformIdsIff(Reach(INITIAL_STATE, actions[..i]), actions[i]);
        assert IdsApartAt(actions, i + 1);
      }
    }
    if forall i :: 0 <= i < |actions| ==> ActsApart(Reach(INITIAL_STATE, actions[..i]), actions[i]) {
      forall n | 0 <= n <= |actions| ensures IdsApartAt(actions, n) { IdsOkUpTo(actions, n); }
    }
  }

  /** A prompt without an id of the caller's; an event that carries a number above 0 if it can add a row. */
  predicate LeavesIdsToReducer(a: Action) {
    match a
    case Prompt(_, id) => id.None?
    case Receive(e) => CanAddRow(e.body) ==> e.seqNo != Some(0)
  }

  /** So no two rows ever share an id when the ids are left to the reducer. */
  lemma ReachableIdsAreDistinct(actions: seq<Action>)
    requires forall i :: 0 <= i < |actions| ==> LeavesIdsToReducer(actions[i])
    ensures forall n :: 0 <= n <= |actions| ==> IdsApartAt(actions, n)
  {
    hide Perform, Reach, RowsAfter, IdsOf, IdsApartAt;
    forall i | 0 <= i < |actions| ensures ActsApart(Reach(INITIAL_STATE, actions[..i]), actions[i]) {
      if actions[i].Receive? {
        RowsAfterIds(Reach(INITIAL_STATE, actions[..i]).transcript.messages, 0, actions[i].e.body);
      }
    }
    ReachableIdsDistinctIff(actions);
  }

  /** The demand is needed: two replies numbered 0, the first closed by an error, share the id `a0`. */
  lemma NumberZeroRepeatsId()
    ensures var actions := [Receive(Event(Some(0), TextDelta("x"))), Receive(Event(Some(0), ErrorEvent("e"))),
                            Receive(Event(Some(0), TextDelta("y")))];
            !Distinct(IdsOf(Reach(INITIAL_STATE, actions).transcript.messages))
  {
    hide Step, Decimal;
    var one, two, three := Event(Some(0), TextDelta("x")), Event(Some(0), ErrorEvent("e")), Event(Some(0), TextDelta("y"));
    var actions := [Receive(one), Receive(two), Receive(three)];
    assert actions[..2] == [Receive(one), Receive(two)] && actions[..2][..1] == [Receive(one)] && [Receive(one)][..0] == [];
    var a := Step(INITIAL_STATE, one);
    var b := Step(a, two);
    var c := Step(b, three);
    assert Reach(INITIAL_STATE, actions[..2][..1]) == Perform(Reach(INITIAL_STATE, []), Receive(one)) == a;
    assert Reach(INITIAL_STATE, actions[..2]) == b;
    assert Reach(INITIAL_STATE, actions) == c;
    ZeroDelta(INITIAL_STATE, "x");
    ZeroError(a);
    ZeroDelta(b, "y");
    assert IdsOf(c.transcript.messages)[0] == IdsOf(c.transcript.messages)[1];
  }

  lemma ZeroDelta(s: ChatState, text: string)
    requires CloseOpenAssistant(s.transcript.messages) == s.transcript.messages
    ensures var before, after := s.transcript.messages, Step(s, Event(Some(0), TextDelta(text))).transcript.messages;
            |after| == |before| + 1 && after[..|before|] == before && after[|before|].id == "a" + Decimal(0)
  {
    hide Decimal, AppendMessagePart;
  }

  lemma ZeroError(s: ChatState)
    ensures var before, after := s.transcript.messages, Step(s, Event(Some(0), ErrorEvent("e"))).transcript.messages;
            && CloseOpenAssistant(after) == after
            && |after| == |before| && forall i :: 0 <= i < |after| ==> after[i].id == before[i].id
  {
  }
}

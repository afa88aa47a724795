/** What runs of events mean for the person reading the chat. */
module ChatMeaning {
  import opened Common
  import opened ChatModel
  import opened ChatReducer
  import opened ChatInvariant

  // ---- prompts ----------------------------------------------------------------

  /** A prompt shown optimistically and then observed on the stream is one row, not two. */
  lemma PromptIsReconciled(s: ChatState, text: string, content: string, prompt: string, n: nat)
    requires text != "" && s.transcript.lastSeq >= 0 && n == s.transcript.lastSeq + 1 && n <= MAX_SAFE_INTEGER
    ensures var r := Step(AddUserMessage(s, text, None), Event(Some(n), UserMessage(text, content, prompt)));
            && r.transcript.messages == s.transcript.messages + [UserRow("u" + Decimal(n), text)]
            && r.transcript.status == Streaming && r.transcript.error.None?
  {
    hide Decimal;
    var local := LOCAL_USER_PREFIX + Decimal(|s.transcript.messages|);
    assert local[..|LOCAL_USER_PREFIX|] == LOCAL_USER_PREFIX;
    var ms := s.transcript.messages + [UserRow(local, text)];
    assert ms[|ms| - 1 := UserRow("u" + Decimal(n), text)] == s.transcript.messages + [UserRow("u" + Decimal(n), text)];
  }

  // ---- pending requests -------------------------------------------------------

  lemma {:induction false} UpsertThenWithout<T>(items: seq<T>, item: T, key: T -> string)
    requires forall i :: 0 <= i < |items| ==> key(items[i]) != key(item)
    ensures UpsertById(items, item, key) == items + [item]
    ensures WithoutId(items + [item], key(item), key) == items
  {
    if items == [] {
      assert [item][1..] == [];
    } else {
      UpsertThenWithout(items[1..], item, key);
      assert (items + [item])[1..] == items[1..] + [item];
      assert [items[0]] + items[1..] == items;
    }
  }

  /** A request joins the end of the queue; its response takes exactly that request away again. */
  lemma RequestThenResponse(b: ChatState, n: nat, id: string, toolName: string, reason: string, hash: string, one: bool)
    requires id != "" && forall i :: 0 <= i < |b.transcript.pendingApprovals| ==> b.transcript.pendingApprovals[i].requestId != id
    ensures var asked := Observe(b, n, PermissionRequest(id, toolName, reason, hash, one));
            var answered := Observe(asked, n, PermissionResponse(id));
            && asked.transcript.status == AwaitingApproval
            && |asked.transcript.pendingApprovals| == |b.transcript.pendingApprovals| + 1
            && asked.transcript.pendingApprovals[|b.transcript.pendingApprovals|].requestId == id
            && answered.transcript.pendingApprovals == b.transcript.pendingApprovals
            && answered.transcript.status == WaitingStatus(b.transcript.pendingApprovals, b.transcript.pendingSensitives, Streaming)
            && answered.transcript.messages == b.transcript.messages
  {
    hide IsOperationHash, UpsertById, WithoutId;
    var approval := PendingApproval(id, OrElse(toolName, "unknown"), OrElse(reason, "Review the exact tool request."),
                                    if IsOperationHash(hash) then Some(hash) else None, one);
    UpsertThenWithout(b.transcript.pendingApprovals, approval, ApprovalKey);
  }

  // ---- a whole turn -----------------------------------------------------------

  function PromptEvent(n: int, prompt: string): Event { Event(Some(n), UserMessage(prompt, "", "")) }

  function StopEvent(n: int, model: string): Event { Event(Some(n), TurnEnd("end_turn", model)) }

  ghost function Deltas(c: int, texts: seq<string>): seq<Event> {
    if texts == [] then [] else Deltas(c, texts[..|texts| - 1]) + [Event(Some(c + |texts|), TextDelta(texts[|texts| - 1]))]
  }

  /** Deltas in order build the delta run of the rows. */
  lemma {:induction false} DeltasFold(s: ChatState, c: nat, texts: seq<string>)
    requires s.transcript.lastSeq == c && c + |texts| <= MAX_SAFE_INTEGER
    ensures var r := Fold(s, Deltas(c, texts));
            && r.transcript == s.transcript.(messages := DeltaRun(s.transcript.messages, c + 1, texts), lastSeq := c + |texts|,
                                             status := if texts == [] then s.transcript.status else Streaming)
    decreases |texts|
  {
    hide DeltaRows, Step;
    if texts != [] {
      var front, text := texts[..|texts| - 1], texts[|texts| - 1];
      DeltasFold(s, c, front);
      FoldSnoc(s, Deltas(c, front), Event(Some(c + |texts|), TextDelta(text)), Deltas(c, texts));
      DeltaStep(Fold(s, Deltas(c, front)), c + |texts|, text);
    }
  }

  lemma DeltaStep(s: ChatState, n: nat, text: string)
    requires 0 < n == s.transcript.lastSeq + 1 <= MAX_SAFE_INTEGER
    ensures Step(s, Event(Some(n), TextDelta(text))).transcript
            == s.transcript.(messages := DeltaRows(s.transcript.messages, n, text), lastSeq := n, status := Streaming)
  {
    hide DeltaRows;
  }

  ghost predicate ReadyForTurn(t: Transcript, prompt: string, texts: seq<string>) {
    && t.lastSeq >= 0 && t.lastSeq + 2 + |texts| <= MAX_SAFE_INTEGER && prompt != ""
    && t.pendingApprovals == [] && t.pendingSensitives == []
    && (t.messages == [] || !(LOCAL_USER_PREFIX <= t.messages[|t.messages| - 1].id))
  }

  /** The transcript at the end of a turn, in terms of its rows. */
  lemma TurnTranscript(s: ChatState, prompt: string, texts: seq<string>, model: string)
    requires ReadyForTurn(s.transcript, prompt, texts)
    ensures var t, c := s.transcript, s.transcript.lastSeq;
            var rows := DeltaRun(t.messages + [UserRow("u" + Decimal(c + 1), prompt)], c + 2, texts);
            Fold(s, [PromptEvent(c + 1, prompt)] + Deltas(c + 1, texts) + [StopEvent(c + 2 + |texts|, model)]).transcript
            == t.(messages := CloseOpenAssistant(rows), status := Idle, error := None, lastSeq := c + 2 + |texts|,
                  model := if model == "" then t.model else Some(model))
  {
    hide Fold, Step, Decimal, Deltas, DeltaRun, CloseOpenAssistant, PromptEvent, StopEvent, UserRow;
    var c := s.transcript.lastSeq;
    var e1, e2, ds := PromptEvent(c + 1, prompt), StopEvent(c + 2 + |texts|, model), Deltas(c + 1, texts);
    var s1 := Step(s, e1);
    var s2 := Fold(s1, ds);
    PromptRow(s, prompt);
    DeltasFold(s1, c + 1, texts);
    CloseTurn(s2, c + 2 + |texts|, model);
    ThreeStages(s, e1, ds, e2);
  }

  /**
   * A whole turn from a point with nothing pending: the prompt row, then one closed reply whose
   * text and single part are the concatenated deltas, and the chat is idle.
   */
  lemma TurnBuildsReply(s: ChatState, prompt: string, texts: seq<string>, model: string)
    requires ReadyForTurn(s.transcript, prompt, texts) && Flatten(texts) != ""
    ensures var c := s.transcript.lastSeq;
            var r := Fold(s, [PromptEvent(c + 1, prompt)] + Deltas(c + 1, texts) + [StopEvent(c + 2 + |texts|, model)]).transcript;
            && r.messages == s.transcript.messages
                 + [UserRow("u" + Decimal(c + 1), prompt),
                    Message("a" + Decimal(c + 2), Assistant, Flatten(texts), None, [], Some([TextPart(Flatten(texts))]), false)]
            && r.status == Idle && r.error.None? && r.lastSeq == c + 2 + |texts|
  {
    hide Fold, Deltas, PromptEvent, StopEvent, Decimal, DeltaRun, CloseOpenAssistant, Flatten, UserRow;
    var c := s.transcript.lastSeq;
    TurnTranscript(s, prompt, texts, model);
    ReplyRows(s.transcript.messages, "u" + Decimal(c + 1), prompt, c + 2, texts);
  }

  /** The rows of a turn: the prompt and one closed reply. */
  lemma ReplyRows(ms: seq<Message>, id: string, prompt: string, n: nat, texts: seq<string>)
    requires Flatten(texts) != ""
    ensures CloseOpenAssistant(DeltaRun(ms + [UserRow(id, prompt)], n, texts))
            == ms + [UserRow(id, prompt), Message("a" + Decimal(n), Assistant, Flatten(texts), None, [], Some([TextPart(Flatten(texts))]), false)]
  {
    hide Decimal, Flatten, DeltaRun, DeltaRows, CloseOpenAssistant;
    var user := UserRow(id, prompt);
    NonemptyTexts(texts);
    DeltaSplitDoesNotMatter(ms + [user], n, texts);
    FirstDelta(ms + [user], n, Flatten(texts));
    var row := Message("a" + Decimal(n), Assistant, Flatten(texts), None, [], Some([TextPart(Flatten(texts))]), true);
    CloseLast(ms + [user], row);
    assert ms + [user] + [row.(streaming := false)] == ms + [user, row.(streaming := false)];
  }

  lemma NonemptyTexts(texts: seq<string>)
    requires Flatten(texts) != ""
    ensures texts != []
  {
  }

  lemma CloseLast(ms: seq<Message>, m: Message)
    requires IsOpen(m)
    ensures CloseOpenAssistant(ms + [m]) == ms + [m.(streaming := false)]
  {
  }

  lemma ThreeStages(s: ChatState, first: Event, mid: seq<Event>, last: Event)
    ensures Fold(s, [first] + mid + [last]) == Step(Fold(Step(s, first), mid), last)
  {
    hide Step;
    OneEvent(s, first);
    FoldConcat(s, [first], mid);
    FoldSnoc(s, [first] + mid, last, [first] + mid + [last]);
  }

  lemma OneEvent(s: ChatState, e: Event)
    ensures Fold(s, [e]) == Step(s, e)
  {
    assert [e][..0] == [];
  }

  lemma PromptRow(s: ChatState, prompt: string)
    requires var t := s.transcript;
             && t.lastSeq >= 0 && t.lastSeq + 1 <= MAX_SAFE_INTEGER && prompt != ""
             && (t.messages == [] || !(LOCAL_USER_PREFIX <= t.messages[|t.messages| - 1].id))
    ensures var r := Step(s, PromptEvent(s.transcript.lastSeq + 1, prompt)).transcript;
            r == s.transcript.(messages := s.transcript.messages + [UserRow("u" + Decimal(s.transcript.lastSeq + 1), prompt)],
                               status := Streaming, error := None, lastSeq := s.transcript.lastSeq + 1)
  {
    hide Decimal;
  }

  lemma FirstDelta(ms: seq<Message>, n: nat, text: string)
    requires text != "" && ms != [] && !IsOpen(ms[|ms| - 1])
    ensures DeltaRows(ms, n, text)
            == ms + [Message("a" + Decimal(n), Assistant, text, None, [], Some([TextPart(text)]), true)]
  {
    hide Decimal;
    assert "" + text == text;
    assert [] + [TextPart(text)] == [TextPart(text)];
  }

  lemma CloseTurn(s: ChatState, n: nat, model: string)
    requires s.transcript.lastSeq + 1 == n <= MAX_SAFE_INTEGER && n > 0
    requires s.transcript.pendingApprovals == [] && s.transcript.pendingSensitives == []
    ensures var r := Step(s, StopEvent(n, model)).transcript;
            r == s.transcript.(messages := CloseOpenAssistant(s.transcript.messages), status := Idle, lastSeq := n,
                               model := if model == "" then s.transcript.model else Some(model))
  {
  }
}

/** What every reachable chat state satisfies. */
module ChatInvariant {
  import opened Common
  import opened ChatModel
  import opened ChatReducer

  // ---- rows -------------------------------------------------------------------

  /** The visible text that the ordered parts carry. */
  ghost function TextOf(parts: seq<Part>): string {
    if parts == [] then ""
    else TextOf(parts[..|parts| - 1]) + (if parts[|parts| - 1].TextPart? then parts[|parts| - 1].text else "")
  }

  /** Neighbouring parts never have the same text or thinking kind. */
  ghost predicate Coalesced(parts: seq<Part>) {
    forall i :: 0 < i < |parts| ==>
      !(parts[i - 1].TextPart? && parts[i].TextPart?) && !(parts[i - 1].ThinkingPart? && parts[i].ThinkingPart?)
  }

  ghost predicate ToolPartsOk(m: Message, parts: seq<Part>) {
    && (forall i :: 0 <= i < |parts| && parts[i].ToolPart? ==> HasCall(m, parts[i].toolCallId))
    && (forall i, j :: 0 <= i < j < |parts| && parts[i].ToolPart? && parts[j].ToolPart? ==>
          parts[i].toolCallId != parts[j].toolCallId)
  }

  ghost predicate CallIdsDistinct(calls: seq<ToolCall>) {
    forall i, j :: 0 <= i < j < |calls| ==> calls[i].id != calls[j].id
  }

  ghost predicate RowOk(m: Message) {
    && m.parts.Some?
    && TextOf(m.parts.value) == m.text
    && Coalesced(m.parts.value)
    && ToolPartsOk(m, m.parts.value)
    && CallIdsDistinct(m.toolCalls)
  }

  ghost predicate RowsOk(ms: seq<Message>) {
    forall i :: 0 <= i < |ms| ==> RowOk(ms[i])
  }

  // ---- pending requests and connection ----------------------------------------

  ghost predicate IdsDistinct<T>(items: seq<T>, key: T -> string) {
    forall i, j :: 0 <= i < j < |items| ==> key(items[i]) != key(items[j])
  }

  ghost predicate PendingOk(t: Transcript) {
    && t.pendingApproval == Head(t.pendingApprovals)
    && t.pendingSensitive == Head(t.pendingSensitives)
    && IdsDistinct(t.pendingApprovals, ApprovalKey)
    && IdsDistinct(t.pendingSensitives, SensitiveKey)
    && IdsDistinct(t.skillActivations, ActivationKey)
    && (t.status.Idle? || t.status.Failed? ==> t.pendingApprovals == [] && t.pendingSensitives == [])
    && (t.status.AwaitingSensitiveInput? ==> t.pendingSensitives != [] && t.pendingApprovals == [])
    && (t.status.AwaitingApproval? ==> t.pendingApprovals != [])
    && (t.status.Failed? ==> t.error.Some?)
  }

  ghost predicate ConnectionOk(s: ChatState) {
    && s.transcript.lastSeq >= 0
    && s.connection.lastDeliveredSeq == s.transcript.lastSeq
    && (s.connection.expectedNextSeq.Some? ==> s.connection.expectedNextSeq.value == s.transcript.lastSeq + 1)
    && Distinct(s.connection.unsupported)
    && |s.connection.unsupported| <= MAX_UNSUPPORTED
  }

  ghost predicate Inv(s: ChatState) {
    RowsOk(s.transcript.messages) && PendingOk(s.transcript) && ConnectionOk(s)
  }

  // ---- part and row helpers ---------------------------------------------------

  ghost function TextIn(part: Part): string {
    if part.TextPart? then part.text else ""
  }

  lemma TextOfSnoc(parts: seq<Part>, part: Part)
    ensures TextOf(parts + [part]) == TextOf(parts) + TextIn(part)
  {
    assert (parts + [part])[..|parts|] == parts;
  }

  lemma AppendStaysCoalesced(parts: seq<Part>, part: Part)
    requires (part.TextPart? || part.ThinkingPart?) && Coalesced(parts)
    ensures Coalesced(AppendMessagePart(parts, part))
  {
  }

  /** An appended part is dropped, added, or merged into the last one. */
  ghost predicate IsAppended(parts: seq<Part>, part: Part, r: seq<Part>) {
    || (TextIn(part) == "" && r == parts)
    || r == parts + [part]
    || (&& parts != [] && |r| == |parts| && r == parts[..|parts| - 1] + [r[|r| - 1]]
        && TextIn(r[|r| - 1]) == TextIn(parts[|parts| - 1]) + TextIn(part))
  }

  lemma AppendShape(parts: seq<Part>, part: Part)
    requires part.TextPart? || part.ThinkingPart?
    ensures IsAppended(parts, part, AppendMessagePart(parts, part))
  {
  }

  lemma ConcatAssoc(a: string, b: string, c: string)
    ensures a + (b + c) == a + b + c && a + "" == a
  {
  }

  /** The text grows by exactly the text of the part. */
  lemma AppendGrowsText(parts: seq<Part>, part: Part, r: seq<Part>)
    requires (part.TextPart? || part.ThinkingPart?) && IsAppended(parts, part, r)
    ensures TextOf(r) == TextOf(parts) + TextIn(part)
  {
    hide TextOf;
    if r == parts + [part] {
      TextOfSnoc(parts, part);
    } else if r == parts && TextIn(part) == "" {
      ConcatAssoc(TextOf(parts), "", "");
    } else {
      var front, last := parts[..|parts| - 1], parts[|parts| - 1];
      assert parts == front + [last];
      TextOfSnoc(front, last);
      TextOfSnoc(front, r[|r| - 1]);
      ConcatAssoc(TextOf(front), TextIn(last), TextIn(part));
    }
  }

  lemma AppendMessagePartOk(parts: seq<Part>, part: Part)
    requires part.TextPart? || part.ThinkingPart?
    requires Coalesced(parts)
    ensures Coalesced(AppendMessagePart(parts, part))
    ensures TextOf(AppendMessagePart(parts, part)) == TextOf(parts) + TextIn(part)
  {
    hide AppendMessagePart, IsAppended, Coalesced, TextOf, TextIn;
    AppendStaysCoalesced(parts, part);
    AppendShape(parts, part);
    AppendGrowsText(parts, part, AppendMessagePart(parts, part));
  }

  lemma AppendKeepsToolParts(m: Message, parts: seq<Part>, part: Part)
    requires part.TextPart? || part.ThinkingPart?
    requires ToolPartsOk(m, parts)
    ensures ToolPartsOk(m, AppendMessagePart(parts, part))
  {
    hide HasCall;
  }

  lemma AppendToolPartOk(m: Message, parts: seq<Part>, id: string)
    requires Coalesced(parts) && ToolPartsOk(m, parts) && HasCall(m, id)
    ensures Coalesced(AppendToolPart(parts, id))
    ensures TextOf(AppendToolPart(parts, id)) == TextOf(parts)
    ensures ToolPartsOk(m, AppendToolPart(parts, id))
  {
    var r := AppendToolPart(parts, id);
    if r != parts {
      assert r[..|r| - 1] == parts;
      assert forall i :: 0 <= i < |parts| && parts[i].ToolPart? && parts[i].toolCallId == id ==> parts[i] == ToolPart(id);
    }
  }

  lemma EnsureOpenOk(ms: seq<Message>, n: nat)
    requires RowsOk(ms)
    ensures RowsOk(EnsureOpenAssistant(ms, n)) && |EnsureOpenAssistant(ms, n)| > 0
  {
  }

  lemma DeltaRowsOk(ms: seq<Message>, n: nat, text: string)
    requires RowsOk(ms)
    ensures RowsOk(DeltaRows(ms, n, text))
  {
    EnsureOpenOk(ms, n);
    var open := EnsureOpenAssistant(ms, n);
    var m := open[|open| - 1];
    AppendMessagePartOk(PartsOf(m), TextPart(text));
    AppendKeepsToolParts(m, PartsOf(m), TextPart(text));
    var r := DeltaRows(ms, n, text)[|open| - 1];
    SameCallsKeepToolParts(m, r, r.parts.value);
  }

  lemma ThinkingRowsOk(ms: seq<Message>, n: nat, text: string)
    requires RowsOk(ms)
    ensures RowsOk(ThinkingRows(ms, n, text))
  {
    EnsureOpenOk(ms, n);
    var open := EnsureOpenAssistant(ms, n);
    var m := open[|open| - 1];
    AppendMessagePartOk(PartsOf(m), ThinkingPart(text));
    AppendKeepsToolParts(m, PartsOf(m), ThinkingPart(text));
    var r := ThinkingRows(ms, n, text)[|open| - 1];
    SameCallsKeepToolParts(m, r, r.parts.value);
  }

  lemma CompleteRowsOk(ms: seq<Message>, n: nat, text: string)
    requires RowsOk(ms)
    ensures RowsOk(CompleteRows(ms, n, text))
  {
    hide HasCall;
    EnsureOpenOk(ms, n);
    assert TextOf([TextPart(text)]) == TextOf([]) + text by {
      assert [TextPart(text)][..0] == [];
    }
  }

  /** Appending a call with a new id keeps the row's calls and lets a part name it. */
  lemma AddCallOk(m: Message, call: ToolCall)
    requires RowOk(m) && !HasCall(m, call.id)
    ensures RowOk(m.(toolCalls := m.toolCalls + [call], parts := Some(AppendToolPart(PartsOf(m), call.id))))
  {
    hide TextOf, Coalesced, AppendToolPart;
    var m' := m.(toolCalls := m.toolCalls + [call]);
    assert m'.toolCalls[|m.toolCalls|].id == call.id;
    assert forall i :: 0 <= i < |m.toolCalls| ==> m'.toolCalls[i] == m.toolCalls[i];
    forall id | HasCall(m, id) ensures HasCall(m', id) {
      var i :| 0 <= i < |m.toolCalls| && m.toolCalls[i].id == id;
      assert m'.toolCalls[i].id == id;
    }
    AppendToolPartOk(m', PartsOf(m), call.id);
    var r := m'.(parts := Some(AppendToolPart(PartsOf(m), call.id)));
    assert r.toolCalls == m'.toolCalls;
    SameCallsKeepToolParts(m', r, r.parts.value);
  }

  lemma SameCallsKeepToolParts(a: Message, b: Message, parts: seq<Part>)
    requires ToolPartsOk(a, parts)
    requires |a.toolCalls| == |b.toolCalls| && forall i :: 0 <= i < |a.toolCalls| ==> a.toolCalls[i].id == b.toolCalls[i].id
    ensures ToolPartsOk(b, parts)
  {
    forall i | 0 <= i < |parts| && parts[i].ToolPart? ensures HasCall(b, parts[i].toolCallId) {
      var k :| 0 <= k < |a.toolCalls| && a.toolCalls[k].id == parts[i].toolCallId;
      assert b.toolCalls[k].id == parts[i].toolCallId;
    }
  }

  lemma ToolStartRowsOk(ms: seq<Message>, n: nat, call: ToolCall)
    requires RowsOk(ms)
    ensures RowsOk(ToolStartRows(ms, n, call))
  {
    EnsureOpenOk(ms, n);
    var open := EnsureOpenAssistant(ms, n);
    var m := open[|open| - 1];
    if HasCall(m, call.id) {
      AppendToolPartOk(m, PartsOf(m), call.id);
      var r := m.(parts := Some(AppendToolPart(PartsOf(m), call.id)));
      SameCallsKeepToolParts(m, r, r.parts.value);
      assert ToolStartRows(ms, n, call) == SetLast(open, r);
    } else {
      AddCallOk(m, call);
    }
  }

  lemma UpdateToolCallOk(ms: seq<Message>, id: string, u: ToolUpdate)
    requires RowsOk(ms)
    ensures RowsOk(UpdateToolCall(ms, id, u))
  {
    var r := UpdateToolCall(ms, id, u);
    forall k | 0 <= k < |r| ensures RowOk(r[k]) {
      SameCallsKeepToolParts(ms[k], r[k], ms[k].parts.value);
    }
  }

  lemma UpdateOrInsertOk(ms: seq<Message>, n: nat, call: ToolCall, u: ToolUpdate)
    requires RowsOk(ms)
    ensures RowsOk(UpdateOrInsertToolCall(ms, n, call, u))
  {
    if i :| 0 <= i < |ms| && HasCall(ms[i], call.id) {
      UpdateToolCallOk(ms, call.id, u);
    } else {
      EnsureOpenOk(ms, n);
      var open := EnsureOpenAssistant(ms, n);
      assert !HasCall(open[|open| - 1], call.id);
      AddCallOk(open[|open| - 1], call);
    }
  }

  lemma CloseOpenOk(ms: seq<Message>)
    requires RowsOk(ms)
    ensures RowsOk(CloseOpenAssistant(ms))
  {
    if ms != [] {
      var m := ms[|ms| - 1];
      SameCallsKeepToolParts(m, m.(streaming := false), m.parts.value);
    }
  }

  lemma UserRowOk(id: string, text: string)
    ensures RowOk(UserRow(id, text))
  {
    assert [TextPart(text)][..0] == [];
  }

  /** What an observation does to the rows. */
  ghost function RowsAfter(ms: seq<Message>, n: nat, body: Body): seq<Message> {
    match body
    case UserMessage(text, content, prompt) =>
      var shown := OrElse(text, OrElse(content, prompt));
      if shown == "" then ms else ReconcileOptimisticUser(ms, UserRow("u" + Decimal(n), shown))
    case TextDelta(text) => DeltaRows(ms, n, text)
    case TextComplete(text) =>
      if ms != [] && ms[|ms| - 1].role.Assistant? && ms[|ms| - 1].text != "" then ms else CompleteRows(ms, n, text)
    case ThinkingDelta(text) => ThinkingRows(ms, n, text)
    case ToolCallStart(id, name, input, descriptor) =>
      if id == "" || name == "" then ms
      else ToolStartRows(ms, n, ToolCall(id, name, input, ToolRunning, None, None, None, None, descriptor, false))
    case ToolCallProgress(id, name, progress) =>
      if id == "" then ms
      else UpdateOrInsertToolCall(ms, n,
        ToolCall(id, OrElse(name, "unknown"), map[], ToolRunning, Some(progress), None, None, None, None, true), SetProgress(progress))
    case ToolCallEnd(id, name, isError, result, durationMs, descriptor) =>
      if id == "" || name == "" then ms
      else UpdateOrInsertToolCall(ms, n,
        ToolCall(id, name, map[], if isError then ToolError else ToolDone, None, Some(result), Some(isError), durationMs, descriptor, true),
        Finish(isError, result, durationMs, descriptor))
    case TurnEnd(reason, _) => if IsTerminalReason(reason) then CloseOpenAssistant(ms) else ms
    case TurnInterrupted(_) => CloseOpenAssistant(ms)
    case ErrorEvent(_) => CloseOpenAssistant(ms)
    case _ => ms
  }

  /** The rows after an observation depend on the rows before it alone. */
  lemma ObserveRows(base: ChatState, n: nat, body: Body)
    ensures Observe(base, n, body).transcript.messages == RowsAfter(base.transcript.messages, n, body)
  {
    hide DeltaRows, CompleteRows, ThinkingRows, ToolStartRows, UpdateOrInsertToolCall, CloseOpenAssistant, ReconcileOptimisticUser;
    hide UpsertById, WithoutId, IsActivation, IsOperationHash, TypeName, WaitingStatus, InterruptedMessage;
  }

  lemma RowsAfterOk(ms: seq<Message>, n: nat, body: Body)
    requires RowsOk(ms)
    ensures RowsOk(RowsAfter(ms, n, body))
  {
    hide DeltaRows, CompleteRows, ThinkingRows, ToolStartRows, UpdateOrInsertToolCall, CloseOpenAssistant, RowOk;
    match body
    case UserMessage(text, content, prompt) => UserRowOk("u" + Decimal(n), OrElse(text, OrElse(content, prompt)));
    case TextDelta(text) => DeltaRowsOk(ms, n, text);
    case TextComplete(text) => CompleteRowsOk(ms, n, text);
    case ThinkingDelta(text) => ThinkingRowsOk(ms, n, text);
    case ToolCallStart(id, name, input, descriptor) =>
      ToolStartRowsOk(ms, n, ToolCall(id, name, input, ToolRunning, None, None, None, None, descriptor, false));
    case ToolCallProgress(id, name, progress) =>
      UpdateOrInsertOk(ms, n,
        ToolCall(id, OrElse(name, "unknown"), map[], ToolRunning, Some(progress), None, None, None, None, true), SetProgress(progress));
    case ToolCallEnd(id, name, isError, result, durationMs, descriptor) =>
      UpdateOrInsertOk(ms, n,
        ToolCall(id, name, map[], if isError then ToolError else ToolDone, None, Some(result), Some(isError), durationMs, descriptor, true),
        Finish(isError, result, durationMs, descriptor));
    case TurnEnd(_, _) => CloseOpenOk(ms);
    case TurnInterrupted(_) => CloseOpenOk(ms);
    case ErrorEvent(_) => CloseOpenOk(ms);
    case _ =>
  }

  /** Rows stay well formed under every observation. */
  lemma ObserveRowsOk(base: ChatState, n: nat, body: Body)
    requires RowsOk(base.transcript.messages)
    ensures RowsOk(Observe(base, n, body).transcript.messages)
  {
    hide Observe, RowsAfter, RowsOk;
    ObserveRows(base, n, body);
    RowsAfterOk(base.transcript.messages, n, body);
  }

  // ---- pending lists ----------------------------------------------------------

  lemma {:induction false} UpsertOk<T>(items: seq<T>, item: T, key: T -> string)
    requires IdsDistinct(items, key)
    ensures IdsDistinct(UpsertById(items, item, key), key)
    ensures item in UpsertById(items, item, key)
    ensures forall x :: x in UpsertById(items, item, key) ==> x == item || x in items
  {
    if items != [] && key(items[0]) != key(item) {
      UpsertOk(items[1..], item, key);
      var rest := UpsertById(items[1..], item, key);
      forall j | 0 <= j < |rest| ensures key(rest[j]) != key(items[0]) {
        assert rest[j] in rest;
      }
    }
  }

  /** Answering a request removes exactly that request. */
  lemma {:induction false} WithoutOk<T>(items: seq<T>, id: string, key: T -> string)
    requires IdsDistinct(items, key)
    ensures IdsDistinct(WithoutId(items, id, key), key)
    ensures forall x :: x in WithoutId(items, id, key) ==> x in items && key(x) != id
    ensures forall x :: x in items && key(x) != id ==> x in WithoutId(items, id, key)
  {
    if items != [] {
      WithoutOk(items[1..], id, key);
      var rest := WithoutId(items[1..], id, key);
      forall j | 0 <= j < |rest| ensures key(rest[j]) != key(items[0]) {
        assert rest[j] in rest;
      }
    }
  }

  lemma RequestsPendingOk(base: ChatState, body: Body)
    requires PendingOk(base.transcript)
    requires IsRequestBody(body)
    ensures PendingOk(ObservePending(base, body).transcript)
  {
    var t := base.transcript;
    match body
    case PermissionRequest(id, toolName, reason, operationHash, revisionOne) =>
      var approval := PendingApproval(id, OrElse(toolName, "unknown"), OrElse(reason, "Review the exact tool request."),
                                      if IsOperationHash(operationHash) then Some(operationHash) else None, revisionOne);
      UpsertOk(t.pendingApprovals, approval, ApprovalKey);
    case PermissionResponse(id) => WithoutOk(t.pendingApprovals, id, ApprovalKey);
    case SensitiveRequest(id, callId, toolName, title, usage, revision, agentId) =>
      var request := PendingSensitive(id, callId, toolName, title, usage, Nullable(agentId), revision);
      UpsertOk(t.pendingSensitives, request, SensitiveKey);
    case SensitiveResponse(id) => WithoutOk(t.pendingSensitives, id, SensitiveKey);
  }

  lemma ActivationPendingOk(base: ChatState, b: Body)
    requires PendingOk(base.transcript) && b.SkillActivated?
    ensures PendingOk(ObserveActivation(base, b).transcript)
  {
    if IsActivation(b) {
      var item := SkillActivation(b.activationId, b.skillName, b.skillDigest, b.sourceRef, b.sourceDigest,
                                  Nullable(b.agentId), Nullable(b.callId), b.turnIndex.value, b.timestamp.value);
      UpsertOk(base.transcript.skillActivations, item, ActivationKey);
    }
  }

  /** Observations that touch no pending list either keep the status, resume, or settle it. */
  ghost predicate KeepsPending(t: Transcript, t': Transcript) {
    && t'.skillActivations == t.skillActivations
    && t'.pendingApprovals == t.pendingApprovals && t'.pendingSensitives == t.pendingSensitives
    && t'.pendingApproval == t.pendingApproval && t'.pendingSensitive == t.pendingSensitive
    && ((t'.status == t.status && t'.error == t.error) || t'.status == Streaming
        || t'.status == WaitingStatus(t.pendingApprovals, t.pendingSensitives, Idle))
  }

  predicate TouchesPending(body: Body) {
    || IsRequestBody(body)
    || body.SkillActivated? || body.TurnInterrupted? || body.ErrorEvent?
  }

  lemma ObserveKeepsPending(base: ChatState, n: nat, body: Body)
    requires !TouchesPending(body)
    ensures KeepsPending(base.transcript, Observe(base, n, body).transcript)
  {
    hide DeltaRows, CompleteRows, ThinkingRows, ToolStartRows, UpdateOrInsertToolCall, ReconcileOptimisticUser, CloseOpenAssistant;
    hide ObserveActivation, ObservePending, WaitingStatus, TypeName;
  }

  /** Pending requests and status stay consistent under every observation. */
  lemma ObservePendingOk(base: ChatState, n: nat, body: Body)
    requires PendingOk(base.transcript)
    ensures PendingOk(Observe(base, n, body).transcript)
  {
    hide DeltaRows, CompleteRows, ThinkingRows, ObserveTool, ReconcileOptimisticUser, ObserveTurnEnd, ObserveUserMessage;
    hide ObserveActivation, ObservePending, TypeName, RememberUnsupported, CloseOpenAssistant, InterruptedMessage;
    if body.SkillActivated? {
      ActivationPendingOk(base, body);
    } else if body.TurnInterrupted? || body.ErrorEvent? {
    } else if TouchesPending(body) {
      RequestsPendingOk(base, body);
    } else {
      ObserveKeepsPending(base, n, body);
    }
  }

  lemma RememberOk(s: ChatState, typ: string)
    requires ConnectionOk(s)
    ensures ConnectionOk(RememberUnsupported(s, typ))
  {
  }

  lemma RequestsConnectionOk(base: ChatState, body: Body)
    requires ConnectionOk(base)
    requires IsRequestBody(body)
    ensures ConnectionOk(ObservePending(base, body))
  {
    hide UpsertById, WithoutId, IsOperationHash, TypeName, Distinct;
    RememberOk(base, TypeName(body));
  }

  lemma TurnEndConnectionOk(base: ChatState, stopReason: string, usageModel: string)
    requires ConnectionOk(base)
    ensures ConnectionOk(ObserveTurnEnd(base, stopReason, usageModel))
  {
    hide CloseOpenAssistant, WaitingStatus, RememberUnsupported, Distinct;
    var missing, unknown := "turn.end:missing-stop-reason", "turn.end:" + stopReason;
    RememberOk(base, missing);
    RememberOk(base, unknown);
    RememberKeepsTranscript(base, missing);
    RememberKeepsTranscript(base, unknown);
  }

  lemma RememberKeepsTranscript(s: ChatState, typ: string)
    ensures RememberUnsupported(s, typ).transcript == s.transcript
  {
  }

  /** Other observations leave the connection alone or remember their type. */
  lemma ObserveConnection(base: ChatState, n: nat, body: Body)
    requires !IsRequestBody(body) && !body.TurnEnd?
    ensures Observe(base, n, body).connection in {base.connection, RememberUnsupported(base, TypeName(body)).connection}
    ensures Observe(base, n, body).transcript.lastSeq == base.transcript.lastSeq
  {
    hide DeltaRows, CompleteRows, ThinkingRows, ToolStartRows, UpdateOrInsertToolCall, ReconcileOptimisticUser, CloseOpenAssistant;
    hide UpsertById, IsActivation, TypeName, InterruptedMessage;
  }

  lemma ObserveConnectionOk(base: ChatState, n: nat, body: Body)
    requires ConnectionOk(base)
    ensures ConnectionOk(Observe(base, n, body))
  {
    if IsRequestBody(body) {
      hide ObservePending;
      RequestsConnectionOk(base, body);
    } else if body.TurnEnd? {
      hide ObserveTurnEnd;
      TurnEndConnectionOk(base, body.stopReason, body.usageModel);
    } else {
      hide Observe, RememberUnsupported, Distinct;
      RememberOk(base, TypeName(body));
      RememberKeepsTranscript(base, TypeName(body));
      ObserveConnection(base, n, body);
    }
  }

  lemma ControlOk(s: ChatState, e: Event)
    requires PendingOk(s.transcript) && ConnectionOk(s) && IsControl(e)
    ensures PendingOk(Step(s, e).transcript) && ConnectionOk(Step(s, e))
  {
    hide Observe;
    if e.body.StreamStart? {
      RememberOk(s, "stream.start");
      RememberOk(s, "stream.start:cursor-mismatch");
    } else if e.body.ReplayComplete? {
      RememberOk(s, "stream.replay.complete");
    } else if e.body.StreamShutdown? {
      RememberOk(s, "stream.shutdown");
    }
  }

  /** Requests, status and connection stay consistent under every event, whatever the rows are. */
  lemma StepKeepsBooks(s: ChatState, e: Event)
    requires PendingOk(s.transcript) && ConnectionOk(s)
    ensures PendingOk(Step(s, e).transcript) && ConnectionOk(Step(s, e))
  {
    if IsControl(e) {
      ControlOk(s, e);
    } else if IsSafeNat(e.seqNo) && !IsDuplicate(s, e.seqNo.value) && !IsGap(s, e.seqNo.value) {
      var base := Advance(s, e.seqNo.value);
      ObservePendingOk(base, e.seqNo.value, e.body);
      ObserveConnectionOk(base, e.seqNo.value, e.body);
    }
  }

  lemma StepKeepsInv(s: ChatState, e: Event)
    requires Inv(s)
    ensures Inv(Step(s, e))
  {
    StepKeepsBooks(s, e);
    hide PendingOk, ConnectionOk, RowOk;
    if IsControl(e) {
      ControlKeepsRows(s, e);
    } else if IsSafeNat(e.seqNo) {
      ObserveRowsOk(Advance(s, e.seqNo.value), e.seqNo.value, e.body);
    }
  }

  lemma ControlKeepsRows(s: ChatState, e: Event)
    requires IsControl(e)
    ensures Step(s, e).transcript.messages == s.transcript.messages
  {
  }

  // ---- reachable states -------------------------------------------------------

  datatype Action = Receive(e: Event) | Prompt(text: string, id: Option<string>)

  ghost function Perform(s: ChatState, a: Action): ChatState {
    match a
    case Receive(e) => Step(s, e)
    case Prompt(text, id) => AddUserMessage(s, text, id)
  }

  /** The state after events and optimistic prompts. */
  ghost function Reach(s: ChatState, actions: seq<Action>): ChatState {
    if actions == [] then s else Perform(Reach(s, actions[..|actions| - 1]), actions[|actions| - 1])
  }

  lemma PerformKeepsBooks(s: ChatState, a: Action)
    requires PendingOk(s.transcript) && ConnectionOk(s)
    ensures PendingOk(Perform(s, a).transcript) && ConnectionOk(Perform(s, a))
  {
    if a.Receive? { StepKeepsBooks(s, a.e); }
  }

  /** Events and prompts keep the whole invariant. */
  lemma {:induction false} ReachKeepsInv(s: ChatState, actions: seq<Action>)
    requires Inv(s)
    ensures Inv(Reach(s, actions))
  {
    hide Step;
    if actions != [] {
      var r := Reach(s, actions[..|actions| - 1]);
      ReachKeepsInv(s, actions[..|actions| - 1]);
      match actions[|actions| - 1]
      case Receive(e) => StepKeepsInv(r, e);
      case Prompt(text, id) =>
        UserRowOk(if id.Some? then id.value else LOCAL_USER_PREFIX + Decimal(|r.transcript.messages|), text);
    }
  }

  /** Every state reached from the initial one satisfies it. */
  lemma ReachableKeepsInv(actions: seq<Action>)
    ensures Inv(Reach(INITIAL_STATE, actions))
  {
    ReachKeepsInv(INITIAL_STATE, actions);
  }

  // ---- splitting of deltas ----------------------------------------------------

  /** The rows after text deltas arrive one after another from number `n` on. */
  ghost function DeltaRun(ms: seq<Message>, n: nat, texts: seq<string>): seq<Message> {
    if texts == [] then ms
    else DeltaRows(DeltaRun(ms, n, texts[..|texts| - 1]), n + |texts| - 1, texts[|texts| - 1])
  }

  /** How the reply text was cut into deltas does not matter. */
  lemma {:induction false} DeltaSplitDoesNotMatter(ms: seq<Message>, n: nat, texts: seq<string>)
    requires texts != []
    ensures DeltaRun(ms, n, texts) == DeltaRows(ms, n, Flatten(texts))
  {
    var front, last := texts[..|texts| - 1], texts[|texts| - 1];
    if front == [] {
      assert Flatten(texts) == [] + last == last;
    } else {
      DeltaSplitDoesNotMatter(ms, n, front);
      TwoDeltasAreOne(ms, n, n + |texts| - 1, Flatten(front), last);
    }
  }

  lemma TwoDeltasAreOne(ms: seq<Message>, n: nat, n': nat, a: string, b: string)
    ensures DeltaRows(DeltaRows(ms, n, a), n', b) == DeltaRows(ms, n, a + b)
  {
    var open := EnsureOpenAssistant(ms, n);
    var m := open[|open| - 1];
    var p := PartsOf(m);
    TwoAppendsAreOne(p, a, b);
    assert m.text + a + b == m.text + (a + b);
  }

  lemma TwoAppendsAreOne(p: seq<Part>, a: string, b: string)
    ensures AppendMessagePart(AppendMessagePart(p, TextPart(a)), TextPart(b)) == AppendMessagePart(p, TextPart(a + b))
  {
    if a == "" {
      assert a + b == b;
    } else if b == "" {
      assert a + b == a;
    } else if p != [] && p[|p| - 1].TextPart? {
      assert p[|p| - 1].text + a + b == p[|p| - 1].text + (a + b);
    }
  }
}

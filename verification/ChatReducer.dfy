/** The chat reducer: one event folded into one state (packages/ui/src/reducer.ts). */
module ChatReducer {
  import opened Common
  import opened ChatModel

  // ---- field validators -------------------------------------------------------

  predicate IsLowerHex(c: char) {
    '0' <= c <= '9' || 'a' <= c <= 'f'
  }

  predicate IsOperationHash(v: string) {
    |v| == 64 && forall i :: 0 <= i < |v| ==> IsLowerHex(v[i])
  }

  predicate IsBoundedIdentity(v: string) {
    0 < |v| <= 240 && forall i :: 0 <= i < |v| ==> v[i] as int >= 0x20 && v[i] as int != 0x7f
  }

  predicate IsKeyedDigest(v: string) {
    var prefix := "hmac-sha256:";
    |v| == |prefix| + 64 && prefix <= v && forall i :: |prefix| <= i < |v| ==> IsLowerHex(v[i])
  }

  predicate IsUuid(v: string) {
    && |v| == 36
    && (forall i :: 0 <= i < 36 ==>
          if i == 8 || i == 13 || i == 18 || i == 23 then v[i] == '-' else IsLowerHex(v[i]))
    && '1' <= v[14] <= '5'
    && v[19] in {'8', '9', 'a', 'b'}
  }

  predicate IsNullableIdentity(f: Field) {
    f.Null? || (f.Text? && IsBoundedIdentity(f.s))
  }

  function Nullable(f: Field): Option<string> {
    if f.Text? then Some(f.s) else None
  }

  // ---- message parts ----------------------------------------------------------

  function PartsOf(m: Message): seq<Part> {
    if m.parts.Some? then m.parts.value else []
  }

  /** Appends text or thinking, merging it into a last part of the same kind. */
  function AppendMessagePart(parts: seq<Part>, part: Part): seq<Part>
    requires part.TextPart? || part.ThinkingPart?
  {
    if part.text == "" then parts
    else if parts != [] && part.TextPart? && parts[|parts| - 1].TextPart? then
      parts[|parts| - 1 := TextPart(parts[|parts| - 1].text + part.text)]
    else if parts != [] && part.ThinkingPart? && parts[|parts| - 1].ThinkingPart? then
      parts[|parts| - 1 := ThinkingPart(parts[|parts| - 1].text + part.text)]
    else parts + [part]
  }

  function AppendToolPart(parts: seq<Part>, toolCallId: string): seq<Part> {
    if ToolPart(toolCallId) in parts then parts else parts + [ToolPart(toolCallId)]
  }

  // ---- rows -------------------------------------------------------------------

  predicate IsOpen(m: Message) {
    m.role.Assistant? && m.streaming
  }

  /** The rows with an open assistant reply as the last one. */
  function EnsureOpenAssistant(ms: seq<Message>, seqNo: nat): seq<Message> {
    if ms != [] && IsOpen(ms[|ms| - 1]) then ms
    else ms + [Message("a" + Decimal(seqNo), Assistant, "", None, [], Some([]), true)]
  }

  function SetLast(ms: seq<Message>, m: Message): seq<Message>
    requires ms != []
  {
    ms[|ms| - 1 := m]
  }

  function CloseOpenAssistant(ms: seq<Message>): seq<Message> {
    if ms != [] && IsOpen(ms[|ms| - 1]) then SetLast(ms, ms[|ms| - 1].(streaming := false)) else ms
  }

  const LOCAL_USER_PREFIX := "u-local-"

  /** Replaces a matching optimistic prompt in the last row, or appends. */
  function ReconcileOptimisticUser(ms: seq<Message>, observed: Message): seq<Message> {
    if ms != [] && ms[|ms| - 1].role.User? && LOCAL_USER_PREFIX <= ms[|ms| - 1].id && ms[|ms| - 1].text == observed.text
    then SetLast(ms, observed)
    else ms + [observed]
  }

  function UserRow(id: string, text: string): Message {
    Message(id, User, text, None, [], Some([TextPart(text)]), false)
  }

  // ---- tool calls -------------------------------------------------------------

  /** What a later observation changes in a tool call. */
  datatype ToolUpdate =
    | SetProgress(progress: string)
    | Finish(isError: bool, result: string, durationMs: Option<real>, descriptor: Option<Descriptor>)

  function UpdateCall(u: ToolUpdate, c: ToolCall): ToolCall {
    match u
    case SetProgress(p) => c.(progress := Some(p))
    case Finish(isError, result, durationMs, descriptor) =>
      c.(status := if isError then ToolError else ToolDone,
         result := Some(result),
         isError := Some(isError),
         durationMs := durationMs,
         descriptor := if descriptor.Some? then descriptor else c.descriptor)
  }

  predicate HasCall(m: Message, id: string) {
    exists i :: 0 <= i < |m.toolCalls| && m.toolCalls[i].id == id
  }

  function UpdateCalls(calls: seq<ToolCall>, id: string, u: ToolUpdate): seq<ToolCall> {
    seq(|calls|, i requires 0 <= i < |calls| => if calls[i].id == id then UpdateCall(u, calls[i]) else calls[i])
  }

  function UpdateToolCall(ms: seq<Message>, id: string, u: ToolUpdate): seq<Message> {
    seq(|ms|, i requires 0 <= i < |ms| =>
      if HasCall(ms[i], id) then ms[i].(toolCalls := UpdateCalls(ms[i].toolCalls, id, u)) else ms[i])
  }

  /** Updates an observed call, or keeps a partial placeholder in the open reply. */
  function UpdateOrInsertToolCall(ms: seq<Message>, seqNo: nat, initial: ToolCall, u: ToolUpdate): seq<Message> {
    if exists i :: 0 <= i < |ms| && HasCall(ms[i], initial.id) then UpdateToolCall(ms, initial.id, u)
    else
      var open := EnsureOpenAssistant(ms, seqNo);
      var m := open[|open| - 1];
      SetLast(open, m.(toolCalls := m.toolCalls + [initial],
                       parts := Some(AppendToolPart(PartsOf(m), initial.id))))
  }

  // ---- pending requests -------------------------------------------------------

  function ApprovalKey(a: PendingApproval): string { a.requestId }

  function SensitiveKey(p: PendingSensitive): string { p.requestId }

  function ActivationKey(a: SkillActivation): string { a.activationId }

  /** Replaces the first item with the same key, or appends. */
  function UpsertById<T>(items: seq<T>, item: T, key: T -> string): seq<T> {
    if items == [] then [item]
    else if key(items[0]) == key(item) then [item] + items[1..]
    else [items[0]] + UpsertById(items[1..], item, key)
  }

  function WithoutId<T>(items: seq<T>, id: string, key: T -> string): seq<T> {
    if items == [] then []
    else (if key(items[0]) == id then [] else [items[0]]) + WithoutId(items[1..], id, key)
  }

  function Head<T>(items: seq<T>): Option<T> {
    if items == [] then None else Some(items[0])
  }

  function WaitingStatus(approvals: seq<PendingApproval>, sensitives: seq<PendingSensitive>, fallback: ChatStatus): ChatStatus {
    if approvals != [] then AwaitingApproval
    else if sensitives != [] then AwaitingSensitiveInput
    else fallback
  }

  function TerminalError(s: ChatState, message: string): ChatState {
    var t := s.transcript;
    s.(transcript := t.(messages := CloseOpenAssistant(t.messages), status := Failed, error := Some(message),
                        pendingApproval := None, pendingApprovals := [],
                        pendingSensitive := None, pendingSensitives := []))
  }

  // ---- connection -------------------------------------------------------------

  const MAX_UNSUPPORTED := 32

  /** Keeps the last 32 distinct unsupported types. */
  function RememberUnsupported(s: ChatState, typ: string): ChatState {
    var current := s.connection.unsupported;
    if typ in current then s
    else
      var longer := current + [typ];
      var kept := if |longer| > MAX_UNSUPPORTED then longer[|longer| - MAX_UNSUPPORTED..] else longer;
      s.(connection := s.connection.(unsupported := kept))
  }

  function RequireResync(s: ChatState): ChatState {
    s.(connection := s.connection.(phase := ResyncRequired, expectedNextSeq := Some(s.transcript.lastSeq + 1)))
  }

  function SeedReplayCursor(s: ChatState, since: Option<int>): ChatState {
    if !IsSafeNat(since) then s
    else s.(transcript := s.transcript.(lastSeq := since.value),
            connection := s.connection.(phase := Replaying, lastDeliveredSeq := since.value,
                                        expectedNextSeq := Some(since.value + 1)))
  }

  function ReduceStreamStart(s: ChatState, since: Option<int>, maxSeqAtStart: Option<int>): ChatState {
    if !IsSafeNat(since) || !IsSafeInteger(maxSeqAtStart) || maxSeqAtStart.value < since.value then
      RememberUnsupported(s, "stream.start")
    else if s.transcript.lastSeq != 0 && s.transcript.lastSeq != since.value then
      RequireResync(RememberUnsupported(s, "stream.start:cursor-mismatch"))
    else SeedReplayCursor(s, since)
  }

  function ReduceReplayComplete(s: ChatState, since: Option<int>, replayedThrough: Option<int>,
                                maxSeqAtStart: Option<int>, liveTail: Option<bool>): ChatState {
    if || !IsSafeNat(since)
       || !IsSafeInteger(replayedThrough) || replayedThrough.value < since.value
       || !IsSafeInteger(maxSeqAtStart) || maxSeqAtStart.value < since.value
       || liveTail.None?
       || replayedThrough.value != s.transcript.lastSeq
    then RequireResync(RememberUnsupported(s, "stream.replay.complete"))
    else s.(connection := s.connection.(
              phase := if liveTail.value then Live else Closed,
              lastDeliveredSeq := s.transcript.lastSeq,
              expectedNextSeq := if liveTail.value then Some(s.transcript.lastSeq + 1) else None))
  }

  function ReduceStreamShutdown(s: ChatState, reason: string): ChatState {
    if reason == "gateway_shutdown" then s.(connection := s.connection.(phase := Reconnecting))
    else if reason == "slow_consumer" then RequireResync(s)
    else RememberUnsupported(s, "stream.shutdown")
  }

  function ReduceControl(s: ChatState, e: Event): ChatState
    requires IsControl(e)
  {
    match e.body
    case StreamStart(since, maxSeq) => ReduceStreamStart(s, since, maxSeq)
    case ReplayComplete(since, through, maxSeq, liveTail) => ReduceReplayComplete(s, since, through, maxSeq, liveTail)
    case StreamShutdown(reason) => ReduceStreamShutdown(s, reason)
    case Done => s.(connection := s.connection.(phase := Closed, expectedNextSeq := None))
  }

  // ---- the reducer ------------------------------------------------------------

  predicate IsContinueReason(r: string) {
    r == "tool_use" || r == "pause_turn"
  }

  predicate IsTerminalReason(r: string) {
    r == "end_turn" || r == "max_tokens" || r == "stop_sequence"
  }

  function WithRows(base: ChatState, ms: seq<Message>, status: ChatStatus): ChatState {
    base.(transcript := base.transcript.(messages := ms, status := status))
  }

  function OrModel(name: string, base: ChatState): Option<string> {
    if name == "" then base.transcript.model else Some(name)
  }

  function ObserveUserMessage(base: ChatState, seqNo: nat, text: string): ChatState {
    if text == "" then base
    else
      var rows := ReconcileOptimisticUser(base.transcript.messages, UserRow("u" + Decimal(seqNo), text));
      var s := WithRows(base, rows, Streaming);
      s.(transcript := s.transcript.(error := None))
  }

  function DeltaRows(ms: seq<Message>, seqNo: nat, text: string): seq<Message> {
    var open := EnsureOpenAssistant(ms, seqNo);
    var m := open[|open| - 1];
    SetLast(open, m.(text := m.text + text, parts := Some(AppendMessagePart(PartsOf(m), TextPart(text)))))
  }

  function CompleteRows(ms: seq<Message>, seqNo: nat, text: string): seq<Message> {
    var open := EnsureOpenAssistant(ms, seqNo);
    SetLast(open, open[|open| - 1].(text := text, parts := Some(if text == "" then [] else [TextPart(text)])))
  }

  function ThinkingRows(ms: seq<Message>, seqNo: nat, text: string): seq<Message> {
    var open := EnsureOpenAssistant(ms, seqNo);
    var m := open[|open| - 1];
    var before := if m.thinking.Some? then m.thinking.value else "";
    SetLast(open, m.(thinking := Some(before + text), parts := Some(AppendMessagePart(PartsOf(m), ThinkingPart(text)))))
  }

  function ToolStartRows(ms: seq<Message>, seqNo: nat, call: ToolCall): seq<Message> {
    var open := EnsureOpenAssistant(ms, seqNo);
    var m := open[|open| - 1];
    SetLast(open, m.(toolCalls := if HasCall(m, call.id) then m.toolCalls else m.toolCalls + [call],
                     parts := Some(AppendToolPart(PartsOf(m), call.id))))
  }

  predicate IsToolBody(body: Body) {
    body.ToolCallStart? || body.ToolCallProgress? || body.ToolCallEnd?
  }

  function ObserveTool(base: ChatState, seqNo: nat, body: Body): ChatState
    requires IsToolBody(body)
  {
    var ms := base.transcript.messages;
    match body
    case ToolCallStart(id, name, input, descriptor) =>
      if id == "" || name == "" then RememberUnsupported(base, TypeName(body))
      else WithRows(base, ToolStartRows(ms, seqNo,
                      ToolCall(id, name, input, ToolRunning, None, None, None, None, descriptor, false)), Streaming)
    case ToolCallProgress(id, name, progress) =>
      if id == "" then RememberUnsupported(base, TypeName(body))
      else WithRows(base, UpdateOrInsertToolCall(ms, seqNo,
                      ToolCall(id, OrElse(name, "unknown"), map[], ToolRunning, Some(progress), None, None, None, None, true),
                      SetProgress(progress)), base.transcript.status)
    case ToolCallEnd(id, name, isError, result, durationMs, descriptor) =>
      if id == "" || name == "" then RememberUnsupported(base, TypeName(body))
      else WithRows(base, UpdateOrInsertToolCall(ms, seqNo,
                      ToolCall(id, name, map[], if isError then ToolError else ToolDone, None, Some(result),
                               Some(isError), durationMs, descriptor, true),
                      Finish(isError, result, durationMs, descriptor)), base.transcript.status)
  }

  function SetApprovals(base: ChatState, items: seq<PendingApproval>, status: ChatStatus): ChatState {
    base.(transcript := base.transcript.(status := status, pendingApproval := Head(items), pendingApprovals := items))
  }

  function SetSensitives(base: ChatState, items: seq<PendingSensitive>, status: ChatStatus): ChatState {
    base.(transcript := base.transcript.(status := status, pendingSensitive := Head(items), pendingSensitives := items))
  }

  /** The requests for the person, and their answers. */
  predicate IsRequestBody(body: Body) {
    body.PermissionRequest? || body.PermissionResponse? || body.SensitiveRequest? || body.SensitiveResponse?
  }

  function ObservePending(base: ChatState, body: Body): ChatState
    requires IsRequestBody(body)
  {
    var t := base.transcript;
    match body
    case PermissionRequest(id, toolName, reason, operationHash, revisionOne) =>
      if id == "" then base
      else
        var approval := PendingApproval(id, OrElse(toolName, "unknown"), OrElse(reason, "Review the exact tool request."),
                                        if IsOperationHash(operationHash) then Some(operationHash) else None, revisionOne);
        SetApprovals(base, UpsertById(t.pendingApprovals, approval, ApprovalKey), AwaitingApproval)
    case PermissionResponse(id) =>
      if id == "" then RememberUnsupported(base, TypeName(body))
      else
        var rest := WithoutId(t.pendingApprovals, id, ApprovalKey);
        SetApprovals(base, rest, WaitingStatus(rest, t.pendingSensitives, Streaming))
    case SensitiveRequest(id, callId, toolName, title, usage, revision, agentId) =>
      if id == "" || callId == "" || toolName == "" || title == "" || usage == "" || revision == "" || agentId.Absent? then
        RememberUnsupported(base, TypeName(body))
      else
        SetSensitives(base,
          UpsertById(t.pendingSensitives,
                     PendingSensitive(id, callId, toolName, title, usage, Nullable(agentId), revision), SensitiveKey),
          if t.pendingApprovals != [] then AwaitingApproval else AwaitingSensitiveInput)
    case SensitiveResponse(id) =>
      if id == "" then RememberUnsupported(base, TypeName(body))
      else
        var rest := WithoutId(t.pendingSensitives, id, SensitiveKey);
        SetSensitives(base, rest, WaitingStatus(t.pendingApprovals, rest, Streaming))
  }

  predicate IsActivation(b: Body)
    requires b.SkillActivated?
  {
    && IsBoundedIdentity(b.activationId) && IsUuid(b.activationId)
    && IsBoundedIdentity(b.skillName) && IsKeyedDigest(b.skillDigest)
    && IsBoundedIdentity(b.sourceRef) && IsKeyedDigest(b.sourceDigest)
    && IsNullableIdentity(b.agentId) && IsNullableIdentity(b.callId)
    && IsSafeNat(b.turnIndex) && IsSafeNat(b.timestamp)
  }

  function ObserveActivation(base: ChatState, b: Body): ChatState
    requires b.SkillActivated?
  {
    if !IsActivation(b) then RememberUnsupported(base, TypeName(b))
    else base.(transcript := base.transcript.(skillActivations := UpsertById(
                 base.transcript.skillActivations,
                 SkillActivation(b.activationId, b.skillName, b.skillDigest, b.sourceRef, b.sourceDigest,
                                 Nullable(b.agentId), Nullable(b.callId), b.turnIndex.value, b.timestamp.value),
                 ActivationKey)))
  }

  function ObserveTurnEnd(base: ChatState, stopReason: string, usageModel: string): ChatState {
    var t := base.transcript;
    if stopReason == "" then RequireResync(RememberUnsupported(base, "turn.end:missing-stop-reason"))
    else if IsContinueReason(stopReason) then base.(transcript := t.(model := OrModel(usageModel, base)))
    else if !IsTerminalReason(stopReason) then RequireResync(RememberUnsupported(base, "turn.end:" + stopReason))
    else base.(transcript := t.(messages := CloseOpenAssistant(t.messages),
                                status := WaitingStatus(t.pendingApprovals, t.pendingSensitives, Idle),
                                model := OrModel(usageModel, base)))
  }

  function InterruptedMessage(reason: string): string {
    "Run " + OrElse(reason, "interrupted") + ". Start another turn or refresh the run state."
  }

  /** The switch over run observations, on a state whose cursor already moved. */
  function Observe(base: ChatState, seqNo: nat, body: Body): ChatState {
    var ms := base.transcript.messages;
    match body
    case UserMessage(text, content, prompt) => ObserveUserMessage(base, seqNo, OrElse(text, OrElse(content, prompt)))
    case TextDelta(text) => WithRows(base, DeltaRows(ms, seqNo, text), Streaming)
    case TextComplete(text) =>
      if ms != [] && ms[|ms| - 1].role.Assistant? && ms[|ms| - 1].text != "" then base
      else WithRows(base, CompleteRows(ms, seqNo, text), Streaming)
    case ThinkingDelta(text) => WithRows(base, ThinkingRows(ms, seqNo, text), Streaming)
    case ToolCallStart(_, _, _, _) => ObserveTool(base, seqNo, body)
    case ToolCallProgress(_, _, _) => ObserveTool(base, seqNo, body)
    case ToolCallEnd(_, _, _, _, _, _) => ObserveTool(base, seqNo, body)
    case PermissionRequest(_, _, _, _, _) => ObservePending(base, body)
    case PermissionResponse(_) => ObservePending(base, body)
    case SensitiveRequest(_, _, _, _, _, _, _) => ObservePending(base, body)
    case SensitiveResponse(_) => ObservePending(base, body)
    case SkillActivated(_, _, _, _, _, _, _, _, _) => ObserveActivation(base, body)
    case TurnEnd(stopReason, usageModel) => ObserveTurnEnd(base, stopReason, usageModel)
    case TurnInterrupted(reason) =>
      TerminalError(base, InterruptedMessage(reason))
    case ErrorEvent(message) => TerminalError(base, OrElse(message, "agent error"))
    case SessionStart(model) => base.(transcript := base.transcript.(model := OrModel(model, base)))
    case _ => RememberUnsupported(base, TypeName(body))
  }

  /** The state with its cursor moved to the event about to be observed. */
  function Advance(s: ChatState, seqNo: nat): ChatState {
    var lastSeq := if seqNo > 0 then seqNo else s.transcript.lastSeq;
    s.(transcript := s.transcript.(lastSeq := lastSeq),
       connection := s.connection.(phase := if s.connection.phase.Replaying? then Replaying else Live,
                                   lastDeliveredSeq := lastSeq, expectedNextSeq := Some(lastSeq + 1)))
  }

  predicate IsGap(s: ChatState, seqNo: int) {
    seqNo > 0 && s.connection.lastDeliveredSeq > 0 && seqNo > s.transcript.lastSeq + 1
  }

  predicate IsDuplicate(s: ChatState, seqNo: int) {
    0 < seqNo <= s.transcript.lastSeq
  }

  /** `chatReducer`. */
  function Step(s: ChatState, e: Event): ChatState {
    if IsControl(e) then ReduceControl(s, e)
    else if !IsSafeNat(e.seqNo) || IsDuplicate(s, e.seqNo.value) then s
    else if IsGap(s, e.seqNo.value) then RequireResync(s)
    else Observe(Advance(s, e.seqNo.value), e.seqNo.value, e.body)
  }

  /** The optimistic prompt row; `id` absent means a local id. */
  function AddUserMessage(s: ChatState, text: string, id: Option<string>): ChatState {
    var ms := s.transcript.messages;
    var rowId := if id.Some? then id.value else LOCAL_USER_PREFIX + Decimal(|ms|);
    WithRows(s, ms + [UserRow(rowId, text)], Streaming)
  }

  /** The state after a whole sequence of events. */
  function Fold(s: ChatState, es: seq<Event>): ChatState {
    if es == [] then s else Step(Fold(s, es[..|es| - 1]), es[|es| - 1])
  }

  /** `applyEvents`: the loop computes the fold. */
  method ApplyEvents(state: ChatState, events: seq<Event>) returns (s: ChatState)
    ensures s == Fold(state, events)
  {
    hide Step;
    s := state;
    for i := 0 to |events|
      invariant s == Fold(state, events[..i])
    {
      assert events[..i + 1][..i] == events[..i];
      s := Step(s, events[i]);
    }
    assert events[..|events|] == events;
  }

  lemma {:induction false} FoldConcat(s: ChatState, a: seq<Event>, b: seq<Event>)
    ensures Fold(s, a + b) == Fold(Fold(s, a), b)
    decreases |b|
  {
    if b == [] {
      assert a + b == a;
    } else {
      assert (a + b)[..|a + b| - 1] == a + b[..|b| - 1];
      FoldConcat(s, a, b[..|b| - 1]);
    }
  }

  lemma FoldSnoc(s: ChatState, es: seq<Event>, e: Event, all: seq<Event>)
    requires all == es + [e]
    ensures Fold(s, all) == Step(Fold(s, es), e)
  {
    assert all[..|all| - 1] == es;
  }
}

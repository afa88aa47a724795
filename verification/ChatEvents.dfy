/** What each event does to the chat, field by field (packages/ui/src/reducer.ts). */
module ChatEvents {
  import opened Common
  import opened ChatModel
  import opened ChatReducer
  import opened ChatDelivery
  import opened ChatInvariant

  /** The next observation in order. */
  ghost predicate IsNext(s: ChatState, e: Event, n: nat) {
    && !IsControl(e) && s.transcript.lastSeq >= 0 && n == s.transcript.lastSeq + 1 && e.seqNo == Some(n)
    && n <= MAX_SAFE_INTEGER
  }

  /** The connection after an observation that the client can use. */
  ghost predicate IsLiveAt(before: Connection, after: Connection, n: nat) {
    && after.phase == (if before.phase == Replaying then Replaying else Live)
    && after.lastDeliveredSeq == n && after.expectedNextSeq == Some(n + 1)
  }

  /** The list of unsupported types after meeting one: it is last in a list of at most 32, or was there already. */
  ghost predicate Remembers(before: seq<string>, after: seq<string>, typ: string) {
    if typ in before then after == before
    else after == (if |before| < 32 then before else before[|before| - 31..]) + [typ]
  }

  /** The transcript only moves its cursor, and the type joins the unsupported ones. */
  ghost predicate IsUnsupported(s: ChatState, s': ChatState, n: nat, typ: string) {
    && s'.transcript == s.transcript.(lastSeq := n)
    && IsLiveAt(s.connection, s'.connection, n) && Remembers(s.connection.unsupported, s'.connection.unsupported, typ)
  }

  /** The transcript becomes `t`, and nothing new is unsupported. */
  ghost predicate Becomes(s: ChatState, s': ChatState, n: nat, t: Transcript) {
    && s'.transcript == t && IsLiveAt(s.connection, s'.connection, n)
    && s'.connection.unsupported == s.connection.unsupported
  }

  /** The next observation is folded into a state whose cursor and connection have moved. */
  lemma NextIs(s: ChatState, e: Event, n: nat)
    requires IsNext(s, e, n)
    ensures var base := Advance(s, n);
            && Step(s, e) == Observe(base, n, e.body) && base.transcript == s.transcript.(lastSeq := n)
            && IsLiveAt(s.connection, base.connection, n) && base.connection.unsupported == s.connection.unsupported
  {
    hide Observe;
  }

  lemma RememberIs(s: ChatState, typ: string)
    requires |s.connection.unsupported| <= 32
    ensures var r := RememberUnsupported(s, typ);
            r == s.(connection := s.connection.(unsupported := r.connection.unsupported))
            && Remembers(s.connection.unsupported, r.connection.unsupported, typ)
  {
    var before := s.connection.unsupported;
    if typ !in before && |before| == 32 { assert (before + [typ])[1..] == before[1..] + [typ]; }
  }

  // ---- prompts and text -------------------------------------------------------

  /** The row a prompt shows. */
  ghost function PromptRow(n: nat, text: string): Message {
    Message("u" + Decimal(n), User, text, None, [], Some([TextPart(text)]), false)
  }

  /** The last row is a prompt with this text that the client put there itself. */
  ghost predicate EndsInLocal(ms: seq<Message>, text: string) {
    ms != [] && var m := ms[|ms| - 1]; m.role == User && "u-local-" <= m.id && m.text == text
  }

  /** A prompt shows the first of its three texts that is not empty, in place of the client's own row for it. */
  lemma PromptShows(s: ChatState, e: Event, n: nat)
    requires IsNext(s, e, n) && e.body.UserMessage?
    ensures var text := if e.body.text != "" then e.body.text else if e.body.content != "" then e.body.content else e.body.prompt;
            var t, ms := s.transcript, s.transcript.messages;
            var kept := if EndsInLocal(ms, text) then ms[..|ms| - 1] else ms;
            Becomes(s, Step(s, e), n,
                    if text == "" then t.(lastSeq := n)
                    else t.(lastSeq := n, messages := kept + [PromptRow(n, text)], status := Streaming, error := None))
  {
    hide Decimal;
  }

  /** A prompt put there by the client, with the caller's id or one of its position. */
  lemma OwnPromptShows(s: ChatState, text: string, id: Option<string>)
    ensures var ms := s.transcript.messages;
            var rowId := if id.Some? then id.value else "u-local-" + Decimal(|ms|);
            AddUserMessage(s, text, id)
            == s.(transcript := s.transcript.(messages := ms + [Message(rowId, User, text, None, [], Some([TextPart(text)]), false)],
                                              status := Streaming))
  {
  }

  /** The reply that an observation writes to: the open one at the end, or a new one after the rows. */
  ghost predicate WritesTo(ms: seq<Message>, n: nat, before: seq<Message>, m: Message) {
    if ms != [] && ms[|ms| - 1].role == Assistant && ms[|ms| - 1].streaming then before + [m] == ms
    else before == ms && m == Message("a" + Decimal(n), Assistant, "", None, [], Some([]), true)
  }

  lemma OpenReply(ms: seq<Message>, n: nat) returns (before: seq<Message>, m: Message)
    ensures WritesTo(ms, n, before, m) && EnsureOpenAssistant(ms, n) == before + [m]
  {
    hide Decimal;
    var open := EnsureOpenAssistant(ms, n);
    before, m := open[..|open| - 1], open[|open| - 1];
  }

  /** Text of the same kind as the last part joins it; other text is a part of its own; no text is none. */
  ghost predicate GrowsBy(parts: seq<Part>, part: Part, after: seq<Part>)
    requires part.TextPart? || part.ThinkingPart?
  {
    if part.text == "" then after == parts
    else if parts != [] && part.TextPart? && parts[|parts| - 1].TextPart? then
      after == parts[..|parts| - 1] + [TextPart(parts[|parts| - 1].text + part.text)]
    else if parts != [] && part.ThinkingPart? && parts[|parts| - 1].ThinkingPart? then
      after == parts[..|parts| - 1] + [ThinkingPart(parts[|parts| - 1].text + part.text)]
    else after == parts + [part]
  }

  lemma AppendGrows(parts: seq<Part>, part: Part)
    requires part.TextPart? || part.ThinkingPart?
    ensures GrowsBy(parts, part, AppendMessagePart(parts, part))
  {
  }

  ghost function PartsIn(m: Message): seq<Part> {
    if m.parts.Some? then m.parts.value else []
  }

  lemma SetLastIs(before: seq<Message>, m: Message, m': Message)
    ensures SetLast(before + [m], m') == before + [m']
  {
  }

  /** A delta adds its text to the reply. */
  lemma DeltaShows(s: ChatState, e: Event, n: nat) returns (before: seq<Message>, m: Message, parts: seq<Part>)
    requires IsNext(s, e, n) && e.body.TextDelta?
    ensures WritesTo(s.transcript.messages, n, before, m) && GrowsBy(PartsIn(m), TextPart(e.body.text), parts)
    ensures Becomes(s, Step(s, e), n,
                    s.transcript.(lastSeq := n, status := Streaming,
                                  messages := before + [m.(text := m.text + e.body.text, parts := Some(parts))]))
  {
    hide EnsureOpenAssistant, AppendMessagePart, SetLast, Decimal;
    before, m := OpenReply(s.transcript.messages, n);
    parts := AppendMessagePart(PartsOf(m), TextPart(e.body.text));
    AppendGrows(PartsOf(m), TextPart(e.body.text));
    SetLastIs(before, m, m.(text := m.text + e.body.text, parts := Some(parts)));
  }

  /** A thinking delta adds its text to the reply's thinking and leaves the visible text alone. */
  lemma ThinkingShows(s: ChatState, e: Event, n: nat) returns (before: seq<Message>, m: Message, parts: seq<Part>)
    requires IsNext(s, e, n) && e.body.ThinkingDelta?
    ensures WritesTo(s.transcript.messages, n, before, m) && GrowsBy(PartsIn(m), ThinkingPart(e.body.text), parts)
    ensures var thought := if m.thinking.Some? then m.thinking.value else "";
            Becomes(s, Step(s, e), n,
                    s.transcript.(lastSeq := n, status := Streaming,
                                  messages := before + [m.(thinking := Some(thought + e.body.text), parts := Some(parts))]))
  {
    hide EnsureOpenAssistant, AppendMessagePart, SetLast, Decimal;
    before, m := OpenReply(s.transcript.messages, n);
    parts := AppendMessagePart(PartsOf(m), ThinkingPart(e.body.text));
    AppendGrows(PartsOf(m), ThinkingPart(e.body.text));
    var thought := if m.thinking.Some? then m.thinking.value else "";
    SetLastIs(before, m, m.(thinking := Some(thought + e.body.text), parts := Some(parts)));
  }

  /** A complete text counts only where no reply with text is last; there it is the reply's one text. */
  lemma CompleteShows(s: ChatState, e: Event, n: nat) returns (before: seq<Message>, m: Message)
    requires IsNext(s, e, n) && e.body.TextComplete?
    ensures WritesTo(s.transcript.messages, n, before, m)
    ensures var t, ms := s.transcript, s.transcript.messages;
            Becomes(s, Step(s, e), n,
                    if ms != [] && ms[|ms| - 1].role == Assistant && ms[|ms| - 1].text != "" then t.(lastSeq := n)
                    else t.(lastSeq := n, status := Streaming,
                            messages := before + [m.(text := e.body.text,
                                                     parts := Some(if e.body.text == "" then [] else [TextPart(e.body.text)]))]))
  {
    hide EnsureOpenAssistant, SetLast, Decimal;
    before, m := OpenReply(s.transcript.messages, n);
    SetLastIs(before, m, m.(text := e.body.text, parts := Some(if e.body.text == "" then [] else [TextPart(e.body.text)])));
  }

  // ---- tool calls -------------------------------------------------------------

  ghost predicate ShowsCall(m: Message, id: string) {
    exists k :: 0 <= k < |m.toolCalls| && m.toolCalls[k].id == id
  }

  ghost predicate IsKnown(ms: seq<Message>, id: string) {
    exists i :: 0 <= i < |ms| && ShowsCall(ms[i], id)
  }

  /** The reply's parts with one that refers to the call. */
  ghost function PartsWith(m: Message, id: string): Option<seq<Part>> {
    Some(if ToolPart(id) in PartsIn(m) then PartsIn(m) else PartsIn(m) + [ToolPart(id)])
  }

  /** The reply with the call added, and a part that refers to it. */
  ghost predicate GainsCall(m: Message, m': Message, call: ToolCall) {
    m' == m.(toolCalls := m.toolCalls + [call], parts := PartsWith(m, call.id))
  }

  /** A start shows one running card, once per reply. */
  lemma ToolStartShows(s: ChatState, e: Event, n: nat) returns (before: seq<Message>, m: Message, m': Message)
    requires IsNext(s, e, n) && e.body.ToolCallStart? && |s.connection.unsupported| <= 32
    ensures WritesTo(s.transcript.messages, n, before, m)
    ensures var b := e.body;
            if b.toolCallId == "" || b.toolName == "" then IsUnsupported(s, Step(s, e), n, "tool.call.start")
            else
              && Becomes(s, Step(s, e), n, s.transcript.(lastSeq := n, status := Streaming, messages := before + [m']))
              && if ShowsCall(m, b.toolCallId) then m' == m.(parts := PartsWith(m, b.toolCallId))
                 else GainsCall(m, m', ToolCall(b.toolCallId, b.toolName, b.input, ToolRunning, None, None, None, None, b.descriptor, false))
  {
    hide EnsureOpenAssistant, SetLast, Decimal, RememberUnsupported;
    var b := e.body;
    before, m := OpenReply(s.transcript.messages, n);
    var call := ToolCall(b.toolCallId, b.toolName, b.input, ToolRunning, None, None, None, None, b.descriptor, false);
    m' := m.(toolCalls := if HasCall(m, call.id) then m.toolCalls else m.toolCalls + [call],
             parts := Some(AppendToolPart(PartsOf(m), call.id)));
    SetLastIs(before, m, m');
    RememberIs(Advance(s, n), "tool.call.start");
  }

  /** Every row stays, with as many calls, and only calls of this id may change. */
  ghost predicate OnlyCallsChange(ms: seq<Message>, ms': seq<Message>, id: string) {
    && |ms'| == |ms|
    && forall i :: 0 <= i < |ms| ==> RowKeeps(ms[i], ms'[i], id)
  }

  ghost predicate RowKeeps(m: Message, m': Message, id: string) {
    && |m'.toolCalls| == |m.toolCalls| && m' == m.(toolCalls := m'.toolCalls)
    && forall k :: 0 <= k < |m.toolCalls| && m.toolCalls[k].id != id ==> m'.toolCalls[k] == m.toolCalls[k]
  }

  /** A call that ended: what the end says, with name, input, progress and origin kept. */
  ghost predicate IsEnded(c: ToolCall, c': ToolCall, b: Body)
    requires b.ToolCallEnd?
  {
    && c'.id == c.id && c'.name == c.name && c'.input == c.input && c'.progress == c.progress && c'.partial == c.partial
    && c'.status == (if b.isError then ToolError else ToolDone) && c'.isError == Some(b.isError)
    && c'.result == Some(b.result) && c'.durationMs == b.durationMs
    && c'.descriptor == (if b.descriptor.Some? then b.descriptor else c.descriptor)
  }

  /** An end finishes the cards of a known call and touches nothing else; an unknown call gets a finished card of its own. */
  lemma ToolEndShows(s: ChatState, e: Event, n: nat) returns (before: seq<Message>, m: Message, m': Message)
    requires IsNext(s, e, n) && e.body.ToolCallEnd? && |s.connection.unsupported| <= 32
    ensures WritesTo(s.transcript.messages, n, before, m)
    ensures var b, ms, s' := e.body, s.transcript.messages, Step(s, e);
            if b.toolCallId == "" || b.toolName == "" then IsUnsupported(s, s', n, "tool.call.end")
            else if IsKnown(ms, b.toolCallId) then
              && Becomes(s, s', n, s.transcript.(lastSeq := n, messages := s'.transcript.messages))
              && OnlyCallsChange(ms, s'.transcript.messages, b.toolCallId)
              && forall i, k :: 0 <= i < |ms| && 0 <= k < |ms[i].toolCalls| && ms[i].toolCalls[k].id == b.toolCallId ==>
                   IsEnded(ms[i].toolCalls[k], s'.transcript.messages[i].toolCalls[k], b)
            else
              && Becomes(s, s', n, s.transcript.(lastSeq := n, messages := before + [m']))
              && GainsCall(m, m', ToolCall(b.toolCallId, b.toolName, map[], if b.isError then ToolError else ToolDone, None,
                                           Some(b.result), Some(b.isError), b.durationMs, b.descriptor, true))
  {
    hide Step, Advance, Observe, UpdateOrInsertToolCall, WritesTo, RememberUnsupported, OnlyCallsChange, GainsCall;
    var b, ms, base := e.body, s.transcript.messages, Advance(s, n);
    var call := ToolCall(b.toolCallId, b.toolName, map[], if b.isError then ToolError else ToolDone, None,
                         Some(b.result), Some(b.isError), b.durationMs, b.descriptor, true);
    NextIs(s, e, n);
    ToolIs(base, n, b);
    RememberIs(base, "tool.call.end");
    before, m, m' := UpdateOrInsertIs(ms, n, call, Finish(b.isError, b.result, b.durationMs, b.descriptor));
  }

  lemma ToolIs(base: ChatState, n: nat, b: Body)
    requires IsToolBody(b)
    ensures Observe(base, n, b) == ObserveTool(base, n, b)
  {
    hide ObserveTool;
  }

  /** Either the cards of a known call change, or the reply gains one card. */
  lemma UpdateOrInsertIs(ms: seq<Message>, n: nat, call: ToolCall, u: ToolUpdate) returns (before: seq<Message>, m: Message, m': Message)
    ensures WritesTo(ms, n, before, m)
    ensures var ms' := UpdateOrInsertToolCall(ms, n, call, u);
            if IsKnown(ms, call.id) then
              && OnlyCallsChange(ms, ms', call.id)
              && forall i, k :: 0 <= i < |ms| && 0 <= k < |ms[i].toolCalls| && ms[i].toolCalls[k].id == call.id ==>
                   ms'[i].toolCalls[k] == UpdateCall(u, ms[i].toolCalls[k])
            else ms' == before + [m'] && GainsCall(m, m', call)
  {
    hide EnsureOpenAssistant, SetLast, UpdateCall, WritesTo;
    before, m := OpenReply(ms, n);
    m' := m.(toolCalls := m.toolCalls + [call], parts := Some(AppendToolPart(PartsOf(m), call.id)));
    SetLastIs(before, m, m');
    KnownIs(ms, call.id);
  }

  lemma KnownIs(ms: seq<Message>, id: string)
    ensures IsKnown(ms, id) <==> exists i :: 0 <= i < |ms| && HasCall(ms[i], id)
  {
    assert forall m :: ShowsCall(m, id) <==> HasCall(m, id);
  }

  /** Progress is noted on the cards of a known call and nowhere else; an unknown call gets a running card of its own. */
  lemma ToolProgressShows(s: ChatState, e: Event, n: nat) returns (before: seq<Message>, m: Message, m': Message)
    requires IsNext(s, e, n) && e.body.ToolCallProgress? && |s.connection.unsupported| <= 32
    ensures WritesTo(s.transcript.messages, n, before, m)
    ensures var b, ms, s' := e.body, s.transcript.messages, Step(s, e);
            if b.toolCallId == "" then IsUnsupported(s, s', n, "tool.call.progress")
            else if IsKnown(ms, b.toolCallId) then
              && Becomes(s, s', n, s.transcript.(lastSeq := n, messages := s'.transcript.messages))
              && OnlyCallsChange(ms, s'.transcript.messages, b.toolCallId)
              && forall i, k :: 0 <= i < |ms| && 0 <= k < |ms[i].toolCalls| && ms[i].toolCalls[k].id == b.toolCallId ==>
                   s'.transcript.messages[i].toolCalls[k] == ms[i].toolCalls[k].(progress := Some(b.progress))
            else
              && Becomes(s, s', n, s.transcript.(lastSeq := n, messages := before + [m']))
              && GainsCall(m, m', ToolCall(b.toolCallId, if b.toolName == "" then "unknown" else b.toolName, map[], ToolRunning,
                                           Some(b.progress), None, None, None, None, true))
  {
    hide Step, Advance, Observe, UpdateOrInsertToolCall, WritesTo, RememberUnsupported, OnlyCallsChange, GainsCall;
    var b, ms, base := e.body, s.transcript.messages, Advance(s, n);
    var call := ToolCall(b.toolCallId, if b.toolName == "" then "unknown" else b.toolName, map[], ToolRunning, Some(b.progress),
                         None, None, None, None, true);
    NextIs(s, e, n);
    ToolIs(base, n, b);
    RememberIs(base, "tool.call.progress");
    before, m, m' := UpdateOrInsertIs(ms, n, call, SetProgress(b.progress));
  }

  /** A call that starts and then ends is one finished card at the end of the reply, with the literal fields of both events. */
  lemma FinishedCallIsOneCard(s: ChatState, e1: Event, e2: Event, n: nat) returns (before: seq<Message>, m: Message, m': Message)
    requires IsNext(s, e1, n) && e2.seqNo == Some(n + 1) && n + 1 <= MAX_SAFE_INTEGER && |s.connection.unsupported| <= 32
    requires e1.body.ToolCallStart? && e2.body.ToolCallEnd? && e2.body.toolCallId == e1.body.toolCallId != ""
    requires e1.body.toolName != "" && e2.body.toolName != "" && !IsKnown(s.transcript.messages, e1.body.toolCallId)
    ensures WritesTo(s.transcript.messages, n, before, m)
    ensures var b1, b2 := e1.body, e2.body;
            && Step(Step(s, e1), e2).transcript
               == s.transcript.(lastSeq := n + 1, status := Streaming, messages := before + [m'])
            && GainsCall(m, m', ToolCall(b1.toolCallId, b1.toolName, b1.input, if b2.isError then ToolError else ToolDone, None,
                                         Some(b2.result), Some(b2.isError), b2.durationMs,
                                         if b2.descriptor.Some? then b2.descriptor else b1.descriptor, false))
  {
    hide Step, WritesTo, PartsWith;
    var id := e1.body.toolCallId;
    var m1;
    before, m, m1 := ToolStartShows(s, e1, n);
    UnknownInReply(s.transcript.messages, n, before, m, id);
    var s1 := Step(s, e1);
    var k := |m.toolCalls|;
    assert s1.transcript.messages[|before|] == m1 && m1.toolCalls[k].id == id;
    assert ShowsCall(m1, id) && IsKnown(s1.transcript.messages, id);
    var b2, m2, m3 := ToolEndShows(s1, e2, n + 1);
    var ms2 := Step(s1, e2).transcript.messages;
    m' := ms2[|before|];
    forall i | 0 <= i < |before| ensures ms2[i] == before[i] {
      assert RowKeeps(s1.transcript.messages[i], ms2[i], id);
      SameRow(before[i], ms2[i], id);
    }
    assert ms2 == before + [m'];
    assert RowKeeps(m1, m', id);
    assert IsEnded(m1.toolCalls[k], m'.toolCalls[k], e2.body);
    assert m'.toolCalls == m.toolCalls + [m'.toolCalls[k]];
  }

  /** A reply of rows that do not show a call does not show it either. */
  lemma UnknownInReply(ms: seq<Message>, n: nat, before: seq<Message>, m: Message, id: string)
    requires WritesTo(ms, n, before, m) && !IsKnown(ms, id)
    ensures !ShowsCall(m, id) && forall i :: 0 <= i < |before| ==> !ShowsCall(before[i], id)
  {
    hide ShowsCall;
    if before + [m] == ms {
      assert ms[|before|] == m;
      assert forall i :: 0 <= i < |before| ==> ms[i] == before[i];
    } else {
      NoCallsShown(m, id);
    }
  }

  lemma NoCallsShown(m: Message, id: string)
    ensures m.toolCalls == [] ==> !ShowsCall(m, id)
  {
  }

  lemma SameRow(m: Message, m': Message, id: string)
    requires RowKeeps(m, m', id) && !ShowsCall(m, id)
    ensures m' == m
  {
    assert m'.toolCalls == m.toolCalls;
  }

  // ---- the end of a turn ------------------------------------------------------

  /** The rows with an open reply at the end closed, and nothing else changed. */
  ghost predicate IsClosed(ms: seq<Message>, ms': seq<Message>) {
    if ms != [] && ms[|ms| - 1].role == Assistant && ms[|ms| - 1].streaming then
      |ms'| == |ms| && ms'[..|ms| - 1] == ms[..|ms| - 1] && ms'[|ms| - 1] == ms[|ms| - 1].(streaming := false)
    else ms' == ms
  }

  lemma CloseIs(ms: seq<Message>)
    ensures IsClosed(ms, CloseOpenAssistant(ms))
  {
  }

  /** The model a turn reports, if it reports one. */
  ghost function ReportedModel(name: string, before: Option<string>): Option<string> {
    if name == "" then before else Some(name)
  }

  /** The status while requests wait for the person: approvals first, then inputs. */
  ghost function StatusWith(approvals: seq<PendingApproval>, inputs: seq<PendingSensitive>, otherwise: ChatStatus): ChatStatus {
    if approvals != [] then AwaitingApproval else if inputs != [] then AwaitingSensitiveInput else otherwise
  }

  /** A stop reason that the client does not know asks for a restore and is remembered. */
  ghost predicate AsksForResync(s: ChatState, s': ChatState, n: nat, typ: string) {
    && s'.transcript == s.transcript.(lastSeq := n) && Remembers(s.connection.unsupported, s'.connection.unsupported, typ)
    && s'.connection.phase == ResyncRequired && s'.connection.lastDeliveredSeq == n && s'.connection.expectedNextSeq == Some(n + 1)
  }

  /** Which stop reasons end a turn, which let it go on, and what the others do. */
  lemma TurnEndShows(s: ChatState, e: Event, n: nat)
    requires IsNext(s, e, n) && e.body.TurnEnd? && |s.connection.unsupported| <= 32
    ensures var t, s', reason := s.transcript, Step(s, e), e.body.stopReason;
            if reason in {"tool_use", "pause_turn"} then
              Becomes(s, s', n, t.(lastSeq := n, model := ReportedModel(e.body.usageModel, t.model)))
            else if reason in {"end_turn", "max_tokens", "stop_sequence"} then
              && Becomes(s, s', n, t.(lastSeq := n, model := ReportedModel(e.body.usageModel, t.model),
                                      messages := s'.transcript.messages,
                                      status := StatusWith(t.pendingApprovals, t.pendingSensitives, Idle)))
              && IsClosed(t.messages, s'.transcript.messages)
            else AsksForResync(s, s', n, if reason == "" then "turn.end:missing-stop-reason" else "turn.end:" + reason)
  {
    hide Step, Advance, CloseOpenAssistant, RememberUnsupported;
    NextIs(s, e, n);
    CloseIs(s.transcript.messages);
    RememberIs(Advance(s, n), "turn.end:missing-stop-reason");
    RememberIs(Advance(s, n), "turn.end:" + e.body.stopReason);
  }

  /** A failed run: the reply closed, nothing pending, and the message shown. */
  ghost predicate IsFailed(s: ChatState, s': ChatState, n: nat, message: string) {
    && Becomes(s, s', n, s.transcript.(lastSeq := n, messages := s'.transcript.messages, status := Failed, error := Some(message),
                                       pendingApproval := None, pendingApprovals := [],
                                       pendingSensitive := None, pendingSensitives := []))
    && IsClosed(s.transcript.messages, s'.transcript.messages)
  }

  lemma FailureShows(s: ChatState, e: Event, n: nat)
    requires IsNext(s, e, n) && (e.body.ErrorEvent? || e.body.TurnInterrupted?)
    ensures var message := if e.body.ErrorEvent? then (if e.body.message == "" then "agent error" else e.body.message)
                           else "Run " + (if e.body.reason == "" then "interrupted" else e.body.reason)
                                + ". Start another turn or refresh the run state.";
            IsFailed(s, Step(s, e), n, message)
  {
    hide Step, Advance, TerminalError;
    NextIs(s, e, n);
    TerminalErrorIs(Advance(s, n), if e.body.ErrorEvent? then OrElse(e.body.message, "agent error") else InterruptedMessage(e.body.reason));
  }

  lemma TerminalErrorIs(base: ChatState, message: string)
    ensures var t, t' := base.transcript, TerminalError(base, message).transcript;
            && TerminalError(base, message).connection == base.connection && IsClosed(t.messages, t'.messages)
            && t' == t.(messages := t'.messages, status := Failed, error := Some(message), pendingApproval := None,
                        pendingApprovals := [], pendingSensitive := None, pendingSensitives := [])
  {
    CloseIs(base.transcript.messages);
  }

  /** A session names its model; an event of another kind is only remembered. */
  lemma SessionAndOthersShow(s: ChatState, e: Event, n: nat)
    requires IsNext(s, e, n) && (e.body.SessionStart? || e.body.OtherEvent?) && |s.connection.unsupported| <= 32
    ensures e.body.SessionStart? ==>
              Becomes(s, Step(s, e), n, s.transcript.(lastSeq := n, model := ReportedModel(e.body.model, s.transcript.model)))
    ensures e.body.OtherEvent? ==> IsUnsupported(s, Step(s, e), n, e.body.typ)
  {
    hide RememberUnsupported;
    if e.body.OtherEvent? { RememberIs(Advance(s, n), e.body.typ); }
  }

  // ---- requests ---------------------------------------------------------------

  /** The item takes the place of the first with its key, or joins the end. */
  ghost predicate TakesItsPlace<T(!new)>(items: seq<T>, after: seq<T>, item: T, key: T -> string) {
    || (after == items + [item] && forall i :: 0 <= i < |items| ==> key(items[i]) != key(item))
    || exists k :: IsFirstWith(items, k, key(item), key) && after == items[k := item]
  }

  ghost predicate IsFirstWith<T(!new)>(items: seq<T>, k: int, id: string, key: T -> string) {
    0 <= k < |items| && key(items[k]) == id && forall i :: 0 <= i < k ==> key(items[i]) != id
  }

  lemma {:induction false} UpsertIs<T(!new)>(items: seq<T>, item: T, key: T -> string)
    ensures TakesItsPlace(items, UpsertById(items, item, key), item, key)
  {
    if items == [] {
      assert UpsertById(items, item, key) == items + [item];
    } else if key(items[0]) == key(item) {
      assert IsFirstWith(items, 0, key(item), key) && [item] + items[1..] == items[0 := item];
    } else {
      var rest := items[1..];
      var after := UpsertById(rest, item, key);
      UpsertIs(rest, item, key);
      if k :| IsFirstWith(rest, k, key(item), key) && after == rest[k := item] {
        assert forall i :: 0 < i < k + 1 ==> items[i] == rest[i - 1];
        assert IsFirstWith(items, k + 1, key(item), key) && [items[0]] + after == items[k + 1 := item];
      } else {
        assert forall i :: 0 < i < |items| ==> items[i] == rest[i - 1];
        assert [items[0]] + (rest + [item]) == items + [item];
      }
    }
  }

  /** The items of other keys, in order. */
  ghost function Others<T>(items: seq<T>, id: string, key: T -> string): seq<T> {
    if items == [] then []
    else
      var front, last := Others(items[..|items| - 1], id, key), items[|items| - 1];
      if key(last) != id then front + [last] else front
  }

  lemma {:induction false} WithoutIs<T>(items: seq<T>, id: string, key: T -> string)
    ensures WithoutId(items, id, key) == Others(items, id, key)
  {
    if items != [] {
      var n := |items| - 1;
      WithoutIs(items[..n], id, key);
      WithoutSnoc(items[..n], items[n], id, key);
      assert items[..n] + [items[n]] == items;
    }
  }

  lemma {:induction false} WithoutSnoc<T>(items: seq<T>, last: T, id: string, key: T -> string)
    ensures WithoutId(items + [last], id, key) == WithoutId(items, id, key) + if key(last) == id then [] else [last]
  {
    if items == [] {
      assert [last][1..] == [];
    } else {
      var head, end := if key(items[0]) == id then [] else [items[0]], if key(last) == id then [] else [last];
      WithoutSnoc(items[1..], last, id, key);
      assert (items + [last])[1..] == items[1..] + [last] && (items + [last])[0] == items[0];
      assert head + (WithoutId(items[1..], id, key) + end) == head + WithoutId(items[1..], id, key) + end;
    }
  }

  ghost function FirstOf<T>(items: seq<T>): Option<T> {
    if |items| > 0 then Some(items[0]) else None
  }

  /** A hash of 64 lower-case hexadecimal digits. */
  ghost predicate IsHash(v: string) {
    |v| == 64 && forall c :: c in v ==> c in "0123456789abcdef"
  }

  lemma HashIs(v: string)
    ensures IsOperationHash(v) <==> IsHash(v)
  {
    forall c: char ensures IsLowerHex(c) <==> c in "0123456789abcdef" { HexIs(c); }
  }

  lemma HexIs(c: char)
    ensures IsLowerHex(c) <==> c in "0123456789abcdef"
  {
    var n := c as int;
    if 48 <= n <= 57 { assert c == "0123456789abcdef"[n - 48]; }
    if 97 <= n <= 102 { assert c == "0123456789abcdef"[n - 87]; }
  }

  /** A request for approval waits with what it says, defaults for what it leaves out, and its hash if it has one. */
  lemma ApprovalRequestShows(s: ChatState, e: Event, n: nat)
    requires IsNext(s, e, n) && e.body.PermissionRequest?
    ensures var b, t, s' := e.body, s.transcript, Step(s, e);
            var waiting := s'.transcript.pendingApprovals;
            if b.requestId == "" then Becomes(s, s', n, t.(lastSeq := n))
            else
              && Becomes(s, s', n, t.(lastSeq := n, status := AwaitingApproval, pendingApprovals := waiting, pendingApproval := FirstOf(waiting)))
              && TakesItsPlace(t.pendingApprovals, waiting,
                               PendingApproval(b.requestId, if b.toolName == "" then "unknown" else b.toolName,
                                               if b.reason == "" then "Review the exact tool request." else b.reason,
                                               if IsHash(b.operationHash) then Some(b.operationHash) else None, b.intentRevisionOne),
                               (a: PendingApproval) => a.requestId)
  {
    hide Step, Advance, Observe, IsOperationHash, UpsertById, TakesItsPlace, IsHash;
    var b := e.body;
    NextIs(s, e, n);
    PendingIs(Advance(s, n), n, b);
    HashIs(b.operationHash);
    var item := PendingApproval(b.requestId, if b.toolName == "" then "unknown" else b.toolName,
                                if b.reason == "" then "Review the exact tool request." else b.reason,
                                if IsHash(b.operationHash) then Some(b.operationHash) else None, b.intentRevisionOne);
    UpsertIs(s.transcript.pendingApprovals, item, ApprovalKey);
    SamePlace(s.transcript.pendingApprovals, UpsertById(s.transcript.pendingApprovals, item, ApprovalKey), item,
              ApprovalKey, (a: PendingApproval) => a.requestId);
  }

  lemma PendingIs(base: ChatState, n: nat, b: Body)
    requires IsRequestBody(b)
    ensures Observe(base, n, b) == ObservePending(base, b)
  {
    hide ObservePending;
  }

  lemma SamePlace<T(!new)>(items: seq<T>, after: seq<T>, item: T, key: T -> string, key': T -> string)
    requires TakesItsPlace(items, after, item, key) && forall x :: key(x) == key'(x)
    ensures TakesItsPlace(items, after, item, key')
  {
    if k :| IsFirstWith(items, k, key(item), key) && after == items[k := item] {
      assert IsFirstWith(items, k, key'(item), key');
    }
  }

  /** An answer takes its request away; the status says what still waits. */
  lemma ApprovalResponseShows(s: ChatState, e: Event, n: nat)
    requires IsNext(s, e, n) && e.body.PermissionResponse? && |s.connection.unsupported| <= 32
    ensures var t, s' := s.transcript, Step(s, e);
            var rest := Others(t.pendingApprovals, e.body.requestId, ApprovalKey);
            if e.body.requestId == "" then IsUnsupported(s, s', n, "permission.response")
            else Becomes(s, s', n, t.(lastSeq := n, pendingApprovals := rest, pendingApproval := FirstOf(rest),
                                      status := StatusWith(rest, t.pendingSensitives, Streaming)))
  {
    hide WithoutId, RememberUnsupported;
    WithoutIs(s.transcript.pendingApprovals, e.body.requestId, ApprovalKey);
    RememberIs(Advance(s, n), "permission.response");
  }

  /** A request for input waits with its fields when none is missing; approvals keep precedence. */
  lemma InputRequestShows(s: ChatState, e: Event, n: nat)
    requires IsNext(s, e, n) && e.body.SensitiveRequest? && |s.connection.unsupported| <= 32
    ensures var b, t, s' := e.body, s.transcript, Step(s, e);
            var waiting := s'.transcript.pendingSensitives;
            if "" in [b.requestId, b.toolCallId, b.toolName, b.title, b.usage, b.adapterRevision] || b.agentId == Absent then
              IsUnsupported(s, s', n, "sensitive.input.request")
            else
              && Becomes(s, s', n, t.(lastSeq := n, pendingSensitives := waiting, pendingSensitive := FirstOf(waiting),
                                      status := if t.pendingApprovals != [] then AwaitingApproval else AwaitingSensitiveInput))
              && TakesItsPlace(t.pendingSensitives, waiting,
                               PendingSensitive(b.requestId, b.toolCallId, b.toolName, b.title, b.usage,
                                                if b.agentId == Null then None else Some(b.agentId.s), b.adapterRevision), SensitiveKey)
  {
    hide UpsertById, TakesItsPlace, RememberUnsupported;
    var b := e.body;
    RememberIs(Advance(s, n), "sensitive.input.request");
    if !b.agentId.Absent? {
      UpsertIs(s.transcript.pendingSensitives,
               PendingSensitive(b.requestId, b.toolCallId, b.toolName, b.title, b.usage,
                                if b.agentId == Null then None else Some(b.agentId.s), b.adapterRevision), SensitiveKey);
    }
  }

  /** Groups of 8, 4, 4, 4 and 12 hexadecimal digits, of versions 1 to 5 and variant 8, 9, a or b. */
  ghost predicate IsUuidText(v: string, a: string, b: string, c: string, d: string, e: string) {
    && v == a + "-" + b + "-" + c + "-" + d + "-" + e
    && |a| == 8 && |b| == |c| == |d| == 4 && |e| == 12
    && (forall x :: x in a + b + c + d + e ==> x in "0123456789abcdef")
    && c[0] in "12345" && d[0] in "89ab"
  }

  lemma UuidIs(v: string)
    ensures IsUuid(v) <==> exists a, b, c, d, e :: IsUuidText(v, a, b, c, d, e)
  {
    hide IsUuid, IsUuidText;
    if IsUuid(v) {
      UuidHasGroups(v);
    }
    if a, b, c, d, e :| IsUuidText(v, a, b, c, d, e) { GroupsMakeUuid(v, a, b, c, d, e); }
  }

  lemma UuidHasGroups(v: string)
    requires IsUuid(v)
    ensures IsUuidText(v, v[..8], v[9..13], v[14..18], v[19..23], v[24..])
  {
    var a, b, c, d, e := v[..8], v[9..13], v[14..18], v[19..23], v[24..];
    assert v == a + "-" + b + "-" + c + "-" + d + "-" + e;
    forall x | x in a + b + c + d + e ensures x in "0123456789abcdef" { HexIs(x); }
    assert c[0] == v[14] && d[0] == v[19];
    DigitIs(c[0]);
  }

  lemma GroupsMakeUuid(v: string, a: string, b: string, c: string, d: string, e: string)
    requires IsUuidText(v, a, b, c, d, e)
    ensures IsUuid(v)
  {
    assert v[..8] == a && v[9..13] == b && v[14..18] == c && v[19..23] == d && v[24..] == e;
    forall i | 0 <= i < 36 && i !in {8, 13, 18, 23} ensures IsLowerHex(v[i]) {
      HexIs(v[i]);
      assert v[i] in a + b + c + d + e;
    }
    assert v[14] == c[0] && v[19] == d[0];
    DigitIs(v[14]);
  }

  lemma DigitIs(c: char)
    ensures '1' <= c <= '5' <==> c in "12345"
  {
    var n := c as int;
    if 49 <= n <= 53 { assert c == "12345"[n - 49]; }
  }

  /** A bounded text without control characters. */
  ghost predicate IsIdentity(v: string) {
    1 <= |v| <= 240 && forall c :: c in v ==> c >= ' ' && c != '\U{7F}'
  }

  ghost predicate IsDigestText(v: string) {
    exists h :: v == "hmac-sha256:" + h && IsHash(h)
  }

  lemma ValidatorsAre(v: string)
    ensures IsBoundedIdentity(v) <==> IsIdentity(v)
    ensures IsKeyedDigest(v) <==> IsDigestText(v)
  {
    assert forall i :: 0 <= i < |v| ==> v[i] in v;
    forall c | c in v && IsBoundedIdentity(v) ensures c >= ' ' && c != '\U{7F}' {
      var i :| 0 <= i < |v| && v[i] == c;
    }
    var prefix := "hmac-sha256:";
    if IsKeyedDigest(v) {
      var h := v[|prefix|..];
      assert v == prefix + h;
      forall i | 0 <= i < |h| ensures IsLowerHex(h[i]) { assert h[i] == v[|prefix| + i]; }
      HashIs(h);
    }
    if h :| v == prefix + h && IsHash(h) {
      HashIs(h);
      forall i | |prefix| <= i < |v| ensures IsLowerHex(v[i]) { assert v[i] == h[i - |prefix|]; }
    }
  }

  /** The fields of an activation receipt that the client accepts. */
  ghost predicate IsReceipt(b: Body)
    requires b.SkillActivated?
  {
    && (exists p, q, r, x, y :: IsUuidText(b.activationId, p, q, r, x, y))
    && IsIdentity(b.activationId) && IsIdentity(b.skillName) && IsDigestText(b.skillDigest)
    && IsIdentity(b.sourceRef) && IsDigestText(b.sourceDigest)
    && (b.agentId == Null || (b.agentId.Text? && IsIdentity(b.agentId.s)))
    && (b.callId == Null || (b.callId.Text? && IsIdentity(b.callId.s)))
    && IsWhole(b.turnIndex) && IsWhole(b.timestamp)
  }

  /** An accepted receipt is shown with its fields; any other is only remembered as unsupported. */
  lemma ActivationShows(s: ChatState, e: Event, n: nat)
    requires IsNext(s, e, n) && e.body.SkillActivated? && |s.connection.unsupported| <= 32
    ensures var b, t, s' := e.body, s.transcript, Step(s, e);
            if !IsReceipt(b) then IsUnsupported(s, s', n, "skill.activation")
            else
              && Becomes(s, s', n, t.(lastSeq := n, skillActivations := s'.transcript.skillActivations))
              && TakesItsPlace(t.skillActivations, s'.transcript.skillActivations,
                               SkillActivation(b.activationId, b.skillName, b.skillDigest, b.sourceRef, b.sourceDigest,
                                               if b.agentId == Null then None else Some(b.agentId.s),
                                               if b.callId == Null then None else Some(b.callId.s),
                                               b.turnIndex.value, b.timestamp.value), ActivationKey)
  {
    hide Step, Advance, UpsertById, TakesItsPlace, RememberUnsupported, IsUuid, IsUuidText, IsBoundedIdentity, IsIdentity;
    hide IsKeyedDigest, IsDigestText;
    var b := e.body;
    NextIs(s, e, n);
    RememberIs(Advance(s, n), "skill.activation");
    UuidIs(b.activationId);
    ValidatorsAre(b.activationId);
    ValidatorsAre(b.skillName);
    ValidatorsAre(b.skillDigest);
    ValidatorsAre(b.sourceRef);
    ValidatorsAre(b.sourceDigest);
    if b.agentId.Text? { ValidatorsAre(b.agentId.s); }
    if b.callId.Text? { ValidatorsAre(b.callId.s); }
    if IsActivation(b) {
      UpsertIs(s.transcript.skillActivations,
               SkillActivation(b.activationId, b.skillName, b.skillDigest, b.sourceRef, b.sourceDigest, Nullable(b.agentId),
                               Nullable(b.callId), b.turnIndex.value, b.timestamp.value), ActivationKey);
    }
  }

  lemma InputResponseShows(s: ChatState, e: Event, n: nat)
    requires IsNext(s, e, n) && e.body.SensitiveResponse? && |s.connection.unsupported| <= 32
    ensures var t, s' := s.transcript, Step(s, e);
            var rest := Others(t.pendingSensitives, e.body.requestId, SensitiveKey);
            if e.body.requestId == "" then IsUnsupported(s, s', n, "sensitive.input.response")
            else Becomes(s, s', n, t.(lastSeq := n, pendingSensitives := rest, pendingSensitive := FirstOf(rest),
                                      status := StatusWith(t.pendingApprovals, rest, Streaming)))
  {
    hide WithoutId, RememberUnsupported;
    WithoutIs(s.transcript.pendingSensitives, e.body.requestId, SensitiveKey);
    RememberIs(Advance(s, n), "sensitive.input.response");
  }

  // ---- control frames ---------------------------------------------------------

  /** The connection asks for a restore, at the number after the cursor. */
  ghost predicate NeedsResync(s: ChatState, s': ChatState) {
    && s'.transcript == s.transcript
    && s'.connection == s.connection.(phase := ResyncRequired, expectedNextSeq := Some(s.transcript.lastSeq + 1),
                                      unsupported := s'.connection.unsupported)
  }

  ghost predicate IsWhole(n: Option<int>) {
    n.Some? && 0 <= n.value <= 9007199254740991
  }

  /** A start frame with a usable range starts a replay at the client's cursor or seeds one at 0; a mismatch asks for a restore. */
  lemma StartShows(s: ChatState, e: Event)
    requires e.body.StreamStart? && |s.connection.unsupported| <= 32
    ensures var b, s', c := e.body, Step(s, e), s.transcript.lastSeq;
            if !IsWhole(b.since) || !IsWhole(b.maxSeqAtStart) || b.maxSeqAtStart.value < b.since.value then
              && s' == s.(connection := s.connection.(unsupported := s'.connection.unsupported))
              && Remembers(s.connection.unsupported, s'.connection.unsupported, "stream.start")
            else if c == 0 || c == b.since.value then
              s' == ChatState(s.transcript.(lastSeq := b.since.value),
                              Connection(Replaying, b.since.value, Some(b.since.value + 1), s.connection.unsupported))
            else NeedsResync(s, s') && Remembers(s.connection.unsupported, s'.connection.unsupported, "stream.start:cursor-mismatch")
  {
    hide RememberUnsupported;
    RememberIs(s, "stream.start");
    RememberIs(s, "stream.start:cursor-mismatch");
  }

  /** The end of a replay is believed iff it is well formed and ends at the client's cursor. */
  lemma ReplayCompleteShows(s: ChatState, e: Event)
    requires e.body.ReplayComplete? && |s.connection.unsupported| <= 32
    ensures var b, s', c := e.body, Step(s, e), s.transcript.lastSeq;
            if && IsWhole(b.since) && b.replayedThrough == Some(c) && IsWhole(b.replayedThrough) && c >= b.since.value
               && IsWhole(b.maxSeqAtStart) && b.maxSeqAtStart.value >= b.since.value && b.liveTail.Some?
            then s' == s.(connection := Connection(if b.liveTail.value then Live else Closed, c,
                                                   if b.liveTail.value then Some(c + 1) else None, s.connection.unsupported))
            else NeedsResync(s, s') && Remembers(s.connection.unsupported, s'.connection.unsupported, "stream.replay.complete")
  {
    hide RememberUnsupported;
    RememberIs(s, "stream.replay.complete");
  }

  /** A shutdown for the gateway's sake means reconnecting, one for a slow client a restore; `done` closes. */
  lemma ShutdownShows(s: ChatState, e: Event)
    requires (e.body.StreamShutdown? || e.body.Done?) && |s.connection.unsupported| <= 32
    ensures var s', c := Step(s, e), s.connection;
            && (e.body == StreamShutdown("gateway_shutdown") ==> s' == s.(connection := c.(phase := Reconnecting)))
            && (e.body == StreamShutdown("slow_consumer") ==> NeedsResync(s, s') && s'.connection.unsupported == c.unsupported)
            && (e.body.StreamShutdown? && e.body.reason !in {"gateway_shutdown", "slow_consumer"} ==>
                  && s' == s.(connection := c.(unsupported := s'.connection.unsupported))
                  && Remembers(c.unsupported, s'.connection.unsupported, "stream.shutdown"))
            && (e.body.Done? ==> s' == s.(connection := c.(phase := Closed, expectedNextSeq := None)))
  {
    hide RememberUnsupported;
    RememberIs(s, "stream.shutdown");
  }

  // ---- out of order -----------------------------------------------------------

  /** An observation without a usable number, or with one that was taken before, changes nothing; one past a gap asks for a restore. */
  lemma OutOfOrderShows(s: ChatState, e: Event)
    requires !IsControl(e) && s.transcript.lastSeq >= 0
    ensures !IsWhole(e.seqNo) || 0 < e.seqNo.value <= s.transcript.lastSeq ==> Step(s, e) == s
    ensures IsWhole(e.seqNo) && e.seqNo.value > s.transcript.lastSeq + 1 && s.connection.lastDeliveredSeq > 0 ==>
              NeedsResync(s, Step(s, e)) && Step(s, e).connection.unsupported == s.connection.unsupported
  {
    hide Observe;
  }

  // ---- cards over whole runs --------------------------------------------------

  /** A card runs exactly until its call's end is told, and then shows whether that was an error. */
  ghost predicate CardIsTold(c: ToolCall) {
    match c.isError
    case None => c.status == ToolRunning && c.result.None? && c.durationMs.None?
    case Some(failed) => c.status == (if failed then ToolError else ToolDone) && c.result.Some?
  }

  ghost predicate CardsAreTold(ms: seq<Message>) {
    forall i, k :: 0 <= i < |ms| && 0 <= k < |ms[i].toolCalls| ==> CardIsTold(ms[i].toolCalls[k])
  }

  lemma ReplyCardsAreTold(ms: seq<Message>, n: nat, m': Message)
    requires CardsAreTold(ms)
    requires var open := EnsureOpenAssistant(ms, n); forall c :: c in m'.toolCalls ==> c in open[|open| - 1].toolCalls || CardIsTold(c)
    ensures CardsAreTold(SetLast(EnsureOpenAssistant(ms, n), m'))
  {
    hide CardIsTold, Decimal;
    var open := EnsureOpenAssistant(ms, n);
    var r := SetLast(open, m');
    forall i, k | 0 <= i < |r| && 0 <= k < |r[i].toolCalls| ensures CardIsTold(r[i].toolCalls[k]) {
      if i == |r| - 1 {
        assert r[i].toolCalls[k] in m'.toolCalls;
      } else {
        assert r[i] == ms[i];
      }
    }
  }

  lemma UpdateTells(ms: seq<Message>, id: string, u: ToolUpdate)
    requires CardsAreTold(ms)
    ensures CardsAreTold(UpdateToolCall(ms, id, u))
  {
  }

  lemma RowsAfterTold(ms: seq<Message>, n: nat, body: Body)
    requires CardsAreTold(ms)
    ensures CardsAreTold(RowsAfter(ms, n, body))
  {
    hide CardsAreTold, DeltaRows, CompleteRows, ThinkingRows, ToolStartRows, UpdateOrInsertToolCall, CloseOpenAssistant;
    hide ReconcileOptimisticUser, Decimal, CardIsTold;
    match body
    case UserMessage(text, content, prompt) => PromptTold(ms, UserRow("u" + Decimal(n), OrElse(text, OrElse(content, prompt))));
    case TextDelta(text) => TextTold(ms, n, text);
    case TextComplete(text) => TextTold(ms, n, text);
    case ThinkingDelta(text) => TextTold(ms, n, text);
    case ToolCallStart(id, name, input, descriptor) =>
      NewCardsAreTold(id, name, input, descriptor, "", false, "", None);
      CallTold(ms, n, ToolCall(id, name, input, ToolRunning, None, None, None, None, descriptor, false), SetProgress(""));
    case ToolCallProgress(id, name, progress) =>
      NewCardsAreTold(id, OrElse(name, "unknown"), map[], None, progress, false, "", None);
      CallTold(ms, n, ToolCall(id, OrElse(name, "unknown"), map[], ToolRunning, Some(progress), None, None, None, None, true),
               SetProgress(progress));
    case ToolCallEnd(id, name, isError, result, durationMs, descriptor) =>
      NewCardsAreTold(id, name, map[], descriptor, "", isError, result, durationMs);
      CallTold(ms, n, ToolCall(id, name, map[], if isError then ToolError else ToolDone, None, Some(result), Some(isError),
                               durationMs, descriptor, true), Finish(isError, result, durationMs, descriptor));
    case _ => ClosedTold(ms);
  }

  lemma TextTold(ms: seq<Message>, n: nat, text: string)
    requires CardsAreTold(ms)
    ensures CardsAreTold(DeltaRows(ms, n, text)) && CardsAreTold(CompleteRows(ms, n, text)) && CardsAreTold(ThinkingRows(ms, n, text))
  {
    hide CardsAreTold, AppendMessagePart, SetLast, Decimal, CardIsTold;
    var open := EnsureOpenAssistant(ms, n);
    var m := open[|open| - 1];
    var before := if m.thinking.Some? then m.thinking.value else "";
    ReplyCardsAreTold(ms, n, m.(text := m.text + text, parts := Some(AppendMessagePart(PartsOf(m), TextPart(text)))));
    ReplyCardsAreTold(ms, n, m.(text := text, parts := Some(if text == "" then [] else [TextPart(text)])));
    ReplyCardsAreTold(ms, n, m.(thinking := Some(before + text), parts := Some(AppendMessagePart(PartsOf(m), ThinkingPart(text)))));
  }

  lemma CallTold(ms: seq<Message>, n: nat, call: ToolCall, u: ToolUpdate)
    requires CardsAreTold(ms) && CardIsTold(call)
    ensures CardsAreTold(ToolStartRows(ms, n, call)) && CardsAreTold(UpdateOrInsertToolCall(ms, n, call, u))
  {
    hide CardsAreTold, UpdateToolCall, AppendToolPart, SetLast, Decimal, CardIsTold, HasCall;
    var open := EnsureOpenAssistant(ms, n);
    var m := open[|open| - 1];
    UpdateTells(ms, call.id, u);
    ReplyCardsAreTold(ms, n, m.(toolCalls := if HasCall(m, call.id) then m.toolCalls else m.toolCalls + [call],
                                parts := Some(AppendToolPart(PartsOf(m), call.id))));
    ReplyCardsAreTold(ms, n, m.(toolCalls := m.toolCalls + [call], parts := Some(AppendToolPart(PartsOf(m), call.id))));
  }

  lemma NewCardsAreTold(id: string, name: string, input: Json, descriptor: Option<Descriptor>, progress: string,
                        isError: bool, result: string, durationMs: Option<real>)
    ensures CardIsTold(ToolCall(id, name, input, ToolRunning, None, None, None, None, descriptor, false))
    ensures CardIsTold(ToolCall(id, name, input, ToolRunning, Some(progress), None, None, None, None, true))
    ensures CardIsTold(ToolCall(id, name, input, if isError then ToolError else ToolDone, None, Some(result), Some(isError),
                                durationMs, descriptor, true))
  {
  }

  lemma PromptTold(ms: seq<Message>, row: Message)
    requires CardsAreTold(ms) && row.toolCalls == []
    ensures CardsAreTold(ReconcileOptimisticUser(ms, row)) && CardsAreTold(ms + [row])
  {
    hide CardIsTold;
  }

  lemma ClosedTold(ms: seq<Message>)
    requires CardsAreTold(ms)
    ensures CardsAreTold(CloseOpenAssistant(ms))
  {
    hide CardIsTold;
  }

  /** In every state reached by events and prompts each card tells its call's end as it came. */
  lemma {:induction false} ReachableCardsAreTold(actions: seq<Action>)
    ensures CardsAreTold(Reach(INITIAL_STATE, actions).transcript.messages)
  {
    hide CardIsTold, Observe, RowsAfter, ReduceControl;
    if actions != [] {
      var s := Reach(INITIAL_STATE, actions[..|actions| - 1]);
      ReachableCardsAreTold(actions[..|actions| - 1]);
      match actions[|actions| - 1]
      case Receive(e) =>
        if IsControl(e) {
          ControlKeepsRows(s, e);
        } else if IsSafeNat(e.seqNo) {
          var n := e.seqNo.value;
          ObserveRows(Advance(s, n), n, e.body);
          RowsAfterTold(s.transcript.messages, n, e.body);
        }
      case Prompt(text, id) =>
        PromptTold(s.transcript.messages, UserRow(if id.Some? then id.value else LOCAL_USER_PREFIX + Decimal(|s.transcript.messages|), text));
    }
  }
}

/** The chat state and the gateway events folded into it (packages/ui/src/types.ts). */
module ChatModel {
  import opened Common

  type Json = map<string, string>
  type Descriptor = string

  /** A field that may be absent, null, or a string. */
  datatype Field = Absent | Null | Text(s: string)

  datatype ChatStatus = Idle | Streaming | AwaitingApproval | AwaitingSensitiveInput | Failed

  datatype ToolStatus = ToolRunning | ToolDone | ToolError

  datatype ToolCall = ToolCall(
    id: string,
    name: string,
    input: Json,
    status: ToolStatus,
    progress: Option<string>,
    result: Option<string>,
    isError: Option<bool>,
    durationMs: Option<real>,
    descriptor: Option<Descriptor>,
    partial: bool)

  datatype Part =
    | TextPart(text: string)
    | ThinkingPart(text: string)
    | ToolPart(toolCallId: string)
    | SubagentPart(agentId: string)
    | PermissionPart(requestId: string)
    | CredentialPart(requestId: string)

  datatype Role = User | Assistant

  datatype Message = Message(
    id: string,
    role: Role,
    text: string,
    thinking: Option<string>,
    toolCalls: seq<ToolCall>,
    parts: Option<seq<Part>>,
    streaming: bool)

  datatype PendingApproval = PendingApproval(
    requestId: string,
    toolName: string,
    reason: string,
    operationHash: Option<string>,
    intentRevisionOne: bool)

  datatype PendingSensitive = PendingSensitive(
    requestId: string,
    toolCallId: string,
    toolName: string,
    title: string,
    usage: string,
    agentId: Option<string>,
    adapterRevision: string)

  datatype SkillActivation = SkillActivation(
    activationId: string,
    skillName: string,
    skillDigest: string,
    sourceRef: string,
    sourceDigest: string,
    agentId: Option<string>,
    toolCallId: Option<string>,
    turnIndex: int,
    timestamp: int)

  datatype Phase = PhaseIdle | Replaying | Live | Reconnecting | ResyncRequired | Closed

  datatype Connection = Connection(
    phase: Phase,
    lastDeliveredSeq: int,
    expectedNextSeq: Option<int>,
    unsupported: seq<string>)

  /** Everything the chat shows; all of the state except the connection. */
  datatype Transcript = Transcript(
    messages: seq<Message>,
    status: ChatStatus,
    pendingApproval: Option<PendingApproval>,
    pendingApprovals: seq<PendingApproval>,
    pendingSensitive: Option<PendingSensitive>,
    pendingSensitives: seq<PendingSensitive>,
    skillActivations: seq<SkillActivation>,
    model: Option<string>,
    error: Option<string>,
    lastSeq: int)

  datatype ChatState = ChatState(transcript: Transcript, connection: Connection)

  /** One event's type and payload. A missing or ill-typed string field is the empty string. */
  datatype Body =
    | StreamStart(since: Option<int>, maxSeqAtStart: Option<int>)
    | ReplayComplete(since: Option<int>, replayedThrough: Option<int>, maxSeqAtStart: Option<int>, liveTail: Option<bool>)
    | StreamShutdown(reason: string)
    | Done
    | UserMessage(text: string, content: string, prompt: string)
    | TextDelta(text: string)
    | TextComplete(text: string)
    | ThinkingDelta(text: string)
    | ToolCallStart(toolCallId: string, toolName: string, input: Json, descriptor: Option<Descriptor>)
    | ToolCallProgress(toolCallId: string, toolName: string, progress: string)
    | ToolCallEnd(toolCallId: string, toolName: string, isError: bool, result: string,
                  durationMs: Option<real>, descriptor: Option<Descriptor>)
    | PermissionRequest(requestId: string, toolName: string, reason: string, operationHash: string, intentRevisionOne: bool)
    | PermissionResponse(requestId: string)
    | SensitiveRequest(requestId: string, toolCallId: string, toolName: string, title: string,
                       usage: string, adapterRevision: string, agentId: Field)
    | SensitiveResponse(requestId: string)
    | SkillActivated(activationId: string, skillName: string, skillDigest: string, sourceRef: string,
                     sourceDigest: string, turnIndex: Option<int>, timestamp: Option<int>,
                     agentId: Field, callId: Field)
    | TurnEnd(stopReason: string, usageModel: string)
    | TurnInterrupted(reason: string)
    | ErrorEvent(message: string)
    | SessionStart(model: string)
    | OtherEvent(typ: string)

  /** `seqNo` is `None` when the wire value is not an integral number. */
  datatype Event = Event(seqNo: Option<int>, body: Body)

  /** The four frames that speak about the stream and never enter the run's log. */
  predicate IsControl(e: Event) {
    e.body.StreamStart? || e.body.ReplayComplete? || e.body.StreamShutdown? || e.body.Done?
  }

  function TypeName(b: Body): string {
    match b
    case StreamStart(_, _) => "stream.start"
    case ReplayComplete(_, _, _, _) => "stream.replay.complete"
    case StreamShutdown(_) => "stream.shutdown"
    case Done => "done"
    case UserMessage(_, _, _) => "user.message"
    case TextDelta(_) => "text.delta"
    case TextComplete(_) => "text.complete"
    case ThinkingDelta(_) => "thinking.delta"
    case ToolCallStart(_, _, _, _) => "tool.call.start"
    case ToolCallProgress(_, _, _) => "tool.call.progress"
    case ToolCallEnd(_, _, _, _, _, _) => "tool.call.end"
    case PermissionRequest(_, _, _, _, _) => "permission.request"
    case PermissionResponse(_) => "permission.response"
    case SensitiveRequest(_, _, _, _, _, _, _) => "sensitive.input.request"
    case SensitiveResponse(_) => "sensitive.input.response"
    case SkillActivated(_, _, _, _, _, _, _, _, _) => "skill.activation"
    case TurnEnd(_, _) => "turn.end"
    case TurnInterrupted(_) => "turn.interrupted"
    case ErrorEvent(_) => "error"
    case SessionStart(_) => "session.start"
    case OtherEvent(t) => t
  }

  const INITIAL_TRANSCRIPT: Transcript :=
    Transcript([], Idle, None, [], None, [], [], None, None, 0)

  const INITIAL_STATE: ChatState :=
    ChatState(INITIAL_TRANSCRIPT, Connection(PhaseIdle, 0, Some(1), []))
}

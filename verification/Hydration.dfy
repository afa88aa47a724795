/** Authoritative re-hydration and its convergence with the live stream (packages/ui/src/hydration.ts). */
module Hydration {
  import opened Common
  import opened ChatModel
  import opened ChatReducer
  import opened ChatDelivery
  import opened ChatInvariant

  /** A wire field: missing, of the wrong type, or usable. */
  datatype Loose<T> = Undefined | IllTyped | Given(v: T)

  datatype HydratedTool =
    | NotATool
    | HydratedTool(toolCallId: Loose<string>, name: Loose<string>, input: Loose<Json>, output: Loose<string>,
                   isError: Loose<bool>, durationMs: Loose<real>, descriptor: Loose<Descriptor>)

  datatype WireRole = WireUser | WireAssistant | WireToolResult | WireSystem | WireError | WireUnknown

  /** A part on the wire; `None` is a value of no known part shape. */
  datatype HydratedRow =
    | NotARow
    | HydratedRow(id: Loose<string>, role: WireRole, content: Loose<string>, thinking: Loose<string>,
                  tools: Loose<seq<HydratedTool>>, parts: Loose<seq<Option<Part>>>)

  /** `rows` is `None` when the field is not an array. */
  datatype ChatHydration = ChatHydration(rows: Option<seq<HydratedRow>>, lastClosedTurnEndSeq: Option<int>)

  function ToOption<T>(f: Loose<T>): Option<T> {
    if f.Given? then Some(f.v) else None
  }

  predicate IsMessagePart(p: Option<Part>) {
    p.Some? && match p.value
               case TextPart(_) => true
               case ThinkingPart(_) => true
               case ToolPart(id) => id != ""
               case SubagentPart(id) => id != ""
               case PermissionPart(id) => id != ""
               case CredentialPart(id) => id != ""
  }

  predicate IsHydratedMessage(r: HydratedRow) {
    && r.HydratedRow?
    && r.id.Given? && r.id.v != ""
    && !r.role.WireUnknown?
    && r.content.Given?
    && !r.thinking.IllTyped?
    && !r.tools.IllTyped? && (r.tools.Given? ==> forall i :: 0 <= i < |r.tools.v| ==> r.tools.v[i].HydratedTool?)
    && !r.parts.IllTyped? && (r.parts.Given? ==> forall i :: 0 <= i < |r.parts.v| ==> IsMessagePart(r.parts.v[i]))
  }

  function NormalizeTool(tool: HydratedTool, rowId: string, index: nat): Option<ToolCall> {
    if || !tool.HydratedTool?
       || !tool.name.Given? || tool.name.v == ""
       || tool.toolCallId.IllTyped? || tool.toolCallId == Given("")
       || tool.output.IllTyped? || tool.isError.IllTyped?
       || tool.durationMs.IllTyped? || (tool.durationMs.Given? && tool.durationMs.v < 0.0)
       || tool.descriptor.IllTyped?
    then None
    else Some(ToolCall(
                if tool.toolCallId.Given? then tool.toolCallId.v else rowId + "-tool-" + Decimal(index),
                tool.name.v,
                if tool.input.Given? then tool.input.v else map[],
                if tool.isError == Given(true) then ToolError else ToolDone,
                None, ToOption(tool.output), ToOption(tool.isError), ToOption(tool.durationMs),
                ToOption(tool.descriptor), false))
  }

  function ToolsOf(r: HydratedRow): seq<HydratedTool>
    requires r.HydratedRow?
  {
    if r.role.WireAssistant? && r.tools.Given? then r.tools.v else []
  }

  predicate AllToolsNormalize(tools: seq<HydratedTool>, rowId: string) {
    forall i :: 0 <= i < |tools| ==> NormalizeTool(tools[i], rowId, i).Some?
  }

  predicate HasOwnId(tool: HydratedTool) {
    tool.HydratedTool? && !tool.toolCallId.Undefined?
  }

  predicate Correlatable(tools: seq<HydratedTool>) {
    forall i :: 0 <= i < |tools| ==> HasOwnId(tools[i])
  }

  predicate ReferencesTools(parts: seq<Option<Part>>) {
    exists i :: 0 <= i < |parts| && parts[i].Some? && parts[i].value.ToolPart?
  }

  /** A row is refused, passed over, or becomes a message. */
  predicate IsRefused(r: HydratedRow) {
    !IsHydratedMessage(r) || !AllToolsNormalize(ToolsOf(r), r.id.v)
  }

  predicate IsShown(r: HydratedRow) {
    r.HydratedRow? && (r.role.WireUser? || r.role.WireAssistant?)
  }

  function RowMessage(r: HydratedRow): Message
    requires !IsRefused(r) && IsShown(r)
  {
    var tools := ToolsOf(r);
    Message(r.id.v, if r.role.WireUser? then User else Assistant, r.content.v, ToOption(r.thinking),
            seq(|tools|, i requires 0 <= i < |tools| => NormalizeTool(tools[i], r.id.v, i).value),
            if r.parts.Given? && (Correlatable(tools) || !ReferencesTools(r.parts.v))
            then Some(seq(|r.parts.v|, i requires 0 <= i < |r.parts.v| => r.parts.v[i].value)) else None,
            false)
  }

  /** The messages of a whole hydration, or nothing when some row is refused. */
  function HydrateRows(rows: seq<HydratedRow>): Option<seq<Message>> {
    if rows == [] then Some([])
    else
      var front, last := HydrateRows(rows[..|rows| - 1]), rows[|rows| - 1];
      if front.None? || IsRefused(last) then None
      else if IsShown(last) then Some(front.value + [RowMessage(last)]) else front
  }

  predicate IsAccepted(h: ChatHydration) {
    IsSafeNat(h.lastClosedTurnEndSeq) && h.rows.Some? && HydrateRows(h.rows.value).Some?
  }

  function Hydrate(s: ChatState, h: ChatHydration): ChatState {
    if !IsAccepted(h) then s
    else SeedReplayCursor(
           s.(transcript := s.transcript.(messages := HydrateRows(h.rows.value).value, status := Idle, error := None,
                                          pendingApproval := None, pendingApprovals := [],
                                          pendingSensitive := None, pendingSensitives := [])),
           h.lastClosedTurnEndSeq)
  }

  // ---- the loops of the source ------------------------------------------------

  /** The inner loop over one row's tools. */
  method NormalizeTools(row: HydratedRow) returns (ok: bool, calls: seq<ToolCall>, correlatable: bool)
    requires IsHydratedMessage(row) && IsShown(row)
    ensures ok == !IsRefused(row)
    ensures ok ==> calls == RowMessage(row).toolCalls && correlatable == Correlatable(ToolsOf(row))
  {
    hide NormalizeTool, IsMessagePart, ReferencesTools;
    ok, calls, correlatable := true, [], true;
    if row.role.WireAssistant? {
      var tools := if row.tools.Given? then row.tools.v else [];
      for i := 0 to |tools|
        invariant |calls| == i && correlatable == forall k :: 0 <= k < i ==> HasOwnId(tools[k])
        invariant forall k :: 0 <= k < i ==> NormalizeTool(tools[k], row.id.v, k) == Some(calls[k])
      {
        var normalized := NormalizeTool(tools[i], row.id.v, i);
        if normalized.None? { return false, calls, correlatable; }
        if tools[i].toolCallId.Undefined? { correlatable := false; }
        assert HasOwnId(tools[i]) || !correlatable;
        calls := calls + [normalized.value];
      }
    }
  }

  /** `hydrateChatState`: any refused row leaves the state as it was. */
  method HydrateChatState(state: ChatState, h: ChatHydration) returns (s: ChatState)
    ensures s == Hydrate(state, h)
  {
    hide NormalizeTool, ReferencesTools, Correlatable, SeedReplayCursor;
    if !IsSafeNat(h.lastClosedTurnEndSeq) || h.rows.None? { return state; }
    var rows := h.rows.value;
    var messages: seq<Message> := [];
    for i := 0 to |rows|
      invariant HydrateRows(rows[..i]) == Some(messages)
    {
      var row := rows[i];
      assert rows[..i + 1][..i] == rows[..i];
      if !IsHydratedMessage(row) { RefusedPrefix(rows, i + 1); return state; }
      if !IsShown(row) { continue; }
      var ok, calls, correlatable := NormalizeTools(row);
      if !ok { RefusedPrefix(rows, i + 1); return state; }
      var rowParts := if row.parts.Given? then row.parts.v else [];
      var parts := if row.parts.Given? && (correlatable || !ReferencesTools(rowParts))
        then Some(seq(|rowParts|, k requires 0 <= k < |rowParts| => rowParts[k].value)) else None;
      var m := Message(row.id.v, if row.role.WireUser? then User else Assistant, row.content.v, ToOption(row.thinking),
                       calls, parts, false);
      assert m == RowMessage(row);
      messages := messages + [m];
    }
    assert rows[..|rows|] == rows;
    s := SeedReplayCursor(
      state.(transcript := state.transcript.(messages := messages, status := Idle, error := None,
                                             pendingApproval := None, pendingApprovals := [],
                                             pendingSensitive := None, pendingSensitives := [])),
      h.lastClosedTurnEndSeq);
  }

  /** One refused prefix refuses the whole hydration. */
  lemma {:induction false} RefusedPrefix(rows: seq<HydratedRow>, n: nat)
    requires n <= |rows| && HydrateRows(rows[..n]).None?
    ensures HydrateRows(rows).None?
    decreases |rows|
  {
    if n == |rows| {
      assert rows[..n] == rows;
    } else {
      assert rows[..|rows| - 1][..n] == rows[..n];
      RefusedPrefix(rows[..|rows| - 1], n);
    }
  }

  // ---- what a restore takes and what it shows ---------------------------------

  /** A part on the wire that is whole: text of either kind, or a reference that names something. */
  ghost predicate IsWholePart(p: Option<Part>) {
    p.Some? && p.value !in {ToolPart(""), SubagentPart(""), PermissionPart(""), CredentialPart("")}
  }

  /** A tool on the wire that can be shown: named, with no field of the wrong type and no negative duration. */
  ghost predicate IsWholeTool(tool: HydratedTool) {
    && tool.HydratedTool? && tool.name.Given? && tool.name.v != "" && tool.toolCallId != Given("")
    && !tool.toolCallId.IllTyped? && !tool.output.IllTyped? && !tool.isError.IllTyped? && !tool.durationMs.IllTyped?
    && !tool.descriptor.IllTyped? && (tool.durationMs.Given? ==> tool.durationMs.v >= 0.0)
  }

  /** A row on the wire that a restore takes. Only an assistant's tools have to be whole; everyone's have to be tools. */
  ghost predicate IsWholeRow(r: HydratedRow) {
    && r.HydratedRow? && r.id.Given? && r.id.v != "" && r.role != WireUnknown && r.content.Given?
    && !r.thinking.IllTyped? && !r.tools.IllTyped? && !r.parts.IllTyped?
    && (r.tools.Given? ==> forall t :: t in r.tools.v ==> t.HydratedTool? && (r.role == WireAssistant ==> IsWholeTool(t)))
    && (r.parts.Given? ==> forall p :: p in r.parts.v ==> IsWholePart(p))
  }

  lemma WholePartIs(p: Option<Part>)
    ensures IsMessagePart(p) <==> IsWholePart(p)
  {
  }

  lemma WholeToolIs(tool: HydratedTool, rowId: string, index: nat)
    ensures NormalizeTool(tool, rowId, index).Some? <==> IsWholeTool(tool)
  {
    hide Decimal;
  }

  lemma WholeRowIs(r: HydratedRow)
    ensures IsRefused(r) <==> !IsWholeRow(r)
  {
    hide NormalizeTool, IsWholeTool, IsMessagePart, IsWholePart;
    if r.HydratedRow? {
      forall p ensures IsMessagePart(p) <==> IsWholePart(p) { WholePartIs(p); }
      var id := if r.id.Given? then r.id.v else "";
      forall t, i: nat ensures NormalizeTool(t, id, i).Some? <==> IsWholeTool(t) { WholeToolIs(t, id, i); }
      if r.parts.Given? { assert forall i :: 0 <= i < |r.parts.v| ==> r.parts.v[i] in r.parts.v; }
      if r.tools.Given? { assert forall i :: 0 <= i < |r.tools.v| ==> r.tools.v[i] in r.tools.v; }
    }
  }

  /** The card of a tool: its own id or one of its place, what it said, and failed iff it said so. */
  ghost predicate IsCardOf(c: ToolCall, tool: HydratedTool, rowId: string, index: nat)
    requires IsWholeTool(tool)
  {
    && c.id == (if tool.toolCallId.Given? then tool.toolCallId.v else rowId + "-tool-" + Decimal(index))
    && c.name == tool.name.v && c.input == (if tool.input.Given? then tool.input.v else map[])
    && c.status == (if tool.isError == Given(true) then ToolError else ToolDone)
    && c.result == (if tool.output.Given? then Some(tool.output.v) else None)
    && c.isError == (if tool.isError.Given? then Some(tool.isError.v) else None)
    && c.durationMs == (if tool.durationMs.Given? then Some(tool.durationMs.v) else None)
    && c.descriptor == (if tool.descriptor.Given? then Some(tool.descriptor.v) else None)
    && c.progress.None? && !c.partial
  }

  /** The parts of a row can be shown unless one refers to a tool while some tool has no id of its own. */
  ghost predicate CanShowParts(r: HydratedRow)
    requires IsWholeRow(r)
  {
    && r.parts.Given?
    && ((r.role == WireAssistant && r.tools.Given? && exists t :: t in r.tools.v && t.toolCallId.Undefined?) ==>
          forall p :: p in r.parts.v ==> !p.value.ToolPart?)
  }

  /** What a row shows: itself, closed, with a card for each of an assistant's tools. */
  ghost predicate IsShownAs(r: HydratedRow, m: Message)
    requires IsWholeRow(r)
  {
    var tools := if r.role == WireAssistant && r.tools.Given? then r.tools.v else [];
    && m.id == r.id.v && m.text == r.content.v && m.role == (if r.role == WireUser then User else Assistant) && !m.streaming
    && m.thinking == (if r.thinking.Given? then Some(r.thinking.v) else None)
    && |m.toolCalls| == |tools| && (forall i :: 0 <= i < |tools| ==> IsWholeTool(tools[i]) && IsCardOf(m.toolCalls[i], tools[i], r.id.v, i))
    && (m.parts.Some? <==> CanShowParts(r))
    && (m.parts.Some? ==> |m.parts.value| == |r.parts.v| && forall i :: 0 <= i < |r.parts.v| ==> r.parts.v[i] == Some(m.parts.value[i]))
  }

  lemma RowIsShown(r: HydratedRow)
    requires !IsRefused(r) && IsShown(r)
    ensures IsWholeRow(r) && IsShownAs(r, RowMessage(r))
  {
    hide IsWholeTool, IsWholePart, Decimal;
    WholeRowIs(r);
    var m, tools := RowMessage(r), ToolsOf(r);
    forall i | 0 <= i < |tools| ensures IsWholeTool(tools[i]) && IsCardOf(m.toolCalls[i], tools[i], r.id.v, i) {
      assert tools[i] in tools;
      CardIs(tools[i], r.id.v, i);
    }
    PartsShownIs(r);
  }

  lemma CardIs(tool: HydratedTool, rowId: string, index: nat)
    requires IsWholeTool(tool)
    ensures NormalizeTool(tool, rowId, index).Some? && IsCardOf(NormalizeTool(tool, rowId, index).value, tool, rowId, index)
  {
    hide Decimal;
  }

  lemma PartsShownIs(r: HydratedRow)
    requires !IsRefused(r) && IsShown(r) && IsWholeRow(r)
    ensures RowMessage(r).parts.Some? <==> CanShowParts(r)
  {
    hide IsWholeTool, IsWholePart, NormalizeTool, IsMessagePart;
    if r.parts.Given? {
      assert ReferencesTools(r.parts.v) <==> exists p :: p in r.parts.v && p.Some? && p.value.ToolPart?;
      var tools := ToolsOf(r);
      assert Correlatable(tools) <==> forall t :: t in tools ==> HasOwnId(t) by {
        assert forall i :: 0 <= i < |tools| ==> tools[i] in tools;
      }
      forall p | p in r.parts.v ensures p.Some? { WholeIsPart(p); }
    }
  }

  lemma WholeIsPart(p: Option<Part>)
    requires IsWholePart(p)
    ensures p.Some?
  {
  }

  /** The rows a person sees: those of users and of the assistant. */
  ghost function SeenRows(rows: seq<HydratedRow>): seq<HydratedRow> {
    if rows == [] then []
    else
      var last := rows[|rows| - 1];
      SeenRows(rows[..|rows| - 1]) + (if last.HydratedRow? && (last.role == WireUser || last.role == WireAssistant) then [last] else [])
  }

  ghost predicate AreShownAs(rows: seq<HydratedRow>, ms: seq<Message>) {
    |ms| == |rows| && forall i :: 0 <= i < |rows| ==> IsWholeRow(rows[i]) && IsShownAs(rows[i], ms[i])
  }

  /** A restore takes its rows iff each is whole, and shows exactly those of users and of the assistant, in order. */
  lemma {:induction false} RestoredRowsAre(rows: seq<HydratedRow>)
    ensures HydrateRows(rows).Some? <==> forall r :: r in rows ==> IsWholeRow(r)
    ensures HydrateRows(rows).Some? ==> AreShownAs(SeenRows(rows), HydrateRows(rows).value)
  {
    hide IsRefused, RowMessage, IsWholeRow, IsShownAs;
    if rows != [] {
      var n := |rows| - 1;
      RestoredRowsAre(rows[..n]);
      WholeRowIs(rows[n]);
      assert forall r :: r in rows <==> r in rows[..n] || r == rows[n];
      if HydrateRows(rows).Some? && IsShown(rows[n]) { RowIsShown(rows[n]); }
    }
  }

  /** A restore is taken iff it names a usable number and whole rows; it then shows them, idle at that number, with nothing pending. */
  lemma RestoreIs(s: ChatState, h: ChatHydration)
    ensures var n, s' := h.lastClosedTurnEndSeq, Hydrate(s, h);
            if n.Some? && 0 <= n.value <= 9007199254740991 && h.rows.Some? && forall r :: r in h.rows.value ==> IsWholeRow(r) then
              && AreShownAs(SeenRows(h.rows.value), s'.transcript.messages)
              && s'.transcript == s.transcript.(messages := s'.transcript.messages, status := Idle, error := None, lastSeq := n.value,
                                                pendingApproval := None, pendingApprovals := [],
                                                pendingSensitive := None, pendingSensitives := [])
              && s'.connection == Connection(Replaying, n.value, Some(n.value + 1), s.connection.unsupported)
            else s' == s
  {
    hide HydrateRows, IsWholeRow, AreShownAs;
    if h.rows.Some? { RestoredRowsAre(h.rows.value); }
  }

  // ---- which transcripts a hydration can carry --------------------------------

  ghost predicate IsDurableCall(c: ToolCall) {
    && c.id != "" && c.name != ""
    && c.status == (if c.isError == Some(true) then ToolError else ToolDone)
    && c.progress.None? && !c.partial
    && (c.durationMs.Some? ==> c.durationMs.value >= 0.0)
  }

  /** A closed row that holds nothing only the live stream knows. */
  ghost predicate IsDurable(m: Message) {
    && m.id != "" && !m.streaming
    && (m.role.User? ==> m.toolCalls == [])
    && (forall i :: 0 <= i < |m.toolCalls| ==> IsDurableCall(m.toolCalls[i]))
    && (m.parts.Some? ==> forall i :: 0 <= i < |m.parts.value| ==> IsMessagePart(Some(m.parts.value[i])))
  }

  function FromOption<T>(o: Option<T>): Loose<T> {
    if o.Some? then Given(o.value) else Undefined
  }

  function PrintCall(c: ToolCall): HydratedTool {
    HydratedTool(Given(c.id), Given(c.name), Given(c.input), FromOption(c.result), FromOption(c.isError),
                 FromOption(c.durationMs), FromOption(c.descriptor))
  }

  function PrintRow(m: Message): HydratedRow {
    HydratedRow(Given(m.id), if m.role.User? then WireUser else WireAssistant, Given(m.text), FromOption(m.thinking),
                Given(seq(|m.toolCalls|, i requires 0 <= i < |m.toolCalls| => PrintCall(m.toolCalls[i]))),
                if m.parts.Some?
                then Given(seq(|m.parts.value|, i requires 0 <= i < |m.parts.value| => Some(m.parts.value[i])))
                else Undefined)
  }

  function PrintRows(ms: seq<Message>): seq<HydratedRow> {
    seq(|ms|, i requires 0 <= i < |ms| => PrintRow(ms[i]))
  }

  lemma RowRoundTrip(m: Message)
    requires IsDurable(m)
    ensures !IsRefused(PrintRow(m)) && IsShown(PrintRow(m)) && RowMessage(PrintRow(m)) == m
  {
    var r := PrintRow(m);
    assert forall i :: 0 <= i < |m.toolCalls| ==> IsDurableCall(m.toolCalls[i]);
    assert |ToolsOf(r)| == |m.toolCalls|;
    forall i | 0 <= i < |m.toolCalls|
      ensures NormalizeTool(ToolsOf(r)[i], m.id, i) == Some(m.toolCalls[i]) {
    }
    assert RowMessage(r).toolCalls == m.toolCalls;
    assert m.parts.Some? ==> RowMessage(r).parts.value == m.parts.value;
  }

  lemma {:induction false} PrintedRowsHydrate(ms: seq<Message>)
    requires forall i :: 0 <= i < |ms| ==> IsDurable(ms[i])
    ensures HydrateRows(PrintRows(ms)) == Some(ms)
  {
    hide PrintRow, IsRefused, RowMessage, IsDurable;
    if ms != [] {
      var front := ms[..|ms| - 1];
      PrintedRowsHydrate(front);
      RowRoundTrip(ms[|ms| - 1]);
      assert PrintRows(ms)[..|ms| - 1] == PrintRows(front);
      assert front + [ms[|ms| - 1]] == ms;
    }
  }

  lemma RowMessageIsDurable(r: HydratedRow)
    requires !IsRefused(r) && IsShown(r)
    ensures IsDurable(RowMessage(r))
  {
    var m, tools := RowMessage(r), ToolsOf(r);
    forall i | 0 <= i < |m.toolCalls| ensures IsDurableCall(m.toolCalls[i]) {
      assert NormalizeTool(tools[i], r.id.v, i) == Some(m.toolCalls[i]);
    }
  }

  lemma {:induction false} HydratedRowsAreDurable(rows: seq<HydratedRow>)
    requires HydrateRows(rows).Some?
    ensures forall i :: 0 <= i < |HydrateRows(rows).value| ==> IsDurable(HydrateRows(rows).value[i])
  {
    if rows != [] {
      var last := rows[|rows| - 1];
      HydratedRowsAreDurable(rows[..|rows| - 1]);
      if IsShown(last) { RowMessageIsDurable(last); }
    }
  }

  /** Exactly the durable transcripts can be restored by a hydration. */
  lemma RestorableIff(ms: seq<Message>)
    ensures (exists rows :: HydrateRows(rows) == Some(ms)) <==> (forall i :: 0 <= i < |ms| ==> IsDurable(ms[i]))
  {
    if rows :| HydrateRows(rows) == Some(ms) {
      HydratedRowsAreDurable(rows);
    }
    if forall i :: 0 <= i < |ms| ==> IsDurable(ms[i]) {
      PrintedRowsHydrate(ms);
    }
  }

  // ---- what a restored client keeps -------------------------------------------

  /** The first `k` rows are closed, and every row added after them is well formed. */
  ghost predicate AddedRowsOk(ms: seq<Message>, k: nat) {
    k <= |ms| && NoneOpen(ms[..k]) && RowsOk(ms[k..])
  }

  ghost predicate NoneOpen(ms: seq<Message>) {
    forall i :: 0 <= i < |ms| ==> !IsOpen(ms[i])
  }

  lemma JoinedRowsOk(pre: seq<Message>, rows: seq<Message>)
    requires NoneOpen(pre) && RowsOk(rows)
    ensures AddedRowsOk(pre + rows, |pre|)
  {
    hide RowOk;
    assert (pre + rows)[..|pre|] == pre && (pre + rows)[|pre|..] == rows;
  }

  /** An open reply is opened after the closed rows, never in them. */
  lemma OpenAfter(pre: seq<Message>, rows: seq<Message>, n: nat)
    requires NoneOpen(pre)
    ensures EnsureOpenAssistant(pre + rows, n) == pre + EnsureOpenAssistant(rows, n)
  {
    hide Decimal;
    if rows == [] { assert pre + rows == pre; }
  }

  lemma SetLastAfter(pre: seq<Message>, rows: seq<Message>, m: Message)
    requires rows != []
    ensures (pre + rows)[|pre + rows| - 1] == rows[|rows| - 1] && SetLast(pre + rows, m) == pre + SetLast(rows, m)
  {
  }

  /** Text, thinking and tool rows grow after the closed rows. */
  lemma RowsGrowAfter(pre: seq<Message>, rows: seq<Message>, n: nat, text: string, call: ToolCall)
    requires NoneOpen(pre)
    ensures DeltaRows(pre + rows, n, text) == pre + DeltaRows(rows, n, text)
    ensures CompleteRows(pre + rows, n, text) == pre + CompleteRows(rows, n, text)
    ensures ThinkingRows(pre + rows, n, text) == pre + ThinkingRows(rows, n, text)
    ensures ToolStartRows(pre + rows, n, call) == pre + ToolStartRows(rows, n, call)
  {
    hide AppendMessagePart, AppendToolPart, HasCall, EnsureOpenAssistant, SetLast;
    OpenAfter(pre, rows, n);
    var open := EnsureOpenAssistant(rows, n);
    OpenIsNotEmpty(rows, n);
    forall m ensures SetLast(pre + open, m) == pre + SetLast(open, m) { SetLastAfter(pre, open, m); }
    SetLastAfter(pre, open, open[|open| - 1]);
  }

  lemma OpenIsNotEmpty(rows: seq<Message>, n: nat)
    ensures EnsureOpenAssistant(rows, n) != []
  {
  }

  /** A tool update may reach restored rows, but opens none of them. */
  lemma UpdateAfter(pre: seq<Message>, rows: seq<Message>, id: string, u: ToolUpdate)
    requires NoneOpen(pre) && RowsOk(rows)
    ensures AddedRowsOk(UpdateToolCall(pre + rows, id, u), |pre|)
  {
    hide RowOk, UpdateCalls, HasCall;
    var r := UpdateToolCall(pre + rows, id, u);
    UpdateToolCallOk(rows, id, u);
    assert r[|pre|..] == UpdateToolCall(rows, id, u);
    forall i | 0 <= i < |pre| ensures !IsOpen(r[..|pre|][i]) { assert (pre + rows)[i] == pre[i]; }
  }

  lemma UpdateOrInsertAfter(pre: seq<Message>, rows: seq<Message>, n: nat, call: ToolCall, u: ToolUpdate)
    requires NoneOpen(pre) && RowsOk(rows)
    ensures AddedRowsOk(UpdateOrInsertToolCall(pre + rows, n, call, u), |pre|)
  {
    hide RowOk, UpdateToolCall, HasCall, EnsureOpenAssistant, AppendToolPart, SetLast, AddedRowsOk;
    var all := pre + rows;
    if exists i :: 0 <= i < |all| && HasCall(all[i], call.id) {
      UpdateAfter(pre, rows, call.id, u);
    } else {
      forall i | 0 <= i < |rows| ensures !HasCall(rows[i], call.id) { assert all[|pre| + i] == rows[i]; }
      UpdateOrInsertOk(rows, n, call, u);
      OpenAfter(pre, rows, n);
      OpenIsNotEmpty(rows, n);
      var open := EnsureOpenAssistant(rows, n);
      var m := open[|open| - 1];
      SetLastAfter(pre, open, m.(toolCalls := m.toolCalls + [call], parts := Some(AppendToolPart(PartsOf(m), call.id))));
      JoinedRowsOk(pre, UpdateOrInsertToolCall(rows, n, call, u));
    }
  }

  lemma CloseAfter(pre: seq<Message>, rows: seq<Message>)
    requires NoneOpen(pre) && RowsOk(rows)
    ensures AddedRowsOk(CloseOpenAssistant(pre + rows), |pre|)
  {
    hide RowOk, AddedRowsOk, RowsOk;
    CloseOpenOk(rows);
    JoinedRowsOk(pre, CloseOpenAssistant(rows));
    if rows == [] {
      assert pre + rows == pre;
    } else {
      SetLastAfter(pre, rows, rows[|rows| - 1].(streaming := false));
    }
  }

  lemma ReconcileAfter(pre: seq<Message>, rows: seq<Message>, observed: Message)
    requires NoneOpen(pre) && RowsOk(rows) && RowOk(observed) && observed.role.User?
    ensures AddedRowsOk(ReconcileOptimisticUser(pre + rows, observed), |pre|)
  {
    hide RowOk, LOCAL_USER_PREFIX;
    var r := ReconcileOptimisticUser(pre + rows, observed);
    if |r| == |pre + rows| {
      if rows == [] {
        assert r[|pre|..] == [];
      } else {
        SetLastAfter(pre, rows, observed);
        JoinedRowsOk(pre, SetLast(rows, observed));
      }
    } else {
      assert r == pre + (rows + [observed]);
      JoinedRowsOk(pre, rows + [observed]);
    }
  }

  lemma RowsAfterAdded(pre: seq<Message>, rows: seq<Message>, n: nat, body: Body)
    requires NoneOpen(pre) && RowsOk(rows)
    ensures AddedRowsOk(RowsAfter(pre + rows, n, body), |pre|)
  {
    hide DeltaRows, CompleteRows, ThinkingRows, ToolStartRows, UpdateOrInsertToolCall, CloseOpenAssistant, ReconcileOptimisticUser;
    hide RowOk, RowsOk, NoneOpen, AddedRowsOk;
    JoinedRowsOk(pre, rows);
    match body
    case UserMessage(text, content, prompt) =>
      var observed := UserRow("u" + Decimal(n), OrElse(text, OrElse(content, prompt)));
      UserRowOk(observed.id, observed.text);
      ReconcileAfter(pre, rows, observed);
    case TextDelta(text) => GrowAfter(pre, rows, n, text, NO_CALL);
    case TextComplete(text) => GrowAfter(pre, rows, n, text, NO_CALL);
    case ThinkingDelta(text) => GrowAfter(pre, rows, n, text, NO_CALL);
    case ToolCallStart(id, name, input, descriptor) =>
      GrowAfter(pre, rows, n, "", ToolCall(id, name, input, ToolRunning, None, None, None, None, descriptor, false));
    case ToolCallProgress(id, name, progress) =>
      UpdateOrInsertAfter(pre, rows, n,
        ToolCall(id, OrElse(name, "unknown"), map[], ToolRunning, Some(progress), None, None, None, None, true), SetProgress(progress));
    case ToolCallEnd(id, name, isError, result, durationMs, descriptor) =>
      UpdateOrInsertAfter(pre, rows, n,
        ToolCall(id, name, map[], if isError then ToolError else ToolDone, None, Some(result), Some(isError), durationMs, descriptor, true),
        Finish(isError, result, durationMs, descriptor));
    case TurnEnd(_, _) => CloseAfter(pre, rows);
    case TurnInterrupted(_) => CloseAfter(pre, rows);
    case ErrorEvent(_) => CloseAfter(pre, rows);
    case _ =>
  }

  /** Every observation keeps the rows added since a restore well formed. */
  lemma ObserveAdded(base: ChatState, n: nat, body: Body, k: nat)
    requires AddedRowsOk(base.transcript.messages, k)
    ensures AddedRowsOk(Observe(base, n, body).transcript.messages, k)
  {
    hide Observe, RowsAfter, RowsOk, NoneOpen;
    var ms := base.transcript.messages;
    assert ms == ms[..k] + ms[k..];
    ObserveRows(base, n, body);
    RowsAfterAdded(ms[..k], ms[k..], n, body);
  }

  const NO_CALL: ToolCall := ToolCall("", "", map[], ToolRunning, None, None, None, None, None, false)

  lemma GrowAfter(pre: seq<Message>, rows: seq<Message>, n: nat, text: string, call: ToolCall)
    requires NoneOpen(pre) && RowsOk(rows)
    ensures AddedRowsOk(DeltaRows(pre + rows, n, text), |pre|) && AddedRowsOk(CompleteRows(pre + rows, n, text), |pre|)
    ensures AddedRowsOk(ThinkingRows(pre + rows, n, text), |pre|) && AddedRowsOk(ToolStartRows(pre + rows, n, call), |pre|)
  {
    hide DeltaRows, CompleteRows, ThinkingRows, ToolStartRows, RowsOk, NoneOpen, AddedRowsOk;
    RowsGrowAfter(pre, rows, n, text, call);
    DeltaRowsOk(rows, n, text);
    CompleteRowsOk(rows, n, text);
    ThinkingRowsOk(rows, n, text);
    ToolStartRowsOk(rows, n, call);
    JoinedRowsOk(pre, DeltaRows(rows, n, text));
    JoinedRowsOk(pre, CompleteRows(rows, n, text));
    JoinedRowsOk(pre, ThinkingRows(rows, n, text));
    JoinedRowsOk(pre, ToolStartRows(rows, n, call));
  }

  lemma PerformAdded(s: ChatState, a: Action, k: nat)
    requires AddedRowsOk(s.transcript.messages, k)
    ensures AddedRowsOk(Perform(s, a).transcript.messages, k)
  {
    hide Observe, RowOk, NoneOpen;
    match a
    case Receive(e) =>
      if IsControl(e) {
        ControlKeepsRows(s, e);
      } else if IsSafeNat(e.seqNo) {
        ObserveAdded(Advance(s, e.seqNo.value), e.seqNo.value, e.body, k);
      }
    case Prompt(text, id) =>
      var ms := s.transcript.messages;
      var row := UserRow(if id.Some? then id.value else LOCAL_USER_PREFIX + Decimal(|ms|), text);
      UserRowOk(row.id, row.text);
      assert ms + [row] == ms[..k] + (ms[k..] + [row]);
      JoinedRowsOk(ms[..k], ms[k..] + [row]);
  }

  /**
   * After an accepted restore, for all later events and prompts: pending requests, status and
   * connection stay consistent, and every row added since the restore is well formed.
   */
  lemma {:induction false} RestoredKeepsInvariants(s: ChatState, h: ChatHydration, actions: seq<Action>)
    requires PendingOk(s.transcript) && ConnectionOk(s) && IsAccepted(h)
    ensures var r := Reach(Hydrate(s, h), actions);
            && PendingOk(r.transcript) && ConnectionOk(r)
            && AddedRowsOk(r.transcript.messages, |HydrateRows(h.rows.value).value|)
  {
    hide Perform, PendingOk, ConnectionOk, HydrateRows, AddedRowsOk;
    if actions == [] {
      RestoredAtFirst(s, h);
    } else {
      var front, last := actions[..|actions| - 1], actions[|actions| - 1];
      RestoredKeepsInvariants(s, h, front);
      PerformKeepsBooks(Reach(Hydrate(s, h), front), last);
      PerformAdded(Reach(Hydrate(s, h), front), last, |HydrateRows(h.rows.value).value|);
    }
  }

  lemma RestoredAtFirst(s: ChatState, h: ChatHydration)
    requires PendingOk(s.transcript) && ConnectionOk(s) && IsAccepted(h)
    ensures var r := Hydrate(s, h);
            && PendingOk(r.transcript) && ConnectionOk(r)
            && AddedRowsOk(r.transcript.messages, |HydrateRows(h.rows.value).value|)
  {
    hide HydrateRows;
    HydratedRowsAreDurable(h.rows.value);
    var ms := HydrateRows(h.rows.value).value;
    assert ms[..|ms|] == ms && ms[|ms|..] == [];
  }

  /** The invariant holds now and after whatever comes. */
  ghost predicate StaysSound(s: ChatState) {
    forall actions :: Inv(Reach(s, actions))
  }

  /** The whole invariant holds after an accepted restore, for good, iff the restored rows are well formed themselves. */
  lemma RestoredInvIff(s: ChatState, h: ChatHydration)
    requires PendingOk(s.transcript) && ConnectionOk(s) && IsAccepted(h)
    ensures StaysSound(Hydrate(s, h)) <==> RowsOk(HydrateRows(h.rows.value).value)
  {
    hide HydrateRows, RowOk, Perform;
    var r := Hydrate(s, h);
    RestoredAtFirst(s, h);
    SoundIff(r);
  }

  lemma SoundIff(s: ChatState)
    ensures StaysSound(s) <==> Inv(s)
  {
    hide Inv, Perform;
    assert Reach(s, []) == s;
    if StaysSound(s) { assert Inv(Reach(s, [])); }
    if Inv(s) {
      forall actions ensures Inv(Reach(s, actions)) { ReachKeepsInv(s, actions); }
    }
  }

  // ---- independence from the earlier state ------------------------------------

  /** The fields a hydration decides: rows, status, error, pending requests and cursor. */
  ghost predicate SameView(a: Transcript, b: Transcript) {
    && a.messages == b.messages && a.status == b.status && a.error == b.error
    && a.pendingApproval == b.pendingApproval && a.pendingApprovals == b.pendingApprovals
    && a.pendingSensitive == b.pendingSensitive && a.pendingSensitives == b.pendingSensitives
    && a.lastSeq == b.lastSeq
  }

  ghost predicate SameReplica(a: ChatState, b: ChatState) {
    SameView(a.transcript, b.transcript) && a.connection.lastDeliveredSeq == b.connection.lastDeliveredSeq
  }

  lemma ToolSameView(a: ChatState, b: ChatState, n: nat, body: Body)
    requires SameReplica(a, b) && IsToolBody(body)
    ensures SameReplica(ObserveTool(a, n, body), ObserveTool(b, n, body))
  {
    hide ToolStartRows, UpdateOrInsertToolCall, TypeName;
  }

  lemma PendingSameView(a: ChatState, b: ChatState, body: Body)
    requires SameReplica(a, b)
    requires IsRequestBody(body)
    ensures SameReplica(ObservePending(a, body), ObservePending(b, body))
  {
    hide UpsertById, WithoutId, IsOperationHash, TypeName;
  }

  lemma EndingSameView(a: ChatState, b: ChatState, n: nat, body: Body)
    requires SameReplica(a, b) && (body.TurnEnd? || body.TurnInterrupted? || body.ErrorEvent?)
    ensures SameReplica(Observe(a, n, body), Observe(b, n, body))
  {
    hide CloseOpenAssistant, WaitingStatus, InterruptedMessage, TypeName;
  }

  lemma RowsSameView(a: ChatState, b: ChatState, n: nat, body: Body)
    requires SameReplica(a, b) && (body.UserMessage? || body.TextDelta? || body.TextComplete? || body.ThinkingDelta?)
    ensures SameReplica(Observe(a, n, body), Observe(b, n, body))
  {
    hide DeltaRows, CompleteRows, ThinkingRows, ReconcileOptimisticUser, Decimal, TypeName;
  }

  lemma OtherSameView(a: ChatState, b: ChatState, n: nat, body: Body)
    requires SameReplica(a, b) && !IsRequestBody(body)
    requires !IsToolBody(body)
    requires !(body.UserMessage? || body.TextDelta? || body.TextComplete? || body.ThinkingDelta?)
    requires !(body.TurnEnd? || body.TurnInterrupted? || body.ErrorEvent?)
    ensures SameReplica(Observe(a, n, body), Observe(b, n, body))
  {
    hide IsActivation, UpsertById, TypeName;
  }

  lemma ObserveSameView(a: ChatState, b: ChatState, n: nat, body: Body)
    requires SameReplica(a, b)
    ensures SameReplica(Observe(a, n, body), Observe(b, n, body))
  {
    hide SameReplica;
    if IsToolBody(body) {
      ToolSameView(a, b, n, body);
      assert Observe(a, n, body) == ObserveTool(a, n, body) && Observe(b, n, body) == ObserveTool(b, n, body) by { hide ObserveTool; }
    } else if IsRequestBody(body) {
      PendingSameView(a, b, body);
      assert Observe(a, n, body) == ObservePending(a, body) && Observe(b, n, body) == ObservePending(b, body) by { hide ObservePending; }
    } else if body.UserMessage? || body.TextDelta? || body.TextComplete? || body.ThinkingDelta? {
      RowsSameView(a, b, n, body);
    } else if body.TurnEnd? || body.TurnInterrupted? || body.ErrorEvent? {
      EndingSameView(a, b, n, body);
    } else {
      OtherSameView(a, b, n, body);
    }
  }

  lemma StepSameView(a: ChatState, b: ChatState, e: Event)
    requires SameReplica(a, b)
    ensures SameReplica(Step(a, e), Step(b, e))
  {
    if !IsControl(e) && IsSafeNat(e.seqNo) {
      ObserveSameView(Advance(a, e.seqNo.value), Advance(b, e.seqNo.value), e.seqNo.value, e.body);
    }
  }

  lemma {:induction false} FoldSameView(a: ChatState, b: ChatState, es: seq<Event>)
    requires SameReplica(a, b)
    ensures SameReplica(Fold(a, es), Fold(b, es))
  {
    if es != [] {
      FoldSameView(a, b, es[..|es| - 1]);
      StepSameView(Fold(a, es[..|es| - 1]), Fold(b, es[..|es| - 1]), es[|es| - 1]);
    }
  }

  /** After an accepted hydration nothing visible depends on the earlier state, for any later events. */
  lemma HydrationForgetsThePast(s1: ChatState, s2: ChatState, h: ChatHydration, es: seq<Event>)
    requires IsAccepted(h)
    ensures SameReplica(Fold(Hydrate(s1, h), es), Fold(Hydrate(s2, h), es))
  {
    FoldSameView(Hydrate(s1, h), Hydrate(s2, h), es);
  }

  // ---- convergence ------------------------------------------------------------

  /** A point of the log where the run is closed and nothing is waiting. */
  ghost predicate IsQuiet(t: Transcript) {
    && t.status.Idle? && t.error.None?
    && t.pendingApproval.None? && t.pendingApprovals == []
    && t.pendingSensitive.None? && t.pendingSensitives == []
  }

  /** The hydration restores the fold of the first `n` log events, at a quiet point. */
  ghost predicate Restores(h: ChatHydration, s: ChatState, log: seq<Event>, n: nat) {
    && n <= |log| && IsAccepted(h)
    && IsQuiet(Fold(s, log[..n]).transcript)
    && h.lastClosedTurnEndSeq == Some(s.transcript.lastSeq + n)
    && HydrateRows(h.rows.value) == Some(Fold(s, log[..n]).transcript.messages)
  }

  /** The uninterrupted transcript with the hydrated client's connection. */
  lemma RestoredReplica(s: ChatState, log: seq<Event>, n: nat, s': ChatState, h: ChatHydration) returns (q: ChatState)
    requires s.transcript.lastSeq >= 0 && IsLogFrom(log, s.transcript.lastSeq)
    requires s.transcript.lastSeq + |log| <= MAX_SAFE_INTEGER
    requires Restores(h, s, log, n)
    ensures Holds(s, log, q, n) && SameReplica(Hydrate(s', h), q)
    ensures q.connection.lastDeliveredSeq == s.transcript.lastSeq + n
  {
    hide Step, HydrateRows, StartsAtFirst;
    var r := Hydrate(s', h);
    q := ChatState(Fold(s, log[..n]).transcript, r.connection);
    FoldToIsFold(s, log, n);
    assert log[0..n] == log[..n];
    LogIsItsRunPart(log, s.transcript.lastSeq, 0, n);
    if s.transcript.lastSeq == 0 { LogStartsAtFirst(log, n); }
    ReplayCatchesUp(s, log, s, 0, log[..n], 0);
  }

  /**
   * Resync convergence: a client in any state that hydrates at a quiet point and replays from
   * at or before it, with any control frames on the way, shows what a client that was never
   * interrupted shows.
   */
  lemma ResyncConverges(s: ChatState, log: seq<Event>, n: nat, s': ChatState, h: ChatHydration, replay: seq<Event>, from: nat)
    requires s.transcript.lastSeq >= 0 && IsLogFrom(log, s.transcript.lastSeq)
    requires s.transcript.lastSeq + |log| <= MAX_SAFE_INTEGER
    requires Restores(h, s, log, n) && from <= n && RunPart(replay) == log[from..]
    requires s.transcript.lastSeq + n == 0 ==> StartsAtFirst(replay, log)
    ensures SameView(Fold(Hydrate(s', h), replay).transcript, Fold(s, log).transcript)
  {
    hide Step, Hydrate, StartsAtFirst, Fold, FoldTo, RunPart, IsLogFrom, Restores;
    var q := RestoredReplica(s, log, n, s', h);
    FoldSameView(Hydrate(s', h), q, replay);
    assert IsStretch(log[from..], log, from);
    ReplayCatchesUp(s, log, q, n, replay, from);
    WholeFold(s, log);
  }

  /** Until the replay is complete the hydrated client shows a prefix of the log, for any delivery. */
  lemma HydratedDeliveryIsPrefixFold(s: ChatState, log: seq<Event>, n: nat, s': ChatState, h: ChatHydration,
                                     delivery: seq<Event>) returns (m: nat)
    requires s.transcript.lastSeq >= 0 && IsLogFrom(log, s.transcript.lastSeq)
    requires s.transcript.lastSeq + |log| <= MAX_SAFE_INTEGER
    requires Restores(h, s, log, n) && IsDeliveryOf(delivery, log)
    requires s.transcript.lastSeq + n == 0 ==> StartsAtFirst(delivery, log)
    ensures n <= m <= |log|
    ensures SameView(Fold(Hydrate(s', h), delivery).transcript, Fold(s, log[..m]).transcript)
  {
    hide Step, Hydrate;
    var q := RestoredReplica(s, log, n, s', h);
    FoldSameView(Hydrate(s', h), q, delivery);
    m := DeliveryExtendsPrefix(s, log, q, n, delivery);
    FoldToIsFold(s, log, m);
  }

  /** The client shows the first `m` log events, whatever else its state remembers. */
  ghost predicate Shows(s: ChatState, log: seq<Event>, r: ChatState, m: nat) {
    && m <= |log| && SameView(r.transcript, FoldTo(s, log, m).transcript)
    && r.transcript.lastSeq == s.transcript.lastSeq + m && (r.transcript.lastSeq > 0 ==> r.connection.lastDeliveredSeq > 0)
  }

  /** A delivered frame keeps the shown prefix or extends it by one. */
  lemma ShowsNext(s: ChatState, log: seq<Event>, r: ChatState, m: nat, d: Event) returns (m': nat)
    requires s.transcript.lastSeq >= 0 && IsLogFrom(log, s.transcript.lastSeq)
    requires Shows(s, log, r, m) && IsDelivered(d, log) && MayFollowOne(r, d, log)
    ensures m <= m' <= m + 1 && Shows(s, log, Step(r, d), m')
  {
    hide Step, FoldTo, IsLogFrom, MovesFromZero;
    var q := ChatState(FoldTo(s, log, m).transcript, r.connection);
    StepSameView(r, q, d);
    DeliverOne(s, log, q, m, d);
    m' := if Holds(s, log, Step(q, d), m) then m else m + 1;
  }

  lemma RestoreShows(s: ChatState, log: seq<Event>, n: nat, s': ChatState, h: ChatHydration)
    requires s.transcript.lastSeq >= 0 && IsLogFrom(log, s.transcript.lastSeq)
    requires s.transcript.lastSeq + |log| <= MAX_SAFE_INTEGER
    requires Restores(h, s, log, n)
    ensures Shows(s, log, Hydrate(s', h), n)
  {
    hide Step, Hydrate, Restores, IsLogFrom;
    var q := RestoredReplica(s, log, n, s', h);
  }
}

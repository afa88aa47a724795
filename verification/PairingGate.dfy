/** The response gate, and what an answered direct message proves about pairing (adapters/shuttle/src/gate.ts). */
module PairingGate {
  import opened Common
  import opened Pairing
  import opened PairingStores

  datatype ChatType = Dm | GroupChat | ChannelChat
  datatype DmPolicy = DmOpen | DmPairing | DmAllowlist
  datatype GroupPolicy = OnMention | AllMessages | GroupOff
  datatype Handoff = HandoffOff | OnRequest | OnSignal

  datatype LinePolicy = LinePolicy(
    dm: Option<DmPolicy>, group: Option<GroupPolicy>, allowlist: Option<seq<string>>, handoff: Option<Handoff>)

  datatype GateMessage = GateMessage(chatType: ChatType, chatId: string, userId: Option<string>, isMention: Option<bool>)

  datatype LlmAnswer = LlmThrows | LlmSays(respond: bool)

  /** What the injected dependencies answer for one message; `None` means the dependency is absent. */
  datatype Answers = Answers(paused: Option<bool>, llm: Option<LlmAnswer>)

  datatype DropReason = GroupPolicyOff | NotMentioned | NotInAllowlist | NoPairingStore | NotForUs

  datatype Disposition = AgentReply | CannedReply(text: string) | Drop(reason: DropReason) | DeferToHuman

  function Or<T>(o: Option<T>, default: T): T {
    if o.Some? then o.value else default
  }

  function Sender(msg: GateMessage): string {
    Or(msg.userId, msg.chatId)
  }

  function PairingInstructions(channel: string, code: string): string {
    "\U{1F511} Your pairing code: " + code + "\nAsk the owner to approve you:\n  ownware channel approve " + channel + " " + code
  }

  const ALREADY_PENDING := "You already have a pending pairing code \U{2014} ask the owner to approve it."

  predicate IsPaused(policy: LinePolicy, ans: Answers) {
    Or(policy.handoff, HandoffOff) != HandoffOff && ans.paused == Some(true)
  }

  /** The last stage: a cheap filter that never silences on its own failure. */
  function LlmStage(ans: Answers): Disposition {
    if ans.llm == Some(LlmSays(false)) then Drop(NotForUs) else AgentReply
  }

  /** A direct message under `dm: 'pairing'` from someone not approved asks the store for a code. */
  predicate AsksForCode(st: Store, channel: string, policy: LinePolicy, hasStore: bool, msg: GateMessage, ans: Answers) {
    && !IsPaused(policy, ans) && msg.chatType.Dm? && Or(policy.dm, DmOpen).DmPairing?
    && hasStore && Key(channel, Sender(msg)) !in st.approved
  }

  /** Group access; `None` lets the message pass. */
  function GroupStage(policy: LinePolicy, msg: GateMessage): Option<Disposition> {
    var group := Or(policy.group, OnMention);
    if group.GroupOff? then Some(Drop(GroupPolicyOff))
    else if group.OnMention? && msg.isMention != Some(true) then Some(Drop(NotMentioned))
    else None
  }

  /** What a sender who asked for a code is told. */
  function CodeReply(channel: string, r: RequestResult): Disposition {
    CannedReply(if r.Minted? then PairingInstructions(channel, r.code) else ALREADY_PENDING)
  }

  /** Pairing access: an unknown sender gets a code, or is told one is pending. */
  function PairingStage(cfg: Config, salt: string, st: Store, t: int, channel: string, userId: string, generated: string)
    : (Store, Option<Disposition>)
  {
    if Key(channel, userId) in st.approved then (st, None)
    else
      var (st', r) := RequestCode(cfg, salt, st, t, channel, userId, generated);
      (st', Some(CodeReply(channel, r)))
  }

  /** Direct-message access. */
  function DmStage(cfg: Config, salt: string, st: Store, t: int, channel: string, policy: LinePolicy, hasStore: bool,
                   userId: string, generated: string): (Store, Option<Disposition>)
  {
    match Or(policy.dm, DmOpen)
    case DmAllowlist => (st, if userId !in Or(policy.allowlist, []) then Some(Drop(NotInAllowlist)) else None)
    case DmPairing =>
      if !hasStore then (st, Some(Drop(NoPairingStore)))
      else PairingStage(cfg, salt, st, t, channel, userId, generated)
    case DmOpen => (st, None)
  }

  /** `evaluate`, on the store it finds and the code its generator would return. */
  function Judgement(cfg: Config, salt: string, st: Store, t: int, channel: string, policy: LinePolicy, hasStore: bool,
                     msg: GateMessage, ans: Answers, generated: string): (Store, Disposition)
  {
    if IsPaused(policy, ans) then (st, DeferToHuman)
    else
      var (st', stopped) := if msg.chatType.Dm? then DmStage(cfg, salt, st, t, channel, policy, hasStore, Sender(msg), generated)
                            else (st, GroupStage(policy, msg));
      (st', if stopped.Some? then stopped.value else LlmStage(ans))
  }

  class PolicyGate {
    const channel: string
    const policy: LinePolicy
    const pairing: InMemoryPairingStore?

    constructor (channel: string, policy: LinePolicy, pairing: InMemoryPairingStore?)
      ensures this.channel == channel && this.policy == policy && this.pairing == pairing
    {
      this.channel, this.policy, this.pairing := channel, policy, pairing;
    }

    method AskStore(store: InMemoryPairingStore, t: int, userId: string, generated: string) returns (stopped: Option<Disposition>)
      modifies store
      ensures (store.State(), stopped) == PairingStage(store.cfg, store.salt, old(store.State()), t, channel, userId, generated)
    {
      var approved := store.IsApproved(channel, userId);
      if approved { return None; }
      var r := store.RequestCode(t, channel, userId, generated);
      if r.Minted? { return Some(CannedReply(PairingInstructions(channel, r.code))); }
      stopped := Some(CannedReply(ALREADY_PENDING));
    }

    method DmAccess(t: int, userId: string, generated: string) returns (stopped: Option<Disposition>)
      modifies if pairing == null then {} else {pairing}
      ensures pairing != null ==>
                (pairing.State(), stopped) == DmStage(pairing.cfg, pairing.salt, old(pairing.State()), t, channel, policy, true,
                                                      userId, generated)
      ensures pairing == null ==>
                stopped == DmStage(Config(0, 0, 0, 0), "", EMPTY_STORE, t, channel, policy, false, userId, generated).1
    {
      stopped := None;
      var dm := if policy.dm.Some? then policy.dm.value else DmOpen;
      if dm.DmAllowlist? {
        if userId !in (if policy.allowlist.Some? then policy.allowlist.value else []) { return Some(Drop(NotInAllowlist)); }
      } else if dm.DmPairing? {
        if pairing == null { return Some(Drop(NoPairingStore)); }
        stopped := AskStore(pairing, t, userId, generated);
      }
    }

    method Evaluate(t: int, msg: GateMessage, ans: Answers, generated: string) returns (d: Disposition)
      modifies if pairing == null then {} else {pairing}
      ensures pairing != null ==>
                (pairing.State(), d) == Judgement(pairing.cfg, pairing.salt, old(pairing.State()), t, channel, policy, true,
                                                  msg, ans, generated)
      ensures pairing == null ==>
                d == Judgement(Config(0, 0, 0, 0), "", EMPTY_STORE, t, channel, policy, false, msg, ans, generated).1
    {
      if policy.handoff.Some? && policy.handoff.value != HandoffOff && ans.paused.Some? {
        if ans.paused.value { return DeferToHuman; }
      }
      if !msg.chatType.Dm? {
        var group := if policy.group.Some? then policy.group.value else OnMention;
        if group.GroupOff? { return Drop(GroupPolicyOff); }
        if group.OnMention? && msg.isMention != Some(true) { return Drop(NotMentioned); }
      } else {
        var stopped := DmAccess(t, if msg.userId.Some? then msg.userId.value else msg.chatId, generated);
        if stopped.Some? { return stopped.value; }
      }
      if ans.llm.Some? {
        var should := if ans.llm.value.LlmSays? then ans.llm.value.respond else true;
        if !should { return Drop(NotForUs); }
      }
      d := AgentReply;
    }
  }

  // ---- what is decided, said on the policy and the message --------------------

  ghost predicate WaitsForHuman(policy: LinePolicy, ans: Answers) {
    policy.handoff.Some? && policy.handoff.value != HandoffOff && ans.paused == Some(true)
  }

  /** The sender of a direct message: the user, or the chat where there is none. */
  ghost predicate IsSender(msg: GateMessage, sender: string) {
    msg.userId == Some(sender) || (msg.userId.None? && msg.chatId == sender)
  }

  /** A direct message passes on an open line, from a listed sender, or from one that the store has approved. */
  ghost predicate DmPasses(st: Store, channel: string, policy: LinePolicy, hasStore: bool, sender: string) {
    || policy.dm.None? || policy.dm == Some(DmOpen)
    || (policy.dm == Some(DmAllowlist) && policy.allowlist.Some? && sender in policy.allowlist.value)
    || (policy.dm == Some(DmPairing) && hasStore && channel + ":" + sender in st.approved)
  }

  /** A group message passes where all are answered, or where it mentions the agent and mentions are answered. */
  ghost predicate GroupPasses(policy: LinePolicy, msg: GateMessage) {
    || policy.group == Some(AllMessages)
    || ((policy.group.None? || policy.group == Some(OnMention)) && msg.isMention == Some(true))
  }

  ghost predicate Passes(st: Store, channel: string, policy: LinePolicy, hasStore: bool, msg: GateMessage, sender: string) {
    if msg.chatType == Dm then DmPasses(st, channel, policy, hasStore, sender) else GroupPasses(policy, msg)
  }

  /** Exactly when the agent answers, for every policy, message and store. */
  lemma AnswersIff(cfg: Config, salt: string, st: Store, t: int, channel: string, policy: LinePolicy, hasStore: bool,
                   msg: GateMessage, ans: Answers, generated: string, sender: string)
    requires IsSender(msg, sender)
    ensures Judgement(cfg, salt, st, t, channel, policy, hasStore, msg, ans, generated).1 == AgentReply <==>
              && !WaitsForHuman(policy, ans)
              && Passes(st, channel, policy, hasStore, msg, sender)
              && ans.llm != Some(LlmSays(false))
  {
  }

  /** What happens otherwise: a person takes over, a code is handed out or pending, or the message is dropped for its reason. */
  lemma RefusalIs(cfg: Config, salt: string, st: Store, t: int, channel: string, policy: LinePolicy, hasStore: bool,
                  msg: GateMessage, ans: Answers, generated: string, sender: string)
    requires IsSender(msg, sender)
    ensures var (st', d) := Judgement(cfg, salt, st, t, channel, policy, hasStore, msg, ans, generated);
            var asks := !WaitsForHuman(policy, ans) && msg.chatType == Dm && policy.dm == Some(DmPairing) && hasStore
                        && channel + ":" + sender !in st.approved;
            && (d == DeferToHuman <==> WaitsForHuman(policy, ans))
            && (d.CannedReply? <==> asks)
            && (st' == if asks then RequestCode(cfg, salt, st, t, channel, sender, generated).0 else st)
            && (d.Drop? && d.reason == NotForUs <==>
                  !WaitsForHuman(policy, ans) && Passes(st, channel, policy, hasStore, msg, sender) && ans.llm == Some(LlmSays(false)))
            && (!WaitsForHuman(policy, ans) && !asks && !Passes(st, channel, policy, hasStore, msg, sender) ==>
                  d == Drop(if msg.chatType != Dm then (if policy.group == Some(GroupOff) then GroupPolicyOff else NotMentioned)
                            else if policy.dm == Some(DmAllowlist) then NotInAllowlist else NoPairingStore))
  {
    hide RequestCode;
  }

  /** What an unknown sender is told: the code with the command that approves it, or, on cooldown, that one is pending. */
  lemma CodeReplyIs(cfg: Config, salt: string, st: Store, t: int, channel: string, userId: string, generated: string)
    requires channel + ":" + userId !in st.approved
    ensures var d := PairingStage(cfg, salt, st, t, channel, userId, generated).1;
            var key := channel + ":" + userId;
            d == Some(CannedReply(
              if key in st.lastRequest && t < st.lastRequest[key] + cfg.cooldownMs
              then "You already have a pending pairing code \U{2014} ask the owner to approve it."
              else "\U{1F511} Your pairing code: " + generated + "\nAsk the owner to approve you:\n  ownware channel approve "
                   + channel + " " + generated))
  {
    hide HashOf, Purge;
  }

  // ---- runs -------------------------------------------------------------------

  /**
   * One step on a shared store: a gate judges a message, or the owner enters a code. The gate awaits
   * between its look-up and its request, so a request may also come as a step of its own, after a
   * look-up that found nobody and that changed nothing.
   */
  datatype GateStep =
    | Judge(t: int, channel: string, policy: LinePolicy, msg: GateMessage, ans: Answers, generated: string)
    | Asks(t: int, channel: string, userId: string, generated: string)
    | OwnerApproves(t: int, channel: string, code: string)

  function Next(cfg: Config, salt: string, st: Store, step: GateStep): Store {
    match step
    case Judge(t, channel, policy, msg, ans, generated) =>
      Judgement(cfg, salt, st, t, channel, policy, true, msg, ans, generated).0
    case Asks(t, channel, userId, generated) => RequestCode(cfg, salt, st, t, channel, userId, generated).0
    case OwnerApproves(t, channel, code) => ApproveCode(cfg, salt, st, t, channel, code).0
  }

  /** The store after a run that starts from any store. */
  function From(cfg: Config, salt: string, st: Store, run: seq<GateStep>): Store {
    if run == [] then st else Next(cfg, salt, From(cfg, salt, st, run[..|run| - 1]), run[|run| - 1])
  }

  function After(cfg: Config, salt: string, run: seq<GateStep>): Store {
    From(cfg, salt, EMPTY_STORE, run)
  }

  /** Whom a code minted by this step is for. */
  function Asker(step: GateStep): string
    requires !step.OwnerApproves?
  {
    if step.Judge? then Sender(step.msg) else step.userId
  }

  /** Step `i` minted a code. */
  ghost predicate Mints(cfg: Config, salt: string, run: seq<GateStep>, i: nat)
    requires i < |run|
  {
    StepMints(cfg, After(cfg, salt, run[..i]), run[i])
  }

  /** Step `j` redeemed a code: the channel was not locked and the owner's code matched a live entry. */
  ghost predicate Redeems(cfg: Config, salt: string, run: seq<GateStep>, j: nat)
    requires j < |run|
  {
    StepRedeems(salt, After(cfg, salt, run[..j]), run[j])
  }

  ghost function RedeemedHash(salt: string, step: GateStep): string
    requires step.OwnerApproves?
  {
    HashOf(salt, step.channel, Normalize(step.code))
  }

  /** The pending entry under `x` was minted at `i` and not redeemed before step `n`. */
  ghost predicate MintedAt(cfg: Config, salt: string, run: seq<GateStep>, n: nat, x: string, e: Entry, i: nat)
    requires n <= |run|
  {
    && i < n && Mints(cfg, salt, run, i) && IsMintedEntry(cfg, salt, run[i], x, e)
    && forall j :: i < j < n && Redeems(cfg, salt, run, j) ==> RedeemedHash(salt, run[j]) != x
  }

  lemma AfterSnoc(cfg: Config, salt: string, run: seq<GateStep>, n: nat)
    requires n < |run|
    ensures After(cfg, salt, run[..n + 1]) == Next(cfg, salt, After(cfg, salt, run[..n]), run[n])
  {
    assert run[..n + 1][..n] == run[..n];
  }

  /** The entry a step on `st` mints, under its hash. */
  ghost predicate StepMints(cfg: Config, st: Store, step: GateStep) {
    && !step.OwnerApproves?
    && (step.Judge? ==> AsksForCode(st, step.channel, step.policy, true, step.msg, step.ans))
    && !OnCooldown(cfg, st, step.t, Key(step.channel, Asker(step)))
  }

  ghost predicate StepRedeems(salt: string, st: Store, step: GateStep) {
    && step.OwnerApproves? && !IsLocked(st, step.t, step.channel)
    && Redeemable(salt, st, step.t, step.channel, step.code).Some?
  }

  ghost predicate IsMintedEntry(cfg: Config, salt: string, step: GateStep, x: string, e: Entry) {
    && !step.OwnerApproves? && x == HashOf(salt, step.channel, step.generated)
    && e == Entry(step.channel, Asker(step), step.t + cfg.codeTtlMs)
  }

  /** A step adds at most the entry it mints and removes the entry it redeems. */
  lemma NextPending(cfg: Config, salt: string, st: Store, step: GateStep, x: string)
    requires x in Next(cfg, salt, st, step).pending
    ensures var st' := Next(cfg, salt, st, step);
            || (StepMints(cfg, st, step) && IsMintedEntry(cfg, salt, step, x, st'.pending[x]))
            || (&& x in st.pending && st.pending[x] == st'.pending[x]
                && (StepRedeems(salt, st, step) ==> RedeemedHash(salt, step) != x))
  {
  }

  /** Only a redemption approves anyone, and nothing withdraws an approval. */
  lemma NextApproved(cfg: Config, salt: string, st: Store, step: GateStep)
    ensures var st' := Next(cfg, salt, st, step);
            if StepRedeems(salt, st, step)
            then st'.approved == st.approved
                   + {Key(step.channel, Redeemable(salt, st, step.t, step.channel, step.code).value.userId)}
            else st'.approved == st.approved
  {
  }

  /** Every pending entry comes from a mint that no earlier approval consumed. */
  lemma {:induction false} PendingWasMinted(cfg: Config, salt: string, run: seq<GateStep>, n: nat, x: string) returns (i: nat)
    requires n <= |run| && x in After(cfg, salt, run[..n]).pending
    ensures MintedAt(cfg, salt, run, n, x, After(cfg, salt, run[..n]).pending[x], i)
    decreases n
  {
    hide Next, StepMints, IsMintedEntry;
    assert n > 0 by { assert run[..0] == []; }
    var st := After(cfg, salt, run[..n - 1]);
    AfterSnoc(cfg, salt, run, n - 1);
    NextPending(cfg, salt, st, run[n - 1], x);
    if StepMints(cfg, st, run[n - 1]) && IsMintedEntry(cfg, salt, run[n - 1], x, After(cfg, salt, run[..n]).pending[x]) {
      i := n - 1;
    } else {
      i := PendingWasMinted(cfg, salt, run, n - 1, x);
    }
  }

  /** The mint at `i` is the one that the approval at `j` consumed. */
  ghost predicate IsRedemptionOf(cfg: Config, salt: string, run: seq<GateStep>, i: nat, j: nat) {
    && i < j < |run| && Mints(cfg, salt, run, i) && Redeems(cfg, salt, run, j)
    && run[i].channel == run[j].channel
    && run[i].generated == Normalize(run[j].code)
    && run[j].t < run[i].t + cfg.codeTtlMs
    && ApproveCode(cfg, salt, After(cfg, salt, run[..j]), run[j].t, run[j].channel, run[j].code).1
       == ApproveResult(true, Some(Asker(run[i])), false)
    && (forall k :: i < k < j && Redeems(cfg, salt, run, k) ==>
          RedeemedHash(salt, run[k]) != HashOf(salt, run[i].channel, run[i].generated))
  }

  /** Every successful approval consumed a code minted earlier on that channel and not yet expired. */
  lemma RedemptionHasMint(cfg: Config, salt: string, run: seq<GateStep>, j: nat) returns (i: nat)
    requires j < |run| && Redeems(cfg, salt, run, j)
    ensures IsRedemptionOf(cfg, salt, run, i, j)
  {
    var x := RedeemedHash(salt, run[j]);
    i := PendingWasMinted(cfg, salt, run, j, x);
    HashInjectiveInCode(salt, run[i].channel, run[i].generated, Normalize(run[j].code));
  }

  /** Each minted code is consumed by at most one approval. */
  lemma RedeemedOnce(cfg: Config, salt: string, run: seq<GateStep>, i: nat, j1: nat, j2: nat)
    requires IsRedemptionOf(cfg, salt, run, i, j1) && IsRedemptionOf(cfg, salt, run, i, j2)
    ensures j1 == j2
  {
  }

  /** Approvals are never withdrawn. */
  lemma {:induction false} ApprovalsOnlyGrow(cfg: Config, salt: string, run: seq<GateStep>, m: nat, n: nat)
    requires m <= n <= |run|
    ensures After(cfg, salt, run[..m]).approved <= After(cfg, salt, run[..n]).approved
    decreases n
  {
    hide Next;
    if m < n {
      ApprovalsOnlyGrow(cfg, salt, run, m, n - 1);
      AfterSnoc(cfg, salt, run, n - 1);
      NextApproved(cfg, salt, After(cfg, salt, run[..n - 1]), run[n - 1]);
    }
  }

  /** Every approved key was put there by a redemption. */
  lemma {:induction false} ApprovedWasRedeemed(cfg: Config, salt: string, run: seq<GateStep>, n: nat, key: string) returns (j: nat)
    requires n <= |run| && key in After(cfg, salt, run[..n]).approved
    ensures j < n && Redeems(cfg, salt, run, j)
    ensures key == Key(run[j].channel, Redeemable(salt, After(cfg, salt, run[..j]), run[j].t, run[j].channel, run[j].code).value.userId)
    decreases n
  {
    hide Next, Redeemable;
    assert n > 0 by { assert run[..0] == []; }
    AfterSnoc(cfg, salt, run, n - 1);
    NextApproved(cfg, salt, After(cfg, salt, run[..n - 1]), run[n - 1]);
    if key in After(cfg, salt, run[..n - 1]).approved {
      j := ApprovedWasRedeemed(cfg, salt, run, n - 1, key);
    } else {
      j := n - 1;
    }
  }

  /** Step `n` answers a direct message with the agent on a line that requires pairing. */
  ghost predicate AnswersDm(cfg: Config, salt: string, run: seq<GateStep>, n: nat)
    requires n < |run|
  {
    && run[n].Judge? && run[n].msg.chatType.Dm? && Or(run[n].policy.dm, DmOpen).DmPairing?
    && Judgement(cfg, salt, After(cfg, salt, run[..n]), run[n].t, run[n].channel, run[n].policy, true,
                run[n].msg, run[n].ans, run[n].generated).1 == AgentReply
  }

  /** No channel on which the owner approves shares keys with `channel`. */
  ghost predicate NoClash(run: seq<GateStep>, channel: string) {
    forall j :: 0 <= j < |run| && run[j].OwnerApproves? ==> !Clash(channel, run[j].channel)
  }

  /**
   * An answered direct message on a pairing line was preceded by a code minted for that very
   * sender and channel, redeemed once, before its expiry, while the channel was not locked.
   */
  lemma AnsweredDmWasPaired(cfg: Config, salt: string, run: seq<GateStep>, n: nat) returns (i: nat, j: nat)
    requires n < |run| && AnswersDm(cfg, salt, run, n) && NoClash(run, run[n].channel)
    ensures j < n && IsRedemptionOf(cfg, salt, run, i, j)
    ensures run[i].channel == run[n].channel && Asker(run[i]) == Sender(run[n].msg)
  {
    j := ApprovedWasRedeemed(cfg, salt, run, n, Key(run[n].channel, Sender(run[n].msg)));
    i := RedemptionHasMint(cfg, salt, run, j);
    KeyIdentifies(run[n].channel, Sender(run[n].msg), run[j].channel, Asker(run[i]));
  }

  /** The code minted at `i` and redeemed at `j` belongs to the sender and channel of step `n`. */
  ghost predicate PairsSender(cfg: Config, salt: string, run: seq<GateStep>, i: nat, j: nat, n: nat)
    requires n < |run| && run[n].Judge?
  {
    && j < n && IsRedemptionOf(cfg, salt, run, i, j)
    && run[i].channel == run[n].channel && Asker(run[i]) == Sender(run[n].msg)
  }

  /** Before step `n` its sender redeemed a code minted for them on that channel. */
  ghost predicate WasPaired(cfg: Config, salt: string, run: seq<GateStep>, n: nat)
    requires n < |run| && run[n].Judge?
  {
    exists i: nat, j: nat :: PairsSender(cfg, salt, run, i, j, n)
  }

  /** A redemption approves the sender the code was minted for. */
  lemma RedemptionApproves(cfg: Config, salt: string, run: seq<GateStep>, i: nat, j: nat)
    requires IsRedemptionOf(cfg, salt, run, i, j)
    ensures Key(run[i].channel, Asker(run[i])) in After(cfg, salt, run[..j + 1]).approved
  {
    AfterSnoc(cfg, salt, run, j);
  }

  /** Once redeemed, a sender is answered from then on. */
  lemma PairedIsApproved(cfg: Config, salt: string, run: seq<GateStep>, n: nat)
    requires n < |run| && run[n].Judge? && WasPaired(cfg, salt, run, n)
    ensures Key(run[n].channel, Sender(run[n].msg)) in After(cfg, salt, run[..n]).approved
  {
    hide After, IsRedemptionOf, Mints, Redeems, ApproveCode;
    var i: nat, j: nat :| PairsSender(cfg, salt, run, i, j, n);
    RedemptionApproves(cfg, salt, run, i, j);
    ApprovalsOnlyGrow(cfg, salt, run, j + 1, n);
  }

  /** On a pairing line the agent answers a direct message exactly when its sender was paired before and nothing else holds it back. */
  lemma AnsweredIffPaired(cfg: Config, salt: string, run: seq<GateStep>, n: nat)
    requires n < |run| && run[n].Judge? && run[n].msg.chatType.Dm? && Or(run[n].policy.dm, DmOpen).DmPairing?
    requires NoClash(run, run[n].channel)
    ensures AnswersDm(cfg, salt, run, n) <==>
              && WasPaired(cfg, salt, run, n)
              && !IsPaused(run[n].policy, run[n].ans) && run[n].ans.llm != Some(LlmSays(false))
  {
    hide IsRedemptionOf, After, NoClash, RequestCode;
    if WasPaired(cfg, salt, run, n) { PairedIsApproved(cfg, salt, run, n); }
    if AnswersDm(cfg, salt, run, n) {
      var i, j := AnsweredDmWasPaired(cfg, salt, run, n);
      assert PairsSender(cfg, salt, run, i, j, n);
    }
  }

  const PAIRING_LINE := LinePolicy(Some(DmPairing), None, None, None)

  function DmFrom(userId: string): GateMessage {
    GateMessage(Dm, userId, Some(userId), None)
  }

  /** A sender of `other` pairs with `code`, then a sender of `channel` writes. */
  function SharedKeyRun(other: string, v: string, code: string, channel: string, w: string): seq<GateStep> {
    [Judge(0, other, PAIRING_LINE, DmFrom(v), Answers(None, None), code),
     OwnerApproves(0, other, code),
     Judge(0, channel, PAIRING_LINE, DmFrom(w), Answers(None, None), code)]
  }

  /** Every step the owner takes is on `channel`. */
  ghost predicate ApprovesOnlyOn(run: seq<GateStep>, channel: string) {
    forall j :: 0 <= j < |run| && run[j].OwnerApproves? ==> run[j].channel == channel
  }

  /** Step `n` answers a direct message of someone who was never paired on that channel. */
  ghost predicate AnswersUnpaired(cfg: Config, salt: string, run: seq<GateStep>, n: nat) {
    n < |run| && AnswersDm(cfg, salt, run, n) && !WasPaired(cfg, salt, run, n)
  }

  /** The store after the first two steps of the run. */
  lemma SharedKeyIsApproved(cfg: Config, salt: string, other: string, v: string, code: string, channel: string, w: string)
    requires cfg.codeTtlMs > 0 && Normalize(code) == code
    ensures Key(other, v) in After(cfg, salt, SharedKeyRun(other, v, code, channel, w)[..2]).approved
  {
    hide Normalize;
    var run := SharedKeyRun(other, v, code, channel, w);
    assert run[..0] == [];
    AfterSnoc(cfg, salt, run, 0);
    AfterSnoc(cfg, salt, run, 1);
    var s1, h := After(cfg, salt, run[..1]), HashOf(salt, other, code);
    assert s1 == RequestCode(cfg, salt, EMPTY_STORE, 0, other, v, code).0;
    assert h in s1.pending && s1.pending[h] == Entry(other, v, cfg.codeTtlMs);
  }

  /** Whoever shares a key with someone paired on another channel is answered without being paired. */
  lemma SharedKeyAnswersUnpaired(cfg: Config, salt: string, other: string, v: string, code: string, channel: string, w: string)
    requires cfg.codeTtlMs > 0 && Normalize(code) == code && other != channel && Key(other, v) == Key(channel, w)
    ensures AnswersUnpaired(cfg, salt, SharedKeyRun(other, v, code, channel, w), 2)
  {
    hide After, Normalize, IsRedemptionOf, RequestCode;
    var run := SharedKeyRun(other, v, code, channel, w);
    SharedKeyIsApproved(cfg, salt, other, v, code, channel, w);
    if WasPaired(cfg, salt, run, 2) {
      var i: nat, j: nat :| PairsSender(cfg, salt, run, i, j, 2);
      RedeemedFirst(cfg, salt, run, i, j);
    }
  }

  lemma RedeemedFirst(cfg: Config, salt: string, run: seq<GateStep>, i: nat, j: nat)
    requires IsRedemptionOf(cfg, salt, run, i, j) && |run| == 3 && run[1].OwnerApproves? && j < 2
    ensures i == 0
  {
  }

  /** Clashing channel names have senders that share a key. */
  lemma ClashSharesKey(other: string, channel: string) returns (v: string, w: string)
    requires Clash(channel, other)
    ensures Key(other, v) == Key(channel, w)
  {
    KeysClashIff(other, channel);
    v, w :| Key(other, v) == Key(channel, w);
  }

  /**
   * Exactly when approvals on one channel let someone through on another without pairing: iff the
   * two channel names clash.
   */
  lemma UnpairedAnswerIff(cfg: Config, salt: string, channel: string, other: string)
    requires cfg.codeTtlMs > 0
    ensures (exists run: seq<GateStep>, n: nat ::
               AnswersUnpaired(cfg, salt, run, n) && ApprovesOnlyOn(run, other) && run[n].channel == channel)
            <==> Clash(channel, other)
  {
    hide After, Judgement, WasPaired, IsRedemptionOf;
    if run: seq<GateStep>, n: nat :| AnswersUnpaired(cfg, salt, run, n) && ApprovesOnlyOn(run, other) && run[n].channel == channel {
      if !Clash(channel, other) {
        AnsweredIffPaired(cfg, salt, run, n);
      }
    }
    if Clash(channel, other) {
      var v, w := ClashSharesKey(other, channel);
      GeneratedCodeIsNormal("A");
      SharedKeyAnswersUnpaired(cfg, salt, other, v, "A", channel, w);
      assert ApprovesOnlyOn(SharedKeyRun(other, v, "A", channel, w), other);
    }
  }

  // ---- the gate on a file -----------------------------------------------------

  /** A request on a file and what its sender is told. */
  function FileRequest(cfg: Config, file: File, t: int, channel: string, userId: string, generated: string, newSalt: string)
    : (File, Disposition)
  {
    var (file', r) := FileApply(cfg, file, t, Request(channel, userId, generated), newSalt);
    (file', CodeReply(channel, if r == Requested(Minted(generated)) then Minted(generated) else RateLimited))
  }

  /** The pairing stage on a file: a look-up, then a request for an unknown sender. */
  function FilePairingStage(cfg: Config, file: File, t: int, channel: string, userId: string, generated: string, newSalt: string)
    : (File, Option<Disposition>)
  {
    if FileApply(cfg, file, t, IsApproved(channel, userId), newSalt).1 == Known(true) then (file, None)
    else
      var (file', d) := FileRequest(cfg, file, t, channel, userId, generated, newSalt);
      (file', Some(d))
  }

  /** What a step shows: the gate's disposition, or what the owner is told. */
  datatype Shown = Judged(d: Disposition) | Entered(r: ApproveResult)

  /** One step on a file; messages that are not pairing matters never reach it. */
  function FileNext(cfg: Config, file: File, step: GateStep, newSalt: string): (File, Shown) {
    match step
    case OwnerApproves(t, channel, code) =>
      var (file', r) := FileApply(cfg, file, t, Approve(channel, code), newSalt);
      (file', Entered(if r.Decided? then r.d else ApproveResult(false, None, false)))
    case Asks(t, channel, userId, generated) =>
      var (file', d) := FileRequest(cfg, file, t, channel, userId, generated, newSalt);
      (file', Judged(d))
    case Judge(t, channel, policy, msg, ans, generated) =>
      if IsPaused(policy, ans) then (file, Judged(DeferToHuman))
      else if msg.chatType.Dm? && Or(policy.dm, DmOpen).DmPairing? then
        var (file', stopped) := FilePairingStage(cfg, file, t, channel, Sender(msg), generated, newSalt);
        (file', Judged(if stopped.Some? then stopped.value else LlmStage(ans)))
      else
        (file, Judged(Judgement(cfg, "", EMPTY_STORE, t, channel, policy, true, msg, ans, generated).1))
  }

  function FileGateAfter(cfg: Config, file: File, run: seq<GateStep>, salts: nat -> string): File {
    if run == [] then file
    else FileNext(cfg, FileGateAfter(cfg, file, run[..|run| - 1], salts), run[|run| - 1], salts(|run| - 1)).0
  }

  function ShownOn(cfg: Config, salt: string, st: Store, step: GateStep): Shown {
    match step
    case OwnerApproves(t, channel, code) => Entered(ApproveCode(cfg, salt, st, t, channel, code).1)
    case Asks(t, channel, userId, generated) =>
      Judged(CodeReply(channel, RequestCode(cfg, salt, st, t, channel, userId, generated).1))
    case Judge(t, channel, policy, msg, ans, generated) =>
      Judged(Judgement(cfg, salt, st, t, channel, policy, true, msg, ans, generated).1)
  }

  /** A judgement that asks for a code is a look-up that changes nothing and then the request; any other leaves the store alone. */
  lemma JudgeIsLookThenAsk(cfg: Config, salt: string, st: Store, step: GateStep)
    requires step.Judge?
    ensures var ask := Asks(step.t, step.channel, Sender(step.msg), step.generated);
            if AsksForCode(st, step.channel, step.policy, true, step.msg, step.ans) then
              Next(cfg, salt, st, step) == Next(cfg, salt, st, ask) && ShownOn(cfg, salt, st, step) == ShownOn(cfg, salt, st, ask)
            else Next(cfg, salt, st, step) == st
  {
  }

  lemma FileStageAgrees(cfg: Config, file: File, salt: string, st: Store, t: int, channel: string, userId: string,
                        generated: string, newSalt: string)
    requires Agree(file, salt, st) && newSalt != ""
    ensures FilePairingStage(cfg, file, t, channel, userId, generated, newSalt).1
            == PairingStage(cfg, salt, st, t, channel, userId, generated).1
    ensures Agree(FilePairingStage(cfg, file, t, channel, userId, generated, newSalt).0, salt,
                  PairingStage(cfg, salt, st, t, channel, userId, generated).0)
  {
    hide FileApply, Agree, CodeReply, FileRequest;
    FileStepAgrees(cfg, file, salt, st, t, IsApproved(channel, userId), newSalt);
    FileRequestAgrees(cfg, file, salt, st, t, channel, userId, generated, newSalt);
  }

  lemma FileRequestAgrees(cfg: Config, file: File, salt: string, st: Store, t: int, channel: string, userId: string,
                          generated: string, newSalt: string)
    requires Agree(file, salt, st) && newSalt != ""
    ensures var (file', d), (st', r) := FileRequest(cfg, file, t, channel, userId, generated, newSalt),
                                        RequestCode(cfg, salt, st, t, channel, userId, generated);
            d == CodeReply(channel, r) && Agree(file', salt, st')
  {
    hide FileApply, Agree, CodeReply;
    FileStepAgrees(cfg, file, salt, st, t, Request(channel, userId, generated), newSalt);
  }

  /** One step shows the same on the file as in memory. */
  lemma FileNextAgrees(cfg: Config, file: File, salt: string, st: Store, step: GateStep, newSalt: string)
    requires Agree(file, salt, st) && newSalt != ""
    ensures FileNext(cfg, file, step, newSalt).1 == ShownOn(cfg, salt, st, step)
    ensures Agree(FileNext(cfg, file, step, newSalt).0, salt, Next(cfg, salt, st, step))
  {
    hide FileApply, Agree, FilePairingStage, PairingStage, ApproveCode, LlmStage, FileRequest, RequestCode;
    match step
    case Asks(t, channel, userId, generated) => FileRequestAgrees(cfg, file, salt, st, t, channel, userId, generated, newSalt);
    case OwnerApproves(t, channel, code) => FileStepAgrees(cfg, file, salt, st, t, Approve(channel, code), newSalt);
    case Judge(t, channel, policy, msg, ans, generated) =>
      FileStageAgrees(cfg, file, salt, st, t, channel, Sender(msg), generated, newSalt);
  }

  /**
   * A gate on the shared file and the owner's separate process show, step by step, what they would
   * on one in-memory store.
   */
  lemma {:induction false} FileGateAgrees(cfg: Config, file: File, salt: string, run: seq<GateStep>, salts: nat -> string, n: nat)
    requires n <= |run| && !Readable(file) && forall i: nat :: salts(i) != ""
    ensures Agree(FileGateAfter(cfg, file, run[..n], salts), salt, After(cfg, salt, run[..n]))
    ensures n < |run| ==> FileNext(cfg, FileGateAfter(cfg, file, run[..n], salts), run[n], salts(n)).1
                          == ShownOn(cfg, salt, After(cfg, salt, run[..n]), run[n])
    decreases n
  {
    hide FileNext, Next, ShownOn;
    assert run[..0] == [];
    if n > 0 {
      FileGateAgrees(cfg, file, salt, run, salts, n - 1);
      AfterSnoc(cfg, salt, run, n - 1);
      assert run[..n][..n - 1] == run[..n - 1];
      FileNextAgrees(cfg, FileGateAfter(cfg, file, run[..n - 1], salts), salt, After(cfg, salt, run[..n - 1]), run[n - 1], salts(n - 1));
    }
    if n < |run| {
      FileNextAgrees(cfg, FileGateAfter(cfg, file, run[..n], salts), salt, After(cfg, salt, run[..n]), run[n], salts(n));
    }
  }

  /** On the shared file, too, a direct message on a pairing line is answered exactly when its sender was paired before. */
  lemma FileAnsweredIffPaired(cfg: Config, file: File, salt: string, run: seq<GateStep>, salts: nat -> string, n: nat)
    requires n < |run| && run[n].Judge? && run[n].msg.chatType.Dm? && Or(run[n].policy.dm, DmOpen).DmPairing?
    requires NoClash(run, run[n].channel) && !Readable(file) && forall i: nat :: salts(i) != ""
    ensures FileNext(cfg, FileGateAfter(cfg, file, run[..n], salts), run[n], salts(n)).1 == Judged(AgentReply) <==>
              && WasPaired(cfg, salt, run, n)
              && !IsPaused(run[n].policy, run[n].ans) && run[n].ans.llm != Some(LlmSays(false))
  {
    hide FileNext, FileGateAfter, After, WasPaired, NoClash, Judgement;
    FileGateAgrees(cfg, file, salt, run, salts, n);
    AnsweredIffPaired(cfg, salt, run, n);
  }
}

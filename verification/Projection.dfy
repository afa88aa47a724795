/** Fail-closed selectors over unordered evidence (packages/ui/src/projection.ts). */
module Projection {
  import opened Common
  import opened Resources
  import opened Bags

  datatype ViewState = ViewUnavailable | ViewLoading | ViewPartial | ViewIncompatible | ViewErrored | ViewUnsupported

  datatype Blocked = Blocked(state: ViewState, reason: string)

  /** A number that is not a safe positive integer is represented by 0. */
  predicate IsPositiveSequence(n: int) {
    0 < n <= MAX_SAFE_INTEGER
  }

  /** A time that is not a safe natural number is represented by -1. */
  predicate IsTimestamp(t: int) {
    0 <= t <= MAX_SAFE_INTEGER
  }

  function ResourceBlocked<T>(r: Resource<T>): Blocked
    requires !r.Ready?
  {
    match r
    case Unavailable(reason) => Blocked(ViewUnavailable, reason)
    case Loading => Blocked(ViewLoading, "resource_loading")
    case Partial(_, reason) => Blocked(ViewPartial, reason)
    case Incompatible(reason) => Blocked(ViewIncompatible, reason)
    case Errored(reason) => Blocked(ViewErrored, reason)
    case Unsupported(reason) => Blocked(ViewUnsupported, reason)
  }

  // ---- capabilities -----------------------------------------------------------

  datatype Capability = Capability(id: string, version: int)

  datatype Support = Supported(observedVersion: int) | NotSupported(why: Blocked)

  predicate IsCapability(c: Capability) {
    c.id != "" && IsPositiveSequence(c.version)
  }

  function Larger(v: Option<int>, n: int): Option<int> {
    if v.None? || n > v.value then Some(n) else v
  }

  /** The highest version published under an id. */
  function ObservedVersion(caps: seq<Capability>, id: string): Option<int> {
    if caps == [] then None
    else
      var rest, last := ObservedVersion(caps[..|caps| - 1], id), caps[|caps| - 1];
      if last.id == id then Larger(rest, last.version) else rest
  }

  method FindObservedVersion(caps: seq<Capability>, id: string) returns (v: Option<int>)
    ensures v == ObservedVersion(caps, id)
  {
    v := None;
    for i := 0 to |caps|
      invariant v == ObservedVersion(caps[..i], id)
    {
      assert caps[..i + 1][..i] == caps[..i];
      if caps[i].id != id { continue; }
      if v.None? || caps[i].version > v.value { v := Some(caps[i].version); }
    }
    assert caps[..|caps|] == caps;
  }

  function SelectCapabilitySupport(caps: Resource<seq<Capability>>, id: string, minVersion: int): Support {
    if id == "" || !IsPositiveSequence(minVersion) then NotSupported(Blocked(ViewUnsupported, "malformed_capability_requirement"))
    else if !caps.Ready? then NotSupported(ResourceBlocked(caps))
    else if !All(caps.value, IsCapability) then NotSupported(Blocked(ViewUnsupported, "malformed_capability_set"))
    else
      var v := ObservedVersion(caps.value, id);
      if v.None? then NotSupported(Blocked(ViewUnavailable, "capability_absent"))
      else if v.value < minVersion then NotSupported(Blocked(ViewIncompatible, "capability_version_too_old"))
      else Supported(v.value)
  }

  ghost predicate IsHighest(caps: seq<Capability>, id: string, v: Option<int>) {
    if v.None? then forall c :: c in caps ==> c.id != id
    else Capability(id, v.value) in caps && forall c :: c in caps && c.id == id ==> c.version <= v.value
  }

  lemma {:induction false} ObservedIsHighest(caps: seq<Capability>, id: string)
    ensures IsHighest(caps, id, ObservedVersion(caps, id))
  {
    if caps != [] {
      var front, last := caps[..|caps| - 1], caps[|caps| - 1];
      ObservedIsHighest(front, id);
      assert forall c :: c in caps <==> c in front || c == last;
    }
  }

  /** The order of published capabilities does not matter. */
  lemma CapabilityOrderDoesNotMatter(xs: seq<Capability>, ys: seq<Capability>, id: string, minVersion: int)
    requires multiset(xs) == multiset(ys)
    ensures SelectCapabilitySupport(Ready(xs), id, minVersion) == SelectCapabilitySupport(Ready(ys), id, minVersion)
  {
    AllIsBagProperty(xs, ys, IsCapability);
    ObservedIsHighest(xs, id);
    ObservedIsHighest(ys, id);
    assert forall c :: c in xs <==> c in multiset(xs);
    assert forall c :: c in ys <==> c in multiset(ys);
    var a, b := ObservedVersion(xs, id), ObservedVersion(ys, id);
    if a.Some? { assert Capability(id, a.value) in ys; }
    if b.Some? { assert Capability(id, b.value) in xs; }
  }

  // ---- effects ----------------------------------------------------------------

  datatype Consequence = NoneObserved | OutputObserved | EffectPossible | EffectConfirmed | UnknownConsequence
  datatype EffectKind = IntentObserved | OutcomeObserved | AuthorityConfirmed | Reconciliation | UnknownKind
  datatype EffectOutcome = Pending | Succeeded | Failed | Denied | OutcomeUnknown | UnknownOutcome
  datatype Authority = Runtime | EffectObserver | Reconciler | UnknownAuthority
  datatype Lifecycle = Running | Done | Error | UnknownLifecycle

  datatype EffectReceipt = EffectReceipt(
    receiptId: string, sequence: int, effectId: string, runId: string, toolCallId: string, toolName: string,
    kind: EffectKind, outcome: EffectOutcome, consequence: Consequence,
    authorityKind: Authority, authorityRef: string, observedAt: int)

  function Rank(c: Consequence): int {
    match c
    case NoneObserved => 0
    case OutputObserved => 1
    case EffectPossible => 2
    case EffectConfirmed => 3
    case UnknownConsequence => -1
  }

  predicate IsEffectReceipt(r: EffectReceipt) {
    && r.receiptId != "" && IsPositiveSequence(r.sequence) && r.effectId != "" && r.runId != ""
    && r.toolCallId != "" && r.toolName != "" && !r.kind.UnknownKind? && !r.outcome.UnknownOutcome?
    && !r.consequence.UnknownConsequence? && !r.authorityKind.UnknownAuthority?
    && r.authorityRef != "" && IsTimestamp(r.observedAt)
    && (match r.kind
        case IntentObserved => r.outcome.Pending? && r.consequence.NoneObserved? && r.authorityKind.Runtime?
        case Reconciliation => r.outcome.OutcomeUnknown? && r.consequence.EffectPossible? && r.authorityKind.Reconciler?
        case AuthorityConfirmed => r.consequence.EffectConfirmed? && r.authorityKind.EffectObserver?
        case _ => !r.consequence.EffectConfirmed? && !r.authorityKind.Reconciler?)
  }

  function EffectId(r: EffectReceipt): string { r.receiptId }
  function EffectSeq(r: EffectReceipt): int { r.sequence }
  function EffectInRun(runId: string): EffectReceipt -> bool { (r: EffectReceipt) => r.runId == runId }
  function ForCall(toolCallId: string): EffectReceipt -> bool { (r: EffectReceipt) => r.toolCallId == toolCallId }

  datatype ToolEffect = EffectBlocked(why: Blocked) | NotObserved(lifecycle: Lifecycle) | Observed(lifecycle: Lifecycle, receipt: EffectReceipt)

  predicate EffectSetOk(xs: seq<EffectReceipt>, runId: string) {
    All(xs, IsEffectReceipt) && All(xs, EffectInRun(runId)) && !HasDup(xs, EffectId, EffectSeq)
  }

  /** One effect, whose consequence never falls. */
  predicate IsConsistent(matching: seq<EffectReceipt>) {
    && (forall i :: 0 <= i < |matching| ==> matching[i].effectId == matching[0].effectId)
    && (forall i :: 0 < i < |matching| ==> Rank(matching[i - 1].consequence) <= Rank(matching[i].consequence))
  }

  /** The rank check: one pass that remembers the previous rank. */
  method CheckRanks(matching: seq<EffectReceipt>) returns (ok: bool)
    requires matching != [] && forall i :: 0 <= i < |matching| ==> Rank(matching[i].consequence) >= 0
    ensures ok == IsConsistent(matching)
  {
    var effectId, previousRank := matching[0].effectId, -1;
    for i := 0 to |matching|
      invariant forall k :: 0 <= k < i ==> matching[k].effectId == effectId
      invariant forall k :: 0 < k < i ==> Rank(matching[k - 1].consequence) <= Rank(matching[k].consequence)
      invariant previousRank == if i == 0 then -1 else Rank(matching[i - 1].consequence)
    {
      var rank := Rank(matching[i].consequence);
      if matching[i].effectId != effectId || rank < previousRank { return false; }
      previousRank := rank;
    }
    ok := true;
  }

  function SelectToolEffect(caps: Resource<seq<Capability>>, receipts: Resource<seq<EffectReceipt>>, runId: string,
                                  toolCallId: string, lifecycle: Lifecycle): ToolEffect {
    var support := SelectCapabilitySupport(caps, "runs.effects.read", 1);
    if support.NotSupported? then EffectBlocked(support.why)
    else if !receipts.Ready? then EffectBlocked(ResourceBlocked(receipts))
    else if runId == "" || toolCallId == "" || lifecycle.UnknownLifecycle? || !EffectSetOk(receipts.value, runId) then
      EffectBlocked(Blocked(ViewUnsupported, "malformed_effect_receipt_set"))
    else
      var matching := SortBy(Filter(receipts.value, ForCall(toolCallId)), EffectSeq);
      if matching == [] then NotObserved(lifecycle)
      else if !IsConsistent(matching) then EffectBlocked(Blocked(ViewUnsupported, "conflicting_effect_receipts"))
      else Observed(lifecycle, matching[|matching| - 1])
  }

  /** The order in which effect receipts arrived does not matter. */
  lemma EffectOrderDoesNotMatter(caps: Resource<seq<Capability>>, xs: seq<EffectReceipt>, ys: seq<EffectReceipt>, runId: string,
                                 toolCallId: string, lifecycle: Lifecycle)
    requires multiset(xs) == multiset(ys)
    ensures SelectToolEffect(caps, Ready(xs), runId, toolCallId, lifecycle)
            == SelectToolEffect(caps, Ready(ys), runId, toolCallId, lifecycle)
  {
    hide All, HasDup, SortBy, Filter, IsUnique, IsConsistent, SelectCapabilitySupport;
    AllIsBagProperty(xs, ys, IsEffectReceipt);
    AllIsBagProperty(xs, ys, EffectInRun(runId));
    DupIsBagProperty(xs, EffectId, EffectSeq);
    DupIsBagProperty(ys, EffectId, EffectSeq);
    if !HasDup(xs, EffectId, EffectSeq) {
      SortedSelection(xs, ys, ForCall(toolCallId), EffectId, EffectSeq);
    }
  }

  lemma {:induction false} RanksClimb(matching: seq<EffectReceipt>, i: nat, j: nat)
    requires IsConsistent(matching) && i <= j < |matching|
    ensures Rank(matching[i].consequence) <= Rank(matching[j].consequence)
    decreases j
  {
    if i < j { RanksClimb(matching, i, j - 1); }
  }

  /** A reported effect carries the newest receipt of its call and the gravest consequence of any. */
  lemma ObservedEffectIsLatestAndGravest(caps: Resource<seq<Capability>>, xs: seq<EffectReceipt>, runId: string,
                                         toolCallId: string, lifecycle: Lifecycle, r: EffectReceipt)
    requires SelectToolEffect(caps, Ready(xs), runId, toolCallId, lifecycle).Observed?
    requires r in xs && r.toolCallId == toolCallId
    ensures var best := SelectToolEffect(caps, Ready(xs), runId, toolCallId, lifecycle).receipt;
            && best in xs && best.toolCallId == toolCallId && best.runId == runId
            && r.sequence <= best.sequence && Rank(r.consequence) <= Rank(best.consequence) && r.effectId == best.effectId
  {
    hide HasDup, SortBy, Filter, SelectCapabilitySupport;
    var chosen := Filter(xs, ForCall(toolCallId));
    var matching := SortBy(chosen, EffectSeq);
    SortBySorts(chosen, EffectSeq);
    var best := matching[|matching| - 1];
    assert best in multiset(matching) && best in chosen;
    FilterMember(xs, ForCall(toolCallId), best);
    FilterMember(xs, ForCall(toolCallId), r);
    assert r in multiset(matching);
    var i :| 0 <= i < |matching| && matching[i] == r;
    RanksClimb(matching, i, |matching| - 1);
    var k :| 0 <= k < |xs| && xs[k] == best;
    assert EffectInRun(runId)(xs[k]);
  }

  /** A confirmed effect comes only from an authority's confirmation by an effect observer. */
  lemma ConfirmedMeansObserved(caps: Resource<seq<Capability>>, xs: seq<EffectReceipt>, runId: string,
                               toolCallId: string, lifecycle: Lifecycle)
    requires SelectToolEffect(caps, Ready(xs), runId, toolCallId, lifecycle).Observed?
    ensures var best := SelectToolEffect(caps, Ready(xs), runId, toolCallId, lifecycle).receipt;
            best.consequence.EffectConfirmed? <==> best.kind.AuthorityConfirmed? && best.authorityKind.EffectObserver?
  {
    hide HasDup, SortBy, Filter, SelectCapabilitySupport;
    var chosen := Filter(xs, ForCall(toolCallId));
    SortBySorts(chosen, EffectSeq);
    var matching := SortBy(chosen, EffectSeq);
    var best := matching[|matching| - 1];
    assert best in multiset(matching) && best in chosen;
    FilterMember(xs, ForCall(toolCallId), best);
    var k :| 0 <= k < |xs| && xs[k] == best;
    assert IsEffectReceipt(xs[k]);
  }

  // ---- egress and skills ------------------------------------------------------

  datatype EgressMode = Unrestricted | LocalOnly | UnknownMode

  /** `fieldsOk` stands for the guards on the fields that no other rule reads. */
  datatype EgressReceipt = EgressReceipt(receiptId: string, sequence: int, runId: string, mode: EgressMode, fieldsOk: bool)

  datatype RunSnapshot = RunSnapshot(runId: string, egressMode: EgressMode)

  datatype Egress = EgressBlocked(why: Blocked) | EgressReady(mode: EgressMode, observations: seq<EgressReceipt>)

  predicate IsEgressReceipt(r: EgressReceipt) {
    r.receiptId != "" && IsPositiveSequence(r.sequence) && r.runId != "" && !r.mode.UnknownMode? && r.fieldsOk
  }

  function EgressId(r: EgressReceipt): string { r.receiptId }
  function EgressSeq(r: EgressReceipt): int { r.sequence }
  function EgressOf(s: RunSnapshot): EgressReceipt -> bool { (r: EgressReceipt) => r.runId == s.runId && r.mode == s.egressMode }

  function SelectEgress(caps: Resource<seq<Capability>>, snapshot: Resource<RunSnapshot>, receipts: Resource<seq<EgressReceipt>>): Egress {
    var a, b := SelectCapabilitySupport(caps, "runs.snapshot", 5), SelectCapabilitySupport(caps, "runs.egress.read", 1);
    if a.NotSupported? then EgressBlocked(a.why)
    else if b.NotSupported? then EgressBlocked(b.why)
    else if !snapshot.Ready? then EgressBlocked(ResourceBlocked(snapshot))
    else if !receipts.Ready? then EgressBlocked(ResourceBlocked(receipts))
    else
      var s, xs := snapshot.value, receipts.value;
      if s.runId == "" || s.egressMode.UnknownMode? || !All(xs, IsEgressReceipt) || !All(xs, EgressOf(s)) || HasDup(xs, EgressId, EgressSeq)
      then EgressBlocked(Blocked(ViewUnsupported, "malformed_egress_evidence"))
      else EgressReady(s.egressMode, SortBy(xs, EgressSeq))
  }

  /** Egress evidence is the whole receipt set in sequence order, whatever order it arrived in. */
  lemma EgressOrderDoesNotMatter(caps: Resource<seq<Capability>>, snapshot: Resource<RunSnapshot>, xs: seq<EgressReceipt>, ys: seq<EgressReceipt>)
    requires multiset(xs) == multiset(ys)
    ensures SelectEgress(caps, snapshot, Ready(xs)) == SelectEgress(caps, snapshot, Ready(ys))
    ensures var r := SelectEgress(caps, snapshot, Ready(xs));
            r.EgressReady? ==> multiset(r.observations) == multiset(xs) && Increasing(r.observations, EgressSeq)
  {
    hide All, HasDup, SortBy, IsUnique, SelectCapabilitySupport;
    AllIsBagProperty(xs, ys, IsEgressReceipt);
    if snapshot.Ready? { AllIsBagProperty(xs, ys, EgressOf(snapshot.value)); }
    DupIsBagProperty(xs, EgressId, EgressSeq);
    DupIsBagProperty(ys, EgressId, EgressSeq);
    SortBySorts(xs, EgressSeq);
    if !HasDup(xs, EgressId, EgressSeq) { SortedList(xs, ys, EgressId, EgressSeq); }
  }

  datatype SkillReceipt = SkillReceipt(receiptId: string, sequence: int, runId: string, fieldsOk: bool)

  datatype SkillPlacement = SkillBlocked(why: Blocked) | SkillReady(observed: bool, receipts: seq<SkillReceipt>)

  predicate IsSkillReceipt(r: SkillReceipt) {
    r.receiptId != "" && IsPositiveSequence(r.sequence) && r.runId != "" && r.fieldsOk
  }

  function SkillId(r: SkillReceipt): string { r.receiptId }
  function SkillSeq(r: SkillReceipt): int { r.sequence }
  function SkillInRun(runId: string): SkillReceipt -> bool { (r: SkillReceipt) => r.runId == runId }

  function SelectSkillPlacement(caps: Resource<seq<Capability>>, receipts: Resource<seq<SkillReceipt>>, runId: string): SkillPlacement {
    var support := SelectCapabilitySupport(caps, "runs.skill-activations.read", 1);
    if support.NotSupported? then SkillBlocked(support.why)
    else if !receipts.Ready? then SkillBlocked(ResourceBlocked(receipts))
    else
      var xs := receipts.value;
      if runId == "" || !All(xs, IsSkillReceipt) || !All(xs, SkillInRun(runId)) || HasDup(xs, SkillId, SkillSeq)
      then SkillBlocked(Blocked(ViewUnsupported, "malformed_skill_activation_receipt_set"))
      else SkillReady(xs != [], SortBy(xs, SkillSeq))
  }

  lemma SkillOrderDoesNotMatter(caps: Resource<seq<Capability>>, xs: seq<SkillReceipt>, ys: seq<SkillReceipt>, runId: string)
    requires multiset(xs) == multiset(ys)
    ensures SelectSkillPlacement(caps, Ready(xs), runId) == SelectSkillPlacement(caps, Ready(ys), runId)
  {
    hide All, HasDup, SortBy, IsUnique, SelectCapabilitySupport;
    AllIsBagProperty(xs, ys, IsSkillReceipt);
    AllIsBagProperty(xs, ys, SkillInRun(runId));
    DupIsBagProperty(xs, SkillId, SkillSeq);
    DupIsBagProperty(ys, SkillId, SkillSeq);
    assert |multiset(xs)| == |xs| && |multiset(ys)| == |ys|;
    if !HasDup(xs, SkillId, SkillSeq) { SortedList(xs, ys, SkillId, SkillSeq); }
  }

  // ---- reversal ---------------------------------------------------------------

  datatype Operation = Inverse | Compensation | UnknownOperation
  datatype OfferStatus = Available | Confirmed | Stale | Expired | UnknownStatus

  /** `None` is a null time; `fieldsOk` stands for the nonempty-text guards no other rule reads. */
  datatype Offer = Offer(offerId: string, sequence: int, runId: string, effectId: string, operation: Operation, status: OfferStatus,
                         createdAt: int, expiresAt: Option<int>, resolvedAt: Option<int>, fieldsOk: bool)

  datatype ReversalReceipt = ReversalReceipt(receiptId: string, sequence: int, offerId: string, runId: string, effectId: string,
                                             operation: Operation, outcome: OfferStatus, fieldsOk: bool)

  datatype DisabledReason = ExecuteUnavailable | OfferConfirmed | OfferStale | OfferExpired | ExpiredNow | InvalidTime

  datatype Reversal =
    | ReversalBlocked(why: Blocked)
    | NoOffer
    | Disabled(offer: Offer, latest: Option<ReversalReceipt>, reason: DisabledReason)
    | Enabled(offer: Offer, latest: Option<ReversalReceipt>)

  predicate IsOffer(o: Offer) {
    && o.offerId != "" && IsPositiveSequence(o.sequence) && o.runId != "" && o.effectId != "" && o.fieldsOk
    && !o.operation.UnknownOperation? && !o.status.UnknownStatus? && IsTimestamp(o.createdAt)
    && (o.expiresAt.Some? ==> IsTimestamp(o.expiresAt.value) && o.expiresAt.value > o.createdAt)
    && (o.resolvedAt.Some? ==> IsTimestamp(o.resolvedAt.value) && o.resolvedAt.value >= o.createdAt)
    && (o.status.Available? <==> o.resolvedAt.None?)
  }

  predicate IsReversalReceipt(r: ReversalReceipt) {
    && r.receiptId != "" && IsPositiveSequence(r.sequence) && r.offerId != "" && r.runId != "" && r.effectId != "" && r.fieldsOk
    && !r.operation.UnknownOperation? && (r.outcome.Confirmed? || r.outcome.Stale? || r.outcome.Expired?)
  }

  function OfferKey(o: Offer): string { o.offerId }
  function OfferSeq(o: Offer): int { o.sequence }
  function OfferInRun(runId: string): Offer -> bool { (o: Offer) => o.runId == runId }
  function OfferIs(offerId: string): Offer -> bool { (o: Offer) => o.offerId == offerId }
  function RevId(r: ReversalReceipt): string { r.receiptId }
  function RevSeq(r: ReversalReceipt): int { r.sequence }
  function RevInRun(runId: string): ReversalReceipt -> bool { (r: ReversalReceipt) => r.runId == runId }
  function RevFor(offerId: string): ReversalReceipt -> bool { (r: ReversalReceipt) => r.offerId == offerId }
  function RevAgrees(o: Offer): ReversalReceipt -> bool { (r: ReversalReceipt) => r.effectId == o.effectId && r.operation == o.operation }

  predicate ReversalSetsOk(offers: seq<Offer>, receipts: seq<ReversalReceipt>, runId: string) {
    && All(offers, IsOffer) && All(offers, OfferInRun(runId)) && !HasDup(offers, OfferKey, OfferSeq)
    && All(receipts, IsReversalReceipt) && All(receipts, RevInRun(runId)) && !HasDup(receipts, RevId, RevSeq)
  }

  /** The receipts agree with the offer and its status with the newest of them. */
  predicate AgreesWithReceipts(offer: Offer, matching: seq<ReversalReceipt>) {
    && All(matching, RevAgrees(offer))
    && (offer.status.Available? <==> matching == [])
    && (matching != [] ==> offer.status == matching[|matching| - 1].outcome)
  }

  /** The newest of the sorted receipts. */
  function Latest(matching: seq<ReversalReceipt>): Option<ReversalReceipt> {
    if matching == [] then None else Some(matching[|matching| - 1])
  }

  /** The action an agreed offer allows at an observed time. */
  function ActionFor(caps: Resource<seq<Capability>>, offer: Offer, latest: Option<ReversalReceipt>, now: int): Reversal {
    if offer.status.Confirmed? then Disabled(offer, latest, OfferConfirmed)
    else if offer.status.Stale? then Disabled(offer, latest, OfferStale)
    else if offer.status.Expired? then Disabled(offer, latest, OfferExpired)
    else if !IsTimestamp(now) then Disabled(offer, latest, InvalidTime)
    else if offer.expiresAt.Some? && offer.expiresAt.value <= now then Disabled(offer, latest, ExpiredNow)
    else if SelectCapabilitySupport(caps, "runs.reversals.execute", 1).NotSupported? then Disabled(offer, latest, ExecuteUnavailable)
    else Enabled(offer, latest)
  }

  function SelectReversal(caps: Resource<seq<Capability>>, offers: Resource<seq<Offer>>, receipts: Resource<seq<ReversalReceipt>>,
                                runId: string, offerId: string, now: int): Reversal {
    var support := SelectCapabilitySupport(caps, "runs.reversals.read", 1);
    if support.NotSupported? then ReversalBlocked(support.why)
    else if !offers.Ready? then ReversalBlocked(ResourceBlocked(offers))
    else if !receipts.Ready? then ReversalBlocked(ResourceBlocked(receipts))
    else if runId == "" || offerId == "" || !ReversalSetsOk(offers.value, receipts.value, runId) then
      ReversalBlocked(Blocked(ViewUnsupported, "malformed_reversal_evidence"))
    else
      var found := Filter(offers.value, OfferIs(offerId));
      if found == [] then NoOffer
      else
        var matching := SortBy(Filter(receipts.value, RevFor(offerId)), RevSeq);
        if !AgreesWithReceipts(found[0], matching)
        then ReversalBlocked(Blocked(ViewUnsupported, "conflicting_reversal_evidence"))
        else ActionFor(caps, found[0], Latest(matching), now)
  }

  /** `find` by a unique id sees at most one element, the same in every order. */
  lemma FoundOffer(xs: seq<Offer>, ys: seq<Offer>, offerId: string)
    requires multiset(xs) == multiset(ys) && !HasDup(xs, OfferKey, OfferSeq)
    ensures var a, b := Filter(xs, OfferIs(offerId)), Filter(ys, OfferIs(offerId));
            (a == [] <==> b == []) && (a != [] ==> a[0] == b[0])
  {
    hide HasDup, Filter;
    var a, b := Filter(xs, OfferIs(offerId)), Filter(ys, OfferIs(offerId));
    SameFilterBag(xs, ys, OfferIs(offerId));
    assert |multiset(a)| == |a| && |multiset(b)| == |b|;
    if a != [] {
      DupIsBagProperty(xs, OfferKey, OfferSeq);
      FilterMember(xs, OfferIs(offerId), a[0]);
      assert b[0] in multiset(b) && b[0] in multiset(a) && b[0] in a;
      FilterMember(xs, OfferIs(offerId), b[0]);
      assert a[0] in multiset(xs) && b[0] in multiset(xs);
      assert OfferKey(a[0]) == OfferKey(b[0]);
    }
  }

  /** The order of offers and receipts does not matter. */
  lemma ReversalOrderDoesNotMatter(caps: Resource<seq<Capability>>, xs: seq<Offer>, ys: seq<Offer>,
                                   rs: seq<ReversalReceipt>, qs: seq<ReversalReceipt>, runId: string, offerId: string, now: int)
    requires multiset(xs) == multiset(ys) && multiset(rs) == multiset(qs)
    ensures SelectReversal(caps, Ready(xs), Ready(rs), runId, offerId, now)
            == SelectReversal(caps, Ready(ys), Ready(qs), runId, offerId, now)
  {
    hide All, HasDup, SortBy, Filter, IsUnique, SelectCapabilitySupport, ActionFor, AgreesWithReceipts;
    AllIsBagProperty(xs, ys, IsOffer);
    AllIsBagProperty(xs, ys, OfferInRun(runId));
    AllIsBagProperty(rs, qs, IsReversalReceipt);
    AllIsBagProperty(rs, qs, RevInRun(runId));
    DupIsBagProperty(xs, OfferKey, OfferSeq);
    DupIsBagProperty(ys, OfferKey, OfferSeq);
    DupIsBagProperty(rs, RevId, RevSeq);
    DupIsBagProperty(qs, RevId, RevSeq);
    if !HasDup(xs, OfferKey, OfferSeq) && !HasDup(rs, RevId, RevSeq) {
      FoundOffer(xs, ys, offerId);
      SortedSelection(rs, qs, RevFor(offerId), RevId, RevSeq);
    }
  }

  /** An offer that can be carried out: of this id, available, without receipts and not expired. */
  ghost predicate IsOpenOffer(o: Offer, offers: seq<Offer>, receipts: seq<ReversalReceipt>, offerId: string, now: int) {
    && o in offers && o.offerId == offerId && o.status.Available?
    && (forall r :: r in receipts ==> r.offerId != offerId)
    && IsTimestamp(now) && (o.expiresAt.Some? ==> now < o.expiresAt.value)
  }

  /** The evidence a reversal rests on: both capabilities, both resources, named run and offer, sound sets. */
  ghost predicate HasEvidence(caps: Resource<seq<Capability>>, offers: Resource<seq<Offer>>, receipts: Resource<seq<ReversalReceipt>>,
                              runId: string, offerId: string) {
    && SelectCapabilitySupport(caps, "runs.reversals.read", 1).Supported?
    && SelectCapabilitySupport(caps, "runs.reversals.execute", 1).Supported?
    && offers.Ready? && receipts.Ready? && runId != "" && offerId != ""
    && ReversalSetsOk(offers.value, receipts.value, runId)
  }

  /** Exactly when a reversal is enabled, and for which offer. */
  lemma EnabledIff(caps: Resource<seq<Capability>>, offers: Resource<seq<Offer>>, receipts: Resource<seq<ReversalReceipt>>,
                   runId: string, offerId: string, now: int, o: Offer)
    ensures SelectReversal(caps, offers, receipts, runId, offerId, now) == Enabled(o, None)
            <==> HasEvidence(caps, offers, receipts, runId, offerId) && IsOpenOffer(o, offers.value, receipts.value, offerId, now)
  {
    hide HasDup, SortBy, Filter, SelectCapabilitySupport, IsTimestamp, AgreesWithReceipts, ActionFor, Latest, ReversalSetsOk;
    if offers.Ready? && receipts.Ready? && ReversalSetsOk(offers.value, receipts.value, runId) {
      var found := Filter(offers.value, OfferIs(offerId));
      NothingChosenIff(receipts.value, offerId);
      FilterMember(offers.value, OfferIs(offerId), o);
      if found != [] {
        SoundOffersDiffer(offers.value, receipts.value, runId);
        OfferIsUnique(offers.value, offerId, found[0]);
        ActionIff(caps, found[0], SortBy(Filter(receipts.value, RevFor(offerId)), RevSeq), now, o);
      }
    }
  }

  lemma SoundOffersDiffer(offers: seq<Offer>, receipts: seq<ReversalReceipt>, runId: string)
    requires ReversalSetsOk(offers, receipts, runId)
    ensures !HasDup(offers, OfferKey, OfferSeq)
  {
  }

  /** An agreed offer is enabled iff it is available, without receipts and in time, and can be executed. */
  lemma ActionIff(caps: Resource<seq<Capability>>, offer: Offer, matching: seq<ReversalReceipt>, now: int, o: Offer)
    ensures AgreesWithReceipts(offer, matching) && ActionFor(caps, offer, Latest(matching), now) == Enabled(o, None)
            <==> && offer == o && o.status.Available? && matching == []
                 && IsTimestamp(now) && (o.expiresAt.Some? ==> now < o.expiresAt.value)
                 && SelectCapabilitySupport(caps, "runs.reversals.execute", 1).Supported?
    ensures ActionFor(caps, offer, Latest(matching), now) == Enabled(o, None) ==>
              SelectCapabilitySupport(caps, "runs.reversals.execute", 1).Supported?
  {
    hide SelectCapabilitySupport, IsTimestamp;
  }

  /** An enabled reversal never comes with a receipt. */
  lemma EnabledHasNoReceipt(caps: Resource<seq<Capability>>, offers: Resource<seq<Offer>>, receipts: Resource<seq<ReversalReceipt>>,
                            runId: string, offerId: string, now: int)
    requires SelectReversal(caps, offers, receipts, runId, offerId, now).Enabled?
    ensures SelectReversal(caps, offers, receipts, runId, offerId, now).latest.None?
  {
    hide HasDup, SortBy, Filter, SelectCapabilitySupport, IsTimestamp, IsReversalReceipt;
    var offer := SelectReversal(caps, offers, receipts, runId, offerId, now).offer;
    FilterMember(offers.value, OfferIs(offerId), offer);
    var k :| 0 <= k < |offers.value| && offers.value[k] == offer;
    assert IsOffer(offers.value[k]);
  }

  /** Nothing is sorted iff no receipt names the offer. */
  lemma NothingChosenIff(receipts: seq<ReversalReceipt>, offerId: string)
    ensures var matching := SortBy(Filter(receipts, RevFor(offerId)), RevSeq);
            matching == [] <==> forall r :: r in receipts ==> r.offerId != offerId
  {
    hide SortBy, Filter;
    var chosen := Filter(receipts, RevFor(offerId));
    var matching := SortBy(chosen, RevSeq);
    SortBySorts(chosen, RevSeq);
    assert |multiset(matching)| == |matching|;
    forall r | r in receipts && r.offerId == offerId ensures matching != [] {
      FilterMember(receipts, RevFor(offerId), r);
      assert r in multiset(matching);
    }
    if matching != [] {
      assert matching[0] in multiset(chosen);
      FilterMember(receipts, RevFor(offerId), matching[0]);
    }
  }

  lemma OfferIsUnique(offers: seq<Offer>, offerId: string, o: Offer)
    requires !HasDup(offers, OfferKey, OfferSeq) && o in Filter(offers, OfferIs(offerId))
    ensures o in offers && o.offerId == offerId
    ensures forall p :: p in offers && p.offerId == offerId ==> p == o
  {
    hide HasDup, Filter;
    DupIsBagProperty(offers, OfferKey, OfferSeq);
    FilterMember(offers, OfferIs(offerId), o);
    forall p | p in offers && p.offerId == offerId ensures p == o {
      assert p in multiset(offers) && o in multiset(offers) && OfferKey(p) == OfferKey(o);
    }
  }

  /** The receipt shown beside an offer is the newest that names it, and the offer's status is its outcome. */
  lemma LatestReceiptIsNewest(caps: Resource<seq<Capability>>, offers: Resource<seq<Offer>>, receipts: Resource<seq<ReversalReceipt>>,
                              runId: string, offerId: string, now: int, r: ReversalReceipt)
    requires SelectReversal(caps, offers, receipts, runId, offerId, now).Disabled?
    requires r in receipts.value && r.offerId == offerId
    ensures var d := SelectReversal(caps, offers, receipts, runId, offerId, now);
            && d.latest.Some? && d.latest.value in receipts.value && d.latest.value.offerId == offerId
            && r.sequence <= d.latest.value.sequence && d.offer.status == d.latest.value.outcome
  {
    hide HasDup, SortBy, Filter, SelectCapabilitySupport, IsTimestamp, IsOffer, IsReversalReceipt;
    var chosen := Filter(receipts.value, RevFor(offerId));
    var matching := SortBy(chosen, RevSeq);
    SortBySorts(chosen, RevSeq);
    FilterMember(receipts.value, RevFor(offerId), r);
    assert r in multiset(matching);
    var last := matching[|matching| - 1];
    assert last in multiset(chosen);
    FilterMember(receipts.value, RevFor(offerId), last);
  }

  /** What is enabled at one time was enabled at every earlier valid time. */
  lemma EnabledEarlier(caps: Resource<seq<Capability>>, offers: Resource<seq<Offer>>, receipts: Resource<seq<ReversalReceipt>>,
                       runId: string, offerId: string, now: int, earlier: int)
    requires SelectReversal(caps, offers, receipts, runId, offerId, now).Enabled? && 0 <= earlier <= now
    ensures SelectReversal(caps, offers, receipts, runId, offerId, earlier)
            == SelectReversal(caps, offers, receipts, runId, offerId, now)
  {
    hide HasDup, SortBy, Filter, SelectCapabilitySupport, AgreesWithReceipts, ReversalSetsOk;
  }
}

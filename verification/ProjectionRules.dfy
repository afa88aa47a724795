/** When each selector answers, and what it says otherwise, in terms of the evidence alone (packages/ui/src/projection.ts). */
module ProjectionRules {
  import opened Common
  import opened Resources
  import opened Bags
  import opened Projection

  // ---- numbers and resources --------------------------------------------------

  ghost predicate IsCount(n: int) {
    1 <= n <= 9007199254740991
  }

  ghost predicate IsTime(t: int) {
    0 <= t <= 9007199254740991
  }

  /** A resource that is not ready blocks in its own state, with its own reason. */
  lemma UnreadyIs<T>(r: Resource<T>)
    requires !r.Ready?
    ensures var b := ResourceBlocked(r);
            && (b.state == ViewLoading <==> r.Loading?) && (r.Loading? ==> b.reason == "resource_loading")
            && (b.state == ViewUnavailable <==> r.Unavailable?) && (b.state == ViewPartial <==> r.Partial?)
            && (b.state == ViewIncompatible <==> r.Incompatible?) && (b.state == ViewErrored <==> r.Errored?)
            && (b.state == ViewUnsupported <==> r.Unsupported?)
            && (!r.Loading? ==> b.reason == r.reason)
  {
  }

  // ---- capabilities -----------------------------------------------------------

  ghost predicate AreCapabilities(caps: seq<Capability>) {
    forall c :: c in caps ==> c.id != "" && IsCount(c.version)
  }

  /** `v` is the newest version published under the id. */
  ghost predicate IsNewest(caps: seq<Capability>, id: string, v: int) {
    Capability(id, v) in caps && forall c :: c in caps && c.id == id ==> c.version <= v
  }

  /** The capability is published, soundly, in at least the version asked for. */
  ghost predicate Provides(caps: Resource<seq<Capability>>, id: string, min: int) {
    id != "" && IsCount(min) && caps.Ready? && AreCapabilities(caps.value) && exists v :: v >= min && IsNewest(caps.value, id, v)
  }

  lemma CapabilitiesAre(caps: seq<Capability>)
    ensures All(caps, IsCapability) <==> AreCapabilities(caps)
  {
    if All(caps, IsCapability) {
      forall c | c in caps ensures c.id != "" && IsCount(c.version) {
        var i :| 0 <= i < |caps| && caps[i] == c;
        assert IsCapability(caps[i]);
      }
    }
    if AreCapabilities(caps) {
      forall i | 0 <= i < |caps| ensures IsCapability(caps[i]) { assert caps[i] in caps; }
    }
  }

  /** Supported iff provided, with the newest version; otherwise the first thing that is wrong. */
  lemma SupportIs(caps: Resource<seq<Capability>>, id: string, min: int)
    ensures var s := SelectCapabilitySupport(caps, id, min);
            && (s.Supported? <==> Provides(caps, id, min))
            && (s.Supported? ==> s.observedVersion >= min && IsNewest(caps.value, id, s.observedVersion))
            && if id == "" || !IsCount(min) then s == NotSupported(Blocked(ViewUnsupported, "malformed_capability_requirement"))
               else if !caps.Ready? then s == NotSupported(ResourceBlocked(caps))
               else if !AreCapabilities(caps.value) then s == NotSupported(Blocked(ViewUnsupported, "malformed_capability_set"))
               else if forall c :: c in caps.value ==> c.id != id then s == NotSupported(Blocked(ViewUnavailable, "capability_absent"))
               else !Provides(caps, id, min) ==> s == NotSupported(Blocked(ViewIncompatible, "capability_version_too_old"))
  {
    if caps.Ready? {
      CapabilitiesAre(caps.value);
      ObservedIsHighest(caps.value, id);
      var v := ObservedVersion(caps.value, id);
      assert v.Some? ==> IsNewest(caps.value, id, v.value);
      forall n | IsNewest(caps.value, id, n) ensures v == Some(n) {
        assert Capability(id, n) in caps.value && Capability(id, n).id == id;
      }
    }
  }

  // ---- effects ----------------------------------------------------------------

  /** A receipt the client believes: complete, and with a consequence that its kind and its observer may claim. */
  ghost predicate IsSoundEffect(r: EffectReceipt) {
    && "" !in [r.receiptId, r.effectId, r.runId, r.toolCallId, r.toolName, r.authorityRef]
    && IsCount(r.sequence) && IsTime(r.observedAt)
    && r.kind != UnknownKind && r.outcome != UnknownOutcome && r.consequence != UnknownConsequence && r.authorityKind != UnknownAuthority
    && (r.kind == AuthorityConfirmed <==> r.consequence == EffectConfirmed)
    && (r.kind == Reconciliation <==> r.authorityKind == Reconciler)
    && (r.kind == AuthorityConfirmed ==> r.authorityKind == EffectObserver)
    && (r.kind == IntentObserved ==> r.outcome == Pending && r.consequence == NoneObserved && r.authorityKind == Runtime)
    && (r.kind == Reconciliation ==> r.outcome == OutcomeUnknown && r.consequence == EffectPossible)
  }

  lemma SoundEffectIs(r: EffectReceipt)
    ensures IsEffectReceipt(r) <==> IsSoundEffect(r)
  {
  }

  ghost predicate AreEffectsOf(xs: seq<EffectReceipt>, runId: string) {
    && (forall r :: r in xs ==> IsSoundEffect(r) && r.runId == runId)
    && forall i, j :: 0 <= i < j < |xs| ==> xs[i].receiptId != xs[j].receiptId && xs[i].sequence != xs[j].sequence
  }

  lemma EffectsAre(xs: seq<EffectReceipt>, runId: string)
    ensures EffectSetOk(xs, runId) <==> AreEffectsOf(xs, runId)
  {
    hide IsEffectReceipt, IsSoundEffect;
    forall r | r in xs ensures IsEffectReceipt(r) <==> IsSoundEffect(r) { SoundEffectIs(r); }
    if EffectSetOk(xs, runId) {
      forall r | r in xs ensures IsSoundEffect(r) && r.runId == runId {
        var i :| 0 <= i < |xs| && xs[i] == r;
        assert IsEffectReceipt(xs[i]) && EffectInRun(runId)(xs[i]);
      }
      forall i, j | 0 <= i < j < |xs| ensures xs[i].receiptId != xs[j].receiptId && xs[i].sequence != xs[j].sequence {
        assert EffectId(xs[i]) != EffectId(xs[j]) && EffectSeq(xs[i]) != EffectSeq(xs[j]);
      }
    }
    if AreEffectsOf(xs, runId) {
      assert forall i :: 0 <= i < |xs| ==> xs[i] in xs;
    }
  }

  /** How grave a consequence is. */
  ghost function Grade(c: Consequence): int {
    if c == EffectConfirmed then 3 else if c == EffectPossible then 2 else if c == OutputObserved then 1
    else if c == NoneObserved then 0 else -1
  }

  lemma GradeIs(c: Consequence)
    ensures Rank(c) == Grade(c)
  {
  }

  /** The receipts of one call speak of one effect, and a later one never of a lesser consequence. */
  ghost predicate AgreeOnEffect(xs: seq<EffectReceipt>, toolCallId: string) {
    forall a, b :: a in xs && b in xs && a.toolCallId == b.toolCallId == toolCallId ==>
      a.effectId == b.effectId && (a.sequence < b.sequence ==> Grade(a.consequence) <= Grade(b.consequence))
  }

  /** The last receipt of a call. */
  ghost predicate IsLastEffect(xs: seq<EffectReceipt>, toolCallId: string, r: EffectReceipt) {
    r in xs && r.toolCallId == toolCallId && forall q :: q in xs && q.toolCallId == toolCallId ==> q.sequence <= r.sequence
  }

  /** The sorted receipts of a call are its receipts, in strictly rising order. */
  lemma MatchingIs(xs: seq<EffectReceipt>, runId: string, toolCallId: string)
    requires EffectSetOk(xs, runId)
    ensures var ms := SortBy(Filter(xs, ForCall(toolCallId)), EffectSeq);
            && (forall r :: r in ms <==> r in xs && r.toolCallId == toolCallId)
            && forall i, j :: 0 <= i < j < |ms| ==> ms[i].sequence < ms[j].sequence
  {
    hide Filter, SortBy, HasDup, All;
    var chosen := Filter(xs, ForCall(toolCallId));
    var ms := SortBy(chosen, EffectSeq);
    SortBySorts(chosen, EffectSeq);
    forall r ensures r in ms <==> r in xs && r.toolCallId == toolCallId {
      FilterMember(xs, ForCall(toolCallId), r);
      assert r in ms <==> r in multiset(ms);
      assert r in chosen <==> r in multiset(chosen);
    }
    DupIsBagProperty(xs, EffectId, EffectSeq);
    FilterUnique(xs, ForCall(toolCallId), EffectId, EffectSeq);
    DupIsBagProperty(ms, EffectId, EffectSeq);
    NoTwins(ms);
  }

  lemma NoTwins(ms: seq<EffectReceipt>)
    requires Increasing(ms, EffectSeq) && !HasDup(ms, EffectId, EffectSeq)
    ensures forall i, j :: 0 <= i < j < |ms| ==> ms[i].sequence < ms[j].sequence
  {
    forall i, j | 0 <= i < j < |ms| ensures ms[i].sequence < ms[j].sequence {
      assert EffectSeq(ms[i]) != EffectSeq(ms[j]);
    }
  }

  lemma {:induction false} GradesClimb(ms: seq<EffectReceipt>, i: nat, j: nat)
    requires IsConsistent(ms) && i <= j < |ms|
    ensures Grade(ms[i].consequence) <= Grade(ms[j].consequence) && ms[i].effectId == ms[j].effectId
  {
    RanksClimb(ms, i, j);
    GradeIs(ms[i].consequence);
    GradeIs(ms[j].consequence);
  }

  lemma ConsistentIs(xs: seq<EffectReceipt>, toolCallId: string, ms: seq<EffectReceipt>)
    requires forall r :: r in ms <==> r in xs && r.toolCallId == toolCallId
    requires forall i, j :: 0 <= i < j < |ms| ==> ms[i].sequence < ms[j].sequence
    ensures IsConsistent(ms) <==> AgreeOnEffect(xs, toolCallId)
  {
    hide Rank, Grade;
    if IsConsistent(ms) {
      forall a, b | a in xs && b in xs && a.toolCallId == b.toolCallId == toolCallId
        ensures a.effectId == b.effectId && (a.sequence < b.sequence ==> Grade(a.consequence) <= Grade(b.consequence)) {
        assert a in ms && b in ms;
        var i :| 0 <= i < |ms| && ms[i] == a;
        var j :| 0 <= j < |ms| && ms[j] == b;
        if i <= j { GradesClimb(ms, i, j); } else { GradesClimb(ms, j, i); }
      }
    }
    if AgreeOnEffect(xs, toolCallId) {
      forall i | 0 <= i < |ms| ensures ms[i].effectId == ms[0].effectId { assert ms[i] in ms && ms[0] in ms; }
      forall i | 0 < i < |ms| ensures Rank(ms[i - 1].consequence) <= Rank(ms[i].consequence) {
        assert ms[i - 1] in ms && ms[i] in ms;
        GradeIs(ms[i - 1].consequence);
        GradeIs(ms[i].consequence);
      }
    }
  }

  /** What the tool effect is: blocked by the first thing missing or wrong, not observed, or the call's last receipt. */
  lemma ToolEffectIs(caps: Resource<seq<Capability>>, receipts: Resource<seq<EffectReceipt>>, runId: string, toolCallId: string,
                     lifecycle: Lifecycle)
    ensures var e := SelectToolEffect(caps, receipts, runId, toolCallId, lifecycle);
            if !Provides(caps, "runs.effects.read", 1) then
              e.EffectBlocked? && SelectCapabilitySupport(caps, "runs.effects.read", 1) == NotSupported(e.why)
            else if !receipts.Ready? then e == EffectBlocked(ResourceBlocked(receipts))
            else if runId == "" || toolCallId == "" || lifecycle == UnknownLifecycle || !AreEffectsOf(receipts.value, runId) then
              e == EffectBlocked(Blocked(ViewUnsupported, "malformed_effect_receipt_set"))
            else if forall r :: r in receipts.value ==> r.toolCallId != toolCallId then e == NotObserved(lifecycle)
            else if !AgreeOnEffect(receipts.value, toolCallId) then
              e == EffectBlocked(Blocked(ViewUnsupported, "conflicting_effect_receipts"))
            else e.Observed? && e.lifecycle == lifecycle && IsLastEffect(receipts.value, toolCallId, e.receipt)
  {
    hide SelectCapabilitySupport, Provides, ResourceBlocked, EffectSetOk, AreEffectsOf, SortBy, Filter, IsConsistent, AgreeOnEffect;
    SupportIs(caps, "runs.effects.read", 1);
    if receipts.Ready? {
      EffectsAre(receipts.value, runId);
      if EffectSetOk(receipts.value, runId) {
        var ms := SortBy(Filter(receipts.value, ForCall(toolCallId)), EffectSeq);
        MatchingIs(receipts.value, runId, toolCallId);
        ConsistentIs(receipts.value, toolCallId, ms);
        if ms != [] { assert ms[0] in ms && ms[|ms| - 1] in ms; }
      }
    }
  }

  // ---- egress and skills ------------------------------------------------------

  ghost predicate AreEgressOf(xs: seq<EgressReceipt>, s: RunSnapshot) {
    && (forall r :: r in xs ==> r.receiptId != "" && IsCount(r.sequence) && r.fieldsOk && r.runId == s.runId && r.mode == s.egressMode)
    && forall i, j :: 0 <= i < j < |xs| ==> xs[i].receiptId != xs[j].receiptId && xs[i].sequence != xs[j].sequence
  }

  lemma EgressesAre(xs: seq<EgressReceipt>, s: RunSnapshot)
    requires s.runId != "" && s.egressMode != UnknownMode
    ensures All(xs, IsEgressReceipt) && All(xs, EgressOf(s)) && !HasDup(xs, EgressId, EgressSeq) <==> AreEgressOf(xs, s)
  {
    if All(xs, IsEgressReceipt) && All(xs, EgressOf(s)) && !HasDup(xs, EgressId, EgressSeq) {
      forall r | r in xs ensures r.receiptId != "" && IsCount(r.sequence) && r.fieldsOk && r.runId == s.runId && r.mode == s.egressMode {
        var i :| 0 <= i < |xs| && xs[i] == r;
        assert IsEgressReceipt(xs[i]) && EgressOf(s)(xs[i]);
      }
      forall i, j | 0 <= i < j < |xs| ensures xs[i].receiptId != xs[j].receiptId && xs[i].sequence != xs[j].sequence {
        assert EgressId(xs[i]) != EgressId(xs[j]) && EgressSeq(xs[i]) != EgressSeq(xs[j]);
      }
    }
    if AreEgressOf(xs, s) { assert forall i :: 0 <= i < |xs| ==> xs[i] in xs; }
  }

  /** Egress is shown iff both capabilities, the snapshot and the receipts are there and sound, with the run's mode. */
  lemma EgressIs(caps: Resource<seq<Capability>>, snapshot: Resource<RunSnapshot>, receipts: Resource<seq<EgressReceipt>>)
    ensures var e := SelectEgress(caps, snapshot, receipts);
            if !Provides(caps, "runs.snapshot", 5) then e.EgressBlocked? && SelectCapabilitySupport(caps, "runs.snapshot", 5) == NotSupported(e.why)
            else if !Provides(caps, "runs.egress.read", 1) then
              e.EgressBlocked? && SelectCapabilitySupport(caps, "runs.egress.read", 1) == NotSupported(e.why)
            else if !snapshot.Ready? then e == EgressBlocked(ResourceBlocked(snapshot))
            else if !receipts.Ready? then e == EgressBlocked(ResourceBlocked(receipts))
            else if snapshot.value.runId == "" || snapshot.value.egressMode == UnknownMode || !AreEgressOf(receipts.value, snapshot.value) then
              e == EgressBlocked(Blocked(ViewUnsupported, "malformed_egress_evidence"))
            else e.EgressReady? && e.mode == snapshot.value.egressMode
  {
    hide SelectCapabilitySupport, Provides, ResourceBlocked, All, HasDup, SortBy, AreEgressOf;
    SupportIs(caps, "runs.snapshot", 5);
    SupportIs(caps, "runs.egress.read", 1);
    if snapshot.Ready? && receipts.Ready? && snapshot.value.runId != "" && snapshot.value.egressMode != UnknownMode {
      EgressesAre(receipts.value, snapshot.value);
    }
  }

  ghost predicate AreSkillsOf(xs: seq<SkillReceipt>, runId: string) {
    && (forall r :: r in xs ==> r.receiptId != "" && IsCount(r.sequence) && r.fieldsOk && r.runId == runId)
    && forall i, j :: 0 <= i < j < |xs| ==> xs[i].receiptId != xs[j].receiptId && xs[i].sequence != xs[j].sequence
  }

  lemma SkillsAre(xs: seq<SkillReceipt>, runId: string)
    requires runId != ""
    ensures All(xs, IsSkillReceipt) && All(xs, SkillInRun(runId)) && !HasDup(xs, SkillId, SkillSeq) <==> AreSkillsOf(xs, runId)
  {
    if All(xs, IsSkillReceipt) && All(xs, SkillInRun(runId)) && !HasDup(xs, SkillId, SkillSeq) {
      forall r | r in xs ensures r.receiptId != "" && IsCount(r.sequence) && r.fieldsOk && r.runId == runId {
        var i :| 0 <= i < |xs| && xs[i] == r;
        assert IsSkillReceipt(xs[i]) && SkillInRun(runId)(xs[i]);
      }
      forall i, j | 0 <= i < j < |xs| ensures xs[i].receiptId != xs[j].receiptId && xs[i].sequence != xs[j].sequence {
        assert SkillId(xs[i]) != SkillId(xs[j]) && SkillSeq(xs[i]) != SkillSeq(xs[j]);
      }
    }
    if AreSkillsOf(xs, runId) { assert forall i :: 0 <= i < |xs| ==> xs[i] in xs; }
  }

  /** Skill placement is shown iff capability and receipts are there and sound: all of them, in order, and whether there are any. */
  lemma SkillPlacementIs(caps: Resource<seq<Capability>>, receipts: Resource<seq<SkillReceipt>>, runId: string)
    ensures var p := SelectSkillPlacement(caps, receipts, runId);
            if !Provides(caps, "runs.skill-activations.read", 1) then
              p.SkillBlocked? && SelectCapabilitySupport(caps, "runs.skill-activations.read", 1) == NotSupported(p.why)
            else if !receipts.Ready? then p == SkillBlocked(ResourceBlocked(receipts))
            else if runId == "" || !AreSkillsOf(receipts.value, runId) then
              p == SkillBlocked(Blocked(ViewUnsupported, "malformed_skill_activation_receipt_set"))
            else
              && p.SkillReady? && (p.observed <==> exists r :: r in receipts.value)
              && multiset(p.receipts) == multiset(receipts.value)
              && forall i, j :: 0 <= i < j < |p.receipts| ==> p.receipts[i].sequence <= p.receipts[j].sequence
  {
    hide SelectCapabilitySupport, Provides, ResourceBlocked, All, HasDup, SortBy, AreSkillsOf;
    SupportIs(caps, "runs.skill-activations.read", 1);
    if receipts.Ready? && runId != "" {
      SkillsAre(receipts.value, runId);
      SortBySorts(receipts.value, SkillSeq);
      InOrder(SortBy(receipts.value, SkillSeq));
      if receipts.value != [] { assert receipts.value[0] in receipts.value; }
    }
  }

  lemma InOrder(xs: seq<SkillReceipt>)
    requires Increasing(xs, SkillSeq)
    ensures forall i, j :: 0 <= i < j < |xs| ==> xs[i].sequence <= xs[j].sequence
  {
    forall i, j | 0 <= i < j < |xs| ensures xs[i].sequence <= xs[j].sequence { assert SkillSeq(xs[i]) <= SkillSeq(xs[j]); }
  }

  // ---- reversal ---------------------------------------------------------------

  ghost predicate IsSoundOffer(o: Offer) {
    && "" !in [o.offerId, o.runId, o.effectId] && o.fieldsOk && IsCount(o.sequence)
    && o.operation in {Inverse, Compensation} && o.status in {Available, Confirmed, Stale, Expired}
    && IsTime(o.createdAt)
    && (o.expiresAt.Some? ==> IsTime(o.expiresAt.value) && o.createdAt < o.expiresAt.value)
    && (o.status == Available ==> o.resolvedAt.None?)
    && (o.status != Available ==> o.resolvedAt.Some? && IsTime(o.resolvedAt.value) && o.createdAt <= o.resolvedAt.value)
  }

  ghost predicate IsSoundReversal(r: ReversalReceipt) {
    && "" !in [r.receiptId, r.offerId, r.runId, r.effectId] && r.fieldsOk && IsCount(r.sequence)
    && r.operation in {Inverse, Compensation} && r.outcome in {Confirmed, Stale, Expired}
  }

  lemma SoundReversalIs(o: Offer, r: ReversalReceipt)
    ensures IsOffer(o) <==> IsSoundOffer(o)
    ensures IsReversalReceipt(r) <==> IsSoundReversal(r)
  {
  }

  /** Sound offers and receipts of the run, each id and number once. */
  ghost predicate AreReversalsOf(offers: seq<Offer>, receipts: seq<ReversalReceipt>, runId: string) {
    && (forall o :: o in offers ==> IsSoundOffer(o) && o.runId == runId)
    && (forall r :: r in receipts ==> IsSoundReversal(r) && r.runId == runId)
    && (forall i, j :: 0 <= i < j < |offers| ==> offers[i].offerId != offers[j].offerId && offers[i].sequence != offers[j].sequence)
    && forall i, j :: 0 <= i < j < |receipts| ==>
         receipts[i].receiptId != receipts[j].receiptId && receipts[i].sequence != receipts[j].sequence
  }

  lemma OffersAre(xs: seq<Offer>, runId: string)
    ensures All(xs, IsOffer) && All(xs, OfferInRun(runId)) <==> forall o :: o in xs ==> IsSoundOffer(o) && o.runId == runId
    ensures !HasDup(xs, OfferKey, OfferSeq)
            <==> forall i, j :: 0 <= i < j < |xs| ==> xs[i].offerId != xs[j].offerId && xs[i].sequence != xs[j].sequence
  {
    hide IsOffer, IsSoundOffer;
    forall o: Offer ensures IsOffer(o) <==> IsSoundOffer(o) {
      SoundReversalIs(o, ReversalReceipt("", 0, "", "", "", Inverse, Stale, false));
    }
    if All(xs, IsOffer) && All(xs, OfferInRun(runId)) {
      forall o | o in xs ensures IsSoundOffer(o) && o.runId == runId {
        var i :| 0 <= i < |xs| && xs[i] == o;
        assert IsOffer(xs[i]) && OfferInRun(runId)(xs[i]);
      }
    }
    if forall o :: o in xs ==> IsSoundOffer(o) && o.runId == runId { assert forall i :: 0 <= i < |xs| ==> xs[i] in xs; }
    if !HasDup(xs, OfferKey, OfferSeq) {
      forall i, j | 0 <= i < j < |xs| ensures xs[i].offerId != xs[j].offerId && xs[i].sequence != xs[j].sequence {
        assert OfferKey(xs[i]) != OfferKey(xs[j]) && OfferSeq(xs[i]) != OfferSeq(xs[j]);
      }
    }
  }

  lemma ReceiptsAre(xs: seq<ReversalReceipt>, runId: string)
    ensures All(xs, IsReversalReceipt) && All(xs, RevInRun(runId)) <==> forall r :: r in xs ==> IsSoundReversal(r) && r.runId == runId
    ensures !HasDup(xs, RevId, RevSeq)
            <==> forall i, j :: 0 <= i < j < |xs| ==> xs[i].receiptId != xs[j].receiptId && xs[i].sequence != xs[j].sequence
  {
    if All(xs, IsReversalReceipt) && All(xs, RevInRun(runId)) {
      forall r | r in xs ensures IsSoundReversal(r) && r.runId == runId {
        var i :| 0 <= i < |xs| && xs[i] == r;
        assert IsReversalReceipt(xs[i]) && RevInRun(runId)(xs[i]);
      }
    }
    if forall r :: r in xs ==> IsSoundReversal(r) && r.runId == runId { assert forall i :: 0 <= i < |xs| ==> xs[i] in xs; }
    if !HasDup(xs, RevId, RevSeq) {
      forall i, j | 0 <= i < j < |xs| ensures xs[i].receiptId != xs[j].receiptId && xs[i].sequence != xs[j].sequence {
        assert RevId(xs[i]) != RevId(xs[j]) && RevSeq(xs[i]) != RevSeq(xs[j]);
      }
    }
  }

  lemma ReversalSetsAre(offers: seq<Offer>, receipts: seq<ReversalReceipt>, runId: string)
    ensures ReversalSetsOk(offers, receipts, runId) <==> AreReversalsOf(offers, receipts, runId)
  {
    hide All, HasDup, IsSoundOffer, IsSoundReversal;
    OffersAre(offers, runId);
    ReceiptsAre(receipts, runId);
  }

  ghost predicate IsLastReversal(receipts: seq<ReversalReceipt>, offerId: string, r: ReversalReceipt) {
    r in receipts && r.offerId == offerId && forall q :: q in receipts && q.offerId == offerId ==> q.sequence <= r.sequence
  }

  /** Every receipt of the offer names its effect and operation, and the offer's status is the outcome of the last, if any. */
  ghost predicate OfferAgrees(o: Offer, receipts: seq<ReversalReceipt>) {
    && (forall r :: r in receipts && r.offerId == o.offerId ==> r.effectId == o.effectId && r.operation == o.operation)
    && (o.status == Available <==> forall r :: r in receipts ==> r.offerId != o.offerId)
    && (o.status != Available ==> forall r :: IsLastReversal(receipts, o.offerId, r) ==> r.outcome == o.status)
  }

  lemma LatestIs(receipts: seq<ReversalReceipt>, offerId: string)
    ensures var ms := SortBy(Filter(receipts, RevFor(offerId)), RevSeq);
            && (forall r :: r in ms <==> r in receipts && r.offerId == offerId)
            && (ms != [] ==> IsLastReversal(receipts, offerId, ms[|ms| - 1]))
  {
    hide Filter, SortBy;
    var chosen := Filter(receipts, RevFor(offerId));
    var ms := SortBy(chosen, RevSeq);
    SortBySorts(chosen, RevSeq);
    forall r ensures r in ms <==> r in receipts && r.offerId == offerId {
      FilterMember(receipts, RevFor(offerId), r);
      assert r in ms <==> r in multiset(ms);
      assert r in chosen <==> r in multiset(chosen);
    }
    if ms != [] {
      var last := ms[|ms| - 1];
      assert last in ms;
      forall q | q in receipts && q.offerId == offerId ensures q.sequence <= last.sequence {
        assert q in ms;
        var i :| 0 <= i < |ms| && ms[i] == q;
        assert RevSeq(ms[i]) <= RevSeq(last);
      }
    }
  }

  lemma OneLast(receipts: seq<ReversalReceipt>, offerId: string, a: ReversalReceipt, b: ReversalReceipt)
    requires forall i, j :: 0 <= i < j < |receipts| ==> receipts[i].sequence != receipts[j].sequence
    requires IsLastReversal(receipts, offerId, a) && IsLastReversal(receipts, offerId, b)
    ensures a == b
  {
    var i :| 0 <= i < |receipts| && receipts[i] == a;
    var j :| 0 <= j < |receipts| && receipts[j] == b;
  }

  lemma AllAgreeIs(o: Offer, receipts: seq<ReversalReceipt>, ms: seq<ReversalReceipt>)
    requires forall r :: r in ms <==> r in receipts && r.offerId == o.offerId
    ensures All(ms, RevAgrees(o))
            <==> forall r :: r in receipts && r.offerId == o.offerId ==> r.effectId == o.effectId && r.operation == o.operation
  {
    if All(ms, RevAgrees(o)) {
      forall r | r in receipts && r.offerId == o.offerId ensures r.effectId == o.effectId && r.operation == o.operation {
        assert r in ms;
        var i :| 0 <= i < |ms| && ms[i] == r;
        assert RevAgrees(o)(ms[i]);
      }
    }
    if forall r :: r in receipts && r.offerId == o.offerId ==> r.effectId == o.effectId && r.operation == o.operation {
      forall i | 0 <= i < |ms| ensures RevAgrees(o)(ms[i]) { assert ms[i] in ms; }
    }
  }

  lemma AgreesIs(o: Offer, receipts: seq<ReversalReceipt>)
    requires forall i, j :: 0 <= i < j < |receipts| ==> receipts[i].sequence != receipts[j].sequence
    ensures AgreesWithReceipts(o, SortBy(Filter(receipts, RevFor(o.offerId)), RevSeq)) <==> OfferAgrees(o, receipts)
  {
    hide Filter, SortBy, All, IsLastReversal;
    var ms := SortBy(Filter(receipts, RevFor(o.offerId)), RevSeq);
    LatestIs(receipts, o.offerId);
    AllAgreeIs(o, receipts, ms);
    NoneIs(o.offerId, receipts, ms);
    if ms != [] { LastOutcomeIs(o, receipts, ms[|ms| - 1]); }
  }

  lemma NoneIs(offerId: string, receipts: seq<ReversalReceipt>, ms: seq<ReversalReceipt>)
    requires forall r :: r in ms <==> r in receipts && r.offerId == offerId
    ensures ms == [] <==> forall r :: r in receipts ==> r.offerId != offerId
  {
    if ms != [] { assert ms[0] in ms; }
  }

  lemma LastOutcomeIs(o: Offer, receipts: seq<ReversalReceipt>, last: ReversalReceipt)
    requires forall i, j :: 0 <= i < j < |receipts| ==> receipts[i].sequence != receipts[j].sequence
    requires IsLastReversal(receipts, o.offerId, last)
    ensures (forall r :: IsLastReversal(receipts, o.offerId, r) ==> r.outcome == o.status) <==> last.outcome == o.status
  {
    hide IsLastReversal;
    forall r | IsLastReversal(receipts, o.offerId, r) ensures r == last { OneLast(receipts, o.offerId, r, last); }
  }

  /** Why an agreed offer cannot be carried out now, if it cannot. */
  ghost function WhyNot(caps: Resource<seq<Capability>>, o: Offer, now: int): Option<DisabledReason> {
    match o.status
    case Confirmed => Some(OfferConfirmed)
    case Stale => Some(OfferStale)
    case Expired => Some(OfferExpired)
    case _ =>
      if !IsTime(now) then Some(InvalidTime)
      else if o.expiresAt.Some? && now >= o.expiresAt.value then Some(ExpiredNow)
      else if !Provides(caps, "runs.reversals.execute", 1) then Some(ExecuteUnavailable)
      else None
  }

  /** What the reversal view says: blocked by the first thing missing or wrong, no offer, or the offer with its last receipt and action. */
  lemma ReversalIs(caps: Resource<seq<Capability>>, offers: Resource<seq<Offer>>, receipts: Resource<seq<ReversalReceipt>>,
                   runId: string, offerId: string, now: int, o: Offer)
    requires offers.Ready? && o in offers.value && o.offerId == offerId
    ensures var v := SelectReversal(caps, offers, receipts, runId, offerId, now);
            if !Provides(caps, "runs.reversals.read", 1) then
              v.ReversalBlocked? && SelectCapabilitySupport(caps, "runs.reversals.read", 1) == NotSupported(v.why)
            else if !receipts.Ready? then v == ReversalBlocked(ResourceBlocked(receipts))
            else if runId == "" || offerId == "" || !AreReversalsOf(offers.value, receipts.value, runId) then
              v == ReversalBlocked(Blocked(ViewUnsupported, "malformed_reversal_evidence"))
            else if !OfferAgrees(o, receipts.value) then
              v == ReversalBlocked(Blocked(ViewUnsupported, "conflicting_reversal_evidence"))
            else
              && (v.Disabled? || v.Enabled?) && v.offer == o
              && (if o.status == Available then v.latest == None else v.latest.Some? && IsLastReversal(receipts.value, offerId, v.latest.value))
              && match WhyNot(caps, o, now)
                 case Some(reason) => v.Disabled? && v.reason == reason
                 case None => v.Enabled?
  {
    hide SelectCapabilitySupport, Provides, ResourceBlocked, ReversalSetsOk, SortBy, Filter, AgreesWithReceipts, OfferAgrees;
    hide AreReversalsOf, IsLastReversal, IsTimestamp, IsTime;
    SupportIs(caps, "runs.reversals.read", 1);
    if receipts.Ready? {
      ReversalSetsAre(offers.value, receipts.value, runId);
      if ReversalSetsOk(offers.value, receipts.value, runId) {
        FoundIs(offers.value, receipts.value, runId, offerId, o);
        AgreesIs(o, receipts.value);
        LatestIs(receipts.value, offerId);
        var ms := SortBy(Filter(receipts.value, RevFor(offerId)), RevSeq);
        EmptyIffAvailable(o, ms);
        ActionIs(caps, o, Latest(ms), now);
      }
    }
  }

  lemma EmptyIffAvailable(o: Offer, ms: seq<ReversalReceipt>)
    ensures AgreesWithReceipts(o, ms) ==> (o.status == Available <==> ms == [])
  {
  }

  lemma FoundIs(offers: seq<Offer>, receipts: seq<ReversalReceipt>, runId: string, offerId: string, o: Offer)
    requires ReversalSetsOk(offers, receipts, runId) && o in offers && o.offerId == offerId
    ensures Filter(offers, OfferIs(offerId)) != [] && Filter(offers, OfferIs(offerId))[0] == o
    ensures forall i, j :: 0 <= i < j < |receipts| ==> receipts[i].sequence != receipts[j].sequence
  {
    hide Filter;
    FilterMember(offers, OfferIs(offerId), o);
    var found := Filter(offers, OfferIs(offerId));
    OfferIsUnique(offers, offerId, found[0]);
    forall i, j | 0 <= i < j < |receipts| ensures receipts[i].sequence != receipts[j].sequence {
      assert RevSeq(receipts[i]) != RevSeq(receipts[j]);
    }
  }

  lemma ActionIs(caps: Resource<seq<Capability>>, o: Offer, latest: Option<ReversalReceipt>, now: int)
    ensures match WhyNot(caps, o, now)
            case Some(reason) => ActionFor(caps, o, latest, now) == Disabled(o, latest, reason)
            case None => ActionFor(caps, o, latest, now) == Enabled(o, latest)
  {
    hide SelectCapabilitySupport, Provides;
    SupportIs(caps, "runs.reversals.execute", 1);
  }

  /** Without an offer of that id the view says so, once the evidence is sound. */
  lemma NoOfferIs(caps: Resource<seq<Capability>>, offers: Resource<seq<Offer>>, receipts: Resource<seq<ReversalReceipt>>,
                  runId: string, offerId: string, now: int)
    requires offers.Ready? ==> forall o :: o in offers.value ==> o.offerId != offerId
    ensures var v := SelectReversal(caps, offers, receipts, runId, offerId, now);
            if !Provides(caps, "runs.reversals.read", 1) then
              v.ReversalBlocked? && SelectCapabilitySupport(caps, "runs.reversals.read", 1) == NotSupported(v.why)
            else if !offers.Ready? then v == ReversalBlocked(ResourceBlocked(offers))
            else if !receipts.Ready? then v == ReversalBlocked(ResourceBlocked(receipts))
            else if runId == "" || offerId == "" || !AreReversalsOf(offers.value, receipts.value, runId) then
              v == ReversalBlocked(Blocked(ViewUnsupported, "malformed_reversal_evidence"))
            else v == NoOffer
  {
    hide SelectCapabilitySupport, Provides, ResourceBlocked, ReversalSetsOk, SortBy, Filter, AreReversalsOf;
    SupportIs(caps, "runs.reversals.read", 1);
    if offers.Ready? && receipts.Ready? {
      ReversalSetsAre(offers.value, receipts.value, runId);
      var found := Filter(offers.value, OfferIs(offerId));
      if found != [] {
        assert found[0] in found;
        FilterMember(offers.value, OfferIs(offerId), found[0]);
      }
    }
  }
}

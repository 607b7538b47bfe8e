/**
 What the gate's verdict means: PASS as an explicit conjunction, readiness
 (scripts/human-review/readiness.ts) as the part a human cannot influence.
 */
module GateMeaning {
  import opened Prelude
  import opened Text
  import opened Sequences
  import opened Gate
  import D = Dates
  import L = Lifecycle

  lemma ConditionNumbers(input: PreviewInput, lifecycle: L.Evaluation, asOf: string)
    ensures |Conditions(input, lifecycle, asOf)| == 11
    ensures forall i | 0 <= i < 11 :: Conditions(input, lifecycle, asOf)[i].number == i + 1
  {
    hide IdentityCondition, DestinationCondition, ScopeCondition, LifecycleCondition, StarCondition;
    hide StarProvenanceCondition, LatitudeCondition, LongitudeCondition, LocationProvenanceCondition;
    hide ConflictCondition, V1ScopeCondition;
  }

  // ---- Lists read through a sort and a filter. ----

  lemma SortedOfKind(k: CandidateKind, e: EntityView)
    ensures |OfKind(k, SortedCandidates(e))| == |OfKind(k, e.acceptedCandidates)|
    ensures forall c :: c in OfKind(k, SortedCandidates(e)) <==> c in e.acceptedCandidates && c.kind == k
  {
    SortByContract(CandidateKey, e.acceptedCandidates);
    FilterPermutation((c: CandidateView) => c.kind == k, SortedCandidates(e), e.acceptedCandidates);
    var a, b := OfKind(k, SortedCandidates(e)), OfKind(k, e.acceptedCandidates);
    assert |multiset(a)| == |a| && |multiset(b)| == |b|;
    forall c ensures c in SortedCandidates(e) <==> c in e.acceptedCandidates {
      assert c in multiset(SortedCandidates(e)) <==> c in multiset(e.acceptedCandidates);
    }
  }

  /** Two accepted hotels that differ, or an accepted hotel beside an accepted new property. */
  predicate Contradicts(accepted: seq<CandidateView>) {
    exists a, b | a in accepted && b in accepted ::
      a.kind.CanonicalHotel?
      && (b.kind.NewProperty? || (b.kind.CanonicalHotel? && a.candidateHotelId != b.candidateHotelId))
  }

  lemma ContradictionMeaning(e: EntityView)
    ensures AcceptedContradiction(e) <==> Contradicts(e.acceptedCandidates)
  {
    SortedOfKind(CanonicalHotel, e);
    SortedOfKind(NewProperty, e);
    var hotels, news := OfKind(CanonicalHotel, SortedCandidates(e)), OfKind(NewProperty, SortedCandidates(e));
    if hotels != [] && news != [] {
      assert hotels[0] in hotels && news[0] in news;
    }
  }

  // ---- PASS as a conjunction. ----

  /** What a human supplied: an active approval naming the unrevoked receipt about this observation. */
  predicate HumanAuthorization(input: PreviewInput) {
    && input.review.Some? && input.humanReview.Some?
    && var rv, r := input.review.value, input.humanReview.value;
       && rv.reviewStatus.Active? && !rv.currentReceiptRevoked
       && rv.currentReceiptId == Some(r.receiptId)
       && r.decision.ApproveCreate?
       && input.identity.currentObservationId == Some(r.evidenceObservationId)
       && (exists f | f in input.entity.acceptedCandidates ::
             f.kind.NewProperty? && r.newPropertyFindingId == Some(f.id))
       && Truthy(rv.destinationId) && r.destinationId == rv.destinationId
       && input.destination.Some? && Some(input.destination.value.id) == rv.destinationId
  }

  /** What the machine evidence must say about the current observation. */
  predicate EntityClear(input: PreviewInput) {
    && input.identity.currentObservationId.Some?
    && input.entity.synchronized && input.entity.pendingCandidateIds == []
    && input.entity.currentAnomalyReasons == [] && !Contradicts(input.entity.acceptedCandidates)
  }

  predicate ScopeClear(input: PreviewInput) {
    && input.scope.Some? && Some(input.scope.value.observationId) == input.identity.currentObservationId
    && input.scope.value.outcome.PhysicalHospitality?
  }

  predicate StarClear(input: PreviewInput) {
    && input.star.Some?
    && var s := input.star.value;
       && Some(s.observationId) == input.identity.currentObservationId && !s.conflict
       && (s.outcome.ExactFour? || s.outcome.ExactFive?)
       && s.revisionId != "" && s.policyProvider != "" && s.policyVersion != ""
  }

  predicate LocationClear(input: PreviewInput) {
    && input.location.Some?
    && var l := input.location.value;
       && Some(l.observationId) == input.identity.currentObservationId && !l.conflict && l.resolved
       && l.latitude.Some? && l.longitude.Some? && l.policyProvider != "" && l.policyVersion != ""
  }

  ghost predicate NotClosed(input: PreviewInput, asOf: string)
    requires D.IsValidIsoDate(Some(asOf))
  {
    && input.snapshot.Some?
    && var s := input.snapshot.value;
       && Some(s.observationId) == input.identity.currentObservationId
       && L.Accounted(s) && L.AllReadable(s, input.policy)
       && forall w | w in s.issues && L.IsMapped(input.policy, w) :: !L.ClosedOn(w, D.DayNumberOf(asOf))
  }

  lemma LifecycleClear(input: PreviewInput, asOf: string)
    requires LifecycleOf(input, asOf).Ok?
    ensures D.IsValidIsoDate(Some(asOf))
    ensures LifecycleCondition(LifecycleOf(input, asOf).value, asOf).status.Pass? <==> NotClosed(input, asOf)
  {
    L.OutcomeMeaning(CurrentSnapshot(input), input.policy, asOf, input.identity.currentObservationId,
                     Some(input.identity.currentObservationId.Some?));
  }

  lemma OneNewFinding(e: EntityView)
    ensures |OfKind(NewProperty, SortedCandidates(e))| == |OfKind(NewProperty, e.acceptedCandidates)|
    ensures var news := OfKind(NewProperty, SortedCandidates(e));
            |news| == 1 ==> forall c :: c in e.acceptedCandidates && c.kind.NewProperty? <==> c == news[0]
  {
    SortedOfKind(NewProperty, e);
    hide OfKind, SortedCandidates;
    var news := OfKind(NewProperty, SortedCandidates(e));
    if |news| == 1 {
      assert forall f :: f in news <==> f == news[0];
    }
  }

  lemma NoConflictMeaning(input: PreviewInput)
    ensures NoConflict(input) <==> EntityClear(input)
  {
    ContradictionMeaning(input.entity);
  }

  predicate ReceiptAuthorizes(input: PreviewInput) {
    && input.review.Some? && input.humanReview.Some?
    && input.review.value.reviewStatus.Active? && !input.review.value.currentReceiptRevoked
    && input.review.value.currentReceiptId == Some(input.humanReview.value.receiptId)
    && input.humanReview.value.decision.ApproveCreate?
    && input.identity.currentObservationId == Some(input.humanReview.value.evidenceObservationId)
  }

  lemma IdentityPasses(input: PreviewInput)
    requires input.review.Some? && input.review.value.decision.ApproveCreate?
    ensures var news := OfKind(NewProperty, SortedCandidates(input.entity));
            IdentityCondition(input).status.Pass? <==>
            EntityClear(input) && |news| == 1 && ReceiptAuthorizes(input)
            && input.humanReview.value.newPropertyFindingId == Some(news[0].id)
  {
    hide EntityEvidence, ReceiptEvidence, ReviewEvidence, RevocationEvidence, PointerEvidence;
    hide OfKind, SortedCandidates, Contradicts;
    NoConflictMeaning(input);
    if NoConflict(input) { }
  }

  lemma DestinationPasses(input: PreviewInput)
    requires input.review.Some? && input.review.value.decision.ApproveCreate? && ReceiptAuthorizes(input)
    ensures var rv, r := input.review.value, input.humanReview.value;
            DestinationCondition(input).status.Pass? <==>
            Truthy(rv.destinationId) && r.destinationId == rv.destinationId
            && input.destination.Some? && Some(input.destination.value.id) == rv.destinationId
  {
    hide DestinationEvidence, ReceiptEvidence, RevocationEvidence, PointerEvidence;
  }

  lemma ListOverall(cs: seq<Condition>)
    ensures Overall(cs).Pass? <==> forall i | 0 <= i < |cs| :: cs[i].status.Pass?
  {
    forall i | 0 <= i < |cs| ensures cs[i] in cs { }
  }

  lemma V1ScopePasses(critical: seq<Condition>)
    ensures V1ScopeCondition(critical).status.Pass? <==> forall i | 0 <= i < |critical| :: critical[i].status.Pass?
  {
    forall i | 0 <= i < |critical| ensures critical[i] in critical { }
  }

  predicate OthersPass(input: PreviewInput, lifecycle: L.Evaluation, asOf: string) {
    var current := input.identity.currentObservationId;
    && IdentityCondition(input).status.Pass? && DestinationCondition(input).status.Pass?
    && ScopeCondition(current, input.scope).status.Pass? && LifecycleCondition(lifecycle, asOf).status.Pass?
    && StarCondition(current, input.star).status.Pass?
    && StarProvenanceCondition(current, input.star).status.Pass?
    && LatitudeCondition(current, input.location).status.Pass?
    && LongitudeCondition(current, input.location).status.Pass?
    && LocationProvenanceCondition(current, input.location).status.Pass?
    && ConflictCondition(input).status.Pass?
  }

  /** Condition 5 is derived: the eleven pass exactly when the other ten do. */
  lemma AllPass(input: PreviewInput, lifecycle: L.Evaluation, asOf: string)
    ensures Overall(Conditions(input, lifecycle, asOf)).Pass? <==> OthersPass(input, lifecycle, asOf)
  {
    hide IdentityCondition, DestinationCondition, ScopeCondition, LifecycleCondition, StarCondition;
    hide StarProvenanceCondition, LatitudeCondition, LongitudeCondition, LocationProvenanceCondition;
    hide ConflictCondition, V1ScopeCondition, Overall;
    var cs := Conditions(input, lifecycle, asOf);
    ListOverall(cs);
    var critical := [cs[0], cs[1], cs[2], cs[3], cs[5], cs[6], cs[10]];
    V1ScopePasses(critical);
    assert cs[4] == V1ScopeCondition(critical);
    if OthersPass(input, lifecycle, asOf) {
      assert forall i | 0 <= i < 7 :: critical[i].status.Pass?;
    }
    assert (forall i | 0 <= i < |cs| :: cs[i].status.Pass?) ==>
      cs[0].status.Pass? && cs[1].status.Pass? && cs[2].status.Pass? && cs[3].status.Pass? && cs[5].status.Pass?
      && cs[6].status.Pass? && cs[7].status.Pass? && cs[8].status.Pass? && cs[9].status.Pass? && cs[10].status.Pass?;
  }

  lemma MachinePasses(input: PreviewInput)
    ensures var current := input.identity.currentObservationId;
      && (ScopeCondition(current, input.scope).status.Pass? <==> ScopeClear(input))
      && (StarCondition(current, input.star).status.Pass? && StarProvenanceCondition(current, input.star).status.Pass?
          <==> StarClear(input))
      && (LatitudeCondition(current, input.location).status.Pass? <==>
          LocationCurrent(current, input.location) && input.location.value.latitude.Some?)
      && (LongitudeCondition(current, input.location).status.Pass? <==>
          LocationCurrent(current, input.location) && input.location.value.longitude.Some?)
      && (LocationProvenanceCondition(current, input.location).status.Pass? <==> LocationClear(input))
  {
    hide ScopeEvidence, StarEvidence, LocationEvidence;
  }

  /**
   Overall PASS for an `approve_create` decision, spelled out: the human authorization names the
   unrevoked, evaluated receipt, and receipt, scope, star, location and issue snapshot all cite the
   one current observation.
   */
  lemma PassMeansFullAuthorization(input: PreviewInput, asOf: string, hash: FingerprintPayload -> string)
    requires input.review.Some? && input.review.value.decision.ApproveCreate?
    requires EvaluatePreview(input, asOf, hash).Ok?
    ensures EvaluatePreview(input, asOf, hash).value.overall.Pass?
       <==> && D.IsValidIsoDate(Some(asOf)) && HumanAuthorization(input) && EntityClear(input)
            && |OfKind(NewProperty, input.entity.acceptedCandidates)| == 1
            && ScopeClear(input) && StarClear(input) && LocationClear(input) && NotClosed(input, asOf)
  {
    hide IdentityCondition, DestinationCondition, LifecycleCondition, Conditions, Overall, LifecycleOf;
    hide ScopeCondition, StarCondition, StarProvenanceCondition, OfKind, SortedCandidates, Contradicts;
    hide LatitudeCondition, LongitudeCondition, LocationProvenanceCondition, NotClosed;
    var lifecycle := LifecycleOf(input, asOf).value;
    AllPass(input, lifecycle, asOf);
    NoConflictMeaning(input);
    OneNewFinding(input.entity);
    IdentityPasses(input);
    if ReceiptAuthorizes(input) {
      DestinationPasses(input);
    }
    MachinePasses(input);
    LifecycleClear(input, asOf);
  }

  // ---- Readiness: what D062 can settle before a human looks. ----

  const NON_REVIEW_CONDITIONS: seq<nat> := [3, 4, 6, 7, 8, 9, 10, 11]
  const REVIEW_DEPENDENT_CONDITIONS: set<nat> := {1, 2, 5}

  /** `reason` is absent for a condition the preview does not carry. */
  datatype Blocking = Blocking(number: nat, status: Status, reason: Option<Reason>)

  function ByNumber(conditions: seq<Condition>, n: nat): Option<Condition> {
    if conditions == [] then None
    else if conditions[0].number == n then Some(conditions[0])
    else ByNumber(conditions[1..], n)
  }

  predicate PassesAt(conditions: seq<Condition>, n: nat) {
    ByNumber(conditions, n).Some? && ByNumber(conditions, n).value.status.Pass?
  }

  function BlockingAt(conditions: seq<Condition>, n: nat): seq<Blocking> {
    match ByNumber(conditions, n)
    case None => [Blocking(n, Unresolved, None)]
    case Some(c) => if c.status.Pass? then [] else [Blocking(c.number, c.status, Some(c.reason))]
  }

  function BlockingOf(conditions: seq<Condition>, numbers: seq<nat>): seq<Blocking> {
    if numbers == [] then []
    else BlockingOf(conditions, numbers[..|numbers| - 1]) + BlockingAt(conditions, numbers[|numbers| - 1])
  }

  lemma NothingBlocksAt(conditions: seq<Condition>, n: nat)
    ensures BlockingAt(conditions, n) == [] <==> PassesAt(conditions, n)
  {
    hide ByNumber;
  }

  lemma BlockingOneMore(conditions: seq<Condition>, numbers: seq<nat>)
    requires numbers != []
    ensures |BlockingOf(conditions, numbers)|
         == |BlockingOf(conditions, numbers[..|numbers| - 1])| + |BlockingAt(conditions, numbers[|numbers| - 1])|
  {
    hide BlockingAt;
  }

  lemma {:induction false} NothingBlocks(conditions: seq<Condition>, numbers: seq<nat>)
    ensures BlockingOf(conditions, numbers) == [] <==> forall i | 0 <= i < |numbers| :: PassesAt(conditions, numbers[i])
  {
    hide BlockingAt, PassesAt;
    if numbers != [] {
      var last := |numbers| - 1;
      NothingBlocks(conditions, numbers[..last]);
      BlockingOneMore(conditions, numbers);
      NothingBlocksAt(conditions, numbers[last]);
      hide BlockingOf;
      assert numbers == numbers[..last] + [numbers[last]];
    }
  }

  predicate FailedOutsideReview(conditions: seq<Condition>) {
    exists c | c in conditions :: c.status.Fail? && c.number !in REVIEW_DEPENDENT_CONDITIONS
  }

  predicate Ready(conditions: seq<Condition>) {
    BlockingOf(conditions, NON_REVIEW_CONDITIONS) == [] && !FailedOutsideReview(conditions)
  }

  method ReadinessOf(result: PreviewResult) returns (ready: bool, blocking: seq<Blocking>)
    ensures blocking == BlockingOf(result.conditions, NON_REVIEW_CONDITIONS)
    ensures ready <==> Ready(result.conditions)
  {
    blocking := [];
    for i := 0 to |NON_REVIEW_CONDITIONS|
      invariant blocking == BlockingOf(result.conditions, NON_REVIEW_CONDITIONS[..i])
    {
      var n := NON_REVIEW_CONDITIONS[i];
      assert NON_REVIEW_CONDITIONS[..i + 1][..i] == NON_REVIEW_CONDITIONS[..i];
      var c := ByNumber(result.conditions, n);
      if c.None? {
        blocking := blocking + [Blocking(n, Unresolved, None)];
      } else if !c.value.status.Pass? {
        blocking := blocking + [Blocking(c.value.number, c.value.status, Some(c.value.reason))];
      }
    }
    assert NON_REVIEW_CONDITIONS[..|NON_REVIEW_CONDITIONS|] == NON_REVIEW_CONDITIONS;
    ready := blocking == [] && !FailedOutsideReview(result.conditions);
  }

  predicate AllElevenPass(conditions: seq<Condition>) {
    forall n | 1 <= n <= 11 :: PassesAt(conditions, n)
  }

  lemma {:induction false} ByNumberAt(conditions: seq<Condition>, first: nat, i: nat)
    requires i < |conditions| && forall j | 0 <= j < |conditions| :: conditions[j].number == first + j
    ensures ByNumber(conditions, first + i) == Some(conditions[i])
  {
    if i > 0 {
      ByNumberAt(conditions[1..], first + 1, i - 1);
    }
  }

  lemma PreviewByNumber(input: PreviewInput, asOf: string, hash: FingerprintPayload -> string)
    requires EvaluatePreview(input, asOf, hash).Ok?
    ensures var cs := EvaluatePreview(input, asOf, hash).value.conditions;
            |cs| == 11 && forall n | 1 <= n <= 11 :: ByNumber(cs, n) == Some(cs[n - 1])
  {
    hide Conditions;
    var cs := EvaluatePreview(input, asOf, hash).value.conditions;
    ConditionNumbers(input, LifecycleOf(input, asOf).value, asOf);
    forall n | 1 <= n <= 11 ensures ByNumber(cs, n) == Some(cs[n - 1]) {
      ByNumberAt(cs, 1, n - 1);
    }
  }

  /** "Every condition PASS" and "overall PASS" agree on every preview the evaluator can produce. */
  lemma ElevenPassIsOverallPass(input: PreviewInput, asOf: string, hash: FingerprintPayload -> string)
    requires EvaluatePreview(input, asOf, hash).Ok?
    ensures var p := EvaluatePreview(input, asOf, hash).value;
            AllElevenPass(p.conditions) <==> p.overall.Pass?
  {
    hide Conditions;
    var cs := EvaluatePreview(input, asOf, hash).value.conditions;
    PreviewByNumber(input, asOf, hash);
    ListOverall(cs);
    if AllElevenPass(cs) {
      forall i | 0 <= i < 11 ensures cs[i].status.Pass? {
        assert PassesAt(cs, i + 1);
      }
    }
  }

  predicate Numbered(cs: seq<Condition>) {
    |cs| == 11 && forall i | 0 <= i < 11 :: cs[i].number == i + 1
  }

  lemma NonReviewBlocks(cs: seq<Condition>)
    requires Numbered(cs)
    ensures BlockingOf(cs, NON_REVIEW_CONDITIONS) == [] <==>
      && cs[2].status.Pass? && cs[3].status.Pass? && cs[5].status.Pass? && cs[6].status.Pass?
      && cs[7].status.Pass? && cs[8].status.Pass? && cs[9].status.Pass? && cs[10].status.Pass?
  {
    hide BlockingOf, ByNumber;
    NothingBlocks(cs, NON_REVIEW_CONDITIONS);
    forall i | 0 <= i < 11 ensures PassesAt(cs, i + 1) <==> cs[i].status.Pass? {
      ByNumberAt(cs, 1, i);
    }
    var ns := NON_REVIEW_CONDITIONS;
    assert ns[0] == 3 && ns[1] == 4 && ns[2] == 6 && ns[3] == 7 && ns[4] == 8 && ns[5] == 9 && ns[6] == 10 && ns[7] == 11;
    assert (forall i | 0 <= i < 8 :: PassesAt(cs, ns[i])) ==>
      && PassesAt(cs, 3) && PassesAt(cs, 4) && PassesAt(cs, 6) && PassesAt(cs, 7)
      && PassesAt(cs, 8) && PassesAt(cs, 9) && PassesAt(cs, 10) && PassesAt(cs, 11);
  }

  lemma ReadyByIndex(cs: seq<Condition>)
    requires Numbered(cs)
    ensures Ready(cs) <==>
      && cs[2].status.Pass? && cs[3].status.Pass? && cs[5].status.Pass? && cs[6].status.Pass?
      && cs[7].status.Pass? && cs[8].status.Pass? && cs[9].status.Pass? && cs[10].status.Pass?
  {
    hide BlockingOf;
    NonReviewBlocks(cs);
    if BlockingOf(cs, NON_REVIEW_CONDITIONS) == [] && FailedOutsideReview(cs) {
      var c :| c in cs && c.status.Fail? && c.number !in REVIEW_DEPENDENT_CONDITIONS;
      var i :| 0 <= i < 11 && cs[i] == c;
      assert false;
    }
  }

  /**
   Readiness is exactly the machine half of the PASS conjunction, so nothing a human writes
   (review, destination, target hotel, receipt) can make an identity ready or unready.
   */
  lemma ReadyMeansMachineEvidenceClear(input: PreviewInput, asOf: string, hash: FingerprintPayload -> string)
    requires EvaluatePreview(input, asOf, hash).Ok?
    ensures Ready(EvaluatePreview(input, asOf, hash).value.conditions)
       <==> && D.IsValidIsoDate(Some(asOf)) && EntityClear(input) && ScopeClear(input) && StarClear(input)
            && LocationClear(input) && NotClosed(input, asOf)
  {
    hide LifecycleCondition, Overall, LifecycleOf, Contradicts, NotClosed, V1ScopeCondition, Ready, BlockingOf, ByNumber;
    hide IdentityCondition, DestinationCondition, ScopeCondition, StarCondition, StarProvenanceCondition;
    hide LatitudeCondition, LongitudeCondition, LocationProvenanceCondition, EntityEvidence, NoConflict;
    var cs := EvaluatePreview(input, asOf, hash).value.conditions;
    ConditionNumbers(input, LifecycleOf(input, asOf).value, asOf);
    ReadyByIndex(cs);
    MachinePasses(input);
    LifecycleClear(input, asOf);
    NoConflictMeaning(input);
  }
}

/**
 What a preview's fingerprint pins (scripts/prepublication-preview/evaluate.ts): with a hash that never collides,
 two previews share one exactly when identity, date and the eleven conditions agree, and then every row the gate
 looked at is the same row.
 */
module FingerprintMeaning {
  import opened Prelude
  import opened Text
  import opened Sequences
  import opened Gate
  import opened EvidenceReadback
  import G = GateMeaning
  import L = Lifecycle
  import D = Dates

  type Hash = FingerprintPayload -> string

  ghost predicate Injective(hash: Hash) { forall p, q :: hash(p) == hash(q) ==> p == q }

  /** Two previews share a fingerprint exactly when they are of one identity, on one date, with the same conditions. */
  lemma FingerprintsAgreeIff(a: PreviewInput, d: string, b: PreviewInput, e: string, hash: Hash)
    requires Injective(hash) && EvaluatePreview(a, d, hash).Ok? && EvaluatePreview(b, e, hash).Ok?
    ensures var p, q := EvaluatePreview(a, d, hash).value, EvaluatePreview(b, e, hash).value;
      p.fingerprint == q.fingerprint <==> a.identity == b.identity && d == e && p.conditions == q.conditions
  {
    hide Conditions, Overall, LifecycleOf;
  }

  /** The preview says whose it is, and its overall status is the conditions': FAIL beats UNRESOLVED beats PASS. */
  lemma PreviewHeader(input: PreviewInput, asOf: string, hash: Hash)
    requires EvaluatePreview(input, asOf, hash).Ok?
    ensures var p := EvaluatePreview(input, asOf, hash).value;
      && p.identityId == input.identity.id && p.source == input.identity.source
      && p.environment == input.identity.environment && p.asOf == asOf && |p.conditions| == 11
      && (p.overall.Fail? <==> exists c | c in p.conditions :: c.status.Fail?)
      && (p.overall.Pass? <==> forall c | c in p.conditions :: c.status.Pass?)
  {
    hide Conditions, LifecycleOf;
    G.ConditionNumbers(input, LifecycleOf(input, asOf).value, asOf);
  }

  // ---- Scope, star, location. ----

  predicate IsCurrent(input: PreviewInput, observationId: Id) { input.identity.currentObservationId == Some(observationId) }

  /** The same scope row as far as the gate looks: its ids always, the whole row when it cites the current observation. */
  predicate SameScope(a: PreviewInput, b: PreviewInput) {
    && (a.scope.Some? <==> b.scope.Some?)
    && (a.scope.Some? ==>
          && a.scope.value.revisionId == b.scope.value.revisionId
          && a.scope.value.observationId == b.scope.value.observationId
          && (IsCurrent(a, a.scope.value.observationId) ==> a.scope == b.scope))
  }

  lemma ScopeShown(a: PreviewInput, b: PreviewInput)
    requires a.identity == b.identity
    requires ScopeCondition(a.identity.currentObservationId, a.scope) == ScopeCondition(b.identity.currentObservationId, b.scope)
    ensures SameScope(a, b)
  {
    hide ScopeEvidence, ReadScope;
    var current := a.identity.currentObservationId;
    if a.scope.Some? { ScopeReadsBack(a.scope.value); }
    if b.scope.Some? { ScopeReadsBack(b.scope.value); }
    var e, f := ScopeCondition(current, a.scope).evidence, ScopeCondition(current, b.scope).evidence;
    assert At(e, "scopeRevisionId") == At(f, "scopeRevisionId");
    assert At(e, "evidenceObservationId") == At(f, "evidenceObservationId");
  }

  /** The same star row: its ids always, the whole row when it cites the current observation without conflict. */
  predicate SameStar(a: PreviewInput, b: PreviewInput) {
    && (a.star.Some? <==> b.star.Some?)
    && (a.star.Some? ==>
          && a.star.value.revisionId == b.star.value.revisionId
          && a.star.value.observationId == b.star.value.observationId
          && (IsCurrent(a, a.star.value.observationId) && !a.star.value.conflict ==> a.star == b.star))
  }

  lemma StarShown(a: PreviewInput, b: PreviewInput)
    requires a.identity == b.identity
    requires StarCondition(a.identity.currentObservationId, a.star) == StarCondition(b.identity.currentObservationId, b.star)
    ensures SameStar(a, b)
  {
    hide StarEvidence, ReadStar;
    var current := a.identity.currentObservationId;
    if a.star.Some? { StarReadsBack(a.star.value); }
    if b.star.Some? { StarReadsBack(b.star.value); }
    var e, f := StarCondition(current, a.star).evidence, StarCondition(current, b.star).evidence;
    assert At(e, "starRevisionId") == At(f, "starRevisionId");
    assert At(e, "evidenceObservationId") == At(f, "evidenceObservationId");
  }

  /** The same location row: its revision always, the whole row when it is a current resolved point. */
  predicate SameLocation(a: PreviewInput, b: PreviewInput) {
    && (a.location.Some? <==> b.location.Some?)
    && (a.location.Some? ==>
          && a.location.value.revisionId == b.location.value.revisionId
          && (PointShown(a) ==> a.location == b.location))
  }

  predicate PointShown(input: PreviewInput) {
    && input.location.Some?
    && var l := input.location.value;
       IsCurrent(input, l.observationId) && !l.conflict && l.resolved && (l.latitude.Some? || l.longitude.Some?)
  }

  lemma LocationShown(a: PreviewInput, b: PreviewInput)
    requires a.identity == b.identity
    requires LatitudeCondition(a.identity.currentObservationId, a.location) == LatitudeCondition(b.identity.currentObservationId, b.location)
    requires LongitudeCondition(a.identity.currentObservationId, a.location) == LongitudeCondition(b.identity.currentObservationId, b.location)
    ensures SameLocation(a, b)
  {
    hide LocationEvidence, ReadLocation;
    var current := a.identity.currentObservationId;
    if a.location.Some? { LocationReadsBack(a.location.value); }
    if b.location.Some? { LocationReadsBack(b.location.value); }
    var e, f := LatitudeCondition(current, a.location).evidence, LatitudeCondition(current, b.location).evidence;
    assert At(e, "revisionId") == At(f, "revisionId");
  }

  // ---- Lifecycle and entity evidence. ----

  /** The same lifecycle verdict over the same windows, each list in its printed order. */
  predicate SameLifecycle(e: L.Evaluation, f: L.Evaluation) {
    && e.outcome == f.outcome && e.asOf == f.asOf && e.policyProvider == f.policyProvider
    && e.policyVersion == f.policyVersion && e.observationId == f.observationId && e.snapshotId == f.snapshotId
    && SortBy(IssueKey, e.mappedWindows) == SortBy(IssueKey, f.mappedWindows)
    && SortBy(ClosureKey, e.activeClosureWindows) == SortBy(ClosureKey, f.activeClosureWindows)
    && SortBy(Self, e.unresolvedReasons) == SortBy(Self, f.unresolvedReasons)
  }

  lemma LifecycleShown(e: L.Evaluation, f: L.Evaluation, asOf: string)
    requires LifecycleCondition(e, asOf) == LifecycleCondition(f, asOf)
    ensures SameLifecycle(e, f)
  {
    hide LifecycleEvidence, ReadLifecycle, SortBy;
    LifecycleReadsBack(e);
    LifecycleReadsBack(f);
  }

  /** The same sync verdict, candidates, open candidates and anomalies, each list in its printed order. */
  predicate SameEntity(a: PreviewInput, b: PreviewInput) { PrintedEntity(a.entity) == PrintedEntity(b.entity) }

  lemma EntityShown(a: PreviewInput, b: PreviewInput)
    requires ConflictCondition(a) == ConflictCondition(b)
    ensures SameEntity(a, b)
  {
    hide EntityEvidence, ReadEntity, PrintedEntity, NoConflict, AcceptedContradiction;
    EntityReadsBack(a.entity);
    EntityReadsBack(b.entity);
  }

  // ---- Review, receipt and target hotel. ----

  /** The destination named by the review is the one loaded. */
  predicate DestinationResolves(input: PreviewInput) {
    && input.review.Some? && Truthy(input.review.value.destinationId) && input.destination.Some?
    && input.destination.value.id == input.review.value.destinationId.value
  }

  predicate Creates(input: PreviewInput) { input.review.Some? && input.review.value.decision.ApproveCreate? }

  predicate Withdrawn(input: PreviewInput) {
    input.review.Some? && (input.review.value.currentReceiptRevoked || input.review.value.reviewStatus.Revoked?)
  }

  /** Condition 1 prints the receipt: a clear approval that is withdrawn, or stands on one new-property finding. */
  predicate ReceiptInIdentity(input: PreviewInput) {
    && Creates(input) && G.EntityClear(input)
    && (Withdrawn(input) || |OfKind(NewProperty, input.entity.acceptedCandidates)| == 1)
  }

  /** Condition 2 prints the receipt: an approval whose destination resolves. */
  predicate ReceiptInDestination(input: PreviewInput) { Creates(input) && DestinationResolves(input) }

  /** An object that shows the receipt evidence ends in it, perhaps with the pointer's or the revocation's columns after it. */
  predicate EndsInReceipt(e: Evidence, base: Evidence, input: PreviewInput) {
    var full := base + ReceiptEvidence(input);
    e == full || e == full + RevocationEvidence(input) || e == full + PointerEvidence(input)
  }

  lemma IdentityForm(input: PreviewInput)
    ensures var e, base := IdentityCondition(input).evidence, ReviewEvidence(input.review) + EntityEvidence(input.entity);
      if ReceiptInIdentity(input) then EndsInReceipt(e, base, input) else e == base
  {
    hide OfKind, SortedCandidates, G.Contradicts, AcceptedContradiction, G.EntityClear, NoConflict;
    hide ReviewEvidence, EntityEvidence, ReceiptEvidence, RevocationEvidence, PointerEvidence, ReceiptCurrent;
    hide ClaimsNoReceipt, ClaimsOtherReceipt;
    G.NoConflictMeaning(input);
    G.OneNewFinding(input.entity);
    ContradictionIsConflict(input);
  }

  /** No later column overwrites the receipt's. */
  lemma ReceiptStandsApart(input: PreviewInput)
    ensures ReceiptEvidence(input).Keys !! RevocationEvidence(input).Keys
    ensures ReceiptEvidence(input).Keys !! PointerEvidence(input).Keys
    ensures "currentObservationId" in ReceiptEvidence(input)
    ensures "receiptId" in ReceiptEvidence(input) <==> input.humanReview.Some?
    ensures "receiptId" !in RevocationEvidence(input) && "receiptId" !in PointerEvidence(input)
  {
    RevocationKeys(input);
    PointerKeys(input);
    hide ReceiptEvidence, RevocationEvidence, PointerEvidence;
    ReceiptHasNoStatus(input);
    ReceiptHasNoPointer(input);
  }

  lemma ReceiptSurvives(e: Evidence, base: Evidence, input: PreviewInput)
    requires EndsInReceipt(e, base, input)
    ensures Shows(e, ReceiptEvidence(input)) && "currentObservationId" in e
    ensures input.humanReview.None? ==> ("receiptId" in e <==> "receiptId" in base)
  {
    hide ReceiptEvidence, RevocationEvidence, PointerEvidence;
    ReceiptStandsApart(input);
  }

  lemma BaseKeys(input: PreviewInput)
    ensures "currentObservationId" !in ReviewEvidence(input.review) + EntityEvidence(input.entity)
    ensures "receiptId" !in ReviewEvidence(input.review) + EntityEvidence(input.entity)
    ensures "currentObservationId" !in DestinationEvidence(input) && "receiptId" !in DestinationEvidence(input)
  {
    EntityKeys(input.entity);
    ReviewKeys(input.review);
    hide ReviewEvidence, EntityEvidence;
  }

  /** Condition 1 prints the receipt exactly when it looks at it. */
  lemma IdentityParts(input: PreviewInput)
    ensures var e := IdentityCondition(input).evidence;
      && (ReceiptInIdentity(input) <==> "currentObservationId" in e)
      && (ReceiptInIdentity(input) ==> Shows(e, ReceiptEvidence(input)))
      && (ReceiptInIdentity(input) && input.humanReview.None? ==> "receiptId" !in e)
      && (!ReceiptInIdentity(input) ==> e == ReviewEvidence(input.review) + EntityEvidence(input.entity))
  {
    hide IdentityCondition, ReceiptInIdentity, EndsInReceipt, ReviewEvidence, EntityEvidence, ReceiptEvidence, Shows;
    IdentityForm(input);
    BaseKeys(input);
    if ReceiptInIdentity(input) {
      ReceiptSurvives(IdentityCondition(input).evidence, ReviewEvidence(input.review) + EntityEvidence(input.entity), input);
    }
  }

  lemma DestinationForm(input: PreviewInput)
    ensures var e := DestinationCondition(input).evidence;
      if ReceiptInDestination(input)
      then EndsInReceipt(e, DestinationEvidence(input), input) || e == ResolvedEvidence(input) + (ReceiptEvidence(input) + RevocationEvidence(input))
      else e == DestinationEvidence(input) || (DestinationResolves(input) && e == ResolvedEvidence(input) + map[])
  {
    hide ReviewEvidence, DestinationEvidence, ReceiptEvidence, RevocationEvidence, PointerEvidence, ReceiptCurrent;
    hide ClaimsNoReceipt, ClaimsOtherReceipt;
  }

  function ResolvedEvidence(input: PreviewInput): Evidence
    requires DestinationResolves(input)
  {
    var resolved: Evidence := map["destinationId" := Str(input.destination.value.id),
                                  "destinationSlug" := Str(input.destination.value.slug)];
    DestinationEvidence(input) + resolved
  }

  lemma ResolvedKeys(input: PreviewInput)
    requires DestinationResolves(input)
    ensures "currentObservationId" !in ResolvedEvidence(input) && "receiptId" !in ResolvedEvidence(input)
  {
    hide DestinationEvidence;
    BaseKeys(input);
  }

  /** Condition 2 prints the receipt exactly when it looks at it. */
  lemma DestinationParts(input: PreviewInput)
    ensures var e := DestinationCondition(input).evidence;
      && (ReceiptInDestination(input) <==> "currentObservationId" in e)
      && (ReceiptInDestination(input) ==> Shows(e, ReceiptEvidence(input)))
      && (ReceiptInDestination(input) && input.humanReview.None? ==> "receiptId" !in e)
  {
    hide DestinationCondition, EndsInReceipt, DestinationEvidence, ReceiptEvidence, RevocationEvidence, Shows, ResolvedEvidence;
    hide ReviewEvidence, EntityEvidence;
    DestinationForm(input);
    BaseKeys(input);
    var e := DestinationCondition(input).evidence;
    if DestinationResolves(input) {
      ResolvedKeys(input);
    }
    if ReceiptInDestination(input) {
      if EndsInReceipt(e, DestinationEvidence(input), input) {
        ReceiptSurvives(e, DestinationEvidence(input), input);
      } else {
        ReceiptAtEnd(e, ResolvedEvidence(input), input);
      }
    }
  }

  lemma ReceiptAtEnd(e: Evidence, base: Evidence, input: PreviewInput)
    requires e == base + (ReceiptEvidence(input) + RevocationEvidence(input)) && "receiptId" !in base
    ensures Shows(e, ReceiptEvidence(input)) && "currentObservationId" in e
    ensures input.humanReview.None? ==> "receiptId" !in e
  {
    hide ReceiptEvidence, RevocationEvidence, PointerEvidence;
    ReceiptStandsApart(input);
  }

  lemma ContradictionIsConflict(input: PreviewInput)
    ensures AcceptedContradiction(input.entity) ==> !NoConflict(input)
  {
    hide AcceptedContradiction;
  }

  lemma EntityKeys(e: EntityView)
    ensures EntityEvidence(e).Keys
         == {"synchronized", "acceptedCandidates", "acceptedContradiction", "pendingCandidateIds", "currentAnomalyReasons"}
  {
    hide SortBy, Map, SortedCandidates, AcceptedContradiction;
  }

  lemma ReviewKeys(review: Option<ReviewView>)
    ensures ReviewEvidence(review).Keys == if review.None? then {"review"} else REVIEW_COLUMNS
  {
    hide OptStr, DecisionText, StatusText;
  }

  lemma ReceiptKeys(input: PreviewInput)
    ensures ReceiptEvidence(input).Keys ==
      if input.humanReview.None? then {"humanReviewReceipt", "currentObservationId"}
      else RECEIPT_COLUMNS + {"receiptIsCurrent", "currentObservationId"}
  {
    hide OptStr, DecisionText, SortBy, Map, ReceiptCurrent, VerificationValue;
  }

  lemma RevocationKeys(input: PreviewInput)
    ensures RevocationEvidence(input).Keys
         == {"reviewStatus", "currentReceiptRevoked", "currentReceiptRevocationId", "revocationStateCoherent"}
  {
  }

  lemma PointerKeys(input: PreviewInput)
    ensures PointerEvidence(input).Keys == {"projectionCurrentReceiptId", "evaluatedReceiptId"}
  {
  }

  /** The gate looks at the receipt at all. */
  predicate ReceiptLookedAt(input: PreviewInput) { ReceiptInIdentity(input) || ReceiptInDestination(input) }

  /** The same receipt row, verifications in dimension order, whenever the gate looks at one. */
  predicate SameReceipt(a: PreviewInput, b: PreviewInput) {
    && (ReceiptLookedAt(a) <==> ReceiptLookedAt(b))
    && (ReceiptLookedAt(a) ==>
          && (a.humanReview.Some? <==> b.humanReview.Some?)
          && (a.humanReview.Some? ==> SortedReceipt(a.humanReview.value) == SortedReceipt(b.humanReview.value)))
  }

  lemma ReceiptIn(e: Evidence, a: PreviewInput, b: PreviewInput)
    requires Shows(e, ReceiptEvidence(a)) && Shows(e, ReceiptEvidence(b))
    requires a.humanReview.None? ==> "receiptId" !in e
    requires b.humanReview.None? ==> "receiptId" !in e
    ensures a.humanReview.Some? <==> b.humanReview.Some?
    ensures a.humanReview.Some? ==> SortedReceipt(a.humanReview.value) == SortedReceipt(b.humanReview.value)
  {
    hide ReceiptEvidence, ReadReceipt, SortedReceipt;
    if a.humanReview.Some? {
      ReceiptColumnsShown(a);
      ReceiptReadsBack(e, a);
      assert "receiptId" in RECEIPT_COLUMNS;
    }
    if b.humanReview.Some? {
      ReceiptColumnsShown(b);
      ReceiptReadsBack(e, b);
      assert "receiptId" in RECEIPT_COLUMNS;
    }
  }

  lemma ReceiptShown(a: PreviewInput, b: PreviewInput)
    requires IdentityCondition(a) == IdentityCondition(b) && DestinationCondition(a) == DestinationCondition(b)
    ensures SameReceipt(a, b)
  {
    hide IdentityCondition, DestinationCondition, ReceiptInIdentity, ReceiptInDestination, ReceiptEvidence, Shows, SortedReceipt;
    hide ReviewEvidence, EntityEvidence;
    IdentityParts(a);
    IdentityParts(b);
    DestinationParts(a);
    DestinationParts(b);
    if ReceiptInIdentity(a) {
      ReceiptIn(IdentityCondition(a).evidence, a, b);
    } else if ReceiptInDestination(a) {
      ReceiptIn(DestinationCondition(a).evidence, a, b);
    }
  }

  /** The review's own columns that no receipt column shares a name with. */
  const KEPT_COLUMNS: set<string> :=
    {"id", "targetHotelId", "decidedInRunId", "reviewNote", "reviewStatus", "currentReceiptId", "currentReceiptRevoked",
     "currentReceiptRevocationId"}

  predicate SameKept(r: ReviewView, s: ReviewView) {
    && r.id == s.id && r.decision == s.decision && r.destinationId == s.destinationId && r.targetHotelId == s.targetHotelId
    && r.decidedInRunId == s.decidedInRunId && r.reviewNote == s.reviewNote && r.reviewStatus == s.reviewStatus
    && r.currentReceiptId == s.currentReceiptId && r.currentReceiptRevoked == s.currentReceiptRevoked
    && r.currentReceiptRevocationId == s.currentReceiptRevocationId
  }

  /**
   The same review row, the target hotel with it. Where condition 1 prints the receipt, the reviewer's user, label and
   time are the receipt's: its columns overwrite the projection's under the same names.
   */
  predicate SameReview(a: PreviewInput, b: PreviewInput) {
    && (a.review.Some? <==> b.review.Some?) && a.targetHotel == b.targetHotel
    && (a.review.Some? ==> SameKept(a.review.value, b.review.value))
    && (!ReceiptInIdentity(a) ==> a.review == b.review)
  }

  lemma KeptApart(input: PreviewInput)
    ensures KEPT_COLUMNS !! EntityEvidence(input.entity).Keys && KEPT_COLUMNS !! ReceiptEvidence(input).Keys
    ensures KEPT_COLUMNS !! PointerEvidence(input).Keys
    ensures REVIEW_COLUMNS + {"review"} !! EntityEvidence(input.entity).Keys
  {
    hide EntityEvidence, ReceiptEvidence, PointerEvidence;
    KeptApartFromEntity(input);
    KeptApartFromReceipt(input);
    KeptApartFromPointer(input);
  }

  lemma KeptApartFromEntity(input: PreviewInput)
    ensures KEPT_COLUMNS !! EntityEvidence(input.entity).Keys && REVIEW_COLUMNS + {"review"} !! EntityEvidence(input.entity).Keys
  {
    EntityKeys(input.entity);
    hide EntityEvidence;
    assert KEPT_COLUMNS <= REVIEW_COLUMNS;
    var keys := EntityEvidence(input.entity).Keys;
    assert "synchronized" !in REVIEW_COLUMNS && "acceptedCandidates" !in REVIEW_COLUMNS;
    assert "acceptedContradiction" !in REVIEW_COLUMNS && "pendingCandidateIds" !in REVIEW_COLUMNS;
    assert "currentAnomalyReasons" !in REVIEW_COLUMNS && "review" !in keys;
  }

  lemma KeptApartFromReceipt(input: PreviewInput)
    ensures KEPT_COLUMNS !! ReceiptEvidence(input).Keys
  {
    hide ReceiptEvidence;
    ReceiptHasNoReviewRow(input);
    ReceiptHasNoStatus(input);
  }

  lemma ReceiptHasNoReviewRow(input: PreviewInput)
    ensures var keys := ReceiptEvidence(input).Keys;
      "id" !in keys && "targetHotelId" !in keys && "decidedInRunId" !in keys && "reviewNote" !in keys
  {
    ReceiptKeys(input);
    hide ReceiptEvidence;
  }

  lemma ReceiptHasNoStatus(input: PreviewInput)
    ensures var keys := ReceiptEvidence(input).Keys;
      && "reviewStatus" !in keys && "currentReceiptId" !in keys && "currentReceiptRevoked" !in keys
      && "currentReceiptRevocationId" !in keys
  {
    ReceiptKeys(input);
    hide ReceiptEvidence;
  }

  lemma ReceiptHasNoPointer(input: PreviewInput)
    ensures var keys := ReceiptEvidence(input).Keys;
      "revocationStateCoherent" !in keys && "projectionCurrentReceiptId" !in keys && "evaluatedReceiptId" !in keys
    ensures "currentObservationId" in ReceiptEvidence(input) && ("receiptId" in ReceiptEvidence(input) <==> input.humanReview.Some?)
  {
    ReceiptKeys(input);
    hide ReceiptEvidence;
  }

  lemma KeptApartFromPointer(input: PreviewInput)
    ensures KEPT_COLUMNS !! PointerEvidence(input).Keys
  {
    PointerKeys(input);
    hide PointerEvidence;
    assert "projectionCurrentReceiptId" !in KEPT_COLUMNS && "evaluatedReceiptId" !in KEPT_COLUMNS;
  }

  lemma RevocationRepeatsReview(input: PreviewInput, k: string)
    requires input.review.Some? && k in KEPT_COLUMNS && k in RevocationEvidence(input)
    ensures k in ReviewEvidence(input.review) && RevocationEvidence(input)[k] == ReviewEvidence(input.review)[k]
  {
    hide OptStr, StatusText, DecisionText;
  }

  lemma KeptColumn(input: PreviewInput, k: string)
    requires ReceiptInIdentity(input) && k in KEPT_COLUMNS
    ensures At(IdentityCondition(input).evidence, k) == At(ReviewEvidence(input.review), k)
  {
    hide IdentityCondition, ReviewEvidence, EntityEvidence, ReceiptEvidence, PointerEvidence, RevocationEvidence;
    IdentityForm(input);
    KeptApart(input);
    if k in RevocationEvidence(input) {
      RevocationRepeatsReview(input, k);
    }
  }

  lemma SameColumnsSameKept(r: ReviewView, s: ReviewView)
    requires r.decision == s.decision && r.destinationId == s.destinationId
    requires forall k | k in KEPT_COLUMNS :: At(ReviewEvidence(Some(r)), k) == At(ReviewEvidence(Some(s)), k)
    ensures SameKept(r, s)
  {
    hide ReviewEvidence, At, DecisionText, StatusText, OptStr;
    ReviewColumnValues(r);
    ReviewColumnValues(s);
    var e, f := ReviewEvidence(Some(r)), ReviewEvidence(Some(s));
    assert At(e, "id") == At(f, "id") && At(e, "targetHotelId") == At(f, "targetHotelId");
    assert At(e, "decidedInRunId") == At(f, "decidedInRunId") && At(e, "reviewNote") == At(f, "reviewNote");
    assert At(e, "reviewStatus") == At(f, "reviewStatus") && At(e, "currentReceiptId") == At(f, "currentReceiptId");
    assert At(e, "currentReceiptRevoked") == At(f, "currentReceiptRevoked");
    assert At(e, "currentReceiptRevocationId") == At(f, "currentReceiptRevocationId");
    OptStrInjective(r.targetHotelId, s.targetHotelId);
    OptStrInjective(r.decidedInRunId, s.decidedInRunId);
    OptStrInjective(r.reviewNote, s.reviewNote);
    OptStrInjective(r.currentReceiptId, s.currentReceiptId);
    OptStrInjective(r.currentReceiptRevocationId, s.currentReceiptRevocationId);
    StatusReadsBack(r.reviewStatus);
    StatusReadsBack(s.reviewStatus);
  }

  lemma OptStrInjective(o: Option<string>, p: Option<string>)
    ensures OptStr(o) == OptStr(p) ==> o == p
  {
  }

  const DESTINATION_COLUMNS: set<string> :=
    {"reviewedDestinationId", "targetHotelId", "targetHotelDestinationId", "targetHotelDestinationSlug"}

  lemma DestinationApart(input: PreviewInput)
    ensures DESTINATION_COLUMNS !! ReceiptEvidence(input).Keys && DESTINATION_COLUMNS !! PointerEvidence(input).Keys
    ensures DESTINATION_COLUMNS !! RevocationEvidence(input).Keys
  {
    PointerKeys(input);
    RevocationKeys(input);
    hide ReceiptEvidence, PointerEvidence, RevocationEvidence;
    ReceiptHasNoTarget(input);
  }

  lemma ReceiptHasNoTarget(input: PreviewInput)
    ensures var keys := ReceiptEvidence(input).Keys;
      && "reviewedDestinationId" !in keys && "targetHotelId" !in keys && "targetHotelDestinationId" !in keys
      && "targetHotelDestinationSlug" !in keys
  {
    ReceiptKeys(input);
    hide ReceiptEvidence;
  }

  lemma DestinationColumn(input: PreviewInput, k: string)
    requires k in DESTINATION_COLUMNS
    ensures At(DestinationCondition(input).evidence, k) == At(DestinationEvidence(input), k)
  {
    hide DestinationCondition, ReceiptEvidence, PointerEvidence, RevocationEvidence, DestinationEvidence;
    DestinationForm(input);
    DestinationApart(input);
  }

  lemma DestinationColumnValues(input: PreviewInput)
    ensures var e := DestinationEvidence(input);
      && At(e, "reviewedDestinationId") == (if input.review.Some? then OptStr(input.review.value.destinationId) else Null)
      && At(e, "targetHotelId") == (if input.targetHotel.Some? then Str(input.targetHotel.value.id) else Null)
      && At(e, "targetHotelDestinationId") == (if input.targetHotel.Some? then Str(input.targetHotel.value.destinationId) else Null)
      && At(e, "targetHotelDestinationSlug") == (if input.targetHotel.Some? then Str(input.targetHotel.value.destinationSlug) else Null)
  {
    hide ReviewEvidence, OptStr;
  }

  lemma DestinationShown(a: PreviewInput, b: PreviewInput)
    requires DestinationCondition(a) == DestinationCondition(b)
    ensures a.targetHotel == b.targetHotel
    ensures a.review.Some? && b.review.Some? ==> a.review.value.destinationId == b.review.value.destinationId
  {
    hide DestinationCondition, DestinationEvidence, At, OptStr;
    DestinationColumnValues(a);
    DestinationColumnValues(b);
    DestinationColumn(a, "reviewedDestinationId");
    DestinationColumn(b, "reviewedDestinationId");
    DestinationColumn(a, "targetHotelId");
    DestinationColumn(b, "targetHotelId");
    DestinationColumn(a, "targetHotelDestinationId");
    DestinationColumn(b, "targetHotelDestinationId");
    DestinationColumn(a, "targetHotelDestinationSlug");
    DestinationColumn(b, "targetHotelDestinationSlug");
    if a.review.Some? && b.review.Some? {
      OptStrInjective(a.review.value.destinationId, b.review.value.destinationId);
    }
  }

  lemma BaseShowsReview(input: PreviewInput)
    ensures ReadReview(ReviewEvidence(input.review) + EntityEvidence(input.entity)) == input.review
  {
    KeptApart(input);
    ReviewKeys(input.review);
    hide EntityEvidence, ReviewEvidence, ReadReview;
    assert "id" in REVIEW_COLUMNS;
    ReviewReadsBack(ReviewEvidence(input.review) + EntityEvidence(input.entity), input.review);
  }

  lemma ReviewShown(a: PreviewInput, b: PreviewInput)
    requires IdentityCondition(a) == IdentityCondition(b) && DestinationCondition(a) == DestinationCondition(b)
    ensures SameReview(a, b)
  {
    hide IdentityCondition, DestinationCondition, ReviewEvidence, EntityEvidence, ReceiptEvidence, Shows, SameKept;
    hide ReadReview, G.EntityClear, Withdrawn, OfKind;
    IdentityParts(a);
    IdentityParts(b);
    DestinationShown(a, b);
    if ReceiptInIdentity(a) {
      forall k | k in KEPT_COLUMNS
        ensures At(ReviewEvidence(Some(a.review.value)), k) == At(ReviewEvidence(Some(b.review.value)), k)
      {
        KeptColumn(a, k);
        KeptColumn(b, k);
      }
      SameColumnsSameKept(a.review.value, b.review.value);
    } else {
      BaseShowsReview(a);
      BaseShowsReview(b);
      SameKeptReflexive(a.review);
    }
  }

  lemma SameKeptReflexive(review: Option<ReviewView>)
    ensures review.Some? ==> SameKept(review.value, review.value)
  {
  }

  // ---- The whole fingerprint. ----

  /** Everything the gate looked at, row by row. */
  predicate SameEvidence(a: PreviewInput, b: PreviewInput) {
    SameReview(a, b) && SameReceipt(a, b) && SameEntity(a, b) && SameScope(a, b) && SameStar(a, b) && SameLocation(a, b)
  }

  lemma SameConditionsAt(a: PreviewInput, d: string, b: PreviewInput)
    requires LifecycleOf(a, d).Ok? && LifecycleOf(b, d).Ok? && a.identity == b.identity
    requires Conditions(a, LifecycleOf(a, d).value, d) == Conditions(b, LifecycleOf(b, d).value, d)
    ensures var c := a.identity.currentObservationId;
      && IdentityCondition(a) == IdentityCondition(b) && DestinationCondition(a) == DestinationCondition(b)
      && ScopeCondition(c, a.scope) == ScopeCondition(c, b.scope)
      && LifecycleCondition(LifecycleOf(a, d).value, d) == LifecycleCondition(LifecycleOf(b, d).value, d)
      && StarCondition(c, a.star) == StarCondition(c, b.star)
      && LatitudeCondition(c, a.location) == LatitudeCondition(c, b.location)
      && LongitudeCondition(c, a.location) == LongitudeCondition(c, b.location)
      && ConflictCondition(a) == ConflictCondition(b)
  {
    hide IdentityCondition, DestinationCondition, ScopeCondition, LifecycleCondition, StarCondition, StarProvenanceCondition;
    hide LatitudeCondition, LongitudeCondition, LocationProvenanceCondition, ConflictCondition, V1ScopeCondition, LifecycleOf;
    var cs, ds := Conditions(a, LifecycleOf(a, d).value, d), Conditions(b, LifecycleOf(b, d).value, d);
    assert cs[0] == ds[0] && cs[1] == ds[1] && cs[2] == ds[2] && cs[3] == ds[3] && cs[5] == ds[5];
    assert cs[7] == ds[7] && cs[8] == ds[8] && cs[10] == ds[10];
  }

  /**
   One fingerprint, one body of evidence: equal fingerprints mean the same identity and current observation, the
   same date, and the same review, receipt, entity, scope, star, location and lifecycle rows as far as the gate
   looks at them.
   */
  lemma FingerprintPinsEvidence(a: PreviewInput, d: string, b: PreviewInput, e: string, hash: Hash)
    requires Injective(hash) && EvaluatePreview(a, d, hash).Ok? && EvaluatePreview(b, e, hash).Ok?
    requires EvaluatePreview(a, d, hash).value.fingerprint == EvaluatePreview(b, e, hash).value.fingerprint
    ensures a.identity == b.identity && d == e
    ensures SameEvidence(a, b)
    ensures LifecycleOf(a, d).Ok? && LifecycleOf(b, d).Ok? && SameLifecycle(LifecycleOf(a, d).value, LifecycleOf(b, d).value)
  {
    hide Conditions, Overall, LifecycleOf, IdentityCondition, DestinationCondition, ScopeCondition, LifecycleCondition;
    hide StarCondition, LatitudeCondition, LongitudeCondition, ConflictCondition, SameLifecycle;
    hide SameReview, SameReceipt, SameEntity, SameScope, SameStar, SameLocation;
    FingerprintsAgreeIff(a, d, b, e, hash);
    SameConditionsAt(a, d, b);
    ReviewShown(a, b);
    ReceiptShown(a, b);
    EntityShown(a, b);
    ScopeShown(a, b);
    StarShown(a, b);
    LocationShown(a, b);
    LifecycleShown(LifecycleOf(a, d).value, LifecycleOf(b, d).value, d);
  }

  /** One differing row is enough: each of these changes the fingerprint. */
  lemma DifferingRowShows(a: PreviewInput, b: PreviewInput, d: string, hash: Hash)
    requires Injective(hash) && EvaluatePreview(a, d, hash).Ok? && EvaluatePreview(b, d, hash).Ok?
    requires
      || (a.star.Some? && IsCurrent(a, a.star.value.observationId) && !a.star.value.conflict && b.star != a.star)
      || (a.scope.Some? && IsCurrent(a, a.scope.value.observationId) && b.scope != a.scope)
      || (PointShown(a) && b.location != a.location)
      || (ReceiptLookedAt(a) && a.humanReview.Some?
          && (b.humanReview.None? || SortedReceipt(b.humanReview.value) != SortedReceipt(a.humanReview.value)))
      || (!ReceiptInIdentity(a) && b.review != a.review) || b.targetHotel != a.targetHotel
      || PrintedEntity(b.entity) != PrintedEntity(a.entity) || b.identity != a.identity
    ensures EvaluatePreview(a, d, hash).value.fingerprint != EvaluatePreview(b, d, hash).value.fingerprint
  {
    hide EvaluatePreview, ReceiptInIdentity, ReceiptInDestination, SortedReceipt, PrintedEntity, LifecycleOf, SameLifecycle, SameKept;
    if EvaluatePreview(a, d, hash).value.fingerprint == EvaluatePreview(b, d, hash).value.fingerprint {
      FingerprintPinsEvidence(a, d, b, d, hash);
      assert false;
    }
  }
}

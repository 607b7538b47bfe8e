/**
 Every verdict of the gate over the input's own fields (scripts/prepublication-preview/evaluate.ts): which reason an
 approval is held for, when a match passes, and when the whole is FAIL.
 */
module GateVerdicts {
  import opened Prelude
  import opened Text
  import opened Sequences
  import opened Checklist
  import opened Gate
  import G = GateMeaning
  import L = Lifecycle
  import D = Dates

  type Checks = seq<Check<Reason>>

  function NewFindings(input: PreviewInput): seq<CandidateView> { OfKind(NewProperty, input.entity.acceptedCandidates) }
  function Hotels(input: PreviewInput): seq<CandidateView> { OfKind(CanonicalHotel, input.entity.acceptedCandidates) }

  /** The receipt the gate was handed is the one the projection names. */
  function ReceiptChecks(input: PreviewInput): Checks {
    var rv, r := input.review, input.humanReview;
    [Check(HumanReviewReceiptMissing, r.Some?),
     Check(HumanReviewProjectionReceiptMissing, rv.Some? && rv.value.currentReceiptId.Some?),
     Check(HumanReviewProjectionReceiptMismatch, rv.Some? && r.Some? && rv.value.currentReceiptId == Some(r.value.receiptId))]
  }

  predicate NotWithdrawn(input: PreviewInput) {
    input.review.Some? && !input.review.value.currentReceiptRevoked && input.review.value.reviewStatus.Active?
  }

  predicate ReceiptIsCurrent(input: PreviewInput) {
    input.humanReview.Some? && input.identity.currentObservationId == Some(input.humanReview.value.evidenceObservationId)
  }

  /** Condition 1 of an approval, in the order its reasons are given. */
  function IdentityChecks(input: PreviewInput): Checks {
    var r := input.humanReview;
    [Check(AcceptedEntityEvidenceInconsistent, !G.Contradicts(input.entity.acceptedCandidates)),
     Check(EntityConflictOrSyncHold, G.EntityClear(input)),
     Check(HumanReviewRevoked, NotWithdrawn(input)),
     Check(IdentityDecisionLacksSupport, |NewFindings(input)| == 1)]
    + ReceiptChecks(input)
    + [Check(HumanReviewReceiptDecisionMismatch, r.Some? && r.value.decision.ApproveCreate?),
       Check(HumanReviewReceiptNotCurrent, ReceiptIsCurrent(input)),
       Check(HumanReviewReceiptFindingMismatch,
             r.Some? && exists f | f in input.entity.acceptedCandidates ::
               f.kind.NewProperty? && r.value.newPropertyFindingId == Some(f.id))]
  }

  /** Condition 2 of an approval, in the order its reasons are given. */
  function DestinationChecks(input: PreviewInput): Checks {
    var rv, r := input.review, input.humanReview;
    [Check(ReviewedDestinationMissingOrInvalid,
           && rv.Some? && rv.value.destinationId.Some? && rv.value.destinationId.value != ""
           && input.destination.Some? && Some(input.destination.value.id) == rv.value.destinationId),
     Check(HumanReviewRevoked, NotWithdrawn(input))]
    + ReceiptChecks(input)
    + [Check(HumanReviewReceiptNotCurrent, ReceiptIsCurrent(input)),
       Check(HumanReviewReceiptDestinationMismatch, rv.Some? && r.Some? && r.value.destinationId == rv.value.destinationId)]
  }

  /** Conditions 1 and 2 of a match. */
  function MatchIdentityChecks(input: PreviewInput): Checks {
    var rv := input.review;
    [Check(AcceptedEntityEvidenceInconsistent, !G.Contradicts(input.entity.acceptedCandidates)),
     Check(EntityConflictOrSyncHold, G.EntityClear(input)),
     Check(IdentityDecisionLacksSupport,
           && rv.Some? && rv.value.targetHotelId.Some? && rv.value.targetHotelId.value != "" && |Hotels(input)| == 1
           && exists h | h in input.entity.acceptedCandidates ::
                h.kind.CanonicalHotel? && h.candidateHotelId == rv.value.targetHotelId)]
  }

  function MatchDestinationChecks(input: PreviewInput): Checks {
    var rv, h := input.review, input.targetHotel;
    [Check(CanonicalMatchTargetDestinationMissing, rv.Some? && h.Some? && Some(h.value.id) == rv.value.targetHotelId),
     Check(ReviewedDestinationTargetMismatch,
           rv.Some? && h.Some? && (rv.value.destinationId.Some? ==> rv.value.destinationId.value == h.value.destinationId))]
  }

  /** The condition passes for the reason given when every check holds, and is held for the first one broken. */
  ghost predicate DecidedBy(c: Condition, checks: Checks, supported: Reason) {
    if AllHold(checks) then c.status.Pass? && c.reason == supported
    else c.status.Unresolved? && exists k | 0 <= k < |checks| :: BreaksAt(checks, k) && checks[k].code == c.reason
  }

  lemma OneOfKind(k: CandidateKind, e: EntityView)
    ensures |OfKind(k, SortedCandidates(e))| == |OfKind(k, e.acceptedCandidates)|
    ensures var found := OfKind(k, SortedCandidates(e));
            |found| == 1 ==> forall c :: c in e.acceptedCandidates && c.kind == k <==> c == found[0]
  {
    G.SortedOfKind(k, e);
    hide OfKind, SortedCandidates;
    var found := OfKind(k, SortedCandidates(e));
    if |found| == 1 {
      assert forall f :: f in found <==> f == found[0];
    }
  }

  lemma IdentityOfApproval(input: PreviewInput)
    requires input.review.Some? && input.review.value.decision.ApproveCreate?
    ensures DecidedBy(IdentityCondition(input), IdentityChecks(input), ReviewedDistinctProperty)
  {
    hide EntityEvidence, ReceiptEvidence, ReviewEvidence, RevocationEvidence, PointerEvidence;
    hide OfKind, SortedCandidates, G.Contradicts, AcceptedContradiction, G.EntityClear, NoConflict;
    G.NoConflictMeaning(input);
    G.ContradictionMeaning(input.entity);
    OneOfKind(NewProperty, input.entity);
    ContradictionHolds(input);
    var checks, c := IdentityChecks(input), IdentityCondition(input);
    assert |checks| == 10;
    if !checks[0].holds {
      assert BreaksAt(checks, 0);
    } else if !checks[1].holds {
      assert BreaksAt(checks, 1);
    } else if !checks[2].holds {
      assert BreaksAt(checks, 2);
    } else if !checks[3].holds {
      assert BreaksAt(checks, 3);
    } else if !checks[4].holds {
      assert BreaksAt(checks, 4);
    } else if !checks[5].holds {
      assert BreaksAt(checks, 5);
    } else if !checks[6].holds {
      assert BreaksAt(checks, 6);
    } else if !checks[7].holds {
      assert BreaksAt(checks, 7);
    } else if !checks[8].holds {
      assert BreaksAt(checks, 8);
    } else if !checks[9].holds {
      assert BreaksAt(checks, 9);
    }
  }

  lemma ContradictionHolds(input: PreviewInput)
    ensures G.Contradicts(input.entity.acceptedCandidates) ==> !G.EntityClear(input)
  {
    hide G.Contradicts;
  }

  lemma DestinationOfApproval(input: PreviewInput)
    requires input.review.Some? && input.review.value.decision.ApproveCreate?
    ensures DecidedBy(DestinationCondition(input), DestinationChecks(input), ReviewedDestinationSupported)
  {
    hide DestinationEvidence, ReceiptEvidence, ReviewEvidence, RevocationEvidence, PointerEvidence;
    var checks, c := DestinationChecks(input), DestinationCondition(input);
    assert |checks| == 7;
    if !checks[0].holds {
      assert BreaksAt(checks, 0);
    } else if !checks[1].holds {
      assert BreaksAt(checks, 1);
    } else if !checks[2].holds {
      assert BreaksAt(checks, 2);
    } else if !checks[3].holds {
      assert BreaksAt(checks, 3);
    } else if !checks[4].holds {
      assert BreaksAt(checks, 4);
    } else if !checks[5].holds {
      assert BreaksAt(checks, 5);
    } else if !checks[6].holds {
      assert BreaksAt(checks, 6);
    }
  }

  lemma IdentityOfMatch(input: PreviewInput)
    requires input.review.Some? && input.review.value.decision.ApproveMatch?
    ensures DecidedBy(IdentityCondition(input), MatchIdentityChecks(input), ReviewedExplicitCanonicalMatch)
  {
    hide EntityEvidence, ReceiptEvidence, ReviewEvidence, RevocationEvidence, PointerEvidence;
    hide OfKind, SortedCandidates, G.Contradicts, AcceptedContradiction, G.EntityClear, NoConflict;
    G.NoConflictMeaning(input);
    G.ContradictionMeaning(input.entity);
    OneOfKind(CanonicalHotel, input.entity);
    ContradictionHolds(input);
    var checks := MatchIdentityChecks(input);
    if !checks[0].holds {
      assert BreaksAt(checks, 0);
    } else if !checks[1].holds {
      assert BreaksAt(checks, 1);
    } else if !checks[2].holds {
      assert BreaksAt(checks, 2);
    }
  }

  lemma DestinationOfMatch(input: PreviewInput)
    requires input.review.Some? && input.review.value.decision.ApproveMatch?
    ensures DecidedBy(DestinationCondition(input), MatchDestinationChecks(input), CanonicalMatchTargetDestinationSupported)
  {
    hide DestinationEvidence, ReceiptEvidence, ReviewEvidence, RevocationEvidence, PointerEvidence;
    var checks := MatchDestinationChecks(input);
    if !checks[0].holds {
      assert BreaksAt(checks, 0);
    } else if !checks[1].holds {
      assert BreaksAt(checks, 1);
    }
  }

  /** Without an approval condition 1 never passes: a rejection fails it, and anything else leaves it open. */
  lemma IdentityWithoutApproval(input: PreviewInput)
    requires input.review.None? || input.review.value.decision.Reject? || input.review.value.decision.Defer?
    ensures var c := IdentityCondition(input);
      && (c.status.Fail? <==> input.review.Some? && input.review.value.decision.Reject?) && !c.status.Pass?
      && c.reason == if c.status.Fail? then IdentityRejected else IdentityReviewMissingOrDeferred
  {
    hide EntityEvidence, ReviewEvidence, ReceiptEvidence, OfKind, SortedCandidates;
  }

  // ---- The machine conditions, each reason exactly. ----

  predicate Current(input: PreviewInput, observationId: Id) { input.identity.currentObservationId == Some(observationId) }

  lemma ScopeReasons(input: PreviewInput)
    ensures var c, s := ScopeCondition(input.identity.currentObservationId, input.scope), input.scope;
      var valid := s.Some? && Current(input, s.value.observationId);
      && (c.reason == CurrentScopeProvenanceInvalid <==> !valid)
      && (c.reason == ScopePhysicalHospitality <==> valid && s.value.outcome.PhysicalHospitality?)
      && (c.reason == ScopeNotPhysicalHospitality <==> valid && s.value.outcome.NotPhysicalHospitality?)
      && (c.reason == HospitalityScopeUnresolved <==> valid && s.value.outcome.ScopeUnresolved?)
      && (c.status.Pass? <==> c.reason == ScopePhysicalHospitality)
      && (c.status.Fail? <==> c.reason == ScopeNotPhysicalHospitality)
  {
    hide ScopeEvidence;
  }

  lemma StarReasons(input: PreviewInput)
    ensures var c, s := StarCondition(input.identity.currentObservationId, input.star), input.star;
      var valid := s.Some? && Current(input, s.value.observationId) && !s.value.conflict;
      && (c.reason == CurrentStarResolutionInvalid <==> !valid)
      && (c.reason == StarExactFour <==> valid && s.value.outcome.ExactFour?)
      && (c.reason == StarExactFive <==> valid && s.value.outcome.ExactFive?)
      && (c.reason == StarClassifiedOutsideV1 <==> valid && s.value.outcome.ClassifiedNotV1Scope?)
      && (c.reason == StarClassificationUnresolved <==> valid && s.value.outcome.StarUnresolved?)
      && (c.status.Pass? <==> c.reason == StarExactFour || c.reason == StarExactFive)
      && (c.status.Fail? <==> c.reason == StarClassifiedOutsideV1)
  {
    hide StarEvidence;
  }

  /** Provenance holds for any proven result, the below-scope one included, and never fails on its own. */
  lemma StarProvenanceReasons(input: PreviewInput)
    ensures var c, s := StarProvenanceCondition(input.identity.currentObservationId, input.star), input.star;
      var named := s.Some? && Current(input, s.value.observationId) && !s.value.conflict
                   && s.value.revisionId != "" && s.value.policyProvider != "" && s.value.policyVersion != "";
      && (c.reason == StarProvenanceMissingOrInconsistent <==> !named)
      && (c.reason == StarResultNotProven <==> named && s.value.outcome.StarUnresolved?)
      && (c.reason == ExactStarProvenance <==> named && !s.value.outcome.StarUnresolved?)
      && (c.status.Pass? <==> c.reason == ExactStarProvenance) && !c.status.Fail?
  {
    hide StarEvidence;
  }

  lemma LocationReasons(input: PreviewInput)
    ensures var current, l := input.identity.currentObservationId, input.location;
      var (c8, c9, c10) := (LatitudeCondition(current, l), LongitudeCondition(current, l), LocationProvenanceCondition(current, l));
      var valid := l.Some? && Current(input, l.value.observationId) && !l.value.conflict && l.value.resolved;
      && (c8.status.Pass? <==> valid && l.value.latitude.Some?) && (c9.status.Pass? <==> valid && l.value.longitude.Some?)
      && (c10.status.Pass? <==> valid && l.value.latitude.Some? && l.value.longitude.Some?
                                && l.value.policyProvider != "" && l.value.policyVersion != "")
      && !c8.status.Fail? && !c9.status.Fail? && !c10.status.Fail?
      && c8.reason == (if c8.status.Pass? then CanonicalLatitudeResolved else CanonicalLatitudeUnresolved)
      && c9.reason == (if c9.status.Pass? then CanonicalLongitudeResolved else CanonicalLongitudeUnresolved)
      && c10.reason == (if c10.status.Pass? then ExactLocationProvenance else LocationProvenanceMissingOrInconsistent)
  {
    hide LocationEvidence;
  }

  lemma ConflictReasons(input: PreviewInput)
    ensures var c := ConflictCondition(input);
      && (c.status.Pass? <==> G.EntityClear(input)) && !c.status.Fail?
      && (c.reason == NoCurrentEntityConflict <==> c.status.Pass?)
      && (c.reason == AcceptedEntityEvidenceInconsistent <==> G.Contradicts(input.entity.acceptedCandidates))
      && (c.reason == CurrentEntityConflict <==>
          !G.EntityClear(input) && !G.Contradicts(input.entity.acceptedCandidates) && input.entity.synchronized)
      && (c.reason == EntitySyncGateFailed <==>
          !G.Contradicts(input.entity.acceptedCandidates) && !input.entity.synchronized)
  {
    hide EntityEvidence, G.Contradicts, AcceptedContradiction;
    G.NoConflictMeaning(input);
    G.ContradictionMeaning(input.entity);
  }

  /** The lifecycle condition over calendar days: FAIL exactly when a readable mapped window of the current snapshot holds the day. */
  lemma LifecycleReasons(input: PreviewInput, asOf: string)
    requires LifecycleOf(input, asOf).Ok?
    ensures D.IsValidIsoDate(Some(asOf))
    ensures var c := LifecycleCondition(LifecycleOf(input, asOf).value, asOf);
      && (c.status.Pass? <==> G.NotClosed(input, asOf)) && (c.status.Fail? <==> KnownToBeClosed(input, asOf))
      && (c.reason == NoKnownPropertyClosure <==> c.status.Pass?) && (c.reason == KnownPropertyClosed <==> c.status.Fail?)
      && (c.reason == LifecycleEvidenceUnresolved <==> c.status.Unresolved?) && c.asOf == Some(asOf)
  {
    hide LifecycleEvidence, L.AllReadable, L.IsMapped;
    L.OutcomeMeaning(CurrentSnapshot(input), input.policy, asOf, input.identity.currentObservationId,
                     Some(input.identity.currentObservationId.Some?));
  }

  ghost predicate KnownToBeClosed(input: PreviewInput, asOf: string)
    requires D.IsValidIsoDate(Some(asOf))
  {
    && input.snapshot.Some?
    && var s := input.snapshot.value;
       && Current(input, s.observationId) && L.Accounted(s) && L.AllReadable(s, input.policy)
       && exists w | w in s.issues :: L.IsMapped(input.policy, w) && L.ClosedOn(w, D.DayNumberOf(asOf))
  }

  // ---- Condition 5, derived from seven others. ----

  /** The summary printed for one of the seven: its number, its status by name, its reason. */
  predicate Summarises(v: Value, c: Condition) {
    && v.Obj? && v.fields.Keys == {"number", "status", "reason"} && v.fields["number"] == Num(c.number)
    && v.fields["status"] == Str(match c.status case Pass => "PASS" case Fail => "FAIL" case Unresolved => "UNRESOLVED")
    && v.fields["reason"] == Code(c.reason)
  }

  lemma SummaryQuotes(c: Condition)
    ensures Summarises(SummaryValue(c), c)
  {
  }

  /** Condition 5 prints conditions 1, 2, 3, 4, 6, 7 and 11, fails with the first that fails and waits while one waits. */
  lemma ScopeCriticalInputs(input: PreviewInput, asOf: string)
    requires LifecycleOf(input, asOf).Ok?
    ensures var cs := Conditions(input, LifecycleOf(input, asOf).value, asOf);
      && |cs| == 11
      && var critical, c5 := [cs[0], cs[1], cs[2], cs[3], cs[5], cs[6], cs[10]], cs[4];
         && (c5.status.Fail? <==> exists c | c in critical :: c.status.Fail?)
         && (c5.status.Pass? <==> forall c | c in critical :: c.status.Pass?)
         && c5.reason == (match c5.status
                          case Fail => AuthoritativeInputOutsideV1
                          case Unresolved => ScopeCriticalInputUnresolved
                          case Pass => AllScopeCriticalInputsInScope)
         && c5.evidence.Keys == {"inputConditions"} && c5.evidence["inputConditions"].List?
         && |c5.evidence["inputConditions"].items| == 7
         && forall k | 0 <= k < 7 :: Summarises(c5.evidence["inputConditions"].items[k], critical[k])
  {
    hide IdentityCondition, DestinationCondition, ScopeCondition, LifecycleCondition, StarCondition, StarProvenanceCondition;
    hide LatitudeCondition, LongitudeCondition, LocationProvenanceCondition, ConflictCondition, LifecycleOf;
    hide V1ScopeCondition, SummaryValue, Summarises;
    var cs := Conditions(input, LifecycleOf(input, asOf).value, asOf);
    var critical := [cs[0], cs[1], cs[2], cs[3], cs[5], cs[6], cs[10]];
    DerivedCondition(critical);
  }

  lemma DerivedCondition(critical: seq<Condition>)
    ensures var c5 := V1ScopeCondition(critical);
      && (c5.status.Fail? <==> exists c | c in critical :: c.status.Fail?)
      && (c5.status.Pass? <==> forall c | c in critical :: c.status.Pass?)
      && c5.reason == (match c5.status
                       case Fail => AuthoritativeInputOutsideV1
                       case Unresolved => ScopeCriticalInputUnresolved
                       case Pass => AllScopeCriticalInputsInScope)
      && c5.evidence.Keys == {"inputConditions"} && c5.evidence["inputConditions"].List?
      && |c5.evidence["inputConditions"].items| == |critical|
      && forall k | 0 <= k < |critical| :: Summarises(c5.evidence["inputConditions"].items[k], critical[k])
  {
    hide SummaryValue, Summarises;
    forall k | 0 <= k < |critical| ensures Summarises(SummaryValue(critical[k]), critical[k]) { SummaryQuotes(critical[k]); }
  }

  // ---- The whole preview. ----

  lemma OverallByStatus(cs: seq<Condition>)
    ensures Overall(cs).Fail? <==> exists i | 0 <= i < |cs| :: cs[i].status.Fail?
  {
    if i :| 0 <= i < |cs| && cs[i].status.Fail? {
      assert cs[i] in cs;
    }
  }

  lemma V1Fails(critical: seq<Condition>)
    ensures V1ScopeCondition(critical).status.Fail? <==> exists i | 0 <= i < |critical| :: critical[i].status.Fail?
  {
    if i :| 0 <= i < |critical| && critical[i].status.Fail? {
      assert critical[i] in critical;
    }
  }

  lemma DestinationNeverFails(input: PreviewInput)
    ensures !DestinationCondition(input).status.Fail?
  {
    hide DestinationEvidence, ReceiptEvidence, RevocationEvidence, PointerEvidence;
  }

  lemma IdentityFails(input: PreviewInput)
    ensures IdentityCondition(input).status.Fail? <==> input.review.Some? && input.review.value.decision.Reject?
  {
    hide EntityEvidence, ReviewEvidence, ReceiptEvidence, RevocationEvidence, PointerEvidence, OfKind, SortedCandidates;
    hide AcceptedContradiction, NoConflict;
  }

  /** FAIL is always an authoritative fact: a rejection, a current non-hotel, a known closure, or a current star outside V1. */
  lemma FailMeansAuthoritativeFact(input: PreviewInput, asOf: string, hash: FingerprintPayload -> string)
    requires EvaluatePreview(input, asOf, hash).Ok?
    ensures D.IsValidIsoDate(Some(asOf))
    ensures EvaluatePreview(input, asOf, hash).value.overall.Fail? <==>
      || (input.review.Some? && input.review.value.decision.Reject?)
      || (input.scope.Some? && Current(input, input.scope.value.observationId) && input.scope.value.outcome.NotPhysicalHospitality?)
      || KnownToBeClosed(input, asOf)
      || (input.star.Some? && Current(input, input.star.value.observationId) && !input.star.value.conflict
          && input.star.value.outcome.ClassifiedNotV1Scope?)
  {
    hide IdentityCondition, DestinationCondition, ScopeCondition, LifecycleCondition, StarCondition, StarProvenanceCondition;
    hide LatitudeCondition, LongitudeCondition, LocationProvenanceCondition, ConflictCondition, V1ScopeCondition, Overall;
    hide LifecycleOf, KnownToBeClosed, G.NotClosed, G.EntityClear, G.Contradicts;
    var cs := EvaluatePreview(input, asOf, hash).value.conditions;
    IdentityFails(input);
    DestinationNeverFails(input);
    ScopeReasons(input);
    StarReasons(input);
    StarProvenanceReasons(input);
    LocationReasons(input);
    ConflictReasons(input);
    LifecycleReasons(input, asOf);
    var critical := [cs[0], cs[1], cs[2], cs[3], cs[5], cs[6], cs[10]];
    V1Fails(critical);
    assert cs[4] == V1ScopeCondition(critical);
    OverallByStatus(cs);
    FailsAmongEleven(cs, critical);
  }

  lemma FailsAmongEleven(cs: seq<Condition>, critical: seq<Condition>)
    requires |cs| == 11 && critical == [cs[0], cs[1], cs[2], cs[3], cs[5], cs[6], cs[10]]
    requires cs[4].status.Fail? <==> exists i | 0 <= i < |critical| :: critical[i].status.Fail?
    requires !cs[1].status.Fail? && !cs[6].status.Fail? && !cs[7].status.Fail? && !cs[8].status.Fail?
    requires !cs[9].status.Fail? && !cs[10].status.Fail?
    ensures (exists i | 0 <= i < |cs| :: cs[i].status.Fail?) <==>
      cs[0].status.Fail? || cs[2].status.Fail? || cs[3].status.Fail? || cs[5].status.Fail?
  {
    assert critical[0] == cs[0] && critical[2] == cs[2] && critical[3] == cs[3] && critical[4] == cs[5];
    assert critical[1] == cs[1] && critical[5] == cs[6] && critical[6] == cs[10];
  }

  /** A match passes exactly on clear evidence, one accepted hotel that is the target, and the target's own destination. */
  lemma MatchPassesIff(input: PreviewInput, asOf: string, hash: FingerprintPayload -> string)
    requires EvaluatePreview(input, asOf, hash).Ok? && input.review.Some? && input.review.value.decision.ApproveMatch?
    ensures EvaluatePreview(input, asOf, hash).value.overall.Pass? <==>
      && AllHold(MatchIdentityChecks(input)) && AllHold(MatchDestinationChecks(input))
      && D.IsValidIsoDate(Some(asOf)) && G.EntityClear(input)
      && G.ScopeClear(input) && G.StarClear(input) && G.LocationClear(input) && G.NotClosed(input, asOf)
  {
    hide IdentityCondition, DestinationCondition, ScopeCondition, LifecycleCondition, StarCondition, StarProvenanceCondition;
    hide LatitudeCondition, LongitudeCondition, LocationProvenanceCondition, ConflictCondition, Overall, Conditions;
    hide LifecycleOf, G.NotClosed, G.EntityClear, MatchIdentityChecks, MatchDestinationChecks;
    G.AllPass(input, LifecycleOf(input, asOf).value, asOf);
    IdentityOfMatch(input);
    DestinationOfMatch(input);
    G.MachinePasses(input);
    G.LifecycleClear(input, asOf);
    ConflictReasons(input);
  }

  /** Nothing passes without an approval. */
  lemma OnlyApprovalsPass(input: PreviewInput, asOf: string, hash: FingerprintPayload -> string)
    requires EvaluatePreview(input, asOf, hash).Ok? && EvaluatePreview(input, asOf, hash).value.overall.Pass?
    ensures input.review.Some? && (input.review.value.decision.ApproveCreate? || input.review.value.decision.ApproveMatch?)
  {
    hide IdentityCondition, DestinationCondition, ScopeCondition, LifecycleCondition, StarCondition, StarProvenanceCondition;
    hide LatitudeCondition, LongitudeCondition, LocationProvenanceCondition, ConflictCondition, Overall, Conditions, LifecycleOf;
    G.AllPass(input, LifecycleOf(input, asOf).value, asOf);
    if input.review.None? || input.review.value.decision.Reject? || input.review.value.decision.Defer? {
      IdentityWithoutApproval(input);
    }
  }
}

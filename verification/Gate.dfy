/**
 The eleven-condition publication gate (scripts/prepublication-preview/evaluate.ts).

 Evidence objects are string-keyed maps, and `+` on maps is the source's object spread: a later
 part overrides an earlier one. The fingerprint hash is a parameter, so nothing below depends on it.
 */
module Gate {
  import opened Prelude
  import opened Text
  import opened Sequences
  import L = Lifecycle

  datatype Value = Null | Flag(flag: bool) | Num(num: int) | Str(str: string)
                 | Code(reason: Reason) | List(items: seq<Value>) | Obj(fields: map<string, Value>)
  type Evidence = map<string, Value>

  datatype Status = Pass | Fail | Unresolved

  /** The machine-stable reason of a condition, one constructor per reason code of the source. */
  datatype Reason =
    | IdentityReviewMissingOrDeferred | AcceptedEntityEvidenceInconsistent | EntityConflictOrSyncHold
    | HumanReviewRevoked | HumanReviewReceiptMissing | HumanReviewProjectionReceiptMissing
    | HumanReviewProjectionReceiptMismatch | HumanReviewReceiptDecisionMismatch | HumanReviewReceiptNotCurrent
    | HumanReviewReceiptFindingMismatch | IdentityDecisionLacksSupport | CanonicalMatchTargetDestinationMissing
    | ReviewedDestinationTargetMismatch | HumanReviewReceiptDestinationMismatch
    | ReviewedDestinationMissingOrInvalid | IdentityRejected | ReviewedDistinctProperty
    | ReviewedExplicitCanonicalMatch | CanonicalMatchTargetDestinationSupported | ReviewedDestinationSupported
    | CurrentScopeProvenanceInvalid | ScopePhysicalHospitality | ScopeNotPhysicalHospitality
    | HospitalityScopeUnresolved | KnownPropertyClosed | NoKnownPropertyClosure | LifecycleEvidenceUnresolved
    | CurrentStarResolutionInvalid | StarExactFour | StarExactFive | StarClassifiedOutsideV1
    | StarClassificationUnresolved | StarResultNotProven | ExactStarProvenance
    | StarProvenanceMissingOrInconsistent | CanonicalLatitudeResolved | CanonicalLongitudeResolved
    | ExactLocationProvenance | NoCurrentEntityConflict | AuthoritativeInputOutsideV1
    | ScopeCriticalInputUnresolved | AllScopeCriticalInputsInScope | CanonicalLatitudeUnresolved
    | CanonicalLongitudeUnresolved | LocationProvenanceMissingOrInconsistent | CurrentEntityConflict
    | EntitySyncGateFailed

  /** The display name is a function of the number, and the explanation is display copy only. */
  datatype Condition = Condition(
    number: nat, status: Status, reason: Reason, evidence: Evidence, asOf: Option<string>)

  datatype Decision = ApproveCreate | ApproveMatch | Reject | Defer
  datatype ReviewStatus = Active | Revoked

  datatype IdentityView = IdentityView(id: Id, source: string, environment: string, currentObservationId: Option<Id>)

  datatype ReviewView = ReviewView(
    id: Id, decision: Decision, destinationId: Option<Id>, targetHotelId: Option<Id>,
    decidedInRunId: Option<Id>, reviewerUserId: Option<Id>, reviewerLabel: string, reviewedAt: string,
    reviewNote: Option<string>, reviewStatus: ReviewStatus, currentReceiptId: Option<Id>,
    currentReceiptRevoked: bool, currentReceiptRevocationId: Option<Id>)

  datatype DestinationView = DestinationView(id: Id, slug: string)
  datatype TargetHotelView = TargetHotelView(id: Id, destinationId: Id, destinationSlug: string)

  datatype Verification = Verification(dimension: string, verdict: string, note: Option<string>)

  datatype ReceiptView = ReceiptView(
    receiptId: Id, decision: Decision, evidenceObservationId: Id, evidenceSourceRunId: Id,
    sourcePayloadDigest: string, destinationId: Option<Id>, newPropertyFindingId: Option<Id>,
    reviewerUserId: Option<Id>, reviewerLabel: string, reviewedAt: string,
    prereviewFingerprint: string, prereviewAsOf: string, receiptDigest: string,
    verifications: seq<Verification>, evidenceReferenceCount: nat)

  datatype CandidateKind = CanonicalHotel | SourceIdentity | NewProperty

  /** `details` holds the remaining evidence columns, which the gate copies and never reads. */
  datatype CandidateView = CandidateView(
    id: Id, sourcePropertyIdentityId: Id, kind: CandidateKind, candidateHotelId: Option<Id>,
    candidateSourcePropertyIdentityId: Option<Id>, details: Evidence)

  datatype EntityView = EntityView(
    synchronized: bool, acceptedCandidates: seq<CandidateView>,
    pendingCandidateIds: seq<Id>, currentAnomalyReasons: seq<string>)

  datatype ScopeOutcome = PhysicalHospitality | NotPhysicalHospitality | ScopeUnresolved
  datatype ScopeView = ScopeView(
    revisionId: Id, observationId: Id, outcome: ScopeOutcome,
    policyProvider: string, policyVersion: string, sourceValue: Option<string>)

  datatype StarOutcome = ExactFour | ExactFive | ClassifiedNotV1Scope | StarUnresolved
  datatype StarView = StarView(
    revisionId: Id, observationId: Id, outcome: StarOutcome, resolvedStarValue: Option<int>,
    conflict: bool, policyProvider: string, policyVersion: string, sourceValue: Option<string>)

  datatype LocationView = LocationView(
    revisionId: Id, observationId: Id, resolved: bool, latitude: Option<string>, longitude: Option<string>,
    conflict: bool, unresolvedReason: Option<string>, policyProvider: string, policyVersion: string)

  datatype PreviewInput = PreviewInput(
    identity: IdentityView, review: Option<ReviewView>, destination: Option<DestinationView>,
    targetHotel: Option<TargetHotelView>, humanReview: Option<ReceiptView>, entity: EntityView,
    scope: Option<ScopeView>, star: Option<StarView>, location: Option<LocationView>,
    snapshot: Option<L.IssueSnapshot>, policy: L.Policy)

  datatype FingerprintPayload = FingerprintPayload(
    identity: IdentityView, asOf: string, conditions: seq<Condition>)

  datatype PreviewResult = PreviewResult(
    identityId: Id, source: string, environment: string, asOf: string, overall: Status,
    conditions: seq<Condition>, fingerprint: string)

  // ---- Evidence objects. ----

  function OptStr(o: Option<string>): Value { if o.Some? then Str(o.value) else Null }
  function OptNum(o: Option<int>): Value { if o.Some? then Num(o.value) else Null }
  function OptFlag(o: Option<bool>): Value { if o.Some? then Flag(o.value) else Null }

  function DecisionText(d: Decision): string {
    match d
    case ApproveCreate => "approve_create"
    case ApproveMatch => "approve_match"
    case Reject => "reject"
    case Defer => "defer"
  }

  function StatusText(s: ReviewStatus): string { if s.Active? then "active" else "revoked" }

  function KindText(k: CandidateKind): string {
    match k
    case CanonicalHotel => "canonical_hotel"
    case SourceIdentity => "source_identity"
    case NewProperty => "new_property"
  }

  function CandidateKey(c: CandidateView): string {
    KindText(c.kind) + "|" + c.sourcePropertyIdentityId + "|" + c.candidateHotelId.GetOr("") + "|"
    + c.candidateSourcePropertyIdentityId.GetOr("") + "|" + c.id
  }

  function CandidateValue(c: CandidateView): Value {
    Obj(c.details + map[
      "id" := Str(c.id), "sourcePropertyIdentityId" := Str(c.sourcePropertyIdentityId),
      "kind" := Str(KindText(c.kind)), "candidateHotelId" := OptStr(c.candidateHotelId),
      "candidateSourcePropertyIdentityId" := OptStr(c.candidateSourcePropertyIdentityId)])
  }

  function StrValue(s: string): Value { Str(s) }

  function SortedCandidates(e: EntityView): seq<CandidateView> { SortBy(CandidateKey, e.acceptedCandidates) }

  function OfKind(k: CandidateKind, cs: seq<CandidateView>): seq<CandidateView> {
    Filter((c: CandidateView) => c.kind == k, cs)
  }

  predicate AcceptedContradiction(e: EntityView) {
    var canonical := OfKind(CanonicalHotel, SortedCandidates(e));
    || (exists a, b | a in canonical && b in canonical :: a.candidateHotelId != b.candidateHotelId)
    || (canonical != [] && OfKind(NewProperty, SortedCandidates(e)) != [])
  }

  function EntityEvidence(e: EntityView): Evidence {
    map["synchronized" := Flag(e.synchronized),
        "acceptedCandidates" := List(Map(CandidateValue, SortedCandidates(e))),
        "acceptedContradiction" := Flag(AcceptedContradiction(e)),
        "pendingCandidateIds" := List(Map(StrValue, SortBy(Self, e.pendingCandidateIds))),
        "currentAnomalyReasons" := List(Map(StrValue, SortBy(Self, e.currentAnomalyReasons)))]
  }

  function ReviewEvidence(review: Option<ReviewView>): Evidence {
    if review.None? then map["review" := Null]
    else
      var r := review.value;
      map["id" := Str(r.id), "decision" := Str(DecisionText(r.decision)),
          "destinationId" := OptStr(r.destinationId), "targetHotelId" := OptStr(r.targetHotelId),
          "decidedInRunId" := OptStr(r.decidedInRunId), "reviewerUserId" := OptStr(r.reviewerUserId),
          "reviewerLabel" := Str(r.reviewerLabel), "reviewedAt" := Str(r.reviewedAt),
          "reviewNote" := OptStr(r.reviewNote), "reviewStatus" := Str(StatusText(r.reviewStatus)),
          "currentReceiptId" := OptStr(r.currentReceiptId),
          "currentReceiptRevoked" := Flag(r.currentReceiptRevoked),
          "currentReceiptRevocationId" := OptStr(r.currentReceiptRevocationId)]
  }

  predicate RevokedByEvent(input: PreviewInput) { input.review.Some? && input.review.value.currentReceiptRevoked }
  predicate RevokedByStatus(input: PreviewInput) { input.review.Some? && input.review.value.reviewStatus.Revoked? }

  /** The immutable event and the mutable column are OR-ed: either one withdraws authorization. */
  predicate ReviewRevoked(input: PreviewInput) { RevokedByEvent(input) || RevokedByStatus(input) }

  function RevocationEvidence(input: PreviewInput): Evidence {
    map["reviewStatus" := if input.review.Some? then Str(StatusText(input.review.value.reviewStatus)) else Null,
        "currentReceiptRevoked" := Flag(RevokedByEvent(input)),
        "currentReceiptRevocationId" :=
          if input.review.Some? then OptStr(input.review.value.currentReceiptRevocationId) else Null,
        "revocationStateCoherent" := Flag(RevokedByEvent(input) == RevokedByStatus(input))]
  }

  predicate ReceiptCurrent(input: PreviewInput) {
    && input.humanReview.Some? && input.identity.currentObservationId.Some?
    && input.humanReview.value.evidenceObservationId == input.identity.currentObservationId.value
  }

  function VerificationValue(v: Verification): Value {
    Obj(map["dimension" := Str(v.dimension), "verdict" := Str(v.verdict), "note" := OptStr(v.note)])
  }

  function Dimension(v: Verification): string { v.dimension }

  function ReceiptEvidence(input: PreviewInput): Evidence {
    var current := OptStr(input.identity.currentObservationId);
    if input.humanReview.None? then map["humanReviewReceipt" := Null, "currentObservationId" := current]
    else
      var r := input.humanReview.value;
      map["receiptId" := Str(r.receiptId), "decision" := Str(DecisionText(r.decision)),
          "evidenceObservationId" := Str(r.evidenceObservationId),
          "evidenceSourceRunId" := Str(r.evidenceSourceRunId),
          "sourcePayloadDigest" := Str(r.sourcePayloadDigest), "destinationId" := OptStr(r.destinationId),
          "newPropertyFindingId" := OptStr(r.newPropertyFindingId),
          "reviewerUserId" := OptStr(r.reviewerUserId), "reviewerLabel" := Str(r.reviewerLabel),
          "reviewedAt" := Str(r.reviewedAt), "prereviewFingerprint" := Str(r.prereviewFingerprint),
          "prereviewAsOf" := Str(r.prereviewAsOf), "receiptDigest" := Str(r.receiptDigest),
          "verifications" := List(Map(VerificationValue, SortBy(Dimension, r.verifications))),
          "evidenceReferenceCount" := Num(r.evidenceReferenceCount),
          "receiptIsCurrent" := Flag(ReceiptCurrent(input)), "currentObservationId" := current]
  }

  function ProjectionReceiptId(input: PreviewInput): Option<Id> {
    if input.review.Some? then input.review.value.currentReceiptId else None
  }

  predicate ClaimsNoReceipt(input: PreviewInput) {
    input.humanReview.Some? && ProjectionReceiptId(input).None?
  }

  predicate ClaimsOtherReceipt(input: PreviewInput) {
    && input.humanReview.Some? && ProjectionReceiptId(input).Some?
    && ProjectionReceiptId(input).value != input.humanReview.value.receiptId
  }

  function PointerEvidence(input: PreviewInput): Evidence {
    map["projectionCurrentReceiptId" := OptStr(ProjectionReceiptId(input)),
        "evaluatedReceiptId" := if input.humanReview.Some? then Str(input.humanReview.value.receiptId) else Null]
  }

  // ---- The conditions, branch by branch. ----

  function Hold(number: nat, reason: Reason, evidence: Evidence): Condition {
    Condition(number, Unresolved, reason, evidence, None)
  }

  predicate NoConflict(input: PreviewInput) {
    && input.identity.currentObservationId.Some?
    && input.entity.synchronized
    && !AcceptedContradiction(input.entity)
    && input.entity.pendingCandidateIds == []
    && input.entity.currentAnomalyReasons == []
  }

  function IdentityCondition(input: PreviewInput): (c: Condition)
    ensures c.number == 1
  {
    var review := ReviewEvidence(input.review);
    var base := review + EntityEvidence(input.entity);
    var full := base + ReceiptEvidence(input);
    var canonical := OfKind(CanonicalHotel, SortedCandidates(input.entity));
    var newFindings := OfKind(NewProperty, SortedCandidates(input.entity));
    if input.review.None? || input.review.value.decision.Defer? then Hold(1, IdentityReviewMissingOrDeferred, base)
    else
      var rv := input.review.value;
      if rv.decision.Reject? then Condition(1, Fail, IdentityRejected, base, None)
      else if AcceptedContradiction(input.entity) then Hold(1, AcceptedEntityEvidenceInconsistent, base)
      else if !NoConflict(input) then Hold(1, EntityConflictOrSyncHold, base)
      else if rv.decision.ApproveCreate? && ReviewRevoked(input) then
        Hold(1, HumanReviewRevoked, full + RevocationEvidence(input))
      else if rv.decision.ApproveCreate? && |newFindings| == 1 then
        if input.humanReview.None? then Hold(1, HumanReviewReceiptMissing, full)
        else if ClaimsNoReceipt(input) then Hold(1, HumanReviewProjectionReceiptMissing, full + PointerEvidence(input))
        else if ClaimsOtherReceipt(input) then
          Hold(1, HumanReviewProjectionReceiptMismatch, full + PointerEvidence(input))
        else if !input.humanReview.value.decision.ApproveCreate? then
          Hold(1, HumanReviewReceiptDecisionMismatch, full)
        else if !ReceiptCurrent(input) then Hold(1, HumanReviewReceiptNotCurrent, full)
        else if input.humanReview.value.newPropertyFindingId != Some(newFindings[0].id) then
          Hold(1, HumanReviewReceiptFindingMismatch, full)
        else Condition(1, Pass, ReviewedDistinctProperty, full + RevocationEvidence(input), None)
      else if && rv.decision.ApproveMatch? && Truthy(rv.targetHotelId)
              && |canonical| == 1 && canonical[0].candidateHotelId == rv.targetHotelId then
        Condition(1, Pass, ReviewedExplicitCanonicalMatch, base, None)
      else Hold(1, IdentityDecisionLacksSupport, base)
  }

  predicate Truthy(s: Option<string>) { s.Some? && s.value != "" }

  function DestinationEvidence(input: PreviewInput): Evidence {
    ReviewEvidence(input.review) + map[
      "reviewedDestinationId" := if input.review.Some? then OptStr(input.review.value.destinationId) else Null,
      "targetHotelId" := if input.targetHotel.Some? then Str(input.targetHotel.value.id) else Null,
      "targetHotelDestinationId" :=
        if input.targetHotel.Some? then Str(input.targetHotel.value.destinationId) else Null,
      "targetHotelDestinationSlug" :=
        if input.targetHotel.Some? then Str(input.targetHotel.value.destinationSlug) else Null]
  }

  function DestinationCondition(input: PreviewInput): (c: Condition)
    ensures c.number == 2
  {
    var base := DestinationEvidence(input);
    var full := base + ReceiptEvidence(input);
    if input.review.Some? && input.review.value.decision.ApproveMatch? then
      var rv := input.review.value;
      if input.targetHotel.None? || Some(input.targetHotel.value.id) != rv.targetHotelId then
        Hold(2, CanonicalMatchTargetDestinationMissing, base)
      else if rv.destinationId.Some? && rv.destinationId.value != input.targetHotel.value.destinationId then
        Hold(2, ReviewedDestinationTargetMismatch, base)
      else Condition(2, Pass, CanonicalMatchTargetDestinationSupported, base, None)
    else if && input.review.Some? && Truthy(input.review.value.destinationId)
            && input.destination.Some?
            && input.destination.value.id == input.review.value.destinationId.value then
      var rv := input.review.value;
      var create := rv.decision.ApproveCreate?;
      if create && ReviewRevoked(input) then Hold(2, HumanReviewRevoked, full + RevocationEvidence(input))
      else if create && input.humanReview.None? then Hold(2, HumanReviewReceiptMissing, full)
      else if create && ClaimsNoReceipt(input) then
        Hold(2, HumanReviewProjectionReceiptMissing, full + PointerEvidence(input))
      else if create && ClaimsOtherReceipt(input) then
        Hold(2, HumanReviewProjectionReceiptMismatch, full + PointerEvidence(input))
      else if create && !ReceiptCurrent(input) then Hold(2, HumanReviewReceiptNotCurrent, full)
      else if create && input.humanReview.value.destinationId != rv.destinationId then
        Hold(2, HumanReviewReceiptDestinationMismatch, full)
      else
        var resolved: Evidence := map["destinationId" := Str(input.destination.value.id),
                                      "destinationSlug" := Str(input.destination.value.slug)];
        Condition(2, Pass, ReviewedDestinationSupported,
                  base + resolved + (if create then ReceiptEvidence(input) + RevocationEvidence(input) else map[]), None)
    else Hold(2, ReviewedDestinationMissingOrInvalid, base)
  }

  function ScopeText(o: ScopeOutcome): string {
    match o
    case PhysicalHospitality => "physical_hospitality"
    case NotPhysicalHospitality => "not_physical_hospitality"
    case ScopeUnresolved => "unresolved"
  }

  function ScopeEvidence(s: ScopeView): Evidence {
    map["revisionId" := Str(s.revisionId), "observationId" := Str(s.observationId),
        "outcome" := Str(ScopeText(s.outcome)), "policyProvider" := Str(s.policyProvider),
        "policyVersion" := Str(s.policyVersion), "sourceValue" := OptStr(s.sourceValue)]
  }

  predicate Cites(observationId: Id, current: Option<Id>) { current == Some(observationId) }

  function ScopeCondition(current: Option<Id>, scope: Option<ScopeView>): (c: Condition)
    ensures c.number == 3
  {
    if scope.None? || !Cites(scope.value.observationId, current) then
      Condition(3, Unresolved, CurrentScopeProvenanceInvalid,
                map["currentObservationId" := OptStr(current),
                    "scopeRevisionId" := if scope.Some? then Str(scope.value.revisionId) else Null,
                    "evidenceObservationId" := if scope.Some? then Str(scope.value.observationId) else Null], None)
    else
      var evidence := ScopeEvidence(scope.value);
      match scope.value.outcome
      case PhysicalHospitality => Condition(3, Pass, ScopePhysicalHospitality, evidence, None)
      case NotPhysicalHospitality => Condition(3, Fail, ScopeNotPhysicalHospitality, evidence, None)
      case ScopeUnresolved => Condition(3, Unresolved, HospitalityScopeUnresolved, evidence, None)
  }

  // ---- Lifecycle evidence in canonical order. ----

  function PadStart(s: string, width: nat): string
    decreases width - |s|
  {
    if |s| >= width then s else PadStart("0" + s, width)
  }

  function IssueKey(w: L.IssueEvidence): string {
    (if w.providerOrder.None? then "~" else PadStart(IntText(w.providerOrder.value), 12))
    + "|" + w.issueCode + "|" + w.issueType + "|" + w.dateFromRaw.GetOr("") + "|" + w.dateToRaw.GetOr("") + "|"
    + (if w.alternative.None? then "null" else if w.alternative.value then "true" else "false")
  }

  function ClosureKey(w: L.ClosureWindow): string {
    w.issueCode + "|" + w.issueType + "|" + w.dateFrom + "|" + w.dateTo
  }

  function IssueValue(w: L.IssueEvidence): Value {
    Obj(map["issueCode" := Str(w.issueCode), "issueType" := Str(w.issueType),
            "dateFromRaw" := OptStr(w.dateFromRaw), "dateToRaw" := OptStr(w.dateToRaw),
            "providerOrder" := OptNum(w.providerOrder), "alternative" := OptFlag(w.alternative)])
  }

  function ClosureValue(w: L.ClosureWindow): Value {
    Obj(map["issueCode" := Str(w.issueCode), "issueType" := Str(w.issueType),
            "dateFrom" := Str(w.dateFrom), "dateTo" := Str(w.dateTo)])
  }

  function LifecycleText(o: L.Outcome): string {
    match o
    case KnownClosed => "known_closed"
    case NoKnownClosure => "no_known_closure"
    case Unresolved => "unresolved"
  }

  function LifecycleEvidence(e: L.Evaluation): Evidence {
    map["outcome" := Str(LifecycleText(e.outcome)), "asOf" := Str(e.asOf),
        "policyProvider" := Str(e.policyProvider), "policyVersion" := Str(e.policyVersion),
        "observationId" := OptStr(e.observationId), "snapshotId" := OptStr(e.snapshotId),
        "mappedWindows" := List(Map(IssueValue, SortBy(IssueKey, e.mappedWindows))),
        "activeClosureWindows" := List(Map(ClosureValue, SortBy(ClosureKey, e.activeClosureWindows))),
        "unresolvedReasons" := List(Map(StrValue, SortBy(Self, e.unresolvedReasons)))]
  }

  /** Only a snapshot of the current observation is handed to the lifecycle policy. */
  function CurrentSnapshot(input: PreviewInput): Option<L.IssueSnapshot> {
    if input.snapshot.Some? && Cites(input.snapshot.value.observationId, input.identity.currentObservationId)
    then input.snapshot else None
  }

  function LifecycleOf(input: PreviewInput, asOf: string): Result<L.Evaluation, L.Refusal> {
    L.EvaluateLifecycle(CurrentSnapshot(input), input.policy, asOf, input.identity.currentObservationId,
                        Some(input.identity.currentObservationId.Some?))
  }

  function LifecycleCondition(e: L.Evaluation, asOf: string): (c: Condition)
    ensures c.number == 4
  {
    var evidence := LifecycleEvidence(e);
    match e.outcome
    case KnownClosed => Condition(4, Fail, KnownPropertyClosed, evidence, Some(asOf))
    case NoKnownClosure => Condition(4, Pass, NoKnownPropertyClosure, evidence, Some(asOf))
    case Unresolved => Condition(4, Unresolved, LifecycleEvidenceUnresolved, evidence, Some(asOf))
  }

  // ---- Star, location, conflict. ----

  function StarText(o: StarOutcome): string {
    match o
    case ExactFour => "exact_four"
    case ExactFive => "exact_five"
    case ClassifiedNotV1Scope => "classified_not_v1_scope"
    case StarUnresolved => "unresolved"
  }

  function ConflictText(conflict: bool): string { if conflict then "conflict" else "none" }

  function StarEvidence(s: StarView): Evidence {
    map["revisionId" := Str(s.revisionId), "observationId" := Str(s.observationId),
        "outcome" := Str(StarText(s.outcome)), "resolvedStarValue" := OptNum(s.resolvedStarValue),
        "conflictState" := Str(ConflictText(s.conflict)), "policyProvider" := Str(s.policyProvider),
        "policyVersion" := Str(s.policyVersion), "sourceValue" := OptStr(s.sourceValue)]
  }

  predicate StarCurrent(current: Option<Id>, star: Option<StarView>) {
    star.Some? && Cites(star.value.observationId, current) && !star.value.conflict
  }

  function StarCondition(current: Option<Id>, star: Option<StarView>): (c: Condition)
    ensures c.number == 6
  {
    if !StarCurrent(current, star) then
      Condition(6, Unresolved, CurrentStarResolutionInvalid,
                map["currentObservationId" := OptStr(current),
                    "starRevisionId" := if star.Some? then Str(star.value.revisionId) else Null,
                    "evidenceObservationId" := if star.Some? then Str(star.value.observationId) else Null], None)
    else
      var evidence := StarEvidence(star.value);
      match star.value.outcome
      case ExactFour => Condition(6, Pass, StarExactFour, evidence, None)
      case ExactFive => Condition(6, Pass, StarExactFive, evidence, None)
      case ClassifiedNotV1Scope => Condition(6, Fail, StarClassifiedOutsideV1, evidence, None)
      case StarUnresolved => Condition(6, Unresolved, StarClassificationUnresolved, evidence, None)
  }

  function StarProvenanceCondition(current: Option<Id>, star: Option<StarView>): (c: Condition)
    ensures c.number == 7
  {
    if && StarCurrent(current, star) && star.value.revisionId != ""
       && star.value.policyProvider != "" && star.value.policyVersion != "" then
      if StarCondition(current, star).status.Unresolved? then
        Condition(7, Unresolved, StarResultNotProven, StarEvidence(star.value), None)
      else Condition(7, Pass, ExactStarProvenance, StarEvidence(star.value), None)
    else
      Condition(7, Unresolved, StarProvenanceMissingOrInconsistent,
                map["currentObservationId" := OptStr(current),
                    "revisionId" := if star.Some? then Str(star.value.revisionId) else Null], None)
  }

  function LocationEvidence(l: LocationView): Evidence {
    map["revisionId" := Str(l.revisionId), "observationId" := Str(l.observationId),
        "outcome" := Str(if l.resolved then "resolved" else "unresolved"), "latitude" := OptStr(l.latitude),
        "longitude" := OptStr(l.longitude), "conflictState" := Str(ConflictText(l.conflict)),
        "unresolvedReason" := OptStr(l.unresolvedReason), "policyProvider" := Str(l.policyProvider),
        "policyVersion" := Str(l.policyVersion)]
  }

  predicate LocationCurrent(current: Option<Id>, location: Option<LocationView>) {
    && location.Some? && Cites(location.value.observationId, current)
    && !location.value.conflict && location.value.resolved
  }

  function LocationFallback(number: nat, reason: Reason, current: Option<Id>, location: Option<LocationView>): Condition {
    Condition(number, Unresolved, reason,
              map["currentObservationId" := OptStr(current),
                  "revisionId" := if location.Some? then Str(location.value.revisionId) else Null], None)
  }

  function LatitudeCondition(current: Option<Id>, location: Option<LocationView>): (c: Condition)
    ensures c.number == 8
  {
    if LocationCurrent(current, location) && location.value.latitude.Some?
    then Condition(8, Pass, CanonicalLatitudeResolved, LocationEvidence(location.value), None)
    else LocationFallback(8, CanonicalLatitudeUnresolved, current, location)
  }

  function LongitudeCondition(current: Option<Id>, location: Option<LocationView>): (c: Condition)
    ensures c.number == 9
  {
    if LocationCurrent(current, location) && location.value.longitude.Some?
    then Condition(9, Pass, CanonicalLongitudeResolved, LocationEvidence(location.value), None)
    else LocationFallback(9, CanonicalLongitudeUnresolved, current, location)
  }

  function LocationProvenanceCondition(current: Option<Id>, location: Option<LocationView>): (c: Condition)
    ensures c.number == 10
  {
    if && LocationCurrent(current, location)
       && location.value.latitude.Some? && location.value.longitude.Some?
       && location.value.policyProvider != "" && location.value.policyVersion != ""
    then Condition(10, Pass, ExactLocationProvenance, LocationEvidence(location.value), None)
    else LocationFallback(10, LocationProvenanceMissingOrInconsistent, current, location)
  }

  function ConflictCondition(input: PreviewInput): (c: Condition)
    ensures c.number == 11
  {
    var evidence := EntityEvidence(input.entity);
    if NoConflict(input) then Condition(11, Pass, NoCurrentEntityConflict, evidence, None)
    else
      Condition(11, Unresolved,
                if AcceptedContradiction(input.entity) then AcceptedEntityEvidenceInconsistent
                else if input.entity.synchronized then CurrentEntityConflict
                else EntitySyncGateFailed, evidence, None)
  }

  function SummaryValue(c: Condition): Value {
    Obj(map["number" := Num(c.number), "status" := Str(ConditionStatusText(c.status)), "reason" := Code(c.reason)])
  }

  function ConditionStatusText(s: Status): string {
    match s
    case Pass => "PASS"
    case Fail => "FAIL"
    case Unresolved => "UNRESOLVED"
  }

  function V1ScopeCondition(critical: seq<Condition>): (c: Condition)
    ensures c.number == 5
  {
    var evidence: Evidence := map["inputConditions" := List(Map(SummaryValue, critical))];
    if exists c | c in critical :: c.status.Fail? then
      Condition(5, Fail, AuthoritativeInputOutsideV1, evidence, None)
    else if exists c | c in critical :: c.status.Unresolved? then
      Condition(5, Unresolved, ScopeCriticalInputUnresolved, evidence, None)
    else Condition(5, Pass, AllScopeCriticalInputsInScope, evidence, None)
  }

  function Conditions(input: PreviewInput, lifecycle: L.Evaluation, asOf: string): seq<Condition>
  {
    var current := input.identity.currentObservationId;
    var c1, c2 := IdentityCondition(input), DestinationCondition(input);
    var c3 := ScopeCondition(current, input.scope);
    var c4 := LifecycleCondition(lifecycle, asOf);
    var c6, c7 := StarCondition(current, input.star), StarProvenanceCondition(current, input.star);
    var c8, c9 := LatitudeCondition(current, input.location), LongitudeCondition(current, input.location);
    var c10 := LocationProvenanceCondition(current, input.location);
    var c11 := ConflictCondition(input);
    var c5 := V1ScopeCondition([c1, c2, c3, c4, c6, c7, c11]);
    [c1, c2, c3, c4, c5, c6, c7, c8, c9, c10, c11]
  }

  function Overall(conditions: seq<Condition>): Status {
    if forall c | c in conditions :: c.status.Pass? then Pass
    else if exists c | c in conditions :: c.status.Fail? then Fail
    else Unresolved
  }

  function EvaluatePreview(input: PreviewInput, asOf: string, hash: FingerprintPayload -> string)
    : Result<PreviewResult, L.Refusal>
  {
    match LifecycleOf(input, asOf)
    case Err(refusal) => Err(refusal)
    case Ok(lifecycle) =>
      var conditions := Conditions(input, lifecycle, asOf);
      Ok(PreviewResult(input.identity.id, input.identity.source, input.identity.environment, asOf,
                       Overall(conditions), conditions,
                       hash(FingerprintPayload(input.identity, asOf, conditions))))
  }
}

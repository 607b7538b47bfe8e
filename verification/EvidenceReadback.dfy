/**
 Evidence objects read back by key (scripts/prepublication-preview/evaluate.ts): each reader below names the keys
 the preview prints and recovers the row the object was built from, so an object determines its row.
 */
module EvidenceReadback {
  import opened Prelude
  import opened Text
  import opened Sequences
  import opened Gate
  import L = Lifecycle

  function AsText(v: Value): string { if v.Str? then v.str else "" }
  function AsOption(v: Value): Option<string> { if v.Str? then Some(v.str) else None }
  function AsNumber(v: Value): Option<int> { if v.Num? then Some(v.num) else None }
  function AsFlag(v: Value): bool { v.Flag? && v.flag }
  function AsItems(v: Value): seq<Value> { if v.List? then v.items else [] }

  function At(e: Evidence, key: string): Value { if key in e then e[key] else Null }

  function ReadScope(e: Evidence): ScopeView {
    ScopeView(
      AsText(At(e, "revisionId")), AsText(At(e, "observationId")),
      (match AsText(At(e, "outcome"))
       case "physical_hospitality" => PhysicalHospitality
       case "not_physical_hospitality" => NotPhysicalHospitality
       case _ => ScopeUnresolved),
      AsText(At(e, "policyProvider")), AsText(At(e, "policyVersion")), AsOption(At(e, "sourceValue")))
  }

  lemma ScopeReadsBack(s: ScopeView)
    ensures ReadScope(ScopeEvidence(s)) == s
  {
  }

  function ReadStar(e: Evidence): StarView {
    StarView(
      AsText(At(e, "revisionId")), AsText(At(e, "observationId")),
      (match AsText(At(e, "outcome"))
       case "exact_four" => ExactFour
       case "exact_five" => ExactFive
       case "classified_not_v1_scope" => ClassifiedNotV1Scope
       case _ => StarUnresolved),
      AsNumber(At(e, "resolvedStarValue")), AsText(At(e, "conflictState")) == "conflict",
      AsText(At(e, "policyProvider")), AsText(At(e, "policyVersion")), AsOption(At(e, "sourceValue")))
  }

  lemma StarReadsBack(s: StarView)
    ensures ReadStar(StarEvidence(s)) == s
  {
  }

  function ReadLocation(e: Evidence): LocationView {
    LocationView(
      AsText(At(e, "revisionId")), AsText(At(e, "observationId")), AsText(At(e, "outcome")) == "resolved",
      AsOption(At(e, "latitude")), AsOption(At(e, "longitude")), AsText(At(e, "conflictState")) == "conflict",
      AsOption(At(e, "unresolvedReason")), AsText(At(e, "policyProvider")), AsText(At(e, "policyVersion")))
  }

  lemma LocationReadsBack(l: LocationView)
    ensures ReadLocation(LocationEvidence(l)) == l
  {
  }

  // ---- Receipts and reviews, possibly inside a larger object. ----

  /** The larger object shows everything the smaller one does, unchanged. */
  predicate Shows(e: Evidence, part: Evidence) { forall k | k in part :: k in e && e[k] == part[k] }

  function ReadVerification(v: Value): Verification {
    var e := if v.Obj? then v.fields else map[];
    Verification(AsText(At(e, "dimension")), AsText(At(e, "verdict")), AsOption(At(e, "note")))
  }

  function ReadDecision(text: string): Decision {
    match text
    case "approve_create" => ApproveCreate
    case "approve_match" => ApproveMatch
    case "reject" => Reject
    case _ => Defer
  }

  lemma DecisionReadsBack(d: Decision)
    ensures ReadDecision(DecisionText(d)) == d
  {
  }

  lemma ListReadsBack<T>(read: Value -> T, write: T -> Value, xs: seq<T>)
    requires forall x :: read(write(x)) == x
    ensures Map(read, Map(write, xs)) == xs
  {
  }

  lemma VerificationReadsBack(v: Verification)
    ensures ReadVerification(VerificationValue(v)) == v
  {
  }

  function ReadReceipt(e: Evidence): Option<ReceiptView> {
    if "receiptId" !in e then None
    else
      Some(ReceiptView(
        AsText(At(e, "receiptId")), ReadDecision(AsText(At(e, "decision"))), AsText(At(e, "evidenceObservationId")),
        AsText(At(e, "evidenceSourceRunId")), AsText(At(e, "sourcePayloadDigest")), AsOption(At(e, "destinationId")),
        AsOption(At(e, "newPropertyFindingId")), AsOption(At(e, "reviewerUserId")), AsText(At(e, "reviewerLabel")),
        AsText(At(e, "reviewedAt")), AsText(At(e, "prereviewFingerprint")), AsText(At(e, "prereviewAsOf")),
        AsText(At(e, "receiptDigest")), Map(ReadVerification, AsItems(At(e, "verifications"))),
        if AsNumber(At(e, "evidenceReferenceCount")).Some? && AsNumber(At(e, "evidenceReferenceCount")).value >= 0
        then AsNumber(At(e, "evidenceReferenceCount")).value else 0))
  }

  const RECEIPT_COLUMNS: set<string> :=
    {"receiptId", "decision", "evidenceObservationId", "evidenceSourceRunId", "sourcePayloadDigest", "destinationId",
     "newPropertyFindingId", "reviewerUserId", "reviewerLabel", "reviewedAt", "prereviewFingerprint", "prereviewAsOf",
     "receiptDigest", "verifications", "evidenceReferenceCount"}

  lemma SameReceiptRead(e: Evidence, f: Evidence)
    requires "receiptId" in e && "receiptId" in f && forall k | k in RECEIPT_COLUMNS :: At(e, k) == At(f, k)
    ensures ReadReceipt(e) == ReadReceipt(f)
  {
    hide At, AsText, AsOption, AsNumber, AsItems, ReadDecision, ReadVerification, Map;
  }

  lemma ReceiptColumnsShown(input: PreviewInput)
    requires input.humanReview.Some?
    ensures RECEIPT_COLUMNS <= ReceiptEvidence(input).Keys
  {
    hide SortBy, Map, DecisionText, VerificationValue, ReceiptCurrent, OptStr;
  }

  function SortedReceipt(r: ReceiptView): ReceiptView { r.(verifications := SortBy(Dimension, r.verifications)) }

  lemma ReceiptColumnValues(input: PreviewInput)
    requires input.humanReview.Some?
    ensures var r, e := input.humanReview.value, ReceiptEvidence(input);
      && "receiptId" in e && At(e, "receiptId") == Str(r.receiptId) && At(e, "decision") == Str(DecisionText(r.decision))
      && At(e, "evidenceObservationId") == Str(r.evidenceObservationId)
      && At(e, "evidenceSourceRunId") == Str(r.evidenceSourceRunId)
      && At(e, "sourcePayloadDigest") == Str(r.sourcePayloadDigest) && At(e, "destinationId") == OptStr(r.destinationId)
      && At(e, "newPropertyFindingId") == OptStr(r.newPropertyFindingId)
      && At(e, "reviewerUserId") == OptStr(r.reviewerUserId) && At(e, "reviewerLabel") == Str(r.reviewerLabel)
      && At(e, "reviewedAt") == Str(r.reviewedAt) && At(e, "prereviewFingerprint") == Str(r.prereviewFingerprint)
      && At(e, "prereviewAsOf") == Str(r.prereviewAsOf) && At(e, "receiptDigest") == Str(r.receiptDigest)
      && At(e, "verifications") == List(Map(VerificationValue, SortBy(Dimension, r.verifications)))
      && At(e, "evidenceReferenceCount") == Num(r.evidenceReferenceCount)
  {
    hide SortBy, Map, DecisionText, VerificationValue, ReceiptCurrent, OptStr;
  }

  lemma ReceiptEvidenceReadsBack(input: PreviewInput)
    requires input.humanReview.Some?
    ensures ReadReceipt(ReceiptEvidence(input)) == Some(SortedReceipt(input.humanReview.value))
  {
    hide SortBy, Map, DecisionText, ReadDecision, ReadVerification, VerificationValue, ReceiptEvidence, At;
    var r := input.humanReview.value;
    ReceiptColumnValues(input);
    DecisionReadsBack(r.decision);
    VerificationsReadBack(r);
  }

  lemma VerificationsReadBack(r: ReceiptView)
    ensures Map(ReadVerification, Map(VerificationValue, SortBy(Dimension, r.verifications))) == SortBy(Dimension, r.verifications)
  {
    hide SortBy, Map, ReadVerification, VerificationValue;
    forall v: Verification ensures ReadVerification(VerificationValue(v)) == v { VerificationReadsBack(v); }
    ListReadsBack(ReadVerification, VerificationValue, SortBy(Dimension, r.verifications));
  }

  /** The receipt reads back from any object that shows its evidence, its verifications in dimension order. */
  lemma ReceiptReadsBack(e: Evidence, input: PreviewInput)
    requires Shows(e, ReceiptEvidence(input)) && input.humanReview.Some?
    ensures ReadReceipt(e) == Some(SortedReceipt(input.humanReview.value))
  {
    hide ReceiptEvidence, ReadReceipt, SortedReceipt;
    ReceiptColumnsShown(input);
    ReceiptEvidenceReadsBack(input);
    assert "receiptId" in RECEIPT_COLUMNS;
    SameReceiptRead(e, ReceiptEvidence(input));
  }

  function ReadStatus(text: string): ReviewStatus { if text == "active" then Active else Revoked }

  lemma StatusReadsBack(s: ReviewStatus)
    ensures ReadStatus(StatusText(s)) == s
  {
  }

  function ReadReview(e: Evidence): Option<ReviewView> {
    if "id" !in e then None
    else
      Some(ReviewView(
        AsText(At(e, "id")), ReadDecision(AsText(At(e, "decision"))), AsOption(At(e, "destinationId")),
        AsOption(At(e, "targetHotelId")), AsOption(At(e, "decidedInRunId")), AsOption(At(e, "reviewerUserId")),
        AsText(At(e, "reviewerLabel")), AsText(At(e, "reviewedAt")), AsOption(At(e, "reviewNote")),
        ReadStatus(AsText(At(e, "reviewStatus"))), AsOption(At(e, "currentReceiptId")),
        AsFlag(At(e, "currentReceiptRevoked")), AsOption(At(e, "currentReceiptRevocationId"))))
  }

  const REVIEW_COLUMNS: set<string> :=
    {"id", "decision", "destinationId", "targetHotelId", "decidedInRunId", "reviewerUserId", "reviewerLabel", "reviewedAt",
     "reviewNote", "reviewStatus", "currentReceiptId", "currentReceiptRevoked", "currentReceiptRevocationId"}

  lemma SameReviewRead(e: Evidence, f: Evidence)
    requires "id" in e && "id" in f && forall k | k in REVIEW_COLUMNS :: At(e, k) == At(f, k)
    ensures ReadReview(e) == ReadReview(f)
  {
    hide At, AsText, AsOption, AsFlag, ReadDecision, ReadStatus;
  }

  lemma ReviewColumnsShown(review: Option<ReviewView>)
    requires review.Some?
    ensures REVIEW_COLUMNS <= ReviewEvidence(review).Keys
  {
    hide DecisionText, StatusText, OptStr;
  }

  lemma ReviewColumnValues(r: ReviewView)
    ensures var e := ReviewEvidence(Some(r));
      && "id" in e && At(e, "id") == Str(r.id) && At(e, "decision") == Str(DecisionText(r.decision))
      && At(e, "destinationId") == OptStr(r.destinationId) && At(e, "targetHotelId") == OptStr(r.targetHotelId)
      && At(e, "decidedInRunId") == OptStr(r.decidedInRunId) && At(e, "reviewerUserId") == OptStr(r.reviewerUserId)
      && At(e, "reviewerLabel") == Str(r.reviewerLabel) && At(e, "reviewedAt") == Str(r.reviewedAt)
      && At(e, "reviewNote") == OptStr(r.reviewNote) && At(e, "reviewStatus") == Str(StatusText(r.reviewStatus))
      && At(e, "currentReceiptId") == OptStr(r.currentReceiptId)
      && At(e, "currentReceiptRevoked") == Flag(r.currentReceiptRevoked)
      && At(e, "currentReceiptRevocationId") == OptStr(r.currentReceiptRevocationId)
  {
    hide DecisionText, StatusText, OptStr;
  }

  lemma ReviewEvidenceReadsBack(r: ReviewView)
    ensures ReadReview(ReviewEvidence(Some(r))) == Some(r)
  {
    hide DecisionText, ReadDecision, StatusText, ReadStatus, ReviewEvidence, At;
    ReviewColumnValues(r);
    DecisionReadsBack(r.decision);
    StatusReadsBack(r.reviewStatus);
  }

  /** The review reads back from any object that shows its evidence. */
  lemma ReviewReadsBack(e: Evidence, review: Option<ReviewView>)
    requires Shows(e, ReviewEvidence(review)) && (review.None? ==> "id" !in e)
    ensures ReadReview(e) == review
  {
    if review.Some? {
      ReviewEvidenceReadsBack(review.value);
      hide ReviewEvidence, ReadReview;
      ReviewColumnsShown(review);
      assert "id" in REVIEW_COLUMNS;
      SameReviewRead(e, ReviewEvidence(review));
    }
  }

  /** The revocation columns: the projection's own, and a flag saying whether event and status agree. */
  lemma RevocationColumnValues(r: ReviewView, input: PreviewInput)
    requires input.review == Some(r)
    ensures var e := RevocationEvidence(input);
      && At(e, "reviewStatus") == Str(StatusText(r.reviewStatus))
      && At(e, "currentReceiptRevoked") == Flag(r.currentReceiptRevoked)
      && At(e, "currentReceiptRevocationId") == OptStr(r.currentReceiptRevocationId)
      && At(e, "revocationStateCoherent") == Flag(r.currentReceiptRevoked <==> r.reviewStatus.Revoked?)
  {
    hide StatusText, OptStr;
  }

  // ---- Entity evidence. ----

  const CANDIDATE_COLUMNS: set<string> :=
    {"id", "sourcePropertyIdentityId", "kind", "candidateHotelId", "candidateSourcePropertyIdentityId"}

  function ReadCandidate(v: Value): CandidateView {
    var e := if v.Obj? then v.fields else map[];
    CandidateView(
      AsText(At(e, "id")), AsText(At(e, "sourcePropertyIdentityId")),
      (match AsText(At(e, "kind"))
       case "canonical_hotel" => CanonicalHotel
       case "source_identity" => SourceIdentity
       case _ => NewProperty),
      AsOption(At(e, "candidateHotelId")), AsOption(At(e, "candidateSourcePropertyIdentityId")), e - CANDIDATE_COLUMNS)
  }

  /** A column the preview prints itself cannot also be a copied detail. */
  function Printed(c: CandidateView): CandidateView { c.(details := c.details - CANDIDATE_COLUMNS) }

  lemma CandidateReadsBack(c: CandidateView)
    ensures ReadCandidate(CandidateValue(c)) == Printed(c)
  {
    var e := CandidateValue(c).fields;
    assert e - CANDIDATE_COLUMNS == c.details - CANDIDATE_COLUMNS;
  }

  /** What the entity evidence shows: every list in its printed order. */
  function ReadEntity(e: Evidence): EntityView {
    EntityView(AsFlag(At(e, "synchronized")), Map(ReadCandidate, AsItems(At(e, "acceptedCandidates"))),
               Map(AsText, AsItems(At(e, "pendingCandidateIds"))), Map(AsText, AsItems(At(e, "currentAnomalyReasons"))))
  }

  function PrintedEntity(e: EntityView): EntityView {
    EntityView(e.synchronized, Map(Printed, SortedCandidates(e)), SortBy(Self, e.pendingCandidateIds),
               SortBy(Self, e.currentAnomalyReasons))
  }

  lemma EntityReadsBack(e: EntityView)
    ensures ReadEntity(EntityEvidence(e)) == PrintedEntity(e)
  {
    hide SortBy, SortedCandidates, ReadCandidate, CandidateValue, AcceptedContradiction, Printed;
    var cs := SortedCandidates(e);
    forall k | 0 <= k < |cs| ensures ReadCandidate(CandidateValue(cs[k])) == Printed(cs[k]) { CandidateReadsBack(cs[k]); }
    assert Map(ReadCandidate, Map(CandidateValue, cs)) == Map(Printed, cs);
    ListReadsBack(AsText, StrValue, SortBy(Self, e.pendingCandidateIds));
    ListReadsBack(AsText, StrValue, SortBy(Self, e.currentAnomalyReasons));
  }

  // ---- Lifecycle evidence. ----

  function AsOptionalFlag(v: Value): Option<bool> { if v.Flag? then Some(v.flag) else None }

  function ReadIssue(v: Value): L.IssueEvidence {
    var e := if v.Obj? then v.fields else map[];
    L.IssueEvidence(AsText(At(e, "issueCode")), AsText(At(e, "issueType")), AsOption(At(e, "dateFromRaw")),
                    AsOption(At(e, "dateToRaw")), AsNumber(At(e, "providerOrder")), AsOptionalFlag(At(e, "alternative")))
  }

  function ReadClosure(v: Value): L.ClosureWindow {
    var e := if v.Obj? then v.fields else map[];
    L.ClosureWindow(AsText(At(e, "issueCode")), AsText(At(e, "issueType")), AsText(At(e, "dateFrom")), AsText(At(e, "dateTo")))
  }

  function ReadLifecycle(e: Evidence): L.Evaluation {
    L.Evaluation(
      (match AsText(At(e, "outcome"))
       case "known_closed" => L.KnownClosed
       case "no_known_closure" => L.NoKnownClosure
       case _ => L.Unresolved),
      AsText(At(e, "asOf")), AsText(At(e, "policyProvider")), AsText(At(e, "policyVersion")),
      AsOption(At(e, "observationId")), AsOption(At(e, "snapshotId")),
      Map(ReadClosure, AsItems(At(e, "activeClosureWindows"))), Map(ReadIssue, AsItems(At(e, "mappedWindows"))),
      Map(AsText, AsItems(At(e, "unresolvedReasons"))))
  }

  lemma IssueReadsBack(w: L.IssueEvidence)
    ensures ReadIssue(IssueValue(w)) == w
  {
  }

  lemma ClosureReadsBack(w: L.ClosureWindow)
    ensures ReadClosure(ClosureValue(w)) == w
  {
  }

  /** The lifecycle evaluation reads back with its lists in printed order. */
  lemma LifecycleReadsBack(e: L.Evaluation)
    ensures ReadLifecycle(LifecycleEvidence(e)) == e.(
      activeClosureWindows := SortBy(ClosureKey, e.activeClosureWindows),
      mappedWindows := SortBy(IssueKey, e.mappedWindows), unresolvedReasons := SortBy(Self, e.unresolvedReasons))
  {
    hide SortBy, Map, ReadIssue, IssueValue, ReadClosure, ClosureValue, ClosureKey, IssueKey;
    forall w: L.IssueEvidence ensures ReadIssue(IssueValue(w)) == w { IssueReadsBack(w); }
    forall w: L.ClosureWindow ensures ReadClosure(ClosureValue(w)) == w { ClosureReadsBack(w); }
    ListReadsBack(ReadIssue, IssueValue, SortBy(IssueKey, e.mappedWindows));
    ListReadsBack(ReadClosure, ClosureValue, SortBy(ClosureKey, e.activeClosureWindows));
    ListReadsBack(AsText, StrValue, SortBy(Self, e.unresolvedReasons));
  }
}

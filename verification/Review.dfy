/**
 The tables of the human review protocol, how they become gate input
 (scripts/prepublication-preview/preview.ts), and one approve/defer decision
 (scripts/human-review/apply.ts): the verdict in branch order and the rows it writes.

 Row ids and the transaction's clock are parameters, and digests are the value of a hash parameter.
 */
module Review {
  import opened Prelude
  import opened Text
  import opened Sequences
  import opened Gate
  import D = Dates
  import L = Lifecycle
  import GateMeaning

  const HUMAN_NEW_PROPERTY_METHOD := "human_review:distinct_property"

  datatype Identity = Identity(source: string, environment: string, sourcePropertyId: string, lastSeenRunId: Id)
  datatype Observation = Observation(id: Id, payloadDigest: Option<string>)

  datatype FindingStatus = FindingPending | FindingAccepted | FindingRejected | FindingSuperseded
  datatype Finding = Finding(
    id: Id, source: string, environment: string, matchMethod: string, status: FindingStatus, reviewNote: string)

  datatype Reference = Reference(
    kind: string, locator: string, bearsOnDimensions: seq<string>, stance: string, note: Option<string>)

  datatype Receipt = Receipt(
    identityId: Id, source: string, environment: string, sourcePropertyId: string,
    observationId: Id, runId: Id, payloadDigest: string, prereviewFingerprint: string, prereviewAsOf: string,
    decision: Decision, destinationId: Option<Id>, findingId: Option<Id>, reviewerUserId: Option<Id>,
    reviewerLabel: string, reviewNote: Option<string>, digest: string, reviewedAt: string,
    verifications: seq<Verification>, references: seq<Reference>)

  datatype Projection = Projection(
    id: Id, source: string, environment: string, decision: Decision, destinationId: Option<Id>,
    targetHotelId: Option<Id>, reviewerUserId: Option<Id>, reviewerLabel: string, reviewNote: Option<string>,
    decidedInRunId: Option<Id>, reviewedAt: string, status: ReviewStatus, currentReceiptId: Option<Id>)

  datatype Revocation = Revocation(
    id: Id, identityId: Id, source: string, environment: string, reviewerUserId: Option<Id>,
    reviewerLabel: string, note: string, revokedAt: string, digest: string)

  /** Everything the gate reads about one identity that no human wrote. */
  datatype Machine = Machine(
    scope: Option<ScopeView>, star: Option<StarView>, location: Option<LocationView>,
    snapshot: Option<L.IssueSnapshot>, synchronized: bool, otherAccepted: seq<CandidateView>,
    otherPending: seq<Id>, anomalies: seq<string>)

  /**
   Unique keys become map keys: an observation per (run, identity), a `new_property` finding and a
   projection per identity, a revocation per receipt. Receipts are keyed by their own id.
   */
  datatype Tables = Tables(
    identities: map<Id, Identity>, observations: map<(Id, Id), Observation>,
    destinationIds: map<string, Id>, destinationSlugs: map<Id, string>, hotels: map<Id, TargetHotelView>,
    findings: map<Id, Finding>, receipts: map<Id, Receipt>, projections: map<Id, Projection>,
    revocations: map<Id, Revocation>, machine: map<Id, Machine>, policy: Option<L.Policy>)

  // ---- Reading one row out of an unordered result. ----

  predicate IsLeast(ids: set<Id>, x: Id) { x in ids && forall y | y in ids :: !Less(y, x) }

  lemma {:induction false} LeastExists(ids: set<Id>)
    requires ids != {}
    ensures exists x :: IsLeast(ids, x)
  {
    hide Less;
    var a :| a in ids;
    LessIrreflexive(a);
    if ids == {a} {
      assert IsLeast(ids, a);
    } else {
      assert ids - {a} != {};
      LeastExists(ids - {a});
      var x :| IsLeast(ids - {a}, x);
      if Less(a, x) {
        forall y | y in ids ensures !Less(y, a) {
          if y != a && Less(y, a) { LessTransitive(y, a, x); }
        }
        assert IsLeast(ids, a);
      } else {
        assert IsLeast(ids, x);
      }
    }
  }

  lemma LeastUnique(ids: set<Id>)
    ensures forall x, y | IsLeast(ids, x) && IsLeast(ids, y) :: x == y
  {
    forall x, y | IsLeast(ids, x) && IsLeast(ids, y)
      ensures x == y
    {
      LessTotal(x, y);
    }
  }

  /** `rows[0]` of a query without an order: some row of the result. */
  function FirstRow(ids: set<Id>): (r: Option<Id>)
    ensures r.None? <==> ids == {}
    ensures r.Some? ==> r.value in ids
  {
    if ids == {} then None
    else
      LeastExists(ids);
      LeastUnique(ids);
      var x :| IsLeast(ids, x);
      Some(x)
  }

  /** The receipt the loader prefers: about the current observation first, then newest, then by id. */
  predicate Outranks(receipts: map<Id, Receipt>, current: Option<Id>, a: Id, b: Id)
    requires a in receipts && b in receipts
  {
    var ca, cb := Cites(receipts[a].observationId, current), Cites(receipts[b].observationId, current);
    if ca != cb then ca
    else if receipts[a].reviewedAt != receipts[b].reviewedAt then Less(receipts[b].reviewedAt, receipts[a].reviewedAt)
    else Less(b, a)
  }

  predicate IsTop(receipts: map<Id, Receipt>, current: Option<Id>, rows: set<Id>, x: Id)
    requires rows <= receipts.Keys
  {
    x in rows && forall y | y in rows && y != x :: Outranks(receipts, current, x, y)
  }

  lemma OutranksOrder(receipts: map<Id, Receipt>, current: Option<Id>, a: Id, b: Id, c: Id)
    requires a in receipts && b in receipts && c in receipts
    ensures a != b ==> Outranks(receipts, current, a, b) || Outranks(receipts, current, b, a)
    ensures !(Outranks(receipts, current, a, b) && Outranks(receipts, current, b, a))
    ensures Outranks(receipts, current, a, b) && Outranks(receipts, current, b, c) ==> Outranks(receipts, current, a, c)
  {
    var ta, tb, tc := receipts[a].reviewedAt, receipts[b].reviewedAt, receipts[c].reviewedAt;
    LessTotal(a, b);
    LessTotal(ta, tb);
    if Less(a, b) { LessAsymmetric(a, b); }
    if Less(b, a) { LessAsymmetric(b, a); }
    if Less(ta, tb) { LessAsymmetric(ta, tb); }
    if Less(tb, ta) { LessAsymmetric(tb, ta); }
    if Less(c, b) && Less(b, a) { LessTransitive(c, b, a); }
    if Less(tc, tb) && Less(tb, ta) { LessTransitive(tc, tb, ta); LessIrreflexive(ta); }
  }

  lemma {:induction false} TopExists(receipts: map<Id, Receipt>, current: Option<Id>, rows: set<Id>)
    requires rows <= receipts.Keys && rows != {}
    ensures exists x :: IsTop(receipts, current, rows, x)
  {
    hide Outranks;
    var a :| a in rows;
    if rows == {a} {
      assert IsTop(receipts, current, rows, a);
    } else {
      assert rows - {a} != {};
      TopExists(receipts, current, rows - {a});
      var x :| IsTop(receipts, current, rows - {a}, x);
      OutranksOrder(receipts, current, a, x, x);
      if Outranks(receipts, current, a, x) {
        forall y | y in rows && y != a ensures Outranks(receipts, current, a, y) {
          OutranksOrder(receipts, current, a, x, y);
        }
        assert IsTop(receipts, current, rows, a);
      } else {
        assert IsTop(receipts, current, rows, x);
      }
    }
  }

  lemma TopUnique(receipts: map<Id, Receipt>, current: Option<Id>, rows: set<Id>)
    requires rows <= receipts.Keys
    ensures forall x, y | IsTop(receipts, current, rows, x) && IsTop(receipts, current, rows, y) :: x == y
  {
    hide Outranks;
    forall x, y | IsTop(receipts, current, rows, x) && IsTop(receipts, current, rows, y)
      ensures x == y
    {
      OutranksOrder(receipts, current, x, y, y);
    }
  }

  function ReceiptsOf(t: Tables, i: Id): set<Id> { set r | r in t.receipts && t.receipts[r].identityId == i }

  function SelectedReceipt(t: Tables, i: Id, current: Option<Id>): (r: Option<Id>)
    ensures r.None? <==> ReceiptsOf(t, i) == {}
    ensures r.Some? ==> IsTop(t.receipts, current, ReceiptsOf(t, i), r.value)
  {
    var rows := ReceiptsOf(t, i);
    if rows == {} then None
    else
      TopExists(t.receipts, current, rows);
      TopUnique(t.receipts, current, rows);
      var x :| IsTop(t.receipts, current, rows, x);
      Some(x)
  }

  // ---- Tables as gate input. ----

  function CurrentObservation(t: Tables, i: Id): Option<Observation> {
    if i in t.identities && (t.identities[i].lastSeenRunId, i) in t.observations
    then Some(t.observations[(t.identities[i].lastSeenRunId, i)]) else None
  }

  function CurrentObservationId(t: Tables, i: Id): Option<Id> {
    if CurrentObservation(t, i).Some? then Some(CurrentObservation(t, i).value.id) else None
  }

  const NO_EVIDENCE := Machine(None, None, None, None, false, [], [], [])

  function MachineOf(t: Tables, i: Id): Machine { if i in t.machine then t.machine[i] else NO_EVIDENCE }

  function ProjectionView(t: Tables, p: Projection): ReviewView {
    var revoked := p.currentReceiptId.Some? && p.currentReceiptId.value in t.revocations;
    ReviewView(p.id, p.decision, p.destinationId, p.targetHotelId, p.decidedInRunId, p.reviewerUserId,
               p.reviewerLabel, p.reviewedAt, p.reviewNote, p.status, p.currentReceiptId, revoked,
               if revoked then Some(t.revocations[p.currentReceiptId.value].id) else None)
  }

  function AsReceiptView(id: Id, r: Receipt): ReceiptView {
    ReceiptView(id, r.decision, r.observationId, r.runId, r.payloadDigest, r.destinationId, r.findingId,
                r.reviewerUserId, r.reviewerLabel, r.reviewedAt, r.prereviewFingerprint, r.prereviewAsOf,
                r.digest, r.verifications, |r.references|)
  }

  function FindingView(i: Id, f: Finding): CandidateView {
    CandidateView(f.id, i, NewProperty, None, None,
                  map["status" := Str("accepted"), "matchMethod" := Str(f.matchMethod), "reviewNote" := Str(f.reviewNote)])
  }

  function EntityOf(t: Tables, i: Id): EntityView {
    var m := MachineOf(t, i);
    EntityView(
      m.synchronized,
      m.otherAccepted + (if i in t.findings && t.findings[i].status.FindingAccepted? then [FindingView(i, t.findings[i])] else []),
      m.otherPending + (if i in t.findings && t.findings[i].status.FindingPending? then [t.findings[i].id] else []),
      m.anomalies)
  }

  function ComposeInput(t: Tables, i: Id, policy: L.Policy): PreviewInput
    requires i in t.identities
  {
    var who := t.identities[i];
    var current := CurrentObservationId(t, i);
    var m := MachineOf(t, i);
    var review := if i in t.projections then Some(ProjectionView(t, t.projections[i])) else None;
    var selected := SelectedReceipt(t, i, current);
    PreviewInput(
      IdentityView(i, who.source, who.environment, current), review,
      if review.Some? && review.value.destinationId.Some? && review.value.destinationId.value in t.destinationSlugs
      then Some(DestinationView(review.value.destinationId.value, t.destinationSlugs[review.value.destinationId.value])) else None,
      if review.Some? && review.value.targetHotelId.Some? && review.value.targetHotelId.value in t.hotels
      then Some(t.hotels[review.value.targetHotelId.value]) else None,
      if selected.Some? then Some(AsReceiptView(selected.value, t.receipts[selected.value])) else None,
      EntityOf(t, i), m.scope, m.star, m.location, m.snapshot, policy)
  }

  /** Hash functions and what they are applied to. */
  datatype ReceiptContent = ReceiptContent(
    identityId: Id, observationId: Id, runId: Id, payloadDigest: string, prereviewFingerprint: string,
    prereviewAsOf: string, decision: Decision, destinationId: Option<Id>, reviewerLabel: string,
    humanNote: Option<string>, verifications: seq<Verification>,
    references: multiset<(string, string, multiset<string>, string, Option<string>)>)

  datatype RevocationContent = RevocationContent(
    identityId: Id, reviewId: Id, revokedReceiptId: Id, receiptDigest: string, evidenceObservationId: Id,
    reviewerLabel: string, reviewerUserId: Option<Id>, revocationNote: string)

  datatype Hashing = Hashing(
    fingerprint: FingerprintPayload -> string, receipt: ReceiptContent -> string,
    revocation: RevocationContent -> string)

  /** The manifest options plus what the transaction itself supplies. */
  datatype Context = Context(source: string, environment: string, asOf: string, now: string, hashing: Hashing)

  datatype ManifestError = NoLifecyclePolicy | PreviewRefused(reason: L.Refusal) | Malformed(refusal: string)

  predicate InScope(t: Tables, i: Id, source: string, environment: string) {
    i in t.identities && t.identities[i].source == source && t.identities[i].environment == environment
  }

  function PreviewOf(t: Tables, i: Id, policy: L.Policy, ctx: Context): Result<PreviewResult, L.Refusal>
    requires i in t.identities
  {
    EvaluatePreview(ComposeInput(t, i, policy), ctx.asOf, ctx.hashing.fingerprint)
  }

  /** Every identity of the source and environment through the real evaluator, or the reason it threw. */
  function Previews(t: Tables, ctx: Context): Result<map<Id, PreviewResult>, ManifestError> {
    if t.policy.None? then Err(NoLifecyclePolicy)
    else if (exists i | i in t.identities :: InScope(t, i, ctx.source, ctx.environment))
            && !t.policy.value.approved then Err(PreviewRefused(L.PolicyNotApproved))
    else if (exists i | i in t.identities :: InScope(t, i, ctx.source, ctx.environment))
            && !D.IsValidIsoDate(Some(ctx.asOf)) then Err(PreviewRefused(L.InvalidAsOf))
    else Ok(map i | i in t.identities && InScope(t, i, ctx.source, ctx.environment)
                    && PreviewOf(t, i, t.policy.value, ctx).Ok? :: PreviewOf(t, i, t.policy.value, ctx).value)
  }

  // ---- One reviewed item. ----

  type ManifestDecision = d: Decision | d.ApproveCreate? || d.Defer? witness ApproveCreate

  datatype ReviewedItem = ReviewedItem(
    identityId: Id, sourcePropertyId: string, currentObservationId: Id, currentSourceRunId: Id,
    sourcePayloadDigest: string, prereviewFingerprint: string, prereviewAsOf: string,
    decision: ManifestDecision, canonicalDestinationSlug: Option<string>, reviewerLabel: string,
    reviewerUserId: Option<Id>, humanNote: Option<string>, verifications: seq<Verification>,
    evidenceReferences: seq<Reference>)

  datatype RowIds = RowIds(finding: Id, receipt: Id, review: Id)

  datatype Refusal =
    | IdentityNotFound | IdentityMismatch | StaleObservation | StaleRun | StalePayloadDigest
    | DestinationNotSupported | ReviewRevokedRequiresFreshObservation | ConflictingReviewExists
    | PreviewUnavailable | StalePrereviewFingerprint | NotReviewReady | DeferAfterExistingReviewUnsupported
    | ExistingReviewDecisionIncompatible | ExistingNewPropertyFindingIncompatible

  datatype Outcome =
    | WouldApply(identityId: Id, sourcePropertyId: string, receiptId: Id)
    | Applied(identityId: Id, sourcePropertyId: string, receiptId: Id)
    | AlreadyApplied(identityId: Id, sourcePropertyId: string, receiptId: Id)
    | Refused(identityId: Id, sourcePropertyId: string, refusal: Refusal)

  function ReferenceContent(r: Reference): (string, string, multiset<string>, string, Option<string>) {
    (r.kind, r.locator, multiset(r.bearsOnDimensions), r.stance, r.note)
  }

  /**
   The semantic content of a decision. Sorting a list of records by their full text keeps exactly
   their multiset; verifications are sorted by dimension alone, so ties keep their order.
   */
  function ContentOf(item: ReviewedItem, destinationId: Option<Id>): ReceiptContent {
    ReceiptContent(
      item.identityId, item.currentObservationId, item.currentSourceRunId, item.sourcePayloadDigest,
      item.prereviewFingerprint, item.prereviewAsOf, item.decision, destinationId, item.reviewerLabel,
      item.humanNote, SortBy(Dimension, item.verifications),
      multiset(Map(ReferenceContent, item.evidenceReferences)))
  }

  function DestinationFor(t: Tables, item: ReviewedItem): Option<Id> {
    if item.decision.ApproveCreate? && item.canonicalDestinationSlug.Some?
       && item.canonicalDestinationSlug.value in t.destinationIds
    then Some(t.destinationIds[item.canonicalDestinationSlug.value]) else None
  }

  function DigestOf(t: Tables, item: ReviewedItem, ctx: Context): string {
    ctx.hashing.receipt(ContentOf(item, DestinationFor(t, item)))
  }

  function ReceiptsAbout(t: Tables, i: Id, observationId: Id): set<Id> {
    set r | r in t.receipts && t.receipts[r].identityId == i && t.receipts[r].observationId == observationId
  }

  predicate FindingReusable(f: Finding, who: Identity) {
    && f.matchMethod == HUMAN_NEW_PROPERTY_METHOD && f.status.FindingAccepted?
    && f.source == who.source && f.environment == who.environment
  }

  /** The receipt a revoked projection names, when it belongs to the identity. */
  function RevokedObservation(t: Tables, i: Id): Option<Id>
    requires i in t.projections
  {
    var r := t.projections[i].currentReceiptId;
    if r.Some? && r.value in t.receipts && t.receipts[r.value].identityId == i
    then Some(t.receipts[r.value].observationId) else None
  }

  predicate StillRevoked(t: Tables, item: ReviewedItem) {
    && item.identityId in t.projections && t.projections[item.identityId].status.Revoked?
    && (RevokedObservation(t, item.identityId).None?
        || RevokedObservation(t, item.identityId).value == item.currentObservationId)
  }

  datatype Verdict = Refuse(refusal: Refusal) | Already(receiptId: Id) | Proceed

  /** The pins of a manifest against the identity's current observation. */
  function PinVerdict(t: Tables, item: ReviewedItem, ctx: Context): Verdict {
    var i := item.identityId;
    if !InScope(t, i, ctx.source, ctx.environment) || CurrentObservation(t, i).None? then Refuse(IdentityNotFound)
    else
      var current := CurrentObservation(t, i).value;
      if t.identities[i].sourcePropertyId != item.sourcePropertyId then Refuse(IdentityMismatch)
      else if current.id != item.currentObservationId then Refuse(StaleObservation)
      else if t.identities[i].lastSeenRunId != item.currentSourceRunId then Refuse(StaleRun)
      else if current.payloadDigest != Some(item.sourcePayloadDigest) then Refuse(StalePayloadDigest)
      else if item.decision.ApproveCreate? && DestinationFor(t, item).None? then Refuse(DestinationNotSupported)
      else Proceed
  }

  /** Revocation, then idempotency, in that order. */
  function HistoryVerdict(t: Tables, item: ReviewedItem, ctx: Context): Verdict {
    var existing := FirstRow(ReceiptsAbout(t, item.identityId, item.currentObservationId));
    if item.decision.ApproveCreate? && StillRevoked(t, item) then Refuse(ReviewRevokedRequiresFreshObservation)
    else if existing.Some? then
      if t.receipts[existing.value].digest == DigestOf(t, item, ctx) then Already(existing.value)
      else Refuse(ConflictingReviewExists)
    else Proceed
  }

  /** What a review not yet applied must still satisfy. */
  function ReadyVerdict(t: Tables, item: ReviewedItem, previews: map<Id, PreviewResult>): Verdict {
    var i := item.identityId;
    if i !in previews then Refuse(PreviewUnavailable)
    else if previews[i].fingerprint != item.prereviewFingerprint then Refuse(StalePrereviewFingerprint)
    else if !GateMeaning.Ready(previews[i].conditions) then Refuse(NotReviewReady)
    else if item.decision.Defer? then
      if i in t.projections then Refuse(DeferAfterExistingReviewUnsupported) else Proceed
    else if i in t.projections && !t.projections[i].decision.ApproveCreate? then Refuse(ExistingReviewDecisionIncompatible)
    else if i in t.findings && i in t.identities && !FindingReusable(t.findings[i], t.identities[i]) then
      Refuse(ExistingNewPropertyFindingIncompatible)
    else Proceed
  }

  function Decide(t: Tables, item: ReviewedItem, previews: map<Id, PreviewResult>, ctx: Context): Verdict {
    var pins := PinVerdict(t, item, ctx);
    if !pins.Proceed? then pins
    else
      var history := HistoryVerdict(t, item, ctx);
      if !history.Proceed? then history else ReadyVerdict(t, item, previews)
  }

  function NewReceipt(t: Tables, item: ReviewedItem, ctx: Context, findingId: Option<Id>): Receipt
    requires item.identityId in t.identities
  {
    var who := t.identities[item.identityId];
    Receipt(item.identityId, who.source, who.environment, who.sourcePropertyId, item.currentObservationId,
            item.currentSourceRunId, item.sourcePayloadDigest, item.prereviewFingerprint, item.prereviewAsOf,
            item.decision, DestinationFor(t, item), findingId, item.reviewerUserId, item.reviewerLabel,
            item.humanNote, DigestOf(t, item, ctx), ctx.now, item.verifications, item.evidenceReferences)
  }

  function FindingNote(item: ReviewedItem): string {
    if !MissingText(item.humanNote) then item.humanNote.value
    else "Human review by " + item.reviewerLabel + ": distinct property established against observation "
         + item.currentObservationId + "."
  }

  function FindingAfter(t: Tables, item: ReviewedItem, ids: RowIds): Finding
    requires item.identityId in t.identities
  {
    var who := t.identities[item.identityId];
    if item.identityId in t.findings then t.findings[item.identityId]
    else Finding(ids.finding, who.source, who.environment, HUMAN_NEW_PROPERTY_METHOD, FindingAccepted, FindingNote(item))
  }

  function ProjectionAfter(t: Tables, item: ReviewedItem, ids: RowIds, ctx: Context): Projection
    requires item.identityId in t.identities
  {
    var who := t.identities[item.identityId];
    var base := if item.identityId in t.projections then t.projections[item.identityId]
                else Projection(ids.review, who.source, who.environment, ApproveCreate, None, None, None, "", None, None, "", Active, None);
    base.(decision := ApproveCreate, destinationId := DestinationFor(t, item), targetHotelId := None,
          reviewerUserId := item.reviewerUserId, reviewerLabel := item.reviewerLabel, reviewNote := item.humanNote,
          decidedInRunId := Some(item.currentSourceRunId), reviewedAt := ctx.now, status := Active,
          currentReceiptId := Some(ids.receipt))
  }

  /** The rows one accepted decision leaves behind. A defer writes its receipt and nothing else. */
  function Written(t: Tables, item: ReviewedItem, ids: RowIds, ctx: Context): Tables
    requires item.identityId in t.identities
  {
    var i := item.identityId;
    if item.decision.Defer? then t.(receipts := t.receipts[ids.receipt := NewReceipt(t, item, ctx, None)])
    else
      var finding := FindingAfter(t, item, ids);
      t.(findings := t.findings[i := finding],
         receipts := t.receipts[ids.receipt := NewReceipt(t, item, ctx, Some(finding.id))],
         projections := t.projections[i := ProjectionAfter(t, item, ids, ctx)])
  }

  function ApplyOne(t: Tables, item: ReviewedItem, previews: map<Id, PreviewResult>, ids: RowIds, ctx: Context): (Tables, Outcome) {
    match Decide(t, item, previews, ctx)
    case Refuse(refusal) => (t, Refused(item.identityId, item.sourcePropertyId, refusal))
    case Already(receiptId) => (t, AlreadyApplied(item.identityId, item.sourcePropertyId, receiptId))
    case Proceed =>
      ProceedIsInScope(t, item, previews, ctx);
      (Written(t, item, ids, ctx), WouldApply(item.identityId, item.sourcePropertyId, ids.receipt))
  }

  lemma ProceedIsInScope(t: Tables, item: ReviewedItem, previews: map<Id, PreviewResult>, ctx: Context)
    requires Decide(t, item, previews, ctx).Proceed?
    ensures InScope(t, item.identityId, ctx.source, ctx.environment)
    ensures CurrentObservationId(t, item.identityId) == Some(item.currentObservationId)
    ensures t.identities[item.identityId].lastSeenRunId == item.currentSourceRunId
    ensures item.decision.ApproveCreate? ==> DestinationFor(t, item).Some?
  {
  }

  // ---- A manifest: the items in order, inside one transaction. ----

  function ApplyItems(
    t: Tables, items: seq<ReviewedItem>, previews: map<Id, PreviewResult>, ids: seq<RowIds>, ctx: Context)
    : (Tables, seq<Outcome>)
    requires |ids| == |items|
  {
    if items == [] then (t, [])
    else
      var last := |items| - 1;
      var (before, outcomes) := ApplyItems(t, items[..last], previews, ids[..last], ctx);
      var (after, outcome) := ApplyOne(before, items[last], previews, ids[last], ctx);
      (after, outcomes + [outcome])
  }

  /** Dry runs and applies do the same work; only the label of a written item differs. */
  function Relabel(apply: bool, o: Outcome): Outcome {
    if apply && o.WouldApply? then Applied(o.identityId, o.sourcePropertyId, o.receiptId) else o
  }

  // ---- Shape rules, checked before the database is touched. ----

  const REVIEW_DIMENSIONS: seq<string> :=
    ["distinct_property", "name", "city_locality", "address", "coordinates", "destination_membership"]

  predicate Supports(item: ReviewedItem, dimension: string) {
    exists v | v in item.verifications :: v.dimension == dimension && v.verdict == "supports"
  }

  /** A defer says why and places nothing; an approval is affirmative, complete and evidenced. */
  predicate WellFormed(item: ReviewedItem) {
    if item.decision.Defer? then !MissingText(item.humanNote) && !Truthy(item.canonicalDestinationSlug)
    else
      && Truthy(item.canonicalDestinationSlug)
      && (forall v | v in item.verifications :: v.dimension in REVIEW_DIMENSIONS)
      && (forall a, b | 0 <= a < b < |item.verifications| ::
            item.verifications[a].dimension != item.verifications[b].dimension)
      && (forall v | v in item.verifications :: v.verdict == "contradicts" ==> !MissingText(v.note))
      && (forall d | d in REVIEW_DIMENSIONS :: exists v | v in item.verifications :: v.dimension == d)
      && Supports(item, "distinct_property") && Supports(item, "destination_membership")
      && item.evidenceReferences != []
      && (forall r | r in item.evidenceReferences :: !IsBlank(r.locator) && r.bearsOnDimensions != [])
  }
}

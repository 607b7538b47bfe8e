/**
 Withdrawing an active approval (scripts/human-review-revocation/revoke.ts) and the read-only pack
 a human fills in to do so (scripts/human-review-revocation/pack.ts).
 */
module Withdrawal {
  import opened Prelude
  import opened Gate
  import opened Review

  datatype RevocationItem = RevocationItem(
    identityId: Id, sourcePropertyId: string, reviewId: Id, expectedDecision: string,
    expectedReviewStatus: string, expectedCurrentReceiptId: Id, expectedReceiptDigest: string,
    expectedEvidenceObservationId: Id, reviewerLabel: string, reviewerUserId: Option<Id>, revocationNote: string)

  datatype RevocationRefusal =
    | ReviewNotFound | StaleReviewProjection | RevocationIdentityMismatch | RevocationStateIncoherent
    | RevocationManifestNoLongerCurrent | ConflictingRevocationExists | ReviewNotApproveCreate
    | ReviewNotActive | ReceiptMismatch | ReviewProjectionReceiptMismatch

  datatype RevocationOutcome =
    | WouldRevoke(identityId: Id, sourcePropertyId: string, revocationId: Id)
    | HasRevoked(identityId: Id, sourcePropertyId: string, revocationId: Id)
    | AlreadyRevoked(identityId: Id, sourcePropertyId: string, revocationId: Id)
    | RevocationRefused(identityId: Id, sourcePropertyId: string, refusal: RevocationRefusal)

  datatype Ruling = Deny(refusal: RevocationRefusal) | Standing(revocationId: Id) | Withdraw

  function ContentOf(item: RevocationItem): RevocationContent {
    RevocationContent(item.identityId, item.reviewId, item.expectedCurrentReceiptId, item.expectedReceiptDigest,
                      item.expectedEvidenceObservationId, item.reviewerLabel, item.reviewerUserId, item.revocationNote)
  }

  predicate WellFormed(item: RevocationItem) {
    && !IsBlank(item.revocationNote) && !IsBlank(item.reviewerLabel)
    && item.expectedDecision == "approve_create" && item.expectedReviewStatus == "active"
  }

  /** Which shape rule a malformed item breaks first. */
  function ShapeDefect(item: RevocationItem): Option<string> {
    if IsBlank(item.revocationNote) then Some("revocation_requires_note")
    else if IsBlank(item.reviewerLabel) then Some("revocation_requires_reviewer")
    else if item.expectedDecision != "approve_create" then Some("revocation_target_not_approve_create")
    else if item.expectedReviewStatus != "active" then Some("revocation_target_not_active")
    else None
  }

  /** The projection a manifest is aimed at: this identity's, in this source and environment. */
  predicate Located(t: Tables, i: Id, source: string, environment: string) {
    && i in t.projections && i in t.identities
    && t.projections[i].source == source && t.projections[i].environment == environment
  }

  /** An event for the pinned receipt already exists. */
  function ReplayRuling(t: Tables, item: RevocationItem, p: Projection, hashing: Hashing): Ruling
    requires item.expectedCurrentReceiptId in t.revocations
  {
    var prior := t.revocations[item.expectedCurrentReceiptId];
    var names := p.currentReceiptId == Some(item.expectedCurrentReceiptId);
    if names && !p.status.Revoked? then Deny(RevocationStateIncoherent)
    else if !names then Deny(RevocationManifestNoLongerCurrent)
    else if prior.digest == hashing.revocation(ContentOf(item)) then Standing(prior.id)
    else Deny(ConflictingRevocationExists)
  }

  /** Every pin must still hold, and the projection must be the receipt it names. */
  function PinRuling(t: Tables, item: RevocationItem, p: Projection): Ruling {
    var id := item.expectedCurrentReceiptId;
    if !p.decision.ApproveCreate? then Deny(ReviewNotApproveCreate)
    else if !p.status.Active? then Deny(ReviewNotActive)
    else if p.currentReceiptId != Some(id) then Deny(ReceiptMismatch)
    else if id !in t.receipts || t.receipts[id].identityId != item.identityId then Deny(ReceiptMismatch)
    else
      var r := t.receipts[id];
      if !r.decision.ApproveCreate? then Deny(ReviewNotApproveCreate)
      else if r.digest != item.expectedReceiptDigest then Deny(ReceiptMismatch)
      else if r.observationId != item.expectedEvidenceObservationId then Deny(ReceiptMismatch)
      else if r.destinationId != p.destinationId || Some(r.runId) != p.decidedInRunId then
        Deny(ReviewProjectionReceiptMismatch)
      else Withdraw
  }

  function Decide(t: Tables, item: RevocationItem, ctx: Context): Ruling {
    if !Located(t, item.identityId, ctx.source, ctx.environment) then Deny(ReviewNotFound)
    else
      var p := t.projections[item.identityId];
      if p.id != item.reviewId then Deny(StaleReviewProjection)
      else if t.identities[item.identityId].sourcePropertyId != item.sourcePropertyId then Deny(RevocationIdentityMismatch)
      else if item.expectedCurrentReceiptId in t.revocations then ReplayRuling(t, item, p, ctx.hashing)
      else PinRuling(t, item, p)
  }

  /** One append-only event, and one moved column. */
  function Written(t: Tables, item: RevocationItem, id: Id, ctx: Context): Tables
    requires item.identityId in t.projections
  {
    var p := t.projections[item.identityId];
    t.(revocations := t.revocations[item.expectedCurrentReceiptId :=
         Revocation(id, item.identityId, p.source, p.environment, item.reviewerUserId, item.reviewerLabel,
                    item.revocationNote, ctx.now, ctx.hashing.revocation(ContentOf(item)))],
       projections := t.projections[item.identityId := p.(status := Revoked)])
  }

  function RevokeOne(t: Tables, item: RevocationItem, id: Id, ctx: Context): (Tables, RevocationOutcome) {
    match Decide(t, item, ctx)
    case Deny(refusal) => (t, RevocationRefused(item.identityId, item.sourcePropertyId, refusal))
    case Standing(revocationId) => (t, AlreadyRevoked(item.identityId, item.sourcePropertyId, revocationId))
    case Withdraw => (Written(t, item, id, ctx), WouldRevoke(item.identityId, item.sourcePropertyId, id))
  }

  function RevokeItems(t: Tables, items: seq<RevocationItem>, ids: seq<Id>, ctx: Context): (Tables, seq<RevocationOutcome>)
    requires |ids| == |items|
  {
    if items == [] then (t, [])
    else
      var last := |items| - 1;
      var (before, outcomes) := RevokeItems(t, items[..last], ids[..last], ctx);
      var (after, outcome) := RevokeOne(before, items[last], ids[last], ctx);
      (after, outcomes + [outcome])
  }

  function Relabel(apply: bool, o: RevocationOutcome): RevocationOutcome {
    if apply && o.WouldRevoke? then HasRevoked(o.identityId, o.sourcePropertyId, o.revocationId) else o
  }

  // ---- The pack: which active approvals can be handed to a human. ----

  predicate ActiveApproval(t: Tables, i: Id, source: string, environment: string) {
    && Located(t, i, source, environment)
    && t.projections[i].decision.ApproveCreate? && t.projections[i].status.Active?
  }

  /** The receipt the projection points at, joined on the identity. */
  function JoinedReceipt(t: Tables, i: Id): Option<Receipt> {
    if i !in t.projections then None
    else
      var r := t.projections[i].currentReceiptId;
      if r.Some? && r.value in t.receipts && t.receipts[r.value].identityId == i then Some(t.receipts[r.value]) else None
  }

  predicate NamesReceipt(t: Tables, i: Id) { i in t.projections && t.projections[i].currentReceiptId.Some? }

  predicate ReceiptCoherent(t: Tables, i: Id) {
    var r := JoinedReceipt(t, i);
    && r.Some? && t.projections[i].decision.ApproveCreate? && r.value.decision.ApproveCreate?
    && r.value.destinationId == t.projections[i].destinationId && Some(r.value.runId) == t.projections[i].decidedInRunId
  }

  predicate RevocationStateCoherent(t: Tables, i: Id) {
    NamesReceipt(t, i) ==> t.projections[i].currentReceiptId.value !in t.revocations
  }

  predicate Revocable(t: Tables, i: Id) {
    i in t.identities && JoinedReceipt(t, i).Some? && ReceiptCoherent(t, i) && RevocationStateCoherent(t, i)
  }

  /** The emitted item: every pin read from the row, every human field empty. */
  function PackItem(t: Tables, i: Id): RevocationItem
    requires Revocable(t, i)
  {
    var p, r := t.projections[i], JoinedReceipt(t, i).value;
    RevocationItem(i, t.identities[i].sourcePropertyId, p.id, "approve_create", "active",
                   p.currentReceiptId.value, r.digest, r.observationId, "", None, "")
  }

  /** What the human types into an emitted item. */
  function Filled(item: RevocationItem, reviewer: string, user: Option<Id>, note: string): RevocationItem {
    item.(reviewerLabel := reviewer, reviewerUserId := user, revocationNote := note)
  }
}

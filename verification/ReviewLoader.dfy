/**
 The rows the gate is handed for one identity, column by column (scripts/prepublication-preview/preview.ts), and
 which receipt that is.
 */
module ReviewLoader {
  import opened Prelude
  import opened Text
  import opened Gate
  import opened Review
  import W = Withdrawal
  import L = Lifecycle

  /** The receipt loaded: about the current observation before any other, then the newest, then the greatest id. */
  lemma NewestCurrentReceipt(t: Tables, i: Id, current: Option<Id>)
    ensures SelectedReceipt(t, i, current).None? <==> forall r | r in t.receipts :: t.receipts[r].identityId != i
    ensures SelectedReceipt(t, i, current).Some? ==>
      var x := SelectedReceipt(t, i, current).value;
      && x in t.receipts && t.receipts[x].identityId == i
      && forall y | y in t.receipts && t.receipts[y].identityId == i && y != x ::
           var cx, cy := Some(t.receipts[x].observationId) == current, Some(t.receipts[y].observationId) == current;
           && (cy ==> cx)
           && (cx == cy ==>
                 && !Less(t.receipts[x].reviewedAt, t.receipts[y].reviewedAt)
                 && (t.receipts[x].reviewedAt == t.receipts[y].reviewedAt ==> Less(y, x)))
  {
    var rows := ReceiptsOf(t, i);
    var selected := SelectedReceipt(t, i, current);
    if selected.None? {
      forall r | r in t.receipts ensures t.receipts[r].identityId != i {
        assert r !in rows;
      }
    } else {
      var x := selected.value;
      forall y | y in t.receipts && t.receipts[y].identityId == i && y != x
        ensures Outranks(t.receipts, current, x, y)
      {
        assert y in rows;
      }
      forall y | y in t.receipts { LessAsymmetricTimes(t, x, y); }
    }
  }

  lemma LessAsymmetricTimes(t: Tables, x: Id, y: Id)
    requires x in t.receipts && y in t.receipts
    ensures !(Less(t.receipts[x].reviewedAt, t.receipts[y].reviewedAt) && Less(t.receipts[y].reviewedAt, t.receipts[x].reviewedAt))
  {
    if Less(t.receipts[x].reviewedAt, t.receipts[y].reviewedAt) {
      LessAsymmetric(t.receipts[x].reviewedAt, t.receipts[y].reviewedAt);
    }
  }

  /** The review view is the projection's row, with the revocation of the receipt it names beside it. */
  predicate ReviewLoaded(rv: ReviewView, p: Projection, t: Tables) {
    && rv.id == p.id && rv.decision == p.decision && rv.destinationId == p.destinationId && rv.targetHotelId == p.targetHotelId
    && rv.decidedInRunId == p.decidedInRunId && rv.reviewerUserId == p.reviewerUserId && rv.reviewerLabel == p.reviewerLabel
    && rv.reviewedAt == p.reviewedAt && rv.reviewNote == p.reviewNote && rv.reviewStatus == p.status
    && rv.currentReceiptId == p.currentReceiptId
    && (rv.currentReceiptRevoked <==> p.currentReceiptId.Some? && p.currentReceiptId.value in t.revocations)
    && rv.currentReceiptRevocationId ==
         if rv.currentReceiptRevoked && p.currentReceiptId.value in t.revocations
         then Some(t.revocations[p.currentReceiptId.value].id) else None
  }

  predicate ReceiptLoaded(v: ReceiptView, id: Id, r: Receipt) {
    && v.receiptId == id && v.decision == r.decision && v.evidenceObservationId == r.observationId
    && v.evidenceSourceRunId == r.runId && v.sourcePayloadDigest == r.payloadDigest && v.destinationId == r.destinationId
    && v.newPropertyFindingId == r.findingId && v.reviewerUserId == r.reviewerUserId && v.reviewerLabel == r.reviewerLabel
    && v.reviewedAt == r.reviewedAt && v.prereviewFingerprint == r.prereviewFingerprint && v.prereviewAsOf == r.prereviewAsOf
    && v.receiptDigest == r.digest && v.verifications == r.verifications && v.evidenceReferenceCount == |r.references|
  }

  /** An accepted finding is a candidate; a pending one is only listed as open. */
  predicate FindingLoaded(e: EntityView, t: Tables, i: Id) {
    var m := MachineOf(t, i);
    if i in t.findings && t.findings[i].status.FindingAccepted? then
      && |e.acceptedCandidates| == |m.otherAccepted| + 1 && e.pendingCandidateIds == m.otherPending
      && e.acceptedCandidates[..|m.otherAccepted|] == m.otherAccepted
      && var c := e.acceptedCandidates[|m.otherAccepted|];
         && c.id == t.findings[i].id && c.sourcePropertyIdentityId == i && c.kind.NewProperty?
         && c.candidateHotelId.None? && c.candidateSourcePropertyIdentityId.None?
         && c.details == map["status" := Str("accepted"), "matchMethod" := Str(t.findings[i].matchMethod),
                             "reviewNote" := Str(t.findings[i].reviewNote)]
    else
      && e.acceptedCandidates == m.otherAccepted
      && e.pendingCandidateIds ==
           m.otherPending + if i in t.findings && t.findings[i].status.FindingPending? then [t.findings[i].id] else []
  }

  /** Everything the gate is handed, row by row. */
  lemma LoadedColumns(t: Tables, i: Id, policy: L.Policy)
    requires i in t.identities
    ensures var input, who, m := ComposeInput(t, i, policy), t.identities[i], MachineOf(t, i);
      && input.identity.id == i && input.identity.source == who.source && input.identity.environment == who.environment
      && input.identity.currentObservationId ==
           (if (who.lastSeenRunId, i) in t.observations then Some(t.observations[(who.lastSeenRunId, i)].id) else None)
      && (input.review.Some? <==> i in t.projections)
      && (i in t.projections ==> ReviewLoaded(input.review.value, t.projections[i], t))
      && input.scope == m.scope && input.star == m.star && input.location == m.location && input.snapshot == m.snapshot
      && input.policy == policy && input.entity.synchronized == m.synchronized
      && input.entity.currentAnomalyReasons == m.anomalies && FindingLoaded(input.entity, t, i)
      && var selected := SelectedReceipt(t, i, input.identity.currentObservationId);
         && (input.humanReview.Some? <==> selected.Some?)
         && (selected.Some? ==> selected.value in t.receipts
                                && ReceiptLoaded(input.humanReview.value, selected.value, t.receipts[selected.value]))
  {
    hide SelectedReceipt;
    var current := CurrentObservationId(t, i);
    SelectedIsARow(t, i, current);
    FindingIsLoaded(t, i);
    hide EntityOf, FindingLoaded;
  }

  lemma SelectedIsARow(t: Tables, i: Id, current: Option<Id>)
    ensures SelectedReceipt(t, i, current).Some? ==> SelectedReceipt(t, i, current).value in t.receipts
  {
  }

  lemma FindingIsLoaded(t: Tables, i: Id)
    ensures FindingLoaded(EntityOf(t, i), t, i)
    ensures EntityOf(t, i).synchronized == MachineOf(t, i).synchronized
    ensures EntityOf(t, i).currentAnomalyReasons == MachineOf(t, i).anomalies
  {
    hide MachineOf;
  }

  /** The reviewed destination and the target hotel are the catalogue's rows for the ids the review names. */
  lemma LoadedCatalogue(t: Tables, i: Id, policy: L.Policy)
    requires i in t.identities
    ensures var input := ComposeInput(t, i, policy);
      && (input.destination.Some? <==> i in t.projections && t.projections[i].destinationId.Some?
                                       && t.projections[i].destinationId.value in t.destinationSlugs)
      && (input.destination.Some? ==>
            && input.destination.value.id == t.projections[i].destinationId.value
            && input.destination.value.slug == t.destinationSlugs[t.projections[i].destinationId.value])
      && (input.targetHotel.Some? <==> i in t.projections && t.projections[i].targetHotelId.Some?
                                       && t.projections[i].targetHotelId.value in t.hotels)
      && (input.targetHotel.Some? ==> input.targetHotel.value == t.hotels[t.projections[i].targetHotelId.value])
  {
    hide SelectedReceipt, EntityOf, CurrentObservationId;
  }

  // ---- What the digests are taken over. ----

  /** The receipt digest is taken over the item's own fields, each in its place. */
  lemma DecisionContent(item: ReviewedItem, destinationId: Option<Id>)
    ensures var c := ContentOf(item, destinationId);
      && c.identityId == item.identityId && c.observationId == item.currentObservationId
      && c.runId == item.currentSourceRunId && c.payloadDigest == item.sourcePayloadDigest
      && c.prereviewFingerprint == item.prereviewFingerprint && c.prereviewAsOf == item.prereviewAsOf
      && c.decision == item.decision && c.destinationId == destinationId && c.reviewerLabel == item.reviewerLabel
      && c.humanNote == item.humanNote && multiset(c.verifications) == multiset(item.verifications)
      && Ascending(Dimension, c.verifications)
    ensures forall r: Reference ::
      var (kind, locator, dimensions, stance, note) := ReferenceContent(r);
      && kind == r.kind && locator == r.locator && dimensions == multiset(r.bearsOnDimensions)
      && stance == r.stance && note == r.note
  {
    hide SortBy;
    SortByContract(Dimension, item.verifications);
  }

  /** And so is the revocation's. */
  lemma WithdrawalContent(item: W.RevocationItem)
    ensures var c := W.ContentOf(item);
      && c.identityId == item.identityId && c.reviewId == item.reviewId
      && c.revokedReceiptId == item.expectedCurrentReceiptId && c.receiptDigest == item.expectedReceiptDigest
      && c.evidenceObservationId == item.expectedEvidenceObservationId && c.reviewerLabel == item.reviewerLabel
      && c.reviewerUserId == item.reviewerUserId && c.revocationNote == item.revocationNote
  {
  }
}

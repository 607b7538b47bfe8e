/**
 The acceptance condition of a reviewed item over the tables, the rows an accepted one writes, and which items
 are one and the same decision (scripts/human-review/apply.ts).
 */
module ReviewAcceptance {
  import opened Prelude
  import opened Text
  import opened Sequences
  import opened Checklist
  import opened Gate
  import opened Review
  import opened ReviewHistory
  import opened ReviewRules
  import G = GateMeaning
  import L = Lifecycle
  import D = Dates

  // ---- Previews, identity by identity. ----

  /** The manifest's one preview run: every identity in scope, as the evaluator judges it. */
  lemma PreviewRun(t: Tables, ctx: Context)
    requires Previews(t, ctx).Ok?
    ensures t.policy.Some? && Numbered(Previews(t, ctx).value)
    ensures forall i :: i in Previews(t, ctx).value <==>
              i in t.identities && t.identities[i].source == ctx.source && t.identities[i].environment == ctx.environment
    ensures forall i | i in Previews(t, ctx).value ::
      && PreviewOf(t, i, t.policy.value, ctx).Ok?
      && Previews(t, ctx).value[i] == PreviewOf(t, i, t.policy.value, ctx).value
  {
    hide EvaluatePreview, ComposeInput, Conditions, G.Numbered, D.IsValidIsoDate;
    forall i | i in t.identities && InScope(t, i, ctx.source, ctx.environment)
      ensures PreviewOf(t, i, t.policy.value, ctx).Ok?
    {
      PreviewSucceeds(t, i, ctx);
    }
    forall i | i in Previews(t, ctx).value ensures G.Numbered(Previews(t, ctx).value[i].conditions) {
      PreviewNumbered(ComposeInput(t, i, t.policy.value), ctx);
    }
  }

  /** The run throws without a policy; an unapproved policy or a false date stops it only if it has a property to judge. */
  lemma PreviewRunRefused(t: Tables, ctx: Context)
    ensures var judges := exists i | i in t.identities ::
                t.identities[i].source == ctx.source && t.identities[i].environment == ctx.environment;
            var run := Previews(t, ctx);
      && (run == Err(NoLifecyclePolicy) <==> t.policy.None?)
      && (run == Err(PreviewRefused(L.PolicyNotApproved)) <==> judges && t.policy.Some? && !t.policy.value.approved)
      && (run == Err(PreviewRefused(L.InvalidAsOf)) <==>
            judges && t.policy.Some? && t.policy.value.approved && !RealCalendarDate(ctx.asOf))
      && (run.Ok? <==> t.policy.Some? && (judges ==> t.policy.value.approved && RealCalendarDate(ctx.asOf)))
  {
    hide EvaluatePreview, ComposeInput, D.IsValidIsoDate, D.RealDate;
    D.ValidIffRealDate(ctx.asOf);
    assert (exists i | i in t.identities :: InScope(t, i, ctx.source, ctx.environment)) <==>
      exists i | i in t.identities :: t.identities[i].source == ctx.source && t.identities[i].environment == ctx.environment;
  }

  predicate RealCalendarDate(s: string) { D.IsoShape(s) && D.RealDate(D.Year(s), D.Month(s), D.Day(s)) }

  lemma PreviewSucceeds(t: Tables, i: Id, ctx: Context)
    requires i in t.identities && t.policy.Some? && t.policy.value.approved && D.IsValidIsoDate(Some(ctx.asOf))
    ensures PreviewOf(t, i, t.policy.value, ctx).Ok?
  {
    hide D.IsValidIsoDate, Conditions, Overall, L.MappedWindows, L.Defects, SelectedReceipt;
  }

  lemma PreviewNumbered(input: PreviewInput, ctx: Context)
    requires EvaluatePreview(input, ctx.asOf, ctx.hashing.fingerprint).Ok?
    ensures G.Numbered(EvaluatePreview(input, ctx.asOf, ctx.hashing.fingerprint).value.conditions)
  {
    hide Conditions, LifecycleOf;
    G.ConditionNumbers(input, LifecycleOf(input, ctx.asOf).value, ctx.asOf);
  }

  // ---- Acceptance. ----

  /** The row pins: the identity, its one current observation, and nothing moved since the pack was read. */
  predicate PinsHold(t: Tables, item: ReviewedItem, ctx: Context) {
    var i := item.identityId;
    && i in t.identities && (t.identities[i].lastSeenRunId, i) in t.observations
    && var who, seen := t.identities[i], t.observations[(t.identities[i].lastSeenRunId, i)];
       && who.source == ctx.source && who.environment == ctx.environment
       && who.sourcePropertyId == item.sourcePropertyId && who.lastSeenRunId == item.currentSourceRunId
       && seen.id == item.currentObservationId && seen.payloadDigest == Some(item.sourcePayloadDigest)
  }

  /** What an approval needs of the catalogue, the projection and the finding it would advance. */
  predicate MayAdvance(t: Tables, item: ReviewedItem) {
    var i := item.identityId;
    && item.canonicalDestinationSlug.Some? && item.canonicalDestinationSlug.value in t.destinationIds
    && (i in t.projections ==>
          var p := t.projections[i];
          && p.decision.ApproveCreate?
          && (p.status.Revoked? ==>
                && p.currentReceiptId.Some? && p.currentReceiptId.value in t.receipts
                && t.receipts[p.currentReceiptId.value].identityId == i
                && t.receipts[p.currentReceiptId.value].observationId != item.currentObservationId))
    && (i in t.findings ==>
          && t.findings[i].matchMethod == "human_review:distinct_property" && t.findings[i].status.FindingAccepted?
          && i in t.identities && t.findings[i].source == t.identities[i].source
          && t.findings[i].environment == t.identities[i].environment)
  }

  /** The evidence as the manifest's preview run saw it: the fingerprint reviewed, and a clear machine half. */
  ghost predicate EvidenceStands(t0: Tables, item: ReviewedItem, ctx: Context)
    requires t0.policy.Some?
  {
    var i := item.identityId;
    && i in t0.identities && t0.identities[i].source == ctx.source && t0.identities[i].environment == ctx.environment
    && D.IsValidIsoDate(Some(ctx.asOf))
    && var input := ComposeInput(t0, i, t0.policy.value);
       && PreviewOf(t0, i, t0.policy.value, ctx).Ok?
       && PreviewOf(t0, i, t0.policy.value, ctx).value.fingerprint == item.prereviewFingerprint
       && G.EntityClear(input) && G.ScopeClear(input) && G.StarClear(input) && G.LocationClear(input)
       && G.NotClosed(input, ctx.asOf)
  }

  lemma FreshMeansEvidence(t0: Tables, item: ReviewedItem, ctx: Context)
    requires Previews(t0, ctx).Ok?
    ensures t0.policy.Some?
    ensures var i, previews := item.identityId, Previews(t0, ctx).value;
      (i in previews && previews[i].fingerprint == item.prereviewFingerprint && MachineHalfPasses(previews[i]))
      <==> EvidenceStands(t0, item, ctx)
  {
    hide Previews, EvaluatePreview, ComposeInput, G.EntityClear, G.ScopeClear, G.StarClear, G.LocationClear, G.NotClosed;
    hide D.IsValidIsoDate, MachineHalfPasses, G.Ready, G.Numbered;
    PreviewRun(t0, ctx);
    var i := item.identityId;
    if i in Previews(t0, ctx).value {
      ReadyIsMachineHalf(Previews(t0, ctx).value[i]);
      G.ReadyMeansMachineEvidenceClear(ComposeInput(t0, i, t0.policy.value), ctx.asOf, ctx.hashing.fingerprint);
    }
  }

  lemma PinsAndAdvance(t: Tables, item: ReviewedItem, ctx: Context)
    ensures AllHold(Pins(t, item, ctx)) && (item.decision.ApproveCreate? ==> MayAdvance(t, item)) ==> PinsHold(t, item, ctx)
    ensures PinsHold(t, item, ctx) && (item.decision.ApproveCreate? ==> MayAdvance(t, item)) ==> AllHold(Pins(t, item, ctx))
  {
    var p := Pins(t, item, ctx);
    assert AllHold(p) <==> p[0].holds && p[1].holds && p[2].holds && p[3].holds && p[4].holds && p[5].holds && p[6].holds;
  }

  lemma FreshAndAdvance(t: Tables, item: ReviewedItem, previews: map<Id, PreviewResult>, ctx: Context)
    requires AllHold(Pins(t, item, ctx))
    ensures AllHold(Fresh(t, item, previews)) <==>
      var i := item.identityId;
      && i in previews && previews[i].fingerprint == item.prereviewFingerprint && MachineHalfPasses(previews[i])
      && (item.decision.Defer? ==> i !in t.projections) && (item.decision.ApproveCreate? ==> MayAdvance(t, item))
  {
    hide MachineHalfPasses;
    var p, f := Pins(t, item, ctx), Fresh(t, item, previews);
    assert p[0].holds && p[5].holds && p[6].holds;
    assert AllHold(f) <==> f[0].holds && f[1].holds && f[2].holds && f[3].holds && f[4].holds && f[5].holds;
  }

  /**
   A decision is written exactly when the rows still are what was reviewed, no decision about the observation
   exists, the fingerprint reviewed is the one the preview run gives, the machine evidence is clear, and what it
   would advance allows it. `t0` is the state the manifest's previews were taken in, `t` the one the item meets.
   */
  lemma DecisionAcceptedIff(t0: Tables, t: Tables, item: ReviewedItem, ids: RowIds, ctx: Context)
    requires OneReceiptPerObservation(t) && Previews(t0, ctx).Ok?
    ensures t0.policy.Some?
    ensures ApplyOne(t, item, Previews(t0, ctx).value, ids, ctx).1.WouldApply? <==>
      && PinsHold(t, item, ctx) && EvidenceStands(t0, item, ctx)
      && (forall r | r in t.receipts :: t.receipts[r].identityId != item.identityId
                                        || t.receipts[r].observationId != item.currentObservationId)
      && (item.decision.ApproveCreate? ==> MayAdvance(t, item))
      && (item.decision.Defer? ==> item.identityId !in t.projections)
  {
    hide Previews, ApplyOne, Pins, Fresh, Repeated, MayAdvance, PinsHold, EvidenceStands, OneReceiptPerObservation, Numbered;
    hide MachineHalfPasses;
    var previews := Previews(t0, ctx).value;
    PreviewRun(t0, ctx);
    ReviewByChecks(t, item, previews, ids, ctx);
    HoldInParts(Pins(t, item, ctx), Fresh(t, item, previews));
    FreshMeansEvidence(t0, item, ctx);
    PinsAndAdvance(t, item, ctx);
    if AllHold(Pins(t, item, ctx)) {
      FreshAndAdvance(t, item, previews, ctx);
    }
  }

  // ---- What an accepted decision writes. ----

  /** The receipt quotes the item's pins, the identity's row and the decision, column by column. */
  predicate ReceiptQuotes(r: Receipt, t: Tables, item: ReviewedItem, ctx: Context) {
    && item.identityId in t.identities && r.identityId == item.identityId
    && r.source == t.identities[item.identityId].source && r.environment == t.identities[item.identityId].environment
    && r.sourcePropertyId == t.identities[item.identityId].sourcePropertyId
    && r.observationId == item.currentObservationId && r.runId == item.currentSourceRunId
    && r.payloadDigest == item.sourcePayloadDigest && r.prereviewFingerprint == item.prereviewFingerprint
    && r.prereviewAsOf == item.prereviewAsOf && r.decision == item.decision
    && r.reviewerUserId == item.reviewerUserId && r.reviewerLabel == item.reviewerLabel && r.reviewNote == item.humanNote
    && r.digest == DigestOf(t, item, ctx) && r.reviewedAt == ctx.now
    && r.verifications == item.verifications && r.references == item.evidenceReferences
  }

  /** The approved projection quotes its receipt. */
  predicate ProjectionQuotes(p: Projection, r: Receipt, receiptId: Id) {
    && p.source == r.source && p.environment == r.environment && p.decision.ApproveCreate? && p.status.Active?
    && p.destinationId == r.destinationId && p.targetHotelId.None? && p.currentReceiptId == Some(receiptId)
    && p.reviewerUserId == r.reviewerUserId && p.reviewerLabel == r.reviewerLabel && p.reviewNote == r.reviewNote
    && p.decidedInRunId == Some(r.runId) && p.reviewedAt == r.reviewedAt
  }

  predicate FindingQuotes(f: Finding, item: ReviewedItem, r: Receipt) {
    && f.source == r.source && f.environment == r.environment && f.matchMethod == "human_review:distinct_property"
    && f.status.FindingAccepted?
    && f.reviewNote == if item.humanNote.Some? && !IsBlank(item.humanNote.value) then item.humanNote.value
                       else "Human review by " + item.reviewerLabel
                            + ": distinct property established against observation " + item.currentObservationId + "."
  }

  predicate DeferWrites(t: Tables, t': Tables, r: Receipt) {
    r.destinationId.None? && r.findingId.None? && t'.findings == t.findings && t'.projections == t.projections
  }

  predicate ApprovalWrites(t: Tables, t': Tables, item: ReviewedItem, ids: RowIds, r: Receipt) {
    var i := item.identityId;
    && item.canonicalDestinationSlug.Some? && item.canonicalDestinationSlug.value in t.destinationIds
    && r.destinationId == Some(t.destinationIds[item.canonicalDestinationSlug.value])
    && i in t'.findings && t'.findings == t.findings[i := t'.findings[i]] && r.findingId == Some(t'.findings[i].id)
    && (i in t.findings ==> t'.findings[i] == t.findings[i])
    && (i !in t.findings ==> t'.findings[i].id == ids.finding && FindingQuotes(t'.findings[i], item, r))
    && i in t'.projections && t'.projections == t.projections[i := t'.projections[i]]
    && ProjectionQuotes(t'.projections[i], r, ids.receipt)
    && t'.projections[i].id == if i in t.projections then t.projections[i].id else ids.review
  }

  /**
   The rows of an accepted decision, whole. A defer leaves one receipt without destination or finding. An approval
   leaves its receipt, the identity's one finding (reused as it stands, or new) and the projection that quotes the
   receipt under the row id it already had.
   */
  lemma DecisionWrites(t: Tables, item: ReviewedItem, previews: map<Id, PreviewResult>, ids: RowIds, ctx: Context)
    requires Coherent(t) && ApplyOne(t, item, previews, ids, ctx).1.WouldApply?
    ensures var (t', o) := ApplyOne(t, item, previews, ids, ctx);
      && o == WouldApply(item.identityId, item.sourcePropertyId, ids.receipt)
      && t' == t.(receipts := t'.receipts, findings := t'.findings, projections := t'.projections)
      && ids.receipt in t'.receipts && t'.receipts == t.receipts[ids.receipt := t'.receipts[ids.receipt]]
      && ReceiptQuotes(t'.receipts[ids.receipt], t, item, ctx)
      && (item.decision.Defer? ==> DeferWrites(t, t', t'.receipts[ids.receipt]))
      && (item.decision.ApproveCreate? ==> ApprovalWrites(t, t', item, ids, t'.receipts[ids.receipt]))
  {
    hide Decide, Coherent, DigestOf, ReceiptQuotes, DeferWrites, ApprovalWrites, NewReceipt, FindingAfter, ProjectionAfter;
    ProceedIsInScope(t, item, previews, ctx);
    ReceiptWritten(t, item, ids, ctx);
    if item.decision.ApproveCreate? {
      if item.identityId in t.projections {
        AdvancedIsOwn(t, item, previews, ctx);
      }
      ApprovalWritten(t, item, ids, ctx);
    } else {
      DeferWritten(t, item, ids, ctx);
    }
  }

  lemma ReceiptWritten(t: Tables, item: ReviewedItem, ids: RowIds, ctx: Context)
    requires item.identityId in t.identities
    ensures var t' := Written(t, item, ids, ctx);
      ids.receipt in t'.receipts && ReceiptQuotes(t'.receipts[ids.receipt], t, item, ctx)
  {
    hide DigestOf, DestinationFor, FindingAfter, ProjectionAfter;
  }

  lemma DeferWritten(t: Tables, item: ReviewedItem, ids: RowIds, ctx: Context)
    requires item.identityId in t.identities && item.decision.Defer?
    ensures var t' := Written(t, item, ids, ctx); DeferWrites(t, t', t'.receipts[ids.receipt])
  {
    hide DigestOf, FindingAfter, ProjectionAfter;
  }

  lemma ApprovalWritten(t: Tables, item: ReviewedItem, ids: RowIds, ctx: Context)
    requires item.identityId in t.identities && item.decision.ApproveCreate? && DestinationFor(t, item).Some?
    requires item.identityId in t.projections ==>
      && t.projections[item.identityId].source == t.identities[item.identityId].source
      && t.projections[item.identityId].environment == t.identities[item.identityId].environment
    ensures var t' := Written(t, item, ids, ctx); ApprovalWrites(t, t', item, ids, t'.receipts[ids.receipt])
  {
    hide DigestOf;
  }

  lemma AdvancedIsOwn(t: Tables, item: ReviewedItem, previews: map<Id, PreviewResult>, ctx: Context)
    requires Coherent(t) && Decide(t, item, previews, ctx).Proceed?
    requires item.identityId in t.projections && item.decision.ApproveCreate?
    ensures item.identityId in t.identities
    ensures t.projections[item.identityId].source == t.identities[item.identityId].source
    ensures t.projections[item.identityId].environment == t.identities[item.identityId].environment
  {
    hide PinVerdict, HistoryVerdict;
    assert t.projections[item.identityId].decision.ApproveCreate?;
    assert ProjectionCoherent(t, item.identityId);
  }

  // ---- Which items are the same decision. ----

  ghost predicate ReceiptHashInjective(hashing: Hashing) {
    forall a, b :: hashing.receipt(a) == hashing.receipt(b) ==> a == b
  }

  lemma SameReference(a: Reference, b: Reference)
    ensures ReferenceContent(a) == ReferenceContent(b) <==>
      && a.kind == b.kind && a.locator == b.locator && multiset(a.bearsOnDimensions) == multiset(b.bearsOnDimensions)
      && a.stance == b.stance && a.note == b.note
  {
  }

  /** The destination an item names, resolved in the catalogue: an approval's slug, and none for a defer. */
  function NamedDestination(t: Tables, item: ReviewedItem): Option<Id> {
    if item.decision.Defer? || item.canonicalDestinationSlug.None? || item.canonicalDestinationSlug.value !in t.destinationIds
    then None else Some(t.destinationIds[item.canonicalDestinationSlug.value])
  }

  /** Same evidence, same decision, same words; the user id and the pack's provider id are not part of it. */
  predicate SameDecision(a: ReviewedItem, b: ReviewedItem) {
    && a.identityId == b.identityId && a.currentObservationId == b.currentObservationId
    && a.currentSourceRunId == b.currentSourceRunId && a.sourcePayloadDigest == b.sourcePayloadDigest
    && a.prereviewFingerprint == b.prereviewFingerprint && a.prereviewAsOf == b.prereviewAsOf
    && a.decision == b.decision && a.reviewerLabel == b.reviewerLabel && a.humanNote == b.humanNote
    && multiset(Map(ReferenceContent, a.evidenceReferences)) == multiset(Map(ReferenceContent, b.evidenceReferences))
  }

  /** Two items hash alike exactly when they are the same decision; order is forgotten wherever a dimension occurs once. */
  lemma SameDigestIff(t: Tables, a: ReviewedItem, s: Tables, b: ReviewedItem, ctx: Context)
    requires ReceiptHashInjective(ctx.hashing)
    ensures DigestOf(t, a, ctx) == DigestOf(s, b, ctx) <==>
      && SameDecision(a, b) && NamedDestination(t, a) == NamedDestination(s, b)
      && SortBy(Dimension, a.verifications) == SortBy(Dimension, b.verifications)
    ensures KeysSeparate(Dimension, a.verifications) ==>
      (SortBy(Dimension, a.verifications) == SortBy(Dimension, b.verifications)
       <==> multiset(a.verifications) == multiset(b.verifications))
  {
    hide SortBy;
    SortByContract(Dimension, a.verifications);
    SortByContract(Dimension, b.verifications);
    if KeysSeparate(Dimension, a.verifications) && multiset(a.verifications) == multiset(b.verifications) {
      SortForgetsOrder(Dimension, a.verifications, b.verifications);
    }
  }

  /**
   One observation, one decision: against a receipt written for `first`, an item about the same observation whose
   pins hold is `already_applied` exactly when its content hashes to the receipt's, and a conflict otherwise.
   */
  lemma SecondDecision(
    t: Tables, r: Id, item: ReviewedItem, previews: map<Id, PreviewResult>, ids: RowIds, ctx: Context)
    requires OneReceiptPerObservation(t) && Numbered(previews) && AllHold(Pins(t, item, ctx))
    requires r in t.receipts && t.receipts[r].identityId == item.identityId
    requires t.receipts[r].observationId == item.currentObservationId
    ensures var (t', o) := ApplyOne(t, item, previews, ids, ctx);
      && t' == t
      && o == if t.receipts[r].digest == DigestOf(t, item, ctx) then AlreadyApplied(item.identityId, item.sourcePropertyId, r)
              else Refused(item.identityId, item.sourcePropertyId, ConflictingReviewExists)
  {
    hide Pins, DigestOf, Numbered, Fresh, ReadyVerdict, PinVerdict, StillRevoked;
    PinsHoldIff(t, item, ctx);
    assert IsAbout(t.receipts[r], item) && DecidedBefore(t, item);
    RepeatedVerdict(t, item, ctx);
    var checks := Repeated(t, item, ctx);
    assert AllHold(checks) <==> checks[0].holds;
    assert forall x | x in t.receipts && IsAbout(t.receipts[x], item) :: x == r;
  }
}

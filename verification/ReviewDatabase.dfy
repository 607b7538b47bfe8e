/**
 The review tables as one mutable database, with the manifest transactions that write them
 (scripts/human-review/apply.ts, scripts/human-review-revocation/revoke.ts and pack.ts).
 Each method is proved against the value-level step of Review or Withdrawal.
 */
module ReviewDatabase {
  import opened Prelude
  import opened Sequences
  import opened Text
  import opened Gate
  import opened Review
  import R = Review
  import opened ReviewHistory
  import opened ReviewBrake
  import Runs = ReviewRuns
  import G = GateMeaning
  import W = Withdrawal
  import L = Lifecycle

  // ---- A transaction is a step of the runs the safety theorems quantify over. ----

  /** With row ids the tables do not hold yet, what one call of the review manifest leaves is one step. */
  lemma ReviewManifestIsAStep(t: Tables, items: seq<ReviewedItem>, rowIds: seq<RowIds>, ctx: Context, apply: bool, t': Tables)
    requires |rowIds| == |items|
    requires t' == if apply && (forall x | x in items :: R.WellFormed(x)) && Previews(t, ctx).Ok?
                   then R.ApplyItems(t, items, Previews(t, ctx).value, rowIds, ctx).0 else t
    ensures FreshIds(t, rowIds) ==> Runs.Next(t, Runs.ReviewManifest(items, rowIds, ctx, apply), t')
  {
    hide R.ApplyItems, R.WellFormed, Previews, FreshIds;
  }

  /** What one call of the revocation manifest leaves is one step. */
  lemma RevocationManifestIsAStep(t: Tables, items: seq<W.RevocationItem>, ids: seq<Id>, ctx: Context, apply: bool, t': Tables)
    requires |ids| == |items|
    requires t' == if apply && (forall x | x in items :: W.WellFormed(x)) then W.RevokeItems(t, items, ids, ctx).0 else t
    ensures Runs.Next(t, Runs.RevocationManifest(items, ids, ctx, apply), t')
  {
    hide W.RevokeItems, W.WellFormed;
  }

  /** Every recorded dimension is known, recorded once, and explained when it contradicts. */
  predicate RecordedWell(vs: seq<Verification>) {
    && (forall a | 0 <= a < |vs| :: vs[a].dimension in REVIEW_DIMENSIONS)
    && (forall a, b | 0 <= a < b < |vs| :: vs[a].dimension != vs[b].dimension)
    && (forall a | 0 <= a < |vs| :: vs[a].verdict == "contradicts" ==> !MissingText(vs[a].note))
  }

  /** `seen` indexes the verifications by dimension. */
  predicate Indexes(seen: map<string, Verification>, vs: seq<Verification>) {
    && (forall a | 0 <= a < |vs| :: vs[a].dimension in seen && seen[vs[a].dimension] == vs[a])
    && (forall d | d in seen :: seen[d] in vs && seen[d].dimension == d)
  }

  lemma RecordedPrefix(vs: seq<Verification>, k: nat)
    requires k <= |vs| && RecordedWell(vs)
    ensures RecordedWell(vs[..k])
  {
  }

  lemma RecordedOneMore(seen: map<string, Verification>, vs: seq<Verification>, v: Verification)
    requires RecordedWell(vs) && Indexes(seen, vs)
    ensures RecordedWell(vs + [v]) <==> v.dimension in REVIEW_DIMENSIONS && v.dimension !in seen
                                        && (v.verdict == "contradicts" ==> !MissingText(v.note))
    ensures v.dimension !in seen ==> Indexes(seen[v.dimension := v], vs + [v])
  {
    var ws := vs + [v];
    assert ws[|vs|] == v && forall a | 0 <= a < |vs| :: ws[a] == vs[a];
    if v.dimension in seen {
      var a :| 0 <= a < |vs| && vs[a] == seen[v.dimension];
      assert ws[a].dimension == ws[|vs|].dimension;
    }
    if v.dimension !in seen {
      var seen' := seen[v.dimension := v];
      forall d | d in seen' ensures seen'[d] in ws { }
    }
  }

  /** The first verification that breaks a rule, and which rule: the code the item is refused with. */
  function VerificationDefect(vs: seq<Verification>): Option<string> {
    if vs == [] then None
    else
      var init, v := vs[..|vs| - 1], vs[|vs| - 1];
      var earlier := VerificationDefect(init);
      if earlier.Some? then earlier
      else if v.dimension !in REVIEW_DIMENSIONS then Some("unknown_dimension")
      else if exists w | w in init :: w.dimension == v.dimension then Some("duplicate_dimension")
      else if v.verdict == "contradicts" && MissingText(v.note) then Some("contradiction_requires_note")
      else None
  }

  /** A defect, once met, is the defect of every longer list. */
  lemma {:induction false} FirstDefectStands(vs: seq<Verification>, k: nat)
    requires k <= |vs| && VerificationDefect(vs[..k]).Some?
    ensures VerificationDefect(vs) == VerificationDefect(vs[..k])
    decreases |vs| - k
  {
    hide MissingText;
    if k < |vs| {
      assert vs[..k + 1][..k] == vs[..k];
      FirstDefectStands(vs, k + 1);
    } else {
      assert vs[..k] == vs;
    }
  }

  lemma IndexedDimension(seen: map<string, Verification>, vs: seq<Verification>, d: string)
    requires Indexes(seen, vs)
    ensures d in seen <==> exists w | w in vs :: w.dimension == d
  {
    if w :| w in vs && w.dimension == d {
      var a :| 0 <= a < |vs| && vs[a] == w;
    }
  }

  method ValidateVerifications(vs: seq<Verification>) returns (refusal: Option<string>, seen: map<string, Verification>)
    ensures refusal == VerificationDefect(vs)
    ensures refusal.None? <==> RecordedWell(vs)
    ensures refusal.None? ==> Indexes(seen, vs)
  {
    hide RecordedWell, Indexes, MissingText, VerificationDefect;
    seen := map[];
    assert RecordedWell(vs[..0]) && Indexes(seen, vs[..0]) && VerificationDefect(vs[..0]).None? by { NothingRecorded(); }
    for k := 0 to |vs|
      invariant RecordedWell(vs[..k]) && Indexes(seen, vs[..k]) && VerificationDefect(vs[..k]).None?
    {
      var v := vs[k];
      IndexedDimension(seen, vs[..k], v.dimension);
      DefectStep(vs, k);
      if VerificationDefect(vs[..k + 1]).Some? {
        FirstDefectStands(vs, k + 1);
      }
      RecordedOneMore(seen, vs[..k], v);
      assert vs[..k] + [v] == vs[..k + 1];
      if RecordedWell(vs) {
        RecordedPrefix(vs, k + 1);
      }
      if v.dimension !in REVIEW_DIMENSIONS {
        return Some("unknown_dimension"), seen;
      }
      if v.dimension in seen {
        return Some("duplicate_dimension"), seen;
      }
      if v.verdict == "contradicts" && MissingText(v.note) {
        return Some("contradiction_requires_note"), seen;
      }
      seen := seen[v.dimension := v];
    }
    assert vs[..|vs|] == vs;
    return None, seen;
  }

  lemma DefectStep(vs: seq<Verification>, k: nat)
    requires k < |vs| && VerificationDefect(vs[..k]).None?
    ensures VerificationDefect(vs[..k + 1]) ==
      if vs[k].dimension !in REVIEW_DIMENSIONS then Some("unknown_dimension")
      else if exists w | w in vs[..k] :: w.dimension == vs[k].dimension then Some("duplicate_dimension")
      else if vs[k].verdict == "contradicts" && MissingText(vs[k].note) then Some("contradiction_requires_note")
      else None
  {
    assert vs[..k + 1][..k] == vs[..k];
  }

  lemma NothingRecorded()
    ensures forall vs: seq<Verification> | vs == [] :: RecordedWell(vs) && Indexes(map[], vs) && VerificationDefect(vs).None?
  {
  }

  lemma IndexedSupports(item: ReviewedItem, seen: map<string, Verification>, d: string)
    requires Indexes(seen, item.verifications) && d in seen
    ensures Supports(item, d) <==> seen[d].verdict == "supports"
  {
    if Supports(item, d) {
      var v :| v in item.verifications && v.dimension == d && v.verdict == "supports";
      var a :| 0 <= a < |item.verifications| && item.verifications[a] == v;
    }
  }

  lemma WellFormedParts(item: ReviewedItem)
    requires item.decision.ApproveCreate?
    ensures WellFormed(item) <==>
      && Truthy(item.canonicalDestinationSlug) && RecordedWell(item.verifications)
      && (forall d | d in REVIEW_DIMENSIONS :: RecordsDimension(item, d))
      && Supports(item, "distinct_property") && Supports(item, "destination_membership")
      && item.evidenceReferences != []
      && (forall r | r in item.evidenceReferences :: GoodReference(r))
  {
    hide MissingText, IsBlank, Supports;
    var vs := item.verifications;
    assert (forall v | v in vs :: v.dimension in REVIEW_DIMENSIONS) <==> (forall a | 0 <= a < |vs| :: vs[a].dimension in REVIEW_DIMENSIONS);
  }

  method MissingDimension(seen: map<string, Verification>) returns (missing: bool)
    ensures !missing <==> forall d | d in REVIEW_DIMENSIONS :: d in seen
  {
    for k := 0 to |REVIEW_DIMENSIONS|
      invariant forall e | 0 <= e < k :: REVIEW_DIMENSIONS[e] in seen
    {
      if REVIEW_DIMENSIONS[k] !in seen {
        assert REVIEW_DIMENSIONS[k] in REVIEW_DIMENSIONS;
        return true;
      }
    }
    return false;
  }

  predicate GoodReference(r: Reference) { !IsBlank(r.locator) && r.bearsOnDimensions != [] }

  function ReferenceDefect(references: seq<Reference>): Option<string> {
    if references == [] then None
    else if IsBlank(references[0].locator) then Some("evidence_reference_empty_locator")
    else if references[0].bearsOnDimensions == [] then Some("evidence_reference_no_dimension")
    else ReferenceDefect(references[1..])
  }

  method ValidateReferences(references: seq<Reference>) returns (refusal: Option<string>)
    ensures refusal == ReferenceDefect(references)
    ensures refusal.None? <==> forall r | r in references :: GoodReference(r)
  {
    hide IsBlank;
    assert references[0..] == references;
    for k := 0 to |references|
      invariant forall a | 0 <= a < k :: GoodReference(references[a])
      invariant ReferenceDefect(references[k..]) == ReferenceDefect(references)
    {
      assert references[k..][1..] == references[k + 1..];
      assert references[k] in references;
      if IsBlank(references[k].locator) {
        assert !GoodReference(references[k]);
        return Some("evidence_reference_empty_locator");
      }
      if |references[k].bearsOnDimensions| < 1 {
        return Some("evidence_reference_no_dimension");
      }
    }
    return None;
  }

  predicate RecordsDimension(item: ReviewedItem, d: string) { exists v | v in item.verifications :: v.dimension == d }

  /** The first shape rule an item breaks, in the order the rules are checked. */
  function ShapeDefect(item: ReviewedItem): Option<string> {
    if item.decision.Defer? then
      if MissingText(item.humanNote) then Some("defer_requires_note")
      else if Truthy(item.canonicalDestinationSlug) then Some("defer_carries_destination")
      else None
    else if !Truthy(item.canonicalDestinationSlug) then Some("approve_create_requires_destination")
    else if VerificationDefect(item.verifications).Some? then VerificationDefect(item.verifications)
    else if exists d | d in REVIEW_DIMENSIONS :: !RecordsDimension(item, d) then Some("dimension_missing")
    else if !Supports(item, "distinct_property") then Some("distinct_property_not_affirmative")
    else if !Supports(item, "destination_membership") then Some("destination_membership_not_affirmative")
    else if item.evidenceReferences == [] then Some("no_evidence_reference")
    else ReferenceDefect(item.evidenceReferences)
  }

  /**
   Shape rules, in the source's order. The loop's `seen` map ends up holding exactly the recorded
   dimensions, so an item is accepted iff it is well formed, and refused with the first rule it breaks.
   */
  method ValidateReviewedItem(item: ReviewedItem) returns (refusal: Option<string>)
    ensures refusal == ShapeDefect(item)
    ensures refusal.None? <==> WellFormed(item)
  {
    if item.decision.Defer? {
      if MissingText(item.humanNote) {
        return Some("defer_requires_note");
      }
      if Truthy(item.canonicalDestinationSlug) {
        return Some("defer_carries_destination");
      }
      return None;
    }
    WellFormedParts(item);
    hide WellFormed, RecordedWell, Supports, VerificationDefect, ReferenceDefect, GoodReference, MissingText, Indexes;
    if !Truthy(item.canonicalDestinationSlug) {
      return Some("approve_create_requires_destination");
    }
    var seen;
    refusal, seen := ValidateVerifications(item.verifications);
    if refusal.Some? {
      return;
    }
    var missing := MissingDimension(seen);
    forall d ensures d in seen <==> RecordsDimension(item, d) {
      IndexedDimension(seen, item.verifications, d);
    }
    if missing {
      return Some("dimension_missing");
    }
    assert REVIEW_DIMENSIONS[0] == "distinct_property" && REVIEW_DIMENSIONS[5] == "destination_membership";
    IndexedSupports(item, seen, "distinct_property");
    IndexedSupports(item, seen, "destination_membership");
    if seen["distinct_property"].verdict != "supports" {
      return Some("distinct_property_not_affirmative");
    }
    if seen["destination_membership"].verdict != "supports" {
      return Some("destination_membership_not_affirmative");
    }
    if |item.evidenceReferences| < 1 {
      return Some("no_evidence_reference");
    }
    refusal := ValidateReferences(item.evidenceReferences);
  }

  class Database {
    var identities: map<Id, Identity>
    var observations: map<(Id, Id), Observation>
    var destinationIds: map<string, Id>
    var destinationSlugs: map<Id, string>
    var hotels: map<Id, TargetHotelView>
    var findings: map<Id, Finding>
    var receipts: map<Id, Receipt>
    var projections: map<Id, Projection>
    var revocations: map<Id, Revocation>
    var machine: map<Id, Machine>
    var policy: Option<L.Policy>

    function State(): Tables
      reads this
    {
      Tables(identities, observations, destinationIds, destinationSlugs, hotels, findings, receipts,
             projections, revocations, machine, policy)
    }

    constructor (t: Tables)
      ensures State() == t
    {
      identities, observations, destinationIds := t.identities, t.observations, t.destinationIds;
      destinationSlugs, hotels, findings, receipts := t.destinationSlugs, t.hotels, t.findings, t.receipts;
      projections, revocations, machine, policy := t.projections, t.revocations, t.machine, t.policy;
    }

    /** `rollback`: the three tables a transaction can have written. */
    method Rollback(saved: Tables)
      requires State() == saved.(findings := findings, receipts := receipts, projections := projections, revocations := revocations)
      modifies this`findings, this`receipts, this`projections, this`revocations
      ensures State() == saved
    {
      findings, receipts, projections, revocations :=
        saved.findings, saved.receipts, saved.projections, saved.revocations;
    }

    method InsertReceipt(
      item: ReviewedItem, who: Identity, digest: string, destinationId: Option<Id>, findingId: Option<Id>,
      receiptId: Id, now: string)
      modifies this`receipts
      ensures receipts == old(receipts)[receiptId := Receipt(
                item.identityId, who.source, who.environment, who.sourcePropertyId, item.currentObservationId,
                item.currentSourceRunId, item.sourcePayloadDigest, item.prereviewFingerprint, item.prereviewAsOf,
                item.decision, destinationId, findingId, item.reviewerUserId, item.reviewerLabel, item.humanNote,
                digest, now, item.verifications, item.evidenceReferences)]
    {
      var verifications: seq<Verification> := [];
      for k := 0 to |item.verifications|
        invariant verifications == item.verifications[..k]
      {
        verifications := verifications + [item.verifications[k]];
      }
      assert item.verifications[..|item.verifications|] == item.verifications;
      var references: seq<Reference> := [];
      for k := 0 to |item.evidenceReferences|
        invariant references == item.evidenceReferences[..k]
      {
        references := references + [item.evidenceReferences[k]];
      }
      assert item.evidenceReferences[..|item.evidenceReferences|] == item.evidenceReferences;
      receipts := receipts[receiptId := Receipt(
        item.identityId, who.source, who.environment, who.sourcePropertyId, item.currentObservationId,
        item.currentSourceRunId, item.sourcePayloadDigest, item.prereviewFingerprint, item.prereviewAsOf,
        item.decision, destinationId, findingId, item.reviewerUserId, item.reviewerLabel, item.humanNote,
        digest, now, verifications, references)];
    }

    /** Steps 1 to 3: the locked identity, every pin, the destination. */
    method JudgePins(item: ReviewedItem, ctx: Context) returns (verdict: Verdict, destinationId: Option<Id>)
      ensures verdict == PinVerdict(State(), item, ctx)
      ensures verdict.Proceed? ==> destinationId == DestinationFor(State(), item)
    {
      var i := item.identityId;
      destinationId := None;
      if !(i in identities && identities[i].source == ctx.source && identities[i].environment == ctx.environment
           && (identities[i].lastSeenRunId, i) in observations) {
        return Refuse(IdentityNotFound), None;
      }
      var who, current := identities[i], observations[(identities[i].lastSeenRunId, i)];
      if who.sourcePropertyId != item.sourcePropertyId {
        return Refuse(IdentityMismatch), None;
      }
      if current.id != item.currentObservationId {
        return Refuse(StaleObservation), None;
      }
      if who.lastSeenRunId != item.currentSourceRunId {
        return Refuse(StaleRun), None;
      }
      if current.payloadDigest != Some(item.sourcePayloadDigest) {
        return Refuse(StalePayloadDigest), None;
      }
      if item.decision.ApproveCreate? {
        if item.canonicalDestinationSlug.None? || item.canonicalDestinationSlug.value !in destinationIds {
          return Refuse(DestinationNotSupported), None;
        }
        destinationId := Some(destinationIds[item.canonicalDestinationSlug.value]);
      }
      return Proceed, destinationId;
    }

    /** Steps 3b and 4: a revoked approval is refused before idempotency is even asked. */
    method JudgeHistory(item: ReviewedItem, digest: string, ctx: Context) returns (verdict: Verdict)
      requires digest == DigestOf(State(), item, ctx)
      ensures verdict == HistoryVerdict(State(), item, ctx)
    {
      hide DigestOf;
      var i := item.identityId;
      if item.decision.ApproveCreate? && i in projections && projections[i].status.Revoked? {
        var revoked := RevokedObservation(State(), i);
        if revoked.None? || revoked.value == item.currentObservationId {
          return Refuse(ReviewRevokedRequiresFreshObservation);
        }
      }
      var existing := FirstRow(ReceiptsAbout(State(), i, item.currentObservationId));
      if existing.Some? {
        if receipts[existing.value].digest == digest {
          return Already(existing.value);
        }
        return Refuse(ConflictingReviewExists);
      }
      return Proceed;
    }

    /** Steps 5 to 7: fingerprint, readiness, and the rows the write would advance or reuse. */
    method JudgeReadiness(item: ReviewedItem, previews: map<Id, PreviewResult>) returns (verdict: Verdict)
      requires item.identityId in identities
      ensures verdict == ReadyVerdict(State(), item, previews)
    {
      hide G.Ready;
      var i := item.identityId;
      if i !in previews {
        return Refuse(PreviewUnavailable);
      }
      if previews[i].fingerprint != item.prereviewFingerprint {
        return Refuse(StalePrereviewFingerprint);
      }
      var ready, blocking := G.ReadinessOf(previews[i]);
      if !ready {
        return Refuse(NotReviewReady);
      }
      if item.decision.Defer? {
        if i in projections {
          return Refuse(DeferAfterExistingReviewUnsupported);
        }
        return Proceed;
      }
      if i in projections && !projections[i].decision.ApproveCreate? {
        return Refuse(ExistingReviewDecisionIncompatible);
      }
      var who := identities[i];
      if i in findings && !(&& findings[i].matchMethod == HUMAN_NEW_PROPERTY_METHOD && findings[i].status.FindingAccepted?
                            && findings[i].source == who.source && findings[i].environment == who.environment) {
        return Refuse(ExistingNewPropertyFindingIncompatible);
      }
      return Proceed;
    }

    /** Step 8: reuse or create the human finding, insert the receipt, advance or insert the projection. */
    method WriteApproval(item: ReviewedItem, digest: string, destinationId: Option<Id>, ids: RowIds, ctx: Context)
      requires item.identityId in identities && item.decision.ApproveCreate?
      requires digest == DigestOf(State(), item, ctx) && destinationId == DestinationFor(State(), item)
      requires identities[item.identityId].lastSeenRunId == item.currentSourceRunId
      modifies this`findings, this`receipts, this`projections
      ensures State() == Written(old(State()), item, ids, ctx)
    {
      hide DigestOf, DestinationFor;
      var i, who := item.identityId, identities[item.identityId];
      var findingId: Id;
      if i in findings {
        findingId := findings[i].id;
      } else {
        findings := findings[i := Finding(ids.finding, who.source, who.environment, HUMAN_NEW_PROPERTY_METHOD,
                                          FindingAccepted, FindingNote(item))];
        findingId := ids.finding;
      }
      InsertReceipt(item, who, digest, destinationId, Some(findingId), ids.receipt, ctx.now);
      if i in projections {
        projections := projections[i := projections[i].(
          decision := ApproveCreate, destinationId := destinationId, targetHotelId := None,
          reviewerUserId := item.reviewerUserId, reviewerLabel := item.reviewerLabel, reviewNote := item.humanNote,
          decidedInRunId := Some(who.lastSeenRunId), reviewedAt := ctx.now, status := Active,
          currentReceiptId := Some(ids.receipt))];
      } else {
        projections := projections[i := Projection(
          ids.review, who.source, who.environment, ApproveCreate, destinationId, None, item.reviewerUserId,
          item.reviewerLabel, item.humanNote, Some(who.lastSeenRunId), ctx.now, Active, Some(ids.receipt))];
      }
      assert findings == old(findings)[i := FindingAfter(old(State()), item, ids)];
      assert receipts == old(receipts)[ids.receipt := NewReceipt(old(State()), item, ctx, Some(findingId))];
      assert projections == old(projections)[i := ProjectionAfter(old(State()), item, ids, ctx)];
    }

    /** One item: every check precedes every write, so a refusal leaves nothing behind. */
    method ApplyOne(item: ReviewedItem, previews: map<Id, PreviewResult>, ids: RowIds, ctx: Context)
      returns (outcome: Outcome)
      modifies this`findings, this`receipts, this`projections
      ensures (State(), outcome) == R.ApplyOne(old(State()), item, previews, ids, ctx)
    {
      hide PinVerdict, HistoryVerdict, ReadyVerdict, ContentOf;
      var i := item.identityId;
      var verdict, destinationId := JudgePins(item, ctx);
      if verdict.Refuse? {
        return Refused(i, item.sourcePropertyId, verdict.refusal);
      }
      PinsProceedInScope(State(), item, ctx);
      var digest := ctx.hashing.receipt(ContentOf(item, destinationId));
      verdict := JudgeHistory(item, digest, ctx);
      if verdict.Refuse? {
        return Refused(i, item.sourcePropertyId, verdict.refusal);
      }
      if verdict.Already? {
        return AlreadyApplied(i, item.sourcePropertyId, verdict.receiptId);
      }
      verdict := JudgeReadiness(item, previews);
      if verdict.Refuse? {
        return Refused(i, item.sourcePropertyId, verdict.refusal);
      }
      ReadyNeverAlready(State(), item, previews);
      if item.decision.Defer? {
        InsertReceipt(item, identities[i], digest, None, None, ids.receipt, ctx.now);
      } else {
        WriteApproval(item, digest, destinationId, ids, ctx);
      }
      return WouldApply(i, item.sourcePropertyId, ids.receipt);
    }

    /**
     One review manifest, one transaction. A malformed item, or a preview that throws, leaves the
     database untouched; a dry run reports the same outcomes as an apply, up to the relabelling of
     `would_apply`, and rolls back; an apply commits exactly the fold of its items.
     */
    method ApplyReviewedManifest(items: seq<ReviewedItem>, rowIds: seq<RowIds>, ctx: Context, apply: bool)
      returns (report: Result<seq<Outcome>, ManifestError>)
      requires |rowIds| == |items|
      modifies this`findings, this`receipts, this`projections, this`revocations
      ensures (exists x | x in items :: !R.WellFormed(x)) ==>
                State() == old(State()) && exists k | 0 <= k < |items| ::
                  && ShapeDefect(items[k]).Some? && report == Err(Malformed(ShapeDefect(items[k]).value))
                  && forall j | 0 <= j < k :: R.WellFormed(items[j])
      ensures (forall x | x in items :: R.WellFormed(x)) && Previews(old(State()), ctx).Err? ==>
                report == Err(Previews(old(State()), ctx).error) && State() == old(State())
      ensures (forall x | x in items :: R.WellFormed(x)) && Previews(old(State()), ctx).Ok? ==>
                var (after, outcomes) := R.ApplyItems(old(State()), items, Previews(old(State()), ctx).value, rowIds, ctx);
                && report == Ok(Map(o => R.Relabel(apply, o), outcomes))
                && State() == if apply then after else old(State())
      ensures FreshIds(old(State()), rowIds) ==> Runs.Next(old(State()), Runs.ReviewManifest(items, rowIds, ctx, apply), State())
    {
      hide R.WellFormed, Previews, R.ApplyOne, ShapeDefect, Runs.Next, FreshIds;
      for k := 0 to |items|
        invariant forall j | 0 <= j < k :: R.WellFormed(items[j])
        invariant State() == old(State())
      {
        var refusal := ValidateReviewedItem(items[k]);
        if refusal.Some? {
          assert items[k] in items;
          ReviewManifestIsAStep(State(), items, rowIds, ctx, apply, State());
          return Err(Malformed(refusal.value));
        }
      }
      var saved := State();
      var previews := Previews(saved, ctx);
      if previews.Err? {
        ReviewManifestIsAStep(saved, items, rowIds, ctx, apply, saved);
        return Err(previews.error);
      }
      var outcomes: seq<Outcome> := [];
      for k := 0 to |items|
        invariant (State(), outcomes) == R.ApplyItems(saved, items[..k], previews.value, rowIds[..k], ctx)
        invariant State() == saved.(findings := findings, receipts := receipts, projections := projections, revocations := revocations)
      {
        assert items[..k + 1][..k] == items[..k] && rowIds[..k + 1][..k] == rowIds[..k];
        var outcome := ApplyOne(items[k], previews.value, rowIds[k], ctx);
        outcomes := outcomes + [outcome];
      }
      assert items[..|items|] == items && rowIds[..|items|] == rowIds;
      var relabelled: seq<Outcome> := [];
      for k := 0 to |outcomes|
        invariant relabelled == Map(o => R.Relabel(apply, o), outcomes[..k])
      {
        relabelled := relabelled + [R.Relabel(apply, outcomes[k])];
      }
      assert outcomes[..|outcomes|] == outcomes;
      if !apply {
        Rollback(saved);
      }
      ReviewManifestIsAStep(saved, items, rowIds, ctx, apply, State());
      return Ok(relabelled);
    }

    /** An event for the pinned receipt exists: is the withdrawal this manifest asks for the standing one? */
    method JudgeReplay(item: W.RevocationItem, review: Projection, digest: string, hashing: Hashing) returns (ruling: W.Ruling)
      requires item.expectedCurrentReceiptId in revocations && digest == hashing.revocation(W.ContentOf(item))
      ensures ruling == W.ReplayRuling(State(), item, review, hashing)
    {
      var prior := revocations[item.expectedCurrentReceiptId];
      if review.currentReceiptId == Some(item.expectedCurrentReceiptId) {
        if !review.status.Revoked? {
          return W.Deny(W.RevocationStateIncoherent);
        }
      }
      var stillRepresentsThisReceipt :=
        review.currentReceiptId == Some(item.expectedCurrentReceiptId) && review.status.Revoked?;
      if !stillRepresentsThisReceipt {
        return W.Deny(W.RevocationManifestNoLongerCurrent);
      }
      if prior.digest == digest {
        return W.Standing(prior.id);
      }
      return W.Deny(W.ConflictingRevocationExists);
    }

    method JudgeWithdrawal(item: W.RevocationItem, review: Projection) returns (ruling: W.Ruling)
      ensures ruling == W.PinRuling(State(), item, review)
    {
      var id := item.expectedCurrentReceiptId;
      if !review.decision.ApproveCreate? {
        return W.Deny(W.ReviewNotApproveCreate);
      }
      if !review.status.Active? {
        return W.Deny(W.ReviewNotActive);
      }
      if review.currentReceiptId != Some(id) || id !in receipts || receipts[id].identityId != item.identityId {
        return W.Deny(W.ReceiptMismatch);
      }
      var r := receipts[id];
      if !r.decision.ApproveCreate? {
        return W.Deny(W.ReviewNotApproveCreate);
      }
      if r.digest != item.expectedReceiptDigest || r.observationId != item.expectedEvidenceObservationId {
        return W.Deny(W.ReceiptMismatch);
      }
      var incoherent := || !review.decision.ApproveCreate? || !r.decision.ApproveCreate?
                        || r.destinationId != review.destinationId || Some(r.runId) != review.decidedInRunId;
      if incoherent {
        return W.Deny(W.ReviewProjectionReceiptMismatch);
      }
      return W.Withdraw;
    }

    /** One withdrawal: pins, idempotency before state, then one event and one moved column. */
    method RevokeOne(item: W.RevocationItem, revocationId: Id, ctx: Context) returns (outcome: W.RevocationOutcome)
      modifies this`projections, this`revocations
      ensures (State(), outcome) == W.RevokeOne(old(State()), item, revocationId, ctx)
    {
      hide W.ReplayRuling, W.PinRuling, W.ContentOf;
      var i := item.identityId;
      if !(i in projections && i in identities && projections[i].source == ctx.source
           && projections[i].environment == ctx.environment) {
        return W.RevocationRefused(i, item.sourcePropertyId, W.ReviewNotFound);
      }
      var review := projections[i];
      if review.id != item.reviewId {
        return W.RevocationRefused(i, item.sourcePropertyId, W.StaleReviewProjection);
      }
      if identities[i].sourcePropertyId != item.sourcePropertyId {
        return W.RevocationRefused(i, item.sourcePropertyId, W.RevocationIdentityMismatch);
      }
      var digest := ctx.hashing.revocation(W.ContentOf(item));
      var ruling: W.Ruling;
      if item.expectedCurrentReceiptId in revocations {
        ruling := JudgeReplay(item, review, digest, ctx.hashing);
      } else {
        ruling := JudgeWithdrawal(item, review);
      }
      assert ruling == W.Decide(State(), item, ctx);
      match ruling
      case Deny(refusal) => return W.RevocationRefused(i, item.sourcePropertyId, refusal);
      case Standing(id) => return W.AlreadyRevoked(i, item.sourcePropertyId, id);
      case Withdraw =>
        revocations := revocations[item.expectedCurrentReceiptId := Revocation(
          revocationId, i, review.source, review.environment, item.reviewerUserId, item.reviewerLabel,
          item.revocationNote, ctx.now, digest)];
        projections := projections[i := review.(status := Revoked)];
        return W.WouldRevoke(i, item.sourcePropertyId, revocationId);
    }

    /** One revocation manifest, one transaction, with the same dry-run contract. */
    method ApplyRevocationManifest(items: seq<W.RevocationItem>, ids: seq<Id>, ctx: Context, apply: bool)
      returns (report: Result<seq<W.RevocationOutcome>, ManifestError>)
      requires |ids| == |items|
      modifies this`findings, this`receipts, this`projections, this`revocations
      ensures (exists x | x in items :: !W.WellFormed(x)) ==>
                State() == old(State()) && exists k | 0 <= k < |items| ::
                  && W.ShapeDefect(items[k]).Some? && report == Err(Malformed(W.ShapeDefect(items[k]).value))
                  && forall j | 0 <= j < k :: W.WellFormed(items[j])
      ensures (forall x | x in items :: W.WellFormed(x)) ==>
                var (after, outcomes) := W.RevokeItems(old(State()), items, ids, ctx);
                && report == Ok(Map(o => W.Relabel(apply, o), outcomes))
                && State() == if apply then after else old(State())
      ensures Runs.Next(old(State()), Runs.RevocationManifest(items, ids, ctx, apply), State())
    {
      hide W.RevokeOne, Runs.Next;
      for k := 0 to |items|
        invariant forall j | 0 <= j < k :: W.WellFormed(items[j])
        invariant State() == old(State())
      {
        var defect := W.ShapeDefect(items[k]);
        if defect.Some? {
          assert items[k] in items;
          RevocationManifestIsAStep(State(), items, ids, ctx, apply, State());
          return Err(Malformed(defect.value));
        }
      }
      var saved := State();
      var outcomes: seq<W.RevocationOutcome> := [];
      for k := 0 to |items|
        invariant (State(), outcomes) == W.RevokeItems(saved, items[..k], ids[..k], ctx)
        invariant State() == saved.(findings := findings, receipts := receipts, projections := projections, revocations := revocations)
      {
        assert items[..k + 1][..k] == items[..k] && ids[..k + 1][..k] == ids[..k];
        var outcome := RevokeOne(items[k], ids[k], ctx);
        outcomes := outcomes + [outcome];
      }
      assert items[..|items|] == items && ids[..|items|] == ids;
      var relabelled: seq<W.RevocationOutcome> := [];
      for k := 0 to |outcomes|
        invariant relabelled == Map(o => W.Relabel(apply, o), outcomes[..k])
      {
        relabelled := relabelled + [W.Relabel(apply, outcomes[k])];
      }
      assert outcomes[..|outcomes|] == outcomes;
      if !apply {
        Rollback(saved);
      }
      RevocationManifestIsAStep(saved, items, ids, ctx, apply, State());
      return Ok(relabelled);
    }

    /**
     The revocation pack over the query's rows, those of one identity when one is asked for: the revocable
     approvals are emitted in row order, once per row, and every other row is counted under what is wrong with
     it; a coherent database has none of those.
     */
    method BuildRevocationPack(rows: seq<Id>, source: string, environment: string, identityId: Option<Id>)
      returns (items: seq<PackedItem>, withoutReceipt: nat, incoherent: seq<Id>, revocationIncoherent: seq<Id>)
      requires forall i :: i in rows <==>
                 W.ActiveApproval(State(), i, source, environment) && (Truthy(identityId) ==> Some(i) == identityId)
      ensures items == PackItems(State(), rows)
      ensures forall i | W.ActiveApproval(State(), i, source, environment) && (Truthy(identityId) ==> Some(i) == identityId) ::
                W.Revocable(State(), i) <==> exists x | x in items :: x.item.identityId == i
      ensures withoutReceipt == |Filter(Receiptless(State()), rows)|
      ensures incoherent == SortBy(Self, Filter(WrongReceipt(State()), rows))
      ensures revocationIncoherent == SortBy(Self, Filter(AlreadyWithdrawn(State()), rows))
      ensures Coherent(State()) ==>
                withoutReceipt == 0 && incoherent == [] && revocationIncoherent == [] && |items| == |rows|
    {
      hide W.ReceiptCoherent, W.RevocationStateCoherent, Coherent, W.PackItem, W.JoinedReceipt, Filter, SortBy, PackItems;
      hide Receiptless, WrongReceipt, AlreadyWithdrawn, ContextOf;
      var t := State();
      items, withoutReceipt, incoherent, revocationIncoherent := [], 0, [], [];
      NothingPacked(t);
      for k := 0 to |rows|
        invariant items == PackItems(t, rows[..k])
        invariant withoutReceipt == |Filter(Receiptless(t), rows[..k])|
        invariant incoherent == Filter(WrongReceipt(t), rows[..k])
        invariant revocationIncoherent == Filter(AlreadyWithdrawn(t), rows[..k])
        invariant Coherent(t) ==>
                    withoutReceipt == 0 && incoherent == [] && revocationIncoherent == [] && |items| == k
      {
        var i := rows[k];
        assert i in rows && rows[..k + 1] == rows[..k] + [i];
        if Coherent(t) {
          EveryActiveApprovalIsRevocable(t, i, source, environment);
        }
        PackedOneMore(t, rows[..k], i);
        RowFaults(t, i);
        var receipt := W.JoinedReceipt(t, i);
        var receiptCoherent := W.ReceiptCoherent(t, i);
        var revocationCoherent := W.RevocationStateCoherent(t, i);
        if projections[i].currentReceiptId.None? {
          withoutReceipt := withoutReceipt + 1;
        } else {
          if !receiptCoherent {
            incoherent := incoherent + [i];
          }
          if !revocationCoherent {
            revocationIncoherent := revocationIncoherent + [i];
          }
        }
        if receipt.None? || !receiptCoherent || !revocationCoherent {
          continue;
        }
        items := items + [PackedItem(W.PackItem(t, i), ContextOf(t, i))];
      }
      assert rows[..|rows|] == rows;
      forall i | i in rows ensures W.Revocable(t, i) <==> exists x | x in items :: x.item.identityId == i {
        PackedIffRevocable(t, rows, i);
      }
      assert Coherent(t) ==> SortBy(Self, incoherent) == incoherent && SortBy(Self, revocationIncoherent) == revocationIncoherent by {
        NothingSorts();
      }
      incoherent, revocationIncoherent := SortBy(Self, incoherent), SortBy(Self, revocationIncoherent);
    }
  }

  function Receiptless(t: Tables): Id -> bool { (i: Id) => !W.NamesReceipt(t, i) }
  function WrongReceipt(t: Tables): Id -> bool { (i: Id) => W.NamesReceipt(t, i) && !W.ReceiptCoherent(t, i) }
  function AlreadyWithdrawn(t: Tables): Id -> bool { (i: Id) => W.NamesReceipt(t, i) && !W.RevocationStateCoherent(t, i) }

  /** What the human sees beside the pins; the last flag is advice, since a stale approval is revocable too. */
  datatype PackContext = PackContext(
    reviewedAt: string, reviewerLabel: string, reviewNote: Option<string>, destinationSlug: Option<string>,
    receiptEvidenceIsStillCurrent: bool)

  datatype PackedItem = PackedItem(item: W.RevocationItem, context: PackContext)

  function ContextOf(t: Tables, i: Id): PackContext
    requires W.Revocable(t, i)
  {
    var p := t.projections[i];
    PackContext(p.reviewedAt, p.reviewerLabel, p.reviewNote,
                if p.destinationId.Some? && p.destinationId.value in t.destinationSlugs
                then Some(t.destinationSlugs[p.destinationId.value]) else None,
                Some(W.JoinedReceipt(t, i).value.observationId) == CurrentObservationId(t, i))
  }

  /** One item for each revocable row, in row order. */
  function PackItems(t: Tables, rows: seq<Id>): seq<PackedItem> {
    if rows == [] then []
    else PackItems(t, rows[..|rows| - 1]) + PackRow(t, rows[|rows| - 1])
  }

  function PackRow(t: Tables, i: Id): seq<PackedItem> {
    if W.Revocable(t, i) then [PackedItem(W.PackItem(t, i), ContextOf(t, i))] else []
  }

  lemma {:induction false} PackedIffRevocable(t: Tables, rows: seq<Id>, i: Id)
    ensures (exists x | x in PackItems(t, rows) :: x.item.identityId == i) <==> i in rows && W.Revocable(t, i)
  {
    hide W.Revocable, ContextOf;
    if rows != [] {
      var n := |rows| - 1;
      PackedIffRevocable(t, rows[..n], i);
      PackRowMeaning(t, rows[n]);
      hide PackRow;
      assert rows == rows[..n] + [rows[n]];
    }
  }

  lemma PackRowMeaning(t: Tables, i: Id)
    ensures forall x | x in PackRow(t, i) :: x.item.identityId == i
    ensures PackRow(t, i) != [] <==> W.Revocable(t, i)
  {
    hide W.Revocable, ContextOf;
  }

  lemma NothingPacked(t: Tables)
    ensures forall rows: seq<Id> | rows == [] ::
              PackItems(t, rows) == [] && Filter(Receiptless(t), rows) == [] && Filter(WrongReceipt(t), rows) == []
              && Filter(AlreadyWithdrawn(t), rows) == []
  {
  }

  lemma NothingSorts()
    ensures SortBy(Self, []) == []
  {
  }

  lemma FilterOneMore<T(!new)>(keep: T -> bool, xs: seq<T>, x: T)
    ensures Filter(keep, xs + [x]) == Filter(keep, xs) + if keep(x) then [x] else []
  {
    FilterAppend(keep, xs, [x]);
    assert [x][1..] == [];
  }

  lemma PackedOneMore(t: Tables, rows: seq<Id>, i: Id)
    ensures PackItems(t, rows + [i])
         == PackItems(t, rows) + if W.Revocable(t, i) then [PackedItem(W.PackItem(t, i), ContextOf(t, i))] else []
    ensures Filter(Receiptless(t), rows + [i]) == Filter(Receiptless(t), rows) + if Receiptless(t)(i) then [i] else []
    ensures Filter(WrongReceipt(t), rows + [i]) == Filter(WrongReceipt(t), rows) + if WrongReceipt(t)(i) then [i] else []
    ensures Filter(AlreadyWithdrawn(t), rows + [i]) == Filter(AlreadyWithdrawn(t), rows) + if AlreadyWithdrawn(t)(i) then [i] else []
  {
    hide W.Revocable, W.PackItem, ContextOf, Receiptless, WrongReceipt, AlreadyWithdrawn, Filter;
    assert (rows + [i])[..|rows|] == rows;
    FilterOneMore(Receiptless(t), rows, i);
    FilterOneMore(WrongReceipt(t), rows, i);
    FilterOneMore(AlreadyWithdrawn(t), rows, i);
  }

  lemma RowFaults(t: Tables, i: Id)
    ensures Receiptless(t)(i) == !W.NamesReceipt(t, i)
    ensures WrongReceipt(t)(i) == (W.NamesReceipt(t, i) && !W.ReceiptCoherent(t, i))
    ensures AlreadyWithdrawn(t)(i) == (W.NamesReceipt(t, i) && !W.RevocationStateCoherent(t, i))
  {
  }

  lemma PinsProceedInScope(t: Tables, item: ReviewedItem, ctx: Context)
    requires !PinVerdict(t, item, ctx).Refuse?
    ensures PinVerdict(t, item, ctx).Proceed? && item.identityId in t.identities
    ensures t.identities[item.identityId].lastSeenRunId == item.currentSourceRunId
    ensures item.decision.Defer? ==> DestinationFor(t, item) == None
  {
  }

  lemma ReadyNeverAlready(t: Tables, item: ReviewedItem, previews: map<Id, PreviewResult>)
    ensures !ReadyVerdict(t, item, previews).Already?
  {
  }
}

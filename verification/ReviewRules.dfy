/**
 One reviewed item, decided by the rows alone (scripts/human-review/apply.ts): the checks in order, the acceptance
 condition spelled out, and when two items are the same decision.
 */
module ReviewRules {
  import opened Prelude
  import opened Text
  import opened Sequences
  import opened Checklist
  import opened Gate
  import opened Review
  import opened ReviewHistory
  import GateMeaning
  import L = Lifecycle
  import D = Dates

  type Checks = seq<Check<Refusal>>

  /** The identity is in scope with a current observation, and every pin still holds. */
  function Pins(t: Tables, item: ReviewedItem, ctx: Context): Checks {
    var i := item.identityId;
    var key := (if i in t.identities then t.identities[i].lastSeenRunId else "", i);
    [Check(IdentityNotFound, i in t.identities && t.identities[i].source == ctx.source
                             && t.identities[i].environment == ctx.environment && key in t.observations),
     Check(IdentityMismatch, i in t.identities && t.identities[i].sourcePropertyId == item.sourcePropertyId),
     Check(StaleObservation, key in t.observations && t.observations[key].id == item.currentObservationId),
     Check(StaleRun, i in t.identities && t.identities[i].lastSeenRunId == item.currentSourceRunId),
     Check(StalePayloadDigest, key in t.observations && t.observations[key].payloadDigest == Some(item.sourcePayloadDigest)),
     Check(DestinationNotSupported, item.decision.ApproveCreate? ==>
             item.canonicalDestinationSlug.Some? && item.canonicalDestinationSlug.value in t.destinationIds),
     Check(ReviewRevokedRequiresFreshObservation,
             item.decision.ApproveCreate? && i in t.projections && t.projections[i].status.Revoked? ==>
               var r := t.projections[i].currentReceiptId;
               && r.Some? && r.value in t.receipts && t.receipts[r.value].identityId == i
               && t.receipts[r.value].observationId != item.currentObservationId)]
  }

  /** The observation was decided about before: only the very same decision is answered. */
  function Repeated(t: Tables, item: ReviewedItem, ctx: Context): Checks {
    [Check(ConflictingReviewExists,
           forall r | r in t.receipts && IsAbout(t.receipts[r], item) :: t.receipts[r].digest == DigestOf(t, item, ctx))]
  }

  predicate IsAbout(r: Receipt, item: ReviewedItem) {
    r.identityId == item.identityId && r.observationId == item.currentObservationId
  }

  predicate DecidedBefore(t: Tables, item: ReviewedItem) { exists r | r in t.receipts :: IsAbout(t.receipts[r], item) }

  /** Conditions 3, 4 and 6 to 11 pass, by position. */
  predicate MachineHalfPasses(p: PreviewResult) {
    && |p.conditions| == 11
    && p.conditions[2].status.Pass? && p.conditions[3].status.Pass? && p.conditions[5].status.Pass?
    && p.conditions[6].status.Pass? && p.conditions[7].status.Pass? && p.conditions[8].status.Pass?
    && p.conditions[9].status.Pass? && p.conditions[10].status.Pass?
  }

  /** A new decision: the evidence is the evidence reviewed, it is clear, and nothing it would advance stands in the way. */
  function Fresh(t: Tables, item: ReviewedItem, previews: map<Id, PreviewResult>): Checks {
    var i := item.identityId;
    [Check(PreviewUnavailable, i in previews),
     Check(StalePrereviewFingerprint, i in previews && previews[i].fingerprint == item.prereviewFingerprint),
     Check(NotReviewReady, i in previews && MachineHalfPasses(previews[i])),
     Check(DeferAfterExistingReviewUnsupported, item.decision.Defer? ==> i !in t.projections),
     Check(ExistingReviewDecisionIncompatible,
           item.decision.ApproveCreate? && i in t.projections ==> t.projections[i].decision.ApproveCreate?),
     Check(ExistingNewPropertyFindingIncompatible,
           item.decision.ApproveCreate? && i in t.findings ==>
             && t.findings[i].matchMethod == "human_review:distinct_property" && t.findings[i].status.FindingAccepted?
             && i in t.identities && t.findings[i].source == t.identities[i].source
             && t.findings[i].environment == t.identities[i].environment)]
  }

  function ChecksOf(t: Tables, item: ReviewedItem, previews: map<Id, PreviewResult>, ctx: Context): Checks {
    Pins(t, item, ctx) + if DecidedBefore(t, item) then Repeated(t, item, ctx) else Fresh(t, item, previews)
  }

  /** What a verdict must say of the checks. */
  ghost predicate Explains(v: Verdict, checks: Checks, t: Tables, item: ReviewedItem) {
    && (v.Refuse? ==> exists k | 0 <= k < |checks| :: BreaksAt(checks, k) && checks[k].code == v.refusal)
    && (!v.Refuse? ==> AllHold(checks))
    && (v.Already? ==> v.receiptId in t.receipts && IsAbout(t.receipts[v.receiptId], item))
    && (v.Proceed? ==> !DecidedBefore(t, item))
  }

  predicate Numbered(previews: map<Id, PreviewResult>) {
    forall i | i in previews :: GateMeaning.Numbered(previews[i].conditions)
  }

  lemma PinsBreak(t: Tables, item: ReviewedItem, ctx: Context, k: nat)
    requires k < 7 && BreaksAt(Pins(t, item, ctx), k)
    ensures k < 6 ==> PinVerdict(t, item, ctx) == Refuse(Pins(t, item, ctx)[k].code)
    ensures k == 6 ==> PinVerdict(t, item, ctx).Proceed?
                       && HistoryVerdict(t, item, ctx) == Refuse(ReviewRevokedRequiresFreshObservation)
  {
    var p := Pins(t, item, ctx);
    assert (k > 0 ==> p[0].holds) && (k > 1 ==> p[1].holds) && (k > 2 ==> p[2].holds);
    assert (k > 3 ==> p[3].holds) && (k > 4 ==> p[4].holds) && (k > 5 ==> p[5].holds);
    hide DigestOf;
  }

  lemma PinsHoldIff(t: Tables, item: ReviewedItem, ctx: Context)
    ensures AllHold(Pins(t, item, ctx)) <==>
      PinVerdict(t, item, ctx).Proceed? && !(item.decision.ApproveCreate? && StillRevoked(t, item))
  {
    var p := Pins(t, item, ctx);
    assert AllHold(p) <==> p[0].holds && p[1].holds && p[2].holds && p[3].holds && p[4].holds && p[5].holds && p[6].holds;
  }

  lemma RepeatedVerdict(t: Tables, item: ReviewedItem, ctx: Context)
    requires OneReceiptPerObservation(t) && DecidedBefore(t, item)
    requires !(item.decision.ApproveCreate? && StillRevoked(t, item))
    ensures var v := HistoryVerdict(t, item, ctx);
      && (AllHold(Repeated(t, item, ctx)) <==> v.Already?)
      && (v.Already? ==> v.receiptId in t.receipts && IsAbout(t.receipts[v.receiptId], item))
      && (!v.Already? ==> v == Refuse(ConflictingReviewExists))
  {
    hide DigestOf, StillRevoked;
    var about := ReceiptsAbout(t, item.identityId, item.currentObservationId);
    var r :| r in t.receipts && IsAbout(t.receipts[r], item);
    assert r in about;
    var prior := FirstRow(about).value;
    assert IsAbout(t.receipts[prior], item);
    assert forall x | x in t.receipts && IsAbout(t.receipts[x], item) :: x == prior;
    var checks := Repeated(t, item, ctx);
    assert AllHold(checks) <==> checks[0].holds;
  }

  lemma UndecidedHistory(t: Tables, item: ReviewedItem, ctx: Context)
    requires !DecidedBefore(t, item) && !(item.decision.ApproveCreate? && StillRevoked(t, item))
    ensures HistoryVerdict(t, item, ctx).Proceed?
  {
    hide DigestOf, StillRevoked;
    var about := ReceiptsAbout(t, item.identityId, item.currentObservationId);
    assert forall x | x in about :: IsAbout(t.receipts[x], item);
  }

  lemma ReadyIsMachineHalf(p: PreviewResult)
    requires GateMeaning.Numbered(p.conditions)
    ensures GateMeaning.Ready(p.conditions) <==> MachineHalfPasses(p)
  {
    GateMeaning.ReadyByIndex(p.conditions);
  }

  lemma FreshVerdict(t: Tables, item: ReviewedItem, previews: map<Id, PreviewResult>)
    requires Numbered(previews) && item.identityId in t.identities
    ensures var v, f := ReadyVerdict(t, item, previews), Fresh(t, item, previews);
      && (AllHold(f) <==> v.Proceed?) && !v.Already?
      && (!v.Proceed? ==> exists k | 0 <= k < |f| :: BreaksAt(f, k) && f[k].code == v.refusal)
  {
    hide GateMeaning.Ready, GateMeaning.Numbered, MachineHalfPasses;
    var i, f := item.identityId, Fresh(t, item, previews);
    if i in previews {
      ReadyIsMachineHalf(previews[i]);
    }
    if !f[0].holds {
      assert BreaksAt(f, 0);
    } else if !f[1].holds {
      assert BreaksAt(f, 1);
    } else if !f[2].holds {
      assert BreaksAt(f, 2);
    } else if !f[3].holds {
      assert BreaksAt(f, 3);
    } else if !f[4].holds {
      assert BreaksAt(f, 4);
    } else if !f[5].holds {
      assert BreaksAt(f, 5);
    }
  }

  lemma VerdictByChecks(t: Tables, item: ReviewedItem, previews: map<Id, PreviewResult>, ctx: Context)
    requires OneReceiptPerObservation(t) && Numbered(previews)
    ensures Explains(Decide(t, item, previews, ctx), ChecksOf(t, item, previews, ctx), t, item)
  {
    hide PinVerdict, HistoryVerdict, ReadyVerdict, StillRevoked, Pins, Repeated, Fresh, IsAbout, OneReceiptPerObservation, Numbered;
    var pins := Pins(t, item, ctx);
    PinsHoldIff(t, item, ctx);
    var rest := if DecidedBefore(t, item) then Repeated(t, item, ctx) else Fresh(t, item, previews);
    HoldInParts(pins, rest);
    if !AllHold(pins) {
      var k := SomeBreaks(pins);
      PinsLast(t, item, ctx);
      PinsBreak(t, item, ctx, k);
      BreaksInFirst(pins, rest, k);
    } else if DecidedBefore(t, item) {
      RepeatedVerdict(t, item, ctx);
      if !AllHold(rest) {
        RepeatedBreaks(t, item, ctx);
        BreaksInSecond(pins, rest, 0);
      }
    } else {
      UndecidedHistory(t, item, ctx);
      PinsScope(t, item, ctx);
      FreshVerdict(t, item, previews);
      if !AllHold(rest) {
        var k :| 0 <= k < |rest| && BreaksAt(rest, k) && rest[k].code == ReadyVerdict(t, item, previews).refusal;
        BreaksInSecond(pins, rest, k);
      }
    }
  }

  lemma PinsLast(t: Tables, item: ReviewedItem, ctx: Context)
    ensures |Pins(t, item, ctx)| == 7 && Pins(t, item, ctx)[6].code == ReviewRevokedRequiresFreshObservation
  {
  }

  lemma PinsScope(t: Tables, item: ReviewedItem, ctx: Context)
    requires AllHold(Pins(t, item, ctx))
    ensures item.identityId in t.identities
  {
    assert Pins(t, item, ctx)[0].holds;
  }

  lemma RepeatedBreaks(t: Tables, item: ReviewedItem, ctx: Context)
    requires !AllHold(Repeated(t, item, ctx))
    ensures BreaksAt(Repeated(t, item, ctx), 0) && Repeated(t, item, ctx)[0].code == ConflictingReviewExists
  {
  }

  /**
   Any item, any tables with one receipt per observation: the outcome is the first broken check's refusal; with
   none broken it is `already_applied` when the observation was decided about before, and is written otherwise.
   */
  lemma ReviewByChecks(t: Tables, item: ReviewedItem, previews: map<Id, PreviewResult>, ids: RowIds, ctx: Context)
    requires OneReceiptPerObservation(t) && Numbered(previews)
    ensures var o, checks := ApplyOne(t, item, previews, ids, ctx).1, ChecksOf(t, item, previews, ctx);
      && (o.WouldApply? <==> AllHold(checks) && !DecidedBefore(t, item))
      && (o.AlreadyApplied? <==> AllHold(checks) && DecidedBefore(t, item))
      && (o.AlreadyApplied? ==> o.receiptId in t.receipts && IsAbout(t.receipts[o.receiptId], item))
      && (forall refusal :: o == Refused(item.identityId, item.sourcePropertyId, refusal) <==> FirstBroken(checks, refusal))
  {
    hide Decide, ChecksOf, DecidedBefore, IsAbout, Written, OneReceiptPerObservation, Numbered;
    VerdictByChecks(t, item, previews, ctx);
    var v, checks := Decide(t, item, previews, ctx), ChecksOf(t, item, previews, ctx);
    AlreadyWasDecided(t, item, v);
    if v.Refuse? {
      var k :| 0 <= k < |checks| && BreaksAt(checks, k) && checks[k].code == v.refusal;
      BrokenBy(checks, k);
    } else {
      NoneBroken(checks);
    }
  }

  lemma AlreadyWasDecided(t: Tables, item: ReviewedItem, v: Verdict)
    ensures v.Already? && v.receiptId in t.receipts && IsAbout(t.receipts[v.receiptId], item) ==> DecidedBefore(t, item)
  {
  }
}

/**
 One withdrawal, decided by the rows alone (scripts/human-review-revocation/revoke.ts): the checks in order, what
 an accepted one records, and when two manifests ask for the same withdrawal.
 */
module WithdrawalRules {
  import opened Prelude
  import opened Checklist
  import opened Gate
  import opened Review
  import W = Withdrawal

  /** The projection the manifest is aimed at is this identity's, and both ids in it are current. */
  function Aimed(t: Tables, item: W.RevocationItem, ctx: Context): seq<Check<W.RevocationRefusal>> {
    var i := item.identityId;
    [Check(W.ReviewNotFound, i in t.projections && i in t.identities
                             && t.projections[i].source == ctx.source && t.projections[i].environment == ctx.environment),
     Check(W.StaleReviewProjection, i in t.projections && t.projections[i].id == item.reviewId),
     Check(W.RevocationIdentityMismatch, i in t.identities && t.identities[i].sourcePropertyId == item.sourcePropertyId)]
  }

  /** The pinned receipt has an event: the projection must still be that withdrawal, with the same content. */
  function Standing(t: Tables, item: W.RevocationItem, ctx: Context): seq<Check<W.RevocationRefusal>> {
    var i, r := item.identityId, item.expectedCurrentReceiptId;
    [Check(W.RevocationStateIncoherent,
           i in t.projections && (t.projections[i].currentReceiptId == Some(r) ==> t.projections[i].status.Revoked?)),
     Check(W.RevocationManifestNoLongerCurrent, i in t.projections && t.projections[i].currentReceiptId == Some(r)),
     Check(W.ConflictingRevocationExists,
           r in t.revocations && t.revocations[r].digest == ctx.hashing.revocation(W.ContentOf(item)))]
  }

  /** No event yet: an active approval that is the pinned receipt, in every column the two share. */
  function InForce(t: Tables, item: W.RevocationItem): seq<Check<W.RevocationRefusal>> {
    var i, r := item.identityId, item.expectedCurrentReceiptId;
    [Check(W.ReviewNotApproveCreate, i in t.projections && t.projections[i].decision.ApproveCreate?),
     Check(W.ReviewNotActive, i in t.projections && t.projections[i].status.Active?),
     Check(W.ReceiptMismatch, i in t.projections && t.projections[i].currentReceiptId == Some(r)),
     Check(W.ReceiptMismatch, r in t.receipts && t.receipts[r].identityId == i),
     Check(W.ReviewNotApproveCreate, r in t.receipts && t.receipts[r].decision.ApproveCreate?),
     Check(W.ReceiptMismatch, r in t.receipts && t.receipts[r].digest == item.expectedReceiptDigest),
     Check(W.ReceiptMismatch, r in t.receipts && t.receipts[r].observationId == item.expectedEvidenceObservationId),
     Check(W.ReviewProjectionReceiptMismatch,
           r in t.receipts && i in t.projections && t.receipts[r].destinationId == t.projections[i].destinationId
           && Some(t.receipts[r].runId) == t.projections[i].decidedInRunId)]
  }

  function Checks(t: Tables, item: W.RevocationItem, ctx: Context): seq<Check<W.RevocationRefusal>> {
    Aimed(t, item, ctx) + if item.expectedCurrentReceiptId in t.revocations then Standing(t, item, ctx) else InForce(t, item)
  }

  /** What a ruling must say of the checks. */
  ghost predicate Explains(ruling: W.Ruling, checks: seq<Check<W.RevocationRefusal>>, event: bool) {
    && (ruling.Deny? ==> exists k | 0 <= k < |checks| :: BreaksAt(checks, k) && checks[k].code == ruling.refusal)
    && (!ruling.Deny? ==> AllHold(checks))
    && (ruling.Standing? ==> event) && (ruling.Withdraw? ==> !event)
  }

  lemma AimedRuling(t: Tables, item: W.RevocationItem, ctx: Context)
    requires !AllHold(Aimed(t, item, ctx))
    ensures Explains(W.Decide(t, item, ctx), Checks(t, item, ctx), item.expectedCurrentReceiptId in t.revocations)
  {
    hide W.ReplayRuling, W.PinRuling, Standing, InForce;
    var checks := Checks(t, item, ctx);
    assert checks[0].holds == Aimed(t, item, ctx)[0].holds && checks[1].holds == Aimed(t, item, ctx)[1].holds;
    assert checks[2] == Aimed(t, item, ctx)[2];
    var k := if !checks[0].holds then 0 else if !checks[1].holds then 1 else 2;
    assert BreaksAt(checks, k);
  }

  lemma StandingRuling(t: Tables, item: W.RevocationItem, ctx: Context)
    requires AllHold(Aimed(t, item, ctx)) && item.expectedCurrentReceiptId in t.revocations
    ensures Explains(W.Decide(t, item, ctx), Checks(t, item, ctx), true)
  {
    hide W.PinRuling, InForce;
    var checks, aimed, rest := Checks(t, item, ctx), Aimed(t, item, ctx), Standing(t, item, ctx);
    assert aimed[0].holds && aimed[1].holds && aimed[2].holds;
    assert forall k | 0 <= k < 3 :: checks[k] == aimed[k] && checks[3 + k] == rest[k];
    assert checks[3] == rest[0] && checks[4] == rest[1] && checks[5] == rest[2];
    if !rest[0].holds {
      assert BreaksAt(checks, 3);
    } else if !rest[1].holds {
      assert BreaksAt(checks, 4);
    } else if !rest[2].holds {
      assert BreaksAt(checks, 5);
    }
  }

  lemma InForceRuling(t: Tables, item: W.RevocationItem, ctx: Context)
    requires AllHold(Aimed(t, item, ctx)) && item.expectedCurrentReceiptId !in t.revocations
    ensures Explains(W.Decide(t, item, ctx), Checks(t, item, ctx), false)
  {
    hide W.ReplayRuling, Standing;
    var checks, aimed, rest := Checks(t, item, ctx), Aimed(t, item, ctx), InForce(t, item);
    assert aimed[0].holds && aimed[1].holds && aimed[2].holds;
    assert forall k | 0 <= k < 3 :: checks[k] == aimed[k];
    assert forall k | 0 <= k < 8 :: checks[3 + k] == rest[k];
    assert checks[3] == rest[0] && checks[4] == rest[1] && checks[5] == rest[2] && checks[6] == rest[3];
    assert checks[7] == rest[4] && checks[8] == rest[5] && checks[9] == rest[6] && checks[10] == rest[7];
    if !rest[0].holds {
      assert BreaksAt(checks, 3);
    } else if !rest[1].holds {
      assert BreaksAt(checks, 4);
    } else if !rest[2].holds {
      assert BreaksAt(checks, 5);
    } else if !rest[3].holds {
      assert BreaksAt(checks, 6);
    } else if !rest[4].holds {
      assert BreaksAt(checks, 7);
    } else if !rest[5].holds {
      assert BreaksAt(checks, 8);
    } else if !rest[6].holds {
      assert BreaksAt(checks, 9);
    } else if !rest[7].holds {
      assert BreaksAt(checks, 10);
    }
  }

  /** Any manifest, any tables: the outcome is the first broken check's refusal, or none is broken. */
  lemma WithdrawalByChecks(t: Tables, item: W.RevocationItem, id: Id, ctx: Context)
    ensures var o, checks := W.RevokeOne(t, item, id, ctx).1, Checks(t, item, ctx);
      && (o.WouldRevoke? <==> AllHold(checks) && item.expectedCurrentReceiptId !in t.revocations)
      && (o.AlreadyRevoked? <==> AllHold(checks) && item.expectedCurrentReceiptId in t.revocations)
      && (forall refusal :: o == W.RevocationRefused(item.identityId, item.sourcePropertyId, refusal) <==> FirstBroken(checks, refusal))
  {
    hide W.Decide, Checks, Aimed;
    if !AllHold(Aimed(t, item, ctx)) {
      AimedRuling(t, item, ctx);
    } else if item.expectedCurrentReceiptId in t.revocations {
      StandingRuling(t, item, ctx);
    } else {
      InForceRuling(t, item, ctx);
    }
    var ruling, checks := W.Decide(t, item, ctx), Checks(t, item, ctx);
    if ruling.Deny? {
      var k :| 0 <= k < |checks| && BreaksAt(checks, k) && checks[k].code == ruling.refusal;
      BrokenBy(checks, k);
    } else {
      NoneBroken(checks);
    }
  }

  /** The pins of an accepted withdrawal, spelled out: no check names the ruling functions. */
  lemma WithdrawalAcceptedIff(t: Tables, item: W.RevocationItem, id: Id, ctx: Context)
    ensures W.RevokeOne(t, item, id, ctx).1.WouldRevoke? <==>
      var i, r := item.identityId, item.expectedCurrentReceiptId;
      && i in t.identities && i in t.projections && r in t.receipts && r !in t.revocations
      && var who, p, receipt := t.identities[i], t.projections[i], t.receipts[r];
         && p.source == ctx.source && p.environment == ctx.environment && p.id == item.reviewId
         && who.sourcePropertyId == item.sourcePropertyId
         && p.decision.ApproveCreate? && p.status.Active? && p.currentReceiptId == Some(r)
         && receipt.identityId == i && receipt.decision.ApproveCreate?
         && receipt.digest == item.expectedReceiptDigest && receipt.observationId == item.expectedEvidenceObservationId
         && receipt.destinationId == p.destinationId && Some(receipt.runId) == p.decidedInRunId
  {
  }

  /** An accepted withdrawal records this event and moves this one column, and nothing else. */
  lemma WithdrawalRecords(t: Tables, item: W.RevocationItem, id: Id, ctx: Context)
    requires W.RevokeOne(t, item, id, ctx).1.WouldRevoke?
    ensures item.identityId in t.projections && item.expectedCurrentReceiptId !in t.revocations
    ensures var t', o := W.RevokeOne(t, item, id, ctx).0, W.RevokeOne(t, item, id, ctx).1;
      var i, r := item.identityId, item.expectedCurrentReceiptId;
      && o.revocationId == id && o.identityId == i && o.sourcePropertyId == item.sourcePropertyId
      && t' == t.(revocations := t'.revocations, projections := t'.projections)
      && t'.projections == t.projections[i := t.projections[i].(status := Revoked)]
      && r in t'.revocations && t'.revocations == t.revocations[r := t'.revocations[r]]
      && var e := t'.revocations[r];
         && e.id == id && e.identityId == i && e.source == ctx.source && e.environment == ctx.environment
         && e.reviewerLabel == item.reviewerLabel && e.reviewerUserId == item.reviewerUserId
         && e.note == item.revocationNote && e.revokedAt == ctx.now
         && e.digest == ctx.hashing.revocation(W.ContentOf(item))
  {
  }

  // ---- The digest says what the withdrawal is. ----

  ghost predicate RevocationHashInjective(hashing: Hashing) {
    forall a, b :: hashing.revocation(a) == hashing.revocation(b) ==> a == b
  }

  /** Two manifests hash alike exactly when they withdraw the same approval, by the same person, for the same reason. */
  lemma SameWithdrawalIff(a: W.RevocationItem, b: W.RevocationItem, hashing: Hashing)
    requires RevocationHashInjective(hashing)
    ensures hashing.revocation(W.ContentOf(a)) == hashing.revocation(W.ContentOf(b)) <==>
      && a.identityId == b.identityId && a.reviewId == b.reviewId
      && a.expectedCurrentReceiptId == b.expectedCurrentReceiptId && a.expectedReceiptDigest == b.expectedReceiptDigest
      && a.expectedEvidenceObservationId == b.expectedEvidenceObservationId
      && a.reviewerLabel == b.reviewerLabel && a.reviewerUserId == b.reviewerUserId && a.revocationNote == b.revocationNote
  {
  }

  /**
   The stated reason is never silently rewritten: aimed at an approval that stands withdrawn, a manifest is
   answered `already_revoked` exactly when its content hashes to what the event recorded, and otherwise refused
   as conflicting; the tables stay as they are.
   */
  lemma StandingWithdrawal(t: Tables, item: W.RevocationItem, id: Id, ctx: Context)
    requires AllHold(Aimed(t, item, ctx)) && item.expectedCurrentReceiptId in t.revocations
    requires item.identityId in t.projections && t.projections[item.identityId].status.Revoked?
    requires t.projections[item.identityId].currentReceiptId == Some(item.expectedCurrentReceiptId)
    ensures var (t', o) := W.RevokeOne(t, item, id, ctx);
      var e := t.revocations[item.expectedCurrentReceiptId];
      && t' == t
      && o == if e.digest == ctx.hashing.revocation(W.ContentOf(item))
              then W.AlreadyRevoked(item.identityId, item.sourcePropertyId, e.id)
              else W.RevocationRefused(item.identityId, item.sourcePropertyId, W.ConflictingRevocationExists)
  {
    var checks := Aimed(t, item, ctx);
    assert checks[0].holds && checks[1].holds && checks[2].holds;
  }

  /** Two fillings of one pack item that differ in label, user or note cannot both be answered `already_revoked`. */
  lemma OneFillingStands(t: Tables, a: W.RevocationItem, b: W.RevocationItem, id: Id, ctx: Context)
    requires RevocationHashInjective(ctx.hashing) && a.expectedCurrentReceiptId == b.expectedCurrentReceiptId
    requires W.RevokeOne(t, a, id, ctx).1.AlreadyRevoked? && W.RevokeOne(t, b, id, ctx).1.AlreadyRevoked?
    ensures a.reviewerLabel == b.reviewerLabel && a.reviewerUserId == b.reviewerUserId && a.revocationNote == b.revocationNote
    ensures a.identityId == b.identityId && a.reviewId == b.reviewId
    ensures a.expectedReceiptDigest == b.expectedReceiptDigest
    ensures a.expectedEvidenceObservationId == b.expectedEvidenceObservationId
  {
    SameWithdrawalIff(a, b, ctx.hashing);
    hide W.PinRuling;
  }

  // ---- The pack and the withdrawal agree. ----

  /** What the pack demands of a row, over the rows alone. */
  lemma RevocableIff(t: Tables, i: Id)
    ensures W.Revocable(t, i) <==>
      && i in t.identities && i in t.projections && t.projections[i].currentReceiptId.Some?
      && t.projections[i].currentReceiptId.value in t.receipts
      && var p, r := t.projections[i], t.receipts[t.projections[i].currentReceiptId.value];
         && r.identityId == i && p.decision.ApproveCreate? && r.decision.ApproveCreate?
         && r.destinationId == p.destinationId && Some(r.runId) == p.decidedInRunId
         && p.currentReceiptId.value !in t.revocations
  {
  }

  /** In any tables at all, the pack emits an active approval exactly when some manifest could withdraw it. */
  lemma PackIsExact(t: Tables, i: Id, id: Id, ctx: Context)
    requires W.ActiveApproval(t, i, ctx.source, ctx.environment)
    ensures W.Revocable(t, i) <==>
      exists item: W.RevocationItem :: item.identityId == i && W.RevokeOne(t, item, id, ctx).1.WouldRevoke?
  {
    RevocableIff(t, i);
    if W.Revocable(t, i) {
      WithdrawalAcceptedIff(t, W.PackItem(t, i), id, ctx);
      assert W.PackItem(t, i).identityId == i;
    }
    hide W.RevokeOne, W.Revocable;
    if item: W.RevocationItem :| item.identityId == i && W.RevokeOne(t, item, id, ctx).1.WouldRevoke? {
      WithdrawalAcceptedIff(t, item, id, ctx);
    }
  }

  /** Committing changes the label of a written outcome and nothing else. */
  lemma LabelOnly(apply: bool, w: W.RevocationOutcome, r: Outcome)
    ensures var v := W.Relabel(apply, w);
      && v.identityId == w.identityId && v.sourcePropertyId == w.sourcePropertyId
      && (if apply && w.WouldRevoke? then v.HasRevoked? && v.revocationId == w.revocationId else v == w)
    ensures var s := Relabel(apply, r);
      && s.identityId == r.identityId && s.sourcePropertyId == r.sourcePropertyId
      && (if apply && r.WouldApply? then s.Applied? && s.receiptId == r.receiptId else s == r)
  {
  }
}

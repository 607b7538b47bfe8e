/**
 The emergency brake: every active approval can be withdrawn, and a withdrawn one stays withdrawn.
 (scripts/human-review-revocation/pack.ts, scripts/human-review-revocation/revoke.ts,
 scripts/source-publication/pack.ts)
 */
module ReviewBrake {
  import opened Prelude
  import opened Gate
  import opened Sequences
  import opened Review
  import opened ReviewHistory
  import opened ReviewRuns
  import G = GateMeaning
  import W = Withdrawal
  import L = Lifecycle

  // ---- The brake. ----

  /** In a coherent state every active approval is in the pack, so every incoherence count is zero. */
  lemma EveryActiveApprovalIsRevocable(t: Tables, i: Id, source: string, environment: string)
    requires Coherent(t) && W.ActiveApproval(t, i, source, environment)
    ensures W.Revocable(t, i)
    ensures t.projections[i].currentReceiptId.Some? && W.ReceiptCoherent(t, i) && W.RevocationStateCoherent(t, i)
  {
    assert ProjectionCoherent(t, i);
  }

  /**
   The emitted item, once a human types a label and a reason, is accepted: the verdict reads no star,
   scope, location, lifecycle, candidate or currentness state. The event is recorded, only the
   status moves, and replaying the same item answers `already_revoked` and writes nothing.
   */
  lemma BrakeAlwaysWorks(
    t: Tables, i: Id, reviewer: string, user: Option<Id>, note: string, id: Id, replayId: Id, ctx: Context)
    requires Coherent(t) && W.ActiveApproval(t, i, ctx.source, ctx.environment)
    requires !IsBlank(reviewer) && !IsBlank(note)
    ensures W.Revocable(t, i)
    ensures var item := W.Filled(W.PackItem(t, i), reviewer, user, note);
            var (t', o) := W.RevokeOne(t, item, id, ctx);
      && W.WellFormed(item) && o == W.WouldRevoke(i, item.sourcePropertyId, id)
      && t' == t.(projections := t'.projections, revocations := t'.revocations)
      && t'.projections == t.projections[i := t.projections[i].(status := Revoked)]
      && t'.revocations.Keys == t.revocations.Keys + {item.expectedCurrentReceiptId}
      && t.projections[i].currentReceiptId == Some(item.expectedCurrentReceiptId)
      && W.RevokeOne(t', item, replayId, ctx) == (t', W.AlreadyRevoked(i, item.sourcePropertyId, id))
  {
    EveryActiveApprovalIsRevocable(t, i, ctx.source, ctx.environment);
    var item := W.Filled(W.PackItem(t, i), reviewer, user, note);
    assert W.PinRuling(t, item, t.projections[i]).Withdraw?;
    assert W.Decide(t, item, ctx).Withdraw?;
  }

  // ---- The pack is read in one state and applied in a later one. ----

  /** The approval the pack read is still the one in force. */
  predicate SameApproval(t: Tables, t': Tables, i: Id, source: string, environment: string)
    requires i in t.projections
  {
    && W.ActiveApproval(t', i, source, environment) && t'.projections[i].id == t.projections[i].id
    && t'.projections[i].currentReceiptId == t.projections[i].currentReceiptId
  }

  lemma PackedAgain(t: Tables, t': Tables, i: Id, source: string, environment: string)
    requires Coherent(t) && Coherent(t') && HistoryGrows(t, t')
    requires W.ActiveApproval(t, i, source, environment) && SameApproval(t, t', i, source, environment)
    ensures W.Revocable(t, i) && W.Revocable(t', i) && W.PackItem(t', i) == W.PackItem(t, i)
  {
    EveryActiveApprovalIsRevocable(t, i, source, environment);
    EveryActiveApprovalIsRevocable(t', i, source, environment);
    hide Coherent;
  }

  lemma AcceptedIsSameApproval(
    t: Tables, t': Tables, i: Id, item: W.RevocationItem, id: Id, ctx: Context)
    requires W.Revocable(t, i) && item == W.Filled(W.PackItem(t, i), item.reviewerLabel, item.reviewerUserId, item.revocationNote)
    requires W.RevokeOne(t', item, id, ctx).1.WouldRevoke?
    ensures SameApproval(t, t', i, ctx.source, ctx.environment)
  {
    assert W.Decide(t', item, ctx).Withdraw?;
  }

  /**
   Over any run from the pack to the withdrawal, whatever review and revocation manifests lie between, the
   filled item is accepted exactly when the approval it was read from is still in force.
   */
  lemma PackedItemAcceptedIff(
    states: seq<Tables>, steps: seq<Step>, a: nat, b: nat, i: Id, reviewer: string, user: Option<Id>, note: string,
    id: Id, ctx: Context)
    requires Run(states, steps) && Coherent(states[0]) && a <= b < |states|
    requires W.ActiveApproval(states[a], i, ctx.source, ctx.environment) && !IsBlank(reviewer) && !IsBlank(note)
    ensures W.Revocable(states[a], i)
    ensures W.RevokeOne(states[b], W.Filled(W.PackItem(states[a], i), reviewer, user, note), id, ctx).1.WouldRevoke?
       <==> SameApproval(states[a], states[b], i, ctx.source, ctx.environment)
  {
    hide Coherent, HistoryGrows, Next, Run, W.RevokeOne, W.PackItem;
    RunIsSafe(states, steps, 0, a);
    RunIsSafe(states, steps, a, b);
    EveryActiveApprovalIsRevocable(states[a], i, ctx.source, ctx.environment);
    var item := W.Filled(W.PackItem(states[a], i), reviewer, user, note);
    if SameApproval(states[a], states[b], i, ctx.source, ctx.environment) {
      PackedAgain(states[a], states[b], i, ctx.source, ctx.environment);
      BrakeAlwaysWorks(states[b], i, reviewer, user, note, id, id, ctx);
    }
    if W.RevokeOne(states[b], item, id, ctx).1.WouldRevoke? {
      AcceptedIsSameApproval(states[a], states[b], i, item, id, ctx);
    }
  }

  lemma {:induction false} DriftKeepsReviews(states: seq<Tables>, steps: seq<Step>, a: nat, b: nat)
    requires Run(states, steps) && a <= b < |states| && forall n | a <= n < b :: steps[n].Drift?
    ensures DriftKeeps(states[a], states[b])
    decreases b
  {
    if a < b {
      DriftKeepsReviews(states, steps, a, b - 1);
      assert Next(states[b - 1], steps[b - 1], states[b]);
    }
  }

  /** However the machine evidence drifts between the pack and the withdrawal, the item does what it promised. */
  lemma BrakeWorksAfterDrift(
    states: seq<Tables>, steps: seq<Step>, a: nat, b: nat, i: Id, reviewer: string, user: Option<Id>, note: string,
    id: Id, replayId: Id, ctx: Context)
    requires Run(states, steps) && Coherent(states[0]) && a <= b < |states|
    requires forall n | a <= n < b :: steps[n].Drift?
    requires W.ActiveApproval(states[a], i, ctx.source, ctx.environment) && !IsBlank(reviewer) && !IsBlank(note)
    ensures W.Revocable(states[a], i)
    ensures var item := W.Filled(W.PackItem(states[a], i), reviewer, user, note);
            var (t', o) := W.RevokeOne(states[b], item, id, ctx);
      && o == W.WouldRevoke(i, item.sourcePropertyId, id)
      && i in states[b].projections && item.expectedCurrentReceiptId !in states[b].revocations
      && t' == states[b].(projections := t'.projections, revocations := t'.revocations)
      && t'.projections == states[b].projections[i := states[b].projections[i].(status := Revoked)]
      && t'.revocations.Keys == states[b].revocations.Keys + {item.expectedCurrentReceiptId}
      && W.RevokeOne(t', item, replayId, ctx) == (t', W.AlreadyRevoked(i, item.sourcePropertyId, id))
  {
    hide Coherent, HistoryGrows, Next, Run, W.RevokeOne, W.PackItem;
    RunIsSafe(states, steps, 0, a);
    RunIsSafe(states, steps, a, b);
    DriftKeepsReviews(states, steps, a, b);
    DriftedApproval(states[a], states[b], i, ctx.source, ctx.environment);
    PackedAgain(states[a], states[b], i, ctx.source, ctx.environment);
    BrakeAlwaysWorks(states[b], i, reviewer, user, note, id, replayId, ctx);
    EveryActiveApprovalIsRevocable(states[b], i, ctx.source, ctx.environment);
  }

  lemma DriftedApproval(t: Tables, t': Tables, i: Id, source: string, environment: string)
    requires DriftKeeps(t, t') && W.ActiveApproval(t, i, source, environment)
    ensures SameApproval(t, t', i, source, environment)
  {
  }

  /** With the brake on, no machine evidence that can drift in makes the gate pass. */
  lemma BrakedGateHolds(t: Tables, t': Tables, i: Id, policy: L.Policy, ctx: Context)
    requires Coherent(t) && ApprovedCreate(t, i) && t.projections[i].status.Revoked? && DriftKeeps(t, t')
    ensures !GatePasses(t', i, policy, ctx)
  {
    hide GatePasses;
    if GatePasses(t', i, policy, ctx) {
      var r := PassCitesLiveReceipt(t', i, policy, ctx);
    }
  }

  /**
   After a fresh approval the old manifest no longer describes what is authorized: its replay is
   refused and the new approval stays exactly as it is.
   */
  lemma OldRevocationCannotTouchNewApproval(t: Tables, item: W.RevocationItem, id: Id, ctx: Context)
    requires Coherent(t) && item.expectedCurrentReceiptId in t.revocations
    requires ApprovedCreate(t, item.identityId) && t.projections[item.identityId].status.Active?
    ensures W.RevokeOne(t, item, id, ctx).0 == t
    ensures W.RevokeOne(t, item, id, ctx).1.RevocationRefused?
    ensures (&& W.Located(t, item.identityId, ctx.source, ctx.environment)
             && t.projections[item.identityId].id == item.reviewId
             && t.identities[item.identityId].sourcePropertyId == item.sourcePropertyId)
            ==> W.RevokeOne(t, item, id, ctx).1.refusal == W.RevocationManifestNoLongerCurrent
  {
    assert ProjectionCoherent(t, item.identityId);
  }

  /** In a coherent state a withdrawal aimed at an `approve_create` is never refused as incoherent. */
  lemma ApprovalIsNeverIncoherent(t: Tables, item: W.RevocationItem, ctx: Context)
    requires Coherent(t) && W.Decide(t, item, ctx).Deny?
    requires item.identityId in t.projections && t.projections[item.identityId].decision.ApproveCreate?
    ensures W.Decide(t, item, ctx).refusal != W.RevocationStateIncoherent
    ensures W.Decide(t, item, ctx).refusal != W.ReviewProjectionReceiptMismatch
  {
    assert ProjectionCoherent(t, item.identityId);
  }

  /**
   The two refusals kept for corrupted tables cannot occur in any state a run reaches from empty
   tables, or from any coherent tables that hold only approvals, whatever the manifest says.
   */
  lemma IncoherenceRefusalsAreUnreachable(states: seq<Tables>, steps: seq<Step>, n: nat, item: W.RevocationItem, ctx: Context)
    requires Run(states, steps) && n < |states|
    requires states[0] == EMPTY_TABLES || (Coherent(states[0]) && OnlyApprovals(states[0]))
    requires W.Decide(states[n], item, ctx).Deny?
    ensures W.Decide(states[n], item, ctx).refusal != W.RevocationStateIncoherent
    ensures W.Decide(states[n], item, ctx).refusal != W.ReviewProjectionReceiptMismatch
  {
    hide Coherent, Next;
    EmptyIsCoherent();
    RunKeepsApprovals(states, steps, n);
    if item.identityId in states[n].projections {
      ApprovalIsNeverIncoherent(states[n], item, ctx);
    } else {
      UnknownReviewIsNotFound(states[n], item, ctx);
    }
  }

  lemma UnknownReviewIsNotFound(t: Tables, item: W.RevocationItem, ctx: Context)
    requires item.identityId !in t.projections
    ensures W.Decide(t, item, ctx) == W.Deny(W.ReviewNotFound)
  {
  }

  /**
   A projection of another decision lies outside these paths and outside the invariant: one that names
   a receipt with a withdrawal event, while still active, does meet the refusal.
   */
  lemma OtherDecisionsMeetTheRefusal(t: Tables, item: W.RevocationItem, ctx: Context)
    requires W.Located(t, item.identityId, ctx.source, ctx.environment)
    requires t.projections[item.identityId].id == item.reviewId
    requires t.identities[item.identityId].sourcePropertyId == item.sourcePropertyId
    ensures W.Decide(t, item, ctx) == W.Deny(W.RevocationStateIncoherent) <==>
      var p := t.projections[item.identityId];
      item.expectedCurrentReceiptId in t.revocations && p.currentReceiptId == Some(item.expectedCurrentReceiptId) && p.status.Active?
  {
  }

  // ---- A revoked approval and its own manifest. ----

  /** Replaying the original approval after the brake never re-asserts it: refused, nothing written. */
  lemma RevokedApprovalIsNotReapplied(
    t: Tables, item: ReviewedItem, previews: map<Id, PreviewResult>, ids: RowIds, ctx: Context)
    requires Coherent(t) && item.decision.ApproveCreate? && ApprovedCreate(t, item.identityId)
    requires t.projections[item.identityId].status.Revoked?
    requires t.receipts[t.projections[item.identityId].currentReceiptId.value].observationId == item.currentObservationId
    ensures ApplyOne(t, item, previews, ids, ctx).0 == t
    ensures ApplyOne(t, item, previews, ids, ctx).1.Refused?
    ensures PinVerdict(t, item, ctx).Proceed? ==>
              ApplyOne(t, item, previews, ids, ctx).1.refusal == ReviewRevokedRequiresFreshObservation
  {
    hide PinVerdict, ReadyVerdict;
    assert ProjectionCoherent(t, item.identityId);
    PinsNeverAlready(t, item, ctx);
  }

  lemma PinsNeverAlready(t: Tables, item: ReviewedItem, ctx: Context)
    ensures !PinVerdict(t, item, ctx).Already?
  {
  }

  // ---- Publication pack: the independent filter agrees with the gate. ----

  /** The human-authorization conditions the publication pack re-asks of the joined row. */
  predicate HumanAuthorized(t: Tables, i: Id)
    requires i in t.projections
  {
    var p, r := t.projections[i], W.JoinedReceipt(t, i);
    && p.decision.ApproveCreate? && p.status.Active? && W.RevocationStateCoherent(t, i)
    && p.currentReceiptId.Some? && r.Some? && r.value.decision.ApproveCreate?
    && Some(r.value.observationId) == CurrentObservationId(t, i)
    && r.value.findingId.Some? && p.destinationId.Some?
  }

  /** On an `approve_create` the second filter never rejects what the eleven conditions passed. */
  lemma EmissionFilterAgreesWithGate(t: Tables, i: Id, policy: L.Policy, ctx: Context)
    requires ApprovedCreate(t, i) && GatePasses(t, i, policy, ctx)
    ensures HumanAuthorized(t, i)
  {
    hide GatePasses, CurrentObservationId;
    var r := PassCitesLiveReceipt(t, i, policy, ctx);
  }
}

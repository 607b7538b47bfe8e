/**
 Safety over every interleaving of evidence drift, review manifests and revocation manifests:
 history is append-only, a projection's receipt comes from an approval step, and there is no un-revoke.
 */
module ReviewRuns {
  import opened Prelude
  import opened Gate
  import opened Review
  import opened ReviewHistory
  import GateMeaning
  import W = Withdrawal
  import L = Lifecycle

  /**
   Drift is anything ingestion, resolution, lifecycle or match-candidate code may do between
   manifests: it leaves the three review tables alone and never forks or re-keys an identity.
   */
  datatype Step =
    | Drift
    | ReviewManifest(items: seq<ReviewedItem>, rowIds: seq<RowIds>, ctx: Context, apply: bool)
    | RevocationManifest(revocations: seq<W.RevocationItem>, revocationIds: seq<Id>, ctx: Context, apply: bool)

  predicate DriftKeeps(t: Tables, t': Tables) {
    && t'.receipts == t.receipts && t'.projections == t.projections && t'.revocations == t.revocations
    && SameIdentities(t, t')
  }

  /** A colliding primary key, a malformed item or a preview that throws aborts: no step. */
  predicate Commits(t: Tables, step: Step)
    requires step.ReviewManifest?
  {
    && step.apply && |step.rowIds| == |step.items| && FreshIds(t, step.rowIds)
    && (forall x | x in step.items :: WellFormed(x)) && Previews(t, step.ctx).Ok?
  }

  function Committed(t: Tables, step: Step): (Tables, seq<Outcome>)
    requires step.ReviewManifest? && Commits(t, step)
  {
    ApplyItems(t, step.items, Previews(t, step.ctx).value, step.rowIds, step.ctx)
  }

  predicate Next(t: Tables, step: Step, t': Tables) {
    match step
    case Drift => DriftKeeps(t, t')
    case ReviewManifest(_, _, _, _) => t' == if Commits(t, step) then Committed(t, step).0 else t
    case RevocationManifest(items, ids, ctx, apply) =>
      t' == if apply && |ids| == |items| && (forall x | x in items :: W.WellFormed(x))
            then W.RevokeItems(t, items, ids, ctx).0 else t
  }

  predicate Run(states: seq<Tables>, steps: seq<Step>) {
    |states| == |steps| + 1 && forall n | 0 <= n < |steps| :: Next(states[n], steps[n], states[n + 1])
  }

  // ---- Revocation manifests only add events and move one column. ----

  predicate OnlyStatusMoves(t: Tables, t': Tables) {
    && t'.receipts == t.receipts && t'.identities == t.identities && t'.projections.Keys == t.projections.Keys
    && forall i | i in t.projections ::
         t'.projections[i] == t.projections[i] || t'.projections[i] == t.projections[i].(status := Revoked)
  }

  lemma RevokeOneKeeps(t: Tables, item: W.RevocationItem, id: Id, ctx: Context)
    requires Coherent(t)
    ensures var t' := W.RevokeOne(t, item, id, ctx).0;
            Coherent(t') && HistoryGrows(t, t') && OnlyStatusMoves(t, t')
  {
    RevokeKeepsCoherent(t, item, id, ctx);
    hide Coherent, W.Decide, W.Written, HistoryGrows;
    HistoryGrowsReflexive(t);
    if W.Decide(t, item, ctx).Withdraw? {
      WithdrawIsNew(t, item, ctx);
      WithdrawnRows(t, item, id, ctx);
    }
  }

  lemma WithdrawIsNew(t: Tables, item: W.RevocationItem, ctx: Context)
    requires W.Decide(t, item, ctx).Withdraw?
    ensures item.identityId in t.projections && item.expectedCurrentReceiptId !in t.revocations
  {
  }

  lemma WithdrawnRows(t: Tables, item: W.RevocationItem, id: Id, ctx: Context)
    requires item.identityId in t.projections && item.expectedCurrentReceiptId !in t.revocations
    ensures HistoryGrows(t, W.Written(t, item, id, ctx)) && OnlyStatusMoves(t, W.Written(t, item, id, ctx))
  {
    hide Extends;
    SelfExtends(t.receipts);
    InsertExtends(t.revocations, item.expectedCurrentReceiptId,
                  W.Written(t, item, id, ctx).revocations[item.expectedCurrentReceiptId]);
  }

  lemma {:induction false} RevokeItemsKeep(t: Tables, items: seq<W.RevocationItem>, ids: seq<Id>, ctx: Context)
    requires Coherent(t) && |ids| == |items|
    ensures var (t', outcomes) := W.RevokeItems(t, items, ids, ctx);
            |outcomes| == |items| && Coherent(t') && HistoryGrows(t, t') && OnlyStatusMoves(t, t')
  {
    hide Coherent, W.RevokeOne, HistoryGrows;
    if items == [] {
      HistoryGrowsReflexive(t);
    } else {
      var last := |items| - 1;
      RevokeItemsKeep(t, items[..last], ids[..last], ctx);
      var before := W.RevokeItems(t, items[..last], ids[..last], ctx).0;
      RevokeOneKeeps(before, items[last], ids[last], ctx);
      HistoryGrowsTransitive(t, before, W.RevokeOne(before, items[last], ids[last], ctx).0);
    }
  }

  // ---- Every run keeps the invariant and the history. ----

  lemma DriftIsSafe(t: Tables, t': Tables)
    requires Coherent(t) && DriftKeeps(t, t')
    ensures Coherent(t') && HistoryGrows(t, t')
  {
    forall i | i in t'.projections && t'.projections[i].decision.ApproveCreate? ensures ProjectionCoherent(t', i) {
      assert ProjectionCoherent(t, i);
    }
  }

  lemma NextIsSafe(t: Tables, step: Step, t': Tables)
    requires Coherent(t) && Next(t, step, t')
    ensures Coherent(t') && HistoryGrows(t, t')
  {
    hide Coherent, HistoryGrows, ApplyItems, W.RevokeItems, Previews, DriftKeeps, FreshIds, RowsMatch;
    HistoryGrowsReflexive(t);
    match step
    case Drift => DriftIsSafe(t, t');
    case ReviewManifest(items, ids, ctx, apply) =>
      if Commits(t, step) {
        ManifestIsExact(t, items, Previews(t, ctx).value, ids, ctx);
      }
    case RevocationManifest(items, ids, ctx, apply) =>
      if |ids| == |items| {
        RevokeItemsKeep(t, items, ids, ctx);
      }
  }

  /** Reachable-state coherence, and append-only receipts and revocations between any two states of a run. */
  lemma {:induction false} RunIsSafe(states: seq<Tables>, steps: seq<Step>, k: nat, m: nat)
    requires Run(states, steps) && Coherent(states[0]) && k <= m < |states|
    ensures Coherent(states[m]) && HistoryGrows(states[k], states[m])
    decreases m
  {
    hide Coherent, HistoryGrows, Next;
    HistoryGrowsReflexive(states[k]);
    if 0 < m {
      RunIsSafe(states, steps, if k < m then k else m - 1, m - 1);
      NextIsSafe(states[m - 1], steps[m - 1], states[m]);
      if k < m {
        HistoryGrowsTransitive(states[k], states[m - 1], states[m]);
      }
    }
  }

  const EMPTY_TABLES := Tables(map[], map[], map[], map[], map[], map[], map[], map[], map[], map[], None)

  lemma EmptyIsCoherent()
    ensures Coherent(EMPTY_TABLES) && OnlyApprovals(EMPTY_TABLES)
  {
  }

  // ---- These paths put nothing but approvals into the projection. ----

  predicate OnlyApprovals(t: Tables) { forall i | i in t.projections :: t.projections[i].decision.ApproveCreate? }

  lemma ApplyOneKeepsApprovals(t: Tables, item: ReviewedItem, previews: map<Id, PreviewResult>, ids: RowIds, ctx: Context)
    requires OnlyApprovals(t)
    ensures OnlyApprovals(ApplyOne(t, item, previews, ids, ctx).0)
  {
    hide Decide, DestinationFor, DigestOf, NewReceipt, FindingAfter;
    if Decide(t, item, previews, ctx).Proceed? {
      ProceedIsInScope(t, item, previews, ctx);
    }
  }

  lemma {:induction false} ApplyItemsKeepApprovals(
    t: Tables, items: seq<ReviewedItem>, previews: map<Id, PreviewResult>, ids: seq<RowIds>, ctx: Context)
    requires |ids| == |items| && OnlyApprovals(t)
    ensures OnlyApprovals(ApplyItems(t, items, previews, ids, ctx).0)
  {
    hide ApplyOne, OnlyApprovals;
    if items != [] {
      var last := |items| - 1;
      ApplyItemsKeepApprovals(t, items[..last], previews, ids[..last], ctx);
      ApplyOneKeepsApprovals(ApplyItems(t, items[..last], previews, ids[..last], ctx).0, items[last], previews, ids[last], ctx);
    }
  }

  lemma NextKeepsApprovals(t: Tables, step: Step, t': Tables)
    requires Coherent(t) && OnlyApprovals(t) && Next(t, step, t')
    ensures OnlyApprovals(t')
  {
    hide Coherent, HistoryGrows, ApplyItems, W.RevokeItems, Previews, FreshIds, SameIdentities;
    match step
    case Drift =>
    case ReviewManifest(items, ids, ctx, apply) =>
      if Commits(t, step) {
        ApplyItemsKeepApprovals(t, items, Previews(t, ctx).value, ids, ctx);
      }
    case RevocationManifest(items, ids, ctx, apply) =>
      if |ids| == |items| {
        RevokeItemsKeep(t, items, ids, ctx);
      }
  }

  lemma {:induction false} RunKeepsApprovals(states: seq<Tables>, steps: seq<Step>, n: nat)
    requires Run(states, steps) && Coherent(states[0]) && OnlyApprovals(states[0]) && n < |states|
    ensures Coherent(states[n]) && OnlyApprovals(states[n])
  {
    hide Coherent, HistoryGrows, Next, OnlyApprovals;
    RunIsSafe(states, steps, 0, n);
    if n > 0 {
      RunKeepsApprovals(states, steps, n - 1);
      NextKeepsApprovals(states[n - 1], steps[n - 1], states[n]);
    }
  }

  // ---- Where a projection's receipt comes from. ----

  /** An applied `approve_create` item bound `r` to identity `i`, about the observation the item pinned. */
  predicate BoundBy(t: Tables, t': Tables, item: ReviewedItem, o: Outcome, i: Id, r: Id) {
    && item.identityId == i && item.decision.ApproveCreate? && o.WouldApply? && o.receiptId == r
    && r !in t.receipts && r in t'.receipts && t'.receipts[r].observationId == item.currentObservationId
  }

  predicate BoundByManifest(t: Tables, t': Tables, items: seq<ReviewedItem>, outcomes: seq<Outcome>, i: Id, r: Id) {
    exists j :: 0 <= j < |items| && j < |outcomes| && BoundBy(t, t', items[j], outcomes[j], i, r)
  }

  predicate Points(t: Tables, i: Id, r: Id) { i in t.projections && t.projections[i].currentReceiptId == Some(r) }

  lemma PointerAfterOne(t: Tables, item: ReviewedItem, previews: map<Id, PreviewResult>, ids: RowIds, ctx: Context, i: Id, r: Id)
    requires ids.receipt !in t.receipts
    ensures var (t', o) := ApplyOne(t, item, previews, ids, ctx);
            Points(t', i, r) ==> Points(t, i, r) || BoundBy(t, t', item, o, i, r)
  {
    hide Decide, Written, DestinationFor;
    if Decide(t, item, previews, ctx).Proceed? {
      ProceedIsInScope(t, item, previews, ctx);
      WrittenShape(t, item, ids, ctx);
    }
  }

  lemma {:induction false} PointerAfterItems(
    t: Tables, items: seq<ReviewedItem>, previews: map<Id, PreviewResult>, ids: seq<RowIds>, ctx: Context, i: Id, r: Id)
    requires |ids| == |items| && FreshIds(t, ids) && Coherent(t)
    ensures var (t', outcomes) := ApplyItems(t, items, previews, ids, ctx);
            Points(t', i, r) ==> Points(t, i, r) || BoundByManifest(t, t', items, outcomes, i, r)
  {
    hide Coherent, ApplyOne, Points, RowsMatch, FreshIds, BoundBy;
    if items != [] {
      var last := |items| - 1;
      FreshPrefix(t, ids);
      PointerAfterItems(t, items[..last], previews, ids[..last], ctx, i, r);
      ManifestIsExact(t, items[..last], previews, ids[..last], ctx);
      var (before, outcomes) := ApplyItems(t, items[..last], previews, ids[..last], ctx);
      StillFresh(t, before, outcomes, ids);
      PointerAfterOne(before, items[last], previews, ids[last], ctx, i, r);
      OneItem(before, items[last], previews, ids[last], ctx);
      var (after, o) := ApplyOne(before, items[last], previews, ids[last], ctx);
      if BoundBy(before, after, items[last], o, i, r) {
        BoundEarlier(t, before, after, items[last], o, i, r);
        assert BoundBy(t, after, items[last], (outcomes + [o])[last], i, r);
      } else if BoundByManifest(t, before, items[..last], outcomes, i, r) {
        var j :| 0 <= j < last && j < |outcomes| && BoundBy(t, before, items[..last][j], outcomes[j], i, r);
        BoundLater(t, before, after, items[j], outcomes[j], i, r);
        assert BoundBy(t, after, items[j], (outcomes + [o])[j], i, r);
      }
    }
  }

  lemma BoundEarlier(t: Tables, before: Tables, after: Tables, item: ReviewedItem, o: Outcome, i: Id, r: Id)
    requires HistoryGrows(t, before) && BoundBy(before, after, item, o, i, r)
    ensures BoundBy(t, after, item, o, i, r)
  {
  }

  lemma BoundLater(t: Tables, before: Tables, after: Tables, item: ReviewedItem, o: Outcome, i: Id, r: Id)
    requires HistoryGrows(before, after) && BoundBy(t, before, item, o, i, r)
    ensures BoundBy(t, after, item, o, i, r)
  {
  }

  /** Step `n` of the run is a committed review manifest one of whose approvals bound `r`. */
  predicate BindsAt(states: seq<Tables>, steps: seq<Step>, n: nat, i: Id, r: Id)
    requires Run(states, steps) && n < |steps|
  {
    && steps[n].ReviewManifest? && Commits(states[n], steps[n])
    && BoundByManifest(states[n], states[n + 1], steps[n].items, Committed(states[n], steps[n]).1, i, r)
  }

  lemma PointerAfterStep(states: seq<Tables>, steps: seq<Step>, n: nat, i: Id, r: Id)
    requires Run(states, steps) && n < |steps| && Coherent(states[n]) && Points(states[n + 1], i, r)
    ensures Points(states[n], i, r) || BindsAt(states, steps, n, i, r)
  {
    hide Coherent, ApplyItems, W.RevokeItems, Previews, FreshIds, BoundByManifest, HistoryGrows;
    var t, step := states[n], steps[n];
    assert Next(t, step, states[n + 1]);
    match step
    case Drift =>
    case ReviewManifest(items, ids, ctx, apply) =>
      if Commits(t, step) {
        PointerAfterItems(t, items, Previews(t, ctx).value, ids, ctx, i, r);
      }
    case RevocationManifest(items, ids, ctx, apply) =>
      if |ids| == |items| {
        RevokeItemsKeep(t, items, ids, ctx);
      }
  }

  lemma {:induction false} FindBinding(states: seq<Tables>, steps: seq<Step>, k: nat, m: nat, i: Id, r: Id)
    returns (n: nat)
    requires Run(states, steps) && Coherent(states[0]) && k <= m < |states|
    requires Points(states[m], i, r) && !Points(states[k], i, r)
    ensures k <= n < m && BindsAt(states, steps, n, i, r)
    decreases m
  {
    hide Coherent, HistoryGrows, Next, BindsAt, Points;
    RunIsSafe(states, steps, k, m - 1);
    PointerAfterStep(states, steps, m - 1, i, r);
    if Points(states[m - 1], i, r) {
      n := FindBinding(states, steps, k, m - 1, i, r);
    } else {
      n := m - 1;
    }
  }

  // ---- No un-revoke. ----

  predicate GatePasses(t: Tables, i: Id, policy: L.Policy, ctx: Context) {
    && i in t.identities && PreviewOf(t, i, policy, ctx).Ok? && PreviewOf(t, i, policy, ctx).value.overall.Pass?
  }

  predicate ApprovedCreate(t: Tables, i: Id) { i in t.projections && t.projections[i].decision.ApproveCreate? }

  /** What a PASS says about the tables, whatever the machine evidence: the projection's own receipt is unrevoked. */
  lemma PassCitesLiveReceipt(t: Tables, i: Id, policy: L.Policy, ctx: Context) returns (r: Id)
    requires ApprovedCreate(t, i) && GatePasses(t, i, policy, ctx)
    ensures Points(t, i, r) && r in t.receipts && t.receipts[r].identityId == i && t.receipts[r].decision.ApproveCreate?
    ensures r !in t.revocations && t.projections[i].status.Active?
    ensures CurrentObservationId(t, i) == Some(t.receipts[r].observationId)
    ensures t.receipts[r].destinationId.Some? && t.receipts[r].findingId.Some?
    ensures t.projections[i].destinationId == t.receipts[r].destinationId
  {
    hide GateMeaning.EntityClear, GateMeaning.ScopeClear, GateMeaning.StarClear, GateMeaning.LocationClear;
    hide GateMeaning.NotClosed, EvaluatePreview, OfKind, CurrentObservationId, IsTop;
    var input := ComposeInput(t, i, policy);
    GateMeaning.PassMeansFullAuthorization(input, ctx.asOf, ctx.hashing.fingerprint);
    r := input.humanReview.value.receiptId;
    assert IsTop(t.receipts, CurrentObservationId(t, i), ReceiptsOf(t, i), r);
    TopIsARow(t, i, r);
  }

  lemma TopIsARow(t: Tables, i: Id, r: Id)
    requires IsTop(t.receipts, CurrentObservationId(t, i), ReceiptsOf(t, i), r)
    ensures r in t.receipts && t.receipts[r].identityId == i
  {
  }

  lemma RevokedStaysFrozen(t: Tables, t': Tables, r: Id)
    requires Coherent(t) && HistoryGrows(t, t') && r in t.revocations
    ensures r in t.receipts && r in t'.receipts && t'.receipts[r] == t.receipts[r]
    ensures r in t'.revocations && t'.revocations[r] == t.revocations[r]
    ensures t.receipts[r].identityId == t.revocations[r].identityId
  {
    hide ProjectionCoherent, IsTop;
  }

  /** Coherence ties a revoked receipt to its observation: a live receipt of the same identity is about another. */
  lemma LiveIsAnotherObservation(t: Tables, i: Id, r: Id, s: Id)
    requires Coherent(t) && r in t.revocations && r in t.receipts && t.revocations[r].identityId == i
    requires ApprovedCreate(t, i) && Points(t, i, s) && s !in t.revocations
    requires s in t.receipts && t.receipts[s].identityId == i && t.receipts[s].decision.ApproveCreate?
    ensures s != r && t.receipts[s].observationId != t.receipts[r].observationId
  {
  }

  /** What a pass in a coherent state says beside a revoked receipt of the same identity. */
  lemma PassIsAboutAnotherReceipt(t: Tables, i: Id, r: Id, policy: L.Policy, ctx: Context) returns (s: Id)
    requires Coherent(t) && r in t.revocations && r in t.receipts && t.revocations[r].identityId == i
    requires ApprovedCreate(t, i) && GatePasses(t, i, policy, ctx)
    ensures Points(t, i, s) && s in t.receipts && s != r && t.receipts[s].observationId != t.receipts[r].observationId
  {
    hide Coherent, GatePasses;
    s := PassCitesLiveReceipt(t, i, policy, ctx);
    LiveIsAnotherObservation(t, i, r, s);
  }

  /**
   Once receipt `r` of identity `i` is revoked, it and its revocation never change, and the gate
   passes for the identity's `approve_create` only on a different receipt about a different
   observation; if that receipt was not already current when we looked, a later step of the run
   is an approval that bound it.
   */
  lemma NoUnrevoke(
    states: seq<Tables>, steps: seq<Step>, k: nat, m: nat, i: Id, r: Id, policy: L.Policy, ctx: Context)
    requires Run(states, steps) && Coherent(states[0]) && k <= m < |states|
    requires r in states[k].revocations && states[k].revocations[r].identityId == i
    ensures r in states[k].receipts && r in states[m].receipts && states[m].receipts[r] == states[k].receipts[r]
    ensures r in states[m].revocations && states[m].revocations[r] == states[k].revocations[r]
    ensures ApprovedCreate(states[m], i) && GatePasses(states[m], i, policy, ctx) ==>
      exists s :: && Points(states[m], i, s) && s in states[m].receipts && s != r
                  && states[m].receipts[s].observationId != states[k].receipts[r].observationId
                  && (!Points(states[k], i, s) ==> exists n :: k <= n < m && BindsAt(states, steps, n, i, s))
  {
    hide Coherent, HistoryGrows, GatePasses, ApprovedCreate, Points, Next, BindsAt;
    RunIsSafe(states, steps, 0, k);
    RunIsSafe(states, steps, k, m);
    RevokedStaysFrozen(states[k], states[m], r);
    if ApprovedCreate(states[m], i) && GatePasses(states[m], i, policy, ctx) {
      var s := PassIsAboutAnotherReceipt(states[m], i, r, policy, ctx);
      if !Points(states[k], i, s) {
        var n := FindBinding(states, steps, k, m, i, s);
      }
    }
  }
}

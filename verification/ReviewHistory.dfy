/**
 Whole-run properties of the review protocol. Steps are evidence drift, review manifests and
 revocation manifests in any order; a committed manifest is one step and an abort is no step.
 */
module ReviewHistory {
  import opened Prelude
  import opened Gate
  import opened Review
  import opened GateMeaning
  import W = Withdrawal
  import L = Lifecycle
  import D = Dates

  // ---- The invariant. ----

  predicate OneReceiptPerObservation(t: Tables) {
    forall r, s | r in t.receipts && s in t.receipts
      && t.receipts[r].identityId == t.receipts[s].identityId
      && t.receipts[r].observationId == t.receipts[s].observationId :: r == s
  }

  predicate EventsCiteApprovals(t: Tables) {
    forall r | r in t.revocations ::
      r in t.receipts && t.receipts[r].decision.ApproveCreate? && t.revocations[r].identityId == t.receipts[r].identityId
  }

  /** The projection is the receipt it names, and is revoked exactly when that receipt is. */
  predicate ProjectionCoherent(t: Tables, i: Id)
    requires i in t.projections
  {
    var p := t.projections[i];
    && i in t.identities && p.source == t.identities[i].source && p.environment == t.identities[i].environment
    && p.currentReceiptId.Some? && p.currentReceiptId.value in t.receipts
    && var r := t.receipts[p.currentReceiptId.value];
       && r.identityId == i && r.decision.ApproveCreate? && r.destinationId.Some?
       && r.destinationId == p.destinationId && Some(r.runId) == p.decidedInRunId
       && (p.status.Revoked? <==> p.currentReceiptId.value in t.revocations)
  }

  predicate Coherent(t: Tables) {
    && OneReceiptPerObservation(t)
    && EventsCiteApprovals(t)
    && forall i | i in t.projections && t.projections[i].decision.ApproveCreate? :: ProjectionCoherent(t, i)
  }

  /** What a written item has established before its first write. */
  predicate Writable(t: Tables, item: ReviewedItem, ctx: Context) {
    && InScope(t, item.identityId, ctx.source, ctx.environment)
    && CurrentObservationId(t, item.identityId) == Some(item.currentObservationId)
    && t.identities[item.identityId].lastSeenRunId == item.currentSourceRunId
    && (item.decision.ApproveCreate? ==>
          && DestinationFor(t, item).Some?
          && (item.identityId in t.projections ==> t.projections[item.identityId].decision.ApproveCreate?))
    && (item.decision.Defer? ==> item.identityId !in t.projections)
    && forall r | r in t.receipts && t.receipts[r].identityId == item.identityId ::
         t.receipts[r].observationId != item.currentObservationId
  }

  lemma ProceedIsWritable(t: Tables, item: ReviewedItem, previews: map<Id, PreviewResult>, ctx: Context)
    requires Decide(t, item, previews, ctx).Proceed?
    ensures Writable(t, item, ctx)
  {
    hide GateMeaning.Ready, DigestOf, PinVerdict;
    ProceedIsInScope(t, item, previews, ctx);
    forall r | r in t.receipts && t.receipts[r].identityId == item.identityId
      ensures t.receipts[r].observationId != item.currentObservationId
    {
      assert r !in ReceiptsAbout(t, item.identityId, item.currentObservationId);
    }
  }

  /** What the invariant needs to know of a written receipt. */
  predicate IsReceiptOf(t: Tables, item: ReviewedItem, r: Receipt) {
    && r.identityId == item.identityId && r.observationId == item.currentObservationId
    && r.runId == item.currentSourceRunId && r.decision == item.decision && r.destinationId == DestinationFor(t, item)
  }

  lemma WrittenShape(t: Tables, item: ReviewedItem, ids: RowIds, ctx: Context)
    requires item.identityId in t.identities
    ensures var t', i := Written(t, item, ids, ctx), item.identityId;
      && t'.identities == t.identities && t'.revocations == t.revocations && t'.observations == t.observations
      && ids.receipt in t'.receipts && t'.receipts == t.receipts[ids.receipt := t'.receipts[ids.receipt]]
      && IsReceiptOf(t, item, t'.receipts[ids.receipt])
      && (item.decision.Defer? ==> t'.projections == t.projections)
      && (item.decision.ApproveCreate? ==>
            i in t'.projections && t'.projections == t.projections[i := t'.projections[i]]
            && t'.projections[i] == ProjectionAfter(t, item, ids, ctx))
  {
    hide DigestOf, DestinationFor, FindingAfter, ProjectionAfter;
  }

  lemma ReceiptKeepsHistory(t: Tables, t': Tables, item: ReviewedItem, id: Id)
    requires OneReceiptPerObservation(t) && EventsCiteApprovals(t) && t'.revocations == t.revocations
    requires id !in t.receipts && id in t'.receipts && t'.receipts == t.receipts[id := t'.receipts[id]]
    requires IsReceiptOf(t, item, t'.receipts[id])
    requires forall r | r in t.receipts && t.receipts[r].identityId == item.identityId ::
               t.receipts[r].observationId != item.currentObservationId
    ensures OneReceiptPerObservation(t') && EventsCiteApprovals(t')
  {
    hide DestinationFor;
  }

  lemma UntouchedProjection(t: Tables, t': Tables, id: Id, j: Id)
    requires j in t.projections && j in t'.projections && t'.projections[j] == t.projections[j]
    requires ProjectionCoherent(t, j) && t'.identities == t.identities && t'.revocations == t.revocations
    requires id !in t.receipts && id in t'.receipts && t'.receipts == t.receipts[id := t'.receipts[id]]
    ensures ProjectionCoherent(t', j)
  {
  }

  lemma AdvancedProjection(t: Tables, t': Tables, item: ReviewedItem, ids: RowIds, ctx: Context)
    requires item.identityId in t.identities && item.decision.ApproveCreate? && DestinationFor(t, item).Some?
    requires item.identityId in t.projections ==> ProjectionCoherent(t, item.identityId)
    requires item.identityId in t'.projections && t'.projections[item.identityId] == ProjectionAfter(t, item, ids, ctx)
    requires t'.identities == t.identities && t'.revocations == t.revocations
    requires ids.receipt in t'.receipts && IsReceiptOf(t, item, t'.receipts[ids.receipt])
    requires ids.receipt !in t.revocations
    ensures ProjectionCoherent(t', item.identityId)
  {
    hide DestinationFor;
  }

  lemma WrittenKeepsCoherent(t: Tables, item: ReviewedItem, ids: RowIds, ctx: Context)
    requires Coherent(t) && Writable(t, item, ctx) && ids.receipt !in t.receipts
    ensures Coherent(Written(t, item, ids, ctx))
  {
    hide Written, DestinationFor, CurrentObservationId, ProjectionCoherent, IsReceiptOf, ProjectionAfter;
    hide OneReceiptPerObservation;
    var t' := Written(t, item, ids, ctx);
    WrittenShape(t, item, ids, ctx);
    ReceiptKeepsHistory(t, t', item, ids.receipt);
    forall j | j in t'.projections && t'.projections[j].decision.ApproveCreate? ensures ProjectionCoherent(t', j) {
      if j == item.identityId && item.decision.ApproveCreate? {
        AdvancedProjection(t, t', item, ids, ctx);
      } else {
        UntouchedProjection(t, t', ids.receipt, j);
      }
    }
  }

  lemma ApplyKeepsCoherent(t: Tables, item: ReviewedItem, previews: map<Id, PreviewResult>, ids: RowIds, ctx: Context)
    requires Coherent(t) && ids.receipt !in t.receipts
    ensures Coherent(ApplyOne(t, item, previews, ids, ctx).0)
  {
    hide Decide, Coherent, Writable, Written;
    if Decide(t, item, previews, ctx).Proceed? {
      ProceedIsWritable(t, item, previews, ctx);
      ProceedIsInScope(t, item, previews, ctx);
      WrittenKeepsCoherent(t, item, ids, ctx);
    }
  }

  /** One more event, about the receipt the identity's projection names, and that projection revoked. */
  predicate Withdrawn(t: Tables, t': Tables, i: Id, r: Id) {
    && i in t.projections && r in t.receipts && r in t'.revocations
    && t'.receipts == t.receipts && t'.identities == t.identities
    && t'.projections == t.projections[i := t.projections[i].(status := Revoked)]
    && t'.revocations == t.revocations[r := t'.revocations[r]]
    && t.projections[i].decision.ApproveCreate? && t.projections[i].currentReceiptId == Some(r)
    && t.receipts[r].decision.ApproveCreate? && t.receipts[r].identityId == i == t'.revocations[r].identityId
  }

  lemma RulingWithdraws(t: Tables, item: W.RevocationItem, id: Id, ctx: Context)
    requires W.Decide(t, item, ctx).Withdraw?
    ensures Withdrawn(t, W.Written(t, item, id, ctx), item.identityId, item.expectedCurrentReceiptId)
  {
  }

  lemma WithdrawnKeepsCoherent(t: Tables, t': Tables, i: Id, r: Id)
    requires Coherent(t) && Withdrawn(t, t', i, r)
    ensures Coherent(t')
  {
    assert ProjectionCoherent(t, i);
    forall j | j in t'.projections && t'.projections[j].decision.ApproveCreate? ensures ProjectionCoherent(t', j) {
      assert ProjectionCoherent(t, j);
    }
  }

  lemma RevokeKeepsCoherent(t: Tables, item: W.RevocationItem, id: Id, ctx: Context)
    requires Coherent(t)
    ensures Coherent(W.RevokeOne(t, item, id, ctx).0)
  {
    hide Coherent, Withdrawn, W.Written, W.Decide;
    if W.Decide(t, item, ctx).Withdraw? {
      RulingWithdraws(t, item, id, ctx);
      WithdrawnKeepsCoherent(t, W.Written(t, item, id, ctx), item.identityId, item.expectedCurrentReceiptId);
    }
  }

  // ---- What every write keeps: history only grows. ----

  predicate Extends<K, V(==)>(m: map<K, V>, n: map<K, V>) { forall k | k in m :: k in n && n[k] == m[k] }

  predicate SameIdentities(t: Tables, t': Tables) {
    forall i | i in t.identities ::
      && i in t'.identities && t'.identities[i].source == t.identities[i].source
      && t'.identities[i].environment == t.identities[i].environment
      && t'.identities[i].sourcePropertyId == t.identities[i].sourcePropertyId
  }

  predicate HistoryGrows(t: Tables, t': Tables) {
    Extends(t.receipts, t'.receipts) && Extends(t.revocations, t'.revocations) && SameIdentities(t, t')
  }

  predicate FreshIds(t: Tables, ids: seq<RowIds>) {
    && (forall j | 0 <= j < |ids| :: ids[j].receipt !in t.receipts)
    && forall j, k | 0 <= j < k < |ids| :: ids[j].receipt != ids[k].receipt
  }

  function AppliedReceipts(outcomes: seq<Outcome>): set<Id> {
    set o | o in outcomes && o.WouldApply? :: o.receiptId
  }

  function CountApplied(outcomes: seq<Outcome>): nat {
    if outcomes == [] then 0
    else CountApplied(outcomes[..|outcomes| - 1]) + if outcomes[|outcomes| - 1].WouldApply? then 1 else 0
  }

  lemma AppliedReceiptsGrow(outcomes: seq<Outcome>, o: Outcome)
    ensures AppliedReceipts(outcomes + [o]) == AppliedReceipts(outcomes) + (if o.WouldApply? then {o.receiptId} else {})
  {
    forall r ensures r in AppliedReceipts(outcomes + [o]) <==> r in AppliedReceipts(outcomes) || (o.WouldApply? && r == o.receiptId) {
      if r in AppliedReceipts(outcomes) {
        var p :| p in outcomes && p.WouldApply? && p.receiptId == r;
        assert p in outcomes + [o];
      }
      assert o in outcomes + [o];
    }
  }

  /** New receipt rows and `would_apply` outcomes correspond one for one. */
  predicate RowsMatch(before: set<Id>, after: set<Id>, outcomes: seq<Outcome>, ids: seq<RowIds>) {
    && after == before + AppliedReceipts(outcomes) && |after| == |before| + CountApplied(outcomes)
    && AppliedReceipts(outcomes) <= Receipts(ids)
  }

  /** The written rows are exactly the applied items', and every older row is still there unchanged. */
  predicate WritesExactly(t: Tables, t': Tables, outcomes: seq<Outcome>, ids: seq<RowIds>) {
    && HistoryGrows(t, t') && t'.revocations == t.revocations
    && RowsMatch(t.receipts.Keys, t'.receipts.Keys, outcomes, ids)
    && (AppliedReceipts(outcomes) == {} ==> t' == t)
  }

  /** A manifest writes exactly its applied items, whatever the mix of refusals and replays around them. */
  lemma {:induction false} ManifestIsExact(
    t: Tables, items: seq<ReviewedItem>, previews: map<Id, PreviewResult>, ids: seq<RowIds>, ctx: Context)
    requires |ids| == |items| && Coherent(t) && FreshIds(t, ids)
    ensures var (t', outcomes) := ApplyItems(t, items, previews, ids, ctx);
            |outcomes| == |items| && Coherent(t') && WritesExactly(t, t', outcomes, ids)
  {
    hide Coherent, ApplyOne, WritesExactly, FreshIds;
    if items == [] {
      NothingWritten(t, ids);
    } else {
      var last := |items| - 1;
      FreshPrefix(t, ids);
      ManifestIsExact(t, items[..last], previews, ids[..last], ctx);
      var (before, outcomes) := ApplyItems(t, items[..last], previews, ids[..last], ctx);
      StillFresh(t, before, outcomes, ids);
      ApplyKeepsCoherent(before, items[last], previews, ids[last], ctx);
      OneMoreItem(t, before, items[last], previews, outcomes, ids, ctx);
    }
  }

  lemma NothingWritten(t: Tables, ids: seq<RowIds>)
    ensures WritesExactly(t, t, [], ids)
  {
    assert AppliedReceipts([]) == {};
  }

  lemma StillFresh(t: Tables, before: Tables, outcomes: seq<Outcome>, ids: seq<RowIds>)
    requires FreshIds(t, ids) && ids != [] && WritesExactly(t, before, outcomes, ids[..|ids| - 1])
    ensures ids[|ids| - 1].receipt !in before.receipts
  {
    hide HistoryGrows, AppliedReceipts, CountApplied;
    FreshPrefix(t, ids);
  }

  lemma OneMoreItem(
    t: Tables, before: Tables, item: ReviewedItem, previews: map<Id, PreviewResult>, outcomes: seq<Outcome>,
    ids: seq<RowIds>, ctx: Context)
    requires FreshIds(t, ids) && ids != [] && WritesExactly(t, before, outcomes, ids[..|ids| - 1])
    ensures var (after, o) := ApplyOne(before, item, previews, ids[|ids| - 1], ctx);
            WritesExactly(t, after, outcomes + [o], ids)
  {
    hide HistoryGrows, AppliedReceipts, ApplyOne, WritesExactly;
    var last := |ids| - 1;
    FreshPrefix(t, ids);
    StillFresh(t, before, outcomes, ids);
    OneItem(before, item, previews, ids[last], ctx);
    var (after, o) := ApplyOne(before, item, previews, ids[last], ctx);
    if o.WouldApply? {
      OneMoreWritten(t, before, after, outcomes, o, ids);
    } else {
      OneMoreSkipped(t, before, outcomes, o, ids);
    }
  }

  lemma OneMoreSkipped(t: Tables, before: Tables, outcomes: seq<Outcome>, o: Outcome, ids: seq<RowIds>)
    requires ids != [] && WritesExactly(t, before, outcomes, ids[..|ids| - 1]) && !o.WouldApply?
    ensures WritesExactly(t, before, outcomes + [o], ids)
  {
    hide HistoryGrows, AppliedReceipts, RowsMatch;
    OneMoreRow(t.receipts.Keys, before.receipts.Keys, before.receipts.Keys, outcomes, o, ids);
    AppliedReceiptsGrow(outcomes, o);
  }

  lemma OneMoreRow(prior: set<Id>, before: set<Id>, after: set<Id>, outcomes: seq<Outcome>, o: Outcome, ids: seq<RowIds>)
    requires ids != [] && RowsMatch(prior, before, outcomes, ids[..|ids| - 1])
    requires o.WouldApply? ==>
               o.receiptId == ids[|ids| - 1].receipt && o.receiptId !in before && after == before + {o.receiptId}
    requires !o.WouldApply? ==> after == before
    ensures RowsMatch(prior, after, outcomes + [o], ids)
  {
    hide AppliedReceipts, CountApplied, Receipts;
    PrefixReceipts(ids);
    AppliedReceiptsGrow(outcomes, o);
    CountAppliedGrows(outcomes, o);
  }

  lemma OneMoreWritten(t: Tables, before: Tables, after: Tables, outcomes: seq<Outcome>, o: Outcome, ids: seq<RowIds>)
    requires ids != [] && WritesExactly(t, before, outcomes, ids[..|ids| - 1])
    requires HistoryGrows(before, after) && after.revocations == before.revocations
    requires o.WouldApply? && o.receiptId == ids[|ids| - 1].receipt && o.receiptId !in before.receipts
    requires after.receipts.Keys == before.receipts.Keys + {o.receiptId}
    ensures WritesExactly(t, after, outcomes + [o], ids)
  {
    hide HistoryGrows, AppliedReceipts, RowsMatch;
    OneMoreRow(t.receipts.Keys, before.receipts.Keys, after.receipts.Keys, outcomes, o, ids);
    HistoryGrowsTransitive(t, before, after);
    AppliedReceiptsGrow(outcomes, o);
  }

  lemma CountAppliedGrows(outcomes: seq<Outcome>, o: Outcome)
    ensures CountApplied(outcomes + [o]) == CountApplied(outcomes) + if o.WouldApply? then 1 else 0
  {
    assert (outcomes + [o])[..|outcomes|] == outcomes;
  }

  function Receipts(ids: seq<RowIds>): set<Id> { set x | x in ids :: x.receipt }

  lemma PrefixReceipts(ids: seq<RowIds>)
    requires ids != []
    ensures Receipts(ids[..|ids| - 1]) <= Receipts(ids) && ids[|ids| - 1].receipt in Receipts(ids)
  {
    assert ids[|ids| - 1] in ids;
  }

  lemma FreshPrefix(t: Tables, ids: seq<RowIds>)
    requires FreshIds(t, ids) && ids != []
    ensures var last := |ids| - 1;
      && FreshIds(t, ids[..last])
      && ids[last].receipt !in t.receipts && ids[last].receipt !in Receipts(ids[..last])
  {
    var last := |ids| - 1;
    forall x | x in ids[..last] ensures x.receipt != ids[last].receipt { }
  }

  lemma HistoryGrowsReflexive(t: Tables)
    ensures HistoryGrows(t, t)
  {
  }

  lemma HistoryGrowsTransitive(a: Tables, b: Tables, c: Tables)
    requires HistoryGrows(a, b) && HistoryGrows(b, c)
    ensures HistoryGrows(a, c)
  {
  }

  lemma OneItem(t: Tables, item: ReviewedItem, previews: map<Id, PreviewResult>, ids: RowIds, ctx: Context)
    requires ids.receipt !in t.receipts
    ensures var (t', o) := ApplyOne(t, item, previews, ids, ctx);
      && HistoryGrows(t, t') && t'.revocations == t.revocations
      && (o.WouldApply? ==> o.receiptId == ids.receipt && t'.receipts.Keys == t.receipts.Keys + {ids.receipt})
      && (!o.WouldApply? ==> t' == t)
  {
    hide Decide, Written;
    if Decide(t, item, previews, ctx).Proceed? {
      ProceedIsInScope(t, item, previews, ctx);
      WrittenRows(t, item, ids, ctx);
    }
  }

  lemma InsertExtends<K, V>(m: map<K, V>, k: K, v: V)
    requires k !in m
    ensures Extends(m, m[k := v])
    ensures m[k := v].Keys == m.Keys + {k}
  {
  }

  lemma SelfExtends<K, V>(m: map<K, V>)
    ensures Extends(m, m)
  {
  }

  lemma WrittenRows(t: Tables, item: ReviewedItem, ids: RowIds, ctx: Context)
    requires ids.receipt !in t.receipts && item.identityId in t.identities
    ensures var t' := Written(t, item, ids, ctx);
      && HistoryGrows(t, t') && t'.revocations == t.revocations
      && t'.receipts.Keys == t.receipts.Keys + {ids.receipt}
  {
    hide NewReceipt, FindingAfter, ProjectionAfter, Extends;
    InsertExtends(t.receipts, ids.receipt, Written(t, item, ids, ctx).receipts[ids.receipt]);
    SelfExtends(t.revocations);
  }
}

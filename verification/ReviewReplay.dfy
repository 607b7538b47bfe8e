/**
 A manifest over distinct identities replays exactly: written items answer `already_applied`, every
 other item answers what it answered before, and nothing changes.
 (scripts/human-review/apply.ts)
 */
module ReviewReplay {
  import opened Prelude
  import opened Gate
  import opened Sequences
  import opened Review
  import opened ReviewHistory
  import opened ReviewRuns
  import G = GateMeaning
  import L = Lifecycle

  // ---- A decision reads one identity's slice of the tables. ----

  /** Tables no manifest ever writes. */
  predicate SameFixed(t: Tables, t': Tables) {
    && t'.identities == t.identities && t'.observations == t.observations && t'.destinationIds == t.destinationIds
    && t'.destinationSlugs == t.destinationSlugs && t'.hotels == t.hotels && t'.machine == t.machine
    && t'.policy == t.policy && t'.revocations == t.revocations
  }

  predicate SameAt<K, V(==)>(m: map<K, V>, n: map<K, V>, k: K) {
    (k in m <==> k in n) && (k in m ==> m[k] == n[k])
  }

  predicate SameReceiptsOf(t: Tables, t': Tables, i: Id) {
    && (forall r | r in t.receipts && t.receipts[r].identityId == i :: SameAt(t.receipts, t'.receipts, r))
    && (forall r | r in t'.receipts && t'.receipts[r].identityId == i :: SameAt(t.receipts, t'.receipts, r))
  }

  predicate SameSlice(t: Tables, t': Tables, i: Id) {
    && SameFixed(t, t') && SameAt(t.findings, t'.findings, i) && SameAt(t.projections, t'.projections, i)
    && SameReceiptsOf(t, t', i)
  }

  lemma SliceReceipts(t: Tables, t': Tables, i: Id, observationId: Id)
    requires SameReceiptsOf(t, t', i)
    ensures ReceiptsOf(t, i) == ReceiptsOf(t', i)
    ensures ReceiptsAbout(t, i, observationId) == ReceiptsAbout(t', i, observationId)
    ensures forall r | r in ReceiptsOf(t, i) :: r in t'.receipts && t'.receipts[r] == t.receipts[r]
  {
  }

  lemma SliceSelects(t: Tables, t': Tables, i: Id, current: Option<Id>)
    requires SameReceiptsOf(t, t', i)
    ensures SelectedReceipt(t, i, current) == SelectedReceipt(t', i, current)
  {
    SliceReceipts(t, t', i, "");
    var rows := ReceiptsOf(t, i);
    if rows != {} {
      var x := SelectedReceipt(t, i, current).value;
      var y := SelectedReceipt(t', i, current).value;
      forall z | z in rows && z != x ensures Outranks(t'.receipts, current, x, z) {
        assert Outranks(t.receipts, current, x, z);
      }
      assert IsTop(t'.receipts, current, rows, x);
      TopUnique(t'.receipts, current, rows);
    }
  }

  lemma SliceComposes(t: Tables, t': Tables, i: Id, policy: L.Policy)
    requires SameSlice(t, t', i) && i in t.identities
    ensures ComposeInput(t, i, policy) == ComposeInput(t', i, policy)
  {
    hide SelectedReceipt, SameReceiptsOf;
    var current := CurrentObservationId(t, i);
    SliceSelects(t, t', i, current);
    SliceReceipts(t, t', i, "");
    SelectedIsARow(t, i, current);
  }

  lemma SelectedIsARow(t: Tables, i: Id, current: Option<Id>)
    ensures SelectedReceipt(t, i, current).Some? ==> SelectedReceipt(t, i, current).value in ReceiptsOf(t, i)
  {
  }

  predicate SamePreviewAt(p: map<Id, PreviewResult>, q: map<Id, PreviewResult>, i: Id) { SameAt(p, q, i) }

  lemma SliceDecides(
    t: Tables, t': Tables, item: ReviewedItem, p: map<Id, PreviewResult>, q: map<Id, PreviewResult>,
    ctx: Context, ctx': Context)
    requires SameSlice(t, t', item.identityId) && SamePreviewAt(p, q, item.identityId)
    requires ctx' == ctx.(now := ctx'.now)
    ensures Decide(t, item, p, ctx) == Decide(t', item, q, ctx')
  {
    SlicePins(t, t', item, ctx, ctx');
    SliceHistory(t, t', item, ctx, ctx');
    SliceReady(t, t', item, p, q, ctx);
    hide PinVerdict, HistoryVerdict, ReadyVerdict;
  }

  lemma SlicePins(t: Tables, t': Tables, item: ReviewedItem, ctx: Context, ctx': Context)
    requires SameFixed(t, t') && ctx' == ctx.(now := ctx'.now)
    ensures PinVerdict(t, item, ctx) == PinVerdict(t', item, ctx')
    ensures DigestOf(t, item, ctx) == DigestOf(t', item, ctx')
  {
  }

  lemma SliceHistory(t: Tables, t': Tables, item: ReviewedItem, ctx: Context, ctx': Context)
    requires SameSlice(t, t', item.identityId) && ctx' == ctx.(now := ctx'.now)
    ensures HistoryVerdict(t, item, ctx) == HistoryVerdict(t', item, ctx')
  {
    hide FirstRow, DigestOf, SameReceiptsOf;
    SlicePins(t, t', item, ctx, ctx');
    SliceReceipts(t, t', item.identityId, item.currentObservationId);
    FirstRowIsARow(ReceiptsAbout(t, item.identityId, item.currentObservationId));
    forall r | r in ReceiptsAbout(t, item.identityId, item.currentObservationId) ensures r in ReceiptsOf(t, item.identityId) { }
    SliceRevoked(t, t', item);
  }

  lemma FirstRowIsARow(ids: set<Id>)
    ensures FirstRow(ids).Some? ==> FirstRow(ids).value in ids
  {
  }

  lemma SliceRevoked(t: Tables, t': Tables, item: ReviewedItem)
    requires SameSlice(t, t', item.identityId)
    ensures StillRevoked(t, item) == StillRevoked(t', item)
  {
  }

  lemma SliceReady(
    t: Tables, t': Tables, item: ReviewedItem, p: map<Id, PreviewResult>, q: map<Id, PreviewResult>, ctx: Context)
    requires SameSlice(t, t', item.identityId) && SamePreviewAt(p, q, item.identityId)
    ensures ReadyVerdict(t, item, p) == ReadyVerdict(t', item, q)
  {
    hide G.Ready;
  }

  lemma SlicePreviews(t: Tables, t': Tables, i: Id, ctx: Context, ctx': Context)
    requires SameSlice(t, t', i) && ctx' == ctx.(now := ctx'.now)
    requires Previews(t, ctx).Ok? && Previews(t', ctx').Ok?
    ensures SamePreviewAt(Previews(t, ctx).value, Previews(t', ctx').value, i)
  {
    hide SameSlice, EvaluatePreview, ComposeInput;
    assert SameFixed(t, t') by { FixedOfSlice(t, t', i); }
    if i in t.identities {
      SliceComposes(t, t', i, t.policy.value);
    }
  }

  lemma FixedOfSlice(t: Tables, t': Tables, i: Id)
    requires SameSlice(t, t', i)
    ensures SameFixed(t, t')
  {
  }

  lemma SliceTransitive(a: Tables, b: Tables, c: Tables, i: Id)
    requires SameSlice(a, b, i) && SameSlice(b, c, i)
    ensures SameSlice(a, c, i)
  {
  }

  lemma SliceReflexive(t: Tables, i: Id)
    ensures SameSlice(t, t, i)
  {
  }

  // ---- An item touches only its own identity. ----

  lemma OneItemIsLocal(t: Tables, item: ReviewedItem, previews: map<Id, PreviewResult>, ids: RowIds, ctx: Context, i: Id)
    requires ids.receipt !in t.receipts && i != item.identityId
    ensures SameSlice(t, ApplyOne(t, item, previews, ids, ctx).0, i)
  {
    hide Decide, NewReceipt, FindingAfter, ProjectionAfter;
    if Decide(t, item, previews, ctx).Proceed? {
      ProceedIsInScope(t, item, previews, ctx);
      ReceiptBelongsToItem(t, item, ctx, Some(FindingAfter(t, item, ids).id));
      ReceiptBelongsToItem(t, item, ctx, None);
    }
  }

  lemma ReceiptBelongsToItem(t: Tables, item: ReviewedItem, ctx: Context, findingId: Option<Id>)
    requires item.identityId in t.identities
    ensures NewReceipt(t, item, ctx, findingId).identityId == item.identityId
  {
  }

  function StateAt(
    t: Tables, items: seq<ReviewedItem>, previews: map<Id, PreviewResult>, ids: seq<RowIds>, ctx: Context, n: nat): Tables
    requires |ids| == |items| && n <= |items|
  {
    ApplyItems(t, items[..n], previews, ids[..n], ctx).0
  }

  lemma {:induction false} StateStep(
    t: Tables, items: seq<ReviewedItem>, previews: map<Id, PreviewResult>, ids: seq<RowIds>, ctx: Context, n: nat)
    requires |ids| == |items| && n < |items| && Coherent(t) && FreshIds(t, ids)
    ensures StateAt(t, items, previews, ids, ctx, n + 1)
         == ApplyOne(StateAt(t, items, previews, ids, ctx, n), items[n], previews, ids[n], ctx).0
    ensures ids[n].receipt !in StateAt(t, items, previews, ids, ctx, n).receipts
  {
    hide ApplyOne, Coherent, RowsMatch, HistoryGrows;
    assert items[..n + 1][..n] == items[..n] && ids[..n + 1][..n] == ids[..n];
    FreshTake(t, ids, n);
    FreshTake(t, ids, n + 1);
    ManifestIsExact(t, items[..n], previews, ids[..n], ctx);
    var (before, outcomes) := ApplyItems(t, items[..n], previews, ids[..n], ctx);
    StillFresh(t, before, outcomes, ids[..n + 1]);
  }

  lemma FreshTake(t: Tables, ids: seq<RowIds>, n: nat)
    requires FreshIds(t, ids) && n <= |ids|
    ensures FreshIds(t, ids[..n])
  {
  }

  lemma {:induction false} Untouched(
    t: Tables, items: seq<ReviewedItem>, previews: map<Id, PreviewResult>, ids: seq<RowIds>, ctx: Context,
    a: nat, b: nat, i: Id)
    requires |ids| == |items| && a <= b <= |items| && Coherent(t) && FreshIds(t, ids)
    requires forall j | a <= j < b :: items[j].identityId != i
    ensures SameSlice(StateAt(t, items, previews, ids, ctx, a), StateAt(t, items, previews, ids, ctx, b), i)
    decreases b
  {
    hide SameSlice, StateAt, ApplyOne, Coherent, FreshIds;
    if a == b {
      SliceReflexive(StateAt(t, items, previews, ids, ctx, a), i);
    } else {
      Untouched(t, items, previews, ids, ctx, a, b - 1, i);
      StateStep(t, items, previews, ids, ctx, b - 1);
      var before := StateAt(t, items, previews, ids, ctx, b - 1);
      OneItemIsLocal(before, items[b - 1], previews, ids[b - 1], ctx, i);
      SliceTransitive(StateAt(t, items, previews, ids, ctx, a), before, StateAt(t, items, previews, ids, ctx, b), i);
    }
  }

  // ---- Replay of one item on the state it left. ----

  lemma WrittenForReplay(t: Tables, item: ReviewedItem, ids: RowIds, ctx: Context)
    requires item.identityId in t.identities
    ensures var t' := Written(t, item, ids, ctx);
      && SameFixed(t, t') && ids.receipt in t'.receipts
      && t'.receipts == t.receipts[ids.receipt := t'.receipts[ids.receipt]]
      && t'.receipts[ids.receipt].identityId == item.identityId
      && t'.receipts[ids.receipt].observationId == item.currentObservationId
      && t'.receipts[ids.receipt].digest == DigestOf(t, item, ctx)
      && (item.decision.ApproveCreate? ==>
            item.identityId in t'.projections && t'.projections[item.identityId].status.Active?)
  {
    hide DigestOf, DestinationFor, FindingAfter;
  }

  lemma OnlyReceiptAbout(t: Tables, t': Tables, item: ReviewedItem, id: Id)
    requires id !in t.receipts && id in t'.receipts && t'.receipts == t.receipts[id := t'.receipts[id]]
    requires t'.receipts[id].identityId == item.identityId && t'.receipts[id].observationId == item.currentObservationId
    requires forall r | r in t.receipts && t.receipts[r].identityId == item.identityId ::
               t.receipts[r].observationId != item.currentObservationId
    ensures ReceiptsAbout(t', item.identityId, item.currentObservationId) == {id}
  {
  }

  lemma ReplayOfWritten(
    t: Tables, item: ReviewedItem, previews: map<Id, PreviewResult>, q: map<Id, PreviewResult>,
    ids: RowIds, ctx: Context, ctx': Context)
    requires Decide(t, item, previews, ctx).Proceed? && ids.receipt !in t.receipts && ctx' == ctx.(now := ctx'.now)
    ensures Decide(ApplyOne(t, item, previews, ids, ctx).0, item, q, ctx') == Already(ids.receipt)
  {
    hide ReadyVerdict, DigestOf, Written, FirstRow, SameFixed, HistoryVerdict, PinVerdict;
    PinsProceed(t, item, previews, ctx);
    ProceedIsInScope(t, item, previews, ctx);
    ProceedIsWritable(t, item, previews, ctx);
    var t' := Written(t, item, ids, ctx);
    WrittenForReplay(t, item, ids, ctx);
    SlicePins(t, t', item, ctx, ctx');
    OnlyReceiptAbout(t, t', item, ids.receipt);
    ReplayHistory(t', item, ids.receipt, ctx');
  }

  lemma PinsProceed(t: Tables, item: ReviewedItem, previews: map<Id, PreviewResult>, ctx: Context)
    requires Decide(t, item, previews, ctx).Proceed?
    ensures PinVerdict(t, item, ctx).Proceed?
  {
    hide PinVerdict, HistoryVerdict, ReadyVerdict;
  }

  lemma ReplayHistory(t: Tables, item: ReviewedItem, id: Id, ctx: Context)
    requires ReceiptsAbout(t, item.identityId, item.currentObservationId) == {id}
    requires id in t.receipts && t.receipts[id].digest == DigestOf(t, item, ctx)
    requires item.decision.ApproveCreate? ==>
               item.identityId in t.projections && t.projections[item.identityId].status.Active?
    ensures HistoryVerdict(t, item, ctx) == Already(id)
  {
    hide DigestOf, FirstRow;
    FirstRowIsARow({id});
    assert FirstRow({id}).Some? by { FirstRowOfNonEmpty({id}); }
  }

  lemma FirstRowOfNonEmpty(ids: set<Id>)
    requires ids != {}
    ensures FirstRow(ids).Some?
  {
  }

  /** What a replay answers for an item that answered `o`. */
  function Settled(o: Outcome): Outcome {
    if o.WouldApply? then AlreadyApplied(o.identityId, o.sourcePropertyId, o.receiptId) else o
  }

  predicate DistinctIdentities(items: seq<ReviewedItem>) {
    forall a, b | 0 <= a < b < |items| :: items[a].identityId != items[b].identityId
  }

  lemma {:induction false} OutcomeAt(
    t: Tables, items: seq<ReviewedItem>, previews: map<Id, PreviewResult>, ids: seq<RowIds>, ctx: Context, j: nat)
    requires |ids| == |items| && j < |items|
    ensures |ApplyItems(t, items, previews, ids, ctx).1| == |items|
    ensures ApplyItems(t, items, previews, ids, ctx).1[j]
         == ApplyOne(StateAt(t, items, previews, ids, ctx, j), items[j], previews, ids[j], ctx).1
    decreases |items|
  {
    hide ApplyOne;
    var last := |items| - 1;
    if j < last {
      OutcomeAt(t, items[..last], previews, ids[..last], ctx, j);
      assert items[..last][..j] == items[..j] && ids[..last][..j] == ids[..j];
    } else if last > 0 {
      OutcomeAt(t, items[..last], previews, ids[..last], ctx, 0);
    }
  }

  lemma ReplayDecides(
    t: Tables, before: Tables, t1: Tables, item: ReviewedItem, p: map<Id, PreviewResult>, q: map<Id, PreviewResult>,
    ids: RowIds, id: RowIds, ctx: Context, ctx': Context)
    requires ctx' == ctx.(now := ctx'.now) && ids.receipt !in before.receipts
    requires Previews(t, ctx) == Ok(p) && Previews(t1, ctx') == Ok(q)
    requires SameSlice(t, before, item.identityId)
    requires SameSlice(ApplyOne(before, item, p, ids, ctx).0, t1, item.identityId)
    ensures ApplyOne(t1, item, q, id, ctx') == (t1, Settled(ApplyOne(before, item, p, ids, ctx).1))
  {
    hide Decide, Previews, SameSlice, Written;
    var i, after := item.identityId, ApplyOne(before, item, p, ids, ctx).0;
    if Decide(before, item, p, ctx).Proceed? {
      ReplayOfWritten(before, item, p, q, ids, ctx, ctx');
      SliceDecides(after, t1, item, q, q, ctx', ctx');
    } else {
      SliceTransitive(t, before, t1, i);
      SlicePreviews(t, t1, i, ctx, ctx');
      SliceDecides(before, t1, item, p, q, ctx, ctx');
    }
  }

  lemma ReplayAt(
    t: Tables, items: seq<ReviewedItem>, ids: seq<RowIds>, ctx: Context, ctx': Context, j: nat, id: RowIds,
    t1: Tables, outcomes: seq<Outcome>, p: map<Id, PreviewResult>, q: map<Id, PreviewResult>)
    requires |ids| == |items| == |outcomes| && j < |items|
    requires Coherent(t) && FreshIds(t, ids) && DistinctIdentities(items) && ctx' == ctx.(now := ctx'.now)
    requires Previews(t, ctx) == Ok(p) && Previews(t1, ctx') == Ok(q) && ApplyItems(t, items, p, ids, ctx) == (t1, outcomes)
    ensures ApplyOne(t1, items[j], q, id, ctx') == (t1, Settled(outcomes[j]))
  {
    hide Coherent, FreshIds, ApplyOne, Previews, SameSlice, ApplyItems, Settled;
    var i := items[j].identityId;
    StateEnds(t, items, p, ids, ctx);
    Untouched(t, items, p, ids, ctx, 0, j, i);
    Untouched(t, items, p, ids, ctx, j + 1, |items|, i);
    StateStep(t, items, p, ids, ctx, j);
    OutcomeAt(t, items, p, ids, ctx, j);
    hide StateAt;
    ReplayDecides(t, StateAt(t, items, p, ids, ctx, j), t1, items[j], p, q, ids[j], id, ctx, ctx');
  }

  lemma StateEnds(t: Tables, items: seq<ReviewedItem>, p: map<Id, PreviewResult>, ids: seq<RowIds>, ctx: Context)
    requires |ids| == |items|
    ensures StateAt(t, items, p, ids, ctx, 0) == t
    ensures StateAt(t, items, p, ids, ctx, |items|) == ApplyItems(t, items, p, ids, ctx).0
  {
    assert items[..|items|] == items && ids[..|ids|] == ids && items[..0] == [] && ids[..0] == [];
  }

  lemma {:induction false} ReplayPrefix(
    t: Tables, items: seq<ReviewedItem>, ids: seq<RowIds>, ids': seq<RowIds>, ctx: Context, ctx': Context, n: nat,
    t1: Tables, outcomes: seq<Outcome>, p: map<Id, PreviewResult>, q: map<Id, PreviewResult>)
    requires |ids| == |items| == |ids'| == |outcomes| && n <= |items|
    requires Coherent(t) && FreshIds(t, ids) && DistinctIdentities(items) && ctx' == ctx.(now := ctx'.now)
    requires Previews(t, ctx) == Ok(p) && Previews(t1, ctx') == Ok(q) && ApplyItems(t, items, p, ids, ctx) == (t1, outcomes)
    ensures ApplyItems(t1, items[..n], q, ids'[..n], ctx') == (t1, Map(Settled, outcomes[..n]))
  {
    hide Coherent, FreshIds, Previews, ApplyOne, Settled;
    if n > 0 {
      ReplayPrefix(t, items, ids, ids', ctx, ctx', n - 1, t1, outcomes, p, q);
      assert items[..n][..n - 1] == items[..n - 1] && ids'[..n][..n - 1] == ids'[..n - 1];
      ReplayAt(t, items, ids, ctx, ctx', n - 1, ids'[n - 1], t1, outcomes, p, q);
      assert Map(Settled, outcomes[..n]) == Map(Settled, outcomes[..n - 1]) + [Settled(outcomes[n - 1])];
    }
  }

  lemma {:induction false} ItemsKeepFixed(
    t: Tables, items: seq<ReviewedItem>, p: map<Id, PreviewResult>, ids: seq<RowIds>, ctx: Context)
    requires |ids| == |items|
    ensures SameFixed(t, ApplyItems(t, items, p, ids, ctx).0) && |ApplyItems(t, items, p, ids, ctx).1| == |items|
  {
    hide ApplyOne;
    if items != [] {
      var last := |items| - 1;
      ItemsKeepFixed(t, items[..last], p, ids[..last], ctx);
      OneItemKeepsFixed(ApplyItems(t, items[..last], p, ids[..last], ctx).0, items[last], p, ids[last], ctx);
    }
  }

  lemma OneItemKeepsFixed(t: Tables, item: ReviewedItem, p: map<Id, PreviewResult>, ids: RowIds, ctx: Context)
    ensures SameFixed(t, ApplyOne(t, item, p, ids, ctx).0)
  {
    hide Decide, NewReceipt, FindingAfter, ProjectionAfter;
    if Decide(t, item, p, ctx).Proceed? {
      ProceedIsInScope(t, item, p, ctx);
    }
  }

  lemma PreviewsStillOk(t: Tables, t1: Tables, ctx: Context, ctx': Context)
    requires SameFixed(t, t1) && Previews(t, ctx).Ok? && ctx' == ctx.(now := ctx'.now)
    ensures Previews(t1, ctx').Ok?
  {
    hide EvaluatePreview, ComposeInput;
  }

  /**
   A manifest over distinct identities, replayed at once (only the clock moved, new row ids on
   offer), answers `already_applied` for everything it wrote, the same refusal for everything it
   refused, and changes nothing.
   */
  lemma ManifestReplays(
    t: Tables, items: seq<ReviewedItem>, ids: seq<RowIds>, ids': seq<RowIds>, ctx: Context, ctx': Context)
    requires |ids| == |items| == |ids'| && Coherent(t) && FreshIds(t, ids) && DistinctIdentities(items)
    requires Previews(t, ctx).Ok? && ctx' == ctx.(now := ctx'.now)
    ensures var (t1, outcomes) := ApplyItems(t, items, Previews(t, ctx).value, ids, ctx);
            Previews(t1, ctx').Ok?
            && ApplyItems(t1, items, Previews(t1, ctx').value, ids', ctx') == (t1, Map(Settled, outcomes))
  {
    hide Coherent, FreshIds, Previews, ApplyItems, Settled, SameFixed, DistinctIdentities;
    var p := Previews(t, ctx).value;
    var (t1, outcomes) := ApplyItems(t, items, p, ids, ctx);
    ItemsKeepFixed(t, items, p, ids, ctx);
    PreviewsStillOk(t, t1, ctx, ctx');
    ReplayPrefix(t, items, ids, ids', ctx, ctx', |items|, t1, outcomes, p, Previews(t1, ctx').value);
    assert items[..|items|] == items && ids'[..|items|] == ids' && outcomes[..|items|] == outcomes;
  }
}

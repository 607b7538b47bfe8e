/**
 What an applied `approve_create` achieves: the gate passes on the state it leaves behind exactly
 when no canonical hotel had already been accepted for the identity.
 (scripts/human-review/apply.ts, scripts/prepublication-preview/evaluate.ts)
 */
module ApprovalEffect {
  import opened Prelude
  import opened Sequences
  import opened Gate
  import opened Review
  import opened ReviewHistory
  import opened ReviewRuns
  import G = GateMeaning
  import D = Dates
  import L = Lifecycle

  /** The keys 0030 and the catalogue give: `new_property` rows live in `findings`, slugs resolve both ways. */
  predicate Catalogued(t: Tables, i: Id, destinationId: Id) {
    && (forall c | c in MachineOf(t, i).otherAccepted :: !c.kind.NewProperty?)
    && destinationId in t.destinationSlugs && destinationId != ""
  }

  predicate HotelAccepted(t: Tables, i: Id) { exists c | c in MachineOf(t, i).otherAccepted :: c.kind.CanonicalHotel? }

  /** The machine half of the gate's input is the same before and after a write. */
  lemma MachineInputKept(t: Tables, item: ReviewedItem, ids: RowIds, ctx: Context, policy: L.Policy)
    requires item.identityId in t.identities
    ensures var a, b := ComposeInput(t, item.identityId, policy), ComposeInput(Written(t, item, ids, ctx), item.identityId, policy);
      && b.identity == a.identity && b.scope == a.scope && b.star == a.star && b.location == a.location
      && b.snapshot == a.snapshot && b.policy == a.policy
      && b.entity.synchronized == a.entity.synchronized && b.entity.currentAnomalyReasons == a.entity.currentAnomalyReasons
  {
    hide DigestOf, SelectedReceipt, FindingAfter, ProjectionAfter, NewReceipt;
  }

  lemma EntityAfter(t: Tables, item: ReviewedItem, ids: RowIds, ctx: Context)
    requires item.identityId in t.identities && item.decision.ApproveCreate?
    requires item.identityId in t.findings ==> t.findings[item.identityId].status.FindingAccepted?
    ensures var e, i := EntityOf(Written(t, item, ids, ctx), item.identityId), item.identityId;
      && e.acceptedCandidates == MachineOf(t, i).otherAccepted + [FindingView(i, FindingAfter(t, item, ids))]
      && e.pendingCandidateIds == MachineOf(t, i).otherPending == EntityOf(t, i).pendingCandidateIds
      && (EntityOf(t, i).acceptedCandidates == MachineOf(t, i).otherAccepted
          || EntityOf(t, i).acceptedCandidates == e.acceptedCandidates)
  {
    hide DigestOf, NewReceipt, ProjectionAfter, FindingView;
  }

  lemma ContradictionAfter(others: seq<CandidateView>, finding: CandidateView, before: seq<CandidateView>)
    requires finding.kind.NewProperty? && !G.Contradicts(before)
    requires before == others || before == others + [finding]
    ensures G.Contradicts(others + [finding]) <==> exists c | c in others :: c.kind.CanonicalHotel?
  {
    assert finding in others + [finding];
    forall c | c in others ensures c in others + [finding] && c in before { }
  }

  lemma {:induction false} NoneOfKind(others: seq<CandidateView>)
    requires forall c | c in others :: !c.kind.NewProperty?
    ensures OfKind(NewProperty, others) == []
  {
    if others != [] {
      assert others[0] in others && forall c | c in others[1..] :: c in others;
      NoneOfKind(others[1..]);
    }
  }

  lemma OneFindingAfter(others: seq<CandidateView>, finding: CandidateView)
    requires finding.kind.NewProperty? && forall c | c in others :: !c.kind.NewProperty?
    ensures |OfKind(NewProperty, others + [finding])| == 1
  {
    NoneOfKind(others);
    FilterAppend((c: CandidateView) => c.kind == NewProperty, others, [finding]);
  }

  /** The receipt just written is about the current observation, so the loader selects it. */
  lemma WrittenReceiptSelected(t: Tables, item: ReviewedItem, ids: RowIds, ctx: Context)
    requires Writable(t, item, ctx) && ids.receipt !in t.receipts
    ensures SelectedReceipt(Written(t, item, ids, ctx), item.identityId, Some(item.currentObservationId)) == Some(ids.receipt)
  {
    hide Written, DestinationFor, CurrentObservationId, SelectedReceipt;
    var t', i, current := Written(t, item, ids, ctx), item.identityId, Some(item.currentObservationId);
    WrittenShape(t, item, ids, ctx);
    var rows := ReceiptsOf(t', i);
    forall y | y in rows && y != ids.receipt ensures Outranks(t'.receipts, current, ids.receipt, y) {
      assert y in t.receipts && t.receipts[y].identityId == i;
    }
    assert IsTop(t'.receipts, current, rows, ids.receipt);
    TopUnique(t'.receipts, current, rows);
    SelectionIsTop(t', i, current);
  }

  lemma SelectionIsTop(t: Tables, i: Id, current: Option<Id>)
    ensures ReceiptsOf(t, i) != {} ==>
      SelectedReceipt(t, i, current).Some? && IsTop(t.receipts, current, ReceiptsOf(t, i), SelectedReceipt(t, i, current).value)
  {
  }

  lemma WrittenContents(t: Tables, item: ReviewedItem, ids: RowIds, ctx: Context)
    requires item.identityId in t.identities && item.decision.ApproveCreate?
    ensures var t', i := Written(t, item, ids, ctx), item.identityId;
      && t'.revocations == t.revocations && t'.destinationSlugs == t.destinationSlugs
      && ids.receipt in t'.receipts && i in t'.projections
      && t'.receipts[ids.receipt].decision.ApproveCreate?
      && t'.receipts[ids.receipt].observationId == item.currentObservationId
      && t'.receipts[ids.receipt].destinationId == DestinationFor(t, item)
      && t'.receipts[ids.receipt].findingId == Some(FindingAfter(t, item, ids).id)
      && t'.projections[i].decision.ApproveCreate? && t'.projections[i].status.Active?
      && t'.projections[i].currentReceiptId == Some(ids.receipt)
      && t'.projections[i].destinationId == DestinationFor(t, item)
  {
    hide DigestOf, DestinationFor, FindingAfter;
  }

  /** The human half of the conjunction is complete after the write. */
  lemma AuthorizedAfter(t: Tables, item: ReviewedItem, ids: RowIds, ctx: Context, policy: L.Policy)
    requires Coherent(t) && Writable(t, item, ctx) && ids.receipt !in t.receipts && item.decision.ApproveCreate?
    requires item.identityId in t.findings ==> t.findings[item.identityId].status.FindingAccepted?
    requires DestinationFor(t, item).Some? && Catalogued(t, item.identityId, DestinationFor(t, item).value)
    ensures var input := ComposeInput(Written(t, item, ids, ctx), item.identityId, policy);
            && input.review.Some? && input.review.value.decision.ApproveCreate? && G.HumanAuthorization(input)
  {
    hide Written, DestinationFor, SelectedReceipt, CurrentObservationId, FindingAfter, EntityOf, ReceiptsAbout;
    hide OneReceiptPerObservation, ProjectionCoherent, MachineOf;
    var t', i := Written(t, item, ids, ctx), item.identityId;
    WrittenContents(t, item, ids, ctx);
    WrittenReceiptSelected(t, item, ids, ctx);
    EntityAfter(t, item, ids, ctx);
    CurrentKept(t, item, ids, ctx);
    assert ids.receipt !in t'.revocations;
    var accepted := EntityOf(t', i).acceptedCandidates;
    assert accepted[|accepted| - 1] == FindingView(i, FindingAfter(t, item, ids));
    assert FindingView(i, FindingAfter(t, item, ids)) in accepted;
  }

  lemma CurrentKept(t: Tables, item: ReviewedItem, ids: RowIds, ctx: Context)
    requires item.identityId in t.identities
    ensures CurrentObservationId(Written(t, item, ids, ctx), item.identityId) == CurrentObservationId(t, item.identityId)
    ensures item.identityId in Written(t, item, ids, ctx).identities
  {
    hide DigestOf, FindingAfter, ProjectionAfter, NewReceipt;
  }

  /** A written approval went through readiness, so the machine half held before the write. */
  lemma ProceedWasReady(t: Tables, item: ReviewedItem, ctx: Context)
    requires Previews(t, ctx).Ok? && Decide(t, item, Previews(t, ctx).value, ctx).Proceed? && item.decision.ApproveCreate?
    ensures t.policy.Some? && item.identityId in t.identities && PreviewOf(t, item.identityId, t.policy.value, ctx).Ok?
    ensures G.Ready(PreviewOf(t, item.identityId, t.policy.value, ctx).value.conditions)
    ensures item.identityId in t.findings ==> t.findings[item.identityId].status.FindingAccepted?
  {
    hide G.Ready, EvaluatePreview, ComposeInput, PinVerdict, HistoryVerdict, FirstRow;
    ProceedIsInScope(t, item, Previews(t, ctx).value, ctx);
  }

  /**
   An approval the manifest path writes makes the gate pass at once, unless a canonical hotel had
   also been accepted for the identity: readiness does not ask about that, and the gate then holds.
   */
  lemma ApprovalPassesIff(t: Tables, item: ReviewedItem, ids: RowIds, ctx: Context)
    requires Coherent(t) && ids.receipt !in t.receipts && item.decision.ApproveCreate?
    requires Previews(t, ctx).Ok? && Decide(t, item, Previews(t, ctx).value, ctx).Proceed?
    requires DestinationFor(t, item).Some? && Catalogued(t, item.identityId, DestinationFor(t, item).value)
    ensures var (t', o) := ApplyOne(t, item, Previews(t, ctx).value, ids, ctx);
            t.policy.Some? && (GatePasses(t', item.identityId, t.policy.value, ctx) <==> !HotelAccepted(t, item.identityId))
  {
    hide Decide, Previews, Written, ComposeInput, EvaluatePreview, DestinationFor, Coherent, FindingAfter, EntityOf;
    hide G.HumanAuthorization, G.ScopeClear, G.StarClear, G.LocationClear, G.NotClosed, G.Ready, G.Contradicts, OfKind;
    var i := item.identityId;
    ProceedIsWritable(t, item, Previews(t, ctx).value, ctx);
    ProceedIsInScope(t, item, Previews(t, ctx).value, ctx);
    ProceedWasReady(t, item, ctx);
    var policy, t' := t.policy.value, Written(t, item, ids, ctx);
    CurrentKept(t, item, ids, ctx);
    var before, after := ComposeInput(t, i, policy), ComposeInput(t', i, policy);
    MachineInputKept(t, item, ids, ctx, policy);
    G.ReadyMeansMachineEvidenceClear(before, ctx.asOf, ctx.hashing.fingerprint);
    SameMachineHalf(before, after, ctx);
    AuthorizedAfter(t, item, ids, ctx, policy);
    G.PassMeansFullAuthorization(after, ctx.asOf, ctx.hashing.fingerprint);
    EntityAfter(t, item, ids, ctx);
    EntityOfInput(t, i, policy);
    EntityOfInput(t', i, policy);
    var finding := FindingView(i, FindingAfter(t, item, ids));
    ContradictionAfter(MachineOf(t, i).otherAccepted, finding, before.entity.acceptedCandidates);
    OneFindingAfter(MachineOf(t, i).otherAccepted, finding);
  }

  lemma EntityOfInput(t: Tables, i: Id, policy: L.Policy)
    requires i in t.identities
    ensures ComposeInput(t, i, policy).entity == EntityOf(t, i)
  {
    hide SelectedReceipt;
  }

  lemma SameMachineHalf(a: PreviewInput, b: PreviewInput, ctx: Context)
    requires b.identity == a.identity && b.scope == a.scope && b.star == a.star && b.location == a.location
    requires b.snapshot == a.snapshot && b.policy == a.policy
    requires EvaluatePreview(a, ctx.asOf, ctx.hashing.fingerprint).Ok?
    ensures EvaluatePreview(b, ctx.asOf, ctx.hashing.fingerprint).Ok? && D.IsValidIsoDate(Some(ctx.asOf))
    ensures G.ScopeClear(b) == G.ScopeClear(a) && G.StarClear(b) == G.StarClear(a)
    ensures G.LocationClear(b) == G.LocationClear(a) && G.NotClosed(b, ctx.asOf) == G.NotClosed(a, ctx.asOf)
  {
    hide Conditions, Overall;
    assert CurrentSnapshot(a) == CurrentSnapshot(b);
    hide D.IsValidIsoDate, L.MappedWindows, L.Defects;
  }
}

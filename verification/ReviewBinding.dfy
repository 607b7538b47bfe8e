/**
 A human decision is bound to the evidence that human saw (scripts/human-review/apply.ts): whatever happens between
 the pack and the manifest, an accepted item means the evidence rows of the pack are the rows still in force.
 */
module ReviewBinding {
  import opened Prelude
  import opened Gate
  import opened Review
  import opened ReviewHistory
  import opened ReviewAcceptance
  import F = FingerprintMeaning
  import G = GateMeaning
  import L = Lifecycle

  /** The pack quoted this preview of the identity, taken from these tables on this date. */
  predicate QuotedFrom(tp: Tables, item: ReviewedItem, ctx: Context) {
    && item.identityId in tp.identities && tp.policy.Some?
    && PreviewOf(tp, item.identityId, tp.policy.value, ctx).Ok?
    && PreviewOf(tp, item.identityId, tp.policy.value, ctx).value.fingerprint == item.prereviewFingerprint
  }

  lemma BindingInputs(tp: Tables, t0: Tables, t: Tables, item: ReviewedItem, ids: RowIds, packed: Context, ctx: Context)
    requires F.Injective(ctx.hashing.fingerprint) && packed.hashing.fingerprint == ctx.hashing.fingerprint
    requires QuotedFrom(tp, item, packed) && OneReceiptPerObservation(t) && Previews(t0, ctx).Ok?
    requires ApplyOne(t, item, Previews(t0, ctx).value, ids, ctx).1.WouldApply?
    ensures t0.policy.Some? && item.identityId in t0.identities && packed.asOf == ctx.asOf
    ensures var before, now := ComposeInput(tp, item.identityId, tp.policy.value), ComposeInput(t0, item.identityId, t0.policy.value);
      && before.identity == now.identity && F.SameEvidence(now, before)
      && LifecycleOf(before, ctx.asOf).Ok? && LifecycleOf(now, ctx.asOf).Ok?
      && F.SameLifecycle(LifecycleOf(now, ctx.asOf).value, LifecycleOf(before, ctx.asOf).value)
      && G.ScopeClear(now) && G.StarClear(now) && G.LocationClear(now)
  {
    hide Previews, ApplyOne, PinsHold, MayAdvance, OneReceiptPerObservation, ComposeInput, EvaluatePreview, LifecycleOf;
    hide F.SameEvidence, F.SameLifecycle, F.Injective, G.EntityClear, G.ScopeClear, G.StarClear, G.LocationClear, G.NotClosed;
    DecisionAcceptedIff(t0, t, item, ids, ctx);
    var before, now := ComposeInput(tp, item.identityId, tp.policy.value), ComposeInput(t0, item.identityId, t0.policy.value);
    F.FingerprintPinsEvidence(now, ctx.asOf, before, packed.asOf, ctx.hashing.fingerprint);
  }

  /**
   An accepted decision means nothing it rests on has moved: the pack's date, current observation, star, scope and
   location rows are the manifest's, and so are the lifecycle verdict and its windows.
   */
  lemma DecisionIsBoundToItsEvidence(
    tp: Tables, t0: Tables, t: Tables, item: ReviewedItem, ids: RowIds, packed: Context, ctx: Context)
    requires F.Injective(ctx.hashing.fingerprint) && packed.hashing.fingerprint == ctx.hashing.fingerprint
    requires QuotedFrom(tp, item, packed) && OneReceiptPerObservation(t) && Previews(t0, ctx).Ok?
    requires ApplyOne(t, item, Previews(t0, ctx).value, ids, ctx).1.WouldApply?
    ensures packed.asOf == ctx.asOf
    ensures CurrentObservationId(tp, item.identityId) == CurrentObservationId(t0, item.identityId)
    ensures var before, now := MachineOf(tp, item.identityId), MachineOf(t0, item.identityId);
      && before.star == now.star && before.scope == now.scope && before.location == now.location
    ensures t0.policy.Some? && item.identityId in t0.identities
    ensures var before, now := ComposeInput(tp, item.identityId, tp.policy.value), ComposeInput(t0, item.identityId, t0.policy.value);
      && F.SameReview(now, before) && F.SameReceipt(now, before) && F.SameEntity(now, before)
      && LifecycleOf(before, ctx.asOf).Ok? && LifecycleOf(now, ctx.asOf).Ok?
      && F.SameLifecycle(LifecycleOf(now, ctx.asOf).value, LifecycleOf(before, ctx.asOf).value)
  {
    hide Previews, ApplyOne, OneReceiptPerObservation, EvaluatePreview, LifecycleOf, F.SameLifecycle, F.Injective;
    hide F.SameReview, F.SameReceipt, F.SameEntity, SelectedReceipt, CurrentObservationId, EntityOf, QuotedFrom, MachineOf;
    BindingInputs(tp, t0, t, item, ids, packed, ctx);
    QuotedIsPresent(tp, item, packed);
  }

  lemma QuotedIsPresent(tp: Tables, item: ReviewedItem, ctx: Context)
    requires QuotedFrom(tp, item, ctx)
    ensures item.identityId in tp.identities && tp.policy.Some?
  {
  }
}

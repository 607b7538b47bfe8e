/**
 What the gate reads about other records (scripts/prepublication-preview/preview.ts): the sync verdict, the
 candidate rows that touch an identity and the anomalies of a live discovery, and so what condition 11 says
 once the generator has run.
 */
module EntityLoader {
  import opened Prelude
  import opened Text
  import opened Sequences
  import opened Discovery
  import opened Queues
  import opened Sweep
  import opened Gate
  import GateMeaning
  import Generation

  /** A candidate row of another kind: a canonical hotel or a new property. */
  datatype OtherRow = OtherRow(view: CandidateView, status: Sweep.Status)

  /** A source-identity row of this namespace that names the identity on either side. */
  predicate Related(rows: Table, o: Options, i: Id, p: Pair) {
    p in rows && InNamespace(rows[p], o) && (p.0 == i || p.1 == i)
  }

  predicate StillPending(rows: Table, p: Pair) { p in rows && rows[p].status.Pending? }
  predicate IsAccepted(rows: Table, p: Pair) { p in rows && rows[p].status.Accepted? }

  function PairView(p: Pair, id: Id, details: Evidence): CandidateView {
    CandidateView(id, p.0, SourceIdentity, None, Some(p.1), details)
  }

  function Anomalies(d: DiscoveryResult, i: Id): seq<string> {
    (if i in ClusterMembers(d.sharedKeyClusters) then ["shared_key_cluster"] else [])
    + (if i in CollisionMembers(d.crossDestinationCollisions) then ["cross_destination_collision"] else [])
    + (if i in IncompleteMembers(d.incompleteGeography) then ["incomplete_geography"] else [])
  }

  function Refs(pairs: seq<CandidatePair>): seq<PairRef> {
    Map((p: CandidatePair) => PairRef(p.leftIdentityId, p.rightIdentityId), pairs)
  }

  function AcceptedOthers(others: seq<OtherRow>): seq<CandidateView> {
    Map((r: OtherRow) => r.view, Filter((r: OtherRow) => r.status.Accepted?, others))
  }

  function PendingOthers(others: seq<OtherRow>): seq<Id> {
    Map((r: OtherRow) => r.view.id, Filter((r: OtherRow) => r.status.Pending?, others))
  }

  /** The gate's entity view, from a fresh discovery and the candidate rows as they stand. */
  function ComposeEntity(
    i: Id, d: DiscoveryResult, rows: Table, persisted: seq<PairRef>, accounted: seq<PairRef>,
    related: seq<Pair>, idOf: Pair -> Id, detailsOf: Pair -> Evidence, others: seq<OtherRow>): EntityView
  {
    EntityView(
      CompareMachinePairSync(Refs(d.pairs), persisted, accounted).inSync,
      AcceptedOthers(others) + Map(p => PairView(p, idOf(p), detailsOf(p)), Filter(p => IsAccepted(rows, p), related)),
      PendingOthers(others) + Map(idOf, Filter(p => StillPending(rows, p), related)),
      Anomalies(d, i))
  }

  /** Which candidates and open ids the view lists, and which anomalies it names. */
  lemma ComposedColumns(
    i: Id, d: DiscoveryResult, xs: seq<Blockable>, rows: Table, persisted: seq<PairRef>, accounted: seq<PairRef>,
    related: seq<Pair>, idOf: Pair -> Id, detailsOf: Pair -> Evidence, others: seq<OtherRow>)
    requires Exact(d, xs)
    ensures var e := ComposeEntity(i, d, rows, persisted, accounted, related, idOf, detailsOf, others);
      && (forall c :: c in e.acceptedCandidates <==>
            || (exists r | r in others :: r.status.Accepted? && c == r.view)
            || (exists p | p in related :: p in rows && rows[p].status.Accepted?
                  && c == CandidateView(idOf(p), p.0, SourceIdentity, None, Some(p.1), detailsOf(p))))
      && (forall id :: id in e.pendingCandidateIds <==>
            || (exists r | r in others :: r.status.Pending? && id == r.view.id)
            || (exists p | p in related :: p in rows && rows[p].status.Pending? && id == idOf(p)))
      && ("shared_key_cluster" in e.currentAnomalyReasons <==> InCluster(xs, i))
      && ("cross_destination_collision" in e.currentAnomalyReasons <==> InCollision(xs, i))
      && ("incomplete_geography" in e.currentAnomalyReasons <==> InIncomplete(xs, i))
  {
    hide Exact, CompareMachinePairSync, Refs, Map, Filter, InCluster, InCollision, InIncomplete, Anomalies;
    MappedMembers((r: OtherRow) => r.view, (r: OtherRow) => r.status.Accepted?, others);
    MappedMembers((r: OtherRow) => r.view.id, (r: OtherRow) => r.status.Pending?, others);
    MappedMembers(p => PairView(p, idOf(p), detailsOf(p)), p => IsAccepted(rows, p), related);
    MappedMembers(idOf, p => StillPending(rows, p), related);
    AnomalyNames(d, xs, i);
  }

  lemma MappedMembers<T(!new), U(!new)>(f: T -> U, keep: T -> bool, xs: seq<T>)
    ensures forall y :: y in Map(f, Filter(keep, xs)) <==> exists x | x in xs :: keep(x) && y == f(x)
  {
    var kept := Filter(keep, xs);
    forall y ensures y in Map(f, kept) <==> exists x | x in xs :: keep(x) && y == f(x) {
      if y in Map(f, kept) {
        var k :| 0 <= k < |kept| && Map(f, kept)[k] == y;
        assert kept[k] in kept;
      }
      if x :| x in xs && keep(x) && y == f(x) {
        var k :| 0 <= k < |kept| && kept[k] == x;
        assert Map(f, kept)[k] == y;
      }
    }
  }

  lemma AnomalyNames(d: DiscoveryResult, xs: seq<Blockable>, i: Id)
    requires Exact(d, xs)
    ensures "shared_key_cluster" in Anomalies(d, i) <==> InCluster(xs, i)
    ensures "cross_destination_collision" in Anomalies(d, i) <==> InCollision(xs, i)
    ensures "incomplete_geography" in Anomalies(d, i) <==> InIncomplete(xs, i)
  {
    hide Exact, InCluster, InCollision, InIncomplete, ClusterMembers, CollisionMembers, IncompleteMembers;
    ClusterMembership(d, xs, i);
    CollisionMembership(d, xs, i);
    IncompleteMembership(d, xs, i);
  }

  // ---- What each part means. ----

  /** Somebody settled the pair before the sweep: neither open, nor standing down for want of a rule. */
  predicate Settled(rows: Table, p: Pair) {
    p in rows && !rows[p].status.Pending? && !MachineStoodDown(rows[p])
  }

  predicate ManualPending(r: Row) { r.status.Pending? && !IsBlocking(r) }

  lemma CurrentPendingAfter(rows: Table, prepared: seq<Prepared>, o: Options, rows': Table, p: Pair)
    requires SweptTo(rows, prepared, o, rows') && Current(prepared, p)
    requires p in rows ==> InNamespace(rows[p], o)
    ensures p in rows' && InNamespace(rows'[p], o)
    ensures StillPending(rows', p) <==> !Settled(rows, p)
  {
    var q :| q in prepared && q.pair == p;
    assert rows'[p] == Visited(rows, q, o);
  }

  lemma OtherPendingAfter(rows: Table, prepared: seq<Prepared>, o: Options, rows': Table, p: Pair)
    requires SweptTo(rows, prepared, o, rows') && !Current(prepared, p)
    ensures p in rows' && InNamespace(rows'[p], o) && StillPending(rows', p)
       <==> p in rows && InNamespace(rows[p], o) && ManualPending(rows[p])
  {
  }

  ghost predicate Unsettled(xs: seq<Blockable>, rows: Table, i: Id) {
    exists l, r, reason :: (l == i || r == i) && Carries(xs, l, r, reason) && !Settled(rows, (l, r))
  }

  predicate HasManual(rows: Table, o: Options, i: Id) { exists p | p in rows :: Related(rows, o, i, p) && ManualPending(rows[p]) }

  predicate HasPending(rows: Table, o: Options, i: Id) { exists p | p in rows :: Related(rows, o, i, p) && StillPending(rows, p) }

  /** After a sweep an identity has an open pair exactly when one was found unsettled or a person left one open. */
  lemma PendingAfterSweep(
    d: DiscoveryResult, xs: seq<Blockable>, compare: (Id, Id) -> PairEvidence, rows: Table, o: Options, rows': Table, i: Id)
    requires Exact(d, xs) && PlainInput(xs) && SweptTo(rows, PreparedFrom(d.pairs, compare), o, rows')
    requires forall p | p in rows && (exists reason :: Carries(xs, p.0, p.1, reason)) :: Storable(rows[p], o)
    ensures HasPending(rows', o, i) <==> Unsettled(xs, rows, i) || HasManual(rows, o, i)
  {
    hide Exact, PlainInput, PreparedFrom, SweptTo, Carries, Current, Settled, StillPending, ManualPending;
    var prepared := PreparedFrom(d.pairs, compare);
    DiscoveryPrepares(d, xs, compare);
    forall p: Pair
      ensures Current(prepared, p) ==> p in rows' && InNamespace(rows'[p], o) && (StillPending(rows', p) <==> !Settled(rows, p))
      ensures !Current(prepared, p) ==>
                (p in rows' && InNamespace(rows'[p], o) && StillPending(rows', p)
                 <==> p in rows && InNamespace(rows[p], o) && ManualPending(rows[p]))
    {
      assert Current(prepared, (p.0, p.1)) <==> exists reason :: Carries(xs, p.0, p.1, reason);
      if Current(prepared, p) {
        CurrentPendingAfter(rows, prepared, o, rows', p);
      } else {
        OtherPendingAfter(rows, prepared, o, rows', p);
      }
    }
    PendingSplit(xs, prepared, rows, o, rows', i);
  }

  lemma ManualIsNotSettled(rows: Table, p: Pair)
    requires p in rows && ManualPending(rows[p])
    ensures !Settled(rows, p)
  {
  }

  lemma PendingSplit(xs: seq<Blockable>, prepared: seq<Prepared>, rows: Table, o: Options, rows': Table, i: Id)
    requires forall l, r :: Current(prepared, (l, r)) <==> exists reason :: Carries(xs, l, r, reason)
    requires forall p: Pair | Current(prepared, p) ::
               p in rows' && InNamespace(rows'[p], o) && (StillPending(rows', p) <==> !Settled(rows, p))
    requires forall p: Pair | !Current(prepared, p) ::
               (p in rows' && InNamespace(rows'[p], o) && StillPending(rows', p)
                <==> p in rows && InNamespace(rows[p], o) && ManualPending(rows[p]))
    ensures HasPending(rows', o, i) <==> Unsettled(xs, rows, i) || HasManual(rows, o, i)
  {
    hide Carries, Current, Settled, StillPending, ManualPending, InNamespace;
    if HasPending(rows', o, i) {
      var p :| p in rows' && Related(rows', o, i, p) && StillPending(rows', p);
      if Current(prepared, p) {
        assert Current(prepared, (p.0, p.1));
        assert Unsettled(xs, rows, i);
      } else {
        assert Related(rows, o, i, p);
      }
    }
    if Unsettled(xs, rows, i) {
      var l, r, reason :| (l == i || r == i) && Carries(xs, l, r, reason) && !Settled(rows, (l, r));
      assert Current(prepared, (l, r));
      assert Related(rows', o, i, (l, r));
    }
    if HasManual(rows, o, i) {
      var p :| p in rows && Related(rows, o, i, p) && ManualPending(rows[p]);
      ManualIsNotSettled(rows, p);
      assert Related(rows', o, i, p) && StillPending(rows', p);
    }
  }

  lemma NothingMapped<T(!new), U>(f: T -> U, keep: T -> bool, xs: seq<T>)
    ensures Map(f, Filter(keep, xs)) == [] <==> forall x | x in xs :: !keep(x)
  {
    FilterEmpty(keep, xs);
  }

  /** Pending ids listed for the identity, in terms of the rows. */
  lemma NothingPendingIff(
    i: Id, d: DiscoveryResult, rows: Table, o: Options, persisted: seq<PairRef>, accounted: seq<PairRef>,
    related: seq<Pair>, idOf: Pair -> Id, detailsOf: Pair -> Evidence, others: seq<OtherRow>)
    requires forall p :: p in related <==> Related(rows, o, i, p)
    ensures ComposeEntity(i, d, rows, persisted, accounted, related, idOf, detailsOf, others).pendingCandidateIds == []
       <==> !HasPending(rows, o, i) && forall r | r in others :: !r.status.Pending?
  {
    hide Map, Filter, Related, StillPending, HasPending, CompareMachinePairSync, Anomalies, Refs;
    NothingMapped((r: OtherRow) => r.view.id, (r: OtherRow) => r.status.Pending?, others);
    NothingMapped(idOf, p => StillPending(rows, p), related);
    PendingRelated(rows, o, i, related);
  }

  lemma PendingRelated(rows: Table, o: Options, i: Id, related: seq<Pair>)
    requires forall p :: p in related <==> Related(rows, o, i, p)
    ensures (forall p | p in related :: !StillPending(rows, p)) <==> !HasPending(rows, o, i)
  {
    hide InNamespace;
  }

  /** Pair rows never contradict: only canonical hotels and new properties do. */
  lemma PairsNeverContradict(accepted: seq<CandidateView>, pairs: seq<CandidateView>)
    requires forall c | c in pairs :: c.kind.SourceIdentity?
    ensures GateMeaning.Contradicts(accepted + pairs) <==> GateMeaning.Contradicts(accepted)
  {
    assert forall c | c in accepted :: c in accepted + pairs;
  }

  lemma ComposedContradiction(
    i: Id, d: DiscoveryResult, rows: Table, persisted: seq<PairRef>, accounted: seq<PairRef>,
    related: seq<Pair>, idOf: Pair -> Id, detailsOf: Pair -> Evidence, others: seq<OtherRow>)
    ensures AcceptedContradiction(ComposeEntity(i, d, rows, persisted, accounted, related, idOf, detailsOf, others))
       <==> GateMeaning.Contradicts(AcceptedOthers(others))
  {
    hide GateMeaning.Contradicts, AcceptedContradiction, IsAccepted, CompareMachinePairSync, Anomalies, Filter, AcceptedOthers;
    var e := ComposeEntity(i, d, rows, persisted, accounted, related, idOf, detailsOf, others);
    var pairs := Map(p => PairView(p, idOf(p), detailsOf(p)), Filter(p => IsAccepted(rows, p), related));
    GateMeaning.ContradictionMeaning(e);
    assert forall c | c in pairs :: c.kind.SourceIdentity?;
    PairsNeverContradict(AcceptedOthers(others), pairs);
  }

  lemma NoAnomalyIff(d: DiscoveryResult, xs: seq<Blockable>, i: Id)
    requires Exact(d, xs)
    ensures Anomalies(d, i) == [] <==> !InCluster(xs, i) && !InCollision(xs, i) && !InIncomplete(xs, i)
  {
    hide Exact, InCluster, InCollision, InIncomplete, ClusterMembers, CollisionMembers, IncompleteMembers;
    ClusterMembership(d, xs, i);
    CollisionMembership(d, xs, i);
    IncompleteMembership(d, xs, i);
  }

  // ---- Condition 11 after the generator. ----

  /** A second discovery over the same identities finds the same pairs. */
  lemma SamePairsAgain(d: DiscoveryResult, e: DiscoveryResult, xs: seq<Blockable>)
    requires Exact(d, xs) && Exact(e, xs)
    ensures d.pairs == e.pairs
  {
    hide Exact;
    FindingsOrderFree(d, e, xs, xs);
  }

  /**
   The generator swept `rows` into `rows'` with what discovery `d` found; the gate then discovers again (`e`)
   and loads the rows it compares.
   */
  ghost predicate AfterGeneration(
    input: seq<Blockable>, d: DiscoveryResult, e: DiscoveryResult, compare: (Id, Id) -> PairEvidence,
    rows: Table, o: Options, rows': Table, persisted: seq<PairRef>, accounted: seq<PairRef>)
  {
    && PlainInput(input) && Exact(d, Latest(input)) && Exact(e, Latest(input)) && Oriented(rows)
    && (forall p | p in rows && (exists reason :: Carries(Latest(input), p.0, p.1, reason)) :: Storable(rows[p], o))
    && SweptTo(rows, PreparedFrom(d.pairs, compare), o, rows')
    && Lists(persisted, rows', p => LoadedMachine(rows', o, p))
    && Lists(accounted, rows', p => LoadedAccounted(rows', o, p))
  }

  lemma SyncAfterGeneration(
    input: seq<Blockable>, d: DiscoveryResult, e: DiscoveryResult, compare: (Id, Id) -> PairEvidence,
    rows: Table, o: Options, rows': Table, persisted: seq<PairRef>, accounted: seq<PairRef>, i: Id)
    requires AfterGeneration(input, d, e, compare, rows, o, rows', persisted, accounted)
    ensures CompareMachinePairSync(Refs(e.pairs), persisted, accounted).inSync
    ensures HasPending(rows', o, i) <==> Unsettled(Latest(input), rows, i) || HasManual(rows, o, i)
  {
    hide PlainInput, Exact, Latest, Oriented, Carries, SweptTo, PreparedFrom, Lists, CompareMachinePairSync, Storable;
    hide Unsettled, HasManual, HasPending, LoadedMachine, LoadedAccounted, Map;
    SamePairsAgain(d, e, Latest(input));
    Generation.GeneratedTableIsInSync(input, e, compare, rows, o, rows', persisted, accounted);
    Generation.LatestIsPlain(input);
    PendingAfterSweep(d, Latest(input), compare, rows, o, rows', i);
  }

  /**
   Condition 11 after the generator ran holds exactly when the identity has a current observation, every pair
   discovered for it was already settled, nobody left it an open manual pair or another open candidate, it is
   in no cluster, collision or unknown-geography bucket, and what was accepted agrees. The sync half never
   stands in the way.
   */
  lemma ConflictAfterGeneration(
    input: seq<Blockable>, d: DiscoveryResult, e: DiscoveryResult, compare: (Id, Id) -> PairEvidence,
    rows: Table, o: Options, rows': Table, persisted: seq<PairRef>, accounted: seq<PairRef>,
    related: seq<Pair>, idOf: Pair -> Id, detailsOf: Pair -> Evidence, others: seq<OtherRow>, preview: PreviewInput)
    requires AfterGeneration(input, d, e, compare, rows, o, rows', persisted, accounted)
    requires forall p :: p in related <==> Related(rows', o, preview.identity.id, p)
    requires preview.entity == ComposeEntity(preview.identity.id, e, rows', persisted, accounted, related, idOf, detailsOf, others)
    ensures preview.entity.synchronized
    ensures var i, xs := preview.identity.id, Latest(input);
            NoConflict(preview) <==>
              && preview.identity.currentObservationId.Some?
              && !Unsettled(xs, rows, i) && !HasManual(rows, o, i)
              && !InCluster(xs, i) && !InCollision(xs, i) && !InIncomplete(xs, i)
              && (forall r | r in others :: !r.status.Pending?)
              && !GateMeaning.Contradicts(AcceptedOthers(others))
  {
    hide Exact, Latest, Related, CompareMachinePairSync, AfterGeneration;
    hide Unsettled, HasManual, HasPending, InCluster, InCollision, InIncomplete, AcceptedContradiction, AcceptedOthers;
    hide GateMeaning.Contradicts, Anomalies, Map, Filter, PendingOthers;
    var i, xs := preview.identity.id, Latest(input);
    SyncAfterGeneration(input, d, e, compare, rows, o, rows', persisted, accounted, i);
    NothingPendingIff(i, e, rows', o, persisted, accounted, related, idOf, detailsOf, others);
    ComposedContradiction(i, e, rows', persisted, accounted, related, idOf, detailsOf, others);
    GatedDiscovery(input, d, e, compare, rows, o, rows', persisted, accounted);
    NoAnomalyIff(e, xs, i);
  }

  lemma GatedDiscovery(
    input: seq<Blockable>, d: DiscoveryResult, e: DiscoveryResult, compare: (Id, Id) -> PairEvidence,
    rows: Table, o: Options, rows': Table, persisted: seq<PairRef>, accounted: seq<PairRef>)
    requires AfterGeneration(input, d, e, compare, rows, o, rows', persisted, accounted)
    ensures Exact(e, Latest(input))
  {
    hide PlainInput, Exact, Latest, Oriented, Carries, SweptTo, Lists, Storable;
  }

  lemma QuietIsSettled(input: seq<Blockable>, rows: Table, b: Blockable)
    requires b in Latest(input) && forall reason :: QuietOn(Latest(input), b, reason)
    ensures var i, xs := b.identityId, Latest(input);
            !Unsettled(xs, rows, i) && !InCluster(xs, i) && !InCollision(xs, i) && !InIncomplete(xs, i)
  {
    hide Latest, QuietOn, Carries, InCluster, InCollision, InIncomplete, Settled;
    LatestFacts(input);
    QuietIsNotSurfaced(Latest(input), b);
  }

  /**
   So for a record of the no-finding queue the generator changes nothing: condition 11 turns on its observation,
   on work a person left open and on what was accepted about it.
   */
  lemma NoFindingLeavesTheHumanHalf(
    input: seq<Blockable>, d: DiscoveryResult, e: DiscoveryResult, compare: (Id, Id) -> PairEvidence,
    rows: Table, o: Options, rows': Table, persisted: seq<PairRef>, accounted: seq<PairRef>,
    related: seq<Pair>, idOf: Pair -> Id, detailsOf: Pair -> Evidence, others: seq<OtherRow>, preview: PreviewInput,
    b: Blockable)
    requires AfterGeneration(input, d, e, compare, rows, o, rows', persisted, accounted)
    requires forall p :: p in related <==> Related(rows', o, preview.identity.id, p)
    requires preview.entity == ComposeEntity(preview.identity.id, e, rows', persisted, accounted, related, idOf, detailsOf, others)
    requires b in Latest(input) && b.identityId == preview.identity.id
    requires forall reason :: QuietOn(Latest(input), b, reason)
    ensures NoConflict(preview) <==>
      && preview.identity.currentObservationId.Some? && !HasManual(rows, o, preview.identity.id)
      && (forall r | r in others :: !r.status.Pending?)
      && !GateMeaning.Contradicts(AcceptedOthers(others))
  {
    hide AfterGeneration, Latest, Related, ComposeEntity, QuietOn, Unsettled, HasManual, InCluster, InCollision, InIncomplete;
    hide GateMeaning.Contradicts, AcceptedOthers, NoConflict;
    ConflictAfterGeneration(input, d, e, compare, rows, o, rows', persisted, accounted, related, idOf, detailsOf, others, preview);
    QuietIsSettled(input, rows, b);
  }
}

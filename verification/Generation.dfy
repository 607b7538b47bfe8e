/**
 `generateCandidates` end to end (scripts/entity-resolution/writer.ts): discover, partition, compare each
 pair, tally, and sweep the table.
 */
module Generation {
  import opened Prelude
  import opened Text
  import opened Sequences
  import opened Discovery
  import opened Queues
  import opened Sweep

  /** How many pairs showed each kind of evidence, and how many independent dimensions agreed. */
  datatype Tallies = Tallies(
    name: multiset<string>, domain: multiset<string>, address: multiset<string>, phone: multiset<string>,
    brand: multiset<string>, distanceKnown: nat, agreeing: multiset<nat>)

  datatype Report = Report(
    identities: nat, withCandidate: nat, withoutCandidate: int, sharedKeyClusteredIdentities: nat,
    tallies: Tallies, counts: Counts, discovery: DiscoveryResult, partition: ReviewPartition)

  function AgreeingDimensions(e: PairEvidence): nat {
    (if e.name != "none" then 1 else 0) + (if e.domain == "agrees" then 1 else 0) + (if e.address == "agrees" then 1 else 0)
    + (if e.phone == "agrees" then 1 else 0) + (if e.brand == "agrees" then 1 else 0)
  }

  datatype Dimension = Name | Domain | Address | Phone | Brand

  const DIMENSIONS: seq<Dimension> := [Name, Domain, Address, Phone, Brand]

  /** A name agrees when the comparison found any likeness, every other dimension when it says so. */
  predicate Agrees(e: PairEvidence, dimension: Dimension) {
    match dimension
    case Name => e.name != "none"
    case Domain => e.domain == "agrees"
    case Address => e.address == "agrees"
    case Phone => e.phone == "agrees"
    case Brand => e.brand == "agrees"
  }

  /** The tally key is the number of dimensions that agree. */
  lemma AgreeingDimensionsCount(e: PairEvidence)
    ensures AgreeingDimensions(e) == |Filter(Agreeing(e), DIMENSIONS)|
  {
    hide Agrees, AgreeingDimensions, Filter;
    AgreementSum(e);
    KeptOfFive(Agreeing(e));
  }

  function Agreeing(e: PairEvidence): Dimension -> bool { d => Agrees(e, d) }

  lemma KeptOfFive(keep: Dimension -> bool)
    ensures |Filter(keep, DIMENSIONS)| ==
      (if keep(Name) then 1 else 0) + (if keep(Domain) then 1 else 0) + (if keep(Address) then 1 else 0)
      + (if keep(Phone) then 1 else 0) + (if keep(Brand) then 1 else 0)
  {
    hide Filter;
    FilterNothing(keep);
    OneMoreKept(keep, [], Name);
    OneMoreKept(keep, [Name], Domain);
    OneMoreKept(keep, [Name, Domain], Address);
    OneMoreKept(keep, [Name, Domain, Address], Phone);
    OneMoreKept(keep, [Name, Domain, Address, Phone], Brand);
    assert [] + [Name] == [Name] && [Name] + [Domain] == [Name, Domain];
    assert [Name, Domain] + [Address] == [Name, Domain, Address];
    assert [Name, Domain, Address] + [Phone] == [Name, Domain, Address, Phone];
    assert [Name, Domain, Address, Phone] + [Brand] == DIMENSIONS;
  }

  lemma FilterNothing(keep: Dimension -> bool)
    ensures Filter(keep, []) == []
  {
  }

  lemma OneMoreKept(keep: Dimension -> bool, xs: seq<Dimension>, x: Dimension)
    ensures |Filter(keep, xs + [x])| == |Filter(keep, xs)| + if keep(x) then 1 else 0
  {
    FilterAppend(keep, xs, [x]);
    assert [x][1..] == [];
  }

  lemma AgreementSum(e: PairEvidence)
    ensures AgreeingDimensions(e) ==
      (if Agrees(e, Name) then 1 else 0) + (if Agrees(e, Domain) then 1 else 0) + (if Agrees(e, Address) then 1 else 0)
      + (if Agrees(e, Phone) then 1 else 0) + (if Agrees(e, Brand) then 1 else 0)
  {
  }

  /** The tallies read off the compared pairs. */
  function TalliesOf(es: seq<PairEvidence>): Tallies {
    Tallies(
      multiset(Map((e: PairEvidence) => e.name, es)), multiset(Map((e: PairEvidence) => e.domain, es)),
      multiset(Map((e: PairEvidence) => e.address, es)), multiset(Map((e: PairEvidence) => e.phone, es)),
      multiset(Map((e: PairEvidence) => e.brand, es)),
      |Filter((e: PairEvidence) => e.distanceMetres.Some?, es)|, multiset(Map(AgreeingDimensions, es)))
  }

  const NO_TALLIES := Tallies(multiset{}, multiset{}, multiset{}, multiset{}, multiset{}, 0, multiset{})

  function Bump(t: Tallies, e: PairEvidence): Tallies {
    Tallies(t.name + multiset{e.name}, t.domain + multiset{e.domain}, t.address + multiset{e.address},
            t.phone + multiset{e.phone}, t.brand + multiset{e.brand},
            t.distanceKnown + if e.distanceMetres.Some? then 1 else 0, t.agreeing + multiset{AgreeingDimensions(e)})
  }

  lemma NothingTallied()
    ensures TalliesOf([]) == NO_TALLIES
  {
  }

  lemma OneMoreMapped<T, U>(f: T -> U, xs: seq<T>, x: T)
    ensures multiset(Map(f, xs + [x])) == multiset(Map(f, xs)) + multiset{f(x)}
  {
    assert Map(f, xs + [x]) == Map(f, xs) + [f(x)];
  }

  lemma OneMoreTallied(es: seq<PairEvidence>, e: PairEvidence)
    ensures TalliesOf(es + [e]) == Bump(TalliesOf(es), e)
  {
    hide Map, Filter, AgreeingDimensions;
    OneMoreMapped((x: PairEvidence) => x.name, es, e);
    OneMoreMapped((x: PairEvidence) => x.domain, es, e);
    OneMoreMapped((x: PairEvidence) => x.address, es, e);
    OneMoreMapped((x: PairEvidence) => x.phone, es, e);
    OneMoreMapped((x: PairEvidence) => x.brand, es, e);
    OneMoreMapped(AgreeingDimensions, es, e);
    KnownDistances(es, e);
  }

  lemma KnownDistances(es: seq<PairEvidence>, e: PairEvidence)
    ensures |Filter((x: PairEvidence) => x.distanceMetres.Some?, es + [e])|
         == |Filter((x: PairEvidence) => x.distanceMetres.Some?, es)| + if e.distanceMetres.Some? then 1 else 0
  {
    FilterAppend((x: PairEvidence) => x.distanceMetres.Some?, es, [e]);
    assert [e][1..] == [];
  }

  function Evidences(prepared: seq<Prepared>): seq<PairEvidence> { Map((q: Prepared) => q.evidence, prepared) }

  /** Compare each discovered pair, collecting what the report counts. */
  method PreparePairs(pairs: seq<CandidatePair>, compare: (Id, Id) -> PairEvidence)
    returns (prepared: seq<Prepared>, withCandidate: set<Id>, tallies: Tallies)
    ensures prepared == PreparedFrom(pairs, compare)
    ensures withCandidate == PairMembers(pairs)
    ensures tallies == TalliesOf(Evidences(prepared))
  {
    hide TalliesOf, MatchMethodFor;
    prepared, withCandidate, tallies := [], {}, NO_TALLIES;
    NothingTallied();
    assert Evidences([]) == [];
    for n := 0 to |pairs|
      invariant prepared == PreparedFrom(pairs[..n], compare)
      invariant withCandidate == PairMembers(pairs[..n])
      invariant tallies == TalliesOf(Evidences(prepared))
    {
      var pair := pairs[n];
      assert pairs[..n + 1] == pairs[..n] + [pair];
      var evidence := compare(pair.leftIdentityId, pair.rightIdentityId);
      var q := Prepared((pair.leftIdentityId, pair.rightIdentityId), MatchMethodFor(pair.reasons), evidence);
      OneMoreTallied(Evidences(prepared), evidence);
      assert Evidences(prepared + [q]) == Evidences(prepared) + [evidence];
      prepared := prepared + [q];
      withCandidate := withCandidate + {pair.leftIdentityId, pair.rightIdentityId};
      tallies := Bump(tallies, evidence);
    }
    assert pairs[..|pairs|] == pairs;
  }

  method GenerateCandidates(
    table: CandidateTable, identities: seq<Blockable>, compare: (Id, Id) -> PairEvidence, o: Options, apply: bool)
    returns (r: Report)
    requires PlainInput(identities)
    modifies table
    ensures Exact(r.discovery, Latest(identities))
    ensures var prepared := PreparedFrom(r.discovery.pairs, compare);
      && (!apply ==> table.rows == old(table.rows) && r.counts == NO_COUNTS)
      && (apply ==> SweptTo(old(table.rows), prepared, o, table.rows)
                    && r.counts == TallyAll(old(table.rows), prepared).(superseded := |StaleRows(old(table.rows), prepared, o)|))
      && r.tallies == TalliesOf(Evidences(prepared))
    ensures r.identities == |identities| && r.withCandidate == |PairMembers(r.discovery.pairs)|
    ensures r.withoutCandidate == |identities| - r.withCandidate
    ensures r.sharedKeyClusteredIdentities == |ClusterMembers(r.discovery.sharedKeyClusters)|
    ensures r.partition.inPairs == PairMembers(r.discovery.pairs)
    ensures forall i | i in Latest(identities) ::
              i.identityId in r.partition.noMachineFinding <==> forall reason :: QuietOn(Latest(identities), i, reason)
  {
    hide Exact, PlainInput, Latest, PreparedFrom, TalliesOf, PairMembers, ClusterMembers, CollisionMembers, IncompleteMembers;
    hide DistinctPairs, Filter, SweptTo, TallyAll, StaleRows, Ids, QuietOn;
    var d := DiscoverCandidates(identities);
    var partition := PartitionForReview(identities, d);
    var prepared, withCandidate, tallies := PreparePairs(d.pairs, compare);
    LatestIsPlain(identities);
    DiscoveryPrepares(d, Latest(identities), compare);
    var counts := table.GenerateCandidates(prepared, o, apply);
    forall i | i in Latest(identities)
      ensures i.identityId in partition.noMachineFinding <==> forall reason :: QuietOn(Latest(identities), i, reason)
    {
      NoMachineFindingMeaning(identities, d, i);
      SurvivorIsInput(identities, i);
    }
    r := Report(|identities|, |withCandidate|, |identities| - |withCandidate|, |ClusterMembers(d.sharedKeyClusters)|,
                tallies, counts, d, partition);
  }

  lemma LatestIsPlain(xs: seq<Blockable>)
    requires PlainInput(xs)
    ensures PlainInput(Latest(xs))
  {
    hide PlainInput, Latest;
    LatestFacts(xs);
  }

  lemma SurvivorIsInput(xs: seq<Blockable>, i: Blockable)
    requires i in Latest(xs)
    ensures i.identityId in Ids(xs)
  {
    LatestFacts(xs);
    var n :| 0 <= n < |Latest(xs)| && Latest(xs)[n] == i;
    assert Ids(Latest(xs))[n] == i.identityId;
    assert i.identityId in Ids(Latest(xs));
  }

  /** So the gate accepts what the command leaves: discover, sweep, load, compare, in sync. */
  lemma GeneratedTableIsInSync(
    input: seq<Blockable>, d: DiscoveryResult, compare: (Id, Id) -> PairEvidence, rows: Table, o: Options, rows': Table,
    persisted: seq<PairRef>, accounted: seq<PairRef>)
    requires PlainInput(input) && Exact(d, Latest(input)) && Oriented(rows)
    requires forall p | p in rows && (exists reason :: Carries(Latest(input), p.0, p.1, reason)) :: Storable(rows[p], o)
    requires SweptTo(rows, PreparedFrom(d.pairs, compare), o, rows')
    requires Lists(persisted, rows', p => LoadedMachine(rows', o, p))
    requires Lists(accounted, rows', p => LoadedAccounted(rows', o, p))
    ensures CompareMachinePairSync(
              Map((p: CandidatePair) => PairRef(p.leftIdentityId, p.rightIdentityId), d.pairs), persisted, accounted)
         == SyncResult(true, [], [])
  {
    hide PlainInput, Exact, Latest, Carries, SweptTo, PreparedFrom, CompareMachinePairSync, Oriented;
    LatestIsPlain(input);
    DiscoverySweepConverges(d, Latest(input), compare, rows, o, rows',
                            Map((p: CandidatePair) => PairRef(p.leftIdentityId, p.rightIdentityId), d.pairs), persisted, accounted);
  }
}

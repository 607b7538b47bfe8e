/**
 The review partition (scripts/entity-resolution/queues.ts), and what discovery's findings say once
 they are read through it.
 */
module Queues {
  import opened Prelude
  import opened Text
  import opened Sequences
  import opened Discovery

  datatype ReviewPartition = ReviewPartition(
    inPairs: set<Id>, inSharedKeyClusters: set<Id>, inCrossDestinationAnomalies: set<Id>,
    inIncompleteGeography: set<Id>, noMachineFinding: seq<Id>)

  function PairMembers(ps: seq<CandidatePair>): set<Id> {
    (set p | p in ps :: p.leftIdentityId) + (set p | p in ps :: p.rightIdentityId)
  }

  function ClusterMembers(cs: seq<SharedKeyCluster>): set<Id> { set c, x | c in cs && x in c.identityIds :: x }
  function CollisionMembers(cs: seq<Collision>): set<Id> { set c, x | c in cs && x in c.identityIds :: x }
  function IncompleteMembers(cs: seq<IncompleteKey>): set<Id> { set c, x | c in cs && x in c.identityIds :: x }

  method PartitionForReview(identities: seq<Blockable>, d: DiscoveryResult) returns (p: ReviewPartition)
    ensures p.inPairs == PairMembers(d.pairs) && p.inSharedKeyClusters == ClusterMembers(d.sharedKeyClusters)
    ensures p.inCrossDestinationAnomalies == CollisionMembers(d.crossDestinationCollisions)
    ensures p.inIncompleteGeography == IncompleteMembers(d.incompleteGeography)
    ensures p.noMachineFinding == Filter(
              id => id !in p.inPairs + p.inSharedKeyClusters + p.inCrossDestinationAnomalies + p.inIncompleteGeography,
              Ids(identities))
  {
    var inPairs: set<Id> := {};
    for n := 0 to |d.pairs|
      invariant inPairs == PairMembers(d.pairs[..n])
    {
      assert d.pairs[..n + 1] == d.pairs[..n] + [d.pairs[n]];
      inPairs := inPairs + {d.pairs[n].leftIdentityId} + {d.pairs[n].rightIdentityId};
    }
    assert d.pairs[..|d.pairs|] == d.pairs;
    var clusters, anomalies := ClusterMembers(d.sharedKeyClusters), CollisionMembers(d.crossDestinationCollisions);
    var incomplete := IncompleteMembers(d.incompleteGeography);
    p := ReviewPartition(
      inPairs, clusters, anomalies, incomplete,
      Filter(id => id !in inPairs + clusters + anomalies + incomplete, Ids(identities)));
  }

  // ---- What membership in each queue means. ----

  /** A listed pair carries a reason exactly when the buckets say so. */
  lemma PairCarriesReason(d: DiscoveryResult, xs: seq<Blockable>, l: Id, r: Id, reason: Reason)
    requires Exact(d, xs)
    ensures (exists p | p in d.pairs :: p.leftIdentityId == l && p.rightIdentityId == r && reason in p.reasons)
       <==> Carries(xs, l, r, reason)
  {
    hide Carries, ClustersExact, CollisionsExact, IncompleteExact, Less, PairKey;
    ReasonListed(reason);
    if Carries(xs, l, r, reason) {
      var p :| p in d.pairs && p.leftIdentityId == l && p.rightIdentityId == r;
      assert reason in p.reasons;
    }
  }

  ghost predicate InPair(xs: seq<Blockable>, id: Id) {
    exists l, r, reason :: (id == l || id == r) && Carries(xs, l, r, reason)
  }

  lemma ListedPairIsCarried(ps: seq<CandidatePair>, xs: seq<Blockable>, p: CandidatePair) returns (reason: Reason)
    requires PairsExact(ps, xs) && p in ps
    ensures Carries(xs, p.leftIdentityId, p.rightIdentityId, reason)
  {
    hide Carries, Less, PairKey;
    reason := p.reasons[0];
    assert reason in p.reasons;
  }

  lemma CarriedPairIsListed(ps: seq<CandidatePair>, xs: seq<Blockable>, l: Id, r: Id, reason: Reason)
    requires PairsExact(ps, xs) && Carries(xs, l, r, reason)
    ensures exists p | p in ps :: p.leftIdentityId == l && p.rightIdentityId == r
  {
    hide Carries, Less, PairKey, Filter;
  }

  lemma PairedIsCarried(ps: seq<CandidatePair>, xs: seq<Blockable>, id: Id)
    requires PairsExact(ps, xs) && id in PairMembers(ps)
    ensures InPair(xs, id)
  {
    hide PairsExact, Carries;
    var p :| p in ps && (p.leftIdentityId == id || p.rightIdentityId == id);
    var reason := ListedPairIsCarried(ps, xs, p);
    InPairBy(xs, id, p.leftIdentityId, p.rightIdentityId, reason);
  }

  lemma InPairBy(xs: seq<Blockable>, id: Id, l: Id, r: Id, reason: Reason)
    requires (id == l || id == r) && Carries(xs, l, r, reason)
    ensures InPair(xs, id)
  {
    hide Carries;
  }

  lemma CarriedIsPaired(ps: seq<CandidatePair>, xs: seq<Blockable>, id: Id)
    requires PairsExact(ps, xs) && InPair(xs, id)
    ensures id in PairMembers(ps)
  {
    hide PairsExact, Carries;
    var l, r, reason :| (id == l || id == r) && Carries(xs, l, r, reason);
    CarriedPairIsListed(ps, xs, l, r, reason);
  }

  lemma PairMembership(d: DiscoveryResult, xs: seq<Blockable>, id: Id)
    requires Exact(d, xs)
    ensures id in PairMembers(d.pairs) <==> InPair(xs, id)
  {
    hide PairsExact, ClustersExact, CollisionsExact, IncompleteExact, InPair, PairMembers, Filter;
    if id in PairMembers(d.pairs) {
      PairedIsCarried(d.pairs, xs, id);
    }
    if InPair(xs, id) {
      CarriedIsPaired(d.pairs, xs, id);
    }
  }

  lemma ClusterMembership(d: DiscoveryResult, xs: seq<Blockable>, id: Id)
    requires Exact(d, xs)
    ensures id in ClusterMembers(d.sharedKeyClusters) <==> InCluster(xs, id)
  {
    hide PairsExact, CollisionsExact, IncompleteExact, BucketIds;
    if id in ClusterMembers(d.sharedKeyClusters) {
      var c :| c in d.sharedKeyClusters && id in c.identityIds;
      assert id in BucketIds(xs, c.reason, Some(c.destinationId), c.key) by { assert id in Members(c.identityIds); }
    }
    if InCluster(xs, id) {
      var reason: Reason, dest: string, k: string :|
        id in BucketIds(xs, reason, Some(dest), k) && |BucketIds(xs, reason, Some(dest), k)| > 2;
      ReasonListed(reason);
      var c :| c in d.sharedKeyClusters && c.reason == reason && c.destinationId == dest && c.key == k;
      assert id in Members(c.identityIds);
    }
  }

  lemma CollisionMembership(d: DiscoveryResult, xs: seq<Blockable>, id: Id)
    requires Exact(d, xs)
    ensures id in CollisionMembers(d.crossDestinationCollisions) <==> InCollision(xs, id)
  {
    hide PairsExact, ClustersExact, IncompleteExact, Vetoed, KeyFor;
    if id in CollisionMembers(d.crossDestinationCollisions) {
      var c :| c in d.crossDestinationCollisions && id in c.identityIds;
      assert id in Members(c.identityIds);
    }
    if InCollision(xs, id) {
      var i, reason: Reason, k: string :|
        i in xs && i.identityId == id && KeyFor(reason, i) == Some(k) && Vetoed(xs, reason, k);
      ReasonListed(reason);
      var c :| c in d.crossDestinationCollisions && c.reason == reason && c.key == k;
      assert id in Members(c.identityIds);
    }
  }

  lemma IncompleteMembership(d: DiscoveryResult, xs: seq<Blockable>, id: Id)
    requires Exact(d, xs)
    ensures id in IncompleteMembers(d.incompleteGeography) <==> InIncomplete(xs, id)
  {
    hide PairsExact, ClustersExact, CollisionsExact, BucketIds;
    if id in IncompleteMembers(d.incompleteGeography) {
      var c :| c in d.incompleteGeography && id in c.identityIds;
      assert id in BucketIds(xs, c.reason, None, c.key) by { assert id in Members(c.identityIds); }
    }
    if InIncomplete(xs, id) {
      var reason: Reason, k: string :| id in BucketIds(xs, reason, None, k) && |BucketIds(xs, reason, None, k)| >= 2;
      ReasonListed(reason);
      var c :| c in d.incompleteGeography && c.reason == reason && c.key == k;
      assert id in Members(c.identityIds);
    }
  }

  /** Alone in its own scope's bucket, on a key that spans at most one known destination. */
  predicate QuietOn(xs: seq<Blockable>, i: Blockable, reason: Reason) {
    KeyFor(reason, i).Some? ==>
      && BucketIds(xs, reason, i.destinationId, KeyFor(reason, i).value) == {i.identityId}
      && !Vetoed(xs, reason, KeyFor(reason, i).value)
  }

  ghost predicate Surfaced(xs: seq<Blockable>, id: Id) {
    InPair(xs, id) || InCluster(xs, id) || InCollision(xs, id) || InIncomplete(xs, id)
  }

  lemma SoleOwner(xs: seq<Blockable>, i: Blockable, j: Blockable)
    requires UniqueIds(xs) && i in xs && j in xs && i.identityId == j.identityId
    ensures i == j
  {
    var a :| 0 <= a < |xs| && xs[a] == i;
    var b :| 0 <= b < |xs| && xs[b] == j;
  }

  lemma OwnBucket(xs: seq<Blockable>, i: Blockable, reason: Reason, d: Option<string>, k: string)
    requires UniqueIds(xs) && i in xs && i.identityId in BucketIds(xs, reason, d, k)
    ensures i.destinationId == d && KeyFor(reason, i) == Some(k)
  {
    var j :| j in xs && At(j, reason, d, k) && j.identityId == i.identityId;
    SoleOwner(xs, i, j);
  }

  lemma QuietBucket(xs: seq<Blockable>, i: Blockable, reason: Reason, d: Option<string>, k: string)
    requires UniqueIds(xs) && i in xs && QuietOn(xs, i, reason) && i.identityId in BucketIds(xs, reason, d, k)
    ensures BucketIds(xs, reason, d, k) == {i.identityId} && !Vetoed(xs, reason, k)
  {
    OwnBucket(xs, i, reason, d, k);
  }

  lemma QuietPair(xs: seq<Blockable>, i: Blockable)
    requires UniqueIds(xs) && i in xs && forall reason :: QuietOn(xs, i, reason)
    ensures !InPair(xs, i.identityId)
  {
    hide Vetoed, BucketIds, KeyFor, QuietOn, UniqueIds, Less;
    var id := i.identityId;
    forall l, r, reason, d: string, k: string
      | Less(l, r) && (id == l || id == r) && BucketIds(xs, reason, Some(d), k) == {l, r}
      ensures false
    {
      assert id in {l, r};
      assert QuietOn(xs, i, reason);
      QuietBucket(xs, i, reason, Some(d), k);
      assert l in {l, r} && r in {l, r};
      LessIrreflexive(id);
    }
  }

  lemma QuietIsNotSurfaced(xs: seq<Blockable>, i: Blockable)
    requires UniqueIds(xs) && i in xs && forall reason :: QuietOn(xs, i, reason)
    ensures !Surfaced(xs, i.identityId)
  {
    hide Vetoed, BucketIds, KeyFor, QuietOn, UniqueIds, InPair;
    var id := i.identityId;
    QuietPair(xs, i);
    forall reason: Reason, d: Option<string>, k: string | id in BucketIds(xs, reason, d, k)
      ensures |BucketIds(xs, reason, d, k)| == 1
    {
      assert QuietOn(xs, i, reason);
      QuietBucket(xs, i, reason, d, k);
    }
    forall j, reason: Reason, k: string | j in xs && j.identityId == id && KeyFor(reason, j) == Some(k)
      ensures !Vetoed(xs, reason, k)
    {
      SoleOwner(xs, i, j);
      assert QuietOn(xs, i, reason);
      QuietKey(xs, i, reason, k);
    }
  }

  lemma QuietKey(xs: seq<Blockable>, i: Blockable, reason: Reason, k: string)
    requires QuietOn(xs, i, reason) && KeyFor(reason, i) == Some(k)
    ensures !Vetoed(xs, reason, k)
  {
  }

  lemma NotQuietIsSurfaced(xs: seq<Blockable>, i: Blockable, reason: Reason)
    requires UniqueIds(xs) && i in xs && !QuietOn(xs, i, reason)
    ensures Surfaced(xs, i.identityId)
  {
    hide Vetoed;
    var id, k := i.identityId, KeyFor(reason, i).value;
    var bucket := BucketIds(xs, reason, i.destinationId, k);
    assert id in bucket;
    if !Vetoed(xs, reason, k) {
      var other := OtherMember(bucket, id);
      assert {id, other} <= bucket && |{id, other}| == 2;
      SubsetSize({id, other}, bucket);
      if i.destinationId.None? {
        assert InIncomplete(xs, id);
      } else if |bucket| > 2 {
        assert InCluster(xs, id);
      } else {
        assert bucket == {id, other} by {
          if extra :| extra in bucket && extra != id && extra != other {
            assert {id, other, extra} <= bucket && |{id, other, extra}| == 3;
            SubsetSize({id, other, extra}, bucket);
            assert false;
          }
        }
        LessTotal(id, other);
        var l, r := if Less(id, other) then id else other, if Less(id, other) then other else id;
        assert bucket == {l, r};
        assert Carries(xs, l, r, reason);
      }
    }
  }

  lemma OtherMember(bucket: set<Id>, id: Id) returns (other: Id)
    requires id in bucket && bucket != {id}
    ensures other in bucket && other != id
  {
    assert bucket - {id} != {};
    other :| other in bucket - {id};
  }

  lemma QuietMeaning(input: seq<Blockable>, d: DiscoveryResult, i: Blockable)
    requires UniqueIds(input) && Exact(d, input) && i in input
    ensures (i.identityId !in PairMembers(d.pairs) + ClusterMembers(d.sharedKeyClusters)
               + CollisionMembers(d.crossDestinationCollisions) + IncompleteMembers(d.incompleteGeography))
       <==> forall reason :: QuietOn(input, i, reason)
  {
    hide Exact, QuietOn, InPair, InCluster, InCollision, InIncomplete, UniqueIds;
    PairMembership(d, input, i.identityId);
    ClusterMembership(d, input, i.identityId);
    CollisionMembership(d, input, i.identityId);
    IncompleteMembership(d, input, i.identityId);
    if forall reason :: QuietOn(input, i, reason) {
      QuietIsNotSurfaced(input, i);
    } else {
      var reason :| !QuietOn(input, i, reason);
      NotQuietIsSurfaced(input, i, reason);
    }
  }

  /**
   The residual queue, exactly, of what discovery returns: no reason surfaced a surviving identity iff on
   every reason its key is absent, or it is alone in its scope's bucket and the key spans at most one known
   destination. When the ids are unique every input identity survives.
   */
  lemma NoMachineFindingMeaning(input: seq<Blockable>, d: DiscoveryResult, i: Blockable)
    requires Exact(d, Latest(input)) && i in Latest(input)
    ensures (i.identityId !in PairMembers(d.pairs) + ClusterMembers(d.sharedKeyClusters)
               + CollisionMembers(d.crossDestinationCollisions) + IncompleteMembers(d.incompleteGeography))
       <==> forall reason :: QuietOn(Latest(input), i, reason)
    ensures UniqueIds(input) ==> Latest(input) == input
  {
    hide Exact, QuietOn, Latest, UniqueIds;
    LatestFacts(input);
    QuietMeaning(Latest(input), d, i);
    if UniqueIds(input) {
      LatestOfUnique(input);
    }
  }

  // ---- Order of the input does not matter. ----

  lemma SameMembers<T>(xs: seq<T>, ys: seq<T>)
    requires multiset(xs) == multiset(ys)
    ensures forall x :: x in xs <==> x in ys
  {
    forall x ensures x in xs <==> x in ys {
      assert x in xs <==> x in multiset(xs);
      assert x in ys <==> x in multiset(ys);
    }
  }

  lemma SameBuckets(xs: seq<Blockable>, ys: seq<Blockable>)
    requires forall x :: x in xs <==> x in ys
    ensures forall reason, d, k :: BucketIds(xs, reason, d, k) == BucketIds(ys, reason, d, k)
    ensures forall reason, k :: Vetoed(xs, reason, k) == Vetoed(ys, reason, k)
  {
    hide KeyFor;
  }

  lemma SameCarries(xs: seq<Blockable>, ys: seq<Blockable>)
    requires forall x :: x in xs <==> x in ys
    ensures forall l, r, reason :: Carries(xs, l, r, reason) == Carries(ys, l, r, reason)
    ensures forall id :: InCluster(xs, id) == InCluster(ys, id) && InIncomplete(xs, id) == InIncomplete(ys, id)
    ensures forall id :: InCollision(xs, id) == InCollision(ys, id)
  {
    SameBuckets(xs, ys);
    hide KeyFor, BucketIds, Vetoed;
  }

  /** A strictly ascending list is determined by its members. */
  lemma {:induction false} AscendingOnce<T(!new)>(key: T -> string, ps: seq<T>, qs: seq<T>)
    requires forall a, b | 0 <= a < b < |ps| :: Less(key(ps[a]), key(ps[b]))
    requires forall a, b | 0 <= a < b < |qs| :: Less(key(qs[a]), key(qs[b]))
    requires forall p :: p in ps <==> p in qs
    ensures ps == qs
  {
    hide Less;
    if ps == [] {
      SameEmptiness(ps, qs);
    } else {
      SameEmptiness(qs, ps);
      SameHead(key, ps, qs);
      forall p ensures p in ps[1..] <==> p in qs[1..] {
        TailMember(key, ps, p);
        TailMember(key, qs, p);
      }
      AscendingOnce(key, ps[1..], qs[1..]);
      assert ps == [ps[0]] + ps[1..] && qs == [qs[0]] + qs[1..];
    }
  }

  lemma SameEmptiness<T>(ps: seq<T>, qs: seq<T>)
    requires forall p :: p in ps <==> p in qs
    ensures ps == [] ==> qs == []
  {
    if |qs| > 0 {
      assert qs[0] in qs;
    }
  }

  lemma SameHead<T(!new)>(key: T -> string, ps: seq<T>, qs: seq<T>)
    requires ps != [] && qs != [] && forall p :: p in ps <==> p in qs
    requires forall a, b | 0 <= a < b < |ps| :: Less(key(ps[a]), key(ps[b]))
    requires forall a, b | 0 <= a < b < |qs| :: Less(key(qs[a]), key(qs[b]))
    ensures ps[0] == qs[0]
  {
    hide Less;
    assert ps[0] in qs && qs[0] in ps;
    var a :| 0 <= a < |qs| && qs[a] == ps[0];
    var b :| 0 <= b < |ps| && ps[b] == qs[0];
    if a > 0 {
      LessAsymmetric(key(qs[0]), key(qs[a]));
    }
  }

  lemma TailMember<T>(key: T -> string, ps: seq<T>, p: T)
    requires ps != [] && forall a, b | 0 <= a < b < |ps| :: Less(key(ps[a]), key(ps[b]))
    ensures p in ps[1..] <==> p in ps && p != ps[0]
  {
    LessIrreflexive(key(ps[0]));
    if p in ps && p != ps[0] {
      var a :| 0 <= a < |ps| && ps[a] == p;
      assert ps[1..][a - 1] == p;
    }
  }

  lemma SamePairs(d: DiscoveryResult, e: DiscoveryResult, xs: seq<Blockable>, ys: seq<Blockable>, p: CandidatePair)
    requires Exact(d, xs) && Exact(e, ys) && (forall x :: x in xs <==> x in ys) && p in d.pairs
    ensures p in e.pairs
  {
    hide Carries, ClustersExact, CollisionsExact, IncompleteExact;
    SameCarries(xs, ys);
    var l, r := p.leftIdentityId, p.rightIdentityId;
    assert p.reasons[0] in p.reasons;
    assert Carries(xs, l, r, p.reasons[0]);
    var q :| q in e.pairs && q.leftIdentityId == l && q.rightIdentityId == r;
    FilterAgree(z => Carries(xs, l, r, z), z => Carries(ys, l, r, z), BLOCKING_REASONS);
    assert q == p;
  }

  lemma FindingsOrderFree(d: DiscoveryResult, e: DiscoveryResult, xs: seq<Blockable>, ys: seq<Blockable>)
    requires Exact(d, xs) && Exact(e, ys) && multiset(xs) == multiset(ys)
    ensures d.pairs == e.pairs
    ensures ClusterMembers(d.sharedKeyClusters) == ClusterMembers(e.sharedKeyClusters)
    ensures CollisionMembers(d.crossDestinationCollisions) == CollisionMembers(e.crossDestinationCollisions)
    ensures IncompleteMembers(d.incompleteGeography) == IncompleteMembers(e.incompleteGeography)
  {
    hide Less, PairKey, ClustersExact, CollisionsExact, IncompleteExact, InCluster, InCollision, InIncomplete, Carries;
    SameMembers(xs, ys);
    SameCarries(xs, ys);
    forall p: CandidatePair ensures p in d.pairs <==> p in e.pairs {
      if p in d.pairs { SamePairs(d, e, xs, ys, p); }
      if p in e.pairs { SamePairs(e, d, ys, xs, p); }
    }
    AscendingOnce(PairKey, d.pairs, e.pairs);
    forall id: Id ensures id in ClusterMembers(d.sharedKeyClusters) <==> id in ClusterMembers(e.sharedKeyClusters) {
      ClusterMembership(d, xs, id);
      ClusterMembership(e, ys, id);
    }
    forall id: Id ensures id in CollisionMembers(d.crossDestinationCollisions) <==> id in CollisionMembers(e.crossDestinationCollisions) {
      CollisionMembership(d, xs, id);
      CollisionMembership(e, ys, id);
    }
    forall id: Id ensures id in IncompleteMembers(d.incompleteGeography) <==> id in IncompleteMembers(e.incompleteGeography) {
      IncompleteMembership(d, xs, id);
      IncompleteMembership(e, ys, id);
    }
  }

  lemma UniqueUnderPermutation(xs: seq<Blockable>, ys: seq<Blockable>)
    requires multiset(xs) == multiset(ys) && UniqueIds(xs)
    ensures UniqueIds(ys)
  {
    forall a, b | 0 <= a < b < |ys| ensures ys[a].identityId != ys[b].identityId {
      assert ys[a] in multiset(xs) && ys[b] in multiset(xs);
      if ys[a].identityId == ys[b].identityId {
        SoleOwner(xs, ys[a], ys[b]);
        TwiceCounts(ys, a, b);
        OnceEach(xs, ys[a]);
        assert false;
      }
    }
  }

  /** With unique ids, what discovery returns is the same pair list and the same finding sets for every order of its input. */
  lemma DiscoveryOrderFree(d: DiscoveryResult, e: DiscoveryResult, xs: seq<Blockable>, ys: seq<Blockable>)
    requires UniqueIds(xs) && multiset(xs) == multiset(ys)
    requires Exact(d, Latest(xs)) && Exact(e, Latest(ys))
    ensures d.pairs == e.pairs && d.pairsByReason == e.pairsByReason
    ensures ClusterMembers(d.sharedKeyClusters) == ClusterMembers(e.sharedKeyClusters)
    ensures CollisionMembers(d.crossDestinationCollisions) == CollisionMembers(e.crossDestinationCollisions)
    ensures IncompleteMembers(d.incompleteGeography) == IncompleteMembers(e.incompleteGeography)
    ensures forall c | c in d.sharedKeyClusters :: c in e.sharedKeyClusters
    ensures forall c | c in d.incompleteGeography :: c in e.incompleteGeography
  {
    hide Exact, UniqueIds, Latest;
    UniqueUnderPermutation(xs, ys);
    LatestOfUnique(xs);
    LatestOfUnique(ys);
    FindingsOrderFree(d, e, xs, ys);
    SameMembers(xs, ys);
    SameTallies(d, e, xs, ys);
    forall c | c in d.sharedKeyClusters ensures c in e.sharedKeyClusters {
      SameCluster(d, e, xs, ys, c);
    }
    forall c | c in d.incompleteGeography ensures c in e.incompleteGeography {
      SameIncomplete(d, e, xs, ys, c);
    }
  }

  lemma SameTallies(d: DiscoveryResult, e: DiscoveryResult, xs: seq<Blockable>, ys: seq<Blockable>)
    requires Exact(d, xs) && Exact(e, ys) && d.pairs == e.pairs
    ensures d.pairsByReason == e.pairsByReason
  {
    hide PairsExact, ClustersExact, CollisionsExact, IncompleteExact, Filter;
  }

  lemma SameCluster(d: DiscoveryResult, e: DiscoveryResult, xs: seq<Blockable>, ys: seq<Blockable>, c: SharedKeyCluster)
    requires Exact(d, xs) && Exact(e, ys) && (forall x :: x in xs <==> x in ys) && c in d.sharedKeyClusters
    ensures c in e.sharedKeyClusters
  {
    hide PairsExact, CollisionsExact, IncompleteExact, BucketIds, Listed;
    SameBuckets(xs, ys);
    var f :| f in e.sharedKeyClusters && f.reason == c.reason && f.destinationId == c.destinationId && f.key == c.key;
    ListedOnce(c.identityIds, f.identityIds, BucketIds(xs, c.reason, Some(c.destinationId), c.key));
  }

  lemma SameIncomplete(d: DiscoveryResult, e: DiscoveryResult, xs: seq<Blockable>, ys: seq<Blockable>, c: IncompleteKey)
    requires Exact(d, xs) && Exact(e, ys) && (forall x :: x in xs <==> x in ys) && c in d.incompleteGeography
    ensures c in e.incompleteGeography
  {
    hide PairsExact, CollisionsExact, ClustersExact, BucketIds, Listed;
    SameBuckets(xs, ys);
    var f :| f in e.incompleteGeography && f.reason == c.reason && f.key == c.key;
    ListedOnce(c.identityIds, f.identityIds, BucketIds(xs, c.reason, None, c.key));
  }

  lemma ListedOnce(a: seq<Id>, b: seq<Id>, s: set<Id>)
    requires Listed(a, s) && Listed(b, s)
    ensures a == b
  {
    hide Less;
    forall x ensures x in a <==> x in b {
      assert x in a <==> x in Members(a);
      assert x in b <==> x in Members(b);
    }
    AscendingOnce(Self, a, b);
  }
}

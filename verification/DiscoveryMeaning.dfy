/**
 What discovery returns, read off the three key columns themselves (scripts/entity-resolution/candidates.ts):
 an `exact_phone` pair shares a phone key, an `exact_domain` pair a domain key, an
 `exact_name_in_destination` pair a name key.
 */
module DiscoveryMeaning {
  import opened Prelude
  import opened Text
  import opened Sequences
  import opened Discovery
  import opened Queues

  type Column = Blockable -> Option<string>

  /** The identities of one destination (None: unknown) that hold this value in the column. */
  function Sharing(xs: seq<Blockable>, column: Column, d: Option<string>, k: string): set<Id> {
    set i | i in xs && i.destinationId == d && column(i) == Some(k) :: i.identityId
  }

  /** The value occurs in at most one known destination. */
  predicate OneKnownDestination(xs: seq<Blockable>, column: Column, k: string) {
    forall a, b | a in xs && b in xs && column(a) == Some(k) && column(b) == Some(k)
                  && a.destinationId.Some? && b.destinationId.Some? :: a.destinationId == b.destinationId
  }

  /** Some known destination holds the value in exactly these two, and no other known destination holds it. */
  ghost predicate PairOn(xs: seq<Blockable>, column: Column, l: Id, r: Id) {
    exists d: string, k: string :: Sharing(xs, column, Some(d), k) == {l, r} && OneKnownDestination(xs, column, k)
  }

  /** No value, or alone with it in its own scope while at most one known destination holds it. */
  predicate AloneOn(xs: seq<Blockable>, column: Column, i: Blockable) {
    column(i).Some? ==>
      && Sharing(xs, column, i.destinationId, column(i).value) == {i.identityId}
      && OneKnownDestination(xs, column, column(i).value)
  }

  lemma ColumnBuckets(xs: seq<Blockable>, column: Column, reason: Reason)
    requires forall i :: column(i) == KeyFor(reason, i)
    ensures forall d, k :: Sharing(xs, column, d, k) == BucketIds(xs, reason, d, k)
    ensures forall k :: OneKnownDestination(xs, column, k) == !Vetoed(xs, reason, k)
  {
    hide KeyFor;
  }

  lemma CarriesOn(xs: seq<Blockable>, column: Column, reason: Reason, l: Id, r: Id)
    requires forall i :: column(i) == KeyFor(reason, i)
    ensures Carries(xs, l, r, reason) <==> Less(l, r) && PairOn(xs, column, l, r)
  {
    hide KeyFor, Sharing, OneKnownDestination, BucketIds, Vetoed, Less;
    ColumnBuckets(xs, column, reason);
    if Carries(xs, l, r, reason) {
      var d: string, k: string :| BucketIds(xs, reason, Some(d), k) == {l, r} && !Vetoed(xs, reason, k);
      assert Sharing(xs, column, Some(d), k) == {l, r};
    }
    if PairOn(xs, column, l, r) {
      var d: string, k: string :| Sharing(xs, column, Some(d), k) == {l, r} && OneKnownDestination(xs, column, k);
      assert BucketIds(xs, reason, Some(d), k) == {l, r};
    }
  }

  ghost predicate Lists(d: DiscoveryResult, l: Id, r: Id, reason: Reason) {
    exists p | p in d.pairs :: p.leftIdentityId == l && p.rightIdentityId == r && reason in p.reasons
  }

  lemma ListsOn(d: DiscoveryResult, xs: seq<Blockable>, l: Id, r: Id, reason: Reason, column: Column)
    requires Exact(d, xs) && forall b :: column(b) == KeyFor(reason, b)
    ensures Lists(d, l, r, reason) <==> Less(l, r) && PairOn(xs, column, l, r)
  {
    hide Exact, Carries, PairOn, Less, KeyFor;
    PairCarriesReason(d, xs, l, r, reason);
    CarriesOn(xs, column, reason, l, r);
  }

  /** Each reason on a listed pair is its own column's sharing, and every such sharing is listed. */
  lemma PairsOverColumns(d: DiscoveryResult, xs: seq<Blockable>, l: Id, r: Id)
    requires Exact(d, xs)
    ensures Lists(d, l, r, ExactDomain) <==> Less(l, r) && PairOn(xs, (b: Blockable) => b.domainKey, l, r)
    ensures Lists(d, l, r, ExactPhone) <==> Less(l, r) && PairOn(xs, (b: Blockable) => b.phoneKey, l, r)
    ensures Lists(d, l, r, ExactNameInDestination) <==> Less(l, r) && PairOn(xs, (b: Blockable) => b.nameKey, l, r)
  {
    hide Exact, Lists, PairOn, Less;
    ListsOn(d, xs, l, r, ExactDomain, (b: Blockable) => b.domainKey);
    ListsOn(d, xs, l, r, ExactPhone, (b: Blockable) => b.phoneKey);
    ListsOn(d, xs, l, r, ExactNameInDestination, (b: Blockable) => b.nameKey);
  }

  lemma QuietIsAlone(xs: seq<Blockable>, column: Column, reason: Reason, i: Blockable)
    requires forall b :: column(b) == KeyFor(reason, b)
    ensures QuietOn(xs, i, reason) <==> AloneOn(xs, column, i)
  {
    ColumnBuckets(xs, column, reason);
    hide KeyFor, Sharing, OneKnownDestination, BucketIds, Vetoed;
  }

  /** No machine finding, over the columns: alone on its domain, on its phone and on its name. */
  lemma NoFindingOverColumns(input: seq<Blockable>, d: DiscoveryResult, i: Blockable)
    requires Exact(d, Latest(input)) && i in Latest(input)
    ensures (i.identityId !in PairMembers(d.pairs) + ClusterMembers(d.sharedKeyClusters)
               + CollisionMembers(d.crossDestinationCollisions) + IncompleteMembers(d.incompleteGeography))
       <==> && AloneOn(Latest(input), (b: Blockable) => b.domainKey, i)
            && AloneOn(Latest(input), (b: Blockable) => b.phoneKey, i)
            && AloneOn(Latest(input), (b: Blockable) => b.nameKey, i)
  {
    hide Exact, Latest, QuietOn, AloneOn;
    var xs := Latest(input);
    NoMachineFindingMeaning(input, d, i);
    QuietIsAlone(xs, (b: Blockable) => b.domainKey, ExactDomain, i);
    QuietIsAlone(xs, (b: Blockable) => b.phoneKey, ExactPhone, i);
    QuietIsAlone(xs, (b: Blockable) => b.nameKey, ExactNameInDestination, i);
    ThreeReasons(xs, i);
  }

  lemma ThreeReasons(xs: seq<Blockable>, i: Blockable)
    ensures (forall reason :: QuietOn(xs, i, reason)) <==>
      QuietOn(xs, i, ExactDomain) && QuietOn(xs, i, ExactPhone) && QuietOn(xs, i, ExactNameInDestination)
  {
    hide QuietOn;
    if QuietOn(xs, i, ExactDomain) && QuietOn(xs, i, ExactPhone) && QuietOn(xs, i, ExactNameInDestination) {
      forall reason ensures QuietOn(xs, i, reason) {
        match reason
        case ExactDomain =>
        case ExactPhone =>
        case ExactNameInDestination =>
      }
    }
  }

  // ---- Clusters, collisions and unknown geography. ----

  /** The findings of one reason are exactly its column's: crowded buckets, spread values, unknown destinations. */
  ghost predicate FindingsOn(d: DiscoveryResult, xs: seq<Blockable>, reason: Reason, column: Column) {
    && (forall dest: string, k: string ::
          (exists c | c in d.sharedKeyClusters :: c.reason == reason && c.destinationId == dest && c.key == k)
          <==> |Sharing(xs, column, Some(dest), k)| > 2)
    && (forall k: string ::
          (exists c | c in d.crossDestinationCollisions :: c.reason == reason && c.key == k)
          <==> !OneKnownDestination(xs, column, k))
    && (forall k: string ::
          (exists c | c in d.incompleteGeography :: c.reason == reason && c.key == k)
          <==> |Sharing(xs, column, None, k)| >= 2)
    && (forall c | c in d.sharedKeyClusters && c.reason == reason ::
          Members(c.identityIds) == Sharing(xs, column, Some(c.destinationId), c.key))
    && (forall c | c in d.crossDestinationCollisions && c.reason == reason ::
          Members(c.identityIds) == (set i | i in xs && column(i) == Some(c.key) :: i.identityId))
    && (forall c | c in d.incompleteGeography && c.reason == reason ::
          Members(c.identityIds) == Sharing(xs, column, None, c.key))
  }

  lemma FindingsByColumn(d: DiscoveryResult, xs: seq<Blockable>, reason: Reason, column: Column)
    requires Exact(d, xs) && forall b :: column(b) == KeyFor(reason, b)
    ensures FindingsOn(d, xs, reason, column)
  {
    ReasonListed(reason);
    ClustersByColumn(d, xs, reason, column);
    CollisionsByColumn(d, xs, reason, column);
    IncompleteByColumn(d, xs, reason, column);
  }

  lemma ClustersByColumn(d: DiscoveryResult, xs: seq<Blockable>, reason: Reason, column: Column)
    requires Exact(d, xs) && (forall b :: column(b) == KeyFor(reason, b)) && reason in AllReasons()
    ensures forall dest: string, k: string ::
      (exists c | c in d.sharedKeyClusters :: c.reason == reason && c.destinationId == dest && c.key == k)
      <==> |Sharing(xs, column, Some(dest), k)| > 2
    ensures forall c | c in d.sharedKeyClusters && c.reason == reason ::
      Members(c.identityIds) == Sharing(xs, column, Some(c.destinationId), c.key)
  {
    hide PairsExact, CollisionsExact, IncompleteExact, BucketIds, Sharing, OneKnownDestination, Vetoed, KeyFor;
    ColumnBuckets(xs, column, reason);
  }

  lemma CollisionsByColumn(d: DiscoveryResult, xs: seq<Blockable>, reason: Reason, column: Column)
    requires Exact(d, xs) && (forall b :: column(b) == KeyFor(reason, b)) && reason in AllReasons()
    ensures forall k: string ::
      (exists c | c in d.crossDestinationCollisions :: c.reason == reason && c.key == k) <==> !OneKnownDestination(xs, column, k)
    ensures forall c | c in d.crossDestinationCollisions && c.reason == reason ::
      Members(c.identityIds) == (set i | i in xs && column(i) == Some(c.key) :: i.identityId)
  {
    hide PairsExact, ClustersExact, IncompleteExact, BucketIds, Sharing, OneKnownDestination, Vetoed, KeyFor;
    ColumnBuckets(xs, column, reason);
    forall c | c in d.crossDestinationCollisions && c.reason == reason
      ensures Members(c.identityIds) == (set i | i in xs && column(i) == Some(c.key) :: i.identityId)
    {
      assert Listed(c.identityIds, KeyIds(xs, c.reason, c.key));
    }
  }

  lemma IncompleteByColumn(d: DiscoveryResult, xs: seq<Blockable>, reason: Reason, column: Column)
    requires Exact(d, xs) && (forall b :: column(b) == KeyFor(reason, b)) && reason in AllReasons()
    ensures forall k: string ::
      (exists c | c in d.incompleteGeography :: c.reason == reason && c.key == k) <==> |Sharing(xs, column, None, k)| >= 2
    ensures forall c | c in d.incompleteGeography && c.reason == reason ::
      Members(c.identityIds) == Sharing(xs, column, None, c.key)
  {
    hide PairsExact, ClustersExact, CollisionsExact, BucketIds, Sharing, OneKnownDestination, Vetoed, KeyFor;
    ColumnBuckets(xs, column, reason);
  }

  /** Clusters, collisions and unknown-geography findings, each over its own column. */
  lemma FindingsOverColumns(d: DiscoveryResult, xs: seq<Blockable>)
    requires Exact(d, xs)
    ensures FindingsOn(d, xs, ExactDomain, (b: Blockable) => b.domainKey)
    ensures FindingsOn(d, xs, ExactPhone, (b: Blockable) => b.phoneKey)
    ensures FindingsOn(d, xs, ExactNameInDestination, (b: Blockable) => b.nameKey)
  {
    hide Exact, FindingsOn;
    FindingsByColumn(d, xs, ExactDomain, (b: Blockable) => b.domainKey);
    FindingsByColumn(d, xs, ExactPhone, (b: Blockable) => b.phoneKey);
    FindingsByColumn(d, xs, ExactNameInDestination, (b: Blockable) => b.nameKey);
  }

  /** And no column's finding is reported twice: one cluster for a place and value, one collision and one unknown place for a value. */
  lemma FindingsAreOnce(d: DiscoveryResult, xs: seq<Blockable>)
    requires Exact(d, xs) && EachOnce(d)
    ensures forall a, b | 0 <= a < b < |d.sharedKeyClusters| ::
      var c, e := d.sharedKeyClusters[a], d.sharedKeyClusters[b];
      c.reason != e.reason || c.destinationId != e.destinationId || c.key != e.key
    ensures forall a, b | 0 <= a < b < |d.incompleteGeography| ::
      var c, e := d.incompleteGeography[a], d.incompleteGeography[b]; c.reason != e.reason || c.key != e.key
  {
    hide PairsExact, CollisionsExact, BucketIds, Listed;
    forall a, b | 0 <= a < b < |d.sharedKeyClusters|
      ensures var c, e := d.sharedKeyClusters[a], d.sharedKeyClusters[b];
        c.reason != e.reason || c.destinationId != e.destinationId || c.key != e.key
    {
      var c, e := d.sharedKeyClusters[a], d.sharedKeyClusters[b];
      assert c in d.sharedKeyClusters && e in d.sharedKeyClusters;
      if c.reason == e.reason && c.destinationId == e.destinationId && c.key == e.key {
        ListedOnce(c.identityIds, e.identityIds, BucketIds(xs, c.reason, Some(c.destinationId), c.key));
      }
    }
    forall a, b | 0 <= a < b < |d.incompleteGeography|
      ensures var c, e := d.incompleteGeography[a], d.incompleteGeography[b]; c.reason != e.reason || c.key != e.key
    {
      var c, e := d.incompleteGeography[a], d.incompleteGeography[b];
      assert c in d.incompleteGeography && e in d.incompleteGeography;
      if c.reason == e.reason && c.key == e.key {
        ListedOnce(c.identityIds, e.identityIds, BucketIds(xs, c.reason, None, c.key));
      }
    }
  }
}

/**
 Candidate discovery (scripts/entity-resolution/candidates.ts): bucketing loops over insertion-ordered
 maps, and the declarative meaning of what they surface. The blocking keys themselves are inputs.
 */
module Discovery {
  import opened Prelude
  import opened Text
  import opened Sequences

  datatype Reason = ExactDomain | ExactPhone | ExactNameInDestination

  const BLOCKING_REASONS: seq<Reason> := [ExactDomain, ExactPhone, ExactNameInDestination]

  /** One current observation; its three normalised keys are whatever the normalisers gave. */
  datatype Blockable = Blockable(
    identityId: Id, destinationId: Option<string>, domainKey: Option<string>, phoneKey: Option<string>,
    nameKey: Option<string>)

  function KeyFor(reason: Reason, i: Blockable): Option<string> {
    match reason
    case ExactDomain => i.domainKey
    case ExactPhone => i.phoneKey
    case ExactNameInDestination => i.nameKey
  }

  datatype CandidatePair = CandidatePair(leftIdentityId: Id, rightIdentityId: Id, reasons: seq<Reason>)
  datatype SharedKeyCluster = SharedKeyCluster(reason: Reason, key: string, destinationId: string, identityIds: seq<Id>)
  datatype Collision = Collision(reason: Reason, key: string, destinationIds: seq<Option<string>>, identityIds: seq<Id>)
  datatype IncompleteKey = IncompleteKey(reason: Reason, key: string, identityIds: seq<Id>)

  datatype DiscoveryResult = DiscoveryResult(
    pairs: seq<CandidatePair>, sharedKeyClusters: seq<SharedKeyCluster>,
    crossDestinationCollisions: seq<Collision>, incompleteGeography: seq<IncompleteKey>,
    pairsByReason: map<Reason, nat>)

  // ---- What the findings mean. ----

  predicate UniqueIds(xs: seq<Blockable>) {
    forall a, b | 0 <= a < b < |xs| :: xs[a].identityId != xs[b].identityId
  }

  predicate At(i: Blockable, reason: Reason, d: Option<string>, k: string) {
    i.destinationId == d && KeyFor(reason, i) == Some(k)
  }

  /** The identities sharing key `k` in destination `d` (None: destination unknown). */
  function BucketIds(xs: seq<Blockable>, reason: Reason, d: Option<string>, k: string): set<Id> {
    set i | i in xs && At(i, reason, d, k) :: i.identityId
  }

  /** The key is seen in two known destinations: evidence about a chain, not a property. */
  predicate Vetoed(xs: seq<Blockable>, reason: Reason, k: string) {
    exists a, b | a in xs && b in xs ::
      && a.destinationId.Some? && b.destinationId.Some? && a.destinationId != b.destinationId
      && KeyFor(reason, a) == Some(k) && KeyFor(reason, b) == Some(k)
  }

  /** Some known destination's bucket is exactly these two, and the key occurs in no other known destination. */
  ghost predicate Carries(xs: seq<Blockable>, l: Id, r: Id, reason: Reason) {
    && Less(l, r)
    && exists d: string, k: string ::
         BucketIds(xs, reason, Some(d), k) == {l, r} && !Vetoed(xs, reason, k)
  }

  ghost predicate InCluster(xs: seq<Blockable>, id: Id) {
    exists reason: Reason, d: string, k: string ::
      id in BucketIds(xs, reason, Some(d), k) && |BucketIds(xs, reason, Some(d), k)| > 2
  }

  ghost predicate InCollision(xs: seq<Blockable>, id: Id) {
    exists i, reason: Reason, k: string :: i in xs && i.identityId == id && KeyFor(reason, i) == Some(k) && Vetoed(xs, reason, k)
  }

  ghost predicate InIncomplete(xs: seq<Blockable>, id: Id) {
    exists reason: Reason, k: string ::
      id in BucketIds(xs, reason, None, k) && |BucketIds(xs, reason, None, k)| >= 2
  }

  // ---- Space-joined keys. Ids and destinations are UUIDs: every character sorts after the space. ----

  predicate Plain(s: string) { forall c | c in s :: c > ' ' }

  function Join(a: string, b: string): string { a + " " + b }

  function IndexOfSpace(s: string): nat
    ensures IndexOfSpace(s) <= |s|
  {
    if s == "" || s[0] == ' ' then 0 else 1 + IndexOfSpace(s[1..])
  }

  function BeforeSpace(s: string): string { s[..IndexOfSpace(s)] }

  function AfterSpace(s: string): string {
    if IndexOfSpace(s) < |s| then s[IndexOfSpace(s) + 1..] else ""
  }

  lemma {:induction false} JoinSplits(a: string, b: string)
    requires Plain(a)
    ensures IndexOfSpace(Join(a, b)) == |a| && BeforeSpace(Join(a, b)) == a && AfterSpace(Join(a, b)) == b
  {
    if a != "" {
      assert a[0] in a && forall c | c in a[1..] :: c in a;
      JoinSplits(a[1..], b);
      assert Join(a, b)[1..] == Join(a[1..], b);
    }
    assert Join(a, b)[..|a|] == a && Join(a, b)[|a| + 1..] == b;
  }

  /** Ordering the joined text is ordering by the left id and then the right one. */
  lemma {:induction false} JoinOrder(a: string, b: string, c: string, d: string)
    requires Plain(a) && Plain(c)
    ensures Less(Join(a, b), Join(c, d)) <==> Less(a, c) || (a == c && Less(b, d))
  {
    if a != "" && c != "" {
      assert a[0] in a && c[0] in c && (forall x | x in a[1..] :: x in a) && (forall x | x in c[1..] :: x in c);
      assert Join(a, b)[1..] == Join(a[1..], b) && Join(c, d)[1..] == Join(c[1..], d);
      JoinOrder(a[1..], b, c[1..], d);
      assert a == [a[0]] + a[1..] && c == [c[0]] + c[1..];
    } else {
      assert Join("", b)[1..] == b && Join("", d)[1..] == d;
      assert a != "" ==> a[0] in a;
      assert c != "" ==> c[0] in c;
    }
  }

  // ---- Insertion-ordered maps of lists. ----

  datatype Buckets = Buckets(order: seq<string>, at: map<string, seq<Blockable>>)

  function Push(b: Buckets, key: string, i: Blockable): Buckets {
    if key in b.at then b.(at := b.at[key := b.at[key] + [i]])
    else Buckets(b.order + [key], b.at[key := [i]])
  }

  /** The buckets hold exactly the inputs of each class, in input order. */
  ghost predicate Groups(b: Buckets, xs: seq<Blockable>, classOf: Blockable -> Option<string>) {
    && NoRepeats(b.order) && (forall k :: k in b.order <==> k in b.at)
    && (forall k :: k in b.at <==> exists i | i in xs :: classOf(i) == Some(k))
    && (forall k | k in b.at :: b.at[k] == Filter(i => classOf(i) == Some(k), xs))
  }

  lemma PushedList(b: Buckets, xs: seq<Blockable>, classOf: Blockable -> Option<string>, x: Blockable, k: string)
    requires Groups(b, xs, classOf)
    requires k in b.at || classOf(x) == Some(k)
    ensures Filter(i => classOf(i) == Some(k), xs + [x])
         == (if k in b.at then b.at[k] else []) + (if classOf(x) == Some(k) then [x] else [])
  {
    var keep := (i: Blockable) => classOf(i) == Some(k);
    FilterAppend(keep, xs, [x]);
    assert Filter(keep, [x]) == if keep(x) then [x] else [];
    if k !in b.at {
      NothingKept(keep, xs);
    }
  }

  lemma PushedKeys(b: Buckets, xs: seq<Blockable>, classOf: Blockable -> Option<string>, x: Blockable)
    requires Groups(b, xs, classOf)
    ensures var b' := Pushed(b, classOf, x);
      && NoRepeats(b'.order) && (forall k :: k in b'.order <==> k in b'.at)
      && (forall k :: k in b'.at <==> k in b.at || classOf(x) == Some(k))
      && (forall k :: k in b'.at <==> exists i | i in xs + [x] :: classOf(i) == Some(k))
  {
    assert x in xs + [x] && forall i | i in xs :: i in xs + [x];
  }

  function Pushed(b: Buckets, classOf: Blockable -> Option<string>, x: Blockable): Buckets {
    if classOf(x).Some? then Push(b, classOf(x).value, x) else b
  }

  lemma PushedLists(b: Buckets, xs: seq<Blockable>, classOf: Blockable -> Option<string>, x: Blockable, k: string)
    requires Groups(b, xs, classOf) && k in Pushed(b, classOf, x).at
    ensures Pushed(b, classOf, x).at[k] == Filter(i => classOf(i) == Some(k), xs + [x])
  {
    PushedList(b, xs, classOf, x, k);
    hide Filter;
  }

  lemma PushedGroups(b: Buckets, xs: seq<Blockable>, classOf: Blockable -> Option<string>, x: Blockable)
    requires Groups(b, xs, classOf)
    ensures Groups(Pushed(b, classOf, x), xs + [x], classOf)
  {
    PushedKeys(b, xs, classOf, x);
    var b' := Pushed(b, classOf, x);
    hide Filter, Push, Pushed, NoRepeats;
    forall k | k in b'.at ensures b'.at[k] == Filter(i => classOf(i) == Some(k), xs + [x]) {
      PushedLists(b, xs, classOf, x, k);
    }
  }

  lemma PushGroups(b: Buckets, xs: seq<Blockable>, classOf: Blockable -> Option<string>, x: Blockable)
    requires Groups(b, xs, classOf)
    ensures classOf(x).None? ==> Groups(b, xs + [x], classOf)
    ensures classOf(x).Some? ==> Groups(Push(b, classOf(x).value, x), xs + [x], classOf)
  {
    hide Groups, Push;
    PushedGroups(b, xs, classOf, x);
  }

  lemma {:induction false} NothingKept<T(!new)>(keep: T -> bool, xs: seq<T>)
    requires forall x | x in xs :: !keep(x)
    ensures Filter(keep, xs) == []
  {
    if xs != [] {
      assert xs[0] in xs && forall x | x in xs[1..] :: x in xs;
      NothingKept(keep, xs[1..]);
    }
  }

  function ScopedKey(reason: Reason, i: Blockable): Option<string> {
    if i.destinationId.Some? && KeyFor(reason, i).Some? then Some(Join(i.destinationId.value, KeyFor(reason, i).value))
    else None
  }

  function UnknownKey(reason: Reason, i: Blockable): Option<string> {
    if i.destinationId.None? then KeyFor(reason, i) else None
  }

  lemma NothingGrouped(classOf: Blockable -> Option<string>)
    ensures Groups(Buckets([], map[]), [], classOf)
  {
  }

  /** One pass, three groupings: within the destination, across all of them, and where it is unknown. */
  method GroupByKey(xs: seq<Blockable>, reason: Reason) returns (scoped: Buckets, global: Buckets, unknown: Buckets)
    ensures Groups(scoped, xs, i => ScopedKey(reason, i))
    ensures Groups(global, xs, i => KeyFor(reason, i))
    ensures Groups(unknown, xs, i => UnknownKey(reason, i))
  {
    hide Push, Groups, KeyFor;
    scoped, global, unknown := Buckets([], map[]), Buckets([], map[]), Buckets([], map[]);
    NothingGrouped(i => ScopedKey(reason, i));
    NothingGrouped(i => KeyFor(reason, i));
    NothingGrouped(i => UnknownKey(reason, i));
    assert xs[..0] == [];
    for n := 0 to |xs|
      invariant Groups(scoped, xs[..n], i => ScopedKey(reason, i))
      invariant Groups(global, xs[..n], i => KeyFor(reason, i))
      invariant Groups(unknown, xs[..n], i => UnknownKey(reason, i))
    {
      var identity := xs[n];
      assert xs[..n + 1] == xs[..n] + [identity];
      PushGroups(scoped, xs[..n], i => ScopedKey(reason, i), identity);
      PushGroups(global, xs[..n], i => KeyFor(reason, i), identity);
      PushGroups(unknown, xs[..n], i => UnknownKey(reason, i), identity);
      var key := KeyFor(reason, identity);
      if key.None? {
        continue;
      }
      if identity.destinationId.None? {
        unknown := Push(unknown, key.value, identity);
      } else {
        scoped := Push(scoped, Join(identity.destinationId.value, key.value), identity);
      }
      global := Push(global, key.value, identity);
    }
    assert xs[..|xs|] == xs;
  }

  /** The veto, decided before any scoped bucket is expanded. */
  method DecideVeto(global: Buckets, xs: seq<Blockable>, reason: Reason) returns (vetoed: set<string>)
    requires Groups(global, xs, i => KeyFor(reason, i))
    ensures forall k :: k in vetoed <==> k in global.at && Vetoed(xs, reason, k)
  {
    hide Groups, Vetoed, KeyFor;
    GlobalOrder(global, xs, reason);
    vetoed := {};
    for n := 0 to |global.order|
      invariant forall k :: k in vetoed <==> k in global.order[..n] && Vetoed(xs, reason, k)
    {
      var key := global.order[n];
      assert key in global.order && global.order[..n + 1] == global.order[..n] + [key];
      var destinations := set m | m in global.at[key] && m.destinationId.Some? :: m.destinationId.value;
      assert |destinations| > 1 <==> Vetoed(xs, reason, key) by {
        GlobalBucket(global, xs, reason, key);
        ManyDestinations(xs, reason, key, destinations);
      }
      if |destinations| > 1 {
        vetoed := vetoed + {key};
      }
    }
    assert global.order[..|global.order|] == global.order;
  }

  lemma GlobalOrder(global: Buckets, xs: seq<Blockable>, reason: Reason)
    requires Groups(global, xs, i => KeyFor(reason, i))
    ensures NoRepeats(global.order)
    ensures forall k :: k in global.order <==> k in global.at
    ensures forall i, k | i in xs && KeyFor(reason, i) == Some(k) :: k in global.at
  {
  }

  lemma GlobalBucket(global: Buckets, xs: seq<Blockable>, reason: Reason, k: string)
    requires Groups(global, xs, i => KeyFor(reason, i)) && k in global.at
    ensures forall m :: m in global.at[k] <==> m in xs && KeyFor(reason, m) == Some(k)
  {
    hide KeyFor;
  }

  lemma ManyDestinations(xs: seq<Blockable>, reason: Reason, k: string, destinations: set<string>)
    requires forall d :: d in destinations <==> exists m | m in xs :: KeyFor(reason, m) == Some(k) && m.destinationId == Some(d)
    ensures |destinations| > 1 <==> Vetoed(xs, reason, k)
  {
    if Vetoed(xs, reason, k) {
      var a, b :| a in xs && b in xs && a.destinationId.Some? && b.destinationId.Some? && a.destinationId != b.destinationId
        && KeyFor(reason, a) == Some(k) && KeyFor(reason, b) == Some(k);
      assert a.destinationId.value in destinations && b.destinationId.value in destinations;
      assert {a.destinationId.value, b.destinationId.value} <= destinations;
      SubsetSize({a.destinationId.value, b.destinationId.value}, destinations);
    }
    if |destinations| > 1 {
      var d, e := TwoElements(destinations);
    }
  }

  lemma TwoElements<T>(s: set<T>) returns (a: T, b: T)
    requires |s| > 1
    ensures a in s && b in s && a != b
  {
    a :| a in s;
    assert |s - {a}| > 0;
    b :| b in s - {a};
  }

  // ---- A scoped bucket is one destination and one key. ----

  predicate PlainInput(xs: seq<Blockable>) {
    forall i | i in xs :: Plain(i.identityId) && (i.destinationId.Some? ==> Plain(i.destinationId.value))
  }

  function Ids(xs: seq<Blockable>): seq<Id> { Map((i: Blockable) => i.identityId, xs) }

  lemma {:induction false} FilterKeepsUnique(keep: Blockable -> bool, xs: seq<Blockable>)
    requires UniqueIds(xs)
    ensures UniqueIds(Filter(keep, xs))
  {
    if xs != [] {
      assert forall a | 0 <= a < |xs| - 1 :: xs[1..][a] == xs[a + 1];
      FilterKeepsUnique(keep, xs[1..]);
      forall y | y in Filter(keep, xs[1..]) ensures y.identityId != xs[0].identityId {
        var a :| 0 <= a < |xs| - 1 && xs[1..][a] == y;
      }
    }
  }

  lemma {:induction false} UniqueCount(ms: seq<Blockable>)
    requires UniqueIds(ms)
    ensures |set m | m in ms :: m.identityId| == |ms|
  {
    if ms != [] {
      var rest := ms[..|ms| - 1];
      var last := ms[|ms| - 1];
      assert ms == rest + [last];
      UniqueCount(rest);
      assert (set m | m in ms :: m.identityId) == (set m | m in rest :: m.identityId) + {last.identityId};
    }
  }

  /** The members of a bucket are the identities of one class, counted once each. */
  lemma BucketMembers(b: Buckets, xs: seq<Blockable>, classOf: Blockable -> Option<string>, k: string)
    requires Groups(b, xs, classOf) && UniqueIds(xs) && k in b.at
    ensures b.at[k] != [] && UniqueIds(b.at[k])
    ensures forall m :: m in b.at[k] <==> m in xs && classOf(m) == Some(k)
    ensures |set m | m in b.at[k] :: m.identityId| == |b.at[k]|
  {
    FilterKeepsUnique(i => classOf(i) == Some(k), xs);
    UniqueCount(b.at[k]);
  }

  lemma ScopedBucket(scoped: Buckets, xs: seq<Blockable>, reason: Reason, sk: string)
    requires Groups(scoped, xs, i => ScopedKey(reason, i)) && UniqueIds(xs) && PlainInput(xs) && sk in scoped.at
    ensures scoped.at[sk] != [] && UniqueIds(scoped.at[sk])
    ensures var d, k := BeforeSpace(sk), AfterSpace(sk);
      && sk == Join(d, k) && scoped.at[sk][0].destinationId == Some(d)
      && (forall m :: m in scoped.at[sk] <==> m in xs && At(m, reason, Some(d), k))
      && BucketIds(xs, reason, Some(d), k) == (set m | m in scoped.at[sk] :: m.identityId)
      && |BucketIds(xs, reason, Some(d), k)| == |scoped.at[sk]|
  {
    hide KeyFor;
    var classOf := (i: Blockable) => ScopedKey(reason, i);
    BucketMembers(scoped, xs, classOf, sk);
    var m0 := scoped.at[sk][0];
    assert m0 in scoped.at[sk];
    JoinSplits(m0.destinationId.value, KeyFor(reason, m0).value);
    var d, k := BeforeSpace(sk), AfterSpace(sk);
    forall m ensures m in scoped.at[sk] <==> m in xs && At(m, reason, Some(d), k) {
      if m in xs && ScopedKey(reason, m) == Some(sk) {
        JoinSplits(m.destinationId.value, KeyFor(reason, m).value);
      }
    }
  }

  /** Conversely, every nonempty known bucket is one of the scoped ones. */
  lemma BucketIsScoped(scoped: Buckets, xs: seq<Blockable>, reason: Reason, d: string, k: string)
    requires Groups(scoped, xs, i => ScopedKey(reason, i)) && PlainInput(xs)
    requires BucketIds(xs, reason, Some(d), k) != {}
    ensures Join(d, k) in scoped.at && Join(d, k) in scoped.order
    ensures BeforeSpace(Join(d, k)) == d && AfterSpace(Join(d, k)) == k
  {
    hide KeyFor;
    var id :| id in BucketIds(xs, reason, Some(d), k);
    var m :| m in xs && At(m, reason, Some(d), k) && m.identityId == id;
    assert ScopedKey(reason, m) == Some(Join(d, k));
    JoinSplits(d, k);
  }

  // ---- Expanding the scoped buckets of one reason. ----

  datatype PairReasons = PairReasons(order: seq<string>, at: map<string, set<Reason>>)

  function AddReason(p: PairReasons, id: string, reason: Reason): PairReasons {
    if id in p.at then p.(at := p.at[id := p.at[id] + {reason}])
    else PairReasons(p.order + [id], p.at[id := {reason}])
  }

  ghost predicate WellKeyed(p: PairReasons) {
    && NoRepeats(p.order) && (forall id :: id in p.order <==> id in p.at)
    && forall id | id in p.at :: p.at[id] != {}
  }

  predicate Has(p: PairReasons, id: string, reason: Reason) { id in p.at && reason in p.at[id] }

  function PairIdOf(a: Id, b: Id): string { if Less(a, b) then Join(a, b) else Join(b, a) }

  /** This bucket pairs exactly two identities on a key no other known destination uses. */
  predicate Yields(scoped: Buckets, vetoed: set<string>, sk: string, id: string) {
    && sk in scoped.at && |scoped.at[sk]| == 2 && AfterSpace(sk) !in vetoed
    && id == PairIdOf(scoped.at[sk][0].identityId, scoped.at[sk][1].identityId)
  }

  method ExpandScoped(scoped: Buckets, vetoed: set<string>, reason: Reason, before: PairReasons)
    returns (after: PairReasons, clusters: seq<SharedKeyCluster>)
    requires WellKeyed(before) && (forall id :: !Has(before, id, reason))
    requires forall k :: k in scoped.order <==> k in scoped.at
    requires forall k | k in scoped.at :: scoped.at[k] != [] && scoped.at[k][0].destinationId.Some?
    requires NoRepeats(scoped.order)
    requires forall k | k in scoped.at :: k == Join(scoped.at[k][0].destinationId.value, AfterSpace(k))
    ensures NoRepeats(clusters)
    ensures WellKeyed(after)
    ensures forall id, r | r != reason :: Has(after, id, r) <==> Has(before, id, r)
    ensures forall id :: Has(after, id, reason) <==> exists sk :: Yields(scoped, vetoed, sk, id)
    ensures forall c :: c in clusters <==> exists sk | sk in scoped.at ::
              |scoped.at[sk]| > 2 && c == ClusterOf(scoped, reason, sk)
  {
    hide Join, Less, SortBy, AfterSpace, AddReason, Has, WellKeyed, PairIdOf;
    after, clusters := before, [];
    for n := 0 to |scoped.order|
      invariant WellKeyed(after)
      invariant forall id, r | r != reason :: Has(after, id, r) <==> Has(before, id, r)
      invariant forall id :: Has(after, id, reason) <==> exists sk | sk in scoped.order[..n] :: Yields(scoped, vetoed, sk, id)
      invariant forall c :: c in clusters <==> exists sk | sk in scoped.order[..n] ::
                  sk in scoped.at && |scoped.at[sk]| > 2 && c == ClusterOf(scoped, reason, sk)
      invariant NoRepeats(clusters) && forall c | c in clusters :: Join(c.destinationId, c.key) in scoped.order[..n]
    {
      var scopedKey := scoped.order[n];
      assert scopedKey in scoped.order && scoped.order[..n + 1] == scoped.order[..n] + [scopedKey];
      NotBefore(scoped.order, n);
      var members := scoped.at[scopedKey];
      if |members| < 2 {
        continue;
      }
      var key := AfterSpace(scopedKey);
      if key in vetoed && |members| == 2 {
        continue;
      }
      if |members| > 2 {
        clusters := clusters + [SharedKeyCluster(reason, key, members[0].destinationId.value, SortBy(Self, Ids(members)))];
        continue;
      }
      var id := PairIdOf(members[0].identityId, members[1].identityId);
      assert Yields(scoped, vetoed, scopedKey, id);
      AddReasonHas(after, id, reason);
      after := AddReason(after, id, reason);
    }
    assert scoped.order[..|scoped.order|] == scoped.order;
  }

  lemma NotBefore<T>(xs: seq<T>, n: nat)
    requires NoRepeats(xs) && n < |xs|
    ensures xs[n] !in xs[..n]
  {
  }

  function ClusterOf(scoped: Buckets, reason: Reason, sk: string): SharedKeyCluster
    requires sk in scoped.at && scoped.at[sk] != [] && scoped.at[sk][0].destinationId.Some?
  {
    SharedKeyCluster(reason, AfterSpace(sk), scoped.at[sk][0].destinationId.value, SortBy(Self, Ids(scoped.at[sk])))
  }

  lemma AddReasonHas(p: PairReasons, id: string, reason: Reason)
    requires WellKeyed(p)
    ensures WellKeyed(AddReason(p, id, reason))
    ensures forall j, r :: Has(AddReason(p, id, reason), j, r) <==> Has(p, j, r) || (j == id && r == reason)
  {
  }

  // ---- From buckets to findings. ----

  ghost predicate CarriesId(xs: seq<Blockable>, id: string, reason: Reason) {
    exists l, r :: id == Join(l, r) && Carries(xs, l, r, reason)
  }

  lemma PairIdOfTwo(a: Id, b: Id) returns (l: Id, r: Id)
    requires a != b
    ensures PairIdOf(a, b) == Join(l, r) && Less(l, r) && {l, r} == {a, b}
  {
    LessTotal(a, b);
    l, r := if Less(a, b) then a else b, if Less(a, b) then b else a;
  }

  lemma YieldsMeansCarries(
    scoped: Buckets, vetoed: set<string>, xs: seq<Blockable>, reason: Reason, sk: string, id: string)
    requires Groups(scoped, xs, i => ScopedKey(reason, i)) && UniqueIds(xs) && PlainInput(xs)
    requires forall i, k | i in xs && KeyFor(reason, i) == Some(k) :: k in vetoed <==> Vetoed(xs, reason, k)
    requires Yields(scoped, vetoed, sk, id)
    ensures CarriesId(xs, id, reason)
  {
    hide Vetoed, Groups, PlainInput, Join, IndexOfSpace, Less;
    ScopedBucket(scoped, xs, reason, sk);
    var d, k, ms := BeforeSpace(sk), AfterSpace(sk), scoped.at[sk];
    assert ms[0] in ms && ms[1] in ms;
    assert ms[0] in xs && KeyFor(reason, ms[0]) == Some(k);
    var l, r := PairIdOfTwo(ms[0].identityId, ms[1].identityId);
    assert BucketIds(xs, reason, Some(d), k) == {l, r} by {
      assert forall m :: m in ms <==> m == ms[0] || m == ms[1];
    }
    assert Carries(xs, l, r, reason);
  }

  lemma CarriesIsYielded(
    scoped: Buckets, vetoed: set<string>, xs: seq<Blockable>, reason: Reason, l: Id, r: Id) returns (sk: string)
    requires Groups(scoped, xs, i => ScopedKey(reason, i)) && UniqueIds(xs) && PlainInput(xs)
    requires forall i, k | i in xs && KeyFor(reason, i) == Some(k) :: k in vetoed <==> Vetoed(xs, reason, k)
    requires Carries(xs, l, r, reason)
    ensures Yields(scoped, vetoed, sk, Join(l, r))
  {
    hide Vetoed, Groups, PlainInput, IndexOfSpace;
    var d: string, k: string :| BucketIds(xs, reason, Some(d), k) == {l, r} && !Vetoed(xs, reason, k);
    sk := Join(d, k);
    assert l in BucketIds(xs, reason, Some(d), k);
    BucketIsScoped(scoped, xs, reason, d, k);
    ScopedBucket(scoped, xs, reason, sk);
    var ms := scoped.at[sk];
    LessIrreflexive(l);
    LessAsymmetric(l, r);
    assert |{l, r}| == 2;
    assert ms[0] in ms && ms[1] in ms && ms[0] in xs && KeyFor(reason, ms[0]) == Some(k);
    assert ms[0].identityId in {l, r} && ms[1].identityId in {l, r} by {
      assert ms[0].identityId in set m | m in ms :: m.identityId;
      assert ms[1].identityId in set m | m in ms :: m.identityId;
    }
    hide Less, Join;
  }

  function Members(xs: seq<Id>): set<Id> { set x | x in xs }

  /** Each identity once, in ascending order. */
  ghost predicate Listed(ids: seq<Id>, s: set<Id>) {
    Members(ids) == s && forall a, b | 0 <= a < b < |ids| :: Less(ids[a], ids[b])
  }

  /** Every destination the key occurs in, unknown included. */
  function KeyDestinations(xs: seq<Blockable>, reason: Reason, k: string): set<Option<string>> {
    set i | i in xs && KeyFor(reason, i) == Some(k) :: i.destinationId
  }

  /** The identities carrying a key anywhere, destination known or not. */
  function KeyIds(xs: seq<Blockable>, reason: Reason, k: string): set<Id> {
    set i | i in xs && KeyFor(reason, i) == Some(k) :: i.identityId
  }

  ghost predicate ClustersExact(cs: seq<SharedKeyCluster>, xs: seq<Blockable>, done: set<Reason>) {
    && (forall c | c in cs :: c.reason in done && |BucketIds(xs, c.reason, Some(c.destinationId), c.key)| > 2
          && Listed(c.identityIds, BucketIds(xs, c.reason, Some(c.destinationId), c.key)))
    && (forall reason, d: string, k: string | reason in done && |BucketIds(xs, reason, Some(d), k)| > 2 ::
          exists c | c in cs :: c.reason == reason && c.destinationId == d && c.key == k)
  }

  ghost predicate IncompleteExact(cs: seq<IncompleteKey>, xs: seq<Blockable>, done: set<Reason>) {
    && (forall c | c in cs :: c.reason in done && |BucketIds(xs, c.reason, None, c.key)| >= 2
          && Listed(c.identityIds, BucketIds(xs, c.reason, None, c.key)))
    && (forall reason, k: string | reason in done && |BucketIds(xs, reason, None, k)| >= 2 ::
          exists c | c in cs :: c.reason == reason && c.key == k)
  }

  ghost predicate CollisionsExact(cs: seq<Collision>, xs: seq<Blockable>, done: set<Reason>) {
    && (forall c | c in cs :: c.reason in done && Vetoed(xs, c.reason, c.key)
          && Listed(c.identityIds, KeyIds(xs, c.reason, c.key)) && NoRepeats(c.destinationIds)
          && (set d | d in c.destinationIds) == KeyDestinations(xs, c.reason, c.key))
    && (forall reason, k: string | reason in done && Vetoed(xs, reason, k) ::
          exists c | c in cs :: c.reason == reason && c.key == k)
  }

  lemma SortedIds(ms: seq<Blockable>)
    requires UniqueIds(ms)
    ensures Listed(SortBy(Self, Ids(ms)), set m | m in ms :: m.identityId)
  {
    SortStrict(Self, Ids(ms));
    SortByContract(Self, Ids(ms));
    forall x ensures x in Members(SortBy(Self, Ids(ms))) <==> x in set m | m in ms :: m.identityId {
      assert x in SortBy(Self, Ids(ms)) <==> x in multiset(SortBy(Self, Ids(ms)));
      assert x in Ids(ms) <==> x in multiset(Ids(ms));
      if x in Ids(ms) {
        var n :| 0 <= n < |ms| && Ids(ms)[n] == x;
        assert ms[n] in ms;
      }
      if m :| m in ms && m.identityId == x {
        var n :| 0 <= n < |ms| && ms[n] == m;
        assert Ids(ms)[n] == x;
      }
    }
  }

  lemma ScopedClustersExact(scoped: Buckets, xs: seq<Blockable>, reason: Reason, cs: seq<SharedKeyCluster>)
    requires Groups(scoped, xs, i => ScopedKey(reason, i)) && UniqueIds(xs) && PlainInput(xs)
    requires forall k | k in scoped.at :: scoped.at[k] != [] && scoped.at[k][0].destinationId.Some?
    requires forall c :: c in cs <==> exists sk | sk in scoped.at :: |scoped.at[sk]| > 2 && c == ClusterOf(scoped, reason, sk)
    ensures ClustersExact(cs, xs, {reason})
  {
    hide Groups, PlainInput, Join, IndexOfSpace, SortBy, KeyFor;
    forall c | c in cs
      ensures c.reason == reason && |BucketIds(xs, c.reason, Some(c.destinationId), c.key)| > 2
      ensures Listed(c.identityIds, BucketIds(xs, c.reason, Some(c.destinationId), c.key))
    {
      var sk :| sk in scoped.at && |scoped.at[sk]| > 2 && c == ClusterOf(scoped, reason, sk);
      ScopedBucket(scoped, xs, reason, sk);
      SortedIds(scoped.at[sk]);
    }
    forall d: string, k: string | |BucketIds(xs, reason, Some(d), k)| > 2
      ensures exists c | c in cs :: c.reason == reason && c.destinationId == d && c.key == k
    {
      BucketIsScoped(scoped, xs, reason, d, k);
      ScopedBucket(scoped, xs, reason, Join(d, k));
      assert ClusterOf(scoped, reason, Join(d, k)) in cs;
    }
  }

  method ReportUnknown(unknown: Buckets, xs: seq<Blockable>, reason: Reason) returns (found: seq<IncompleteKey>)
    requires Groups(unknown, xs, i => UnknownKey(reason, i)) && UniqueIds(xs)
    ensures IncompleteExact(found, xs, {reason}) && NoRepeats(found)
  {
    hide SortBy, KeyFor, Groups;
    found := [];
    UnknownOrder(unknown, xs, reason);
    for n := 0 to |unknown.order|
      invariant forall c :: c in found <==> exists k | k in unknown.order[..n] ::
                  k in unknown.at && |unknown.at[k]| >= 2 && c == IncompleteKey(reason, k, SortBy(Self, Ids(unknown.at[k])))
      invariant NoRepeats(found) && forall c | c in found :: c.key in unknown.order[..n]
    {
      NotBefore(unknown.order, n);
      var key := unknown.order[n];
      assert key in unknown.order && unknown.order[..n + 1] == unknown.order[..n] + [key];
      var members := unknown.at[key];
      if |members| < 2 {
        continue;
      }
      found := found + [IncompleteKey(reason, key, SortBy(Self, Ids(members)))];
    }
    assert unknown.order[..|unknown.order|] == unknown.order;
    UnknownExact(unknown, xs, reason, found);
  }

  lemma UnknownOrder(unknown: Buckets, xs: seq<Blockable>, reason: Reason)
    requires Groups(unknown, xs, i => UnknownKey(reason, i))
    ensures NoRepeats(unknown.order) && forall k :: k in unknown.order <==> k in unknown.at
  {
  }

  lemma UnknownBucket(unknown: Buckets, xs: seq<Blockable>, reason: Reason, k: string)
    requires Groups(unknown, xs, i => UnknownKey(reason, i)) && UniqueIds(xs) && k in unknown.at
    ensures BucketIds(xs, reason, None, k) == (set m | m in unknown.at[k] :: m.identityId)
    ensures |BucketIds(xs, reason, None, k)| == |unknown.at[k]| && UniqueIds(unknown.at[k])
  {
    hide KeyFor;
    BucketMembers(unknown, xs, i => UnknownKey(reason, i), k);
  }

  lemma UnknownListed(unknown: Buckets, xs: seq<Blockable>, reason: Reason, k: string)
    requires Groups(unknown, xs, i => UnknownKey(reason, i)) && BucketIds(xs, reason, None, k) != {}
    ensures k in unknown.at && k in unknown.order
  {
    hide KeyFor;
    var id :| id in BucketIds(xs, reason, None, k);
    var m :| m in xs && At(m, reason, None, k) && m.identityId == id;
    assert UnknownKey(reason, m) == Some(k);
  }

  lemma UnknownExact(unknown: Buckets, xs: seq<Blockable>, reason: Reason, found: seq<IncompleteKey>)
    requires Groups(unknown, xs, i => UnknownKey(reason, i)) && UniqueIds(xs)
    requires forall c :: c in found <==> exists k | k in unknown.order ::
               k in unknown.at && |unknown.at[k]| >= 2 && c == IncompleteKey(reason, k, SortBy(Self, Ids(unknown.at[k])))
    ensures IncompleteExact(found, xs, {reason})
  {
    hide SortBy, KeyFor, Groups, UniqueIds, BucketIds, Ids, Listed;
    forall c | c in found
      ensures c.reason == reason && |BucketIds(xs, c.reason, None, c.key)| >= 2
      ensures Listed(c.identityIds, BucketIds(xs, c.reason, None, c.key))
    {
      var k :| k in unknown.order && k in unknown.at && |unknown.at[k]| >= 2 && c == IncompleteKey(reason, k, SortBy(Self, Ids(unknown.at[k])));
      UnknownBucket(unknown, xs, reason, k);
      SortedIds(unknown.at[k]);
    }
    forall k: string | |BucketIds(xs, reason, None, k)| >= 2
      ensures exists c | c in found :: c.reason == reason && c.key == k
    {
      UnknownListed(unknown, xs, reason, k);
      UnknownBucket(unknown, xs, reason, k);
      assert IncompleteKey(reason, k, SortBy(Self, Ids(unknown.at[k]))) in found;
    }
  }

  method ReportCollisions(global: Buckets, vetoed: set<string>, xs: seq<Blockable>, reason: Reason) returns (found: seq<Collision>)
    requires Groups(global, xs, i => KeyFor(reason, i)) && UniqueIds(xs)
    requires forall k :: k in vetoed <==> k in global.at && Vetoed(xs, reason, k)
    ensures CollisionsExact(found, xs, {reason}) && NoRepeats(found)
  {
    hide SortBy, KeyFor, Groups, Vetoed, Distinct;
    found := [];
    GlobalOrder(global, xs, reason);
    for n := 0 to |global.order|
      invariant forall c :: c in found <==> exists k | k in global.order[..n] ::
                  k in global.at && k in vetoed && c == CollisionOf(global, reason, k)
      invariant NoRepeats(found) && forall c | c in found :: c.key in global.order[..n]
    {
      NotBefore(global.order, n);
      var key := global.order[n];
      assert key in global.order && global.order[..n + 1] == global.order[..n] + [key];
      if key !in vetoed {
        continue;
      }
      var members := global.at[key];
      found := found + [Collision(reason, key, Distinct(Map((m: Blockable) => m.destinationId, members)), SortBy(Self, Ids(members)))];
    }
    assert global.order[..|global.order|] == global.order;
    CollisionsAreExact(global, vetoed, xs, reason, found);
  }

  function CollisionOf(global: Buckets, reason: Reason, k: string): Collision
    requires k in global.at
  {
    Collision(reason, k, Distinct(Map((m: Blockable) => m.destinationId, global.at[k])), SortBy(Self, Ids(global.at[k])))
  }

  lemma VetoedIsListed(global: Buckets, xs: seq<Blockable>, reason: Reason, k: string)
    requires Groups(global, xs, i => KeyFor(reason, i)) && Vetoed(xs, reason, k)
    ensures k in global.at && k in global.order
  {
    hide KeyFor;
  }

  lemma GlobalIds(global: Buckets, xs: seq<Blockable>, reason: Reason, k: string)
    requires Groups(global, xs, i => KeyFor(reason, i)) && UniqueIds(xs) && k in global.at
    ensures KeyIds(xs, reason, k) == (set m | m in global.at[k] :: m.identityId) && UniqueIds(global.at[k])
  {
    GlobalBucket(global, xs, reason, k);
    BucketMembers(global, xs, i => KeyFor(reason, i), k);
    hide Groups, KeyFor;
  }

  lemma GlobalDestinations(global: Buckets, xs: seq<Blockable>, reason: Reason, k: string)
    requires Groups(global, xs, i => KeyFor(reason, i)) && k in global.at
    ensures var ds := CollisionOf(global, reason, k).destinationIds;
      NoRepeats(ds) && (set d | d in ds) == KeyDestinations(xs, reason, k)
  {
    hide SortBy, KeyFor;
    GlobalBucket(global, xs, reason, k);
    var members := global.at[k];
    var mapped := Map((m: Blockable) => m.destinationId, members);
    forall d ensures d in mapped <==> exists m | m in members :: m.destinationId == d {
      if d in mapped {
        var n :| 0 <= n < |members| && mapped[n] == d;
        assert members[n] in members;
      }
      if m :| m in members && m.destinationId == d {
        var n :| 0 <= n < |members| && members[n] == m;
        assert mapped[n] == d;
      }
    }
  }

  lemma CollisionsAreExact(global: Buckets, vetoed: set<string>, xs: seq<Blockable>, reason: Reason, found: seq<Collision>)
    requires Groups(global, xs, i => KeyFor(reason, i)) && UniqueIds(xs)
    requires forall k :: k in vetoed <==> k in global.at && Vetoed(xs, reason, k)
    requires forall c :: c in found <==> exists k | k in global.order ::
               k in global.at && k in vetoed && c == CollisionOf(global, reason, k)
    ensures CollisionsExact(found, xs, {reason})
  {
    hide SortBy, KeyFor, Distinct, Groups, Vetoed, Ids, Listed, KeyIds, KeyDestinations, UniqueIds, NoRepeats;
    forall c | c in found
      ensures c.reason == reason && Vetoed(xs, reason, c.key) && Listed(c.identityIds, KeyIds(xs, reason, c.key))
      ensures NoRepeats(c.destinationIds) && (set d | d in c.destinationIds) == KeyDestinations(xs, reason, c.key)
    {
      var k :| k in global.order && k in global.at && k in vetoed && c == CollisionOf(global, reason, k);
      GlobalIds(global, xs, reason, k);
      SortedIds(global.at[k]);
      GlobalDestinations(global, xs, reason, k);
    }
    forall k: string | Vetoed(xs, reason, k)
      ensures exists c | c in found :: c.reason == reason && c.key == k
    {
      VetoedIsListed(global, xs, reason, k);
      assert CollisionOf(global, reason, k) in found;
    }
  }

  // ---- The result. ----

  function PairKey(p: CandidatePair): string { Join(p.leftIdentityId, p.rightIdentityId) }

  /** Strictly ascending, each pair with exactly its reasons in the fixed order, and no pair missing. */
  ghost predicate PairsExact(ps: seq<CandidatePair>, xs: seq<Blockable>) {
    && (forall a, b | 0 <= a < b < |ps| :: Less(PairKey(ps[a]), PairKey(ps[b])))
    && (forall p | p in ps ::
          p.reasons != [] && p.reasons == Filter(r => Carries(xs, p.leftIdentityId, p.rightIdentityId, r), BLOCKING_REASONS))
    && (forall l, r, reason | Carries(xs, l, r, reason) ::
          exists p | p in ps :: p.leftIdentityId == l && p.rightIdentityId == r)
  }

  ghost predicate Exact(d: DiscoveryResult, xs: seq<Blockable>) {
    && PairsExact(d.pairs, xs) && ClustersExact(d.sharedKeyClusters, xs, AllReasons())
    && CollisionsExact(d.crossDestinationCollisions, xs, AllReasons())
    && IncompleteExact(d.incompleteGeography, xs, AllReasons())
    && d.pairsByReason.Keys == AllReasons()
    && forall r | r in d.pairsByReason :: d.pairsByReason[r] == |Filter((p: CandidatePair) => r in p.reasons, d.pairs)|
  }

  function AllReasons(): set<Reason> { {ExactDomain, ExactPhone, ExactNameInDestination} }

  // ---- `new Map(input.map(i => [i.identityId, i])).values()`: first position, last value. ----

  function LastWith(xs: seq<Blockable>, id: Id): (i: Blockable)
    requires id in Ids(xs)
    ensures i in xs && i.identityId == id
  {
    var last := |xs| - 1;
    assert Ids(xs) == Ids(xs[..last]) + [xs[last].identityId];
    if xs[last].identityId == id then xs[last] else LastWith(xs[..last], id)
  }

  function Latest(xs: seq<Blockable>): seq<Blockable> {
    var ids := Distinct(Ids(xs));
    seq(|ids|, n requires 0 <= n < |ids| => assert ids[n] in ids; LastWith(xs, ids[n]))
  }

  lemma LatestFacts(xs: seq<Blockable>)
    ensures UniqueIds(Latest(xs)) && Ids(Latest(xs)) == Distinct(Ids(xs))
    ensures PlainInput(xs) ==> PlainInput(Latest(xs))
  {
    hide LastWith, Plain;
  }

  lemma {:induction false} DistinctOfUnique<T(!new)>(xs: seq<T>)
    requires NoRepeats(xs)
    ensures Distinct(xs) == xs
  {
    if xs != [] {
      DistinctOfUnique(xs[..|xs| - 1]);
      assert xs == xs[..|xs| - 1] + [xs[|xs| - 1]];
    }
  }

  lemma {:induction false} LastOfUnique(xs: seq<Blockable>, n: nat)
    requires UniqueIds(xs) && n < |xs|
    ensures xs[n].identityId in Ids(xs) && LastWith(xs, xs[n].identityId) == xs[n]
  {
    assert Ids(xs)[n] == xs[n].identityId;
    var last := |xs| - 1;
    if n < last {
      LastOfUnique(xs[..last], n);
    }
  }

  lemma LatestOfUnique(xs: seq<Blockable>)
    requires UniqueIds(xs)
    ensures Latest(xs) == xs
  {
    DistinctOfUnique(Ids(xs));
    forall n | 0 <= n < |xs| ensures Latest(xs)[n] == xs[n] {
      LastOfUnique(xs, n);
    }
  }

  lemma IdsAppend(xs: seq<Blockable>, x: Blockable)
    ensures Ids(xs + [x]) == Ids(xs) + [x.identityId]
  {
  }

  lemma OneMoreId(xs: seq<Blockable>, x: Blockable)
    ensures Distinct(Ids(xs + [x])) == if x.identityId in Ids(xs) then Distinct(Ids(xs)) else Distinct(Ids(xs)) + [x.identityId]
    ensures forall id :: id in Ids(xs + [x]) <==> id in Ids(xs) || id == x.identityId
  {
    IdsAppend(xs, x);
    hide Ids;
    var ids := Ids(xs);
    assert (ids + [x.identityId])[..|ids|] == ids;
  }

  lemma OneMoreLast(xs: seq<Blockable>, x: Blockable, id: Id)
    requires id in Ids(xs + [x])
    ensures id != x.identityId ==> id in Ids(xs)
    ensures LastWith(xs + [x], id) == if id == x.identityId then x else LastWith(xs, id)
  {
    IdsAppend(xs, x);
    assert (xs + [x])[..|xs|] == xs;
  }

  method Dedupe(xs: seq<Blockable>) returns (ys: seq<Blockable>)
    ensures ys == Latest(xs)
  {
    hide LastWith, Distinct, Ids;
    var order: seq<Id>, at: map<Id, Blockable> := [], map[];
    NoIds();
    assert xs[..0] == [];
    for n := 0 to |xs|
      invariant order == Distinct(Ids(xs[..n]))
      invariant forall id :: id in at <==> id in Ids(xs[..n])
      invariant forall id | id in at :: at[id] == LastWith(xs[..n], id)
    {
      var i := xs[n];
      assert xs[..n + 1] == xs[..n] + [i];
      OneMoreId(xs[..n], i);
      forall id | id in Ids(xs[..n] + [i])
        ensures LastWith(xs[..n] + [i], id) == if id == i.identityId then i else at[id]
      {
        OneMoreLast(xs[..n], i, id);
      }
      if i.identityId !in at {
        order := order + [i.identityId];
      }
      at := at[i.identityId := i];
    }
    assert xs[..|xs|] == xs;
    ys := [];
    for n := 0 to |order|
      invariant ys == Latest(xs)[..n]
    {
      assert order[n] in order;
      ys := ys + [at[order[n]]];
    }
  }

  lemma NoIds()
    ensures Distinct(Ids([])) == [] && Ids([]) == []
  {
  }

  // ---- The sweep. ----

  /** `pairReasons` holds the pairs of the reasons already processed. */
  ghost predicate PairsSoFar(p: PairReasons, xs: seq<Blockable>, done: set<Reason>) {
    WellKeyed(p) && forall id, r :: Has(p, id, r) <==> r in done && CarriesId(xs, id, r)
  }

  lemma VetoCovers(global: Buckets, vetoed: set<string>, xs: seq<Blockable>, reason: Reason)
    requires Groups(global, xs, i => KeyFor(reason, i))
    requires forall k :: k in vetoed <==> k in global.at && Vetoed(xs, reason, k)
    ensures forall i, k | i in xs && KeyFor(reason, i) == Some(k) :: k in vetoed <==> Vetoed(xs, reason, k)
  {
    hide KeyFor, Vetoed;
  }

  lemma ScopedShape(scoped: Buckets, xs: seq<Blockable>, reason: Reason)
    requires Groups(scoped, xs, i => ScopedKey(reason, i)) && UniqueIds(xs) && PlainInput(xs)
    ensures NoRepeats(scoped.order) && forall k :: k in scoped.order <==> k in scoped.at
    ensures forall k | k in scoped.at :: scoped.at[k] != [] && scoped.at[k][0].destinationId.Some?
    ensures forall k | k in scoped.at :: k == Join(scoped.at[k][0].destinationId.value, AfterSpace(k))
  {
    hide KeyFor, PlainInput;
    forall k | k in scoped.at
      ensures scoped.at[k] != [] && scoped.at[k][0].destinationId.Some?
      ensures k == Join(scoped.at[k][0].destinationId.value, AfterSpace(k))
    {
      ScopedBucket(scoped, xs, reason, k);
    }
  }

  lemma PairsAdvance(
    scoped: Buckets, vetoed: set<string>, xs: seq<Blockable>, reason: Reason, done: set<Reason>,
    before: PairReasons, after: PairReasons)
    requires Groups(scoped, xs, i => ScopedKey(reason, i)) && UniqueIds(xs) && PlainInput(xs)
    requires forall i, k | i in xs && KeyFor(reason, i) == Some(k) :: k in vetoed <==> Vetoed(xs, reason, k)
    requires PairsSoFar(before, xs, done) && reason !in done && WellKeyed(after)
    requires forall id, r | r != reason :: Has(after, id, r) <==> Has(before, id, r)
    requires forall id :: Has(after, id, reason) <==> exists sk :: Yields(scoped, vetoed, sk, id)
    ensures PairsSoFar(after, xs, done + {reason})
  {
    hide Groups, PlainInput, Vetoed, KeyFor, Has, WellKeyed, Carries, Yields, Join;
    forall id ensures Has(after, id, reason) <==> CarriesId(xs, id, reason) {
      if Has(after, id, reason) {
        var sk :| Yields(scoped, vetoed, sk, id);
        YieldsMeansCarries(scoped, vetoed, xs, reason, sk, id);
      }
      if CarriesId(xs, id, reason) {
        var l, r :| id == Join(l, r) && Carries(xs, l, r, reason);
        var sk := CarriesIsYielded(scoped, vetoed, xs, reason, l, r);
      }
    }
  }

  method SweepReason(xs: seq<Blockable>, reason: Reason, ghost done: set<Reason>, before: PairReasons)
    returns (after: PairReasons, clusters: seq<SharedKeyCluster>, collisions: seq<Collision>, incomplete: seq<IncompleteKey>)
    requires UniqueIds(xs) && PlainInput(xs) && PairsSoFar(before, xs, done) && reason !in done
    ensures PairsSoFar(after, xs, done + {reason})
    ensures ClustersExact(clusters, xs, {reason})
    ensures CollisionsExact(collisions, xs, {reason})
    ensures IncompleteExact(incomplete, xs, {reason})
    ensures NoRepeats(clusters) && NoRepeats(collisions) && NoRepeats(incomplete)
  {
    hide Groups, PlainInput, Vetoed, KeyFor, Has, WellKeyed, CarriesId, ClustersExact, CollisionsExact, IncompleteExact, Yields;
    var scoped, global, unknown := GroupByKey(xs, reason);
    var vetoed := DecideVeto(global, xs, reason);
    VetoCovers(global, vetoed, xs, reason);
    ScopedShape(scoped, xs, reason);
    after, clusters := ExpandScoped(scoped, vetoed, reason, before);
    ScopedClustersExact(scoped, xs, reason, clusters);
    PairsAdvance(scoped, vetoed, xs, reason, done, before, after);
    incomplete := ReportUnknown(unknown, xs, reason);
    collisions := ReportCollisions(global, vetoed, xs, reason);
  }

  lemma FindingsJoin(
    cs: seq<SharedKeyCluster>, cs': seq<SharedKeyCluster>, os: seq<Collision>, os': seq<Collision>,
    us: seq<IncompleteKey>, us': seq<IncompleteKey>, xs: seq<Blockable>, done: set<Reason>, reason: Reason)
    requires ClustersExact(cs, xs, done) && ClustersExact(cs', xs, {reason})
    requires CollisionsExact(os, xs, done) && CollisionsExact(os', xs, {reason})
    requires IncompleteExact(us, xs, done) && IncompleteExact(us', xs, {reason})
    ensures ClustersExact(cs + cs', xs, done + {reason})
    ensures CollisionsExact(os + os', xs, done + {reason})
    ensures IncompleteExact(us + us', xs, done + {reason})
  {
    hide BucketIds, Vetoed, KeyIds, KeyDestinations, Listed, NoRepeats;
    assert forall c :: c in cs + cs' <==> c in cs || c in cs';
    assert forall c :: c in os + os' <==> c in os || c in os';
    assert forall c :: c in us + us' <==> c in us || c in us';
  }

  function PairOf(p: PairReasons, id: string): CandidatePair
    requires id in p.at
  {
    CandidatePair(BeforeSpace(id), AfterSpace(id), Filter(r => r in p.at[id], BLOCKING_REASONS))
  }

  const NO_PAIRS: map<Reason, nat> := map[ExactDomain := 0, ExactPhone := 0, ExactNameInDestination := 0]

  /** `pairsByReason[reason] += 1` for each reason of one pair. */
  function CountReasons(m: map<Reason, nat>, reasons: seq<Reason>): map<Reason, nat> {
    map r | r in m :: m[r] + if r in reasons then 1 else 0
  }

  /** The final map over the entries, counting reasons, then the sort by left and right identity. */
  method CollectPairs(p: PairReasons, xs: seq<Blockable>) returns (pairs: seq<CandidatePair>, pairsByReason: map<Reason, nat>)
    requires PairsSoFar(p, xs, AllReasons()) && PlainInput(xs)
    ensures PairsExact(pairs, xs)
    ensures pairsByReason.Keys == AllReasons()
    ensures forall r | r in pairsByReason :: pairsByReason[r] == |Filter((c: CandidatePair) => r in c.reasons, pairs)|
  {
    hide CarriesId, SortBy, BeforeSpace, AfterSpace, PlainInput, Filter, Has;
    var found: seq<CandidatePair> := [];
    pairsByReason := NO_PAIRS;
    for n := 0 to |p.order|
      invariant |found| == n && forall a | 0 <= a < n :: p.order[a] in p.at && found[a] == PairOf(p, p.order[a])
      invariant pairsByReason.Keys == AllReasons()
      invariant forall r | r in pairsByReason :: pairsByReason[r] == |Filter((c: CandidatePair) => r in c.reasons, found)|
    {
      assert p.order[n] in p.order;
      var c := PairOf(p, p.order[n]);
      forall r: Reason ensures |Filter((x: CandidatePair) => r in x.reasons, found + [c])|
           == |Filter((x: CandidatePair) => r in x.reasons, found)| + if r in c.reasons then 1 else 0 {
        CountOneMore(r, found, c);
      }
      pairsByReason := CountReasons(pairsByReason, c.reasons);
      found := found + [c];
    }
    pairs := SortBy(PairKey, found);
    SortedPairsExact(p, xs, found);
    forall r | r in pairsByReason ensures pairsByReason[r] == |Filter((c: CandidatePair) => r in c.reasons, pairs)| {
      CountSorted(r, found);
    }
  }

  lemma CountOneMore(r: Reason, found: seq<CandidatePair>, c: CandidatePair)
    ensures |Filter((x: CandidatePair) => r in x.reasons, found + [c])|
         == |Filter((x: CandidatePair) => r in x.reasons, found)| + if r in c.reasons then 1 else 0
  {
    FilterAppend((x: CandidatePair) => r in x.reasons, found, [c]);
    assert [c][1..] == [];
  }

  lemma CountSorted(r: Reason, found: seq<CandidatePair>)
    ensures |Filter((x: CandidatePair) => r in x.reasons, SortBy(PairKey, found))| == |Filter((x: CandidatePair) => r in x.reasons, found)|
  {
    hide PairKey, Filter;
    var keep := (x: CandidatePair) => r in x.reasons;
    SortByContract(PairKey, found);
    FilterPermutation(keep, SortBy(PairKey, found), found);
    assert |multiset(Filter(keep, found))| == |Filter(keep, found)|;
    assert |multiset(Filter(keep, SortBy(PairKey, found)))| == |Filter(keep, SortBy(PairKey, found))|;
  }

  /** An id string that carries a pair splits back into its two identities. */
  lemma CarriedIdSplits(xs: seq<Blockable>, id: string, reason: Reason)
    requires CarriesId(xs, id, reason) && PlainInput(xs)
    ensures id == Join(BeforeSpace(id), AfterSpace(id)) && Carries(xs, BeforeSpace(id), AfterSpace(id), reason)
  {
    hide Less, Vetoed, KeyFor;
    var l, r :| id == Join(l, r) && Carries(xs, l, r, reason);
    CarriedIsPlain(xs, l, r, reason);
    JoinSplits(l, r);
  }

  lemma CarriedIsPlain(xs: seq<Blockable>, l: Id, r: Id, reason: Reason)
    requires Carries(xs, l, r, reason) && PlainInput(xs)
    ensures Plain(l) && Plain(r)
  {
    hide Less, Vetoed, KeyFor, Plain;
    var d: string, k: string :| BucketIds(xs, reason, Some(d), k) == {l, r} && !Vetoed(xs, reason, k);
    assert l in BucketIds(xs, reason, Some(d), k) && r in BucketIds(xs, reason, Some(d), k);
  }

  lemma PairOfMeaning(p: PairReasons, xs: seq<Blockable>, id: string)
    requires PairsSoFar(p, xs, AllReasons()) && PlainInput(xs) && id in p.at
    ensures var c := PairOf(p, id);
      && PairKey(c) == id && c.reasons != []
      && c.reasons == Filter(r => Carries(xs, c.leftIdentityId, c.rightIdentityId, r), BLOCKING_REASONS)
  {
    hide Carries, PlainInput, BeforeSpace, AfterSpace, Join, Filter, WellKeyed;
    var c := PairOf(p, id);
    var r0 := SomeReason(p, id);
    assert Has(p, id, r0);
    CarriedIdSplits(xs, id, r0);
    forall r ensures r in p.at[id] <==> Carries(xs, c.leftIdentityId, c.rightIdentityId, r) {
      assert Has(p, id, r) <==> r in AllReasons() && CarriesId(xs, id, r);
      if r in p.at[id] {
        CarriedIdSplits(xs, id, r);
      } else if Carries(xs, c.leftIdentityId, c.rightIdentityId, r) {
        assert id == Join(c.leftIdentityId, c.rightIdentityId);
        assert CarriesId(xs, id, r);
        ReasonListed(r);
      }
    }
    FilterAgree(r => r in p.at[id], r => Carries(xs, c.leftIdentityId, c.rightIdentityId, r), BLOCKING_REASONS);
    ReasonListed(r0);
    assert r0 in c.reasons;
  }

  lemma SomeReason(p: PairReasons, id: string) returns (r: Reason)
    requires WellKeyed(p) && id in p.at
    ensures r in p.at[id]
  {
    r :| r in p.at[id];
  }

  lemma ReasonListed(r: Reason)
    ensures r in BLOCKING_REASONS && r in AllReasons()
  {
    assert BLOCKING_REASONS[0] == ExactDomain && BLOCKING_REASONS[1] == ExactPhone && BLOCKING_REASONS[2] == ExactNameInDestination;
  }

  lemma {:induction false} FilterAgree<T(!new)>(p: T -> bool, q: T -> bool, xs: seq<T>)
    requires forall x | x in xs :: p(x) == q(x)
    ensures Filter(p, xs) == Filter(q, xs)
  {
    if xs != [] {
      assert xs[0] in xs && forall x | x in xs[1..] :: x in xs;
      FilterAgree(p, q, xs[1..]);
    }
  }

  lemma TwiceCounts<T>(xs: seq<T>, a: nat, b: nat)
    requires a < b < |xs| && xs[a] == xs[b]
    ensures multiset(xs)[xs[a]] >= 2
  {
    assert xs == xs[..b] + [xs[b]] + xs[b + 1..];
    assert xs[..b][a] == xs[a];
    assert xs[a] in multiset(xs[..b]);
  }

  /** Distinct keys sort into a strictly ascending list of the same elements. */
  lemma SortStrict<T(!new)>(key: T -> string, found: seq<T>)
    requires forall a, b | 0 <= a < b < |found| :: key(found[a]) != key(found[b])
    ensures var ps := SortBy(key, found);
      && (forall a, b | 0 <= a < b < |ps| :: Less(key(ps[a]), key(ps[b])))
      && (forall p :: p in ps <==> p in found)
  {
    hide Less;
    SortByContract(key, found);
    var ps := SortBy(key, found);
    forall p ensures p in ps <==> p in found {
      assert p in ps <==> p in multiset(ps);
      assert p in found <==> p in multiset(found);
    }
    forall a, b | 0 <= a < b < |ps| ensures Less(key(ps[a]), key(ps[b])) {
      LessTotal(key(ps[a]), key(ps[b]));
      if key(ps[a]) == key(ps[b]) {
        assert ps[a] in found && ps[b] in found;
        assert ps[a] == ps[b];
        TwiceCounts(ps, a, b);
        OnceEach(found, ps[a]);
        assert false;
      }
    }
  }

  lemma SortedPairsExact(p: PairReasons, xs: seq<Blockable>, found: seq<CandidatePair>)
    requires PairsSoFar(p, xs, AllReasons()) && PlainInput(xs)
    requires |found| == |p.order| && forall a | 0 <= a < |found| :: p.order[a] in p.at && found[a] == PairOf(p, p.order[a])
    ensures PairsExact(SortBy(PairKey, found), xs)
  {
    hide Carries, PlainInput, CarriesId, PairOf, SortBy, Filter, Join, Has;
    forall a | 0 <= a < |found| ensures PairKey(found[a]) == p.order[a] {
      PairOfMeaning(p, xs, p.order[a]);
    }
    SortStrict(PairKey, found);
    var ps := SortBy(PairKey, found);
    assert forall c: CandidatePair :: c in ps <==> c in found;
    forall c | c in ps
      ensures c.reasons != []
      ensures c.reasons == Filter(r => Carries(xs, c.leftIdentityId, c.rightIdentityId, r), BLOCKING_REASONS)
    {
      var a :| 0 <= a < |found| && found[a] == c;
      PairOfMeaning(p, xs, p.order[a]);
    }
    forall l, r, reason | Carries(xs, l, r, reason)
      ensures exists c | c in ps :: c.leftIdentityId == l && c.rightIdentityId == r
    {
      CarriedIsListed(p, xs, l, r, reason);
      var a :| 0 <= a < |p.order| && p.order[a] == Join(l, r);
      PairOfIds(p, xs, l, r, reason);
      assert found[a] in ps;
    }
  }

  lemma CarriedIsListed(p: PairReasons, xs: seq<Blockable>, l: Id, r: Id, reason: Reason)
    requires PairsSoFar(p, xs, AllReasons()) && Carries(xs, l, r, reason)
    ensures Join(l, r) in p.order && Join(l, r) in p.at
  {
    hide Carries;
    ReasonListed(reason);
    assert CarriesId(xs, Join(l, r), reason);
    assert Has(p, Join(l, r), reason);
  }

  lemma PairOfIds(p: PairReasons, xs: seq<Blockable>, l: Id, r: Id, reason: Reason)
    requires Carries(xs, l, r, reason) && PlainInput(xs) && Join(l, r) in p.at
    ensures PairOf(p, Join(l, r)).leftIdentityId == l && PairOf(p, Join(l, r)).rightIdentityId == r
  {
    CarriedIsPlain(xs, l, r, reason);
    JoinSplits(l, r);
    hide Carries, PlainInput;
  }

  /**
   `discoverCandidates`: for any input whose ids carry no space, the result is exactly what the
   surviving identities' buckets say.
   */
  method DiscoverCandidates(input: seq<Blockable>) returns (d: DiscoveryResult)
    requires PlainInput(input)
    ensures Exact(d, Latest(input)) && EachOnce(d)
  {
    hide PairsExact, ClustersExact, CollisionsExact, IncompleteExact, PairsSoFar, PlainInput, UniqueIds, NoRepeats;
    LatestFacts(input);
    var xs := Dedupe(input);
    var pairReasons := PairReasons([], map[]);
    var clusters: seq<SharedKeyCluster>, collisions: seq<Collision>, incomplete: seq<IncompleteKey> := [], [], [];
    NothingFound(xs);
    for n := 0 to |BLOCKING_REASONS|
      invariant PairsSoFar(pairReasons, xs, Done(n))
      invariant ClustersExact(clusters, xs, Done(n))
      invariant CollisionsExact(collisions, xs, Done(n))
      invariant IncompleteExact(incomplete, xs, Done(n))
      invariant NoRepeats(clusters) && NoRepeats(collisions) && NoRepeats(incomplete)
    {
      var cs, os, us;
      OneMoreDone(n);
      pairReasons, cs, os, us := SweepReason(xs, BLOCKING_REASONS[n], Done(n), pairReasons);
      FindingsJoin(clusters, cs, collisions, os, incomplete, us, xs, Done(n), BLOCKING_REASONS[n]);
      FindingsOnce(clusters, cs, collisions, os, incomplete, us, xs, Done(n), BLOCKING_REASONS[n]);
      clusters, collisions, incomplete := clusters + cs, collisions + os, incomplete + us;
    }
    assert Done(3) == AllReasons();
    var pairs, pairsByReason := CollectPairs(pairReasons, xs);
    d := DiscoveryResult(pairs, clusters, collisions, incomplete, pairsByReason);
  }

  /** No finding is reported twice. */
  predicate EachOnce(d: DiscoveryResult) {
    NoRepeats(d.sharedKeyClusters) && NoRepeats(d.crossDestinationCollisions) && NoRepeats(d.incompleteGeography)
  }

  lemma JoinedOnce<T>(a: seq<T>, b: seq<T>)
    requires NoRepeats(a) && NoRepeats(b) && forall x | x in a :: x !in b
    ensures NoRepeats(a + b)
  {
    forall i, j | 0 <= i < j < |a + b| ensures (a + b)[i] != (a + b)[j] {
      if i < |a| && j >= |a| {
        assert a[i] in a && b[j - |a|] in b;
      }
    }
  }

  lemma FindingsOnce(
    cs: seq<SharedKeyCluster>, cs': seq<SharedKeyCluster>, os: seq<Collision>, os': seq<Collision>,
    us: seq<IncompleteKey>, us': seq<IncompleteKey>, xs: seq<Blockable>, done: set<Reason>, reason: Reason)
    requires reason !in done && ClustersExact(cs, xs, done) && ClustersExact(cs', xs, {reason})
    requires CollisionsExact(os, xs, done) && CollisionsExact(os', xs, {reason})
    requires IncompleteExact(us, xs, done) && IncompleteExact(us', xs, {reason})
    requires NoRepeats(cs) && NoRepeats(os) && NoRepeats(us) && NoRepeats(cs') && NoRepeats(os') && NoRepeats(us')
    ensures NoRepeats(cs + cs') && NoRepeats(os + os') && NoRepeats(us + us')
  {
    hide BucketIds, Vetoed, KeyIds, KeyDestinations, Listed, NoRepeats;
    JoinedOnce(cs, cs');
    JoinedOnce(os, os');
    JoinedOnce(us, us');
  }

  ghost function Done(n: nat): set<Reason> {
    (if n > 0 then {ExactDomain} else {}) + (if n > 1 then {ExactPhone} else {}) + (if n > 2 then {ExactNameInDestination} else {})
  }

  lemma OneMoreDone(n: nat)
    requires n < |BLOCKING_REASONS|
    ensures BLOCKING_REASONS[n] !in Done(n) && Done(n + 1) == Done(n) + {BLOCKING_REASONS[n]}
  {
    assert n == 0 || n == 1 || n == 2;
  }

  lemma NothingFound(xs: seq<Blockable>)
    ensures PairsSoFar(PairReasons([], map[]), xs, Done(0))
    ensures ClustersExact([], xs, Done(0)) && CollisionsExact([], xs, Done(0)) && IncompleteExact([], xs, Done(0))
    ensures NoRepeats<SharedKeyCluster>([]) && NoRepeats<Collision>([]) && NoRepeats<IncompleteKey>([])
  {
    hide Vetoed, KeyFor, BucketIds;
  }
}

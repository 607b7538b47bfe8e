/**
 Ambiguity clusters (buildClusters in scripts/provider-evaluation/overlap.ts): connected components of the
 bipartite evidence graph by worklist. A JavaScript Set is a sequence without repetition, in insertion
 order.
 */
module Clusters {
  import opened Sequences

  /** `signals` stands for what the pair's evidence says; the clustering never reads it. */
  datatype Pair = Pair(aId: string, bId: string, signals: string)

  datatype Cluster = Cluster(aIds: seq<string>, bIds: seq<string>)

  // ---- The graph and its components. ----

  ghost predicate Edge(pairs: seq<Pair>, a: string, b: string) {
    exists p | p in pairs :: p.aId == a && p.bId == b
  }

  /** Two A-side records entangled through one B-side record. */
  ghost predicate Linked(pairs: seq<Pair>, a: string, a': string) {
    exists b :: Edge(pairs, a, b) && Edge(pairs, a', b)
  }

  ghost predicate Path(pairs: seq<Pair>, path: seq<string>) {
    path != [] && forall i | 0 <= i < |path| - 1 :: Linked(pairs, path[i], path[i + 1])
  }

  ghost predicate Reaches(pairs: seq<Pair>, a: string, a': string) {
    exists path: seq<string> :: Path(pairs, path) && path[0] == a && path[|path| - 1] == a'
  }

  lemma ReachesSelf(pairs: seq<Pair>, a: string)
    ensures Reaches(pairs, a, a)
  {
    assert Path(pairs, [a]);
  }

  lemma ReachesStep(pairs: seq<Pair>, a: string, x: string, y: string)
    requires Reaches(pairs, a, x) && Linked(pairs, x, y)
    ensures Reaches(pairs, a, y)
  {
    hide Linked;
    var path: seq<string> :| Path(pairs, path) && path[0] == a && path[|path| - 1] == x;
    assert Path(pairs, path + [y]);
  }

  lemma ReachesBack(pairs: seq<Pair>, a: string, x: string)
    requires Reaches(pairs, a, x)
    ensures Reaches(pairs, x, a)
  {
    hide Edge;
    var path: seq<string> :| Path(pairs, path) && path[0] == a && path[|path| - 1] == x;
    var back := seq(|path|, i requires 0 <= i < |path| => path[|path| - 1 - i]);
    forall i | 0 <= i < |back| - 1 ensures Linked(pairs, back[i], back[i + 1]) {
      assert Linked(pairs, path[|path| - 2 - i], path[|path| - 1 - i]);
    }
    assert Path(pairs, back);
  }

  /** A set closed under links that holds one end of a path holds the other. */
  lemma {:induction false} ClosedHoldsPath(pairs: seq<Pair>, s: seq<string>, path: seq<string>)
    requires Path(pairs, path) && path[0] in s
    requires forall a, a' | a in s && Linked(pairs, a, a') :: a' in s
    ensures path[|path| - 1] in s
    decreases |path|
  {
    hide Linked;
    if |path| > 1 {
      assert Path(pairs, path[1..]);
      ClosedHoldsPath(pairs, s, path[1..]);
    }
  }

  lemma ReachesJoins(pairs: seq<Pair>, a: string, x: string, y: string)
    requires Reaches(pairs, a, x) && Reaches(pairs, x, y)
    ensures Reaches(pairs, a, y)
  {
    hide Linked;
    var p: seq<string> :| Path(pairs, p) && p[0] == a && p[|p| - 1] == x;
    var q: seq<string> :| Path(pairs, q) && q[0] == x && q[|q| - 1] == y;
    var r := p + q[1..];
    forall i | 0 <= i < |r| - 1 ensures Linked(pairs, r[i], r[i + 1]) {
      if i < |p| - 1 {
        assert Linked(pairs, p[i], p[i + 1]);
      } else {
        assert Linked(pairs, q[i - |p| + 1], q[i - |p| + 2]);
      }
    }
    assert Path(pairs, r) && r[|r| - 1] == y;
  }

  /** The component of `root`: everything evidence reaches from it, on both sides, and nothing else. */
  ghost predicate Component(pairs: seq<Pair>, root: string, c: Cluster) {
    && (forall a :: a in c.aIds <==> Reaches(pairs, root, a))
    && (forall b :: b in c.bIds <==> exists a | a in c.aIds :: Edge(pairs, a, b))
  }

  ghost predicate Isolated(pairs: seq<Pair>, p: Pair) {
    && (forall b | Edge(pairs, p.aId, b) :: b == p.bId)
    && (forall a | Edge(pairs, a, p.bId) :: a == p.aId)
  }

  // ---- Adjacency. ----

  function Neighbours(m: map<string, seq<string>>, k: string): seq<string> { if k in m then m[k] else [] }

  /** `map.get(k).add(v)`, creating the set first. */
  function AddTo(m: map<string, seq<string>>, k: string, v: string): map<string, seq<string>> {
    var s := Neighbours(m, k);
    m[k := if v in s then s else s + [v]]
  }

  ghost predicate ListsB(pairs: seq<Pair>, aToB: map<string, seq<string>>) {
    (forall a, b :: b in Neighbours(aToB, a) <==> Edge(pairs, a, b)) && forall a :: NoRepeats(Neighbours(aToB, a))
  }

  ghost predicate ListsA(pairs: seq<Pair>, bToA: map<string, seq<string>>) {
    (forall a, b :: a in Neighbours(bToA, b) <==> Edge(pairs, a, b)) && forall b :: NoRepeats(Neighbours(bToA, b))
  }

  ghost predicate Adjacency(pairs: seq<Pair>, aToB: map<string, seq<string>>, bToA: map<string, seq<string>>) {
    ListsB(pairs, aToB) && ListsA(pairs, bToA)
  }

  lemma AddToMeaning(m: map<string, seq<string>>, k: string, v: string, x: string)
    ensures forall y :: y in Neighbours(AddTo(m, k, v), x) <==> y in Neighbours(m, x) || (x == k && y == v)
    ensures NoRepeats(Neighbours(m, x)) ==> NoRepeats(Neighbours(AddTo(m, k, v), x))
  {
  }

  lemma EdgeStep(pairs: seq<Pair>, i: nat)
    requires i < |pairs|
    ensures forall a, b {:trigger Edge(pairs[..i + 1], a, b)} ::
              Edge(pairs[..i + 1], a, b) <==> Edge(pairs[..i], a, b) || (a == pairs[i].aId && b == pairs[i].bId)
  {
    var before, after := pairs[..i], pairs[..i + 1];
    assert after == before + [pairs[i]];
    forall a, b ensures Edge(after, a, b) <==> Edge(before, a, b) || (a == pairs[i].aId && b == pairs[i].bId) {
      if Edge(before, a, b) {
        var p :| p in before && p.aId == a && p.bId == b;
        assert p in after;
      }
      if a == pairs[i].aId && b == pairs[i].bId {
        assert pairs[i] in after;
      }
    }
  }

  method BuildAdjacency(pairs: seq<Pair>) returns (aToB: map<string, seq<string>>, bToA: map<string, seq<string>>)
    ensures Adjacency(pairs, aToB, bToA)
  {
    hide AddTo, Adjacency;
    aToB, bToA := map[], map[];
    NoAdjacency(pairs);
    for i := 0 to |pairs|
      invariant Adjacency(pairs[..i], aToB, bToA)
    {
      AdjacencyStep(pairs, i, aToB, bToA);
      aToB := AddTo(aToB, pairs[i].aId, pairs[i].bId);
      bToA := AddTo(bToA, pairs[i].bId, pairs[i].aId);
    }
    assert pairs[..|pairs|] == pairs;
  }

  lemma AdjacencyStep(pairs: seq<Pair>, i: nat, aToB: map<string, seq<string>>, bToA: map<string, seq<string>>)
    requires i < |pairs| && Adjacency(pairs[..i], aToB, bToA)
    ensures Adjacency(pairs[..i + 1], AddTo(aToB, pairs[i].aId, pairs[i].bId), AddTo(bToA, pairs[i].bId, pairs[i].aId))
  {
    ListsBStep(pairs, i, aToB);
    ListsAStep(pairs, i, bToA);
  }

  lemma ListsBStep(pairs: seq<Pair>, i: nat, aToB: map<string, seq<string>>)
    requires i < |pairs| && ListsB(pairs[..i], aToB)
    ensures ListsB(pairs[..i + 1], AddTo(aToB, pairs[i].aId, pairs[i].bId))
  {
    hide AddTo, Neighbours, Edge, NoRepeats;
    EdgeStep(pairs, i);
    var m := AddTo(aToB, pairs[i].aId, pairs[i].bId);
    forall a ensures NoRepeats(Neighbours(m, a)) {
      AddToMeaning(aToB, pairs[i].aId, pairs[i].bId, a);
      assert NoRepeats(Neighbours(aToB, a));
    }
    forall a, b ensures b in Neighbours(m, a) <==> Edge(pairs[..i + 1], a, b) {
      AddToMeaning(aToB, pairs[i].aId, pairs[i].bId, a);
      assert b in Neighbours(aToB, a) <==> Edge(pairs[..i], a, b);
    }
  }

  lemma ListsAStep(pairs: seq<Pair>, i: nat, bToA: map<string, seq<string>>)
    requires i < |pairs| && ListsA(pairs[..i], bToA)
    ensures ListsA(pairs[..i + 1], AddTo(bToA, pairs[i].bId, pairs[i].aId))
  {
    hide AddTo, Neighbours, Edge, NoRepeats;
    EdgeStep(pairs, i);
    var m := AddTo(bToA, pairs[i].bId, pairs[i].aId);
    forall b ensures NoRepeats(Neighbours(m, b)) {
      AddToMeaning(bToA, pairs[i].bId, pairs[i].aId, b);
      assert NoRepeats(Neighbours(bToA, b));
    }
    forall a, b ensures a in Neighbours(m, b) <==> Edge(pairs[..i + 1], a, b) {
      AddToMeaning(bToA, pairs[i].bId, pairs[i].aId, b);
      assert a in Neighbours(bToA, b) <==> Edge(pairs[..i], a, b);
    }
  }

  lemma NoAdjacency(pairs: seq<Pair>)
    ensures Adjacency(pairs[..0], map[], map[])
  {
  }

  // ---- The worklist. ----

  /** What the walk has established so far: found records are reachable, found neighbours are found or queued. */
  ghost predicate Walking(pairs: seq<Pair>, root: string, aIds: seq<string>, bIds: seq<string>, queue: seq<string>) {
    && (root in aIds || root in queue)
    && (forall a | a in aIds :: Reaches(pairs, root, a))
    && (forall a | a in queue :: Reaches(pairs, root, a))
    && (forall b | b in bIds :: exists a | a in aIds :: Edge(pairs, a, b))
    && (forall a, b | b in bIds && Edge(pairs, a, b) :: a in aIds || a in queue)
    && NoRepeats(aIds) && NoRepeats(bIds)
  }

  ghost predicate Expanded(pairs: seq<Pair>, aIds: seq<string>, bIds: seq<string>) {
    forall a, b | a in aIds && Edge(pairs, a, b) :: b in bIds
  }

  lemma WalkDone(pairs: seq<Pair>, root: string, aIds: seq<string>, bIds: seq<string>)
    requires Walking(pairs, root, aIds, bIds, []) && Expanded(pairs, aIds, bIds)
    ensures Component(pairs, root, Cluster(aIds, bIds))
  {
    hide Edge;
    forall a | Reaches(pairs, root, a) ensures a in aIds {
      var path: seq<string> :| Path(pairs, path) && path[0] == root && path[|path| - 1] == a;
      ClosedHoldsPath(pairs, aIds, path);
    }
  }

  /** One dequeued record: every B it touches is found, and every A those touch is found or queued. */
  method Expand(pairs: seq<Pair>, aToB: map<string, seq<string>>, bToA: map<string, seq<string>>, root: string,
                aId: string, aIds: seq<string>, bIds: seq<string>, queue: seq<string>)
    returns (bIds': seq<string>, queue': seq<string>)
    requires Adjacency(pairs, aToB, bToA) && Walking(pairs, root, aIds, bIds, queue) && aId in aIds
    ensures Walking(pairs, root, aIds, bIds', queue')
    ensures forall b :: b in bIds' <==> b in bIds || Edge(pairs, aId, b)
  {
    hide Edge, Reaches, Neighbours, Walking, NoRepeats;
    bIds', queue' := bIds, queue;
    var bs := Neighbours(aToB, aId);
    for i := 0 to |bs|
      invariant Walking(pairs, root, aIds, bIds', queue')
      invariant forall b :: b in bIds' <==> b in bIds || b in bs[..i]
    {
      var bId := bs[i];
      assert bId in bs && Edge(pairs, aId, bId);
      assert bs[..i + 1] == bs[..i] + [bId];
      if bId !in bIds' {
        var backs := Neighbours(bToA, bId);
        var grown := queue';
        for j := 0 to |backs|
          invariant Walking(pairs, root, aIds, bIds', grown)
          invariant forall a | a in backs[..j] :: a in aIds || a in grown
        {
          var backA := backs[j];
          assert backA in backs && Edge(pairs, backA, bId);
          assert backs[..j + 1] == backs[..j] + [backA];
          if backA !in aIds {
            Enqueue(pairs, root, aIds, bIds', grown, aId, backA, bId);
            grown := grown + [backA];
          }
        }
        assert backs[..|backs|] == backs;
        FoundB(pairs, root, aIds, bIds', grown, aId, bId);
        bIds', queue' := bIds' + [bId], grown;
      }
    }
    assert bs[..|bs|] == bs;
  }

  lemma Enqueue(pairs: seq<Pair>, root: string, aIds: seq<string>, bIds: seq<string>, queue: seq<string>,
                aId: string, backA: string, bId: string)
    requires Walking(pairs, root, aIds, bIds, queue) && aId in aIds && Edge(pairs, aId, bId) && Edge(pairs, backA, bId)
    ensures Walking(pairs, root, aIds, bIds, queue + [backA])
  {
    hide Edge, Reaches, NoRepeats;
    assert Linked(pairs, aId, backA);
    ReachesStep(pairs, root, aId, backA);
  }

  lemma FoundB(pairs: seq<Pair>, root: string, aIds: seq<string>, bIds: seq<string>, queue: seq<string>,
               aId: string, bId: string)
    requires Walking(pairs, root, aIds, bIds, queue) && aId in aIds && Edge(pairs, aId, bId) && bId !in bIds
    requires forall a | Edge(pairs, a, bId) :: a in aIds || a in queue
    ensures Walking(pairs, root, aIds, bIds + [bId], queue)
  {
    hide Edge, Reaches;
  }

  /** The A-side records the walk can still add. */
  function Unvisited(pairs: seq<Pair>, aIds: seq<string>): set<string> { set p | p in pairs && p.aId !in aIds :: p.aId }

  method WalkComponent(pairs: seq<Pair>, aToB: map<string, seq<string>>, bToA: map<string, seq<string>>, root: string)
    returns (c: Cluster)
    requires Adjacency(pairs, aToB, bToA) && exists p | p in pairs :: p.aId == root
    ensures Component(pairs, root, c) && NoRepeats(c.aIds) && NoRepeats(c.bIds)
  {
    hide Edge, Reaches, Walking, NoRepeats, Component, Expanded, Adjacency;
    var aIds: seq<string>, bIds: seq<string> := [], [];
    var queueA := [root];
    WalkStarts(pairs, root);
    while queueA != []
      invariant Walking(pairs, root, aIds, bIds, queueA) && Expanded(pairs, aIds, bIds)
      decreases |Unvisited(pairs, aIds)|, |queueA|
    {
      var aId := queueA[|queueA| - 1];
      assert queueA == queueA[..|queueA| - 1] + [aId];
      queueA := queueA[..|queueA| - 1];
      if aId in aIds {
        Dequeue(pairs, root, aIds, bIds, queueA, aId);
      } else {
        ghost var before := aIds;
        Visit(pairs, root, aIds, bIds, queueA, aId);
        aIds := aIds + [aId];
        ghost var found := bIds;
        bIds, queueA := Expand(pairs, aToB, bToA, root, aId, aIds, bIds, queueA);
        NowExpanded(pairs, before, found, aId, bIds);
      }
    }
    WalkDone(pairs, root, aIds, bIds);
    c := Cluster(aIds, bIds);
    assert NoRepeats(aIds) && NoRepeats(bIds) by { WalkHasNoRepeats(pairs, root, aIds, bIds, queueA); }
  }

  lemma WalkHasNoRepeats(pairs: seq<Pair>, root: string, aIds: seq<string>, bIds: seq<string>, queue: seq<string>)
    requires Walking(pairs, root, aIds, bIds, queue)
    ensures NoRepeats(aIds) && NoRepeats(bIds)
  {
    hide Edge, Reaches;
  }

  lemma WalkStarts(pairs: seq<Pair>, root: string)
    ensures Walking(pairs, root, [], [], [root]) && Expanded(pairs, [], [])
  {
    ReachesSelf(pairs, root);
  }

  lemma Dequeue(pairs: seq<Pair>, root: string, aIds: seq<string>, bIds: seq<string>, queue: seq<string>, aId: string)
    requires Walking(pairs, root, aIds, bIds, queue + [aId]) && aId in aIds
    ensures Walking(pairs, root, aIds, bIds, queue)
  {
    hide Edge, Reaches, NoRepeats;
  }

  lemma Visit(pairs: seq<Pair>, root: string, aIds: seq<string>, bIds: seq<string>, queue: seq<string>, aId: string)
    requires Walking(pairs, root, aIds, bIds, queue + [aId]) && aId !in aIds
    requires exists p | p in pairs :: p.aId == root
    ensures Walking(pairs, root, aIds + [aId], bIds, queue)
    ensures Unvisited(pairs, aIds + [aId]) < Unvisited(pairs, aIds)
    ensures |Unvisited(pairs, aIds + [aId])| < |Unvisited(pairs, aIds)|
  {
    hide Edge;
    assert Reaches(pairs, root, aId);
    ReachedIsNode(pairs, root, aId);
    var p :| p in pairs && p.aId == aId;
    assert Unvisited(pairs, aIds + [aId]) == Unvisited(pairs, aIds) - {aId};
    assert aId in Unvisited(pairs, aIds);
  }

  lemma ReachedIsNode(pairs: seq<Pair>, root: string, a: string)
    requires Reaches(pairs, root, a) && exists p | p in pairs :: p.aId == root
    ensures exists p | p in pairs :: p.aId == a
  {
    var path: seq<string> :| Path(pairs, path) && path[0] == root && path[|path| - 1] == a;
    if |path| > 1 {
      assert Linked(pairs, path[|path| - 2], path[|path| - 2 + 1]);
    }
  }

  lemma NowExpanded(pairs: seq<Pair>, aIds: seq<string>, found: seq<string>, aId: string, bIds: seq<string>)
    requires Expanded(pairs, aIds, found) && forall b :: b in bIds <==> b in found || Edge(pairs, aId, b)
    ensures Expanded(pairs, aIds + [aId], bIds)
  {
    hide Edge;
  }

  // ---- The whole pass. ----

  /** The A-side record was settled: as a clean one-to-one edge, or inside a cluster. */
  ghost predicate Settled(oneToOne: seq<Pair>, clusters: seq<Cluster>, a: string) {
    (exists p | p in oneToOne :: p.aId == a) || (exists c | c in clusters :: a in c.aIds)
  }

  ghost predicate Partitioned(pairs: seq<Pair>, oneToOne: seq<Pair>, clusters: seq<Cluster>) {
    && (forall p | p in oneToOne :: p in pairs && Isolated(pairs, p))
    && (forall c | c in clusters :: c.aIds != [] && c.aIds[0] in c.aIds && Component(pairs, c.aIds[0], c))
    && (forall i, j | 0 <= i < j < |oneToOne| :: oneToOne[i].aId != oneToOne[j].aId)
    && (forall i, j, a | 0 <= i < j < |clusters| && a in clusters[i].aIds :: a !in clusters[j].aIds)
    && (forall p, c | p in oneToOne && c in clusters :: p.aId !in c.aIds)
    && (forall c | c in clusters :: |c.aIds| > 1 || |c.bIds| > 1)
  }

  method BuildClusters(evidencePairs: seq<Pair>) returns (oneToOne: seq<Pair>, clusters: seq<Cluster>)
    ensures Partitioned(evidencePairs, oneToOne, clusters)
    ensures forall q | q in evidencePairs :: Settled(oneToOne, clusters, q.aId)
  {
    hide Edge, Reaches, Component, Isolated, Adjacency, Neighbours, Partitioned, Settled, NoRepeats;
    var aToB, bToA := BuildAdjacency(evidencePairs);
    oneToOne, clusters := [], [];
    var visitedA: set<string> := {};
    NothingSettled(evidencePairs);
    for i := 0 to |evidencePairs|
      invariant Partitioned(evidencePairs, oneToOne, clusters)
      invariant forall a :: a in visitedA <==> Settled(oneToOne, clusters, a)
      invariant forall k | 0 <= k < i :: evidencePairs[k].aId in visitedA
    {
      var pair := evidencePairs[i];
      assert pair in evidencePairs;
      if pair.aId !in visitedA {
        var bSet := Neighbours(aToB, pair.aId);
        if |bSet| == 1 && |Neighbours(bToA, bSet[0])| == 1 {
          CleanIsIsolated(evidencePairs, aToB, bToA, pair);
          AddClean(evidencePairs, oneToOne, clusters, pair);
          visitedA := visitedA + {pair.aId};
          oneToOne := oneToOne + [pair];
        } else {
          var c := WalkComponent(evidencePairs, aToB, bToA, pair.aId);
          EntangledIsLarge(evidencePairs, aToB, bToA, pair, c);
          AddCluster(evidencePairs, oneToOne, clusters, pair, c);
          visitedA := visitedA + set a | a in c.aIds;
          clusters := clusters + [c];
        }
      }
    }
    forall q | q in evidencePairs ensures Settled(oneToOne, clusters, q.aId) {
      var k :| 0 <= k < |evidencePairs| && evidencePairs[k] == q;
    }
  }

  lemma NothingSettled(pairs: seq<Pair>)
    ensures Partitioned(pairs, [], []) && forall a :: !Settled([], [], a)
  {
  }

  lemma CleanIsIsolated(pairs: seq<Pair>, aToB: map<string, seq<string>>, bToA: map<string, seq<string>>, p: Pair)
    requires Adjacency(pairs, aToB, bToA) && p in pairs
    requires |Neighbours(aToB, p.aId)| == 1 && |Neighbours(bToA, Neighbours(aToB, p.aId)[0])| == 1
    ensures Isolated(pairs, p)
  {
    hide Neighbours;
    assert Edge(pairs, p.aId, p.bId);
    assert p.bId in Neighbours(aToB, p.aId);
    assert p.aId in Neighbours(bToA, p.bId);
  }

  lemma IsolatedReachesItself(pairs: seq<Pair>, p: Pair, x: string)
    requires Isolated(pairs, p) && p in pairs && Reaches(pairs, p.aId, x)
    ensures x == p.aId
  {
    var path: seq<string> :| Path(pairs, path) && path[0] == p.aId && path[|path| - 1] == x;
    forall a, a' | a in [p.aId] && Linked(pairs, a, a') ensures a' in [p.aId] {
      var b :| Edge(pairs, a, b) && Edge(pairs, a', b);
      assert b == p.bId;
    }
    ClosedHoldsPath(pairs, [p.aId], path);
  }

  lemma AddClean(pairs: seq<Pair>, oneToOne: seq<Pair>, clusters: seq<Cluster>, p: Pair)
    requires Partitioned(pairs, oneToOne, clusters) && p in pairs && Isolated(pairs, p)
    requires !Settled(oneToOne, clusters, p.aId)
    ensures Partitioned(pairs, oneToOne + [p], clusters)
    ensures forall a :: Settled(oneToOne + [p], clusters, a) <==> Settled(oneToOne, clusters, a) || a == p.aId
  {
    hide Isolated, Component;
    assert p in oneToOne + [p];
  }

  /** A component whose root was never settled meets nothing settled. */
  lemma NewComponentIsNew(pairs: seq<Pair>, oneToOne: seq<Pair>, clusters: seq<Cluster>, root: string, c: Cluster)
    requires Partitioned(pairs, oneToOne, clusters) && Component(pairs, root, c)
    requires !Settled(oneToOne, clusters, root)
    ensures forall a | a in c.aIds :: !Settled(oneToOne, clusters, a)
  {
    hide Edge, Reaches, Isolated;
    forall a | a in c.aIds ensures !Settled(oneToOne, clusters, a) {
      ReachesBack(pairs, root, a);
      forall p | p in oneToOne ensures p.aId != a {
        assert Isolated(pairs, p) && p in pairs;
        if Reaches(pairs, p.aId, root) {
          IsolatedReachesItself(pairs, p, root);
        }
      }
      forall d | d in clusters ensures a !in d.aIds {
        assert Component(pairs, d.aIds[0], d);
        if Reaches(pairs, d.aIds[0], a) {
          ReachesJoins(pairs, d.aIds[0], a, root);
        }
      }
    }
  }

  lemma EntangledIsLarge(pairs: seq<Pair>, aToB: map<string, seq<string>>, bToA: map<string, seq<string>>, p: Pair, c: Cluster)
    requires Adjacency(pairs, aToB, bToA) && p in pairs && Component(pairs, p.aId, c)
    requires |Neighbours(aToB, p.aId)| != 1 || |Neighbours(bToA, Neighbours(aToB, p.aId)[0])| != 1
    ensures |c.aIds| > 1 || |c.bIds| > 1
    ensures c.aIds != []
  {
    hide Neighbours, Reaches;
    ReachesSelf(pairs, p.aId);
    assert p.aId in c.aIds;
    assert Edge(pairs, p.aId, p.bId);
    var bs := Neighbours(aToB, p.aId);
    assert p.bId in bs;
    if |bs| != 1 {
      assert Edge(pairs, p.aId, bs[0]) && Edge(pairs, p.aId, bs[1]) by {
        assert bs[0] in bs && bs[1] in bs;
      }
      TwoDiffer(c.bIds, bs[0], bs[1]);
    } else {
      assert bs[0] == p.bId;
      var backs := Neighbours(bToA, p.bId);
      assert p.aId in backs;
      assert backs[0] in backs && backs[1] in backs;
      BackIsReached(pairs, p, backs[0]);
      BackIsReached(pairs, p, backs[1]);
      TwoDiffer(c.aIds, backs[0], backs[1]);
    }
  }

  lemma BackIsReached(pairs: seq<Pair>, p: Pair, a: string)
    requires p in pairs && Edge(pairs, a, p.bId)
    ensures Reaches(pairs, p.aId, a)
  {
    assert Edge(pairs, p.aId, p.bId);
    assert Linked(pairs, p.aId, a);
    ReachesSelf(pairs, p.aId);
    ReachesStep(pairs, p.aId, p.aId, a);
  }

  lemma TwoDiffer(xs: seq<string>, x: string, y: string)
    requires x in xs && y in xs && x != y
    ensures |xs| > 1
  {
  }

  lemma AnyMemberIsARoot(pairs: seq<Pair>, root: string, c: Cluster)
    requires Component(pairs, root, c) && c.aIds != []
    ensures Component(pairs, c.aIds[0], c)
  {
    hide Reaches, Edge;
    var r := c.aIds[0];
    assert r in c.aIds;
    ReachesBack(pairs, root, r);
    forall a ensures a in c.aIds <==> Reaches(pairs, r, a) {
      if a in c.aIds {
        ReachesJoins(pairs, r, root, a);
      }
      if Reaches(pairs, r, a) {
        ReachesJoins(pairs, root, r, a);
      }
    }
  }

  lemma AddCluster(pairs: seq<Pair>, oneToOne: seq<Pair>, clusters: seq<Cluster>, p: Pair, c: Cluster)
    requires Partitioned(pairs, oneToOne, clusters) && p in pairs && Component(pairs, p.aId, c)
    requires !Settled(oneToOne, clusters, p.aId) && (|c.aIds| > 1 || |c.bIds| > 1) && c.aIds != []
    ensures Partitioned(pairs, oneToOne, clusters + [c]) && p.aId in c.aIds
    ensures forall a :: Settled(oneToOne, clusters + [c], a) <==> Settled(oneToOne, clusters, a) || a in c.aIds
  {
    hide Isolated, Component, Reaches;
    NewComponentIsNew(pairs, oneToOne, clusters, p.aId, c);
    AnyMemberIsARoot(pairs, p.aId, c);
    assert p.aId in c.aIds by {
      ReachesSelf(pairs, p.aId);
      RootIsMember(pairs, p.aId, c);
    }
    assert c in clusters + [c];
  }

  lemma RootIsMember(pairs: seq<Pair>, root: string, c: Cluster)
    requires Component(pairs, root, c)
    ensures root in c.aIds
  {
    hide Reaches;
    ReachesSelf(pairs, root);
  }

  /** Every evidence pair is an isolated one-to-one edge, or has both ends in one cluster. */
  lemma EveryPairIsPlaced(pairs: seq<Pair>, oneToOne: seq<Pair>, clusters: seq<Cluster>, q: Pair)
    requires Partitioned(pairs, oneToOne, clusters) && q in pairs && Settled(oneToOne, clusters, q.aId)
    ensures (exists p | p in oneToOne :: p.aId == q.aId && p.bId == q.bId && Isolated(pairs, p))
         || (exists c | c in clusters :: q.aId in c.aIds && q.bId in c.bIds)
  {
    hide Reaches;
    assert Edge(pairs, q.aId, q.bId);
    if p :| p in oneToOne && p.aId == q.aId {
      assert Isolated(pairs, p);
    } else {
      var c :| c in clusters && q.aId in c.aIds;
      assert Component(pairs, c.aIds[0], c);
    }
  }

  /** Each cluster, the last one included, is connected, closed under evidence, and more than a single edge. */
  lemma ClusterIsAComponent(pairs: seq<Pair>, oneToOne: seq<Pair>, clusters: seq<Cluster>, c: Cluster)
    requires Partitioned(pairs, oneToOne, clusters) && c in clusters
    ensures forall a, a' | a in c.aIds && a' in c.aIds :: Reaches(pairs, a, a')
    ensures forall a, b | Edge(pairs, a, b) :: a in c.aIds <==> b in c.bIds
    ensures forall b | b in c.bIds :: exists a | a in c.aIds :: Edge(pairs, a, b)
    ensures |c.aIds| > 1 || |c.bIds| > 1
  {
    hide Reaches, Edge;
    assert Component(pairs, c.aIds[0], c);
    ClosedBothWays(pairs, c.aIds[0], c);
    forall a, a' | a in c.aIds && a' in c.aIds ensures Reaches(pairs, a, a') {
      ReachesBack(pairs, c.aIds[0], a);
      ReachesJoins(pairs, a, c.aIds[0], a');
    }
  }

  /** Two clusters share no record on either side. */
  lemma ClustersAreApart(pairs: seq<Pair>, oneToOne: seq<Pair>, clusters: seq<Cluster>, i: nat, j: nat)
    requires Partitioned(pairs, oneToOne, clusters) && i < j < |clusters|
    ensures forall a | a in clusters[i].aIds :: a !in clusters[j].aIds
    ensures forall b | b in clusters[i].bIds :: b !in clusters[j].bIds
  {
    hide Reaches, Edge;
    var c, d := clusters[i], clusters[j];
    assert c in clusters && d in clusters;
    ClusterIsAComponent(pairs, oneToOne, clusters, c);
    ClusterIsAComponent(pairs, oneToOne, clusters, d);
    forall b | b in c.bIds ensures b !in d.bIds {
      forall a | a in d.aIds ensures !Edge(pairs, a, b) {
        assert a in c.aIds ==> a !in d.aIds;
      }
    }
  }

  /** No isolated edge touches a cluster. */
  lemma IsolatedEdgesAreApart(pairs: seq<Pair>, oneToOne: seq<Pair>, clusters: seq<Cluster>, p: Pair, c: Cluster)
    requires Partitioned(pairs, oneToOne, clusters) && p in oneToOne && c in clusters
    ensures p.aId !in c.aIds && p.bId !in c.bIds
  {
    hide Reaches;
    ClusterIsAComponent(pairs, oneToOne, clusters, c);
    assert Edge(pairs, p.aId, p.bId);
  }

  lemma ClosedBothWays(pairs: seq<Pair>, root: string, c: Cluster)
    requires Component(pairs, root, c)
    ensures forall a, b | Edge(pairs, a, b) :: a in c.aIds <==> b in c.bIds
  {
    hide Reaches, Edge;
    forall a, b | Edge(pairs, a, b) && b in c.bIds ensures a in c.aIds {
      var x :| x in c.aIds && Edge(pairs, x, b);
      assert Linked(pairs, x, a);
      ReachesStep(pairs, root, x, a);
    }
  }
}

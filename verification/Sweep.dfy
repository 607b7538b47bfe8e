/**
 The candidate writer (scripts/entity-resolution/writer.ts) over the table of source-identity pairs,
 and the sync gate that must accept what it leaves (scripts/entity-resolution/queues.ts,
 scripts/prepublication-preview/preview.ts). Only `source_identity` rows are here: every statement of the
 writer is restricted to that kind.
 */
module Sweep {
  import opened Prelude
  import opened Text
  import opened Sequences
  import opened Discovery

  const MACHINE_PREFIX := "blocking:"
  const NO_CURRENT_RULE := "no_current_blocking_rule"

  datatype Status = Pending | Accepted | Rejected | Superseded

  /** What `compareRecords` says about two records; carried, never interpreted here. */
  datatype PairEvidence = PairEvidence(
    name: string, domain: string, address: string, phone: string, brand: string, distanceMetres: Option<string>)

  datatype Row = Row(
    source: string, environment: string, sourceRunId: Option<Id>, matchMethod: string, evidence: PairEvidence,
    status: Status, supersededReason: Option<string>, resolvedAt: Option<string>, reviewNote: Option<string>)

  /** One row per pair, in the canonical orientation: the unique key is the map key. */
  type Pair = (Id, Id)
  type Table = map<Pair, Row>

  ghost predicate Oriented(rows: Table) { forall p | p in rows :: Less(p.0, p.1) && Plain(p.0) && Plain(p.1) }

  datatype Prepared = Prepared(pair: Pair, matchMethod: string, evidence: PairEvidence)

  datatype Options = Options(source: string, environment: string, runId: Option<Id>, now: string)

  predicate StartsWith(s: string, prefix: string) { prefix <= s }

  predicate IsBlocking(r: Row) { StartsWith(r.matchMethod, MACHINE_PREFIX) }

  function ReasonText(r: Reason): string {
    match r
    case ExactDomain => "exact_domain"
    case ExactPhone => "exact_phone"
    case ExactNameInDestination => "exact_name_in_destination"
  }

  function JoinPlus(texts: seq<string>): string {
    if texts == [] then "" else if |texts| == 1 then texts[0] else texts[0] + "+" + JoinPlus(texts[1..])
  }

  function MatchMethodFor(reasons: seq<Reason>): string {
    MACHINE_PREFIX + JoinPlus(SortBy(Self, Map(ReasonText, reasons)))
  }

  lemma MachineMethodIsBlocking(reasons: seq<Reason>)
    ensures StartsWith(MatchMethodFor(reasons), MACHINE_PREFIX)
  {
    hide JoinPlus, SortBy;
  }

  // ---- One row through the sweep. ----

  predicate MachineStoodDown(r: Row) { r.status.Superseded? && r.supersededReason == Some(NO_CURRENT_RULE) }

  predicate MachinePending(r: Row) { r.status.Pending? && IsBlocking(r) }

  predicate InNamespace(r: Row, o: Options) { r.source == o.source && r.environment == o.environment }

  function Inserted(q: Prepared, o: Options): Row {
    Row(o.source, o.environment, o.runId, q.matchMethod, q.evidence, Pending, None, None, None)
  }

  function Reactivated(r: Row, q: Prepared): Row {
    r.(status := Pending, supersededReason := None, resolvedAt := None, matchMethod := q.matchMethod, evidence := q.evidence)
  }

  function Refreshed(r: Row, q: Prepared): Row { r.(matchMethod := q.matchMethod, evidence := q.evidence) }

  function StoodDown(r: Row, o: Options): Row {
    r.(status := Superseded, supersededReason := Some(NO_CURRENT_RULE), resolvedAt := Some(o.now))
  }

  /** The current pair's row after the loop visited it. */
  function Visited(rows: Table, q: Prepared, o: Options): Row {
    if q.pair !in rows then Inserted(q, o)
    else if MachineStoodDown(rows[q.pair]) then Reactivated(rows[q.pair], q)
    else if MachinePending(rows[q.pair]) then Refreshed(rows[q.pair], q)
    else rows[q.pair]
  }

  predicate Stale(r: Row, o: Options) { InNamespace(r, o) && MachinePending(r) }

  ghost predicate DistinctPairs(prepared: seq<Prepared>) {
    forall a, b | 0 <= a < b < |prepared| :: prepared[a].pair != prepared[b].pair
  }

  predicate Current(prepared: seq<Prepared>, p: Pair) { exists q | q in prepared :: q.pair == p }

  /**
   What a sweep makes of the table, pair by pair: a current pair is visited, a stale machine row no
   current pair supports is stood down, and every other row is byte-identical.
   */
  ghost predicate SweptTo(rows: Table, prepared: seq<Prepared>, o: Options, rows': Table) {
    && (forall p :: p in rows' <==> p in rows || Current(prepared, p))
    && (forall q | q in prepared :: rows'[q.pair] == Visited(rows, q, o))
    && (forall p | p in rows && !Current(prepared, p) ::
          rows'[p] == if Stale(rows[p], o) then StoodDown(rows[p], o) else rows[p])
  }

  datatype Counts = Counts(
    created: nat, evidenceUpdated: nat, decidedSkipped: nat, manualSkipped: nat, superseded: nat, reactivated: nat)

  const NO_COUNTS := Counts(0, 0, 0, 0, 0, 0)

  /** Which counter a visit bumps, if any. */
  function Tally(rows: Table, q: Prepared, c: Counts): Counts {
    if q.pair !in rows then c.(created := c.created + 1)
    else
      var r := rows[q.pair];
      if MachineStoodDown(r) then c.(reactivated := c.reactivated + 1)
      else if MachinePending(r) then
        if r.matchMethod != q.matchMethod || r.evidence != q.evidence then c.(evidenceUpdated := c.evidenceUpdated + 1) else c
      else if !r.status.Pending? then c.(decidedSkipped := c.decidedSkipped + 1)
      else c.(manualSkipped := c.manualSkipped + 1)
  }

  function TallyAll(rows: Table, prepared: seq<Prepared>): Counts {
    if prepared == [] then NO_COUNTS
    else Tally(rows, prepared[|prepared| - 1], TallyAll(rows, prepared[..|prepared| - 1]))
  }

  function StaleRows(rows: Table, prepared: seq<Prepared>, o: Options): set<Pair> {
    set p | p in rows && !Current(prepared, p) && Stale(rows[p], o)
  }

  /** The loop that pairs each discovered pair with its evidence. */
  function PreparedFrom(pairs: seq<CandidatePair>, compare: (Id, Id) -> PairEvidence): seq<Prepared> {
    Map((p: CandidatePair) => Prepared((p.leftIdentityId, p.rightIdentityId), MatchMethodFor(p.reasons),
                                       compare(p.leftIdentityId, p.rightIdentityId)), pairs)
  }

  /** What discovery found is exactly what the sweep may be given: oriented, distinct, machine-named pairs. */
  lemma DiscoveryPrepares(d: DiscoveryResult, xs: seq<Blockable>, compare: (Id, Id) -> PairEvidence)
    requires Exact(d, xs) && PlainInput(xs)
    ensures var prepared := PreparedFrom(d.pairs, compare);
      && DistinctPairs(prepared)
      && (forall q | q in prepared ::
            && StartsWith(q.matchMethod, MACHINE_PREFIX) && Less(q.pair.0, q.pair.1)
            && Plain(q.pair.0) && Plain(q.pair.1))
      && (forall l, r :: Current(prepared, (l, r)) <==> exists reason :: Carries(xs, l, r, reason))
  {
    hide PlainInput, PairsExact, ClustersExact, CollisionsExact, IncompleteExact, Carries, DistinctPairs, Less, Plain;
    hide PreparedFrom;
    PreparedApart(d.pairs, xs, compare);
    PreparedRows(d.pairs, xs, compare);
    PreparedCurrent(d.pairs, xs, compare);
  }

  lemma PreparedApart(ps: seq<CandidatePair>, xs: seq<Blockable>, compare: (Id, Id) -> PairEvidence)
    requires PairsExact(ps, xs)
    ensures DistinctPairs(PreparedFrom(ps, compare))
  {
    hide Less, MatchMethodFor, Carries, Join, Filter;
    var prepared := PreparedFrom(ps, compare);
    forall a, b | 0 <= a < b < |prepared| ensures prepared[a].pair != prepared[b].pair {
      LessIrreflexive(PairKey(ps[a]));
    }
  }

  lemma PreparedRow(p: CandidatePair, ps: seq<CandidatePair>, xs: seq<Blockable>)
    requires PairsExact(ps, xs) && PlainInput(xs) && p in ps
    ensures StartsWith(MatchMethodFor(p.reasons), MACHINE_PREFIX)
    ensures Less(p.leftIdentityId, p.rightIdentityId) && Plain(p.leftIdentityId) && Plain(p.rightIdentityId)
    ensures exists reason :: Carries(xs, p.leftIdentityId, p.rightIdentityId, reason)
  {
    hide Less, PlainInput, Plain, MatchMethodFor, Carries, Join;
    assert p.reasons[0] in p.reasons;
    assert Carries(xs, p.leftIdentityId, p.rightIdentityId, p.reasons[0]);
    CarriedIsPlain(xs, p.leftIdentityId, p.rightIdentityId, p.reasons[0]);
    CarriedIsLess(xs, p.leftIdentityId, p.rightIdentityId, p.reasons[0]);
    MachineMethodIsBlocking(p.reasons);
  }

  lemma PreparedRows(ps: seq<CandidatePair>, xs: seq<Blockable>, compare: (Id, Id) -> PairEvidence)
    requires PairsExact(ps, xs) && PlainInput(xs)
    ensures forall q | q in PreparedFrom(ps, compare) ::
              && StartsWith(q.matchMethod, MACHINE_PREFIX) && Less(q.pair.0, q.pair.1)
              && Plain(q.pair.0) && Plain(q.pair.1)
              && exists reason :: Carries(xs, q.pair.0, q.pair.1, reason)
  {
    hide Less, PlainInput, Plain, MatchMethodFor, Carries, PairsExact, StartsWith;
    var prepared := PreparedFrom(ps, compare);
    forall a | 0 <= a < |prepared|
      ensures StartsWith(prepared[a].matchMethod, MACHINE_PREFIX) && Less(prepared[a].pair.0, prepared[a].pair.1)
      ensures Plain(prepared[a].pair.0) && Plain(prepared[a].pair.1)
      ensures exists reason :: Carries(xs, prepared[a].pair.0, prepared[a].pair.1, reason)
    {
      PreparedRow(ps[a], ps, xs);
    }
  }

  lemma PreparedCurrent(ps: seq<CandidatePair>, xs: seq<Blockable>, compare: (Id, Id) -> PairEvidence)
    requires PairsExact(ps, xs) && PlainInput(xs)
    ensures forall l, r :: Current(PreparedFrom(ps, compare), (l, r)) <==> exists reason :: Carries(xs, l, r, reason)
  {
    hide Less, PlainInput, Plain, MatchMethodFor, Carries, Join, Filter;
    var prepared := PreparedFrom(ps, compare);
    PreparedRows(ps, xs, compare);
    forall l, r, reason | Carries(xs, l, r, reason) ensures Current(prepared, (l, r)) {
      var p :| p in ps && p.leftIdentityId == l && p.rightIdentityId == r;
      var a :| 0 <= a < |ps| && ps[a] == p;
      assert prepared[a] in prepared;
    }
  }

  lemma CarriedIsLess(xs: seq<Blockable>, l: Id, r: Id, reason: Reason)
    requires Carries(xs, l, r, reason)
    ensures Less(l, r)
  {
  }

  class CandidateTable {
    var rows: Table

    constructor (initial: Table)
      ensures rows == initial
    {
      rows := initial;
    }

    /** Insert, else reactivate, else refresh, else leave the row to whoever owns it. */
    method VisitPair(q: Prepared, o: Options, c: Counts) returns (counts: Counts)
      modifies this
      ensures rows == old(rows)[q.pair := Visited(old(rows), q, o)]
      ensures counts == Tally(old(rows), q, c)
    {
      counts := c;
      if q.pair !in rows {
        rows := rows[q.pair := Inserted(q, o)];
        counts := counts.(created := counts.created + 1);
        return;
      }
      var r := rows[q.pair];
      if r.status.Superseded? && r.supersededReason == Some(NO_CURRENT_RULE) {
        rows := rows[q.pair := Reactivated(r, q)];
        counts := counts.(reactivated := counts.reactivated + 1);
        return;
      }
      if r.status.Pending? && IsBlocking(r) && (r.matchMethod != q.matchMethod || r.evidence != q.evidence) {
        rows := rows[q.pair := Refreshed(r, q)];
        counts := counts.(evidenceUpdated := counts.evidenceUpdated + 1);
      } else if !r.status.Pending? || !IsBlocking(r) {
        if !r.status.Pending? {
          counts := counts.(decidedSkipped := counts.decidedSkipped + 1);
        } else {
          counts := counts.(manualSkipped := counts.manualSkipped + 1);
        }
      }
    }

    /** Stand down this namespace's pending machine rows that no current pair supports. */
    method StandDown(prepared: seq<Prepared>, o: Options) returns (superseded: nat)
      modifies this
      ensures rows.Keys == old(rows).Keys && superseded == |StaleRows(old(rows), prepared, o)|
      ensures forall p | p in old(rows) ::
                rows[p] == if p in StaleRows(old(rows), prepared, o) then StoodDown(old(rows)[p], o) else old(rows)[p]
    {
      var stale := StaleRows(rows, prepared, o);
      rows := map p | p in rows :: if p in stale then StoodDown(rows[p], o) else rows[p];
      superseded := |stale|;
    }

    /** `generateCandidates`: visit each current pair, then stand down what is stale. */
    method GenerateCandidates(prepared: seq<Prepared>, o: Options, apply: bool) returns (counts: Counts)
      requires DistinctPairs(prepared)
      modifies this
      ensures !apply ==> rows == old(rows) && counts == NO_COUNTS
      ensures apply ==> SweptTo(old(rows), prepared, o, rows)
      ensures apply ==> counts == TallyAll(old(rows), prepared).(superseded := |StaleRows(old(rows), prepared, o)|)
    {
      hide Visited, Tally, Stale, StoodDown, StaleRows, VisitedTo, SweptTo, DistinctPairs;
      counts := NO_COUNTS;
      if !apply {
        return;
      }
      NothingVisitedYet(rows, o);
      assert prepared[..0] == [];
      for n := 0 to |prepared|
        invariant VisitedTo(old(rows), prepared[..n], o, rows)
        invariant counts == TallyAll(old(rows), prepared[..n])
      {
        var q := prepared[n];
        assert prepared[..n + 1] == prepared[..n] + [q] && prepared[..n + 1][..n] == prepared[..n];
        ghost var before := rows;
        VisitIsFresh(old(rows), prepared, n, o, rows, counts);
        counts := VisitPair(q, o, counts);
        VisitedOneMore(old(rows), prepared, n, o, before);
      }
      assert prepared[..|prepared|] == prepared;
      ghost var visited := rows;
      StaleUnchanged(old(rows), visited, prepared, o);
      var superseded := StandDown(prepared, o);
      counts := counts.(superseded := superseded);
      SweptAfterStandDown(old(rows), prepared, o, visited, rows);
    }
  }

  /** The table after the loop visited these pairs. */
  ghost predicate VisitedTo(rows: Table, prepared: seq<Prepared>, o: Options, rows': Table) {
    && (forall p :: p in rows' <==> p in rows || Current(prepared, p))
    && (forall q | q in prepared :: rows'[q.pair] == Visited(rows, q, o))
    && (forall p | p in rows && !Current(prepared, p) :: rows'[p] == rows[p])
  }

  lemma NothingVisitedYet(rows: Table, o: Options)
    ensures VisitedTo(rows, [], o, rows)
  {
  }

  lemma NotYetCurrent(prepared: seq<Prepared>, n: nat)
    requires DistinctPairs(prepared) && n < |prepared|
    ensures !Current(prepared[..n], prepared[n].pair)
  {
  }

  lemma VisitIsFresh(rows: Table, prepared: seq<Prepared>, n: nat, o: Options, now: Table, c: Counts)
    requires DistinctPairs(prepared) && n < |prepared| && VisitedTo(rows, prepared[..n], o, now)
    ensures Visited(now, prepared[n], o) == Visited(rows, prepared[n], o)
    ensures Tally(now, prepared[n], c) == Tally(rows, prepared[n], c)
  {
    NotYetCurrent(prepared, n);
    var p := prepared[n].pair;
    assert p in now <==> p in rows;
  }

  lemma VisitedOneMore(rows: Table, prepared: seq<Prepared>, n: nat, o: Options, now: Table)
    requires DistinctPairs(prepared) && n < |prepared| && VisitedTo(rows, prepared[..n], o, now)
    ensures VisitedTo(rows, prepared[..n + 1], o, now[prepared[n].pair := Visited(rows, prepared[n], o)])
  {
    hide Visited;
    NotYetCurrent(prepared, n);
    var q := prepared[n];
    assert prepared[..n + 1] == prepared[..n] + [q];
    CurrentOneMore(prepared[..n], q);
    forall x | x in prepared[..n] ensures x.pair != q.pair { assert Current(prepared[..n], x.pair); }
  }

  lemma SweptAfterStandDown(rows: Table, prepared: seq<Prepared>, o: Options, visited: Table, rows': Table)
    requires VisitedTo(rows, prepared, o, visited) && StaleRows(visited, prepared, o) == StaleRows(rows, prepared, o)
    requires rows'.Keys == visited.Keys
    requires forall p | p in visited ::
               rows'[p] == if p in StaleRows(visited, prepared, o) then StoodDown(visited[p], o) else visited[p]
    ensures SweptTo(rows, prepared, o, rows')
  {
    hide Visited, Stale, StoodDown;
    forall q | q in prepared ensures rows'[q.pair] == Visited(rows, q, o) {
      assert Current(prepared, q.pair);
    }
  }

  lemma CurrentOneMore(prepared: seq<Prepared>, q: Prepared)
    ensures forall p :: Current(prepared + [q], p) <==> Current(prepared, p) || p == q.pair
  {
    forall p ensures Current(prepared + [q], p) <==> Current(prepared, p) || p == q.pair {
      assert q in prepared + [q] && forall x | x in prepared :: x in prepared + [q];
    }
  }

  lemma StaleUnchanged(before: Table, after: Table, prepared: seq<Prepared>, o: Options)
    requires VisitedTo(before, prepared, o, after)
    ensures StaleRows(after, prepared, o) == StaleRows(before, prepared, o)
  {
    hide Stale, Visited;
  }

  // ---- Convergence. ----

  /** A second sweep over the same current pairs changes nothing and counts nothing but skips. */
  lemma {:induction false} SecondTally(rows: Table, rows': Table, prepared: seq<Prepared>, all: seq<Prepared>, o: Options)
    requires SweptTo(rows, all, o, rows') && (forall q | q in prepared :: q in all)
    requires forall q | q in all :: StartsWith(q.matchMethod, MACHINE_PREFIX)
    ensures var c := TallyAll(rows', prepared);
            c.created == 0 && c.evidenceUpdated == 0 && c.reactivated == 0 && c.superseded == 0
  {
    if prepared != [] {
      var q := prepared[|prepared| - 1];
      assert q in prepared;
      SecondTally(rows, rows', prepared[..|prepared| - 1], all, o);
      assert rows'[q.pair] == Visited(rows, q, o);
    }
  }

  lemma SecondSweepAt(rows: Table, rows': Table, rows'': Table, prepared: seq<Prepared>, o: Options, o': Options, p: Pair)
    requires SweptTo(rows, prepared, o, rows') && SweptTo(rows', prepared, o', rows'') && p in rows'
    requires o' == o.(now := o'.now, runId := o'.runId)
    requires forall q | q in prepared :: StartsWith(q.matchMethod, MACHINE_PREFIX)
    ensures p in rows'' && rows''[p] == rows'[p] && (Current(prepared, p) || !Stale(rows'[p], o'))
  {
    if Current(prepared, p) {
      var q :| q in prepared && q.pair == p;
      assert rows'[p] == Visited(rows, q, o) && rows''[p] == Visited(rows', q, o');
    } else {
      assert rows'[p] == if Stale(rows[p], o) then StoodDown(rows[p], o) else rows[p];
    }
  }

  lemma SweepIsIdempotent(rows: Table, rows': Table, rows'': Table, prepared: seq<Prepared>, o: Options, o': Options)
    requires SweptTo(rows, prepared, o, rows') && SweptTo(rows', prepared, o', rows'')
    requires o' == o.(now := o'.now, runId := o'.runId)
    requires forall q | q in prepared :: StartsWith(q.matchMethod, MACHINE_PREFIX)
    ensures rows'' == rows'
    ensures StaleRows(rows', prepared, o') == {}
    ensures var c := TallyAll(rows', prepared); c.created == 0 && c.evidenceUpdated == 0 && c.reactivated == 0 && c.superseded == 0
  {
    hide Visited, Stale, StoodDown, StartsWith, Current, TallyAll;
    SecondTally(rows, rows', prepared, prepared, o);
    forall p | p in rows' ensures p in rows'' && rows''[p] == rows'[p] && p !in StaleRows(rows', prepared, o') {
      SecondSweepAt(rows, rows', rows'', prepared, o, o', p);
    }
    KeysSettle(rows, rows', rows'', prepared, o, o');
  }

  lemma KeysSettle(rows: Table, rows': Table, rows'': Table, prepared: seq<Prepared>, o: Options, o': Options)
    requires SweptTo(rows, prepared, o, rows') && SweptTo(rows', prepared, o', rows'')
    ensures rows''.Keys == rows'.Keys
  {
    hide Visited, Stale, StoodDown, Current;
  }

  // ---- Ownership. ----

  /** Accepted, rejected, set aside by a human, or a reviewer's own pending pair. */
  predicate HumanOwned(r: Row) {
    || r.status.Accepted? || r.status.Rejected? || (r.status.Superseded? && r.supersededReason.None?)
    || (r.status.Pending? && !IsBlocking(r))
  }

  datatype Step = SweepStep(prepared: seq<Prepared>, options: Options) | HumanStep

  /** People add rows and decide rows in any way they like; nobody deletes one. */
  ghost predicate Next(rows: Table, step: Step, rows': Table) {
    match step
    case SweepStep(prepared, o) => SweptTo(rows, prepared, o, rows')
    case HumanStep => forall p | p in rows :: p in rows'
  }

  ghost predicate Run(tables: seq<Table>, steps: seq<Step>) {
    |tables| == |steps| + 1 && forall n | 0 <= n < |steps| :: Next(tables[n], steps[n], tables[n + 1])
  }

  lemma SweepKeepsHumanRows(rows: Table, prepared: seq<Prepared>, o: Options, rows': Table)
    requires SweptTo(rows, prepared, o, rows')
    ensures forall p | p in rows :: p in rows' && (HumanOwned(rows[p]) ==> rows'[p] == rows[p])
  {
    forall p | p in rows ensures p in rows' && (HumanOwned(rows[p]) ==> rows'[p] == rows[p]) {
      if Current(prepared, p) {
        var q :| q in prepared && q.pair == p;
        assert rows'[p] == Visited(rows, q, o);
      }
    }
  }

  /**
   Over any run of sweeps and human work no row is ever deleted, and between two human steps a
   human-owned row is byte-identical however many sweeps pass.
   */
  lemma {:induction false} RunKeepsRows(tables: seq<Table>, steps: seq<Step>, k: nat, m: nat, p: Pair)
    requires Run(tables, steps) && k <= m < |tables| && p in tables[k]
    ensures p in tables[m]
    ensures HumanOwned(tables[k][p]) && (forall n | k <= n < m :: steps[n].SweepStep?) ==> tables[m][p] == tables[k][p]
    decreases m
  {
    hide HumanOwned;
    if k < m {
      RunKeepsRows(tables, steps, k, m - 1, p);
      assert Next(tables[m - 1], steps[m - 1], tables[m]);
      if steps[m - 1].SweepStep? {
        SweepKeepsHumanRows(tables[m - 1], steps[m - 1].prepared, steps[m - 1].options, tables[m]);
      }
    }
  }

  // ---- The sync gate. ----

  datatype PairRef = PairRef(leftIdentityId: Id, rightIdentityId: Id)

  function PairText(p: PairRef): string {
    if Less(p.leftIdentityId, p.rightIdentityId) then Join(p.leftIdentityId, p.rightIdentityId)
    else Join(p.rightIdentityId, p.leftIdentityId)
  }

  /** `[...new Map(ps.map(p => [pairId(p), p])).values()]` */
  function ById(ps: seq<PairRef>): seq<PairRef> {
    if ps == [] then [] else SetById(ById(ps[..|ps| - 1]), ps[|ps| - 1])
  }

  /** `map.set(pairId(p), p)`: a key keeps its place and takes the new value. */
  function SetById(init: seq<PairRef>, last: PairRef): seq<PairRef> {
    if Filter(q => PairText(q) == PairText(last), init) == [] then init + [last] else Replace(init, last)
  }

  function Replace(qs: seq<PairRef>, p: PairRef): seq<PairRef> {
    seq(|qs|, n requires 0 <= n < |qs| => if PairText(qs[n]) == PairText(p) then p else qs[n])
  }

  /** Some pair of the list has this pair's id. */
  predicate Keyed(qs: seq<PairRef>, p: PairRef) { exists q | q in qs :: PairText(q) == PairText(p) }

  lemma SetByIdStep(init: seq<PairRef>, last: PairRef)
    ensures Keyed(SetById(init, last), last)
    ensures forall p | Keyed(init, p) :: Keyed(SetById(init, last), p)
    ensures forall q | q in SetById(init, last) :: q in init || q == last
  {
    hide PairText;
    var same, qs := Filter(q => PairText(q) == PairText(last), init), SetById(init, last);
    if same == [] {
      assert last in init + [last] && forall q | q in init :: q in init + [last];
    } else {
      assert same[0] in same;
      forall q | q in init ensures exists r | r in qs :: PairText(r) == PairText(q) {
        var n :| 0 <= n < |init| && init[n] == q;
        assert qs[n] in qs;
      }
    }
  }

  datatype SyncResult = SyncResult(inSync: bool, discoveredNotPersisted: seq<PairRef>, persistedNotDiscovered: seq<PairRef>)

  function Texts(ps: seq<PairRef>): set<string> { set p | p in ps :: PairText(p) }

  /** Deliberately asymmetric: a human row accounts for a discovered pair, but only machine rows can be stale. */
  function CompareMachinePairSync(discovered: seq<PairRef>, persisted: seq<PairRef>, accounted: seq<PairRef>): SyncResult {
    var missing := Filter(p => PairText(p) !in Texts(persisted) && PairText(p) !in Texts(accounted), ById(discovered));
    var stale := Filter(p => PairText(p) !in Texts(discovered), ById(persisted));
    SyncResult(missing == [] && stale == [], missing, stale)
  }

  lemma InSyncMeaning(discovered: seq<PairRef>, persisted: seq<PairRef>, accounted: seq<PairRef>)
    ensures CompareMachinePairSync(discovered, persisted, accounted).inSync <==>
      && (forall p | p in discovered :: PairText(p) in Texts(persisted) || PairText(p) in Texts(accounted))
      && (forall p | p in persisted :: PairText(p) in Texts(discovered))
  {
    hide PairText, ById, Filter;
    ByIdFacts(discovered);
    ByIdFacts(persisted);
    FilterEmpty(p => PairText(p) !in Texts(persisted) && PairText(p) !in Texts(accounted), ById(discovered));
    FilterEmpty(p => PairText(p) !in Texts(discovered), ById(persisted));
  }

  lemma {:induction false} FilterEmpty<T(!new)>(keep: T -> bool, xs: seq<T>)
    ensures Filter(keep, xs) == [] <==> forall x | x in xs :: !keep(x)
  {
    if xs != [] {
      FilterEmpty(keep, xs[1..]);
      assert xs[0] in xs && forall x :: x in xs <==> x == xs[0] || x in xs[1..];
    }
  }

  lemma {:induction false} ByIdFacts(ps: seq<PairRef>)
    ensures forall q | q in ById(ps) :: q in ps
    ensures forall p | p in ps :: Keyed(ById(ps), p)
  {
    hide Keyed, SetById;
    if ps != [] {
      var init, last := ps[..|ps| - 1], ps[|ps| - 1];
      ByIdFacts(init);
      SetByIdStep(ById(init), last);
      assert ps == init + [last];
    }
  }

  /** The rows the preview loads for the gate: this namespace's actionable machine pairs, and the human ones. */
  predicate LoadedMachine(rows: Table, o: Options, p: Pair) { p in rows && InNamespace(rows[p], o) && MachinePending(rows[p]) }
  predicate LoadedAccounted(rows: Table, o: Options, p: Pair) { p in rows && InNamespace(rows[p], o) && HumanOwned(rows[p]) }

  function Ref(p: Pair): PairRef { PairRef(p.0, p.1) }

  ghost predicate Lists(refs: seq<PairRef>, rows: Table, member: Pair -> bool) {
    forall r :: r in refs <==> exists p | p in rows :: member(p) && r == Ref(p)
  }

  lemma OrientedText(p: Pair, q: Pair)
    requires Less(p.0, p.1) && Less(q.0, q.1) && Plain(p.0) && Plain(q.0)
    requires PairText(Ref(p)) == PairText(Ref(q))
    ensures p == q
  {
    JoinSplits(p.0, p.1);
    JoinSplits(q.0, q.1);
  }

  /** A row the sweep may neither revive nor count: another namespace's, or set aside with a reason nobody wrote. */
  predicate Unclearable(r: Row, o: Options) {
    !InNamespace(r, o) || (r.status.Superseded? && r.supersededReason.Some? && r.supersededReason.value != NO_CURRENT_RULE)
  }

  /** Where a current pair ends up: actionable, accounted for, or unclearable. */
  lemma CurrentPairAfter(rows: Table, prepared: seq<Prepared>, o: Options, rows': Table, q: Prepared)
    requires SweptTo(rows, prepared, o, rows') && q in prepared && StartsWith(q.matchMethod, MACHINE_PREFIX)
    ensures (LoadedMachine(rows', o, q.pair) || LoadedAccounted(rows', o, q.pair))
       <==> !(q.pair in rows && Unclearable(rows[q.pair], o))
  {
    assert rows'[q.pair] == Visited(rows, q, o);
    assert Current(prepared, q.pair);
  }

  lemma NoStaleAfter(rows: Table, prepared: seq<Prepared>, o: Options, rows': Table, p: Pair)
    requires SweptTo(rows, prepared, o, rows') && LoadedMachine(rows', o, p)
    ensures Current(prepared, p)
  {
  }

  /**
   After an applied sweep the gate is in sync exactly when no current pair's row was unclearable
   beforehand, over any table at all, storable or not.
   */
  lemma SweepReachesSync(
    rows: Table, prepared: seq<Prepared>, o: Options, rows': Table,
    discovered: seq<PairRef>, persisted: seq<PairRef>, accounted: seq<PairRef>)
    requires SweptTo(rows, prepared, o, rows') && Oriented(rows)
    requires forall q | q in prepared :: StartsWith(q.matchMethod, MACHINE_PREFIX) && Less(q.pair.0, q.pair.1) && Plain(q.pair.0) && Plain(q.pair.1)
    requires forall r :: r in discovered <==> exists q | q in prepared :: r == Ref(q.pair)
    requires Lists(persisted, rows', p => LoadedMachine(rows', o, p))
    requires Lists(accounted, rows', p => LoadedAccounted(rows', o, p))
    ensures CompareMachinePairSync(discovered, persisted, accounted).inSync
       <==> forall q | q in prepared :: !(q.pair in rows && Unclearable(rows[q.pair], o))
  {
    hide SweptTo, PairText, LoadedMachine, LoadedAccounted, Unclearable, Less, Plain, StartsWith, CompareMachinePairSync;
    InSyncMeaning(discovered, persisted, accounted);
    AfterIsOriented(rows, prepared, o, rows');
    forall q | q in prepared
      ensures PairText(Ref(q.pair)) in Texts(persisted) <==> LoadedMachine(rows', o, q.pair)
      ensures PairText(Ref(q.pair)) in Texts(accounted) <==> LoadedAccounted(rows', o, q.pair)
    {
      TextListed(rows', persisted, p => LoadedMachine(rows', o, p), q.pair);
      TextListed(rows', accounted, p => LoadedAccounted(rows', o, p), q.pair);
      LoadedIsRow(rows', o, q.pair);
      CurrentPairAfter(rows, prepared, o, rows', q);
      assert Ref(q.pair) in discovered;
    }
    forall r | r in persisted ensures PairText(r) in Texts(discovered) {
      var p :| p in rows' && LoadedMachine(rows', o, p) && r == Ref(p);
      NoStaleAfter(rows, prepared, o, rows', p);
      var q :| q in prepared && q.pair == p;
      assert Ref(q.pair) in discovered;
    }
    forall r | r in discovered ensures exists q | q in prepared :: r == Ref(q.pair) { }
    forall q | q in prepared ensures (LoadedMachine(rows', o, q.pair) || LoadedAccounted(rows', o, q.pair))
       <==> !(q.pair in rows && Unclearable(rows[q.pair], o)) {
      CurrentPairAfter(rows, prepared, o, rows', q);
    }
  }

  /** What the schema lets a pair's row be: in its identities' namespace, with the one reason the check constraint allows. */
  predicate Storable(r: Row, o: Options) {
    InNamespace(r, o) && (r.supersededReason.Some? ==> r.supersededReason == Some(NO_CURRENT_RULE))
  }

  /**
   From discovery to the gate: sweep whatever discovery found into any table the schema can hold, and the
   gate, comparing the same discovery with the rows the preview loads, finds nothing missing and nothing stale.
   */
  lemma DiscoverySweepConverges(
    d: DiscoveryResult, xs: seq<Blockable>, compare: (Id, Id) -> PairEvidence, rows: Table, o: Options, rows': Table,
    discovered: seq<PairRef>, persisted: seq<PairRef>, accounted: seq<PairRef>)
    requires Exact(d, xs) && PlainInput(xs) && Oriented(rows)
    requires forall p | p in rows && (exists reason :: Carries(xs, p.0, p.1, reason)) :: Storable(rows[p], o)
    requires SweptTo(rows, PreparedFrom(d.pairs, compare), o, rows')
    requires discovered == Map((p: CandidatePair) => PairRef(p.leftIdentityId, p.rightIdentityId), d.pairs)
    requires Lists(persisted, rows', p => LoadedMachine(rows', o, p))
    requires Lists(accounted, rows', p => LoadedAccounted(rows', o, p))
    ensures CompareMachinePairSync(discovered, persisted, accounted) == SyncResult(true, [], [])
  {
    hide SweptTo, Exact, PlainInput, Oriented, Carries, PairText, Lists, DistinctPairs, Less, Plain, MatchMethodFor;
    hide CompareMachinePairSync;
    var prepared := PreparedFrom(d.pairs, compare);
    DiscoveryPrepares(d, xs, compare);
    forall r ensures r in discovered <==> exists q | q in prepared :: r == Ref(q.pair) {
      DiscoveredIsPrepared(d.pairs, compare, r);
    }
    SweepReachesSync(rows, prepared, o, rows', discovered, persisted, accounted);
    forall q | q in prepared ensures !(q.pair in rows && Unclearable(rows[q.pair], o)) {
      assert Current(prepared, (q.pair.0, q.pair.1));
    }
    InSyncListsNothing(discovered, persisted, accounted);
  }

  lemma InSyncListsNothing(discovered: seq<PairRef>, persisted: seq<PairRef>, accounted: seq<PairRef>)
    ensures var r := CompareMachinePairSync(discovered, persisted, accounted);
      r.inSync ==> r == SyncResult(true, [], [])
  {
  }

  lemma DiscoveredIsPrepared(pairs: seq<CandidatePair>, compare: (Id, Id) -> PairEvidence, r: PairRef)
    ensures r in Map((p: CandidatePair) => PairRef(p.leftIdentityId, p.rightIdentityId), pairs)
       <==> exists q | q in PreparedFrom(pairs, compare) :: r == Ref(q.pair)
  {
    hide MatchMethodFor;
    var refs := Map((p: CandidatePair) => PairRef(p.leftIdentityId, p.rightIdentityId), pairs);
    var prepared := PreparedFrom(pairs, compare);
    if r in refs {
      var n :| 0 <= n < |pairs| && refs[n] == r;
      assert prepared[n] in prepared;
    }
    if q :| q in prepared && r == Ref(q.pair) {
      var n :| 0 <= n < |pairs| && prepared[n] == q;
      assert refs[n] == r;
    }
  }

  lemma LoadedIsRow(rows: Table, o: Options, p: Pair)
    ensures LoadedMachine(rows, o, p) || LoadedAccounted(rows, o, p) ==> p in rows
  {
  }

  lemma TextListed(rows: Table, refs: seq<PairRef>, member: Pair -> bool, p: Pair)
    requires Lists(refs, rows, member) && Oriented(rows) && Less(p.0, p.1) && Plain(p.0)
    ensures PairText(Ref(p)) in Texts(refs) <==> p in rows && member(p)
  {
    hide Less, Plain, PairText;
    if p in rows && member(p) {
      assert Ref(p) in refs;
    }
    if PairText(Ref(p)) in Texts(refs) {
      var r :| r in refs && PairText(r) == PairText(Ref(p));
      var q :| q in rows && member(q) && r == Ref(q);
      OrientedText(p, q);
    }
  }

  lemma AfterIsOriented(rows: Table, prepared: seq<Prepared>, o: Options, rows': Table)
    requires SweptTo(rows, prepared, o, rows') && Oriented(rows)
    requires forall q | q in prepared :: Less(q.pair.0, q.pair.1) && Plain(q.pair.0) && Plain(q.pair.1)
    ensures Oriented(rows')
  {
    hide Visited, Less, Plain;
  }
}

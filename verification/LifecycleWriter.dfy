/**
 persistIssueEvidence (scripts/lifecycle/store.ts): one write plan, read by the dry run and consumed by
 the apply, and what the two must agree on.
 */
module LifecycleWriter {
  import opened Prelude
  import opened Sequences
  import opened IssueExtraction
  import opened LifecycleStore
  import L = Lifecycle
  import D = Dates

  datatype Options = Options(source: string, environment: string, apply: bool)

  datatype Lookup = Lookup(targets: map<Provenance, Target>, knownIds: set<string>)

  function ProvenanceKey(s: Snapshot): Provenance { (s.sourceRunId, s.sourcePropertyId, s.wholeRecordPayloadDigest) }

  // ---- Matching. ----

  function Matched(lookup: Lookup, snapshots: seq<Snapshot>): (items: seq<Item>)
    ensures forall i | i in items :: i.snapshot in snapshots && ProvenanceKey(i.snapshot) in lookup.targets
                                     && i.target == lookup.targets[ProvenanceKey(i.snapshot)]
  {
    if snapshots == [] then []
    else
      var n := |snapshots| - 1;
      var s := snapshots[n];
      Matched(lookup, snapshots[..n]) +
      if ProvenanceKey(s) in lookup.targets then [Item(s, lookup.targets[ProvenanceKey(s)])] else []
  }

  function Mismatches(lookup: Lookup, snapshots: seq<Snapshot>): seq<Mismatch> {
    if snapshots == [] then []
    else
      var n := |snapshots| - 1;
      var s := snapshots[n];
      Mismatches(lookup, snapshots[..n]) +
      if ProvenanceKey(s) in lookup.targets then []
      else [Mismatch(s.sourcePropertyId,
                     if s.sourcePropertyId in lookup.knownIds then NoExactObservationMatch else NoIngestedProperty, s)]
  }

  /** Every input is matched to exactly one observation or reported, never both and never dropped. */
  lemma {:induction false} MatchedOrReported(lookup: Lookup, snapshots: seq<Snapshot>)
    ensures |Matched(lookup, snapshots)| + |Mismatches(lookup, snapshots)| == |snapshots|
    ensures forall s | s in snapshots ::
              if ProvenanceKey(s) in lookup.targets then Item(s, lookup.targets[ProvenanceKey(s)]) in Matched(lookup, snapshots)
              else exists m | m in Mismatches(lookup, snapshots) ::
                     m.snapshot == s && (m.reason.NoIngestedProperty? <==> s.sourcePropertyId !in lookup.knownIds)
    ensures forall m | m in Mismatches(lookup, snapshots) ::
              m.snapshot in snapshots && ProvenanceKey(m.snapshot) !in lookup.targets && m.sourcePropertyId == m.snapshot.sourcePropertyId
  {
    if snapshots != [] {
      var n := |snapshots| - 1;
      MatchedOrReported(lookup, snapshots[..n]);
      assert snapshots == snapshots[..n] + [snapshots[n]];
    }
  }

  lemma {:induction false} MatchedPermutation(lookup: Lookup, xs: seq<Snapshot>, ys: seq<Snapshot>)
    requires multiset(xs) == multiset(ys)
    ensures multiset(Matched(lookup, xs)) == multiset(Matched(lookup, ys))
  {
    forall i: Item ensures multiset(Matched(lookup, xs))[i] == multiset(Matched(lookup, ys))[i] {
      MatchedCount(lookup, xs, i);
      MatchedCount(lookup, ys, i);
    }
  }

  lemma {:induction false} MatchedCount(lookup: Lookup, xs: seq<Snapshot>, i: Item)
    ensures multiset(Matched(lookup, xs))[i]
         == if ProvenanceKey(i.snapshot) in lookup.targets && lookup.targets[ProvenanceKey(i.snapshot)] == i.target
            then multiset(xs)[i.snapshot] else 0
  {
    if xs != [] {
      var n := |xs| - 1;
      MatchedCount(lookup, xs[..n], i);
      assert xs == xs[..n] + [xs[n]];
    }
  }

  method MatchSnapshots(lookup: Lookup, input: seq<Snapshot>) returns (matched: seq<Item>, provenanceMismatches: seq<Mismatch>)
    ensures matched == Matched(lookup, input) && provenanceMismatches == Mismatches(lookup, input)
  {
    matched, provenanceMismatches := [], [];
    for k := 0 to |input|
      invariant matched == Matched(lookup, input[..k]) && provenanceMismatches == Mismatches(lookup, input[..k])
    {
      var snapshot := input[k];
      assert input[..k + 1][..k] == input[..k];
      if ProvenanceKey(snapshot) !in lookup.targets {
        provenanceMismatches := provenanceMismatches +
          [Mismatch(snapshot.sourcePropertyId,
                    if snapshot.sourcePropertyId in lookup.knownIds then NoExactObservationMatch else NoIngestedProperty,
                    snapshot)];
      } else {
        matched := matched + [Item(snapshot, lookup.targets[ProvenanceKey(snapshot)])];
      }
    }
    assert input[..|input|] == input;
  }

  // ---- Writing the plan. ----

  function RowOf(opts: Options, i: Item): SnapshotRow {
    SnapshotRow(i.target.identityId, opts.source, opts.environment, i.snapshot.sourceRunId,
                i.snapshot.providerIssueCount, i.snapshot.wholeRecordPayloadDigest)
  }

  function InsertItem(t: Tables, opts: Options, i: Item): Tables {
    var o := i.target.observationId;
    if o in t.snapshots then t
    else Tables(t.snapshots[o := RowOf(opts, i)], t.issues[o := IssueRows(i.snapshot.issues)])
  }

  function InsertAll(t: Tables, opts: Options, plan: seq<Item>): Tables {
    if plan == [] then t else InsertItem(InsertAll(t, opts, plan[..|plan| - 1]), opts, plan[|plan| - 1])
  }

  predicate Missing(t: Tables, i: Item) { i.target.observationId !in t.snapshots }

  function CountMissing(t: Tables, plan: seq<Item>): (n: nat)
    ensures n <= |plan|
  {
    if plan == [] then 0 else CountMissing(t, plan[..|plan| - 1]) + if Missing(t, plan[|plan| - 1]) then 1 else 0
  }

  /** The dry run's issue total, and the rows an apply inserts. */
  function IssuesPlanned(t: Tables, plan: seq<Item>): nat {
    if plan == [] then 0
    else IssuesPlanned(t, plan[..|plan| - 1]) + if Missing(t, plan[|plan| - 1]) then |plan[|plan| - 1].snapshot.issues| else 0
  }

  function IssuesInserted(t: Tables, plan: seq<Item>): nat {
    if plan == [] then 0
    else IssuesInserted(t, plan[..|plan| - 1]) + if Missing(t, plan[|plan| - 1]) then |IssueRows(plan[|plan| - 1].snapshot.issues)| else 0
  }

  predicate OnePerObservation(plan: seq<Item>) { forall i, j | 0 <= i < j < |plan| :: !SameTarget(plan[i], plan[j]) }

  /** The tables after a plan, row by row: nothing old is touched, one new row per missing observation. */
  ghost predicate Written(t: Tables, opts: Options, plan: seq<Item>, t': Tables) {
    && t'.issues.Keys == t'.snapshots.Keys
    && (forall o :: o in t'.snapshots <==> o in t.snapshots || Targets(plan, o))
    && (forall o | o in t.snapshots && o in t.issues && o in t'.issues :: t'.snapshots[o] == t.snapshots[o] && t'.issues[o] == t.issues[o])
    && (forall i | i in plan && Missing(t, i) && i.target.observationId in t'.issues ::
          t'.snapshots[i.target.observationId] == RowOf(opts, i)
          && t'.issues[i.target.observationId] == IssueRows(i.snapshot.issues))
  }

  lemma {:induction false} InsertAllMeaning(t: Tables, opts: Options, plan: seq<Item>)
    requires OnePerObservation(plan) && t.issues.Keys == t.snapshots.Keys
    ensures Written(t, opts, plan, InsertAll(t, opts, plan))
  {
    hide Written, InsertItem;
    if plan != [] {
      var n := |plan| - 1;
      InsertAllMeaning(t, opts, plan[..n]);
      WrittenStep(t, opts, plan, InsertAll(t, opts, plan[..n]));
    } else {
      NothingWritten(t, opts);
    }
  }

  lemma NothingWritten(t: Tables, opts: Options)
    requires t.issues.Keys == t.snapshots.Keys
    ensures Written(t, opts, [], t)
  {
  }

  lemma NotYetTargeted(plan: seq<Item>, k: nat)
    requires OnePerObservation(plan) && k < |plan|
    ensures !Targets(plan[..k], plan[k].target.observationId)
  {
    forall i | i in plan[..k] ensures i.target.observationId != plan[k].target.observationId {
      var j :| 0 <= j < k && plan[..k][j] == i;
      assert !SameTarget(plan[j], plan[k]);
    }
  }

  lemma WrittenStep(t: Tables, opts: Options, plan: seq<Item>, mid: Tables)
    requires plan != [] && OnePerObservation(plan) && t.issues.Keys == t.snapshots.Keys
    requires Written(t, opts, plan[..|plan| - 1], mid)
    ensures Written(t, opts, plan, InsertItem(mid, opts, plan[|plan| - 1]))
  {
    hide IssueRows, RowOf, Targets, OnePerObservation;
    var init, last := plan[..|plan| - 1], plan[|plan| - 1];
    assert plan == init + [last];
    TargetsAppend(init, last);
    NotYetTargeted(plan, |plan| - 1);
    TargetsMembers(init, last.target.observationId);
  }

  lemma TargetsMembers(items: seq<Item>, o: Id)
    ensures !Targets(items, o) ==> forall i | i in items :: i.target.observationId != o
  {
  }

  const NOTHING := Tables(map[], map[])

  /** Rows other writers added; an observation that has its snapshot keeps it. */
  function Landed(t: Tables, others: Tables): Tables { Tables(others.snapshots + t.snapshots, others.issues + t.issues) }

  /** With no other writer, a dry run reports the counters of the apply, issues included when no rows collide. */
  lemma DryRunIsTheApply(t: Tables, plan: seq<Item>)
    ensures Landed(t, NOTHING) == t
    ensures CountMissing(Landed(t, NOTHING), plan) == CountMissing(t, plan)
    ensures IssuesInserted(Landed(t, NOTHING), plan) == IssuesPlanned(t, plan) <==>
            forall i | i in plan && Missing(t, i) :: !Collides(i.snapshot.issues)
  {
    hide IssueRows, Collides, CountMissing, IssuesInserted, IssuesPlanned;
    assert map[] + t.snapshots == t.snapshots && map[] + t.issues == t.issues;
    IssueTotalsAgreeIff(t, plan);
  }

  class IssueStore {
    var snapshots: map<Id, SnapshotRow>
    var issues: map<Id, seq<Issue>>

    constructor ()
      ensures State() == Tables(map[], map[])
    {
      snapshots, issues := map[], map[];
    }

    ghost function State(): Tables
      reads this
    {
      Tables(snapshots, issues)
    }

    /**
     `others` is what concurrent writers commit after the plan was read and before this transaction: a dry run
     never sees it, and an apply reports what the tables it found let it do.
     */
    method PersistIssueEvidence(lookup: Lookup, input: seq<Snapshot>, opts: Options, others: Tables)
      returns (r: Result<Counts, Malformed>)
      requires issues.Keys == snapshots.Keys && others.issues.Keys == others.snapshots.Keys
      modifies this
      ensures r.Ok? <==> !Contradictory(Matched(lookup, input))
      ensures r.Err? || !opts.apply ==> State() == old(State())
      ensures r.Ok? && opts.apply ==>
        State() == InsertAll(Landed(old(State()), others), opts, FirstPerObservation(Matched(lookup, input)))
      ensures r.Ok? ==>
        var plan := FirstPerObservation(Matched(lookup, input));
        var found := if opts.apply then Landed(old(State()), others) else old(State());
        r.value == Counts(|input|, CountMissing(found, plan), |plan| - CountMissing(found, plan),
                          if opts.apply then IssuesInserted(found, plan) else IssuesPlanned(found, plan),
                          Mismatches(lookup, input))
    {
      hide IssueRows, FirstPerObservation, Contradictory, Matched, Mismatches, CountMissing, IssuesPlanned, IssuesInserted;
      var matched, provenanceMismatches := MatchSnapshots(lookup, input);
      var collapsed := CollapseByObservation(matched);
      if collapsed.Err? {
        return Err(collapsed.error);
      }
      var plan := collapsed.value;
      PlanHasOneEach(matched);
      var created, already, issuesCreated := CountPlan(plan);
      if !opts.apply {
        return Ok(Counts(|input|, created, already, issuesCreated, provenanceMismatches));
      }
      snapshots, issues := others.snapshots + snapshots, others.issues + issues;
      created, already, issuesCreated := ApplyPlan(plan, opts);
      return Ok(Counts(|input|, created, already, issuesCreated, provenanceMismatches));
    }

    /** What this plan would create, judged against the snapshots its own observations already have. */
    method CountPlan(plan: seq<Item>) returns (created: nat, already: nat, issuesCreated: nat)
      ensures created == CountMissing(State(), plan) && already == |plan| - created
      ensures issuesCreated == IssuesPlanned(State(), plan)
    {
      var present := set i | i in plan && i.target.observationId in snapshots :: i.target.observationId;
      created, already, issuesCreated := 0, 0, 0;
      for k := 0 to |plan|
        invariant created == CountMissing(State(), plan[..k]) && already == k - created
        invariant issuesCreated == IssuesPlanned(State(), plan[..k])
      {
        assert plan[..k + 1][..k] == plan[..k];
        assert plan[k] in plan;
        if plan[k].target.observationId in present {
          already := already + 1;
        } else {
          created := created + 1;
          issuesCreated := issuesCreated + |plan[k].snapshot.issues|;
        }
      }
      assert plan[..|plan|] == plan;
    }

    /** The transaction: counters re-derived from what the inserts did. */
    method ApplyPlan(plan: seq<Item>, opts: Options) returns (created: nat, already: nat, issuesCreated: nat)
      requires OnePerObservation(plan) && issues.Keys == snapshots.Keys
      modifies this
      ensures State() == InsertAll(old(State()), opts, plan)
      ensures created == CountMissing(old(State()), plan) && already == |plan| - created
      ensures issuesCreated == IssuesInserted(old(State()), plan)
    {
      hide IssueRows;
      ghost var before := State();
      created, already, issuesCreated := 0, 0, 0;
      for k := 0 to |plan|
        invariant State() == InsertAll(before, opts, plan[..k])
        invariant created == CountMissing(before, plan[..k]) && already == k - created
        invariant issuesCreated == IssuesInserted(before, plan[..k])
      {
        assert plan[..k + 1][..k] == plan[..k];
        StillMissing(before, opts, plan, k);
        var item := plan[k];
        var observationId := item.target.observationId;
        if observationId in snapshots {
          already := already + 1;
        } else {
          created := created + 1;
          snapshots := snapshots[observationId := RowOf(opts, item)];
          var rows := InsertIssues(item.snapshot.issues);
          issues := issues[observationId := rows];
          issuesCreated := issuesCreated + |rows|;
        }
      }
      assert plan[..|plan|] == plan;
    }

    /** insert into source_property_issue_evidence ... on conflict do nothing */
    method InsertIssues(list: seq<Issue>) returns (rows: seq<Issue>)
      ensures rows == IssueRows(list)
    {
      hide EvidenceText;
      rows := [];
      for k := 0 to |list|
        invariant rows == IssueRows(list[..k])
      {
        assert list[..k + 1][..k] == list[..k];
        if !Repeated(rows, list[k]) {
          rows := rows + [list[k]];
        }
      }
      assert list[..|list|] == list;
    }
  }

  lemma PlanHasOneEach(items: seq<Item>)
    ensures OnePerObservation(FirstPerObservation(items))
  {
  }

  /** A plan item is missing when its turn comes iff it was missing at the start. */
  lemma StillMissing(t: Tables, opts: Options, plan: seq<Item>, k: nat)
    requires OnePerObservation(plan) && t.issues.Keys == t.snapshots.Keys && k < |plan|
    ensures Missing(InsertAll(t, opts, plan[..k]), plan[k]) <==> Missing(t, plan[k])
  {
    hide IssueRows;
    InsertAllMeaning(t, opts, plan[..k]);
    NotYetTargeted(plan, k);
  }

  // ---- Dry run against apply. ----

  /** The issue totals agree iff no snapshot about to be created holds colliding rows; otherwise apply writes fewer. */
  lemma {:induction false} IssueTotalsAgreeIff(t: Tables, plan: seq<Item>)
    ensures IssuesInserted(t, plan) <= IssuesPlanned(t, plan)
    ensures IssuesInserted(t, plan) == IssuesPlanned(t, plan) <==>
            forall i | i in plan && Missing(t, i) :: !Collides(i.snapshot.issues)
  {
    hide IssueRows, Collides;
    if plan != [] {
      var n := |plan| - 1;
      IssueTotalsAgreeIff(t, plan[..n]);
      assert plan == plan[..n] + [plan[n]];
      RowCountIff(plan[n].snapshot.issues);
    }
  }

  // ---- The order of the input decides nothing. ----

  lemma MatchedIsFunctional(lookup: Lookup, input: seq<Snapshot>)
    ensures Functional(Matched(lookup, input))
  {
  }

  lemma ContradictionIsOrderFree(xs: seq<Item>, ys: seq<Item>)
    requires multiset(xs) == multiset(ys) && Contradictory(xs)
    ensures Contradictory(ys)
  {
    var i, j :| 0 <= i < |xs| && 0 <= j < |xs| && SameTarget(xs[i], xs[j]) && xs[i].snapshot != xs[j].snapshot;
    assert xs[i] in multiset(ys) && xs[j] in multiset(ys);
    var k :| 0 <= k < |ys| && ys[k] == xs[i];
    var l :| 0 <= l < |ys| && ys[l] == xs[j];
    assert SameTarget(ys[k], ys[l]);
  }

  lemma {:induction false} SumsIgnoreOrder(t: Tables, xs: seq<Item>, ys: seq<Item>)
    requires multiset(xs) == multiset(ys)
    ensures CountMissing(t, xs) == CountMissing(t, ys)
    ensures IssuesPlanned(t, xs) == IssuesPlanned(t, ys) && IssuesInserted(t, xs) == IssuesInserted(t, ys)
    decreases |xs|
  {
    hide IssueRows, Missing;
    if xs == [] {
      assert |multiset(ys)| == |ys|;
    } else {
      var last := xs[|xs| - 1];
      assert xs == xs[..|xs| - 1] + [last];
      assert last in multiset(ys);
      var k :| 0 <= k < |ys| && ys[k] == last;
      assert ys == ys[..k] + [last] + ys[k + 1..];
      RemovedOne(ys, k);
      assert multiset(xs[..|xs| - 1]) == multiset(xs) - multiset{last};
      assert multiset(ys[..k] + ys[k + 1..]) == multiset(ys) - multiset{last};
      SumsIgnoreOrder(t, xs[..|xs| - 1], ys[..k] + ys[k + 1..]);
      SumsPullOut(t, ys[..k], last, ys[k + 1..]);
    }
  }

  lemma {:induction false} SumsPullOut(t: Tables, a: seq<Item>, x: Item, b: seq<Item>)
    ensures CountMissing(t, a + [x] + b) == CountMissing(t, a + b) + CountMissing(t, [x])
    ensures IssuesPlanned(t, a + [x] + b) == IssuesPlanned(t, a + b) + IssuesPlanned(t, [x])
    ensures IssuesInserted(t, a + [x] + b) == IssuesInserted(t, a + b) + IssuesInserted(t, [x])
    decreases |b|
  {
    hide IssueRows, Missing;
    assert [x][..0] == [];
    if b == [] {
      assert a + [x] + b == a + [x] && a + b == a && (a + [x])[..|a|] == a;
    } else {
      var n := |b| - 1;
      SumsPullOut(t, a, x, b[..n]);
      assert (a + [x] + b)[..|a| + 1 + n] == a + [x] + b[..n];
      assert (a + b)[..|a| + n] == a + b[..n];
    }
  }

  lemma WrittenIsUnique(t: Tables, opts: Options, plan: seq<Item>, t1: Tables, t2: Tables)
    requires t.issues.Keys == t.snapshots.Keys && Written(t, opts, plan, t1) && Written(t, opts, plan, t2)
    ensures t1 == t2
  {
    hide IssueRows, RowOf;
    assert t1.snapshots.Keys == t2.snapshots.Keys;
    forall o | o in t1.snapshots ensures t1.snapshots[o] == t2.snapshots[o] && t1.issues[o] == t2.issues[o] {
      if o !in t.snapshots {
        assert Targets(plan, o);
        var i :| i in plan && i.target.observationId == o;
        assert Missing(t, i);
      }
    }
    assert t1.snapshots == t2.snapshots && t1.issues == t2.issues;
  }

  lemma WrittenIgnoresOrder(t: Tables, opts: Options, xs: seq<Item>, ys: seq<Item>, t': Tables)
    requires multiset(xs) == multiset(ys) && Written(t, opts, xs, t')
    ensures Written(t, opts, ys, t')
  {
    hide IssueRows, RowOf;
    assert forall i :: i in xs <==> i in multiset(xs);
    assert forall i :: i in ys <==> i in multiset(ys);
    assert forall o :: Targets(xs, o) <==> Targets(ys, o);
  }

  lemma InsertAllIgnoresOrder(t: Tables, opts: Options, xs: seq<Item>, ys: seq<Item>)
    requires multiset(xs) == multiset(ys) && t.issues.Keys == t.snapshots.Keys
    requires OnePerObservation(xs) && OnePerObservation(ys)
    ensures InsertAll(t, opts, xs) == InsertAll(t, opts, ys)
  {
    hide InsertAll, OnePerObservation, Written;
    InsertAllMeaning(t, opts, xs);
    InsertAllMeaning(t, opts, ys);
    WrittenIgnoresOrder(t, opts, ys, xs, InsertAll(t, opts, ys));
    WrittenIsUnique(t, opts, xs, InsertAll(t, opts, xs), InsertAll(t, opts, ys));
  }

  /** Same inputs in any order: same verdict, same counters, same tables. */
  lemma InputOrderDecidesNothing(t: Tables, lookup: Lookup, opts: Options, xs: seq<Snapshot>, ys: seq<Snapshot>)
    requires multiset(xs) == multiset(ys) && t.issues.Keys == t.snapshots.Keys
    ensures Contradictory(Matched(lookup, xs)) <==> Contradictory(Matched(lookup, ys))
    ensures !Contradictory(Matched(lookup, xs)) ==>
      var p, q := FirstPerObservation(Matched(lookup, xs)), FirstPerObservation(Matched(lookup, ys));
      && |p| == |q| && CountMissing(t, p) == CountMissing(t, q)
      && IssuesPlanned(t, p) == IssuesPlanned(t, q) && IssuesInserted(t, p) == IssuesInserted(t, q)
      && InsertAll(t, opts, p) == InsertAll(t, opts, q)
  {
    hide IssueRows, InsertAll, Contradictory, FirstPerObservation, Distinct, Matched, CountMissing, IssuesPlanned, IssuesInserted;
    var a, b := Matched(lookup, xs), Matched(lookup, ys);
    MatchedPermutation(lookup, xs, ys);
    if Contradictory(a) {
      ContradictionIsOrderFree(a, b);
    }
    if Contradictory(b) {
      ContradictionIsOrderFree(b, a);
    }
    if !Contradictory(a) {
      MatchedIsFunctional(lookup, xs);
      MatchedIsFunctional(lookup, ys);
      PlanIsDistinct(a);
      PlanIsDistinct(b);
      DistinctPermutation(a, b);
      var p, q := FirstPerObservation(a), FirstPerObservation(b);
      assert |multiset(p)| == |p| && |multiset(q)| == |q|;
      PlanHasOneEach(a);
      PlanHasOneEach(b);
      SumsIgnoreOrder(t, p, q);
      InsertAllIgnoresOrder(t, opts, p, q);
    }
  }

  /** Replaying an applied batch creates nothing and changes nothing. */
  lemma {:induction false} ReplayIsIdle(t: Tables, opts: Options, plan: seq<Item>, all: seq<Item>)
    requires OnePerObservation(all) && t.issues.Keys == t.snapshots.Keys
    requires forall i | i in plan :: i in all
    ensures var t' := InsertAll(t, opts, all);
      InsertAll(t', opts, plan) == t' && CountMissing(t', plan) == 0 && IssuesPlanned(t', plan) == 0 && IssuesInserted(t', plan) == 0
  {
    hide IssueRows;
    if plan != [] {
      ReplayIsIdle(t, opts, plan[..|plan| - 1], all);
      InsertAllMeaning(t, opts, all);
      var last := plan[|plan| - 1];
      assert last in all && Targets(all, last.target.observationId);
    }
  }

  // ---- What the evaluator reads back. ----

  function AsEvidence(i: Issue): L.IssueEvidence {
    L.IssueEvidence(i.issueCode, i.issueType, i.dateFromRaw, i.dateToRaw, i.providerOrder, i.alternative)
  }

  function ReadBack(t: Tables, o: Id): L.IssueSnapshot
    requires o in t.snapshots && o in t.issues
  {
    L.IssueSnapshot(o, o, t.snapshots[o].providerIssueCount, Map(AsEvidence, t.issues[o]))
  }

  /** Every stored snapshot came from a complete extraction and its rows are that extraction's rows. */
  ghost predicate Extracted(t: Tables) {
    && t.issues.Keys == t.snapshots.Keys
    && forall o | o in t.snapshots :: exists list: seq<Issue> ::
         t.snapshots[o].providerIssueCount == |list| && t.issues[o] == IssueRows(list)
  }

  lemma {:induction false} InsertAllKeepsExtracted(t: Tables, opts: Options, plan: seq<Item>)
    requires Extracted(t) && forall i | i in plan :: i.snapshot.providerIssueCount == |i.snapshot.issues|
    ensures Extracted(InsertAll(t, opts, plan))
  {
    hide IssueRows;
    if plan != [] {
      var last := plan[|plan| - 1];
      assert last in plan;
      InsertAllKeepsExtracted(t, opts, plan[..|plan| - 1]);
      var mid := InsertAll(t, opts, plan[..|plan| - 1]);
      var t' := InsertItem(mid, opts, last);
      forall o | o in t'.snapshots
        ensures exists list: seq<Issue> :: t'.snapshots[o].providerIssueCount == |list| && t'.issues[o] == IssueRows(list)
      {
        if o in mid.snapshots {
          var list: seq<Issue> :| mid.snapshots[o].providerIssueCount == |list| && mid.issues[o] == IssueRows(list);
        } else {
          var list := last.snapshot.issues;
          assert t'.snapshots[o].providerIssueCount == |list| && t'.issues[o] == IssueRows(list);
        }
      }
    }
  }

  /** For a snapshot this writer creates, the evaluator's count mismatch is exactly a row collision. */
  lemma MismatchIffCollision(
    t: Tables, opts: Options, plan: seq<Item>, i: Item, policy: L.Policy, asOf: string, hasCurrent: Option<bool>)
    requires OnePerObservation(plan) && t.issues.Keys == t.snapshots.Keys && i in plan && Missing(t, i)
    requires i.snapshot.providerIssueCount == |i.snapshot.issues|
    requires policy.approved && D.IsValidIsoDate(Some(asOf)) && hasCurrent != Some(false)
    ensures var t' := InsertAll(t, opts, plan);
      var o := i.target.observationId;
      o in t'.snapshots && o in t'.issues
      && L.EvaluateLifecycle(Some(ReadBack(t', o)), policy, asOf, Some(o), hasCurrent).Ok?
      && (Collides(i.snapshot.issues) <==>
          L.EvaluateLifecycle(Some(ReadBack(t', o)), policy, asOf, Some(o), hasCurrent).value.unresolvedReasons == ["issue_count_mismatch"])
  {
    hide IssueRows, InsertAll, Collides, D.IsValidIsoDate, L.EvaluateLifecycle, OnePerObservation;
    InsertAllMeaning(t, opts, plan);
    RowCountIff(i.snapshot.issues);
    assert Targets(plan, i.target.observationId);
    var o := i.target.observationId;
    MismatchIffMiscounted(ReadBack(InsertAll(t, opts, plan), o), policy, asOf, o, hasCurrent);
  }

  lemma MismatchIffMiscounted(s: L.IssueSnapshot, policy: L.Policy, asOf: string, o: Id, hasCurrent: Option<bool>)
    requires policy.approved && D.IsValidIsoDate(Some(asOf)) && hasCurrent != Some(false)
    ensures L.EvaluateLifecycle(Some(s), policy, asOf, Some(o), hasCurrent).Ok?
    ensures L.EvaluateLifecycle(Some(s), policy, asOf, Some(o), hasCurrent).value.unresolvedReasons == ["issue_count_mismatch"]
       <==> s.providerIssueCount != |s.issues|
  {
    hide D.IsValidIsoDate, L.Defects, L.MappedWindows;
    DefectsNeverMismatch(L.MappedWindows(s, policy));
  }

  lemma {:induction false} DefectsNeverMismatch(windows: seq<L.IssueEvidence>)
    ensures "issue_count_mismatch" !in L.Defects(windows)
  {
    if windows != [] {
      DefectsNeverMismatch(windows[1..]);
    }
  }

  /** Two provider entries that differ only in their description collide: the second row is never written. */
  lemma DescriptionDoesNotSeparate(i: Issue, note: Option<string>)
    ensures Collides([i, i.(description := note)])
    ensures |IssueRows([i, i.(description := note)])| == 1
  {
    hide Ordinal, Shown, Flag;
    var list := [i, i.(description := note)];
    assert EvidenceText(list[0]) == EvidenceText(list[1]);
    assert list[..1] == [i] && [i][..0] == [];
    assert IssueRows([i]) == [i];
    assert i in [i] && Repeated([i], list[1]);
  }
}

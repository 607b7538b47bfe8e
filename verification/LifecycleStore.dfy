/**
 Persisting issue evidence (scripts/lifecycle/store.ts): one plan item per observation, one snapshot per
 observation, append-only rows. A snapshot's child rows are keyed by its observation, which names it
 uniquely; a digest is the content it digests.
 */
module LifecycleStore {
  import opened Prelude
  import opened Sequences
  import opened IssueExtraction
  import L = Lifecycle
  import T = Text

  datatype Target = Target(identityId: Id, observationId: Id)
  datatype Item = Item(snapshot: Snapshot, target: Target)

  datatype SnapshotRow = SnapshotRow(
    identityId: Id, source: string, environment: string, sourceRunId: Id, providerIssueCount: nat, payloadDigest: string)

  datatype Tables = Tables(snapshots: map<Id, SnapshotRow>, issues: map<Id, seq<Issue>>)

  datatype MismatchReason = NoIngestedProperty | NoExactObservationMatch
  datatype Mismatch = Mismatch(sourcePropertyId: string, reason: MismatchReason, snapshot: Snapshot)

  datatype Counts = Counts(
    completeSnapshotsExtracted: nat, snapshotsCreated: nat, snapshotsAlreadyPresent: nat, issuesCreated: nat,
    provenanceMismatches: seq<Mismatch>)

  datatype Malformed = Malformed(observationId: Id, variants: nat)

  /** (run, provider id, whole-record digest): the key that names one observation. */
  type Provenance = (Id, string, string)

  // ---- The uniqueness of one issue row within its snapshot. ----

  function Shown(v: Option<string>): string { if v.Some? then v.value else "~null~" }

  function Flag(v: Option<bool>): string { if v.None? then "~null~" else if v.value then "true" else "false" }

  function Ordinal(v: Option<int>): string { if v.None? then "~null~" else T.IntText(v.value) }

  /** What the evidence digest is taken over: every column except the description. */
  function EvidenceText(i: Issue): string {
    i.issueCode + "|" + i.issueType + "|" + Shown(i.dateFromRaw) + "|" + Shown(i.dateToRaw) + "|"
    + Ordinal(i.providerOrder) + "|" + Flag(i.alternative)
  }

  predicate Collides(issues: seq<Issue>) {
    exists i, j | 0 <= i < j < |issues| :: EvidenceText(issues[i]) == EvidenceText(issues[j])
  }

  /** insert ... on conflict do nothing, row by row. */
  function IssueRows(issues: seq<Issue>): (rows: seq<Issue>)
    ensures forall i | i in issues :: Repeated(rows, i)
    ensures |rows| <= |issues|
  {
    if issues == [] then []
    else
      var n := |issues| - 1;
      var rows := IssueRows(issues[..n]);
      assert forall i | i in issues :: i == issues[n] || i in issues[..n];
      if Repeated(rows, issues[n]) then rows else rows + [issues[n]]
  }

  lemma {:induction false} RowsAreIssues(issues: seq<Issue>)
    ensures forall r | r in IssueRows(issues) :: r in issues
  {
    hide EvidenceText;
    if issues != [] {
      RowsAreIssues(issues[..|issues| - 1]);
    }
  }

  /** Every issue becomes a row iff no two share the digested columns. */
  lemma {:induction false} RowCountIff(issues: seq<Issue>)
    ensures |IssueRows(issues)| == |issues| <==> !Collides(issues)
    ensures !Collides(issues) ==> IssueRows(issues) == issues
  {
    hide EvidenceText, Collides;
    if issues != [] {
      var n := |issues| - 1;
      var init := issues[..n];
      RowCountIff(init);
      RowsAreIssues(init);
      assert issues == init + [issues[n]];
      CollidesStep(init, issues[n]);
    } else {
      NothingCollides();
    }
  }

  predicate Repeated(issues: seq<Issue>, i: Issue) { exists r | r in issues :: EvidenceText(r) == EvidenceText(i) }

  lemma NothingCollides()
    ensures !Collides([])
  {
  }

  lemma CollidesStep(init: seq<Issue>, last: Issue)
    ensures Collides(init + [last]) <==> Collides(init) || Repeated(init, last)
  {
    hide EvidenceText;
    var issues := init + [last];
    if Collides(init) {
      var i, j :| 0 <= i < j < |init| && EvidenceText(init[i]) == EvidenceText(init[j]);
      assert EvidenceText(issues[i]) == EvidenceText(issues[j]);
    }
    if Repeated(init, last) {
      var r :| r in init && EvidenceText(r) == EvidenceText(last);
      var i :| 0 <= i < |init| && init[i] == r;
      assert EvidenceText(issues[i]) == EvidenceText(issues[|init|]);
    }
    if Collides(issues) {
      var i, j :| 0 <= i < j < |issues| && EvidenceText(issues[i]) == EvidenceText(issues[j]);
      assert issues[i] == init[i] && init[i] in init;
      if j < |init| {
        assert EvidenceText(init[i]) == EvidenceText(init[j]);
      }
    }
  }

  // ---- The plan. ----

  predicate SameTarget(a: Item, b: Item) { a.target.observationId == b.target.observationId }

  predicate Contradictory(items: seq<Item>) {
    exists i, j | 0 <= i < |items| && 0 <= j < |items| ::
      SameTarget(items[i], items[j]) && items[i].snapshot != items[j].snapshot
  }

  predicate Targets(items: seq<Item>, o: Id) { exists i | i in items :: i.target.observationId == o }

  function FirstPerObservation(items: seq<Item>): (plan: seq<Item>)
    ensures forall o :: Targets(plan, o) <==> Targets(items, o)
    ensures forall i | i in plan :: i in items
    ensures forall i, j | 0 <= i < j < |plan| :: !SameTarget(plan[i], plan[j])
  {
    if items == [] then []
    else
      var n := |items| - 1;
      var plan := FirstPerObservation(items[..n]);
      assert items == items[..n] + [items[n]];
      TargetsAppend(plan, items[n]);
      TargetsAppend(items[..n], items[n]);
      if Targets(plan, items[n].target.observationId) then plan else plan + [items[n]]
  }

  /** Two inputs for one observation that agree on everything are one item. */
  predicate Functional(items: seq<Item>) {
    forall a, b | a in items && b in items && a.snapshot == b.snapshot :: a == b
  }

  lemma {:induction false} PlanIsDistinct(items: seq<Item>)
    requires Functional(items) && !Contradictory(items)
    ensures FirstPerObservation(items) == Distinct(items)
  {
    hide Functional, Contradictory, Targets;
    if items != [] {
      var n := |items| - 1;
      PrefixAgrees(items, n);
      PlanIsDistinct(items[..n]);
      SameTargetSameItem(items, FirstPerObservation(items[..n]));
    }
  }

  lemma PrefixAgrees(items: seq<Item>, n: nat)
    requires n <= |items| && Functional(items) && !Contradictory(items)
    ensures Functional(items[..n]) && !Contradictory(items[..n])
  {
    forall i, j | 0 <= i < n && 0 <= j < n && SameTarget(items[..n][i], items[..n][j])
      ensures items[..n][i].snapshot == items[..n][j].snapshot
    {
      assert SameTarget(items[i], items[j]);
    }
  }

  lemma SameTargetSameItem(items: seq<Item>, plan: seq<Item>)
    requires items != [] && Functional(items) && !Contradictory(items) && forall i | i in plan :: i in items
    ensures Targets(plan, items[|items| - 1].target.observationId) <==> items[|items| - 1] in plan
  {
    var n := |items| - 1;
    forall i | i in plan && SameTarget(i, items[n]) ensures i == items[n] {
      var k :| 0 <= k < |items| && items[k] == i;
      assert SameTarget(items[k], items[n]);
      assert items[n] in items;
    }
  }

  /** Keep the first input per observation and the set of distinct instructions seen for it. */
  method CollapseByObservation(matched: seq<Item>) returns (r: Result<seq<Item>, Malformed>)
    ensures r.Ok? <==> !Contradictory(matched)
    ensures r.Ok? ==> r.value == FirstPerObservation(matched)
    ensures r.Err? ==> r.error.variants > 1 && Targets(matched, r.error.observationId)
                       && r.error.variants == |Variants(matched, r.error.observationId)|
  {
    hide Contradictory, FirstPerObservation, Variants, Targets;
    var items: seq<Item> := [];
    var digests: map<Id, set<Snapshot>> := map[];
    FirstOfNothing(matched);
    for n := 0 to |matched|
      invariant items == FirstPerObservation(matched[..n])
      invariant forall o :: o in digests <==> Targets(items, o)
      invariant forall o | o in digests :: digests[o] == Variants(matched[..n], o)
    {
      var item := matched[n];
      var o := item.target.observationId;
      FirstStep(matched, n);
      forall p ensures Variants(matched[..n + 1], p) == Variants(matched[..n], p) + if p == o then {item.snapshot} else {} {
        VariantsStep(matched, n, p);
      }
      if o !in digests {
        UntargetedHasNoVariants(matched[..n], o);
        TargetsAppend(items, item);
        items := items + [item];
        digests := digests[o := {item.snapshot}];
      } else {
        digests := digests[o := digests[o] + {item.snapshot}];
      }
    }
    assert matched[..|matched|] == matched;
    for k := 0 to |items|
      invariant forall i | 0 <= i < k :: |Variants(matched, items[i].target.observationId)| <= 1
    {
      var o := items[k].target.observationId;
      IsTargeted(items, k);
      if |digests[o]| > 1 {
        ManyVariantsContradict(matched, o);
        assert Targets(matched, o) by { FirstMeaning(matched, o); }
        return Err(Malformed(o, |digests[o]|));
      }
    }
    FewVariantsAgree(matched, items);
    return Ok(items);
  }

  function Variants(items: seq<Item>, o: Id): set<Snapshot> {
    set i | i in items && i.target.observationId == o :: i.snapshot
  }

  lemma FirstOfNothing(items: seq<Item>)
    ensures FirstPerObservation(items[..0]) == [] && forall o :: !Targets([], o)
  {
  }

  lemma IsTargeted(items: seq<Item>, k: nat)
    requires k < |items|
    ensures Targets(items, items[k].target.observationId)
  {
  }

  lemma FirstMeaning(items: seq<Item>, o: Id)
    ensures Targets(FirstPerObservation(items), o) <==> Targets(items, o)
  {
  }

  lemma FirstStep(items: seq<Item>, n: nat)
    requires n < |items|
    ensures var plan := FirstPerObservation(items[..n]);
      && FirstPerObservation(items[..n + 1]) == (if Targets(plan, items[n].target.observationId) then plan else plan + [items[n]])
      && (Targets(plan, items[n].target.observationId) <==> Targets(items[..n], items[n].target.observationId))
  {
    assert items[..n + 1][..n] == items[..n];
  }

  lemma TargetsAppend(items: seq<Item>, item: Item)
    ensures forall p :: Targets(items + [item], p) <==> Targets(items, p) || p == item.target.observationId
  {
    assert item in items + [item];
  }

  lemma VariantsStep(items: seq<Item>, n: nat, o: Id)
    requires n < |items|
    ensures Variants(items[..n + 1], o) == Variants(items[..n], o) + if items[n].target.observationId == o then {items[n].snapshot} else {}
  {
    assert items[..n + 1] == items[..n] + [items[n]];
  }

  lemma UntargetedHasNoVariants(items: seq<Item>, o: Id)
    ensures !Targets(items, o) ==> Variants(items, o) == {}
  {
  }

  lemma ManyVariantsContradict(items: seq<Item>, o: Id)
    requires |Variants(items, o)| > 1
    ensures Contradictory(items)
  {
    var vs := Variants(items, o);
    var a :| a in vs;
    var b :| b in vs - {a} by {
      assert |vs - {a}| == |vs| - 1;
    }
    var x :| x in items && x.target.observationId == o && x.snapshot == a;
    var y :| y in items && y.target.observationId == o && y.snapshot == b;
    var i :| 0 <= i < |items| && items[i] == x;
    var j :| 0 <= j < |items| && items[j] == y;
    assert SameTarget(items[i], items[j]);
  }

  lemma FewVariantsAgree(items: seq<Item>, plan: seq<Item>)
    requires plan == FirstPerObservation(items)
    requires forall i | 0 <= i < |plan| :: |Variants(items, plan[i].target.observationId)| <= 1
    ensures !Contradictory(items)
  {
    forall i, j | 0 <= i < |items| && 0 <= j < |items| && SameTarget(items[i], items[j])
      ensures items[i].snapshot == items[j].snapshot
    {
      var o := items[i].target.observationId;
      assert items[i] in items && Targets(items, o);
      FirstMeaning(items, o);
      var p :| p in plan && p.target.observationId == o;
      var k :| 0 <= k < |plan| && plan[k] == p;
      assert items[j] in items;
      OneElement(Variants(items, o), items[i].snapshot, items[j].snapshot);
    }
  }

  lemma OneElement<T>(s: set<T>, a: T, b: T)
    requires |s| <= 1 && a in s && b in s
    ensures a == b
  {
    assert |s - {a}| == |s| - 1;
    assert b !in s - {a};
  }
}

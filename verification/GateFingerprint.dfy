/**
 The fingerprint payload sorts every evidence list by a text key. It is therefore a function of
 the evidence, and not of the order the rows were read in, exactly when equal keys imply equal
 elements; a missing date and an empty one share a key, so this is a real condition.
 (scripts/prepublication-preview/evaluate.ts)
 */
module GateFingerprint {
  import opened Prelude
  import opened Text
  import opened Sequences
  import opened Gate
  import D = Dates
  import L = Lifecycle

  function Payload(input: PreviewInput, asOf: string): FingerprintPayload
    requires LifecycleOf(input, asOf).Ok?
  {
    FingerprintPayload(input.identity, asOf, Conditions(input, LifecycleOf(input, asOf).value, asOf))
  }

  // ---- Entity evidence. ----

  predicate SameEntityRows(e: EntityView, f: EntityView) {
    && e.synchronized == f.synchronized
    && multiset(e.acceptedCandidates) == multiset(f.acceptedCandidates)
    && multiset(e.pendingCandidateIds) == multiset(f.pendingCandidateIds)
    && multiset(e.currentAnomalyReasons) == multiset(f.currentAnomalyReasons)
  }

  lemma EntityOrderFree(e: EntityView, f: EntityView)
    requires SameEntityRows(e, f) && KeysSeparate(CandidateKey, e.acceptedCandidates)
    ensures SortedCandidates(e) == SortedCandidates(f)
    ensures AcceptedContradiction(e) == AcceptedContradiction(f)
    ensures EntityEvidence(e) == EntityEvidence(f)
    ensures e.pendingCandidateIds == [] <==> f.pendingCandidateIds == []
    ensures e.currentAnomalyReasons == [] <==> f.currentAnomalyReasons == []
  {
    hide CandidateKey, SortBy, OfKind;
    SortForgetsOrder(CandidateKey, e.acceptedCandidates, f.acceptedCandidates);
    SortForgetsOrder(Self, e.pendingCandidateIds, f.pendingCandidateIds);
    SortForgetsOrder(Self, e.currentAnomalyReasons, f.currentAnomalyReasons);
    SameSize(e.pendingCandidateIds, f.pendingCandidateIds);
    SameSize(e.currentAnomalyReasons, f.currentAnomalyReasons);
  }

  lemma SameSize<T>(xs: seq<T>, ys: seq<T>)
    requires multiset(xs) == multiset(ys)
    ensures |xs| == |ys|
  {
    assert |multiset(xs)| == |xs| && |multiset(ys)| == |ys|;
  }

  // ---- Lifecycle evidence. ----

  function Active(windows: seq<L.IssueEvidence>, asOf: string): seq<L.ClosureWindow> {
    Map(L.AsWindow, Filter(w => L.Covers(w, asOf), windows))
  }

  /** The key condition: among mapped windows, and among the active ones when the outcome lists any. */
  predicate WindowKeysSeparate(windows: seq<L.IssueEvidence>, asOf: string) {
    && KeysSeparate(IssueKey, windows)
    && (L.Defects(windows) == [] ==> KeysSeparate(ClosureKey, Active(windows, asOf)))
  }

  lemma {:induction false} DefectsMultiset(windows: seq<L.IssueEvidence>, reason: string)
    ensures multiset(L.Defects(windows))[reason]
         == |Filter((w: L.IssueEvidence) => L.Defect(w) == Some(reason), windows)|
  {
    hide L.Defect;
    if windows != [] {
      DefectsMultiset(windows[1..], reason);
    }
  }

  lemma DefectsPermutation(xs: seq<L.IssueEvidence>, ys: seq<L.IssueEvidence>)
    requires multiset(xs) == multiset(ys)
    ensures multiset(L.Defects(xs)) == multiset(L.Defects(ys))
  {
    forall reason ensures multiset(L.Defects(xs))[reason] == multiset(L.Defects(ys))[reason] {
      DefectsMultiset(xs, reason);
      DefectsMultiset(ys, reason);
      var keep := (w: L.IssueEvidence) => L.Defect(w) == Some(reason);
      FilterPermutation(keep, xs, ys);
      SameSize(Filter(keep, xs), Filter(keep, ys));
    }
  }

  lemma WindowListsOrderFree(xs: seq<L.IssueEvidence>, ys: seq<L.IssueEvidence>, asOf: string)
    requires multiset(xs) == multiset(ys) && WindowKeysSeparate(xs, asOf)
    ensures SortBy(IssueKey, xs) == SortBy(IssueKey, ys)
    ensures SortBy(Self, Distinct(L.Defects(xs))) == SortBy(Self, Distinct(L.Defects(ys)))
    ensures L.Defects(xs) == [] <==> L.Defects(ys) == []
    ensures L.Defects(xs) == [] ==>
              SortBy(ClosureKey, Active(xs, asOf)) == SortBy(ClosureKey, Active(ys, asOf))
              && (Active(xs, asOf) == [] <==> Active(ys, asOf) == [])
  {
    hide L.Covers, L.Defects, IssueKey, ClosureKey;
    SortForgetsOrder(IssueKey, xs, ys);
    DefectsPermutation(xs, ys);
    SameSize(L.Defects(xs), L.Defects(ys));
    DistinctPermutation(L.Defects(xs), L.Defects(ys));
    SortForgetsOrder(Self, Distinct(L.Defects(xs)), Distinct(L.Defects(ys)));
    var keep := (w: L.IssueEvidence) => L.Covers(w, asOf);
    FilterPermutation(keep, xs, ys);
    MapMultiset(L.AsWindow, Filter(keep, xs), Filter(keep, ys));
    SameSize(Active(xs, asOf), Active(ys, asOf));
    if L.Defects(xs) == [] {
      SortForgetsOrder(ClosureKey, Active(xs, asOf), Active(ys, asOf));
    }
  }

  function WithIssues(input: PreviewInput, issues: seq<L.IssueEvidence>): PreviewInput
    requires input.snapshot.Some?
  {
    input.(snapshot := Some(input.snapshot.value.(issues := issues)))
  }

  /** The mapped windows the gate really reads: those of a current, fully accounted snapshot. */
  function ReadWindows(input: PreviewInput): seq<L.IssueEvidence> {
    if CurrentSnapshot(input).Some? && L.Accounted(input.snapshot.value)
    then L.MappedWindows(input.snapshot.value, input.policy) else []
  }

  lemma LifecycleOrderFree(input: PreviewInput, issues: seq<L.IssueEvidence>, asOf: string)
    requires input.snapshot.Some? && multiset(issues) == multiset(input.snapshot.value.issues)
    requires LifecycleOf(input, asOf).Ok? && WindowKeysSeparate(ReadWindows(input), asOf)
    ensures LifecycleOf(WithIssues(input, issues), asOf).Ok?
    ensures LifecycleEvidence(LifecycleOf(WithIssues(input, issues), asOf).value)
         == LifecycleEvidence(LifecycleOf(input, asOf).value)
    ensures LifecycleOf(WithIssues(input, issues), asOf).value.outcome == LifecycleOf(input, asOf).value.outcome
  {
    hide L.Covers, L.Defects, IssueKey, ClosureKey, L.IsMapped, WindowKeysSeparate, D.IsValidIsoDate, SortBy;
    hide Distinct, Filter, Map;
    var input' := WithIssues(input, issues);
    SameSize(issues, input.snapshot.value.issues);
    if CurrentSnapshot(input).Some? && L.Accounted(input.snapshot.value) {
      FilterPermutation(i => L.IsMapped(input.policy, i), input.snapshot.value.issues, issues);
      WindowListsOrderFree(ReadWindows(input), ReadWindows(input'), asOf);
    }
  }

  /** Reading the same rows in another order leaves the payload, and so the fingerprint, unchanged. */
  lemma PayloadOrderFree(input: PreviewInput, entity: EntityView, issues: seq<L.IssueEvidence>, asOf: string)
    requires input.snapshot.Some? && multiset(issues) == multiset(input.snapshot.value.issues)
    requires SameEntityRows(input.entity, entity)
    requires LifecycleOf(input, asOf).Ok?
    requires KeysSeparate(CandidateKey, input.entity.acceptedCandidates)
    requires WindowKeysSeparate(ReadWindows(input), asOf)
    ensures var input' := WithIssues(input, issues).(entity := entity);
            LifecycleOf(input', asOf).Ok? && Payload(input', asOf) == Payload(input, asOf)
  {
    hide LifecycleOf, WindowKeysSeparate, ReadWindows, AcceptedContradiction, Payload;
    var input' := WithIssues(input, issues);
    EntityOrderFree(input.entity, entity);
    PayloadForgetsIssueOrder(input, issues, asOf);
    PayloadReadsSortedEntity(input', entity, asOf);
  }

  lemma PayloadForgetsIssueOrder(input: PreviewInput, issues: seq<L.IssueEvidence>, asOf: string)
    requires input.snapshot.Some? && multiset(issues) == multiset(input.snapshot.value.issues)
    requires LifecycleOf(input, asOf).Ok? && WindowKeysSeparate(ReadWindows(input), asOf)
    ensures LifecycleOf(WithIssues(input, issues), asOf).Ok?
    ensures Payload(WithIssues(input, issues), asOf) == Payload(input, asOf)
  {
    hide LifecycleEvidence, LifecycleOf, WindowKeysSeparate, ReadWindows, AcceptedContradiction;
    hide IdentityCondition, DestinationCondition, ConflictCondition, V1ScopeCondition;
    hide ScopeCondition, StarCondition, StarProvenanceCondition, LatitudeCondition, LongitudeCondition;
    hide LocationProvenanceCondition;
    hide SameHumanRows;
    LifecycleOrderFree(input, issues, asOf);
    SameHumanRowsAgain(input, issues);
    HumanConditionsAgree(input, WithIssues(input, issues));
  }

  lemma SameHumanRowsAgain(input: PreviewInput, issues: seq<L.IssueEvidence>)
    requires input.snapshot.Some?
    ensures SameHumanRows(input, WithIssues(input, issues))
  {
    hide EntityEvidence, AcceptedContradiction, SortedCandidates;
  }

  lemma PayloadReadsSortedEntity(input: PreviewInput, entity: EntityView, asOf: string)
    requires LifecycleOf(input, asOf).Ok? && SameHumanRows(input, input.(entity := entity))
    ensures LifecycleOf(input.(entity := entity), asOf).Ok?
    ensures Payload(input.(entity := entity), asOf) == Payload(input, asOf)
  {
    hide LifecycleEvidence, LifecycleOf, SameHumanRows;
    hide IdentityCondition, DestinationCondition, ConflictCondition, V1ScopeCondition;
    hide ScopeCondition, StarCondition, StarProvenanceCondition, LatitudeCondition, LongitudeCondition;
    hide LocationProvenanceCondition;
    LifecycleIgnoresEntity(input.(entity := entity), input, asOf);
    HumanConditionsAgree(input, input.(entity := entity));
  }

  /** What the three conditions about people and entity evidence read. */
  predicate SameHumanRows(a: PreviewInput, b: PreviewInput) {
    && a.identity == b.identity && a.review == b.review && a.humanReview == b.humanReview
    && a.destination == b.destination && a.targetHotel == b.targetHotel
    && a.entity.synchronized == b.entity.synchronized
    && SortedCandidates(a.entity) == SortedCandidates(b.entity)
    && AcceptedContradiction(a.entity) == AcceptedContradiction(b.entity)
    && EntityEvidence(a.entity) == EntityEvidence(b.entity)
    && (a.entity.pendingCandidateIds == [] <==> b.entity.pendingCandidateIds == [])
    && (a.entity.currentAnomalyReasons == [] <==> b.entity.currentAnomalyReasons == [])
  }

  lemma HumanEvidenceAgrees(a: PreviewInput, b: PreviewInput)
    requires SameHumanRows(a, b)
    ensures ReceiptEvidence(a) == ReceiptEvidence(b) && RevocationEvidence(a) == RevocationEvidence(b)
    ensures PointerEvidence(a) == PointerEvidence(b) && DestinationEvidence(a) == DestinationEvidence(b)
  {
    hide EntityEvidence, AcceptedContradiction, SortedCandidates;
  }

  lemma HumanTestsAgree(a: PreviewInput, b: PreviewInput)
    requires SameHumanRows(a, b)
    ensures NoConflict(a) == NoConflict(b) && ReviewRevoked(a) == ReviewRevoked(b)
    ensures ClaimsNoReceipt(a) == ClaimsNoReceipt(b) && ReceiptCurrent(a) == ReceiptCurrent(b)
    ensures ClaimsOtherReceipt(a) == ClaimsOtherReceipt(b)
  {
    hide EntityEvidence, AcceptedContradiction, SortedCandidates;
  }

  lemma IdentityConditionAgrees(a: PreviewInput, b: PreviewInput)
    requires SameHumanRows(a, b)
    ensures IdentityCondition(a) == IdentityCondition(b)
  {
    hide EntityEvidence, ReviewEvidence, AcceptedContradiction, SortedCandidates, OfKind, NoConflict, ReviewRevoked;
    hide ReceiptEvidence, RevocationEvidence, PointerEvidence, DestinationEvidence, ReceiptCurrent, ClaimsNoReceipt;
    hide ClaimsOtherReceipt, Truthy, Hold;
    HumanEvidenceAgrees(a, b);
    HumanTestsAgree(a, b);
  }

  lemma DestinationConditionAgrees(a: PreviewInput, b: PreviewInput)
    requires SameHumanRows(a, b)
    ensures DestinationCondition(a) == DestinationCondition(b)
  {
    hide EntityEvidence, ReviewEvidence, AcceptedContradiction, SortedCandidates, OfKind, NoConflict, ReviewRevoked;
    hide ReceiptEvidence, RevocationEvidence, PointerEvidence, DestinationEvidence, ReceiptCurrent, ClaimsNoReceipt;
    hide ClaimsOtherReceipt, Truthy, Hold;
    HumanEvidenceAgrees(a, b);
    HumanTestsAgree(a, b);
  }

  lemma HumanConditionsAgree(a: PreviewInput, b: PreviewInput)
    requires SameHumanRows(a, b)
    ensures IdentityCondition(a) == IdentityCondition(b)
    ensures DestinationCondition(a) == DestinationCondition(b)
    ensures ConflictCondition(a) == ConflictCondition(b)
  {
    hide IdentityCondition, DestinationCondition;
    IdentityConditionAgrees(a, b);
    DestinationConditionAgrees(a, b);
    hide EntityEvidence, AcceptedContradiction, SortedCandidates;
  }

  lemma LifecycleIgnoresEntity(a: PreviewInput, b: PreviewInput, asOf: string)
    requires a.identity == b.identity && a.snapshot == b.snapshot && a.policy == b.policy
    ensures LifecycleOf(a, asOf) == LifecycleOf(b, asOf)
  {
    hide L.EvaluateLifecycle;
  }

  // ---- The converse: colliding keys let the reading order through. ----

  lemma FindTwo(issues: seq<L.IssueEvidence>, u: L.IssueEvidence, v: L.IssueEvidence)
    returns (rest: seq<L.IssueEvidence>)
    requires u in issues && v in issues && u != v
    ensures multiset([u] + ([v] + rest)) == multiset(issues)
    ensures multiset([v] + ([u] + rest)) == multiset(issues)
  {
    var i :| 0 <= i < |issues| && issues[i] == u;
    var j :| 0 <= j < |issues| && issues[j] == v;
    var a, b := if i < j then i else j, if i < j then j else i;
    rest := issues[..a] + issues[a + 1..b] + issues[b + 1..];
    PullToFront(issues, a, b);
    TwoInFront(issues[a], issues[b], rest);
  }

  lemma IssueValueInjective(w: L.IssueEvidence, x: L.IssueEvidence)
    requires IssueValue(w) == IssueValue(x)
    ensures w == x
  {
    var f, g := IssueValue(w).fields, IssueValue(x).fields;
    assert f["issueCode"] == g["issueCode"] && f["issueType"] == g["issueType"];
    assert f["dateFromRaw"] == g["dateFromRaw"] && f["dateToRaw"] == g["dateToRaw"];
    assert f["providerOrder"] == g["providerOrder"] && f["alternative"] == g["alternative"];
  }

  lemma ClosureValueInjective(w: L.ClosureWindow, x: L.ClosureWindow)
    requires ClosureValue(w) == ClosureValue(x)
    ensures w == x
  {
    var f, g := ClosureValue(w).fields, ClosureValue(x).fields;
    assert f["issueCode"] == g["issueCode"] && f["issueType"] == g["issueType"];
    assert f["dateFrom"] == g["dateFrom"] && f["dateTo"] == g["dateTo"];
  }

  /** Equal lifecycle evidence means equal sorted window lists. */
  lemma EvidenceShowsWindows(e: L.Evaluation, f: L.Evaluation)
    requires LifecycleEvidence(e) == LifecycleEvidence(f)
    ensures SortBy(IssueKey, e.mappedWindows) == SortBy(IssueKey, f.mappedWindows)
    ensures SortBy(ClosureKey, e.activeClosureWindows) == SortBy(ClosureKey, f.activeClosureWindows)
  {
    hide SortBy, IssueValue, ClosureValue, LifecycleText;
    assert LifecycleEvidence(e)["mappedWindows"] == LifecycleEvidence(f)["mappedWindows"];
    assert LifecycleEvidence(e)["activeClosureWindows"] == LifecycleEvidence(f)["activeClosureWindows"];
    var a, b := SortBy(IssueKey, e.mappedWindows), SortBy(IssueKey, f.mappedWindows);
    assert |Map(IssueValue, a)| == |Map(IssueValue, b)|;
    forall i | 0 <= i < |a| ensures a[i] == b[i] {
      assert Map(IssueValue, a)[i] == Map(IssueValue, b)[i];
      IssueValueInjective(a[i], b[i]);
    }
    var c, d := SortBy(ClosureKey, e.activeClosureWindows), SortBy(ClosureKey, f.activeClosureWindows);
    assert |Map(ClosureValue, c)| == |Map(ClosureValue, d)|;
    forall i | 0 <= i < |c| ensures c[i] == d[i] {
      assert Map(ClosureValue, c)[i] == Map(ClosureValue, d)[i];
      ClosureValueInjective(c[i], d[i]);
    }
  }

  lemma SamePayloadSameLifecycleEvidence(a: PreviewInput, b: PreviewInput, asOf: string)
    requires LifecycleOf(a, asOf).Ok? && LifecycleOf(b, asOf).Ok? && Payload(a, asOf) == Payload(b, asOf)
    ensures LifecycleEvidence(LifecycleOf(a, asOf).value) == LifecycleEvidence(LifecycleOf(b, asOf).value)
  {
    hide IdentityCondition, DestinationCondition, ConflictCondition, V1ScopeCondition, LifecycleOf, LifecycleEvidence;
    hide ScopeCondition, StarCondition, StarProvenanceCondition, LatitudeCondition, LongitudeCondition;
    hide LocationProvenanceCondition;
    assert Payload(a, asOf).conditions[3] == Payload(b, asOf).conditions[3];
  }

  lemma FrontWindows(policy: L.Policy, s: L.IssueSnapshot, u: L.IssueEvidence, v: L.IssueEvidence, rest: seq<L.IssueEvidence>)
    requires s.issues == [u] + ([v] + rest) && L.IsMapped(policy, u) && L.IsMapped(policy, v)
    ensures L.MappedWindows(s, policy) == [u] + ([v] + Filter(i => L.IsMapped(policy, i), rest))
  {
    hide L.IsMapped;
    var keep := (i: L.IssueEvidence) => L.IsMapped(policy, i);
    assert ([v] + rest)[1..] == rest;
    assert Filter(keep, [v] + rest) == [v] + Filter(keep, rest);
    assert s.issues[1..] == [v] + rest;
    assert Filter(keep, s.issues) == [u] + Filter(keep, [v] + rest);
  }

  lemma MapTwo<T, U>(f: T -> U, u: T, v: T, rest: seq<T>)
    ensures Map(f, [u] + ([v] + rest)) == [f(u)] + ([f(v)] + Map(f, rest))
  {
    assert ([u] + ([v] + rest))[1..] == [v] + rest && ([v] + rest)[1..] == rest;
  }

  lemma FrontActive(u: L.IssueEvidence, v: L.IssueEvidence, rest: seq<L.IssueEvidence>, asOf: string)
    requires L.Covers(u, asOf) && L.Covers(v, asOf)
    ensures Active([u] + ([v] + rest), asOf) == [L.AsWindow(u)] + ([L.AsWindow(v)] + Active(rest, asOf))
  {
    hide L.Covers, L.AsWindow, Map;
    var xs := [u] + ([v] + rest);
    assert xs[1..] == [v] + rest && ([v] + rest)[1..] == rest;
    var keep := (w: L.IssueEvidence) => L.Covers(w, asOf);
    var kept := Filter(keep, rest);
    assert Filter(keep, xs) == [u] + ([v] + kept);
    MapTwo(L.AsWindow, u, v, kept);
  }

  lemma ReadsWindows(input: PreviewInput, issues: seq<L.IssueEvidence>, asOf: string)
    requires CurrentSnapshot(input).Some? && L.Accounted(input.snapshot.value) && LifecycleOf(input, asOf).Ok?
    requires multiset(issues) == multiset(input.snapshot.value.issues)
    ensures LifecycleOf(WithIssues(input, issues), asOf).Ok?
    ensures var e := LifecycleOf(WithIssues(input, issues), asOf).value;
            var windows := L.MappedWindows(WithIssues(input, issues).snapshot.value, input.policy);
            e.mappedWindows == windows
            && (L.Defects(windows) == [] ==> e.activeClosureWindows == Active(windows, asOf))
  {
    hide L.Defects, D.IsValidIsoDate, L.MappedWindows, L.Covers, Distinct;
    SameSize(issues, input.snapshot.value.issues);
  }

  /** One colliding pair, two reading orders, two payloads. */
  lemma CollisionShows(input: PreviewInput, asOf: string) returns (one: seq<L.IssueEvidence>, other: seq<L.IssueEvidence>)
    requires input.snapshot.Some? && LifecycleOf(input, asOf).Ok? && !WindowKeysSeparate(ReadWindows(input), asOf)
    ensures multiset(one) == multiset(input.snapshot.value.issues) == multiset(other)
    ensures LifecycleOf(WithIssues(input, one), asOf).Ok? && LifecycleOf(WithIssues(input, other), asOf).Ok?
    ensures Payload(WithIssues(input, one), asOf) != Payload(WithIssues(input, other), asOf)
  {
    hide LifecycleOf, Payload, L.IsMapped, L.Covers, D.IsValidIsoDate, IssueKey, ClosureKey, SortBy, LifecycleEvidence;
    var windows := ReadWindows(input);
    var u, v := CollidingPair(windows, asOf);
    var rest := FindTwo(input.snapshot.value.issues, u, v);
    one, other := [u] + ([v] + rest), [v] + ([u] + rest);
    var others := Filter(i => L.IsMapped(input.policy, i), rest);
    FrontWindows(input.policy, WithIssues(input, one).snapshot.value, u, v, rest);
    FrontWindows(input.policy, WithIssues(input, other).snapshot.value, v, u, rest);
    ReadsWindows(input, one, asOf);
    ReadsWindows(input, other, asOf);
    if Payload(WithIssues(input, one), asOf) == Payload(WithIssues(input, other), asOf) {
      SamePayloadSameLifecycleEvidence(WithIssues(input, one), WithIssues(input, other), asOf);
      EvidenceShowsWindows(LifecycleOf(WithIssues(input, one), asOf).value, LifecycleOf(WithIssues(input, other), asOf).value);
      if IssueKey(u) == IssueKey(v) {
        TwoOrders(IssueKey, u, v, others);
        assert false;
      } else {
        FilterPermutation(i => L.IsMapped(input.policy, i), one, input.snapshot.value.issues);
        FilterPermutation(i => L.IsMapped(input.policy, i), other, input.snapshot.value.issues);
        NoDefectsEither(windows, [u] + ([v] + others));
        NoDefectsEither(windows, [v] + ([u] + others));
        FrontActive(u, v, others, asOf);
        FrontActive(v, u, others, asOf);
        TwoOrders(ClosureKey, L.AsWindow(u), L.AsWindow(v), Active(others, asOf));
        assert false;
      }
    }
  }

  lemma NoDefectsEither(xs: seq<L.IssueEvidence>, ys: seq<L.IssueEvidence>)
    requires multiset(xs) == multiset(ys) && L.Defects(xs) == []
    ensures L.Defects(ys) == []
  {
    DefectsPermutation(xs, ys);
    SameSize(L.Defects(xs), L.Defects(ys));
  }

  lemma CollidingPair(windows: seq<L.IssueEvidence>, asOf: string) returns (u: L.IssueEvidence, v: L.IssueEvidence)
    requires !WindowKeysSeparate(windows, asOf)
    ensures u in windows && v in windows && u != v
    ensures || IssueKey(u) == IssueKey(v)
            || (&& L.Defects(windows) == [] && L.Covers(u, asOf) && L.Covers(v, asOf)
                && ClosureKey(L.AsWindow(u)) == ClosureKey(L.AsWindow(v)) && L.AsWindow(u) != L.AsWindow(v))
  {
    hide IssueKey, ClosureKey, L.Covers, L.Defects;
    if !KeysSeparate(IssueKey, windows) {
      var i, j :| 0 <= i < |windows| && 0 <= j < |windows| && IssueKey(windows[i]) == IssueKey(windows[j]) && windows[i] != windows[j];
      u, v := windows[i], windows[j];
    } else {
      var covering := Filter(w => L.Covers(w, asOf), windows);
      var active := Active(windows, asOf);
      var i, j :| 0 <= i < |active| && 0 <= j < |active| && ClosureKey(active[i]) == ClosureKey(active[j]) && active[i] != active[j];
      u, v := covering[i], covering[j];
      assert u in covering && v in covering;
    }
  }

  ghost predicate IssueOrderFree(input: PreviewInput, asOf: string)
    requires input.snapshot.Some? && LifecycleOf(input, asOf).Ok?
  {
    forall issues | multiset(issues) == multiset(input.snapshot.value.issues) ::
      LifecycleOf(WithIssues(input, issues), asOf).Ok? && Payload(WithIssues(input, issues), asOf) == Payload(input, asOf)
  }

  /** Exactly when the payload forgets the order of the provider's issues. */
  lemma IssueOrderFreeIff(input: PreviewInput, asOf: string)
    requires input.snapshot.Some? && LifecycleOf(input, asOf).Ok?
    ensures IssueOrderFree(input, asOf) <==> WindowKeysSeparate(ReadWindows(input), asOf)
  {
    hide Payload, LifecycleOf, ReadWindows, WindowKeysSeparate, KeysSeparate;
    if WindowKeysSeparate(ReadWindows(input), asOf) {
      forall issues | multiset(issues) == multiset(input.snapshot.value.issues)
        ensures LifecycleOf(WithIssues(input, issues), asOf).Ok?
        ensures Payload(WithIssues(input, issues), asOf) == Payload(input, asOf)
      {
        PayloadForgetsIssueOrder(input, issues, asOf);
      }
    } else {
      var one, other := CollisionShows(input, asOf);
    }
  }

  /** The collision is real: a mapped window with no start date and one with an empty start date. */
  lemma MissingAndEmptyDatesCollide(input: PreviewInput, w: L.IssueEvidence, asOf: string)
    requires CurrentSnapshot(input).Some? && L.Accounted(input.snapshot.value) && L.IsMapped(input.policy, w)
    requires LifecycleOf(input, asOf).Ok? && w.dateFromRaw.None?
    requires w in input.snapshot.value.issues && w.(dateFromRaw := Some("")) in input.snapshot.value.issues
    ensures !WindowKeysSeparate(ReadWindows(input), asOf)
  {
    hide L.MappedWindows, L.Defects, PadStart;
    var x := w.(dateFromRaw := Some(""));
    assert L.IsMapped(input.policy, x);
    assert w in ReadWindows(input) && x in ReadWindows(input) by {
      assert w in L.MappedWindows(input.snapshot.value, input.policy) by { MappedMembership(input, w); }
      assert x in L.MappedWindows(input.snapshot.value, input.policy) by { MappedMembership(input, x); }
    }
    assert IssueKey(w) == IssueKey(x);
  }

  const CLOSURE := L.IssueEvidence("1", "closure", None, None, None, None)
  const DATELESS := CLOSURE.(dateFromRaw := Some(""))

  /** One identity whose snapshot holds the same mapped closure twice, once with no start date and once with an empty one. */
  const COLLIDING := PreviewInput(
    IdentityView("property", "hotelbeds", "evaluation", Some("observation")), None, None, None, None,
    EntityView(true, [], [], []), None, None, None,
    Some(L.IssueSnapshot("snapshot", "observation", 2, [CLOSURE, DATELESS])),
    L.Policy("hotelbeds", "1", true, [L.Mapping("1", "closure")]))

  /** Reading those two rows the other way round gives another payload. */
  lemma SwappedRowsShow(asOf: string)
    requires D.IsValidIsoDate(Some(asOf))
    ensures LifecycleOf(COLLIDING, asOf).Ok? && LifecycleOf(WithIssues(COLLIDING, [DATELESS, CLOSURE]), asOf).Ok?
    ensures Payload(WithIssues(COLLIDING, [DATELESS, CLOSURE]), asOf) != Payload(COLLIDING, asOf)
  {
    hide D.IsValidIsoDate, Payload, WindowKeysSeparate, ReadWindows, LifecycleOf, L.IsMapped;
    CollidingIsRead(asOf);
    MissingAndEmptyDatesCollide(COLLIDING, CLOSURE, asOf);
    IssueOrderFreeIff(COLLIDING, asOf);
    var issues :| multiset(issues) == multiset(COLLIDING.snapshot.value.issues)
      && !(LifecycleOf(WithIssues(COLLIDING, issues), asOf).Ok?
           && Payload(WithIssues(COLLIDING, issues), asOf) == Payload(COLLIDING, asOf));
    TwoOrdersOfTwo(issues, CLOSURE, DATELESS);
    assert WithIssues(COLLIDING, [CLOSURE, DATELESS]) == COLLIDING;
  }

  lemma CollidingIsRead(asOf: string)
    requires D.IsValidIsoDate(Some(asOf))
    ensures LifecycleOf(COLLIDING, asOf).Ok? && LifecycleOf(WithIssues(COLLIDING, [DATELESS, CLOSURE]), asOf).Ok?
    ensures L.IsMapped(COLLIDING.policy, CLOSURE)
  {
    hide D.IsValidIsoDate, L.MappedWindows, L.Defects;
    assert L.Mapping("1", "closure") in COLLIDING.policy.mappings;
  }

  lemma TwoOrdersOfTwo<T>(xs: seq<T>, u: T, v: T)
    requires multiset(xs) == multiset([u, v])
    ensures xs == [u, v] || xs == [v, u]
  {
    SameSize(xs, [u, v]);
    assert xs[0] in multiset([u, v]) && xs[1] in multiset([u, v]);
    assert multiset(xs) == multiset{xs[0], xs[1]} by { assert xs == [xs[0], xs[1]]; }
  }

  lemma MappedMembership(input: PreviewInput, w: L.IssueEvidence)
    requires input.snapshot.Some? && w in input.snapshot.value.issues && L.IsMapped(input.policy, w)
    ensures w in L.MappedWindows(input.snapshot.value, input.policy)
  {
  }
}

/**
 Pre-publication lifecycle evaluation (scripts/lifecycle/policy.ts): does the current complete
 snapshot contain a property-level closure window covering one explicit date?
 */
module Lifecycle {
  import opened Prelude
  import opened Text
  import opened Sequences
  import opened Dates

  datatype Outcome = KnownClosed | NoKnownClosure | Unresolved

  datatype IssueEvidence = IssueEvidence(
    issueCode: string, issueType: string,
    dateFromRaw: Option<string>, dateToRaw: Option<string>,
    providerOrder: Option<int>, alternative: Option<bool>)

  datatype IssueSnapshot = IssueSnapshot(
    snapshotId: Id, observationId: Id, providerIssueCount: int, issues: seq<IssueEvidence>)

  datatype Mapping = Mapping(issueCode: string, issueType: string)

  datatype Policy = Policy(provider: string, version: string, approved: bool, mappings: seq<Mapping>)

  datatype ClosureWindow = ClosureWindow(issueCode: string, issueType: string, dateFrom: string, dateTo: string)

  datatype Evaluation = Evaluation(
    outcome: Outcome, asOf: string, policyProvider: string, policyVersion: string,
    observationId: Option<Id>, snapshotId: Option<Id>,
    activeClosureWindows: seq<ClosureWindow>, mappedWindows: seq<IssueEvidence>,
    unresolvedReasons: seq<string>)

  datatype Refusal = PolicyNotApproved | InvalidAsOf

  const NUL := '\U{0000}'

  /** Codes are stored verbatim, so the separator is the one character they cannot hold. */
  function PairKey(issueCode: string, issueType: string): string { issueCode + [NUL] + issueType }

  predicate IsMapped(policy: Policy, issue: IssueEvidence) {
    exists m | m in policy.mappings :: PairKey(m.issueCode, m.issueType) == PairKey(issue.issueCode, issue.issueType)
  }

  /** The one defect reported for a mapped window, or none when its range can be read. */
  function Defect(w: IssueEvidence): Option<string> {
    if w.dateFromRaw.None? then Some("mapped_closure_missing_date_from")
    else if !IsValidIsoDate(w.dateFromRaw) then Some("mapped_closure_invalid_date_from")
    else if w.dateToRaw.None? then Some("mapped_closure_missing_date_to")
    else if !IsValidIsoDate(w.dateToRaw) then Some("mapped_closure_invalid_date_to")
    else if Less(w.dateToRaw.value, w.dateFromRaw.value) then Some("mapped_closure_inverted_range")
    else None
  }

  function Defects(windows: seq<IssueEvidence>): (reasons: seq<string>)
    ensures reasons == [] <==> forall w | w in windows :: Defect(w).None?
  {
    if windows == [] then []
    else
      (if Defect(windows[0]).Some? then [Defect(windows[0]).value] else []) + Defects(windows[1..])
  }

  predicate Covers(w: IssueEvidence, asOf: string) {
    w.dateFromRaw.Some? && w.dateToRaw.Some? && CoversDate(w.dateFromRaw.value, w.dateToRaw.value, asOf)
  }

  function AsWindow(w: IssueEvidence): ClosureWindow {
    ClosureWindow(w.issueCode, w.issueType, w.dateFromRaw.GetOr(""), w.dateToRaw.GetOr(""))
  }

  function MappedWindows(snapshot: IssueSnapshot, policy: Policy): seq<IssueEvidence> {
    Filter(i => IsMapped(policy, i), snapshot.issues)
  }

  function EvaluateLifecycle(
    snapshot: Option<IssueSnapshot>, policy: Policy, asOf: string,
    currentObservationId: Option<Id>, hasCurrentObservation: Option<bool>): Result<Evaluation, Refusal>
  {
    if !policy.approved then Err(PolicyNotApproved)
    else if !IsValidIsoDate(Some(asOf)) then Err(InvalidAsOf)
    else
      var observationId :=
        if currentObservationId.Some? then currentObservationId
        else if snapshot.Some? then Some(snapshot.value.observationId) else None;
      var snapshotId := if snapshot.Some? then Some(snapshot.value.snapshotId) else None;
      var unresolved := (windows: seq<IssueEvidence>, reasons: seq<string>) =>
        Evaluation(Unresolved, asOf, policy.provider, policy.version, observationId, snapshotId, [], windows, reasons);
      if hasCurrentObservation == Some(false) then Ok(unresolved([], ["no_current_observation"]))
      else if snapshot.None? then Ok(unresolved([], ["no_complete_issue_snapshot"]))
      else if snapshot.value.providerIssueCount != |snapshot.value.issues| then
        Ok(unresolved([], ["issue_count_mismatch"]))
      else
        var mapped := MappedWindows(snapshot.value, policy);
        var reasons := Defects(mapped);
        if reasons != [] then Ok(unresolved(mapped, Distinct(reasons)))
        else
          var active := Map(AsWindow, Filter(w => Covers(w, asOf), mapped));
          Ok(Evaluation(if active != [] then KnownClosed else NoKnownClosure, asOf, policy.provider,
                        policy.version, observationId, snapshotId, active, mapped, []))
  }

  lemma {:induction false} DefectsOneMore(windows: seq<IssueEvidence>, w: IssueEvidence)
    ensures Defects(windows + [w]) == Defects(windows) + if Defect(w).Some? then [Defect(w).value] else []
  {
    hide Defect, Defects;
    DefectsUnfold(windows);
    DefectsUnfold(windows + [w]);
    if windows == [] {
      DefectsUnfold([]);
      assert windows + [w] == [w] && [w][1..] == [];
    } else {
      assert (windows + [w])[1..] == windows[1..] + [w];
      DefectsOneMore(windows[1..], w);
    }
  }

  lemma DefectsUnfold(windows: seq<IssueEvidence>)
    ensures Defects(windows) == if windows == [] then [] else
              (if Defect(windows[0]).Some? then [Defect(windows[0]).value] else []) + Defects(windows[1..])
  {
    hide Defect;
  }

  /** The defect-collecting loop; every defect is kept so a reviewer sees all of them at once. */
  method CollectUnresolvedReasons(mapped: seq<IssueEvidence>) returns (unresolvedReasons: seq<string>)
    ensures unresolvedReasons == Defects(mapped)
  {
    hide IsValidIsoDate;
    unresolvedReasons := [];
    for i := 0 to |mapped|
      invariant unresolvedReasons == Defects(mapped[..i])
    {
      var window := mapped[i];
      DefectsOneMore(mapped[..i], window);
      assert mapped[..i + 1] == mapped[..i] + [window];
      if window.dateFromRaw.None? {
        unresolvedReasons := unresolvedReasons + ["mapped_closure_missing_date_from"];
      } else if !IsValidIsoDate(window.dateFromRaw) {
        unresolvedReasons := unresolvedReasons + ["mapped_closure_invalid_date_from"];
      } else if window.dateToRaw.None? {
        unresolvedReasons := unresolvedReasons + ["mapped_closure_missing_date_to"];
      } else if !IsValidIsoDate(window.dateToRaw) {
        unresolvedReasons := unresolvedReasons + ["mapped_closure_invalid_date_to"];
      } else if Less(window.dateToRaw.value, window.dateFromRaw.value) {
        unresolvedReasons := unresolvedReasons + ["mapped_closure_inverted_range"];
      }
    }
    assert mapped[..|mapped|] == mapped;
  }

  // ---- What the outcome means. ----

  predicate NulFree(s: string) { NUL !in s }

  /** On codes without NUL the joined key names exactly the reviewed (code, type) pair. */
  lemma MappedMeansApprovedPair(policy: Policy, issue: IssueEvidence)
    requires NulFree(issue.issueCode) && forall m | m in policy.mappings :: NulFree(m.issueCode)
    ensures IsMapped(policy, issue) <==> Mapping(issue.issueCode, issue.issueType) in policy.mappings
  {
    forall m | m in policy.mappings && PairKey(m.issueCode, m.issueType) == PairKey(issue.issueCode, issue.issueType)
      ensures m == Mapping(issue.issueCode, issue.issueType)
    {
      PairKeySplits(m.issueCode, m.issueType, issue.issueCode, issue.issueType);
    }
  }

  lemma PairKeySplits(a: string, s: string, b: string, t: string)
    requires NulFree(a) && NulFree(b) && PairKey(a, s) == PairKey(b, t)
    ensures a == b && s == t
  {
    var k := PairKey(a, s);
    assert k[|a|] == NUL && k[|b|] == PairKey(b, t)[|b|] == NUL;
    assert forall i | 0 <= i < |a| :: k[i] == a[i];
    assert forall i | 0 <= i < |b| :: k[i] == b[i] by {
      assert forall i | 0 <= i < |b| :: PairKey(b, t)[i] == b[i];
    }
    assert |a| == |b|;
    assert a == k[..|a|] && b == PairKey(b, t)[..|b|];
    assert s == k[|a| + 1..] && t == PairKey(b, t)[|b| + 1..];
  }

  /** A window whose range can be read: two real dates, not inverted. */
  predicate Readable(w: IssueEvidence) {
    && IsValidIsoDate(w.dateFromRaw) && IsValidIsoDate(w.dateToRaw)
    && DayNumberOf(w.dateFromRaw.value) <= DayNumberOf(w.dateToRaw.value)
  }

  predicate ClosedOn(w: IssueEvidence, day: nat)
    requires Readable(w)
  {
    DayNumberOf(w.dateFromRaw.value) <= day <= DayNumberOf(w.dateToRaw.value)
  }

  lemma DefectIffUnreadable(w: IssueEvidence)
    ensures Defect(w).None? <==> Readable(w)
  {
    if IsValidIsoDate(w.dateFromRaw) && IsValidIsoDate(w.dateToRaw) {
      StringOrderIsDayOrder(w.dateToRaw.value, w.dateFromRaw.value);
    }
  }

  predicate Accounted(s: IssueSnapshot) { s.providerIssueCount == |s.issues| }

  predicate AllReadable(s: IssueSnapshot, policy: Policy) {
    forall w | w in s.issues && IsMapped(policy, w) :: Readable(w)
  }

  /**
   The three answers, over days of the calendar: `known_closed` iff every issue is accounted for,
   every mapped window is readable, and one of them contains the day; `no_known_closure` iff
   the same and none does; otherwise `unresolved`.
   */
  lemma OutcomeMeaning(
    snapshot: Option<IssueSnapshot>, policy: Policy, asOf: string,
    currentObservationId: Option<Id>, hasCurrentObservation: Option<bool>)
    requires policy.approved && IsValidIsoDate(Some(asOf))
    ensures EvaluateLifecycle(snapshot, policy, asOf, currentObservationId, hasCurrentObservation).Ok?
    ensures var e := EvaluateLifecycle(snapshot, policy, asOf, currentObservationId, hasCurrentObservation).value;
            var known := hasCurrentObservation != Some(false) && snapshot.Some? && Accounted(snapshot.value)
                         && AllReadable(snapshot.value, policy);
            && (e.outcome.Unresolved? <==> !known)
            && (e.outcome.KnownClosed? <==>
                known && exists w | w in snapshot.value.issues && IsMapped(policy, w) ::
                           ClosedOn(w, DayNumberOf(asOf)))
            && (e.activeClosureWindows != [] <==> e.outcome.KnownClosed?)
  {
    if hasCurrentObservation != Some(false) && snapshot.Some? && Accounted(snapshot.value) {
      var s := snapshot.value;
      var mapped := MappedWindows(s, policy);
      forall w | w in mapped ensures Defect(w).None? <==> Readable(w) {
        DefectIffUnreadable(w);
      }
      assert Defects(mapped) == [] <==> AllReadable(s, policy);
      if AllReadable(s, policy) {
        var active := Filter(w => Covers(w, asOf), mapped);
        forall w | w in mapped ensures Covers(w, asOf) <==> ClosedOn(w, DayNumberOf(asOf)) {
          CoversDateIsDayContainment(w.dateFromRaw.value, w.dateToRaw.value, asOf);
        }
        if active != [] {
          assert active[0] in active;
        }
      }
    }
  }

  /**
   Only the set of mapped windows matters: unmapped issues, repetitions and the order of the
   provider's list never change the outcome.
   */
  lemma OutcomeIgnoresUnmappedAndOrder(
    s: IssueSnapshot, t: IssueSnapshot, policy: Policy, asOf: string,
    current: Option<Id>, hasCurrent: Option<bool>)
    requires policy.approved && IsValidIsoDate(Some(asOf))
    requires Accounted(s) && Accounted(t)
    requires forall w: IssueEvidence | IsMapped(policy, w) :: w in s.issues <==> w in t.issues
    ensures EvaluateLifecycle(Some(s), policy, asOf, current, hasCurrent).Ok?
    ensures EvaluateLifecycle(Some(t), policy, asOf, current, hasCurrent).Ok?
    ensures EvaluateLifecycle(Some(s), policy, asOf, current, hasCurrent).value.outcome
         == EvaluateLifecycle(Some(t), policy, asOf, current, hasCurrent).value.outcome
  {
    OutcomeMeaning(Some(s), policy, asOf, current, hasCurrent);
    OutcomeMeaning(Some(t), policy, asOf, current, hasCurrent);
  }
}

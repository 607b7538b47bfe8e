/**
 A window's one defect, over the calendar (scripts/lifecycle/policy.ts).
 */
module LifecycleMeaning {
  import opened Prelude
  import opened Text
  import opened Sequences
  import opened Checklist
  import opened Dates
  import L = Lifecycle

  /** A text of the form, naming a day the calendar has. */
  predicate NamesADay(s: Option<string>) {
    s.Some? && IsoShape(s.value) && RealDate(Year(s.value), Month(s.value), Day(s.value))
  }

  /** The checks of a window, in the order its defect is reported; the last one is about the days named. */
  function WindowChecks(w: L.IssueEvidence): seq<Check<string>> {
    [Check("mapped_closure_missing_date_from", w.dateFromRaw.Some?),
     Check("mapped_closure_invalid_date_from", NamesADay(w.dateFromRaw)),
     Check("mapped_closure_missing_date_to", w.dateToRaw.Some?),
     Check("mapped_closure_invalid_date_to", NamesADay(w.dateToRaw)),
     Check("mapped_closure_inverted_range", NamesADay(w.dateFromRaw) && NamesADay(w.dateToRaw) ==>
             DayOf(w.dateFromRaw.value) <= DayOf(w.dateToRaw.value))]
  }

  function DayOf(s: string): nat
    requires NamesADay(Some(s))
  {
    DayNumber(Year(s), Month(s), Day(s))
  }

  lemma DayOfIsParsed(s: string)
    requires IsValidIsoDate(Some(s))
    ensures NamesADay(Some(s)) && DayOf(s) == DayNumberOf(s)
  {
    ValidIffRealDate(s);
  }

  lemma ValidNamesADay(s: Option<string>)
    ensures IsValidIsoDate(s) <==> NamesADay(s)
  {
    if s.Some? {
      ValidIffRealDate(s.value);
    }
  }

  /** The one defect of a window is its first broken check, and a window with none broken has no defect. */
  lemma DefectByChecks(w: L.IssueEvidence)
    ensures L.Defect(w).None? <==> AllHold(WindowChecks(w))
    ensures L.Defect(w).Some? ==> FirstBroken(WindowChecks(w), L.Defect(w).value)
  {
    ValidNamesADay(w.dateFromRaw);
    ValidNamesADay(w.dateToRaw);
    if IsValidIsoDate(w.dateFromRaw) && IsValidIsoDate(w.dateToRaw) {
      DayOfIsParsed(w.dateFromRaw.value);
      DayOfIsParsed(w.dateToRaw.value);
      StringOrderIsDayOrder(w.dateToRaw.value, w.dateFromRaw.value);
    }
    hide IsValidIsoDate, NamesADay, DayOf, DayNumberOf, Less;
    var checks := WindowChecks(w);
    if !checks[0].holds {
      assert BreaksAt(checks, 0);
    } else if !checks[1].holds {
      assert BreaksAt(checks, 1);
    } else if !checks[2].holds {
      assert BreaksAt(checks, 2);
    } else if !checks[3].holds {
      assert BreaksAt(checks, 3);
    } else if !checks[4].holds {
      assert BreaksAt(checks, 4);
    }
  }

  // ---- What an evaluation quotes. ----

  /** The window printed for an issue: its code, its type and its dates, each in its place. */
  predicate WindowQuotes(c: L.ClosureWindow, w: L.IssueEvidence) {
    && c.issueCode == w.issueCode && c.issueType == w.issueType
    && c.dateFrom == w.dateFromRaw.GetOr("") && c.dateTo == w.dateToRaw.GetOr("")
  }

  /** The issue's code and type are one of the reviewed pairs, once joined. */
  predicate Reviewed(policy: L.Policy, w: L.IssueEvidence) {
    exists m | m in policy.mappings :: m.issueCode + ['\0'] + m.issueType == w.issueCode + ['\0'] + w.issueType
  }

  /** The header of an evaluation, and the lists under it: the reviewed issues, and the windows that hold the day. */
  lemma EvaluationColumns(
    snapshot: Option<L.IssueSnapshot>, policy: L.Policy, asOf: string, current: Option<Id>, has: Option<bool>)
    requires L.EvaluateLifecycle(snapshot, policy, asOf, current, has).Ok?
    ensures var e := L.EvaluateLifecycle(snapshot, policy, asOf, current, has).value;
      && e.asOf == asOf && e.policyProvider == policy.provider && e.policyVersion == policy.version
      && e.observationId == (if current.Some? then current else if snapshot.Some? then Some(snapshot.value.observationId) else None)
      && e.snapshotId == (if snapshot.Some? then Some(snapshot.value.snapshotId) else None)
      && (forall w | w in e.mappedWindows :: snapshot.Some? && w in snapshot.value.issues && Reviewed(policy, w))
      && (snapshot.Some? && L.Accounted(snapshot.value) && has != Some(false) ==>
            forall w | w in snapshot.value.issues && Reviewed(policy, w) :: w in e.mappedWindows)
      && (forall c | c in e.activeClosureWindows ::
            exists w | w in e.mappedWindows :: WindowQuotes(c, w) && L.Covers(w, asOf))
      && (e.outcome.KnownClosed? || e.outcome.NoKnownClosure? ==>
            forall w | w in e.mappedWindows && L.Covers(w, asOf) ::
              exists c | c in e.activeClosureWindows :: WindowQuotes(c, w))
  {
    hide Reviewed, L.EvaluateLifecycle, L.Covers, WindowQuotes, ActiveOf, L.Accounted, L.MappedWindows;
    var e := L.EvaluateLifecycle(snapshot, policy, asOf, current, has).value;
    EvaluationHeader(snapshot, policy, asOf, current, has);
    EvaluationLists(snapshot, policy, asOf, current, has);
    if snapshot.Some? {
      MappedIsReviewed(policy, snapshot.value);
    }
    ActiveQuotes(e.mappedWindows, asOf);
  }

  lemma EvaluationHeader(
    snapshot: Option<L.IssueSnapshot>, policy: L.Policy, asOf: string, current: Option<Id>, has: Option<bool>)
    requires L.EvaluateLifecycle(snapshot, policy, asOf, current, has).Ok?
    ensures var e := L.EvaluateLifecycle(snapshot, policy, asOf, current, has).value;
      && e.asOf == asOf && e.policyProvider == policy.provider && e.policyVersion == policy.version
      && e.observationId == (if current.Some? then current else if snapshot.Some? then Some(snapshot.value.observationId) else None)
      && e.snapshotId == (if snapshot.Some? then Some(snapshot.value.snapshotId) else None)
  {
    hide IsValidIsoDate, L.Covers, L.Defects, L.MappedWindows;
  }

  function ActiveOf(mapped: seq<L.IssueEvidence>, asOf: string): seq<L.ClosureWindow> {
    Map(L.AsWindow, Filter(w => L.Covers(w, asOf), mapped))
  }

  lemma EvaluationLists(
    snapshot: Option<L.IssueSnapshot>, policy: L.Policy, asOf: string, current: Option<Id>, has: Option<bool>)
    requires L.EvaluateLifecycle(snapshot, policy, asOf, current, has).Ok?
    ensures var e := L.EvaluateLifecycle(snapshot, policy, asOf, current, has).value;
      && (e.mappedWindows == [] || (snapshot.Some? && e.mappedWindows == L.MappedWindows(snapshot.value, policy)))
      && (snapshot.Some? && L.Accounted(snapshot.value) && has != Some(false) ==>
            e.mappedWindows == L.MappedWindows(snapshot.value, policy))
      && e.activeClosureWindows == if e.outcome.Unresolved? then [] else ActiveOf(e.mappedWindows, asOf)
  {
    hide IsValidIsoDate, L.Covers, L.Defects, L.MappedWindows;
  }

  lemma MappedIsReviewed(policy: L.Policy, snapshot: L.IssueSnapshot)
    ensures forall w :: w in L.MappedWindows(snapshot, policy) <==> w in snapshot.issues && Reviewed(policy, w)
  {
  }

  lemma ActiveQuotes(mapped: seq<L.IssueEvidence>, asOf: string)
    ensures var active := ActiveOf(mapped, asOf);
      && (forall c | c in active :: exists w | w in mapped :: WindowQuotes(c, w) && L.Covers(w, asOf))
      && (forall w | w in mapped && L.Covers(w, asOf) :: exists c | c in active :: WindowQuotes(c, w))
  {
    hide L.Covers;
    var kept := Filter(w => L.Covers(w, asOf), mapped);
    var active := ActiveOf(mapped, asOf);
    forall c | c in active ensures exists w | w in mapped :: WindowQuotes(c, w) && L.Covers(w, asOf) {
      var k :| 0 <= k < |active| && active[k] == c;
      assert kept[k] in kept && WindowQuotes(c, kept[k]);
    }
    forall w | w in mapped && L.Covers(w, asOf) ensures exists c | c in active :: WindowQuotes(c, w) {
      assert w in kept;
      var k :| 0 <= k < |kept| && kept[k] == w;
      assert active[k] in active && WindowQuotes(active[k], w);
    }
  }
}

/**
 A swept row, column by column (scripts/entity-resolution/writer.ts), and the shape every row keeps
 (supabase/migrations/0030_entity_resolution_idempotency.sql).
 */
module SweepMeaning {
  import opened Prelude
  import opened Text
  import opened Sequences
  import opened Discovery
  import opened Sweep

  /** A row the generator itself stood down. */
  predicate StandsDown(r: Row) { r.status.Superseded? && r.supersededReason == Some("no_current_blocking_rule") }

  /** A pending row the generator created. */
  predicate MachineOpen(r: Row) { r.status.Pending? && "blocking:" <= r.matchMethod }

  /** The columns no sweep ever writes on an existing row. */
  predicate SameProvenance(r: Row, s: Row) {
    r.source == s.source && r.environment == s.environment && r.sourceRunId == s.sourceRunId && r.reviewNote == s.reviewNote
  }

  predicate Opened(r: Row, q: Prepared, o: Options) {
    && r.source == o.source && r.environment == o.environment && r.sourceRunId == o.runId
    && r.matchMethod == q.matchMethod && r.evidence == q.evidence
    && r.status.Pending? && r.supersededReason.None? && r.resolvedAt.None? && r.reviewNote.None?
  }

  /** What the sweep leaves of a pair discovery still finds. */
  predicate CurrentRow(before: Option<Row>, after: Row, q: Prepared, o: Options) {
    match before
    case None => Opened(after, q, o)
    case Some(r) =>
      if StandsDown(r) then
        && SameProvenance(r, after) && after.matchMethod == q.matchMethod && after.evidence == q.evidence
        && after.status.Pending? && after.supersededReason.None? && after.resolvedAt.None?
      else if MachineOpen(r) then
        && SameProvenance(r, after) && after.matchMethod == q.matchMethod && after.evidence == q.evidence
        && after.status.Pending? && after.supersededReason == r.supersededReason && after.resolvedAt == r.resolvedAt
      else after == r
  }

  /** What it leaves of a pair discovery no longer finds. */
  predicate LapsedRow(r: Row, after: Row, o: Options) {
    if r.source == o.source && r.environment == o.environment && MachineOpen(r) then
      && SameProvenance(r, after) && after.matchMethod == r.matchMethod && after.evidence == r.evidence
      && after.status.Superseded? && after.supersededReason == Some("no_current_blocking_rule") && after.resolvedAt == Some(o.now)
    else after == r
  }

  /** Every row of the swept table, column by column. */
  lemma SweptColumns(rows: Table, prepared: seq<Prepared>, o: Options, rows': Table)
    requires SweptTo(rows, prepared, o, rows')
    ensures forall q | q in prepared ::
      q.pair in rows' && CurrentRow(if q.pair in rows then Some(rows[q.pair]) else None, rows'[q.pair], q, o)
    ensures forall p | p in rows && (forall q | q in prepared :: q.pair != p) ::
      p in rows' && LapsedRow(rows[p], rows'[p], o)
    ensures forall p | p in rows' :: p in rows || exists q | q in prepared :: q.pair == p
  {
    forall q | q in prepared
      ensures q.pair in rows' && CurrentRow(if q.pair in rows then Some(rows[q.pair]) else None, rows'[q.pair], q, o)
    {
      assert Current(prepared, q.pair);
    }
    forall p | p in rows && (forall q | q in prepared :: q.pair != p) ensures p in rows' && LapsedRow(rows[p], rows'[p], o) {
      assert !Current(prepared, p);
    }
  }

  /** The table's shape: a machine reason only on a superseded row, and no resolution left on an open one. */
  predicate WellShaped(r: Row) {
    && (r.supersededReason.Some? ==> r.status.Superseded? && r.supersededReason == Some("no_current_blocking_rule"))
    && (r.status.Pending? ==> r.resolvedAt.None?)
  }

  lemma SweepKeepsShape(rows: Table, prepared: seq<Prepared>, o: Options, rows': Table)
    requires SweptTo(rows, prepared, o, rows') && forall p | p in rows :: WellShaped(rows[p])
    ensures forall p | p in rows' :: WellShaped(rows'[p])
  {
    hide SweptTo;
    SweptColumns(rows, prepared, o, rows');
    forall p | p in rows' ensures WellShaped(rows'[p]) {
      if q :| q in prepared && q.pair == p {
        assert CurrentRow(if q.pair in rows then Some(rows[q.pair]) else None, rows'[q.pair], q, o);
      } else {
        assert LapsedRow(rows[p], rows'[p], o);
      }
    }
  }

  // ---- The counters. ----

  predicate Opens(rows: Table, q: Prepared) { q.pair !in rows }
  predicate Reopens(rows: Table, q: Prepared) { q.pair in rows && StandsDown(rows[q.pair]) }

  predicate Refreshes(rows: Table, q: Prepared) {
    && q.pair in rows && MachineOpen(rows[q.pair])
    && (rows[q.pair].matchMethod != q.matchMethod || rows[q.pair].evidence != q.evidence)
  }

  /** Settled by a person, in whatever way. */
  predicate SkipsDecided(rows: Table, q: Prepared) {
    q.pair in rows && !rows[q.pair].status.Pending? && !StandsDown(rows[q.pair])
  }

  /** Somebody's own open row. */
  predicate SkipsManual(rows: Table, q: Prepared) { q.pair in rows && rows[q.pair].status.Pending? && !MachineOpen(rows[q.pair]) }

  function HowMany(prepared: seq<Prepared>, holds: Prepared -> bool): nat {
    if prepared == [] then 0
    else HowMany(prepared[..|prepared| - 1], holds) + if holds(prepared[|prepared| - 1]) then 1 else 0
  }

  /** Each counter is the number of pairs it names, and a pair raises at most one of them. */
  lemma {:induction false} CountersCount(rows: Table, prepared: seq<Prepared>)
    ensures var c := TallyAll(rows, prepared);
      && c.created == HowMany(prepared, q => Opens(rows, q)) && c.reactivated == HowMany(prepared, q => Reopens(rows, q))
      && c.evidenceUpdated == HowMany(prepared, q => Refreshes(rows, q))
      && c.decidedSkipped == HowMany(prepared, q => SkipsDecided(rows, q))
      && c.manualSkipped == HowMany(prepared, q => SkipsManual(rows, q)) && c.superseded == 0
  {
    if prepared != [] {
      CountersCount(rows, prepared[..|prepared| - 1]);
      CounterStep(rows, prepared[|prepared| - 1], TallyAll(rows, prepared[..|prepared| - 1]));
      hide Tally, Opens, Reopens, Refreshes, SkipsDecided, SkipsManual;
    }
  }

  lemma CounterStep(rows: Table, q: Prepared, c: Counts)
    ensures Tally(rows, q, c) == Counts(
      c.created + (if Opens(rows, q) then 1 else 0), c.evidenceUpdated + (if Refreshes(rows, q) then 1 else 0),
      c.decidedSkipped + (if SkipsDecided(rows, q) then 1 else 0), c.manualSkipped + (if SkipsManual(rows, q) then 1 else 0),
      c.superseded, c.reactivated + (if Reopens(rows, q) then 1 else 0))
  {
  }

  /** What the loop prepares of each discovered pair: its two ids, the method its reasons name, and the comparison of the two. */
  lemma PreparedColumns(pairs: seq<CandidatePair>, compare: (Id, Id) -> PairEvidence)
    ensures var prepared := PreparedFrom(pairs, compare);
      && |prepared| == |pairs|
      && forall k | 0 <= k < |pairs| ::
           && prepared[k].pair == (pairs[k].leftIdentityId, pairs[k].rightIdentityId)
           && prepared[k].matchMethod == MatchMethodFor(pairs[k].reasons)
           && prepared[k].evidence == compare(pairs[k].leftIdentityId, pairs[k].rightIdentityId)
  {
    hide MatchMethodFor;
  }

  /** The sync gate compares pairs whichever way round they are written. */
  lemma PairTextIsUnordered(a: Id, b: Id)
    ensures PairText(PairRef(a, b)) == PairText(PairRef(b, a))
  {
    LessTotal(a, b);
    if Less(a, b) { LessAsymmetric(a, b); }
    if Less(b, a) { LessAsymmetric(b, a); }
  }

  // ---- The method name lists the reasons, in alphabetical order, behind the machine prefix. ----

  lemma NamesInOrder()
    ensures Less("exact_domain", "exact_name_in_destination") && Less("exact_name_in_destination", "exact_phone")
    ensures Less("exact_domain", "exact_phone")
    ensures !Less("exact_name_in_destination", "exact_domain") && !Less("exact_phone", "exact_name_in_destination")
    ensures !Less("exact_phone", "exact_domain")
  {
    hide Less;
    DifferAt("exact_domain", "exact_name_in_destination", 6);
    DifferAt("exact_name_in_destination", "exact_phone", 6);
    DifferAt("exact_domain", "exact_phone", 6);
    LessAsymmetric("exact_domain", "exact_name_in_destination");
    LessAsymmetric("exact_name_in_destination", "exact_phone");
    LessAsymmetric("exact_domain", "exact_phone");
  }

  lemma {:induction false} DifferAt(a: string, b: string, i: nat)
    requires i < |a| && i < |b| && (forall k | 0 <= k < i :: a[k] == b[k]) && a[i] < b[i]
    ensures Less(a, b)
  {
    if i > 0 {
      DifferAt(a[1..], b[1..], i - 1);
    }
  }

  lemma SortOne(a: string)
    ensures SortBy(Self, [a]) == [a]
  {
  }

  lemma SortTwo(a: string, b: string)
    requires Less(a, b) && !Less(b, a)
    ensures SortBy(Self, [a, b]) == [a, b] && SortBy(Self, [b, a]) == [a, b]
  {
    hide Less;
    SortOne(a);
    SortOne(b);
    assert [a, b][1..] == [b] && [b, a][1..] == [a];
  }

  lemma SortThree(a: string, b: string, c: string)
    requires Less(a, b) && Less(b, c) && Less(a, c) && !Less(b, a) && !Less(c, b) && !Less(c, a)
    ensures SortBy(Self, [a, c, b]) == [a, b, c]
  {
    hide Less;
    SortTwo(b, c);
    assert [a, c, b][1..] == [c, b];
  }

  lemma Joined(a: string, b: string, c: string)
    ensures JoinPlus([a]) == a && JoinPlus([a, b]) == a + "+" + b && JoinPlus([a, b, c]) == a + "+" + b + "+" + c
  {
    assert [a, b][1..] == [b] && [a, b, c][1..] == [b, c];
    assert JoinPlus([b, c]) == b + "+" + c by { assert [b, c][1..] == [c]; }
  }

  lemma MethodNames()
    ensures MatchMethodFor([ExactDomain]) == "blocking:" + "exact_domain"
    ensures MatchMethodFor([ExactPhone]) == "blocking:" + "exact_phone"
    ensures MatchMethodFor([ExactNameInDestination]) == "blocking:" + "exact_name_in_destination"
    ensures MatchMethodFor([ExactDomain, ExactPhone]) == "blocking:" + ("exact_domain" + "+" + "exact_phone")
    ensures MatchMethodFor([ExactDomain, ExactNameInDestination])
         == "blocking:" + ("exact_domain" + "+" + "exact_name_in_destination")
    ensures MatchMethodFor([ExactPhone, ExactNameInDestination])
         == "blocking:" + ("exact_name_in_destination" + "+" + "exact_phone")
    ensures MatchMethodFor([ExactDomain, ExactPhone, ExactNameInDestination])
         == "blocking:" + ("exact_domain" + "+" + "exact_name_in_destination" + "+" + "exact_phone")
  {
    hide Less, SortBy, JoinPlus;
    NamesInOrder();
    var d, n, p := "exact_domain", "exact_name_in_destination", "exact_phone";
    SortOne(d);
    SortOne(n);
    SortOne(p);
    SortTwo(d, n);
    SortTwo(d, p);
    SortTwo(n, p);
    SortThree(d, n, p);
    Joined(d, n, p);
    Joined(d, p, n);
    Joined(n, p, d);
    Joined(p, d, n);
    assert Map(ReasonText, [ExactDomain]) == [d] && Map(ReasonText, [ExactPhone]) == [p];
    assert Map(ReasonText, [ExactNameInDestination]) == [n] && Map(ReasonText, [ExactDomain, ExactPhone]) == [d, p];
    assert Map(ReasonText, [ExactDomain, ExactNameInDestination]) == [d, n];
    assert Map(ReasonText, [ExactPhone, ExactNameInDestination]) == [p, n];
    assert Map(ReasonText, [ExactDomain, ExactPhone, ExactNameInDestination]) == [d, p, n];
  }
}

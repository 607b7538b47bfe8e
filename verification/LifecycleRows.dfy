/**
 The rows issue evidence is bound to and written as, column by column (scripts/lifecycle/store.ts).
 */
module LifecycleRows {
  import opened Prelude
  import opened Sequences
  import opened IssueExtraction
  import opened LifecycleStore
  import opened LifecycleWriter
  import L = Lifecycle

  /** One observation joined with its identity, in the source and environment of the batch. */
  datatype Observed = Observed(
    sourceRunId: Id, sourcePropertyId: string, payloadDigest: Option<string>, identityId: Id, observationId: Id)

  /** `new Map(rows)`: keyed by run, provider id and digest, the last row standing; a row without a digest is not read. */
  function TargetsOf(rows: seq<Observed>): map<Provenance, Target> {
    if rows == [] then map[]
    else
      var earlier, row := TargetsOf(rows[..|rows| - 1]), rows[|rows| - 1];
      if row.payloadDigest.None? then earlier
      else earlier[(row.sourceRunId, row.sourcePropertyId, row.payloadDigest.value) := Target(row.identityId, row.observationId)]
  }

  function LookupOf(rows: seq<Observed>, identities: set<string>): Lookup { Lookup(TargetsOf(rows), identities) }

  /** One observation per run and identity, and one identity per provider id. */
  predicate OneRowPerRun(rows: seq<Observed>) {
    forall a, b | 0 <= a < b < |rows| ::
      rows[a].sourceRunId != rows[b].sourceRunId || rows[a].sourcePropertyId != rows[b].sourcePropertyId
  }

  /** The row a record was ingested as: same run, same provider id, same whole-record digest. */
  predicate IngestedAs(s: Snapshot, row: Observed) {
    && s.sourceRunId == row.sourceRunId && s.sourcePropertyId == row.sourcePropertyId
    && row.payloadDigest == Some(s.wholeRecordPayloadDigest)
  }

  lemma {:induction false} TargetsMeaning(rows: seq<Observed>, s: Snapshot)
    requires OneRowPerRun(rows)
    ensures ProvenanceKey(s) in TargetsOf(rows) <==> exists row | row in rows :: IngestedAs(s, row)
    ensures forall row | row in rows && IngestedAs(s, row) ::
      ProvenanceKey(s) in TargetsOf(rows) && TargetsOf(rows)[ProvenanceKey(s)] == Target(row.identityId, row.observationId)
  {
    if rows != [] {
      var n := |rows| - 1;
      TargetsMeaning(rows[..n], s);
      assert rows == rows[..n] + [rows[n]];
      forall row | row in rows[..n] && IngestedAs(s, row) ensures !IngestedAs(s, rows[n]) {
        var a :| 0 <= a < n && rows[a] == row;
      }
      LastTarget(rows, s);
      hide IngestedAs, ProvenanceKey;
      if ProvenanceKey(s) in TargetsOf(rows) {
        if IngestedAs(s, rows[n]) {
          assert rows[n] in rows;
        } else {
          var row :| row in rows[..n] && IngestedAs(s, row);
          assert row in rows;
        }
      }
    }
  }

  lemma LastTarget(rows: seq<Observed>, s: Snapshot)
    requires rows != []
    ensures var n := |rows| - 1;
      if IngestedAs(s, rows[n]) then
        && ProvenanceKey(s) in TargetsOf(rows)
        && TargetsOf(rows)[ProvenanceKey(s)] == Target(rows[n].identityId, rows[n].observationId)
      else
        && (ProvenanceKey(s) in TargetsOf(rows) <==> ProvenanceKey(s) in TargetsOf(rows[..n]))
        && (ProvenanceKey(s) in TargetsOf(rows[..n]) ==>
              TargetsOf(rows)[ProvenanceKey(s)] == TargetsOf(rows[..n])[ProvenanceKey(s)])
  {
  }

  /**
   A record binds to the observation its own run ingested from it, whatever else carries the same content; a record
   no row was ingested from is reported, apart according to whether the property exists here at all.
   */
  lemma BoundToItsOwnRun(rows: seq<Observed>, identities: set<string>, snapshots: seq<Snapshot>, s: Snapshot)
    requires OneRowPerRun(rows) && s in snapshots
    ensures var lookup := LookupOf(rows, identities);
      && (forall row | row in rows && IngestedAs(s, row) ::
            Item(s, Target(row.identityId, row.observationId)) in Matched(lookup, snapshots))
      && ((forall row | row in rows :: !IngestedAs(s, row)) ==>
            exists m | m in Mismatches(lookup, snapshots) ::
              m.snapshot == s && (m.reason.NoIngestedProperty? <==> s.sourcePropertyId !in identities))
  {
    hide ProvenanceKey, Matched, Mismatches;
    TargetsMeaning(rows, s);
    MatchedOrReported(LookupOf(rows, identities), snapshots);
  }

  // ---- What is written, and what the evaluator reads back. ----

  /** The window an issue row is read as: every column but the description, each in its place. */
  predicate WindowOf(w: L.IssueEvidence, i: Issue) {
    && w.issueCode == i.issueCode && w.issueType == i.issueType && w.dateFromRaw == i.dateFromRaw
    && w.dateToRaw == i.dateToRaw && w.providerOrder == i.providerOrder && w.alternative == i.alternative
  }

  /** The snapshot row names its observation's identity, the batch's namespace and the record it was extracted from. */
  predicate RowQuotes(row: SnapshotRow, opts: Options, i: Item) {
    && row.identityId == i.target.identityId && row.source == opts.source && row.environment == opts.environment
    && row.sourceRunId == i.snapshot.sourceRunId && row.providerIssueCount == i.snapshot.providerIssueCount
    && row.payloadDigest == i.snapshot.wholeRecordPayloadDigest
  }

  /** What the evaluator is handed for an observation: its snapshot's count, and a window for each stored row. */
  predicate EvidenceQuotes(e: L.IssueSnapshot, o: Id, row: SnapshotRow, issues: seq<Issue>) {
    && e.observationId == o && e.providerIssueCount == row.providerIssueCount && |e.issues| == |issues|
    && forall k | 0 <= k < |e.issues| :: WindowOf(e.issues[k], issues[k])
  }

  lemma RowIsQuoted(opts: Options, i: Item)
    ensures RowQuotes(RowOf(opts, i), opts, i)
  {
  }

  lemma EvidenceIsQuoted(t: Tables, o: Id)
    requires o in t.snapshots && o in t.issues
    ensures EvidenceQuotes(ReadBack(t, o), o, t.snapshots[o], t.issues[o])
  {
  }

  /** The snapshot row of a plan item that was missing, and the evidence the evaluator is handed for it. */
  lemma StoredColumns(t: Tables, opts: Options, plan: seq<Item>, i: Item)
    requires OnePerObservation(plan) && t.issues.Keys == t.snapshots.Keys && i in plan && Missing(t, i)
    ensures var t', o := InsertAll(t, opts, plan), i.target.observationId;
      && o in t'.snapshots && o in t'.issues && RowQuotes(t'.snapshots[o], opts, i)
      && (forall r | r in t'.issues[o] :: r in i.snapshot.issues)
      && EvidenceQuotes(ReadBack(t', o), o, t'.snapshots[o], t'.issues[o])
  {
    hide IssueRows, InsertAll, OnePerObservation, RowOf, RowQuotes, EvidenceQuotes, ReadBack;
    InsertAllMeaning(t, opts, plan);
    assert Targets(plan, i.target.observationId);
    RowIsQuoted(opts, i);
    RowsAreIssues(i.snapshot.issues);
    EvidenceIsQuoted(InsertAll(t, opts, plan), i.target.observationId);
  }
}

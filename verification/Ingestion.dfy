/**
 The provider ingestion writer (scripts/provider-ingestion/writer.ts): one run, its identities and its
 append-only observations, written chunk by chunk inside one transaction. The environment is a
 constant of the module, so an identity is keyed by source and provider id.
 */
module Ingestion {
  import opened Prelude
  import opened Sequences

  const SOURCE_ATTRIBUTES_SOFT_LIMIT_BYTES := 4096

  type Key = (string, string)

  datatype Identity = Identity(
    sourceUrl: Option<string>, firstSeenRunId: Id, lastSeenRunId: Id, firstSeenAt: int, lastSeenAt: int,
    observationCount: nat)

  /** `payload` stands for the observation's columns, `attributeBytes` for the serialised size of its attributes. */
  datatype ObservationInput = ObservationInput(
    sourcePropertyId: string, sourceUrl: Option<string>, payload: string, attributeBytes: Option<nat>)

  datatype RunInput = RunInput(id: Id, source: string, observedAt: int)
  datatype Batch = Batch(run: RunInput, observations: seq<ObservationInput>)

  /** `runs` maps a run to its `started_at`; observations are unique per (run, identity). */
  datatype Store = Store(
    runs: map<Id, int>, identities: map<Key, Identity>, observations: map<(Id, Key), string>)

  datatype Counts = Counts(
    runsCreated: nat, runsExisting: nat, identitiesCreated: nat, identitiesExisting: nat,
    observationsCreated: nat, observationsExisting: nat, observationCountIncrements: nat, lastSeenAdvanced: nat)

  datatype WriteError = AttributesTooLarge(sourcePropertyId: string) | RowAffectedTwice

  function KeyOf(run: RunInput, o: ObservationInput): Key { (run.source, o.sourcePropertyId) }

  function Keys(run: RunInput, obs: seq<ObservationInput>): set<Key> { set o | o in obs :: KeyOf(run, o) }

  predicate UniqueIds(obs: seq<ObservationInput>) {
    forall a, b | 0 <= a < b < |obs| :: obs[a].sourcePropertyId != obs[b].sourcePropertyId
  }

  // ---- The five statements, row by row. ----

  function RunsAfter(runs: map<Id, int>, run: RunInput): map<Id, int> {
    if run.id in runs then runs else runs[run.id := run.observedAt]
  }

  function Coalesce(a: Option<string>, b: Option<string>): Option<string> { if a.Some? then a else b }

  function UpsertOne(ids: map<Key, Identity>, run: RunInput, o: ObservationInput): map<Key, Identity> {
    var k := KeyOf(run, o);
    if k in ids then ids[k := ids[k].(sourceUrl := Coalesce(ids[k].sourceUrl, o.sourceUrl))]
    else ids[k := Identity(o.sourceUrl, run.id, run.id, run.observedAt, run.observedAt, 0)]
  }

  function Upserts(ids: map<Key, Identity>, run: RunInput, obs: seq<ObservationInput>): map<Key, Identity> {
    if obs == [] then ids else UpsertOne(Upserts(ids, run, obs[..|obs| - 1]), run, obs[|obs| - 1])
  }

  function Observes(rows: map<(Id, Key), string>, run: RunInput, obs: seq<ObservationInput>)
    : (map<(Id, Key), string>, seq<Key>)
  {
    if obs == [] then (rows, [])
    else
      var (before, inserted) := Observes(rows, run, obs[..|obs| - 1]);
      var o := obs[|obs| - 1];
      var k := KeyOf(run, o);
      if (run.id, k) in before then (before, inserted) else (before[(run.id, k) := o.payload], inserted + [k])
  }

  function Bump(ids: map<Key, Identity>, inserted: seq<Key>): map<Key, Identity> {
    map k | k in ids :: if k in inserted then ids[k].(observationCount := ids[k].observationCount + 1) else ids[k]
  }

  /** Strictly newer only: a replay or an older cached run never moves the pointer. */
  predicate Newer(runs: map<Id, int>, run: RunInput, i: Identity) {
    && i.lastSeenRunId != run.id && run.id in runs && i.lastSeenRunId in runs && runs[run.id] > runs[i.lastSeenRunId]
  }

  function Advance(runs: map<Id, int>, ids: map<Key, Identity>, run: RunInput, inserted: seq<Key>): map<Key, Identity> {
    map k | k in ids ::
      if k in inserted && Newer(runs, run, ids[k]) then ids[k].(lastSeenRunId := run.id, lastSeenAt := run.observedAt)
      else ids[k]
  }

  function Ingest(s: Store, b: Batch): Store {
    var runs := RunsAfter(s.runs, b.run);
    var upserted := Upserts(s.identities, b.run, b.observations);
    var (rows, inserted) := Observes(s.observations, b.run, b.observations);
    Store(runs, Advance(runs, Bump(upserted, inserted), b.run, inserted), rows)
  }

  function IngestCounts(s: Store, b: Batch): Counts {
    var inserted := Observes(s.observations, b.run, b.observations).1;
    var bumped := Bump(Upserts(s.identities, b.run, b.observations), inserted);
    var runs := RunsAfter(s.runs, b.run);
    var keys := Keys(b.run, b.observations);
    InsertedAtMost(s, b);
    Counts(if b.run.id in s.runs then 0 else 1, if b.run.id in s.runs then 1 else 0,
           |keys - s.identities.Keys|, |keys| - |keys - s.identities.Keys|,
           |inserted|, |b.observations| - |inserted|, |inserted|,
           |set k | k in inserted && k in bumped && Newer(runs, b.run, bumped[k])|)
  }

  lemma {:induction false} ObservesAtMost(rows: map<(Id, Key), string>, run: RunInput, obs: seq<ObservationInput>)
    ensures |Observes(rows, run, obs).1| <= |obs|
  {
    if obs != [] {
      ObservesAtMost(rows, run, obs[..|obs| - 1]);
    }
  }

  lemma InsertedAtMost(s: Store, b: Batch)
    ensures |Observes(s.observations, b.run, b.observations).1| <= |b.observations|
    ensures |Keys(b.run, b.observations) - s.identities.Keys| <= |Keys(b.run, b.observations)|
  {
    ObservesAtMost(s.observations, b.run, b.observations);
    var keys := Keys(b.run, b.observations);
    assert keys == (keys - s.identities.Keys) + (keys * s.identities.Keys);
  }

  // ---- What the statements mean, key by key. ----

  lemma SplitLast(run: RunInput, obs: seq<ObservationInput>)
    requires obs != []
    ensures Keys(run, obs) == Keys(run, obs[..|obs| - 1]) + {KeyOf(run, obs[|obs| - 1])}
  {
    assert obs == obs[..|obs| - 1] + [obs[|obs| - 1]];
  }

  /** The url a key ends up with: the first one ever supplied wins. */
  function UrlAfter(url: Option<string>, run: RunInput, obs: seq<ObservationInput>, k: Key): Option<string> {
    if obs == [] then url
    else
      var before := UrlAfter(url, run, obs[..|obs| - 1], k);
      if KeyOf(run, obs[|obs| - 1]) == k then Coalesce(before, obs[|obs| - 1].sourceUrl) else before
  }

  function FreshIdentity(run: RunInput, url: Option<string>): Identity {
    Identity(url, run.id, run.id, run.observedAt, run.observedAt, 0)
  }

  lemma {:induction false} UpsertFacts(ids: map<Key, Identity>, run: RunInput, obs: seq<ObservationInput>)
    ensures Upserts(ids, run, obs).Keys == ids.Keys + Keys(run, obs)
    ensures forall k | k in ids :: Upserts(ids, run, obs)[k] == ids[k].(sourceUrl := UrlAfter(ids[k].sourceUrl, run, obs, k))
    ensures forall k | k in Keys(run, obs) && k !in ids ::
              Upserts(ids, run, obs)[k] == FreshIdentity(run, UrlAfter(None, run, obs, k))
  {
    if obs != [] {
      UpsertFacts(ids, run, obs[..|obs| - 1]);
      SplitLast(run, obs);
      UntouchedUrl(run, obs[..|obs| - 1], KeyOf(run, obs[|obs| - 1]));
    }
  }

  lemma {:induction false} UntouchedUrl(run: RunInput, obs: seq<ObservationInput>, k: Key)
    ensures k !in Keys(run, obs) ==> UrlAfter(None, run, obs, k) == None
  {
    if obs != [] {
      SplitLast(run, obs);
      UntouchedUrl(run, obs[..|obs| - 1], k);
    }
  }

  lemma {:induction false} ObserveFacts(rows: map<(Id, Key), string>, run: RunInput, obs: seq<ObservationInput>)
    ensures var (rows', inserted) := Observes(rows, run, obs);
      && (forall r, k :: (r, k) in rows' <==> (r, k) in rows || (r == run.id && k in Keys(run, obs)))
      && (forall x | x in rows :: x in rows' && rows'[x] == rows[x])
      && NoRepeats(inserted) && (forall k :: k in inserted <==> k in Keys(run, obs) && (run.id, k) !in rows)
  {
    if obs != [] {
      ObserveFacts(rows, run, obs[..|obs| - 1]);
      SplitLast(run, obs);
    }
  }

  // ---- The invariant. ----

  function RunsOf(s: Store, k: Key): set<Id> { set r | r in s.runs && (r, k) in s.observations }

  /** The identity's counters agree with its observation rows. */
  predicate IdentityAgrees(s: Store, k: Key)
    requires k in s.identities
  {
    var i := s.identities[k];
    && i.observationCount == |RunsOf(s, k)|
    && i.lastSeenRunId in RunsOf(s, k) && i.firstSeenRunId in RunsOf(s, k)
    && forall r | r in RunsOf(s, k) :: s.runs[r] <= s.runs[i.lastSeenRunId]
  }

  ghost predicate Agrees(s: Store) {
    && (forall r, k | (r, k) in s.observations :: r in s.runs && k in s.identities)
    && (forall k | k in s.identities :: IdentityAgrees(s, k))
  }

  lemma IngestKeys(s: Store, b: Batch)
    ensures Ingest(s, b).identities.Keys == s.identities.Keys + Keys(b.run, b.observations)
    ensures forall r, k :: (r, k) in Ingest(s, b).observations <==>
              (r, k) in s.observations || (r == b.run.id && k in Keys(b.run, b.observations))
    ensures forall x | x in s.observations :: x in Ingest(s, b).observations && Ingest(s, b).observations[x] == s.observations[x]
    ensures forall r | r in s.runs :: r in Ingest(s, b).runs && Ingest(s, b).runs[r] == s.runs[r]
    ensures Ingest(s, b).runs.Keys == s.runs.Keys + {b.run.id}
  {
    UpsertFacts(s.identities, b.run, b.observations);
    ObserveFacts(s.observations, b.run, b.observations);
  }

  /** The identity a key ends up with, from the one it had (or a fresh one). */
  lemma IngestAt(s: Store, b: Batch, k: Key)
    requires k in Ingest(s, b).identities
    ensures var observed := k in Keys(b.run, b.observations) && (b.run.id, k) !in s.observations;
            var base := if k in s.identities then s.identities[k] else FreshIdentity(b.run, None);
            var runs := RunsAfter(s.runs, b.run);
            var bumped := if observed then base.(observationCount := base.observationCount + 1) else base;
            Ingest(s, b).identities[k].(sourceUrl := None) ==
              (if observed && Newer(runs, b.run, base) then bumped.(lastSeenRunId := b.run.id, lastSeenAt := b.run.observedAt)
               else bumped).(sourceUrl := None)
  {
    hide Observes, Upserts, Keys;
    IngestKeys(s, b);
    UpsertFacts(s.identities, b.run, b.observations);
    ObserveFacts(s.observations, b.run, b.observations);
  }

  lemma RunsOfAfter(s: Store, b: Batch, k: Key)
    requires Agrees(s)
    ensures RunsOf(Ingest(s, b), k) == RunsOf(s, k) + if k in Keys(b.run, b.observations) then {b.run.id} else {}
    ensures b.run.id in RunsOf(s, k) <==> (b.run.id, k) in s.observations
  {
    hide Ingest, Keys, IdentityAgrees;
    IngestKeys(s, b);
  }

  lemma IdentityAgreesAfter(s: Store, b: Batch, k: Key)
    requires Agrees(s) && k in Ingest(s, b).identities
    ensures IdentityAgrees(Ingest(s, b), k)
  {
    if k in s.identities {
      KnownIdentityAgrees(s, b, k);
    } else {
      FreshIdentityAgrees(s, b, k);
    }
  }

  lemma FreshIdentityAgrees(s: Store, b: Batch, k: Key)
    requires Agrees(s) && k in Ingest(s, b).identities && k !in s.identities
    ensures IdentityAgrees(Ingest(s, b), k)
  {
    hide Ingest, Keys, RunsOf, Observes, Upserts, Newer;
    IngestKeys(s, b);
    IngestAt(s, b, k);
    RunsOfAfter(s, b, k);
    NoIdentityNoRuns(s, k);
    RunsKnown(Ingest(s, b), k);
    assert RunsOf(Ingest(s, b), k) == {b.run.id};
  }

  lemma KnownIdentityAgrees(s: Store, b: Batch, k: Key)
    requires Agrees(s) && k in Ingest(s, b).identities && k in s.identities
    ensures IdentityAgrees(Ingest(s, b), k)
  {
    hide Ingest, Keys, RunsOf, Observes, Upserts, Newer, RunsAfter;
    IngestKeys(s, b);
    IngestAt(s, b, k);
    RunsOfAfter(s, b, k);
    assert IdentityAgrees(s, k);
    RunsKnown(s, k);
    RunsKnown(Ingest(s, b), k);
    NewerMeaning(RunsAfter(s.runs, b.run), b.run, s.identities[k]);
    RunsAfterIs(s, b);
    var before, after := RunsOf(s, k), RunsOf(Ingest(s, b), k);
    if k in Keys(b.run, b.observations) && (b.run.id, k) !in s.observations {
      assert |after| == |before| + 1;
    } else {
      assert after == before;
    }
  }

  lemma RunsAfterIs(s: Store, b: Batch)
    ensures Ingest(s, b).runs == RunsAfter(s.runs, b.run)
  {
  }

  lemma RunsKnown(s: Store, k: Key)
    ensures forall r | r in RunsOf(s, k) :: r in s.runs
  {
  }

  lemma NoIdentityNoRuns(s: Store, k: Key)
    requires Agrees(s) && k !in s.identities
    ensures RunsOf(s, k) == {}
  {
    hide IdentityAgrees;
  }

  lemma NewerMeaning(runs: map<Id, int>, run: RunInput, i: Identity)
    ensures Newer(runs, run, i) <==> i.lastSeenRunId != run.id && run.id in runs && i.lastSeenRunId in runs && runs[run.id] > runs[i.lastSeenRunId]
  {
  }

  /** Every batch, replays and overlaps included, keeps the counters and the pointer in agreement. */
  lemma IngestKeepsAgreement(s: Store, b: Batch)
    requires Agrees(s)
    ensures Agrees(Ingest(s, b))
    ensures forall k | k in s.identities ::
              k in Ingest(s, b).identities && Ingest(s, b).identities[k].firstSeenRunId == s.identities[k].firstSeenRunId
              && Ingest(s, b).identities[k].firstSeenAt == s.identities[k].firstSeenAt
  {
    hide Ingest, Keys, IdentityAgrees;
    IngestKeys(s, b);
    forall k | k in Ingest(s, b).identities ensures IdentityAgrees(Ingest(s, b), k) {
      IdentityAgreesAfter(s, b, k);
    }
    forall k | k in s.identities
      ensures Ingest(s, b).identities[k].firstSeenRunId == s.identities[k].firstSeenRunId
      ensures Ingest(s, b).identities[k].firstSeenAt == s.identities[k].firstSeenAt
    {
      IngestAt(s, b, k);
    }
  }

  function IngestAll(s: Store, batches: seq<Batch>): Store {
    if batches == [] then s else Ingest(IngestAll(s, batches[..|batches| - 1]), batches[|batches| - 1])
  }

  const EMPTY := Store(map[], map[], map[])

  /** Over any sequence of batches from an empty store. */
  lemma {:induction false} LedgerAgrees(batches: seq<Batch>)
    ensures Agrees(IngestAll(EMPTY, batches))
  {
    hide Ingest;
    if batches == [] {
      assert Agrees(EMPTY);
    } else {
      LedgerAgrees(batches[..|batches| - 1]);
      IngestKeepsAgreement(IngestAll(EMPTY, batches[..|batches| - 1]), batches[|batches| - 1]);
    }
  }

  // ---- Replay. ----

  lemma {:induction false} UrlSettles(url: Option<string>, run: RunInput, obs: seq<ObservationInput>, all: seq<ObservationInput>, k: Key)
    requires forall o | o in obs :: o in all
    requires forall o | o in all && KeyOf(run, o) == k :: url.Some? || o.sourceUrl.None?
    ensures UrlAfter(url, run, obs, k) == url
  {
    if obs != [] {
      assert obs[|obs| - 1] in obs;
      UrlSettles(url, run, obs[..|obs| - 1], all, k);
    }
  }

  lemma {:induction false} UrlComplete(url: Option<string>, run: RunInput, obs: seq<ObservationInput>, k: Key)
    ensures forall o | o in obs && KeyOf(run, o) == k :: UrlAfter(url, run, obs, k).Some? || o.sourceUrl.None?
  {
    if obs != [] {
      UrlComplete(url, run, obs[..|obs| - 1], k);
      assert obs == obs[..|obs| - 1] + [obs[|obs| - 1]];
    }
  }

  lemma UrlReplays(url: Option<string>, run: RunInput, obs: seq<ObservationInput>, k: Key)
    ensures UrlAfter(UrlAfter(url, run, obs, k), run, obs, k) == UrlAfter(url, run, obs, k)
  {
    UrlComplete(url, run, obs, k);
    UrlSettles(UrlAfter(url, run, obs, k), run, obs, obs, k);
  }

  lemma IngestUrl(s: Store, b: Batch, k: Key)
    requires k in Ingest(s, b).identities
    ensures Ingest(s, b).identities[k].sourceUrl
         == UrlAfter(if k in s.identities then s.identities[k].sourceUrl else None, b.run, b.observations, k)
  {
    hide Observes, Upserts, Keys;
    IngestKeys(s, b);
    UpsertFacts(s.identities, b.run, b.observations);
    UntouchedUrl(b.run, b.observations, k);
  }

  /** Replaying a batch is the identity on the whole store and inserts no observation. */
  lemma ReplayWritesNothing(s: Store, b: Batch)
    ensures Ingest(Ingest(s, b), b) == Ingest(s, b)
    ensures Observes(Ingest(s, b).observations, b.run, b.observations) == (Ingest(s, b).observations, [])
  {
    hide Ingest, Keys, UrlAfter;
    var s1, s2 := Ingest(s, b), Ingest(Ingest(s, b), b);
    IngestKeys(s, b);
    IngestKeys(s1, b);
    ObserveFacts(s1.observations, b.run, b.observations);
    NothingInserted(s1, b);
    forall k | k in s1.identities ensures s2.identities[k] == s1.identities[k] {
      IngestAt(s1, b, k);
      IngestUrl(s, b, k);
      IngestUrl(s1, b, k);
      UrlReplays(if k in s.identities then s.identities[k].sourceUrl else None, b.run, b.observations, k);
      assert s2.identities[k].(sourceUrl := None) == s1.identities[k].(sourceUrl := None);
    }
    assert s2.identities == s1.identities;
    IngestObserves(s1, b);
    RunsAfterIs(s, b);
    RunsAfterIs(s1, b);
  }

  lemma IngestObserves(s: Store, b: Batch)
    ensures Ingest(s, b).observations == Observes(s.observations, b.run, b.observations).0
  {
  }

  lemma NothingInserted(s: Store, b: Batch)
    requires forall k | k in Keys(b.run, b.observations) :: (b.run.id, k) in s.observations
    ensures Observes(s.observations, b.run, b.observations) == (s.observations, [])
  {
    NoneInserted(s.observations, b.run, b.observations);
  }

  lemma {:induction false} NoneInserted(rows: map<(Id, Key), string>, run: RunInput, obs: seq<ObservationInput>)
    requires forall k | k in Keys(run, obs) :: (run.id, k) in rows
    ensures Observes(rows, run, obs) == (rows, [])
  {
    if obs != [] {
      SplitLast(run, obs);
      NoneInserted(rows, run, obs[..|obs| - 1]);
    }
  }
}

/**
 The writer itself: `applyIngestion` and `previewIngestion` over mutable tables. Each table statement
 takes one chunk; the chunk size appears in no result.
 */
module IngestionWriter {
  import opened Prelude
  import opened Sequences
  import opened Ingestion

  // ---- Chunking. ----

  function Chunks<T>(items: seq<T>, size: nat): (parts: seq<seq<T>>)
    requires size > 0
    ensures forall part | part in parts :: 0 < |part| <= size
  {
    if items == [] then []
    else if |items| <= size then [items]
    else [items[..size]] + Chunks(items[size..], size)
  }

  function Flatten<T>(parts: seq<seq<T>>): seq<T> {
    if parts == [] then [] else Flatten(parts[..|parts| - 1]) + parts[|parts| - 1]
  }

  lemma {:induction false} FlattenCons<T>(part: seq<T>, parts: seq<seq<T>>)
    ensures Flatten([part] + parts) == part + Flatten(parts)
  {
    if parts == [] {
      assert ([part] + parts)[..0] == [];
    } else {
      assert ([part] + parts)[..|parts|] == [part] + parts[..|parts| - 1];
      FlattenCons(part, parts[..|parts| - 1]);
    }
  }

  lemma {:induction false} FlattenChunks<T>(items: seq<T>, size: nat)
    requires size > 0
    ensures Flatten(Chunks(items, size)) == items
  {
    hide Flatten;
    if |items| > size {
      FlattenChunks(items[size..], size);
      FlattenCons(items[..size], Chunks(items[size..], size));
    } else if items == [] {
      FlattenNothing<T>();
    } else {
      FlattenCons(items, []);
      FlattenNothing<T>();
      assert [items] == [items] + [];
    }
  }

  function From<T>(items: seq<T>, i: nat): seq<T> { if i < |items| then items[i..] else [] }

  lemma ChunkStep<T>(items: seq<T>, i: nat, size: nat)
    requires size > 0 && i < |items|
    ensures var end := if i + size < |items| then i + size else |items|;
      Chunks(From(items, i), size) == [items[i..end]] + Chunks(From(items, i + size), size)
  {
    var rest := items[i..];
    if i + size < |items| {
      assert rest[..size] == items[i..i + size] && rest[size..] == items[i + size..];
    } else {
      assert rest == items[i..|items|];
    }
  }

  method Chunk<T>(items: seq<T>, size: nat) returns (out: seq<seq<T>>)
    requires size > 0
    ensures out == Chunks(items, size)
    ensures Flatten(out) == items
  {
    hide Chunks, From, Flatten;
    out := [];
    var i := 0;
    FromStart(items);
    while i < |items|
      invariant 0 <= i
      invariant out + Chunks(From(items, i), size) == Chunks(items, size)
    {
      var end := if i + size < |items| then i + size else |items|;
      ChunkStep(items, i, size);
      out := out + [items[i..end]];
      i := i + size;
    }
    assert Chunks(From(items, i), size) == [] by { NothingLeft(items, i, size); }
    FlattenChunks(items, size);
  }

  lemma FromStart<T>(items: seq<T>)
    ensures From(items, 0) == items
  {
  }

  lemma NothingLeft<T>(items: seq<T>, i: nat, size: nat)
    requires size > 0 && i >= |items|
    ensures Chunks(From(items, i), size) == []
  {
  }

  // ---- The statements fold over concatenation, so chunk boundaries leave no trace. ----

  lemma {:induction false} UpsertsAppend(ids: map<Key, Identity>, run: RunInput, a: seq<ObservationInput>, b: seq<ObservationInput>)
    ensures Upserts(ids, run, a + b) == Upserts(Upserts(ids, run, a), run, b)
  {
    if b == [] {
      assert a + b == a;
    } else {
      assert (a + b)[..|a + b| - 1] == a + b[..|b| - 1];
      UpsertsAppend(ids, run, a, b[..|b| - 1]);
    }
  }

  lemma {:induction false} ObservesAppend(rows: map<(Id, Key), string>, run: RunInput, a: seq<ObservationInput>, b: seq<ObservationInput>)
    ensures var (mid, inserted) := Observes(rows, run, a);
            var (after, more) := Observes(mid, run, b);
            Observes(rows, run, a + b) == (after, inserted + more)
  {
    if b == [] {
      assert a + b == a;
      assert Observes(rows, run, a).1 + [] == Observes(rows, run, a).1;
    } else {
      var (mid, inserted) := Observes(rows, run, a);
      var (later, some) := Observes(mid, run, b[..|b| - 1]);
      assert (a + b)[..|a + b| - 1] == a + b[..|b| - 1];
      ObservesAppend(rows, run, a, b[..|b| - 1]);
      assert Observes(rows, run, a + b[..|b| - 1]) == (later, inserted + some);
      var k := KeyOf(run, b[|b| - 1]);
      assert inserted + (some + [k]) == inserted + some + [k];
    }
  }

  lemma KeysAppend(run: RunInput, a: seq<ObservationInput>, b: seq<ObservationInput>)
    ensures Keys(run, a + b) == Keys(run, a) + Keys(run, b)
  {
    forall k | k in Keys(run, a) + Keys(run, b) ensures k in Keys(run, a + b) {
      var o :| o in a + b && KeyOf(run, o) == k;
    }
  }

  predicate Bounded(o: ObservationInput) {
    o.attributeBytes.None? || o.attributeBytes.value <= SOURCE_ATTRIBUTES_SOFT_LIMIT_BYTES
  }

  method AssertAttributesBounded(observations: seq<ObservationInput>) returns (fault: Option<string>)
    ensures fault.None? <==> forall o | o in observations :: Bounded(o)
    ensures fault.None? <==> forall o | o in observations :: o.attributeBytes.None? || o.attributeBytes.value <= 4096
    ensures fault.Some? ==> exists i | 0 <= i < |observations| ::
              observations[i].sourcePropertyId == fault.value && !Bounded(observations[i])
              && forall j | 0 <= j < i :: Bounded(observations[j])
  {
    for i := 0 to |observations|
      invariant forall j | 0 <= j < i :: Bounded(observations[j])
    {
      if observations[i].attributeBytes.Some?
         && observations[i].attributeBytes.value > SOURCE_ATTRIBUTES_SOFT_LIMIT_BYTES {
        assert !Bounded(observations[i]);
        return Some(observations[i].sourcePropertyId);
      }
    }
    fault := None;
  }

  /** An `on conflict do update` statement may touch each row once. */
  predicate ChunksUnique(obs: seq<ObservationInput>, size: nat)
    requires size > 0
  {
    forall part | part in Chunks(obs, size) :: UniqueIds(part)
  }

  lemma {:induction false} UniqueIsUniquePerChunk(obs: seq<ObservationInput>, size: nat)
    requires size > 0
    ensures UniqueIds(obs) ==> ChunksUnique(obs, size)
  {
    if |obs| > size && UniqueIds(obs) {
      UniqueIsUniquePerChunk(obs[size..], size);
      forall part | part in Chunks(obs, size) ensures UniqueIds(part) {
        assert part == obs[..size] || part in Chunks(obs[size..], size);
      }
    }
  }

  class IngestionStore {
    var runs: map<Id, int>
    var identities: map<Key, Identity>
    var observations: map<(Id, Key), string>

    constructor ()
      ensures State() == EMPTY
    {
      runs, identities, observations := map[], map[], map[];
    }

    function State(): Store
      reads this
    {
      Store(runs, identities, observations)
    }

    /** insert into source_property_identities ... on conflict do update ... returning; None is the statement's error. */
    method UpsertChunk(run: RunInput, part: seq<ObservationInput>) returns (inserted: Option<set<Key>>)
      modifies `identities
      ensures inserted.Some? <==> UniqueIds(part)
      ensures inserted.Some? ==> identities == Upserts(old(identities), run, part)
      ensures inserted.Some? ==> inserted.value == Keys(run, part) - old(identities).Keys
    {
      hide Upserts, KeyOf, Keys, UniqueIds;
      ghost var ids := identities;
      NoKeys(run);
      assert part[..0] == [];
      var touched: set<Key> := {};
      var created: set<Key> := {};
      UpsertsBase(identities, run);
      for i := 0 to |part|
        invariant touched == Keys(run, part[..i])
        invariant created == Keys(run, part[..i]) - ids.Keys
        invariant UniqueIds(part[..i])
        invariant identities == Upserts(ids, run, part[..i])
      {
        var k := KeyOf(run, part[i]);
        assert part[..i + 1] == part[..i] + [part[i]];
        SplitLast(run, part[..i + 1]);
        KeyTouched(run, part, i);
        UpsertsStep(ids, run, part, i);
        UpsertFacts(ids, run, part[..i]);
        if k in touched {
          return None;
        }
        touched := touched + {k};
        if k !in identities {
          created := created + {k};
        }
        identities := UpsertOne(identities, run, part[i]);
      }
      assert part[..|part|] == part;
      inserted := Some(created);
    }

    /** insert into source_property_observations ... on conflict do nothing returning */
    method ObserveChunk(run: RunInput, part: seq<ObservationInput>) returns (inserted: seq<Key>)
      modifies `observations
      ensures (observations, inserted) == Observes(old(observations), run, part)
    {
      inserted := [];
      for i := 0 to |part|
        invariant (observations, inserted) == Observes(old(observations), run, part[..i])
      {
        var k := KeyOf(run, part[i]);
        assert part[..i + 1][..i] == part[..i];
        if (run.id, k) !in observations {
          observations := observations[(run.id, k) := part[i].payload];
          inserted := inserted + [k];
        }
      }
      assert part[..|part|] == part;
    }

    /** update ... set observation_count = observation_count + 1 where id = any(part) */
    method BumpChunk(part: seq<Key>) returns (rowCount: nat)
      modifies `identities
      ensures identities == Bump(old(identities), part)
      ensures rowCount == |set k | k in part && k in old(identities)|
    {
      rowCount := |set k | k in part && k in identities|;
      identities := Bump(identities, part);
    }

    /** update ... set last_seen_run_id, last_seen_at where id = any(part) and the run is newer */
    method AdvanceChunk(run: RunInput, part: seq<Key>) returns (rowCount: nat)
      modifies `identities
      ensures identities == Advance(runs, old(identities), run, part)
      ensures rowCount == |Advanced(runs, old(identities), run, part)|
    {
      rowCount := |Advanced(runs, identities, run, part)|;
      identities := Advance(runs, identities, run, part);
    }

    method UpsertAll(run: RunInput, parts: seq<seq<ObservationInput>>) returns (created: Option<set<Key>>)
      modifies `identities
      ensures created.Some? <==> forall part | part in parts :: UniqueIds(part)
      ensures created.Some? ==> identities == Upserts(old(identities), run, Flatten(parts))
      ensures created.Some? ==> created.value == Keys(run, Flatten(parts)) - old(identities).Keys
    {
      hide Upserts, Keys, UniqueIds, UrlAfter, Flatten;
      ghost var ids := identities;
      var brandNew: set<Key> := {};
      UpsertsBase(ids, run);
      FlattenNothing<ObservationInput>();
      for n := 0 to |parts|
        invariant forall part | part in parts[..n] :: UniqueIds(part)
        invariant identities == Upserts(ids, run, Flatten(parts[..n]))
        invariant brandNew == Keys(run, Flatten(parts[..n])) - ids.Keys
      {
        assert parts[..n + 1] == parts[..n] + [parts[n]];
        FlattenStep(parts, n);
        UpsertStepKeys(ids, run, Flatten(parts[..n]), parts[n]);
        var inserted := UpsertChunk(run, parts[n]);
        if inserted.None? {
          return None;
        }
        brandNew := brandNew + inserted.value;
      }
      assert parts[..|parts|] == parts;
      created := Some(brandNew);
    }

    method ObserveAll(run: RunInput, parts: seq<seq<ObservationInput>>) returns (inserted: seq<Key>)
      modifies `observations
      ensures (observations, inserted) == Observes(old(observations), run, Flatten(parts))
    {
      hide Observes;
      ghost var rows := observations;
      inserted := [];
      ObservesBase(rows, run);
      for n := 0 to |parts|
        invariant (observations, inserted) == Observes(rows, run, Flatten(parts[..n]))
      {
        FlattenStep(parts, n);
        ObservesAppend(rows, run, Flatten(parts[..n]), parts[n]);
        var more := ObserveChunk(run, parts[n]);
        inserted := inserted + more;
      }
      assert parts[..|parts|] == parts;
    }

    method BumpAll(parts: seq<seq<Key>>) returns (increments: nat)
      requires NoRepeats(Flatten(parts)) && forall k | k in Flatten(parts) :: k in identities
      modifies `identities
      ensures identities == Bump(old(identities), Flatten(parts))
      ensures increments == |Flatten(parts)|
    {
      hide Bump;
      ghost var ids := identities;
      BumpBase(ids);
      increments := 0;
      for n := 0 to |parts|
        invariant identities.Keys == ids.Keys
        invariant identities == Bump(ids, Flatten(parts[..n]))
        invariant increments == |Flatten(parts[..n])|
      {
        FlattenStep(parts, n);
        FlattenPrefix(parts, n + 1);
        PartOfAll(Flatten(parts[..n]), parts[n], Flatten(parts));
        BumpAppend(ids, Flatten(parts[..n]), parts[n]);
        RowsTouched(identities, Flatten(parts[..n]), parts[n]);
        BumpKeys(identities, parts[n]);
        var rowCount := BumpChunk(parts[n]);
        increments := increments + rowCount;
      }
      assert parts[..|parts|] == parts;
    }

    method AdvanceAll(run: RunInput, parts: seq<seq<Key>>) returns (advanced: nat)
      requires NoRepeats(Flatten(parts))
      modifies `identities
      ensures identities == Advance(runs, old(identities), run, Flatten(parts))
      ensures advanced == |Advanced(runs, old(identities), run, Flatten(parts))|
    {
      hide Advance, Advanced, Newer;
      ghost var ids := identities;
      AdvanceBase(runs, ids, run);
      advanced := 0;
      for n := 0 to |parts|
        invariant identities == Advance(runs, ids, run, Flatten(parts[..n]))
        invariant advanced == |Advanced(runs, ids, run, Flatten(parts[..n]))|
      {
        FlattenStep(parts, n);
        FlattenPrefix(parts, n + 1);
        AdvanceAppend(runs, ids, run, Flatten(parts[..n]), parts[n]);
        var rowCount := AdvanceChunk(run, parts[n]);
        advanced := advanced + rowCount;
      }
      assert parts[..|parts|] == parts;
    }

    /** What would change, with no write: exact except for `lastSeenAdvanced`, which it never computes. */
    method PreviewIngestion(batch: Batch) returns (counts: Counts)
      requires Agrees(State())
      ensures counts == Previewed(State(), batch)
      ensures UniqueIds(batch.observations) <==>
              counts == IngestCounts(State(), batch).(lastSeenAdvanced := 0)
      ensures var applied := IngestCounts(State(), batch);
              counts.runsCreated == applied.runsCreated && counts.runsExisting == applied.runsExisting
              && counts.identitiesCreated == applied.identitiesCreated
              && counts.identitiesExisting == applied.identitiesExisting
      ensures counts.observationsCreated >= IngestCounts(State(), batch).observationsCreated
    {
      hide Observes, Upserts, Bump, Newer, Keys, UniqueIds, IngestCounts, Agrees, Observed;
      var ids := Keys(batch.run, batch.observations);
      var existing := ids * identities.Keys;
      var observed := Observed(State(), batch.run, ids);
      PreviewFacts(State(), batch);
      var runsExisting := if batch.run.id in runs then 1 else 0;
      var created := |batch.observations| - |observed|;
      counts := Counts(1 - runsExisting, runsExisting, |ids| - |existing|, |existing|,
                       created, |observed|, created, 0);
    }

    /** One destination's batch, in one transaction. */
    method ApplyIngestion(batch: Batch, chunkSize: nat) returns (r: Result<Counts, WriteError>)
      requires chunkSize > 0
      modifies this
      ensures r.Ok? <==> (forall o | o in batch.observations :: Bounded(o)) && ChunksUnique(batch.observations, chunkSize)
      ensures r.Ok? ==> State() == Ingest(old(State()), batch) && r.value == IngestCounts(old(State()), batch)
      ensures r.Err? ==> State() == old(State())
    {
      hide Observes, Upserts, Bump, Advance, Advanced, Keys, Chunks, Flatten, UniqueIds, Newer, RunsAfter, Agrees, Bounded;
      ghost var before := State();
      var run := batch.run;
      var fault := AssertAttributesBounded(batch.observations);
      if fault.Some? {
        return Err(AttributesTooLarge(fault.value));
      }
      var savedRuns, savedIdentities := runs, identities;
      var runExists := run.id in runs;
      runs := InsertRun(runs, run);
      var parts := Chunk(batch.observations, chunkSize);
      ghost var upserted := Upserts(identities, run, batch.observations);
      var created := UpsertAll(run, parts);
      if created.None? {
        runs, identities := savedRuns, savedIdentities;
        return Err(RowAffectedTwice);
      }
      assert identities == upserted;
      var inserted := ObserveAll(run, parts);
      assert (observations, inserted) == Observes(before.observations, run, batch.observations);
      InsertedFacts(before, batch);
      var insertedParts := Chunk(inserted, chunkSize);
      var increments := BumpAll(insertedParts);
      ghost var bumped := identities;
      assert bumped == Bump(upserted, inserted);
      var advanced := AdvanceAll(run, insertedParts);
      var keys := Keys(run, batch.observations);
      InsertedAtMost(before, batch);
      CountsAre(before, batch);
      r := Ok(Counts(if runExists then 0 else 1, if runExists then 1 else 0,
                     |created.value|, |keys| - |created.value|,
                     |inserted|, |batch.observations| - |inserted|, increments, advanced));
    }
  }

  /** The preview's arithmetic: it subtracts identities from rows, so a repeated id is counted once per row. */
  function Previewed(s: Store, b: Batch): Counts {
    var keys := Keys(b.run, b.observations);
    var existing, observed := keys * s.identities.Keys, Observed(s, b.run, keys);
    var runsExisting := if b.run.id in s.runs then 1 else 0;
    PreviewedBounds(s, b);
    var created := |b.observations| - |observed|;
    Counts(1 - runsExisting, runsExisting, |keys| - |existing|, |existing|, created, |observed|, created, 0)
  }

  lemma PreviewedBounds(s: Store, b: Batch)
    ensures var keys := Keys(b.run, b.observations);
      |keys * s.identities.Keys| <= |keys| && |Observed(s, b.run, keys)| <= |keys| <= |b.observations|
  {
    hide Keys;
    var keys := Keys(b.run, b.observations);
    KeysCount(b.run, b.observations);
    SubsetSize(keys * s.identities.Keys, keys);
    SubsetSize(Observed(s, b.run, keys), keys);
  }

  /** One id twice, a chunk each: the apply is accepted and inserts one observation where the preview said two. */
  lemma RepeatAcrossChunksOvercounts()
    ensures var o := ObservationInput("p", None, "row", None);
      var b := Batch(RunInput("r", "s", 5), [o, o]);
      && Agrees(EMPTY) && (forall x | x in b.observations :: Bounded(x)) && ChunksUnique(b.observations, 1)
      && Previewed(EMPTY, b).observationsCreated == 2 && IngestCounts(EMPTY, b).observationsCreated == 1
  {
    hide Observes, Upserts, Bump, Newer, IngestCounts;
    var o := ObservationInput("p", None, "row", None);
    var b := Batch(RunInput("r", "s", 5), [o, o]);
    var keys := Keys(b.run, b.observations);
    PreviewFacts(EMPTY, b);
    assert keys == {KeyOf(b.run, o)};
    assert Observed(EMPTY, b.run, keys) == {};
    assert b.observations[1..] == [o] && b.observations[..1] == [o] && Chunks(b.observations, 1) == [[o], [o]];
  }

  /** Rows whose identity already has an observation in this run. */
  function Observed(s: Store, run: RunInput, keys: set<Key>): set<Key> {
    set k | k in keys && k in s.identities && (run.id, k) in s.observations
  }

  function Advanced(runs: map<Id, int>, ids: map<Key, Identity>, run: RunInput, part: seq<Key>): set<Key> {
    set k | k in part && k in ids && Newer(runs, run, ids[k])
  }

  lemma FlattenNothing<T>()
    ensures Flatten<T>([]) == []
  {
  }

  lemma UpsertStepKeys(ids: map<Key, Identity>, run: RunInput, a: seq<ObservationInput>, b: seq<ObservationInput>)
    ensures Upserts(ids, run, a + b) == Upserts(Upserts(ids, run, a), run, b)
    ensures Keys(run, a + b) - ids.Keys
         == (Keys(run, a) - ids.Keys) + (Keys(run, b) - Upserts(ids, run, a).Keys)
  {
    hide Upserts, Keys, UrlAfter;
    UpsertFacts(ids, run, a);
    UpsertsAppend(ids, run, a, b);
    KeysAppend(run, a, b);
  }

  lemma UpsertsBase(ids: map<Key, Identity>, run: RunInput)
    ensures Upserts(ids, run, []) == ids && Keys(run, []) == {}
  {
  }

  lemma UpsertsStep(ids: map<Key, Identity>, run: RunInput, part: seq<ObservationInput>, i: nat)
    requires i < |part|
    ensures Upserts(ids, run, part[..i + 1]) == UpsertOne(Upserts(ids, run, part[..i]), run, part[i])
  {
    assert part[..i + 1][..i] == part[..i];
  }

  lemma KeyTouched(run: RunInput, part: seq<ObservationInput>, i: nat)
    requires i < |part| && UniqueIds(part[..i])
    ensures KeyOf(run, part[i]) in Keys(run, part[..i]) <==> !UniqueIds(part[..i + 1])
    ensures KeyOf(run, part[i]) in Keys(run, part[..i]) ==> !UniqueIds(part)
  {
    var p, q := part[..i], part[..i + 1];
    if KeyOf(run, part[i]) in Keys(run, p) {
      var o :| o in p && KeyOf(run, o) == KeyOf(run, part[i]);
      var j :| 0 <= j < |p| && p[j] == o;
      assert q[j].sourcePropertyId == q[i].sourcePropertyId;
      assert part[j].sourcePropertyId == part[i].sourcePropertyId;
    } else {
      forall a, b | 0 <= a < b < |q| ensures q[a].sourcePropertyId != q[b].sourcePropertyId {
        if b < i {
          assert p[a].sourcePropertyId != p[b].sourcePropertyId;
        } else {
          assert p[a] in p;
        }
      }
    }
  }

  function InsertRun(runs: map<Id, int>, run: RunInput): (runs': map<Id, int>)
    ensures runs' == RunsAfter(runs, run)
  {
    if run.id in runs then runs else runs[run.id := run.observedAt]
  }

  lemma FlattenStep<T>(parts: seq<seq<T>>, n: nat)
    requires n < |parts|
    ensures Flatten(parts[..n + 1]) == Flatten(parts[..n]) + parts[n]
  {
    assert parts[..n + 1][..n] == parts[..n];
  }

  lemma {:induction false} FlattenPrefix<T>(parts: seq<seq<T>>, n: nat)
    requires n <= |parts|
    ensures Flatten(parts[..n]) <= Flatten(parts)
    decreases |parts| - n
  {
    if n == |parts| {
      assert parts[..n] == parts;
    } else {
      FlattenPrefix(parts, n + 1);
      FlattenStep(parts, n);
    }
  }

  lemma ObservesBase(rows: map<(Id, Key), string>, run: RunInput)
    ensures Observes(rows, run, []) == (rows, [])
  {
  }

  lemma BumpBase(ids: map<Key, Identity>)
    ensures Bump(ids, []) == ids
  {
  }

  lemma BumpKeys(ids: map<Key, Identity>, part: seq<Key>)
    ensures Bump(ids, part).Keys == ids.Keys
  {
  }

  lemma BumpAppend(ids: map<Key, Identity>, a: seq<Key>, b: seq<Key>)
    requires NoRepeats(a + b)
    ensures Bump(Bump(ids, a), b) == Bump(ids, a + b)
  {
    forall k | k in ids ensures Bump(Bump(ids, a), b)[k] == Bump(ids, a + b)[k] {
      Apart(a, b, k);
    }
  }

  lemma Apart<T>(a: seq<T>, b: seq<T>, k: T)
    requires NoRepeats(a + b)
    ensures !(k in a && k in b)
  {
    forall i, j | 0 <= i < |a| && 0 <= j < |b| ensures a[i] != b[j] {
      assert (a + b)[i] != (a + b)[|a| + j];
    }
  }

  lemma PartOfAll<T>(a: seq<T>, b: seq<T>, all: seq<T>)
    requires a + b <= all
    ensures forall k | k in b :: k in all
    ensures NoRepeats(all) ==> NoRepeats(a + b)
  {
    forall k | k in b ensures k in all {
      var j :| 0 <= j < |b| && b[j] == k;
      assert all[|a| + j] == k;
    }
    if NoRepeats(all) {
      forall i, j | 0 <= i < j < |a + b| ensures (a + b)[i] != (a + b)[j] {
        assert all[i] == (a + b)[i] && all[j] == (a + b)[j];
      }
    }
  }

  lemma RowsTouched(ids: map<Key, Identity>, a: seq<Key>, b: seq<Key>)
    requires forall k | k in b :: k in ids
    requires NoRepeats(a + b)
    ensures |set k | k in b && k in ids| == |b|
  {
    forall i, j | 0 <= i < j < |b| ensures b[i] != b[j] {
      assert (a + b)[|a| + i] != (a + b)[|a| + j];
    }
    CountOnce(b);
    assert (set k | k in b && k in ids) == (set k | k in b);
  }

  lemma {:induction false} CountOnce<T>(xs: seq<T>)
    requires NoRepeats(xs)
    ensures |set k | k in xs| == |xs|
  {
    if xs != [] {
      var init, last := xs[..|xs| - 1], xs[|xs| - 1];
      assert xs == init + [last];
      CountOnce(init);
      assert (set k | k in xs) == (set k | k in init) + {last};
    } else {
      assert (set k | k in xs) == {};
    }
  }

  lemma AdvanceBase(runs: map<Id, int>, ids: map<Key, Identity>, run: RunInput)
    ensures Advance(runs, ids, run, []) == ids && Advanced(runs, ids, run, []) == {}
  {
  }

  lemma AdvanceAppend(runs: map<Id, int>, ids: map<Key, Identity>, run: RunInput, a: seq<Key>, b: seq<Key>)
    requires NoRepeats(a + b)
    ensures Advance(runs, Advance(runs, ids, run, a), run, b) == Advance(runs, ids, run, a + b)
    ensures |Advanced(runs, ids, run, a + b)|
         == |Advanced(runs, ids, run, a)| + |Advanced(runs, Advance(runs, ids, run, a), run, b)|
  {
    hide Newer, Advanced, NoRepeats;
    var mid := Advance(runs, ids, run, a);
    forall k | k in ids ensures Advance(runs, mid, run, b)[k] == Advance(runs, ids, run, a + b)[k] {
      Apart(a, b, k);
    }
    AdvancedAppend(runs, ids, run, a, b);
  }

  lemma AdvancedAppend(runs: map<Id, int>, ids: map<Key, Identity>, run: RunInput, a: seq<Key>, b: seq<Key>)
    requires NoRepeats(a + b)
    ensures |Advanced(runs, ids, run, a + b)|
         == |Advanced(runs, ids, run, a)| + |Advanced(runs, Advance(runs, ids, run, a), run, b)|
  {
    hide Newer, NoRepeats;
    var mid := Advance(runs, ids, run, a);
    var x, y := Advanced(runs, ids, run, a), Advanced(runs, mid, run, b);
    forall k ensures !(k in a && k in b) {
      Apart(a, b, k);
    }
    assert x !! y;
    assert forall k | k in b && k in ids :: mid[k] == ids[k];
    assert Advanced(runs, ids, run, a + b) == x + y;
  }

  lemma InsertedFacts(s: Store, b: Batch)
    ensures var inserted := Observes(s.observations, b.run, b.observations).1;
      NoRepeats(inserted)
      && forall k | k in inserted :: k in Upserts(s.identities, b.run, b.observations)
  {
    ObserveFacts(s.observations, b.run, b.observations);
    UpsertFacts(s.identities, b.run, b.observations);
  }

  lemma CountsAre(s: Store, b: Batch)
    ensures var inserted := Observes(s.observations, b.run, b.observations).1;
      var bumped := Bump(Upserts(s.identities, b.run, b.observations), inserted);
      IngestCounts(s, b).lastSeenAdvanced == |Advanced(RunsAfter(s.runs, b.run), bumped, b.run, inserted)|
  {
    hide Newer, Observes, Upserts, Keys;
    var inserted := Observes(s.observations, b.run, b.observations).1;
    var bumped := Bump(Upserts(s.identities, b.run, b.observations), inserted);
    var runs := RunsAfter(s.runs, b.run);
    assert Advanced(runs, bumped, b.run, inserted) == set k | k in inserted && k in bumped && Newer(runs, b.run, bumped[k]);
  }

  lemma NoKeys(run: RunInput)
    ensures Keys(run, []) == {} && UniqueIds([])
  {
  }

  lemma UniqueOneMore(run: RunInput, init: seq<ObservationInput>, o: ObservationInput)
    ensures UniqueIds(init + [o]) <==> UniqueIds(init) && KeyOf(run, o) !in Keys(run, init)
  {
    var obs := init + [o];
    if UniqueIds(obs) {
      forall a, b | 0 <= a < b < |init| ensures init[a].sourcePropertyId != init[b].sourcePropertyId {
        assert obs[a].sourcePropertyId != obs[b].sourcePropertyId;
      }
      forall x | x in init ensures KeyOf(run, x) != KeyOf(run, o) {
        var a :| 0 <= a < |init| && init[a] == x;
        assert obs[a].sourcePropertyId != obs[|init|].sourcePropertyId;
      }
    }
    if UniqueIds(init) && KeyOf(run, o) !in Keys(run, init) {
      forall a | 0 <= a < |init| ensures init[a].sourcePropertyId != o.sourcePropertyId {
        assert KeyOf(run, init[a]) in Keys(run, init);
      }
    }
  }

  lemma {:induction false} KeysCount(run: RunInput, obs: seq<ObservationInput>)
    ensures |Keys(run, obs)| <= |obs|
    ensures UniqueIds(obs) <==> |Keys(run, obs)| == |obs|
  {
    hide Keys, UniqueIds, KeyOf;
    if obs == [] {
      NoKeys(run);
    } else {
      var init, o := obs[..|obs| - 1], obs[|obs| - 1];
      KeysCount(run, init);
      SplitLast(run, obs);
      assert obs == init + [o];
      UniqueOneMore(run, init, o);
      assert KeyOf(run, o) !in Keys(run, init) ==> |Keys(run, init) + {KeyOf(run, o)}| == |Keys(run, init)| + 1;
      assert KeyOf(run, o) in Keys(run, init) ==> Keys(run, init) + {KeyOf(run, o)} == Keys(run, init);
    }
  }

  lemma PreviewFacts(s: Store, b: Batch)
    requires Agrees(s)
    ensures var keys, c := Keys(b.run, b.observations), IngestCounts(s, b);
      && c.runsExisting == (if b.run.id in s.runs then 1 else 0) && c.runsCreated == 1 - c.runsExisting
      && c.identitiesExisting == |keys * s.identities.Keys| && c.identitiesCreated == |keys| - c.identitiesExisting
      && c.observationsCreated == c.observationCountIncrements == |keys| - |Observed(s, b.run, keys)|
      && c.observationsExisting == |b.observations| - c.observationsCreated
      && |keys| <= |b.observations| && (UniqueIds(b.observations) <==> |keys| == |b.observations|)
  {
    hide Observes, Upserts, Bump, Newer, Keys, UniqueIds, Agrees, Observed, RunsAfter;
    var keys := Keys(b.run, b.observations);
    KeysCount(b.run, b.observations);
    InsertedCount(s, b);
    assert keys == (keys - s.identities.Keys) + (keys * s.identities.Keys);
  }

  lemma InsertedCount(s: Store, b: Batch)
    requires Agrees(s)
    ensures var keys := Keys(b.run, b.observations);
      |Observes(s.observations, b.run, b.observations).1| == |keys| - |Observed(s, b.run, keys)|
  {
    hide Observes, Keys, IdentityAgrees;
    ObserveFacts(s.observations, b.run, b.observations);
    var keys := Keys(b.run, b.observations);
    var inserted := Observes(s.observations, b.run, b.observations).1;
    CountOnce(inserted);
    var observed := Observed(s, b.run, keys);
    assert (set k | k in inserted) == keys - observed;
    assert keys == (keys - observed) + observed;
  }
}

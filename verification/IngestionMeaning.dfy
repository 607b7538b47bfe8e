/**
 What the ingestion writer's columns and counters mean, read off the tables before and after.
 */
module IngestionMeaning {
  import opened Prelude
  import opened Ingestion
  import W = IngestionWriter

  // ---- Columns. ----

  /**
   The batch states the start its run is recorded with. The deterministic run id does not promise this:
   the fingerprint it hashes leaves the start out.
   */
  predicate SameStart(s: Store, b: Batch) { b.run.id in s.runs ==> s.runs[b.run.id] == b.run.observedAt }

  /** First and last seen carry the start of the run they name. */
  predicate TimesAgree(s: Store) {
    forall k | k in s.identities ::
      var i := s.identities[k];
      i.firstSeenRunId in s.runs && i.firstSeenAt == s.runs[i.firstSeenRunId]
      && i.lastSeenRunId in s.runs && i.lastSeenAt == s.runs[i.lastSeenRunId]
  }

  lemma IngestKeepsTimes(s: Store, b: Batch)
    requires TimesAgree(s) && SameStart(s, b)
    ensures TimesAgree(Ingest(s, b))
  {
    hide Ingest, Keys, Observes, Upserts, Newer;
    IngestKeys(s, b);
    RunsAfterIs(s, b);
    forall k | k in Ingest(s, b).identities
      ensures var i := Ingest(s, b).identities[k];
        i.firstSeenRunId in Ingest(s, b).runs && i.firstSeenAt == Ingest(s, b).runs[i.firstSeenRunId]
        && i.lastSeenRunId in Ingest(s, b).runs && i.lastSeenAt == Ingest(s, b).runs[i.lastSeenRunId]
    {
      IngestAt(s, b, k);
    }
  }

  /**
   Some observation creates its identity, or is new for its run while the run is recorded as newer than
   the one the identity was last seen in. Read off the batch and the store it arrives at.
   */
  predicate StampsATime(s: Store, b: Batch) {
    exists o | o in b.observations :: Stamps(s, b, KeyOf(b.run, o))
  }

  predicate Stamps(s: Store, b: Batch, k: Key) {
    k !in s.identities || ((b.run.id, k) !in s.observations && Newer(RunsAfter(s.runs, b.run), b.run, s.identities[k]))
  }

  /**
   Exactly when the times stay true: the batch states the start its run is recorded with, or it stamps no
   identity at all. A known run id arriving with another start writes a time its run never had.
   */
  lemma TimesAgreeIff(s: Store, b: Batch)
    requires TimesAgree(s)
    ensures TimesAgree(Ingest(s, b)) <==> SameStart(s, b) || !StampsATime(s, b)
  {
    hide Ingest, Observes, Upserts, Newer, Stamps, SameStart;
    if SameStart(s, b) {
      IngestKeepsTimes(s, b);
    } else {
      IngestKeys(s, b);
      forall k | k in Ingest(s, b).identities
        ensures TimesAgreeAt(Ingest(s, b), k) <==> !(k in Keys(b.run, b.observations) && Stamps(s, b, k))
      {
        StampedWrongly(s, b, k);
      }
    }
  }

  predicate TimesAgreeAt(s: Store, k: Key)
    requires k in s.identities
  {
    var i := s.identities[k];
    i.firstSeenRunId in s.runs && i.firstSeenAt == s.runs[i.firstSeenRunId]
    && i.lastSeenRunId in s.runs && i.lastSeenAt == s.runs[i.lastSeenRunId]
  }

  lemma StampedWrongly(s: Store, b: Batch, k: Key)
    requires TimesAgree(s) && !SameStart(s, b) && k in Ingest(s, b).identities
    ensures TimesAgreeAt(Ingest(s, b), k) <==> !(k in Keys(b.run, b.observations) && Stamps(s, b, k))
  {
    hide Ingest, Keys, Observes, Upserts;
    IngestKeys(s, b);
    RunsAfterIs(s, b);
    IngestAt(s, b, k);
  }

  /**
   Batches that share a run id state one start, or the later one brings no property the earlier did not: what
   an adapter that fixes a run's observations by artifact digest hands over, whatever start it reads.
   */
  ghost predicate SteadyRuns(batches: seq<Batch>) {
    forall a, b | 0 <= a < b < |batches| && batches[a].run.id == batches[b].run.id ::
      || batches[b].run.observedAt == batches[a].run.observedAt
      || Keys(batches[b].run, batches[b].observations) <= Keys(batches[a].run, batches[a].observations)
  }

  /** Everything a batch named is in the store, under its run. */
  predicate Holds(s: Store, b: Batch) {
    && b.run.id in s.runs
    && forall k | k in Keys(b.run, b.observations) :: k in s.identities && (b.run.id, k) in s.observations
  }

  ghost predicate StartedBy(s: Store, batches: seq<Batch>, r: Id)
    requires r in s.runs
  {
    exists n :: 0 <= n < |batches| && batches[n].run.id == r && batches[n].run.observedAt == s.runs[r]
  }

  lemma IngestHolds(s: Store, b: Batch, x: Batch)
    requires Holds(s, x) || x == b
    ensures Holds(Ingest(s, b), x)
  {
    hide Ingest, Keys;
    IngestKeys(s, b);
  }

  lemma HeldNeverStamps(s: Store, b: Batch)
    requires forall k | k in Keys(b.run, b.observations) :: k in s.identities && (b.run.id, k) in s.observations
    ensures !StampsATime(s, b)
  {
    forall o | o in b.observations ensures !Stamps(s, b, KeyOf(b.run, o)) {
      assert KeyOf(b.run, o) in Keys(b.run, b.observations);
    }
  }

  lemma SteadyStep(s: Store, batches: seq<Batch>)
    requires batches != [] && SteadyRuns(batches) && TimesAgree(s)
    requires forall n | 0 <= n < |batches| - 1 :: Holds(s, batches[n])
    requires forall r | r in s.runs :: StartedBy(s, batches[..|batches| - 1], r)
    ensures TimesAgree(Ingest(s, batches[|batches| - 1]))
  {
    hide TimesAgree, Keys, Ingest, StampsATime;
    var last := |batches| - 1;
    var b := batches[last];
    TimesAgreeIff(s, b);
    if !SameStart(s, b) {
      var n :| 0 <= n < last && batches[..last][n].run.id == b.run.id && batches[..last][n].run.observedAt == s.runs[b.run.id];
      assert Holds(s, batches[n]);
      HeldNeverStamps(s, b);
    }
  }

  lemma StillStarted(s: Store, b: Batch, batches: seq<Batch>, r: Id)
    requires r in Ingest(s, b).runs && (r in s.runs ==> StartedBy(s, batches, r))
    ensures StartedBy(Ingest(s, b), batches + [b], r)
  {
    hide Ingest;
    RunsAfterIs(s, b);
    if r in s.runs {
      var n :| 0 <= n < |batches| && batches[n].run.id == r && batches[n].run.observedAt == s.runs[r];
      assert (batches + [b])[n] == batches[n];
    } else {
      assert (batches + [b])[|batches|] == b;
    }
  }

  /** Over any steady sequence of batches every time recorded is its run's start. */
  lemma {:induction false} TimesAgreeOverRuns(batches: seq<Batch>)
    requires SteadyRuns(batches)
    ensures TimesAgree(IngestAll(EMPTY, batches))
    ensures forall n | 0 <= n < |batches| :: Holds(IngestAll(EMPTY, batches), batches[n])
    ensures forall r | r in IngestAll(EMPTY, batches).runs :: StartedBy(IngestAll(EMPTY, batches), batches, r)
  {
    hide Ingest, TimesAgree, Holds, StartedBy, Keys;
    if batches == [] {
      NoTimesYet();
    } else {
      var before, last := batches[..|batches| - 1], batches[|batches| - 1];
      TimesAgreeOverRuns(before);
      var s := IngestAll(EMPTY, before);
      assert batches == before + [last];
      forall n | 0 <= n < |batches| - 1 ensures Holds(s, batches[n]) { assert before[n] == batches[n]; }
      SteadyStep(s, batches);
      forall n | 0 <= n < |batches| ensures Holds(Ingest(s, last), batches[n]) {
        IngestHolds(s, last, batches[n]);
      }
      forall r | r in Ingest(s, last).runs ensures StartedBy(Ingest(s, last), batches, r) {
        StillStarted(s, last, before, r);
      }
    }
  }

  lemma NoTimesYet()
    ensures TimesAgree(EMPTY)
  {
  }

  /** One run id, two starts: an empty batch records 5, and the next one stamps 7 under the same id. */
  lemma SecondStartIsStamped()
    ensures var o := ObservationInput("p", None, "row", None);
      var s := IngestAll(EMPTY, [Batch(RunInput("r", "s", 5), []), Batch(RunInput("r", "s", 7), [o])]);
      && Agrees(s) && s.runs["r"] == 5
      && ("s", "p") in s.identities && s.identities[("s", "p")].firstSeenRunId == "r"
      && s.identities[("s", "p")].firstSeenAt == 7
      && !TimesAgree(s)
  {
    hide Ingest, TimesAgree, Agrees;
    var o := ObservationInput("p", None, "row", None);
    var first, second := Batch(RunInput("r", "s", 5), []), Batch(RunInput("r", "s", 7), [o]);
    var s1, s2 := Ingest(EMPTY, first), Ingest(Ingest(EMPTY, first), second);
    IngestTwo(EMPTY, first, second);
    LedgerAgrees([first, second]);
    IngestKeys(EMPTY, first);
    IngestKeys(s1, second);
    RunsAfterIs(EMPTY, first);
    RunsAfterIs(s1, second);
    assert KeyOf(second.run, o) == ("s", "p") && o in second.observations;
    IngestAt(s1, second, ("s", "p"));
    WrongTime(s2, ("s", "p"));
  }

  lemma IngestTwo(s: Store, a: Batch, b: Batch)
    ensures IngestAll(s, [a, b]) == Ingest(Ingest(s, a), b)
  {
    hide Ingest;
    assert [a, b][..1] == [a] && [a][..0] == [];
    assert IngestAll(s, []) == s;
    assert IngestAll(s, [a]) == Ingest(s, a);
  }

  lemma WrongTime(s: Store, k: Key)
    requires k in s.identities && !TimesAgreeAt(s, k)
    ensures !TimesAgree(s)
  {
  }

  /** The url kept for a key is the first one anyone ever supplied. */
  lemma {:induction false} UrlIsFirstSupplied(url: Option<string>, run: RunInput, obs: seq<ObservationInput>, k: Key, i: nat)
    requires i < |obs| && KeyOf(run, obs[i]) == k && obs[i].sourceUrl.Some?
    requires url.None? && forall j | 0 <= j < i && KeyOf(run, obs[j]) == k :: obs[j].sourceUrl.None?
    ensures UrlAfter(url, run, obs, k) == obs[i].sourceUrl
  {
    var n := |obs| - 1;
    if i < n {
      UrlIsFirstSupplied(url, run, obs[..n], k, i);
    } else {
      NoUrlYet(run, obs[..n], k);
    }
  }

  lemma {:induction false} NoUrlYet(run: RunInput, obs: seq<ObservationInput>, k: Key)
    requires forall o | o in obs && KeyOf(run, o) == k :: o.sourceUrl.None?
    ensures UrlAfter(None, run, obs, k) == None
  {
    if obs != [] {
      NoUrlYet(run, obs[..|obs| - 1], k);
    }
  }

  /** A new observation row holds its own input's columns; an existing row is never rewritten. */
  lemma {:induction false} RowsHoldTheirInput(rows: map<(Id, Key), string>, run: RunInput, obs: seq<ObservationInput>, i: nat)
    requires UniqueIds(obs) && i < |obs|
    ensures var x := (run.id, KeyOf(run, obs[i]));
      x in Observes(rows, run, obs).0
      && Observes(rows, run, obs).0[x] == if x in rows then rows[x] else obs[i].payload
  {
    ObserveFacts(rows, run, obs);
    var n := |obs| - 1;
    var x := (run.id, KeyOf(run, obs[i]));
    assert obs[i] in obs && KeyOf(run, obs[i]) in Keys(run, obs);
    if i < n {
      forall a, b | 0 <= a < b < n ensures obs[..n][a].sourcePropertyId != obs[..n][b].sourcePropertyId {
      }
      RowsHoldTheirInput(rows, run, obs[..n], i);
      assert obs[i].sourcePropertyId != obs[n].sourcePropertyId;
    } else {
      ObserveFacts(rows, run, obs[..n]);
      forall o | o in obs[..n] ensures KeyOf(run, o) != KeyOf(run, obs[n]) {
        var j :| 0 <= j < n && obs[..n][j] == o;
        assert obs[j].sourcePropertyId != obs[n].sourcePropertyId;
      }
    }
  }

  // ---- Counters. ----

  /** Every creation counter is the growth of its table. */
  lemma CountersAreGrowth(s: Store, b: Batch)
    ensures var s', c := Ingest(s, b), IngestCounts(s, b);
      && c.runsCreated == |s'.runs| - |s.runs| && c.runsCreated + c.runsExisting == 1
      && c.identitiesCreated == |s'.identities| - |s.identities|
      && c.observationsCreated == |s'.observations| - |s.observations| == c.observationCountIncrements
      && c.observationsCreated + c.observationsExisting == |b.observations|
  {
    hide Keys, Upserts, Observes, Newer, RunsAfter, Ingest, Bump;
    IngestKeys(s, b);
    RunsAfterIs(s, b);
    var keys := Keys(b.run, b.observations);
    assert Ingest(s, b).identities.Keys == s.identities.Keys + (keys - s.identities.Keys);
    RunsGrow(s, b);
    ObservationsGrow(s.observations, b.run, b.observations);
    IngestObserves(s, b);
  }

  lemma RunsGrow(s: Store, b: Batch)
    ensures |RunsAfter(s.runs, b.run)| == |s.runs| + if b.run.id in s.runs then 0 else 1
  {
    assert RunsAfter(s.runs, b.run).Keys == s.runs.Keys + {b.run.id};
  }

  lemma {:induction false} ObservationsGrow(rows: map<(Id, Key), string>, run: RunInput, obs: seq<ObservationInput>)
    ensures |Observes(rows, run, obs).0| == |rows| + |Observes(rows, run, obs).1|
  {
    if obs != [] {
      ObservationsGrow(rows, run, obs[..|obs| - 1]);
      var before := Observes(rows, run, obs[..|obs| - 1]).0;
      var x := (run.id, KeyOf(run, obs[|obs| - 1]));
      assert x !in before ==> before[x := ""].Keys == before.Keys + {x};
      assert x !in before ==> |before.Keys + {x}| == |before.Keys| + 1;
      assert Observes(rows, run, obs).0.Keys == before.Keys + {x};
    }
  }

  /** `lastSeenAdvanced` counts the identities whose pointer moved. */
  lemma AdvancedCountsMovedPointers(s: Store, b: Batch)
    ensures forall k | k in s.identities :: k in Ingest(s, b).identities
    ensures IngestCounts(s, b).lastSeenAdvanced
         == |set k | k in s.identities && Ingest(s, b).identities[k].lastSeenRunId != s.identities[k].lastSeenRunId|
  {
    hide Observes, Upserts, Keys, Newer, Ingest, RunsAfter, Bump, IngestCounts, W.Advanced;
    IngestKeys(s, b);
    W.CountsAre(s, b);
    var inserted := Observes(s.observations, b.run, b.observations).1;
    var bumped := Bump(Upserts(s.identities, b.run, b.observations), inserted);
    var runs := RunsAfter(s.runs, b.run);
    var moved := set k | k in s.identities && Ingest(s, b).identities[k].lastSeenRunId != s.identities[k].lastSeenRunId;
    forall k ensures k in W.Advanced(runs, bumped, b.run, inserted) <==> k in moved {
      MovedIffAdvanced(s, b, k);
    }
    assert W.Advanced(runs, bumped, b.run, inserted) == moved;
  }

  lemma MovedIffAdvanced(s: Store, b: Batch, k: Key)
    ensures var inserted := Observes(s.observations, b.run, b.observations).1;
      var bumped := Bump(Upserts(s.identities, b.run, b.observations), inserted);
      k in W.Advanced(RunsAfter(s.runs, b.run), bumped, b.run, inserted) <==>
        k in s.identities && k in Ingest(s, b).identities
        && Ingest(s, b).identities[k].lastSeenRunId != s.identities[k].lastSeenRunId
  {
    hide Observes, Upserts, Keys, Ingest, RunsAfter;
    IngestKeys(s, b);
    ObserveFacts(s.observations, b.run, b.observations);
    UpsertFacts(s.identities, b.run, b.observations);
    if k in Ingest(s, b).identities {
      IngestAt(s, b, k);
    }
  }
}

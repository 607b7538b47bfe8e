/**
 One resolution run (resolveDestination in scripts/provider-resolution/resolver.ts): group the loaded
 observations by identity, fold each group three ways, and append the conclusions to three ledgers. The
 observation table is a sequence in the loading query's order.
 */
module ResolutionRun {
  import opened Prelude
  import opened Sequences
  import opened Resolution
  import opened RevisionLedger
  import G = Gate

  datatype Options = Options(source: string, environment: string, destinationId: Option<Id>, apply: bool)

  datatype Policies = Policies(
    classification: map<string, Policy<StarOutcome>>, scope: map<string, Policy<ScopeOutcome>>)

  datatype RunError = NoClassificationPolicy(source: string) | NoScopePolicy(source: string)

  datatype DimensionCounts = DimensionCounts(revisionsCreated: nat, pointerMoves: nat)

  /** How many identities reached each outcome: a location's is its unresolved reason, None when resolved. */
  datatype Tallies = Tallies(
    star: multiset<StarOutcome>, starConflicts: nat,
    location: multiset<Option<LocationUnresolvedReason>>, locationConflicts: nat,
    scope: multiset<ScopeOutcome>, starByScope: multiset<(StarOutcome, ScopeOutcome)>)

  datatype RunCounts = RunCounts(identities: nat, tallies: Tallies, star: DimensionCounts, location: DimensionCounts, scope: DimensionCounts)

  // ---- The semantic columns of a revision. ----

  datatype StarContent = StarContent(
    evidenceObservationId: Id, policyProvider: string, policyVersion: string, policyField: string,
    sourceValue: Option<string>, outcome: StarOutcome, resolvedStarValue: Option<int>,
    conflict: bool, conflictingObservationId: Option<Id>, conflictingOutcome: Option<StarOutcome>)

  datatype LocationContent = LocationContent(
    evidenceObservationId: Id, policyProvider: string, policyVersion: string, resolved: bool,
    latitude: Option<string>, longitude: Option<string>, unresolvedReason: Option<LocationUnresolvedReason>,
    conflict: bool, conflictingObservationId: Option<Id>)

  datatype ScopeContent = ScopeContent(
    evidenceObservationId: Id, policyProvider: string, policyVersion: string, policyField: string,
    sourceValue: Option<string>, outcome: ScopeOutcome)

  function StarEntry(s: StarResolution): Entry<StarContent> {
    Entry(s.identityId, s.source, s.environment,
          StarContent(s.evidenceObservationId, s.policyProvider, s.policyVersion, s.policyField, s.sourceValue, s.outcome,
                      s.resolvedStarValue, s.conflictObservationId.Some?, s.conflictObservationId, s.conflictOutcome))
  }

  function LocationEntry(l: LocationResolution): Entry<LocationContent> {
    Entry(l.identityId, l.source, l.environment,
          LocationContent(l.evidenceObservationId, l.policyProvider, l.policyVersion, l.resolved, l.latitude, l.longitude,
                          l.unresolvedReason, l.conflictObservationId.Some?, l.conflictObservationId))
  }

  function ScopeEntry(s: ScopeResolution): Entry<ScopeContent> {
    Entry(s.identityId, s.source, s.environment,
          ScopeContent(s.evidenceObservationId, s.policyProvider, s.policyVersion, s.policyField, s.sourceValue, s.outcome))
  }

  // ---- Loading. ----

  predicate Selected(opts: Options, o: Observation) {
    && o.source == opts.source && o.environment == opts.environment
    && (opts.destinationId.None? || o.destinationId == opts.destinationId)
  }

  function Loaded(table: seq<Observation>, opts: Options): seq<Observation> { Filter((o: Observation) => Selected(opts, o), table) }

  function OfIdentity(k: Id, rows: seq<Observation>): (ys: seq<Observation>)
    ensures forall y | y in ys :: y.identityId == k
    ensures ys != [] <==> exists o | o in rows :: o.identityId == k
  {
    var ys := Filter((o: Observation) => o.identityId == k, rows);
    assert ys != [] ==> ys[0] in ys;
    ys
  }

  function IdentityIds(rows: seq<Observation>): seq<Id> { Distinct(Map((o: Observation) => o.identityId, rows)) }

  lemma OfIdentityStep(k: Id, rows: seq<Observation>, i: nat)
    requires i < |rows|
    ensures OfIdentity(k, rows[..i + 1]) == OfIdentity(k, rows[..i]) + if rows[i].identityId == k then [rows[i]] else []
  {
    var keep := (o: Observation) => o.identityId == k;
    assert rows[..i + 1] == rows[..i] + [rows[i]];
    FilterAppend(keep, rows[..i], [rows[i]]);
    assert [rows[i]][1..] == [];
  }

  lemma IdentityIdsStep(rows: seq<Observation>, i: nat)
    requires i < |rows|
    ensures IdentityIds(rows[..i + 1])
         == IdentityIds(rows[..i]) + if rows[i].identityId in IdentityIds(rows[..i]) then [] else [rows[i].identityId]
  {
    var f := (o: Observation) => o.identityId;
    var ids := Map(f, rows[..i + 1]);
    assert ids[..i] == Map(f, rows[..i]);
  }

  /** Map insertion order, rows kept in order within each identity. */
  method LoadObservations(table: seq<Observation>, opts: Options) returns (keys: seq<Id>, grouped: map<Id, seq<Observation>>)
    ensures keys == IdentityIds(Loaded(table, opts))
    ensures grouped.Keys == set k | k in keys
    ensures forall k | k in keys :: grouped[k] == OfIdentity(k, Loaded(table, opts))
  {
    hide OfIdentity, IdentityIds;
    var rows := Loaded(table, opts);
    keys, grouped := [], map[];
    assert IdentityIds(rows[..0]) == [] by { NoRowsNoIds(rows); }
    for i := 0 to |rows|
      invariant keys == IdentityIds(rows[..i])
      invariant grouped.Keys == set k | k in keys
      invariant forall k | k in keys :: grouped[k] == OfIdentity(k, rows[..i])
    {
      var k := rows[i].identityId;
      IdentityIdsStep(rows, i);
      forall j ensures OfIdentity(j, rows[..i + 1]) == OfIdentity(j, rows[..i]) + if rows[i].identityId == j then [rows[i]] else [] {
        OfIdentityStep(j, rows, i);
      }
      if k !in grouped {
        UngroupedHasNoRows(k, rows[..i]);
        keys := keys + [k];
      }
      grouped := grouped[k := (if k in grouped then grouped[k] else []) + [rows[i]]];
    }
    assert rows[..|rows|] == rows;
  }

  lemma NoRowsNoIds(rows: seq<Observation>)
    ensures IdentityIds(rows[..0]) == []
  {
    assert Map((o: Observation) => o.identityId, rows[..0]) == [];
  }

  lemma UngroupedHasNoRows(k: Id, rows: seq<Observation>)
    requires k !in IdentityIds(rows)
    ensures OfIdentity(k, rows) == []
  {
    IdsMeaning(k, rows);
  }

  lemma IdsMeaning(k: Id, rows: seq<Observation>)
    ensures k in IdentityIds(rows) <==> exists o | o in rows :: o.identityId == k
  {
    var f := (o: Observation) => o.identityId;
    if o :| o in rows && o.identityId == k {
      var i :| 0 <= i < |rows| && rows[i] == o;
      assert Map(f, rows)[i] == k;
    }
    if k in IdentityIds(rows) {
      var i :| 0 <= i < |rows| && Map(f, rows)[i] == k;
      assert rows[i] in rows;
    }
  }

  // ---- The conclusions of a run. ----

  function StarConclusion(k: Id, rows: seq<Observation>, policy: Policy<StarOutcome>): (e: Entry<StarContent>)
    requires OfIdentity(k, rows) != []
    ensures e.identityId == k
  {
    var own := OfIdentity(k, rows);
    assert own[0] in own && own[|own| - 1] in own;
    StarEntry(StarOf(policy, own).value)
  }

  function LocationConclusion(k: Id, rows: seq<Observation>): (e: Entry<LocationContent>)
    requires OfIdentity(k, rows) != []
    ensures e.identityId == k
  {
    var own := OfIdentity(k, rows);
    assert forall i | 0 <= i < |own| :: own[i].identityId == k;
    LocationEntry(LocationOf(own).value)
  }

  function ScopeConclusion(k: Id, rows: seq<Observation>, policy: Policy<ScopeOutcome>): (e: Entry<ScopeContent>)
    requires OfIdentity(k, rows) != []
    ensures e.identityId == k
  {
    var own := OfIdentity(k, rows);
    assert forall i | 0 <= i < |own| :: own[i].identityId == k;
    ScopeEntry(ScopeOf(policy, own).value)
  }

  function StarEntries(keys: seq<Id>, rows: seq<Observation>, policy: Policy<StarOutcome>): (es: seq<Entry<StarContent>>)
    requires forall k | k in keys :: OfIdentity(k, rows) != []
    ensures |es| == |keys| && forall i | 0 <= i < |keys| :: es[i] == StarConclusion(keys[i], rows, policy)
  {
    seq(|keys|, i requires 0 <= i < |keys| => StarConclusion(keys[i], rows, policy))
  }

  function LocationEntries(keys: seq<Id>, rows: seq<Observation>): (es: seq<Entry<LocationContent>>)
    requires forall k | k in keys :: OfIdentity(k, rows) != []
    ensures |es| == |keys| && forall i | 0 <= i < |keys| :: es[i] == LocationConclusion(keys[i], rows)
  {
    seq(|keys|, i requires 0 <= i < |keys| => LocationConclusion(keys[i], rows))
  }

  function ScopeEntries(keys: seq<Id>, rows: seq<Observation>, policy: Policy<ScopeOutcome>): (es: seq<Entry<ScopeContent>>)
    requires forall k | k in keys :: OfIdentity(k, rows) != []
    ensures |es| == |keys| && forall i | 0 <= i < |keys| :: es[i] == ScopeConclusion(keys[i], rows, policy)
  {
    seq(|keys|, i requires 0 <= i < |keys| => ScopeConclusion(keys[i], rows, policy))
  }

  lemma EveryKeyHasRows(rows: seq<Observation>)
    ensures forall k | k in IdentityIds(rows) :: OfIdentity(k, rows) != []
  {
    forall k | k in IdentityIds(rows) ensures OfIdentity(k, rows) != [] {
      IdsMeaning(k, rows);
    }
  }

  function StarsOf(rows: seq<Observation>, policy: Policy<StarOutcome>): seq<Entry<StarContent>> {
    EveryKeyHasRows(rows);
    StarEntries(IdentityIds(rows), rows, policy)
  }

  function LocationsOf(rows: seq<Observation>): seq<Entry<LocationContent>> {
    EveryKeyHasRows(rows);
    LocationEntries(IdentityIds(rows), rows)
  }

  function ScopesOf(rows: seq<Observation>, policy: Policy<ScopeOutcome>): seq<Entry<ScopeContent>> {
    EveryKeyHasRows(rows);
    ScopeEntries(IdentityIds(rows), rows, policy)
  }

  lemma NoEntries(keys: seq<Id>, rows: seq<Observation>, policy: Policy<StarOutcome>, scopePolicy: Policy<ScopeOutcome>)
    ensures StarEntries(keys[..0], rows, policy) == [] && LocationEntries(keys[..0], rows) == []
    ensures ScopeEntries(keys[..0], rows, scopePolicy) == []
  {
  }

  lemma EntriesStep(keys: seq<Id>, i: nat, rows: seq<Observation>, policy: Policy<StarOutcome>, scopePolicy: Policy<ScopeOutcome>)
    requires i < |keys| && forall k | k in keys :: OfIdentity(k, rows) != []
    ensures forall k | k in keys[..i + 1] :: k in keys
    ensures forall k | k in keys[..i] :: k in keys
    ensures StarEntries(keys[..i + 1], rows, policy) == StarEntries(keys[..i], rows, policy) + [StarConclusion(keys[i], rows, policy)]
    ensures LocationEntries(keys[..i + 1], rows) == LocationEntries(keys[..i], rows) + [LocationConclusion(keys[i], rows)]
    ensures ScopeEntries(keys[..i + 1], rows, scopePolicy)
         == ScopeEntries(keys[..i], rows, scopePolicy) + [ScopeConclusion(keys[i], rows, scopePolicy)]
  {
    hide OfIdentity, StarConclusion, LocationConclusion, ScopeConclusion;
    assert keys[..i + 1] == keys[..i] + [keys[i]];
  }

  /** Read off the conclusions themselves. */
  function TalliesOf(stars: seq<Entry<StarContent>>, locations: seq<Entry<LocationContent>>, scopes: seq<Entry<ScopeContent>>): Tallies
    requires |stars| == |scopes|
  {
    Tallies(
      multiset(Map((e: Entry<StarContent>) => e.content.outcome, stars)),
      |Filter((e: Entry<StarContent>) => e.content.conflictingObservationId.Some?, stars)|,
      multiset(Map((e: Entry<LocationContent>) => e.content.unresolvedReason, locations)),
      |Filter((e: Entry<LocationContent>) => e.content.conflictingObservationId.Some?, locations)|,
      multiset(Map((e: Entry<ScopeContent>) => e.content.outcome, scopes)),
      multiset(seq(|stars|, i requires 0 <= i < |stars| => (stars[i].content.outcome, scopes[i].content.outcome))))
  }

  const NO_TALLIES := Tallies(multiset{}, 0, multiset{}, 0, multiset{}, multiset{})

  function Tally(t: Tallies, s: StarContent, l: LocationContent, c: ScopeContent): Tallies {
    Tallies(t.star + multiset{s.outcome}, t.starConflicts + if s.conflictingObservationId.Some? then 1 else 0,
            t.location + multiset{l.unresolvedReason}, t.locationConflicts + if l.conflictingObservationId.Some? then 1 else 0,
            t.scope + multiset{c.outcome}, t.starByScope + multiset{(s.outcome, c.outcome)})
  }

  lemma NothingTallied()
    ensures TalliesOf([], [], []) == NO_TALLIES
  {
  }

  lemma MapAppend<T, U>(f: T -> U, xs: seq<T>, x: T)
    ensures Map(f, xs + [x]) == Map(f, xs) + [f(x)]
  {
  }

  lemma CountAppend<T(!new)>(keep: T -> bool, xs: seq<T>, x: T)
    ensures |Filter(keep, xs + [x])| == |Filter(keep, xs)| + if keep(x) then 1 else 0
  {
    FilterAppend(keep, xs, [x]);
    assert [x][1..] == [];
  }

  lemma OneMoreTallied(
    stars: seq<Entry<StarContent>>, locations: seq<Entry<LocationContent>>, scopes: seq<Entry<ScopeContent>>,
    s: Entry<StarContent>, l: Entry<LocationContent>, c: Entry<ScopeContent>)
    requires |stars| == |scopes|
    ensures TalliesOf(stars + [s], locations + [l], scopes + [c]) == Tally(TalliesOf(stars, locations, scopes), s.content, l.content, c.content)
  {
    hide Filter, Map;
    MapAppend((e: Entry<StarContent>) => e.content.outcome, stars, s);
    MapAppend((e: Entry<LocationContent>) => e.content.unresolvedReason, locations, l);
    MapAppend((e: Entry<ScopeContent>) => e.content.outcome, scopes, c);
    CountAppend((e: Entry<StarContent>) => e.content.conflictingObservationId.Some?, stars, s);
    CountAppend((e: Entry<LocationContent>) => e.content.conflictingObservationId.Some?, locations, l);
    var stars', scopes' := stars + [s], scopes + [c];
    assert seq(|stars'|, i requires 0 <= i < |stars'| => (stars'[i].content.outcome, scopes'[i].content.outcome))
        == seq(|stars|, i requires 0 <= i < |stars| => (stars[i].content.outcome, scopes[i].content.outcome)) + [(s.content.outcome, c.content.outcome)];
  }

  method FoldAll(table: seq<Observation>, opts: Options, policy: Policy<StarOutcome>, scopePolicy: Policy<ScopeOutcome>)
    returns (identities: nat, tallies: Tallies,
             stars: seq<Entry<StarContent>>, locations: seq<Entry<LocationContent>>, scopes: seq<Entry<ScopeContent>>)
    ensures identities == |IdentityIds(Loaded(table, opts))|
    ensures stars == StarsOf(Loaded(table, opts), policy)
    ensures locations == LocationsOf(Loaded(table, opts))
    ensures scopes == ScopesOf(Loaded(table, opts), scopePolicy)
    ensures |stars| == |scopes| && tallies == TalliesOf(stars, locations, scopes)
  {
    hide TalliesOf;
    hide OfIdentity, IdentityIds, Loaded, StarEntry, LocationEntry, ScopeEntry, StarFold, LocationFold, ScopeFold;
    hide StarEntries, LocationEntries, ScopeEntries;
    ghost var rows := Loaded(table, opts);
    var keys, grouped := LoadObservations(table, opts);
    EveryKeyHasRows(rows);
    identities, stars, locations, scopes := 0, [], [], [];
    NoEntries(keys, rows, policy, scopePolicy);
    tallies := NO_TALLIES;
    NothingTallied();
    for i := 0 to |keys|
      invariant identities == i
      invariant forall k | k in keys[..i] :: k in keys
      invariant stars == StarEntries(keys[..i], rows, policy)
      invariant locations == LocationEntries(keys[..i], rows)
      invariant scopes == ScopeEntries(keys[..i], rows, scopePolicy)
      invariant |stars| == |scopes| == i && tallies == TalliesOf(stars, locations, scopes)
    {
      EntriesStep(keys, i, rows, policy, scopePolicy);
      var observations := grouped[keys[i]];
      assert observations == OfIdentity(keys[i], rows);
      identities := identities + 1;
      ghost var was := (stars, locations, scopes);
      var star := ResolveStarFromObservations(observations, policy);
      if star.Some? {
        stars := stars + [StarEntry(star.value)];
      }
      var location := ResolveLocationFromObservations(observations);
      if location.Some? {
        locations := locations + [LocationEntry(location.value)];
      }
      var scope := ResolveScopeFromObservations(observations, scopePolicy);
      if scope.Some? {
        scopes := scopes + [ScopeEntry(scope.value)];
      }
      if star.Some? && location.Some? && scope.Some? {
        OneMoreTallied(was.0, was.1, was.2, StarEntry(star.value), LocationEntry(location.value), ScopeEntry(scope.value));
        tallies := Tally(tallies, StarEntry(star.value).content, LocationEntry(location.value).content, ScopeEntry(scope.value).content);
      }
    }
    assert keys[..|keys|] == keys;
  }

  class ResolutionTables {
    const stars: Ledger<StarContent>
    const locations: Ledger<LocationContent>
    const scopes: Ledger<ScopeContent>

    constructor ()
      ensures fresh(stars) && fresh(locations) && fresh(scopes)
      ensures stars.Current() == State([], map[]) && locations.Current() == State([], map[]) && scopes.Current() == State([], map[])
    {
      stars := new Ledger();
      locations := new Ledger();
      scopes := new Ledger();
    }

    method ResolveDestination(table: seq<Observation>, opts: Options, policies: Policies) returns (r: Result<RunCounts, RunError>)
      modifies stars, locations, scopes
      ensures r.Ok? <==> opts.source in policies.classification && opts.source in policies.scope
      ensures r.Err? ==> r.error == if opts.source !in policies.classification then NoClassificationPolicy(opts.source) else NoScopePolicy(opts.source)
      ensures r.Ok? && opts.apply ==>
        var rows, p, q := Loaded(table, opts), policies.classification[opts.source], policies.scope[opts.source];
        && stars.Current() == AppendAll(old(stars.Current()), StarsOf(rows, p), old(stars.heads))
        && locations.Current() == AppendAll(old(locations.Current()), LocationsOf(rows), old(locations.heads))
        && scopes.Current() == AppendAll(old(scopes.Current()), ScopesOf(rows, q), old(scopes.heads))
        && r.value == RunCounts(|IdentityIds(rows)|, TalliesOf(StarsOf(rows, p), LocationsOf(rows), ScopesOf(rows, q)),
             DimensionCounts(CreatedBy(old(stars.Current()), StarsOf(rows, p), old(stars.heads)),
                             MovedBy(old(stars.Current()), StarsOf(rows, p), old(stars.heads))),
             DimensionCounts(CreatedBy(old(locations.Current()), LocationsOf(rows), old(locations.heads)),
                             MovedBy(old(locations.Current()), LocationsOf(rows), old(locations.heads))),
             DimensionCounts(CreatedBy(old(scopes.Current()), ScopesOf(rows, q), old(scopes.heads)),
                             MovedBy(old(scopes.Current()), ScopesOf(rows, q), old(scopes.heads))))
      ensures r.Err? || !opts.apply ==>
        stars.Current() == old(stars.Current()) && locations.Current() == old(locations.Current())
        && scopes.Current() == old(scopes.Current())
      ensures r.Ok? && !opts.apply ==>
        var rows, p, q := Loaded(table, opts), policies.classification[opts.source], policies.scope[opts.source];
        r.value == RunCounts(|IdentityIds(rows)|, TalliesOf(StarsOf(rows, p), LocationsOf(rows), ScopesOf(rows, q)),
                             DimensionCounts(0, 0), DimensionCounts(0, 0), DimensionCounts(0, 0))
    {
      hide StarEntries, LocationEntries, ScopeEntries, IdentityIds, Loaded, AppendAll, CreatedBy, MovedBy, TalliesOf;
      if opts.source !in policies.classification {
        return Err(NoClassificationPolicy(opts.source));
      }
      if opts.source !in policies.scope {
        return Err(NoScopePolicy(opts.source));
      }
      var identities, tallies, starEntries, locationEntries, scopeEntries :=
        FoldAll(table, opts, policies.classification[opts.source], policies.scope[opts.source]);
      if !opts.apply {
        return Ok(RunCounts(identities, tallies, DimensionCounts(0, 0), DimensionCounts(0, 0), DimensionCounts(0, 0)));
      }
      var starCreated, starMoved := stars.AppendConclusions(starEntries);
      var locationCreated, locationMoved := locations.AppendConclusions(locationEntries);
      var scopeCreated, scopeMoved := scopes.AppendConclusions(scopeEntries);
      return Ok(RunCounts(identities, tallies, DimensionCounts(starCreated, starMoved),
                          DimensionCounts(locationCreated, locationMoved), DimensionCounts(scopeCreated, scopeMoved)));
    }
  }

  // ---- The ledger refines recomputation. ----

  /** After a run every loaded identity's head restates the fold of its rows; a replay is idle. */
  lemma HeadsRestateTheFold<C>(s: State<C>, entries: seq<Entry<C>>, keys: seq<Id>)
    requires Sound(s) && |entries| == |keys| && (forall i | 0 <= i < |keys| :: entries[i].identityId == keys[i])
    requires forall i, j | 0 <= i < j < |keys| :: keys[i] != keys[j]
    ensures var s' := AppendAll(s, entries, s.heads);
      && Sound(s') && s.revisions <= s'.revisions
      && (forall i | 0 <= i < |entries| :: Names(s', entries[i]))
      && (forall k | k !in keys :: HeadOf(s', k) == HeadOf(s, k))
      && AppendAll(s', entries, s'.heads) == s' && CreatedBy(s', entries, s'.heads) == 0 && MovedBy(s', entries, s'.heads) == 0
  {
    hide Sound, Names, AppendAll, CreatedBy, MovedBy, HeadOf;
    assert OnePerIdentity(entries);
    RunIsSound(s, entries);
    ReplayIsIdle(s, entries);
    forall k | k !in keys ensures k !in Identities(entries) {
    }
  }

  lemma StarHeadsRestateTheFold(s: State<StarContent>, table: seq<Observation>, opts: Options, policy: Policy<StarOutcome>, k: Id)
    requires Sound(s) && OfIdentity(k, Loaded(table, opts)) != []
    ensures var s' := AppendAll(s, StarsOf(Loaded(table, opts), policy), s.heads);
      Names(s', StarEntry(StarOf(policy, OfIdentity(k, Loaded(table, opts))).value))
  {
    hide Sound, Names, AppendAll, CreatedBy, MovedBy, StarFold, StarEntry, OfIdentity, IdentityIds, Loaded;
    var rows := Loaded(table, opts);
    var i := KeyIndex(k, rows);
    DistinctKeys(rows);
    HeadsRestateTheFold(s, StarsOf(rows, policy), IdentityIds(rows));
    assert StarsOf(rows, policy)[i] == StarEntry(StarOf(policy, OfIdentity(k, rows)).value);
  }

  lemma LocationHeadsRestateTheFold(s: State<LocationContent>, table: seq<Observation>, opts: Options, k: Id)
    requires Sound(s) && OfIdentity(k, Loaded(table, opts)) != []
    ensures var s' := AppendAll(s, LocationsOf(Loaded(table, opts)), s.heads);
      Names(s', LocationEntry(LocationOf(OfIdentity(k, Loaded(table, opts))).value))
  {
    hide Sound, Names, AppendAll, CreatedBy, MovedBy, LocationFold, LocationEntry, OfIdentity, IdentityIds, Loaded;
    var rows := Loaded(table, opts);
    var i := KeyIndex(k, rows);
    DistinctKeys(rows);
    HeadsRestateTheFold(s, LocationsOf(rows), IdentityIds(rows));
    assert LocationsOf(rows)[i] == LocationEntry(LocationOf(OfIdentity(k, rows)).value);
  }

  lemma ScopeHeadsRestateTheFold(s: State<ScopeContent>, table: seq<Observation>, opts: Options, policy: Policy<ScopeOutcome>, k: Id)
    requires Sound(s) && OfIdentity(k, Loaded(table, opts)) != []
    ensures var s' := AppendAll(s, ScopesOf(Loaded(table, opts), policy), s.heads);
      Names(s', ScopeEntry(ScopeOf(policy, OfIdentity(k, Loaded(table, opts))).value))
  {
    hide Sound, Names, AppendAll, CreatedBy, MovedBy, ScopeFold, ScopeEntry, OfIdentity, IdentityIds, Loaded;
    var rows := Loaded(table, opts);
    var i := KeyIndex(k, rows);
    DistinctKeys(rows);
    HeadsRestateTheFold(s, ScopesOf(rows, policy), IdentityIds(rows));
    assert ScopesOf(rows, policy)[i] == ScopeEntry(ScopeOf(policy, OfIdentity(k, rows)).value);
  }

  lemma DistinctKeys(rows: seq<Observation>)
    ensures forall i, j | 0 <= i < j < |IdentityIds(rows)| :: IdentityIds(rows)[i] != IdentityIds(rows)[j]
  {
  }

  lemma KeyIndex(k: Id, rows: seq<Observation>) returns (i: nat)
    requires OfIdentity(k, rows) != []
    ensures i < |IdentityIds(rows)| && IdentityIds(rows)[i] == k
  {
    IdsMeaning(k, rows);
    i :| 0 <= i < |IdentityIds(rows)| && IdentityIds(rows)[i] == k;
  }

  /** With no destination filter the loaded rows of an identity are all its observations. */
  lemma NullDestinationSeesAll(table: seq<Observation>, opts: Options, k: Id)
    requires opts.destinationId.None?
    requires forall o | o in table && o.identityId == k :: o.source == opts.source && o.environment == opts.environment
    ensures OfIdentity(k, Loaded(table, opts)) == OfIdentity(k, table)
  {
    FilterTwice((o: Observation) => Selected(opts, o), (o: Observation) => o.identityId == k, table);
  }

  /**
   With no destination filter, after a run the three heads of every identity state the three folds of all its
   observations.
   */
  lemma HeadsRestateEveryObservation(
    stars: State<StarContent>, locations: State<LocationContent>, scopes: State<ScopeContent>,
    table: seq<Observation>, opts: Options, policy: Policy<StarOutcome>, scopePolicy: Policy<ScopeOutcome>, k: Id)
    requires Sound(stars) && Sound(locations) && Sound(scopes)
    requires opts.destinationId.None? && OfIdentity(k, table) != []
    requires forall o | o in table && o.identityId == k :: o.source == opts.source && o.environment == opts.environment
    ensures var rows, all := Loaded(table, opts), OfIdentity(k, table);
      && Names(AppendAll(stars, StarsOf(rows, policy), stars.heads), StarEntry(StarOf(policy, all).value))
      && Names(AppendAll(locations, LocationsOf(rows), locations.heads), LocationEntry(LocationOf(all).value))
      && Names(AppendAll(scopes, ScopesOf(rows, scopePolicy), scopes.heads), ScopeEntry(ScopeOf(scopePolicy, all).value))
  {
    hide Sound, Names, AppendAll, StarFold, LocationFold, ScopeFold, StarEntry, LocationEntry, ScopeEntry, OfIdentity, Loaded;
    hide StarsOf, LocationsOf, ScopesOf;
    NullDestinationSeesAll(table, opts, k);
    StarHeadsRestateTheFold(stars, table, opts, policy, k);
    LocationHeadsRestateTheFold(locations, table, opts, k);
    ScopeHeadsRestateTheFold(scopes, table, opts, scopePolicy, k);
  }

  lemma {:induction false} FilterTwice<T(!new)>(p: T -> bool, q: T -> bool, xs: seq<T>)
    requires forall x | x in xs && q(x) :: p(x)
    ensures Filter(q, Filter(p, xs)) == Filter(q, xs)
  {
    if xs != [] {
      var rest := Filter(p, xs[1..]);
      assert xs[0] in xs;
      FilterTwice(p, q, xs[1..]);
      if p(xs[0]) {
        assert Filter(p, xs) == [xs[0]] + rest;
        assert ([xs[0]] + rest)[1..] == rest;
      } else {
        assert Filter(p, xs) == rest;
      }
    }
  }

  // ---- What the revision tables' own checks demand. ----

  /** The value and conflict checks of the star revision table. */
  predicate AdmissibleStar(c: StarContent) {
    && (c.outcome == G.ExactFour ==> c.resolvedStarValue == Some(4))
    && (c.outcome == G.ExactFive ==> c.resolvedStarValue == Some(5))
    && (c.outcome == G.ClassifiedNotV1Scope || c.outcome == G.StarUnresolved ==> c.resolvedStarValue == None)
    && (c.conflict <==> c.conflictingObservationId.Some?) && (c.conflict <==> c.conflictingOutcome.Some?)
    && (c.conflict ==> c.conflictingOutcome != Some(G.StarUnresolved) && c.outcome != G.StarUnresolved
                       && c.conflictingOutcome != Some(c.outcome)
                       && c.conflictingObservationId != Some(c.evidenceObservationId))
  }

  predicate UniqueIds(obs: seq<Observation>) { forall i, j | 0 <= i < j < |obs| :: obs[i].id != obs[j].id }

  /** Every conclusion the star fold reaches passes the table's checks: none can abort the run. */
  lemma StarConclusionsAreAdmissible(policy: Policy<StarOutcome>, obs: seq<Observation>)
    requires obs != [] && UniqueIds(obs)
    ensures AdmissibleStar(StarEntry(StarOf(policy, obs).value).content)
  {
    hide FirstDecides, ClassifyProviderCode;
    FirstDecidesMeaning(StarUsable(policy), StarAgrees(policy), obs);
  }
}

/**
 A resolution run over the observation rows and the mapping tables (scripts/provider-resolution/resolver.ts): which
 rows are loaded, and what the three heads of an identity say afterwards.
 */
module ResolutionRows {
  import opened Prelude
  import opened Sequences
  import opened Resolution
  import opened ResolutionMeaning
  import opened RevisionLedger
  import opened ResolutionRun
  import G = Gate

  /** The rows of the run's source and environment, and of its destination when one is asked for. */
  lemma LoadedMeaning(table: seq<Observation>, opts: Options, o: Observation)
    ensures o in Loaded(table, opts) <==>
      && o in table && o.source == opts.source && o.environment == opts.environment
      && (opts.destinationId.Some? ==> o.destinationId == opts.destinationId)
  {
  }

  /** Grouping keeps an identity's own loaded rows and nothing else. */
  lemma OwnRows(table: seq<Observation>, opts: Options, k: Id, o: Observation)
    ensures o in OfIdentity(k, Loaded(table, opts)) <==> o in Loaded(table, opts) && o.identityId == k
  {
    hide Loaded;
  }

  // ---- The columns of a revision, each from its own part of the conclusion. ----

  lemma StarColumns(r: StarResolution)
    ensures var e := StarEntry(r);
      && e.identityId == r.identityId && e.source == r.source && e.environment == r.environment
      && var c := e.content;
         && c.evidenceObservationId == r.evidenceObservationId && c.policyProvider == r.policyProvider
         && c.policyVersion == r.policyVersion && c.policyField == r.policyField && c.sourceValue == r.sourceValue
         && c.outcome == r.outcome && c.resolvedStarValue == r.resolvedStarValue
         && (c.conflict <==> r.conflictObservationId.Some?) && c.conflictingObservationId == r.conflictObservationId
         && c.conflictingOutcome == r.conflictOutcome
  {
  }

  lemma LocationColumns(r: LocationResolution)
    ensures var e := LocationEntry(r);
      && e.identityId == r.identityId && e.source == r.source && e.environment == r.environment
      && var c := e.content;
         && c.evidenceObservationId == r.evidenceObservationId && c.policyProvider == r.policyProvider
         && c.policyVersion == r.policyVersion && c.resolved == r.resolved && c.latitude == r.latitude
         && c.longitude == r.longitude && c.unresolvedReason == r.unresolvedReason
         && (c.conflict <==> r.conflictObservationId.Some?) && c.conflictingObservationId == r.conflictObservationId
  {
  }

  lemma ScopeColumns(r: ScopeResolution)
    ensures var e := ScopeEntry(r);
      && e.identityId == r.identityId && e.source == r.source && e.environment == r.environment
      && var c := e.content;
         && c.evidenceObservationId == r.evidenceObservationId && c.policyProvider == r.policyProvider
         && c.policyVersion == r.policyVersion && c.policyField == r.policyField && c.sourceValue == r.sourceValue
         && c.outcome == r.outcome
  {
  }

  // ---- The heads after a run. ----

  /** The identity's head revision, if it has one. */
  function HeadContent<C>(s: State<C>, k: Id): Option<C> {
    if k in s.heads && s.heads[k] < |s.revisions| then Some(s.revisions[s.heads[k]].entry.content) else None
  }

  predicate StarHeadSays(c: StarContent, policy: Policy<StarOutcome>, own: seq<Observation>, i: nat)
    requires i < |own|
  {
    && StarSays(policy, own[i], c.outcome) && (forall j | 0 <= j < i :: StarSilent(policy, own[j]))
    && c.evidenceObservationId == own[i].id && c.sourceValue == own[i].classificationCode
    && c.resolvedStarValue == (if c.outcome.ExactFour? then Some(4) else if c.outcome.ExactFive? then Some(5) else None)
  }

  /**
   After a run the star head of a loaded identity says what the mapping table says of its first row with a meaning, and
   is unresolved, citing its last row, when no row has one.
   */
  lemma StarHeadAfterRun(s: State<StarContent>, table: seq<Observation>, opts: Options, policy: Policy<StarOutcome>, k: Id)
    requires Sound(s) && OfIdentity(k, Loaded(table, opts)) != []
    ensures var s', own := AppendAll(s, StarsOf(Loaded(table, opts), policy), s.heads), OfIdentity(k, Loaded(table, opts));
      && HeadContent(s', k).Some?
      && var c := HeadContent(s', k).value;
         && c.policyProvider == policy.provider && c.policyVersion == policy.version && c.policyField == policy.field
         && (|| (exists i | 0 <= i < |own| :: StarHeadSays(c, policy, own, i))
             || (c.outcome.StarUnresolved? && (forall j | 0 <= j < |own| :: StarSilent(policy, own[j]))
                 && c.evidenceObservationId == own[|own| - 1].id))
         && (c.conflict <==> exists i, j, v, w | 0 <= i < |own| && 0 <= j < |own| ::
               StarSays(policy, own[i], v) && StarSays(policy, own[j], w) && v != w)
  {
    hide AppendAll, Sound, OfIdentity, Loaded, StarsOf, StarOf, StarSays, StarSilent, StarEntry;
    var own := OfIdentity(k, Loaded(table, opts));
    StarHeadsRestateTheFold(s, table, opts, policy, k);
    StarOverMappings(policy, own);
    var r := StarOf(policy, own).value;
    StarColumns(r);
    OwnIdentity(k, Loaded(table, opts));
    if i :| 0 <= i < |own| && StarDecidedBy(r, policy, own, i) {
      assert StarHeadSays(HeadContent(AppendAll(s, StarsOf(Loaded(table, opts), policy), s.heads), k).value, policy, own, i);
    }
  }

  lemma OwnIdentity(k: Id, rows: seq<Observation>)
    ensures forall i | 0 <= i < |OfIdentity(k, rows)| :: OfIdentity(k, rows)[i].identityId == k
  {
    var own := OfIdentity(k, rows);
    forall i | 0 <= i < |own| ensures own[i].identityId == k { assert own[i] in own; }
  }

  /** The location head cites the first usable point of the identity's rows, with its own coordinates, or the last row. */
  lemma LocationHeadAfterRun(s: State<LocationContent>, table: seq<Observation>, opts: Options, k: Id)
    requires Sound(s) && OfIdentity(k, Loaded(table, opts)) != []
    ensures var s', own := AppendAll(s, LocationsOf(Loaded(table, opts)), s.heads), OfIdentity(k, Loaded(table, opts));
      && HeadContent(s', k).Some?
      && var c := HeadContent(s', k).value;
         && c.policyVersion == "hotelbeds-location/1"
         && (|| (exists i | 0 <= i < |own| :: LocationHeadSays(c, own, i))
             || (!c.resolved && (forall j | 0 <= j < |own| :: !UsablePoint(own[j])) && c.evidenceObservationId == own[|own| - 1].id
                 && c.latitude.None? && c.longitude.None? && !c.conflict))
  {
    hide AppendAll, Sound, OfIdentity, Loaded, LocationsOf, LocationOf, UsablePoint, SamePlace, LocationEntry;
    var own := OfIdentity(k, Loaded(table, opts));
    LocationHeadsRestateTheFold(s, table, opts, k);
    LocationOverColumns(own);
    var r := LocationOf(own).value;
    LocationColumns(r);
    OwnIdentity(k, Loaded(table, opts));
    if i :| 0 <= i < |own| && LocationDecidedBy(r, own, i) {
      assert LocationHeadSays(HeadContent(AppendAll(s, LocationsOf(Loaded(table, opts)), s.heads), k).value, own, i);
    }
  }

  predicate LocationHeadSays(c: LocationContent, own: seq<Observation>, i: nat)
    requires i < |own|
  {
    && c.resolved && UsablePoint(own[i]) && (forall j | 0 <= j < i :: !UsablePoint(own[j]))
    && c.evidenceObservationId == own[i].id && c.latitude == own[i].latitude && c.longitude == own[i].longitude
    && (c.conflict <==> exists j | i < j < |own| :: UsablePoint(own[j]) && !SamePlace(own[j], own[i]))
  }

  /** The scope head says what the mapping table says of the identity's last row with a meaning, else it cites the last row. */
  lemma ScopeHeadAfterRun(s: State<ScopeContent>, table: seq<Observation>, opts: Options, policy: Policy<ScopeOutcome>, k: Id)
    requires Sound(s) && OfIdentity(k, Loaded(table, opts)) != []
    ensures var s', own := AppendAll(s, ScopesOf(Loaded(table, opts), policy), s.heads), OfIdentity(k, Loaded(table, opts));
      && HeadContent(s', k).Some?
      && var c := HeadContent(s', k).value;
         && c.policyProvider == policy.provider && c.policyVersion == policy.version && c.policyField == policy.field
         && (|| (exists i | 0 <= i < |own| :: ScopeHeadSays(c, policy, own, i))
             || (c.outcome.ScopeUnresolved? && (forall j | 0 <= j < |own| :: ScopeSilent(policy, own[j]))
                 && c.evidenceObservationId == own[|own| - 1].id))
  {
    hide AppendAll, Sound, OfIdentity, Loaded, ScopesOf, ScopeOf, ScopeSilent, ScopeEntry;
    var own := OfIdentity(k, Loaded(table, opts));
    ScopeHeadsRestateTheFold(s, table, opts, policy, k);
    ScopeOverMappings(policy, own);
    var r := ScopeOf(policy, own).value;
    ScopeColumns(r);
    OwnIdentity(k, Loaded(table, opts));
    if i :| 0 <= i < |own| && ScopeDecidedBy(r, policy, own, i) {
      assert ScopeHeadSays(HeadContent(AppendAll(s, ScopesOf(Loaded(table, opts), policy), s.heads), k).value, policy, own, i);
    }
  }

  predicate ScopeHeadSays(c: ScopeContent, policy: Policy<ScopeOutcome>, own: seq<Observation>, i: nat)
    requires i < |own|
  {
    && Says(policy.mappings, own[i].propertyTypeCode, G.ScopeUnresolved, c.outcome)
    && (forall j | i < j < |own| :: ScopeSilent(policy, own[j]))
    && c.evidenceObservationId == own[i].id && c.sourceValue == own[i].propertyTypeCode
  }
}

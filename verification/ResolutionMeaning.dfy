/**
 The three folds read off the reviewed mapping tables and the observations' own columns
 (scripts/provider-resolution/resolver.ts, scripts/provider-classification/policy.ts): which row decides, which
 one conflicts, and that a code nobody reviewed says nothing.
 */
module ResolutionMeaning {
  import opened Prelude
  import opened CanonicalNumeric
  import opened Resolution
  import G = Gate

  /** The reviewed table gives this exact code a meaning. */
  predicate Says<O(==)>(mappings: map<string, O>, code: Option<string>, unresolved: O, meaning: O) {
    code.Some? && code.value in mappings && mappings[code.value] == meaning && meaning != unresolved
  }

  predicate Silent<O(==)>(mappings: map<string, O>, code: Option<string>, unresolved: O) {
    code.None? || code.value !in mappings || mappings[code.value] == unresolved
  }

  predicate StarSays(policy: Policy<StarOutcome>, o: Observation, meaning: StarOutcome) {
    Says(policy.mappings, o.classificationCode, G.StarUnresolved, meaning)
  }

  predicate StarSilent(policy: Policy<StarOutcome>, o: Observation) {
    Silent(policy.mappings, o.classificationCode, G.StarUnresolved)
  }

  predicate ScopeSilent(policy: Policy<ScopeOutcome>, o: Observation) {
    Silent(policy.mappings, o.propertyTypeCode, G.ScopeUnresolved)
  }

  lemma ClassifyMeaning(policy: Policy<StarOutcome>, o: Observation)
    ensures StarSilent(policy, o) <==> ClassifyProviderCode(policy, o.classificationCode) == G.StarUnresolved
    ensures forall v :: StarSays(policy, o, v) <==>
              v != G.StarUnresolved && ClassifyProviderCode(policy, o.classificationCode) == v
  {
  }

  lemma StarReadings(policy: Policy<StarOutcome>, obs: seq<Observation>)
    ensures forall k | 0 <= k < |obs| ::
      && (StarSilent(policy, obs[k]) <==> !StarUsable(policy)(obs[k]))
      && (StarUsable(policy)(obs[k]) ==> StarSays(policy, obs[k], ClassifyProviderCode(policy, obs[k].classificationCode)))
      && (forall v :: StarSays(policy, obs[k], v) ==>
            v == ClassifyProviderCode(policy, obs[k].classificationCode) && StarUsable(policy)(obs[k]))
  {
    hide ClassifyProviderCode, StarSays, StarSilent;
    forall k | 0 <= k < |obs|
      ensures StarSilent(policy, obs[k]) <==> !StarUsable(policy)(obs[k])
      ensures StarUsable(policy)(obs[k]) ==> StarSays(policy, obs[k], ClassifyProviderCode(policy, obs[k].classificationCode))
      ensures forall v :: StarSays(policy, obs[k], v) ==>
                v == ClassifyProviderCode(policy, obs[k].classificationCode) && StarUsable(policy)(obs[k])
    {
      ClassifyMeaning(policy, obs[k]);
    }
  }

  // ---- Star. ----

  /** Row `i` decides the star: the first the table gives a meaning, which is the outcome. */
  predicate StarDecidedBy(r: StarResolution, policy: Policy<StarOutcome>, obs: seq<Observation>, i: nat)
    requires i < |obs|
  {
    && StarSays(policy, obs[i], r.outcome) && (forall k | 0 <= k < i :: StarSilent(policy, obs[k]))
    && r.evidenceObservationId == obs[i].id && r.source == obs[i].source && r.environment == obs[i].environment
    && r.sourceValue == obs[i].classificationCode && r.identityId == obs[0].identityId
    && r.resolvedStarValue == (if r.outcome.ExactFour? then Some(4) else if r.outcome.ExactFive? then Some(5) else None)
  }

  /** Row `j` is the conflict on record: the first the table gives another meaning. */
  predicate StarConflictsAt(r: StarResolution, policy: Policy<StarOutcome>, obs: seq<Observation>, j: nat)
    requires j < |obs|
  {
    && r.conflictObservationId == Some(obs[j].id) && r.conflictOutcome.Some?
    && StarSays(policy, obs[j], r.conflictOutcome.value) && r.conflictOutcome.value != r.outcome
    && forall k | 0 <= k < j :: StarSilent(policy, obs[k]) || StarSays(policy, obs[k], r.outcome)
  }

  predicate StarUndecided(r: StarResolution, policy: Policy<StarOutcome>, obs: seq<Observation>)
    requires obs != []
  {
    var latest := obs[|obs| - 1];
    && r.outcome.StarUnresolved? && (forall k | 0 <= k < |obs| :: StarSilent(policy, obs[k]))
    && r.evidenceObservationId == latest.id && r.source == latest.source && r.environment == latest.environment
    && r.sourceValue == latest.classificationCode && r.identityId == latest.identityId
    && r.resolvedStarValue.None? && r.conflictObservationId.None? && r.conflictOutcome.None?
  }

  predicate QuotesPolicy<O>(provider: string, version: string, field: string, policy: Policy<O>) {
    provider == policy.provider && version == policy.version && field == policy.field
  }

  /** The star conclusion, whole, over the mapping table: no row is read through the classifier. */
  lemma StarOverMappings(policy: Policy<StarOutcome>, obs: seq<Observation>)
    requires obs != []
    ensures StarOf(policy, obs).Some?
    ensures var r := StarOf(policy, obs).value;
      && QuotesPolicy(r.policyProvider, r.policyVersion, r.policyField, policy)
      && (StarUndecided(r, policy, obs) || exists i | 0 <= i < |obs| :: StarDecidedBy(r, policy, obs, i))
      && ((r.conflictObservationId.None? && r.conflictOutcome.None?)
          || exists j | 0 <= j < |obs| :: StarConflictsAt(r, policy, obs, j))
      && (r.outcome != G.StarUnresolved <==> exists i | 0 <= i < |obs| :: !StarSilent(policy, obs[i]))
      && (r.conflictObservationId.Some? <==>
          exists i, j, v, w | 0 <= i < |obs| && 0 <= j < |obs| ::
            StarSays(policy, obs[i], v) && StarSays(policy, obs[j], w) && v != w)
  {
    hide FirstDecides, ClassifyProviderCode, StarSays, StarSilent;
    FirstDecidesMeaning(StarUsable(policy), StarAgrees(policy), obs);
    StarReadings(policy, obs);
    var f := StarFold(policy, obs);
    var r := StarOf(policy, obs).value;
    if f.decided.Some? {
      assert StarDecidedBy(r, policy, obs, f.decided.value);
    } else {
      assert StarUndecided(r, policy, obs);
    }
    StarConflictOverMappings(policy, obs);
  }

  lemma StarConflictOverMappings(policy: Policy<StarOutcome>, obs: seq<Observation>)
    requires obs != []
    ensures var r := StarOf(policy, obs).value;
      && ((r.conflictObservationId.None? && r.conflictOutcome.None?)
          || exists j | 0 <= j < |obs| :: StarConflictsAt(r, policy, obs, j))
      && (r.conflictObservationId.Some? <==>
          exists i, j, v, w | 0 <= i < |obs| && 0 <= j < |obs| ::
            StarSays(policy, obs[i], v) && StarSays(policy, obs[j], w) && v != w)
  {
    hide FirstDecides, ClassifyProviderCode, StarSays, StarSilent;
    FirstDecidesMeaning(StarUsable(policy), StarAgrees(policy), obs);
    StarReadings(policy, obs);
    StarConflictIff(policy, obs);
    var f := StarFold(policy, obs);
    var r := StarOf(policy, obs).value;
    if f.conflict.Some? {
      var d, j := f.decided.value, f.conflict.value;
      forall k | 0 <= k < j ensures StarSilent(policy, obs[k]) || StarSays(policy, obs[k], r.outcome) {
        if k > d && StarUsable(policy)(obs[k]) {
          assert StarAgrees(policy)(obs[k], obs[d]);
        }
      }
      assert StarConflictsAt(r, policy, obs, j);
    }
    if r.conflictObservationId.Some? {
      var i, j :| 0 <= i < |obs| && 0 <= j < |obs| && MappedStar(policy, obs[i]) && MappedStar(policy, obs[j])
        && ClassifyProviderCode(policy, obs[i].classificationCode) != ClassifyProviderCode(policy, obs[j].classificationCode);
      assert StarSays(policy, obs[i], ClassifyProviderCode(policy, obs[i].classificationCode));
      assert StarSays(policy, obs[j], ClassifyProviderCode(policy, obs[j].classificationCode));
    }
    if i, j, v, w :| 0 <= i < |obs| && 0 <= j < |obs| && StarSays(policy, obs[i], v) && StarSays(policy, obs[j], w) && v != w {
      assert MappedStar(policy, obs[i]) && MappedStar(policy, obs[j]);
    }
  }

  /** A code the table does not hold, wherever it stands, changes neither the outcome nor the conflict. */
  lemma UnreviewedCodeSaysNothing(policy: Policy<StarOutcome>, obs: seq<Observation>, o: Observation)
    requires obs != [] && StarSilent(policy, o)
    ensures var r, s := StarOf(policy, obs).value, StarOf(policy, obs + [o]).value;
      && s.outcome == r.outcome && s.conflictOutcome == r.conflictOutcome
      && s.conflictObservationId == r.conflictObservationId && s.resolvedStarValue == r.resolvedStarValue
      && (r.outcome != G.StarUnresolved ==> s == r)
  {
    ClassifyMeaning(policy, o);
    assert (obs + [o])[..|obs|] == obs;
  }

  // ---- Location. ----

  predicate LocationDecidedBy(r: LocationResolution, obs: seq<Observation>, i: nat)
    requires i < |obs|
  {
    && r.resolved && UsablePoint(obs[i]) && (forall k | 0 <= k < i :: !UsablePoint(obs[k]))
    && r.identityId == obs[i].identityId && r.evidenceObservationId == obs[i].id
    && r.source == obs[i].source == r.policyProvider && r.environment == obs[i].environment
    && r.latitude == obs[i].latitude && r.longitude == obs[i].longitude && r.unresolvedReason.None?
    && (r.conflictObservationId.None? ==> forall k | i < k < |obs| && UsablePoint(obs[k]) :: SamePlace(obs[k], obs[i]))
    && (r.conflictObservationId.Some? ==> exists j | i < j < |obs| :: LocationConflictsAt(r, obs, i, j))
  }

  /** Row `j` is the conflict on record: the first usable point that is another place than row `i`'s. */
  predicate LocationConflictsAt(r: LocationResolution, obs: seq<Observation>, i: nat, j: nat)
    requires i < j < |obs|
  {
    && r.conflictObservationId == Some(obs[j].id) && UsablePoint(obs[j]) && !SamePlace(obs[j], obs[i])
    && forall k | i < k < j && UsablePoint(obs[k]) :: SamePlace(obs[k], obs[i])
  }

  predicate LocationUndecided(r: LocationResolution, obs: seq<Observation>)
    requires obs != []
  {
    var latest := obs[|obs| - 1];
    && !r.resolved && (forall k | 0 <= k < |obs| :: !UsablePoint(obs[k]))
    && r.identityId == latest.identityId && r.evidenceObservationId == latest.id
    && r.source == latest.source == r.policyProvider && r.environment == latest.environment
    && r.latitude.None? && r.longitude.None? && r.conflictObservationId.None?
  }

  /** The location conclusion, whole: the first usable point, and the first later one that is another place. */
  lemma LocationOverColumns(obs: seq<Observation>)
    requires obs != []
    ensures LocationOf(obs).Some?
    ensures var r := LocationOf(obs).value;
      && r.policyVersion == "hotelbeds-location/1"
      && (LocationUndecided(r, obs) || exists i | 0 <= i < |obs| :: LocationDecidedBy(r, obs, i))
  {
    hide SameCoordinate, SamePoint, FirstDecides, LocationFold;
    FirstDecidesMeaning(LocationUsable(), LocationAgrees(), obs);
    var f := LocationFold(obs);
    assert f == FirstDecides(LocationUsable(), LocationAgrees(), obs) by { LocationFoldIs(obs); }
    forall a, b | 0 <= a < |obs| && 0 <= b < |obs|
      ensures LocationAgrees()(obs[a], obs[b]) <==> SamePlace(obs[a], obs[b])
    {
      SameCoordinateMeaning(obs[a].latitude, obs[b].latitude);
      SameCoordinateMeaning(obs[a].longitude, obs[b].longitude);
    }
    forall k | 0 <= k < |obs| ensures LocationUsable()(obs[k]) <==> UsablePoint(obs[k]) { }
    var r := LocationOf(obs).value;
    hide SamePlace, UsablePoint, LocationUsable, LocationAgrees;
    if f.decided.Some? {
      var i := f.decided.value;
      if f.conflict.Some? {
        assert LocationConflictsAt(r, obs, i, f.conflict.value);
      }
      assert LocationDecidedBy(r, obs, i);
    } else {
      assert LocationUndecided(r, obs);
    }
  }

  lemma LocationFoldIs(obs: seq<Observation>)
    ensures LocationFold(obs) == FirstDecides(LocationUsable(), LocationAgrees(), obs)
  {
  }

  // ---- Scope. ----

  predicate ScopeDecidedBy(r: ScopeResolution, policy: Policy<ScopeOutcome>, obs: seq<Observation>, i: nat)
    requires i < |obs|
  {
    && Says(policy.mappings, obs[i].propertyTypeCode, G.ScopeUnresolved, r.outcome)
    && (forall k | i < k < |obs| :: ScopeSilent(policy, obs[k]))
    && ScopeQuotes(r, obs[i])
  }

  predicate ScopeQuotes(r: ScopeResolution, o: Observation) {
    && r.identityId == o.identityId && r.source == o.source && r.environment == o.environment
    && r.evidenceObservationId == o.id && r.sourceValue == o.propertyTypeCode
  }

  /** The scope conclusion, whole, over the mapping table: the last row the table gives a meaning, else the last row. */
  lemma ScopeOverMappings(policy: Policy<ScopeOutcome>, obs: seq<Observation>)
    requires obs != []
    ensures ScopeOf(policy, obs).Some?
    ensures var r := ScopeOf(policy, obs).value;
      && QuotesPolicy(r.policyProvider, r.policyVersion, r.policyField, policy)
      && (|| (r.outcome.ScopeUnresolved? && ScopeQuotes(r, obs[|obs| - 1])
              && forall k | 0 <= k < |obs| :: ScopeSilent(policy, obs[k]))
          || exists i | 0 <= i < |obs| :: ScopeDecidedBy(r, policy, obs, i))
  {
    hide ScopeFold;
    var d := ScopeFold(policy, obs);
    if d.Some? {
      assert ScopeDecidedBy(ScopeOf(policy, obs).value, policy, obs, d.value);
    }
  }
}

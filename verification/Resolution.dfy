/**
 The three provider-resolution folds (scripts/provider-resolution/resolver.ts) and the classification
 policy they read (scripts/provider-classification/policy.ts, scripts/provider-scope/policy.ts).
 Star and location keep the FIRST usable reading and record the first later disagreement; scope keeps
 the LAST mapped one.
 */
module Resolution {
  import opened Prelude
  import opened CanonicalNumeric
  import G = Gate

  type StarOutcome = G.StarOutcome
  type ScopeOutcome = G.ScopeOutcome

  datatype Observation = Observation(
    id: Id, identityId: Id, source: string, environment: string, destinationId: Option<Id>,
    classificationCode: Option<string>, propertyTypeCode: Option<string>,
    latitude: Option<string>, longitude: Option<string>, coordinatesPlausible: Option<bool>)

  datatype Policy<O> = Policy(provider: string, version: string, field: string, mappings: map<string, O>)

  datatype StarResolution = StarResolution(
    identityId: Id, source: string, environment: string, evidenceObservationId: Id,
    policyProvider: string, policyVersion: string, policyField: string, sourceValue: Option<string>,
    outcome: StarOutcome, resolvedStarValue: Option<int>,
    conflictObservationId: Option<Id>, conflictOutcome: Option<StarOutcome>)

  datatype LocationUnresolvedReason = CoordinatesMissing | CoordinatesImplausible | CoordinatesPlausibilityUnknown

  datatype LocationResolution = LocationResolution(
    identityId: Id, source: string, environment: string, evidenceObservationId: Id,
    policyProvider: string, policyVersion: string, resolved: bool,
    latitude: Option<string>, longitude: Option<string>,
    unresolvedReason: Option<LocationUnresolvedReason>, conflictObservationId: Option<Id>)

  datatype ScopeResolution = ScopeResolution(
    identityId: Id, source: string, environment: string, evidenceObservationId: Id,
    policyProvider: string, policyVersion: string, policyField: string, sourceValue: Option<string>,
    outcome: ScopeOutcome)

  const LOCATION_POLICY_VERSION := "hotelbeds-location/1"

  /** An allow-list, matched exactly: an absent code is unresolved. */
  function ClassifyProviderCode(policy: Policy<StarOutcome>, code: Option<string>): StarOutcome {
    if code.Some? && code.value in policy.mappings then policy.mappings[code.value] else G.StarUnresolved
  }

  function ResolveScopeCode(policy: Policy<ScopeOutcome>, code: Option<string>): ScopeOutcome {
    if code.Some? && code.value in policy.mappings then policy.mappings[code.value] else G.ScopeUnresolved
  }

  // ---- The rule the star fold must refine. ----

  datatype Reconciliation =
    | Resolved(value: StarOutcome)
    | Corroborated(value: StarOutcome)
    | Conflict(existing: StarOutcome, incoming: StarOutcome)
    | NoChange(value: StarOutcome)

  function Reconcile(existing: StarOutcome, incoming: StarOutcome): Reconciliation {
    if incoming == G.StarUnresolved then NoChange(existing)
    else if existing == G.StarUnresolved then Resolved(incoming)
    else if existing == incoming then Corroborated(existing)
    else Conflict(existing, incoming)
  }

  // ---- First usable reading, first later disagreement. ----

  datatype Fold = Fold(decided: Option<nat>, conflict: Option<nat>)

  function FirstDecides(usable: Observation -> bool, agrees: (Observation, Observation) -> bool, obs: seq<Observation>)
    : (f: Fold)
    ensures f.decided.Some? ==> f.decided.value < |obs|
    ensures f.conflict.Some? ==> f.conflict.value < |obs|
  {
    if obs == [] then Fold(None, None)
    else
      var n := |obs| - 1;
      var f := FirstDecides(usable, agrees, obs[..n]);
      if !usable(obs[n]) then f
      else if f.decided.None? then f.(decided := Some(n))
      else if !agrees(obs[n], obs[f.decided.value]) && f.conflict.None? then f.(conflict := Some(n))
      else f
  }

  /** The declarative reading of the fold: which observation decides, and which one (if any) conflicts. */
  lemma {:induction false} FirstDecidesMeaning(usable: Observation -> bool, agrees: (Observation, Observation) -> bool, obs: seq<Observation>)
    ensures var f := FirstDecides(usable, agrees, obs);
      && (f.decided.None? ==> f.conflict.None? && forall k | 0 <= k < |obs| :: !usable(obs[k]))
      && (f.decided.Some? ==>
            && usable(obs[f.decided.value])
            && (forall k | 0 <= k < f.decided.value :: !usable(obs[k]))
            && (forall k | f.decided.value < k < (if f.conflict.Some? then f.conflict.value else |obs|) ::
                  usable(obs[k]) ==> agrees(obs[k], obs[f.decided.value])))
      && (f.conflict.Some? ==>
            && f.decided.Some? && f.decided.value < f.conflict.value
            && usable(obs[f.conflict.value]) && !agrees(obs[f.conflict.value], obs[f.decided.value]))
  {
    if obs != [] {
      var init := obs[..|obs| - 1];
      FirstDecidesMeaning(usable, agrees, init);
      assert forall k | 0 <= k < |init| :: init[k] == obs[k];
    }
  }

  function StarUsable(policy: Policy<StarOutcome>): Observation -> bool {
    (o: Observation) => ClassifyProviderCode(policy, o.classificationCode) != G.StarUnresolved
  }

  function StarAgrees(policy: Policy<StarOutcome>): (Observation, Observation) -> bool {
    (a: Observation, b: Observation) =>
      ClassifyProviderCode(policy, a.classificationCode) == ClassifyProviderCode(policy, b.classificationCode)
  }

  function StarFold(policy: Policy<StarOutcome>, obs: seq<Observation>): (f: Fold)
    ensures f.decided.Some? ==> f.decided.value < |obs|
    ensures f.conflict.Some? ==> f.conflict.value < |obs|
  {
    FirstDecides(StarUsable(policy), StarAgrees(policy), obs)
  }

  function StarValue(outcome: StarOutcome): Option<int> {
    match outcome
    case ExactFour => Some(4)
    case ExactFive => Some(5)
    case _ => None
  }

  /** What the star fold concludes, from the deciding and the conflicting observation. */
  function StarOf(policy: Policy<StarOutcome>, obs: seq<Observation>): Option<StarResolution> {
    if obs == [] then None
    else
      var f := StarFold(policy, obs);
      if f.decided.None? then
        var latest := obs[|obs| - 1];
        Some(StarResolution(latest.identityId, latest.source, latest.environment, latest.id,
                            policy.provider, policy.version, policy.field, latest.classificationCode,
                            G.StarUnresolved, None, None, None))
      else
        var d := obs[f.decided.value];
        var outcome := ClassifyProviderCode(policy, d.classificationCode);
        Some(StarResolution(obs[0].identityId, d.source, d.environment, d.id,
                            policy.provider, policy.version, policy.field, d.classificationCode,
                            outcome, StarValue(outcome),
                            if f.conflict.Some? then Some(obs[f.conflict.value].id) else None,
                            if f.conflict.Some? then Some(ClassifyProviderCode(policy, obs[f.conflict.value].classificationCode)) else None))
  }

  method ResolveStarFromObservations(observations: seq<Observation>, policy: Policy<StarOutcome>)
    returns (r: Option<StarResolution>)
    ensures r == StarOf(policy, observations)
  {
    if observations == [] {
      return None;
    }
    var first := observations[0];
    var decided: Option<(Observation, StarOutcome)> := None;
    var conflict: Option<(Observation, StarOutcome)> := None;
    var i := 0;
    while i < |observations|
      invariant 0 <= i <= |observations|
      invariant var f := StarFold(policy, observations[..i]);
        && decided == (if f.decided.None? then None else
             Some((observations[f.decided.value], ClassifyProviderCode(policy, observations[f.decided.value].classificationCode))))
        && conflict == (if f.conflict.None? then None else
             Some((observations[f.conflict.value], ClassifyProviderCode(policy, observations[f.conflict.value].classificationCode))))
    {
      var obs := observations[i];
      var outcome := ClassifyProviderCode(policy, obs.classificationCode);
      assert observations[..i + 1][..i] == observations[..i];
      if outcome != G.StarUnresolved {
        if decided.None? {
          decided := Some((obs, outcome));
        } else if outcome != decided.value.1 && conflict.None? {
          conflict := Some((obs, outcome));
        }
      }
      i := i + 1;
    }
    assert observations[..|observations|] == observations;
    if decided.None? {
      var latest := observations[|observations| - 1];
      return Some(StarResolution(latest.identityId, latest.source, latest.environment, latest.id,
                                 policy.provider, policy.version, policy.field, latest.classificationCode,
                                 G.StarUnresolved, None, None, None));
    }
    var (d, outcome) := decided.value;
    return Some(StarResolution(first.identityId, d.source, d.environment, d.id,
                               policy.provider, policy.version, policy.field, d.classificationCode,
                               outcome, if outcome == G.ExactFour then Some(4) else if outcome == G.ExactFive then Some(5) else None,
                               if conflict.Some? then Some(conflict.value.0.id) else None,
                               if conflict.Some? then Some(conflict.value.1) else None));
  }

  /** What folding `Reconcile` accumulates: a value, and the first incoming reading it refused. */
  datatype Reconciled = Reconciled(value: StarOutcome, firstConflict: Option<StarOutcome>)

  function ReconcileAll(policy: Policy<StarOutcome>, obs: seq<Observation>): Reconciled {
    if obs == [] then Reconciled(G.StarUnresolved, None)
    else
      var r := ReconcileAll(policy, obs[..|obs| - 1]);
      match Reconcile(r.value, ClassifyProviderCode(policy, obs[|obs| - 1].classificationCode))
      case Resolved(v) => r.(value := v)
      case Corroborated(v) => r.(value := v)
      case NoChange(v) => r.(value := v)
      case Conflict(existing, incoming) =>
        Reconciled(existing, if r.firstConflict.None? then Some(incoming) else r.firstConflict)
  }

  lemma {:induction false} FoldIsReconcile(policy: Policy<StarOutcome>, obs: seq<Observation>)
    ensures var f, r := StarFold(policy, obs), ReconcileAll(policy, obs);
      && (r.value == if f.decided.Some? then ClassifyProviderCode(policy, obs[f.decided.value].classificationCode) else G.StarUnresolved)
      && (r.firstConflict == if f.conflict.Some? then Some(ClassifyProviderCode(policy, obs[f.conflict.value].classificationCode)) else None)
      && (f.decided.Some? ==> r.value != G.StarUnresolved) && (f.decided.None? ==> f.conflict.None?)
  {
    if obs != [] {
      var init := obs[..|obs| - 1];
      FoldIsReconcile(policy, init);
      assert forall k | 0 <= k < |init| :: init[k] == obs[k];
    }
  }

  /** The star fold refines the two-value rule: same value, same first disagreement, nothing averaged. */
  lemma StarFoldRefinesReconcile(policy: Policy<StarOutcome>, obs: seq<Observation>)
    requires obs != []
    ensures StarOf(policy, obs).Some?
    ensures StarOf(policy, obs).value.outcome == ReconcileAll(policy, obs).value
    ensures StarOf(policy, obs).value.conflictOutcome == ReconcileAll(policy, obs).firstConflict
  {
    FoldIsReconcile(policy, obs);
  }

  predicate MappedStar(policy: Policy<StarOutcome>, o: Observation) {
    ClassifyProviderCode(policy, o.classificationCode) != G.StarUnresolved
  }

  /** A star conflict is flagged exactly when two mapped readings disagree, wherever they stand. */
  lemma StarConflictIff(policy: Policy<StarOutcome>, obs: seq<Observation>)
    requires obs != []
    ensures StarOf(policy, obs).value.conflictObservationId.Some? <==>
            exists i, j | 0 <= i < |obs| && 0 <= j < |obs| ::
              MappedStar(policy, obs[i]) && MappedStar(policy, obs[j])
              && ClassifyProviderCode(policy, obs[i].classificationCode) != ClassifyProviderCode(policy, obs[j].classificationCode)
    ensures StarOf(policy, obs).value.outcome != G.StarUnresolved <==> exists i | 0 <= i < |obs| :: MappedStar(policy, obs[i])
  {
    hide FirstDecides, ClassifyProviderCode;
    FirstDecidesMeaning(StarUsable(policy), StarAgrees(policy), obs);
    var f := StarFold(policy, obs);
    if f.conflict.Some? {
      assert MappedStar(policy, obs[f.conflict.value]) && MappedStar(policy, obs[f.decided.value]);
    } else if f.decided.Some? {
      assert MappedStar(policy, obs[f.decided.value]);
      forall i | 0 <= i < |obs| && MappedStar(policy, obs[i])
        ensures ClassifyProviderCode(policy, obs[i].classificationCode)
             == ClassifyProviderCode(policy, obs[f.decided.value].classificationCode)
      {
        assert StarUsable(policy)(obs[i]);
        if i != f.decided.value {
          assert StarAgrees(policy)(obs[i], obs[f.decided.value]);
        }
      }
    }
  }

  // ---- Location. ----

  function LocationUsable(): Observation -> bool {
    (o: Observation) => o.latitude.Some? && o.longitude.Some? && o.coordinatesPlausible == Some(true)
  }

  function LocationAgrees(): (Observation, Observation) -> bool {
    (a: Observation, b: Observation) => SameCoordinate(a.latitude, b.latitude) && SameCoordinate(a.longitude, b.longitude)
  }

  function LocationFold(obs: seq<Observation>): (f: Fold)
    ensures f.decided.Some? ==> f.decided.value < |obs|
    ensures f.conflict.Some? ==> f.conflict.value < |obs|
  {
    FirstDecides(LocationUsable(), LocationAgrees(), obs)
  }

  function LocationReason(o: Observation): LocationUnresolvedReason {
    if o.latitude.None? || o.longitude.None? then CoordinatesMissing
    else if o.coordinatesPlausible == Some(false) then CoordinatesImplausible
    else CoordinatesPlausibilityUnknown
  }

  function LocationOf(obs: seq<Observation>): Option<LocationResolution> {
    if obs == [] then None
    else
      var f := LocationFold(obs);
      if f.decided.None? then
        var latest := obs[|obs| - 1];
        Some(LocationResolution(latest.identityId, latest.source, latest.environment, latest.id,
                                latest.source, LOCATION_POLICY_VERSION, false, None, None,
                                Some(LocationReason(latest)), None))
      else
        var d := obs[f.decided.value];
        Some(LocationResolution(d.identityId, d.source, d.environment, d.id,
                                d.source, LOCATION_POLICY_VERSION, true, d.latitude, d.longitude, None,
                                if f.conflict.Some? then Some(obs[f.conflict.value].id) else None))
  }

  method ResolveLocationFromObservations(observations: seq<Observation>) returns (r: Option<LocationResolution>)
    ensures r == LocationOf(observations)
  {
    hide SameCoordinate;
    if observations == [] {
      return None;
    }
    var decided: Option<Observation> := None;
    var conflict: Option<Observation> := None;
    var i := 0;
    while i < |observations|
      invariant 0 <= i <= |observations|
      invariant var f := LocationFold(observations[..i]);
        && decided == (if f.decided.None? then None else Some(observations[f.decided.value]))
        && conflict == (if f.conflict.None? then None else Some(observations[f.conflict.value]))
    {
      var obs := observations[i];
      assert observations[..i + 1][..i] == observations[..i];
      if obs.latitude.Some? && obs.longitude.Some? && obs.coordinatesPlausible == Some(true) {
        if decided.None? {
          decided := Some(obs);
        } else if (!SameCoordinate(obs.latitude, decided.value.latitude)
                   || !SameCoordinate(obs.longitude, decided.value.longitude))
                  && conflict.None? {
          conflict := Some(obs);
        }
      }
      i := i + 1;
    }
    assert observations[..|observations|] == observations;
    if decided.None? {
      var latest := observations[|observations| - 1];
      var reason := if latest.latitude.None? || latest.longitude.None? then CoordinatesMissing
                    else if latest.coordinatesPlausible == Some(false) then CoordinatesImplausible
                    else CoordinatesPlausibilityUnknown;
      return Some(LocationResolution(latest.identityId, latest.source, latest.environment, latest.id,
                                     latest.source, LOCATION_POLICY_VERSION, false, None, None, Some(reason), None));
    }
    var d := decided.value;
    return Some(LocationResolution(d.identityId, d.source, d.environment, d.id,
                                   d.source, LOCATION_POLICY_VERSION, true, d.latitude, d.longitude, None,
                                   if conflict.Some? then Some(conflict.value.id) else None));
  }

  predicate UsablePoint(o: Observation) { o.latitude.Some? && o.longitude.Some? && o.coordinatesPlausible == Some(true) }

  predicate SamePlace(a: Observation, b: Observation) {
    SamePoint(a.latitude, b.latitude) && SamePoint(a.longitude, b.longitude)
  }

  /** A conflict is flagged exactly when two usable points differ as numbers, wherever they stand. */
  lemma LocationConflictIff(obs: seq<Observation>)
    requires obs != []
    ensures LocationOf(obs).value.conflictObservationId.Some? <==>
            exists i, j | 0 <= i < |obs| && 0 <= j < |obs| ::
              UsablePoint(obs[i]) && UsablePoint(obs[j]) && !SamePlace(obs[i], obs[j])
    ensures LocationOf(obs).value.resolved <==> exists i | 0 <= i < |obs| :: UsablePoint(obs[i])
  {
    hide SameCoordinate, SamePoint, FirstDecides;
    FirstDecidesMeaning(LocationUsable(), LocationAgrees(), obs);
    var f := LocationFold(obs);
    forall a, b | 0 <= a < |obs| && 0 <= b < |obs|
      ensures LocationAgrees()(obs[a], obs[b]) <==> SamePlace(obs[a], obs[b])
    {
      SameCoordinateMeaning(obs[a].latitude, obs[b].latitude);
      SameCoordinateMeaning(obs[a].longitude, obs[b].longitude);
    }
    if f.conflict.Some? {
      assert UsablePoint(obs[f.conflict.value]) && UsablePoint(obs[f.decided.value]);
      assert !SamePlace(obs[f.conflict.value], obs[f.decided.value]);
    } else if f.decided.Some? {
      var d := f.decided.value;
      forall i, j | 0 <= i < |obs| && 0 <= j < |obs| && UsablePoint(obs[i]) && UsablePoint(obs[j])
        ensures SamePlace(obs[i], obs[j])
      {
        SamePlaceAsDecided(obs, i, d);
        SamePlaceAsDecided(obs, j, d);
        SamePlaceJoins(obs[i], obs[d], obs[j]);
      }
    }
  }

  lemma SamePlaceAsDecided(obs: seq<Observation>, i: nat, d: nat)
    requires i < |obs| && d < |obs| && UsablePoint(obs[i]) && LocationFold(obs) == Fold(Some(d), None)
    ensures SamePlace(obs[i], obs[d])
  {
    hide SameCoordinate, FirstDecides;
    FirstDecidesMeaning(LocationUsable(), LocationAgrees(), obs);
    assert LocationUsable()(obs[i]);
    SameCoordinateMeaning(obs[i].latitude, obs[d].latitude);
    SameCoordinateMeaning(obs[i].longitude, obs[d].longitude);
    if i != d {
      assert LocationAgrees()(obs[i], obs[d]);
    }
  }

  lemma SamePlaceJoins(a: Observation, b: Observation, c: Observation)
    requires SamePlace(a, b) && SamePlace(c, b)
    ensures SamePlace(a, c)
  {
    hide Trim, PlainDecimal, Value;
  }

  // ---- Scope: the latest mapped reading. ----

  function ScopeFold(policy: Policy<ScopeOutcome>, obs: seq<Observation>): (d: Option<nat>)
    ensures d.Some? ==> d.value < |obs|
    ensures d.Some? ==> ResolveScopeCode(policy, obs[d.value].propertyTypeCode) != G.ScopeUnresolved
    ensures forall k | (if d.Some? then d.value + 1 else 0) <= k < |obs| ::
              ResolveScopeCode(policy, obs[k].propertyTypeCode) == G.ScopeUnresolved
  {
    if obs == [] then None
    else if ResolveScopeCode(policy, obs[|obs| - 1].propertyTypeCode) != G.ScopeUnresolved then Some(|obs| - 1)
    else
      var init := obs[..|obs| - 1];
      assert forall k | 0 <= k < |init| :: init[k] == obs[k];
      ScopeFold(policy, init)
  }

  function ScopeOf(policy: Policy<ScopeOutcome>, obs: seq<Observation>): Option<ScopeResolution> {
    if obs == [] then None
    else
      var d := ScopeFold(policy, obs);
      var o := if d.Some? then obs[d.value] else obs[|obs| - 1];
      Some(ScopeResolution(o.identityId, o.source, o.environment, o.id, policy.provider, policy.version, policy.field,
                           o.propertyTypeCode, ResolveScopeCode(policy, o.propertyTypeCode)))
  }

  method ResolveScopeFromObservations(observations: seq<Observation>, policy: Policy<ScopeOutcome>)
    returns (r: Option<ScopeResolution>)
    ensures r == ScopeOf(policy, observations)
  {
    if observations == [] {
      return None;
    }
    var decided: Option<(Observation, ScopeOutcome)> := None;
    var i := 0;
    while i < |observations|
      invariant 0 <= i <= |observations|
      invariant var d := ScopeFold(policy, observations[..i]);
        decided == if d.None? then None
                   else Some((observations[d.value], ResolveScopeCode(policy, observations[d.value].propertyTypeCode)))
    {
      var outcome := ResolveScopeCode(policy, observations[i].propertyTypeCode);
      assert observations[..i + 1][..i] == observations[..i];
      if outcome != G.ScopeUnresolved {
        decided := Some((observations[i], outcome));
      }
      i := i + 1;
    }
    assert observations[..|observations|] == observations;
    var obs := if decided.Some? then decided.value.0 else observations[|observations| - 1];
    return Some(ScopeResolution(obs.identityId, obs.source, obs.environment, obs.id,
                                policy.provider, policy.version, policy.field, obs.propertyTypeCode,
                                if decided.Some? then decided.value.1 else G.ScopeUnresolved));
  }

  // ---- Every conclusion restates the observation it cites. ----

  /** The cited row is one of the identity's, its code is quoted verbatim, and the outcome is that code's. */
  lemma StarRestatesItsEvidence(policy: Policy<StarOutcome>, obs: seq<Observation>)
    requires obs != []
    ensures var r := StarOf(policy, obs).value;
      exists i | 0 <= i < |obs| ::
        && r.evidenceObservationId == obs[i].id && r.source == obs[i].source && r.environment == obs[i].environment
        && r.sourceValue == obs[i].classificationCode && r.outcome == ClassifyProviderCode(policy, r.sourceValue)
        && (r.resolvedStarValue == Some(4) <==> r.outcome.ExactFour?) && (r.resolvedStarValue == Some(5) <==> r.outcome.ExactFive?)
        && (r.outcome.StarUnresolved? ==> i == |obs| - 1)
        && forall k | 0 <= k < i :: !MappedStar(policy, obs[k])
  {
    hide FirstDecides, ClassifyProviderCode;
    FirstDecidesMeaning(StarUsable(policy), StarAgrees(policy), obs);
    var f := StarFold(policy, obs);
    var i := if f.decided.Some? then f.decided.value else |obs| - 1;
    assert forall k | 0 <= k < i :: MappedStar(policy, obs[k]) == StarUsable(policy)(obs[k]);
    assert f.decided.None? ==> !StarUsable(policy)(obs[i]);
    assert StarOf(policy, obs).value.evidenceObservationId == obs[i].id;
  }

  /** The coordinates are the cited row's own, or there are none and the reason is read off the latest row. */
  predicate LocationCites(r: LocationResolution, o: Observation, last: bool) {
    && r.evidenceObservationId == o.id && r.source == o.source && r.environment == o.environment
    && (r.resolved <==> UsablePoint(o))
    && (r.resolved ==> r.latitude == o.latitude && r.longitude == o.longitude && r.unresolvedReason.None?)
    && (!r.resolved ==> last && r.latitude.None? && r.longitude.None? && r.conflictObservationId.None?)
    && (r.unresolvedReason == Some(CoordinatesMissing) <==> o.latitude.None? || o.longitude.None?)
    && (r.unresolvedReason == Some(CoordinatesImplausible) <==>
        o.latitude.Some? && o.longitude.Some? && o.coordinatesPlausible == Some(false))
    && (r.unresolvedReason == Some(CoordinatesPlausibilityUnknown) <==>
        o.latitude.Some? && o.longitude.Some? && o.coordinatesPlausible.None?)
  }

  lemma ThreeVerdicts(plausible: Option<bool>)
    ensures plausible == None || plausible == Some(true) || plausible == Some(false)
  {
    match plausible
    case None =>
    case Some(b) => if b { assert Some(b) == Some(true); } else { assert Some(b) == Some(false); }
  }

  lemma LocationRestatesItsEvidence(obs: seq<Observation>)
    requires obs != []
    ensures exists i | 0 <= i < |obs| ::
      LocationCites(LocationOf(obs).value, obs[i], i == |obs| - 1) && forall k | 0 <= k < i :: !UsablePoint(obs[k])
  {
    hide FirstDecides, LocationCites;
    FirstDecidesMeaning(LocationUsable(), LocationAgrees(), obs);
    var f := LocationFold(obs);
    var i := if f.decided.Some? then f.decided.value else |obs| - 1;
    assert forall k | 0 <= k < i :: UsablePoint(obs[k]) == LocationUsable()(obs[k]);
    assert UsablePoint(obs[i]) == LocationUsable()(obs[i]);
    if f.decided.Some? {
      ResolvedCites(obs);
    } else {
      UnresolvedCites(obs);
    }
    assert LocationCites(LocationOf(obs).value, obs[i], i == |obs| - 1);
  }

  lemma ResolvedCites(obs: seq<Observation>)
    requires obs != [] && LocationFold(obs).decided.Some? && UsablePoint(obs[LocationFold(obs).decided.value])
    ensures var d := LocationFold(obs).decided.value; LocationCites(LocationOf(obs).value, obs[d], d == |obs| - 1)
  {
    hide LocationFold;
  }

  lemma UnresolvedCites(obs: seq<Observation>)
    requires obs != [] && LocationFold(obs).decided.None? && !UsablePoint(obs[|obs| - 1])
    ensures LocationCites(LocationOf(obs).value, obs[|obs| - 1], true)
  {
    hide LocationFold;
    ThreeVerdicts(obs[|obs| - 1].coordinatesPlausible);
  }

  /** The latest mapped row, or the latest row when none is mapped. */
  lemma ScopeRestatesItsEvidence(policy: Policy<ScopeOutcome>, obs: seq<Observation>)
    requires obs != []
    ensures var r := ScopeOf(policy, obs).value;
      exists i | 0 <= i < |obs| ::
        && r.evidenceObservationId == obs[i].id && r.source == obs[i].source && r.environment == obs[i].environment
        && r.sourceValue == obs[i].propertyTypeCode && r.outcome == ResolveScopeCode(policy, r.sourceValue)
        && (forall k | i < k < |obs| :: ResolveScopeCode(policy, obs[k].propertyTypeCode).ScopeUnresolved?)
        && (r.outcome.ScopeUnresolved? ==>
              i == |obs| - 1 && forall k | 0 <= k < |obs| :: ResolveScopeCode(policy, obs[k].propertyTypeCode).ScopeUnresolved?)
  {
    hide ResolveScopeCode, ScopeFold;
    var d := ScopeFold(policy, obs);
    var i := if d.Some? then d.value else |obs| - 1;
    assert ScopeOf(policy, obs).value.evidenceObservationId == obs[i].id;
  }
}

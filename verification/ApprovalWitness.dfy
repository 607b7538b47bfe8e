/**
 The failing side of the approval's effect, on one concrete property: everything the machine checks is in
 order, a canonical hotel has been accepted for it, readiness lets the approval through, and the gate holds.
 */
module ApprovalWitness {
  import opened Prelude
  import opened Sequences
  import opened Gate
  import opened Review
  import opened ReviewHistory
  import opened ReviewRuns
  import opened ApprovalEffect
  import G = GateMeaning
  import D = Dates
  import L = Lifecycle

  const AS_OF := "2026-01-01"

  const HOTEL := CandidateView("finding", "property", CanonicalHotel, Some("hotel"), None, map[])

  const EVIDENCE := Machine(
    Some(ScopeView("scope", "observation", PhysicalHospitality, "hotelbeds", "1", Some("H"))),
    Some(StarView("star", "observation", ExactFive, Some(5), false, "hotelbeds", "1", Some("5EST"))),
    Some(LocationView("location", "observation", true, Some("1"), Some("2"), false, None, "hotelbeds", "1")),
    Some(L.IssueSnapshot("snapshot", "observation", 0, [])), true, [HOTEL], [], [])

  const POLICY := L.Policy("hotelbeds", "1", true, [])

  const TABLES := Tables(
    map["property" := Identity("hotelbeds", "evaluation", "42", "run")],
    map[("run", "property") := Observation("observation", Some("digest"))],
    map["bali" := "destination"], map["destination" := "bali"], map[], map[], map[], map[], map[],
    map["property" := EVIDENCE], Some(POLICY))

  function Supporting(dimension: string): Verification { Verification(dimension, "supports", None) }

  const ITEM := ReviewedItem(
    "property", "42", "observation", "run", "digest", "print", AS_OF, ApproveCreate, Some("bali"), "A human", None, None,
    Map(Supporting, REVIEW_DIMENSIONS),
    [Reference("web_page", "locator", ["name"], "supports", None)])

  const IDS := RowIds("new finding", "new receipt", "new review")

  const CONTEXT := Context("hotelbeds", "evaluation", AS_OF, "now", Hashing(
    (payload: FingerprintPayload) => "print", (content: ReceiptContent) => "receipt",
    (content: RevocationContent) => "revocation"))

  lemma DateIsReal()
    ensures D.IsValidIsoDate(Some(AS_OF))
  {
    hide D.IsValidIsoDate;
    D.ValidIffRealDate(AS_OF);
  }

  lemma Input() returns (input: PreviewInput)
    ensures "property" in TABLES.identities && input == ComposeInput(TABLES, "property", POLICY)
    ensures input.identity.currentObservationId == Some("observation") && input.policy == POLICY
    ensures input.scope == EVIDENCE.scope && input.star == EVIDENCE.star && input.location == EVIDENCE.location
    ensures input.snapshot == EVIDENCE.snapshot && input.entity == EntityView(true, [HOTEL], [], [])
  {
    hide SelectedReceipt;
    input := ComposeInput(TABLES, "property", POLICY);
    assert [HOTEL] + [] == [HOTEL];
  }

  lemma MachineIsClear(input: PreviewInput)
    requires input.identity.currentObservationId == Some("observation") && input.policy == POLICY
    requires input.scope == EVIDENCE.scope && input.star == EVIDENCE.star && input.location == EVIDENCE.location
    requires input.snapshot == EVIDENCE.snapshot && input.entity == EntityView(true, [HOTEL], [], [])
    ensures D.IsValidIsoDate(Some(AS_OF))
    ensures G.EntityClear(input) && G.ScopeClear(input) && G.StarClear(input) && G.LocationClear(input) && G.NotClosed(input, AS_OF)
  {
    hide D.IsValidIsoDate;
    DateIsReal();
  }

  lemma PreviewSucceeds(input: PreviewInput)
    requires input.policy == POLICY
    ensures EvaluatePreview(input, AS_OF, CONTEXT.hashing.fingerprint).Ok?
    ensures EvaluatePreview(input, AS_OF, CONTEXT.hashing.fingerprint).value.fingerprint == "print"
  {
    hide D.IsValidIsoDate, Conditions, Overall, L.MappedWindows, L.Defects;
    DateIsReal();
  }

  lemma PreviewsReady()
    ensures Previews(TABLES, CONTEXT).Ok? && "property" in Previews(TABLES, CONTEXT).value
    ensures Previews(TABLES, CONTEXT).value["property"].fingerprint == "print"
    ensures G.Ready(Previews(TABLES, CONTEXT).value["property"].conditions)
  {
    hide D.IsValidIsoDate, EvaluatePreview, ComposeInput, G.Ready, G.EntityClear, G.ScopeClear, G.StarClear, G.LocationClear, G.NotClosed;
    DateIsReal();
    var input := Input();
    MachineIsClear(input);
    PreviewSucceeds(input);
    G.ReadyMeansMachineEvidenceClear(input, AS_OF, CONTEXT.hashing.fingerprint);
  }

  lemma PinsHold()
    ensures PinVerdict(TABLES, ITEM, CONTEXT).Proceed? && HistoryVerdict(TABLES, ITEM, CONTEXT).Proceed?
    ensures DestinationFor(TABLES, ITEM) == Some("destination") && Catalogued(TABLES, "property", "destination")
    ensures HotelAccepted(TABLES, "property")
  {
    hide DigestOf;
    assert HOTEL in MachineOf(TABLES, "property").otherAccepted;
  }

  lemma DimensionsDiffer()
    ensures forall a, b | 0 <= a < b < |REVIEW_DIMENSIONS| :: REVIEW_DIMENSIONS[a] != REVIEW_DIMENSIONS[b]
    ensures REVIEW_DIMENSIONS[0] == "distinct_property" && REVIEW_DIMENSIONS[5] == "destination_membership"
    ensures |REVIEW_DIMENSIONS| == 6
  {
  }

  lemma EveryDimensionSupports(d: string)
    requires d in REVIEW_DIMENSIONS
    ensures Supporting(d) in ITEM.verifications && Supports(ITEM, d)
  {
    hide REVIEW_DIMENSIONS;
    var k :| 0 <= k < |REVIEW_DIMENSIONS| && REVIEW_DIMENSIONS[k] == d;
    assert ITEM.verifications[k] == Supporting(d);
  }

  lemma VerificationsAre(v: Verification)
    requires v in ITEM.verifications
    ensures v.dimension in REVIEW_DIMENSIONS && v == Supporting(v.dimension)
  {
    hide REVIEW_DIMENSIONS;
    var k :| 0 <= k < |ITEM.verifications| && ITEM.verifications[k] == v;
    assert v == Supporting(REVIEW_DIMENSIONS[k]);
  }

  lemma ReferenceIsNamed(r: Reference)
    requires r in ITEM.evidenceReferences
    ensures !IsBlank(r.locator) && r.bearsOnDimensions != []
  {
    hide REVIEW_DIMENSIONS;
    assert r.locator == "locator" && !IsWhiteSpace("locator"[0]);
  }

  lemma ItemIsWellFormed()
    ensures WellFormed(ITEM)
  {
    hide REVIEW_DIMENSIONS, Supports, MissingText, IsBlank;
    DimensionsDiffer();
    forall v | v in ITEM.verifications ensures v.dimension in REVIEW_DIMENSIONS && v == Supporting(v.dimension) {
      VerificationsAre(v);
    }
    forall d | d in REVIEW_DIMENSIONS ensures Supporting(d) in ITEM.verifications && Supports(ITEM, d) {
      EveryDimensionSupports(d);
    }
    forall r | r in ITEM.evidenceReferences ensures !IsBlank(r.locator) && r.bearsOnDimensions != [] {
      ReferenceIsNamed(r);
    }
    assert REVIEW_DIMENSIONS[0] in REVIEW_DIMENSIONS && REVIEW_DIMENSIONS[5] in REVIEW_DIMENSIONS;
  }

  /**
   These tables stand before any review, and the manifest is well formed, ready and accepted; after it the
   gate does not pass.
   */
  lemma AcceptedHotelDefeatsReadyApproval()
    ensures DriftKeeps(EMPTY_TABLES, TABLES) && Coherent(TABLES)
    ensures WellFormed(ITEM) && Previews(TABLES, CONTEXT).Ok?
    ensures Decide(TABLES, ITEM, Previews(TABLES, CONTEXT).value, CONTEXT).Proceed?
    ensures HotelAccepted(TABLES, "property")
    ensures !GatePasses(ApplyOne(TABLES, ITEM, Previews(TABLES, CONTEXT).value, IDS, CONTEXT).0, "property", POLICY, CONTEXT)
  {
    hide Previews, G.Ready, PinVerdict, HistoryVerdict, GatePasses, WellFormed, ApplyOne, DestinationFor, Catalogued, HotelAccepted;
    PreviewsReady();
    PinsHold();
    ItemIsWellFormed();
    ApprovalPassesIff(TABLES, ITEM, IDS, CONTEXT);
  }
}

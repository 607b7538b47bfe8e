/**
 The shape rules of both manifests (scripts/human-review/apply.ts, scripts/human-review-revocation/revoke.ts): which
 rule a malformed item is refused for, over the item's own fields.
 */
module ShapeRules {
  import opened Prelude
  import opened Checklist
  import opened Gate
  import opened Review
  import DB = ReviewDatabase
  import W = Withdrawal

  type Checks = seq<Check<string>>

  /** The six dimensions a review records. */
  const DIMENSIONS: set<string> :=
    {"distinct_property", "name", "city_locality", "address", "coordinates", "destination_membership"}

  lemma DimensionsAreThese()
    ensures forall d :: d in REVIEW_DIMENSIONS <==> d in DIMENSIONS
  {
    var ds := REVIEW_DIMENSIONS;
    assert ds[0] == "distinct_property" && ds[1] == "name" && ds[2] == "city_locality" && ds[3] == "address";
    assert ds[4] == "coordinates" && ds[5] == "destination_membership" && |ds| == 6;
  }

  predicate Written(text: Option<string>) { text.Some? && !IsBlank(text.value) }

  function VerificationChecks(vs: seq<Verification>, k: nat): Checks
    requires k < |vs|
  {
    [Check("unknown_dimension", vs[k].dimension in DIMENSIONS),
     Check("duplicate_dimension", forall j | 0 <= j < k :: vs[j].dimension != vs[k].dimension),
     Check("contradiction_requires_note", vs[k].verdict == "contradicts" ==> Written(vs[k].note))]
  }

  predicate VerificationsHold(vs: seq<Verification>) { forall k | 0 <= k < |vs| :: AllHold(VerificationChecks(vs, k)) }

  /** Verification `k` is the first that breaks a check, and this is the first it breaks. */
  predicate VerificationBroken(vs: seq<Verification>, k: nat, code: string) {
    k < |vs| && FirstBroken(VerificationChecks(vs, k), code) && forall j | 0 <= j < k :: AllHold(VerificationChecks(vs, j))
  }

  lemma VerificationStep(vs: seq<Verification>)
    requires vs != [] && DB.VerificationDefect(vs[..|vs| - 1]).None?
    ensures var checks := VerificationChecks(vs, |vs| - 1);
      |checks| == 3 && DB.VerificationDefect(vs) ==
        if !checks[0].holds then Some(checks[0].code) else if !checks[1].holds then Some(checks[1].code)
        else if !checks[2].holds then Some(checks[2].code) else None
  {
    hide IsBlank, REVIEW_DIMENSIONS, DIMENSIONS;
    DimensionsAreThese();
    EarlierDimension(vs);
  }

  lemma EarlierDimension(vs: seq<Verification>)
    requires vs != []
    ensures var n := |vs| - 1;
      (exists w | w in vs[..n] :: w.dimension == vs[n].dimension) <==> exists j | 0 <= j < n :: vs[j].dimension == vs[n].dimension
  {
    var n := |vs| - 1;
    if w :| w in vs[..n] && w.dimension == vs[n].dimension {
      var j :| 0 <= j < n && vs[..n][j] == w;
    }
    if j :| 0 <= j < n && vs[j].dimension == vs[n].dimension {
      assert vs[j] in vs[..n];
    }
  }

  lemma ThreeChecks(checks: Checks, defect: Option<string>)
    requires |checks| == 3
    requires defect == if !checks[0].holds then Some(checks[0].code) else if !checks[1].holds then Some(checks[1].code)
                       else if !checks[2].holds then Some(checks[2].code) else None
    ensures if defect.None? then AllHold(checks) else FirstBroken(checks, defect.value)
  {
    if !checks[0].holds {
      assert BreaksAt(checks, 0);
    } else if !checks[1].holds {
      assert BreaksAt(checks, 1);
    } else if !checks[2].holds {
      assert BreaksAt(checks, 2);
    }
  }

  lemma LastVerification(vs: seq<Verification>)
    requires vs != [] && DB.VerificationDefect(vs[..|vs| - 1]).None?
    ensures var n := |vs| - 1;
      if DB.VerificationDefect(vs).None? then AllHold(VerificationChecks(vs, n))
      else FirstBroken(VerificationChecks(vs, n), DB.VerificationDefect(vs).value)
  {
    hide VerificationChecks, DB.VerificationDefect, AllHold, FirstBroken;
    VerificationStep(vs);
    ThreeChecks(VerificationChecks(vs, |vs| - 1), DB.VerificationDefect(vs));
  }

  lemma PrefixChecks(vs: seq<Verification>, n: nat, k: nat)
    requires k < n <= |vs|
    ensures VerificationChecks(vs[..n], k) == VerificationChecks(vs, k)
  {
    hide IsBlank, DIMENSIONS;
  }

  lemma NothingToRefuse()
    ensures DB.VerificationDefect([]).None?
  {
  }

  /** The verifications' defect is the first broken check of the first verification that breaks one. */
  lemma {:induction false} VerificationsByChecks(vs: seq<Verification>)
    ensures DB.VerificationDefect(vs).None? ==> VerificationsHold(vs)
    ensures DB.VerificationDefect(vs).Some? ==> exists k: nat :: VerificationBroken(vs, k, DB.VerificationDefect(vs).value)
  {
    hide VerificationChecks, DB.VerificationDefect, FirstBroken, AllHold;
    if vs == [] {
      NothingToRefuse();
    } else {
      var n := |vs| - 1;
      VerificationsByChecks(vs[..n]);
      forall k | 0 <= k < n ensures VerificationChecks(vs[..n], k) == VerificationChecks(vs, k) { PrefixChecks(vs, n, k); }
      if DB.VerificationDefect(vs[..n]).Some? {
        DB.FirstDefectStands(vs, n);
        var k: nat :| VerificationBroken(vs[..n], k, DB.VerificationDefect(vs[..n]).value);
        assert VerificationBroken(vs, k, DB.VerificationDefect(vs).value);
      } else {
        LastVerification(vs);
        if DB.VerificationDefect(vs).Some? {
          assert VerificationBroken(vs, n, DB.VerificationDefect(vs).value);
        }
      }
    }
  }

  function ReferenceChecks(r: Reference): Checks {
    [Check("evidence_reference_empty_locator", !IsBlank(r.locator)),
     Check("evidence_reference_no_dimension", r.bearsOnDimensions != [])]
  }

  predicate ReferencesHold(rs: seq<Reference>) { forall k | 0 <= k < |rs| :: AllHold(ReferenceChecks(rs[k])) }

  predicate ReferenceBroken(rs: seq<Reference>, k: nat, code: string) {
    k < |rs| && FirstBroken(ReferenceChecks(rs[k]), code) && forall j | 0 <= j < k :: AllHold(ReferenceChecks(rs[j]))
  }

  lemma {:induction false} ReferencesByChecks(rs: seq<Reference>)
    ensures DB.ReferenceDefect(rs).None? ==> ReferencesHold(rs)
    ensures DB.ReferenceDefect(rs).Some? ==> exists k: nat :: ReferenceBroken(rs, k, DB.ReferenceDefect(rs).value)
  {
    hide IsBlank;
    if rs != [] {
      var checks := ReferenceChecks(rs[0]);
      if !checks[0].holds {
        assert BreaksAt(checks, 0) && ReferenceBroken(rs, 0, checks[0].code);
      } else if !checks[1].holds {
        assert BreaksAt(checks, 1) && ReferenceBroken(rs, 0, checks[1].code);
      } else {
        ReferencesByChecks(rs[1..]);
        assert forall j | 1 <= j < |rs| :: rs[j] == rs[1..][j - 1];
        if DB.ReferenceDefect(rs[1..]).Some? {
          var k: nat :| ReferenceBroken(rs[1..], k, DB.ReferenceDefect(rs[1..]).value);
          assert ReferenceBroken(rs, k + 1, DB.ReferenceDefect(rs).value);
        }
      }
    }
  }

  function DeferChecks(item: ReviewedItem): Checks {
    [Check("defer_requires_note", Written(item.humanNote)),
     Check("defer_carries_destination", item.canonicalDestinationSlug.None? || item.canonicalDestinationSlug.value == "")]
  }

  predicate Recorded(item: ReviewedItem, d: string) { exists v | v in item.verifications :: v.dimension == d }
  predicate Affirmed(item: ReviewedItem, d: string) {
    exists v | v in item.verifications :: v.dimension == d && v.verdict == "supports"
  }

  /** After the destination and the verifications themselves. */
  function ApprovalChecks(item: ReviewedItem): Checks {
    [Check("dimension_missing", forall d | d in DIMENSIONS :: Recorded(item, d)),
     Check("distinct_property_not_affirmative", Affirmed(item, "distinct_property")),
     Check("destination_membership_not_affirmative", Affirmed(item, "destination_membership")),
     Check("no_evidence_reference", item.evidenceReferences != [])]
  }

  predicate NamesDestination(item: ReviewedItem) {
    item.canonicalDestinationSlug.Some? && item.canonicalDestinationSlug.value != ""
  }

  /** Why an approval is refused, in order: no destination, a verification, the set of them, or a reference. */
  ghost predicate ApprovalRefusedFor(item: ReviewedItem, code: string) {
    if !NamesDestination(item) then code == "approve_create_requires_destination"
    else if !VerificationsHold(item.verifications) then exists k: nat :: VerificationBroken(item.verifications, k, code)
    else if !AllHold(ApprovalChecks(item)) then FirstBroken(ApprovalChecks(item), code)
    else exists k: nat :: ReferenceBroken(item.evidenceReferences, k, code)
  }

  lemma BrokenIsNotHeld(vs: seq<Verification>, k: nat, code: string)
    requires VerificationBroken(vs, k, code)
    ensures !VerificationsHold(vs)
  {
    hide VerificationChecks;
    BrokenIsNotAll(VerificationChecks(vs, k), code);
  }

  /** A review item is accepted when every shape check holds, and refused for the first one broken. */
  lemma ShapeByChecks(item: ReviewedItem)
    ensures item.decision.Defer? ==>
      && (DB.ShapeDefect(item).None? <==> AllHold(DeferChecks(item)))
      && (DB.ShapeDefect(item).Some? ==> FirstBroken(DeferChecks(item), DB.ShapeDefect(item).value))
    ensures item.decision.ApproveCreate? && DB.ShapeDefect(item).None? ==>
      && NamesDestination(item) && VerificationsHold(item.verifications) && AllHold(ApprovalChecks(item))
      && ReferencesHold(item.evidenceReferences)
    ensures item.decision.ApproveCreate? && DB.ShapeDefect(item).Some? ==> ApprovalRefusedFor(item, DB.ShapeDefect(item).value)
  {
    hide IsBlank, DB.VerificationDefect, DB.ReferenceDefect, VerificationsHold, ReferencesHold, VerificationBroken, ReferenceBroken;
    hide REVIEW_DIMENSIONS, DIMENSIONS;
    if item.decision.Defer? {
      var checks := DeferChecks(item);
      if !checks[0].holds {
        assert BreaksAt(checks, 0);
      } else if !checks[1].holds {
        assert BreaksAt(checks, 1);
      }
    } else {
      DimensionsAreThese();
      VerificationsByChecks(item.verifications);
      ReferencesByChecks(item.evidenceReferences);
      if DB.VerificationDefect(item.verifications).Some? {
        var k: nat :| VerificationBroken(item.verifications, k, DB.VerificationDefect(item.verifications).value);
        BrokenIsNotHeld(item.verifications, k, DB.VerificationDefect(item.verifications).value);
      }
      var checks := ApprovalChecks(item);
      if !checks[0].holds {
        assert BreaksAt(checks, 0);
      } else if !checks[1].holds {
        assert BreaksAt(checks, 1);
      } else if !checks[2].holds {
        assert BreaksAt(checks, 2);
      } else if !checks[3].holds {
        assert BreaksAt(checks, 3);
      }
    }
  }

  // ---- Withdrawals, and the pack a human fills in. ----

  function RevocationChecks(item: W.RevocationItem): Checks {
    [Check("revocation_requires_note", !IsBlank(item.revocationNote)),
     Check("revocation_requires_reviewer", !IsBlank(item.reviewerLabel)),
     Check("revocation_target_not_approve_create", item.expectedDecision == "approve_create"),
     Check("revocation_target_not_active", item.expectedReviewStatus == "active")]
  }

  /** A withdrawal item is well formed when every shape check holds, and refused for the first one broken. */
  lemma RevocationShapeByChecks(item: W.RevocationItem)
    ensures W.WellFormed(item) <==> AllHold(RevocationChecks(item))
    ensures W.ShapeDefect(item).None? <==> AllHold(RevocationChecks(item))
    ensures W.ShapeDefect(item).Some? ==> FirstBroken(RevocationChecks(item), W.ShapeDefect(item).value)
  {
    hide IsBlank;
    var checks := RevocationChecks(item);
    assert AllHold(checks) <==> checks[0].holds && checks[1].holds && checks[2].holds && checks[3].holds;
    if !checks[0].holds {
      assert BreaksAt(checks, 0);
    } else if !checks[1].holds {
      assert BreaksAt(checks, 1);
    } else if !checks[2].holds {
      assert BreaksAt(checks, 2);
    } else if !checks[3].holds {
      assert BreaksAt(checks, 3);
    }
  }

  /** An emitted item pins the rows it was read from and leaves the human's three fields empty; its context quotes the projection. */
  lemma PackedColumns(t: Tables, i: Id)
    requires W.Revocable(t, i) && t.projections[i].currentReceiptId.Some? && t.projections[i].currentReceiptId.value in t.receipts
    ensures var (item, c, p, r) := (W.PackItem(t, i), DB.ContextOf(t, i), t.projections[i], t.receipts[t.projections[i].currentReceiptId.value]);
      && item.identityId == i && item.sourcePropertyId == t.identities[i].sourcePropertyId && item.reviewId == p.id
      && item.expectedDecision == "approve_create" && item.expectedReviewStatus == "active"
      && Some(item.expectedCurrentReceiptId) == p.currentReceiptId && item.expectedReceiptDigest == r.digest
      && item.expectedEvidenceObservationId == r.observationId
      && item.reviewerLabel == "" && item.reviewerUserId.None? && item.revocationNote == ""
      && c.reviewedAt == p.reviewedAt && c.reviewerLabel == p.reviewerLabel && c.reviewNote == p.reviewNote
      && (c.destinationSlug.Some? <==> p.destinationId.Some? && p.destinationId.value in t.destinationSlugs)
      && (c.destinationSlug.Some? ==> c.destinationSlug.value == t.destinationSlugs[p.destinationId.value])
      && (c.receiptEvidenceIsStillCurrent <==> CurrentObservationId(t, i) == Some(r.observationId))
  {
  }
}

/**
 What the joined sort keys and digests separate, over the columns themselves: the window and candidate keys of the
 fingerprint (scripts/prepublication-preview/evaluate.ts) and the issue digest of
 supabase/migrations/0031_prepublication_lifecycle_evidence.sql.
 */
module KeyMeaning {
  import opened Prelude
  import opened Text
  import opened Sequences
  import opened JoinedText
  import opened Gate
  import opened GateFingerprint
  import F = GateFingerprint
  import L = Lifecycle
  import S = LifecycleStore
  import E = IssueExtraction

  // ---- Padded numbers. ----

  function Zeros(k: nat): string { if k == 0 then "" else "0" + Zeros(k - 1) }

  lemma {:induction false} ZerosAre(k: nat)
    ensures |Zeros(k)| == k && forall c | c in Zeros(k) :: c == '0'
  {
    if k > 0 {
      ZerosAre(k - 1);
    }
  }

  lemma {:induction false} ZerosMore(k: nat, s: string)
    ensures Zeros(k) + ("0" + s) == Zeros(k + 1) + s
  {
    if k > 0 {
      ZerosMore(k - 1, s);
      assert Zeros(k) + ("0" + s) == "0" + (Zeros(k - 1) + ("0" + s));
      assert Zeros(k + 1) + s == "0" + (Zeros(k) + s);
    } else {
      assert Zeros(1) == "0";
    }
  }

  lemma {:induction false} PadIs(s: string, width: nat) returns (k: nat)
    ensures PadStart(s, width) == Zeros(k) + s
    decreases width - |s|
  {
    if |s| >= width {
      k := 0;
    } else {
      var j := PadIs("0" + s, width);
      k := j + 1;
      ZerosMore(j, s);
    }
  }

  lemma LongerPadding(i: nat, s: string, j: nat, t: string)
    requires i < j && s != "" && t != "" && (s[0] == '0' ==> s == "0")
    ensures Zeros(i) + s != Zeros(j) + t
  {
    ZerosAre(i);
    ZerosAre(j);
    var a, b := Zeros(i) + s, Zeros(j) + t;
    if s[0] == '0' {
      assert |a| == i + 1 && |b| >= j + 1;
    } else {
      assert Zeros(j)[i] in Zeros(j) && b[i] == Zeros(j)[i] && a[i] == s[0];
    }
  }

  lemma SamePadded(i: nat, s: string, j: nat, t: string)
    requires Zeros(i) + s == Zeros(j) + t && s != "" && t != ""
    requires (s[0] == '0' ==> s == "0") && (t[0] == '0' ==> t == "0")
    ensures s == t
  {
    hide Zeros;
    if i < j {
      LongerPadding(i, s, j, t);
    } else if j < i {
      LongerPadding(j, t, i, s);
    } else {
      ZerosAre(i);
      assert (Zeros(i) + s)[i..] == s && (Zeros(j) + t)[j..] == t;
    }
  }

  function OrderText(order: Option<int>): string { if order.None? then "~" else PadStart(IntText(order.value), 12) }

  lemma PaddedShape(n: int)
    ensures PadStart(IntText(n), 12) != "~" && BarFree(PadStart(IntText(n), 12))
  {
    hide PadStart, IntText;
    IntTextShape(n);
    var k := PadIs(IntText(n), 12);
    ZerosAre(k);
    var s := PadStart(IntText(n), 12);
    assert s[0] == if k > 0 then Zeros(k)[0] else IntText(n)[0];
    assert k > 0 ==> Zeros(k)[0] in Zeros(k);
    assert forall c | c in s :: c in Zeros(k) || c in IntText(n);
  }

  lemma OrderTextInjective(m: Option<int>, n: Option<int>)
    ensures OrderText(m) == OrderText(n) <==> m == n
    ensures BarFree(OrderText(m))
  {
    hide PadStart, IntText;
    if m.Some? { PaddedShape(m.value); }
    if n.Some? { PaddedShape(n.value); }
    if m.Some? && n.Some? && OrderText(m) == OrderText(n) {
      var i := PadIs(IntText(m.value), 12);
      var j := PadIs(IntText(n.value), 12);
      IntTextShape(m.value);
      IntTextShape(n.value);
      SamePadded(i, IntText(m.value), j, IntText(n.value));
      IntTextInjective(m.value, n.value);
    }
  }

  // ---- The fingerprint's window keys. ----

  predicate BarFreeWindow(w: L.IssueEvidence) {
    BarFree(w.issueCode) && BarFree(w.issueType) && BarFree(w.dateFromRaw.GetOr("")) && BarFree(w.dateToRaw.GetOr(""))
  }

  /** The same window, a missing date being read as an empty one. */
  predicate SameButForEmptyDates(w: L.IssueEvidence, x: L.IssueEvidence) {
    && w.issueCode == x.issueCode && w.issueType == x.issueType && w.providerOrder == x.providerOrder
    && w.alternative == x.alternative && w.dateFromRaw.GetOr("") == x.dateFromRaw.GetOr("")
    && w.dateToRaw.GetOr("") == x.dateToRaw.GetOr("")
  }

  function AlternativeText(v: Option<bool>): string { if v.None? then "null" else if v.value then "true" else "false" }

  lemma AlternativeTextInjective(a: Option<bool>, b: Option<bool>)
    ensures AlternativeText(a) == AlternativeText(b) <==> a == b
  {
    assert |AlternativeText(a)| == |AlternativeText(b)| && a.Some? && b.Some? ==> a.value == b.value;
  }

  lemma IssueKeyParts(w: L.IssueEvidence)
    ensures IssueKey(w) == OrderText(w.providerOrder) + "|" + (w.issueCode + "|" + (w.issueType + "|"
      + (w.dateFromRaw.GetOr("") + "|" + (w.dateToRaw.GetOr("") + "|" + AlternativeText(w.alternative)))))
  {
    hide PadStart, IntText;
  }

  /** Two windows share a sort key exactly when they are the same up to a missing date standing for an empty one. */
  lemma IssueKeyMeaning(w: L.IssueEvidence, x: L.IssueEvidence)
    requires BarFreeWindow(w) && BarFreeWindow(x)
    ensures IssueKey(w) == IssueKey(x) <==> SameButForEmptyDates(w, x)
  {
    hide IssueKey, OrderText, AlternativeText;
    IssueKeyParts(w);
    IssueKeyParts(x);
    OrderTextInjective(w.providerOrder, x.providerOrder);
    OrderTextInjective(x.providerOrder, w.providerOrder);
    AlternativeTextInjective(w.alternative, x.alternative);
    var (f, g) := (w.dateFromRaw.GetOr(""), x.dateFromRaw.GetOr(""));
    var (t, u) := (w.dateToRaw.GetOr(""), x.dateToRaw.GetOr(""));
    var (a, b) := (AlternativeText(w.alternative), AlternativeText(x.alternative));
    BarSplits(t, a, u, b);
    BarSplits(f, t + "|" + a, g, u + "|" + b);
    BarSplits(w.issueType, f + "|" + (t + "|" + a), x.issueType, g + "|" + (u + "|" + b));
    BarSplits(w.issueCode, w.issueType + "|" + (f + "|" + (t + "|" + a)), x.issueCode, x.issueType + "|" + (g + "|" + (u + "|" + b)));
    BarSplits(OrderText(w.providerOrder), w.issueCode + "|" + (w.issueType + "|" + (f + "|" + (t + "|" + a))),
              OrderText(x.providerOrder), x.issueCode + "|" + (x.issueType + "|" + (g + "|" + (u + "|" + b))));
  }

  predicate BarFreeClosure(w: L.ClosureWindow) {
    BarFree(w.issueCode) && BarFree(w.issueType) && BarFree(w.dateFrom) && BarFree(w.dateTo)
  }

  lemma ClosureKeyMeaning(w: L.ClosureWindow, x: L.ClosureWindow)
    requires BarFreeClosure(w) && BarFreeClosure(x)
    ensures ClosureKey(w) == ClosureKey(x) <==> w == x
  {
    assert ClosureKey(w) == w.issueCode + "|" + (w.issueType + "|" + (w.dateFrom + "|" + w.dateTo));
    assert ClosureKey(x) == x.issueCode + "|" + (x.issueType + "|" + (x.dateFrom + "|" + x.dateTo));
    hide ClosureKey;
    BarSplits(w.dateFrom, w.dateTo, x.dateFrom, x.dateTo);
    BarSplits(w.issueType, w.dateFrom + "|" + w.dateTo, x.issueType, x.dateFrom + "|" + x.dateTo);
    BarSplits(w.issueCode, w.issueType + "|" + (w.dateFrom + "|" + w.dateTo),
              x.issueCode, x.issueType + "|" + (x.dateFrom + "|" + x.dateTo));
  }

  lemma ActiveIsBarFree(windows: seq<L.IssueEvidence>, asOf: string)
    requires forall w | w in windows :: BarFreeWindow(w)
    ensures forall c | c in F.Active(windows, asOf) :: BarFreeClosure(c)
  {
    hide L.Covers;
    var covering := Filter(w => L.Covers(w, asOf), windows);
    var active := F.Active(windows, asOf);
    forall c | c in active ensures BarFreeClosure(c) {
      var k :| 0 <= k < |active| && active[k] == c;
      assert covering[k] in covering;
    }
  }

  /** So the window keys separate exactly when no two windows differ only in a missing against an empty date. */
  lemma WindowKeysSeparateIff(windows: seq<L.IssueEvidence>, asOf: string)
    requires forall w | w in windows :: BarFreeWindow(w)
    ensures WindowKeysSeparate(windows, asOf) <==>
      forall w, x | w in windows && x in windows && SameButForEmptyDates(w, x) :: w == x
  {
    hide IssueKey, ClosureKey, L.Defects, F.Active, SameButForEmptyDates, BarFreeWindow, BarFreeClosure;
    var active := F.Active(windows, asOf);
    ActiveIsBarFree(windows, asOf);
    forall i, j | 0 <= i < |active| && 0 <= j < |active| && ClosureKey(active[i]) == ClosureKey(active[j])
      ensures active[i] == active[j]
    {
      ClosureKeyMeaning(active[i], active[j]);
    }
    forall w, x | w in windows && x in windows ensures IssueKey(w) == IssueKey(x) <==> SameButForEmptyDates(w, x) {
      IssueKeyMeaning(w, x);
    }
    if WindowKeysSeparate(windows, asOf) {
      forall w, x | w in windows && x in windows && SameButForEmptyDates(w, x) ensures w == x {
        var i :| 0 <= i < |windows| && windows[i] == w;
        var j :| 0 <= j < |windows| && windows[j] == x;
        assert IssueKey(windows[i]) == IssueKey(windows[j]);
      }
    }
  }

  /** The payload forgets the provider's issue order exactly when no two windows it reads differ only in such a date. */
  lemma IssueOrderFreeOverColumns(input: PreviewInput, asOf: string)
    requires input.snapshot.Some? && LifecycleOf(input, asOf).Ok?
    requires forall w | w in ReadWindows(input) :: BarFreeWindow(w)
    ensures IssueOrderFree(input, asOf) <==>
      forall w, x | w in ReadWindows(input) && x in ReadWindows(input) && SameButForEmptyDates(w, x) :: w == x
  {
    hide IssueOrderFree, ReadWindows, LifecycleOf, WindowKeysSeparate, SameButForEmptyDates, BarFreeWindow;
    IssueOrderFreeIff(input, asOf);
    WindowKeysSeparateIff(ReadWindows(input), asOf);
  }

  // ---- Candidate keys. ----

  predicate BarFreeCandidate(c: CandidateView) {
    && BarFree(c.sourcePropertyIdentityId) && BarFree(c.candidateHotelId.GetOr(""))
    && BarFree(c.candidateSourcePropertyIdentityId.GetOr(""))
  }

  lemma KindTextMeaning(a: CandidateKind, b: CandidateKind)
    ensures (KindText(a) == KindText(b) <==> a == b) && BarFree(KindText(a))
  {
    assert |KindText(CanonicalHotel)| == 15 && |KindText(SourceIdentity)| == 15 && |KindText(NewProperty)| == 12;
    assert KindText(CanonicalHotel)[0] == 'c' && KindText(SourceIdentity)[0] == 's';
  }

  /** A candidate's key says its kind, its identities and its row id. */
  lemma CandidateKeyMeaning(c: CandidateView, d: CandidateView)
    requires BarFreeCandidate(c) && BarFreeCandidate(d)
    ensures CandidateKey(c) == CandidateKey(d) <==>
      && c.kind == d.kind && c.sourcePropertyIdentityId == d.sourcePropertyIdentityId
      && c.candidateHotelId.GetOr("") == d.candidateHotelId.GetOr("")
      && c.candidateSourcePropertyIdentityId.GetOr("") == d.candidateSourcePropertyIdentityId.GetOr("") && c.id == d.id
  {
    var (h, i) := (c.candidateHotelId.GetOr(""), d.candidateHotelId.GetOr(""));
    var (o, p) := (c.candidateSourcePropertyIdentityId.GetOr(""), d.candidateSourcePropertyIdentityId.GetOr(""));
    assert CandidateKey(c) == KindText(c.kind) + "|" + (c.sourcePropertyIdentityId + "|" + (h + "|" + (o + "|" + c.id)));
    assert CandidateKey(d) == KindText(d.kind) + "|" + (d.sourcePropertyIdentityId + "|" + (i + "|" + (p + "|" + d.id)));
    hide CandidateKey, KindText;
    KindTextMeaning(c.kind, d.kind);
    KindTextMeaning(d.kind, c.kind);
    BarSplits(o, c.id, p, d.id);
    BarSplits(h, o + "|" + c.id, i, p + "|" + d.id);
    BarSplits(c.sourcePropertyIdentityId, h + "|" + (o + "|" + c.id), d.sourcePropertyIdentityId, i + "|" + (p + "|" + d.id));
    BarSplits(KindText(c.kind), c.sourcePropertyIdentityId + "|" + (h + "|" + (o + "|" + c.id)),
              KindText(d.kind), d.sourcePropertyIdentityId + "|" + (i + "|" + (p + "|" + d.id)));
  }

  /** Row ids are unique, so candidate keys always separate. */
  lemma CandidateKeysSeparate(cs: seq<CandidateView>)
    requires forall c | c in cs :: BarFreeCandidate(c)
    requires forall c, d | c in cs && d in cs && c.id == d.id :: c == d
    ensures KeysSeparate(CandidateKey, cs)
  {
    hide CandidateKey, BarFreeCandidate;
    forall i, j | 0 <= i < |cs| && 0 <= j < |cs| && CandidateKey(cs[i]) == CandidateKey(cs[j]) ensures cs[i] == cs[j] {
      CandidateKeyMeaning(cs[i], cs[j]);
    }
  }

  // ---- The issue digest. ----

  predicate BarFreeIssue(i: E.Issue) {
    && BarFree(i.issueCode) && BarFree(i.issueType)
    && (i.dateFromRaw.Some? ==> BarFree(i.dateFromRaw.value) && i.dateFromRaw.value != "~null~")
    && (i.dateToRaw.Some? ==> BarFree(i.dateToRaw.value) && i.dateToRaw.value != "~null~")
  }

  /** Every digested column agrees; only the description may differ. */
  predicate SameDigested(i: E.Issue, j: E.Issue) {
    && i.issueCode == j.issueCode && i.issueType == j.issueType && i.dateFromRaw == j.dateFromRaw
    && i.dateToRaw == j.dateToRaw && i.providerOrder == j.providerOrder && i.alternative == j.alternative
  }

  lemma OrdinalMeaning(m: Option<int>, n: Option<int>)
    ensures (S.Ordinal(m) == S.Ordinal(n) <==> m == n) && BarFree(S.Ordinal(m))
  {
    hide IntText;
    if m.Some? { IntTextShape(m.value); }
    if n.Some? { IntTextShape(n.value); }
    if m.Some? && n.Some? { IntTextInjective(m.value, n.value); }
  }

  lemma FlagMeaning(a: Option<bool>, b: Option<bool>)
    ensures S.Flag(a) == S.Flag(b) <==> a == b
  {
    assert |S.Flag(None)| == 6 && |S.Flag(Some(true))| == 4 && |S.Flag(Some(false))| == 5;
    assert a.Some? && b.Some? ==> (S.Flag(a) == S.Flag(b) <==> a.value == b.value);
  }

  lemma ShownMeaning(a: Option<string>, b: Option<string>)
    requires a.Some? ==> BarFree(a.value) && a.value != "~null~"
    requires b.Some? ==> BarFree(b.value) && b.value != "~null~"
    ensures (S.Shown(a) == S.Shown(b) <==> a == b) && BarFree(S.Shown(a))
  {
  }

  lemma EvidenceTextParts(i: E.Issue)
    ensures S.EvidenceText(i) == i.issueCode + "|" + (i.issueType + "|" + (S.Shown(i.dateFromRaw) + "|"
      + (S.Shown(i.dateToRaw) + "|" + (S.Ordinal(i.providerOrder) + "|" + S.Flag(i.alternative)))))
  {
    hide S.Ordinal, S.Flag, S.Shown;
  }

  lemma EvidenceTextMeaning(i: E.Issue, j: E.Issue)
    requires BarFreeIssue(i) && BarFreeIssue(j)
    ensures S.EvidenceText(i) == S.EvidenceText(j) <==> SameDigested(i, j)
  {
    var (f, g) := (S.Shown(i.dateFromRaw), S.Shown(j.dateFromRaw));
    var (t, u) := (S.Shown(i.dateToRaw), S.Shown(j.dateToRaw));
    var (o, p) := (S.Ordinal(i.providerOrder), S.Ordinal(j.providerOrder));
    var (a, b) := (S.Flag(i.alternative), S.Flag(j.alternative));
    hide S.Ordinal, S.Flag, S.Shown, S.EvidenceText;
    ShownMeaning(i.dateFromRaw, j.dateFromRaw);
    ShownMeaning(j.dateFromRaw, i.dateFromRaw);
    ShownMeaning(i.dateToRaw, j.dateToRaw);
    ShownMeaning(j.dateToRaw, i.dateToRaw);
    EvidenceTextParts(i);
    EvidenceTextParts(j);
    OrdinalMeaning(i.providerOrder, j.providerOrder);
    OrdinalMeaning(j.providerOrder, i.providerOrder);
    FlagMeaning(i.alternative, j.alternative);
    BarSplits(o, a, p, b);
    BarSplits(t, o + "|" + a, u, p + "|" + b);
    BarSplits(f, t + "|" + (o + "|" + a), g, u + "|" + (p + "|" + b));
    BarSplits(i.issueType, f + "|" + (t + "|" + (o + "|" + a)), j.issueType, g + "|" + (u + "|" + (p + "|" + b)));
    BarSplits(i.issueCode, i.issueType + "|" + (f + "|" + (t + "|" + (o + "|" + a))),
              j.issueCode, j.issueType + "|" + (g + "|" + (u + "|" + (p + "|" + b))));
  }

  /** Issues collide exactly when two of one snapshot differ in nothing but their description. */
  lemma CollidesOverColumns(issues: seq<E.Issue>)
    requires forall i | i in issues :: BarFreeIssue(i)
    ensures S.Collides(issues) <==> exists a, b | 0 <= a < b < |issues| :: SameDigested(issues[a], issues[b])
  {
    hide S.EvidenceText, SameDigested, BarFreeIssue;
    forall a, b | 0 <= a < b < |issues|
      ensures S.EvidenceText(issues[a]) == S.EvidenceText(issues[b]) <==> SameDigested(issues[a], issues[b])
    {
      EvidenceTextMeaning(issues[a], issues[b]);
    }
  }
}

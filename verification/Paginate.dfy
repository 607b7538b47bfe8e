/**
 The exhaustive pagination driver (scripts/provider-evaluation/paginate.ts). The provider is a function
 from the request's index and cursor to a page, so it may answer the same cursor differently later.
 */
module Paginate {
  import opened Prelude

  datatype Page<T> = Page(records: seq<T>, nextCursor: Option<string>, reportedTotal: Option<int>)

  type Fetch<!T> = (nat, Option<string>) -> Page<T>

  datatype Options = Options(documentedHardCap: Option<int>, maxRequests: Option<int>, maxRecords: Option<int>) {
    function RequestGuard(): int { maxRequests.GetOr(10_000) }
    function RecordGuard(): int { maxRecords.GetOr(1_000_000) }
  }

  datatype Risk =
    | CursorRepeated(requests: nat)
    | EmptyPage(request: nat)
    | RequestGuardHit(maxRequests: int)
    | RecordGuardHit(maxRecords: int)
    | HardCapReached(cap: int)
    | TotalDisagrees(reportedTotal: int, retrieved: nat)
    | NotNatural

  datatype Evidence = Evidence(
    requests: nat, pages: nat, totalRecords: nat, documentedHardCap: Option<int>, reportedTotal: Option<int>,
    exhaustionProven: bool, walkCompleted: bool, coverageRisks: seq<Risk>)

  // ---- The provider's cursor chain, whatever the driver does with it. ----

  /** The cursor of request `k`: null first, then whatever the previous page handed over. */
  function CursorAt<T>(fetch: Fetch<T>, k: nat): Option<string> {
    if k == 0 then None else fetch(k - 1, CursorAt(fetch, k - 1)).nextCursor
  }

  function PageAt<T>(fetch: Fetch<T>, k: nat): Page<T> { fetch(k, CursorAt(fetch, k)) }

  /** All pages before `n`, concatenated in order. */
  function RecordsOf<T>(fetch: Fetch<T>, n: nat): seq<T> {
    if n == 0 then [] else RecordsOf(fetch, n - 1) + PageAt(fetch, n - 1).records
  }

  function CountOf<T>(fetch: Fetch<T>, n: nat): nat { |RecordsOf(fetch, n)| }

  function TotalOf<T>(fetch: Fetch<T>, n: nat): Option<int> {
    if n == 0 then None
    else if PageAt(fetch, n - 1).reportedTotal.Some? then PageAt(fetch, n - 1).reportedTotal
    else TotalOf(fetch, n - 1)
  }

  predicate Repeats<T>(fetch: Fetch<T>, k: nat) {
    exists j | 0 <= j < k :: PageAt(fetch, j).nextCursor == PageAt(fetch, k).nextCursor
  }

  /** The chain of `n` pages runs from null to null, with no cursor twice and no empty page before the last. */
  predicate CleanWalk<T>(fetch: Fetch<T>, n: nat) {
    && n > 0 && PageAt(fetch, n - 1).nextCursor.None?
    && forall k | 0 <= k < n - 1 ::
         PageAt(fetch, k).nextCursor.Some? && !Repeats(fetch, k) && PageAt(fetch, k).records != []
  }

  /** Everything the driver demands before it claims to have seen the whole destination. */
  predicate Exhaustive<T>(fetch: Fetch<T>, opts: Options, n: nat) {
    && CleanWalk(fetch, n)
    && n < opts.RequestGuard() && CountOf(fetch, n) < opts.RecordGuard()
    && (opts.documentedHardCap.Some? ==> CountOf(fetch, n) < opts.documentedHardCap.value)
    && (TotalOf(fetch, n).Some? ==> TotalOf(fetch, n).value == CountOf(fetch, n))
  }

  /** The driver's own stopping point. */
  predicate Walked<T>(fetch: Fetch<T>, opts: Options, n: nat) {
    && (n > 0 ==> n - 1 < opts.RequestGuard()) && (forall k | 0 <= k < n :: CountOf(fetch, k) < opts.RecordGuard())
    && (forall k | 0 <= k < n - 1 :: PageAt(fetch, k).nextCursor.Some? && !Repeats(fetch, k))
    && (n >= opts.RequestGuard() || CountOf(fetch, n) >= opts.RecordGuard()
        || (n > 0 && (PageAt(fetch, n - 1).nextCursor.None? || Repeats(fetch, n - 1))))
  }

  /** Nothing but a disagreeing total stands between the walk and its proof. */
  predicate Unhindered<T>(fetch: Fetch<T>, opts: Options, n: nat) {
    && CleanWalk(fetch, n)
    && n < opts.maxRequests.GetOr(10_000) && CountOf(fetch, n) < opts.maxRecords.GetOr(1_000_000)
    && (opts.documentedHardCap.Some? ==> CountOf(fetch, n) < opts.documentedHardCap.value)
  }

  /** Every note the driver can leave, each exactly when its fact holds of the `n` pages it walked. */
  ghost predicate RisksExact<T>(fetch: Fetch<T>, opts: Options, n: nat, risks: seq<Risk>) {
    && (forall k: nat :: CursorRepeated(k) in risks <==>
          k == n && n > 0 && PageAt(fetch, n - 1).nextCursor.Some? && Repeats(fetch, n - 1))
    && (forall k: nat :: EmptyPage(k) in risks <==>
          0 < k <= n && PageAt(fetch, k - 1).records == [] && PageAt(fetch, k - 1).nextCursor.Some? && !Repeats(fetch, k - 1))
    && (forall x: int :: RequestGuardHit(x) in risks <==> x == opts.maxRequests.GetOr(10_000) && n >= x)
    && (forall x: int :: RecordGuardHit(x) in risks <==> x == opts.maxRecords.GetOr(1_000_000) && CountOf(fetch, n) >= x)
    && (forall x: int :: HardCapReached(x) in risks <==> opts.documentedHardCap == Some(x) && CountOf(fetch, n) >= x)
    && (forall t: int, r: nat :: TotalDisagrees(t, r) in risks <==>
          TotalOf(fetch, n) == Some(t) && r == CountOf(fetch, n) && t != r && Unhindered(fetch, opts, n))
    && NotNatural !in risks
  }

  /** The walk's own notes, the guards', and the total's, make up the whole list. */
  lemma RisksAddUp<T>(fetch: Fetch<T>, opts: Options, n: nat, walk: seq<Risk>, guards: seq<Risk>, total: seq<Risk>)
    requires forall k: nat :: CursorRepeated(k) in walk <==>
               k == n && n > 0 && PageAt(fetch, n - 1).nextCursor.Some? && Repeats(fetch, n - 1)
    requires forall k: nat :: EmptyPage(k) in walk <==>
               0 < k <= n && PageAt(fetch, k - 1).records == [] && PageAt(fetch, k - 1).nextCursor.Some? && !Repeats(fetch, k - 1)
    requires forall r | r in walk :: r.EmptyPage? || r.CursorRepeated?
    requires forall r :: r in guards <==>
      || (r == RequestGuardHit(opts.RequestGuard()) && n >= opts.RequestGuard())
      || (r == RecordGuardHit(opts.RecordGuard()) && CountOf(fetch, n) >= opts.RecordGuard())
      || (opts.documentedHardCap.Some? && r == HardCapReached(opts.documentedHardCap.value)
          && CountOf(fetch, n) >= opts.documentedHardCap.value)
    requires forall r :: r in total <==>
      && TotalOf(fetch, n).Some? && r == TotalDisagrees(TotalOf(fetch, n).value, CountOf(fetch, n))
      && TotalOf(fetch, n).value != CountOf(fetch, n) && Unhindered(fetch, opts, n)
    ensures RisksExact(fetch, opts, n, walk + guards + total)
  {
    hide PageAt, Repeats, RecordsOf, TotalOf, CleanWalk, Unhindered;
  }

  lemma {:induction false} RecordsGrow<T>(fetch: Fetch<T>, m: nat, n: nat)
    requires m <= n
    ensures CountOf(fetch, m) <= CountOf(fetch, n)
  {
    if m < n {
      RecordsGrow(fetch, m, n - 1);
    }
  }

  /** The driver stops exactly where an exhaustive walk ends, if there is one. */
  lemma ExhaustiveIsWhereItStops<T>(fetch: Fetch<T>, opts: Options, n: nat, m: nat)
    requires Walked(fetch, opts, n) && Exhaustive(fetch, opts, m)
    ensures m == n
  {
    hide PageAt;
    RecordsGrow(fetch, if m < n then m else n, if m < n then n else m);
  }

  method PaginateAll<T>(fetch: Fetch<T>, opts: Options) returns (records: seq<T>, evidence: Evidence)
    ensures var n := evidence.requests;
      && Walked(fetch, opts, n) && records == RecordsOf(fetch, n)
      && evidence.pages == n && evidence.totalRecords == |records| && evidence.reportedTotal == TotalOf(fetch, n)
      && (evidence.exhaustionProven <==> Exhaustive(fetch, opts, n))
      && (evidence.exhaustionProven <==> evidence.coverageRisks == [])
      && evidence.walkCompleted == evidence.exhaustionProven && evidence.documentedHardCap == opts.documentedHardCap
    ensures 0 <= evidence.requests <= if opts.RequestGuard() > 0 then opts.RequestGuard() else 0
    ensures evidence.exhaustionProven <==> exists m: nat :: Exhaustive(fetch, opts, m)
    ensures RisksExact(fetch, opts, evidence.requests, evidence.coverageRisks)
  {
    hide PageAt, Repeats, RecordsOf, TotalOf, RisksExact;
    var maxRequests, maxRecords := opts.RequestGuard(), opts.RecordGuard();
    records := [];
    var coverageRisks: seq<Risk> := [];
    var seenCursors: set<string> := {};
    var cursor: Option<string> := None;
    var requests, pages := 0, 0;
    var reportedTotal: Option<int> := None;
    var terminatedNaturally, repeated := false, false;
    NothingYet(fetch);
    while requests < maxRequests && |records| < maxRecords && !terminatedNaturally && !repeated
      invariant pages == requests && (requests <= maxRequests || requests == 0)
      invariant !terminatedNaturally && !repeated ==> cursor == CursorAt(fetch, requests)
      invariant records == RecordsOf(fetch, requests) && reportedTotal == TotalOf(fetch, requests)
      invariant forall k | 0 <= k < requests :: CountOf(fetch, k) < maxRecords
      invariant forall k | 0 <= k < requests - 1 :: PageAt(fetch, k).nextCursor.Some? && !Repeats(fetch, k)
      invariant terminatedNaturally ==> requests > 0 && PageAt(fetch, requests - 1).nextCursor.None? && !repeated
      invariant repeated ==> requests > 0 && PageAt(fetch, requests - 1).nextCursor.Some? && Repeats(fetch, requests - 1)
      invariant !terminatedNaturally && !repeated && requests > 0 ==>
        PageAt(fetch, requests - 1).nextCursor.Some? && !Repeats(fetch, requests - 1)
      invariant !terminatedNaturally && !repeated ==>
        forall c :: c in seenCursors <==> exists j | 0 <= j < requests :: PageAt(fetch, j).nextCursor == Some(c)
      invariant forall k: nat :: EmptyPage(k) in coverageRisks <==>
        0 < k <= requests && PageAt(fetch, k - 1).records == [] && PageAt(fetch, k - 1).nextCursor.Some? && !Repeats(fetch, k - 1)
      invariant forall r | r in coverageRisks :: r.EmptyPage? || (r.CursorRepeated? && repeated)
      invariant repeated ==> coverageRisks != []
      invariant forall k: nat :: CursorRepeated(k) in coverageRisks <==> repeated && k == requests
      decreases maxRequests - requests, !terminatedNaturally && !repeated
    {
      var page := fetch(requests, cursor);
      PageIs(fetch, requests);
      requests := requests + 1;
      pages := pages + 1;
      records := records + page.records;
      if page.reportedTotal.Some? {
        reportedTotal := page.reportedTotal;
      }
      if page.nextCursor.None? {
        terminatedNaturally := true;
      } else if page.nextCursor.value in seenCursors {
        RepeatsIs(fetch, requests - 1);
        coverageRisks := coverageRisks + [CursorRepeated(requests)];
        repeated := true;
      } else {
        RepeatsIs(fetch, requests - 1);
        seenCursors := seenCursors + {page.nextCursor.value};
        cursor := page.nextCursor;
        if page.records == [] {
          coverageRisks := coverageRisks + [EmptyPage(requests)];
        }
      }
    }
    WalkEnds(fetch, opts, requests, terminatedNaturally, repeated);
    ghost var walkRisks := coverageRisks;
    assert terminatedNaturally && walkRisks == [] <==> CleanWalk(fetch, requests) by {
      CleanIff(fetch, requests, terminatedNaturally, repeated, walkRisks);
    }
    ghost var guards: seq<Risk> := [];
    if requests >= maxRequests {
      coverageRisks := coverageRisks + [RequestGuardHit(maxRequests)];
      guards := guards + [RequestGuardHit(maxRequests)];
    }
    if |records| >= maxRecords {
      coverageRisks := coverageRisks + [RecordGuardHit(maxRecords)];
      guards := guards + [RecordGuardHit(maxRecords)];
    }
    if opts.documentedHardCap.Some? && |records| >= opts.documentedHardCap.value {
      coverageRisks := coverageRisks + [HardCapReached(opts.documentedHardCap.value)];
      guards := guards + [HardCapReached(opts.documentedHardCap.value)];
    }
    assert coverageRisks == walkRisks + guards;
    var exhaustionProven := terminatedNaturally && coverageRisks == [];
    assert exhaustionProven <==> Unhindered(fetch, opts, requests);
    ghost var total: seq<Risk> := [];
    if exhaustionProven && reportedTotal.Some? && |records| != reportedTotal.value {
      coverageRisks := coverageRisks + [TotalDisagrees(reportedTotal.value, |records|)];
      total := [TotalDisagrees(reportedTotal.value, |records|)];
      exhaustionProven := false;
    }
    assert coverageRisks == walkRisks + guards + total;
    RisksAddUp(fetch, opts, requests, walkRisks, guards, total);
    // The source pushes one last note here when nothing else explains an unnatural end; there is always an explanation.
    assert terminatedNaturally || coverageRisks != [];
    if m: nat :| Exhaustive(fetch, opts, m) {
      ExhaustiveIsWhereItStops(fetch, opts, requests, m);
    }
    evidence := Evidence(requests, pages, |records|, opts.documentedHardCap, reportedTotal,
                         exhaustionProven, exhaustionProven, coverageRisks);
  }

  lemma NothingYet<T>(fetch: Fetch<T>)
    ensures RecordsOf(fetch, 0) == [] && TotalOf(fetch, 0) == None && CursorAt(fetch, 0) == None
  {
  }

  lemma PageIs<T>(fetch: Fetch<T>, k: nat)
    ensures PageAt(fetch, k) == fetch(k, CursorAt(fetch, k))
    ensures RecordsOf(fetch, k + 1) == RecordsOf(fetch, k) + PageAt(fetch, k).records
    ensures TotalOf(fetch, k + 1) == if PageAt(fetch, k).reportedTotal.Some? then PageAt(fetch, k).reportedTotal else TotalOf(fetch, k)
    ensures CursorAt(fetch, k + 1) == PageAt(fetch, k).nextCursor
  {
  }

  lemma RepeatsIs<T>(fetch: Fetch<T>, k: nat)
    ensures Repeats(fetch, k) <==> exists j | 0 <= j < k :: PageAt(fetch, j).nextCursor == PageAt(fetch, k).nextCursor
  {
  }

  lemma WalkEnds<T>(fetch: Fetch<T>, opts: Options, n: nat, natural: bool, repeated: bool)
    requires (n > 0 ==> n - 1 < opts.RequestGuard()) && forall k | 0 <= k < n :: CountOf(fetch, k) < opts.RecordGuard()
    requires forall k | 0 <= k < n - 1 :: PageAt(fetch, k).nextCursor.Some? && !Repeats(fetch, k)
    requires natural ==> n > 0 && PageAt(fetch, n - 1).nextCursor.None?
    requires repeated ==> n > 0 && Repeats(fetch, n - 1)
    requires n >= opts.RequestGuard() || CountOf(fetch, n) >= opts.RecordGuard() || natural || repeated
    ensures Walked(fetch, opts, n)
  {
  }

  lemma NonEmptyHasAMember<T>(xs: seq<T>)
    ensures xs != [] ==> exists x :: x in xs
  {
    if xs != [] {
      assert xs[0] in xs;
    }
  }

  lemma CleanIff<T>(fetch: Fetch<T>, n: nat, natural: bool, repeated: bool, risks: seq<Risk>)
    requires forall k | 0 <= k < n - 1 :: PageAt(fetch, k).nextCursor.Some? && !Repeats(fetch, k)
    requires natural ==> n > 0 && PageAt(fetch, n - 1).nextCursor.None? && !repeated
    requires !natural && n > 0 ==> PageAt(fetch, n - 1).nextCursor.Some?
    requires forall k: nat :: EmptyPage(k) in risks <==>
      0 < k <= n && PageAt(fetch, k - 1).records == [] && PageAt(fetch, k - 1).nextCursor.Some? && !Repeats(fetch, k - 1)
    requires forall r | r in risks :: r.EmptyPage? || (r.CursorRepeated? && repeated)
    ensures natural && risks == [] <==> CleanWalk(fetch, n)
  {
    hide PageAt, Repeats;
    if natural && risks == [] {
      forall k | 0 <= k < n - 1 ensures PageAt(fetch, k).records != [] {
        assert EmptyPage(k + 1) !in risks;
      }
    }
    if CleanWalk(fetch, n) {
      forall r: Risk ensures r !in risks {
        assert r.EmptyPage? ==> r == EmptyPage(r.request);
      }
      NonEmptyHasAMember(risks);
    }
  }
}

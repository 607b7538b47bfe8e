/**
 The append-only resolution ledger (appendRevision in scripts/provider-resolution/resolver.ts): an
 immutable revision per (identity, conclusion) and one head per identity. A revision's id is its
 position, and its digest is its content.
 */
module RevisionLedger {
  import opened Prelude

  datatype Entry<C> = Entry(identityId: Id, source: string, environment: string, content: C)

  datatype Revision<C> = Revision(entry: Entry<C>, supersedes: Option<nat>)

  datatype State<C> = State(revisions: seq<Revision<C>>, heads: map<Id, nat>)

  predicate Records<C(==)>(r: Revision<C>, identityId: Id, content: C) {
    r.entry.identityId == identityId && r.entry.content == content
  }

  /** The revision with this (identity, digest), if any: what the unique constraint collides with. */
  function Find<C(==)>(revisions: seq<Revision<C>>, identityId: Id, content: C): (i: Option<nat>)
    ensures i.Some? ==> i.value < |revisions| && Records(revisions[i.value], identityId, content)
    ensures i.None? ==> forall k | 0 <= k < |revisions| :: !Records(revisions[k], identityId, content)
  {
    if revisions == [] then None
    else if Records(revisions[0], identityId, content) then Some(0)
    else
      var rest := Find(revisions[1..], identityId, content);
      assert forall k | 0 < k < |revisions| :: revisions[k] == revisions[1..][k - 1];
      if rest.Some? then Some(rest.value + 1) else None
  }

  function Target<C(==)>(s: State<C>, e: Entry<C>): nat {
    var found := Find(s.revisions, e.identityId, e.content);
    if found.Some? then found.value else |s.revisions|
  }

  function Append<C(==)>(s: State<C>, e: Entry<C>, supersedes: Option<nat>): State<C> {
    State(if Target(s, e) < |s.revisions| then s.revisions else s.revisions + [Revision(e, supersedes)],
          s.heads[e.identityId := Target(s, e)])
  }

  predicate Creates<C(==)>(s: State<C>, e: Entry<C>) { Target(s, e) == |s.revisions| }

  predicate Moves<C(==)>(s: State<C>, e: Entry<C>) {
    e.identityId !in s.heads || s.heads[e.identityId] != Target(s, e)
  }

  // ---- Soundness of one ledger. ----

  ghost predicate Sound<C>(s: State<C>) {
    && (forall k | k in s.heads :: s.heads[k] < |s.revisions| && s.revisions[s.heads[k]].entry.identityId == k)
    && (forall i, j | 0 <= i < j < |s.revisions| ::
          !Records(s.revisions[i], s.revisions[j].entry.identityId, s.revisions[j].entry.content))
    && (forall i | 0 <= i < |s.revisions| && s.revisions[i].supersedes.Some? ::
          s.revisions[i].supersedes.value < i
          && s.revisions[s.revisions[i].supersedes.value].entry.identityId == s.revisions[i].entry.identityId)
  }

  function HeadOf<C>(s: State<C>, k: Id): Option<nat> { if k in s.heads then Some(s.heads[k]) else None }

  /** What soundness says of the rows: one revision per identity and conclusion, heads and lineage within the identity. */
  lemma SoundMeaning<C>(s: State<C>)
    requires Sound(s)
    ensures forall i, j | 0 <= i < j < |s.revisions| ::
      s.revisions[i].entry.identityId != s.revisions[j].entry.identityId || s.revisions[i].entry.content != s.revisions[j].entry.content
    ensures forall k | k in s.heads :: s.heads[k] < |s.revisions| && s.revisions[s.heads[k]].entry.identityId == k
    ensures forall i | 0 <= i < |s.revisions| && s.revisions[i].supersedes.Some? ::
      && s.revisions[i].supersedes.value < i
      && s.revisions[s.revisions[i].supersedes.value].entry.identityId == s.revisions[i].entry.identityId
  {
    forall i, j | 0 <= i < j < |s.revisions|
      ensures s.revisions[i].entry.identityId != s.revisions[j].entry.identityId || s.revisions[i].entry.content != s.revisions[j].entry.content
    {
      assert !Records(s.revisions[i], s.revisions[j].entry.identityId, s.revisions[j].entry.content);
    }
  }

  /** After an append the head of the identity holds exactly this conclusion. */
  lemma AppendedHead<C>(s: State<C>, e: Entry<C>, supersedes: Option<nat>)
    ensures var s' := Append(s, e, supersedes);
      && e.identityId in s'.heads && s'.heads[e.identityId] < |s'.revisions|
      && s'.revisions[s'.heads[e.identityId]].entry.identityId == e.identityId
      && s'.revisions[s'.heads[e.identityId]].entry.content == e.content
  {
    hide Find, Target;
    TargetFacts(s, e);
  }

  lemma TargetFacts<C>(s: State<C>, e: Entry<C>)
    ensures Target(s, e) <= |s.revisions|
    ensures Target(s, e) < |s.revisions| ==> Records(s.revisions[Target(s, e)], e.identityId, e.content)
    ensures Target(s, e) == |s.revisions| ==>
              forall k | 0 <= k < |s.revisions| :: !Records(s.revisions[k], e.identityId, e.content)
  {
    hide Records;
  }

  lemma InsertKeepsSound<C>(s: State<C>, e: Entry<C>, supersedes: Option<nat>)
    requires Sound(s) && forall k | 0 <= k < |s.revisions| :: !Records(s.revisions[k], e.identityId, e.content)
    requires supersedes.Some? ==>
      supersedes.value < |s.revisions| && s.revisions[supersedes.value].entry.identityId == e.identityId
    ensures Sound(State(s.revisions + [Revision(e, supersedes)], s.heads[e.identityId := |s.revisions|]))
  {
    hide Records;
    var after := s.revisions + [Revision(e, supersedes)];
    forall i, j | 0 <= i < j < |after| ensures !Records(after[i], after[j].entry.identityId, after[j].entry.content) {
      assert after[i] == s.revisions[i];
    }
  }

  lemma AppendKeepsSound<C>(s: State<C>, e: Entry<C>, supersedes: Option<nat>)
    requires Sound(s)
    requires supersedes.Some? ==>
      supersedes.value < |s.revisions| && s.revisions[supersedes.value].entry.identityId == e.identityId
    ensures Sound(Append(s, e, supersedes))
    ensures s.revisions <= Append(s, e, supersedes).revisions
    ensures var s' := Append(s, e, supersedes);
      e.identityId in s'.heads && Records(s'.revisions[s'.heads[e.identityId]], e.identityId, e.content)
  {
    hide Find, Target;
    TargetFacts(s, e);
    if Target(s, e) == |s.revisions| {
      InsertKeepsSound(s, e, supersedes);
    }
  }

  /** Every revision a chain of `supersedes` reaches. It ends: each link points to an earlier revision. */
  function Ancestors<C>(s: State<C>, i: nat): (a: seq<nat>)
    requires Sound(s) && i < |s.revisions|
    ensures forall x | x in a :: x < i && s.revisions[x].entry.identityId == s.revisions[i].entry.identityId
    decreases i
  {
    match s.revisions[i].supersedes
    case None => []
    case Some(p) => [p] + Ancestors(s, p)
  }

  // ---- One run: the heads are read once, and each candidate is appended against them. ----

  function AppendAll<C(==)>(s: State<C>, entries: seq<Entry<C>>, heads: map<Id, nat>): State<C> {
    if entries == [] then s
    else
      var n := |entries| - 1;
      var k := entries[n].identityId;
      Append(AppendAll(s, entries[..n], heads), entries[n], if k in heads then Some(heads[k]) else None)
  }

  function CreatedBy<C(==)>(s: State<C>, entries: seq<Entry<C>>, heads: map<Id, nat>): nat {
    if entries == [] then 0
    else
      var n := |entries| - 1;
      CreatedBy(s, entries[..n], heads) + if Creates(AppendAll(s, entries[..n], heads), entries[n]) then 1 else 0
  }

  function MovedBy<C(==)>(s: State<C>, entries: seq<Entry<C>>, heads: map<Id, nat>): nat {
    if entries == [] then 0
    else
      var n := |entries| - 1;
      MovedBy(s, entries[..n], heads) + if Moves(AppendAll(s, entries[..n], heads), entries[n]) then 1 else 0
  }

  predicate OnePerIdentity<C>(entries: seq<Entry<C>>) {
    forall i, j | 0 <= i < j < |entries| :: entries[i].identityId != entries[j].identityId
  }

  predicate Names<C(==)>(s: State<C>, e: Entry<C>) {
    && e.identityId in s.heads && s.heads[e.identityId] < |s.revisions|
    && Records(s.revisions[s.heads[e.identityId]], e.identityId, e.content)
  }

  lemma HeadsUsable<C>(s: State<C>, k: Id)
    requires Sound(s) && k in s.heads
    ensures s.heads[k] < |s.revisions| && s.revisions[s.heads[k]].entry.identityId == k
  {
  }

  ghost predicate RunFacts<C>(s: State<C>, entries: seq<Entry<C>>, s': State<C>) {
    && Sound(s') && s.revisions <= s'.revisions
    && (forall e | e in entries :: Names(s', e))
    && (forall k :: k !in Identities(entries) ==> HeadOf(s', k) == HeadOf(s, k))
  }

  function Identities<C>(entries: seq<Entry<C>>): set<Id> { set i | 0 <= i < |entries| :: entries[i].identityId }

  /** Revisions are only appended, every head names its identity's conclusion, other heads stand still. */
  lemma {:induction false} RunIsSound<C>(s: State<C>, entries: seq<Entry<C>>)
    requires Sound(s) && OnePerIdentity(entries)
    ensures RunFacts(s, entries, AppendAll(s, entries, s.heads))
    ensures |AppendAll(s, entries, s.heads).revisions| == |s.revisions| + CreatedBy(s, entries, s.heads)
  {
    hide Sound, Append, Names, Creates, HeadOf, RunFacts, Identities;
    if entries != [] {
      var n := |entries| - 1;
      var init, last := entries[..n], entries[n];
      RunIsSound(s, init);
      assert Sound(AppendAll(s, init, s.heads)) && s.revisions <= AppendAll(s, init, s.heads).revisions by { RunFactsGive(s, init); }
      StepIsSound(s, init, last);
      StepKeepsFacts(s, init, last);
      assert entries == init + [last];
    } else {
      RunOverNothing(s);
    }
  }

  lemma RunFactsGive<C>(s: State<C>, entries: seq<Entry<C>>)
    requires RunFacts(s, entries, AppendAll(s, entries, s.heads))
    ensures Sound(AppendAll(s, entries, s.heads)) && s.revisions <= AppendAll(s, entries, s.heads).revisions
  {
  }

  lemma StepKeepsFacts<C>(s: State<C>, init: seq<Entry<C>>, last: Entry<C>)
    requires OnePerIdentity(init + [last]) && RunFacts(s, init, AppendAll(s, init, s.heads))
    requires var supersedes := if last.identityId in s.heads then Some(s.heads[last.identityId]) else None;
      var s' := Append(AppendAll(s, init, s.heads), last, supersedes);
      Sound(s') && AppendAll(s, init, s.heads).revisions <= s'.revisions && Names(s', last)
    ensures var supersedes := if last.identityId in s.heads then Some(s.heads[last.identityId]) else None;
      RunFacts(s, init + [last], Append(AppendAll(s, init, s.heads), last, supersedes))
  {
    hide Sound, Append, Names, Creates, HeadOf, AppendAll;
    var mid := AppendAll(s, init, s.heads);
    var supersedes := if last.identityId in s.heads then Some(s.heads[last.identityId]) else None;
    var s' := Append(mid, last, supersedes);
    var entries := init + [last];
    forall e | e in entries ensures Names(s', e) {
      if e in init {
        var i :| 0 <= i < |init| && init[i] == e;
        assert entries[i].identityId != entries[|init|].identityId;
        NamesSurvives(mid, last, supersedes, e);
      }
    }
    assert entries[|init|] == last && forall i | 0 <= i < |init| :: entries[i] == init[i];
    forall k | k !in Identities(entries) ensures HeadOf(s', k) == HeadOf(s, k) {
      assert last.identityId in Identities(entries);
      forall i | 0 <= i < |init| ensures init[i].identityId in Identities(entries) {
        assert entries[i].identityId in Identities(entries);
      }
      OtherHeadsStand(mid, last, supersedes, k);
    }
  }

  lemma RunOverNothing<C>(s: State<C>)
    requires Sound(s)
    ensures RunFacts(s, [], s)
  {
  }

  lemma OtherHeadsStand<C>(mid: State<C>, last: Entry<C>, supersedes: Option<nat>, k: Id)
    requires k != last.identityId
    ensures HeadOf(Append(mid, last, supersedes), k) == HeadOf(mid, k)
  {
  }

  lemma StepIsSound<C>(s: State<C>, init: seq<Entry<C>>, last: Entry<C>)
    requires Sound(s)
    requires var mid := AppendAll(s, init, s.heads); Sound(mid) && s.revisions <= mid.revisions
    ensures var mid := AppendAll(s, init, s.heads);
      var s' := Append(mid, last, if last.identityId in s.heads then Some(s.heads[last.identityId]) else None);
      Sound(s') && mid.revisions <= s'.revisions && Names(s', last)
      && |s'.revisions| == |mid.revisions| + if Creates(mid, last) then 1 else 0
  {
    hide Sound, Find;
    var mid := AppendAll(s, init, s.heads);
    if last.identityId in s.heads {
      HeadsUsable(s, last.identityId);
    }
    AppendKeepsSound(mid, last, if last.identityId in s.heads then Some(s.heads[last.identityId]) else None);
  }

  lemma NamesSurvives<C>(mid: State<C>, last: Entry<C>, supersedes: Option<nat>, e: Entry<C>)
    requires Names(mid, e) && e.identityId != last.identityId
    ensures Names(Append(mid, last, supersedes), e)
  {
  }

  /** A new revision cites the head it replaced. */
  lemma {:induction false} LineageIsTheOldHead<C>(s: State<C>, entries: seq<Entry<C>>, i: nat)
    requires |s.revisions| <= i < |AppendAll(s, entries, s.heads).revisions|
    ensures var r := AppendAll(s, entries, s.heads).revisions[i];
      r.entry in entries && r.supersedes == HeadOf(s, r.entry.identityId)
  {
    if entries != [] {
      var init := entries[..|entries| - 1];
      assert entries == init + [entries[|entries| - 1]];
      if i < |AppendAll(s, init, s.heads).revisions| {
        LineageIsTheOldHead(s, init, i);
      }
    }
  }

  lemma NamedIsFound<C>(s: State<C>, e: Entry<C>)
    requires Sound(s) && Names(s, e)
    ensures Target(s, e) == s.heads[e.identityId] && !Creates(s, e) && !Moves(s, e)
  {
    OneRecordEach(s, e.identityId, e.content);
  }

  lemma OneRecordEach<C>(s: State<C>, k: Id, c: C)
    requires Sound(s)
    ensures forall i, j | 0 <= i < |s.revisions| && 0 <= j < |s.revisions| ::
              Records(s.revisions[i], k, c) && Records(s.revisions[j], k, c) ==> i == j
  {
  }

  /** Re-deriving conclusions the heads already name appends nothing and moves nothing, whatever the heads map says. */
  lemma {:induction false} RunOverNamedIsIdle<C>(s: State<C>, entries: seq<Entry<C>>, heads: map<Id, nat>)
    requires Sound(s) && forall e | e in entries :: Names(s, e)
    ensures AppendAll(s, entries, heads) == s && CreatedBy(s, entries, heads) == 0 && MovedBy(s, entries, heads) == 0
  {
    hide Sound, Find;
    if entries != [] {
      var n := |entries| - 1;
      RunOverNamedIsIdle(s, entries[..n], heads);
      assert entries[n] in entries;
      NamedIsFound(s, entries[n]);
      assert s.heads[entries[n].identityId := s.heads[entries[n].identityId]] == s.heads;
    }
  }

  lemma ReplayIsIdle<C>(s: State<C>, entries: seq<Entry<C>>)
    requires Sound(s) && OnePerIdentity(entries)
    ensures var s' := AppendAll(s, entries, s.heads);
      AppendAll(s', entries, s'.heads) == s' && CreatedBy(s', entries, s'.heads) == 0 && MovedBy(s', entries, s'.heads) == 0
  {
    hide Sound, Find, AppendAll;
    RunIsSound(s, entries);
    var s' := AppendAll(s, entries, s.heads);
    RunOverNamedIsIdle(s', entries, s'.heads);
  }

  // ---- Any number of runs, from the empty ledger. ----

  lemma EmptyIsSound<C>()
    ensures Sound<C>(State([], map[]))
  {
  }

  function AppendRuns<C(==)>(s: State<C>, runs: seq<seq<Entry<C>>>): State<C> {
    if runs == [] then s
    else
      var before := AppendRuns(s, runs[..|runs| - 1]);
      AppendAll(before, runs[|runs| - 1], before.heads)
  }

  predicate RunsOfOneEach<C>(runs: seq<seq<Entry<C>>>) { forall n | 0 <= n < |runs| :: OnePerIdentity(runs[n]) }

  /** History is never rewritten: what any earlier run left is a prefix of what every later run leaves. */
  lemma {:induction false} RunsAreSound<C>(s: State<C>, runs: seq<seq<Entry<C>>>, k: nat)
    requires Sound(s) && RunsOfOneEach(runs) && k <= |runs|
    ensures Sound(AppendRuns(s, runs)) && AppendRuns(s, runs[..k]).revisions <= AppendRuns(s, runs).revisions
    decreases |runs|
  {
    hide Sound, AppendAll, OnePerIdentity, RunFacts;
    var n := |runs| - 1;
    if k == |runs| {
      assert runs[..k] == runs;
    }
    if runs != [] {
      RunsAreSound(s, runs[..n], if k <= n then k else n);
      var before := AppendRuns(s, runs[..n]);
      RunIsSound(before, runs[n]);
      RunFactsGive(before, runs[n]);
      if k <= n {
        assert runs[..n][..k] == runs[..k];
      }
    }
  }

  /** A ledger that started empty is sound after any runs, and has only ever grown. */
  lemma LedgerFromEmpty<C>(runs: seq<seq<Entry<C>>>, k: nat)
    requires RunsOfOneEach(runs) && k <= |runs|
    ensures var s := AppendRuns(State([], map[]), runs);
      Sound(s) && AppendRuns(State([], map[]), runs[..k]).revisions <= s.revisions
  {
    hide Sound, AppendRuns, RunsOfOneEach;
    EmptyIsSound<C>();
    RunsAreSound(State([], map[]), runs, k);
  }

  /** Each identity's head names the conclusion of the last run that concluded anything about it. */
  lemma {:induction false} HeadIsTheLastConclusion<C>(s: State<C>, runs: seq<seq<Entry<C>>>, n: nat, e: Entry<C>)
    requires Sound(s) && RunsOfOneEach(runs) && n < |runs| && e in runs[n]
    requires forall m | n < m < |runs| :: e.identityId !in Identities(runs[m])
    ensures Names(AppendRuns(s, runs), e)
    decreases |runs|
  {
    hide Sound, AppendAll, OnePerIdentity, RunFacts, Identities, Names;
    var last := |runs| - 1;
    RunsAreSound(s, runs[..last], 0);
    var before := AppendRuns(s, runs[..last]);
    RunIsSound(before, runs[last]);
    if n == last {
      LastRunNames(before, runs[last], e);
    } else {
      assert runs[..last][n] == runs[n];
      HeadIsTheLastConclusion(s, runs[..last], n, e);
      OtherNamesStand(before, runs[last], e);
    }
  }

  lemma LastRunNames<C>(s: State<C>, entries: seq<Entry<C>>, e: Entry<C>)
    requires RunFacts(s, entries, AppendAll(s, entries, s.heads)) && e in entries
    ensures Names(AppendAll(s, entries, s.heads), e)
  {
    hide Names, Sound, AppendAll, Identities;
  }

  lemma OtherNamesStand<C>(s: State<C>, entries: seq<Entry<C>>, e: Entry<C>)
    requires RunFacts(s, entries, AppendAll(s, entries, s.heads)) && Names(s, e) && e.identityId !in Identities(entries)
    ensures Names(AppendAll(s, entries, s.heads), e)
  {
    hide Sound, AppendAll, Identities;
    var s' := AppendAll(s, entries, s.heads);
    assert HeadOf(s', e.identityId) == HeadOf(s, e.identityId);
    assert s'.revisions[s.heads[e.identityId]] == s.revisions[s.heads[e.identityId]];
  }

  /** The pointer counter counts the identities whose head changed. */
  lemma {:induction false} MovesCountChangedHeads<C>(s: State<C>, entries: seq<Entry<C>>)
    requires Sound(s) && OnePerIdentity(entries)
    ensures var s' := AppendAll(s, entries, s.heads);
      MovedBy(s, entries, s.heads) == |ChangedHeads(s, s', Identities(entries))|
  {
    hide Sound, Append, HeadOf, RunFacts, Identities, Moves, Names, ChangedHeads;
    if entries == [] {
      assert Identities(entries) == {} by { NoIdentities<C>(); }
      assert ChangedHeads(s, AppendAll(s, entries, s.heads), {}) == {} by { NothingChanged(s, AppendAll(s, entries, s.heads)); }
    } else {
      var n := |entries| - 1;
      var init, last := entries[..n], entries[n];
      MovesCountChangedHeads(s, init);
      RunIsSound(s, init);
      assert entries == init + [last];
      IdentitiesStep(init, last);
      var mid := AppendAll(s, init, s.heads);
      RunFactsHeads(s, init, mid);
      var supersedes := if last.identityId in s.heads then Some(s.heads[last.identityId]) else None;
      MovesIsHeadChange(mid, last, supersedes);
      OneMoreChangedHead(s, init, last, mid, supersedes);
    }
  }

  function ChangedHeads<C>(s: State<C>, s': State<C>, ids: set<Id>): set<Id> { set k | k in ids && HeadOf(s', k) != HeadOf(s, k) }

  lemma OneMoreChangedHead<C>(s: State<C>, init: seq<Entry<C>>, last: Entry<C>, mid: State<C>, supersedes: Option<nat>)
    requires last.identityId !in Identities(init) && HeadOf(mid, last.identityId) == HeadOf(s, last.identityId)
    ensures var s' := Append(mid, last, supersedes);
      |ChangedHeads(s, s', Identities(init) + {last.identityId})|
      == |ChangedHeads(s, mid, Identities(init))| + if HeadOf(s', last.identityId) != HeadOf(mid, last.identityId) then 1 else 0
  {
    hide HeadOf, Append, Identities;
    var s' := Append(mid, last, supersedes);
    forall k | k != last.identityId ensures HeadOf(s', k) == HeadOf(mid, k) {
      OtherHeadsStand(mid, last, supersedes, k);
    }
    var before, after := ChangedHeads(s, mid, Identities(init)), ChangedHeads(s, s', Identities(init) + {last.identityId});
    var moved := HeadOf(s', last.identityId) != HeadOf(mid, last.identityId);
    forall k | k != last.identityId ensures k in after <==> k in before {
      assert HeadOf(s', k) == HeadOf(mid, k);
    }
    assert last.identityId in after <==> moved;
    assert last.identityId !in before;
    assert after == if moved then before + {last.identityId} else before;
  }

  lemma NothingChanged<C>(s: State<C>, s': State<C>)
    ensures ChangedHeads(s, s', {}) == {}
  {
  }

  lemma NoIdentities<C>()
    ensures Identities<C>([]) == {}
  {
  }

  lemma IdentitiesStep<C>(init: seq<Entry<C>>, last: Entry<C>)
    requires OnePerIdentity(init + [last])
    ensures Identities(init + [last]) == Identities(init) + {last.identityId} && last.identityId !in Identities(init)
    ensures OnePerIdentity(init)
  {
    var entries := init + [last];
    assert entries[|init|] == last;
    forall i | 0 <= i < |init| ensures init[i].identityId in Identities(entries) && init[i].identityId != last.identityId {
      assert entries[i] == init[i];
      assert entries[i].identityId in Identities(entries);
    }
    assert last.identityId in Identities(entries);
    forall i, j | 0 <= i < j < |init| ensures init[i].identityId != init[j].identityId {
      assert entries[i].identityId != entries[j].identityId;
    }
  }

  lemma RunFactsHeads<C>(s: State<C>, entries: seq<Entry<C>>, s': State<C>)
    requires RunFacts(s, entries, s')
    ensures forall k :: k !in Identities(entries) ==> HeadOf(s', k) == HeadOf(s, k)
  {
    hide Sound, Names, HeadOf, Identities;
  }

  lemma MovesIsHeadChange<C>(mid: State<C>, last: Entry<C>, supersedes: Option<nat>)
    ensures Moves(mid, last) <==> HeadOf(Append(mid, last, supersedes), last.identityId) != HeadOf(mid, last.identityId)
  {
  }

  class Ledger<C(==)> {
    var revisions: seq<Revision<C>>
    var heads: map<Id, nat>

    constructor ()
      ensures Current() == State([], map[])
    {
      revisions, heads := [], map[];
    }

    ghost function Current(): State<C>
      reads this
    {
      State(revisions, heads)
    }

    method AppendRevision(e: Entry<C>, supersedes: Option<nat>) returns (revisionCreated: bool, pointerMoved: bool)
      modifies this
      ensures Current() == Append(old(Current()), e, supersedes)
      ensures revisionCreated == Creates(old(Current()), e)
      ensures pointerMoved == Moves(old(Current()), e)
    {
      // insert ... on conflict do nothing; then, if nothing was inserted, find the row that already says it
      var revisionId := 0;
      while revisionId < |revisions| && !Records(revisions[revisionId], e.identityId, e.content)
        invariant 0 <= revisionId <= |revisions|
        invariant Target(Current(), e) == revisionId + Target(State(revisions[revisionId..], heads), e)
      {
        assert revisions[revisionId..][1..] == revisions[revisionId + 1..];
        revisionId := revisionId + 1;
      }
      revisionCreated := revisionId == |revisions|;
      if revisionCreated {
        revisions := revisions + [Revision(e, supersedes)];
      }
      // insert ... on conflict do update ... where the head is distinct
      pointerMoved := e.identityId !in heads || heads[e.identityId] != revisionId;
      if pointerMoved {
        heads := heads[e.identityId := revisionId];
      }
    }

    /** One dimension of a run: append each conclusion against the heads read at the start. */
    method AppendConclusions(entries: seq<Entry<C>>) returns (created: nat, moved: nat)
      modifies this
      ensures Current() == AppendAll(old(Current()), entries, old(heads))
      ensures created == CreatedBy(old(Current()), entries, old(heads))
      ensures moved == MovedBy(old(Current()), entries, old(heads))
    {
      hide Append, Creates, Moves;
      var headsAtStart := heads;
      created, moved := 0, 0;
      for i := 0 to |entries|
        invariant Current() == AppendAll(old(Current()), entries[..i], headsAtStart)
        invariant created == CreatedBy(old(Current()), entries[..i], headsAtStart)
        invariant moved == MovedBy(old(Current()), entries[..i], headsAtStart)
      {
        assert entries[..i + 1][..i] == entries[..i];
        var k := entries[i].identityId;
        var revisionCreated, pointerMoved :=
          AppendRevision(entries[i], if k in headsAtStart then Some(headsAtStart[k]) else None);
        if revisionCreated {
          created := created + 1;
        }
        if pointerMoved {
          moved := moved + 1;
        }
      }
      assert entries[..|entries|] == entries;
    }
  }
}

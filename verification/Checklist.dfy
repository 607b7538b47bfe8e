/**
 A list of checks run in order: the first one broken names the refusal, and nothing after it is looked at.
 */
module Checklist {
  datatype Check<C> = Check(code: C, holds: bool)

  predicate AllHold<C>(checks: seq<Check<C>>) { forall k | 0 <= k < |checks| :: checks[k].holds }

  predicate BreaksAt<C>(checks: seq<Check<C>>, k: nat) {
    k < |checks| && !checks[k].holds && forall j | 0 <= j < k :: checks[j].holds
  }

  predicate FirstBroken<C(==)>(checks: seq<Check<C>>, code: C) {
    exists k | 0 <= k < |checks| :: BreaksAt(checks, k) && checks[k].code == code
  }

  lemma BrokenBy<C>(checks: seq<Check<C>>, k: nat)
    requires BreaksAt(checks, k)
    ensures FirstBroken(checks, checks[k].code) && !AllHold(checks)
    ensures forall c | c != checks[k].code :: !FirstBroken(checks, c)
  {
  }

  lemma BrokenIsNotAll<C>(checks: seq<Check<C>>, code: C)
    requires FirstBroken(checks, code)
    ensures !AllHold(checks)
  {
  }

  lemma NoneBroken<C>(checks: seq<Check<C>>)
    requires AllHold(checks)
    ensures forall c :: !FirstBroken(checks, c)
  {
  }

  lemma SomeBreaks<C>(checks: seq<Check<C>>) returns (k: nat)
    requires !AllHold(checks)
    ensures BreaksAt(checks, k)
  {
    k := 0;
    while checks[k].holds
      invariant k < |checks| && forall j | 0 <= j < k :: checks[j].holds
      decreases |checks| - k
    {
      k := k + 1;
    }
  }

  lemma HoldInParts<C>(a: seq<Check<C>>, b: seq<Check<C>>)
    ensures AllHold(a + b) <==> AllHold(a) && AllHold(b)
  {
    assert forall k | 0 <= k < |b| :: (a + b)[|a| + k] == b[k];
    assert forall k | 0 <= k < |a| :: (a + b)[k] == a[k];
  }

  lemma BreaksInFirst<C>(a: seq<Check<C>>, b: seq<Check<C>>, k: nat)
    requires BreaksAt(a, k)
    ensures BreaksAt(a + b, k) && (a + b)[k] == a[k]
  {
  }

  lemma BreaksInSecond<C>(a: seq<Check<C>>, b: seq<Check<C>>, k: nat)
    requires AllHold(a) && BreaksAt(b, k)
    ensures BreaksAt(a + b, |a| + k) && (a + b)[|a| + k] == b[k]
  {
  }
}

/**
 Calendar dates as ten-character strings (scripts/lifecycle/policy.ts).

 `IsValidIsoDate` parses the text to a day count and prints the day back; a text is accepted
 when the print is the text. `RealDate` is the calendar of RFC 3339 section 5.7, and the two
 lemmas at the end connect them: acceptance means a real day, and string order means day order.
 */
module Dates {
  import opened Prelude
  import opened Text

  // ---- The Gregorian calendar, day 0 being 0000-01-01. ----

  predicate IsLeap(y: nat) { y % 4 == 0 && (y % 100 != 0 || y % 400 == 0) }

  function DaysInYear(y: nat): nat { if IsLeap(y) then 366 else 365 }

  function DaysInMonth(y: nat, m: nat): nat {
    if m == 2 then if IsLeap(y) then 29 else 28
    else if m == 4 || m == 6 || m == 9 || m == 11 then 30
    else 31
  }

  predicate RealDate(y: nat, m: nat, d: nat) { 1 <= m <= 12 && 1 <= d <= DaysInMonth(y, m) }

  function DaysBeforeYear(y: nat): nat { if y == 0 then 0 else DaysBeforeYear(y - 1) + DaysInYear(y - 1) }

  function DaysBeforeMonth(y: nat, m: nat): nat
    requires 1 <= m <= 13
  {
    if m == 1 then 0 else DaysBeforeMonth(y, m - 1) + DaysInMonth(y, m - 1)
  }

  function DayNumber(y: nat, m: nat, d: nat): nat
    requires 1 <= m <= 12 && 1 <= d
  {
    DaysBeforeYear(y) + DaysBeforeMonth(y, m) + d - 1
  }

  /** The year containing day `n` counted from the start of year `from`, and the day within it. */
  function YearOf(n: nat, from: nat): (nat, nat)
    decreases n
  {
    if n < DaysInYear(from) then (from, n) else YearOf(n - DaysInYear(from), from + 1)
  }

  /** The month containing day `n` counted from the start of month `from`, and the day of it. */
  function MonthOf(y: nat, n: nat, from: nat): (nat, nat)
    requires 1 <= from <= 12
    decreases 12 - from
  {
    if n < DaysInMonth(y, from) || from == 12 then (from, n + 1)
    else MonthOf(y, n - DaysInMonth(y, from), from + 1)
  }

  function CivilOf(n: nat): (nat, nat, nat) {
    var (y, rest) := YearOf(n, 0);
    var (m, d) := MonthOf(y, rest, 1);
    (y, m, d)
  }

  // ---- The text form. ----

  function DigitChar(n: nat): char { (n % 10 + '0' as int) as char }

  predicate IsoShape(s: string) {
    && |s| == 10 && s[4] == '-' && s[7] == '-'
    && (forall i | 0 <= i < 10 && i != 4 && i != 7 :: IsDigit(s[i]))
  }

  function Year(s: string): nat
    requires IsoShape(s)
  {
    1000 * DigitValue(s[0]) + 100 * DigitValue(s[1]) + 10 * DigitValue(s[2]) + DigitValue(s[3])
  }

  function Month(s: string): nat
    requires IsoShape(s)
  {
    10 * DigitValue(s[5]) + DigitValue(s[6])
  }

  function Day(s: string): nat
    requires IsoShape(s)
  {
    10 * DigitValue(s[8]) + DigitValue(s[9])
  }

  /** `toISOString().slice(0, 10)` for a four-digit year. */
  function IsoText(y: nat, m: nat, d: nat): string {
    [DigitChar(y / 1000), DigitChar(y / 100), DigitChar(y / 10), DigitChar(y), '-',
     DigitChar(m / 10), DigitChar(m), '-', DigitChar(d / 10), DigitChar(d)]
  }

  /** The parser refuses month 13 or day 32, and rolls day 31 of a short month into the next. */
  function ParseUtcDay(s: string): Option<nat>
    requires IsoShape(s)
  {
    if 1 <= Month(s) <= 12 && 1 <= Day(s) <= 31 then Some(DayNumber(Year(s), Month(s), Day(s)))
    else None
  }

  predicate IsValidIsoDate(value: Option<string>) {
    && value.Some?
    && IsoShape(value.value)
    && ParseUtcDay(value.value).Some?
    && var (y, m, d) := CivilOf(ParseUtcDay(value.value).value);
       IsoText(y, m, d) == value.value
  }

  /** Inclusive on both endpoints. */
  predicate CoversDate(from: string, to: string, asOf: string) {
    !Less(asOf, from) && !Less(to, asOf)
  }

  // ---- The day count is invertible on real dates. ----

  lemma {:induction false} YearOfInverse(y: nat, rest: nat, from: nat)
    requires from <= y && rest < DaysInYear(y)
    ensures DaysBeforeYear(y) >= DaysBeforeYear(from)
    ensures YearOf(DaysBeforeYear(y) - DaysBeforeYear(from) + rest, from) == (y, rest)
    decreases y - from
  {
    if from < y {
      YearOfInverse(y, rest, from + 1);
    }
  }

  lemma {:induction false} MonthOfInverse(y: nat, m: nat, rest: nat, from: nat)
    requires 1 <= from <= m <= 12 && rest < DaysInMonth(y, m)
    ensures DaysBeforeMonth(y, m) >= DaysBeforeMonth(y, from)
    ensures MonthOf(y, DaysBeforeMonth(y, m) - DaysBeforeMonth(y, from) + rest, from) == (m, rest + 1)
    decreases m - from
  {
    if from < m {
      MonthOfInverse(y, m, rest, from + 1);
    }
  }

  lemma {:induction false} MonthStarts(y: nat, m: nat, n: nat)
    requires 1 <= m < n <= 13
    ensures DaysBeforeMonth(y, m) + DaysInMonth(y, m) <= DaysBeforeMonth(y, n)
    decreases n - m
  {
    if m + 1 < n {
      MonthStarts(y, m + 1, n);
    }
  }

  /** The Gregorian count: 365 days a year, one more every fourth, none every hundredth, one every four-hundredth. */
  lemma {:induction false} GregorianCount(y: nat)
    ensures DaysBeforeYear(y) == 365 * y + (y + 3) / 4 - (y + 99) / 100 + (y + 399) / 400
  {
    hide IsLeap;
    if y > 0 {
      GregorianCount(y - 1);
      EveryFourth(y - 1);
      EveryHundredth(y - 1);
      EveryFourHundredth(y - 1);
      LeapCounts(y - 1);
    }
  }

  /** The days before a month, in closed form; with `GregorianCount` this is the usual day-number formula. */
  lemma {:induction false} MonthCount(y: nat, m: nat)
    requires 1 <= m <= 12
    ensures DaysBeforeMonth(y, m) == (367 * m - 362) / 12 - (if m <= 2 then 0 else if IsLeap(y) then 1 else 2)
  {
    hide IsLeap;
    if m > 1 {
      MonthCount(y, m - 1);
    }
  }

  lemma EveryFourth(n: nat)
    ensures (n + 4) / 4 == (n + 3) / 4 + if n % 4 == 0 then 1 else 0
  {
  }

  lemma EveryHundredth(n: nat)
    ensures (n + 100) / 100 == (n + 99) / 100 + if n % 100 == 0 then 1 else 0
  {
  }

  lemma EveryFourHundredth(n: nat)
    ensures (n + 400) / 400 == (n + 399) / 400 + if n % 400 == 0 then 1 else 0
  {
  }

  lemma LeapCounts(n: nat)
    ensures (if IsLeap(n) then 1 else 0) ==
      (if n % 4 == 0 then 1 else 0) - (if n % 100 == 0 then 1 else 0) + (if n % 400 == 0 then 1 else 0)
  {
    Hundreds(n);
    FourHundreds(n);
  }

  lemma Hundreds(n: nat)
    ensures n % 100 == 0 ==> n % 4 == 0
  {
    var q := n / 100;
    assert n == 100 * q + n % 100;
    assert n % 100 == 0 ==> n == 4 * (25 * q);
  }

  lemma FourHundreds(n: nat)
    ensures n % 400 == 0 ==> n % 100 == 0
  {
    var q := n / 400;
    assert n == 400 * q + n % 400;
    assert n % 400 == 0 ==> n == 100 * (4 * q);
  }

  lemma YearLength(y: nat)
    ensures DaysBeforeMonth(y, 13) == DaysInYear(y)
  {
    assert DaysBeforeMonth(y, 2) == 31;
    assert DaysBeforeMonth(y, 3) == 31 + DaysInMonth(y, 2);
    assert DaysBeforeMonth(y, 5) == DaysBeforeMonth(y, 3) + 61;
    assert DaysBeforeMonth(y, 7) == DaysBeforeMonth(y, 5) + 61;
    assert DaysBeforeMonth(y, 9) == DaysBeforeMonth(y, 7) + 62;
    assert DaysBeforeMonth(y, 11) == DaysBeforeMonth(y, 9) + 61;
  }

  lemma DayOfYear(y: nat, m: nat, d: nat)
    requires RealDate(y, m, d)
    ensures DaysBeforeMonth(y, m) + d - 1 < DaysInYear(y)
  {
    MonthStarts(y, m, 13);
    YearLength(y);
  }

  lemma CivilOfDayNumber(y: nat, m: nat, d: nat)
    requires RealDate(y, m, d)
    ensures CivilOf(DayNumber(y, m, d)) == (y, m, d)
  {
    DayOfYear(y, m, d);
    YearOfInverse(y, DaysBeforeMonth(y, m) + d - 1, 0);
    MonthOfInverse(y, m, d - 1, 1);
  }

  lemma DigitRoundTrip(c: char, n: nat)
    ensures IsDigit(c) ==> DigitChar(DigitValue(c)) == c
    ensures IsDigit(DigitChar(n)) && DigitValue(DigitChar(n)) == n % 10
  {
  }

  lemma DecimalDigits(a: nat, b: nat, c: nat, d: nat)
    requires a < 10 && b < 10 && c < 10 && d < 10
    ensures var n := 1000 * a + 100 * b + 10 * c + d;
            n / 10 == 100 * a + 10 * b + c && n / 100 == 10 * a + b && n / 1000 == a
            && n % 10 == d && (n / 10) % 10 == c && (n / 100) % 10 == b && (n / 1000) % 10 == a
  {
    var n := 1000 * a + 100 * b + 10 * c + d;
    assert n / 10 == 100 * a + 10 * b + c;
    assert n / 100 == 10 * a + b;
  }

  lemma DecimalSum(n: nat)
    requires n <= 9999
    ensures n == 1000 * (n / 1000 % 10) + 100 * (n / 100 % 10) + 10 * (n / 10 % 10) + n % 10
  {
    assert n / 1000 < 10;
    assert n / 100 == 10 * (n / 1000) + n / 100 % 10;
    assert n / 10 == 10 * (n / 100) + n / 10 % 10;
  }

  lemma IsoTextFields(y: nat, m: nat, d: nat)
    requires y <= 9999 && m <= 99 && d <= 99
    ensures IsoShape(IsoText(y, m, d))
    ensures Year(IsoText(y, m, d)) == y && Month(IsoText(y, m, d)) == m && Day(IsoText(y, m, d)) == d
  {
    hide IsDigit, DigitValue, DigitChar;
    YearText(y);
    PairText(m);
    PairText(d);
  }

  lemma YearText(y: nat)
    requires y <= 9999
    ensures IsDigit(DigitChar(y / 1000)) && IsDigit(DigitChar(y / 100)) && IsDigit(DigitChar(y / 10)) && IsDigit(DigitChar(y))
    ensures 1000 * DigitValue(DigitChar(y / 1000)) + 100 * DigitValue(DigitChar(y / 100))
            + 10 * DigitValue(DigitChar(y / 10)) + DigitValue(DigitChar(y)) == y
  {
    DecimalSum(y);
    DigitRoundTrip('0', y / 1000);
    DigitRoundTrip('0', y / 100);
    DigitRoundTrip('0', y / 10);
    DigitRoundTrip('0', y);
    hide IsDigit, DigitValue, DigitChar;
  }

  lemma PairText(n: nat)
    requires n <= 99
    ensures IsDigit(DigitChar(n / 10)) && IsDigit(DigitChar(n))
    ensures 10 * DigitValue(DigitChar(n / 10)) + DigitValue(DigitChar(n)) == n
  {
    assert n / 10 < 10;
    DigitRoundTrip('0', n / 10);
    DigitRoundTrip('0', n);
    hide IsDigit, DigitValue, DigitChar;
  }

  lemma IsoTextOfFields(s: string)
    requires IsoShape(s)
    ensures IsoText(Year(s), Month(s), Day(s)) == s
  {
    DecimalDigits(DigitValue(s[0]), DigitValue(s[1]), DigitValue(s[2]), DigitValue(s[3]));
    DecimalDigits(0, 0, DigitValue(s[5]), DigitValue(s[6]));
    DecimalDigits(0, 0, DigitValue(s[8]), DigitValue(s[9]));
  }

  /** Acceptance means exactly: the shape, and a day the calendar has. */
  lemma ValidIffRealDate(s: string)
    ensures IsValidIsoDate(Some(s)) <==> IsoShape(s) && RealDate(Year(s), Month(s), Day(s))
  {
    if IsoShape(s) && 1 <= Month(s) <= 12 && 1 <= Day(s) <= 31 {
      var y, m, d := Year(s), Month(s), Day(s);
      IsoTextOfFields(s);
      if RealDate(y, m, d) {
        CivilOfDayNumber(y, m, d);
      } else {
        // The overflow lands in the following month, so the print differs.
        assert DayNumber(y, m, d) == DayNumber(y, m + 1, d - DaysInMonth(y, m));
        CivilOfDayNumber(y, m + 1, d - DaysInMonth(y, m));
        IsoTextFields(y, m + 1, d - DaysInMonth(y, m));
      }
    }
  }

  function DayNumberOf(s: string): nat
    requires IsValidIsoDate(Some(s))
  {
    ParseUtcDay(s).value
  }

  // ---- String order is day order. ----

  lemma {:induction false} LessAtFirstDifference(a: string, b: string, i: nat)
    requires i < |a| && i < |b| && a[..i] == b[..i] && a[i] != b[i]
    ensures Less(a, b) <==> a[i] < b[i]
  {
    if i > 0 {
      assert a[0] == a[..i][0] && b[0] == b[..i][0];
      assert a[1..][..i - 1] == a[..i][1..] && b[1..][..i - 1] == b[..i][1..];
      LessAtFirstDifference(a[1..], b[1..], i - 1);
    }
  }

  predicate FieldsLess(a: string, b: string)
    requires IsoShape(a) && IsoShape(b)
  {
    || Year(a) < Year(b)
    || (Year(a) == Year(b) && Month(a) < Month(b))
    || (Year(a) == Year(b) && Month(a) == Month(b) && Day(a) < Day(b))
  }

  lemma FirstDifference(a: string, b: string) returns (i: nat)
    requires |a| == |b| && a != b
    ensures i < |a| && a[..i] == b[..i] && a[i] != b[i]
  {
    i := 0;
    while a[i] == b[i]
      invariant i < |a| && a[..i] == b[..i]
      decreases |a| - i
    {
      assert a[..i + 1] == a[..i] + [a[i]] && b[..i + 1] == b[..i] + [b[i]];
      assert a[..|a|] == a && b[..|b|] == b;
      i := i + 1;
    }
  }

  lemma FieldOrder(a: string, b: string, i: nat)
    requires IsoShape(a) && IsoShape(b)
    requires i < 10 && a[..i] == b[..i] && a[i] != b[i]
    ensures FieldsLess(a, b) <==> a[i] < b[i]
  {
    forall j | 0 <= j < i ensures a[j] == b[j] {
      assert a[j] == a[..i][j] && b[j] == b[..i][j];
    }
  }

  lemma {:induction false} YearStarts(y: nat, z: nat)
    requires y < z
    ensures DaysBeforeYear(y) + DaysInYear(y) <= DaysBeforeYear(z)
    decreases z - y
  {
    if y + 1 < z {
      YearStarts(y + 1, z);
    }
  }

  lemma DayNumberMonotone(a: string, b: string)
    requires IsValidIsoDate(Some(a)) && IsValidIsoDate(Some(b)) && FieldsLess(a, b)
    ensures DayNumberOf(a) < DayNumberOf(b)
  {
    ValidIffRealDate(a);
    ValidIffRealDate(b);
    DayOfYear(Year(a), Month(a), Day(a));
    if Year(a) < Year(b) {
      YearStarts(Year(a), Year(b));
    } else if Month(a) < Month(b) {
      MonthStarts(Year(a), Month(a), Month(b));
    }
  }

  /** Section 5.1 of RFC 3339: dates in this form order as strings exactly as they do as days. */
  lemma StringOrderIsDayOrder(a: string, b: string)
    requires IsValidIsoDate(Some(a)) && IsValidIsoDate(Some(b))
    ensures Less(a, b) <==> DayNumberOf(a) < DayNumberOf(b)
    ensures a == b <==> DayNumberOf(a) == DayNumberOf(b)
  {
    if a == b {
      LessIrreflexive(a);
    } else {
      var i := FirstDifference(a, b);
      LessAtFirstDifference(a, b, i);
      FieldOrder(a, b, i);
      LessAtFirstDifference(b, a, i);
      FieldOrder(b, a, i);
      if a[i] < b[i] {
        DayNumberMonotone(a, b);
      } else {
        DayNumberMonotone(b, a);
      }
    }
  }

  /** A window covers a date exactly when its days enclose the date's day, endpoints included. */
  lemma CoversDateIsDayContainment(from: string, to: string, asOf: string)
    requires IsValidIsoDate(Some(from)) && IsValidIsoDate(Some(to)) && IsValidIsoDate(Some(asOf))
    ensures CoversDate(from, to, asOf) <==> DayNumberOf(from) <= DayNumberOf(asOf) <= DayNumberOf(to)
  {
    StringOrderIsDayOrder(asOf, from);
    StringOrderIsDayOrder(to, asOf);
  }
}

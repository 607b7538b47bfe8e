/**
 Decimal strings as PostgreSQL's numeric compares them (canonicalNumeric and sameCoordinate in
 scripts/provider-resolution/resolver.ts). The denoted number is an exact rational, a `real` here.
 */
module CanonicalNumeric {
  import opened Prelude
  import opened Text

  predicate AllDigits(s: string) { forall i | 0 <= i < |s| :: IsDigit(s[i]) }

  // ---- String.prototype.trim ----

  function TrimStart(s: string): (t: string)
    ensures t == [] || !IsWhiteSpace(t[0])
    ensures |t| <= |s|
  {
    if s != [] && IsWhiteSpace(s[0]) then TrimStart(s[1..]) else s
  }

  function TrimEnd(s: string): (t: string)
    ensures t == [] || !IsWhiteSpace(t[|t| - 1])
    ensures t <= s
  {
    if s != [] && IsWhiteSpace(s[|s| - 1]) then TrimEnd(s[..|s| - 1]) else s
  }

  function Trim(s: string): (t: string)
    ensures t == [] || (!IsWhiteSpace(t[0]) && !IsWhiteSpace(t[|t| - 1]))
  {
    TrimEnd(TrimStart(s))
  }

  lemma TrimIsIdempotent(s: string)
    ensures Trim(Trim(s)) == Trim(s)
  {
  }

  // ---- The pattern ^[+-]?(\d+(\.\d*)?|\.\d+)$ and its pieces ----

  function Unsigned(t: string): string { if t != [] && (t[0] == '+' || t[0] == '-') then t[1..] else t }

  function DotAt(b: string): (i: nat)
    ensures i <= |b| && (i < |b| ==> b[i] == '.') && forall j | 0 <= j < i :: b[j] != '.'
  {
    if b == [] || b[0] == '.' then 0 else 1 + DotAt(b[1..])
  }

  /** trimmed.startsWith("-") */
  predicate Negative(t: string) { t != [] && t[0] == '-' }

  function RawInt(t: string): string { Unsigned(t)[..DotAt(Unsigned(t))] }

  function RawFrac(t: string): string {
    var b := Unsigned(t);
    if DotAt(b) < |b| then b[DotAt(b) + 1..] else []
  }

  predicate PlainDecimal(t: string) {
    AllDigits(RawInt(t)) && AllDigits(RawFrac(t)) && |RawInt(t)| + |RawFrac(t)| > 0
  }

  /** Exactly the pattern: an optional sign, then digits, digits and a point with or without more, or a point and digits. */
  lemma PlainDecimalGrammar(t: string)
    ensures PlainDecimal(t) <==>
      exists sign: string, i: string, f: string ::
        Spells(t, sign, i, f) && (sign == "" || sign == "+" || sign == "-") && AllDigits(i) && AllDigits(f) && |i| + |f| > 0
  {
    hide Spells, RawInt, RawFrac, AllDigits;
    if PlainDecimal(t) {
      var sign := OwnPieces(t);
    }
    if sign: string, i: string, f: string :|
      Spells(t, sign, i, f) && (sign == "" || sign == "+" || sign == "-") && AllDigits(i) && AllDigits(f) && |i| + |f| > 0
    {
      PiecesRead(t, sign, i, f);
    }
  }

  predicate Spells(t: string, sign: string, i: string, f: string) {
    t == sign + i + "." + f || (t == sign + i && f == "")
  }

  lemma OwnPieces(t: string) returns (sign: string)
    ensures Spells(t, sign, RawInt(t), RawFrac(t)) && (sign == "" || sign == "+" || sign == "-")
  {
    hide AllDigits, DotAt;
    sign := SignOf(t);
    CutAtDot(Unsigned(t));
    Regroup(sign, RawInt(t), RawFrac(t));
  }

  lemma SignOf(t: string) returns (sign: string)
    ensures t == sign + Unsigned(t) && (sign == "" || sign == "+" || sign == "-")
  {
    if t != [] && (t[0] == '+' || t[0] == '-') {
      sign := t[..1];
    } else {
      sign := "";
    }
  }

  lemma CutAtDot(b: string)
    ensures DotAt(b) < |b| ==> b == b[..DotAt(b)] + "." + b[DotAt(b) + 1..]
    ensures DotAt(b) == |b| ==> b == b[..DotAt(b)]
  {
    hide DotAt;
    if DotAt(b) < |b| {
      CutAt(b, DotAt(b));
    }
  }

  lemma CutAt(b: string, n: nat)
    requires n < |b| && b[n] == '.'
    ensures b == b[..n] + "." + b[n + 1..]
  {
  }

  lemma Regroup(a: string, i: string, f: string)
    ensures a + (i + "." + f) == a + i + "." + f
  {
  }

  lemma PiecesRead(t: string, sign: string, i: string, f: string)
    requires Spells(t, sign, i, f) && (sign == "" || sign == "+" || sign == "-") && AllDigits(i) && AllDigits(f) && |i| + |f| > 0
    ensures RawInt(t) == i && RawFrac(t) == f
  {
    var b := if t == sign + i + "." + f then i + "." + f else i;
    assert t == sign + b;
    UnsignedDrops(sign, b, i, f);
    DotEndsDigits(b, i, f);
  }

  lemma UnsignedDrops(sign: string, b: string, i: string, f: string)
    requires b == i + "." + f || (b == i && f == "")
    requires (sign == "" || sign == "+" || sign == "-") && AllDigits(i) && |i| + |f| > 0
    ensures Unsigned(sign + b) == b
  {
    assert b[0] == if i != "" then i[0] else '.';
    assert sign == "" ==> sign + b == b;
  }

  lemma DotEndsDigits(b: string, i: string, f: string)
    requires (b == i + "." + f || (b == i && f == "")) && AllDigits(i)
    ensures DotAt(b) == |i| && b[..|i|] == i && f == if |i| < |b| then b[|i| + 1..] else ""
  {
    var n := DotAt(b);
    assert forall j | 0 <= j < |i| :: b[j] == i[j] && b[j] != '.';
    assert |i| < |b| ==> b[|i|] == '.';
    assert n == |i|;
  }

  /** Trimming drops white space at both ends and nothing else. */
  lemma TrimDropsWhiteSpace(s: string)
    ensures exists a, b | 0 <= a <= b <= |s| ::
      && Trim(s) == s[a..b] && (forall k | 0 <= k < a :: IsWhiteSpace(s[k])) && (forall k | b <= k < |s| :: IsWhiteSpace(s[k]))
  {
    var a := StartDrops(s);
    var b := EndDrops(TrimStart(s));
    assert Trim(s) == s[a..a + b];
    forall k | a + b <= k < |s| ensures IsWhiteSpace(s[k]) {
      assert s[k] == TrimStart(s)[k - a];
    }
  }

  /** `value.trim() === ""` is being all white space. */
  lemma BlankIsTrimmedAway(s: string)
    ensures IsBlank(s) <==> Trim(s) == ""
  {
    hide TrimStart, TrimEnd, IsWhiteSpace;
    TrimDropsWhiteSpace(s);
    var a, b :| 0 <= a <= b <= |s| && Trim(s) == s[a..b]
      && (forall k | 0 <= k < a :: IsWhiteSpace(s[k])) && (forall k | b <= k < |s| :: IsWhiteSpace(s[k]));
    if Trim(s) != "" {
      assert s[a] == Trim(s)[0];
    }
  }

  lemma {:induction false} StartDrops(s: string) returns (a: nat)
    ensures a <= |s| && TrimStart(s) == s[a..] && forall k | 0 <= k < a :: IsWhiteSpace(s[k])
  {
    if s != [] && IsWhiteSpace(s[0]) {
      a := StartDrops(s[1..]) ;
      assert forall k | 1 <= k < a + 1 :: s[k] == s[1..][k - 1];
      a := a + 1;
    } else {
      a := 0;
    }
  }

  lemma {:induction false} EndDrops(s: string) returns (b: nat)
    ensures b <= |s| && TrimEnd(s) == s[..b] && forall k | b <= k < |s| :: IsWhiteSpace(s[k])
  {
    if s != [] && IsWhiteSpace(s[|s| - 1]) {
      b := EndDrops(s[..|s| - 1]);
      assert forall k | b <= k < |s| - 1 :: s[k] == s[..|s| - 1][k];
    } else {
      b := |s|;
    }
  }

  // ---- canonicalNumeric ----

  /** /^0+(?=\d)/ on a string of digits. */
  function StripLeadingZeros(s: string): string {
    if |s| > 1 && s[0] == '0' then StripLeadingZeros(s[1..]) else s
  }

  /** /0+$/ */
  function StripTrailingZeros(s: string): string {
    if s != [] && s[|s| - 1] == '0' then StripTrailingZeros(s[..|s| - 1]) else s
  }

  function Magnitude(integer: string, fraction: string): string {
    if fraction != [] then integer + "." + fraction else integer
  }

  /** /^0(\.0*)?$/ */
  predicate IsZeroText(m: string) {
    m != [] && m[0] == '0' && (|m| == 1 || (m[1] == '.' && forall i | 2 <= i < |m| :: m[i] == '0'))
  }

  function CanonicalInt(t: string): string {
    var stripped := StripLeadingZeros(RawInt(t));
    if stripped == [] then "0" else stripped
  }

  function CanonicalText(value: string): string {
    var t := Trim(value);
    if !PlainDecimal(t) then t
    else
      var magnitude := Magnitude(CanonicalInt(t), StripTrailingZeros(RawFrac(t)));
      (if Negative(t) && !IsZeroText(magnitude) then "-" else "") + magnitude
  }

  function CanonicalNumeric(value: Option<string>): Option<string> {
    if value.None? then None else Some(CanonicalText(value.value))
  }

  predicate SameCoordinate(a: Option<string>, b: Option<string>) { CanonicalNumeric(a) == CanonicalNumeric(b) }

  // ---- The denoted number ----

  function IntValue(s: string): nat
    requires AllDigits(s)
  {
    if s == [] then 0 else 10 * IntValue(s[..|s| - 1]) + DigitValue(s[|s| - 1])
  }

  function FracValue(s: string): (v: real)
    requires AllDigits(s)
    ensures 0.0 <= v < 1.0
  {
    if s == [] then 0.0 else (DigitValue(s[0]) as real + FracValue(s[1..])) / 10.0
  }

  function Value(t: string): real
    requires PlainDecimal(t)
  {
    var magnitude := IntValue(RawInt(t)) as real + FracValue(RawFrac(t));
    if Negative(t) then -magnitude else magnitude
  }

  // ---- Stripping zeros keeps the number. ----

  lemma {:induction false} LeadingZeroAddsNothing(s: string)
    requires AllDigits(s)
    ensures AllDigits(['0'] + s) && IntValue(['0'] + s) == IntValue(s)
  {
    var t := ['0'] + s;
    if s != [] {
      assert t[..|t| - 1] == ['0'] + s[..|s| - 1];
      LeadingZeroAddsNothing(s[..|s| - 1]);
    } else {
      assert t[..|t| - 1] == [];
    }
  }

  lemma {:induction false} StripLeadingKeepsValue(s: string)
    requires AllDigits(s)
    ensures var t := StripLeadingZeros(s);
      AllDigits(t) && IntValue(t) == IntValue(s) && (|t| > 1 ==> t[0] != '0') && (t == [] <==> s == [])
  {
    if |s| > 1 && s[0] == '0' {
      StripLeadingKeepsValue(s[1..]);
      LeadingZeroAddsNothing(s[1..]);
      assert s == ['0'] + s[1..];
    }
  }

  lemma {:induction false} TrailingZeroAddsNothing(s: string)
    requires AllDigits(s)
    ensures AllDigits(s + ['0']) && FracValue(s + ['0']) == FracValue(s)
  {
    var t := s + ['0'];
    if s != [] {
      assert t[1..] == s[1..] + ['0'];
      TrailingZeroAddsNothing(s[1..]);
    } else {
      assert t[1..] == [] && DigitValue('0') == 0;
    }
  }

  lemma {:induction false} StripTrailingKeepsValue(s: string)
    requires AllDigits(s)
    ensures var t := StripTrailingZeros(s);
      AllDigits(t) && FracValue(t) == FracValue(s) && (t == [] || t[|t| - 1] != '0')
  {
    if s != [] && s[|s| - 1] == '0' {
      StripTrailingKeepsValue(s[..|s| - 1]);
      TrailingZeroAddsNothing(s[..|s| - 1]);
      assert s == s[..|s| - 1] + ['0'];
    }
  }

  // ---- A number has one text without redundant zeros. ----

  lemma {:induction false} PositiveWithoutLeadingZero(s: string)
    requires AllDigits(s) && s != [] && s[0] != '0'
    ensures IntValue(s) > 0
  {
    if |s| > 1 {
      PositiveWithoutLeadingZero(s[..|s| - 1]);
    } else {
      assert s[..0] == [];
    }
  }

  lemma {:induction false} IntTextUnique(a: string, b: string)
    requires AllDigits(a) && AllDigits(b) && IntValue(a) == IntValue(b)
    requires (a == [] || a[0] != '0') && (b == [] || b[0] != '0')
    ensures a == b
    decreases |a|
  {
    if a == [] {
      if b != [] {
        PositiveWithoutLeadingZero(b);
      }
    } else if b == [] {
      PositiveWithoutLeadingZero(a);
    } else {
      var x, y := a[|a| - 1], b[|b| - 1];
      assert DigitValue(x) == DigitValue(y);
      IntTextUnique(a[..|a| - 1], b[..|b| - 1]);
      assert a == a[..|a| - 1] + [x] && b == b[..|b| - 1] + [y];
    }
  }

  lemma CanonicalIntUnique(a: string, b: string)
    requires AllDigits(a) && AllDigits(b) && a != [] && b != [] && IntValue(a) == IntValue(b)
    requires (|a| > 1 ==> a[0] != '0') && (|b| > 1 ==> b[0] != '0')
    ensures a == b
  {
    ZeroText(a);
    ZeroText(b);
    if a != "0" && b != "0" {
      IntTextUnique(a, b);
    }
  }

  lemma ZeroText(s: string)
    requires AllDigits(s) && s != [] && (|s| > 1 ==> s[0] != '0')
    ensures s == "0" <==> IntValue(s) == 0
  {
    if s[0] == '0' {
      assert s == "0" && s[..0] == [];
    } else {
      PositiveWithoutLeadingZero(s);
    }
  }

  lemma {:induction false} FracTextUnique(a: string, b: string)
    requires AllDigits(a) && AllDigits(b) && FracValue(a) == FracValue(b)
    requires (a == [] || a[|a| - 1] != '0') && (b == [] || b[|b| - 1] != '0')
    ensures a == b
  {
    if a == [] {
      FracZero(b);
    } else if b == [] {
      FracZero(a);
    } else {
      assert DigitValue(a[0]) as real + FracValue(a[1..]) == DigitValue(b[0]) as real + FracValue(b[1..]);
      assert DigitValue(a[0]) == DigitValue(b[0]);
      FracTextUnique(a[1..], b[1..]);
      assert a == [a[0]] + a[1..] && b == [b[0]] + b[1..];
    }
  }

  lemma {:induction false} FracZero(s: string)
    requires AllDigits(s) && (s == [] || s[|s| - 1] != '0')
    ensures FracValue(s) == 0.0 <==> s == []
  {
    if |s| > 1 {
      FracZero(s[1..]);
    } else if s != [] {
      assert s[1..] == [];
    }
  }

  // ---- The canonical text, taken apart. ----

  /** A sign, an integer part and a fraction, none of them redundant. */
  predicate Normal(neg: bool, i: string, f: string) {
    AllDigits(i) && AllDigits(f) && i != [] && (|i| > 1 ==> i[0] != '0') && (f == [] || f[|f| - 1] != '0')
    && (neg ==> i != "0" || f != [])
  }

  function Render(neg: bool, i: string, f: string): string { (if neg then "-" else "") + Magnitude(i, f) }

  lemma {:induction false} DotOf(i: string, rest: string)
    requires AllDigits(i) && (rest == [] || rest[0] == '.')
    ensures DotAt(i + rest) == |i|
  {
    if i == [] {
      assert i + rest == rest;
    } else {
      assert (i + rest)[1..] == i[1..] + rest;
      DotOf(i[1..], rest);
    }
  }

  lemma MagnitudeParses(i: string, f: string)
    requires AllDigits(i) && AllDigits(f) && i != []
    ensures var m := Magnitude(i, f);
      m != [] && m[0] == i[0] && m[..DotAt(m)] == i && (if DotAt(m) < |m| then m[DotAt(m) + 1..] else []) == f
      && m[|m| - 1] == if f != [] then f[|f| - 1] else i[|i| - 1]
  {
    var m := Magnitude(i, f);
    var rest := if f == [] then [] else "." + f;
    assert m == i + rest;
    DotOf(i, rest);
    if f != [] {
      assert m[|i| + 1..] == f;
    }
  }

  lemma RenderParses(neg: bool, i: string, f: string)
    requires AllDigits(i) && AllDigits(f) && i != []
    ensures var t := Render(neg, i, f);
      PlainDecimal(t) && RawInt(t) == i && RawFrac(t) == f && (Negative(t) <==> neg) && Trim(t) == t
  {
    hide Magnitude, DotAt, Trim, Render, IsWhiteSpace, AllDigits;
    MagnitudeParses(i, f);
    var m, t := Magnitude(i, f), Render(neg, i, f);
    RenderEnds(neg, i, f);
    NotTrimmed(t);
  }

  lemma DigitIsNoSpace(c: char)
    requires IsDigit(c) || c == '-'
    ensures !IsWhiteSpace(c)
  {
  }

  lemma MagnitudeEnds(i: string, f: string)
    requires AllDigits(i) && AllDigits(f) && i != []
    ensures var m := Magnitude(i, f); m != [] && IsDigit(m[0]) && IsDigit(m[|m| - 1])
  {
    hide DotAt;
    MagnitudeParses(i, f);
  }

  lemma RenderEnds(neg: bool, i: string, f: string)
    requires AllDigits(i) && AllDigits(f) && i != []
    ensures var m, t := Magnitude(i, f), Render(neg, i, f);
      m != [] && Unsigned(t) == m && (Negative(t) <==> neg)
      && t != [] && !IsWhiteSpace(t[0]) && !IsWhiteSpace(t[|t| - 1])
  {
    hide Magnitude, AllDigits, IsWhiteSpace;
    MagnitudeEnds(i, f);
    var m, t := Magnitude(i, f), Render(neg, i, f);
    DigitIsNoSpace('-');
    DigitIsNoSpace(m[0]);
    DigitIsNoSpace(m[|m| - 1]);
    if neg {
      assert t == ['-'] + m;
    } else {
      assert t == m;
    }
  }

  lemma NotTrimmed(t: string)
    requires t != [] && !IsWhiteSpace(t[0]) && !IsWhiteSpace(t[|t| - 1])
    ensures Trim(t) == t
  {
  }

  /** The canonical text of a decimal renders its sign (dropped for zero) and its stripped pieces. */
  lemma CanonicalRenders(value: string) returns (neg: bool, i: string, f: string)
    requires PlainDecimal(Trim(value))
    ensures Normal(neg, i, f) && CanonicalText(value) == Render(neg, i, f)
    ensures IntValue(i) == IntValue(RawInt(Trim(value))) && FracValue(f) == FracValue(RawFrac(Trim(value)))
    ensures neg <==> Negative(Trim(value)) && (i != "0" || f != [])
  {
    hide DotAt, Trim, RawInt, RawFrac, StripLeadingZeros, StripTrailingZeros;
    var t := Trim(value);
    i, f := CanonicalInt(t), StripTrailingZeros(RawFrac(t));
    StripLeadingKeepsValue(RawInt(t));
    StripTrailingKeepsValue(RawFrac(t));
    IntValueOfNothing();
    ZeroTextIs(i, f);
    neg := Negative(t) && !IsZeroText(Magnitude(i, f));
  }

  lemma IntValueOfNothing()
    ensures IntValue("0") == IntValue([]) == 0
  {
    assert "0"[..0] == [];
  }

  lemma ZeroTextIs(i: string, f: string)
    requires AllDigits(i) && AllDigits(f) && i != [] && (|i| > 1 ==> i[0] != '0') && (f == [] || f[|f| - 1] != '0')
    ensures IsZeroText(Magnitude(i, f)) <==> i == "0" && f == []
  {
    var m := Magnitude(i, f);
    if f != [] {
      assert m[|m| - 1] == f[|f| - 1];
    }
    if |i| > 1 {
      assert m[0] == i[0];
    }
  }

  function Signed(neg: bool, magnitude: real): real { if neg then -magnitude else magnitude }

  lemma RenderValue(neg: bool, i: string, f: string)
    requires Normal(neg, i, f) && PlainDecimal(Render(neg, i, f))
    ensures Value(Render(neg, i, f)) == Signed(neg, IntValue(i) as real + FracValue(f))
  {
    hide DotAt, Trim, RawInt, RawFrac, Render, IntValue, FracValue;
    RenderParses(neg, i, f);
  }

  // ---- What the source relies on. ----

  /** The output is itself a plain decimal of the same value; anything else comes back trimmed and untouched. */
  lemma CanonicalKeepsValue(value: string)
    ensures PlainDecimal(CanonicalText(value)) <==> PlainDecimal(Trim(value))
    ensures PlainDecimal(Trim(value)) ==> Value(CanonicalText(value)) == Value(Trim(value))
    ensures !PlainDecimal(Trim(value)) ==> CanonicalText(value) == Trim(value)
  {
    hide DotAt, Trim, RawInt, RawFrac, Render, IntValue, FracValue, PlainDecimal;
    if PlainDecimal(Trim(value)) {
      var neg, i, f := CanonicalRenders(value);
      RenderParses(neg, i, f);
      RenderValue(neg, i, f);
      ZeroMagnitude(i, f);
    }
  }

  lemma ZeroMagnitude(i: string, f: string)
    requires Normal(false, i, f)
    ensures i == "0" && f == [] ==> IntValue(i) as real + FracValue(f) == 0.0
  {
    IntValueOfNothing();
  }

  lemma NormalUnique(n1: bool, i1: string, f1: string, n2: bool, i2: string, f2: string)
    requires Normal(n1, i1, f1) && Normal(n2, i2, f2)
    requires Signed(n1, IntValue(i1) as real + FracValue(f1)) == Signed(n2, IntValue(i2) as real + FracValue(f2))
    ensures n1 == n2 && i1 == i2 && f1 == f2
  {
    hide IntValue, FracValue;
    ZeroText(i1);
    ZeroText(i2);
    FracZero(f1);
    FracZero(f2);
    assert n1 == n2;
    assert IntValue(i1) == IntValue(i2);
    CanonicalIntUnique(i1, i2);
    FracTextUnique(f1, f2);
  }

  /** On plain decimals, equal outputs are exactly equal numbers. */
  lemma EqualTextIffEqualValue(a: string, b: string)
    requires PlainDecimal(Trim(a)) && PlainDecimal(Trim(b))
    ensures CanonicalText(a) == CanonicalText(b) <==> Value(Trim(a)) == Value(Trim(b))
  {
    hide DotAt, Trim, RawInt, RawFrac, Render, IntValue, FracValue, CanonicalText, PlainDecimal, Value, Normal;
    CanonicalKeepsValue(a);
    CanonicalKeepsValue(b);
    if Value(Trim(a)) == Value(Trim(b)) {
      var n1, i1, f1 := CanonicalRenders(a);
      var n2, i2, f2 := CanonicalRenders(b);
      CanonicalIsNormalDecimal(n1, i1, f1);
      CanonicalIsNormalDecimal(n2, i2, f2);
      NormalUnique(n1, i1, f1, n2, i2, f2);
    }
  }

  lemma CanonicalIsNormalDecimal(neg: bool, i: string, f: string)
    requires Normal(neg, i, f)
    ensures AllDigits(i) && AllDigits(f) && PlainDecimal(Render(neg, i, f))
    ensures Value(Render(neg, i, f)) == Signed(neg, IntValue(i) as real + FracValue(f))
  {
    RenderParses(neg, i, f);
    RenderValue(neg, i, f);
  }

  lemma CanonicalIsIdempotent(value: string)
    ensures CanonicalText(CanonicalText(value)) == CanonicalText(value)
  {
    hide DotAt, Trim, RawInt, RawFrac, IntValue, FracValue, CanonicalText, PlainDecimal, Value, Render;
    CanonicalKeepsValue(value);
    TrimIsIdempotent(value);
    if PlainDecimal(Trim(value)) {
      var n, i, f := CanonicalRenders(value);
      RenderParses(n, i, f);
      EqualTextIffEqualValue(CanonicalText(value), value);
    } else {
      CanonicalKeepsValue(CanonicalText(value));
    }
  }

  /** The relation the location fold compares coordinates with. */
  predicate SamePoint(a: Option<string>, b: Option<string>) {
    match (a, b)
    case (None, None) => true
    case (Some(x), Some(y)) =>
      if PlainDecimal(Trim(x)) && PlainDecimal(Trim(y)) then Value(Trim(x)) == Value(Trim(y)) else Trim(x) == Trim(y)
    case _ => false
  }

  /** A text that is no decimal is compared literally and never meets a decimal. */
  lemma SameCoordinateMeaning(a: Option<string>, b: Option<string>)
    ensures SameCoordinate(a, b) <==> SamePoint(a, b)
  {
    hide Trim, CanonicalText, PlainDecimal, Value;
    if a.Some? && b.Some? {
      CanonicalKeepsValue(a.value);
      CanonicalKeepsValue(b.value);
      if PlainDecimal(Trim(a.value)) && PlainDecimal(Trim(b.value)) {
        EqualTextIffEqualValue(a.value, b.value);
      }
    }
  }
}

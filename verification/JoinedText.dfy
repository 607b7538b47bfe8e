/**
 Texts joined by a bar, and numbers printed in them: when the joined text still says what was joined.
 */
module JoinedText {
  import opened Prelude
  import opened Text

  predicate BarFree(s: string) { '|' !in s }

  lemma {:induction false} BarSplits(a: string, b: string, c: string, d: string)
    requires BarFree(a) && BarFree(c)
    ensures a + "|" + b == c + "|" + d <==> a == c && b == d
  {
    var s, t := a + "|" + b, c + "|" + d;
    if a != "" && c != "" {
      assert s[1..] == a[1..] + "|" + b && t[1..] == c[1..] + "|" + d;
      assert a == [a[0]] + a[1..] && c == [c[0]] + c[1..] && s == [s[0]] + s[1..] && t == [t[0]] + t[1..];
      BarSplits(a[1..], b, c[1..], d);
    } else if a == "" && c == "" {
      assert s[1..] == b && t[1..] == d;
    } else {
      assert s[0] != t[0] by {
        assert a != "" ==> a[0] in a;
        assert c != "" ==> c[0] in c;
      }
    }
  }

  // ---- Decimal text. ----

  predicate Digits(s: string) { s != "" && forall c | c in s :: IsDigit(c) }

  lemma {:induction false} DecimalIsDigits(n: nat)
    ensures Digits(Decimal(n)) && (Decimal(n)[0] == '0' ==> n == 0)
  {
    if n >= 10 {
      DecimalIsDigits(n / 10);
      var s := Decimal(n / 10);
      assert Decimal(n)[0] == s[0];
    }
  }

  lemma {:induction false} DecimalInjective(m: nat, n: nat)
    ensures Decimal(m) == Decimal(n) ==> m == n
  {
    if Decimal(m) == Decimal(n) {
      DecimalIsDigits(m / 10);
      DecimalIsDigits(n / 10);
      var s, t := Decimal(m), Decimal(n);
      assert s[|s| - 1] == t[|t| - 1] && s[..|s| - 1] == t[..|t| - 1];
      assert m % 10 == n % 10;
      if m >= 10 && n >= 10 {
        assert s[..|s| - 1] == Decimal(m / 10) && t[..|t| - 1] == Decimal(n / 10);
        DecimalInjective(m / 10, n / 10);
      } else {
        assert |s| == 1 <==> m < 10;
        assert |t| == 1 <==> n < 10;
      }
    }
  }

  lemma IntTextShape(n: int)
    ensures IntText(n) != "" && BarFree(IntText(n)) && IntText(n)[0] != '~'
    ensures IntText(n)[0] == '0' ==> n == 0 && IntText(n) == "0"
    ensures IntText(n)[0] == '-' <==> n < 0
  {
    hide Decimal;
    var m := if n < 0 then -n else n;
    DecimalIsDigits(m);
    assert forall c | c in Decimal(m) :: c != '|';
    assert Decimal(m)[0] in Decimal(m);
    ZeroText();
  }

  lemma ZeroText()
    ensures Decimal(0) == "0"
  {
  }

  lemma IntTextInjective(m: int, n: int)
    ensures IntText(m) == IntText(n) <==> m == n
  {
    hide Decimal;
    IntTextShape(m);
    IntTextShape(n);
    var a, b := if m < 0 then -m else m, if n < 0 then -n else n;
    if IntText(m) == IntText(n) {
      assert m < 0 ==> IntText(m)[1..] == Decimal(a);
      assert n < 0 ==> IntText(n)[1..] == Decimal(b);
      DecimalInjective(a, b);
    }
  }
}

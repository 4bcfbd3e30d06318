/** Decimal digits, both ways: the number a text of digits spells, and how many digits a
    number has. */
module Decimals {
  import J = JsonText

  function TenTo(width: nat): nat
  {
    if width == 0 then 1 else 10 * TenTo(width - 1)
  }

  lemma {:induction false} LeadingDigitPositive(s: string)
    requires s != "" && J.AllDigits(s) && s[0] != '0'
    ensures J.DigitsValue(s) > 0
  {
    if |s| > 1 {
      LeadingDigitPositive(s[..|s| - 1]);
    } else {
      assert s[..0] == "" && J.DigitsValue("") == 0;
    }
  }

  /** Reading decimal digits without a leading zero and printing them again gives them back. */
  lemma {:induction false} DigitsOfValue(s: string)
    requires s != "" && J.AllDigits(s) && (|s| > 1 ==> s[0] != '0')
    ensures J.Digits(J.DigitsValue(s)) == s
  {
    var n := |s| - 1;
    if n == 0 {
      assert s[..0] == "" && J.DigitsValue("") == 0;
    } else {
      LeadingDigitPositive(s[..n]);
      DigitsOfValue(s[..n]);
      assert J.IsDigit(s[n]) && J.DigitsValue(s) / 10 == J.DigitsValue(s[..n]);
      assert J.DigitChar(J.DigitsValue(s) % 10) == s[n];
      assert s == s[..n] + [s[n]];
    }
  }

  lemma {:induction false} DigitsFit(n: nat, width: nat)
    requires width > 0 && n < TenTo(width)
    ensures |J.Digits(n)| <= width
  {
    if n >= 10 {
      assert TenTo(1) == 10 * TenTo(0) && TenTo(0) == 1;
      DigitsFit(n / 10, width - 1);
    }
  }

  lemma NineteenDigits()
    ensures TenTo(19) == 10_000_000_000_000_000_000
  {
    assert TenTo(0) == 1 && TenTo(3) == 1000;
    assert TenTo(6) == 1_000_000;
    assert TenTo(9) == 1_000_000_000;
    assert TenTo(12) == 1_000_000_000_000;
    assert TenTo(15) == 1_000_000_000_000_000;
    assert TenTo(18) == 1_000_000_000_000_000_000;
  }

  lemma {:induction false} ValueBelow(s: string)
    requires J.AllDigits(s)
    ensures J.DigitsValue(s) < TenTo(|s|)
  {
    if s != "" {
      ValueBelow(s[..|s| - 1]);
      assert J.IsDigit(s[|s| - 1]);
    }
  }

  /** The texts of at most nineteen digits without a leading zero are the positive numbers
      below ten to the nineteenth. */
  lemma PositiveNumber(s: string)
    ensures (J.AllDigits(s) && s != "" && s[0] != '0' && |s| <= 19) <==>
            exists n: nat :: 0 < n < 10_000_000_000_000_000_000 && s == J.Digits(n)
  {
    NineteenDigits();
    if J.AllDigits(s) && s != "" && s[0] != '0' && |s| <= 19 {
      LeadingDigitPositive(s);
      DigitsOfValue(s);
      ValueBelow(s);
      TenToGrows(|s|, 19);
      assert s == J.Digits(J.DigitsValue(s));
    }
    forall n: nat | 0 < n < 10_000_000_000_000_000_000 && s == J.Digits(n)
      ensures J.AllDigits(s) && s != "" && s[0] != '0' && |s| <= 19
    {
      J.DigitsShape(n);
      DigitsFit(n, 19);
    }
  }

  lemma {:induction false} TenToGrows(a: nat, b: nat)
    requires a <= b
    ensures TenTo(a) <= TenTo(b)
  {
    if a < b {
      TenToGrows(a, b - 1);
    }
  }
}

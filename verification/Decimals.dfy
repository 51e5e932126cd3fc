/** Decimal digits: the text of a number, the number of a text, and padding to a fixed width. */
module Decimals {

  function Digit(d: nat): char
    requires d < 10
  {
    ('0' as int + d) as char
  }

  predicate IsDigit(c: char) {
    '0' <= c <= '9'
  }

  function DigitValue(c: char): nat
    requires IsDigit(c)
  {
    c as int - '0' as int
  }

  predicate AllDigits(s: string) {
    forall i :: 0 <= i < |s| ==> IsDigit(s[i])
  }

  /** The decimal text of a number, without leading zeros. */
  function Decimal(n: nat): (s: string)
    ensures |s| > 0 && AllDigits(s) && (|s| > 1 ==> s[0] != '0')
  {
    if n < 10 then [Digit(n)] else Decimal(n / 10) + [Digit(n % 10)]
  }

  function Value(s: string): nat
    requires AllDigits(s)
  {
    if s == "" then 0 else 10 * Value(s[..|s| - 1]) + DigitValue(s[|s| - 1])
  }

  /** The last `k` digits of a number, with leading zeros. */
  function Fixed(n: nat, k: nat): (s: string)
    ensures |s| == k && AllDigits(s)
  {
    if k == 0 then "" else Fixed(n / 10, k - 1) + [Digit(n % 10)]
  }

  function Power10(k: nat): nat {
    if k == 0 then 1 else 10 * Power10(k - 1)
  }

  lemma {:induction false} ValueOfDecimal(n: nat)
    ensures Value(Decimal(n)) == n
  {
    if n >= 10 {
      ValueOfDecimal(n / 10);
      var s := Decimal(n);
      assert s[..|s| - 1] == Decimal(n / 10);
    }
  }

  /** Without a leading zero, a number has one text only. */
  lemma {:induction false} DecimalOfValue(s: string)
    requires s != "" && AllDigits(s) && (|s| > 1 ==> s[0] != '0')
    ensures Decimal(Value(s)) == s
  {
    if |s| > 1 {
      var before := s[..|s| - 1];
      DecimalOfValue(before);
      assert Value(before) > 0 by {
        LeadingDigit(before);
      }
      assert s == before + [s[|s| - 1]];
    } else {
      assert s[..0] == "" && Value(s[..0]) == 0;
    }
  }

  lemma {:induction false} LeadingDigit(s: string)
    requires s != "" && AllDigits(s) && s[0] != '0'
    ensures Value(s) > 0
  {
    if |s| > 1 {
      LeadingDigit(s[..|s| - 1]);
    }
  }

  lemma {:induction false} ValueBelow(s: string)
    requires AllDigits(s)
    ensures Value(s) < Power10(|s|)
  {
    if s != "" {
      ValueBelow(s[..|s| - 1]);
    }
  }

  lemma {:induction false} FixedOfValue(s: string)
    requires AllDigits(s)
    ensures Fixed(Value(s), |s|) == s
  {
    if s != "" {
      FixedOfValue(s[..|s| - 1]);
      assert Value(s) / 10 == Value(s[..|s| - 1]) && Value(s) % 10 == DigitValue(s[|s| - 1]);
      assert s == s[..|s| - 1] + [s[|s| - 1]];
    } else {
      assert s == "";
    }
  }

  lemma {:induction false} ValueOfFixed(n: nat, k: nat)
    requires n < Power10(k)
    ensures Value(Fixed(n, k)) == n
  {
    if k > 0 {
      ValueOfFixed(n / 10, k - 1);
      var s := Fixed(n, k);
      assert s[..|s| - 1] == Fixed(n / 10, k - 1);
    }
  }

  /** A number has at most `k` digits just when it is below the k-th power of ten. */
  lemma {:induction false} LengthOfDecimal(n: nat, k: nat)
    requires k >= 1
    ensures |Decimal(n)| <= k <==> n < Power10(k)
  {
    if n >= 10 {
      if k == 1 {
        assert Power10(1) == 10 * Power10(0);
      } else {
        LengthOfDecimal(n / 10, k - 1);
      }
    } else {
      PowerAtLeast(k);
    }
  }

  lemma {:induction false} PowerAtLeast(k: nat)
    requires k >= 1
    ensures Power10(k) >= 10
  {
    if k > 1 {
      PowerAtLeast(k - 1);
    }
  }

  function Zeros(k: nat): (s: string)
    ensures |s| == k && AllDigits(s) && forall i :: 0 <= i < k ==> s[i] == '0'
  {
    if k == 0 then "" else Zeros(k - 1) + "0"
  }

  function PadLeft(s: string, k: nat): string {
    if |s| < k then Zeros(k - |s|) + s else s
  }

  function PadRight(s: string, k: nat): string {
    if |s| < k then s + Zeros(k - |s|) else s
  }

  function TrimEnd(s: string): string {
    if s != "" && s[|s| - 1] == '0' then TrimEnd(s[..|s| - 1]) else s
  }

  lemma {:induction false} FixedZero(k: nat)
    ensures Fixed(0, k) == Zeros(k)
  {
    if k > 0 {
      FixedZero(k - 1);
    }
  }

  /** Padding a number's text on the left gives its fixed-width text. */
  lemma {:induction false} PadLeftIsFixed(n: nat, k: nat)
    requires n < Power10(k) && k >= 1
    ensures PadLeft(Decimal(n), k) == Fixed(n, k)
  {
    LengthOfDecimal(n, k);
    assert Power10(1) == 10 * Power10(0);
    if n < 10 {
      FixedZero(k - 1);
      assert n / 10 == 0 && n % 10 == n;
    } else {
      assert k > 1;
      PadLeftIsFixed(n / 10, k - 1);
      assert PadLeft(Decimal(n), k) == PadLeft(Decimal(n / 10), k - 1) + [Digit(n % 10)];
    }
  }

  lemma {:induction false} TrimThenPad(s: string)
    requires AllDigits(s)
    ensures AllDigits(TrimEnd(s)) && |TrimEnd(s)| <= |s| && PadRight(TrimEnd(s), |s|) == s
    ensures TrimEnd(s) != "" ==> TrimEnd(s)[|TrimEnd(s)| - 1] != '0'
  {
    if s != "" && s[|s| - 1] == '0' {
      TrimThenPad(s[..|s| - 1]);
      assert s == s[..|s| - 1] + "0";
      var t := TrimEnd(s);
      assert Zeros(|s| - |t|) == Zeros(|s| - |t| - 1) + "0";
    }
  }

  lemma {:induction false} PadThenTrim(s: string, k: nat)
    requires s != "" && s[|s| - 1] != '0'
    ensures TrimEnd(PadRight(s, k)) == s
  {
    if |s| < k {
      ZerosTrim(s, k - |s|);
    }
  }

  lemma {:induction false} ZerosTrim(s: string, k: nat)
    requires s != "" && s[|s| - 1] != '0'
    ensures TrimEnd(s + Zeros(k)) == s
  {
    if k == 0 {
      assert s + Zeros(0) == s;
    } else {
      ZerosTrim(s, k - 1);
      assert (s + Zeros(k))[..|s| + k - 1] == s + Zeros(k - 1);
    }
  }

  lemma {:induction false} ValueOfZeros(k: nat)
    ensures Value(Zeros(k)) == 0
  {
    if k > 0 {
      ValueOfZeros(k - 1);
      assert Zeros(k)[..k - 1] == Zeros(k - 1);
    }
  }
}

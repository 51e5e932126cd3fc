/**
 The exact weekly target transition. Quantities are whole millionths; texts have at most six
 decimal places. One row is advanced at a time and its closing quantities open the next row.
 */
module TargetTransition {
  import opened Wrappers
  import opened Decimals

  const SCALE: nat := 1_000_000
  const MAX_DIGITS: nat := 40
  const MAX_TEXT: nat := 48

  // The text of a quantity.

  function Dot(s: string): (i: nat)
    ensures i <= |s| && (forall k :: 0 <= k < i ==> s[k] != '.') && (i < |s| ==> s[i] == '.')
  {
    if s == "" || s[0] == '.' then 0 else 1 + Dot(s[1..])
  }

  predicate WholePart(s: string) {
    s != "" && AllDigits(s) && (|s| > 1 ==> s[0] != '0')
  }

  predicate FractionPart(s: string) {
    1 <= |s| <= 6 && AllDigits(s)
  }

  /** A whole number without leading zeros, and at most six decimals behind a point. */
  predicate Grammar(s: string) {
    var i := Dot(s);
    WholePart(s[..i]) && (i < |s| ==> FractionPart(s[i + 1..]))
  }

  predicate Checked(n: nat) {
    |Decimal(n)| <= MAX_DIGITS
  }

  /** The value of the text in millionths. */
  function Parsed(s: string): nat
    requires Grammar(s)
  {
    var i := Dot(s);
    PadKeepsDigits(s);
    Value(s[..i]) * SCALE + if i == |s| then 0 else Value(PadRight(s[i + 1..], 6))
  }

  lemma PadKeepsDigits(s: string)
    requires Grammar(s)
    ensures Dot(s) < |s| ==> AllDigits(PadRight(s[Dot(s) + 1..], 6)) && |PadRight(s[Dot(s) + 1..], 6)| == 6
  {
  }

  function Q(s: string): Option<nat> {
    if |s| <= MAX_TEXT && Grammar(s) && Checked(Parsed(s)) then Some(Parsed(s)) else None
  }

  function T(n: nat): string
    requires Checked(n)
  {
    if n % SCALE == 0 then Decimal(n / SCALE)
    else Decimal(n / SCALE) + "." + TrimEnd(PadLeft(Decimal(n % SCALE), 6))
  }

  /** The spellings T gives: no zero at the end of the decimals. */
  predicate Canonical(s: string) {
    Grammar(s) && (Dot(s) < |s| ==> s[|s| - 1] != '0')
  }

  lemma SixDigits()
    ensures Power10(6) == SCALE
  {
    assert Power10(3) == 1000;
    assert Power10(6) == 1000 * Power10(3);
  }

  /** The decimals of a number that is not whole. */
  function Decimals6(n: nat): string {
    TrimEnd(PadLeft(Decimal(n % SCALE), 6))
  }

  lemma DecimalsAre(n: nat)
    requires n % SCALE != 0
    ensures var f := Decimals6(n);
            FractionPart(f) && f[|f| - 1] != '0' && PadRight(f, 6) == Fixed(n % SCALE, 6)
            && AllDigits(PadRight(f, 6)) && Value(PadRight(f, 6)) == n % SCALE
  {
    SixDigits();
    PadLeftIsFixed(n % SCALE, 6);
    ValueOfFixed(n % SCALE, 6);
    TrimThenPad(Fixed(n % SCALE, 6));
    ValueOfZeros(6);
    assert PadRight("", 6) == Zeros(6);
  }

  lemma {:induction false} DotOfDigits(a: string, b: string)
    requires AllDigits(a)
    ensures Dot(a) == |a|
    ensures b != "" && b[0] == '.' ==> Dot(a + b) == |a|
  {
    if a != "" {
      DotOfDigits(a[1..], b);
      assert (a + b)[1..] == a[1..] + b;
      assert a[0] != '.';
    } else {
      assert a + b == b;
    }
  }

  lemma SplitAtDot(a: string, b: string)
    requires AllDigits(a)
    ensures var s := a + "." + b; Dot(s) == |a| < |s| && s[..Dot(s)] == a && s[Dot(s) + 1..] == b
  {
    DotOfDigits(a, "." + b);
    assert a + "." + b == a + ("." + b);
  }

  lemma SplitWhole(a: string)
    requires AllDigits(a)
    ensures Dot(a) == |a| && a[..Dot(a)] == a
  {
    DotOfDigits(a, "");
  }

  lemma QuotientIsShorter(n: nat)
    requires Checked(n)
    ensures |Decimal(n / SCALE)| <= MAX_DIGITS
  {
    LengthOfDecimal(n, MAX_DIGITS);
    LengthOfDecimal(n / SCALE, MAX_DIGITS);
  }

  /** Reading back a written quantity gives it again; what is written is within the grammar and the length. */
  lemma ReadBack(n: nat)
    requires Checked(n)
    ensures Q(T(n)) == Some(n)
    ensures Canonical(T(n)) && |T(n)| <= MAX_TEXT
  {
    QuotientIsShorter(n);
    if n % SCALE == 0 {
      ReadWhole(n / SCALE);
    } else {
      DecimalsAre(n);
      ReadFraction(n / SCALE, Decimals6(n));
    }
  }

  lemma ReadWhole(whole: nat)
    ensures var s := Decimal(whole); Canonical(s) && Parsed(s) == whole * SCALE
  {
    SplitWhole(Decimal(whole));
    ValueOfDecimal(whole);
  }

  lemma ReadFraction(whole: nat, f: string)
    requires FractionPart(f) && f[|f| - 1] != '0' && AllDigits(PadRight(f, 6))
    ensures var s := Decimal(whole) + "." + f;
            Canonical(s) && Parsed(s) == whole * SCALE + Value(PadRight(f, 6)) && |s| <= |Decimal(whole)| + 7
  {
    var s := Decimal(whole) + "." + f;
    SplitAtDot(Decimal(whole), f);
    ValueOfDecimal(whole);
    assert s[|s| - 1] == f[|f| - 1];
  }

  lemma WrittenOnce(m: nat, n: nat)
    requires Checked(m) && Checked(n) && T(m) == T(n)
    ensures m == n
  {
    ReadBack(m);
    ReadBack(n);
  }

  lemma FractionBelow(f: string)
    requires FractionPart(f)
    ensures AllDigits(PadRight(f, 6)) && Value(PadRight(f, 6)) < SCALE
    ensures Fixed(Value(PadRight(f, 6)), 6) == PadRight(f, 6)
  {
    SixDigits();
    ValueBelow(PadRight(f, 6));
    FixedOfValue(PadRight(f, 6));
  }

  lemma FractionTrims(f: string)
    requires FractionPart(f) && f[|f| - 1] != '0'
    ensures AllDigits(PadRight(f, 6)) && 0 < Value(PadRight(f, 6)) < SCALE
    ensures TrimEnd(PadLeft(Decimal(Value(PadRight(f, 6))), 6)) == f
  {
    FractionBelow(f);
    SixDigits();
    PadLeftIsFixed(Value(PadRight(f, 6)), 6);
    PadThenTrim(f, 6);
    FixedZero(6);
    assert PadRight(f, 6)[|f| - 1] == f[|f| - 1] != Zeros(6)[|f| - 1];
  }

  lemma ParsedParts(s: string)
    requires Grammar(s)
    ensures var i := Dot(s);
            if i == |s| then s[..i] == s && Parsed(s) == Value(s) * SCALE
            else
              && s == s[..i] + "." + s[i + 1..] && AllDigits(PadRight(s[i + 1..], 6))
              && Parsed(s) == Value(s[..i]) * SCALE + Value(PadRight(s[i + 1..], 6))
  {
    PadKeepsDigits(s);
    var i := Dot(s);
    if i < |s| {
      assert s == s[..i] + [s[i]] + s[i + 1..];
    } else {
      assert s[..i] == s;
    }
  }

  /** The two parts of a canonical text with decimals are the texts of the two parts of its value. */
  lemma CanonicalParts(s: string) returns (whole: nat, f: nat)
    requires Canonical(s) && Dot(s) < |s|
    ensures 0 < f < SCALE && Parsed(s) == whole * SCALE + f
    ensures s == Decimal(whole) + "." + TrimEnd(PadLeft(Decimal(f), 6))
  {
    var i := Dot(s);
    ParsedParts(s);
    assert s[i + 1..][|s| - i - 2] == s[|s| - 1];
    whole, f := Value(s[..i]), Value(PadRight(s[i + 1..], 6));
    DecimalOfValue(s[..i]);
    FractionTrims(s[i + 1..]);
  }

  /** Of all texts of one quantity, exactly one is canonical: the one that is written. */
  lemma CanonicalIsWritten(s: string)
    requires Canonical(s) && Q(s).Some?
    ensures T(Q(s).value) == s
  {
    if Dot(s) == |s| {
      ParsedParts(s);
      DecimalOfValue(s);
      WriteWhole(Value(s));
    } else {
      var whole, f := CanonicalParts(s);
      WriteFraction(whole, f);
    }
  }

  lemma WriteWhole(whole: nat)
    requires Checked(whole * SCALE)
    ensures T(whole * SCALE) == Decimal(whole)
  {
    assert (whole * SCALE) % SCALE == 0 && (whole * SCALE) / SCALE == whole;
  }

  lemma WriteFraction(whole: nat, f: nat)
    requires 0 < f < SCALE && Checked(whole * SCALE + f)
    ensures T(whole * SCALE + f) == Decimal(whole) + "." + TrimEnd(PadLeft(Decimal(f), 6))
  {
    var n := whole * SCALE + f;
    assert n / SCALE == whole && n % SCALE == f;
  }

  /** A zero behind the decimals changes nothing. */
  lemma EndingZero(s: string)
    requires Grammar(s) && Dot(s) < |s| < Dot(s) + 7
    ensures Grammar(s + "0") && Parsed(s + "0") == Parsed(s)
  {
    var i := Dot(s);
    var a, f := s[..i], s[i + 1..];
    ParsedParts(s);
    SplitAtDot(a, f + "0");
    assert s + "0" == a + "." + (f + "0");
    ZeroPads(f);
  }

  lemma ZeroPads(f: string)
    requires |f| < 6
    ensures PadRight(f + "0", 6) == PadRight(f, 6)
  {
    ZeroFirst(6 - |f|);
    assert f + "0" + Zeros(6 - |f| - 1) == f + ("0" + Zeros(6 - |f| - 1));
  }

  lemma ZeroFirst(k: nat)
    requires k > 0
    ensures "0" + Zeros(k - 1) == Zeros(k)
  {
  }

  lemma OneZero()
    ensures PadRight("0", 6) == Zeros(6) && AllDigits(Zeros(6)) && Value(Zeros(6)) == 0
  {
    ZeroFirst(6);
    ValueOfZeros(6);
  }

  /** Nor does a point and a zero behind a whole number. */
  lemma PointZero(s: string)
    requires Grammar(s) && Dot(s) == |s|
    ensures Grammar(s + "." + "0") && Parsed(s + "." + "0") == Parsed(s)
  {
    ParsedParts(s);
    SplitAtDot(s, "0");
    OneZero();
    ParsedParts(s + "." + "0");
  }

  /** The texts that are quantities: at most 48 characters, and a value of at most forty digits. */
  lemma QuantityTexts(s: string)
    ensures Q(s).Some? <==> |s| <= 48 && Grammar(s) && Parsed(s) < Power10(40)
  {
    if Grammar(s) {
      LengthOfDecimal(Parsed(s), 40);
    }
  }

  /** A quantity is its whole part and its decimals, in millionths. */
  lemma {:induction false} PartsAreQuantity(whole: string, fraction: string)
    requires whole != "" && AllDigits(whole) && (|whole| > 1 ==> whole[0] != '0')
    requires |fraction| <= 6 && AllDigits(fraction)
    ensures var s, tenth := if fraction == "" then whole else whole + "." + fraction, Power10(|fraction|);
            Grammar(s) && Parsed(s) * tenth == (Value(whole) * tenth + Value(fraction)) * 1_000_000
  {
    if fraction == "" {
      SplitWhole(whole);
    } else {
      var k := |fraction|;
      SplitAtDot(whole, fraction);
      ValueWithZeros(fraction, 6 - k);
      Millionths(k);
      Scaled(Value(whole), Value(fraction), Power10(k), Power10(6 - k));
    }
  }

  lemma {:induction false} ValueWithZeros(s: string, k: nat)
    requires AllDigits(s)
    ensures AllDigits(s + Zeros(k)) && Value(s + Zeros(k)) == Value(s) * Power10(k)
  {
    if k == 0 {
      assert s + Zeros(0) == s;
    } else {
      ValueWithZeros(s, k - 1);
      assert Zeros(k) == Zeros(k - 1) + "0";
      var t := s + Zeros(k);
      assert t == (s + Zeros(k - 1)) + "0";
      assert t[..|t| - 1] == s + Zeros(k - 1);
    }
  }

  lemma {:induction false} Millionths(k: nat)
    requires k <= 6
    ensures Power10(6 - k) * Power10(k) == 1_000_000
  {
    assert Power10(2) == 100 && Power10(4) == 10_000 && Power10(6) == 1_000_000;
  }

  lemma Scaled(whole: nat, fraction: nat, tenth: nat, rest: nat)
    requires rest * tenth == 1_000_000
    ensures (whole * 1_000_000 + fraction * rest) * tenth == (whole * tenth + fraction) * 1_000_000
  {
    assert fraction * rest * tenth == fraction * (rest * tenth);
  }

  /** Every text of the grammar has these parts. */
  lemma QuantityHasParts(s: string) returns (whole: string, fraction: string)
    requires Grammar(s)
    ensures whole != "" && AllDigits(whole) && (|whole| > 1 ==> whole[0] != '0')
    ensures |fraction| <= 6 && AllDigits(fraction)
    ensures s == if fraction == "" then whole else whole + "." + fraction
  {
    ParsedParts(s);
    whole := s[..Dot(s)];
    fraction := if Dot(s) == |s| then "" else s[Dot(s) + 1..];
  }
}

/** Exact values of the scanner's number literals: a run of digits with at most
    one decimal point, scaled by a power of ten. */
module Numbers {
  import opened Errors

  /** The number `mantissa * 10^exponent`. */
  datatype Decimal = Decimal(mantissa: nat, exponent: int)

  predicate IsDigit(c: char) { '0' <= c <= '9' }

  function DigitValue(c: char): (v: nat)
    requires IsDigit(c)
    ensures v < 10
  {
    c as int - '0' as int
  }

  function Pow10(n: nat): (p: nat)
    ensures p >= 1
  {
    if n == 0 then 1 else 10 * Pow10(n - 1)
  }

  lemma {:induction false} Pow10Add(a: nat, b: nat)
    ensures Pow10(a + b) == Pow10(a) * Pow10(b)
  {
    if b > 0 {
      Pow10Add(a, b - 1);
      assert Pow10(a + b) == 10 * Pow10(a + b - 1);
    }
  }

  /** `10^e` as a real number, for any integer `e`. */
  function Pow10Real(e: int): real
    decreases if e < 0 then -e else e
  {
    if e == 0 then 1.0
    else if e > 0 then 10.0 * Pow10Real(e - 1)
    else Pow10Real(e + 1) / 10.0
  }

  lemma {:induction false} Pow10RealAdd(e: int, k: nat)
    ensures Pow10Real(e + k) == Pow10Real(e) * Pow10(k) as real
  {
    if k > 0 {
      Pow10RealAdd(e, k - 1);
      assert Pow10Real(e + (k - 1) + 1) == Pow10Real(e + (k - 1)) * 10.0;
      TimesTen(Pow10Real(e + k), Pow10Real(e + (k - 1)), Pow10Real(e), Pow10(k - 1) as real, Pow10(k) as real);
    } else {
      assert Pow10(k) == 1;
    }
  }

  lemma TimesTen(x: real, y: real, a: real, b: real, z: real)
    requires x == y * 10.0 && y == a * b && z == b * 10.0
    ensures x == a * z
  {
  }

  lemma MulAssocReal(a: real, b: real, c: real)
    ensures (a * b) * c == a * (b * c)
  {
  }

  lemma CastProduct(a: int, b: int)
    ensures (a * b) as real == a as real * b as real
  {
  }

  lemma NumeralArithmetic(m: nat, a: nat, b: nat, p: nat, t: real)
    requires m == a * p + b && p as real * t == 1.0
    ensures m as real * t == a as real + b as real * t
  {
    CastProduct(a, p);
    assert m as real == a as real * p as real + b as real;
    Distribute(a as real, b as real, p as real, t);
  }

  lemma Distribute(a: real, b: real, p: real, t: real)
    requires p * t == 1.0
    ensures (a * p + b) * t == a + b * t
  {
  }

  /** The exact value of a decimal as a real number. */
  function RealValue(d: Decimal): real
  {
    d.mantissa as real * Pow10Real(d.exponent)
  }

  /** `d` multiplied by `10^k`: the digits stay, the point moves. */
  function Scale(d: Decimal, k: nat): Decimal
  {
    Decimal(d.mantissa, d.exponent + k)
  }

  /** Scaling multiplies the value by the power of ten. */
  lemma ScaleValue(d: Decimal, k: nat)
    ensures RealValue(Scale(d, k)) == RealValue(d) * Pow10(k) as real
  {
    Pow10RealAdd(d.exponent, k);
    MulAssocReal(d.mantissa as real, Pow10Real(d.exponent), Pow10(k) as real);
  }

  /** Characters the scanner gathers into a number lexeme. */
  predicate IsNumeralChar(c: char) { IsDigit(c) || c == '.' }

  predicate IsNumeral(s: string) { forall i | 0 <= i < |s| :: IsNumeralChar(s[i]) }

  predicate AllDigits(s: string) { forall i | 0 <= i < |s| :: IsDigit(s[i]) }

  /** The value of a string of decimal digits, most significant first. */
  function DigitsValue(s: string): nat
    requires AllDigits(s)
  {
    if s == [] then 0 else DigitsValue(s[..|s| - 1]) * 10 + DigitValue(s[|s| - 1])
  }

  lemma {:induction false} DigitsValueConcat(a: string, b: string)
    requires AllDigits(a) && AllDigits(b)
    ensures AllDigits(a + b)
    ensures DigitsValue(a + b) == DigitsValue(a) * Pow10(|b|) + DigitsValue(b)
  {
    assert AllDigits(a + b) by {
      forall i | 0 <= i < |a + b| ensures IsDigit((a + b)[i]) {
        if i >= |a| { assert (a + b)[i] == b[i - |a|]; }
      }
    }
    if b == [] {
      assert a + b == a;
    } else {
      var b' := b[..|b| - 1];
      assert (a + b)[..|a + b| - 1] == a + b';
      DigitsValueConcat(a, b');
      var d := DigitValue(b[|b| - 1]);
      assert DigitsValue(a + b) == DigitsValue(a + b') * 10 + d;
      assert DigitsValue(b) == DigitsValue(b') * 10 + d;
      assert Pow10(|b|) == Pow10(|b'|) * 10;
      ShiftDigit(DigitsValue(a), Pow10(|b'|), DigitsValue(b'), d);
    }
  }

  /** Appending digit `d` to a number `x * p + y` shifts both parts. */
  lemma ShiftDigit(x: int, p: int, y: int, d: int)
    ensures (x * p + y) * 10 + d == x * (p * 10) + (y * 10 + d)
  {
  }

  /** Index of the first '.' of `s`, or `|s|` when there is none. */
  function DotIndex(s: string): (i: nat)
    ensures i <= |s|
    ensures forall k | 0 <= k < i :: s[k] != '.'
    ensures i < |s| ==> s[i] == '.'
  {
    if s == [] then 0
    else if s[0] == '.' then 0
    else 1 + DotIndex(s[1..])
  }

  /** The digits before the decimal point. */
  function IntegerPart(s: string): string { s[..DotIndex(s)] }

  /** The characters after the decimal point (empty without one). */
  function FractionPart(s: string): string
  {
    var i := DotIndex(s);
    if i < |s| then s[i + 1..] else []
  }

  /** The valid numerals among strings of digits and dots: at least one
      digit and at most one decimal point. */
  predicate ValidNumeral(s: string)
  {
    (exists i | 0 <= i < |s| :: IsDigit(s[i])) && '.' !in FractionPart(s)
  }

  /** `a + b * 10^-f`: the value of integer digits `a` followed by `f`
      fraction digits worth `b`. */
  function PointValue(a: nat, b: nat, f: nat): real
  {
    a as real + b as real * Pow10Real(-(f as int))
  }

  /** The value a valid numeral denotes: its integer digits plus its fraction
      digits scaled down by their count. */
  function NumeralValue(s: string): real
    requires IsNumeral(s) && ValidNumeral(s)
  {
    NumeralDigits(s);
    PointValue(DigitsValue(IntegerPart(s)), DigitsValue(FractionPart(s)), |FractionPart(s)|)
  }

  /** The exact value of a numeral, or None when it is not valid. */
  function ParseNumeral(s: string): (r: Option<Decimal>)
    requires IsNumeral(s)
    ensures r.Some? <==> ValidNumeral(s)
    ensures r.Some? ==> r.value.exponent == -(|FractionPart(s)| as int)
  {
    if ValidNumeral(s) then
      NumeralDigits(s);
      var ip, fp := IntegerPart(s), FractionPart(s);
      Some(Decimal(DigitsValue(ip + fp), -(|fp| as int)))
    else None
  }

  /** A parsed numeral has exactly the value the numeral denotes. */
  lemma ParseNumeralValue(s: string)
    requires IsNumeral(s) && ValidNumeral(s)
    ensures RealValue(ParseNumeral(s).value) == NumeralValue(s)
  {
    NumeralDigits(s);
    var ip, fp := IntegerPart(s), FractionPart(s);
    SplitValue(ParseNumeral(s).value, DigitsValue(ip), DigitsValue(fp), |fp|);
  }

  lemma NumeralDigits(s: string)
    requires IsNumeral(s) && ValidNumeral(s)
    ensures AllDigits(IntegerPart(s)) && AllDigits(FractionPart(s))
    ensures AllDigits(IntegerPart(s) + FractionPart(s))
    ensures DigitsValue(IntegerPart(s) + FractionPart(s))
      == DigitsValue(IntegerPart(s)) * Pow10(|FractionPart(s)|) + DigitsValue(FractionPart(s))
  {
    var ip, fp := IntegerPart(s), FractionPart(s);
    var i := DotIndex(s);
    assert AllDigits(ip) by {
      forall k | 0 <= k < |ip| ensures IsDigit(ip[k]) { assert ip[k] == s[k]; }
    }
    assert AllDigits(fp) by {
      forall k | 0 <= k < |fp| ensures IsDigit(fp[k]) { assert fp[k] == s[i + 1 + k]; }
    }
    DigitsValueConcat(ip, fp);
  }

  /** A mantissa `a * 10^f + b` with exponent `-f` denotes `a + b * 10^-f`. */
  lemma SplitValue(d: Decimal, a: nat, b: nat, f: nat)
    requires d.mantissa == a * Pow10(f) + b && d.exponent == -(f as int)
    ensures RealValue(d) == PointValue(a, b, f)
  {
    var t := Pow10Real(-(f as int));
    assert RealValue(d) == d.mantissa as real * t;
    Pow10RealAdd(-(f as int), f);
    assert Pow10Real(0) == 1.0;
    NumeralArithmetic(d.mantissa, a, b, Pow10(f), t);
  }
}

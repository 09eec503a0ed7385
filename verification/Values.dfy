/**
  What a number is worth: the real number that a decimal, and a spelling, stand for.
 */
module Values {
  import opened Text
  import opened Numerals

  function Ten(k: nat): (r: real)
    ensures r > 0.0
  {
    if k == 0 then 1.0 else 10.0 * Ten(k - 1)
  }

  function PowerOfTen(e: int): (r: real)
    ensures r > 0.0
  {
    if e >= 0 then Ten(e) else 1.0 / Ten(-e)
  }

  function DigitValue(c: char): real
    requires IsDigit(c)
  {
    (c as int - '0' as int) as real
  }

  /** Digits before the point: each times the power of ten of its place. */
  function WholeValue(s: string): real
    requires AllDigits(s)
  {
    if s == "" then 0.0 else DigitValue(s[0]) * Ten(|s| - 1) + WholeValue(s[1..])
  }

  /** Digits after the point: each over the power of ten of its place. */
  function FractionValue(s: string): real
    requires AllDigits(s)
  {
    if s == "" then 0.0 else FractionValue(s[..|s| - 1]) + DigitValue(s[|s| - 1]) / Ten(|s|)
  }

  function SignFactor(negative: bool): real {
    if negative then -1.0 else 1.0
  }

  function Value(d: Decimal): real {
    SignFactor(d.negative) * (d.coefficient as real) * PowerOfTen(d.exponent)
  }

  /** The exponent of a spelling; none is zero. */
  function Scale(e: Option<Exponent>): int
    requires e.Some? ==> ValidExponent(e.value)
  {
    match e
    case None => 0
    case Some(x) => if x.sign == Minus then -WholeValue(x.digits).Floor else WholeValue(x.digits).Floor
  }

  /** The number that a spelling stands for. */
  function Worth(n: Numeral): real
    requires ValidNumeral(n)
  {
    SignFactor(n.sign == Minus) * (WholeValue(n.whole) + FractionValue(n.fraction)) * PowerOfTen(Scale(n.exp))
  }

  lemma TimesTen(a: real, b: real, t: real)
    ensures 10.0 * (a * t + b) == a * (10.0 * t) + 10.0 * b
  {
  }

  lemma {:induction false} WholeSnoc(s: string, c: char)
    requires AllDigits(s) && IsDigit(c)
    ensures AllDigits(s + [c]) && WholeValue(s + [c]) == 10.0 * WholeValue(s) + DigitValue(c)
  {
    if s == "" {
      EmptyConcat([c]);
      assert [c][1..] == "";
    } else {
      hide DigitValue;
      WholeSnoc(s[1..], c);
      FirstOfConcat(s, [c]);
      TimesTen(DigitValue(s[0]), WholeValue(s[1..]), Ten(|s| - 1));
    }
  }

  /** Reading digits from the left or adding up their places is the same. */
  lemma {:induction false} NatIsWhole(s: string)
    requires AllDigits(s)
    ensures NatOf(s) as real == WholeValue(s)
  {
    if s != "" {
      NatIsWhole(s[..|s| - 1]);
      WholeSnoc(s[..|s| - 1], s[|s| - 1]);
      Unsnoc(s);
    }
  }

  lemma NatSnoc(s: string, c: char)
    requires AllDigits(s) && IsDigit(c)
    ensures AllDigits(s + [c]) && NatOf(s + [c]) as real == 10.0 * (NatOf(s) as real) + DigitValue(c)
  {
    SnocParts(s, c);
  }

  lemma TenNext(k: nat)
    ensures Ten(k + 1) == 10.0 * Ten(k)
  {
  }

  /** One digit more moves what stands before it one place. */
  lemma OnePlace(n: real, a: real, t: real, i: real, d: real, n': real, t': real, i': real)
    requires n == a * t + i && n' == 10.0 * n + d && t' == 10.0 * t && i' == 10.0 * i + d
    ensures n' == a * t' + i'
  {
    TimesTen(a, i, t);
  }

  lemma NoPlace(a: string)
    requires AllDigits(a)
    ensures NatOf(a + "") as real == NatOf(a) as real * Ten(0) + NatOf("") as real
  {
    EmptyConcat(a);
    assert Ten(0) == 1.0 && NatOf("") == 0;
  }

  lemma {:induction false} NatConcat(a: string, b: string)
    requires AllDigits(a) && AllDigits(b)
    ensures AllDigits(a + b) && NatOf(a + b) as real == NatOf(a) as real * Ten(|b|) + NatOf(b) as real
  {
    hide NatOf, Ten, DigitValue;
    if b == "" {
      NoPlace(a);
    } else {
      var init, c := b[..|b| - 1], b[|b| - 1];
      NatConcat(a, init);
      Unsnoc(b);
      Regroup(a, init, [c]);
      NatSnoc(a + init, c);
      NatSnoc(init, c);
      TenNext(|init|);
      OnePlace(NatOf(a + init) as real, NatOf(a) as real, Ten(|init|), NatOf(init) as real, DigitValue(c),
               NatOf(a + b) as real, Ten(|b|), NatOf(b) as real);
    }
  }

  lemma OverTen(f: real, d: real, t: real)
    requires t > 0.0
    ensures (f + d / (10.0 * t)) * (10.0 * t) == 10.0 * (f * t) + d
  {
    var u := 10.0 * t;
    assert (d / u) * u == d;
    assert (f + d / u) * u == f * u + (d / u) * u;
    assert f * u == 10.0 * (f * t);
  }

  lemma {:induction false} FractionIsNat(f: string)
    requires AllDigits(f)
    ensures FractionValue(f) * Ten(|f|) == NatOf(f) as real
  {
    if f != "" {
      var n := |f| - 1;
      FractionIsNat(f[..n]);
      OverTen(FractionValue(f[..n]), DigitValue(f[n]), Ten(n));
    }
  }

  lemma NextPower(e: int)
    ensures PowerOfTen(e - 1) * 10.0 == PowerOfTen(e)
  {
    if e <= 0 {
      var t := Ten(-e);
      assert Ten(-e + 1) == 10.0 * t;
      assert 1.0 / (10.0 * t) * 10.0 == 1.0 / t;
    }
  }

  lemma Shift(q: real, p: real, t: real, r: real)
    requires q * 10.0 == p && p * t == r
    ensures q * (10.0 * t) == r
  {
    assert q * (10.0 * t) == (q * 10.0) * t;
  }

  lemma {:induction false} PowerShift(e: int, k: nat)
    ensures PowerOfTen(e - k) * Ten(k) == PowerOfTen(e)
  {
    if k == 0 {
      hide PowerOfTen;
    } else {
      hide PowerOfTen, Ten;
      PowerShift(e, k - 1);
      NextPower(e - k + 1);
      TenNext(k - 1);
      assert e - k + 1 - 1 == e - k && e - (k - 1) == e - k + 1;
      Shift(PowerOfTen(e - k), PowerOfTen(e - k + 1), Ten(k - 1), PowerOfTen(e));
    }
  }

  /** `c` is `w` moved by the factor `t`, and `f` so moved. */
  lemma Gather(sign: real, c: real, w: real, f: real, m: real, t: real, p: real, r: real)
    requires c == w * t + m && f * t == m && p * t == r
    ensures sign * c * p == sign * (w + f) * r
  {
    assert c == (w + f) * t;
    assert sign * c * p == sign * ((w + f) * t) * p;
    Associate(sign, w + f, t, p);
  }

  lemma Associate(sign: real, x: real, t: real, p: real)
    ensures sign * (x * t) * p == sign * x * (p * t)
  {
    var y := sign * x;
    assert sign * (x * t) == y * t;
    assert y * t * p == y * (t * p);
  }

  lemma ScaleIsNat(e: Option<Exponent>)
    requires e.Some? ==> ValidExponent(e.value)
    ensures Scale(e) == if e.Some? then Signed(e.value.sign, NatOf(e.value.digits)) else 0
  {
    if e.Some? {
      NatIsWhole(e.value.digits);
    }
  }

  lemma MeaningValue(n: Numeral)
    requires ValidNumeral(n)
    ensures Value(Meaning(n))
         == SignFactor(n.sign == Minus) * (NatOf(n.whole + n.fraction) as real) * PowerOfTen(Scale(n.exp) - |n.fraction|)
  {
    hide PowerOfTen, NatOf, Scale, SignFactor;
    ScaleIsNat(n.exp);
  }

  lemma MeaningWorth(n: Numeral)
    requires ValidNumeral(n)
    ensures Value(Meaning(n)) == Worth(n)
  {
    hide PowerOfTen, WholeValue, FractionValue, NatOf, Scale, Ten, SignFactor, Value, Meaning;
    MeaningValue(n);
    NatConcat(n.whole, n.fraction);
    NatIsWhole(n.whole);
    FractionIsNat(n.fraction);
    PowerShift(Scale(n.exp), |n.fraction|);
    Gather(SignFactor(n.sign == Minus), NatOf(n.whole + n.fraction) as real, WholeValue(n.whole), FractionValue(n.fraction),
           NatOf(n.fraction) as real, Ten(|n.fraction|), PowerOfTen(Scale(n.exp) - |n.fraction|), PowerOfTen(Scale(n.exp)));
  }

  /**
    A text is read as a number exactly when it is a spelling, and the number read is worth what the
    spelling stands for: its digits by their places before and after the point, its sign and its
    exponent.
   */
  lemma ParseFloatWorth(s: string, v: real)
    ensures ParseFloat(s).Some? && Value(ParseFloat(s).value) == v
        <==> exists n :: ValidNumeral(n) && Spell(n) == s && Worth(n) == v
  {
    hide Value, Worth, Meaning, Spell;
    if ParseFloat(s).Some? {
      ParseFloatMeaning(s, ParseFloat(s).value);
      var n :| ValidNumeral(n) && Spell(n) == s && Meaning(n) == ParseFloat(s).value;
      MeaningWorth(n);
    }
    forall n | ValidNumeral(n) && Spell(n) == s && Worth(n) == v
      ensures ParseFloat(s).Some? && Value(ParseFloat(s).value) == v
    {
      ParseFloatSpelled(n);
      MeaningWorth(n);
    }
  }

  lemma PlainWorth(n: Numeral)
    requires ValidNumeral(n) && n.exp.None? && n.sign != Minus
    ensures Worth(n) == WholeValue(n.whole) + FractionValue(n.fraction)
  {
    hide WholeValue, FractionValue;
  }

  lemma FractionSnoc(f: string, c: char)
    requires AllDigits(f) && IsDigit(c)
    ensures AllDigits(f + [c]) && FractionValue(f + [c]) == FractionValue(f) + DigitValue(c) / Ten(|f| + 1)
  {
    hide Ten, DigitValue;
    SnocParts(f, c);
  }

  /** A digit more after the point is worth that digit over the power of ten of its place. */
  lemma OneDigitMore(n: Numeral, c: char)
    requires ValidNumeral(n) && n.point && n.exp.None? && n.sign != Minus && IsDigit(c)
    ensures var m := n.(fraction := n.fraction + [c]);
      && ParseFloat(Spell(n)).Some? && ParseFloat(Spell(m)).Some?
      && Value(ParseFloat(Spell(m)).value) == Value(ParseFloat(Spell(n)).value) + DigitValue(c) / Ten(|n.fraction| + 1)
  {
    hide Spell, Value, WholeValue, FractionValue, ParseFloat, Meaning, Worth, Ten, DigitValue;
    var m := n.(fraction := n.fraction + [c]);
    FractionSnoc(n.fraction, c);
    ParseFloatSpelled(n);
    ParseFloatSpelled(m);
    MeaningWorth(n);
    MeaningWorth(m);
    PlainWorth(n);
    PlainWorth(m);
  }

  lemma ZeroWorthless()
    ensures Value(ZERO) == 0.0
  {
  }
}

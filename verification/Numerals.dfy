/**
  Numbers as they are spelled in perfdata and in status fields: the decimal part
  of the grammar of `strconv.ParseFloat`, and `strconv.ParseInt` in base 10.
  A float is modelled by the exact decimal it was read from.
 */
module Numerals {
  import opened Text

  /** (-1)^negative * coefficient * 10^exponent. */
  datatype Decimal = Decimal(negative: bool, coefficient: nat, exponent: int)

  const ZERO := Decimal(false, 0, 0)

  datatype Sign = Unsigned | Plus | Minus

  datatype Exponent = Exponent(mark: char, sign: Sign, digits: string)

  /** A spelling: sign, whole part, optional fraction, optional exponent. */
  datatype Numeral = Numeral(sign: Sign, whole: string, point: bool, fraction: string, exp: Option<Exponent>)

  predicate IsDigit(c: char) {
    '0' <= c <= '9'
  }

  predicate AllDigits(s: string) {
    forall i :: 0 <= i < |s| ==> IsDigit(s[i])
  }

  predicate ValidExponent(e: Exponent) {
    (e.mark == 'e' || e.mark == 'E') && AllDigits(e.digits) && e.digits != ""
  }

  predicate ValidNumeral(n: Numeral) {
    && AllDigits(n.whole) && AllDigits(n.fraction)
    && (n.whole != "" || n.fraction != "")
    && (!n.point ==> n.fraction == "")
    && (n.exp.Some? ==> ValidExponent(n.exp.value))
  }

  function SpellSign(s: Sign): string {
    match s
    case Unsigned => ""
    case Plus => "+"
    case Minus => "-"
  }

  function SpellExponent(e: Option<Exponent>): string {
    match e
    case None => ""
    case Some(x) => [x.mark] + (SpellSign(x.sign) + x.digits)
  }

  function SpellFraction(point: bool, fraction: string): string {
    if point then ['.'] + fraction else ""
  }

  function Spell(n: Numeral): string {
    SpellSign(n.sign) + (n.whole + (SpellFraction(n.point, n.fraction) + SpellExponent(n.exp)))
  }

  function NatOf(digits: string): nat
    requires AllDigits(digits)
  {
    if digits == "" then 0
    else NatOf(digits[..|digits| - 1]) * 10 + (digits[|digits| - 1] as int - '0' as int)
  }

  function Signed(s: Sign, n: int): int {
    if s == Minus then -n else n
  }

  /** The number a spelling denotes. */
  function Meaning(n: Numeral): Decimal
    requires ValidNumeral(n)
  {
    var e := if n.exp.Some? then Signed(n.exp.value.sign, NatOf(n.exp.value.digits)) else 0;
    Decimal(n.sign == Minus, NatOf(n.whole + n.fraction), e - |n.fraction|)
  }

  /** A spelling is written sign, digits, point, digits, exponent mark, sign, digits. */
  lemma NumeralSpelled(whole: string, fraction: string, digits: string)
    ensures Spell(Numeral(Minus, whole, true, fraction, Some(Exponent('e', Minus, digits))))
         == "-" + whole + "." + fraction + "e-" + digits
    ensures Spell(Numeral(Plus, whole, true, fraction, Some(Exponent('E', Plus, digits))))
         == "+" + whole + "." + fraction + "E+" + digits
    ensures Spell(Numeral(Unsigned, whole, false, "", None)) == whole
  {
  }

  /** Length of the leading run of digits. */
  function DigitRun(s: string): (n: nat)
    ensures n <= |s| && forall k :: 0 <= k < n ==> IsDigit(s[k])
    ensures n < |s| ==> !IsDigit(s[n])
  {
    if s != "" && IsDigit(s[0]) then DigitRun(s[1..]) + 1 else 0
  }

  lemma DigitRunStops(digits: string, rest: string)
    requires AllDigits(digits) && (rest == "" || !IsDigit(rest[0]))
    ensures DigitRun(digits + rest) == |digits|
    ensures (digits + rest)[..|digits|] == digits && (digits + rest)[|digits|..] == rest
  {
    var s := digits + rest;
    assert forall k :: 0 <= k < |digits| ==> s[k] == digits[k];
    assert rest != "" ==> s[|digits|] == rest[0];
  }

  function ReadSign(s: string): (r: (Sign, string))
    ensures SpellSign(r.0) + r.1 == s
  {
    if s != "" && s[0] == '-' then (Minus, s[1..])
    else if s != "" && s[0] == '+' then (Plus, s[1..])
    else (Unsigned, s)
  }

  /** The exponent, which must reach the end of the text. */
  function ReadExponent(s: string): (r: Option<Option<Exponent>>)
    ensures r.Some? ==> SpellExponent(r.value) == s && (r.value.Some? ==> ValidExponent(r.value.value))
  {
    if s == "" then Some(None)
    else if s[0] != 'e' && s[0] != 'E' then None
    else
      var (sign, digits) := ReadSign(s[1..]);
      if digits == "" || DigitRun(digits) != |digits| then None
      else
        assert digits[..|digits|] == digits;
        assert s == [s[0]] + s[1..];
        Some(Some(Exponent(s[0], sign, digits)))
  }

  function ReadFraction(s: string): (r: (bool, string, string))
    ensures SpellFraction(r.0, r.1) + r.2 == s
    ensures AllDigits(r.1) && (!r.0 ==> r.1 == "")
  {
    if s != "" && s[0] == '.' then
      var f := DigitRun(s[1..]);
      assert s == ['.'] + s[1..][..f] + s[1..][f..];
      (true, s[1..][..f], s[1..][f..])
    else
      (false, "", s)
  }

  /** The spelling a text is, if it is one. */
  function ReadNumeral(s: string): (r: Option<Numeral>) {
    var (sign, body) := ReadSign(s);
    var w := DigitRun(body);
    var (point, fraction, tail) := ReadFraction(body[w..]);
    var e := ReadExponent(tail);
    if (w == 0 && fraction == "") || e.None? then None
    else
      Some(Numeral(sign, body[..w], point, fraction, e.value))
  }

  lemma Reassemble(sign: Sign, s: string, whole: string, body: string, tail: string)
    requires SpellSign(sign) + body == s && whole + tail == body
    ensures SpellSign(sign) + (whole + tail) == s
  {
  }

  /** A text read as a numeral is the spelling of that numeral. */
  lemma ReadIsSpelling(s: string)
    ensures var r := ReadNumeral(s); r.Some? ==> ValidNumeral(r.value) && Spell(r.value) == s
  {
    hide SpellSign, SpellFraction, SpellExponent;
    var (sign, body) := ReadSign(s);
    var w := DigitRun(body);
    Reassemble(sign, s, body[..w], body, body[w..]);
  }

  /** Every valid spelling is read back as itself: texts and spellings correspond one to one. */
  lemma ReadSpelled(n: Numeral)
    requires ValidNumeral(n)
    ensures ReadNumeral(Spell(n)) == Some(n)
  {
    var tail := SpellExponent(n.exp);
    var rest := SpellFraction(n.point, n.fraction) + tail;
    var body := n.whole + rest;
    ExponentStart(n.exp);
    assert body[0] == if n.whole != "" then n.whole[0] else '.';
    ReadSignSpelled(n.sign, body);
    assert rest != "" ==> !IsDigit(rest[0]);
    DigitRunStops(n.whole, rest);
    ReadFractionSpelled(n.point, n.fraction, tail);
    ReadExponentSpelled(n.exp);
  }

  lemma ExponentStart(e: Option<Exponent>)
    requires e.Some? ==> ValidExponent(e.value)
    ensures var s := SpellExponent(e); s != "" ==> s[0] == 'e' || s[0] == 'E'
  {
  }

  lemma ReadFractionSpelled(point: bool, fraction: string, tail: string)
    requires AllDigits(fraction) && (!point ==> fraction == "")
    requires tail == "" || tail[0] == 'e' || tail[0] == 'E'
    ensures ReadFraction(SpellFraction(point, fraction) + tail) == (point, fraction, tail)
  {
    hide DigitRun;
    if point {
      AfterPoint(fraction, tail);
      DigitRunStops(fraction, tail);
    } else {
      EmptyConcat(tail);
    }
  }

  lemma AfterPoint(fraction: string, tail: string)
    ensures var s := SpellFraction(true, fraction) + tail; s[0] == '.' && s[1..] == fraction + tail
  {
  }

  lemma ReadSignSpelled(sign: Sign, body: string)
    requires body != "" && body[0] != '-' && body[0] != '+'
    ensures ReadSign(SpellSign(sign) + body) == (sign, body)
  {
    var s := SpellSign(sign) + body;
    assert sign == Unsigned ==> s == body;
    assert sign != Unsigned ==> s[1..] == body;
  }

  lemma ReadExponentSpelled(e: Option<Exponent>)
    requires e.Some? ==> ValidExponent(e.value)
    ensures ReadExponent(SpellExponent(e)) == Some(e)
  {
    if e.Some? {
      var s := SpellExponent(e);
      assert s[1..] == SpellSign(e.value.sign) + e.value.digits;
      ReadSignSpelled(e.value.sign, e.value.digits);
      DigitRunStops(e.value.digits, "");
      assert e.value.digits + "" == e.value.digits;
    }
  }

  /** `strconv.ParseFloat` on decimal spellings. */
  function ParseFloat(s: string): (r: Option<Decimal>) {
    ReadIsSpelling(s);
    match ReadNumeral(s)
    case None => None
    case Some(n) => Some(Meaning(n))
  }

  /** `ParseFloat` accepts exactly the spellings of the grammar, and yields what they denote. */
  lemma ParseFloatMeaning(s: string, d: Decimal)
    ensures ParseFloat(s) == Some(d) <==> exists n :: ValidNumeral(n) && Spell(n) == s && Meaning(n) == d
  {
    if ParseFloat(s) == Some(d) {
      ReadIsSpelling(s);
      var n := ReadNumeral(s).value;
      assert ValidNumeral(n) && Spell(n) == s && Meaning(n) == d;
    }
    forall n | ValidNumeral(n) && Spell(n) == s && Meaning(n) == d
      ensures ParseFloat(s) == Some(d)
    {
      ReadSpelled(n);
    }
  }

  lemma ParseFloatSpelled(n: Numeral)
    requires ValidNumeral(n)
    ensures ParseFloat(Spell(n)) == Some(Meaning(n))
  {
    ReadSpelled(n);
  }

  /** The character class that the value scanner takes for the number. */
  predicate IsNumeralChar(c: char) {
    c == '-' || c == '+' || c == '.' || IsDigit(c) || c == 'e' || c == 'E'
  }

  lemma SpellingChars(n: Numeral)
    requires ValidNumeral(n)
    ensures Spell(n) != ""
    ensures forall c :: c in Spell(n) ==> IsNumeralChar(c)
  {
  }

  // ---- integers ---------------------------------------------------------

  const MAX_UINT64: int := 0xffff_ffff_ffff_ffff
  const MIN_INT64: int := -0x8000_0000_0000_0000
  const MAX_INT64: int := 0x7fff_ffff_ffff_ffff

  /**
    `strconv.ParseInt(s, 10, 64)`: out of range it reports an error and the nearest int64. Digits
    that overflow 64 unsigned bits do so before a later bad character is seen.
   */
  datatype IntParse = Int(value: int) | OutOfRange(nearest: int) | BadSyntax

  function ParseInt(s: string): IntParse {
    var (sign, digits) := ReadSign(s);
    var n := DigitRun(digits);
    var run := NatOf(digits[..n]);
    if n < |digits| && run > MAX_UINT64 then OutOfRange(if sign == Minus then MIN_INT64 else MAX_INT64)
    else if n == 0 || n < |digits| then BadSyntax
    else
      var v := Signed(sign, run);
      if v < MIN_INT64 then OutOfRange(MIN_INT64)
      else if v > MAX_INT64 then OutOfRange(MAX_INT64)
      else Int(v)
  }

  /** The value Go's caller sees when it ignores the error. */
  function IntOrZero(p: IntParse): int {
    match p
    case Int(v) => v
    case OutOfRange(v) => v
    case BadSyntax => 0
  }

  function DigitsOf(n: nat): (s: string)
    ensures s != "" && AllDigits(s)
    ensures NatOf(s) == n
  {
    var d := ['0' + (n % 10) as char];
    if n < 10 then
      assert d[..|d| - 1] == "";
      d
    else
      var s := DigitsOf(n / 10) + d;
      assert s[..|s| - 1] == DigitsOf(n / 10);
      s
  }

  /** `strconv.FormatInt(v, 10)`. */
  function FormatInt(v: int): (s: string)
    ensures s != "" && !IsSpace(s[0]) && !IsSpace(s[|s| - 1])
    ensures forall c :: c in s ==> c == '-' || IsDigit(c)
  {
    if v < 0 then "-" + DigitsOf(-v) else DigitsOf(v)
  }

  lemma ParseFormattedInt(v: int)
    requires MIN_INT64 <= v <= MAX_INT64
    ensures ParseInt(FormatInt(v)) == Int(v)
  {
    hide DigitsOf, ReadSign, DigitRun, NatOf;
    var digits := DigitsOf(if v < 0 then -v else v);
    ReadSignSpelled(if v < 0 then Minus else Unsigned, digits);
    EmptyConcat(digits);
    DigitRunStops(digits, "");
  }

  /** Digits followed by anything else overflow, or are a syntax error, depending on the digits alone. */
  lemma DigitsThenOther(sign: Sign, digits: string, rest: string)
    requires digits != "" && AllDigits(digits) && rest != "" && !IsDigit(rest[0])
    ensures ParseInt(SpellSign(sign) + (digits + rest)) ==
      if NatOf(digits) > MAX_UINT64 then OutOfRange(if sign == Minus then MIN_INT64 else MAX_INT64) else BadSyntax
  {
    hide ReadSign, DigitRun, NatOf;
    ReadSignSpelled(sign, digits + rest);
    DigitRunStops(digits, rest);
  }

  /** A spelling for every decimal. */
  function NumeralOf(d: Decimal): (n: Numeral)
    ensures ValidNumeral(n) && Meaning(n) == d
  {
    var e := d.exponent;
    var digits := DigitsOf(d.coefficient);
    assert digits + "" == digits;
    Numeral(if d.negative then Minus else Unsigned, digits, false, "",
            Some(Exponent('e', if e < 0 then Minus else Unsigned, DigitsOf(if e < 0 then -e else e))))
  }
}

/**
  The performance data parser: `'label'=value[UOM];[warn];[crit];[min];[max]`,
  samples separated by spaces.
 */
module Perfdata {
  import opened Text
  import opened Numerals
  import opened Tokenizer

  datatype Metric = Metric(
    name: string, value: Decimal, unit: string,
    warning: Option<Decimal>, critical: Option<Decimal>, min: Option<Decimal>, max: Option<Decimal>)

  datatype TokenError = NoEquals | EmptyLabel | Undetermined | NoNumber | BadFloat

  const KNOWN_UOMS := ["s", "ms", "%", "B", "KB", "MB", "GB", "TB", "c", ""]

  /** `nagiosUOMToOTel`, with its fallback for unknown units. */
  function OTelUnit(uom: string): string {
    match uom
    case "s" => "s"
    case "ms" => "ms"
    case "%" => "%"
    case "B" => "By"
    case "KB" => "KBy"
    case "MB" => "MBy"
    case "GB" => "GBy"
    case "TB" => "TBy"
    case "c" => "{count}"
    case _ => "1"
  }

  // ---- value and unit --------------------------------------------------------

  /** Length of the leading run of characters a number may hold. */
  function NumeralRun(s: string): (n: nat)
    ensures n <= |s| && forall k :: 0 <= k < n ==> IsNumeralChar(s[k])
    ensures n < |s| ==> !IsNumeralChar(s[n])
  {
    if s != "" && IsNumeralChar(s[0]) then NumeralRun(s[1..]) + 1 else 0
  }

  function ValueAndUOM(text: string): Result<(Decimal, string), TokenError> {
    var s := TrimSpace(text);
    if s == "" || s == "U" then Err(Undetermined)
    else
      var n := NumeralRun(s);
      if n == 0 then Err(NoNumber)
      else
        match ParseFloat(s[..n])
        case None => Err(BadFloat)
        case Some(v) => Ok((v, TrimSpace(s[n..])))
  }

  method ParseValueAndUOM(text: string) returns (r: Result<(Decimal, string), TokenError>)
    ensures r == ValueAndUOM(text)
  {
    hide ParseFloat, NumeralRun, TrimSpace, Trim;
    var s := TrimSpace(text);
    if s == "" || s == "U" {
      return Err(Undetermined);
    }
    var numEnd := 0;
    while numEnd < |s|
      invariant 0 <= numEnd <= |s|
      invariant forall k :: 0 <= k < numEnd ==> IsNumeralChar(s[k])
    {
      var ch := s[numEnd];
      if ch == '-' || ch == '+' || ch == '.' || '0' <= ch <= '9' || ch == 'e' || ch == 'E' {
        numEnd := numEnd + 1;
      } else {
        break;
      }
    }
    assert numEnd == NumeralRun(s);
    if numEnd == 0 {
      return Err(NoNumber);
    }
    var val := ParseFloat(s[..numEnd]);
    if val.None? {
      return Err(BadFloat);
    }
    var uom := TrimSpace(s[numEnd..]);
    uom := Trim(uom, IsSpace);
    return Ok((val.value, uom));
  }

  ghost predicate NoSpaces(s: string) {
    forall i :: 0 <= i < |s| ==> !IsSpace(s[i])
  }

  ghost predicate NumeralChars(s: string) {
    forall i :: 0 <= i < |s| ==> IsNumeralChar(s[i])
  }

  /** What a number's spelling offers to the readers: its characters and its meaning. */
  ghost predicate Spells(s: string, v: Decimal) {
    s != "" && NumeralChars(s) && NoSpaces(s) && ParseFloat(s) == Some(v)
  }

  lemma SpellingSpells(n: Numeral)
    requires ValidNumeral(n)
    ensures Spells(Spell(n), Meaning(n))
  {
    SpellingChars(n);
    ParseFloatSpelled(n);
    NumeralCharsNotSpaces(Spell(n));
  }

  lemma NumeralCharsNotSpaces(s: string)
    requires forall c :: c in s ==> IsNumeralChar(c)
    ensures NumeralChars(s) && NoSpaces(s)
  {
    assert forall i :: 0 <= i < |s| ==> s[i] in s;
  }

  lemma RunBeforeUnit(number: string, uom: string)
    requires number != "" && NumeralChars(number) && NoSpaces(number) && NoSpaces(uom)
    ensures var s := number + uom;
      && TrimSpace(s) == s && s != "" && s != "U"
      && (uom == "" || !IsNumeralChar(uom[0]) ==> NumeralRun(s) == |number|)
      && (uom != "" && IsNumeralChar(uom[0]) ==> NumeralRun(s) > |number|)
      && s[..|number|] == number && s[|number|..] == uom
  {
    var s := number + uom;
    assert s[0] == number[0];
    assert forall k :: 0 <= k < |number| ==> s[k] == number[k];
    assert uom != "" ==> s[|number|] == uom[0] && s[|s| - 1] == uom[|uom| - 1];
  }

  /**
    Splitting a number from its unit succeeds exactly when the unit does not begin
    with a character that numbers may hold: `5EB` is not read as 5 exabytes.
   */
  lemma UnitSurvives(number: string, v: Decimal, uom: string)
    requires Spells(number, v) && NoSpaces(uom)
    ensures ValueAndUOM(number + uom) == Ok((v, uom)) <==> (uom == "" || !IsNumeralChar(uom[0]))
  {
    hide ParseFloat;
    var s := number + uom;
    RunBeforeUnit(number, uom);
    if uom != "" && IsNumeralChar(uom[0]) {
      assert |TrimSpace(s[NumeralRun(s)..])| < |uom|;
    }
  }

  // ---- thresholds ------------------------------------------------------------

  function TrimPrefix(s: string, c: char): string {
    if s != "" && s[0] == c then s[1..] else s
  }

  function ParseOptionalFloat(text: string): Option<Decimal> {
    var s := TrimSpace(text);
    if s == "" then None else ParseFloat(s)
  }

  /** A range without its prefix characters. */
  function ReadBound(body: string): Option<Decimal> {
    var colon := FindLast(body, ':');
    var end := if colon >= 0 then body[colon + 1..] else body;
    if end == "" then None else ParseFloat(end)
  }

  function ParseThreshold(text: string): Option<Decimal> {
    var s := TrimSpace(text);
    if s == "" then None else ReadBound(TrimPrefix(TrimPrefix(s, '@'), '~'))
  }

  datatype Start = Number(n: Numeral) | MinusInfinity | Implicit

  /** `end`, or `start:end` with either side optional. */
  datatype Range = Upto(bound: Numeral) | Span(start: Start, end: Option<Numeral>)

  datatype Threshold = Threshold(inside: bool, range: Range)

  ghost predicate ValidOption(n: Option<Numeral>) {
    n.Some? ==> ValidNumeral(n.value)
  }

  ghost predicate ValidThreshold(t: Threshold) {
    match t.range
    case Upto(n) => ValidNumeral(n)
    case Span(start, end) => (start.Number? ==> ValidNumeral(start.n)) && ValidOption(end)
  }

  function SpellOption(n: Option<Numeral>): string {
    if n.Some? then Spell(n.value) else ""
  }

  function SpellStart(s: Start): string {
    match s
    case Number(n) => Spell(n)
    case MinusInfinity => "~"
    case Implicit => ""
  }

  function SpellRange(r: Range): string {
    match r
    case Upto(n) => Spell(n)
    case Span(start, end) => SpellStart(start) + [':'] + SpellOption(end)
  }

  function SpellThreshold(t: Threshold): string {
    (if t.inside then "@" else "") + SpellRange(t.range)
  }

  ghost function UpperBound(t: Threshold): Option<Decimal>
    requires ValidThreshold(t)
  {
    match t.range
    case Upto(n) => Some(Meaning(n))
    case Span(_, end) => if end.Some? then Some(Meaning(end.value)) else None
  }

  /** Characters of a printed optional field. */
  predicate IsFieldChar(c: char) {
    IsNumeralChar(c) || c == '@' || c == '~' || c == ':'
  }

  ghost predicate FieldChars(s: string) {
    forall i :: 0 <= i < |s| ==> IsFieldChar(s[i])
  }

  /** What is left of a printed range once its prefixes are gone: an optional start, a colon, an optional end. */
  lemma EndAfterColon(left: string, end: string)
    requires NumeralChars(end)
    ensures var body := left + [':'] + end;
      FindLast(body, ':') == |left| && body[|left| + 1..] == end
  {
    assert forall i :: 0 <= i < |end| ==> IsNumeralChar(end[i]);
    FindLastAfter(left, ':', end);
    AroundSeparator(left, ':', end);
  }

  lemma FieldIsTrimmed(s: string)
    requires FieldChars(s)
    ensures TrimSpace(s) == s
  {
  }

  lemma ThresholdIsBound(s: string, inside: bool)
    requires s != "" && FieldChars(s) && s[0] != '@'
    ensures ParseThreshold((if inside then "@" else "") + s) == ReadBound(TrimPrefix(s, '~'))
  {
    hide ReadBound;
    var text := (if inside then "@" else "") + s;
    FieldIsTrimmed(text);
    if inside {
      assert text[1..] == s;
    } else {
      assert text == s;
    }
  }

  lemma ReadUpto(number: string, v: Decimal)
    requires Spells(number, v)
    ensures FieldChars(number) && number[0] != '@'
    ensures TrimPrefix(number, '~') == number && ReadBound(number) == Some(v)
  {
    hide ParseFloat;
    assert IsNumeralChar(number[0]);
    assert ':' !in number;
  }

  lemma ReadSpan(left: string, end: string)
    requires NumeralChars(end)
    ensures ReadBound(left + [':'] + end) == if end == "" then None else ParseFloat(end)
  {
    hide ParseFloat, FindLast;
    EndAfterColon(left, end);
  }

  lemma SpanChars(start: string, end: string)
    requires start == "~" || NumeralChars(start)
    requires NumeralChars(end)
    ensures var s := start + [':'] + end; FieldChars(s) && s[0] != '@'
  {
  }

  lemma SpanWithoutTilde(start: string, end: string)
    requires start == "~" || NumeralChars(start)
    ensures TrimPrefix(start + [':'] + end, '~') == (if start == "~" then "" else start) + [':'] + end
  {
    var s := start + [':'] + end;
    assert s[0] == if start == "" then ':' else start[0];
    if start == "~" {
      assert s[1..] == "" + [':'] + end;
    }
  }

  /** A range is written with its start, a colon and its end, `~` for an infinite start, `@` in front when inverted. */
  lemma RangeSpelled(start: Numeral, end: Numeral)
    ensures SpellThreshold(Threshold(true, Span(Number(start), Some(end)))) == "@" + Spell(start) + ":" + Spell(end)
    ensures SpellThreshold(Threshold(false, Span(MinusInfinity, Some(end)))) == "~:" + Spell(end)
    ensures SpellThreshold(Threshold(false, Span(Implicit, Some(end)))) == ":" + Spell(end)
    ensures SpellThreshold(Threshold(false, Span(Number(start), None))) == Spell(start) + ":"
    ensures SpellThreshold(Threshold(false, Upto(end))) == Spell(end)
  {
    hide Spell;
  }

  /** Reading a printed range yields its upper bound when it has one, and nothing otherwise. */
  lemma ThresholdReadsUpperBound(t: Threshold)
    requires ValidThreshold(t)
    ensures UpperBound(t) == match t.range
      case Upto(n) => Some(Meaning(n))
      case Span(_, end) => if end.Some? then Some(Meaning(end.value)) else None
    ensures ParseThreshold(SpellThreshold(t)) == UpperBound(t)
    ensures SpellRange(t.range) != "" && FieldChars(SpellRange(t.range))
  {
    match t.range
    case Upto(n) =>
      SpellingSpells(n);
      ReadUpto(Spell(n), Meaning(n));
      ThresholdIsBound(Spell(n), t.inside);
    case Span(start, end) =>
      SpanReadsEnd(start, end, t.inside);
  }

  lemma SpanReadsEnd(start: Start, end: Option<Numeral>, inside: bool)
    requires ValidThreshold(Threshold(inside, Span(start, end)))
    ensures var s := SpellStart(start) + [':'] + SpellOption(end);
      && FieldChars(s)
      && ParseThreshold((if inside then "@" else "") + s) == UpperBound(Threshold(inside, Span(start, end)))
  {
    if start.Number? {
      SpellingSpells(start.n);
    }
    if end.Some? {
      SpellingSpells(end.value);
    }
    hide ParseThreshold, ReadBound, ParseFloat;
    var s, e := SpellStart(start), SpellOption(end);
    SpanChars(s, e);
    SpanWithoutTilde(s, e);
    ReadSpan(if s == "~" then "" else s, e);
    ThresholdIsBound(s + [':'] + e, inside);
  }

  lemma OptionalFloatReads(n: Option<Numeral>)
    requires ValidOption(n)
    ensures ParseOptionalFloat(SpellOption(n)) == if n.Some? then Some(Meaning(n.value)) else None
    ensures NumeralChars(SpellOption(n))
  {
    if n.Some? {
      SpellingSpells(n.value);
      TrimmedNumber(Spell(n.value));
    }
  }

  lemma TrimmedNumber(s: string)
    requires s != "" && NoSpaces(s)
    ensures TrimSpace(s) == s
  {
  }

  // ---- one token ---------------------------------------------------------------

  /** The part of a token behind the `=`, for a given label. */
  function ReadFields(name: string, rest: string): Result<Metric, TokenError> {
    var parts := Split(rest, ';');
    match ValueAndUOM(parts[0])
    case Err(e) => Err(e)
    case Ok((value, uom)) =>
      Ok(Metric(name, value, OTelUnit(uom),
                if |parts| > 1 then ParseThreshold(parts[1]) else None,
                if |parts| > 2 then ParseThreshold(parts[2]) else None,
                if |parts| > 3 then ParseOptionalFloat(parts[3]) else None,
                if |parts| > 4 then ParseOptionalFloat(parts[4]) else None))
  }

  function ParseToken(token: string): Result<Metric, TokenError> {
    var eq := Find(token, '=');
    if eq < 0 then Err(NoEquals)
    else
      var name := Trim(token[..eq], IsQuote);
      if name == "" then Err(EmptyLabel) else ReadFields(name, token[eq + 1..])
  }

  /** Why a token is refused: no equals sign, a label of quotes alone, or what is wrong with its value. */
  lemma TokenErrors(token: string)
    ensures ParseToken(token) == Err(NoEquals) <==> '=' !in token
    ensures ParseToken(token) == Err(EmptyLabel) <==>
      exists i :: 0 <= i < |token| && token[i] == '=' && forall k :: 0 <= k < i ==> token[k] == '\''
  {
    hide ReadFields;
    var eq := Find(token, '=');
    if eq >= 0 {
      OnlyQuotes(token[..eq]);
      FieldErrors(Trim(token[..eq], IsQuote), token[eq + 1..]);
      assert forall i :: 0 <= i < |token| && token[i] == '=' && (forall k :: 0 <= k < i ==> token[k] == '\'') ==> i == eq;
      assert forall k :: 0 <= k < eq ==> token[..eq][k] == token[k];
    }
  }

  lemma OnlyQuotes(name: string)
    ensures Trim(name, IsQuote) == "" <==> forall k :: 0 <= k < |name| ==> name[k] == '\''
  {
    var t := TrimLeft(name, IsQuote);
    if t != "" {
      assert name[|name| - |t|] == t[0];
    }
  }

  lemma FieldErrors(name: string, rest: string)
    ensures ReadFields(name, rest) != Err(NoEquals) && ReadFields(name, rest) != Err(EmptyLabel)
  {
    hide Split, ParseFloat, TrimSpace, NumeralRun, ParseThreshold, ParseOptionalFloat, OTelUnit;
  }

  // ---- a whole perfdata string ---------------------------------------------------

  datatype PerfResult = Parsed(metrics: seq<Metric>) | AllFailed(errors: seq<(string, TokenError)>)

  function Successes(tokens: seq<string>): seq<Metric> {
    if |tokens| == 0 then []
    else
      var rest := Successes(tokens[..|tokens| - 1]);
      match ParseToken(tokens[|tokens| - 1])
      case Ok(m) => rest + [m]
      case Err(_) => rest
  }

  function Failures(tokens: seq<string>): seq<(string, TokenError)> {
    if |tokens| == 0 then []
    else
      var token := tokens[|tokens| - 1];
      var rest := Failures(tokens[..|tokens| - 1]);
      match ParseToken(token)
      case Ok(_) => rest
      case Err(e) => rest + [(token, e)]
  }

  function Perfdata(text: string): PerfResult {
    var s := TrimSpace(text);
    if s == "" then Parsed([])
    else
      var tokens := Tokens(s);
      var metrics, errors := Successes(tokens), Failures(tokens);
      if |errors| > 0 && |metrics| == 0 then AllFailed(errors) else Parsed(metrics)
  }

  method ParsePerfdata(text: string) returns (r: PerfResult)
    ensures r == Perfdata(text)
  {
    hide ParseToken, Tokens;
    var perfdata := TrimSpace(text);
    if perfdata == "" {
      return Parsed([]);
    }
    var metrics, parseErrors := [], [];
    var tokens := Tokenize(perfdata);
    for i := 0 to |tokens|
      invariant metrics == Successes(tokens[..i]) && parseErrors == Failures(tokens[..i])
    {
      assert tokens[..i + 1][..i] == tokens[..i];
      match ParseToken(tokens[i]) {
        case Err(e) => parseErrors := parseErrors + [(tokens[i], e)];
        case Ok(m) => metrics := metrics + [m];
      }
    }
    assert tokens[..|tokens|] == tokens;
    if |parseErrors| > 0 && |metrics| == 0 {
      return AllFailed(parseErrors);
    }
    return Parsed(metrics);
  }

  lemma {:induction false} SuccessesAndFailures(tokens: seq<string>)
    ensures |Successes(tokens)| + |Failures(tokens)| == |tokens|
    ensures |Successes(tokens)| == 0 <==> forall t :: t in tokens ==> ParseToken(t).Err?
  {
    if |tokens| > 0 {
      var init, last := tokens[..|tokens| - 1], tokens[|tokens| - 1];
      assert tokens == init + [last];
      SuccessesAndFailures(init);
    }
  }

  /**
    Partial failures: what parses is returned in order and what does not is skipped; an
    error is reported exactly when there is something to parse and none of it parses.
   */
  lemma PartialFailures(text: string)
    ensures var s := TrimSpace(text);
      && (Perfdata(text).AllFailed? <==> s != "" && forall t :: t in Tokens(s) ==> ParseToken(t).Err?)
      && (Perfdata(text).Parsed? ==> Perfdata(text).metrics == if s == "" then [] else Successes(Tokens(s)))
      && (s != "" ==> |Tokens(s)| > 0)
  {
    var s := TrimSpace(text);
    if s != "" {
      assert s[0] in s && s[0] != ' ';
      SomeToken(s, s[0]);
      SuccessesAndFailures(Tokens(s));
    }
  }
}

/**
  Printing performance data as the Nagios Plugin Development Guidelines lay it out,
  and reading it back.
 */
module PerfdataRoundTrip {
  import opened Text
  import opened Numerals
  import opened Tokenizer
  import opened Perfdata

  /** One sample as a plugin writes it; `fields` of the four optional fields are written. */
  datatype Sample = Sample(
    name: string, value: Numeral, uom: string,
    warning: Option<Threshold>, critical: Option<Threshold>, min: Option<Numeral>, max: Option<Numeral>,
    fields: nat)

  /** Characters that neither end a token nor open a quote. */
  predicate IsPlain(c: char) {
    !IsSpace(c) && c != '\''
  }

  ghost predicate PlainText(s: string) {
    forall i :: 0 <= i < |s| ==> IsPlain(s[i])
  }

  ghost predicate ValidUnit(uom: string) {
    PlainText(uom) && ';' !in uom && (uom == "" || !IsNumeralChar(uom[0]))
  }

  ghost predicate ValidLimit(t: Option<Threshold>) {
    t.Some? ==> ValidThreshold(t.value)
  }

  /** Only absent trailing fields may be dropped. */
  ghost predicate ValidSample(m: Sample) {
    && ValidNumeral(m.value) && ValidUnit(m.uom)
    && ValidLimit(m.warning) && ValidLimit(m.critical) && ValidOption(m.min) && ValidOption(m.max)
    && m.fields <= 4
    && (m.fields < 4 ==> m.max.None?) && (m.fields < 3 ==> m.min.None?)
    && (m.fields < 2 ==> m.critical.None?) && (m.fields < 1 ==> m.warning.None?)
  }

  /** Inside a quoted label, a quote is written twice. */
  function Double(name: string): string {
    if name == "" then ""
    else
      var last := name[|name| - 1];
      Double(name[..|name| - 1]) + (if IsQuote(last) then [last, last] else [last])
  }

  function Quote(name: string): string {
    ['\''] + Double(name) + ['\'']
  }

  function SpellLimit(t: Option<Threshold>): string {
    if t.Some? then SpellThreshold(t.value) else ""
  }

  function OptionalTexts(m: Sample): (texts: seq<string>)
    ensures |texts| == 4
  {
    [SpellLimit(m.warning), SpellLimit(m.critical), SpellOption(m.min), SpellOption(m.max)]
  }

  function Parts(m: Sample): (parts: seq<string>)
    ensures |parts| > 0
  {
    [Spell(m.value) + m.uom] + OptionalTexts(m)[..if m.fields < 4 then m.fields else 4]
  }

  function Body(m: Sample): string {
    Join(Parts(m), ';')
  }

  function SpellSample(m: Sample): string {
    Quote(m.name) + ['='] + Body(m)
  }

  function SpellAll(ms: seq<Sample>): seq<string> {
    if |ms| == 0 then [] else SpellAll(ms[..|ms| - 1]) + [SpellSample(ms[|ms| - 1])]
  }

  function SpellPerfdata(ms: seq<Sample>): string {
    Join(SpellAll(ms), ' ')
  }

  /** A sample with all its fields is written as the format says: 'label'=value[UOM];warn;crit;min;max. */
  lemma SampleSpelled(m: Sample)
    requires m.fields == 4
    ensures SpellSample(m) == "'" + Double(m.name) + "'=" + Spell(m.value) + m.uom
      + ";" + SpellLimit(m.warning) + ";" + SpellLimit(m.critical) + ";" + SpellOption(m.min) + ";" + SpellOption(m.max)
  {
    hide Double, Spell, SpellLimit, SpellOption;
    FiveJoined(Parts(m));
    var quoted, value := "'" + Double(m.name) + "'", Spell(m.value) + m.uom;
    var rest := ";" + SpellLimit(m.warning) + ";" + SpellLimit(m.critical) + ";" + SpellOption(m.min) + ";" + SpellOption(m.max);
    assert quoted + "=" + (value + rest) == quoted + "=" + value + rest;
  }

  lemma FiveJoined(parts: seq<string>)
    requires |parts| == 5
    ensures Join(parts, ';') == parts[0] + (";" + parts[1] + ";" + parts[2] + ";" + parts[3] + ";" + parts[4])
  {
    assert parts[1..][1..] == parts[2..] && parts[2..][1..] == parts[3..] && parts[3..][1..] == parts[4..];
    assert Join(parts[4..], ';') == parts[4];
    assert Join(parts[3..], ';') == parts[3] + ";" + parts[4];
    assert Join(parts[2..], ';') == parts[2] + ";" + (parts[3] + ";" + parts[4]);
    assert Join(parts[1..], ';') == parts[1] + ";" + (parts[2] + ";" + (parts[3] + ";" + parts[4]));
  }

  // ---- what a sample means -----------------------------------------------------

  ghost function LimitMeaning(t: Option<Threshold>): Option<Decimal>
    requires ValidLimit(t)
  {
    if t.Some? then UpperBound(t.value) else None
  }

  ghost function OptionMeaning(n: Option<Numeral>): Option<Decimal>
    requires ValidOption(n)
  {
    if n.Some? then Some(Meaning(n.value)) else None
  }

  ghost function SampleMeaning(m: Sample): Metric
    requires ValidSample(m)
  {
    Metric(m.name, Meaning(m.value), OTelUnit(m.uom),
           LimitMeaning(m.warning), LimitMeaning(m.critical), OptionMeaning(m.min), OptionMeaning(m.max))
  }

  ghost predicate ValidSamples(ms: seq<Sample>) {
    forall i :: 0 <= i < |ms| ==> ValidSample(ms[i])
  }

  ghost function MeaningAll(ms: seq<Sample>): (r: seq<Metric>)
    requires ValidSamples(ms)
    ensures |r| == |ms|
  {
    if |ms| == 0 then [] else MeaningAll(ms[..|ms| - 1]) + [SampleMeaning(ms[|ms| - 1])]
  }

  /** The labels that survive: the parser strips quotes without undoubling them, and cuts at the first `=`. */
  predicate CleanName(name: string) {
    name != "" && '\'' !in name && '=' !in name
  }

  // ---- the fields behind the label -----------------------------------------------

  lemma LimitReads(t: Option<Threshold>)
    requires ValidLimit(t)
    ensures ParseThreshold(SpellLimit(t)) == LimitMeaning(t)
    ensures FieldChars(SpellLimit(t))
  {
    hide ParseThreshold;
    if t.Some? {
      ThresholdReadsUpperBound(t.value);
    } else {
      NoThreshold();
    }
  }

  lemma NoThreshold()
    ensures ParseThreshold("") == None
  {
  }

  lemma FieldCharsArePlain(s: string)
    requires FieldChars(s)
    ensures PlainText(s) && ';' !in s
  {
  }

  ghost predicate PartText(s: string) {
    PlainText(s) && ';' !in s
  }

  lemma ValuePart(n: Numeral, uom: string)
    requires ValidNumeral(n) && ValidUnit(uom)
    ensures ValueAndUOM(Spell(n) + uom) == Ok((Meaning(n), uom))
    ensures PartText(Spell(n) + uom)
  {
    hide ValueAndUOM, ParseFloat, Spell, Meaning;
    SpellingSpells(n);
    UnitSurvives(Spell(n), Meaning(n), uom);
    assert FieldChars(Spell(n));
    FieldCharsArePlain(Spell(n));
  }

  lemma PartTexts(m: Sample, i: nat)
    requires ValidSample(m) && i < |Parts(m)|
    ensures PartText(Parts(m)[i])
  {
    hide OptionalTexts, PartText, Spell;
    if i == 0 {
      ValuePart(m.value, m.uom);
    } else {
      OptionalPart(m, i - 1);
    }
  }

  lemma OptionalPart(m: Sample, i: nat)
    requires ValidSample(m) && i < 4
    ensures PartText(OptionalTexts(m)[i])
  {
    hide PartText, SpellLimit, SpellOption;
    LimitPart(m.warning);
    LimitPart(m.critical);
    OptionPart(m.min);
    OptionPart(m.max);
  }

  lemma LimitPart(t: Option<Threshold>)
    requires ValidLimit(t)
    ensures PartText(SpellLimit(t))
  {
    hide SpellLimit;
    LimitReads(t);
    FieldCharsArePlain(SpellLimit(t));
  }

  lemma OptionPart(n: Option<Numeral>)
    requires ValidOption(n)
    ensures PartText(SpellOption(n))
  {
    hide SpellOption;
    OptionalFloatReads(n);
    FieldCharsArePlain(SpellOption(n));
  }

  lemma {:induction false} PlainJoin(parts: seq<string>)
    requires forall i :: 0 <= i < |parts| ==> PlainText(parts[i])
    ensures PlainText(Join(parts, ';'))
  {
    if |parts| > 1 {
      PlainJoin(parts[1..]);
    }
  }

  lemma BodySplits(m: Sample)
    requires ValidSample(m)
    ensures Split(Body(m), ';') == Parts(m) && PlainText(Body(m))
  {
    hide Parts;
    forall i | 0 <= i < |Parts(m)|
      ensures PartText(Parts(m)[i])
    {
      PartTexts(m, i);
    }
    SplitJoin(Parts(m), ';');
    PlainJoin(Parts(m));
  }

  lemma FieldsRead(m: Sample, name: string)
    requires ValidSample(m)
    ensures ReadFields(name, Body(m)) == Ok(SampleMeaning(m).(name := name))
  {
    hide Split, Body, ValueAndUOM, ParseThreshold, ParseOptionalFloat, Spell, OTelUnit, Meaning;
    BodySplits(m);
    ValuePart(m.value, m.uom);
    LimitReads(m.warning);
    LimitReads(m.critical);
    OptionalFloatReads(m.min);
    OptionalFloatReads(m.max);
  }

  // ---- the label -------------------------------------------------------------------

  lemma TrimQuotes(s: string)
    requires s != "" && Trimmed(s, IsQuote)
    ensures Trim(['\''] + s + ['\''], IsQuote) == s
  {
    var whole := ['\''] + s + ['\''];
    assert whole[1..] == s + ['\''];
    assert TrimLeft(whole, IsQuote) == TrimLeft(s + ['\''], IsQuote) == s + ['\''];
    assert (s + ['\''])[..|s|] == s;
  }

  lemma {:induction false} DoubleSize(name: string)
    ensures |Double(name)| >= |name|
    ensures |Double(name)| == |name| <==> '\'' !in name
    ensures '\'' !in name ==> Double(name) == name
    ensures name != "" ==> Double(name) != "" && Double(name)[0] == name[0]
    ensures name != "" ==> Double(name)[|Double(name)| - 1] == name[|name| - 1]
    ensures '=' in Double(name) <==> '=' in name
  {
    if name != "" {
      var init := name[..|name| - 1];
      DoubleSize(init);
      Unsnoc(name);
    }
  }

  /** Stripping quotes gives back the label exactly when it holds no quote of its own. */
  lemma QuoteStripped(name: string)
    ensures name != "" && Trim(Quote(name), IsQuote) == name <==> name != "" && '\'' !in name
  {
    hide Trim;
    DoubleSize(name);
    if name != "" && Trimmed(name, IsQuote) {
      TrimQuotes(Double(name));
    }
    if '\'' !in name && name != "" {
      assert name[0] in name && name[|name| - 1] in name;
    }
  }

  lemma LabelEnds(name: string, body: string)
    ensures var token := Quote(name) + ['='] + body;
      if '=' in name then Find(token, '=') >= 0 && '=' !in Trim(token[..Find(token, '=')], IsQuote)
      else Find(token, '=') == |Quote(name)| && token[..|Quote(name)|] == Quote(name) && token[|Quote(name)| + 1..] == body
  {
    hide Trim, Find, Double;
    DoubleSize(name);
    var token := Quote(name) + ['='] + body;
    if '=' !in name {
      FindAfter(Quote(name), '=', body);
      AroundSeparator(Quote(name), '=', body);
    } else {
      assert token[|Quote(name)|] == '=';
    }
  }

  /**
    A printed sample reads back as what it means exactly when its label is not empty and
    holds neither a quote nor an equals sign.
   */
  lemma TokenRoundTrip(m: Sample)
    requires ValidSample(m)
    ensures ParseToken(SpellSample(m)) == Ok(SampleMeaning(m)) <==> CleanName(m.name)
  {
    hide ReadFields, Body, Trim, Quote;
    var token := SpellSample(m);
    LabelEnds(m.name, Body(m));
    if '=' in m.name {
      var name := Trim(token[..Find(token, '=')], IsQuote);
      ReadFieldsName(name, token[Find(token, '=') + 1..]);
      assert m.name != name;
    } else {
      FieldsRead(m, Trim(Quote(m.name), IsQuote));
      QuoteStripped(m.name);
    }
  }

  lemma ReadFieldsName(name: string, rest: string)
    ensures var r := ReadFields(name, rest); r.Ok? ==> r.value.name == name
  {
  }

  // ---- tokens of a printed list ------------------------------------------------------

  lemma UnbrokenConcat(p: string, c: char)
    requires Unbroken(p) && (c == ' ' ==> InQuote(p))
    ensures Unbroken(p + [c]) && InQuote(p + [c]) == (InQuote(p) != IsQuote(c))
  {
    UnbrokenSnoc(p, c);
    assert (p + [c])[..|p|] == p;
  }

  /** All of a label, with its doubled quotes, stays inside the quotes around it. */
  lemma {:induction false} InsideQuotes(name: string)
    ensures Unbroken(['\''] + Double(name)) && InQuote(['\''] + Double(name))
  {
    hide Unbroken, InQuote;
    if name == "" {
      UnbrokenEmpty();
      UnbrokenConcat("", '\'');
      EmptyConcat(['\'']);
    } else {
      var init, c := name[..|name| - 1], name[|name| - 1];
      InsideQuotes(init);
      var p := ['\''] + Double(init);
      UnbrokenConcat(p, c);
      assert ['\''] + Double(name) == if IsQuote(c) then p + [c] + [c] else p + [c];
      if IsQuote(c) {
        UnbrokenConcat(p + [c], c);
      }
    }
  }

  lemma UnbrokenEmpty()
    ensures Unbroken("") && !InQuote("")
  {
  }

  lemma {:induction false} UnbrokenPlain(p: string, s: string)
    requires Unbroken(p) && PlainText(s)
    ensures Unbroken(p + s) && InQuote(p + s) == InQuote(p)
  {
    hide Unbroken, InQuote;
    if s == "" {
      EmptyConcat(p);
    } else {
      var init, c := s[..|s| - 1], s[|s| - 1];
      UnbrokenPlain(p, init);
      UnbrokenConcat(p + init, c);
      assert p + s == p + init + [c];
    }
  }

  /** Each printed sample is one token. */
  lemma SampleIsPiece(m: Sample)
    requires ValidSample(m)
    ensures Unbroken(SpellSample(m)) && !InQuote(SpellSample(m))
    ensures var s := SpellSample(m); s != "" && s[0] == '\'' && !IsSpace(s[|s| - 1])
  {
    hide Unbroken, InQuote, Double, Body;
    InsideQuotes(m.name);
    UnbrokenConcat(['\''] + Double(m.name), '\'');
    BodySplits(m);
    UnbrokenPlain(Quote(m.name), ['='] + Body(m));
    assert SpellSample(m) == Quote(m.name) + (['='] + Body(m));
  }

  lemma {:induction false} SpellAllPieces(ms: seq<Sample>)
    requires ValidSamples(ms)
    ensures |SpellAll(ms)| == |ms|
    ensures forall i :: 0 <= i < |ms| ==> SpellAll(ms)[i] == SpellSample(ms[i])
    ensures |ms| > 0 ==> ArePieces(SpellAll(ms))
    ensures forall t :: t in SpellAll(ms) ==> t != ""
  {
    hide SpellSample, Unbroken, InQuote;
    if |ms| > 0 {
      var init, last := ms[..|ms| - 1], ms[|ms| - 1];
      SpellAllPieces(init);
      SampleIsPiece(last);
      forall i | 0 <= i < |ms|
        ensures SpellAll(ms)[i] == SpellSample(ms[i]) && Unbroken(SpellAll(ms)[i]) && !InQuote(SpellAll(ms)[i])
      {
        assert i < |init| ==> SpellAll(ms)[i] == SpellAll(init)[i] && init[i] == ms[i];
        SampleIsPiece(ms[i]);
      }
    }
  }

  lemma {:induction false} JoinEnds(parts: seq<string>, sep: char)
    requires |parts| > 0 && parts[0] != "" && parts[|parts| - 1] != ""
    ensures var s, last := Join(parts, sep), parts[|parts| - 1];
      s != "" && s[0] == parts[0][0] && s[|s| - 1] == last[|last| - 1]
  {
    if |parts| > 1 {
      var init, last := parts[..|parts| - 1], parts[|parts| - 1];
      Unsnoc(parts);
      JoinSnoc(init, last, sep);
      JoinStart(init, sep);
    }
  }

  lemma JoinStart(parts: seq<string>, sep: char)
    requires |parts| > 0 && parts[0] != ""
    ensures var s := Join(parts, sep); s != "" && s[0] == parts[0][0]
  {
  }

  lemma PrintedTokens(ms: seq<Sample>)
    requires ValidSamples(ms) && |ms| > 0
    ensures TrimSpace(SpellPerfdata(ms)) == SpellPerfdata(ms) != ""
    ensures Tokens(SpellPerfdata(ms)) == SpellAll(ms)
  {
    hide SpellSample, SpellAll, Tokens, NonEmpty, Join, ArePieces;
    SpellAllPieces(ms);
    SampleIsPiece(ms[0]);
    SampleIsPiece(ms[|ms| - 1]);
    JoinEnds(SpellAll(ms), ' ');
    TokensArePieces(SpellAll(ms));
    NonEmptyIdempotent(SpellAll(ms));
  }

  // ---- the whole list ------------------------------------------------------------------

  ghost predicate AllRead(ms: seq<Sample>)
    requires ValidSamples(ms)
  {
    forall i :: 0 <= i < |ms| ==> ParseToken(SpellSample(ms[i])) == Ok(SampleMeaning(ms[i]))
  }

  lemma {:induction false} SuccessesAreMeanings(ms: seq<Sample>)
    requires ValidSamples(ms)
    ensures Successes(SpellAll(ms)) == MeaningAll(ms) <==> AllRead(ms)
  {
    if |ms| > 0 {
      hide ParseToken, SpellSample, SampleMeaning, AllRead;
      var init, last := ms[..|ms| - 1], ms[|ms| - 1];
      SuccessesAreMeanings(init);
      SpellAllPieces(init);
      SuccessesAndFailures(SpellAll(init));
      SnocParts(SpellAll(init), SpellSample(last));
      AllReadSnoc(ms);
      if ParseToken(SpellSample(last)).Ok? {
        SnocInjective(Successes(SpellAll(init)), ParseToken(SpellSample(last)).value, MeaningAll(init), SampleMeaning(last));
      }
    }
  }

  lemma AllReadSnoc(ms: seq<Sample>)
    requires ValidSamples(ms) && |ms| > 0
    ensures var init, last := ms[..|ms| - 1], ms[|ms| - 1];
      AllRead(ms) <==> AllRead(init) && ParseToken(SpellSample(last)) == Ok(SampleMeaning(last))
  {
    hide ParseToken, SpellSample, SampleMeaning;
    var init, last := ms[..|ms| - 1], ms[|ms| - 1];
    assert forall i :: 0 <= i < |init| ==> init[i] == ms[i];
    if AllRead(init) && ParseToken(SpellSample(last)) == Ok(SampleMeaning(last)) {
      forall i | 0 <= i < |ms|
        ensures ParseToken(SpellSample(ms[i])) == Ok(SampleMeaning(ms[i]))
      {
        assert i < |init| ==> init[i] == ms[i];
      }
    }
  }

  lemma SnocInjective<T>(xs: seq<T>, x: T, ys: seq<T>, y: T)
    ensures xs + [x] == ys + [y] <==> xs == ys && x == y
  {
    if xs + [x] == ys + [y] {
      SnocParts(xs, x);
      SnocParts(ys, y);
    }
  }

  /**
    The round trip: a printed list of samples, with quoted labels and trailing absent fields
    optionally dropped, is parsed back to exactly what it means, in order, if and only if
    every label is non-empty and free of quotes and equals signs.
   */
  lemma PerfdataRoundTrips(ms: seq<Sample>)
    requires ValidSamples(ms)
    ensures Perfdata.Perfdata(SpellPerfdata(ms)) == Parsed(MeaningAll(ms))
        <==> forall i :: 0 <= i < |ms| ==> CleanName(ms[i].name)
  {
    hide ParseToken, SpellSample, SampleMeaning, Tokens, CleanName, Successes, Failures;
    if |ms| > 0 {
      PrintedTokens(ms);
      SuccessesAreMeanings(ms);
      SpellAllPieces(ms);
      SuccessesAndFailures(SpellAll(ms));
    }
    forall i | 0 <= i < |ms|
      ensures ParseToken(SpellSample(ms[i])) == Ok(SampleMeaning(ms[i])) <==> CleanName(ms[i].name)
    {
      TokenRoundTrip(ms[i]);
    }
  }

  /**
    Byte units gain a `y`, seconds and percent stay as they are, counters are counts, and both no
    unit and units outside the table become `1`.
   */
  lemma UnitNames(uom: string)
    ensures uom in KNOWN_UOMS && uom != "" && uom[|uom| - 1] == 'B' ==> OTelUnit(uom) == uom + "y"
    ensures uom in ["s", "ms", "%"] ==> OTelUnit(uom) == uom
    ensures uom !in KNOWN_UOMS || uom == "" ==> OTelUnit(uom) == "1"
    ensures uom == "c" ==> OTelUnit(uom) == "{count}"
  {
  }

  /** Units of the table are told apart by their OpenTelemetry names. */
  lemma KnownUnitsInjective(u: string, v: string)
    requires u in KNOWN_UOMS && v in KNOWN_UOMS && OTelUnit(u) == OTelUnit(v)
    ensures u == v
  {
  }
}

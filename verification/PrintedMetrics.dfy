/**
  From the samples a plugin prints to the metrics emitted: each printed field under its own
  metric.
 */
module PrintedMetrics {
  import opened Text
  import opened Numerals
  import opened Checks
  import opened MetricsBuilders
  import opened Scraper
  import opened EmittedFields
  import opened PerfdataRoundTrip
  import Framing
  import P = Perfdata

  /** One point for each printed sample whose field has a value, labelled as printed. */
  function PrintedSeries(ms: seq<Sample>, values: seq<Option<Decimal>>, start: nat, ts: nat): seq<DataPoint>
    requires |values| == |ms|
  {
    if |ms| == 0 then []
    else
      var n := |ms| - 1;
      PrintedSeries(ms[..n], values[..n], start, ts) +
      match values[n]
      case None => []
      case Some(v) =>
        [DataPoint(start, ts, Double(v),
                   map["nagios.perfdata.label" := ms[n].name, "nagios.perfdata.unit" := P.OTelUnit(ms[n].uom)])]
  }

  ghost function PrintedValues(ms: seq<Sample>): (vs: seq<Option<Decimal>>)
    requires ValidSamples(ms)
    ensures |vs| == |ms| && forall i :: 0 <= i < |ms| ==> vs[i] == Some(Meaning(ms[i].value))
  {
    seq(|ms|, i requires 0 <= i < |ms| => Some(Meaning(ms[i].value)))
  }

  ghost function PrintedWarnings(ms: seq<Sample>): (vs: seq<Option<Decimal>>)
    requires ValidSamples(ms)
    ensures |vs| == |ms| && forall i :: 0 <= i < |ms| ==> vs[i] == LimitMeaning(ms[i].warning)
  {
    seq(|ms|, i requires 0 <= i < |ms| => LimitMeaning(ms[i].warning))
  }

  ghost function PrintedCriticals(ms: seq<Sample>): (vs: seq<Option<Decimal>>)
    requires ValidSamples(ms)
    ensures |vs| == |ms| && forall i :: 0 <= i < |ms| ==> vs[i] == LimitMeaning(ms[i].critical)
  {
    seq(|ms|, i requires 0 <= i < |ms| => LimitMeaning(ms[i].critical))
  }

  ghost function PrintedMinima(ms: seq<Sample>): (vs: seq<Option<Decimal>>)
    requires ValidSamples(ms)
    ensures |vs| == |ms| && forall i :: 0 <= i < |ms| ==> vs[i] == OptionMeaning(ms[i].min)
  {
    seq(|ms|, i requires 0 <= i < |ms| => OptionMeaning(ms[i].min))
  }

  ghost function PrintedMaxima(ms: seq<Sample>): (vs: seq<Option<Decimal>>)
    requires ValidSamples(ms)
    ensures |vs| == |ms| && forall i :: 0 <= i < |ms| ==> vs[i] == OptionMeaning(ms[i].max)
  {
    seq(|ms|, i requires 0 <= i < |ms| => OptionMeaning(ms[i].max))
  }

  lemma {:induction false} SeriesPrinted(ms: seq<Sample>, values: seq<Option<Decimal>>, start: nat, ts: nat)
    requires ValidSamples(ms) && |values| == |ms|
    ensures Series(MeaningAll(ms), values, start, ts) == PrintedSeries(ms, values, start, ts)
  {
    if |ms| > 0 {
      var n := |ms| - 1;
      var init, last := ms[..n], ms[n];
      SeriesPrinted(init, values[..n], start, ts);
      SnocParts(MeaningAll(init), SampleMeaning(last));
      hide P.OTelUnit, ValidSample, LimitMeaning, OptionMeaning;
    }
  }

  lemma {:induction false} MeaningEach(ms: seq<Sample>, i: nat)
    requires ValidSamples(ms) && i < |ms|
    ensures MeaningAll(ms)[i] == SampleMeaning(ms[i])
  {
    hide SampleMeaning;
    if i < |ms| - 1 {
      MeaningEach(ms[..|ms| - 1], i);
    }
  }

  lemma FieldsPrinted(ms: seq<Sample>)
    requires ValidSamples(ms)
    ensures var ps := MeaningAll(ms);
      && Values(ps) == PrintedValues(ms) && Warnings(ps) == PrintedWarnings(ms) && Criticals(ps) == PrintedCriticals(ms)
      && Minima(ps) == PrintedMinima(ms) && Maxima(ps) == PrintedMaxima(ms)
  {
    var ps := MeaningAll(ms);
    forall i | 0 <= i < |ms|
      ensures ps[i] == SampleMeaning(ms[i])
    {
      MeaningEach(ms, i);
    }
    hide MeaningAll, P.OTelUnit, LimitMeaning, OptionMeaning, ValidSample,
      Values, Warnings, Criticals, Minima, Maxima, PrintedValues, PrintedWarnings, PrintedCriticals, PrintedMinima, PrintedMaxima;
  }

  lemma ParsedIsPrinted(r: CheckResult, ms: seq<Sample>)
    requires ValidSamples(ms) && Framing.CleanNames(ms) && r.perfData == SpellPerfdata(ms)
    ensures Parsed(r) == MeaningAll(ms)
  {
    hide SpellPerfdata, P.Perfdata, Framing.CleanNames, ValidSamples, MeaningAll;
    Framing.SamplesRead(ms);
  }

  /**
    Samples printed with clean labels are emitted field by field: values under the value metric,
    upper bounds of the warning and critical ranges, minima and maxima under theirs, in the order
    of the samples, those without the field left out, labelled with the names and units printed.
   */
  lemma PrintedSampleMetrics(config: Config, start: nat, source: string, r: CheckResult, now: nat, ms: seq<Sample>)
    requires ValidSamples(ms) && Framing.CleanNames(ms) && r.perfData == SpellPerfdata(ms)
    ensures var out, ts := EmitFor(config, start, source, r, now), At(r, now);
      out != [] ==>
        && Reports(out[0], config, Value, PrintedSeries(ms, PrintedValues(ms), start, ts))
        && Reports(out[0], config, Warning, PrintedSeries(ms, PrintedWarnings(ms), start, ts))
        && Reports(out[0], config, Critical, PrintedSeries(ms, PrintedCriticals(ms), start, ts))
        && Reports(out[0], config, Min, PrintedSeries(ms, PrintedMinima(ms), start, ts))
        && Reports(out[0], config, Max, PrintedSeries(ms, PrintedMaxima(ms), start, ts))
  {
    hide EmitFor, At, Reports, Series, PrintedSeries, Values, Warnings, Criticals, Minima, Maxima, Parsed, ValidSamples, MeaningAll,
      SpellPerfdata, Framing.CleanNames, PrintedValues, PrintedWarnings, PrintedCriticals, PrintedMinima, PrintedMaxima;
    var ts := At(r, now);
    ParsedIsPrinted(r, ms);
    FieldsPrinted(ms);
    SampleMetrics(config, start, source, r, now);
    SeriesPrinted(ms, PrintedValues(ms), start, ts);
    SeriesPrinted(ms, PrintedWarnings(ms), start, ts);
    SeriesPrinted(ms, PrintedCriticals(ms), start, ts);
    SeriesPrinted(ms, PrintedMinima(ms), start, ts);
    SeriesPrinted(ms, PrintedMaxima(ms), start, ts);
  }
}

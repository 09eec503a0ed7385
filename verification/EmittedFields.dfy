/**
  An emitted resource spelled out: every attribute and every metric in terms of the fields of
  the check and of its samples.
 */
module EmittedFields {
  import opened Text
  import opened Numerals
  import opened Checks
  import opened MetricsBuilders
  import opened Scraper
  import EmittedContent
  import opened Tokenizer
  import P = Perfdata

  /** A resource reports exactly these points under a metric: no metric when it is disabled or there are none. */
  ghost predicate Reports(x: ResourceMetrics, config: Config, m: MetricId, points: seq<DataPoint>) {
    && (m in config.enabled && points != [] ==> MetricData(m, points) in x.metrics)
    && (forall y :: y in x.metrics && y.id == m ==> m in config.enabled && points != [] && y.points == points)
  }

  /** One point for each sample whose field has a value, in the order of the samples. */
  function Series(ps: seq<P.Metric>, values: seq<Option<Decimal>>, start: nat, ts: nat): seq<DataPoint>
    requires |values| == |ps|
  {
    if |ps| == 0 then []
    else
      var n := |ps| - 1;
      Series(ps[..n], values[..n], start, ts) +
      match values[n]
      case None => []
      case Some(v) =>
        [DataPoint(start, ts, Double(v), map["nagios.perfdata.label" := ps[n].name, "nagios.perfdata.unit" := ps[n].unit])]
  }

  function Values(ps: seq<P.Metric>): (vs: seq<Option<Decimal>>)
    ensures |vs| == |ps| && forall i :: 0 <= i < |ps| ==> vs[i] == Some(ps[i].value)
  {
    seq(|ps|, i requires 0 <= i < |ps| => Some(ps[i].value))
  }

  function Warnings(ps: seq<P.Metric>): (vs: seq<Option<Decimal>>)
    ensures |vs| == |ps| && forall i :: 0 <= i < |ps| ==> vs[i] == ps[i].warning
  {
    seq(|ps|, i requires 0 <= i < |ps| => ps[i].warning)
  }

  function Criticals(ps: seq<P.Metric>): (vs: seq<Option<Decimal>>)
    ensures |vs| == |ps| && forall i :: 0 <= i < |ps| ==> vs[i] == ps[i].critical
  {
    seq(|ps|, i requires 0 <= i < |ps| => ps[i].critical)
  }

  function Minima(ps: seq<P.Metric>): (vs: seq<Option<Decimal>>)
    ensures |vs| == |ps| && forall i :: 0 <= i < |ps| ==> vs[i] == ps[i].min
  {
    seq(|ps|, i requires 0 <= i < |ps| => ps[i].min)
  }

  function Maxima(ps: seq<P.Metric>): (vs: seq<Option<Decimal>>)
    ensures |vs| == |ps| && forall i :: 0 <= i < |ps| ==> vs[i] == ps[i].max
  {
    seq(|ps|, i requires 0 <= i < |ps| => ps[i].max)
  }

  lemma {:induction false} SeriesOf(m: MetricId, ps: seq<P.Metric>, values: seq<Option<Decimal>>, start: nat, ts: nat)
    requires |values| == |ps| && forall i :: 0 <= i < |ps| ==> values[i] == FieldOf(m, ps[i])
    ensures AllSamplePoints(m, ps, start, ts) == Series(ps, values, start, ts)
  {
    if |ps| > 0 {
      hide FieldOf;
      var n := |ps| - 1;
      SeriesOf(m, ps[..n], values[..n], start, ts);
    }
  }

  /** The samples that the parser finds in a check's perfdata. */
  function Parsed(r: CheckResult): seq<P.Metric> {
    match P.Perfdata(r.perfData)
    case Parsed(ps) => ps
    case AllFailed(_) => []
  }

  lemma ParsedSamples(r: CheckResult)
    ensures Samples(r) == Parsed(r)
  {
    if r.perfData == "" {
      NothingParsed();
    }
    hide P.Perfdata;
  }

  lemma NothingParsed()
    ensures P.Perfdata("") == P.Parsed([])
  {
    hide P.Successes, P.Failures;
  }

  lemma ReportsPoints(config: Config, start: nat, source: string, r: CheckResult, now: nat, m: MetricId)
    ensures var out := EmitFor(config, start, source, r, now);
      out != [] ==> Reports(out[0], config, m, Points(m, r, start, Stamp(r, now)))
  {
    EmittedContent.EmittedIsOwn(config, start, source, r, now);
    hide EmitFor, Points, Stamp, Resource, EmittedContent.InOrder, EmittedContent.Stamped;
    var out := EmitFor(config, start, source, r, now);
    if out != [] {
      forall y | y in out[0].metrics && y.id == m
        ensures Points(m, r, start, Stamp(r, now)) != []
      {
        ReportedNonEmpty(config, start, source, r, now, y);
      }
    }
  }

  lemma ReportedNonEmpty(config: Config, start: nat, source: string, r: CheckResult, now: nat, y: MetricData)
    requires var out := EmitFor(config, start, source, r, now); out != [] && y in out[0].metrics
    ensures y.points != []
  {
    hide Filled, Resource, PackAll, Passes;
    EmittedContent.PackedMetric(config, Filled(config, r, start, Stamp(r, now)), y);
  }

  lemma StaticOnly(m: MetricId, r: CheckResult, start: nat, ts: nat)
    requires m == State || m == ExecutionTime || m == Latency || m == LastCheck
    ensures Points(m, r, start, ts) == StaticPoints(m, r, start, ts)
  {
    hide Samples, StaticPoints;
    NoSamplePoints(m, Samples(r), start, ts);
    EmptyConcat(StaticPoints(m, r, start, ts));
  }

  lemma {:induction false} NoSamplePoints(m: MetricId, ps: seq<P.Metric>, start: nat, ts: nat)
    requires m == State || m == ExecutionTime || m == Latency || m == LastCheck
    ensures AllSamplePoints(m, ps, start, ts) == []
  {
    if |ps| > 0 {
      NoSamplePoints(m, ps[..|ps| - 1], start, ts);
    }
  }

  lemma SamplesOnly(m: MetricId, r: CheckResult, start: nat, ts: nat, values: seq<Option<Decimal>>)
    requires m != State && m != ExecutionTime && m != Latency && m != LastCheck
    requires var ps := Parsed(r); |values| == |ps| && forall i :: 0 <= i < |ps| ==> values[i] == FieldOf(m, ps[i])
    ensures Points(m, r, start, ts) == Series(Parsed(r), values, start, ts)
  {
    hide Samples, Parsed, AllSamplePoints, Series, FieldOf;
    ParsedSamples(r);
    SeriesOf(m, Parsed(r), values, start, ts);
    EmptyConcat(AllSamplePoints(m, Samples(r), start, ts));
  }

  /** The timestamp of a check's points: its check time in nanoseconds, or the clock. */
  function At(r: CheckResult, now: nat): nat {
    if r.lastCheck > 0 then r.lastCheck * 1_000_000_000 % 0x1_0000_0000_0000_0000 else now
  }

  lemma StampedAt(r: CheckResult, now: nat)
    ensures Stamp(r, now) == At(r, now)
  {
  }

  /**
    A check's own metrics: its state with its name, its execution time, its latency, and its check
    time when it has one; each is one point, stamped with the check time or else the clock.
   */
  lemma CheckMetrics(config: Config, start: nat, source: string, r: CheckResult, now: nat)
    ensures var out, ts := EmitFor(config, start, source, r, now), At(r, now);
      out != [] ==>
        && Reports(out[0], config, State,
             [DataPoint(start, ts, Integer(r.state),
                map["nagios.state" := if r.state == 0 then "ok" else if r.state == 1 then "warning"
                                      else if r.state == 2 then "critical" else "unknown"])])
        && Reports(out[0], config, ExecutionTime, [DataPoint(start, ts, Double(r.executionTime), map[])])
        && Reports(out[0], config, Latency, [DataPoint(start, ts, Double(r.latency), map[])])
        && Reports(out[0], config, LastCheck,
             if r.lastCheck > 0 then [DataPoint(start, ts, Integer(r.lastCheck), map[])] else [])
  {
    StampedAt(r, now);
    StaticOnly(State, r, start, At(r, now));
    StaticOnly(ExecutionTime, r, start, At(r, now));
    StaticOnly(Latency, r, start, At(r, now));
    StaticOnly(LastCheck, r, start, At(r, now));
    hide EmitFor, Points, Stamp, At, Reports;
    ReportsPoints(config, start, source, r, now, State);
    ReportsPoints(config, start, source, r, now, ExecutionTime);
    ReportsPoints(config, start, source, r, now, Latency);
    ReportsPoints(config, start, source, r, now, LastCheck);
  }

  lemma FieldsAre(ps: seq<P.Metric>)
    ensures forall i :: 0 <= i < |ps| ==>
      && Values(ps)[i] == FieldOf(Value, ps[i]) && Warnings(ps)[i] == FieldOf(Warning, ps[i])
      && Criticals(ps)[i] == FieldOf(Critical, ps[i])
      && Minima(ps)[i] == FieldOf(Min, ps[i]) && Maxima(ps)[i] == FieldOf(Max, ps[i])
  {
  }

  /**
    A check's perfdata metrics: under each, one point for every sample that has that field, in the
    order of the samples, with the field's value and the sample's label and unit.
   */
  lemma SampleMetrics(config: Config, start: nat, source: string, r: CheckResult, now: nat)
    ensures var out, ts, ps := EmitFor(config, start, source, r, now), At(r, now), Parsed(r);
      out != [] ==>
        && Reports(out[0], config, Value, Series(ps, Values(ps), start, ts))
        && Reports(out[0], config, Warning, Series(ps, Warnings(ps), start, ts))
        && Reports(out[0], config, Critical, Series(ps, Criticals(ps), start, ts))
        && Reports(out[0], config, Min, Series(ps, Minima(ps), start, ts))
        && Reports(out[0], config, Max, Series(ps, Maxima(ps), start, ts))
  {
    var ts, ps := At(r, now), Parsed(r);
    StampedAt(r, now);
    FieldsAre(ps);
    hide EmitFor, Points, Stamp, At, Reports, Series, FieldOf, Values, Warnings, Criticals, Minima, Maxima, Parsed;
    SamplesOnly(Value, r, start, ts, Values(ps));
    SamplesOnly(Warning, r, start, ts, Warnings(ps));
    SamplesOnly(Critical, r, start, ts, Criticals(ps));
    SamplesOnly(Min, r, start, ts, Minima(ps));
    SamplesOnly(Max, r, start, ts, Maxima(ps));
    ReportsPoints(config, start, source, r, now, Value);
    ReportsPoints(config, start, source, r, now, Warning);
    ReportsPoints(config, start, source, r, now, Critical);
    ReportsPoints(config, start, source, r, now, Min);
    ReportsPoints(config, start, source, r, now, Max);
  }

  /** The resource attributes of a check: each enabled one has the check's value, and there are no others. */
  ghost predicate Identifies(attributes: map<string, string>, config: Config, source: string, r: CheckResult) {
    && (forall a :: a in attributes <==>
          && a in config.attributes
          && (a == "host.name" || a == "nagios.service.description" || a == "nagios.source"
              || (a == "nagios.check.command" && r.checkCommand != "")))
    && ("host.name" in attributes ==> attributes["host.name"] == r.hostName)
    && ("nagios.service.description" in attributes ==> attributes["nagios.service.description"] == r.serviceDescription)
    && ("nagios.source" in attributes ==> attributes["nagios.source"] == source)
    && ("nagios.check.command" in attributes ==> attributes["nagios.check.command"] == r.checkCommand)
  }

  lemma ResourceIdentifies(config: Config, source: string, r: CheckResult)
    ensures Identifies(Resource(config, source, r), config, source, r)
  {
  }

  lemma AttributesIdentify(config: Config, start: nat, source: string, r: CheckResult, now: nat)
    ensures var out := EmitFor(config, start, source, r, now);
      out != [] ==> Identifies(out[0].attributes, config, source, r)
  {
    EmittedContent.EmittedIsOwn(config, start, source, r, now);
    ResourceIdentifies(config, source, r);
    hide EmitFor, Points, Stamp, Resource, Identifies, EmittedContent.InOrder;
  }

  /** An attribute that its exclude filter matches, or that its include filter does not, drops the check. */
  lemma FilteredOut(config: Config, start: nat, source: string, r: CheckResult, now: nat, a: string)
    requires a in Resource(config, source, r)
    ensures var value := Resource(config, source, r)[a];
      (a in config.excludes && config.excludes[a](value)) || (a in config.includes && !config.includes[a](value)) ==>
        EmitFor(config, start, source, r, now) == []
  {
    hide Filled, Resource, PackAll, Stamp;
  }

  /** A metric has something to report about a check. */
  ghost predicate Has(m: MetricId, r: CheckResult) {
    match m
    case LastCheck => r.lastCheck > 0
    case Value => Parsed(r) != []
    case Warning => exists i :: 0 <= i < |Parsed(r)| && Parsed(r)[i].warning.Some?
    case Critical => exists i :: 0 <= i < |Parsed(r)| && Parsed(r)[i].critical.Some?
    case Min => exists i :: 0 <= i < |Parsed(r)| && Parsed(r)[i].min.Some?
    case Max => exists i :: 0 <= i < |Parsed(r)| && Parsed(r)[i].max.Some?
    case _ => true
  }

  lemma HasStatic(m: MetricId, r: CheckResult, start: nat, ts: nat)
    requires m == State || m == ExecutionTime || m == Latency || m == LastCheck
    ensures Has(m, r) <==> Points(m, r, start, ts) != []
  {
    StaticOnly(m, r, start, ts);
    hide Points, Parsed, StateText;
  }

  lemma HasSome(m: MetricId, r: CheckResult, start: nat, ts: nat, values: seq<Option<Decimal>>)
    requires m != State && m != ExecutionTime && m != Latency && m != LastCheck
    requires var ps := Parsed(r); |values| == |ps| && forall i :: 0 <= i < |ps| ==> values[i] == FieldOf(m, ps[i])
    ensures Points(m, r, start, ts) != [] <==> exists i :: 0 <= i < |values| && values[i].Some?
  {
    hide Points, Series, FieldOf, Parsed;
    SamplesOnly(m, r, start, ts, values);
    SeriesEmpty(Parsed(r), values, start, ts);
  }

  lemma HasSamples(m: MetricId, r: CheckResult, start: nat, ts: nat)
    requires m == Value || m == Warning || m == Critical || m == Min || m == Max
    ensures Has(m, r) <==> Points(m, r, start, ts) != []
  {
    var ps := Parsed(r);
    FieldsAre(ps);
    hide Points, FieldOf, Parsed, Values, Warnings, Criticals, Minima, Maxima;
    match m {
      case Value =>
        HasSome(m, r, start, ts, Values(ps));
        assert ps != [] ==> Values(ps)[0].Some?;
      case Warning => HasSome(m, r, start, ts, Warnings(ps));
      case Critical => HasSome(m, r, start, ts, Criticals(ps));
      case Min => HasSome(m, r, start, ts, Minima(ps));
      case Max => HasSome(m, r, start, ts, Maxima(ps));
    }
  }

  lemma HasPoints(m: MetricId, r: CheckResult, start: nat, ts: nat)
    ensures Has(m, r) <==> Points(m, r, start, ts) != []
  {
    hide Has, Points;
    if m == State || m == ExecutionTime || m == Latency || m == LastCheck {
      HasStatic(m, r, start, ts);
    } else {
      HasSamples(m, r, start, ts);
    }
  }

  /** A check is emitted exactly when no filter drops it and some enabled metric has something to report. */
  lemma EmittedIff(config: Config, start: nat, source: string, r: CheckResult, now: nat)
    ensures var attributes := Resource(config, source, r);
      EmitFor(config, start, source, r, now) != [] <==>
        && (forall a :: a in config.includes && a in attributes ==> config.includes[a](attributes[a]))
        && (forall a :: a in config.excludes && a in attributes ==> !config.excludes[a](attributes[a]))
        && exists m: MetricId :: m in config.enabled && Has(m, r)
  {
    EmittedContent.EmittedWhen(config, start, source, r, now);
    hide EmitFor, Points, Stamp, Resource, Has;
    forall m: MetricId
      ensures Has(m, r) <==> Points(m, r, start, Stamp(r, now)) != []
    {
      HasPoints(m, r, start, Stamp(r, now));
    }
  }

  lemma {:induction false} SeriesEmpty(ps: seq<P.Metric>, values: seq<Option<Decimal>>, start: nat, ts: nat)
    requires |values| == |ps|
    ensures Series(ps, values, start, ts) == [] <==> forall i :: 0 <= i < |ps| ==> values[i].None?
  {
    if |ps| > 0 {
      var n := |ps| - 1;
      SeriesEmpty(ps[..n], values[..n], start, ts);
    }
  }

  /**
    The errors of a scrape: one list for each check, in order, whose perfdata holds something and
    none of whose tokens parses; it names all its tokens.
   */
  lemma ErrorsReported(rs: seq<CheckResult>, r: CheckResult)
    ensures ParseErrors([]) == []
    ensures var s := TrimSpace(r.perfData);
      var failed := s != "" && forall t :: t in Tokens(s) ==> P.ParseToken(t).Err?;
      && |ParseErrors([r])| == (if failed then 1 else 0)
      && (failed ==> Names(ParseErrors([r])[0], Tokens(s)))
      && ParseErrors(rs + [r]) == ParseErrors(rs) + ParseErrors([r])
  {
    NoErrors();
    ErrorsSnoc(rs, r);
    ErrorsOfOne(r);
    P.PartialFailures(r.perfData);
    var s := TrimSpace(r.perfData);
    AllFail(Tokens(s));
    AllFailedErrors(r.perfData);
    BlankTrims();
    hide P.Perfdata, Tokens, TrimSpace, P.ParseToken, P.Failures, P.Successes, Names;
  }

  lemma BlankTrims()
    ensures TrimSpace("") == ""
  {
  }

  lemma AllFailedErrors(text: string)
    ensures P.Perfdata(text).AllFailed? ==> P.Perfdata(text).errors == P.Failures(Tokens(TrimSpace(text)))
  {
    hide Tokens, TrimSpace, P.Failures, P.Successes;
  }

  /** Errors that name these tokens, in order. */
  ghost predicate Names(errors: seq<(string, P.TokenError)>, tokens: seq<string>) {
    |errors| == |tokens| && forall i :: 0 <= i < |tokens| ==> errors[i].0 == tokens[i] && P.ParseToken(tokens[i]) == Err(errors[i].1)
  }

  lemma {:induction false} AllFail(tokens: seq<string>)
    ensures (forall t :: t in tokens ==> P.ParseToken(t).Err?) ==> Names(P.Failures(tokens), tokens)
  {
    if |tokens| > 0 {
      hide P.ParseToken;
      AllFail(tokens[..|tokens| - 1]);
      Unsnoc(tokens);
    }
  }
}

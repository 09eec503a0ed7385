/**
  One scrape: dropping checks that have not run since they were last emitted, recording the
  metrics of the others and emitting one resource for each.
 */
module Scraper {
  import opened Text
  import opened Numerals
  import opened Checks
  import opened MetricsBuilders
  import P = Perfdata

  // ---- de-duplication ---------------------------------------------------------------------

  type Cache = map<string, int>

  const NUL := '\U{0000}'

  function Key(r: CheckResult): string {
    r.hostName + [NUL] + r.serviceDescription
  }

  predicate Unchanged(cache: Cache, r: CheckResult) {
    r.lastCheck > 0 && Key(r) in cache && cache[Key(r)] == r.lastCheck
  }

  function Remember(cache: Cache, r: CheckResult): Cache {
    if r.lastCheck > 0 then cache[Key(r) := r.lastCheck] else cache
  }

  function CacheAfter(cache: Cache, rs: seq<CheckResult>): Cache {
    if |rs| == 0 then cache else Remember(CacheAfter(cache, rs[..|rs| - 1]), rs[|rs| - 1])
  }

  /** The results that are emitted, starting from a cache. */
  function Kept(cache: Cache, rs: seq<CheckResult>): seq<CheckResult> {
    if |rs| == 0 then []
    else
      var init, r := rs[..|rs| - 1], rs[|rs| - 1];
      Kept(cache, init) + if Unchanged(CacheAfter(cache, init), r) then [] else [r]
  }

  // ---- what one check records ---------------------------------------------------------------

  /** `pcommon.NewTimestampFromTime` of a time in whole seconds: nanoseconds modulo 2^64. */
  function Nanos(seconds: nat): nat {
    seconds * 1_000_000_000 % 0x1_0000_0000_0000_0000
  }

  function Stamp(r: CheckResult, now: nat): nat {
    if r.lastCheck > 0 then Nanos(r.lastCheck) else now
  }

  function StateText(state: int): string {
    match state
    case 0 => "ok"
    case 1 => "warning"
    case 2 => "critical"
    case _ => "unknown"
  }

  function SampleAttributes(p: P.Metric): map<string, string> {
    map["nagios.perfdata.label" := p.name, "nagios.perfdata.unit" := p.unit]
  }

  /** The field of a sample that a perfdata metric reports. */
  function FieldOf(m: MetricId, p: P.Metric): Option<Decimal> {
    match m
    case Value => Some(p.value)
    case Warning => p.warning
    case Critical => p.critical
    case Min => p.min
    case Max => p.max
    case _ => None
  }

  function SamplePoints(m: MetricId, p: P.Metric, start: nat, ts: nat): seq<DataPoint> {
    match FieldOf(m, p)
    case None => []
    case Some(v) => [DataPoint(start, ts, Double(v), SampleAttributes(p))]
  }

  function AllSamplePoints(m: MetricId, ps: seq<P.Metric>, start: nat, ts: nat): seq<DataPoint> {
    if |ps| == 0 then []
    else AllSamplePoints(m, ps[..|ps| - 1], start, ts) + SamplePoints(m, ps[|ps| - 1], start, ts)
  }

  function StaticPoints(m: MetricId, r: CheckResult, start: nat, ts: nat): seq<DataPoint> {
    match m
    case State => [DataPoint(start, ts, Integer(r.state), map["nagios.state" := StateText(r.state)])]
    case ExecutionTime => [DataPoint(start, ts, Double(r.executionTime), map[])]
    case Latency => [DataPoint(start, ts, Double(r.latency), map[])]
    case LastCheck => if r.lastCheck > 0 then [DataPoint(start, ts, Integer(r.lastCheck), map[])] else []
    case _ => []
  }

  /** The samples of a check: none when its perfdata is empty or fails to parse. */
  function Samples(r: CheckResult): seq<P.Metric> {
    if r.perfData == "" then []
    else
      match P.Perfdata(r.perfData)
      case Parsed(ps) => ps
      case AllFailed(_) => []
  }

  function Points(m: MetricId, r: CheckResult, start: nat, ts: nat): seq<DataPoint> {
    StaticPoints(m, r, start, ts) + AllSamplePoints(m, Samples(r), start, ts)
  }

  /** The buffers that recording one check fills. */
  function Filled(config: Config, r: CheckResult, start: nat, ts: nat): Buffers {
    map m: MetricId | m in METRICS ::
      if m in config.enabled then Points(m, r, start, ts) else []
  }

  function SetIf(attributes: map<string, string>, enabled: bool, key: string, value: string): map<string, string> {
    if enabled then attributes[key := value] else attributes
  }

  /** `ResourceBuilder`, as the scrape uses it. */
  function Resource(config: Config, source: string, r: CheckResult): map<string, string> {
    var a := SetIf(map[], "host.name" in config.attributes, "host.name", r.hostName);
    var b := SetIf(a, "nagios.service.description" in config.attributes, "nagios.service.description", r.serviceDescription);
    var c := SetIf(b, "nagios.source" in config.attributes, "nagios.source", source);
    SetIf(c, r.checkCommand != "" && "nagios.check.command" in config.attributes, "nagios.check.command", r.checkCommand)
  }

  /** The output for one emitted check: a function of that check alone. */
  function EmitFor(config: Config, start: nat, source: string, r: CheckResult, now: nat): seq<ResourceMetrics> {
    Emission(config, Filled(config, r, start, Stamp(r, now)), Resource(config, source, r))
  }

  function Emissions(config: Config, start: nat, source: string, rs: seq<CheckResult>, now: nat): seq<ResourceMetrics> {
    if |rs| == 0 then []
    else Emissions(config, start, source, rs[..|rs| - 1], now) + EmitFor(config, start, source, rs[|rs| - 1], now)
  }

  /** The perfdata errors of the emitted checks. */
  function ParseErrors(rs: seq<CheckResult>): seq<seq<(string, P.TokenError)>> {
    if |rs| == 0 then []
    else
      var r := rs[|rs| - 1];
      ParseErrors(rs[..|rs| - 1]) +
      if r.perfData != "" && P.Perfdata(r.perfData).AllFailed? then [P.Perfdata(r.perfData).errors] else []
  }

  lemma ErrorsSnoc(rs: seq<CheckResult>, r: CheckResult)
    ensures ParseErrors(rs + [r]) == ParseErrors(rs) + ParseErrors([r])
  {
    hide P.Perfdata;
    assert (rs + [r])[..|rs|] == rs;
    assert [r][..0] == [];
  }

  lemma NoErrors()
    ensures ParseErrors([]) == []
  {
  }

  lemma ErrorsOfOne(r: CheckResult)
    ensures ParseErrors([r]) ==
      if r.perfData != "" && P.Perfdata(r.perfData).AllFailed? then [P.Perfdata(r.perfData).errors] else []
  {
    hide P.Perfdata;
    assert [r][..0] == [];
  }

  lemma FilledBy(config: Config, data: Buffers, r: CheckResult, start: nat, ts: nat)
    requires forall m: MetricId :: m in data && data[m] == if m in config.enabled then Points(m, r, start, ts) else []
    ensures data == Filled(config, r, start, ts)
  {
    hide Points;
    forall m: MetricId
      ensures m in Filled(config, r, start, ts)
    {
      EveryMetric(m);
    }
  }

  // ---- the scraper -----------------------------------------------------------------------------

  class NagiosScraper {
    const mb: MetricsBuilder
    const source: string
    var lastSeen: Cache

    ghost predicate Valid()
      reads this, mb
    {
      mb.Valid() && Empty(mb.data) && mb.metricsBuffer == []
    }

    constructor (config: Config, startTime: nat, source: string)
      ensures Valid() && fresh(mb) && lastSeen == map[]
      ensures mb.config == config && mb.startTime == startTime && this.source == source
    {
      mb := new MetricsBuilder(config, startTime);
      this.source := source;
      lastSeen := map[];
    }

    function Extra(m: MetricId, points: seq<DataPoint>): seq<DataPoint> {
      if m in mb.config.enabled then points else []
    }

    /** State, timing and last check of one result. */
    method RecordStatic(r: CheckResult, ts: nat)
      requires mb.Valid() && Empty(mb.data)
      modifies mb`data
      ensures mb.Valid()
      ensures forall m: MetricId :: m in mb.data && mb.data[m] == Extra(m, StaticPoints(m, r, mb.startTime, ts))
    {
      ghost var before := mb.data;
      RecordFirst(State, ts, Integer(r.state), map["nagios.state" := StateText(r.state)]);
      RecordFirst(ExecutionTime, ts, Double(r.executionTime), map[]);
      RecordFirst(Latency, ts, Double(r.latency), map[]);
      if r.lastCheck > 0 {
        RecordFirst(LastCheck, ts, Integer(r.lastCheck), map[]);
      }
      hide StateText;
      ghost var after := mb.data;
      forall m: MetricId
        ensures m in after && after[m] == Extra(m, StaticPoints(m, r, mb.startTime, ts))
      {
        EveryMetric(m);
      }
    }

    /** Recording into an empty buffer. */
    method RecordFirst(m: MetricId, ts: nat, value: Number, attributes: map<string, string>)
      requires mb.Valid() && m in mb.data && mb.data[m] == []
      modifies mb`data
      ensures mb.Valid()
      ensures mb.data == old(mb.data)[m := Extra(m, [DataPoint(mb.startTime, ts, value, attributes)])]
    {
      EmptyConcat([DataPoint(mb.startTime, ts, value, attributes)]);
      assert mb.data == mb.data[m := mb.data[m]];
      mb.RecordDataPoint(m, ts, value, attributes);
    }

    /** One field of a sample, if it is present. */
    method RecordField(m: MetricId, p: P.Metric, ts: nat)
      requires mb.Valid()
      modifies mb`data
      ensures mb.Valid()
      ensures m in old(mb.data) && mb.data == old(mb.data)[m := old(mb.data)[m] + Extra(m, SamplePoints(m, p, mb.startTime, ts))]
    {
      EmptyConcat(mb.data[m]);
      var value := FieldOf(m, p);
      if value.Some? {
        mb.RecordDataPoint(m, ts, Double(value.value), SampleAttributes(p));
      }
      assert mb.data == mb.data[m := mb.data[m]];
    }

    /** The value and the optional fields of one sample. */
    method RecordSample(p: P.Metric, ts: nat)
      requires mb.Valid()
      modifies mb`data
      ensures mb.Valid()
      ensures forall m: MetricId :: m in old(mb.data) && m in mb.data &&
                mb.data[m] == old(mb.data)[m] + Extra(m, SamplePoints(m, p, mb.startTime, ts))
    {
      hide SampleAttributes;
      RecordField(Value, p, ts);
      RecordField(Warning, p, ts);
      RecordField(Critical, p, ts);
      RecordField(Min, p, ts);
      RecordField(Max, p, ts);
      ghost var before, after := old(mb.data), mb.data;
      forall m: MetricId
        ensures m in before && m in after && after[m] == before[m] + Extra(m, SamplePoints(m, p, mb.startTime, ts))
      {
        EveryMetric(m);
        EmptyConcat(before[m]);
      }
    }

    /** All samples of a result, in order. */
    method RecordSamples(ps: seq<P.Metric>, ts: nat)
      requires mb.Valid()
      modifies mb`data
      ensures mb.Valid()
      ensures forall m: MetricId :: m in old(mb.data) && m in mb.data &&
                mb.data[m] == old(mb.data)[m] + Extra(m, AllSamplePoints(m, ps, mb.startTime, ts))
    {
      hide SamplePoints;
      ghost var before := mb.data;
      forall m: MetricId
        ensures m in before && before[m] + Extra(m, AllSamplePoints(m, ps[..0], mb.startTime, ts)) == before[m]
      {
        EmptyConcat(before[m]);
      }
      for i := 0 to |ps|
        invariant mb.Valid()
        invariant forall m: MetricId :: m in mb.data && m in before &&
                    mb.data[m] == before[m] + Extra(m, AllSamplePoints(m, ps[..i], mb.startTime, ts))
      {
        assert ps[..i + 1][..i] == ps[..i];
        ghost var earlier := mb.data;
        RecordSample(ps[i], ts);
        ghost var later := mb.data;
        forall m: MetricId
          ensures m in later && m in before && later[m] == before[m] + Extra(m, AllSamplePoints(m, ps[..i + 1], mb.startTime, ts))
        {
          Regroup(before[m], Extra(m, AllSamplePoints(m, ps[..i], mb.startTime, ts)), Extra(m, SamplePoints(m, ps[i], mb.startTime, ts)));
        }
      }
      assert ps[..|ps|] == ps;
    }

    /** Everything that one result records, in buffers that were empty. */
    method Record(r: CheckResult, ts: nat) returns (errors: seq<seq<(string, P.TokenError)>>)
      requires mb.Valid() && Empty(mb.data)
      modifies mb`data
      ensures mb.Valid() && mb.data == Filled(mb.config, r, mb.startTime, ts)
      ensures errors == ParseErrors([r])
    {
      hide P.Perfdata, StaticPoints, AllSamplePoints, Filled, ParseErrors, Empty;
      RecordStatic(r, ts);
      errors := [];
      var perfMetrics := [];
      if r.perfData != "" {
        var parsed := P.ParsePerfdata(r.perfData);
        match parsed {
          case Parsed(ps) => perfMetrics := ps;
          case AllFailed(es) => errors := [es];
        }
      }
      ErrorsOfOne(r);
      RecordSamples(perfMetrics, ts);
      FilledBy(mb.config, mb.data, r, mb.startTime, ts);
    }

    ghost predicate BetweenResults()
      reads this, mb
    {
      mb.Valid() && Empty(mb.data)
    }

    /** The body of the loop: one result is skipped, or remembered, recorded and emitted. */
    method ScrapeResult(result: CheckResult, now: nat) returns (errors: seq<seq<(string, P.TokenError)>>)
      requires BetweenResults()
      modifies this, mb
      ensures BetweenResults()
      ensures lastSeen == Remember(old(lastSeen), result)
      ensures Unchanged(old(lastSeen), result) ==> mb.metricsBuffer == old(mb.metricsBuffer) && errors == []
      ensures !Unchanged(old(lastSeen), result) ==>
        && mb.metricsBuffer == old(mb.metricsBuffer) + EmitFor(mb.config, mb.startTime, source, result, now)
        && errors == ParseErrors([result])
    {
      hide Key, Nanos, Resource, Emission, Filled, ParseErrors, Empty;
      if result.lastCheck > 0 {
        var key := Key(result);
        if key in lastSeen && lastSeen[key] == result.lastCheck {
          assert lastSeen == lastSeen[key := result.lastCheck];
          return [];
        }
        lastSeen := lastSeen[key := result.lastCheck];
      }
      errors := Record(result, Stamp(result, now));
      mb.EmitForResource(Resource(mb.config, source, result));
    }

    /**
      `scrape`, with the collected results (or the failure to collect) and the clock as inputs:
      a failure changes nothing; otherwise the cache advances over the whole batch and each
      result kept yields what it alone determines, in order.
     */
    method Scrape(collected: Result<seq<CheckResult>, string>, now: nat)
        returns (metrics: seq<ResourceMetrics>, err: Option<string>, errs: seq<seq<(string, P.TokenError)>>)
      requires Valid()
      modifies this, mb
      ensures Valid()
      ensures collected.Err? ==> metrics == [] && err == Some(collected.error) && errs == [] && lastSeen == old(lastSeen)
      ensures collected.Ok? ==>
        && err == None
        && lastSeen == CacheAfter(old(lastSeen), collected.value)
        && metrics == Emissions(mb.config, mb.startTime, source, Kept(old(lastSeen), collected.value), now)
        && errs == ParseErrors(Kept(old(lastSeen), collected.value))
    {
      hide Remember, Unchanged, EmitFor, Emission, ParseErrors, Empty;
      NoErrors();
      if collected.Err? {
        return [], Some(collected.error), [];
      }
      var results := collected.value;
      errs := [];
      err := None;
      if |results| == 0 {
        return [], None, [];
      }
      ghost var kept := [];
      for i := 0 to |results|
        invariant BetweenResults()
        invariant lastSeen == CacheAfter(old(lastSeen), results[..i])
        invariant kept == Kept(old(lastSeen), results[..i])
        invariant mb.metricsBuffer == Emissions(mb.config, mb.startTime, source, kept, now)
        invariant errs == ParseErrors(kept)
      {
        assert results[..i + 1][..i] == results[..i];
        ErrorsSnoc(kept, results[i]);
        EmptyConcat(kept);
        EmptyConcat(errs);
        ghost var skipped := Unchanged(lastSeen, results[i]);
        var failures := ScrapeResult(results[i], now);
        errs := errs + failures;
        kept := kept + if skipped then [] else [results[i]];
      }
      assert results[..|results|] == results;
      metrics := mb.Emit();
    }
  }
}

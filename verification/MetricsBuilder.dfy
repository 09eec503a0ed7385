/**
  The metrics builder: nine data point buffers that are filled for one resource, moved out
  into it and emptied, and the resources accumulated for one scrape.
 */
module MetricsBuilders {
  import opened Text
  import opened Numerals

  datatype MetricId =
    | ExecutionTime | LastCheck | Latency | State | Critical | Max | Min | Value | Warning

  datatype Number = Double(d: Decimal) | Integer(i: int)

  datatype DataPoint = DataPoint(start: nat, ts: nat, value: Number, attributes: map<string, string>)

  datatype MetricData = MetricData(id: MetricId, points: seq<DataPoint>)

  datatype ResourceMetrics = ResourceMetrics(attributes: map<string, string>, metrics: seq<MetricData>)

  /** Enabled metrics and resource attributes, and the filters on resource attribute values. */
  datatype Config = Config(
    enabled: set<MetricId>, attributes: set<string>,
    includes: map<string, string -> bool>, excludes: map<string, string -> bool>)

  const METRICS := {ExecutionTime, LastCheck, Latency, State, Critical, Max, Min, Value, Warning}

  lemma EveryMetric(m: MetricId)
    ensures m in METRICS
  {
  }

  type Buffers = map<MetricId, seq<DataPoint>>

  ghost predicate Total(data: Buffers) {
    forall m: MetricId :: m in data
  }

  ghost predicate Empty(data: Buffers) {
    forall m: MetricId :: m in data && data[m] == []
  }

  /** The metric that a buffer contributes to a resource, if any. */
  function Pack(config: Config, data: Buffers, m: MetricId): seq<MetricData> {
    if m in data && m in config.enabled && data[m] != [] then [MetricData(m, data[m])] else []
  }

  /** All metrics of a resource, in the builder's order. */
  function PackAll(config: Config, data: Buffers): seq<MetricData> {
    PackCheck(config, data) + PackPerfdata(config, data)
  }

  function PackCheck(config: Config, data: Buffers): seq<MetricData> {
    Pack(config, data, ExecutionTime) + Pack(config, data, LastCheck) + Pack(config, data, Latency) + Pack(config, data, State)
  }

  function PackPerfdata(config: Config, data: Buffers): seq<MetricData> {
    Pack(config, data, Critical) + Pack(config, data, Max) + Pack(config, data, Min) + Pack(config, data, Value)
    + Pack(config, data, Warning)
  }

  /** Whether a resource gets through the filters; one without a filtered attribute does. */
  predicate Passes(config: Config, attributes: map<string, string>) {
    && (forall a :: a in config.includes && a in attributes ==> config.includes[a](attributes[a]))
    && (forall a :: a in config.excludes && a in attributes ==> !config.excludes[a](attributes[a]))
  }

  /** What emitting some buffers for a resource adds to the output. */
  function Emission(config: Config, data: Buffers, attributes: map<string, string>): seq<ResourceMetrics> {
    var metrics := PackAll(config, data);
    if metrics != [] && Passes(config, attributes) then [ResourceMetrics(attributes, metrics)] else []
  }

  class MetricsBuilder {
    const config: Config
    const startTime: nat
    var data: Buffers
    var metricsBuffer: seq<ResourceMetrics>

    ghost predicate Valid()
      reads this
    {
      Total(data) && forall m: MetricId :: m in data && m !in config.enabled ==> data[m] == []
    }

    constructor (config: Config, startTime: nat)
      ensures Valid() && Empty(data) && metricsBuffer == []
      ensures this.config == config && this.startTime == startTime
    {
      this.config := config;
      this.startTime := startTime;
      data := map[ExecutionTime := [], LastCheck := [], Latency := [], State := [], Critical := [],
                  Max := [], Min := [], Value := [], Warning := []];
      metricsBuffer := [];
      new;
      forall m: MetricId
        ensures m in data && data[m] == []
      {
        EveryMetric(m);
      }
    }

    /** `recordDataPoint` of any of the nine metrics: a disabled one records nothing. */
    method RecordDataPoint(m: MetricId, ts: nat, value: Number, attributes: map<string, string>)
      requires Valid()
      modifies `data
      ensures Valid()
      ensures data == if m in config.enabled
                      then old(data)[m := old(data)[m] + [DataPoint(startTime, ts, value, attributes)]]
                      else old(data)
    {
      if m !in config.enabled {
        return;
      }
      data := data[m := data[m] + [DataPoint(startTime, ts, value, attributes)]];
    }

    /** `emit` of any of the nine metrics: its points move out and the buffer starts afresh. */
    method EmitMetric(m: MetricId, metrics: seq<MetricData>) returns (extended: seq<MetricData>)
      requires Valid()
      modifies `data
      ensures Valid() && data == old(data)[m := []]
      ensures extended == metrics + Pack(config, old(data), m)
      ensures forall n: MetricId :: n != m ==> Pack(config, data, n) == Pack(config, old(data), n)
    {
      extended := metrics;
      if m in config.enabled && |data[m]| > 0 {
        extended := extended + [MetricData(m, data[m])];
        data := data[m := []];
      } else {
        assert data == data[m := []];
      }
    }

    method EmitCheck() returns (metrics: seq<MetricData>)
      requires Valid()
      modifies `data
      ensures Valid() && data == old(data)[ExecutionTime := []][LastCheck := []][Latency := []][State := []]
      ensures metrics == PackCheck(config, old(data))
    {
      hide Pack;
      EmptyConcat(Pack(config, data, ExecutionTime));
      metrics := EmitMetric(ExecutionTime, []);
      metrics := EmitMetric(LastCheck, metrics);
      metrics := EmitMetric(Latency, metrics);
      metrics := EmitMetric(State, metrics);
    }

    method EmitPerfdata() returns (metrics: seq<MetricData>)
      requires Valid()
      modifies `data
      ensures Valid() && data == old(data)[Critical := []][Max := []][Min := []][Value := []][Warning := []]
      ensures metrics == PackPerfdata(config, old(data))
    {
      hide Pack;
      EmptyConcat(Pack(config, data, Critical));
      metrics := EmitMetric(Critical, []);
      metrics := EmitMetric(Max, metrics);
      metrics := EmitMetric(Min, metrics);
      metrics := EmitMetric(Value, metrics);
      metrics := EmitMetric(Warning, metrics);
    }

    /** The first half of `EmitForResource`: all nine buffers, one after the other. */
    method EmitAll() returns (metrics: seq<MetricData>)
      requires Valid()
      modifies `data
      ensures Valid() && Empty(data)
      ensures metrics == PackAll(config, old(data))
    {
      var check := EmitCheck();
      var perfdata := EmitPerfdata();
      metrics := check + perfdata;
      AllEmpty(data);
    }

    /** Whether some include filter rejects, or some exclude filter catches, the resource, in any order. */
    method Filtered(filters: map<string, string -> bool>, attributes: map<string, string>, dropOn: bool) returns (dropped: bool)
      ensures dropped <==> exists a :: a in filters && a in attributes && filters[a](attributes[a]) == dropOn
    {
      var keys := filters.Keys;
      while keys != {}
        invariant keys <= filters.Keys
        invariant forall a :: a in filters && a !in keys && a in attributes ==> filters[a](attributes[a]) != dropOn
        decreases |keys|
      {
        var a :| a in keys;
        if a in attributes && filters[a](attributes[a]) == dropOn {
          return true;
        }
        keys := keys - {a};
      }
      return false;
    }

    /**
      `EmitForResource`: whatever the filters decide, the buffers are empty afterwards; the
      output grows by the recorded points as one resource, or not at all.
     */
    method EmitForResource(attributes: map<string, string>)
      requires Valid()
      modifies this
      ensures Valid() && Empty(data)
      ensures metricsBuffer == old(metricsBuffer) + Emission(config, old(data), attributes)
    {
      hide PackAll;
      var metrics := EmitAll();
      var rejected := Filtered(config.includes, attributes, false);
      if rejected {
        EmptyConcat(metricsBuffer);
        return;
      }
      var caught := Filtered(config.excludes, attributes, true);
      if caught {
        EmptyConcat(metricsBuffer);
        return;
      }
      if |metrics| > 0 {
        metricsBuffer := metricsBuffer + [ResourceMetrics(attributes, metrics)];
      } else {
        EmptyConcat(metricsBuffer);
      }
    }

    /** `Emit`: the trailing emission adds a resource only when points were left unemitted. */
    method Emit() returns (metrics: seq<ResourceMetrics>)
      requires Valid()
      modifies this
      ensures Valid() && Empty(data) && metricsBuffer == []
      ensures metrics == old(metricsBuffer) + Emission(config, old(data), map[])
      ensures Empty(old(data)) ==> metrics == old(metricsBuffer)
    {
      EmptyEmits(config, data, map[]);
      EmptyConcat(metricsBuffer);
      hide Emission, Empty;
      EmitForResource(map[]);
      metrics := metricsBuffer;
      metricsBuffer := [];
    }
  }

  lemma AllEmpty(data: Buffers)
    requires Total(data) && forall m :: m in METRICS ==> data[m] == []
    ensures Empty(data)
  {
    forall m: MetricId
      ensures m in data && data[m] == []
    {
      EveryMetric(m);
    }
  }

  lemma EmptyEmits(config: Config, data: Buffers, attributes: map<string, string>)
    ensures Empty(data) ==> Emission(config, data, attributes) == []
  {
  }
}

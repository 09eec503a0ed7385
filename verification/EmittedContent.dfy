/**
  What an emitted resource holds: the points of its own check, under one timestamp.
 */
module EmittedContent {
  import opened Text
  import opened Numerals
  import opened Checks
  import opened MetricsBuilders
  import opened Scraper
  import P = Perfdata

  /** How many samples carry a field. */
  function Carrying(m: MetricId, ps: seq<P.Metric>): nat {
    if |ps| == 0 then 0
    else Carrying(m, ps[..|ps| - 1]) + if FieldOf(m, ps[|ps| - 1]).Some? then 1 else 0
  }

  /**
    A perfdata metric holds one point for each sample that carries its field, in the order
    of the samples: the point's position is the number of earlier samples that carry it.
   */
  lemma {:induction false} SamplePointsInOrder(m: MetricId, ps: seq<P.Metric>, start: nat, ts: nat)
    ensures |AllSamplePoints(m, ps, start, ts)| == Carrying(m, ps)
    ensures forall i :: 0 <= i < |ps| && FieldOf(m, ps[i]).Some? ==>
      && Carrying(m, ps[..i]) < Carrying(m, ps)
      && AllSamplePoints(m, ps, start, ts)[Carrying(m, ps[..i])]
         == DataPoint(start, ts, Double(FieldOf(m, ps[i]).value), SampleAttributes(ps[i]))
  {
    if |ps| > 0 {
      hide FieldOf, SampleAttributes;
      var n := |ps| - 1;
      var init := ps[..n];
      SamplePointsInOrder(m, init, start, ts);
      forall i | 0 <= i < |ps| && FieldOf(m, ps[i]).Some?
        ensures Carrying(m, ps[..i]) < Carrying(m, ps)
        ensures AllSamplePoints(m, ps, start, ts)[Carrying(m, ps[..i])]
             == DataPoint(start, ts, Double(FieldOf(m, ps[i]).value), SampleAttributes(ps[i]))
      {
        if i < n {
          assert init[i] == ps[i] && init[..i] == ps[..i];
        }
      }
    }
  }

  lemma {:induction false} AllValuesCarried(ps: seq<P.Metric>)
    ensures Carrying(Value, ps) == |ps|
  {
    if |ps| > 0 {
      AllValuesCarried(ps[..|ps| - 1]);
    }
  }

  ghost predicate Stamped(points: seq<DataPoint>, start: nat, ts: nat) {
    forall i :: 0 <= i < |points| ==> points[i].start == start && points[i].ts == ts
  }

  lemma {:induction false} SamplesStamped(m: MetricId, ps: seq<P.Metric>, start: nat, ts: nat)
    ensures Stamped(AllSamplePoints(m, ps, start, ts), start, ts)
  {
    if |ps| > 0 {
      hide FieldOf, SampleAttributes;
      SamplesStamped(m, ps[..|ps| - 1], start, ts);
    }
  }

  lemma PointsStamped(m: MetricId, r: CheckResult, start: nat, ts: nat)
    ensures Stamped(Points(m, r, start, ts), start, ts)
  {
    SamplesStamped(m, Samples(r), start, ts);
    hide Samples, AllSamplePoints;
  }

  /** Every metric of a resource is what packing some buffer gives. */
  lemma PackedMetric(config: Config, data: Buffers, x: MetricData)
    requires x in PackAll(config, data)
    ensures x.id in data && x.id in config.enabled && x.points == data[x.id] != []
  {
  }

  lemma PackHas(config: Config, data: Buffers, m: MetricId)
    requires m in data && m in config.enabled && data[m] != []
    ensures MetricData(m, data[m]) in PackAll(config, data)
  {
    EveryMetric(m);
    assert MetricData(m, data[m]) in Pack(config, data, m);
  }

  /** The place of a metric in the builder's order. */
  function Place(m: MetricId): nat {
    match m
    case ExecutionTime => 0
    case LastCheck => 1
    case Latency => 2
    case State => 3
    case Critical => 4
    case Max => 5
    case Min => 6
    case Value => 7
    case Warning => 8
  }

  /** Each metric at most once, in the builder's order. */
  ghost predicate InOrder(ms: seq<MetricData>) {
    forall i, j :: 0 <= i < j < |ms| ==> Place(ms[i].id) < Place(ms[j].id)
  }

  /** Metrics of a stretch of the builder's order. */
  ghost predicate Within(ms: seq<MetricData>, lo: nat, hi: nat) {
    InOrder(ms) && forall i :: 0 <= i < |ms| ==> lo <= Place(ms[i].id) < hi
  }

  lemma WithinConcat(a: seq<MetricData>, b: seq<MetricData>, lo: nat, mid: nat, hi: nat)
    requires Within(a, lo, mid) && Within(b, mid, hi) && lo <= mid <= hi
    ensures Within(a + b, lo, hi)
  {
    hide Place;
  }

  lemma PackWithin(config: Config, data: Buffers, m: MetricId)
    ensures Within(Pack(config, data, m), Place(m), Place(m) + 1)
  {
  }

  lemma PackedInOrder(config: Config, data: Buffers)
    ensures InOrder(PackAll(config, data))
  {
    hide Pack, Within, InOrder;
    CheckWithin(config, data);
    PerfdataWithin(config, data);
    WithinConcat(PackCheck(config, data), PackPerfdata(config, data), 0, 4, 9);
    WithinInOrder(PackAll(config, data), 0, 9);
  }

  lemma WithinInOrder(ms: seq<MetricData>, lo: nat, hi: nat)
    requires Within(ms, lo, hi)
    ensures InOrder(ms)
  {
  }

  lemma CheckWithin(config: Config, data: Buffers)
    ensures Within(PackCheck(config, data), 0, 4)
  {
    hide Pack, Within;
    PackWithin(config, data, ExecutionTime);
    PackWithin(config, data, LastCheck);
    PackWithin(config, data, Latency);
    PackWithin(config, data, State);
    var two := Pack(config, data, ExecutionTime) + Pack(config, data, LastCheck);
    WithinConcat(Pack(config, data, ExecutionTime), Pack(config, data, LastCheck), 0, 1, 2);
    WithinConcat(two, Pack(config, data, Latency), 0, 2, 3);
    WithinConcat(two + Pack(config, data, Latency), Pack(config, data, State), 0, 3, 4);
  }

  lemma PerfdataWithin(config: Config, data: Buffers)
    ensures Within(PackPerfdata(config, data), 4, 9)
  {
    hide Pack, Within;
    PackWithin(config, data, Critical);
    PackWithin(config, data, Max);
    PackWithin(config, data, Min);
    PackWithin(config, data, Value);
    PackWithin(config, data, Warning);
    var two := Pack(config, data, Critical) + Pack(config, data, Max);
    var three := two + Pack(config, data, Min);
    WithinConcat(Pack(config, data, Critical), Pack(config, data, Max), 4, 5, 6);
    WithinConcat(two, Pack(config, data, Min), 4, 6, 7);
    WithinConcat(three, Pack(config, data, Value), 4, 7, 8);
    WithinConcat(three + Pack(config, data, Value), Pack(config, data, Warning), 4, 8, 9);
  }

  /**
    The resource emitted for a check carries its attributes and, for each enabled metric with
    any points, exactly that check's points, once and in the builder's order; all its points
    carry one timestamp.
   */
  lemma EmittedIsOwn(config: Config, start: nat, source: string, r: CheckResult, now: nat)
    ensures var out := EmitFor(config, start, source, r, now);
      && |out| <= 1
      && (out != [] ==>
            && out[0].attributes == Resource(config, source, r)
            && InOrder(out[0].metrics)
            && (forall x :: x in out[0].metrics ==>
                  x.id in config.enabled && x.points == Points(x.id, r, start, Stamp(r, now)) && Stamped(x.points, start, Stamp(r, now)))
            && (forall m: MetricId :: m in config.enabled && Points(m, r, start, Stamp(r, now)) != [] ==>
                  MetricData(m, Points(m, r, start, Stamp(r, now))) in out[0].metrics))
  {
    hide Points, Resource, PackAll, Passes, Stamp, InOrder;
    var data := Filled(config, r, start, Stamp(r, now));
    PackedInOrder(config, data);
    forall x | x in PackAll(config, data)
      ensures x.id in config.enabled && x.points == Points(x.id, r, start, Stamp(r, now)) && Stamped(x.points, start, Stamp(r, now))
    {
      PackedMetric(config, data, x);
      PointsStamped(x.id, r, start, Stamp(r, now));
    }
    forall m: MetricId | m in config.enabled && Points(m, r, start, Stamp(r, now)) != []
      ensures MetricData(m, Points(m, r, start, Stamp(r, now))) in PackAll(config, data)
    {
      EveryMetric(m);
      PackHas(config, data, m);
    }
  }

  /** A check is emitted exactly when the filters pass its resource and some enabled metric has a point. */
  lemma EmittedWhen(config: Config, start: nat, source: string, r: CheckResult, now: nat)
    ensures EmitFor(config, start, source, r, now) != []
        <==> && Passes(config, Resource(config, source, r))
             && exists m: MetricId :: m in config.enabled && Points(m, r, start, Stamp(r, now)) != []
  {
    hide Points, Resource, PackAll, Passes, Stamp;
    var data := Filled(config, r, start, Stamp(r, now));
    if PackAll(config, data) != [] {
      var x := PackAll(config, data)[0];
      PackedMetric(config, data, x);
      assert x.id in config.enabled && Points(x.id, r, start, Stamp(r, now)) != [];
    }
    forall m: MetricId | m in config.enabled && Points(m, r, start, Stamp(r, now)) != []
      ensures PackAll(config, data) != []
    {
      EveryMetric(m);
      PackHas(config, data, m);
    }
  }

  /** A check with a check time is emitted alike whenever it is scraped. */
  lemma TimedIgnoresClock(config: Config, start: nat, source: string, r: CheckResult, now: nat, later: nat)
    requires r.lastCheck > 0
    ensures EmitFor(config, start, source, r, now) == EmitFor(config, start, source, r, later)
  {
  }

  /** The timestamp of a timed check is its check time in nanoseconds, up to the year 2554. */
  lemma NanosExact(seconds: nat)
    ensures Nanos(seconds) == seconds * 1_000_000_000 <==> seconds <= 18446744073
  {
  }
}

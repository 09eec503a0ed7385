/**
  The file ingestion mode end to end: what is emitted depends on what was written to the
  perfdata file, not on when it was polled.
 */
module Pipeline {
  import opened Text
  import opened Checks
  import opened LineFormats
  import opened MetricsBuilders
  import opened Scraper
  import opened Deduplication
  import EmittedContent
  import FileSource
  import Framing
  import R = PerfdataRoundTrip
  import T = FileTailer
  import D = TailerDelivery
  import L = TailerLoss

  // ---- from collects to scrapes ------------------------------------------------------------

  /** What a scrape gets from a collect of the service file: its records, or a failure to reopen it. */
  function Delivered(b: T.Batch, format: Format): Result<seq<CheckResult>, string> {
    if b.failed then Err(FileSource.READ_FAILURE) else Ok(ParseLines(b.lines, format, false))
  }

  lemma DeliveredBatch(b: T.Batch, format: Format)
    ensures Delivered(b, format).Err? <==> b.failed
    ensures b.failed ==> Delivered(b, format) == Err(FileSource.READ_FAILURE)
    ensures !b.failed ==> Delivered(b, format) == Ok(ParseLines(b.lines, format, false))
  {
    hide ParseLines;
  }

  /** One scrape for each collect. */
  function Scrapes(batches: seq<T.Batch>, format: Format, clocks: seq<nat>): seq<Scrape>
    requires |clocks| == |batches|
  {
    if |batches| == 0 then []
    else
      var n := |batches| - 1;
      Scrapes(batches[..n], format, clocks[..n]) + [Scrape(Delivered(batches[n], format), clocks[n])]
  }

  lemma ScrapesSnoc(batches: seq<T.Batch>, b: T.Batch, format: Format, clocks: seq<nat>, now: nat)
    requires |clocks| == |batches|
    ensures Scrapes(batches + [b], format, clocks + [now])
         == Scrapes(batches, format, clocks) + [Scrape(Delivered(b, format), now)]
  {
    hide Delivered;
    assert (batches + [b])[..|batches|] == batches;
    assert (clocks + [now])[..|clocks|] == clocks;
  }

  /** A cache and an output that are those of some scrapes. */
  ghost predicate Follows(config: Config, start: nat, source: string, scrapes: seq<Scrape>,
                          cache: Cache, emitted: seq<ResourceMetrics>) {
    cache == FinalCache(map[], scrapes) && emitted == Output(config, start, source, map[], scrapes)
  }

  lemma FollowsSnoc(config: Config, start: nat, source: string, scrapes: seq<Scrape>, next: Scrape)
    ensures FinalCache(map[], scrapes + [next]) == CacheAfter(FinalCache(map[], scrapes), Batch(next))
    ensures Output(config, start, source, map[], scrapes + [next])
         == Output(config, start, source, map[], scrapes)
          + Emissions(config, start, source, Kept(FinalCache(map[], scrapes), Batch(next)), next.now)
  {
    hide EmitFor, Remember;
    assert (scrapes + [next])[..|scrapes|] == scrapes;
  }

  /** A scrape that does what the scraper promises keeps following. */
  lemma FollowsNext(config: Config, start: nat, source: string, scrapes: seq<Scrape>, next: Scrape,
      cache: Cache, emitted: seq<ResourceMetrics>, after: Cache, metrics: seq<ResourceMetrics>)
    requires Follows(config, start, source, scrapes, cache, emitted)
    requires next.collected.Err? ==> metrics == [] && after == cache
    requires next.collected.Ok? ==>
      && after == CacheAfter(cache, next.collected.value)
      && metrics == Emissions(config, start, source, Kept(cache, next.collected.value), next.now)
    ensures Follows(config, start, source, scrapes + [next], after, emitted + metrics)
  {
    hide EmitFor, Remember, FinalCache, Output;
    FollowsSnoc(config, start, source, scrapes, next);
  }

  lemma StreamSnoc(batches: seq<T.Batch>, format: Format, clocks: seq<nat>)
    requires |clocks| == |batches| > 0
    ensures var n := |batches| - 1;
      Stream(Scrapes(batches, format, clocks))
      == Stream(Scrapes(batches[..n], format, clocks[..n]))
         + if batches[n].failed then [] else ParseLines(batches[n].lines, format, false)
  {
    hide ParseLines;
    var n := |batches| - 1;
    var init := Scrapes(batches[..n], format, clocks[..n]);
    assert (init + [Scrape(Delivered(batches[n], format), clocks[n])])[..|init|] == init;
  }

  lemma LinesSnoc(batches: seq<T.Batch>, format: Format)
    requires |batches| > 0
    ensures var n := |batches| - 1;
      ParseLines(D.AllLines(batches), format, false)
      == ParseLines(D.AllLines(batches[..n]), format, false) + ParseLines(batches[n].lines, format, false)
  {
    var n := |batches| - 1;
    ParseLinesConcat(D.AllLines(batches[..n]), batches[n].lines, format, false);
    hide ParseLines;
  }

  // ---- what a failing reopen loses ---------------------------------------------------------------

  /** The records of the collects that failed. */
  function DroppedIn(batches: seq<T.Batch>, format: Format): seq<CheckResult> {
    if |batches| == 0 then []
    else
      var n := |batches| - 1;
      DroppedIn(batches[..n], format) + if batches[n].failed then ParseLines(batches[n].lines, format, false) else []
  }

  lemma DroppedSnoc(batches: seq<T.Batch>, format: Format)
    requires |batches| > 0
    ensures var n := |batches| - 1;
      DroppedIn(batches, format)
      == DroppedIn(batches[..n], format) + if batches[n].failed then ParseLines(batches[n].lines, format, false) else []
  {
    hide ParseLines;
  }

  lemma SplitWhole<X>(whole: seq<X>, part: seq<X>, rest: seq<X>, x: seq<X>, kept: bool)
    requires multiset(whole) == multiset(part) + multiset(rest)
    ensures multiset(whole + x)
         == multiset(part + if kept then x else []) + multiset(rest + if kept then [] else x)
  {
    EmptyConcat(part);
    EmptyConcat(rest);
  }

  lemma {:induction false} StreamOfBatches(batches: seq<T.Batch>, format: Format, clocks: seq<nat>)
    requires |clocks| == |batches|
    ensures multiset(ParseLines(D.AllLines(batches), format, false))
         == multiset(Stream(Scrapes(batches, format, clocks))) + multiset(DroppedIn(batches, format))
    ensures DroppedIn(batches, format) == [] ==>
      Stream(Scrapes(batches, format, clocks)) == ParseLines(D.AllLines(batches), format, false)
  {
    if |batches| > 0 {
      hide ParseLines, Stream, Scrapes, D.AllLines, DroppedIn;
      var n := |batches| - 1;
      StreamOfBatches(batches[..n], format, clocks[..n]);
      StreamSnoc(batches, format, clocks);
      LinesSnoc(batches, format);
      DroppedSnoc(batches, format);
      SplitWhole(ParseLines(D.AllLines(batches[..n]), format, false), Stream(Scrapes(batches[..n], format, clocks[..n])),
                 DroppedIn(batches[..n], format), ParseLines(batches[n].lines, format, false), !batches[n].failed);
    }
  }

  /** The records of one collect, and whether they were lost because it failed. */
  datatype Part = Part(records: seq<CheckResult>, lost: bool)

  function PartsOf(batches: seq<T.Batch>, format: Format): seq<Part> {
    if |batches| == 0 then []
    else
      var n := |batches| - 1;
      PartsOf(batches[..n], format) + [Part(ParseLines(batches[n].lines, format, false), batches[n].failed)]
  }

  /** The records of all parts, in order. */
  function AllOf(parts: seq<Part>): seq<CheckResult> {
    if |parts| == 0 then [] else AllOf(parts[..|parts| - 1]) + parts[|parts| - 1].records
  }

  /** The records of the parts that were lost, or of those that were not, in order. */
  function Only(parts: seq<Part>, lost: bool): seq<CheckResult> {
    if |parts| == 0 then []
    else
      var n := |parts| - 1;
      Only(parts[..n], lost) + if parts[n].lost == lost then parts[n].records else []
  }

  lemma OnlySnoc(parts: seq<Part>, p: Part, lost: bool)
    ensures AllOf(parts + [p]) == AllOf(parts) + p.records
    ensures Only(parts + [p], lost) == Only(parts, lost) + if p.lost == lost then p.records else []
  {
    SnocParts(parts, p);
  }

  lemma {:induction false} StreamInParts(batches: seq<T.Batch>, format: Format, clocks: seq<nat>)
    requires |clocks| == |batches|
    ensures var parts := PartsOf(batches, format);
      && AllOf(parts) == ParseLines(D.AllLines(batches), format, false)
      && Only(parts, false) == Stream(Scrapes(batches, format, clocks))
      && Only(parts, true) == DroppedIn(batches, format)
  {
    if |batches| > 0 {
      hide ParseLines, Stream, Scrapes, D.AllLines, DroppedIn, AllOf, Only;
      var n := |batches| - 1;
      StreamInParts(batches[..n], format, clocks[..n]);
      StreamSnoc(batches, format, clocks);
      LinesSnoc(batches, format);
      DroppedSnoc(batches, format);
      var p := Part(ParseLines(batches[n].lines, format, false), batches[n].failed);
      OnlySnoc(PartsOf(batches[..n], format), p, true);
      OnlySnoc(PartsOf(batches[..n], format), p, false);
    } else {
      NothingInParts(format);
    }
  }

  lemma NothingInParts(format: Format)
    ensures ParseLines([], format, false) == [] && AllOf([]) == [] && Only([], true) == [] && Only([], false) == []
  {
  }

  /** Reopening fails in this state, with lines in hand that hold a record. */
  ghost predicate DropsRecord(s: T.State, a: T.Action, format: Format) {
    a == T.Open(false) && s.phase == T.Opening && ParseLines(s.current, format, false) != []
  }

  /** Whenever reopening fails, no record was drained before in that collect. */
  ghost predicate ReopensClean(s: T.State, run: seq<T.Action>, format: Format)
    decreases |run|
  {
    |run| > 0 ==> !DropsRecord(s, run[0], format) && ReopensClean(T.Step(s, run[0]), run[1..], format)
  }

  /** The records in hand whenever reopening fails. */
  function Dropped(s: T.State, run: seq<T.Action>, format: Format): seq<CheckResult>
    decreases |run|
  {
    if |run| == 0 then []
    else (if run[0] == T.Open(false) && s.phase == T.Opening then ParseLines(s.current, format, false) else [])
         + Dropped(T.Step(s, run[0]), run[1..], format)
  }

  lemma {:induction false} CleanDropsNothing(s: T.State, run: seq<T.Action>, format: Format)
    ensures ReopensClean(s, run, format) <==> Dropped(s, run, format) == []
    decreases |run|
  {
    if |run| > 0 {
      hide T.Step, ParseLines;
      CleanDropsNothing(T.Step(s, run[0]), run[1..], format);
    }
  }

  /** A step finishes no collect or one, which failed exactly when the step is a failing open. */
  lemma StepBatches(s: T.State, a: T.Action)
    ensures var t := T.Step(s, a);
      if a == T.Open(false) && s.phase == T.Opening then t.batches == s.batches + [T.Batch(s.current, true)]
      else t.batches == s.batches
           || (|t.batches| == |s.batches| + 1 && t.batches[..|s.batches|] == s.batches && !t.batches[|s.batches|].failed)
  {
    T.ReadFrame(s);
    hide T.ReadHeld, T.CheckRotation, T.EnvNext;
  }

  lemma StepDrops(s: T.State, a: T.Action, format: Format)
    ensures DroppedIn(T.Step(s, a).batches, format)
         == DroppedIn(s.batches, format)
          + if a == T.Open(false) && s.phase == T.Opening then ParseLines(s.current, format, false) else []
  {
    StepBatches(s, a);
    EmptyConcat(DroppedIn(s.batches, format));
    SnocParts(s.batches, T.Batch(s.current, true));
    hide T.Step, ParseLines;
  }

  lemma {:induction false} RunDrops(s: T.State, run: seq<T.Action>, format: Format)
    ensures DroppedIn(T.Exec(s, run).batches, format) == DroppedIn(s.batches, format) + Dropped(s, run, format)
    decreases |run|
  {
    if |run| == 0 {
      EmptyConcat(DroppedIn(s.batches, format));
    } else {
      hide T.Step, ParseLines, DroppedIn;
      var t := T.Step(s, run[0]);
      StepDrops(s, run[0], format);
      RunDrops(t, run[1..], format);
      Regroup(DroppedIn(s.batches, format),
              if run[0] == T.Open(false) && s.phase == T.Opening then ParseLines(s.current, format, false) else [],
              Dropped(t, run[1..], format));
    }
  }

  /**
    In every run, the records of the lines read fall into stretches, one for each collect: the
    scrapes see those of the collects that did not fail, in order, and the others are what was in
    hand whenever reopening failed; so the scrapes see it all exactly when every failing reopen
    was clean.
   */
  lemma StreamHasAllLines(w: T.World, run: seq<T.Action>, format: Format, clocks: seq<nat>) returns (parts: seq<Part>)
    requires |clocks| == |T.Exec(T.Init(w), run).batches|
    ensures var batches := T.Exec(T.Init(w), run).batches;
      && AllOf(parts) == ParseLines(D.AllLines(batches), format, false)
      && Only(parts, false) == Stream(Scrapes(batches, format, clocks))
      && Only(parts, true) == Dropped(T.Init(w), run, format)
      && multiset(ParseLines(D.AllLines(batches), format, false))
         == multiset(Stream(Scrapes(batches, format, clocks))) + multiset(Dropped(T.Init(w), run, format))
      && (Stream(Scrapes(batches, format, clocks)) == ParseLines(D.AllLines(batches), format, false)
          <==> ReopensClean(T.Init(w), run, format))
  {
    var batches := T.Exec(T.Init(w), run).batches;
    hide T.Exec, ParseLines, Stream, Scrapes, D.AllLines, Dropped, ReopensClean, AllOf, Only, PartsOf;
    parts := PartsOf(batches, format);
    StreamInParts(batches, format, clocks);
    StreamOfBatches(batches, format, clocks);
    RunDrops(T.Init(w), run, format);
    CleanDropsNothing(T.Init(w), run, format);
    EmptyConcat(Dropped(T.Init(w), run, format));
    PartOfWhole(ParseLines(D.AllLines(batches), format, false), Stream(Scrapes(batches, format, clocks)),
                Dropped(T.Init(w), run, format));
  }

  lemma PartOfWhole<X>(whole: seq<X>, part: seq<X>, rest: seq<X>)
    requires multiset(whole) == multiset(part) + multiset(rest)
    ensures whole == part ==> rest == []
  {
    assert |multiset(whole)| == |whole| && |multiset(part)| == |part| && |multiset(rest)| == |rest|;
  }

  lemma {:induction false} CleanConcat(s: T.State, a: seq<T.Action>, b: seq<T.Action>, format: Format)
    ensures ReopensClean(s, a + b, format) <==> ReopensClean(s, a, format) && ReopensClean(T.Exec(s, a), b, format)
    decreases |a|
  {
    if |a| == 0 {
      EmptyConcat(b);
    } else {
      hide T.Step, DropsRecord;
      CleanConcat(T.Step(s, a[0]), a[1..], b, format);
      FirstOfConcat(a, b);
    }
  }

  lemma {:induction false} CleanWithoutFailure(s: T.State, run: seq<T.Action>, format: Format)
    requires T.Open(false) !in run
    ensures ReopensClean(s, run, format)
    decreases |run|
  {
    if |run| > 0 {
      hide T.Step, ParseLines;
      assert run[0] in run && forall a :: a in run[1..] ==> a in run;
      CleanWithoutFailure(T.Step(s, run[0]), run[1..], format);
    }
  }

  // ---- polling schedules -----------------------------------------------------------------------

  /**
    A run in which writers append whole lines, nothing is written to a file given up or taken
    away unopened, and the last collect began after the last write and met no failure. Earlier
    stat and open calls may fail.
   */
  ghost predicate FairRun(w: T.World, run: seq<T.Action>) {
    && T.WorldOK(w, None) && D.WholeLines(w)
    && L.LosslessRun(T.Init(w), run) && (forall i :: 0 <= i < |run| ==> D.WritesLines(run[i]))
    && D.CaughtUp(T.Exec(T.Init(w), run))
  }

  /**
    Every run of whole lines without loss becomes a fair one when the tailer is left alone for a
    while, which drops no more records.
   */
  lemma FairRunsAbound(w: T.World, run: seq<T.Action>, format: Format)
    requires T.WorldOK(w, None) && D.WholeLines(w)
    requires L.LosslessRun(T.Init(w), run) && forall i :: 0 <= i < |run| ==> D.WritesLines(run[i])
    ensures var s := T.Exec(T.Init(w), run);
      && (s.phase == T.Seeking ==> s.file.Some?)
      && FairRun(w, run + D.CatchUp(s))
      && (ReopensClean(T.Init(w), run + D.CatchUp(s), format) <==> ReopensClean(T.Init(w), run, format))
  {
    hide T.Exec, L.LosslessRun, D.CatchUp, T.WorldOK, D.WholeLines, D.CaughtUp, D.WritesLines, ReopensClean;
    var s := T.Exec(T.Init(w), run);
    L.QuietLosslessReadsAll(w, run);
    D.CatchUpWrites(s);
    CleanConcat(T.Init(w), run, D.CatchUp(s), format);
    CleanWithoutFailure(s, D.CatchUp(s), format);
  }

  /**
    In a fair run, the scrapes see the records of what was written since the start, in order, but
    for the stretches in hand whenever reopening failed; they see them all exactly when every
    failing reopen was clean.
   */
  lemma EverythingDelivered(w: T.World, run: seq<T.Action>, format: Format, clocks: seq<nat>) returns (parts: seq<Part>)
    requires FairRun(w, run) && |clocks| == |T.Exec(T.Init(w), run).batches|
    ensures var s := T.Exec(T.Init(w), run);
      var written := ParseLines(T.ScanLines(D.History(s)), format, false);
      && AllOf(parts) == written
      && Only(parts, false) == Stream(Scrapes(s.batches, format, clocks))
      && Only(parts, true) == Dropped(T.Init(w), run, format)
      && multiset(written)
         == multiset(Stream(Scrapes(s.batches, format, clocks))) + multiset(Dropped(T.Init(w), run, format))
      && (Stream(Scrapes(s.batches, format, clocks)) == written <==> ReopensClean(T.Init(w), run, format))
  {
    hide T.Exec, D.History, T.ScanLines, D.AllLines, ParseLines, Stream, Scrapes, Dropped, ReopensClean, AllOf, Only;
    AllLinesRead(w, run);
    parts := StreamHasAllLines(w, run, format, clocks);
  }

  /** In a fair run, the lines of all collects are those written since the start. */
  lemma AllLinesRead(w: T.World, run: seq<T.Action>)
    requires FairRun(w, run)
    ensures var s := T.Exec(T.Init(w), run); D.AllLines(s.batches) == T.ScanLines(D.History(s))
  {
    var s := T.Exec(T.Init(w), run);
    L.ReadsAllIffLossless(w, run);
    D.LinesOfText(w, run);
    T.InitKeeps(w);
    T.ExecKeeps(T.Init(w), run);
    IdleIsEmpty(s);
    hide T.Exec, D.History, T.ScanLines, D.AllLines, T.Inv, L.LosslessRun;
    EmptyConcat(D.AllLines(s.batches));
  }

  lemma IdleIsEmpty(s: T.State)
    requires T.Inv(s)
    ensures s.phase == T.Idle ==> s.current == []
  {
    hide T.WorldOK, T.TextOf;
  }

  /** The records of all collects of a host file, which keeps its lines when reopening fails. */
  function HostStream(batches: seq<T.Batch>, format: Format): seq<CheckResult> {
    if |batches| == 0 then []
    else HostStream(batches[..|batches| - 1], format) + ParseLines(batches[|batches| - 1].lines, format, true)
  }

  lemma {:induction false} HostStreamOfLines(batches: seq<T.Batch>, format: Format)
    ensures HostStream(batches, format) == ParseLines(D.AllLines(batches), format, true)
  {
    if |batches| > 0 {
      var n := |batches| - 1;
      HostStreamOfLines(batches[..n], format);
      ParseLinesConcat(D.AllLines(batches[..n]), batches[n].lines, format, true);
      hide ParseLines;
    }
  }

  /** In a fair run of a host file, all records written since the start are collected, whatever failed before. */
  lemma HostRecordsDelivered(w: T.World, run: seq<T.Action>, format: Format)
    requires FairRun(w, run)
    ensures var s := T.Exec(T.Init(w), run);
      HostStream(s.batches, format) == ParseLines(T.ScanLines(D.History(s)), format, true)
  {
    hide T.Exec, D.History, T.ScanLines, D.AllLines, ParseLines, HostStream, FairRun;
    AllLinesRead(w, run);
    HostStreamOfLines(T.Exec(T.Init(w), run).batches, format);
  }

  // ---- what the clock can change ----------------------------------------------------------------

  /** Only the clocks of checks without a check time matter. */
  lemma {:induction false} OnlyUntimedClocks(config: Config, start: nat, source: string,
      rs: seq<CheckResult>, clocks: seq<nat>, others: seq<nat>)
    requires |rs| == |clocks| == |others|
    requires forall i :: 0 <= i < |rs| ==> rs[i].lastCheck > 0 || clocks[i] == others[i]
    ensures EmitEach(config, start, source, rs, clocks) == EmitEach(config, start, source, rs, others)
  {
    if |rs| > 0 {
      hide EmitFor;
      var n := |rs| - 1;
      OnlyUntimedClocks(config, start, source, rs[..n], clocks[..n], others[..n]);
      if rs[n].lastCheck > 0 {
        EmittedContent.TimedIgnoresClock(config, start, source, rs[n], clocks[n], others[n]);
      }
    }
  }

  /** A data point without its timestamp. */
  function Undated(p: DataPoint): DataPoint {
    p.(ts := 0)
  }

  function UndatedPoints(ps: seq<DataPoint>): (qs: seq<DataPoint>)
    ensures |qs| == |ps|
  {
    seq(|ps|, i requires 0 <= i < |ps| => Undated(ps[i]))
  }

  function UndatedMetrics(ms: seq<MetricData>): (r: seq<MetricData>)
    ensures |r| == |ms|
  {
    seq(|ms|, i requires 0 <= i < |ms| => MetricData(ms[i].id, UndatedPoints(ms[i].points)))
  }

  function UndatedResources(rs: seq<ResourceMetrics>): (r: seq<ResourceMetrics>)
    ensures |r| == |rs|
  {
    seq(|rs|, i requires 0 <= i < |rs| => ResourceMetrics(rs[i].attributes, UndatedMetrics(rs[i].metrics)))
  }

  lemma UndatedPointsConcat(a: seq<DataPoint>, b: seq<DataPoint>)
    ensures UndatedPoints(a + b) == UndatedPoints(a) + UndatedPoints(b)
  {
    hide Undated;
  }

  lemma UndatedMetricsConcat(a: seq<MetricData>, b: seq<MetricData>)
    ensures UndatedMetrics(a + b) == UndatedMetrics(a) + UndatedMetrics(b)
  {
    hide UndatedPoints;
  }

  lemma UndatedResourcesConcat(a: seq<ResourceMetrics>, b: seq<ResourceMetrics>)
    ensures UndatedResources(a + b) == UndatedResources(a) + UndatedResources(b)
  {
    hide UndatedMetrics;
  }

  lemma StaticUndated(m: MetricId, r: CheckResult, start: nat, now: nat, later: nat)
    ensures UndatedPoints(StaticPoints(m, r, start, now)) == UndatedPoints(StaticPoints(m, r, start, later))
  {
    hide StateText;
  }

  lemma SampleUndated(m: MetricId, p: EmittedContent.P.Metric, start: nat, now: nat, later: nat)
    ensures UndatedPoints(SamplePoints(m, p, start, now)) == UndatedPoints(SamplePoints(m, p, start, later))
  {
    hide SampleAttributes, FieldOf;
  }

  lemma {:induction false} SamplesUndated(m: MetricId, ps: seq<EmittedContent.P.Metric>, start: nat, now: nat, later: nat)
    ensures UndatedPoints(AllSamplePoints(m, ps, start, now)) == UndatedPoints(AllSamplePoints(m, ps, start, later))
  {
    if |ps| > 0 {
      hide UndatedPoints, SamplePoints;
      var n := |ps| - 1;
      SamplesUndated(m, ps[..n], start, now, later);
      SampleUndated(m, ps[n], start, now, later);
      UndatedPointsConcat(AllSamplePoints(m, ps[..n], start, now), SamplePoints(m, ps[n], start, now));
      UndatedPointsConcat(AllSamplePoints(m, ps[..n], start, later), SamplePoints(m, ps[n], start, later));
    }
  }

  lemma AllUndated(m: MetricId, r: CheckResult, start: nat, now: nat, later: nat)
    ensures UndatedPoints(Points(m, r, start, now)) == UndatedPoints(Points(m, r, start, later))
  {
    hide UndatedPoints, StaticPoints, AllSamplePoints, Samples;
    StaticUndated(m, r, start, now, later);
    SamplesUndated(m, Samples(r), start, now, later);
    UndatedPointsConcat(StaticPoints(m, r, start, now), AllSamplePoints(m, Samples(r), start, now));
    UndatedPointsConcat(StaticPoints(m, r, start, later), AllSamplePoints(m, Samples(r), start, later));
  }

  /** Buffers that differ only in timestamps. */
  ghost predicate SameUndated(a: Buffers, b: Buffers) {
    forall m: MetricId :: m in a && m in b && UndatedPoints(a[m]) == UndatedPoints(b[m])
  }

  lemma FilledUndated(config: Config, r: CheckResult, start: nat, now: nat, later: nat)
    ensures SameUndated(Filled(config, r, start, now), Filled(config, r, start, later))
  {
    hide Points;
    forall m: MetricId
      ensures var a, b := Filled(config, r, start, now), Filled(config, r, start, later);
        m in a && m in b && UndatedPoints(a[m]) == UndatedPoints(b[m])
    {
      EveryMetric(m);
      AllUndated(m, r, start, now, later);
    }
  }

  lemma PackUndated(config: Config, a: Buffers, b: Buffers, m: MetricId)
    requires SameUndated(a, b)
    ensures UndatedMetrics(Pack(config, a, m)) == UndatedMetrics(Pack(config, b, m))
  {
    assert m in a && m in b && UndatedPoints(a[m]) == UndatedPoints(b[m]);
    assert |a[m]| == |UndatedPoints(a[m])| == |b[m]|;
    hide UndatedPoints;
  }

  lemma PackCheckUndated(config: Config, a: Buffers, b: Buffers)
    requires SameUndated(a, b)
    ensures UndatedMetrics(PackCheck(config, a)) == UndatedMetrics(PackCheck(config, b))
  {
    hide Pack, SameUndated, UndatedMetrics;
    forall m: MetricId
      ensures UndatedMetrics(Pack(config, a, m)) == UndatedMetrics(Pack(config, b, m))
    {
      PackUndated(config, a, b, m);
    }
    forall x: seq<MetricData>, y: seq<MetricData>
      ensures UndatedMetrics(x + y) == UndatedMetrics(x) + UndatedMetrics(y)
    {
      UndatedMetricsConcat(x, y);
    }
  }

  lemma PackPerfdataUndated(config: Config, a: Buffers, b: Buffers)
    requires SameUndated(a, b)
    ensures UndatedMetrics(PackPerfdata(config, a)) == UndatedMetrics(PackPerfdata(config, b))
  {
    hide Pack, SameUndated, UndatedMetrics;
    forall m: MetricId
      ensures UndatedMetrics(Pack(config, a, m)) == UndatedMetrics(Pack(config, b, m))
    {
      PackUndated(config, a, b, m);
    }
    forall x: seq<MetricData>, y: seq<MetricData>
      ensures UndatedMetrics(x + y) == UndatedMetrics(x) + UndatedMetrics(y)
    {
      UndatedMetricsConcat(x, y);
    }
  }

  lemma EmissionUndated(config: Config, a: Buffers, b: Buffers, attributes: map<string, string>)
    requires SameUndated(a, b)
    ensures UndatedResources(Emission(config, a, attributes)) == UndatedResources(Emission(config, b, attributes))
  {
    hide PackCheck, PackPerfdata, SameUndated, UndatedMetrics, Passes;
    PackCheckUndated(config, a, b);
    PackPerfdataUndated(config, a, b);
    UndatedMetricsConcat(PackCheck(config, a), PackPerfdata(config, a));
    UndatedMetricsConcat(PackCheck(config, b), PackPerfdata(config, b));
    assert |UndatedMetrics(PackAll(config, a))| == |UndatedMetrics(PackAll(config, b))|;
  }

  lemma ClockUndated(config: Config, start: nat, source: string, r: CheckResult, now: nat, later: nat)
    ensures UndatedResources(EmitFor(config, start, source, r, now)) == UndatedResources(EmitFor(config, start, source, r, later))
  {
    hide Filled, Emission, UndatedResources, Resource, SameUndated;
    FilledUndated(config, r, start, Stamp(r, now), Stamp(r, later));
    EmissionUndated(config, Filled(config, r, start, Stamp(r, now)), Filled(config, r, start, Stamp(r, later)), Resource(config, source, r));
  }

  /** Whatever the clock readings, the output is the same but for the timestamps of data points. */
  lemma {:induction false} ClocksOnlyDate(config: Config, start: nat, source: string,
      rs: seq<CheckResult>, clocks: seq<nat>, others: seq<nat>)
    requires |rs| == |clocks| == |others|
    ensures UndatedResources(EmitEach(config, start, source, rs, clocks))
         == UndatedResources(EmitEach(config, start, source, rs, others))
  {
    if |rs| > 0 {
      hide EmitFor, UndatedResources;
      var n := |rs| - 1;
      ClocksOnlyDate(config, start, source, rs[..n], clocks[..n], others[..n]);
      ClockUndated(config, start, source, rs[n], clocks[n], others[n]);
      UndatedResourcesConcat(EmitEach(config, start, source, rs[..n], clocks[..n]), EmitFor(config, start, source, rs[n], clocks[n]));
      UndatedResourcesConcat(EmitEach(config, start, source, rs[..n], others[..n]), EmitFor(config, start, source, rs[n], others[n]));
    }
  }

  // ---- end to end ----------------------------------------------------------------------------------

  /** The output of all scrapes of a run, from an empty cache. */
  ghost function RunOutput(config: Config, start: nat, source: string, format: Format,
      w: T.World, run: seq<T.Action>, clocks: seq<nat>): seq<ResourceMetrics>
    requires |clocks| == |T.Exec(T.Init(w), run).batches|
  {
    Output(config, start, source, map[], Scrapes(T.Exec(T.Init(w), run).batches, format, clocks))
  }

  ghost function RunCache(format: Format, w: T.World, run: seq<T.Action>, clocks: seq<nat>): Cache
    requires |clocks| == |T.Exec(T.Init(w), run).batches|
  {
    FinalCache(map[], Scrapes(T.Exec(T.Init(w), run).batches, format, clocks))
  }

  /** The results kept, from an empty cache, of the text written since the start. */
  function KeptOf(format: Format, text: string): seq<CheckResult> {
    Kept(map[], ParseLines(T.ScanLines(text), format, false))
  }

  lemma {:induction false} ScrapesNow(batches: seq<T.Batch>, format: Format, clocks: seq<nat>)
    requires |clocks| == |batches|
    ensures var scrapes := Scrapes(batches, format, clocks);
      |scrapes| == |clocks| && forall i :: 0 <= i < |scrapes| ==> scrapes[i].now == clocks[i]
  {
    if |batches| > 0 {
      hide Delivered;
      var n := |batches| - 1;
      ScrapesNow(batches[..n], format, clocks[..n]);
    }
  }

  /**
    A fair run whose failing reopens were clean emits what its text determines: its records,
    de-duplicated as one stream, each under the clock reading of some scrape, in order.
   */
  lemma RunFollowsText(config: Config, start: nat, source: string, format: Format,
      w: T.World, run: seq<T.Action>, clocks: seq<nat>) returns (stamps: seq<nat>, polls: seq<nat>)
    requires FairRun(w, run) && ReopensClean(T.Init(w), run, format) && |clocks| == |T.Exec(T.Init(w), run).batches|
    ensures var text := D.History(T.Exec(T.Init(w), run));
      && RunCache(format, w, run, clocks) == CacheAfter(map[], ParseLines(T.ScanLines(text), format, false))
      && |stamps| == |KeptOf(format, text)| && ByPolls(stamps, clocks, polls)
      && RunOutput(config, start, source, format, w, run, clocks)
         == EmitEach(config, start, source, KeptOf(format, text), stamps)
  {
    var scrapes := Scrapes(T.Exec(T.Init(w), run).batches, format, clocks);
    var _ := EverythingDelivered(w, run, format, clocks);
    hide T.Exec, FairRun, ReopensClean, Dropped, D.History, T.ScanLines, ParseLines, Stream, Scrapes, Kept, CacheAfter, Output,
      FinalCache, EmitEach, Clocks, Deduplication.Polls, ByPolls;
    ScrapesFollowStream(config, start, source, map[], scrapes);
    ScrapesNow(T.Exec(T.Init(w), run).batches, format, clocks);
    StampsByPolls(map[], scrapes, clocks);
    stamps, polls := Clocks(map[], scrapes), Polls(map[], scrapes);
  }

  /**
    Polling does not matter: two fair runs over the same text whose failing reopens were clean,
    whatever their worlds, rotations, schedules and failures, end with the same cache and emit the
    same resources, but for the timestamps of checks without a check time.
   */
  lemma PollingIndependence(config: Config, start: nat, source: string, format: Format,
      w: T.World, run: seq<T.Action>, clocks: seq<nat>, v: T.World, other: seq<T.Action>, others: seq<nat>)
    requires FairRun(w, run) && ReopensClean(T.Init(w), run, format) && |clocks| == |T.Exec(T.Init(w), run).batches|
    requires FairRun(v, other) && ReopensClean(T.Init(v), other, format) && |others| == |T.Exec(T.Init(v), other).batches|
    requires D.History(T.Exec(T.Init(w), run)) == D.History(T.Exec(T.Init(v), other))
    ensures RunCache(format, w, run, clocks) == RunCache(format, v, other, others)
    ensures UndatedResources(RunOutput(config, start, source, format, w, run, clocks))
         == UndatedResources(RunOutput(config, start, source, format, v, other, others))
    ensures var rs := ParseLines(T.ScanLines(D.History(T.Exec(T.Init(w), run))), format, false);
      (forall r :: r in rs ==> r.lastCheck > 0) ==>
        RunOutput(config, start, source, format, w, run, clocks) == RunOutput(config, start, source, format, v, other, others)
  {
    hide T.Exec, FairRun, ReopensClean, D.History, T.ScanLines, ParseLines, EmitEach, RunOutput, RunCache, CacheAfter,
      UndatedResources, Kept, ByPolls;
    var text := D.History(T.Exec(T.Init(w), run));
    var stamps, _ := RunFollowsText(config, start, source, format, w, run, clocks);
    var dates, _ := RunFollowsText(config, start, source, format, v, other, others);
    ClocksOnlyDate(config, start, source, KeptOf(format, text), stamps, dates);
    var rs := ParseLines(T.ScanLines(text), format, false);
    if forall r :: r in rs ==> r.lastCheck > 0 {
      KeptAreSome(map[], rs);
      OnlyUntimedClocks(config, start, source, KeptOf(format, text), stamps, dates);
    }
  }

  /**
    In particular, two schedules over the same doings of writers and rotation tools: only when
    the tailer started counts.
   */
  lemma SchedulesAgree(config: Config, start: nat, source: string, format: Format,
      w: T.World, run: seq<T.Action>, clocks: seq<nat>, other: seq<T.Action>, others: seq<nat>)
    requires FairRun(w, run) && ReopensClean(T.Init(w), run, format) && |clocks| == |T.Exec(T.Init(w), run).batches|
    requires FairRun(w, other) && ReopensClean(T.Init(w), other, format) && |others| == |T.Exec(T.Init(w), other).batches|
    requires D.Trace(T.Init(w), run) == D.Trace(T.Init(w), other)
    ensures RunCache(format, w, run, clocks) == RunCache(format, w, other, others)
    ensures UndatedResources(RunOutput(config, start, source, format, w, run, clocks))
         == UndatedResources(RunOutput(config, start, source, format, w, other, others))
  {
    hide T.Exec, FairRun, ReopensClean, D.History, D.Trace, RunOutput, RunCache, UndatedResources, ParseLines, T.ScanLines;
    D.HistoryFromTrace(w, run, other);
    PollingIndependence(config, start, source, format, w, run, clocks, w, other, others);
  }

  lemma {:induction false} KeptAreSome(cache: Cache, rs: seq<CheckResult>)
    ensures forall r :: r in Kept(cache, rs) ==> r in rs
  {
    if |rs| > 0 {
      hide Unchanged, CacheAfter;
      KeptAreSome(cache, rs[..|rs| - 1]);
      Unsnoc(rs);
    }
  }

  /**
    From the results written to those emitted: when the text of a fair run is what Nagios writes
    for a list of results, the run emits those of them that arrive and do not repeat the previous
    check time of their check, in order and once each.
   */
  lemma WrittenIsEmitted(config: Config, start: nat, source: string, xs: seq<Framing.Written>,
      w: T.World, run: seq<T.Action>, clocks: seq<nat>) returns (stamps: seq<nat>, polls: seq<nat>)
    requires FairRun(w, run) && ReopensClean(T.Init(w), run, Default) && |clocks| == |T.Exec(T.Init(w), run).batches|
    requires Framing.AllPrintable(xs) && D.History(T.Exec(T.Init(w), run)) == Framing.FileText(xs, false)
    ensures var arrived := Framing.AllArriving(xs, false);
      && |stamps| == |WithoutRepeats(arrived, |arrived|)| && ByPolls(stamps, clocks, polls)
      && RunCache(Default, w, run, clocks) == CacheAfter(map[], arrived)
      && RunOutput(config, start, source, Default, w, run, clocks)
         == EmitEach(config, start, source, WithoutRepeats(arrived, |arrived|), stamps)
  {
    hide T.Exec, FairRun, ReopensClean, D.History, T.ScanLines, ParseLines, EmitEach, RunOutput, RunCache, CacheAfter, Kept,
      WithoutRepeats, ByPolls, Framing.AllPrintable, Framing.FileText, Framing.AllArriving;
    stamps, polls := RunFollowsText(config, start, source, Default, w, run, clocks);
    Framing.FileArrives(xs, false);
    EmittedWithoutRepeats(Framing.AllArriving(xs, false));
  }

  /** The same for a PNP4Nagios file, in which every result arrives. */
  lemma ReportsAreEmitted(config: Config, start: nat, source: string, ps: seq<Framing.Report>,
      w: T.World, run: seq<T.Action>, clocks: seq<nat>) returns (stamps: seq<nat>, polls: seq<nat>)
    requires FairRun(w, run) && ReopensClean(T.Init(w), run, Pnp4Nagios) && |clocks| == |T.Exec(T.Init(w), run).batches|
    requires Framing.ValidReports(ps, false)
    requires D.History(T.Exec(T.Init(w), run)) == Framing.LinesText(Framing.PnpLines(ps))
    ensures var arrived := Framing.Records(ps);
      && |stamps| == |WithoutRepeats(arrived, |arrived|)| && ByPolls(stamps, clocks, polls)
      && RunCache(Pnp4Nagios, w, run, clocks) == CacheAfter(map[], arrived)
      && RunOutput(config, start, source, Pnp4Nagios, w, run, clocks)
         == EmitEach(config, start, source, WithoutRepeats(arrived, |arrived|), stamps)
  {
    hide T.Exec, FairRun, ReopensClean, D.History, T.ScanLines, ParseLines, EmitEach, RunOutput, RunCache, CacheAfter, Kept,
      WithoutRepeats, ByPolls, Framing.ValidReports, Framing.LinesText;
    stamps, polls := RunFollowsText(config, start, source, Pnp4Nagios, w, run, clocks);
    Framing.PnpFileArrives(ps, false);
    EmittedWithoutRepeats(Framing.Records(ps));
  }

  // ---- from samples to data points -------------------------------------------------------------------

  lemma {:induction false} MeaningAt(ms: seq<R.Sample>, i: nat)
    requires R.ValidSamples(ms) && i < |ms|
    ensures R.MeaningAll(ms)[i] == R.SampleMeaning(ms[i])
  {
    hide R.SampleMeaning;
    if i < |ms| - 1 {
      MeaningAt(ms[..|ms| - 1], i);
    }
  }

  lemma SamplesOf(r: CheckResult, ms: seq<R.Sample>)
    requires R.ValidSamples(ms) && Framing.CleanNames(ms) && r.perfData == R.SpellPerfdata(ms)
    ensures Samples(r) == R.MeaningAll(ms)
  {
    hide R.SpellPerfdata, EmittedContent.P.Perfdata, Framing.CleanNames;
    Framing.SamplesTrimmed(ms);
    Framing.SamplesRead(ms);
  }

  lemma SampleMetric(m: MetricId, p: EmittedContent.P.Metric, r: CheckResult, start: nat, ts: nat)
    requires FieldOf(m, p).Some?
    ensures Points(m, r, start, ts) == AllSamplePoints(m, Samples(r), start, ts)
  {
    hide AllSamplePoints, Samples;
    EmptyConcat(AllSamplePoints(m, Samples(r), start, ts));
  }

  lemma EmittedMetric(config: Config, start: nat, source: string, r: CheckResult, now: nat, m: MetricId)
    requires m in config.enabled && Points(m, r, start, Stamp(r, now)) != [] && Passes(config, Resource(config, source, r))
    ensures var out := EmitFor(config, start, source, r, now);
      |out| == 1 && MetricData(m, Points(m, r, start, Stamp(r, now))) in out[0].metrics
  {
    EmittedContent.EmittedWhen(config, start, source, r, now);
    EmittedContent.EmittedIsOwn(config, start, source, r, now);
    hide EmitFor, Points, Passes, Resource, Stamp, EmittedContent.InOrder, EmittedContent.Stamped;
  }

  /** The point that a field of a sample becomes. */
  ghost function PointOf(m: MetricId, x: R.Sample, start: nat, ts: nat): DataPoint
    requires R.ValidSample(x) && FieldOf(m, R.SampleMeaning(x)).Some?
  {
    DataPoint(start, ts, Double(FieldOf(m, R.SampleMeaning(x)).value),
              map["nagios.perfdata.label" := x.name, "nagios.perfdata.unit" := EmittedContent.P.OTelUnit(x.uom)])
  }

  /** A resource with a point at a place of a metric. */
  ghost predicate HasPoint(x: ResourceMetrics, m: MetricId, n: nat, point: DataPoint) {
    exists points :: MetricData(m, points) in x.metrics && n < |points| && points[n] == point
  }

  lemma PointAt(r: CheckResult, ms: seq<R.Sample>, m: MetricId, i: nat, start: nat, ts: nat)
    requires R.ValidSamples(ms) && Framing.CleanNames(ms) && r.perfData == R.SpellPerfdata(ms)
    requires i < |ms| && FieldOf(m, R.SampleMeaning(ms[i])).Some?
    ensures var points, n := Points(m, r, start, ts), EmittedContent.Carrying(m, R.MeaningAll(ms)[..i]);
      n < |points| && points[n] == PointOf(m, ms[i], start, ts)
  {
    assert R.ValidSample(ms[i]);
    hide FieldOf, R.MeaningAll, R.SpellPerfdata, AllSamplePoints, EmittedContent.Carrying, EmittedContent.P.OTelUnit,
      R.ValidSamples, Framing.CleanNames, Points, R.ValidSample, R.LimitMeaning, R.OptionMeaning;
    SamplesOf(r, ms);
    MeaningAt(ms, i);
    SampleMetric(m, R.SampleMeaning(ms[i]), r, start, ts);
    EmittedContent.SamplePointsInOrder(m, R.MeaningAll(ms), start, ts);
  }

  /**
    From a sample written to the data point emitted: each field that a sample carries is the value
    of a point of its metric, labelled with the sample's name and unit, at the position that the
    number of earlier samples with that field gives.
   */
  lemma SampleBecomesPoint(config: Config, start: nat, source: string, r: CheckResult, now: nat,
      ms: seq<R.Sample>, m: MetricId, i: nat)
    requires R.ValidSamples(ms) && Framing.CleanNames(ms) && r.perfData == R.SpellPerfdata(ms)
    requires i < |ms| && FieldOf(m, R.SampleMeaning(ms[i])).Some?
    requires m in config.enabled && Passes(config, Resource(config, source, r))
    ensures var out, n := EmitFor(config, start, source, r, now), EmittedContent.Carrying(m, R.MeaningAll(ms)[..i]);
      |out| == 1 && HasPoint(out[0], m, n, PointOf(m, ms[i], start, Stamp(r, now)))
  {
    assert R.ValidSample(ms[i]);
    hide FieldOf, EmitFor, Passes, Resource, Stamp, R.MeaningAll, R.SpellPerfdata, EmittedContent.Carrying, PointOf,
      R.ValidSamples, Framing.CleanNames, Points, R.ValidSample, R.SampleMeaning;
    PointAt(r, ms, m, i, start, Stamp(r, now));
    EmittedMetric(config, start, source, r, now, m);
  }
}

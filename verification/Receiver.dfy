/**
  The receiver in file mode as an object: a tailer and a scraper, polled again and again.
 */
module Receiver {
  import opened Text
  import opened Checks
  import opened MetricsBuilders
  import opened Scraper
  import opened Deduplication
  import Pipeline
  import FileSource
  import T = FileTailer
  import D = TailerDelivery
  import P = Perfdata

  class FileReceiver {
    const tailer: FileSource.Tailer
    const scraper: NagiosScraper
    // What all polls so far found, at which times, and what they emitted.
    ghost var scrapes: seq<Scrape>
    ghost var clocks: seq<nat>
    ghost var emitted: seq<ResourceMetrics>

    ghost function Repr(): set<object>
      reads tailer
    {
      {this, scraper, scraper.mb} + tailer.Repr()
    }

    /** The output side shares no object with the tailer. */
    ghost predicate Apart()
      reads tailer
    {
      this !in tailer.Repr() && scraper !in tailer.Repr() && scraper.mb !in tailer.Repr()
    }

    ghost predicate Recorded()
      reads this, tailer.service, scraper
    {
      && |clocks| == |tailer.service.model.batches| == |scrapes|
      && (tailer.host == null ==> scrapes == Pipeline.Scrapes(tailer.service.model.batches, tailer.format, clocks))
      && Pipeline.Follows(scraper.mb.config, scraper.mb.startTime, scraper.source, scrapes, scraper.lastSeen, emitted)
    }

    ghost predicate Valid()
      reads this, tailer, Repr()
    {
      Apart() && tailer.Ready() && scraper.Valid() && Recorded()
    }

    constructor (tailer: FileSource.Tailer, config: Config, startTime: nat, source: string)
      requires tailer.Ready() && tailer.service.model.batches == []
      ensures Valid() && this.tailer == tailer && emitted == [] && scraper.lastSeen == map[]
      ensures scraper.mb.config == config && scraper.mb.startTime == startTime && scraper.source == source
    {
      hide T.Inv;
      this.tailer := tailer;
      scraper := new NagiosScraper(config, startTime, source);
      scrapes, clocks, emitted := [], [], [];
    }

    /** Noting one more scrape, of the batch that a collect has just added. */
    ghost method Note(batches: seq<T.Batch>, next: Scrape, cache: Cache, metrics: seq<ResourceMetrics>)
      requires |clocks| == |scrapes| == |batches|
      requires tailer.host == null ==> scrapes == Pipeline.Scrapes(batches, tailer.format, clocks)
      requires Pipeline.Follows(scraper.mb.config, scraper.mb.startTime, scraper.source, scrapes, cache, emitted)
      requires tailer.service.model.batches == batches + [FileSource.Last(tailer.service.model.batches)]
      requires tailer.host == null ==>
        next.collected == Pipeline.Delivered(FileSource.Last(tailer.service.model.batches), tailer.format)
      requires next.collected.Err? ==> metrics == [] && scraper.lastSeen == cache
      requires next.collected.Ok? ==>
        && scraper.lastSeen == CacheAfter(cache, next.collected.value)
        && metrics == Emissions(scraper.mb.config, scraper.mb.startTime, scraper.source, Kept(cache, next.collected.value), next.now)
      modifies this
      ensures Recorded()
      ensures clocks == old(clocks) + [next.now] && emitted == old(emitted) + metrics
    {
      hide Pipeline.Follows, Pipeline.Scrapes, CacheAfter, Kept, Emissions, Pipeline.Delivered, FileSource.Last;
      Pipeline.FollowsNext(scraper.mb.config, scraper.mb.startTime, scraper.source, scrapes, next,
                           cache, emitted, scraper.lastSeen, metrics);
      Pipeline.ScrapesSnoc(batches, FileSource.Last(tailer.service.model.batches), tailer.format, clocks, next.now);
      scrapes, clocks, emitted := scrapes + [next], clocks + [next.now], emitted + metrics;
    }

    /**
      One scrape of the receiver: collecting the new records and emitting those that changed.
      The cache and the output so far are those of all scrapes taken together.
     */
    method Poll(gaps: FileSource.Gaps, statOk: bool, openOk: bool,
                hostGaps: FileSource.Gaps, hostStatOk: bool, hostOpenOk: bool, now: nat)
        returns (metrics: seq<ResourceMetrics>, err: Option<string>, errs: seq<seq<(string, P.TokenError)>>)
      requires Valid() && FileSource.EnvGaps(gaps) && FileSource.EnvGaps(hostGaps)
      modifies Repr()
      ensures Valid()
      ensures clocks == old(clocks) + [now] && emitted == old(emitted) + metrics
      ensures tailer.service.model
           == T.Exec(old(tailer.service.model), FileSource.CollectRun(old(tailer.service.model), gaps, statOk, openOk))
      ensures err.Some? <==> FileSource.Last(tailer.service.model.batches).failed
    {
      hide Pipeline.Follows, Pipeline.Scrapes, Pipeline.Delivered, T.Exec, T.Inv, FileSource.CollectRun, FileSource.EnvGaps,
        CacheAfter, Kept, Emissions;
      ghost var batches := tailer.service.model.batches;
      var collected := tailer.Collect(gaps, statOk, openOk, hostGaps, hostStatOk, hostOpenOk);
      Pipeline.DeliveredBatch(FileSource.Last(tailer.service.model.batches), tailer.format);
      ghost var cache := scraper.lastSeen;
      metrics, err, errs := scraper.Scrape(collected, now);
      Note(batches, Scrape(collected, now), cache, metrics);
    }
  }

  /**
    What a receiver of one service file has emitted, once it caught up, is determined by the
    text written since it started, unless a failing reopen dropped a record.
   */
  lemma EmittedFollowsText(r: FileReceiver, w: T.World, run: seq<T.Action>) returns (stamps: seq<nat>, polls: seq<nat>)
    requires r.Valid() && r.tailer.host == null
    requires r.tailer.service.model == T.Exec(T.Init(w), run) && Pipeline.FairRun(w, run)
    requires Pipeline.ReopensClean(T.Init(w), run, r.tailer.format)
    ensures var kept := Pipeline.KeptOf(r.tailer.format, D.History(r.tailer.service.model));
      && |stamps| == |kept| && ByPolls(stamps, r.clocks, polls)
      && r.emitted == EmitEach(r.scraper.mb.config, r.scraper.mb.startTime, r.scraper.source, kept, stamps)
  {
    hide T.Exec, Pipeline.FairRun, Pipeline.ReopensClean, ByPolls, Pipeline.KeptOf, D.History, EmitEach, Output, FinalCache, Pipeline.Scrapes;
    stamps, polls :=
      Pipeline.RunFollowsText(r.scraper.mb.config, r.scraper.mb.startTime, r.scraper.source, r.tailer.format, w, run, r.clocks);
  }
}

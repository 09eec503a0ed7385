/**
  What the de-duplication cache computes over the whole stream of results ever collected,
  and that batching the stream into scrapes does not matter.
 */
module Deduplication {
  import opened Text
  import opened Checks
  import opened MetricsBuilders
  import opened Scraper

  // ---- keys ------------------------------------------------------------------------------

  ghost predicate SameCheck(a: CheckResult, b: CheckResult) {
    a.hostName == b.hostName && a.serviceDescription == b.serviceDescription
  }

  /** The same key, cut at an earlier and at a later NUL. */
  ghost predicate CutLater(a: CheckResult, b: CheckResult, x: string) {
    b.hostName == a.hostName + [NUL] + x && a.serviceDescription == x + [NUL] + b.serviceDescription
  }

  lemma KeyOfLaterCut(a: CheckResult, b: CheckResult, x: string)
    requires CutLater(a, b, x)
    ensures Key(a) == Key(b)
  {
  }

  lemma LaterCut(a: CheckResult, b: CheckResult) returns (x: string)
    requires Key(a) == Key(b) && |a.hostName| < |b.hostName|
    ensures CutLater(a, b, x)
  {
    var k, m, n := Key(a), |a.hostName|, |b.hostName|;
    AroundSeparator(a.hostName, NUL, a.serviceDescription);
    AroundSeparator(b.hostName, NUL, b.serviceDescription);
    x := b.hostName[m + 1..];
    assert b.hostName == k[..n] && k[m] == NUL && k[n] == NUL;
    assert b.hostName == a.hostName + [NUL] + x;
    assert a.serviceDescription == k[m + 1..] == k[m + 1..n] + [k[n]] + k[n + 1..];
  }

  /**
    Two results share a cache key exactly when they are of the same check or their keys are one
    text cut at different NULs; without NUL in host names, keys are checks.
   */
  lemma KeysAreChecks(a: CheckResult, b: CheckResult)
    ensures Key(a) == Key(b) <==> SameCheck(a, b) || exists x :: CutLater(a, b, x) || CutLater(b, a, x)
    ensures NUL !in a.hostName && NUL !in b.hostName ==> (Key(a) == Key(b) <==> SameCheck(a, b))
  {
    if Key(a) == Key(b) {
      hide Key;
      if |a.hostName| < |b.hostName| {
        var x := LaterCut(a, b);
      } else if |b.hostName| < |a.hostName| {
        var x := LaterCut(b, a);
      } else {
        SameCut(a, b);
      }
    }
    forall x | CutLater(a, b, x)
      ensures Key(a) == Key(b)
    {
      KeyOfLaterCut(a, b, x);
    }
    forall x | CutLater(b, a, x)
      ensures Key(a) == Key(b)
    {
      KeyOfLaterCut(b, a, x);
    }
  }

  lemma SameCut(a: CheckResult, b: CheckResult)
    requires Key(a) == Key(b) && |a.hostName| == |b.hostName|
    ensures SameCheck(a, b)
  {
    AroundSeparator(a.hostName, NUL, a.serviceDescription);
    AroundSeparator(b.hostName, NUL, b.serviceDescription);
  }

  /** A key identifies its check among all checks exactly when neither name holds a NUL. */
  lemma KeyIdentifies(a: CheckResult)
    ensures (forall b :: Key(a) == Key(b) ==> SameCheck(a, b)) 
        <==> '\U{0000}' !in a.hostName && '\U{0000}' !in a.serviceDescription
  {
    hide Key;
    if NUL in a.hostName {
      var b := CutAtFirst(a);
    } else if NUL in a.serviceDescription {
      var b := CutInDescription(a);
    } else {
      forall b | Key(a) == Key(b)
        ensures SameCheck(a, b)
      {
        KeysAreChecks(a, b);
      }
    }
  }

  lemma CutAtFirst(a: CheckResult) returns (b: CheckResult)
    requires NUL in a.hostName
    ensures Key(a) == Key(b) && !SameCheck(a, b)
  {
    var i := Find(a.hostName, NUL);
    var x := a.hostName[i + 1..];
    b := a.(hostName := a.hostName[..i], serviceDescription := x + [NUL] + a.serviceDescription);
    KeyOfLaterCut(b, a, x);
  }

  lemma CutInDescription(a: CheckResult) returns (b: CheckResult)
    requires NUL in a.serviceDescription
    ensures Key(a) == Key(b) && !SameCheck(a, b)
  {
    var i := Find(a.serviceDescription, NUL);
    var x := a.serviceDescription[..i];
    b := a.(hostName := a.hostName + [NUL] + x, serviceDescription := a.serviceDescription[i + 1..]);
    KeyOfLaterCut(a, b, x);
  }

  /** These two checks share a key. */
  lemma KeysCollide(r: CheckResult)
    ensures Key(r.(hostName := "a", serviceDescription := ['b', NUL, 'c']))
         == Key(r.(hostName := ['a', NUL, 'b'], serviceDescription := "c"))
  {
  }

  // ---- the cache as a function of the stream -----------------------------------------------

  /** The last timed result of a key. */
  ghost predicate LastTimed(rs: seq<CheckResult>, key: string, i: nat) {
    && i < |rs| && rs[i].lastCheck > 0 && Key(rs[i]) == key
    && forall j :: i < j < |rs| && Key(rs[j]) == key ==> rs[j].lastCheck <= 0
  }

  lemma LastTimedInit(rs: seq<CheckResult>, key: string, i: nat)
    requires |rs| > 0 && !(rs[|rs| - 1].lastCheck > 0 && Key(rs[|rs| - 1]) == key)
    ensures LastTimed(rs, key, i) <==> LastTimed(rs[..|rs| - 1], key, i)
  {
    hide Key;
    var init := rs[..|rs| - 1];
    assert forall j :: 0 <= j < |init| ==> init[j] == rs[j];
  }

  /** The cache binds every key to the check time of its latest timed result, and nothing else. */
  lemma {:induction false} CacheIsLatest(rs: seq<CheckResult>, key: string)
    ensures key in CacheAfter(map[], rs) <==> exists i: nat :: LastTimed(rs, key, i)
    ensures forall i: nat :: LastTimed(rs, key, i) ==>
      key in CacheAfter(map[], rs) && CacheAfter(map[], rs)[key] == rs[i].lastCheck
  {
    if |rs| > 0 {
      hide Key;
      var n := |rs| - 1;
      CacheIsLatest(rs[..n], key);
      if rs[n].lastCheck > 0 && Key(rs[n]) == key {
        assert LastTimed(rs, key, n);
        assert forall i: nat :: LastTimed(rs, key, i) ==> i == n;
      } else {
        forall i: nat
          ensures LastTimed(rs, key, i) <==> LastTimed(rs[..n], key, i)
        {
          LastTimedInit(rs, key, i);
        }
      }
    }
  }

  /** A timed result whose check time is that of the previous timed result of its check. */
  ghost predicate Repeats(rs: seq<CheckResult>, n: nat) {
    n < |rs| && rs[n].lastCheck > 0 &&
    exists i: nat :: LastTimed(rs[..n], Key(rs[n]), i) && rs[i].lastCheck == rs[n].lastCheck
  }

  ghost function WithoutRepeats(rs: seq<CheckResult>, n: nat): seq<CheckResult>
    requires n <= |rs|
  {
    if n == 0 then [] else WithoutRepeats(rs, n - 1) + if Repeats(rs, n - 1) then [] else [rs[n - 1]]
  }

  lemma UnchangedIffRepeats(rs: seq<CheckResult>, n: nat)
    requires n < |rs|
    ensures Unchanged(CacheAfter(map[], rs[..n]), rs[n]) <==> Repeats(rs, n)
  {
    hide Key, CacheAfter;
    CacheIsLatest(rs[..n], Key(rs[n]));
    assert forall i: nat :: LastTimed(rs[..n], Key(rs[n]), i) ==> rs[..n][i] == rs[i];
  }

  lemma {:induction false} KeptPrefix(rs: seq<CheckResult>, n: nat)
    requires n <= |rs|
    ensures Kept(map[], rs[..n]) == WithoutRepeats(rs, n)
  {
    if n > 0 {
      hide CacheAfter, Unchanged, Repeats;
      KeptPrefix(rs, n - 1);
      assert rs[..n][..n - 1] == rs[..n - 1];
      UnchangedIffRepeats(rs, n - 1);
    }
  }

  /**
    De-duplication over the whole stream: the results emitted are those collected, in order,
    without the timed ones that repeat the check time of their check's previous timed result.
   */
  lemma EmittedWithoutRepeats(rs: seq<CheckResult>)
    ensures Kept(map[], rs) == WithoutRepeats(rs, |rs|)
  {
    KeptPrefix(rs, |rs|);
    assert rs[..|rs|] == rs;
  }

  // ---- check by check -------------------------------------------------------------------------

  /** The timed results of one check. */
  function ForCheck(rs: seq<CheckResult>, key: string): seq<CheckResult> {
    if |rs| == 0 then []
    else
      var r := rs[|rs| - 1];
      ForCheck(rs[..|rs| - 1], key) + if r.lastCheck > 0 && Key(r) == key then [r] else []
  }

  function Untimed(rs: seq<CheckResult>): seq<CheckResult> {
    if |rs| == 0 then []
    else
      var r := rs[|rs| - 1];
      Untimed(rs[..|rs| - 1]) + if r.lastCheck > 0 then [] else [r]
  }

  /** Dropping results that carry the same check time as the one before. */
  function Destutter(rs: seq<CheckResult>): seq<CheckResult> {
    if |rs| == 0 then []
    else
      var init, r := rs[..|rs| - 1], rs[|rs| - 1];
      Destutter(init) + if |init| > 0 && init[|init| - 1].lastCheck == r.lastCheck then [] else [r]
  }

  lemma {:induction false} CacheOfCheck(rs: seq<CheckResult>, key: string)
    ensures var mine, cache := ForCheck(rs, key), CacheAfter(map[], rs);
      && (key in cache <==> mine != [])
      && (mine != [] ==> cache[key] == mine[|mine| - 1].lastCheck)
  {
    if |rs| > 0 {
      hide Key;
      CacheOfCheck(rs[..|rs| - 1], key);
      EmptyConcat(ForCheck(rs[..|rs| - 1], key));
    }
  }

  lemma ForCheckSnoc(rs: seq<CheckResult>, r: CheckResult, key: string)
    ensures ForCheck(rs + [r], key) == ForCheck(rs, key) + if r.lastCheck > 0 && Key(r) == key then [r] else []
    ensures Untimed(rs + [r]) == Untimed(rs) + if r.lastCheck > 0 then [] else [r]
  {
    hide Key;
    assert (rs + [r])[..|rs|] == rs;
  }

  lemma DestutterSnoc(rs: seq<CheckResult>, r: CheckResult)
    ensures Destutter(rs + [r]) == Destutter(rs) + if |rs| > 0 && rs[|rs| - 1].lastCheck == r.lastCheck then [] else [r]
  {
    assert (rs + [r])[..|rs|] == rs;
  }

  /**
    Per check, the emitted timed results are the collected ones with stuttering check times
    removed; results without a check time are all emitted.
   */
  lemma {:induction false} PerCheckDestuttered(rs: seq<CheckResult>, key: string)
    ensures ForCheck(Kept(map[], rs), key) == Destutter(ForCheck(rs, key))
    ensures Untimed(Kept(map[], rs)) == Untimed(rs)
  {
    if |rs| > 0 {
      var init, r := rs[..|rs| - 1], rs[|rs| - 1];
      PerCheckDestuttered(init, key);
      CacheOfCheck(init, key);
      Unsnoc(rs);
      hide Key, Destutter, ForCheck, Untimed, CacheAfter;
      ForCheckSnoc(Kept(map[], init), r, key);
      ForCheckSnoc(init, r, key);
      DestutterSnoc(ForCheck(init, key), r);
      EmptyConcat(Kept(map[], init));
      EmptyConcat(ForCheck(init, key));
      EmptyConcat(ForCheck(Kept(map[], init), key));
      EmptyConcat(Destutter(ForCheck(init, key)));
      EmptyConcat(Untimed(init));
    }
  }

  // ---- batching ---------------------------------------------------------------------------------

  lemma {:induction false} CacheConcat(cache: Cache, xs: seq<CheckResult>, ys: seq<CheckResult>)
    ensures CacheAfter(cache, xs + ys) == CacheAfter(CacheAfter(cache, xs), ys)
  {
    if |ys| == 0 {
      EmptyConcat(xs);
    } else {
      hide Remember;
      CacheConcat(cache, xs, ys[..|ys| - 1]);
      LastOfConcat(xs, ys);
    }
  }

  lemma {:induction false} KeptConcat(cache: Cache, xs: seq<CheckResult>, ys: seq<CheckResult>)
    ensures Kept(cache, xs + ys) == Kept(cache, xs) + Kept(CacheAfter(cache, xs), ys)
  {
    if |ys| == 0 {
      EmptyConcat(xs);
      EmptyConcat(Kept(cache, xs));
    } else {
      hide CacheAfter, Unchanged;
      var init := ys[..|ys| - 1];
      KeptConcat(cache, xs, init);
      CacheConcat(cache, xs, init);
      LastOfConcat(xs, ys);
      EmptyConcat(Kept(cache, xs + init));
      EmptyConcat(Kept(CacheAfter(cache, xs), init));
      Regroup(Kept(cache, xs), Kept(CacheAfter(cache, xs), init), [ys[|ys| - 1]]);
    }
  }

  lemma {:induction false} EmissionsConcat(config: Config, start: nat, source: string, xs: seq<CheckResult>, ys: seq<CheckResult>, now: nat)
    ensures Emissions(config, start, source, xs + ys, now)
         == Emissions(config, start, source, xs, now) + Emissions(config, start, source, ys, now)
  {
    if |ys| == 0 {
      EmptyConcat(xs);
      EmptyConcat(Emissions(config, start, source, xs, now));
    } else {
      hide EmitFor;
      var init := ys[..|ys| - 1];
      EmissionsConcat(config, start, source, xs, init, now);
      LastOfConcat(xs, ys);
      Regroup(Emissions(config, start, source, xs, now), Emissions(config, start, source, init, now),
              EmitFor(config, start, source, ys[|ys| - 1], now));
    }
  }

  /** One batch or two: the same cache and the same output. */
  lemma BatchingInvariance(config: Config, start: nat, source: string, cache: Cache, xs: seq<CheckResult>, ys: seq<CheckResult>, now: nat)
    ensures CacheAfter(cache, xs + ys) == CacheAfter(CacheAfter(cache, xs), ys)
    ensures Emissions(config, start, source, Kept(cache, xs + ys), now)
         == Emissions(config, start, source, Kept(cache, xs), now)
          + Emissions(config, start, source, Kept(CacheAfter(cache, xs), ys), now)
  {
    CacheConcat(cache, xs, ys);
    KeptConcat(cache, xs, ys);
    EmissionsConcat(config, start, source, Kept(cache, xs), Kept(CacheAfter(cache, xs), ys), now);
    hide Emissions, Kept, CacheAfter;
  }

  // ---- many scrapes --------------------------------------------------------------------------------

  /** What one scrape finds: the results collected, or a failure, and the clock. */
  datatype Scrape = Scrape(collected: Result<seq<CheckResult>, string>, now: nat)

  function Batch(s: Scrape): seq<CheckResult> {
    if s.collected.Ok? then s.collected.value else []
  }

  /** Everything ever collected. */
  function Stream(scrapes: seq<Scrape>): seq<CheckResult> {
    if |scrapes| == 0 then [] else Stream(scrapes[..|scrapes| - 1]) + Batch(scrapes[|scrapes| - 1])
  }

  function FinalCache(cache: Cache, scrapes: seq<Scrape>): Cache {
    if |scrapes| == 0 then cache else CacheAfter(FinalCache(cache, scrapes[..|scrapes| - 1]), Batch(scrapes[|scrapes| - 1]))
  }

  /** The output of all scrapes. */
  function Output(config: Config, start: nat, source: string, cache: Cache, scrapes: seq<Scrape>): seq<ResourceMetrics> {
    if |scrapes| == 0 then []
    else
      var init, s := scrapes[..|scrapes| - 1], scrapes[|scrapes| - 1];
      Output(config, start, source, cache, init)
      + Emissions(config, start, source, Kept(FinalCache(cache, init), Batch(s)), s.now)
  }

  /** The clock reading under which each kept result was emitted. */
  function Clocks(cache: Cache, scrapes: seq<Scrape>): seq<nat> {
    if |scrapes| == 0 then []
    else
      var init, s := scrapes[..|scrapes| - 1], scrapes[|scrapes| - 1];
      Clocks(cache, init) + Repeated(s.now, |Kept(FinalCache(cache, init), Batch(s))|)
  }

  function Repeated(now: nat, n: nat): (r: seq<nat>)
    ensures |r| == n && forall i :: 0 <= i < n ==> r[i] == now
  {
    seq(n, i => now)
  }

  /** Results emitted one by one, each under its own clock reading. */
  function EmitEach(config: Config, start: nat, source: string, rs: seq<CheckResult>, clocks: seq<nat>): seq<ResourceMetrics>
    requires |rs| == |clocks|
  {
    if |rs| == 0 then []
    else EmitEach(config, start, source, rs[..|rs| - 1], clocks[..|rs| - 1])
         + EmitFor(config, start, source, rs[|rs| - 1], clocks[|rs| - 1])
  }

  lemma EmitEachLast(config: Config, start: nat, source: string, rs: seq<CheckResult>, clocks: seq<nat>)
    requires |rs| == |clocks| > 0
    ensures var n := |rs| - 1;
      EmitEach(config, start, source, rs, clocks)
      == EmitEach(config, start, source, rs[..n], clocks[..n]) + EmitFor(config, start, source, rs[n], clocks[n])
  {
    hide EmitFor;
  }

  lemma EmitEachJoined(config: Config, start: nat, source: string,
      xs: seq<CheckResult>, cs: seq<nat>, ys: seq<CheckResult>, ds: seq<nat>)
    requires |xs| == |cs| && |ys| == |ds| > 0
    ensures var n := |ys| - 1;
      EmitEach(config, start, source, xs + ys, cs + ds)
      == EmitEach(config, start, source, xs + ys[..n], cs + ds[..n]) + EmitFor(config, start, source, ys[n], ds[n])
  {
    hide EmitFor, EmitEach;
    EmitEachLast(config, start, source, xs + ys, cs + ds);
    LastOfConcat(xs, ys);
    LastOfConcat(cs, ds);
  }

  lemma {:induction false} EmitEachConcat(config: Config, start: nat, source: string,
      xs: seq<CheckResult>, cs: seq<nat>, ys: seq<CheckResult>, ds: seq<nat>)
    requires |xs| == |cs| && |ys| == |ds|
    ensures EmitEach(config, start, source, xs + ys, cs + ds)
         == EmitEach(config, start, source, xs, cs) + EmitEach(config, start, source, ys, ds)
  {
    if |ys| == 0 {
      EmptyConcat(xs);
      EmptyConcat(cs);
      EmptyConcat(EmitEach(config, start, source, xs, cs));
    } else {
      hide EmitFor, EmitEach;
      var n := |ys| - 1;
      EmitEachConcat(config, start, source, xs, cs, ys[..n], ds[..n]);
      EmitEachJoined(config, start, source, xs, cs, ys, ds);
      EmitEachLast(config, start, source, ys, ds);
      Regroup(EmitEach(config, start, source, xs, cs), EmitEach(config, start, source, ys[..n], ds[..n]),
              EmitFor(config, start, source, ys[n], ds[n]));
    }
  }

  lemma {:induction false} EmissionsUnderOneClock(config: Config, start: nat, source: string, rs: seq<CheckResult>, now: nat)
    ensures Emissions(config, start, source, rs, now) == EmitEach(config, start, source, rs, Repeated(now, |rs|))
  {
    if |rs| > 0 {
      hide EmitFor;
      var n := |rs| - 1;
      EmissionsUnderOneClock(config, start, source, rs[..n], now);
      assert Repeated(now, |rs|)[..n] == Repeated(now, n);
    }
  }

  /**
    Any sequence of scrapes, failed and empty ones included, leaves the cache and emits the
    results that de-duplicating the whole stream at once does; only the clock is the scrape's.
   */
  lemma {:induction false} ScrapesFollowStream(config: Config, start: nat, source: string, cache: Cache, scrapes: seq<Scrape>)
    ensures FinalCache(cache, scrapes) == CacheAfter(cache, Stream(scrapes))
    ensures |Clocks(cache, scrapes)| == |Kept(cache, Stream(scrapes))|
    ensures Output(config, start, source, cache, scrapes)
         == EmitEach(config, start, source, Kept(cache, Stream(scrapes)), Clocks(cache, scrapes))
  {
    if |scrapes| > 0 {
      hide CacheAfter, Kept, Emissions, EmitEach, Batch;
      var init, s := scrapes[..|scrapes| - 1], scrapes[|scrapes| - 1];
      ScrapesFollowStream(config, start, source, cache, init);
      CacheConcat(cache, Stream(init), Batch(s));
      KeptConcat(cache, Stream(init), Batch(s));
      var kept := Kept(FinalCache(cache, init), Batch(s));
      EmissionsUnderOneClock(config, start, source, kept, s.now);
      EmitEachConcat(config, start, source, Kept(cache, Stream(init)), Clocks(cache, init), kept, Repeated(s.now, |kept|));
    }
  }

  /** Which scrape emitted each kept result. */
  function Polls(cache: Cache, scrapes: seq<Scrape>): seq<nat> {
    if |scrapes| == 0 then []
    else
      var n := |scrapes| - 1;
      Polls(cache, scrapes[..n]) + Repeated(n, |Kept(FinalCache(cache, scrapes[..n]), Batch(scrapes[n]))|)
  }

  /** Stamps that are the clock readings of scrapes, in the order of the scrapes. */
  ghost predicate ByPolls(stamps: seq<nat>, clocks: seq<nat>, polls: seq<nat>) {
    && |polls| == |stamps|
    && (forall k :: 0 <= k < |polls| ==> polls[k] < |clocks| && stamps[k] == clocks[polls[k]])
    && (forall j, k :: 0 <= j < k < |polls| ==> polls[j] <= polls[k])
  }

  lemma {:induction false} StampsByPolls(cache: Cache, scrapes: seq<Scrape>, clocks: seq<nat>)
    requires |clocks| == |scrapes| && forall i :: 0 <= i < |scrapes| ==> scrapes[i].now == clocks[i]
    ensures ByPolls(Clocks(cache, scrapes), clocks, Polls(cache, scrapes))
  {
    if |scrapes| > 0 {
      hide Kept, FinalCache, Batch;
      var n := |scrapes| - 1;
      StampsByPolls(cache, scrapes[..n], clocks[..n]);
      var count := |Kept(FinalCache(cache, scrapes[..n]), Batch(scrapes[n]))|;
      OnePollMore(Clocks(cache, scrapes[..n]), clocks, Polls(cache, scrapes[..n]), n, count);
    }
  }

  lemma OnePollMore(stamps: seq<nat>, clocks: seq<nat>, polls: seq<nat>, n: nat, count: nat)
    requires |clocks| == n + 1 && ByPolls(stamps, clocks[..n], polls)
    ensures ByPolls(stamps + Repeated(clocks[n], count), clocks, polls + Repeated(n, count))
  {
  }
}

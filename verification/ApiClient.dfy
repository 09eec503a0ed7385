/**
  The API ingestion mode behind JSON decoding: a nested map of services, visited in
  arbitrary order, and what does not depend on that order.
 */
module ApiClient {
  import opened Text
  import opened Numerals
  import opened Checks
  import opened MetricsBuilders
  import opened Scraper
  import opened Deduplication

  datatype ApiService = ApiService(
    description: string, pluginOutput: string, perfData: string, status: int,
    lastCheck: int, executionTime: Decimal, latency: Decimal)

  type ServiceList = map<string, map<string, ApiService>>

  /** `apiStatusToState`, unknown bit masks included. */
  function ApiState(status: int): int {
    match status
    case 1 => 3
    case 2 => 0
    case 4 => 1
    case 8 => 3
    case 16 => 2
    case _ => 3
  }

  /** The status bit of the CGI interface for a state that is known. */
  function StatusBit(state: int): int
    requires 0 <= state <= 2
  {
    if state == 0 then 2 else if state == 1 then 4 else 16
  }

  /** Each known state comes from its own bit alone; every other mask, combined bits included, is unknown. */
  lemma ApiStates(status: int, state: int)
    requires 0 <= state <= 2
    ensures ApiState(status) == state <==> status == StatusBit(state)
    ensures ApiState(status) == 3 <==> forall k :: 0 <= k <= 2 ==> status != StatusBit(k)
  {
    assert StatusBit(0) == 2 && StatusBit(1) == 4 && StatusBit(2) == 16;
  }

  /** Go's division, which truncates towards zero. */
  function Truncated(n: int, d: int): int
    requires d > 0
  {
    if n >= 0 then n / d else -(-n / d)
  }

  /** Milliseconds turn into the whole seconds between them and zero. */
  lemma TruncatesTowardsZero(ms: int, seconds: int)
    ensures seconds == Truncated(ms, 1000) <==>
      if ms >= 0 then 1000 * seconds <= ms < 1000 * (seconds + 1) else 1000 * (seconds - 1) < ms <= 1000 * seconds
  {
  }

  function ToResult(host: string, svc: ApiService): CheckResult {
    CheckResult(host, svc.description, "", ApiState(svc.status), svc.pluginOutput, svc.perfData,
                Truncated(svc.lastCheck, 1000), svc.executionTime, svc.latency)
  }

  type Place = (string, string)

  predicate Listed(list: ServiceList, p: Place) {
    p.0 in list && p.1 in list[p.0]
  }

  /** No host is returned to. */
  ghost predicate Grouped(order: seq<Place>) {
    forall i, j, k :: 0 <= i <= j <= k < |order| && order[i].0 == order[k].0 ==> order[j].0 == order[i].0
  }

  lemma GroupedSnoc(order: seq<Place>, p: Place, from: nat)
    requires Grouped(order) && forall i :: 0 <= i < |order| ==> (order[i].0 == p.0 <==> i >= from)
    ensures Grouped(order + [p])
  {
  }

  /** An order in which nested iteration visits all entries: host by host, each entry once. */
  ghost predicate IsOrder(list: ServiceList, order: seq<Place>) {
    && (forall i :: 0 <= i < |order| ==> Listed(list, order[i]))
    && (forall p :: Listed(list, p) ==> p in order)
    && (forall i, j :: 0 <= i < j < |order| ==> order[i] != order[j])
    && Grouped(order)
  }

  ghost predicate AllListed(list: ServiceList, order: seq<Place>) {
    forall i :: 0 <= i < |order| ==> Listed(list, order[i])
  }

  ghost function ResultAt(list: ServiceList, p: Place): CheckResult
    requires Listed(list, p)
  {
    ToResult(p.0, list[p.0][p.1])
  }

  ghost function ResultsOf(list: ServiceList, order: seq<Place>): (rs: seq<CheckResult>)
    requires AllListed(list, order)
    ensures |rs| == |order| && forall i :: 0 <= i < |rs| ==> rs[i] == ResultAt(list, order[i])
  {
    seq(|order|, i requires 0 <= i < |order| => ResultAt(list, order[i]))
  }

  /** An entry that the map loops have yet to visit. */
  predicate Pending(p: Place, hosts: set<string>, host: string, services: set<string>) {
    p.0 in hosts || (p.0 == host && p.1 in services)
  }

  /** What the map loops have visited so far. */
  ghost predicate Visited(list: ServiceList, order: seq<Place>, hosts: set<string>, host: string, services: set<string>) {
    && AllListed(list, order)
    && (forall p :: Listed(list, p) && !Pending(p, hosts, host, services) ==> p in order)
    && (forall i :: 0 <= i < |order| ==> !Pending(order[i], hosts, host, services))
    && (forall i, j :: 0 <= i < j < |order| ==> order[i] != order[j])
    && Grouped(order)
  }

  /** The visits of the current host are the latest ones. */
  ghost predicate Latest(order: seq<Place>, host: string, from: nat) {
    forall i :: 0 <= i < |order| ==> (order[i].0 == host <==> i >= from)
  }

  lemma NothingVisited(list: ServiceList)
    ensures Visited(list, [], list.Keys, "", {})
  {
  }

  lemma HostBegun(list: ServiceList, order: seq<Place>, hosts: set<string>, last: string, host: string)
    requires Visited(list, order, hosts, last, {}) && host in hosts && hosts <= list.Keys
    ensures Visited(list, order, hosts - {host}, host, list[host].Keys) && Latest(order, host, |order|)
  {
    hide Grouped;
    forall p | Listed(list, p) && !Pending(p, hosts - {host}, host, list[host].Keys)
      ensures !Pending(p, hosts, last, {})
    {
    }
    forall i | 0 <= i < |order|
      ensures order[i].0 != host
    {
      assert !Pending(order[i], hosts, last, {});
    }
  }

  lemma EntryVisited(list: ServiceList, order: seq<Place>, hosts: set<string>, host: string, services: set<string>, name: string, from: nat)
    requires Visited(list, order, hosts, host, services) && Latest(order, host, from) && from <= |order|
    requires host in list && host !in hosts && services <= list[host].Keys && name in services
    ensures Visited(list, order + [(host, name)], hosts, host, services - {name})
    ensures Latest(order + [(host, name)], host, from)
  {
    hide Grouped;
    GroupedSnoc(order, (host, name), from);
    var next := order + [(host, name)];
    assert next[|order|] == (host, name);
    forall p | Listed(list, p) && !Pending(p, hosts, host, services - {name})
      ensures p in next
    {
      if p == (host, name) {
      } else {
        assert !Pending(p, hosts, host, services);
      }
    }
    forall i | 0 <= i < |next|
      ensures !Pending(next[i], hosts, host, services - {name})
    {
      assert i < |order| ==> next[i] == order[i] && !Pending(order[i], hosts, host, services);
    }
    forall i, j | 0 <= i < j < |next|
      ensures next[i] != next[j]
    {
      assert !Pending(order[i], hosts, host, services);
    }
  }

  lemma AllVisited(list: ServiceList, order: seq<Place>, last: string)
    requires Visited(list, order, {}, last, {})
    ensures IsOrder(list, order)
  {
    hide Grouped;
    assert forall p :: !Pending(p, {}, last, {});
  }

  /** A result that says about a host's service what the response says, column by column. */
  ghost predicate Describes(r: CheckResult, host: string, svc: ApiService) {
    && r.hostName == host && r.serviceDescription == svc.description && r.checkCommand == ""
    && r.pluginOutput == svc.pluginOutput && r.perfData == svc.perfData
    && r.executionTime == svc.executionTime && r.latency == svc.latency
    && 0 <= r.state <= 3
    && (r.state == 0 <==> svc.status == 2) && (r.state == 1 <==> svc.status == 4) && (r.state == 2 <==> svc.status == 16)
    && if svc.lastCheck >= 0 then 1000 * r.lastCheck <= svc.lastCheck < 1000 * r.lastCheck + 1000
       else 1000 * r.lastCheck - 1000 < svc.lastCheck <= 1000 * r.lastCheck
  }

  lemma ResultDescribes(host: string, svc: ApiService)
    ensures Describes(ToResult(host, svc), host, svc)
  {
    TruncatesTowardsZero(svc.lastCheck, Truncated(svc.lastCheck, 1000));
  }

  lemma ResultsDescribe(list: ServiceList, order: seq<Place>)
    requires AllListed(list, order)
    ensures forall i :: 0 <= i < |order| ==> Describes(ResultsOf(list, order)[i], order[i].0, list[order[i].0][order[i].1])
  {
    hide Describes, ToResult;
    forall i | 0 <= i < |order|
      ensures Describes(ResultsOf(list, order)[i], order[i].0, list[order[i].0][order[i].1])
    {
      ResultDescribes(order[i].0, list[order[i].0][order[i].1]);
    }
  }

  /** The map loops of `parseServiceListResponse`: the results of some order of the entries. */
  method ParseServiceList(list: ServiceList) returns (results: seq<CheckResult>, ghost order: seq<Place>)
    ensures IsOrder(list, order) && results == ResultsOf(list, order)
    ensures forall r :: r in results <==> exists p :: Listed(list, p) && r == ResultAt(list, p)
    ensures |results| == |order|
    ensures forall i :: 0 <= i < |results| ==> Describes(results[i], order[i].0, list[order[i].0][order[i].1])
  {
    hide Describes, Visited, Latest, IsOrder;
    results, order := [], [];
    ghost var last := "";
    NothingVisited(list);
    var hosts := list.Keys;
    while hosts != {}
      invariant hosts <= list.Keys
      invariant Visited(list, order, hosts, last, {})
      invariant AllListed(list, order) && results == ResultsOf(list, order)
      decreases |hosts|
    {
      var host :| host in hosts;
      HostBegun(list, order, hosts, last, host);
      hosts := hosts - {host};
      var services := list[host].Keys;
      ghost var from := |order|;
      last := host;
      while services != {}
        invariant services <= list[host].Keys && from <= |order|
        invariant Visited(list, order, hosts, host, services) && Latest(order, host, from)
        invariant AllListed(list, order) && results == ResultsOf(list, order)
        decreases |services|
      {
        var name :| name in services;
        EntryVisited(list, order, hosts, host, services, name, from);
        services := services - {name};
        results := results + [ToResult(host, list[host][name])];
        order := order + [(host, name)];
      }
    }
    AllVisited(list, order, last);
    ResultsAreEntries(list, order);
    ResultsDescribe(list, order);
  }

  lemma ResultsAreEntries(list: ServiceList, order: seq<Place>)
    requires IsOrder(list, order)
    ensures forall r :: r in ResultsOf(list, order) <==> exists p :: Listed(list, p) && r == ResultAt(list, p)
  {
    hide ResultAt, Listed, Grouped;
    var rs := ResultsOf(list, order);
    forall p | Listed(list, p)
      ensures ResultAt(list, p) in rs
    {
      var i :| 0 <= i < |order| && order[i] == p;
      assert rs[i] == ResultAt(list, p);
    }
    forall r | r in rs
      ensures exists p :: Listed(list, p) && r == ResultAt(list, p)
    {
      var i :| 0 <= i < |rs| && rs[i] == r;
      assert Listed(list, order[i]);
    }
  }

  // ---- order independence --------------------------------------------------------------------

  /** No two results share a check key. */
  ghost predicate DistinctKeys(rs: seq<CheckResult>) {
    forall i, j :: 0 <= i < j < |rs| ==> Key(rs[i]) != Key(rs[j])
  }

  /** Results of one key that carry a check time all carry the same. */
  ghost predicate Agreeing(rs: seq<CheckResult>) {
    forall i, j :: 0 <= i < j < |rs| && Key(rs[i]) == Key(rs[j]) && rs[i].lastCheck > 0 && rs[j].lastCheck > 0 ==>
      rs[i].lastCheck == rs[j].lastCheck
  }

  ghost predicate TimedAt(rs: seq<CheckResult>, key: string, i: nat) {
    i < |rs| && rs[i].lastCheck > 0 && Key(rs[i]) == key
  }

  /** After a batch, the cache binds a key to one of the batch's check times for it, or as before. */
  lemma {:induction false} CacheSource(cache: Cache, rs: seq<CheckResult>, key: string)
    ensures var after := CacheAfter(cache, rs);
      if exists i: nat :: TimedAt(rs, key, i)
      then key in after && exists i: nat :: TimedAt(rs, key, i) && after[key] == rs[i].lastCheck
      else (key in after <==> key in cache) && (key in after ==> after[key] == cache[key])
  {
    if |rs| > 0 {
      hide Key;
      var n := |rs| - 1;
      var init := rs[..n];
      CacheSource(cache, init, key);
      assert forall i: nat :: i < n ==> (TimedAt(init, key, i) <==> TimedAt(rs, key, i));
      if TimedAt(rs, key, n) {
      } else if exists i: nat :: TimedAt(init, key, i) {
        var i: nat :| TimedAt(init, key, i) && CacheAfter(cache, init)[key] == init[i].lastCheck;
        assert TimedAt(rs, key, i) && rs[i].lastCheck == init[i].lastCheck;
      }
    }
  }

  lemma CacheValue(cache: Cache, rs: seq<CheckResult>, i: nat)
    requires Agreeing(rs) && i < |rs| && rs[i].lastCheck > 0
    ensures Key(rs[i]) in CacheAfter(cache, rs) && CacheAfter(cache, rs)[Key(rs[i])] == rs[i].lastCheck
  {
    hide Key, CacheAfter;
    CacheSource(cache, rs, Key(rs[i]));
    assert TimedAt(rs, Key(rs[i]), i);
  }

  /** Batches with the same, agreeing results leave the same cache. */
  lemma AgreeingCache(cache: Cache, rs: seq<CheckResult>, qs: seq<CheckResult>)
    requires Agreeing(rs) && Agreeing(qs)
    requires forall r :: r in rs <==> r in qs
    ensures CacheAfter(cache, rs) == CacheAfter(cache, qs)
  {
    hide Key, CacheAfter, Agreeing;
    var a, b := CacheAfter(cache, rs), CacheAfter(cache, qs);
    forall key
      ensures key in a <==> key in b
      ensures key in a ==> a[key] == b[key]
    {
      SameBinding(cache, rs, qs, key);
    }
  }

  lemma SameBinding(cache: Cache, rs: seq<CheckResult>, qs: seq<CheckResult>, key: string)
    requires Agreeing(rs) && Agreeing(qs)
    requires forall r :: r in rs <==> r in qs
    ensures var a, b := CacheAfter(cache, rs), CacheAfter(cache, qs);
      (key in a <==> key in b) && (key in a ==> a[key] == b[key])
  {
    hide Key, CacheAfter, Agreeing;
    CacheSource(cache, rs, key);
    CacheSource(cache, qs, key);
    forall j: nat | TimedAt(qs, key, j)
      ensures exists i: nat :: TimedAt(rs, key, i)
    {
      TimedElsewhere(qs, rs, key, j);
    }
    if i: nat :| TimedAt(rs, key, i) {
      TimedElsewhere(rs, qs, key, i);
      var j: nat :| TimedAt(qs, key, j) && qs[j] == rs[i];
      CacheValue(cache, rs, i);
      CacheValue(cache, qs, j);
    }
  }

  lemma TimedElsewhere(rs: seq<CheckResult>, qs: seq<CheckResult>, key: string, i: nat)
    requires TimedAt(rs, key, i) && forall r :: r in rs ==> r in qs
    ensures exists j: nat :: TimedAt(qs, key, j) && qs[j] == rs[i]
  {
    hide Key;
    assert rs[i] in rs;
    var j: nat :| j < |qs| && qs[j] == rs[i];
    assert TimedAt(qs, key, j);
  }

  /** With distinct keys, no result affects whether another is emitted. */
  function Changed(cache: Cache, rs: seq<CheckResult>): seq<CheckResult> {
    if |rs| == 0 then []
    else Changed(cache, rs[..|rs| - 1]) + if Unchanged(cache, rs[|rs| - 1]) then [] else [rs[|rs| - 1]]
  }

  lemma {:induction false} DistinctKept(cache: Cache, rs: seq<CheckResult>)
    requires DistinctKeys(rs)
    ensures Kept(cache, rs) == Changed(cache, rs)
  {
    if |rs| > 0 {
      hide Key, CacheAfter;
      var n := |rs| - 1;
      var init := rs[..n];
      DistinctKept(cache, init);
      CacheSource(cache, init, Key(rs[n]));
      assert forall i: nat :: !TimedAt(init, Key(rs[n]), i);
    }
  }

  lemma {:induction false} ChangedCount(cache: Cache, rs: seq<CheckResult>, r: CheckResult)
    ensures multiset(Changed(cache, rs))[r] == if Unchanged(cache, r) then 0 else multiset(rs)[r]
  {
    if |rs| > 0 {
      hide Unchanged;
      Unsnoc(rs);
      ChangedCount(cache, rs[..|rs| - 1], r);
    }
  }

  lemma AroundElement<T>(xs: seq<T>, i: nat)
    requires i < |xs|
    ensures xs == xs[..i] + [xs[i]] + xs[i + 1..]
  {
  }

  lemma WithoutElement<T>(init: seq<T>, x: T, before: seq<T>, after: seq<T>)
    requires multiset(init + [x]) == multiset(before + [x] + after)
    ensures multiset(init) == multiset(before + after)
  {
    assert multiset(init) == multiset(init + [x]) - multiset{x};
    assert multiset(before + after) == multiset(before + [x] + after) - multiset{x};
  }

  lemma EmissionsAround(config: Config, start: nat, source: string, before: seq<CheckResult>, r: CheckResult, after: seq<CheckResult>, now: nat)
    ensures multiset(Emissions(config, start, source, before + [r] + after, now))
         == multiset(Emissions(config, start, source, before + after, now)) + multiset(Emissions(config, start, source, [r], now))
  {
    hide Emissions;
    EmissionsConcat(config, start, source, before + [r], after, now);
    EmissionsConcat(config, start, source, before, [r], now);
    EmissionsConcat(config, start, source, before, after, now);
  }

  lemma {:induction false} EmissionsCount(config: Config, start: nat, source: string, rs: seq<CheckResult>, qs: seq<CheckResult>, now: nat)
    requires multiset(rs) == multiset(qs)
    ensures multiset(Emissions(config, start, source, rs, now)) == multiset(Emissions(config, start, source, qs, now))
  {
    if |rs| == 0 {
      assert |multiset(qs)| == |qs|;
    } else {
      hide Emissions;
      var init, r := rs[..|rs| - 1], rs[|rs| - 1];
      Unsnoc(rs);
      assert r in multiset(qs);
      var i :| 0 <= i < |qs| && qs[i] == r;
      var before, after := qs[..i], qs[i + 1..];
      AroundElement(qs, i);
      WithoutElement(init, r, before, after);
      EmissionsCount(config, start, source, init, before + after, now);
      EmissionsAround(config, start, source, before, r, after, now);
      EmissionsConcat(config, start, source, init, [r], now);
    }
  }

  lemma SameResults(list: ServiceList, order: seq<Place>, other: seq<Place>)
    requires IsOrder(list, order) && IsOrder(list, other)
    ensures forall r :: r in ResultsOf(list, order) ==> r in ResultsOf(list, other)
  {
    var rs, qs := ResultsOf(list, order), ResultsOf(list, other);
    hide ResultAt;
    forall i | 0 <= i < |rs|
      ensures rs[i] in qs
    {
      assert order[i] in other;
      var j :| 0 <= j < |other| && other[j] == order[i];
      assert qs[j] == rs[i];
    }
  }

  /** No two entries share a check key. */
  ghost predicate DistinctChecks(list: ServiceList) {
    forall p, q :: Listed(list, p) && Listed(list, q) && p != q ==> Key(ResultAt(list, p)) != Key(ResultAt(list, q))
  }

  /** A sequence without duplicates is determined, up to order, by its elements. */
  lemma {:induction false} NoDuplicates<T(!new)>(xs: seq<T>, x: T)
    requires forall i, j :: 0 <= i < j < |xs| ==> xs[i] != xs[j]
    ensures multiset(xs)[x] == if x in xs then 1 else 0
  {
    if |xs| > 0 {
      var n := |xs| - 1;
      Unsnoc(xs);
      NoDuplicates(xs[..n], x);
      assert x in xs[..n] ==> x != xs[n];
    }
  }

  lemma DistinctResults(list: ServiceList, order: seq<Place>)
    requires IsOrder(list, order) && DistinctChecks(list)
    ensures DistinctKeys(ResultsOf(list, order))
  {
    hide Key, ResultAt;
  }

  lemma SameMultiset(list: ServiceList, order: seq<Place>, other: seq<Place>)
    requires IsOrder(list, order) && IsOrder(list, other) && DistinctChecks(list)
    ensures multiset(ResultsOf(list, order)) == multiset(ResultsOf(list, other))
  {
    var rs, qs := ResultsOf(list, order), ResultsOf(list, other);
    SameResults(list, order, other);
    SameResults(list, other, order);
    DistinctResults(list, order);
    DistinctResults(list, other);
    hide Key, ResultAt, ResultsOf, IsOrder, DistinctChecks;
    assert forall i, j :: 0 <= i < j < |rs| ==> rs[i] != rs[j];
    assert forall i, j :: 0 <= i < j < |qs| ==> qs[i] != qs[j];
    forall r: CheckResult
      ensures multiset(rs)[r] == multiset(qs)[r]
    {
      NoDuplicates(rs, r);
      NoDuplicates(qs, r);
    }
  }

  /**
    However the maps are iterated, a list of distinct checks leaves the same cache and emits
    the same resources, up to their order.
   */
  lemma OrderIndependence(config: Config, start: nat, source: string, cache: Cache,
      list: ServiceList, order: seq<Place>, other: seq<Place>, now: nat)
    requires IsOrder(list, order) && IsOrder(list, other) && DistinctChecks(list)
    ensures var rs, qs := ResultsOf(list, order), ResultsOf(list, other);
      && CacheAfter(cache, rs) == CacheAfter(cache, qs)
      && multiset(Emissions(config, start, source, Kept(cache, rs), now))
         == multiset(Emissions(config, start, source, Kept(cache, qs), now))
  {
    hide Key, ResultAt, ResultsOf, Grouped, DistinctChecks, Unchanged, CacheAfter, Kept, Changed, Emissions;
    var rs, qs := ResultsOf(list, order), ResultsOf(list, other);
    SameMultiset(list, order, other);
    SameResults(list, order, other);
    SameResults(list, other, order);
    DistinctResults(list, order);
    DistinctResults(list, other);
    hide IsOrder;
    AgreeingCache(cache, rs, qs);
    DistinctKept(cache, rs);
    DistinctKept(cache, qs);
    forall r: CheckResult
      ensures multiset(Changed(cache, rs))[r] == multiset(Changed(cache, qs))[r]
    {
      ChangedCount(cache, rs, r);
      ChangedCount(cache, qs, r);
    }
    EmissionsCount(config, start, source, Changed(cache, rs), Changed(cache, qs), now);
  }

  // ---- exactly when the cache does not depend on the order ---------------------------------------

  /** Entries of one key that carry a check time all carry the same. */
  ghost predicate AgreeingChecks(list: ServiceList) {
    forall p, q :: Listed(list, p) && Listed(list, q) ==>
      var a, b := ResultAt(list, p), ResultAt(list, q);
      Key(a) == Key(b) && a.lastCheck > 0 && b.lastCheck > 0 ==> a.lastCheck == b.lastCheck
  }

  /** The stretch of an order that visits one host. */
  lemma HostStretch(order: seq<Place>, host: string, i: nat) returns (lo: nat, hi: nat)
    requires Grouped(order) && i < |order| && order[i].0 == host
    ensures lo <= i < hi <= |order| && forall j :: 0 <= j < |order| ==> (lo <= j < hi <==> order[j].0 == host)
  {
    lo, hi := i, i + 1;
    while lo > 0 && order[lo - 1].0 == host
      invariant 0 <= lo <= i && forall j :: lo <= j <= i ==> order[j].0 == host
    {
      lo := lo - 1;
    }
    while hi < |order| && order[hi].0 == host
      invariant i < hi <= |order| && forall j :: i <= j < hi ==> order[j].0 == host
    {
      hi := hi + 1;
    }
    forall j | 0 <= j < |order| && !(lo <= j < hi)
      ensures order[j].0 != host
    {
      if j < lo {
        assert order[lo - 1].0 != host;
      } else {
        assert order[hi].0 != host;
      }
    }
  }

  /** Where an element of a sequence with a stretch moved to its end comes from. */
  function Origin(n: nat, lo: nat, hi: nat, j: nat): int {
    if j < lo then j else if j < n - (hi - lo) then j + (hi - lo) else j - (n - hi)
  }

  function StretchLast<T>(xs: seq<T>, lo: nat, hi: nat): seq<T>
    requires lo <= hi <= |xs|
  {
    xs[..lo] + xs[hi..] + xs[lo..hi]
  }

  lemma StretchElements<T>(xs: seq<T>, lo: nat, hi: nat)
    requires lo <= hi <= |xs|
    ensures var ys := StretchLast(xs, lo, hi);
      && |ys| == |xs|
      && (forall j: nat :: j < |ys| ==> 0 <= Origin(|xs|, lo, hi, j) < |xs| && ys[j] == xs[Origin(|xs|, lo, hi, j)])
      && (forall x :: x in xs ==> x in ys)
  {
    var ys := StretchLast(xs, lo, hi);
    forall x | x in xs
      ensures x in ys
    {
      assert xs == xs[..lo] + xs[lo..hi] + xs[hi..];
    }
  }

  lemma StretchGrouped(order: seq<Place>, host: string, lo: nat, hi: nat)
    requires Grouped(order) && lo <= hi <= |order|
    requires forall j :: 0 <= j < |order| ==> (lo <= j < hi <==> order[j].0 == host)
    ensures Grouped(StretchLast(order, lo, hi))
  {
    StretchElements(order, lo, hi);
    var n, moved := |order|, StretchLast(order, lo, hi);
    hide StretchLast;
    forall i: nat, j: nat, k: nat | i <= j <= k < n && moved[i].0 == moved[k].0
      ensures moved[j].0 == moved[i].0
    {
      assert moved[i] == order[Origin(n, lo, hi, i)];
      assert moved[j] == order[Origin(n, lo, hi, j)];
      assert moved[k] == order[Origin(n, lo, hi, k)];
    }
  }

  /** An order rearranged without repeating or dropping an entry, its hosts kept together, is an order. */
  lemma Rearranged(list: ServiceList, order: seq<Place>, moved: seq<Place>, origins: seq<nat>)
    requires IsOrder(list, order) && Grouped(moved) && |origins| == |moved|
    requires forall j :: 0 <= j < |moved| ==> origins[j] < |order| && moved[j] == order[origins[j]]
    requires forall j, k :: 0 <= j < k < |moved| ==> origins[j] != origins[k]
    requires forall p :: p in order ==> p in moved
    ensures IsOrder(list, moved)
  {
    hide Listed, Grouped;
    forall j, k | 0 <= j < k < |moved|
      ensures moved[j] != moved[k]
    {
      var x, y := origins[j], origins[k];
      assert order[x] != order[y];
    }
  }

  function Origins(n: nat, lo: nat, hi: nat): (r: seq<nat>)
    requires lo <= hi <= n
    ensures |r| == n && forall j :: 0 <= j < n ==> r[j] == Origin(n, lo, hi, j) < n
    ensures forall j, k :: 0 <= j < k < n ==> r[j] != r[k]
  {
    seq(n, j requires 0 <= j < n => Origin(n, lo, hi, j))
  }

  /** An order that visits a given host last. */
  lemma HostLast(list: ServiceList, order: seq<Place>, p: Place) returns (moved: seq<Place>)
    requires IsOrder(list, order) && Listed(list, p)
    ensures IsOrder(list, moved) && moved != [] && moved[|moved| - 1].0 == p.0
  {
    hide Listed, Grouped;
    var i :| 0 <= i < |order| && order[i] == p;
    var lo, hi := HostStretch(order, p.0, i);
    moved := StretchLast(order, lo, hi);
    StretchElements(order, lo, hi);
    StretchGrouped(order, p.0, lo, hi);
    hide StretchLast, IsOrder;
    assert Origin(|order|, lo, hi, |moved| - 1) == hi - 1;
    Rearranged(list, order, moved, Origins(|order|, lo, hi));
  }

  lemma SameHosts(order: seq<Place>, moved: seq<Place>)
    requires Grouped(order) && |moved| == |order| && forall j :: 0 <= j < |order| ==> moved[j].0 == order[j].0
    ensures Grouped(moved)
  {
  }

  lemma HostOfLast(order: seq<Place>, i: nat)
    requires Grouped(order) && i < |order| && order[i].0 == order[|order| - 1].0
    ensures forall j :: i <= j < |order| ==> order[j].0 == order[i].0
  {
  }

  lemma InSomePlace(list: ServiceList, order: seq<Place>, p: Place) returns (i: nat)
    requires IsOrder(list, order) && Listed(list, p)
    ensures i < |order| && order[i] == p && Grouped(order)
  {
    hide Listed, Grouped;
    i :| 0 <= i < |order| && order[i] == p;
  }

  lemma EntryGrouped(order: seq<Place>, i: nat)
    requires Grouped(order) && i < |order| && order[i].0 == order[|order| - 1].0
    ensures Grouped(StretchLast(order, i, i + 1))
  {
    HostOfLast(order, i);
    StretchElements(order, i, i + 1);
    var moved := StretchLast(order, i, i + 1);
    hide StretchLast, Grouped;
    forall j: nat | j < |order|
      ensures moved[j].0 == order[j].0
    {
      assert moved[j] == order[Origin(|order|, i, i + 1, j)];
    }
    SameHosts(order, moved);
  }

  /** An order that visits a given entry last: its host last, and it last among its host's entries. */
  lemma MoveLast(list: ServiceList, some: seq<Place>, p: Place) returns (moved: seq<Place>)
    requires IsOrder(list, some) && Listed(list, p)
    ensures IsOrder(list, moved) && moved != [] && moved[|moved| - 1] == p
  {
    hide Listed, Grouped, IsOrder;
    var order := HostLast(list, some, p);
    var i := InSomePlace(list, order, p);
    moved := StretchLast(order, i, i + 1);
    StretchElements(order, i, i + 1);
    EntryGrouped(order, i);
    hide StretchLast;
    assert Origin(|order|, i, i + 1, |moved| - 1) == i;
    Rearranged(list, order, moved, Origins(|order|, i, i + 1));
  }

  lemma LastWins(cache: Cache, rs: seq<CheckResult>)
    requires |rs| > 0 && rs[|rs| - 1].lastCheck > 0
    ensures var r := rs[|rs| - 1]; Key(r) in CacheAfter(cache, rs) && CacheAfter(cache, rs)[Key(r)] == r.lastCheck
  {
    hide Key;
  }

  /**
    The cache after a scrape is the same for every iteration order exactly when entries that
    share a key and carry a check time carry the same one.
   */
  lemma CacheOrderIndependence(cache: Cache, list: ServiceList, some: seq<Place>)
    requires IsOrder(list, some)
    ensures AgreeingChecks(list) <==>
      forall order, other :: IsOrder(list, order) && IsOrder(list, other) ==>
        CacheAfter(cache, ResultsOf(list, order)) == CacheAfter(cache, ResultsOf(list, other))
  {
    hide CacheAfter, AgreeingChecks, Listed, ResultAt;
    if AgreeingChecks(list) {
      forall order, other | IsOrder(list, order) && IsOrder(list, other)
        ensures CacheAfter(cache, ResultsOf(list, order)) == CacheAfter(cache, ResultsOf(list, other))
      {
        AgreeingOrders(cache, list, order, other);
      }
    } else {
      var order, other := DisagreeingOrders(cache, list, some);
    }
  }

  lemma AgreeingOrders(cache: Cache, list: ServiceList, order: seq<Place>, other: seq<Place>)
    requires IsOrder(list, order) && IsOrder(list, other) && AgreeingChecks(list)
    ensures CacheAfter(cache, ResultsOf(list, order)) == CacheAfter(cache, ResultsOf(list, other))
  {
    hide Key, ResultAt, CacheAfter, Listed;
    SameResults(list, order, other);
    SameResults(list, other, order);
    AgreeingResults(list, order);
    AgreeingResults(list, other);
    hide ResultsOf, IsOrder;
    AgreeingCache(cache, ResultsOf(list, order), ResultsOf(list, other));
  }

  lemma AgreeingResults(list: ServiceList, order: seq<Place>)
    requires IsOrder(list, order) && AgreeingChecks(list)
    ensures Agreeing(ResultsOf(list, order))
  {
    hide Key, ResultAt, Listed;
  }

  /** An order that visits a timed entry last leaves its check time in the cache. */
  lemma LastRemembered(cache: Cache, list: ServiceList, order: seq<Place>, p: Place)
    requires IsOrder(list, order) && order != [] && order[|order| - 1] == p && Listed(list, p) && ResultAt(list, p).lastCheck > 0
    ensures var r, after := ResultAt(list, p), CacheAfter(cache, ResultsOf(list, order));
      Key(r) in after && after[Key(r)] == r.lastCheck
  {
    hide Key, ResultAt, CacheAfter, Listed, Grouped;
    LastWins(cache, ResultsOf(list, order));
  }

  lemma DisagreeingOrders(cache: Cache, list: ServiceList, some: seq<Place>) returns (order: seq<Place>, other: seq<Place>)
    requires IsOrder(list, some) && !AgreeingChecks(list)
    ensures IsOrder(list, order) && IsOrder(list, other)
    ensures CacheAfter(cache, ResultsOf(list, order)) != CacheAfter(cache, ResultsOf(list, other))
  {
    hide Key, ResultAt, CacheAfter, Listed, Grouped;
    var p, q :| Listed(list, p) && Listed(list, q) &&
      var a, b := ResultAt(list, p), ResultAt(list, q);
      Key(a) == Key(b) && a.lastCheck > 0 && b.lastCheck > 0 && a.lastCheck != b.lastCheck;
    order := MoveLast(list, some, p);
    other := MoveLast(list, some, q);
    LastRemembered(cache, list, order, p);
    LastRemembered(cache, list, other, q);
    hide AgreeingChecks, ResultsOf;
  }
}

/**
  Exactly when the metrics of an API scrape do not depend on the order in which the maps of the
  response are iterated.
 */
module ApiOrder {
  import opened Text
  import opened Checks
  import opened MetricsBuilders
  import opened Scraper
  import opened Deduplication
  import opened ApiClient

  /** What the emission of a check depends on besides the check. */
  datatype Setting = Setting(config: Config, start: nat, source: string, now: nat)

  function Out(e: Setting, r: CheckResult): seq<ResourceMetrics> {
    EmitFor(e.config, e.start, e.source, r, e.now)
  }

  /** The resources that a batch emits, in any order. */
  function Emitted(e: Setting, cache: Cache, rs: seq<CheckResult>): multiset<ResourceMetrics> {
    multiset(Emissions(e.config, e.start, e.source, Kept(cache, rs), e.now))
  }

  lemma EmittedConcat(e: Setting, cache: Cache, xs: seq<CheckResult>, ys: seq<CheckResult>)
    ensures Emitted(e, cache, xs + ys) == Emitted(e, cache, xs) + Emitted(e, CacheAfter(cache, xs), ys)
    ensures CacheAfter(cache, xs + ys) == CacheAfter(CacheAfter(cache, xs), ys)
  {
    hide Emissions, Kept, CacheAfter;
    CacheConcat(cache, xs, ys);
    KeptConcat(cache, xs, ys);
    EmissionsConcat(e.config, e.start, e.source, Kept(cache, xs), Kept(CacheAfter(cache, xs), ys), e.now);
  }

  lemma KeptOne(cache: Cache, r: CheckResult)
    ensures Kept(cache, [r]) == if Unchanged(cache, r) then [] else [r]
    ensures CacheAfter(cache, [r]) == Remember(cache, r)
    ensures Kept(cache, []) == []
  {
    hide Unchanged, Remember;
    assert [r][..0] == [];
    assert CacheAfter(cache, []) == cache;
  }

  lemma EmissionsOne(e: Setting, r: CheckResult)
    ensures Emissions(e.config, e.start, e.source, [r], e.now) == Out(e, r)
    ensures Emissions(e.config, e.start, e.source, [], e.now) == []
  {
    hide EmitFor;
    assert [r][..0] == [];
    EmptyConcat(EmitFor(e.config, e.start, e.source, r, e.now));
  }

  lemma EmittedOne(e: Setting, cache: Cache, r: CheckResult)
    ensures Emitted(e, cache, [r]) == if Unchanged(cache, r) then multiset{} else multiset(Out(e, r))
    ensures CacheAfter(cache, [r]) == Remember(cache, r)
    ensures Emitted(e, cache, []) == multiset{}
  {
    hide Out, Unchanged, Remember, Kept, CacheAfter, Emissions;
    KeptOne(cache, r);
    EmissionsOne(e, r);
  }

  lemma CacheSnoc(cache: Cache, rs: seq<CheckResult>, r: CheckResult)
    ensures CacheAfter(cache, rs + [r]) == Remember(CacheAfter(cache, rs), r)
  {
    hide CacheAfter, Remember;
    CacheConcat(cache, rs, [r]);
    KeptOne(CacheAfter(cache, rs), r);
  }

  // ---- checks that emit nothing do not matter ---------------------------------------------------

  /** Timed results of one key emit alike, and unless they emit nothing they have one check time. */
  ghost predicate Compatible(e: Setting, a: CheckResult, b: CheckResult) {
    a.lastCheck > 0 && b.lastCheck > 0 && Key(a) == Key(b) ==>
      Out(e, a) == Out(e, b) && (a.lastCheck == b.lastCheck || Out(e, a) == [])
  }

  ghost predicate AllCompatible(e: Setting, rs: seq<CheckResult>) {
    forall a, b :: a in rs && b in rs ==> Compatible(e, a, b)
  }

  function Loud(e: Setting, rs: seq<CheckResult>): seq<CheckResult> {
    if |rs| == 0 then []
    else Loud(e, rs[..|rs| - 1]) + if Out(e, rs[|rs| - 1]) == [] then [] else [rs[|rs| - 1]]
  }

  lemma CountSnoc<T>(xs: seq<T>, x: T, y: T)
    ensures multiset(xs + [x])[y] == multiset(xs)[y] + if x == y then 1 else 0
    ensures y in xs + [x] <==> y in xs || x == y
  {
  }

  lemma {:induction false} LoudCount(e: Setting, rs: seq<CheckResult>, r: CheckResult)
    ensures multiset(Loud(e, rs))[r] == if Out(e, r) == [] then 0 else multiset(rs)[r]
    ensures r in Loud(e, rs) <==> r in rs && Out(e, r) != []
  {
    if |rs| > 0 {
      hide Out, Loud;
      var init, last := rs[..|rs| - 1], rs[|rs| - 1];
      Unsnoc(rs);
      LoudCount(e, init, r);
      LoudSnoc(e, init, last);
      CountSnoc(init, last, r);
      CountSnoc(Loud(e, init), last, r);
    }
  }

  lemma LoudSnoc(e: Setting, rs: seq<CheckResult>, r: CheckResult)
    ensures Loud(e, rs + [r]) == if Out(e, r) == [] then Loud(e, rs) else Loud(e, rs) + [r]
  {
    hide Out;
    SnocParts(rs, r);
    EmptyConcat(Loud(e, rs));
  }

  ghost predicate SameBound(a: Cache, b: Cache, key: string) {
    (key in a <==> key in b) && (key in a ==> a[key] == b[key])
  }

  lemma RememberBoth(a: Cache, b: Cache, r: CheckResult, key: string)
    requires SameBound(a, b, key)
    ensures SameBound(Remember(a, r), Remember(b, r), key)
    ensures r.lastCheck <= 0 || Key(r) != key ==> SameBound(Remember(a, r), b, key)
  {
    hide Key;
  }

  ghost predicate LoudKey(e: Setting, rs: seq<CheckResult>, key: string) {
    forall x :: x in rs && x.lastCheck > 0 && Key(x) == key ==> Out(e, x) != []
  }

  /** A key whose timed results all emit something is bound alike with and without the silent ones. */
  lemma {:induction false} LoudCache(e: Setting, cache: Cache, rs: seq<CheckResult>, key: string)
    requires LoudKey(e, rs, key)
    ensures SameBound(CacheAfter(cache, rs), CacheAfter(cache, Loud(e, rs)), key)
  {
    if |rs| > 0 {
      hide Out, Key;
      var init, r := rs[..|rs| - 1], rs[|rs| - 1];
      Unsnoc(rs);
      assert r in rs && forall x :: x in init ==> x in rs;
      LoudCache(e, cache, init, key);
      hide Loud, CacheAfter, Remember, SameBound;
      LoudSnoc(e, init, r);
      CacheSnoc(cache, init, r);
      CacheSnoc(cache, Loud(e, init), r);
      RememberBoth(CacheAfter(cache, init), CacheAfter(cache, Loud(e, init)), r, key);
    }
  }

  lemma SameBoundUnchanged(a: Cache, b: Cache, r: CheckResult)
    requires r.lastCheck > 0 ==> SameBound(a, b, Key(r))
    ensures Unchanged(a, r) <==> Unchanged(b, r)
  {
    hide Key;
  }

  lemma LoudKeyOf(e: Setting, rs: seq<CheckResult>, r: CheckResult)
    requires AllCompatible(e, rs + [r]) && Out(e, r) != [] && r.lastCheck > 0
    ensures LoudKey(e, rs, Key(r))
  {
    hide Out, Key;
    forall x | x in rs && x.lastCheck > 0 && Key(x) == Key(r)
      ensures Out(e, x) != []
    {
      assert x in rs + [r] && r in rs + [r];
      assert Compatible(e, x, r);
    }
  }

  lemma CompatibleInit(e: Setting, rs: seq<CheckResult>, r: CheckResult)
    requires AllCompatible(e, rs + [r])
    ensures AllCompatible(e, rs)
  {
    hide Compatible;
    assert forall x :: x in rs ==> x in rs + [r];
  }

  lemma LoudLast(e: Setting, cache: Cache, rs: seq<CheckResult>, r: CheckResult)
    requires AllCompatible(e, rs + [r]) && Emitted(e, cache, rs) == Emitted(e, cache, Loud(e, rs))
    ensures Emitted(e, cache, rs + [r]) == Emitted(e, cache, Loud(e, rs + [r]))
  {
    hide Out, Key, Emitted, CacheAfter, AllCompatible, Loud, Unchanged, SameBound, LoudKey, Remember;
    LoudSnoc(e, rs, r);
    EmittedConcat(e, cache, rs, [r]);
    EmittedOne(e, CacheAfter(cache, rs), r);
    if Out(e, r) != [] {
      EmittedConcat(e, cache, Loud(e, rs), [r]);
      EmittedOne(e, CacheAfter(cache, Loud(e, rs)), r);
      if r.lastCheck > 0 {
        LoudKeyOf(e, rs, r);
        LoudCache(e, cache, rs, Key(r));
      }
      SameBoundUnchanged(CacheAfter(cache, rs), CacheAfter(cache, Loud(e, rs)), r);
    }
  }

  lemma {:induction false} LoudSame(e: Setting, cache: Cache, rs: seq<CheckResult>)
    requires AllCompatible(e, rs)
    ensures Emitted(e, cache, rs) == Emitted(e, cache, Loud(e, rs))
  {
    if |rs| > 0 {
      hide Emitted, AllCompatible, Loud;
      var init, r := rs[..|rs| - 1], rs[|rs| - 1];
      Unsnoc(rs);
      CompatibleInit(e, init, r);
      LoudSame(e, cache, init);
      LoudLast(e, cache, init, r);
    }
  }

  // ---- the others can be rearranged -----------------------------------------------------------------

  ghost predicate Alike(e: Setting, a: CheckResult, b: CheckResult) {
    a.lastCheck > 0 && b.lastCheck > 0 && Key(a) == Key(b) ==> Out(e, a) == Out(e, b) && a.lastCheck == b.lastCheck
  }

  ghost predicate AllAlike(e: Setting, rs: seq<CheckResult>) {
    forall a, b :: a in rs && b in rs ==> Alike(e, a, b)
  }

  lemma Swap(e: Setting, cache: Cache, a: CheckResult, b: CheckResult)
    requires Alike(e, a, b)
    ensures Emitted(e, cache, [a] + [b]) == Emitted(e, cache, [b] + [a])
    ensures CacheAfter(cache, [a] + [b]) == CacheAfter(cache, [b] + [a])
  {
    hide Out, Key, Emitted, CacheAfter;
    EmittedConcat(e, cache, [a], [b]);
    EmittedConcat(e, cache, [b], [a]);
    EmittedOne(e, cache, a);
    EmittedOne(e, cache, b);
    EmittedOne(e, CacheAfter(cache, [a]), b);
    EmittedOne(e, CacheAfter(cache, [b]), a);
  }

  /** Moving the last of a batch to its front. */
  lemma {:induction false} ToFront(e: Setting, cache: Cache, before: seq<CheckResult>, a: CheckResult)
    requires AllAlike(e, before + [a])
    ensures Emitted(e, cache, before + [a]) == Emitted(e, cache, [a] + before)
    ensures CacheAfter(cache, before + [a]) == CacheAfter(cache, [a] + before)
  {
    if |before| == 0 {
      EmptyConcat([a]);
    } else {
      var init, x := before[..|before| - 1], before[|before| - 1];
      Unsnoc(before);
      assert x in before + [a] && a in before + [a];
      assert forall y :: y in init + [a] ==> y in before + [a];
      assert Alike(e, x, a);
      hide Out, Key, Emitted, CacheAfter, Alike;
      ToFront(e, cache, init, a);
      Swap(e, CacheAfter(cache, init), x, a);
      Regroup(init, [x], [a]);
      Regroup(init, [a], [x]);
      Regroup([a], init, [x]);
      EmittedConcat(e, cache, init, [x] + [a]);
      EmittedConcat(e, cache, init, [a] + [x]);
      EmittedConcat(e, cache, init + [a], [x]);
      EmittedConcat(e, cache, [a] + init, [x]);
    }
  }

  lemma ToFrontOf(e: Setting, cache: Cache, before: seq<CheckResult>, a: CheckResult, after: seq<CheckResult>)
    requires AllAlike(e, before + [a])
    ensures Emitted(e, cache, before + [a] + after)
         == Emitted(e, cache, [a]) + Emitted(e, CacheAfter(cache, [a]), before + after)
  {
    hide Emitted, CacheAfter;
    ToFront(e, cache, before, a);
    EmittedConcat(e, cache, before + [a], after);
    EmittedConcat(e, cache, [a] + before, after);
    Regroup([a], before, after);
    EmittedConcat(e, cache, [a], before + after);
  }

  lemma AroundSome<T>(qs: seq<T>, a: T) returns (before: seq<T>, after: seq<T>)
    requires a in multiset(qs)
    ensures qs == before + [a] + after
  {
    assert a in qs;
    var i :| 0 <= i < |qs| && qs[i] == a;
    before, after := qs[..i], qs[i + 1..];
    AroundElement(qs, i);
  }

  lemma HeadRest<T>(rs: seq<T>)
    requires |rs| > 0
    ensures rs == [rs[0]] + rs[1..]
    ensures rs[0] in multiset(rs)
  {
    assert rs[0] in rs;
  }

  lemma NoneLeft<T>(rs: seq<T>, qs: seq<T>)
    requires multiset(rs) == multiset(qs)
    ensures |rs| == |qs|
  {
    assert |multiset(rs)| == |rs| && |multiset(qs)| == |qs|;
  }

  lemma {:induction false} Permuted(e: Setting, cache: Cache, rs: seq<CheckResult>, qs: seq<CheckResult>)
    requires multiset(rs) == multiset(qs) && AllAlike(e, rs)
    ensures Emitted(e, cache, rs) == Emitted(e, cache, qs)
    decreases |rs|
  {
    hide Emitted, CacheAfter, AllAlike;
    NoneLeft(rs, qs);
    if |rs| > 0 {
      var a, rest := rs[0], rs[1..];
      HeadRest(rs);
      var before, after := AroundSome(qs, a);
      RestSame(a, rest, before, after);
      AlikeParts(e, rs, qs, before, a, after);
      Permuted(e, CacheAfter(cache, [a]), rest, before + after);
      EmittedConcat(e, cache, [a], rest);
      ToFrontOf(e, cache, before, a, after);
    }
  }

  lemma RestSame<T>(a: T, rest: seq<T>, before: seq<T>, after: seq<T>)
    requires multiset([a] + rest) == multiset(before + [a] + after)
    ensures multiset(rest) == multiset(before + after)
  {
    assert multiset(rest) == multiset([a] + rest) - multiset{a};
    assert multiset(before + after) == multiset(before + [a] + after) - multiset{a};
  }

  lemma AlikeParts(e: Setting, rs: seq<CheckResult>, qs: seq<CheckResult>, before: seq<CheckResult>, a: CheckResult, after: seq<CheckResult>)
    requires AllAlike(e, rs) && multiset(rs) == multiset(qs) && qs == before + [a] + after && |rs| > 0
    ensures AllAlike(e, rs[1..]) && AllAlike(e, before + [a])
  {
    hide Alike;
    forall x | x in before + [a]
      ensures x in rs
    {
      assert x in qs;
      assert x in multiset(qs);
    }
    assert forall x :: x in rs[1..] ==> x in rs;
  }

  lemma CompatibleSame(e: Setting, cache: Cache, rs: seq<CheckResult>, qs: seq<CheckResult>)
    requires multiset(rs) == multiset(qs) && AllCompatible(e, rs)
    ensures Emitted(e, cache, rs) == Emitted(e, cache, qs)
  {
    hide Emitted, Out, Key, Loud;
    forall x | x in qs
      ensures x in rs
    {
      assert x in multiset(qs);
    }
    LoudSame(e, cache, rs);
    LoudSame(e, cache, qs);
    forall r: CheckResult
      ensures multiset(Loud(e, rs))[r] == multiset(Loud(e, qs))[r]
    {
      LoudCount(e, rs, r);
      LoudCount(e, qs, r);
    }
    forall a, b | a in Loud(e, rs) && b in Loud(e, rs)
      ensures Alike(e, a, b)
    {
      LoudCount(e, rs, a);
      LoudCount(e, rs, b);
      assert Compatible(e, a, b);
    }
    Permuted(e, cache, Loud(e, rs), Loud(e, qs));
  }

  // ---- orders of one list -------------------------------------------------------------------------------

  lemma ResultsConcat(list: ServiceList, a: seq<Place>, b: seq<Place>)
    requires AllListed(list, a) && AllListed(list, b)
    ensures AllListed(list, a + b) && ResultsOf(list, a + b) == ResultsOf(list, a) + ResultsOf(list, b)
  {
    hide ResultAt, Listed;
  }

  lemma ResultsAround(list: ServiceList, before: seq<Place>, p: Place, after: seq<Place>)
    requires AllListed(list, before) && Listed(list, p) && AllListed(list, after)
    ensures AllListed(list, before + [p] + after) && AllListed(list, before + after)
    ensures multiset(ResultsOf(list, before + [p] + after)) == multiset(ResultsOf(list, before + after)) + multiset{ResultAt(list, p)}
  {
    hide ResultAt, Listed, ResultsOf;
    assert AllListed(list, [p]);
    ResultsConcat(list, before, [p]);
    ResultsConcat(list, before + [p], after);
    ResultsConcat(list, before, after);
    OneResult(list, p);
  }

  lemma OneResult(list: ServiceList, p: Place)
    requires Listed(list, p)
    ensures AllListed(list, [p]) && ResultsOf(list, [p]) == [ResultAt(list, p)]
  {
    hide ResultAt, Listed;
  }

  lemma PartsListed(list: ServiceList, a: seq<Place>, p: Place, b: seq<Place>)
    requires AllListed(list, a + [p] + b)
    ensures AllListed(list, a) && Listed(list, p) && AllListed(list, b) && AllListed(list, a + b)
  {
    hide Listed;
    var all := a + [p] + b;
    assert all[|a|] == p;
    assert forall i :: 0 <= i < |a| ==> all[i] == a[i];
    assert forall i :: 0 <= i < |b| ==> all[|a| + 1 + i] == b[i];
  }

  lemma {:induction false} SameBag(list: ServiceList, xs: seq<Place>, ys: seq<Place>)
    requires AllListed(list, xs) && AllListed(list, ys) && multiset(xs) == multiset(ys)
    ensures multiset(ResultsOf(list, xs)) == multiset(ResultsOf(list, ys))
  {
    hide ResultAt, Listed, ResultsOf, AllListed;
    NoneLeft(xs, ys);
    if |xs| > 0 {
      var p, rest := xs[0], xs[1..];
      HeadRest(xs);
      var before, after := AroundSome(ys, p);
      RestSame(p, rest, before, after);
      PartsListed(list, before, p, after);
      EmptyConcat([p]);
      EmptyConcat(rest);
      PartsListed(list, [], p, rest);
      ResultsAround(list, before, p, after);
      ResultsAround(list, [], p, rest);
      SameBag(list, rest, before + after);
    }
  }

  lemma OrdersSameBag(list: ServiceList, order: seq<Place>, other: seq<Place>)
    requires IsOrder(list, order) && IsOrder(list, other)
    ensures multiset(ResultsOf(list, order)) == multiset(ResultsOf(list, other))
  {
    hide Listed, Grouped, ResultsOf;
    forall p: Place
      ensures multiset(order)[p] == multiset(other)[p]
    {
      NoDuplicates(order, p);
      NoDuplicates(other, p);
    }
    assert multiset(order) == multiset(other);
    SameBag(list, order, other);
  }

  function Reverse<T>(xs: seq<T>): (ys: seq<T>)
    ensures |ys| == |xs| && forall i :: 0 <= i < |xs| ==> ys[i] == xs[|xs| - 1 - i]
  {
    seq(|xs|, i requires 0 <= i < |xs| => xs[|xs| - 1 - i])
  }

  lemma ReverseGrouped(order: seq<Place>)
    requires Grouped(order)
    ensures Grouped(Reverse(order))
  {
    var n, back := |order|, Reverse(order);
    hide Reverse;
    forall i, j, k | 0 <= i <= j <= k < n && back[i].0 == back[k].0
      ensures back[j].0 == back[i].0
    {
      assert back[i] == order[n - 1 - i] && back[j] == order[n - 1 - j] && back[k] == order[n - 1 - k];
    }
  }

  function Backwards(n: nat): (r: seq<nat>)
    ensures |r| == n && forall i :: 0 <= i < n ==> r[i] == n - 1 - i
    ensures forall i, j :: 0 <= i < j < n ==> r[i] != r[j]
  {
    seq(n, i requires 0 <= i < n => n - 1 - i)
  }

  lemma ReverseKeeps<T>(xs: seq<T>)
    ensures forall x :: x in xs ==> x in Reverse(xs)
  {
    forall x | x in xs
      ensures x in Reverse(xs)
    {
      var i :| 0 <= i < |xs| && xs[i] == x;
      assert Reverse(xs)[|xs| - 1 - i] == x;
    }
  }

  lemma ReverseOrder(list: ServiceList, order: seq<Place>)
    requires IsOrder(list, order)
    ensures IsOrder(list, Reverse(order))
  {
    OrderGrouped(list, order);
    hide IsOrder, Grouped;
    ReverseGrouped(order);
    ReverseKeeps(order);
    hide Reverse, Backwards;
    Rearranged(list, order, Reverse(order), Backwards(|order|));
  }

  lemma OrderGrouped(list: ServiceList, order: seq<Place>)
    requires IsOrder(list, order)
    ensures Grouped(order)
  {
    hide Listed;
  }

  /** Any entry can come first. */
  lemma MoveFirst(list: ServiceList, some: seq<Place>, p: Place) returns (moved: seq<Place>)
    requires IsOrder(list, some) && Listed(list, p)
    ensures IsOrder(list, moved) && moved != [] && moved[0] == p
  {
    hide IsOrder, Listed;
    var last := MoveLast(list, some, p);
    moved := Reverse(last);
    ReverseOrder(list, last);
  }

  // ---- exactly when the order does not matter --------------------------------------------------------------

  ghost predicate SameEmitted(e: Setting, cache: Cache, list: ServiceList, order: seq<Place>, other: seq<Place>)
    requires AllListed(list, order) && AllListed(list, other)
  {
    Emitted(e, cache, ResultsOf(list, order)) == Emitted(e, cache, ResultsOf(list, other))
  }

  /** Whatever was seen before, every order emits the same resources. */
  ghost predicate OrderFree(e: Setting, list: ServiceList) {
    forall cache, order, other :: IsOrder(list, order) && IsOrder(list, other) ==> SameEmitted(e, cache, list, order, other)
  }

  /** Entries of one key with check times emit alike, and unless they emit nothing they agree on the time. */
  ghost predicate CompatibleChecks(e: Setting, list: ServiceList) {
    forall p, q :: Listed(list, p) && Listed(list, q) ==> Compatible(e, ResultAt(list, p), ResultAt(list, q))
  }

  /** What the first of a batch adds, depending on what the cache knows of it. */
  lemma FirstEmits(e: Setting, a: CheckResult, rest: seq<CheckResult>, v: int)
    requires a.lastCheck > 0
    ensures var known, rs := map[Key(a) := v], [a] + rest;
      if v == a.lastCheck then Emitted(e, map[], rs) == multiset(Out(e, a)) + Emitted(e, known, rs)
      else Emitted(e, known, rs) == Emitted(e, map[], rs)
  {
    var known := map[Key(a) := v];
    hide Out, Key, Emitted, CacheAfter;
    EmittedConcat(e, known, [a], rest);
    EmittedConcat(e, map[], [a], rest);
    EmittedOne(e, known, a);
    EmittedOne(e, map[], a);
    assert Remember(known, a) == Remember(map[], a) == map[Key(a) := a.lastCheck];
  }

  lemma OutSame(e: Setting, a: CheckResult, b: CheckResult)
    ensures multiset(Out(e, a)) == multiset(Out(e, b)) ==> Out(e, a) == Out(e, b)
    ensures multiset(Out(e, a)) == multiset{} ==> Out(e, a) == []
  {
    var x, y := Out(e, a), Out(e, b);
    AtMostOne(e, a);
    AtMostOne(e, b);
    hide Out;
    if multiset(x) == multiset(y) {
      assert |multiset(x)| == |x| && |multiset(y)| == |y|;
      if |x| == 1 {
        assert x[0] in multiset(y);
      }
    }
    if multiset(x) == multiset{} {
      assert |multiset(x)| == |x|;
    }
  }

  lemma AtMostOne(e: Setting, r: CheckResult)
    ensures |Out(e, r)| <= 1
  {
    hide Filled, Resource, PackAll, Passes;
  }

  lemma EqualTimes(e: Setting, a: CheckResult, xs: seq<CheckResult>, b: CheckResult, ys: seq<CheckResult>)
    requires forall cache: Cache :: Emitted(e, cache, [a] + xs) == Emitted(e, cache, [b] + ys)
    requires a.lastCheck == b.lastCheck > 0 && Key(a) == Key(b)
    ensures Out(e, a) == Out(e, b)
  {
    hide Out, Key, Emitted;
    var known := map[Key(a) := a.lastCheck];
    FirstEmits(e, a, xs, a.lastCheck);
    FirstEmits(e, b, ys, a.lastCheck);
    assert Emitted(e, map[], [a] + xs) == Emitted(e, map[], [b] + ys);
    assert Emitted(e, known, [a] + xs) == Emitted(e, known, [b] + ys);
    Cancel(multiset(Out(e, a)), multiset(Out(e, b)), Emitted(e, known, [a] + xs));
    OutSame(e, a, b);
  }

  lemma DifferentTimes(e: Setting, a: CheckResult, xs: seq<CheckResult>, b: CheckResult, ys: seq<CheckResult>)
    requires forall cache: Cache :: Emitted(e, cache, [a] + xs) == Emitted(e, cache, [b] + ys)
    requires a.lastCheck > 0 && b.lastCheck > 0 && a.lastCheck != b.lastCheck && Key(a) == Key(b)
    ensures Out(e, a) == []
  {
    hide Out, Key, Emitted;
    var known := map[Key(a) := a.lastCheck];
    FirstEmits(e, a, xs, a.lastCheck);
    FirstEmits(e, b, ys, a.lastCheck);
    assert Emitted(e, map[], [a] + xs) == Emitted(e, map[], [b] + ys);
    assert Emitted(e, known, [a] + xs) == Emitted(e, known, [b] + ys);
    Cancel(multiset(Out(e, a)), multiset{}, Emitted(e, known, [a] + xs));
    OutSame(e, a, b);
  }

  /** If every cache gives the same for a batch begun by `a` and for one begun by `b`, they are compatible. */
  lemma FirstsCompatible(e: Setting, a: CheckResult, xs: seq<CheckResult>, b: CheckResult, ys: seq<CheckResult>)
    requires forall cache: Cache :: Emitted(e, cache, [a] + xs) == Emitted(e, cache, [b] + ys)
    ensures Compatible(e, a, b)
  {
    hide Out, Key, Emitted;
    if a.lastCheck > 0 && b.lastCheck > 0 && Key(a) == Key(b) {
      if a.lastCheck == b.lastCheck {
        EqualTimes(e, a, xs, b, ys);
      } else {
        DifferentTimes(e, a, xs, b, ys);
        DifferentTimes(e, b, ys, a, xs);
      }
    }
  }

  lemma Cancel<T>(a: multiset<T>, b: multiset<T>, c: multiset<T>)
    ensures a + c == b + c ==> a == b
    ensures b == multiset{} && c == a + c ==> a == multiset{}
  {
    if a + c == b + c {
      assert a == a + c - c == b + c - c == b;
    }
    if c == a + c {
      assert a == a + c - c;
    }
  }

  lemma FirstResult(list: ServiceList, order: seq<Place>, p: Place) returns (rest: seq<CheckResult>)
    requires IsOrder(list, order) && order != [] && order[0] == p && Listed(list, p)
    ensures AllListed(list, order) && ResultsOf(list, order) == [ResultAt(list, p)] + rest
  {
    OrderListed(list, order);
    hide Listed, ResultAt, IsOrder;
    var rs := ResultsOf(list, order);
    hide ResultsOf;
    HeadRest(rs);
    rest := rs[1..];
  }

  lemma SameForAll(e: Setting, list: ServiceList, order: seq<Place>, other: seq<Place>)
    requires OrderFree(e, list) && IsOrder(list, order) && IsOrder(list, other)
    requires AllListed(list, order) && AllListed(list, other)
    ensures forall cache: Cache :: Emitted(e, cache, ResultsOf(list, order)) == Emitted(e, cache, ResultsOf(list, other))
  {
    hide Emitted, IsOrder, AllListed, ResultsOf;
    forall cache: Cache
      ensures Emitted(e, cache, ResultsOf(list, order)) == Emitted(e, cache, ResultsOf(list, other))
    {
      assert SameEmitted(e, cache, list, order, other);
    }
  }

  lemma FreeIsCompatible(e: Setting, list: ServiceList, some: seq<Place>, p: Place, q: Place)
    requires IsOrder(list, some) && OrderFree(e, list) && Listed(list, p) && Listed(list, q)
    ensures Compatible(e, ResultAt(list, p), ResultAt(list, q))
  {
    hide Listed, ResultAt, Compatible, Emitted, IsOrder, AllListed, OrderFree, ResultsOf;
    var order := MoveFirst(list, some, p);
    var other := MoveFirst(list, some, q);
    var xs := FirstResult(list, order, p);
    var ys := FirstResult(list, other, q);
    SameForAll(e, list, order, other);
    FirstsCompatible(e, ResultAt(list, p), xs, ResultAt(list, q), ys);
  }

  lemma CompatibleOrders(e: Setting, cache: Cache, list: ServiceList, order: seq<Place>, other: seq<Place>)
    requires IsOrder(list, order) && IsOrder(list, other) && CompatibleChecks(e, list)
    ensures SameEmitted(e, cache, list, order, other)
  {
    hide Listed, Grouped, ResultAt, Compatible, Emitted;
    OrdersSameBag(list, order, other);
    var rs := ResultsOf(list, order);
    forall a, b | a in rs && b in rs
      ensures Compatible(e, a, b)
    {
      var i :| 0 <= i < |rs| && rs[i] == a;
      var j :| 0 <= j < |rs| && rs[j] == b;
      assert Listed(list, order[i]) && Listed(list, order[j]);
    }
    hide ResultsOf, IsOrder;
    CompatibleSame(e, cache, rs, ResultsOf(list, other));
  }

  /**
    The resources emitted are the same for every iteration order, whatever was seen before, if and
    only if entries that share a key and carry check times emit alike and, unless they emit
    nothing, agree on the time.
   */
  lemma EmittedOrderIndependence(e: Setting, list: ServiceList, some: seq<Place>)
    requires IsOrder(list, some)
    ensures OrderFree(e, list) <==> CompatibleChecks(e, list)
  {
    hide Listed, IsOrder, ResultAt, Compatible, SameEmitted;
    if OrderFree(e, list) {
      forall p, q | Listed(list, p) && Listed(list, q)
        ensures Compatible(e, ResultAt(list, p), ResultAt(list, q))
      {
        FreeIsCompatible(e, list, some, p, q);
      }
    }
    if CompatibleChecks(e, list) {
      forall cache, order, other | IsOrder(list, order) && IsOrder(list, other)
        ensures AllListed(list, order) && AllListed(list, other) && SameEmitted(e, cache, list, order, other)
      {
        OrderListed(list, order);
        OrderListed(list, other);
        CompatibleOrders(e, cache, list, order, other);
      }
    }
  }

  lemma OrderListed(list: ServiceList, order: seq<Place>)
    requires IsOrder(list, order)
    ensures AllListed(list, order)
  {
    hide Listed;
  }
}

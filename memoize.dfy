/** The `cached(ttl)` decorator of src/cache.py: a call is filed under its
    key, served from the cache while the entry is live, and otherwise handed
    to the wrapped coroutine, whose result is stored when it is not `None`.
    What the coroutine returns or raises is a parameter of each call: the
    coroutine itself (an HTTP request in the tools) is not modelled. */
module Memoize {
  import opened Outcomes
  import opened Json
  import opened CacheKey
  import opened Store

  /** `settings.cache_ttl` unless the environment sets `CACHE_TTL`. */
  const DefaultCacheTtl: int := 3600
  /** `@cached(ttl=1800)` on `fetch_content`. */
  const FetchContentTtl: int := 1800
  /** `@cached(ttl=900)` on `search_web`. */
  const SearchWebTtl: int := 900

  /** One call of the wrapper: what it returns, what the cache holds after
      it, and whether it invoked the wrapped coroutine. */
  datatype CallStep<V> = CallStep(result: Outcome<Option<V>>, backing: Backing<V>, invoked: bool)

  /** The wrapper called when the cache is at `b`, the coroutine would give
      `upstream`, the lookup happens at `lookupTime` and the store at
      `storeTime`; `redisUp` says whether a Redis server that answered the
      lookup still answers once the coroutine has finished. */
  function CallSpec<V>(b: Backing<V>, key: string, ttl: int, upstream: Outcome<Option<V>>, redisUp: bool,
                       lookupTime: int, storeTime: int): (s: CallStep<V>)
    // the coroutine runs exactly on a miss
    ensures s.invoked <==> Read(b, key, lookupTime) == Ok(None)
    // a hit returns the cached value and changes nothing
    ensures Read(b, key, lookupTime).Ok? && Read(b, key, lookupTime).value.Some? ==>
      s == CallStep(Ok(Read(b, key, lookupTime).value), b, false)
    // a failing read is passed on, and only the probe's exception is spent
    ensures Read(b, key, lookupTime).Raised? ==> s == CallStep(Read(b, key, lookupTime), Settled(b), false)
    // a coroutine that raises or returns None leaves the entries alone
    ensures s.invoked && !(upstream.Ok? && upstream.value.Some?) ==>
      s.result == upstream && s.backing == AtStore(b, redisUp) && s.backing.entries == b.entries
    // a value is stored with the call's ttl, and returned unless the store refuses it
    ensures s.invoked && upstream.Ok? && upstream.value.Some? ==>
      var c := AtStore(b, redisUp);
      s.backing == Written(c, key, upstream.value.value, ttl, storeTime) &&
      s.result == (if WriteReply(c, ttl).Ok? then upstream else Raised(WriteReply(c, ttl).exception))
  {
    match Read(b, key, lookupTime)
    case Raised(e) => CallStep(Raised(e), Settled(b), false)
    case Ok(Some(x)) => CallStep(Ok(Some(x)), b, false)
    case Ok(None) =>
      var c := AtStore(b, redisUp);
      match upstream
      case Raised(e) => CallStep(Raised(e), c, true)
      case Ok(None) => CallStep(Ok(None), c, true)
      case Ok(Some(x)) =>
        var reply := WriteReply(c, ttl);
        CallStep(if reply.Ok? then Ok(Some(x)) else Raised(reply.exception), Written(c, key, x, ttl, storeTime), true)
  }

  // ---------------------------------------------------------------------
  // Properties of calls in a row
  // ---------------------------------------------------------------------

  /** A computed value is served, without invoking the coroutine, to every
      call with the same key until `storeTime + ttl`; from then on the next
      call invokes it again. */
  lemma StoredValueServedUntilExpiry<V>(b: Backing<V>, key: string, ttl: int, x: V, redisUp: bool,
                                        lookupTime: int, storeTime: int,
                                        upstream2: Outcome<Option<V>>, redisUp2: bool, lookupTime2: int, storeTime2: int)
    requires Read(b, key, lookupTime) == Ok(None)
    requires WriteReply(AtStore(b, redisUp), ttl).Ok?
    ensures var first := CallSpec(b, key, ttl, Ok(Some(x)), redisUp, lookupTime, storeTime);
      var second := CallSpec(first.backing, key, ttl, upstream2, redisUp2, lookupTime2, storeTime2);
      first.result == Ok(Some(x)) && first.invoked &&
      (lookupTime2 < storeTime + ttl ==> second.result == Ok(Some(x)) && !second.invoked && second.backing == first.backing) &&
      (lookupTime2 >= storeTime + ttl ==> second.invoked)
  {
    ReadAfterWrite(AtStore(b, redisUp), key, x, ttl, storeTime, lookupTime2);
  }

  /** A failure is not cached: the next call with the same key finds what was
      there before and, when that was nothing live, invokes the coroutine again
      (unless Redis stopped answering meanwhile, which the next call meets). */
  lemma FailureIsRetried<V>(b: Backing<V>, key: string, ttl: int, e: Exception, redisUp: bool,
                            lookupTime: int, storeTime: int,
                            upstream2: Outcome<Option<V>>, redisUp2: bool, lookupTime2: int, storeTime2: int)
    requires Read(b, key, lookupTime) == Ok(None)
    ensures var first := CallSpec(b, key, ttl, Raised(e), redisUp, lookupTime, storeTime);
      var second := CallSpec(first.backing, key, ttl, upstream2, redisUp2, lookupTime2, storeTime2);
      first.result == Raised(e) && first.invoked &&
      (b.remote && !redisUp ==> second.result == Raised(ConnectionError) && !second.invoked) &&
      (!b.remote || redisUp ==> (second.invoked <==> Lookup(b.entries, key, lookupTime2) == None))
  {
  }

  /** A `None` result is not cached either. */
  lemma NoneIsRetried<V>(b: Backing<V>, key: string, ttl: int, redisUp: bool,
                         lookupTime: int, storeTime: int,
                         upstream2: Outcome<Option<V>>, redisUp2: bool, lookupTime2: int, storeTime2: int)
    requires Read(b, key, lookupTime) == Ok(None)
    ensures var first := CallSpec(b, key, ttl, Ok(None), redisUp, lookupTime, storeTime);
      var second := CallSpec(first.backing, key, ttl, upstream2, redisUp2, lookupTime2, storeTime2);
      first.result == Ok(None) && first.invoked &&
      (b.remote && !redisUp ==> second.result == Raised(ConnectionError) && !second.invoked) &&
      (!b.remote || redisUp ==> (second.invoked <==> Lookup(b.entries, key, lookupTime2) == None))
  {
  }

  /** A call under one key does not change what another key holds, and what
      it reads changes only when Redis stops answering. */
  lemma CallLeavesOtherKeys<V>(b: Backing<V>, key: string, ttl: int, upstream: Outcome<Option<V>>, redisUp: bool,
                               lookupTime: int, storeTime: int, other: string, t: int)
    requires b.fault.None? && other != key
    ensures var s := CallSpec(b, key, ttl, upstream, redisUp, lookupTime, storeTime);
      Lookup(s.backing.entries, other, t) == Lookup(b.entries, other, t) &&
      Read(s.backing, other, t) == Read(if s.invoked then AtStore(b, redisUp) else b, other, t)
  {
    if Read(b, key, lookupTime) == Ok(None) && upstream.Ok? && upstream.value.Some? && (redisUp || !b.remote) {
      WriteLeavesOtherKeys(AtStore(b, redisUp), key, upstream.value.value, ttl, storeTime, other, t);
    }
  }

  /** With the in-process map the cache never turns a result of the
      coroutine into an error. */
  lemma MemoryKeepsResults<V>(b: Backing<V>, key: string, ttl: int, upstream: Outcome<Option<V>>, redisUp: bool,
                              lookupTime: int, storeTime: int)
    requires !b.remote && b.fault.None?
    ensures var s := CallSpec(b, key, ttl, upstream, redisUp, lookupTime, storeTime);
      s.invoked ==> s.result == upstream
  {
  }

  /** With Redis and a ttl that is not positive, every miss runs the coroutine
      and then raises in place of its result: Redis's `ResponseError`, or a
      connection error if the server stopped answering meanwhile. */
  lemma RemoteNonPositiveTtlRaises<V>(b: Backing<V>, key: string, ttl: int, x: V, redisUp: bool,
                                      lookupTime: int, storeTime: int)
    requires b.remote && b.fault.None? && ttl <= 0
    requires Lookup(b.entries, key, lookupTime) == None
    ensures var s := CallSpec(b, key, ttl, Ok(Some(x)), redisUp, lookupTime, storeTime);
      s.invoked && s.backing.entries == b.entries &&
      s.result == Raised(if redisUp then ResponseError(InvalidExpire) else ConnectionError)
  {
  }

  /** Redis that answers the lookup and stops answering while the coroutine
      runs: the computed result is lost to a connection error from `set`,
      nothing is stored, and the next call fails the same way. */
  lemma RedisDropRaises<V>(b: Backing<V>, key: string, ttl: int, x: V,
                           lookupTime: int, storeTime: int,
                           upstream2: Outcome<Option<V>>, lookupTime2: int, storeTime2: int)
    requires b.remote && b.fault.None?
    requires Lookup(b.entries, key, lookupTime) == None
    ensures var first := CallSpec(b, key, ttl, Ok(Some(x)), false, lookupTime, storeTime);
      var second := CallSpec(first.backing, key, ttl, upstream2, false, lookupTime2, storeTime2);
      first.invoked && first.result == Raised(ConnectionError) && first.backing.entries == b.entries &&
      !second.invoked && second.result == Raised(ConnectionError)
  {
  }

  /** One call's inputs: what the coroutine would give and the two clock readings. */
  datatype Attempt<V> = Attempt(upstream: Outcome<Option<V>>, redisUp: bool, lookupTime: int, storeTime: int)

  datatype RunResult<V> = RunResult(results: seq<Outcome<Option<V>>>, backing: Backing<V>, invocations: nat)

  /** Calls with one key, one after the other. */
  function Run<V>(b: Backing<V>, key: string, ttl: int, attempts: seq<Attempt<V>>): (r: RunResult<V>)
    ensures |r.results| == |attempts| && r.invocations <= |attempts|
    decreases |attempts|
  {
    if attempts == [] then RunResult([], b, 0)
    else
      var a := attempts[0];
      var s := CallSpec(b, key, ttl, a.upstream, a.redisUp, a.lookupTime, a.storeTime);
      var rest := Run(s.backing, key, ttl, attempts[1..]);
      RunResult([s.result] + rest.results, rest.backing, (if s.invoked then 1 else 0) + rest.invocations)
  }

  /** While an entry is live every call is a hit: nothing is invoked, every
      call returns the entry's value and the cache does not change. */
  lemma {:induction false} HitsWhileLive<V>(b: Backing<V>, key: string, ttl: int, attempts: seq<Attempt<V>>)
    requires b.fault.None? && key in b.entries
    requires forall i :: 0 <= i < |attempts| ==> attempts[i].lookupTime < b.entries[key].expiresAt
    ensures Run(b, key, ttl, attempts).invocations == 0
    ensures Run(b, key, ttl, attempts).backing == b
    ensures forall i :: 0 <= i < |attempts| ==> Run(b, key, ttl, attempts).results[i] == Ok(Some(b.entries[key].value))
  {
    if attempts != [] {
      HitsWhileLive(b, key, ttl, attempts[1..]);
      var rest := Run(b, key, ttl, attempts[1..]);
      assert Run(b, key, ttl, attempts).results == [Ok(Some(b.entries[key].value))] + rest.results;
    }
  }

  /** The coroutine runs once per ttl window: a first call that computes and
      stores a value, followed by calls that all look up before it expires,
      invokes it exactly once and returns that value every time. */
  lemma OneInvocationPerWindow<V>(b: Backing<V>, key: string, ttl: int, x: V,
                                  first: Attempt<V>, later: seq<Attempt<V>>)
    requires first.upstream == Ok(Some(x))
    requires Read(b, key, first.lookupTime) == Ok(None) && WriteReply(AtStore(b, first.redisUp), ttl).Ok?
    requires forall i :: 0 <= i < |later| ==> later[i].lookupTime < first.storeTime + ttl
    ensures Run(b, key, ttl, [first] + later).invocations == 1
    ensures forall i :: 0 <= i < |later| + 1 ==> Run(b, key, ttl, [first] + later).results[i] == Ok(Some(x))
  {
    var s := CallSpec(b, key, ttl, first.upstream, first.redisUp, first.lookupTime, first.storeTime);
    assert ([first] + later)[1..] == later;
    assert s.backing.entries == Stored(b.entries, key, x, ttl, first.storeTime);
    HitsWhileLive(s.backing, key, ttl, later);
  }

  // ---------------------------------------------------------------------
  // The wrapper object
  // ---------------------------------------------------------------------

  /** Positional and keyword arguments the coroutine was invoked with. */
  datatype Invocation = Invocation(args: seq<Json>, kwargs: seq<Member>)

  /** `cached(ttl)(func)`: the wrapper around a coroutine named `name`,
      sharing the process-wide `cache`. */
  class Cached<V> {
    const cache: Cache<V>
    const name: string
    const ttl: Option<int>
    const defaultTtl: int
    /** Every invocation of the wrapped coroutine, in order. */
    ghost var calls: seq<Invocation>

    constructor (cache: Cache<V>, name: string, ttl: Option<int>, defaultTtl: int)
      ensures this.cache == cache && this.name == name && this.ttl == ttl && this.defaultTtl == defaultTtl
      ensures calls == []
    {
      this.cache := cache;
      this.name := name;
      this.ttl := ttl;
      this.defaultTtl := defaultTtl;
      calls := [];
    }

    /** `final_ttl`: the decorator's ttl when given, else the settings' default. */
    function FinalTtl(): int
    {
      if ttl.Some? then ttl.value else defaultTtl
    }

    /** `await wrapper(*args, **kwargs)`, where `await func(*args, **kwargs)`
        would give `upstream` and, while it runs, the Redis server in use
        keeps answering or not as `redisUp` says. */
    method Call(args: seq<Json>, kwargs: seq<Member>, upstream: Outcome<Option<V>>, redisUp: bool,
                lookupTime: int, storeTime: int) returns (r: Outcome<Option<V>>)
      requires cache.Valid()
      modifies this`calls, cache, cache.Servers()
      // the backend decision, once made, stays made: no second probe
      ensures cache.Valid() && cache.redisChecked
      ensures old(cache.redisChecked) ==> cache.probes == old(cache.probes)
      ensures var s := CallSpec(old(cache.Current()), Key(name, args, kwargs), FinalTtl(), upstream, redisUp, lookupTime, storeTime);
        r == s.result && cache.Current() == s.backing &&
        calls == old(calls) + (if s.invoked then [Invocation(args, kwargs)] else [])
      // the backend not in use is left as it was
      ensures old(cache.Current()).remote ==> cache.memoryCache == old(cache.memoryCache)
      ensures cache.probe.Pong? && !old(cache.Current()).remote ==> cache.probe.server.data == old(cache.probe.server.data)
      ensures cache.probe.Pong? && !old(cache.Current()).remote ==> cache.probe.server.online == old(cache.probe.server.online)
    {
      var finalTtl := FinalTtl();
      var key := Key(name, args, kwargs);
      ghost var before := cache.Current();
      var hit := cache.Get(key, lookupTime);
      if hit.Raised? {
        return Raised(hit.exception);
      }
      if hit.value.Some? {
        return Ok(hit.value);
      }
      assert cache.Current() == before;
      calls := calls + [Invocation(args, kwargs)];
      // the outside world while the coroutine runs
      if cache.redisClient.Some? {
        cache.redisClient.value.online := redisUp;
      }
      assert cache.Current() == AtStore(before, redisUp);
      r := upstream;
      if upstream.Ok? && upstream.value.Some? {
        var stored := cache.Set(key, upstream.value.value, finalTtl, storeTime);
        if stored.Raised? {
          r := Raised(stored.exception);
        }
      }
    }
  }

  // ---------------------------------------------------------------------
  // Scenarios with the tools' wrappers
  // ---------------------------------------------------------------------

  /** `fetch_content(url)` with no Redis configured: the second call is served
      from the cache; a call 1801 seconds after the first fetches again. */
  method FetchContentScenario(url: string, page: string, newer: string)
    returns (first: Outcome<Option<string>>, second: Outcome<Option<string>>,
             third: Outcome<Option<string>>, ghost invocations: nat)
    ensures first == Ok(Some(page)) && second == Ok(Some(page))
    ensures third == Ok(Some(newer))
    ensures invocations == 2
  {
    var c := new Cache<string>(None, ProbeRaises(ConnectionError));
    var fetch := new Cached(c, "fetch_content", Some(FetchContentTtl), DefaultCacheTtl);
    first := fetch.Call([Str(url)], [], Ok(Some(page)), true, 0, 0);
    second := fetch.Call([Str(url)], [], Ok(Some(newer)), true, 1799, 1799);
    third := fetch.Call([Str(url)], [], Ok(Some(newer)), true, 1801, 1801);
    invocations := |fetch.calls|;
  }

  /** `search_web(query)` failing once and then succeeding: the failure is
      passed on and not cached, so the second call asks again. */
  method SearchRetryScenario(query: string, results: string, message: string)
    returns (first: Outcome<Option<string>>, second: Outcome<Option<string>>, ghost invocations: nat)
    ensures first == Raised(ValidationError(message))
    ensures second == Ok(Some(results))
    ensures invocations == 2
  {
    var c := new Cache<string>(None, ProbeRaises(ConnectionError));
    var search := new Cached(c, "search_web", Some(SearchWebTtl), DefaultCacheTtl);
    first := search.Call([Str(query)], [], Raised(ValidationError(message)), true, 0, 0);
    second := search.Call([Str(query)], [], Ok(Some(results)), true, 1, 1);
    invocations := |search.calls|;
  }

  /** With Redis answering the probe, results are kept on the server and the
      in-process map stays empty. */
  method RedisScenario(url: string, query: string, results: string)
    returns (first: Outcome<Option<string>>, second: Outcome<Option<string>>, ghost invocations: nat)
    requires url != ""
    ensures first == Ok(Some(results)) && second == Ok(Some(results))
    ensures invocations == 1
  {
    var server := new RedisServer<string>(true);
    var c := new Cache<string>(Some(url), Pong(server));
    var search := new Cached(c, "search_web", Some(SearchWebTtl), DefaultCacheTtl);
    first := search.Call([Str(query)], [], Ok(Some(results)), true, 0, 0);
    second := search.Call([Str(query)], [], Ok(None), true, 899, 899);
    invocations := |search.calls|;
    assert c.memoryCache == map[];
  }

  /** A probe that raises something other than a connection or timeout error
      fails the first call; every later call uses the in-process map, with
      the default ttl of 3600 seconds: a value stored at 1 is served at 3600
      and fetched again at 3601. */
  method ProbeErrorScenario(url: string, query: string, results: string, newer: string, message: string)
    returns (first: Outcome<Option<string>>, second: Outcome<Option<string>>,
             third: Outcome<Option<string>>, fourth: Outcome<Option<string>>, ghost invocations: nat)
    requires url != ""
    ensures first == Raised(OtherError(message))
    ensures second == Ok(Some(results)) && third == Ok(Some(results))
    ensures fourth == Ok(Some(newer))
    ensures invocations == 2
  {
    var c := new Cache<string>(Some(url), ProbeRaises(OtherError(message)));
    var search := new Cached(c, "search_web", None, DefaultCacheTtl);
    first := search.Call([Str(query)], [], Ok(Some(results)), true, 0, 0);
    second := search.Call([Str(query)], [], Ok(Some(results)), true, 1, 1);
    third := search.Call([Str(query)], [], Ok(None), true, 3600, 3600);
    fourth := search.Call([Str(query)], [], Ok(Some(newer)), true, 3601, 3601);
    invocations := |search.calls|;
  }

  /** Redis answers the probe and the lookup, then stops answering while
      `fetch_content` runs: `set` raises a connection error through the
      wrapper, the page is stored nowhere, and the next call fails at `get`. */
  method RedisDropScenario(url: string, page: string)
    returns (first: Outcome<Option<string>>, second: Outcome<Option<string>>, ghost invocations: nat)
    requires url != ""
    ensures first == Raised(ConnectionError) && second == Raised(ConnectionError)
    ensures invocations == 1
  {
    var server := new RedisServer<string>(true);
    var c := new Cache<string>(Some(url), Pong(server));
    var fetch := new Cached(c, "fetch_content", Some(FetchContentTtl), DefaultCacheTtl);
    first := fetch.Call([Str(url)], [], Ok(Some(page)), false, 0, 10);
    second := fetch.Call([Str(url)], [], Ok(Some(page)), false, 11, 11);
    invocations := |fetch.calls|;
    assert server.data == map[] && c.memoryCache == map[];
  }
}

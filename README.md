# Response cache of enhanced_mcp_server, in Dafny

The server memoizes its two upstream tools, `fetch_content(url)` and
`search_web(query)`, with the `cached(ttl)` decorator of `src/cache.py`.
This project models that cache and proves what it promises.

- **Key.** Each call is filed under a text key: the function's name, then
  `json.dumps(args, sort_keys=True)`, then `json.dumps(kwargs, sort_keys=True)`,
  separated by colons.
- **Hit.** While an entry is live, the stored value is returned and the
  coroutine is not called.
- **Miss.** The coroutine is awaited once. Its result is stored with the
  call-site ttl, or with `settings.cache_ttl` (3600) when none is given. A
  `None` result is not stored, and neither is an exception, which propagates.
- **Backend.** The `Cache` object decides its backend on first use, once
  and for all. It uses Redis when `REDIS_URL` is set and the server answers
  a ping. Otherwise it uses an in-process dict whose entries expire lazily:
  an entry is served only while `now < expires_at`, and an expired one stays
  in the dict.

Modules:

- `Outcomes`: `None`/value, the exceptions met, and a call that returns or raises.
- `TextOrder`: Python's string order, used by `sort_keys=True`. It is proved
  to be a strict total order.
- `Json`: the argument values and their `sort_keys` normal form. It also holds
  the text `json.dumps` writes for a value, and the proof that this text
  determines the normal form, in both directions.
- `CacheKey`: the key of src/cache.py:62 and its properties.
- `Store`:
  - entries, lazy expiry, and "last writer wins" over a run of writes;
  - a Redis server that may be unreachable;
  - backend resolution;
  - the `Cache` class, with fields `redisChecked`, `redisClient` and
    `memoryCache`, and methods `GetRedisClient`, `Get` and `Set`.
- `Memoize`:
  - `CallSpec`: one call of the wrapper as a function of the cache state;
  - the `Cached` class, whose method `Call` is the wrapper;
  - lemmas about calls made one after another;
  - scenarios with the tools' ttls.

Things that come from outside the program are parameters:

- The clock: each `Get`/`Set` takes the time in whole seconds. The wrapper's
  `Call` takes the time of its lookup and the time of its store.
- What `redis.from_url(url).ping()` does: a `Probe` fixed when the `Cache`
  is made. It is consulted at most once.
- What the wrapped coroutine returns or raises: the `upstream` argument of
  `Call`. A ghost log `calls` records every actual invocation.
- Whether the Redis server in use still answers once the coroutine has
  finished: the `redisUp` argument of `Call`. The coroutine is awaited
  between `get` and `set`, and in the tools it is an HTTP request of up to
  `request_timeout` = 30 seconds (src/settings.py:20).

Where the code differs from the stated design intent that a cache failure
should be invisible to callers, the model follows the code:

- Redis errors after the probe are not caught. A server that is unreachable
  at the lookup makes `get` raise `ConnectionError` through the wrapper. A
  server that stops answering while the coroutine runs makes `set` raise it,
  so the computed result is lost and nothing is stored
  (`Memoize.RedisDropRaises`, `Memoize.RedisDropScenario`). A `set` that
  Redis refuses, because the ttl is not positive, turns a computed result
  into an error (`Memoize.RemoteNonPositiveTtlRaises`).
- Only `ConnectionError` and `TimeoutError` are caught from the probe. Any
  other exception reaches the first caller. Because `_redis_checked` is
  already set, every later call uses the in-process dict
  (`Memoize.ProbeErrorScenario`).
- A ttl of zero or less is accepted by the in-process dict. The entry is
  stored already expired, so it is never served
  (`Store.NonPositiveTtlNeverServed`).

## Model

| member | source | states |
|---|---|---|
| `Json.Dumps` | src/cache.py:62 | definition of `json.dumps(..., sort_keys=True)`: the text written for the sorted normal form; its properties are stated by `Json.DumpsIgnoresMemberOrder`, `Json.WriteInjective` and `Json.DumpsEqualIff` |
| `CacheKey.Key` | src/cache.py:62 | definition of the cache key: the name, the positional arguments and the keyword arguments as `Json.Dumps` writes them, joined by colons; its properties are stated by `CacheKey.KeyEqualIff`, `CacheKey.KeyIgnoresKeywordOrder`, `CacheKey.PositionalAndKeywordDiffer` and `CacheKey.OneStringKey` |
| `Store.Lookup` | src/cache.py:44-46 | definition of reading the in-process dict: the value while `now < expires_at`, else `None`; its properties are stated by `Store.Stored`, `Store.NonPositiveTtlNeverServed`, `Store.LastWriterWins` and `Store.NeverWrittenIsAbsent` |
| `TextOrder.LessTotal` | src/cache.py:62 | any two different dict keys are ordered one way or the other, so `sort_keys` has one answer |
| `TextOrder.LessTransitive` | src/cache.py:62 | the string order used by `sort_keys` is transitive |
| `Json.SortMembersSorted` | src/cache.py:62 | with distinct names, `sort_keys` puts the members in strictly increasing name order |
| `Json.SortIgnoresOrder` | src/cache.py:62 | two dicts with the same members, inserted in any order, sort to the same sequence |
| `Json.DumpsIgnoresMemberOrder` | src/cache.py:62 | the normal form and the text of a dict do not depend on insertion order |
| `Json.WriteInjective` | src/cache.py:62 | the text written for a value, followed by anything that is not a digit, determines both the value and what follows |
| `Json.DumpsEqualIff` | src/cache.py:62 | two `json.dumps(..., sort_keys=True)` texts are equal exactly when the values agree with every dict sorted by name |
| `Json.EscapePlain` | src/cache.py:62 | a string with nothing that needs escaping is written inside quotes as it stands |
| `CacheKey.KeyEqualIff` | src/cache.py:62 | two calls share a key exactly when they have the same function name, the same positional values and the same keyword values compared by name; the names hold no colon |
| `CacheKey.KeyIgnoresKeywordOrder` | src/cache.py:62 | passing keyword arguments in another order gives the same key |
| `CacheKey.PositionalAndKeywordDiffer` | src/cache.py:62 | one value passed positionally and the same value passed by keyword give different keys |
| `CacheKey.OneStringKey` | src/server.py:17 | the key of `fetch_content(url)` as the `fetch` tool calls it is `fetch_content:["<url>"]:{}` when the URL is printable ASCII without quote or backslash |
| `Store.Stored` | src/cache.py:55 | after a store, the key reads as the value exactly while `t < now + ttl`; every other key reads and holds as before |
| `Store.NonPositiveTtlNeverServed` | src/cache.py:45-55 | with ttl <= 0 the stored value is never read back at or after the time of the store |
| `Store.LastSetTo` | src/cache.py:55 | finds the last write to a key, or reports that no write touched it |
| `Store.LastWriterWins` | src/cache.py:44-55 | after any run of writes, a key reads as its last write until that write expires, or as before if no write touched it |
| `Store.NeverWrittenIsAbsent` | src/cache.py:44-47 | a key that was never written reads as `None` at every time |
| `Store.RedisServer.Get` | src/cache.py:40-41 | `GET` answers the live entry, or raises `ConnectionError` when the server is unreachable |
| `Store.RedisServer.SetEx` | src/cache.py:52 | `SETEX` stores with the ttl, raises `ConnectionError` when unreachable and `ResponseError` when ttl <= 0, and then stores nothing |
| `Store.Resolution` | src/cache.py:24-32 | no client exactly when no URL is configured (`None` or empty) or the probe raised `ConnectionError`/`TimeoutError`; the server exactly when it answered; any other exception is raised |
| `Store.ResolvedClient` | src/cache.py:28-35 | later calls see the server exactly when a URL is configured and the probe answered |
| `Store.SettledOnce` | src/cache.py:20-35 | the probe's exception is raised by one access only: settling twice is settling once, only an unreachable Redis server still raises, and without Redis every key then reads from the dict |
| `Store.Written` | src/cache.py:49-55 | a refused write leaves every key reading as before, and after any write only an unreachable Redis server can still raise |
| `Store.AtStore` | src/cache.py:64-72 | while the coroutine is awaited the Redis server may stop answering; the entries stay where they were, the in-process dict cannot drop, and a dropped server refuses every key with `ConnectionError` |
| `Store.ReadAfterWrite` | src/cache.py:44-55 | a successful write is read back as the value exactly until `now + ttl`, and as `None` after |
| `Store.WriteLeavesOtherKeys` | src/cache.py:55 | a write changes what no other key reads |
| `Store.Cache.Backend` | src/cache.py:20-35 | the client handed out is always the server the probe reached, if any |
| `Store.Cache.constructor` | src/cache.py:14-18 | a new cache is unresolved, with no client and an empty dict |
| `Store.Cache.GetRedisClient` | src/cache.py:20-35 | the first call resolves the backend and runs the probe only if a URL is configured; later calls return the fixed result and never probe again |
| `Store.Cache.Get` | src/cache.py:37-47 | returns what the backend holds at `now` and leaves every entry as it was; expired entries stay |
| `Store.Cache.Set` | src/cache.py:49-55 | returns the backend's reply, changes only `key`, on the backend in use only |
| `Memoize.CallSpec` | src/cache.py:60-73 | the coroutine runs exactly on a miss; a hit returns the cached value and changes nothing; a raised exception or `None` result leaves the entries alone; a value is stored with the call's ttl on the backing as the coroutine's end finds it, and returned unless that store raises |
| `Memoize.StoredValueServedUntilExpiry` | src/cache.py:64-72 | after a computed value is stored, the next call is a hit until `storeTime + ttl` and invokes the coroutine from then on |
| `Memoize.FailureIsRetried` | src/cache.py:70-72 | a failure is passed on and not cached, so the next call invokes the coroutine again unless an older entry is still live, or fails with `ConnectionError` if Redis stopped answering meanwhile |
| `Memoize.NoneIsRetried` | src/cache.py:71-73 | a `None` result is returned and not cached, so the next call invokes the coroutine again, or fails with `ConnectionError` if Redis stopped answering meanwhile |
| `Memoize.CallLeavesOtherKeys` | src/cache.py:62-72 | a call under one key does not change what another key holds; what it reads changes only when Redis stops answering |
| `Memoize.MemoryKeepsResults` | src/cache.py:69-73 | with the in-process dict, an invoked call returns exactly what the coroutine gave |
| `Memoize.RemoteNonPositiveTtlRaises` | src/cache.py:52 | with Redis and ttl <= 0, a miss runs the coroutine and then raises instead of returning its result: `ResponseError`, or `ConnectionError` if the server stopped answering meanwhile; nothing is stored |
| `Memoize.RedisDropRaises` | src/cache.py:64-72 | Redis answering the lookup and dropping during the await: the call runs the coroutine, raises `ConnectionError` from `set` instead of its result, stores nothing, and the next call raises at `get` without invoking |
| `Memoize.Run` | src/cache.py:60-73 | a run of calls gives one result per call and invokes the coroutine at most once per call |
| `Memoize.HitsWhileLive` | src/cache.py:64-67 | while an entry is live, any number of calls are hits: no invocation, the entry's value each time, the cache unchanged |
| `Memoize.OneInvocationPerWindow` | src/cache.py:64-73 | a computing call followed by calls that look up before its expiry invokes the coroutine exactly once, and every call returns that value |
| `Memoize.Cached.constructor` | src/cache.py:57-59 | the wrapper keeps the function's name, the decorator's ttl and the default ttl, and has invoked nothing |
| `Memoize.Cached.Call` | src/cache.py:60-73 | the result, the new cache state and the invocation log are those `CallSpec` gives for the key of the call and `ttl if ttl is not None else settings.cache_ttl`, with the Redis server's reachability after the await as `redisUp` says; the backend is resolved afterwards and a resolved one is never probed again; the backend not in use is untouched |
| `Memoize.FetchContentScenario` | src/tools.py:12-13 | with no Redis, `fetch_content(url)` fetched at 0 is served at 1799 and fetched again at 1801: two invocations |
| `Memoize.SearchRetryScenario` | src/tools.py:30-31 | a `search_web` call that raises `ValidationError` is not cached; the next call invokes the coroutine and returns its result |
| `Memoize.RedisScenario` | src/cache.py:24-28 | with Redis answering, a second `search_web` call within 900 seconds is served from Redis with one invocation |
| `Memoize.RedisDropScenario` | src/tools.py:12-13 | `fetch_content(url)` with Redis dropping during the fetch: both calls raise `ConnectionError`, one invocation; the body asserts that neither Redis nor the dict holds the page |
| `Memoize.ProbeErrorScenario` | src/cache.py:22-32 | a probe raising some other exception fails the first call; later calls use the dict with the default ttl of src/settings.py:14: stored at 1, served at 3600, fetched again at 3601, two invocations |

## Left out

- Locking: `threading.Lock` is not modelled. Each `get_redis_client`, `get` and `set` is one atomic step, and calls of the wrapper run one after another. Concurrent misses on the same key are covered by `Store.LastWriterWins` (the last write wins), not by an interleaving model.
- async/await: the coroutine is not modelled. Its outcome is the `upstream` argument, and cancellation is not modelled.
- Logging: the `logger` calls have no effect on the cache and are not modelled.
- Clock: `time.time()` is a float read inside `get` and `set`. Here it is an integer supplied per call, and Redis's millisecond expiry is read at the same whole-second granularity.
- The probe: the effect of `socket_connect_timeout=2` is only its outcome. A Redis client that is falsy is not considered.
- Store.RedisServer.Get and Store.RedisServer.SetEx: a server that stops answering raises `ConnectionError`. A `TimeoutError` during these commands is not modelled separately.
- Store.RedisServer: values travel as `json.dumps`/`json.loads` text, but the model keeps the value itself. Values that JSON does not return unchanged (tuples, non-string dict keys) are not modelled.
- Json.Write: floats are not modelled, nor argument values that `json.dumps` refuses with `TypeError`.
- Json.Escape: only `"`, `\`, newline, carriage return, tab, backspace and form feed are escaped. Other control characters and non-ASCII characters are written as they are, while `json.dumps` (with `ensure_ascii=True`) writes them as `\uXXXX`. The key is therefore the exact text only for such characters. Equality of keys (`CacheKey.KeyEqualIff`) is unaffected, because both encodings are injective.
- CacheKey.KeyEqualIff: `Json` stands for the arguments after `json.dumps` has converted them, not for Python values. Calls that differ only in ways the conversion erases share a key in the program: a tuple and a list with the same items, and dict keys `1` and `"1"` (`f({1: 0})` and `f({"1": 0})`). Integer dict keys are also sorted as numbers by `sort_keys`, not as text; that ordering is not modelled.
- Memoize.Cached: `functools.wraps` only copies metadata, and `func.__name__` is the `name` given to the wrapper.
- `settings`: `cache_ttl` may be overridden from the environment. It is the `defaultTtl` parameter, with `DefaultCacheTtl` = 3600. `redis_url` is the `redisUrl` parameter.
- The other files (`server.py`, `tools.py`, `main.py`, the logging setup) are not part of this model. Only their call sites and ttls are used, in the scenarios.

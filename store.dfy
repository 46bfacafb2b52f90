/** The `Cache` object of src/cache.py: a backend decided once, on first use,
    between a Redis server and an in-process dict of entries that expire
    lazily.  Time is an integer number of seconds passed in by the caller
    (the source reads `time.time()`). */
module Store {
  import opened Outcomes

  // ---------------------------------------------------------------------
  // Entries and their lazy expiry
  // ---------------------------------------------------------------------

  /** `{"value": value, "expires_at": expiresAt}`. */
  datatype Entry<V> = Entry(value: V, expiresAt: int)

  /** What a read finds under `key` at time `now`: the value while
      `now < expires_at`; an expired entry reads as absent but stays in the map. */
  function Lookup<V>(m: map<string, Entry<V>>, key: string, now: int): Option<V>
  {
    if key in m && now < m[key].expiresAt then Some(m[key].value) else None
  }

  /** The map after storing `value` under `key` with `ttl` seconds at time `now`. */
  function Stored<V>(m: map<string, Entry<V>>, key: string, value: V, ttl: int, now: int)
    : (r: map<string, Entry<V>>)
    ensures forall t :: Lookup(r, key, t) == (if t < now + ttl then Some(value) else None)
    ensures forall k, t :: k != key ==> Lookup(r, k, t) == Lookup(m, k, t)
    ensures forall k :: k != key ==> (k in r <==> k in m) && (k in m ==> r[k] == m[k])
    ensures key in r
  {
    m[key := Entry(value, now + ttl)]
  }

  /** A ttl of zero or less is never served to a reader whose clock has not gone back. */
  lemma NonPositiveTtlNeverServed<V>(m: map<string, Entry<V>>, key: string, value: V, ttl: int, now: int, t: int)
    requires ttl <= 0 && now <= t
    ensures Lookup(Stored(m, key, value, ttl, now), key, t) == None
  {
  }

  // ---------------------------------------------------------------------
  // A sequence of writes: the last one to a key decides what is read
  // ---------------------------------------------------------------------

  /** One `set(key, value, ttl)` made at time `at`. */
  datatype SetCall<V> = SetCall(key: string, value: V, ttl: int, at: int)

  function Replay<V>(m: map<string, Entry<V>>, sets: seq<SetCall<V>>): map<string, Entry<V>>
  {
    if sets == [] then m
    else
      var s := sets[|sets| - 1];
      Stored(Replay(m, sets[..|sets| - 1]), s.key, s.value, s.ttl, s.at)
  }

  /** The index of the last write to `key`, if there is one. */
  function LastSetTo<V>(sets: seq<SetCall<V>>, key: string): (r: Option<nat>)
    ensures r.None? <==> forall i :: 0 <= i < |sets| ==> sets[i].key != key
    ensures r.Some? ==> r.value < |sets| && sets[r.value].key == key
    ensures r.Some? ==> forall i :: r.value < i < |sets| ==> sets[i].key != key
  {
    if sets == [] then None
    else if sets[|sets| - 1].key == key then Some(|sets| - 1)
    else LastSetTo(sets[..|sets| - 1], key)
  }

  /** Last writer wins: after a run of writes, a key reads as its last write
      (live until that write's expiry), or as before the run if nothing
      wrote it. */
  lemma {:induction false} LastWriterWins<V>(m: map<string, Entry<V>>, sets: seq<SetCall<V>>, key: string, t: int)
    ensures Lookup(Replay(m, sets), key, t) ==
      match LastSetTo(sets, key)
      case None => Lookup(m, key, t)
      case Some(i) => if t < sets[i].at + sets[i].ttl then Some(sets[i].value) else None
  {
    if sets != [] {
      var init := sets[..|sets| - 1];
      LastWriterWins(m, init, key, t);
      if sets[|sets| - 1].key != key {
        assert LastSetTo(sets, key) == LastSetTo(init, key);
        match LastSetTo(init, key)
        case None =>
        case Some(i) => assert sets[i] == init[i];
      }
    }
  }

  /** A key that was never written and was not there before reads as absent. */
  lemma NeverWrittenIsAbsent<V>(m: map<string, Entry<V>>, sets: seq<SetCall<V>>, key: string, t: int)
    requires key !in m
    requires forall i :: 0 <= i < |sets| ==> sets[i].key != key
    ensures Lookup(Replay(m, sets), key, t) == None
  {
    LastWriterWins(m, sets, key, t);
  }

  // ---------------------------------------------------------------------
  // The Redis server behind `redis.from_url(...)`
  // ---------------------------------------------------------------------

  /** The reply Redis gives to `SETEX` with a non-positive expiry. */
  const InvalidExpire: string := "invalid expire time in 'setex' command"

  /** A Redis server reached through the client: the keys it holds with their
      expiry, and whether it answers.  Values travel as `json.dumps` text and
      come back through `json.loads`; the model keeps the value itself. */
  class RedisServer<V> {
    var data: map<string, Entry<V>>
    var online: bool

    constructor (online: bool)
      ensures data == map[] && this.online == online
    {
      data := map[];
      this.online := online;
    }

    /** `GET key`; a server that does not answer raises `ConnectionError`. */
    method Get(key: string, now: int) returns (r: Outcome<Option<V>>)
      ensures !online ==> r == Raised(ConnectionError)
      ensures online ==> r == Ok(Lookup(data, key, now))
    {
      if !online {
        return Raised(ConnectionError);
      }
      r := Ok(Lookup(data, key, now));
    }

    /** `SETEX key ttl value`. */
    method SetEx(key: string, ttl: int, value: V, now: int) returns (r: Outcome<()>)
      modifies this`data
      ensures r == (if !online then Raised(ConnectionError)
                    else if ttl <= 0 then Raised(ResponseError(InvalidExpire))
                    else Ok(()))
      ensures data == (if r.Ok? then Stored(old(data), key, value, ttl, now) else old(data))
    {
      if !online {
        return Raised(ConnectionError);
      }
      if ttl <= 0 {
        return Raised(ResponseError(InvalidExpire));
      }
      data := Stored(data, key, value, ttl, now);
      r := Ok(());
    }
  }

  // ---------------------------------------------------------------------
  // Deciding the backend
  // ---------------------------------------------------------------------

  /** What `redis.from_url(url, socket_connect_timeout=2).ping()` does when it
      is tried: it answers, or it raises. */
  datatype Probe<V> = Pong(server: RedisServer<V>) | ProbeRaises(exception: Exception)

  /** `if settings.redis_url:` — neither `None` nor the empty string. */
  predicate Configured(url: Option<string>)
  {
    url.Some? && url.value != ""
  }

  /** The exceptions the probe catches and answers with the in-process map. */
  predicate Caught(e: Exception)
  {
    e == ConnectionError || e == TimeoutError
  }

  /** What the first `get_redis_client()` returns: no client when no URL is
      configured or the probe failed with a caught exception, the server when
      it answered, and any other exception passed on to the caller. */
  function Resolution<V>(url: Option<string>, probe: Probe<V>): (r: Outcome<Option<RedisServer<V>>>)
    ensures r == Ok(None) <==> !Configured(url) || (probe.ProbeRaises? && Caught(probe.exception))
    ensures r.Raised? <==> Configured(url) && probe.ProbeRaises? && !Caught(probe.exception)
    ensures r.Raised? ==> r.exception == probe.exception
    ensures r.Ok? && r.value.Some? <==> Configured(url) && probe.Pong?
    ensures r.Ok? && r.value.Some? ==> r.value.value == probe.server
  {
    if !Configured(url) then Ok(None)
    else match probe
      case Pong(server) => Ok(Some(server))
      case ProbeRaises(e) => if Caught(e) then Ok(None) else Raised(e)
  }

  /** The client every later call sees: an exception from the probe leaves
      `_redis_client` at `None`. */
  function ResolvedClient<V>(url: Option<string>, probe: Probe<V>): (r: Option<RedisServer<V>>)
    ensures r.Some? <==> Configured(url) && probe.Pong?
    ensures r.Some? ==> r.value == probe.server
  {
    match Resolution(url, probe)
    case Ok(client) => client
    case Raised(_) => None
  }

  // ---------------------------------------------------------------------
  // What a read or a write meets
  // ---------------------------------------------------------------------

  /** The entries the next access works on, the exception it raises before
      touching them (if any), and whether they live on the Redis server. */
  datatype Backing<V> = Backing(entries: map<string, Entry<V>>, fault: Option<Exception>, remote: bool)

  /** What `get(key)` returns. */
  function Read<V>(b: Backing<V>, key: string, now: int): Outcome<Option<V>>
  {
    if b.fault.Some? then Raised(b.fault.value) else Ok(Lookup(b.entries, key, now))
  }

  /** What `set(key, value, ttl)` returns: the in-process map takes any ttl,
      Redis refuses one that is not positive. */
  function WriteReply<V>(b: Backing<V>, ttl: int): Outcome<()>
  {
    if b.fault.Some? then Raised(b.fault.value)
    else if b.remote && ttl <= 0 then Raised(ResponseError(InvalidExpire))
    else Ok(())
  }

  /** After an access: an exception from the probe is met once, later
      accesses use the in-process map. */
  function Settled<V>(b: Backing<V>): Backing<V>
  {
    if b.fault.Some? && !b.remote then b.(fault := None) else b
  }

  /** The probe's exception is met by one access only: after it, settling
      again changes nothing, only an unreachable Redis server can still
      raise, and without Redis every key reads from the in-process map. */
  lemma SettledOnce<V>(b: Backing<V>)
    ensures Settled(Settled(b)) == Settled(b)
    ensures Settled(b).fault.Some? ==> Settled(b).remote && Settled(b) == b
    ensures !b.remote ==> forall k, t :: Read(Settled(b), k, t) == Ok(Lookup(b.entries, k, t))
  {
  }

  /** After `set(key, value, ttl)` at time `now`. */
  function Written<V>(b: Backing<V>, key: string, value: V, ttl: int, now: int): (r: Backing<V>)
    // a refused write leaves every key reading as before
    ensures WriteReply(b, ttl).Raised? ==> forall k, t :: Lookup(r.entries, k, t) == Lookup(b.entries, k, t)
    // after a write only an unreachable Redis server can still raise
    ensures r.fault.Some? ==> r.remote
  {
    Settled(b).(entries := if WriteReply(b, ttl).Ok? then Stored(b.entries, key, value, ttl, now) else b.entries)
  }

  /** The backing as a later access within the same call finds it: a Redis
      server that answered may have stopped answering meanwhile (`up` false);
      the in-process map cannot go away. */
  function AtStore<V>(b: Backing<V>, up: bool): (r: Backing<V>)
    // the entries are where they were, and only Redis can drop
    ensures r.entries == b.entries && r.remote == b.remote
    ensures !b.remote ==> r == b
    // a dropped server refuses every access with a connection error
    ensures b.remote && !up ==> forall k, t :: Read(r, k, t) == Raised(ConnectionError)
  {
    if b.remote && !up then b.(fault := Some(ConnectionError)) else b
  }

  /** A write that succeeds is read back, exactly until its expiry. */
  lemma ReadAfterWrite<V>(b: Backing<V>, key: string, value: V, ttl: int, now: int, t: int)
    requires WriteReply(b, ttl).Ok?
    ensures Read(Written(b, key, value, ttl, now), key, t) ==
      Ok(if t < now + ttl then Some(value) else None)
  {
  }

  /** A write touches no other key. */
  lemma WriteLeavesOtherKeys<V>(b: Backing<V>, key: string, value: V, ttl: int, now: int, k: string, t: int)
    requires b.fault.None? && k != key
    ensures Read(Written(b, key, value, ttl, now), k, t) == Read(b, k, t)
  {
  }

  // ---------------------------------------------------------------------
  // The cache object
  // ---------------------------------------------------------------------

  /** `Cache()`: the Redis URL from the settings and what the probe will do
      are fixed when it is made; the probe runs at most once. */
  class Cache<V> {
    const redisUrl: Option<string>
    const probe: Probe<V>
    var redisChecked: bool
    var redisClient: Option<RedisServer<V>>
    var memoryCache: map<string, Entry<V>>
    /** How many times the probe has been run. */
    ghost var probes: nat

    ghost predicate Valid()
      reads this
    {
      && redisClient == (if redisChecked then ResolvedClient(redisUrl, probe) else None)
      && probes == (if redisChecked && Configured(redisUrl) then 1 else 0)
    }

    /** The Redis server the probe may reach. */
    function Servers(): set<object>
    {
      if probe.Pong? then {probe.server} else {}
    }

    /** What `get_redis_client()` returns, given whether it has run before. */
    function Backend(checked: bool): (r: Outcome<Option<RedisServer<V>>>)
      ensures r.Ok? && r.value.Some? ==> r.value.value in Servers()
    {
      if checked then Ok(ResolvedClient(redisUrl, probe)) else Resolution(redisUrl, probe)
    }

    /** What the next `get` or `set` meets. */
    ghost function Current(): Backing<V>
      reads this, Servers()
    {
      match Backend(redisChecked)
      case Raised(e) => Backing(memoryCache, Some(e), false)
      case Ok(None) => Backing(memoryCache, None, false)
      case Ok(Some(s)) => Backing(s.data, if s.online then None else Some(ConnectionError), true)
    }

    constructor (redisUrl: Option<string>, probe: Probe<V>)
      ensures this.redisUrl == redisUrl && this.probe == probe
      ensures Valid() && !redisChecked && memoryCache == map[]
    {
      this.redisUrl := redisUrl;
      this.probe := probe;
      redisChecked := false;
      redisClient := None;
      memoryCache := map[];
      probes := 0;
    }

    method GetRedisClient() returns (r: Outcome<Option<RedisServer<V>>>)
      requires Valid()
      modifies this`redisChecked, this`redisClient, this`probes
      ensures Valid() && redisChecked
      ensures r == Backend(old(redisChecked))
      ensures old(redisChecked) ==> probes == old(probes)
    {
      if !redisChecked {
        redisChecked := true;
        if Configured(redisUrl) {
          probes := probes + 1;
          match probe
          case Pong(server) =>
            redisClient := Some(server);
          case ProbeRaises(e) =>
            if Caught(e) {
              redisClient := None;
            } else {
              return Raised(e);
            }
        }
      }
      r := Ok(redisClient);
    }

    method Get(key: string, now: int) returns (r: Outcome<Option<V>>)
      requires Valid()
      modifies this`redisChecked, this`redisClient, this`probes
      ensures Valid() && redisChecked
      ensures old(redisChecked) ==> probes == old(probes)
      ensures r == Read(old(Current()), key, now)
      ensures Current() == Settled(old(Current()))
    {
      var client := GetRedisClient();
      if client.Raised? {
        return Raised(client.exception);
      }
      match client.value
      case Some(server) =>
        r := server.Get(key, now);
      case None =>
        r := Ok(Lookup(memoryCache, key, now));
    }

    method Set(key: string, value: V, ttl: int, now: int) returns (r: Outcome<()>)
      requires Valid()
      modifies this`redisChecked, this`redisClient, this`probes, this`memoryCache, Servers()
      ensures Valid() && redisChecked
      ensures old(redisChecked) ==> probes == old(probes)
      ensures r == WriteReply(old(Current()), ttl)
      ensures Current() == Written(old(Current()), key, value, ttl, now)
      ensures Current().remote ==> memoryCache == old(memoryCache)
      ensures probe.Pong? ==> probe.server.online == old(probe.server.online)
      ensures probe.Pong? && !Current().remote ==> probe.server.data == old(probe.server.data)
    {
      var client := GetRedisClient();
      if client.Raised? {
        return Raised(client.exception);
      }
      match client.value
      case Some(server) =>
        r := server.SetEx(key, ttl, value, now);
      case None =>
        memoryCache := Stored(memoryCache, key, value, ttl, now);
        r := Ok(());
    }
  }
}

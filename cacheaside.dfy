/** `fetch_usgs_data`: look the query up in the Redis cache, and on a miss ask
    the upstream USGS service and store its answer for `CACHE_DURATION`
    seconds. Every exception on the way, from the cache as well as from
    upstream, becomes a 503. */
module CacheAside {
  import opened Wrappers
  import opened Geo
  import opened Codec
  import opened CacheKey

  /** `CACHE_DURATION` in seconds. */
  const CacheDuration := 30

  /** The textual prefix of every 503 `detail`. */
  const FetchErrorPrefix := "Error fetching data: "

  /** The 503 raised for an exception whose `str` is `cause`. */
  function Unavailable(cause: string): HttpError {
    HttpError(503, FetchErrorPrefix + cause)
  }

  /** What the Redis server holds and how it currently fails: `getError` and
      `setError` are the messages its `get` and `setex` raise, when they do. */
  datatype StoreState = StoreState(
    entries: map<string, string>,
    ttls: map<string, int>,
    getError: Option<string>,
    setError: Option<string>)

  /** The process-wide `redis_client`. Expiry of entries is not modelled:
      `ttls` records the lifetime each `setex` asked for. */
  class RedisStore {
    var entries: map<string, string>
    var ttls: map<string, int>
    var getError: Option<string>
    var setError: Option<string>

    constructor (getError: Option<string>, setError: Option<string>)
      ensures State() == StoreState(map[], map[], getError, setError)
    {
      entries, ttls := map[], map[];
      this.getError, this.setError := getError, setError;
    }

    function State(): StoreState
      reads this
    {
      StoreState(entries, ttls, getError, setError)
    }

    /** `redis_client.get(key)`: the stored text, None for a missing key, or
        the message of the exception it raises. */
    method Get(key: string) returns (r: Result<Option<string>, string>)
      ensures getError.Some? ==> r == Err(getError.value)
      ensures getError.None? ==> r == Ok(if key in entries then Some(entries[key]) else None)
    {
      if getError.Some? {
        r := Err(getError.value);
      } else if key in entries {
        r := Ok(Some(entries[key]));
      } else {
        r := Ok(None);
      }
    }

    /** `redis_client.setex(key, seconds, value)`: stores the entry, or raises
        with `setError` and stores nothing. */
    method SetEx(key: string, seconds: int, value: string) returns (failure: Option<string>)
      modifies this`entries, this`ttls
      ensures failure == setError
      ensures failure.None? ==> entries == old(entries)[key := value] && ttls == old(ttls)[key := seconds]
      ensures failure.Some? ==> entries == old(entries) && ttls == old(ttls)
    {
      failure := setError;
      if failure.None? {
        entries := entries[key := value];
        ttls := ttls[key := seconds];
      }
    }
  }

  /** The store behind a possibly missing client: None when `redis_client` is None. */
  function Snapshot(cache: RedisStore?): Option<StoreState>
    reads cache
  {
    if cache == null then None else Some(cache.State())
  }

  /** The outcome of `requests.get(...)`, `raise_for_status()` and
      `response.json()`: the parsed collection, or the message of the exception
      one of them raised (non-2xx status, transport failure, unparsable body). */
  datatype Reply = Data(data: Collection) | Failure(reason: string)

  /** The upstream service: a fixed answer per query, and the log of the
      queries it was sent. */
  class Upstream {
    const respond: Pairs -> Reply
    var calls: seq<Pairs>

    constructor (respond: Pairs -> Reply)
      ensures this.respond == respond && calls == []
    {
      this.respond := respond;
      calls := [];
    }

    method Query(params: Pairs) returns (r: Reply)
      modifies this`calls
      ensures calls == old(calls) + [params] && r == respond(params)
    {
      calls := calls + [params];
      r := respond(params);
    }
  }

  /** The outcome of one `fetch_usgs_data` call: what it returns or raises, the
      store afterwards, and the queries it sent upstream. */
  datatype Fetched = Fetched(result: Result<Collection, HttpError>, store: Option<StoreState>, queries: seq<Pairs>)

  /** A stored text counts as a hit when it is there and not empty. */
  predicate Hit(s: StoreState, key: string) {
    key in s.entries && s.entries[key] != ""
  }

  /** The upstream leg of a fetch: query, then write back if there is a store. */
  function Miss(params: Pairs, key: string, store: Option<StoreState>, respond: Pairs -> Reply): Fetched {
    match respond(params)
    case Failure(reason) => Fetched(Err(Unavailable(reason)), store, [params])
    case Data(d) =>
      if store.None? then Fetched(Ok(d), None, [params])
      else
        var s := store.value;
        if s.setError.Some? then Fetched(Err(Unavailable(s.setError.value)), store, [params])
        else Fetched(Ok(d), Some(s.(entries := s.entries[key := Encode(d)], ttls := s.ttls[key := CacheDuration])), [params])
  }

  /** The specification of `fetch_usgs_data(params)` against the store and the
      upstream service. */
  function Fetch(params: Pairs, store: Option<StoreState>, respond: Pairs -> Reply): Fetched {
    FetchAt(params, KeyOf(params), store, respond)
  }

  /** A fetch once the key of `params` is known. */
  function FetchAt(params: Pairs, key: string, store: Option<StoreState>, respond: Pairs -> Reply): Fetched {
    if store.None? then Miss(params, key, store, respond)
    else
      var s := store.value;
      if s.getError.Some? then Fetched(Err(Unavailable(s.getError.value)), store, [])
      else if Hit(s, key) then
        match Decode(s.entries[key])
        case Some(c) => Fetched(Ok(c), store, [])
        case None => Fetched(Err(Unavailable(MalformedText)), store, [])
      else Miss(params, key, store, respond)
  }

  /** `fetch_usgs_data(params)` with `redis_client` = `cache` (null for None). */
  method FetchUsgsData(params: Pairs, cache: RedisStore?, upstream: Upstream) returns (r: Result<Collection, HttpError>)
    modifies cache, upstream
    ensures var f := Fetch(params, old(Snapshot(cache)), upstream.respond);
      r == f.result && Snapshot(cache) == f.store && upstream.calls == old(upstream.calls) + f.queries
  {
    var key := KeyOf(params);
    if cache != null {
      var cached := cache.Get(key);
      if cached.Err? {
        return Err(Unavailable(cached.error));
      }
      if cached.value.Some? && cached.value.value != "" {
        match Decode(cached.value.value)
        case Some(c) => return Ok(c);
        case None => return Err(Unavailable(MalformedText));
      }
    }
    var reply := upstream.Query(params);
    if reply.Failure? {
      return Err(Unavailable(reply.reason));
    }
    if cache != null {
      var failure := cache.SetEx(key, CacheDuration, Encode(reply.data));
      if failure.Some? {
        return Err(Unavailable(failure.value));
      }
    }
    return Ok(reply.data);
  }

  // ---------------------------------------------------------------------------
  // Properties of the protocol

  /** A hit answers from the store: no upstream query and no write. */
  lemma HitAnswersFromStore(params: Pairs, s: StoreState, respond: Pairs -> Reply)
    requires s.getError.None? && Hit(s, KeyOf(params))
    ensures var f := Fetch(params, Some(s), respond);
      f.queries == [] && f.store == Some(s) &&
      f.result == (match Decode(s.entries[KeyOf(params)])
                   case Some(c) => Ok(c)
                   case None => Err(Unavailable(MalformedText)))
  {
  }

  /** A miss with a working store queries upstream once and stores its answer
      under the same key for `CACHE_DURATION` seconds. */
  lemma MissStoresAnswer(params: Pairs, s: StoreState, respond: Pairs -> Reply)
    requires s.getError.None? && s.setError.None? && !Hit(s, KeyOf(params))
    requires respond(params).Data?
    ensures var f := Fetch(params, Some(s), respond); var key := KeyOf(params);
      f.queries == [params] && f.result == Ok(respond(params).data) &&
      f.store == Some(s.(entries := s.entries[key := Encode(respond(params).data)],
                         ttls := s.ttls[key := CacheDuration]))
  {
  }

  /** Without a client every call goes upstream and there is no store. */
  lemma NoClientAlwaysQueries(params: Pairs, respond: Pairs -> Reply)
    ensures var f := Fetch(params, None, respond);
      f.queries == [params] && f.store.None? &&
      f.result == (match respond(params)
                   case Data(d) => Ok(d)
                   case Failure(reason) => Err(Unavailable(reason)))
  {
  }

  /** Every failure is a 503 with the `Error fetching data: ` detail, and the
      store is left as it was; at most one query goes upstream. */
  lemma FailuresAre503(params: Pairs, store: Option<StoreState>, respond: Pairs -> Reply)
    ensures var f := Fetch(params, store, respond);
      |f.queries| <= 1 &&
      (f.result.Err? ==> f.result.error.status == 503 &&
                         FetchErrorPrefix <= f.result.error.detail &&
                         f.store == store)
  {
    FetchAtFailures(params, KeyOf(params), store, respond);
  }

  /** `FailuresAre503` once the key is known. */
  lemma FetchAtFailures(params: Pairs, key: string, store: Option<StoreState>, respond: Pairs -> Reply)
    ensures var f := FetchAt(params, key, store, respond);
      |f.queries| <= 1 &&
      (f.result.Err? ==> f.result.error.status == 503 &&
                         FetchErrorPrefix <= f.result.error.detail &&
                         f.store == store)
  {
    if store.None? || (store.value.getError.None? && !Hit(store.value, key)) {
      MissFailures(params, key, store, respond);
    } else if store.value.getError.Some? {
      UnavailablePrefix(store.value.getError.value);
    } else {
      UnavailablePrefix(MalformedText);
    }
  }

  /** `FailuresAre503` for the upstream leg. */
  lemma MissFailures(params: Pairs, key: string, store: Option<StoreState>, respond: Pairs -> Reply)
    ensures var f := Miss(params, key, store, respond);
      |f.queries| == 1 &&
      (f.result.Err? ==> f.result.error.status == 503 &&
                         FetchErrorPrefix <= f.result.error.detail &&
                         f.store == store)
  {
    match respond(params)
    case Failure(reason) => UnavailablePrefix(reason);
    case Data(d) =>
      if store.Some? && store.value.setError.Some? {
        UnavailablePrefix(store.value.setError.value);
      }
  }

  /** Every 503 detail starts with `Error fetching data: `. */
  lemma UnavailablePrefix(cause: string)
    ensures Unavailable(cause).status == 503
    ensures FetchErrorPrefix <= Unavailable(cause).detail
  {
  }

  /** A failing cache read is not recovered: 503 and no upstream query. */
  lemma ReadFailureIsNotRecovered(params: Pairs, s: StoreState, respond: Pairs -> Reply)
    requires s.getError.Some?
    ensures Fetch(params, Some(s), respond) == Fetched(Err(Unavailable(s.getError.value)), Some(s), [])
  {
  }

  /** A failing write-back loses the upstream answer: 503 after one query. */
  lemma WriteFailureDiscardsAnswer(params: Pairs, s: StoreState, respond: Pairs -> Reply)
    requires s.getError.None? && s.setError.Some? && !Hit(s, KeyOf(params)) && respond(params).Data?
    ensures Fetch(params, Some(s), respond) == Fetched(Err(Unavailable(s.setError.value)), Some(s), [params])
  {
  }

  /** What a fetch returns is the upstream answer to this very query or what
      the store held under its key. */
  lemma ResultIsUpstreamOrStored(params: Pairs, store: Option<StoreState>, respond: Pairs -> Reply)
    requires Fetch(params, store, respond).result.Ok?
    ensures var f := Fetch(params, store, respond); var c := f.result.value;
      (f.queries == [params] && respond(params) == Data(c)) ||
      (f.queries == [] && store.Some? && Hit(store.value, KeyOf(params)) &&
       Decode(store.value.entries[KeyOf(params)]) == Some(c))
  {
  }

  /** Two consecutive calls with the same parameters and a working store give
      the same answer and reach upstream at most once between them: the second
      call is a hit on what the first stored (or found). */
  lemma Idempotent(params: Pairs, s: StoreState, respond: Pairs -> Reply)
    requires s.getError.None? && s.setError.None?
    requires Fetch(params, Some(s), respond).result.Ok?
    ensures var first := Fetch(params, Some(s), respond);
      var second := Fetch(params, first.store, respond);
      second.result == first.result && second.store == first.store && second.queries == [] &&
      |first.queries + second.queries| <= 1
  {
    var key := KeyOf(params);
    if !Hit(s, key) {
      var d := respond(params).data;
      RoundTrip(d);
      var e := Encode(d);
      assert e != "";
    }
  }

  /** The parameters enter a fetch only through their key and the upstream
      answer to them. */
  lemma SameKeySameFetch(p: Pairs, q: Pairs, store: Option<StoreState>, respond: Pairs -> Reply)
    requires KeyOf(p) == KeyOf(q) && respond(p) == respond(q)
    ensures Fetch(p, store, respond).result == Fetch(q, store, respond).result
    ensures Fetch(p, store, respond).store == Fetch(q, store, respond).store
  {
    var key := KeyOf(p);
    if store.Some? && (store.value.getError.Some? || Hit(store.value, key)) {
      assert FetchAt(p, key, store, respond) == FetchAt(q, key, store, respond);
    } else {
      assert FetchAt(p, key, store, respond) == Miss(p, key, store, respond);
      assert FetchAt(q, key, store, respond) == Miss(q, key, store, respond);
      MissSameAnswer(p, q, key, store, respond);
    }
  }

  /** The upstream leg depends on the query only through upstream's reply to
      it (and the key it writes under). */
  lemma MissSameAnswer(p: Pairs, q: Pairs, key: string, store: Option<StoreState>, respond: Pairs -> Reply)
    requires respond(p) == respond(q)
    ensures Miss(p, key, store, respond).result == Miss(q, key, store, respond).result
    ensures Miss(p, key, store, respond).store == Miss(q, key, store, respond).store
  {
  }

  /** Writing the same parameters in another order changes nothing: same key,
      same answer, same store afterwards. */
  lemma OrderOfParamsIrrelevant(p: Pairs, q: Pairs, store: Option<StoreState>, respond: Pairs -> Reply)
    requires UniqueNames(p) && UniqueNames(q) && multiset(p) == multiset(q)
    requires respond(p) == respond(q)
    ensures Fetch(p, store, respond).result == Fetch(q, store, respond).result
    ensures Fetch(p, store, respond).store == Fetch(q, store, respond).store
  {
    KeyIgnoresOrder(p, q);
    SameKeySameFetch(p, q, store, respond);
  }
}

/** `GET /earthquake/sf` (`get_sf_earthquakes`): every earthquake within 100 km
    of San Francisco above a magnitude, as upstream returns it. */
module SfRoute {
  import opened Wrappers
  import opened Geo
  import opened Dates
  import opened CacheKey
  import opened CacheAside
  import opened Responses
  import FeltRoute

  /** The default `min_magnitude`, as `str` renders it. */
  const DefaultMinMagnitude := "2.0"

  /** The seven-entry query, in the order the route writes it; `minMag` is the
      text of `min_magnitude`. */
  function SfParams(start: string, end: string, minMag: string): (ps: Pairs)
    ensures |ps| == 7 && UniqueNames(ps)
    ensures ps[1] == ("starttime", start) && ps[2] == ("endtime", end) && ps[3] == ("minmagnitude", minMag)
  {
    [("format", "geojson"), ("starttime", start), ("endtime", end), ("minmagnitude", minMag),
     ("latitude", FeltRoute.Latitude), ("longitude", FeltRoute.Longitude), ("maxradiuskm", FeltRoute.MaxRadiusKm)]
  }

  /** The route against the cache store and upstream: check `start_time`, then
      `end_time`, then fetch and format what came back. */
  function Sf(startTime: string, endTime: string, format: string, minMag: string,
              store: Option<StoreState>, respond: Pairs -> Reply): Handled
  {
    match ValidateDate(startTime, "Start_time")
    case Err(e) => Rejected(e, store)
    case Ok(start) =>
      match ValidateDate(endTime, "end_time")
      case Err(e) => Rejected(e, store)
      case Ok(end) => SfServe(Fetch(SfParams(start, end, minMag), store, respond), format)
  }

  /** The route once the fetch is done: pass its error on, or format the data. */
  function SfServe(f: Fetched, format: string): Handled {
    match f.result
    case Err(e) => Handled(Err(e), f.store, f.queries)
    case Ok(data) => Handled(Ok(FormatResponse(data, format)), f.store, f.queries)
  }

  /** `get_sf_earthquakes(start_time, end_time, format, min_magnitude)` with
      `redis_client` = `cache`. */
  method GetSfEarthquakes(startTime: string, endTime: string, format: string, minMag: string,
                          cache: RedisStore?, upstream: Upstream)
    returns (r: Result<Rendered, HttpError>)
    modifies cache, upstream
    ensures var h := Sf(startTime, endTime, format, minMag, old(Snapshot(cache)), upstream.respond);
      r == h.response && Snapshot(cache) == h.store && upstream.calls == old(upstream.calls) + h.queries
  {
    ghost var store, respond := Snapshot(cache), upstream.respond;
    var start := ValidateDate(startTime, "Start_time");
    if start.Err? {
      assert Sf(startTime, endTime, format, minMag, store, respond) == Rejected(start.error, store);
      return Err(start.error);
    }
    var end := ValidateDate(endTime, "end_time");
    if end.Err? {
      assert Sf(startTime, endTime, format, minMag, store, respond) == Rejected(end.error, store);
      return Err(end.error);
    }
    ghost var spec := Fetch(SfParams(start.value, end.value, minMag), store, respond);
    assert Sf(startTime, endTime, format, minMag, store, respond) == SfServe(spec, format);
    var data := FetchUsgsData(SfParams(start.value, end.value, minMag), cache, upstream);
    if data.Err? {
      return Err(data.error);
    }
    r := Ok(FormatResponse(data.value, format));
  }

  /** Dates are checked before anything else: an invalid `start_time` or
      `end_time` is a 400 naming it, and neither the cache nor upstream is
      consulted. */
  lemma InvalidDateNoFetch(startTime: string, endTime: string, format: string, minMag: string,
                           store: Option<StoreState>, respond: Pairs -> Reply)
    requires ValidateDate(startTime, "Start_time").Err? || ValidateDate(endTime, "end_time").Err?
    ensures var h := Sf(startTime, endTime, format, minMag, store, respond);
      h.queries == [] && h.store == store &&
      h.response == Err(HttpError(400, InvalidDateDetail(
        if ValidateDate(startTime, "Start_time").Err? then "Start_time" else "end_time")))
  {
  }

  /** No post-filter: a successful response carries the fetched collection
      itself, every feature and the upstream metadata included. */
  lemma PassesDataThrough(startTime: string, endTime: string, format: string, minMag: string,
                          store: Option<StoreState>, respond: Pairs -> Reply)
    requires Sf(startTime, endTime, format, minMag, store, respond).response.Ok?
    ensures var f := Fetch(SfParams(startTime, endTime, minMag), store, respond);
      f.result.Ok? && Sf(startTime, endTime, format, minMag, store, respond).response.value.body.data == f.result.value
  {
    var a := ValidateDate(startTime, "Start_time");
    var b := ValidateDate(endTime, "end_time");
    var f := Fetch(SfParams(a.value, b.value, minMag), store, respond);
    assert Sf(startTime, endTime, format, minMag, store, respond) == SfServe(f, format);
  }

  /** The response format is not part of the query: a JSON and an XML request
      for one window share the cache entry and the upstream query. */
  lemma FormatNotInKey(startTime: string, endTime: string, format1: string, format2: string, minMag: string,
                       store: Option<StoreState>, respond: Pairs -> Reply)
    ensures var h1 := Sf(startTime, endTime, format1, minMag, store, respond);
      var h2 := Sf(startTime, endTime, format2, minMag, store, respond);
      h1.store == h2.store && h1.queries == h2.queries &&
      (h1.response.Ok? <==> h2.response.Ok?) &&
      (h1.response.Ok? ==> h1.response.value.body.data == h2.response.value.body.data)
  {
    var a := ValidateDate(startTime, "Start_time");
    var b := ValidateDate(endTime, "end_time");
    if a.Ok? && b.Ok? {
      var f := Fetch(SfParams(a.value, b.value, minMag), store, respond);
      assert Sf(startTime, endTime, format1, minMag, store, respond) == SfServe(f, format1);
      assert Sf(startTime, endTime, format2, minMag, store, respond) == SfServe(f, format2);
    }
  }

  /** With the default `min_magnitude` the query is the felt route's query,
      entry for entry, so both routes use one cache entry per window. */
  lemma SharesFeltQuery(start: string, end: string)
    ensures SfParams(start, end, DefaultMinMagnitude) == FeltRoute.FeltParams(start, end)
    ensures KeyOf(SfParams(start, end, DefaultMinMagnitude)) == KeyOf(FeltRoute.FeltParams(start, end))
  {
  }

  /** Different magnitudes give different keys: the cache never answers one
      magnitude with data fetched for another. */
  lemma MagnitudeInKey(start: string, end: string, m1: string, m2: string)
    requires m1 != m2
    ensures KeyOf(SfParams(start, end, m1)) != KeyOf(SfParams(start, end, m2))
  {
    var p, q := SfParams(start, end, m1), SfParams(start, end, m2);
    assert p[3] == ("minmagnitude", m1) && ("minmagnitude", m1) !in q;
    assert multiset(p) != multiset(q);
    if KeyOf(p) == KeyOf(q) {
      KeySeparatesParams(p, q);
    }
  }
}

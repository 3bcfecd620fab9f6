/** `GET /earthquake-felt` (`get_sf_earthquakes_felt`): earthquakes around San
    Francisco with at least `min_felt_reports` felt reports. */
module FeltRoute {
  import opened Wrappers
  import opened Geo
  import opened Dates
  import opened CacheKey
  import opened CacheAside
  import opened Responses

  /** The coordinates, radius and magnitude floor sent upstream, as `str`
      renders them. */
  const MinMagnitude := "2.0"
  const Latitude := "37.7749"
  const Longitude := "-122.4194"
  const MaxRadiusKm := "100"

  /** The query for the window `start`..`end`, in the order the route writes it. */
  function FeltParams(start: string, end: string): (ps: Pairs)
    ensures |ps| == 7 && UniqueNames(ps)
    ensures ps[1] == ("starttime", start) && ps[2] == ("endtime", end)
  {
    [("format", "geojson"), ("starttime", start), ("endtime", end), ("minmagnitude", MinMagnitude),
     ("latitude", Latitude), ("longitude", Longitude), ("maxradiuskm", MaxRadiusKm)]
  }

  /** `properties.get("felt", 0)` read as a number: an absent count is 0. */
  function FeltCount(f: Feature): int
    requires !f.felt.Null?
  {
    if f.felt.Num? then f.felt.n else 0
  }

  /** The comprehension's condition: `felt` is not null and reaches `m`. */
  predicate FeltKeeps(f: Feature, m: int) {
    !f.felt.Null? && FeltCount(f) >= m
  }

  /** The features that pass, in their original order. */
  function FeltFilter(fs: seq<Feature>, m: int): (r: seq<Feature>)
    ensures |r| <= |fs|
    ensures forall i :: 0 <= i < |r| ==> FeltKeeps(r[i], m)
  {
    if fs == [] then []
    else (if FeltKeeps(fs[0], m) then [fs[0]] else []) + FeltFilter(fs[1..], m)
  }

  /** The response body: a bare feature collection, without the upstream
      metadata or any other top-level member. */
  function FeltCollection(data: Collection, m: int): (c: Collection)
    ensures c.kind == FeatureCollectionType && c.metadata.None?
  {
    Collection(FeatureCollectionType, None, FeltFilter(data.features, m))
  }

  /** The route against the cache store and upstream: check `start_time`, then
      `end_time`, then fetch, filter and format. */
  function Felt(startTime: string, endTime: string, format: string, minFelt: int,
                store: Option<StoreState>, respond: Pairs -> Reply): Handled
  {
    match ValidateDate(startTime, "Start_time")
    case Err(e) => Rejected(e, store)
    case Ok(start) =>
      match ValidateDate(endTime, "end_time")
      case Err(e) => Rejected(e, store)
      case Ok(end) =>
        FeltServe(Fetch(FeltParams(start, end), store, respond), format, minFelt)
  }

  /** The route once the fetch is done: pass its error on, or filter and format. */
  function FeltServe(f: Fetched, format: string, minFelt: int): Handled {
    match f.result
    case Err(e) => Handled(Err(e), f.store, f.queries)
    case Ok(data) => Handled(Ok(FormatResponse(FeltCollection(data, minFelt), format)), f.store, f.queries)
  }

  /** `get_sf_earthquakes_felt(start_time, end_time, format, min_felt_reports)`
      with `redis_client` = `cache`. */
  method GetSfEarthquakesFelt(startTime: string, endTime: string, format: string, minFelt: int,
                              cache: RedisStore?, upstream: Upstream)
    returns (r: Result<Rendered, HttpError>)
    modifies cache, upstream
    ensures var h := Felt(startTime, endTime, format, minFelt, old(Snapshot(cache)), upstream.respond);
      r == h.response && Snapshot(cache) == h.store && upstream.calls == old(upstream.calls) + h.queries
  {
    ghost var store, respond := Snapshot(cache), upstream.respond;
    var start := ValidateDate(startTime, "Start_time");
    if start.Err? {
      assert Felt(startTime, endTime, format, minFelt, store, respond) == Rejected(start.error, store);
      return Err(start.error);
    }
    var end := ValidateDate(endTime, "end_time");
    if end.Err? {
      assert Felt(startTime, endTime, format, minFelt, store, respond) == Rejected(end.error, store);
      return Err(end.error);
    }
    ghost var spec := Fetch(FeltParams(start.value, end.value), store, respond);
    assert Felt(startTime, endTime, format, minFelt, store, respond) == FeltServe(spec, format, minFelt);
    var data := FetchUsgsData(FeltParams(start.value, end.value), cache, upstream);
    if data.Err? {
      return Err(data.error);
    }
    r := Ok(FormatResponse(FeltCollection(data.value, minFelt), format));
  }

  // ---------------------------------------------------------------------------
  // The felt filter

  /** A feature is in the output exactly when it is in the input and passes. */
  lemma {:induction false} FeltFilterMembers(fs: seq<Feature>, m: int, x: Feature)
    ensures x in FeltFilter(fs, m) <==> x in fs && FeltKeeps(x, m)
  {
    if fs != [] {
      FeltFilterMembers(fs[1..], m, x);
      assert fs == [fs[0]] + fs[1..];
    }
  }

  /** The filter works feature by feature and keeps the order: filtering a
      concatenation is concatenating the filtered parts. */
  lemma {:induction false} FeltFilterAppend(a: seq<Feature>, b: seq<Feature>, m: int)
    ensures FeltFilter(a + b, m) == FeltFilter(a, m) + FeltFilter(b, m)
  {
    if a == [] {
      assert a + b == b;
    } else {
      assert (a + b)[1..] == a[1..] + b;
      FeltFilterAppend(a[1..], b, m);
    }
  }

  /** A feature whose `felt` is an explicit null is dropped at every threshold. */
  lemma NullFeltDropped(f: Feature, m: int)
    requires f.felt.Null?
    ensures FeltFilter([f], m) == []
  {
    assert [f][1..] == [];
  }

  /** A feature without a `felt` member counts as 0 reports: it is kept exactly
      when the threshold is at most 0. */
  lemma AbsentFeltIsZero(f: Feature, m: int)
    requires f.felt.Absent?
    ensures FeltFilter([f], m) == (if m <= 0 then [f] else [])
  {
    assert [f][1..] == [];
  }

  /** A feature with `n` reports is kept exactly when `n >= m`. */
  lemma CountedFelt(f: Feature, m: int)
    requires f.felt.Num?
    ensures FeltFilter([f], m) == (if f.felt.n >= m then [f] else [])
  {
    assert [f][1..] == [];
  }

  /** A threshold above every count leaves no feature. */
  lemma {:induction false} ThresholdAboveAll(fs: seq<Feature>, m: int)
    requires forall i :: 0 <= i < |fs| ==> fs[i].felt.Null? || FeltCount(fs[i]) < m
    ensures FeltFilter(fs, m) == []
  {
    if fs != [] {
      ThresholdAboveAll(fs[1..], m);
    }
  }

  /** Raising the threshold only removes features: what passes at `hi` is what
      passes at `lo` filtered again at `hi`. */
  lemma {:induction false} RaisingThreshold(fs: seq<Feature>, lo: int, hi: int)
    requires lo <= hi
    ensures FeltFilter(fs, hi) == FeltFilter(FeltFilter(fs, lo), hi)
  {
    if fs != [] {
      RaisingThreshold(fs[1..], lo, hi);
      var head := if FeltKeeps(fs[0], lo) then [fs[0]] else [];
      FeltFilterAppend(head, FeltFilter(fs[1..], lo), hi);
      assert head == [] || head[1..] == [];
    }
  }

  // ---------------------------------------------------------------------------
  // The route

  /** Dates are checked before anything else: an invalid `start_time` or
      `end_time` is a 400 naming it, and neither the cache nor upstream is
      consulted. */
  lemma InvalidDateNoFetch(startTime: string, endTime: string, format: string, minFelt: int,
                           store: Option<StoreState>, respond: Pairs -> Reply)
    requires ValidateDate(startTime, "Start_time").Err? || ValidateDate(endTime, "end_time").Err?
    ensures var h := Felt(startTime, endTime, format, minFelt, store, respond);
      h.queries == [] && h.store == store &&
      h.response == Err(HttpError(400, InvalidDateDetail(
        if ValidateDate(startTime, "Start_time").Err? then "Start_time" else "end_time")))
  {
  }

  /** The response format and the felt threshold are not part of the query:
      every such request for one window reads and writes the same cache entry
      and sends the same query upstream. */
  lemma ThresholdAndFormatNotInKey(startTime: string, endTime: string, format1: string, format2: string,
                                   m1: int, m2: int, store: Option<StoreState>, respond: Pairs -> Reply)
    ensures var h1 := Felt(startTime, endTime, format1, m1, store, respond);
      var h2 := Felt(startTime, endTime, format2, m2, store, respond);
      h1.store == h2.store && h1.queries == h2.queries && h1.response.Err? == h2.response.Err?
  {
    var a := ValidateDate(startTime, "Start_time");
    var b := ValidateDate(endTime, "end_time");
    if a.Ok? && b.Ok? {
      var f := Fetch(FeltParams(a.value, b.value), store, respond);
      assert Felt(startTime, endTime, format1, m1, store, respond) == FeltServe(f, format1, m1);
      assert Felt(startTime, endTime, format2, m2, store, respond) == FeltServe(f, format2, m2);
    }
  }

  /** A successful response carries exactly the filtered features of the data
      the fetch produced, in a bare `FeatureCollection`. */
  lemma OkIsFilteredFetch(startTime: string, endTime: string, format: string, minFelt: int,
                          store: Option<StoreState>, respond: Pairs -> Reply)
    requires Felt(startTime, endTime, format, minFelt, store, respond).response.Ok?
    ensures var f := Fetch(FeltParams(startTime, endTime), store, respond);
      var body := Felt(startTime, endTime, format, minFelt, store, respond).response.value.body;
      f.result.Ok? &&
      body.data == Collection(FeatureCollectionType, None, FeltFilter(f.result.value.features, minFelt)) &&
      (body.XmlBody? <==> WantsXml(format))
  {
    var a := ValidateDate(startTime, "Start_time");
    var b := ValidateDate(endTime, "end_time");
    var f := Fetch(FeltParams(a.value, b.value), store, respond);
    assert Felt(startTime, endTime, format, minFelt, store, respond) == FeltServe(f, format, minFelt);
  }

  /** Four features at threshold 10: twelve reports pass, an explicit null,
      an absent count and three reports do not. */
  lemma FeltExample()
    ensures var a, b, c, d := Feature("a", Num(12), Absent), Feature("b", Null, Absent),
                              Feature("c", Absent, Absent), Feature("d", Num(3), Absent);
      FeltFilter([a, b, c, d], 10) == [a]
  {
    var a, b, c, d := Feature("a", Num(12), Absent), Feature("b", Null, Absent),
                      Feature("c", Absent, Absent), Feature("d", Num(3), Absent);
    FeltFilterAppend([a], [b, c, d], 10);
    FeltFilterAppend([b], [c, d], 10);
    FeltFilterAppend([c], [d], 10);
    CountedFelt(a, 10);
    NullFeltDropped(b, 10);
    AbsentFeltIsZero(c, 10);
    CountedFelt(d, 10);
    assert [a, b, c, d] == [a] + ([b] + ([c] + [d]));
  }
}

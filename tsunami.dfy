/** `GET /{state}` (`get_tsunami_alerts`): the earthquakes of the `time_range`
    hours before `start_time` that carry a tsunami flag, with a metadata block
    naming the state and the window. */
module TsunamiRoute {
  import opened Wrappers
  import opened Digits
  import opened Geo
  import opened Dates
  import opened CacheKey
  import opened CacheAside
  import opened Responses

  /** The magnitude floor sent upstream, as `str(2.0)` renders it. */
  const MinMagnitude := "2.0"

  /** The prefix of the 400 raised for a `ValueError` of the handler. */
  const DateFormatPrefix := "Invalid date format: "

  /** What the framework answers for an exception the handler does not catch
      (`OverflowError` from the subtraction, `TypeError` from the filter). */
  const InternalError := HttpError(500, "Internal Server Error")

  /** The suffix `Z` stands for. */
  const UtcSuffix := "+00:00"

  /** `s.replace('Z', '+00:00')`. */
  function ReplaceZ(s: string): (t: string)
    ensures forall i :: 0 <= i < |t| ==> t[i] != 'Z'
    ensures (forall i :: 0 <= i < |s| ==> s[i] != 'Z') ==> t == s
  {
    if s == [] then []
    else (if s[0] == 'Z' then UtcSuffix else [s[0]]) + ReplaceZ(s[1..])
  }

  /** The replacement works character by character. */
  lemma {:induction false} ReplaceZAppend(a: string, b: string)
    ensures ReplaceZ(a + b) == ReplaceZ(a) + ReplaceZ(b)
  {
    if a == [] {
      assert a + b == b;
    } else {
      assert (a + b)[1..] == a[1..] + b;
      ReplaceZAppend(a[1..], b);
    }
  }

  /** The two ends of the window, as validated: `start` is the given instant
      and `end` the instant `time_range` hours earlier. */
  datatype Window = Window(start: string, end: string)

  /** The window step of the handler: read `start_time`, subtract the hours
      and check both re-serialized instants. */
  function TsunamiWindow(startTime: string, timeRange: nat): Result<Window, HttpError> {
    match FromIsoFormat(ReplaceZ(startTime))
    case Err(msg) => Err(HttpError(400, DateFormatPrefix + msg))
    case Ok(st) =>
      match MinusHours(st.time, timeRange)
      case None => Err(InternalError)
      case Some(et) =>
        var en := Instant(et, st.micro, st.offset);
        match ValidateDate(IsoFormat(st), "Start_time")
        case Err(e) => Err(e)
        case Ok(start) =>
          match ValidateDate(IsoFormat(en), "End_time")
          case Err(e) => Err(e)
          case Ok(end) => Ok(Window(start, end))
  }

  /** The upstream query: from the earlier instant to the given one; neither
      the state nor the format takes part. */
  function TsunamiParams(w: Window): (ps: Pairs)
    ensures |ps| == 4 && UniqueNames(ps)
    ensures ps[1] == ("starttime", w.end) && ps[2] == ("endtime", w.start)
  {
    [("format", "geojson"), ("starttime", w.end), ("endtime", w.start), ("minmagnitude", MinMagnitude)]
  }

  /** The metadata block, in the order the handler writes it. */
  function Metadata(state: string, timeRange: nat, w: Window): (ps: Pairs)
    ensures |ps| == 4 && UniqueNames(ps)
    ensures ps[0] == ("state", state) && ps[1] == ("time_range", NatText(timeRange) + " hours")
    ensures ps[2] == ("start_time", w.start) && ps[3] == ("end_time", w.end)
  {
    [("state", state), ("time_range", NatText(timeRange) + " hours"), ("start_time", w.start), ("end_time", w.end)]
  }

  /** `properties.get("tsunami", 0) > 0` for a feature whose flag is not null:
      an absent flag counts as 0. */
  predicate Alert(f: Feature) {
    f.tsunami.Num? && f.tsunami.n > 0
  }

  /** The comprehension over the features: the alerts in their order, or None
      when a feature has a null flag (`None > 0` raises `TypeError`). */
  function TsunamiFilter(fs: seq<Feature>): (r: Option<seq<Feature>>)
    ensures r.None? <==> exists i :: 0 <= i < |fs| && fs[i].tsunami.Null?
    ensures r.Some? ==> |r.value| <= |fs| && forall i :: 0 <= i < |r.value| ==> Alert(r.value[i])
  {
    if fs == [] then Some([])
    else if fs[0].tsunami.Null? then None
    else
      match TsunamiFilter(fs[1..])
      case None => None
      case Some(rest) => Some((if Alert(fs[0]) then [fs[0]] else []) + rest)
  }

  /** The response body built from the fetched data. */
  function TsunamiCollection(state: string, timeRange: nat, w: Window, data: Collection): (r: Result<Collection, HttpError>)
    ensures r.Ok? ==> r.value.kind == FeatureCollectionType && r.value.metadata == Some(Metadata(state, timeRange, w))
    ensures r.Err? ==> r.error == InternalError
  {
    match TsunamiFilter(data.features)
    case None => Err(InternalError)
    case Some(alerts) => Ok(Collection(FeatureCollectionType, Some(Metadata(state, timeRange, w)), alerts))
  }

  /** The route against the cache store and upstream. */
  function Tsunami(state: string, startTime: string, timeRange: nat, format: string,
                   store: Option<StoreState>, respond: Pairs -> Reply): Handled
  {
    TsunamiAnswer(state, timeRange, TsunamiWindow(startTime, timeRange), format, store, respond)
  }

  /** The route once the window is known: turn a bad one down, otherwise
      fetch its query and serve the data. */
  function TsunamiAnswer(state: string, timeRange: nat, window: Result<Window, HttpError>, format: string,
                         store: Option<StoreState>, respond: Pairs -> Reply): Handled
  {
    match window
    case Err(e) => Rejected(e, store)
    case Ok(w) => TsunamiServe(state, timeRange, w, Fetch(TsunamiParams(w), store, respond), format)
  }

  /** The route once the fetch is done: pass its error on, or filter, add the
      metadata and format. */
  function TsunamiServe(state: string, timeRange: nat, w: Window, f: Fetched, format: string): Handled {
    match f.result
    case Err(e) => Handled(Err(e), f.store, f.queries)
    case Ok(data) =>
      match TsunamiCollection(state, timeRange, w, data)
      case Err(e) => Handled(Err(e), f.store, f.queries)
      case Ok(c) => Handled(Ok(FormatResponse(c, format)), f.store, f.queries)
  }

  /** `get_tsunami_alerts(state, start_time, time_range, format)` with
      `redis_client` = `cache`; the framework has already held `time_range`
      to 1..168. */
  method GetTsunamiAlerts(state: string, startTime: string, timeRange: nat, format: string,
                          cache: RedisStore?, upstream: Upstream)
    returns (r: Result<Rendered, HttpError>)
    requires 1 <= timeRange <= 168
    modifies cache, upstream
    ensures var h := Tsunami(state, startTime, timeRange, format, old(Snapshot(cache)), upstream.respond);
      r == h.response && Snapshot(cache) == h.store && upstream.calls == old(upstream.calls) + h.queries
  {
    ghost var store, respond := Snapshot(cache), upstream.respond;
    var window := TsunamiWindow(startTime, timeRange);
    if window.Err? {
      assert Tsunami(state, startTime, timeRange, format, store, respond) == Rejected(window.error, store);
      return Err(window.error);
    }
    var w := window.value;
    ghost var spec := Fetch(TsunamiParams(w), store, respond);
    assert Tsunami(state, startTime, timeRange, format, store, respond) == TsunamiServe(state, timeRange, w, spec, format);
    var data := FetchUsgsData(TsunamiParams(w), cache, upstream);
    if data.Err? {
      return Err(data.error);
    }
    var body := TsunamiCollection(state, timeRange, w, data.value);
    if body.Err? {
      return Err(body.error);
    }
    r := Ok(FormatResponse(body.value, format));
  }

  // ---------------------------------------------------------------------------
  // The window

  /** The canonical form never contains `Z`. */
  lemma FormatHasNoZ(t: DateTime)
    requires Valid(t)
    ensures forall i :: 0 <= i < |Format(t)| ==> Format(t)[i] != 'Z'
  {
    var f := Format(t);
    forall i | 0 <= i < |f| ensures f[i] != 'Z' {
      FormatPieces(t);
      if i < 4 { assert f[i] == f[0..4][i]; }
      else if 5 <= i < 7 { assert f[i] == f[5..7][i - 5]; }
      else if 8 <= i < 10 { assert f[i] == f[8..10][i - 8]; }
      else if i >= 11 { assert f[i] == f[11..][i - 11]; }
    }
  }

  /** A canonical start gives the window from `time_range` hours earlier to
      the start, both in canonical form; it fails only when the earlier
      instant would fall before year 1. */
  lemma CanonicalWindow(t: DateTime, timeRange: nat)
    requires Valid(t)
    ensures var w := TsunamiWindow(Format(t), timeRange);
      match MinusHours(t, timeRange)
      case None => w == Err(InternalError)
      case Some(e) => w == Ok(Window(Format(t), Format(e)))
  {
    FormatHasNoZ(t);
    var naive := Instant(t, 0, None);
    IsoFormatRoundTrip(naive);
    IsoFormatCanonical(naive);
    ParseFormat(t);
    match MinusHours(t, timeRange)
    case None =>
    case Some(e) =>
      IsoFormatCanonical(Instant(e, 0, None));
      ParseFormat(e);
  }

  /** A window that comes out starts at the instant `fromisoformat` read from
      the start text (naive and whole-second, written canonically) and spans
      exactly `time_range` hours: both ends are canonical instants, the end
      that many hours before the start, on the same minute and second. */
  lemma WindowSpansTimeRange(startTime: string, timeRange: nat)
    requires TsunamiWindow(startTime, timeRange).Ok?
    ensures FromIsoFormat(ReplaceZ(startTime)).Ok? &&
      var st := FromIsoFormat(ReplaceZ(startTime)).value;
      st.micro == 0 && st.offset.None? && TsunamiWindow(startTime, timeRange).value.start == Format(st.time)
    ensures var w := TsunamiWindow(startTime, timeRange).value;
      ParseCanonical(w.start).Some? && ParseCanonical(w.end).Some? &&
      var s, e := ParseCanonical(w.start).value, ParseCanonical(w.end).value;
      HourNumber(e) + timeRange == HourNumber(s) && e.minute == s.minute && e.second == s.second
  {
    var st := FromIsoFormat(ReplaceZ(startTime)).value;
    var et := MinusHours(st.time, timeRange).value;
    var en := Instant(et, st.micro, st.offset);
    IsoFormatCanonical(st);
    IsoFormatCanonical(en);
    ParseFormat(st.time);
    ParseFormat(et);
  }

  /** The end is checked too, but its check never fails: the end has the
      start's microseconds and offset, so it passes whenever the start did. */
  lemma EndCheckNeverFails(startTime: string, timeRange: nat)
    ensures TsunamiWindow(startTime, timeRange) != Err(HttpError(400, InvalidDateDetail("End_time")))
  {
    match FromIsoFormat(ReplaceZ(startTime))
    case Err(msg) =>
      assert TsunamiWindow(startTime, timeRange) == Err(HttpError(400, DateFormatPrefix + msg));
      DetailsDiffer(msg);
    case Ok(st) =>
      match MinusHours(st.time, timeRange)
      case None =>
        assert TsunamiWindow(startTime, timeRange) == Err(InternalError);
      case Some(et) =>
        var en := Instant(et, st.micro, st.offset);
        IsoFormatCanonical(st);
        IsoFormatCanonical(en);
        if ValidateDate(IsoFormat(st), "Start_time").Err? {
          assert TsunamiWindow(startTime, timeRange) == Err(HttpError(400, InvalidDateDetail("Start_time")));
          DetailsDiffer("");
        } else {
          assert ValidateDate(IsoFormat(en), "End_time").Ok?;
        }
  }

  /** The three 400 details of the handler are told apart by their ninth
      character. */
  lemma DetailsDiffer(msg: string)
    ensures DateFormatPrefix + msg != InvalidDateDetail("End_time")
    ensures InvalidDateDetail("Start_time") != InvalidDateDetail("End_time")
  {
    assert (DateFormatPrefix + msg)[8] == 'd';
    assert InvalidDateDetail("Start_time")[8] == 'S';
    assert InvalidDateDetail("End_time")[8] == 'E';
  }

  /** An instant with an offset (a `Z` suffix included) or with fractional
      seconds reads fine but is turned down by the re-check of its
      isoformat: a 400 naming `Start_time`, unless the subtraction overflows
      first. */
  lemma AwareOrFractionalRejected(startTime: string, timeRange: nat)
    requires FromIsoFormat(ReplaceZ(startTime)).Ok?
    requires var st := FromIsoFormat(ReplaceZ(startTime)).value;
      (st.micro != 0 || st.offset.Some?) && HourNumber(st.time) - timeRange >= 24
    ensures TsunamiWindow(startTime, timeRange) == Err(HttpError(400, InvalidDateDetail("Start_time")))
  {
    IsoFormatCanonical(FromIsoFormat(ReplaceZ(startTime)).value);
  }

  /** The `Z` of a canonical text is replaced by the UTC offset, and nothing
      else changes. */
  lemma ReplaceZulu(t: DateTime)
    requires Valid(t)
    ensures ReplaceZ(Format(t) + "Z") == Format(t) + UtcSuffix
  {
    FormatHasNoZ(t);
    ReplaceZAppend(Format(t), "Z");
    assert ReplaceZ("Z") == UtcSuffix;
  }

  /** isoformat of an instant at UTC offset 0 ends in `+00:00`. */
  lemma UtcIsoFormat(t: DateTime)
    requires Valid(t)
    ensures IsoFormat(Instant(t, 0, Some(0))) == Format(t) + UtcSuffix
  {
    assert Pad(0, 2) == "00";
    assert OffsetText(Some(0)) == UtcSuffix;
  }

  /** A canonical text with a `Z` suffix reads as the same instant at UTC
      offset 0. */
  lemma ZuluReadsAsUtc(t: DateTime)
    requires Valid(t)
    ensures FromIsoFormat(ReplaceZ(Format(t) + "Z")) == Ok(Instant(t, 0, Some(0)))
  {
    ReplaceZulu(t);
    UtcIsoFormat(t);
    IsoFormatRoundTrip(Instant(t, 0, Some(0)));
  }

  /** `2024-01-01T00:00:00Z` and the like: a canonical instant with a `Z`
      suffix reads as UTC and is then turned down. */
  lemma ZuluRejected(t: DateTime, timeRange: nat)
    requires Valid(t) && HourNumber(t) - timeRange >= 24
    ensures TsunamiWindow(Format(t) + "Z", timeRange) == Err(HttpError(400, InvalidDateDetail("Start_time")))
  {
    ZuluReadsAsUtc(t);
    AwareOrFractionalRejected(Format(t) + "Z", timeRange);
  }

  /** A start that is not an isoformat text is a 400 carrying the parser's
      message, `Invalid date format: Invalid isoformat string: 'invalid-date'`. */
  lemma InvalidStartExample()
    ensures TsunamiWindow("invalid-date", 24) == Err(HttpError(400, DateFormatPrefix + SyntaxError("invalid-date")))
    ensures SyntaxError("invalid-date") == "Invalid isoformat string: " + ("'" + "invalid-date" + "'")
  {
    var s := "invalid-date";
    InvalidDateChars(s);
    assert Repr(s) == "'" + s + "'" by {
      ReprPlain(s);
    }
    assert ReplaceZ(s) == s;
    assert FromIsoFormat(s) == Err(SyntaxError(s)) by {
      assert !IsDigit(s[0..4][0]);
    }
  }

  /** The characters of `invalid-date`: no `Z`, and none that `repr` escapes. */
  lemma InvalidDateChars(s: string)
    requires s == "invalid-date"
    ensures forall i :: 0 <= i < |s| ==> s[i] != 'Z' && PlainChar(s[i])
  {
    forall i | 0 <= i < |s| ensures s[i] != 'Z' && PlainChar(s[i]) {
      assert s[i] in "adeilntv-";
    }
  }

  // ---------------------------------------------------------------------------
  // The filter

  /** A successful filter keeps exactly the alerts of the input. */
  lemma {:induction false} TsunamiFilterMembers(fs: seq<Feature>, x: Feature)
    requires TsunamiFilter(fs).Some?
    ensures x in TsunamiFilter(fs).value <==> x in fs && Alert(x)
  {
    if fs != [] {
      TsunamiFilterMembers(fs[1..], x);
      assert fs == [fs[0]] + fs[1..];
    }
  }

  /** The filter keeps the order: filtering a concatenation is concatenating
      the filtered parts, and it fails when either part fails. */
  lemma {:induction false} TsunamiFilterAppend(a: seq<Feature>, b: seq<Feature>)
    ensures TsunamiFilter(a + b) ==
      if TsunamiFilter(a).Some? && TsunamiFilter(b).Some? then Some(TsunamiFilter(a).value + TsunamiFilter(b).value)
      else None
  {
    if a == [] {
      assert a + b == b;
      if TsunamiFilter(b).Some? {
        assert [] + TsunamiFilter(b).value == TsunamiFilter(b).value;
      }
    } else {
      assert (a + b)[1..] == a[1..] + b;
      TsunamiFilterAppend(a[1..], b);
      if TsunamiFilter(a).Some? && TsunamiFilter(b).Some? {
        var head := if Alert(a[0]) then [a[0]] else [];
        assert head + (TsunamiFilter(a[1..]).value + TsunamiFilter(b).value) ==
               (head + TsunamiFilter(a[1..]).value) + TsunamiFilter(b).value;
      }
    }
  }

  /** One feature: kept when its flag is positive, dropped when it is 0,
      negative or absent, fatal when it is null. */
  lemma SingleFeature(f: Feature)
    ensures TsunamiFilter([f]) ==
      if f.tsunami.Null? then None else if Alert(f) then Some([f]) else Some([])
  {
    assert [f][1..] == [];
    if !f.tsunami.Null? {
      var head := if Alert(f) then [f] else [];
      assert TsunamiFilter([f]) == Some(head + []);
      assert head + [] == head;
    }
  }

  // ---------------------------------------------------------------------------
  // The route

  /** A bad start is turned down before the cache or upstream is consulted. */
  lemma WindowErrorNoFetch(state: string, startTime: string, timeRange: nat, format: string,
                           store: Option<StoreState>, respond: Pairs -> Reply)
    requires TsunamiWindow(startTime, timeRange).Err?
    ensures var h := Tsunami(state, startTime, timeRange, format, store, respond);
      h.queries == [] && h.store == store && h.response == Err(TsunamiWindow(startTime, timeRange).error)
  {
  }

  /** A successful response is a `FeatureCollection` with the metadata block
      and exactly the alerts among the fetched features. */
  lemma OkShape(state: string, startTime: string, timeRange: nat, format: string,
                store: Option<StoreState>, respond: Pairs -> Reply)
    requires Tsunami(state, startTime, timeRange, format, store, respond).response.Ok?
    ensures TsunamiWindow(startTime, timeRange).Ok?
    ensures var w := TsunamiWindow(startTime, timeRange).value;
      var f := Fetch(TsunamiParams(w), store, respond);
      var c := Tsunami(state, startTime, timeRange, format, store, respond).response.value.body.data;
      f.result.Ok? && TsunamiFilter(f.result.value.features).Some? &&
      c == Collection(FeatureCollectionType, Some(Metadata(state, timeRange, w)), TsunamiFilter(f.result.value.features).value)
  {
    if TsunamiWindow(startTime, timeRange).Ok? {
      var w := TsunamiWindow(startTime, timeRange).value;
      var f := Fetch(TsunamiParams(w), store, respond);
      assert Tsunami(state, startTime, timeRange, format, store, respond) == TsunamiServe(state, timeRange, w, f, format);
    }
  }

  /** A null tsunami flag in the fetched data is a 500, after the data was
      cached. */
  lemma NullFlagIs500(state: string, startTime: string, timeRange: nat, format: string,
                      store: Option<StoreState>, respond: Pairs -> Reply)
    requires TsunamiWindow(startTime, timeRange).Ok?
    requires var f := Fetch(TsunamiParams(TsunamiWindow(startTime, timeRange).value), store, respond);
      f.result.Ok? && exists i :: 0 <= i < |f.result.value.features| && f.result.value.features[i].tsunami.Null?
    ensures var w := TsunamiWindow(startTime, timeRange).value;
      var f := Fetch(TsunamiParams(w), store, respond);
      var h := Tsunami(state, startTime, timeRange, format, store, respond);
      h.response == Err(InternalError) && h.store == f.store && h.queries == f.queries
  {
    var w := TsunamiWindow(startTime, timeRange).value;
    var f := Fetch(TsunamiParams(w), store, respond);
    assert Tsunami(state, startTime, timeRange, format, store, respond) == TsunamiServe(state, timeRange, w, f, format);
  }

  /** The state in the path only names itself in the metadata: two requests
      that differ in it share the cache entry and the upstream query, and
      return the same features. */
  lemma StateOnlyInMetadata(state1: string, state2: string, startTime: string, timeRange: nat, format: string,
                            store: Option<StoreState>, respond: Pairs -> Reply)
    ensures var h1 := Tsunami(state1, startTime, timeRange, format, store, respond);
      var h2 := Tsunami(state2, startTime, timeRange, format, store, respond);
      h1.store == h2.store && h1.queries == h2.queries && h1.response.Ok? == h2.response.Ok? &&
      (h1.response.Ok? ==>
        h1.response.value.mediaType == h2.response.value.mediaType &&
        h1.response.value.body.data.features == h2.response.value.body.data.features)
  {
    var window := TsunamiWindow(startTime, timeRange);
    assert Tsunami(state1, startTime, timeRange, format, store, respond) == TsunamiAnswer(state1, timeRange, window, format, store, respond);
    assert Tsunami(state2, startTime, timeRange, format, store, respond) == TsunamiAnswer(state2, timeRange, window, format, store, respond);
    if window.Ok? {
      var f := Fetch(TsunamiParams(window.value), store, respond);
      assert TsunamiAnswer(state1, timeRange, window, format, store, respond) == TsunamiServe(state1, timeRange, window.value, f, format);
      assert TsunamiAnswer(state2, timeRange, window, format, store, respond) == TsunamiServe(state2, timeRange, window.value, f, format);
      ServeStateOnlyInMetadata(state1, state2, timeRange, window.value, f, format);
    }
  }

  lemma ServeStateOnlyInMetadata(state1: string, state2: string, timeRange: nat, w: Window, f: Fetched, format: string)
    ensures var h1 := TsunamiServe(state1, timeRange, w, f, format);
      var h2 := TsunamiServe(state2, timeRange, w, f, format);
      h1.store == h2.store && h1.queries == h2.queries && h1.response.Ok? == h2.response.Ok? &&
      (h1.response.Ok? ==>
        h1.response.value.mediaType == h2.response.value.mediaType &&
        h1.response.value.body.data.features == h2.response.value.body.data.features)
  {
  }

  /** The default window reads `24 hours` in the metadata. */
  lemma DefaultTimeRangeText(state: string, w: Window)
    ensures Metadata(state, 24, w)[1] == ("time_range", "24 hours")
  {
    assert 24 / 10 == 2 && 24 % 10 == 4;
    assert NatText(2) == [DigitChar(2)] && DigitChar(2) == '2';
    assert NatText(24) == NatText(2) + [DigitChar(4)] && DigitChar(4) == '4';
    assert NatText(24) + " hours" == "24 hours";
  }
}

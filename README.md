# earthquake-api gateway: a Dafny model

The earthquake API is a small FastAPI gateway in front of the USGS FDSN
event query service. Every request flows through the same pipeline:

1. Check the caller's dates.
2. Build a query.
3. Fetch the answer through a Redis read-through cache (`fetch_usgs_data`).
4. Post-filter the features.
5. Render the result as JSON or XML (`format_response`).

This project models that pipeline with the source's own structure and
proves what the code promises.

| file | module | models |
|---|---|---|
| `wrappers.dfy` | `Wrappers` | `Option`, `Result`, `HttpError(status, detail)` |
| `digits.dfy` | `Digits` | reading and writing decimal digit runs |
| `geo.dfy` | `Geo` | features (`id`, `felt`, `tsunami`; each property absent, null or an integer) and feature collections |
| `dates.dfy` | `Dates` | `validate_date` (the `strptime` pattern `%Y-%m-%dT%H:%M:%S`), `datetime.fromisoformat` and `isoformat` on the forms the tsunami route sees, and subtracting whole hours |
| `codec.dfy` | `Codec` | `json.dumps`/`json.loads` of a collection, the text the cache stores |
| `cachekey.dfy` | `CacheKey` | the key `"usgs_data:" + json.dumps(params, sort_keys=True)` |
| `cacheaside.dfy` | `CacheAside` | `redis_client` as a class `RedisStore` holding a map; the upstream service as a class `Upstream` with a call log; `fetch_usgs_data` as the method `FetchUsgsData`, proved against the function `Fetch` |
| `responses.dfy` | `Responses` | `format_response` |
| `felt.dfy` | `FeltRoute` | `GET /earthquake-felt` |
| `earthquakes.dfy` | `SfRoute` | `GET /earthquake/sf` |
| `tsunami.dfy` | `TsunamiRoute` | `GET /{state}` |

Each handler and `fetch_usgs_data` is a method that changes the cache and the
upstream log. Each method's postcondition equates its result, the new store
and the queries it sent with a specification function of the old state:
`Fetch`, `Felt`, `Sf` or `Tsunami`. The lemmas state the properties of those
functions.

The upstream service is a parameter, `respond: Pairs -> Reply`. It stands for
`requests.get`, `raise_for_status()` and `response.json()` together. A
missing `redis_client` is a `null` cache. Cache read and write failures are
part of the store's state (`getError`, `setError`).

A query is a sequence of `(name, value)` pairs: a Python dict in insertion
order, with the values already stringified.

The model follows the code in three places where a reader might expect
something else:

- **Cache failures.** A reader might expect `fetch_usgs_data` to fall back to
  upstream when the cache fails. The code has no such fallback: a failing
  `get` or `setex` lands in the catch-all and becomes a 503 (`app/utils.py`
  lines 62 and 88-91). A failed write even discards an upstream answer that
  had already arrived.
- **Absent felt counts.** The felt filter reads an absent `felt` as 0, so the
  feature is kept when `min_felt_reports <= 0`. Only an explicit null is
  always dropped.
- **No magnitude filter.** `get_sf_earthquakes` is documented as filtering on
  magnitude. It only passes `minmagnitude` upstream and returns the data
  unfiltered.

## Model

| member | source | states |
|---|---|---|
| Dates.ParseCanonical | app/utils.py:34 | a successful parse yields a valid calendar instant whose canonical text is exactly the input |
| Dates.FormatOfFields | app/utils.py:34 | a well-shaped text that names a valid instant is the canonical text of that instant |
| Dates.ParseFormat | app/utils.py:34 | every valid instant's canonical text parses back to that instant |
| Dates.ValidateDate | app/utils.py:30-41 | succeeds exactly when the input is the canonical text of a valid instant (real month and day, leap years, hour < 24), returns the input unchanged, and otherwise fails with 400 and `Invalid <param>. Please use format: ...` |
| Dates.NotADateRejected | app/utils.py:33-41 | `invalid-date` gets the 400 naming the parameter |
| Dates.MonthThirteenRejected | app/utils.py:34-41 | month 13 is refused |
| Dates.CommonYearLeapDayRejected | app/utils.py:34-41 | 29 February 2023 is refused |
| Dates.HourTwentyFourRejected | app/utils.py:34-41 | hour 24 is refused |
| Dates.LeapDayAccepted | app/utils.py:33-35 | 29 February 2024 is accepted and returned unchanged |
| Dates.PrevHour | app/routes/tsunami.py:53 | one hour earlier, across day, month and year ends; None exactly at the first hour of year 1 |
| Dates.MinusHours | app/routes/tsunami.py:53 | None exactly when the result would fall before year 1 (Python's `OverflowError`); otherwise a valid instant exactly `h` hours earlier, on the same minute and second |
| Dates.IsoFormat | app/routes/tsunami.py:56-57 | begins with the 19-character canonical text of the instant |
| Dates.IsoFormatCanonical | app/routes/tsunami.py:56-57 | an isoformat text passes `validate_date` exactly when the instant is naive and has no microseconds; it is then the canonical text |
| Dates.FromIsoFormat | app/routes/tsunami.py:49 | whatever it accepts is a valid instant: date, clock, microseconds, and an offset strictly within ±24 h |
| Dates.ReprPlain | app/routes/tsunami.py:49 | `repr` writes a text without quotes, backslashes or control characters between single quotes, unchanged |
| Dates.ReprSingleQuotes | app/routes/tsunami.py:49 | `repr` writes a text whose only special characters are single quotes between double quotes, unchanged |
| Dates.ReprEscapes | app/routes/tsunami.py:49 | with both quotes present the single quote is escaped, and a backslash is always doubled |
| Dates.TimedeltaParts | app/routes/tsunami.py:49 | an offset in minutes splits into whole days (possibly negative) and fewer than 86400 remaining seconds, summing to the offset |
| Dates.TimedeltaExamples | app/routes/tsunami.py:49 | offsets of 1440 and -1470 minutes are written `datetime.timedelta(days=1)` and `datetime.timedelta(days=-2, seconds=84600)` |
| Dates.OffsetOf | app/routes/tsunami.py:49 | a `±HH:MM` offset reads as its signed minutes |
| Dates.OffsetOutOfRange | app/routes/tsunami.py:49 | a well-shaped date whose offset is a day or more fails with the `timezone` range error for that offset, before any date or clock range check |
| Dates.OffsetRangeExamples | app/routes/tsunami.py:49 | the starts `2024-01-01T00:00:00+24:00` and `2024-01-01T00:00:00-24:30` are refused with the range errors for 1440 and -1470 minutes, that is, with `timedelta(days=1)` and `timedelta(days=-2, seconds=84600)` |
| Dates.IsoFormatRoundTrip | app/routes/tsunami.py:49-57 | `fromisoformat(isoformat(t)) == t` for every valid instant, naive or aware, with or without microseconds |
| Codec.Encode | app/utils.py:84 | the stored text is never empty, so a stored answer is always a hit |
| Codec.PairsRoundTrip | app/utils.py:66 | a flat string object reads back to its members, and the rest of the text is left untouched |
| Codec.RoundTrip | app/utils.py:74-84 | `json.loads(json.dumps(c)) == c` for every collection the cache stores |
| CacheKey.SortByName | app/utils.py:66 | `sort_keys` keeps the same members (multiset preserved) |
| CacheKey.SortSorted | app/utils.py:66 | on distinct names, the sorted members are strictly ordered by name |
| CacheKey.SortedUnique | app/utils.py:66 | two strictly sorted member lists with the same members are equal |
| CacheKey.KeyOf | app/utils.py:66 | every key starts with `usgs_data:` |
| CacheKey.KeyIgnoresOrder | app/utils.py:64-66 | two queries with the same members in any order get the same key |
| CacheKey.KeySeparatesParams | app/utils.py:64-66 | equal keys mean the same members: the cache never confuses two queries |
| CacheAside.RedisStore.Get | app/utils.py:71 | the stored text, None for a missing key, or the raised error |
| CacheAside.RedisStore.SetEx | app/utils.py:84 | stores the value and its lifetime under the key, or raises and changes nothing |
| CacheAside.Upstream.Query | app/utils.py:77-79 | logs the query and answers with the service's reply to it |
| CacheAside.FetchUsgsData | app/utils.py:60-91 | result, new store and upstream log are those of `Fetch` on the old store |
| CacheAside.HitAnswersFromStore | app/utils.py:69-74 | a non-empty stored value answers: decoded, with no upstream query and no write |
| CacheAside.MissStoresAnswer | app/utils.py:77-87 | a miss queries upstream once, returns its data and stores `json.dumps` of it under the same key for `CACHE_DURATION` = 30 s |
| CacheAside.NoClientAlwaysQueries | app/utils.py:69-87 | without a client every call goes upstream and no store exists |
| CacheAside.FailuresAre503 | app/utils.py:88-91 | every failure is a 503 with detail `Error fetching data: ...`, leaves the store as it was, and at most one query goes upstream |
| CacheAside.ReadFailureIsNotRecovered | app/utils.py:71-91 | a failing cache read is a 503 with no upstream query |
| CacheAside.WriteFailureDiscardsAnswer | app/utils.py:83-91 | a failing write-back is a 503 after the upstream query, and the answer is lost |
| CacheAside.ResultIsUpstreamOrStored | app/utils.py:69-87 | returned data is either upstream's answer to this very query or what the store held under its key |
| CacheAside.Idempotent | app/utils.py:66-87 | with a working store, a second identical call makes no query and returns the same data and store: at most one upstream call for the two |
| CacheAside.SameKeySameFetch | app/utils.py:66-87 | queries with one key and one upstream answer fetch alike |
| CacheAside.OrderOfParamsIrrelevant | app/utils.py:64-87 | reordering a query changes neither the result nor the store |
| Responses.Lower | app/utils.py:111 | lower-cases character by character, keeping the length |
| Responses.FormatResponse | app/utils.py:109-116 | carries the data unchanged; XML media type and `response` root exactly when the lowered format is `xml`, JSON otherwise |
| Responses.XmlSpellings | app/utils.py:111 | XML is chosen for exactly the eight case-spellings of `xml` |
| Responses.FormatExamples | app/utils.py:109-116 | `xml` and `XML` give `application/xml` under `response`; `json`, `yaml` and the empty string give `application/json` |
| FeltRoute.FeltParams | app/routes/earthquake_felt.py:19-27 | seven distinct names, with the two dates as `starttime`/`endtime` |
| FeltRoute.FeltFilter | app/routes/earthquake_felt.py:34-38 | no longer than the input, and every kept feature passes the condition |
| FeltRoute.FeltCollection | app/routes/earthquake_felt.py:32-39 | a bare `FeatureCollection` without metadata |
| FeltRoute.GetSfEarthquakesFelt | app/routes/earthquake_felt.py:9-41 | response, store and upstream log are those of `Felt` on the old store |
| FeltRoute.FeltFilterMembers | app/routes/earthquake_felt.py:34-38 | a feature is kept exactly when it is in the input and its felt count is non-null and at least the threshold |
| FeltRoute.FeltFilterAppend | app/routes/earthquake_felt.py:34-38 | the filter distributes over concatenation (order is kept) |
| FeltRoute.NullFeltDropped | app/routes/earthquake_felt.py:36 | an explicit null is dropped at every threshold |
| FeltRoute.AbsentFeltIsZero | app/routes/earthquake_felt.py:36-37 | an absent count is kept exactly when the threshold is at most 0 |
| FeltRoute.CountedFelt | app/routes/earthquake_felt.py:37 | `n` reports are kept exactly when `n >= min_felt_reports` |
| FeltRoute.ThresholdAboveAll | app/routes/earthquake_felt.py:34-38 | a threshold above every count leaves an empty list |
| FeltRoute.RaisingThreshold | app/routes/earthquake_felt.py:34-38 | a higher threshold keeps a sub-list of a lower one's result |
| FeltRoute.FeltExample | app/routes/earthquake_felt.py:34-38 | at threshold 10, of 12 reports, null, absent and 3 reports only the first is kept |
| FeltRoute.InvalidDateNoFetch | app/routes/earthquake_felt.py:15-16 | a bad date is a 400 naming `Start_time` (checked first) or `end_time`, with no cache or upstream activity |
| FeltRoute.ThresholdAndFormatNotInKey | app/routes/earthquake_felt.py:19-28 | threshold and format do not reach the query: same store, same upstream queries |
| FeltRoute.OkIsFilteredFetch | app/routes/earthquake_felt.py:28-41 | a success carries exactly the filtered features of the fetched data, as XML exactly when asked |
| SfRoute.SfParams | app/routes/earthquakes.py:37-45 | seven distinct names: dates and `min_magnitude` in their places |
| SfRoute.GetSfEarthquakes | app/routes/earthquakes.py:26-49 | response, store and upstream log are those of `Sf` on the old store |
| SfRoute.InvalidDateNoFetch | app/routes/earthquakes.py:35-36 | a bad date is a 400 naming `Start_time` (checked first) or `end_time`, with no fetch |
| SfRoute.PassesDataThrough | app/routes/earthquakes.py:48-49 | a success carries the fetched collection itself: no post-filter |
| SfRoute.FormatNotInKey | app/routes/earthquakes.py:37-48 | JSON and XML requests for one window share the cache entry and the upstream query |
| SfRoute.SharesFeltQuery | app/routes/earthquakes.py:37-45 | with `min_magnitude` 2.0 the query, and so the key, equals the felt route's |
| SfRoute.MagnitudeInKey | app/routes/earthquakes.py:41 | different magnitudes give different cache keys |
| TsunamiRoute.ReplaceZ | app/routes/tsunami.py:49 | leaves no `Z`, and changes nothing in a text without one |
| TsunamiRoute.ReplaceZAppend | app/routes/tsunami.py:49 | the replacement distributes over concatenation |
| TsunamiRoute.TsunamiParams | app/routes/tsunami.py:63-68 | four distinct names: `starttime` is the earlier instant and `endtime` the given start |
| TsunamiRoute.Metadata | app/routes/tsunami.py:73-78 | four distinct names in order, valued the state, `<time_range> hours`, the start and the end |
| TsunamiRoute.TsunamiFilter | app/routes/tsunami.py:79-85 | fails exactly when some feature has a null flag; otherwise keeps only positive flags and is no longer than the input |
| TsunamiRoute.TsunamiCollection | app/routes/tsunami.py:71-86 | always `FeatureCollection` with the metadata block, or the 500 of a null flag |
| TsunamiRoute.GetTsunamiAlerts | app/routes/tsunami.py:35-95 | response, store and upstream log are those of `Tsunami` on the old store |
| TsunamiRoute.CanonicalWindow | app/routes/tsunami.py:49-57 | a canonical start gives the window from `time_range` hours earlier to the start, or the 500 of an overflow |
| TsunamiRoute.WindowSpansTimeRange | app/routes/tsunami.py:49-57 | for any accepted start text, the window starts at the naive whole-second instant `fromisoformat` read from it, and both ends are canonical instants exactly `time_range` hours apart, on the same minute and second |
| TsunamiRoute.EndCheckNeverFails | app/routes/tsunami.py:56-57 | the `End_time` check never fires |
| TsunamiRoute.AwareOrFractionalRejected | app/routes/tsunami.py:49-57 | an offset or fractional seconds give a 400 naming `Start_time` unless the subtraction overflows first |
| TsunamiRoute.ZuluReadsAsUtc | app/routes/tsunami.py:49 | a canonical text with a `Z` suffix reads as the same instant at UTC offset 0 |
| TsunamiRoute.ZuluRejected | app/routes/tsunami.py:47-57 | a canonical instant suffixed `Z` gives a 400 naming `Start_time` |
| TsunamiRoute.InvalidStartExample | app/routes/tsunami.py:45-95 | `invalid-date` gives a 400 `Invalid date format: Invalid isoformat string: 'invalid-date'` |
| TsunamiRoute.TsunamiFilterMembers | app/routes/tsunami.py:79-85 | when there is no null flag, a feature is kept exactly when it is in the input with a positive flag (absent reads as 0) |
| TsunamiRoute.TsunamiFilterAppend | app/routes/tsunami.py:79-85 | the filter distributes over concatenation and fails when either part fails |
| TsunamiRoute.SingleFeature | app/routes/tsunami.py:84 | positive flags are kept; zero, negative and absent flags are dropped; null is fatal |
| TsunamiRoute.WindowErrorNoFetch | app/routes/tsunami.py:45-68 | a bad start is answered before the cache or upstream is touched |
| TsunamiRoute.OkShape | app/routes/tsunami.py:63-88 | a success is a `FeatureCollection` with the metadata and exactly the filtered fetched features |
| TsunamiRoute.NullFlagIs500 | app/routes/tsunami.py:84 | a null flag in the fetched data is a 500, after the data was cached |
| TsunamiRoute.StateOnlyInMetadata | app/routes/tsunami.py:63-78 | the state changes neither the query nor the store nor the features, only the metadata |
| TsunamiRoute.DefaultTimeRangeText | app/routes/tsunami.py:75 | the default range reads `24 hours` |

## Left out

- The HTTP call, `raise_for_status` and `response.json()` are one abstract function from query to reply: I/O.
- Redis connection setup, the health endpoint, `app/main.py` and logging are I/O or framework plumbing.
- TTL expiry is not modelled, because it is wall-clock behaviour. `ttls` records the 30 s that `setex` asks for, and entries never expire in the model.
- CacheAside.Idempotent: holds only while the first call's entry is unexpired, because expiry is not modelled.
- The XML serializer (`xmltodict.unparse`) and `JSONResponse`'s serializer are foreign libraries. A response records only the media type and which document it carries.
- Codec.Encode: stands in for `json.dumps` on the collection shape of the model. Strings escape only `"` and `\`. Control characters are written raw, where `json.dumps` writes `\n`, `\r`, `\t`, `\b`, `\f` and `\u00XX`, and non-ASCII characters are written raw, where `ensure_ascii` writes `\uXXXX`. Keys therefore differ in text from Python's for values with control or non-ASCII characters, but they separate queries just the same.
- Features carry only `id`, `felt` and `tsunami`. Other properties, and upstream top-level members such as `bbox`, are not modelled. A malformed upstream body with no `features` member (a `KeyError`, hence a 500) is not modelled either.
- Query values are already their `str` text (`"2.0"`, `"37.7749"`, `"100"`). Python's float rendering is not modelled. `min_magnitude` is taken as its text.
- `int()` truncation of a non-integer `felt` is not modelled: counts are integers.
- Dates.ValidateDate: accepts only the zero-padded form with ASCII digits and an upper-case `T`. Python's `strptime` also takes single-digit fields such as `2024-1-1T0:0:0`, a lower-case `t` (its pattern is case-insensitive), non-ASCII decimal digits, and a space-padded day such as `2024-01- 1T00:00:00`; the model refuses all of these with the 400, where the source would send them upstream unchanged.
- Dates.FromIsoFormat: covers `YYYY-MM-DD`, optionally followed by one separator and `HH[:MM[:SS[.fff|.ffffff]]]` and an optional `±HH:MM`. These are the forms `isoformat` writes, plus a date alone and shortened clocks. Other forms accepted by some Python versions are errors in the model: basic format, week dates, offsets with seconds, and other fraction lengths. The range-error texts are those of the `datetime` and `timezone` constructors, the latter ending in `repr` of the offset as a `timedelta`.
- Dates.Repr: escapes the quote, the backslash and ASCII control characters as Python's `repr` does, but writes every non-ASCII character as itself. Python also escapes non-printable non-ASCII characters (`\x85`, `\xa0`, `\u2028` and the like), so for such a `start_time` the model's syntax-error text differs from the source's.
- CacheAside.FetchUsgsData: the 503 for a stored value that does not decode carries the stand-in text `stored value is not a JSON feature collection` after `Error fetching data: `. The source's detail is `str()` of the `json.JSONDecodeError`, such as `Expecting value: line 1 column 1 (char 0)`, which needs json's position tracking. The decoder also refuses any stored value outside the model's collection shape, where `json.loads` might accept it.
- The 500 for an uncaught `OverflowError` or `TypeError` is the framework's default answer, modelled as `HttpError(500, "Internal Server Error")`.
- TsunamiRoute.GetTsunamiAlerts: requires `1 <= time_range <= 168`. The framework answers anything else with a 422 before the handler runs.
- Responses.Lower: maps ASCII letters only. No other code point lower-cases to `x`, `m` or `l`, so the `== 'xml'` test decides as Python's does.
- Concurrent misses for one key (a cache stampede) are not modelled, because they need concurrency; calls are sequential.

# Weather, user-flux and Prometheus-monitor scripts: a Dafny model

This project models three user scripts of a chat-relay bot. Each script is
written as a pure step function over explicit state. Every external call
(HTTP request, clock, state store) is an input, and each run returns a trace
of what it did.

- **Weather lookup** (`edfletcher/weather.js`). A place name resolves to a
  coordinate through a geocoder. The coordinate resolves to a National
  Weather Service grid station (`gridId/gridX,gridY`). The station resolves
  to forecast text. Two persisted maps cache the first two stages: `luCache`
  maps a place to a coordinate and `staCache` maps a coordinate to a station.
  An entry is filled only when it is falsy. A `__dirty` marker decides
  whether the state is written back, at most once per run, and the marker is
  removed before the write. When no forecast is found, the script says
  `Unable to find results for "<place>"!`.
  Module `WeatherLookups` holds the three lookup helpers. Module `Weather`
  holds `main` and the lemmas that span several runs.
- **User flux** (`edfletcher/userFlux.js`), module `UserFlux`. Five IRC
  event names each have a counter. Every such event increments its counter
  by one. When the total reaches a multiple of the configured count (1000 by
  default), the script announces every counter with its delta against the
  previous snapshot. The counters then become the new snapshot and are
  cleared.
- **Prometheus monitor** (`edfletcher/promMon.js`), module `PromMon`. The
  rules endpoint is scraped at most once per interval. The state is written
  before the request, so a failed scrape still uses up the interval. Each
  firing alert is reported if its group has at least one firing rule.

Module `Js` holds the JavaScript semantics the scripts rely on:
`null`/`undefined` as `Option`, truthiness, decimal rendering of integers in
template strings, and the truncating `%`.

How the JavaScript is represented:

- A cache is `map<string, Option<string>>`. A missing key is `undefined`,
  `None` is `null`, and an entry is truthy when it is present, non-null and
  non-empty.
- The HTTP outcomes are functions from the request argument to a response
  record. A response is either failed (non-OK) or OK with its decoded body.
  `encodeURIComponent` is an uninterpreted function parameter.
- A weather run returns which resolvers were called and with which
  argument. It also returns the state handed to `state.set`, if any, and the
  text said in the channel.
- The counters object of `userFlux.js` is a list of name/count pairs.
  JavaScript objects keep string keys in insertion order, and the
  announcement lists the counters in that order.
- `Array.prototype.sort` is modelled as a stable insertion sort, and a NaN
  comparator result counts as "equal". ECMAScript requires a stable sort and
  turns a NaN comparator result into +0. Any stable sort agrees with the
  model for the geocoder's comparator, which answers NaN for every pair.

Places where the code does something other than what its own shape
suggests was meant. The model follows the code:

- **Sort order.** The comparator at weather.js:36 has the shape
  `importanceB - importanceA`, which reads as a sort by descending
  importance. But it destructures `importanceA`/`importanceB`, which no
  result has, so the response order is kept. The first administrative
  result in response order wins (`ImportanceSortKeepsOrder`,
  `ResponseOrderBeatsImportance`).
- **Failed station lookup.** `lookupNwsStation` answers `null` on failure,
  and weather.js:116 stores that `null` under the coordinate, after which
  the state is persisted. The next run asks again because the check at
  weather.js:115 is on truthiness (`NullStationRetried`).
- **Forecast without a station.** The guards at weather.js:125 and 132, with
  the message "NWS Station lookup failed!", show the run was meant to stop
  when no station is known. They test the map `staCache`, which is always
  an object, so they never fire. The forecast is requested even for a
  `null` station.
- **Failed geocode.** A failed geocode writes `null` into the in-memory map
  (weather.js:105), but the run returns at weather.js:111, before the write
  at weather.js:122. So nothing is persisted and the next run geocodes
  again (`FailingGeocodeRetried`).
- **Rejected requests.** Nothing catches a rejected `fetch` or a failing
  `.json()`: weather.js:148 calls `main()` without a `catch`, and
  promMon.js:50 awaits `main()` without one. Such a failure ends the run
  where it happens, so the recovery paths above do not cover it. The model
  covers only completed requests; see "Left out".

## Model

| member | source | states |
|---|---|---|
| `WeatherLookups.LookupLatLng` | edfletcher/weather.js:32-49 | Returns the encoded `lat,lon` of the first result whose type is `administrative`, in response order. Returns null when the request fails or no result is administrative. |
| `WeatherLookups.ImportanceSortKeepsOrder` | edfletcher/weather.js:34-36 | Sorting with the comparator that reads `importanceA`/`importanceB` leaves the result list exactly as the response ordered it. |
| `WeatherLookups.ImportanceComparator` | edfletcher/weather.js:36 | The comparator answers NaN for every pair of results, because neither field it reads exists. |
| `WeatherLookups.ResponseOrderBeatsImportance` | edfletcher/weather.js:34-41 | A less important administrative result listed first is chosen over a more important one listed second. |
| `WeatherLookups.AdministrativeOnlyHead` | edfletcher/weather.js:34-39 | The filtered list is non-empty exactly when some result is administrative. It then starts with the first such result. |
| `WeatherLookups.FirstAdministrative` | edfletcher/weather.js:35-39 | Finds the first administrative result, if any. No earlier result is administrative. |
| `WeatherLookups.AdministrativeOnly` | edfletcher/weather.js:35 | The filter keeps only administrative results, and keeps every administrative result as many times as the response lists it. |
| `WeatherLookups.AdministrativeOnlyAppend` | edfletcher/weather.js:35 | Filtering a concatenation is the concatenation of the filtered parts, so the kept results stay in response order. |
| `WeatherLookups.LookupNwsStation` | edfletcher/weather.js:55-64 | Returns the station string `gridId/gridX,gridY` exactly when the request succeeds and all three fields are truthy, so a 0 index is rejected. Otherwise returns null. |
| `WeatherLookups.StationString` | edfletcher/weather.js:58 | A station string determines its grid id and both indices when the id contains no `/`. |
| `WeatherLookups.FirstPeriodOnly` | edfletcher/weather.js:73-74 | Periods after the first never affect the forecast text. |
| `Weather.ForecastOrFallback` | edfletcher/weather.js:67-79 | Once a coordinate is known, the run says the first period's `detailedForecast` when the forecast request succeeds and that text is truthy. A failed request, an empty period list, or a missing or empty text gives the fallback sentence. |
| `Weather.Fallback` | edfletcher/weather.js:133 | The fallback sentence is never empty, so a run past geocoding always says something. It quotes the place name whole, so the name can be read back from it. |
| `Weather.Main` | edfletcher/weather.js:94-134 | Calls the geocoder exactly when `luCache[lookup]` is falsy. If the geocode result is falsy, the run stops: no station lookup, no forecast, no write. Calls the station resolver exactly when `staCache[coord]` is falsy. Always fetches the forecast with the resulting station, even null. Writes at most once, exactly when a cache was filled or a marker was already set. The written state holds both answers and every other entry and field, and never the marker. Says the forecast if truthy, otherwise the fallback sentence. |
| `Weather.RunPreserves` | edfletcher/weather.js:100-123 | One run never drops or changes a truthy `luCache` or `staCache` entry. |
| `Weather.ReplayPreserves` | edfletcher/weather.js:100-123 | Both caches are append-only: over any sequence of runs, every truthy entry survives unchanged. |
| `Weather.RunKeepsWellFormed` | edfletcher/weather.js:114-123 | One run never persists the `__dirty` marker, and keys `staCache` only by a coordinate some place is cached under. |
| `Weather.ReplayKeepsWellFormed` | edfletcher/weather.js:114-123 | Over any sequence of runs, the marker is never persisted and every `staCache` key is a cached coordinate. |
| `Weather.FailingGeocodeRetried` | edfletcher/weather.js:104-112 | No negative caching: while a place keeps failing to geocode, the stored state stays unchanged and every run calls the geocoder again. |
| `Weather.ResolvedRunThenCacheHit` | edfletcher/weather.js:104-130 | From any stored state, marker set or not: after a run that resolved both stages, the next run for the same place calls neither resolver, writes nothing, and fetches the forecast for the same station. |
| `Weather.NullStationRetried` | edfletcher/weather.js:115-123 | A failed station lookup is stored as null and persisted. The next run for the same place asks the station resolver again. |
| `Js.IntToStringRoundTrip` | edfletcher/weather.js:58 | The decimal text of an integer in a template string reads back as that integer. |
| `Js.NatToStringRoundTrip` | edfletcher/weather.js:58 | The decimal digits of a natural number read back as that number. |
| `Js.NatToString` | edfletcher/weather.js:58 | A natural number renders as a non-empty string of digits with no leading zero. |
| `Js.IntToString` | edfletcher/userFlux.js:33 | An integer renders as digits, with a leading `-` exactly when it is negative. The text never contains `,`, `/` or `+`. |
| `Js.JsRem` | edfletcher/userFlux.js:28 | The `%` remainder takes the sign of the dividend and is smaller in magnitude than the divisor. It agrees with the Euclidean remainder for a non-negative dividend. |
| `UserFlux.Increment` | edfletcher/userFlux.js:20-24 | The current event's counter goes up by exactly one, created at 0 when missing and added as the last key. No other counter changes, and the total rises by one. |
| `UserFlux.Names` | edfletcher/userFlux.js:31 | Lists the counter keys in insertion order: the i-th key is the i-th counter's name. |
| `UserFlux.Total` | edfletcher/userFlux.js:25 | With non-negative counters, the total is never negative. |
| `UserFlux.CountAtMostTotal` | edfletcher/userFlux.js:25 | With non-negative counters, no counter exceeds the total. |
| `UserFlux.IncrementKeepsDistinct` | edfletcher/userFlux.js:20-24 | Counting an event keeps the counter keys distinct. |
| `UserFlux.Snapshot` | edfletcher/userFlux.js:35 | The `last` snapshot has exactly the counter keys, each mapped to that counter's count. |
| `UserFlux.DeltaText` | edfletcher/userFlux.js:31-33 | The delta text is `count - last[name]`, prefixed with `+` exactly when positive, and reads back as the difference. It is `NaN` when `last` lacks the name. |
| `UserFlux.Report` | edfletcher/userFlux.js:29-34 | The announcement has one line per key, in key order. With distinct keys each line shows what `events[name]` holds. The delta is `NaN` for a key missing from `last`. Otherwise it reads back as `count - last[name]`, with a `+` exactly when positive. |
| `UserFlux.Limit` | edfletcher/userFlux.js:26 | The limit is `MESSAGE_COUNT` when truthy, otherwise 1000, and is never 0. |
| `UserFlux.Step` | edfletcher/userFlux.js:9-49 | Events outside the five listed names change nothing. Otherwise the state is written with `lastTotal` set to the total after the increment, and an announcement happens exactly when that total is a multiple of the limit. On an announcement, the lines compare against `last` (default 0 for the five names), `last` becomes the counters, the counters are cleared and the instant is recorded. Otherwise the saved counters are exactly the incremented list, with the same keys in the same order: this counter rose by one (a new key goes last) and the others are unchanged. `last` is kept, and `lastAnnounce` is kept, or set to the current instant when none was stored. |
| `UserFlux.RemReachesZeroAtLimit` | edfletcher/userFlux.js:28 | For a total between 1 and a positive limit, `!(totals % limit)` holds only at the limit. |
| `UserFlux.AnnouncesWhenTotalReachesLimit` | edfletcher/userFlux.js:12-36 | Starting from counters summing below a positive limit, the next events announce exactly at the one that brings the total to the limit. |
| `UserFlux.NextAnnouncementAfterLimitEvents` | edfletcher/userFlux.js:12-36 | After a reset, with a positive limit, the next announcement comes after exactly `limit` relevant events. |
| `PromMon.Throttled` | edfletcher/promMon.js:13-15 | With nothing stored, runs are throttled while the clock is within one interval of 0. A stored state without `lastUpdate` is never throttled, since NaN compares false. Otherwise runs are throttled until one interval after `lastUpdate`. |
| `PromMon.Main` | edfletcher/promMon.js:11-47 | Missing state counts as `lastUpdate = 0`. Within the interval, nothing is written, fetched or sent. Otherwise the state becomes `{ lastUpdate: now }` before the request. A failed request sends "Request failed!". A non-`success` status or missing `groups` sends "Check failed!". A good body sends one notice per reported alert, in order. |
| `PromMon.IntervalConsumed` | edfletcher/promMon.js:13-19 | After a run goes ahead, any later run before the interval elapses does nothing, even if the first request or check failed. |
| `PromMon.FiringAlertsOf` | edfletcher/promMon.js:40 | The per-rule filter keeps exactly the alerts whose state is `firing`, each as many times as the rule lists it, so every firing alert yields one notice per occurrence. |
| `PromMon.AlertsOfRules` | edfletcher/promMon.js:38-40 | An alert comes out of a list of rules exactly when it is firing and belongs to one of those rules. |
| `PromMon.FiringAlerts` | edfletcher/promMon.js:36-40 | An alert is reported exactly when it is firing and belongs to a non-null group with at least one firing rule. Firing alerts in groups with no firing rule are never reported. |
| `PromMon.FiringAlertsIsFilterOfFlattening` | edfletcher/promMon.js:36-46 | The report order equals filtering the group/rule/alert flattening of the kept groups once. |
| `PromMon.FiringAlertsOfAppend` | edfletcher/promMon.js:40 | Filtering firing alerts distributes over concatenation. |
| `PromMon.AlertsOfRulesIsFilter` | edfletcher/promMon.js:38-40 | Filtering rule by rule equals filtering the concatenated alerts of the rules. |

## Left out

- HTTP and JSON. Requests, status codes beyond ok/not-ok, JSON decoding and URL construction are not modelled. Each response is an input record.
- `encodeURIComponent` is an uninterpreted function parameter. The coordinate is an opaque string.
- Bodies that make the source throw are not representable in the types:
  - a forecast body without `periods`;
  - a points body without `properties`;
  - a geocoder body that is not an array (weather.js:34-35);
  - a rules group without `rules`;
  - a rule without `alerts` (promMon.js:39);
  - an alert without `annotations` (promMon.js:41). This one throws partway through the `forEach`, after the earlier alerts' notices were sent;
  - an undefined user-flux state.
- Trigger matching. `msgMatcher` and `canProcessCurrentEvent` (weather.js:25, 82-92) depend on regular-expression semantics and a configuration lookup. A run takes the matched place name, or `None` when the event does not qualify.
- Delivery and logging: the `publish` call at weather.js:136-145, `sendToBotChan` text formatting, and all console output. The model records what would be said, not how it is formatted.
- The second notice after "Request failed!" / "Check failed!" (a dump of the response object) and the alert message text (summary, duration, date) are left out. The model reports the alert record.
- The K-Lined notice in userFlux.js:44-46 only sends a message and does not touch the counters, so it is left out.
- Clock and dates. `util.fmtDuration` is left out. `new Date()` in userFlux.js is an integer instant parameter, and promMon.js time is the integer `now`.
- Numbers. Grid indices, counters, `MESSAGE_COUNT` and `PROM_MON_CHECK_FREQ_MINS` are unbounded integers. JavaScript numbers are doubles, so the model matches the scripts only for integers below 2^53. Non-integer values, NaN from non-numeric stored values, and numeric strings are not modelled.
- Js.IntToString: renders every integer in plain decimal. JavaScript writes numbers from 10^21 up in exponent form (`1e+21`), so the "never contains `+`" promise, and the station and delta round trips built on it, hold only below 10^21.
- UserFlux.Increment: the "+1" uses unbounded integers. A JavaScript counter at 2^53 or above no longer rises by exactly one.
- Rejected requests. A `fetch` that rejects or a `.json()` that fails ends the run at that point, with nothing caught. In weather.js, a rejection at the points request (line 53) after a geocode fill loses the new coordinate, because the write at line 122 is never reached. A rejection at the forecast request (line 69) comes after the write, and nothing is said where the model says the fallback. In promMon.js, a rejection at line 21 or 28 comes after the write at line 19, so it uses up the interval and sends nothing. Every response in the model is a completed request.
- Object-key quirks of JavaScript, such as a place name equal to `__proto__`, are not modelled.
- Concurrent runs racing on shared state (last write wins) are not modelled. Each lemma composes runs one after another.
- `edfletcher/bansAndKicks.js` is a notification formatter with no state or decision worth proving.
- The secondary-provider cache (`awCache`) belongs to another weather script variant and is not part of this model.
- WeatherLookups.SortBy and WeatherLookups.Insert only state that they keep the length. Their ordering behaviour is proved only for the geocoder's comparator (`ImportanceSortKeepsOrder`), the only comparator the source uses.

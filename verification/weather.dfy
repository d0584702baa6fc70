/** The weather script's `main`: place name -> coordinate -> grid station ->
    forecast text, with the first two stages cached in persisted state.

    One run is a pure function of the triggering capture, the state read from
    the store and the three HTTP outcomes (as functions of the request
    argument). It returns a trace: which resolver was called with what, the
    state handed to `state.set` (if any) and the text said in the channel. */
module Weather {
  import opened Js
  import opened WeatherLookups

  /** A cache map as persisted: a key may be absent (`undefined`), map to
      `null` (`None`) or to a string. */
  type Cache = map<string, Option<string>>

  /** The persisted state object. `dirty` is the truthiness of its `__dirty`
      marker; `others` are its remaining top-level fields, carried by the
      object spreads untouched. */
  datatype WeatherState = WeatherState(
    luCache: Option<Cache>,
    staCache: Option<Cache>,
    dirty: bool,
    others: map<string, string>)

  /** Whether an external call was made, and with which argument. */
  datatype Call<T> = NotCalled | Called(arg: T)

  /** The outcomes of the three HTTP requests, as functions of their argument.
      `encodeUri` stands for `encodeURIComponent`. */
  datatype Oracles = Oracles(
    geocode: string -> GeocodeResponse,
    encodeUri: string -> string,
    points: string -> PointsResponse,
    gridForecast: Option<string> -> ForecastResponse)

  /** What one run did. */
  datatype WeatherRun = WeatherRun(
    geocodeCall: Call<string>,
    stationCall: Call<string>,
    forecastCall: Call<Option<string>>,
    written: Option<WeatherState>,
    said: Option<string>)

  /** `cache[key]` is truthy. */
  predicate Holds(cache: Cache, key: string) {
    key in cache && TruthyString(cache[key])
  }

  /** `curState?.luCache ?? {}` */
  function LuCacheOf(s: Option<WeatherState>): Cache {
    if s.Some? && s.value.luCache.Some? then s.value.luCache.value else map[]
  }

  /** `curState?.staCache ?? {}` */
  function StaCacheOf(s: Option<WeatherState>): Cache {
    if s.Some? && s.value.staCache.Some? then s.value.staCache.value else map[]
  }

  /** The fields an object spread `{ ...curState }` copies; `undefined`
      spreads to the empty object. */
  function Spread(s: Option<WeatherState>): WeatherState {
    s.GetOr(WeatherState(None, None, false, map[]))
  }

  /** The text said when no forecast is available. It is never empty, so a
      run that gets past geocoding always says something, and it quotes the
      place name whole. */
  function Fallback(lookup: string): (r: string)
    ensures TruthyString(Some(r))
    ensures |r| == |lookup| + 30 && r[28..|r| - 2] == lookup
  {
    "Unable to find results for \"" + lookup + "\"!"
  }

  /** The coordinate the run works with: the cached one when truthy, else the
      geocoder's answer. */
  function CoordinateFor(stored: Option<WeatherState>, lookup: string, o: Oracles): Option<string> {
    var lu := LuCacheOf(stored);
    if Holds(lu, lookup) then lu[lookup] else LookupLatLng(o.geocode(lookup), o.encodeUri)
  }

  /** The station the run works with: the cached one when truthy, else the
      station resolver's answer (possibly `None`). */
  function StationFor(stored: Option<WeatherState>, coord: string, o: Oracles): Option<string> {
    var sta := StaCacheOf(stored);
    if Holds(sta, coord) then sta[coord] else LookupNwsStation(o.points(coord))
  }

  /** Every truthy cache entry of `before` is present, unchanged, in `after`. */
  ghost predicate Preserves(before: Option<WeatherState>, after: Option<WeatherState>) {
    && (forall k :: Holds(LuCacheOf(before), k) ==>
          k in LuCacheOf(after) && LuCacheOf(after)[k] == LuCacheOf(before)[k])
    && (forall c :: Holds(StaCacheOf(before), c) ==>
          c in StaCacheOf(after) && StaCacheOf(after)[c] == StaCacheOf(before)[c])
  }

  /** `main`. `trigger` is the capture of the message matcher, `None` when the
      event does not qualify; `stored` is what `state.get()` returned. */
  function Main(trigger: Option<string>, stored: Option<WeatherState>, o: Oracles): (r: WeatherRun)
    // An event that does not qualify does nothing at all.
    ensures trigger.None? ==> r == WeatherRun(NotCalled, NotCalled, NotCalled, None, None)
    // The geocoder is called, with the place name, exactly when its cache entry is falsy.
    ensures trigger.Some? ==>
      r.geocodeCall == if Holds(LuCacheOf(stored), trigger.value) then NotCalled else Called(trigger.value)
    // A failed geocode ends the run: no station lookup, no forecast, no write, nothing said.
    ensures trigger.Some? && !TruthyString(CoordinateFor(stored, trigger.value, o)) ==>
      r.stationCall == NotCalled && r.forecastCall == NotCalled && r.written == None && r.said == None
    ensures trigger.Some? && TruthyString(CoordinateFor(stored, trigger.value, o)) ==>
      var lookup := trigger.value;
      var coord := CoordinateFor(stored, lookup, o).value;
      var station := StationFor(stored, coord, o);
      // The station resolver is called, with the coordinate, exactly when its cache entry is falsy.
      && r.stationCall == (if Holds(StaCacheOf(stored), coord) then NotCalled else Called(coord))
      // The forecast is always fetched, with whatever station the cache now holds, even `None`.
      && r.forecastCall == Called(station)
      // The forecast text when truthy, otherwise the fallback sentence.
      && r.said == Some(
           var f := FirstPeriodForecast(o.gridForecast(station));
           if TruthyString(f) then f.value else Fallback(lookup))
      // At most one write, exactly when a cache was filled or a marker was already set.
      && (r.written.Some? <==>
           r.geocodeCall.Called? || r.stationCall.Called? || (stored.Some? && stored.value.dirty))
      // The written state records both answers (a `None` station included),
      // keeps every other entry and field, and never carries the marker.
      && (r.written.Some? ==>
           && r.written.value.luCache == Some(LuCacheOf(stored)[lookup := Some(coord)])
           && r.written.value.staCache == Some(StaCacheOf(stored)[coord := station])
           && r.written.value.others == Spread(stored).others
           && !r.written.value.dirty)
  {
    match trigger
    case None => WeatherRun(NotCalled, NotCalled, NotCalled, None, None)
    case Some(lookup) =>
      var lu := LuCacheOf(stored);
      var luMiss := !Holds(lu, lookup);
      var lu1 := if luMiss then lu[lookup := LookupLatLng(o.geocode(lookup), o.encodeUri)] else lu;
      var cur1 := if luMiss then Spread(stored).(luCache := Some(lu1), dirty := true) else Spread(stored);
      var geocodeCall := if luMiss then Called(lookup) else NotCalled;
      if !Holds(lu1, lookup) then
        WeatherRun(geocodeCall, NotCalled, NotCalled, None, None)
      else
        var coord := lu1[lookup].value;
        var sta := StaCacheOf(Some(cur1));
        assert !luMiss ==> lu[lookup := Some(coord)] == lu;
        var staMiss := !Holds(sta, coord);
        assert !staMiss ==> sta[coord := sta[coord]] == sta;
        var sta1 := if staMiss then sta[coord := LookupNwsStation(o.points(coord))] else sta;
        var cur2 := if staMiss then cur1.(staCache := Some(sta1), dirty := true) else cur1;
        var written := if cur2.dirty then Some(cur2.(dirty := false)) else None;
        var station := sta1[coord];
        var forecast := FirstPeriodForecast(o.gridForecast(station));
        var message := if TruthyString(forecast) then forecast.value else Fallback(lookup);
        WeatherRun(geocodeCall, if staMiss then Called(coord) else NotCalled, Called(station), written, Some(message))
  }

  /** The forecast text is said only when the forecast request succeeds and
      the first period carries a truthy `detailedForecast`; a failed request,
      an empty period list or a missing or empty text gives the fallback. */
  lemma ForecastOrFallback(lookup: string, stored: Option<WeatherState>, o: Oracles)
    requires TruthyString(CoordinateFor(stored, lookup, o))
    ensures var station := StationFor(stored, CoordinateFor(stored, lookup, o).value, o);
            var resp := o.gridForecast(station);
            var said := Main(Some(lookup), stored, o).said;
            && (resp.ForecastOk? && |resp.periods| > 0 && TruthyString(resp.periods[0].detailedForecast) ==>
                  said == resp.periods[0].detailedForecast)
            && (resp.ForecastFailed? || |resp.periods| == 0 || !TruthyString(resp.periods[0].detailedForecast) ==>
                  said == Some(Fallback(lookup)))
  {
  }

  /** The state the store holds after a run: the written state if any. */
  function Persist(stored: Option<WeatherState>, run: WeatherRun): Option<WeatherState> {
    if run.written.Some? then run.written else stored
  }

  /** One triggered invocation: the place name and the HTTP outcomes it meets. */
  datatype Invocation = Invocation(lookup: string, oracles: Oracles)

  /** The stored state after a sequence of invocations, one after another. */
  function Replay(stored: Option<WeatherState>, runs: seq<Invocation>): Option<WeatherState>
    decreases |runs|
  {
    if |runs| == 0 then stored
    else Replay(Persist(stored, Main(Some(runs[0].lookup), stored, runs[0].oracles)), runs[1..])
  }

  /** A single run never drops or changes a truthy cache entry. */
  lemma RunPreserves(lookup: string, stored: Option<WeatherState>, o: Oracles)
    ensures Preserves(stored, Persist(stored, Main(Some(lookup), stored, o)))
  {
  }

  /** Append-only caches: over any sequence of runs, whatever truthy value a
      place name or coordinate was cached under is still cached, unchanged. */
  lemma {:induction false} ReplayPreserves(stored: Option<WeatherState>, runs: seq<Invocation>)
    ensures Preserves(stored, Replay(stored, runs))
    decreases |runs|
  {
    if |runs| > 0 {
      var next := Persist(stored, Main(Some(runs[0].lookup), stored, runs[0].oracles));
      RunPreserves(runs[0].lookup, stored, runs[0].oracles);
      ReplayPreserves(next, runs[1..]);
    }
  }

  /** `c` is the truthy coordinate some place name is cached under. */
  ghost predicate IsCachedCoordinate(lu: Cache, c: string) {
    c != "" && exists k :: k in lu && lu[k] == Some(c)
  }

  /** The persisted state never carries the marker, and every station cache
      key is a coordinate cached for some place name. */
  ghost predicate WellFormed(s: Option<WeatherState>) {
    && (s.Some? ==> !s.value.dirty)
    && forall c :: c in StaCacheOf(s) ==> IsCachedCoordinate(LuCacheOf(s), c)
  }

  lemma RunKeepsWellFormed(lookup: string, stored: Option<WeatherState>, o: Oracles)
    requires WellFormed(stored)
    ensures WellFormed(Persist(stored, Main(Some(lookup), stored, o)))
  {
    var run := Main(Some(lookup), stored, o);
    if run.written.Some? {
      var coord := CoordinateFor(stored, lookup, o).value;
      var lu := LuCacheOf(stored);
      var lu' := lu[lookup := Some(coord)];
      var after := Persist(stored, run);
      assert LuCacheOf(after) == lu';
      assert StaCacheOf(after) == StaCacheOf(stored)[coord := StationFor(stored, coord, o)];
      forall c | c in StaCacheOf(after)
        ensures IsCachedCoordinate(lu', c)
      {
        if c == coord {
          assert lu'[lookup] == Some(c);
        } else {
          assert IsCachedCoordinate(lu, c);
          var k :| k in lu && lu[k] == Some(c);
          assert Holds(lu, k);
          assert lu'[k] == Some(c);
        }
      }
    }
  }

  /** Over any sequence of runs the persisted state stays well formed: the
      marker is never persisted and station entries are only ever keyed by
      cached coordinates. */
  lemma {:induction false} ReplayKeepsWellFormed(stored: Option<WeatherState>, runs: seq<Invocation>)
    requires WellFormed(stored)
    ensures WellFormed(Replay(stored, runs))
    decreases |runs|
  {
    if |runs| > 0 {
      var next := Persist(stored, Main(Some(runs[0].lookup), stored, runs[0].oracles));
      RunKeepsWellFormed(runs[0].lookup, stored, runs[0].oracles);
      ReplayKeepsWellFormed(next, runs[1..]);
    }
  }

  /** No negative caching: while a place name keeps failing to geocode, the
      stored state never changes and every run calls the geocoder again. */
  lemma {:induction false} FailingGeocodeRetried(lookup: string, stored: Option<WeatherState>, runs: seq<Invocation>)
    requires !Holds(LuCacheOf(stored), lookup)
    requires forall i :: 0 <= i < |runs| ==> runs[i].lookup == lookup
    requires forall i :: 0 <= i < |runs| ==>
      !TruthyString(LookupLatLng(runs[i].oracles.geocode(lookup), runs[i].oracles.encodeUri))
    ensures Replay(stored, runs) == stored
    ensures forall i :: 0 <= i < |runs| ==>
      Main(Some(lookup), stored, runs[i].oracles).geocodeCall == Called(lookup)
    decreases |runs|
  {
    if |runs| > 0 {
      var run := Main(Some(lookup), stored, runs[0].oracles);
      assert run.written == None;
      assert Persist(stored, run) == stored;
      FailingGeocodeRetried(lookup, stored, runs[1..]);
      assert forall i :: 1 <= i < |runs| ==> runs[i] == runs[1..][i - 1];
    }
  }

  /** After a run that resolved both stages, the next run for the same place
      name is a full cache hit: neither resolver is called, nothing is
      written, and the forecast is fetched for the same station. */
  lemma ResolvedRunThenCacheHit(lookup: string, stored: Option<WeatherState>, o1: Oracles, o2: Oracles)
    requires TruthyString(CoordinateFor(stored, lookup, o1))
    requires TruthyString(StationFor(stored, CoordinateFor(stored, lookup, o1).value, o1))
    ensures var run1 := Main(Some(lookup), stored, o1);
            var run2 := Main(Some(lookup), Persist(stored, run1), o2);
            && run2.geocodeCall == NotCalled
            && run2.stationCall == NotCalled
            && run2.written == None
            && run2.forecastCall == run1.forecastCall
  {
  }

  /** A station lookup that fails is still recorded (as `null`) and
      persisted, and because the check is on truthiness the next run for the
      same place name asks the station resolver again. */
  lemma NullStationRetried(lookup: string, stored: Option<WeatherState>, o1: Oracles, o2: Oracles)
    requires TruthyString(CoordinateFor(stored, lookup, o1))
    requires !Holds(StaCacheOf(stored), CoordinateFor(stored, lookup, o1).value)
    requires LookupNwsStation(o1.points(CoordinateFor(stored, lookup, o1).value)) == None
    ensures var coord := CoordinateFor(stored, lookup, o1).value;
            var run1 := Main(Some(lookup), stored, o1);
            && run1.written.Some?
            && run1.written.value.staCache.Some?
            && run1.written.value.staCache.value[coord] == None
            && Main(Some(lookup), run1.written, o2).stationCall == Called(coord)
  {
  }
}

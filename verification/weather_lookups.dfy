/** The three external lookups of the weather script, reduced to the decisions
    they make on an HTTP outcome: which geocoder result becomes the coordinate,
    when the points record yields a grid-station string, and which text of the
    forecast body is returned. The HTTP exchange itself is an input: a response
    is either a failure (non-OK status) or an OK status with its decoded body. */
module WeatherLookups {
  import opened Js

  // ---------------------------------------------------------------------------
  // Geocoding: place name -> coordinate
  // ---------------------------------------------------------------------------

  /** One entry of the geocoder's result list: its `type`, its `lat`/`lon`
      text and its numeric `importance`. */
  datatype Place = Place(kind: string, lat: string, lon: string, importance: real)

  datatype GeocodeResponse =
    | GeocodeFailed(status: int)
    | GeocodeOk(results: seq<Place>)

  /** A JavaScript number as far as the sort comparator needs one. */
  datatype JsNumber = Number(value: real) | NaN

  /** Reading a numeric field by name: only `importance` exists on a result,
      every other name reads as `undefined`. */
  function NumberField(p: Place, field: string): Option<real> {
    if field == "importance" then Some(p.importance) else None
  }

  /** `x - y` where `undefined` operands make the difference NaN. */
  function Minus(x: Option<real>, y: Option<real>): JsNumber {
    if x.Some? && y.Some? then Number(x.value - y.value) else NaN
  }

  /** The geocoder's sort comparator: it destructures `importanceA` from its
      first argument and `importanceB` from its second and returns
      `importanceB - importanceA`. Neither field exists on a result, so it
      answers NaN for every pair. */
  function ImportanceComparator(a: Place, b: Place): (r: JsNumber)
    ensures r == NaN
  {
    Minus(NumberField(b, "importanceB"), NumberField(a, "importanceA"))
  }

  /** How `Array.prototype.sort` reads a comparator's answer: ECMAScript's
      CompareArrayElements turns a NaN result into +0, i.e. "equal". */
  function CompareResult(v: JsNumber): real {
    match v
    case NaN => 0.0
    case Number(x) => x
  }

  /** Inserts `x` after every element of `sorted` that does not compare
      greater than it, which keeps equal elements in their original order. */
  function Insert(sorted: seq<Place>, x: Place, cmp: (Place, Place) -> JsNumber): (r: seq<Place>)
    ensures |r| == |sorted| + 1
    decreases |sorted|
  {
    if |sorted| == 0 then [x]
    else if CompareResult(cmp(sorted[|sorted| - 1], x)) > 0.0 then
      Insert(sorted[..|sorted| - 1], x, cmp) + [sorted[|sorted| - 1]]
    else sorted + [x]
  }

  /** `Array.prototype.sort` with a comparator: the specification requires a
      stable sort, modelled here as an insertion sort. */
  function SortBy(s: seq<Place>, cmp: (Place, Place) -> JsNumber): (r: seq<Place>)
    ensures |r| == |s|
    decreases |s|
  {
    if |s| == 0 then [] else Insert(SortBy(s[..|s| - 1], cmp), s[|s| - 1], cmp)
  }

  /** Sorting with the geocoder's comparator leaves the results in response order. */
  lemma {:induction false} ImportanceSortKeepsOrder(s: seq<Place>)
    ensures SortBy(s, ImportanceComparator) == s
    decreases |s|
  {
    if |s| > 0 {
      var init := s[..|s| - 1];
      ImportanceSortKeepsOrder(init);
      assert init + [s[|s| - 1]] == s;
    }
  }

  predicate IsAdministrative(p: Place) {
    p.kind == "administrative"
  }

  /** The `filter` keeping only administrative results, in order. */
  function AdministrativeOnly(s: seq<Place>): (r: seq<Place>)
    ensures |r| <= |s|
    ensures forall i :: 0 <= i < |r| ==> IsAdministrative(r[i])
    // Every administrative result is kept, as often as the response lists it.
    ensures forall p :: multiset(r)[p] == if IsAdministrative(p) then multiset(s)[p] else 0
    decreases |s|
  {
    if |s| == 0 then []
    else
      assert s == [s[0]] + s[1..];
      if IsAdministrative(s[0]) then [s[0]] + AdministrativeOnly(s[1..])
      else AdministrativeOnly(s[1..])
  }

  /** The filter works piecewise, so the kept results stay in response order. */
  lemma {:induction false} AdministrativeOnlyAppend(xs: seq<Place>, ys: seq<Place>)
    ensures AdministrativeOnly(xs + ys) == AdministrativeOnly(xs) + AdministrativeOnly(ys)
    decreases |xs|
  {
    if |xs| == 0 {
      assert xs + ys == ys;
    } else {
      assert (xs + ys)[1..] == xs[1..] + ys;
      AdministrativeOnlyAppend(xs[1..], ys);
    }
  }

  /** Index of the first administrative result, if any. */
  function FirstAdministrative(s: seq<Place>): (r: Option<nat>)
    ensures r.Some? ==> r.value < |s| && IsAdministrative(s[r.value])
    ensures r.Some? ==> forall j :: 0 <= j < r.value ==> !IsAdministrative(s[j])
    ensures r.None? ==> forall j :: 0 <= j < |s| ==> !IsAdministrative(s[j])
    decreases |s|
  {
    if |s| == 0 then None
    else if IsAdministrative(s[0]) then Some(0)
    else
      match FirstAdministrative(s[1..])
      case None => None
      case Some(i) => Some(i + 1)
  }

  /** The filtered list is non-empty exactly when some result is
      administrative, and then it starts with the first such result. */
  lemma {:induction false} AdministrativeOnlyHead(s: seq<Place>)
    ensures |AdministrativeOnly(s)| > 0 <==> FirstAdministrative(s).Some?
    ensures |AdministrativeOnly(s)| > 0 ==>
      AdministrativeOnly(s)[0] == s[FirstAdministrative(s).value]
    decreases |s|
  {
    if |s| > 0 && !IsAdministrative(s[0]) {
      AdministrativeOnlyHead(s[1..]);
    }
  }

  /** The `${lat},${lon}` text of a result before URI encoding. */
  function LatLonText(p: Place): string {
    p.lat + "," + p.lon
  }

  /** `lookupLatLng`: the URI-encoded coordinate of the first administrative
      result in response order; `None` (the source's `null`) when the request
      fails or no result is administrative. `encodeUri` stands for
      `encodeURIComponent`, which the model leaves uninterpreted. */
  function LookupLatLng(resp: GeocodeResponse, encodeUri: string -> string): (r: Option<string>)
    ensures resp.GeocodeFailed? ==> r == None
    ensures resp.GeocodeOk? ==>
      r == match FirstAdministrative(resp.results)
           case None => None
           case Some(i) => Some(encodeUri(LatLonText(resp.results[i])))
  {
    match resp
    case GeocodeFailed(_) => None
    case GeocodeOk(results) =>
      var adminResults := SortBy(AdministrativeOnly(results), ImportanceComparator);
      ImportanceSortKeepsOrder(AdministrativeOnly(results));
      AdministrativeOnlyHead(results);
      if |adminResults| > 0 then Some(encodeUri(LatLonText(adminResults[0]))) else None
  }

  /** A consequence of the comparator reading missing fields: with two
      administrative results, the first in response order is chosen even when
      the second has the higher importance. */
  lemma ResponseOrderBeatsImportance()
    ensures var minor := Place("administrative", "34.05", "-118.24", 0.25);
            var major := Place("administrative", "40.71", "-74.00", 0.75);
            LookupLatLng(GeocodeOk([minor, major]), (t: string) => t) == Some(LatLonText(minor))
  {
  }

  // ---------------------------------------------------------------------------
  // Station lookup: coordinate -> grid-station string
  // ---------------------------------------------------------------------------

  /** The `properties` of a points response: grid office id and grid indices,
      each possibly missing or null. */
  datatype PointsResponse =
    | PointsFailed(status: int)
    | PointsOk(gridId: Option<string>, gridX: Option<int>, gridY: Option<int>)

  /** A grid station: office id and the two grid indices. */
  datatype GridPoint = GridPoint(gridId: string, gridX: int, gridY: int)

  /** The station string `${gridId}/${gridX},${gridY}`. It determines its grid
      point whenever the office id has no `/` of its own (NWS office ids are
      three letters). */
  function StationString(g: GridPoint): (r: string)
    ensures '/' !in g.gridId ==> ParseStation(r) == Some(g)
  {
    var xs := IntToString(g.gridX);
    var ys := IntToString(g.gridY);
    var rest := xs + [','] + ys;
    var s := g.gridId + ['/'] + rest;
    assert '/' !in g.gridId ==> ParseStation(s) == Some(g) by {
      if '/' !in g.gridId {
        IndexOfAfterPrefix(g.gridId, '/', rest);
        assert s[|g.gridId| + 1..] == rest;
        assert s[..|g.gridId|] == g.gridId;
        IndexOfAfterPrefix(xs, ',', ys);
        assert rest[..|xs|] == xs;
        assert rest[|xs| + 1..] == ys;
        IntToStringRoundTrip(g.gridX);
        IntToStringRoundTrip(g.gridY);
      }
    }
    s
  }

  /** `lookupNwsStation`: a station string only when the request succeeds and
      all three fields are truthy (so an index of 0 is rejected), else `None`. */
  function LookupNwsStation(resp: PointsResponse): (r: Option<string>)
    ensures r.Some? <==>
      resp.PointsOk? && TruthyString(resp.gridId) && TruthyInt(resp.gridX) && TruthyInt(resp.gridY)
    ensures r.Some? ==>
      r.value == StationString(GridPoint(resp.gridId.value, resp.gridX.value, resp.gridY.value))
    ensures r.Some? ==> TruthyString(r)
  {
    match resp
    case PointsFailed(_) => None
    case PointsOk(gridId, gridX, gridY) =>
      if TruthyString(gridId) && TruthyInt(gridX) && TruthyInt(gridY) then
        Some(StationString(GridPoint(gridId.value, gridX.value, gridY.value)))
      else None
  }

  /** Position of the first occurrence of `c` in `s`. */
  function IndexOf(s: string, c: char): (r: Option<nat>)
    ensures r.Some? ==> r.value < |s| && s[r.value] == c
    ensures r.Some? ==> forall j :: 0 <= j < r.value ==> s[j] != c
    ensures r.None? ==> c !in s
    decreases |s|
  {
    if |s| == 0 then None
    else if s[0] == c then Some(0)
    else
      match IndexOf(s[1..], c)
      case None => None
      case Some(i) => Some(i + 1)
  }

  lemma IndexOfAfterPrefix(prefix: string, c: char, suffix: string)
    requires c !in prefix
    ensures IndexOf(prefix + [c] + suffix, c) == Some(|prefix|)
  {
    var s := prefix + [c] + suffix;
    assert s[|prefix|] == c;
    assert s[..|prefix|] == prefix;
  }

  /** Reads a station string back into its grid point: the office id runs up to
      the first `/`, the x index up to the next `,`. */
  function ParseStation(s: string): Option<GridPoint> {
    match IndexOf(s, '/')
    case None => None
    case Some(slash) =>
      var rest := s[slash + 1..];
      match IndexOf(rest, ',')
      case None => None
      case Some(comma) =>
        match (ParseInt(rest[..comma]), ParseInt(rest[comma + 1..]))
        case (Some(x), Some(y)) => Some(GridPoint(s[..slash], x, y))
        case _ => None
  }

  // ---------------------------------------------------------------------------
  // Forecast: station -> forecast text
  // ---------------------------------------------------------------------------

  /** One forecast period; `detailedForecast` may be missing. */
  datatype Period = Period(detailedForecast: Option<string>)

  /** A forecast response. An OK body always carries its `periods` list: a body
      without one makes the source throw, which is outside this model. */
  datatype ForecastResponse =
    | ForecastFailed(status: int)
    | ForecastOk(periods: seq<Period>)

  /** `nwsFetchForecastForStation`: the first period's detailed forecast;
      `None` on a failed request, an empty period list or a missing text. */
  function FirstPeriodForecast(resp: ForecastResponse): (r: Option<string>)
    ensures resp.ForecastFailed? ==> r == None
    ensures resp.ForecastOk? && |resp.periods| == 0 ==> r == None
    ensures resp.ForecastOk? && |resp.periods| > 0 ==> r == resp.periods[0].detailedForecast
  {
    match resp
    case ForecastFailed(_) => None
    case ForecastOk(periods) =>
      if |periods| == 0 then None else periods[0].detailedForecast
  }

  /** Only the first period matters: later periods never change the text. */
  lemma FirstPeriodOnly(p: Period, later: seq<Period>, other: seq<Period>)
    ensures FirstPeriodForecast(ForecastOk([p] + later)) == FirstPeriodForecast(ForecastOk([p] + other))
  {
  }
}

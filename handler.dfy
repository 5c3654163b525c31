/**
 * `onRequestGet` of /api/providers/nearby (functions/api/providers/nearby.js, lines 5-69):
 * query parsing and clamping, the service-to-feed table and the final radius/size clamp.
 *
 * JavaScript numbers are modelled as `Option`: `None` stands for NaN (and for the
 * infinities), so that `Math.max`/`Math.min` and comparisons with NaN can be written out.
 */
module Handler {
  import opened Wrappers
  import opened Text
  import opened Seqs
  import opened Cache
  import opened Geocode
  import opened Providers
  import opened Ranking
  import opened Resolver

  /** The query-string parameters the handler reads; `None` is an absent parameter. */
  datatype Query = Query(
    lat: Option<string>, lng: Option<string>, service: Option<string>,
    radiusKm: Option<string>, radius: Option<string>,
    maxResults: Option<string>, maxGeocodes: Option<string>)

  /** The deployment's environment variables. */
  datatype Env = Env(
    radiusKm: Option<string>, maxResults: Option<string>, maxGeocodesPerReq: Option<string>,
    apiKey: string)

  /** `p || d` on a query value: an absent or empty value yields `d`. */
  function Or(p: Option<string>, d: string): (r: string)
    ensures r == d || (p == Some(r) && r != [])
  {
    if p.None? || p.value == [] then d else p.value
  }

  /** `Number(x)` for a query value or null: null and blank strings are 0. */
  function NumberOf(p: Option<string>, number: string -> Option<real>): (r: Option<real>)
    ensures (p.None? || Trim(p.value) == []) ==> r == Some(0.0)
  {
    if p.None? || Trim(p.value) == [] then Some(0.0) else number(p.value)
  }

  /** `Math.max(lo, x)` on reals, NaN-propagating. */
  function MaxReal(lo: real, x: Option<real>): (r: Option<real>)
    ensures r.None? <==> x.None?
    ensures r.Some? ==> r.value >= lo && (r.value == lo || r.value == x.value)
  {
    if x.None? then None else if x.value > lo then x else Some(lo)
  }

  /** The same `Math.max`, on the integer-valued numbers `parseInt` yields. */
  function MaxInt(lo: int, x: Option<int>): (r: Option<int>)
    ensures r.None? <==> x.None?
    ensures r.Some? ==> r.value >= lo && (r.value == lo || r.value == x.value)
  {
    match MaxReal(lo as real, if x.None? then None else Some(x.value as real))
    case None => None
    case Some(v) => Some(v.Floor)
  }

  /** `Math.min(x, hi)` on integers, NaN-propagating. */
  function MinInt(x: Option<int>, hi: int): (r: Option<int>)
    ensures r.None? <==> x.None?
    ensures r.Some? ==> r.value <= hi && (r.value == hi || r.value == x.value)
  {
    if x.None? then None else if x.value < hi then x else Some(hi)
  }

  // ---------------------------------------------------------------------------------
  // The clamps as written: NaN passes through every one of them.
  // ---------------------------------------------------------------------------------

  /** `lat`/`lng` as written: `Number(get(...))`, rejected only when not finite. */
  function CoordsAsWritten(q: Query, number: string -> Option<real>): Option<Coord> {
    var lat := NumberOf(q.lat, number);
    var lng := NumberOf(q.lng, number);
    if lat.None? || lng.None? then None else Some(Coord(lat.value, lng.value))
  }

  /** A request without coordinates is not refused: it is served as a pick-up at (0, 0). */
  lemma MissingCoordsAccepted(q: Query, number: string -> Option<real>)
    requires q.lat.None? && q.lng.None?
    ensures CoordsAsWritten(q, number) == Some(Coord(0.0, 0.0))
  {
  }

  /** `radiusKm` as written. */
  function RadiusAsWritten(q: Query, env: Env, number: string -> Option<real>): Option<real> {
    var param := if q.radiusKm.Some? then q.radiusKm else q.radius;
    var v := if param.None? || param.value == [] then NumberOf(Some(Or(env.radiusKm, "40")), number)
             else NumberOf(param, number);
    MaxReal(1.0, v)
  }

  /** `maxResults` as written. */
  function MaxResultsAsWritten(q: Query, env: Env, parseInt: string -> Option<int>): Option<int> {
    MinInt(MaxInt(1, parseInt(Or(q.maxResults, Or(env.maxResults, "10")))), 500)
  }

  /** `maxGeocodes` as written. */
  function MaxGeocodesAsWritten(q: Query, env: Env, parseInt: string -> Option<int>): Option<int> {
    MaxInt(0, parseInt(Or(q.maxGeocodes, Or(env.maxGeocodesPerReq, "120"))))
  }

  /** The loop's budget test `tried >= geocodeBudget`, false whenever the budget is NaN. */
  predicate BudgetSpent(tried: int, budget: Option<int>) {
    budget.Some? && tried >= budget.value
  }

  /**
   * A non-numeric `max_geocodes` makes the budget NaN, and the budget test then never
   * stops the loop: every provider without coordinates may be geocoded.
   */
  lemma NonNumericBudgetNeverSpent(q: Query, env: Env, parseInt: string -> Option<int>, tried: int)
    requires q.maxGeocodes.Some? && q.maxGeocodes.value != [] && parseInt(q.maxGeocodes.value).None?
    ensures MaxGeocodesAsWritten(q, env, parseInt).None?
    ensures !BudgetSpent(tried, MaxGeocodesAsWritten(q, env, parseInt))
  {
  }

  /**
   * A non-numeric `radius_km` makes the radius NaN; `d <= NaN` is false, so no provider
   * with coordinates can ever be placed.
   */
  lemma NonNumericRadiusIsNaN(q: Query, env: Env, number: string -> Option<real>)
    requires q.radiusKm.Some? && Trim(q.radiusKm.value) != [] && number(q.radiusKm.value).None?
    ensures RadiusAsWritten(q, env, number).None?
  {
  }

  /** A non-numeric `max_results` is NaN too, and `slice(0, NaN)` keeps nothing. */
  lemma NonNumericMaxResultsIsNaN(q: Query, env: Env, parseInt: string -> Option<int>)
    requires q.maxResults.Some? && q.maxResults.value != [] && parseInt(q.maxResults.value).None?
    ensures MaxResultsAsWritten(q, env, parseInt).None?
  {
  }

  // ---------------------------------------------------------------------------------
  // The clamps as intended: missing coordinates are refused and a non-numeric
  // parameter falls back to the configured default, then to the built-in one.
  // ---------------------------------------------------------------------------------

  /** A query value that is present and not blank. */
  predicate Given(p: Option<string>) {
    p.Some? && Trim(p.value) != []
  }

  /** The pick-up point: both coordinates given and finite. */
  function Coords(q: Query, number: string -> Option<real>): (r: Option<Coord>)
    ensures r.Some? <==>
      (Given(q.lat) && Given(q.lng) && number(q.lat.value).Some? && number(q.lng.value).Some?)
    ensures r.Some? ==> r == CoordsAsWritten(q, number)
  {
    if !Given(q.lat) || !Given(q.lng) then None else CoordsAsWritten(q, number)
  }

  /** The first of `xs` that is a number, else `d`. */
  function FirstNumber<T>(xs: seq<Option<T>>, d: T): (r: T)
    ensures (exists i :: 0 <= i < |xs| && xs[i] == Some(r)) || r == d
    ensures forall i :: 0 <= i < |xs| && (forall j :: 0 <= j < i ==> xs[j].None?) && xs[i].Some? ==>
      r == xs[i].value
  {
    if xs == [] then d else if xs[0].Some? then xs[0].value else FirstNumber(xs[1..], d)
  }

  /** A parameter read only when given: `p || default` treats an empty value as absent. */
  function Read<T>(p: Option<string>, parse: string -> Option<T>): Option<T> {
    if p.None? || p.value == [] then None else parse(p.value)
  }

  /** The search radius: at least 1 km, a number wherever the written clamp yields one. */
  function Radius(q: Query, env: Env, number: string -> Option<real>): (r: real)
    ensures r >= 1.0
    ensures RadiusAsWritten(q, env, number).Some? ==> r == RadiusAsWritten(q, env, number).value
  {
    var param := if q.radiusKm.Some? then q.radiusKm else q.radius;
    var v := if param.None? || param.value == [] then NumberOf(Some(Or(env.radiusKm, "40")), number)
             else NumberOf(param, number);
    var dflt := NumberOf(Some(Or(env.radiusKm, "40")), number);
    MaxReal(1.0, Some(FirstNumber([v, dflt], 40.0))).value
  }

  /** The result limit: between 1 and 500, a number wherever the written clamp yields one. */
  function MaxResults(q: Query, env: Env, parseInt: string -> Option<int>): (r: int)
    ensures 1 <= r <= 500
    ensures MaxResultsAsWritten(q, env, parseInt).Some? ==> r == MaxResultsAsWritten(q, env, parseInt).value
  {
    var v := parseInt(Or(q.maxResults, Or(env.maxResults, "10")));
    var dflt := Read(env.maxResults, parseInt);
    MinInt(MaxInt(1, Some(FirstNumber([v, dflt], 10))), 500).value
  }

  /** The geocoding budget: never negative, a number wherever the written clamp yields one. */
  function MaxGeocodes(q: Query, env: Env, parseInt: string -> Option<int>): (r: int)
    ensures r >= 0
    ensures MaxGeocodesAsWritten(q, env, parseInt).Some? ==> r == MaxGeocodesAsWritten(q, env, parseInt).value
  {
    var v := parseInt(Or(q.maxGeocodes, Or(env.maxGeocodesPerReq, "120")));
    var dflt := Read(env.maxGeocodesPerReq, parseInt);
    MaxInt(0, Some(FirstNumber([v, dflt], 120))).value
  }

  // ---------------------------------------------------------------------------------
  // Services and the response.
  // ---------------------------------------------------------------------------------

  const TowingCsv: string :=
    "https://docs.google.com/spreadsheets/d/e/2PACX-1vSl3UDciPk6cTAYkTXFHM42BcwDWRPHnCDQY4KyzV_x0hQ3Pbr52RbGZWcnjmF2bwXuYBnnpqVhBLI_/pub?gid=0&single=true&output=csv"
  const MechanicCsv: string :=
    "https://docs.google.com/spreadsheets/d/e/2PACX-1vTq7T0fJQVoSA7hv6gKM1hhqiwNeCoczt1PzgpcSVXxblVrChDTLvxtSwDfGOk9-QLpq88RaPsNJQ12/pub?gid=0&single=true&output=csv"

  /** The requested service, lower-cased; "towing" when absent or empty. */
  function ServiceName(q: Query): string {
    Lower(Or(q.service, "towing"))
  }

  /** `SERVICES[service]`. */
  function FeedOf(service: string): (r: Option<string>)
    ensures r.Some? <==> service == "towing" || service == "mechanic"
  {
    if service == "towing" then Some(TowingCsv)
    else if service == "mechanic" then Some(MechanicCsv)
    else None
  }

  /** The service name defaults to towing and is case-insensitive. */
  lemma ServiceFeeds(q: Query)
    ensures q.service.None? || q.service == Some([]) ==> FeedOf(ServiceName(q)) == Some(TowingCsv)
    ensures q.service.Some? ==> ServiceName(q.(service := Some(Upper(q.service.value)))) == ServiceName(q)
  {
    if q.service.None? || q.service == Some([]) {
      forall i | 0 <= i < |"towing"|
        ensures Lower("towing")[i] == "towing"[i]
      {
        assert Lower("towing")[i] == LowerChar("towing"[i]);
      }
    } else {
      CaseRoundTrip(q.service.value);
    }
  }

  /** The test of the final clamp: `Number.isFinite(n.distKm) && n.distKm <= radiusKm`. */
  function WithinKm(radius: real): Near -> bool {
    (n: Near) => n.distKm <= radius
  }

  /** The final clamp: within the radius, then the first `maxResults`. */
  function ClampResults(nearest: seq<Near>, radius: real, maxResults: int): seq<Near> {
    Take(Filter(nearest, WithinKm(radius)), maxResults)
  }

  /** On the resolver's own output the final clamp changes nothing. */
  lemma ClampKeepsNearest(nearest: seq<Near>, radius: real, maxResults: int)
    requires forall n :: n in nearest ==> n.distKm <= radius
    requires |nearest| <= maxResults
    ensures ClampResults(nearest, radius, maxResults) == nearest
  {
    FilterAll(nearest, WithinKm(radius));
  }

  /** What the endpoint answers; the per-provider output fields are not modelled. */
  datatype Response =
    | Failure(status: int, error: string)
    | Success(providers: seq<Near>, center: Coord, radiusKm: real)

  /** The request names a pick-up point and a known service, so a feed is loaded. */
  predicate Served(q: Query, number: string -> Option<real>) {
    Coords(q, number).Some? && FeedOf(ServiceName(q)).Some?
  }

  /**
   * `onRequestGet`, over the endpoint's own three caches with their fixed times to live:
   * a request without usable coordinates or for an unknown service is refused with 400
   * and touches no cache; a feed that is neither fresh in the cache nor fetched with an
   * OK status is a 500 that touches no cache; otherwise the answer is the result of a
   * run of `nearestProviders` on the loaded rows, with the request's radius, result
   * limit and geocoding budget, and the caches are those that run and the load leave.
   */
  method HandleNearby(q: Query, env: Env, feeds: TtlCache<seq<Provider>>,
                      geo: TtlCache<Coord>, rev: TtlCache<AdminArea>,
                      fetch: string -> Reply, number: string -> Option<real>,
                      parseInt: string -> Option<int>, lookup: string -> Option<Coord>,
                      coordKey: Coord -> string, reverse: Coord -> Option<seq<Component>>,
                      dist: (Coord, Coord) -> real, now: int)
    returns (resp: Response, ghost hits: seq<Option<GeoHit>>, ghost caches: seq<map<string, Entry<Coord>>>)
    requires feeds.ttl == ProviderTtlMs && geo.ttl == GeoTtlMs && rev.ttl == GeoTtlMs
    modifies feeds, geo, rev
    ensures Coords(q, number).None? ==> resp == Failure(400, "lat/lng required")
    ensures Coords(q, number).Some? && FeedOf(ServiceName(q)).None? ==>
      resp == Failure(400, "No CSV configured for service \"" + ServiceName(q) + "\"")
    ensures Served(q, number) ==>
      var url := FeedOf(ServiceName(q)).value;
      var loads := IsFresh(old(feeds.entries), url, now, feeds.ttl) || IsOk(fetch(url));
      (resp.Success? <==> loads) && (!loads ==> resp == Failure(500, "server error"))
    ensures resp.Failure? ==>
      feeds.entries == old(feeds.entries) && geo.entries == old(geo.entries) && rev.entries == old(rev.entries)
    ensures resp.Success? ==>
      var url := FeedOf(ServiceName(q)).value;
      var rows := LoadedRows(old(feeds.entries), feeds.ttl, url, fetch, number, now);
      resp.center == Coords(q, number).value && resp.radiusKm == Radius(q, env, number)
      && feeds.entries == (if IsFresh(old(feeds.entries), url, now, feeds.ttl) then old(feeds.entries)
                           else old(feeds.entries)[url := Entry(now, rows)])
      && NearestRun(rows, resp.center, resp.radiusKm, MaxResults(q, env, parseInt), MaxGeocodes(q, env, parseInt),
                    env.apiKey, dist, lookup, coordKey, reverse, now,
                    geo.ttl, old(geo.entries), hits, caches, geo.entries,
                    rev.ttl, old(rev.entries), rev.entries, resp.providers)
    ensures resp.Success? ==>
      |resp.providers| <= MaxResults(q, env, parseInt)
      && ByDistance(resp.providers)
      && (forall n :: n in resp.providers ==> Placed(n, resp.center, resp.radiusKm, dist))
  {
    var pick := Coords(q, number);
    if pick.None? {
      return Failure(400, "lat/lng required"), [], [];
    }
    var service := ServiceName(q);
    var feed := FeedOf(service);
    if feed.None? {
      return Failure(400, "No CSV configured for service \"" + service + "\""), [], [];
    }
    var radius := Radius(q, env, number);
    var maxResults := MaxResults(q, env, parseInt);
    var maxGeocodes := MaxGeocodes(q, env, parseInt);

    var rows := LoadProviders(feeds, feed.value, fetch, number, now);
    if rows.Err? {
      return Failure(500, "server error"), [], [];
    }
    var providers;
    providers, hits, caches := ResolveAndClamp(rows.value, pick.value, radius, maxResults, maxGeocodes,
                                               env.apiKey, dist, geo, lookup, rev, coordKey, reverse, now);
    resp := Success(providers, pick.value, radius);
  }

  /**
   * `nearestProviders` followed by the final filter and slice (nearby.js, lines 36-42):
   * the clamped list is the resolver's own result, so it is sorted, within the radius and
   * no longer than the limit.
   */
  method ResolveAndClamp(rows: seq<Provider>, pick: Coord, radius: real, maxResults: int, maxGeocodes: int,
                         apiKey: string, dist: (Coord, Coord) -> real, geo: TtlCache<Coord>,
                         lookup: string -> Option<Coord>, rev: TtlCache<AdminArea>,
                         coordKey: Coord -> string, reverse: Coord -> Option<seq<Component>>, now: int)
    returns (providers: seq<Near>, ghost hits: seq<Option<GeoHit>>, ghost caches: seq<map<string, Entry<Coord>>>)
    requires 1 <= maxResults
    modifies geo, rev
    ensures NearestRun(rows, pick, radius, maxResults, maxGeocodes, apiKey, dist, lookup, coordKey, reverse, now,
                       geo.ttl, old(geo.entries), hits, caches, geo.entries,
                       rev.ttl, old(rev.entries), rev.entries, providers)
    ensures |providers| <= maxResults && ByDistance(providers)
    ensures forall n :: n in providers ==> Placed(n, pick, radius, dist)
  {
    var nearest, diag;
    nearest, diag, hits, caches := NearestProviders(rows, pick, radius, maxResults, maxGeocodes,
                                                    apiKey, dist, geo, lookup, rev, coordKey, reverse, now);
    NearestRunShape(rows, pick, radius, maxResults, maxGeocodes, apiKey, dist, lookup,
                    coordKey, reverse, now, geo.ttl, old(geo.entries), hits, caches, geo.entries,
                    rev.ttl, old(rev.entries), rev.entries, nearest);
    forall n | n in nearest
      ensures n.distKm <= radius
    {
      assert Placed(n, pick, radius, dist);
    }
    ClampKeepsNearest(nearest, radius, maxResults);
    providers := ClampResults(nearest, radius, maxResults);
  }
}

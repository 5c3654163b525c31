/**
 * `nearestProviders` (functions/api/providers/nearby.js, lines 233-278): deduplicate,
 * split by coordinates, keep those within the radius, geocode the others in priority
 * order within a budget, then sort by distance and keep the nearest `k`.
 */
module Resolver {
  import opened Wrappers
  import opened Seqs
  import opened Cache
  import opened Geocode
  import opened Providers
  import opened Dedup
  import opened Ranking

  /** `a` is `b` with possibly different coordinates (`{ ...r, lat, lng, distKm }`). */
  predicate SameBut(a: Provider, b: Provider) {
    a == b.(lat := a.lat, lng := a.lng)
  }

  /** An entry of `out`: it has coordinates, its distance from them, and lies within the radius. */
  predicate Placed(n: Near, pick: Coord, radius: real, dist: (Coord, Coord) -> real) {
    HasCoords(n.p) && n.distKm == dist(pick, Located(n.p)) && n.distKm <= radius
  }

  /** The two stopping tests at the head of the geocoding loop. */
  predicate MayTry(outLen: int, tried: int, k: int, budget: int) {
    outLen < k && tried < budget
  }

  /** A geocoded provider: the row with the found coordinates, and their distance. */
  function Placement(r: Provider, at: Coord, pick: Coord, dist: (Coord, Coord) -> real): Near {
    Near(r.(lat := Some(at.lat), lng := Some(at.lng)), dist(pick, at))
  }

  /** What one lookup adds to `out`: the placement, when a place was found within the radius. */
  function PushOne(r: Provider, g: Option<GeoHit>, pick: Coord, radius: real,
                   dist: (Coord, Coord) -> real): seq<Near> {
    if g.Some? && dist(pick, g.value.at) <= radius then [Placement(r, g.value.at, pick, dist)] else []
  }

  /** What the lookups `hits` of the first prioritised providers add to `out`, in order. */
  function Pushed(prioritized: seq<Provider>, hits: seq<Option<GeoHit>>, pick: Coord, radius: real,
                  dist: (Coord, Coord) -> real): seq<Near>
    requires |hits| <= |prioritized|
    decreases |hits|
  {
    if hits == [] then []
    else
      var t := |hits| - 1;
      Pushed(prioritized, hits[..t], pick, radius, dist) + PushOne(prioritized[t], hits[t], pick, radius, dist)
  }

  /** How many entries the lookups before lookup `t` placed. */
  function PlacedBefore(prioritized: seq<Provider>, hits: seq<Option<GeoHit>>, t: int, pick: Coord, radius: real,
                        dist: (Coord, Coord) -> real): nat
    requires 0 <= t <= |hits| <= |prioritized|
  {
    |Pushed(prioritized, hits[..t], pick, radius, dist)|
  }

  /** The number of lookups that found a place (`geocodeSuccess`). */
  function Successes(hits: seq<Option<GeoHit>>): nat {
    if hits == [] then 0 else Successes(hits[..|hits| - 1]) + (if hits[|hits| - 1].Some? then 1 else 0)
  }

  /** The keys under which the lookups `hits` stored a fresh answer. */
  function Stored(prioritized: seq<Provider>, hits: seq<Option<GeoHit>>): set<string>
    requires |hits| <= |prioritized|
    decreases |hits|
  {
    if hits == [] then {}
    else
      var t := |hits| - 1;
      Stored(prioritized, hits[..t])
        + (if hits[t].Some? && !hits[t].value.cached then {AddressKey(prioritized[t].address)} else {})
  }

  /**
   * Lookup `t` was `geocodeAddress` on the address of `prioritized[t]`, made on the cache
   * contents `caches[t]`, and it left `caches[t + 1]`.
   */
  ghost predicate Trace(prioritized: seq<Provider>, ttl: int, apiKey: string,
                        lookup: string -> Option<Coord>, now: int,
                        hits: seq<Option<GeoHit>>, caches: seq<map<string, Entry<Coord>>>) {
    |hits| <= |prioritized| && |caches| == |hits| + 1
    && forall t :: 0 <= t < |hits| ==>
      GeoOutcome(hits[t], caches[t + 1]) == Geocoded(caches[t], ttl, prioritized[t].address, apiKey, lookup, now)
  }

  /**
   * A run of the geocoding loop from cache `m0` to cache `m1`, with `base` entries in
   * `out` beforehand: the lookups follow the priority order, the last one was made while
   * both stopping tests allowed it (and so was every earlier one, see `GeocodeRunBounds`),
   * and the loop ended at the end of the list or at a failed test.
   */
  ghost predicate GeocodeRun(prioritized: seq<Provider>, base: int, k: int, budget: int,
                             pick: Coord, radius: real, dist: (Coord, Coord) -> real,
                             ttl: int, apiKey: string, lookup: string -> Option<Coord>, now: int,
                             m0: map<string, Entry<Coord>>, hits: seq<Option<GeoHit>>,
                             caches: seq<map<string, Entry<Coord>>>, m1: map<string, Entry<Coord>>) {
    Trace(prioritized, ttl, apiKey, lookup, now, hits, caches)
    && caches[0] == m0 && caches[|hits|] == m1
    && (|hits| > 0 ==>
          MayTry(base + |Pushed(prioritized, hits[..|hits| - 1], pick, radius, dist)|, |hits| - 1, k, budget))
    && (|hits| < |prioritized| ==>
          !MayTry(base + |Pushed(prioritized, hits, pick, radius, dist)|, |hits|, k, budget))
  }

  /** One more lookup adds its own contribution at the end. */
  lemma LookupSnoc(prioritized: seq<Provider>, hits: seq<Option<GeoHit>>, g: Option<GeoHit>,
                   pick: Coord, radius: real, dist: (Coord, Coord) -> real)
    requires |hits| < |prioritized|
    ensures Pushed(prioritized, hits + [g], pick, radius, dist)
      == Pushed(prioritized, hits, pick, radius, dist) + PushOne(prioritized[|hits|], g, pick, radius, dist)
    ensures Successes(hits + [g]) == Successes(hits) + (if g.Some? then 1 else 0)
    ensures Stored(prioritized, hits + [g]) == Stored(prioritized, hits)
      + (if g.Some? && !g.value.cached then {AddressKey(prioritized[|hits|].address)} else {})
  {
    assert (hits + [g])[..|hits|] == hits;
  }

  /** A trace extended by one more lookup, made on the last cache of the trace. */
  lemma TraceSnoc(prioritized: seq<Provider>, ttl: int, apiKey: string,
                  lookup: string -> Option<Coord>, now: int,
                  hits: seq<Option<GeoHit>>, caches: seq<map<string, Entry<Coord>>>,
                  g: Option<GeoHit>, m: map<string, Entry<Coord>>)
    requires Trace(prioritized, ttl, apiKey, lookup, now, hits, caches) && |hits| < |prioritized|
    requires GeoOutcome(g, m) == Geocoded(caches[|hits|], ttl, prioritized[|hits|].address, apiKey, lookup, now)
    ensures Trace(prioritized, ttl, apiKey, lookup, now, hits + [g], caches + [m])
    ensures (caches + [m])[0] == caches[0]
  {
    var hs, cs := hits + [g], caches + [m];
    forall t | 0 <= t < |hs|
      ensures GeoOutcome(hs[t], cs[t + 1]) == Geocoded(cs[t], ttl, prioritized[t].address, apiKey, lookup, now)
    {
      if t < |hits| {
        assert hs[t] == hits[t] && cs[t + 1] == caches[t + 1] && cs[t] == caches[t];
      }
    }
  }

  /**
   * One turn of the geocoding loop past its stopping tests: look up the next prioritised
   * provider; a failed lookup adds nothing; a found one counts as a success and is placed
   * when it lies within the radius.
   */
  method LookupNext(prioritized: seq<Provider>, out0: seq<Near>, pick: Coord, radius: real,
                    dist: (Coord, Coord) -> real, geo: TtlCache<Coord>, apiKey: string,
                    lookup: string -> Option<Coord>, now: int,
                    tried: nat, out: seq<Near>, ok: nat, ghost hits: seq<Option<GeoHit>>,
                    ghost caches: seq<map<string, Entry<Coord>>>)
    returns (out': seq<Near>, ok': nat, ghost hits': seq<Option<GeoHit>>,
             ghost caches': seq<map<string, Entry<Coord>>>)
    requires Trace(prioritized, geo.ttl, apiKey, lookup, now, hits, caches)
    requires tried == |hits| < |prioritized| && caches[|hits|] == geo.entries
    requires ok == Successes(hits) && out == out0 + Pushed(prioritized, hits, pick, radius, dist)
    modifies geo
    ensures Trace(prioritized, geo.ttl, apiKey, lookup, now, hits', caches')
    ensures |hits'| == |hits| + 1 && hits'[..|hits|] == hits && caches'[0] == caches[0]
    ensures caches'[|hits'|] == geo.entries
    ensures ok' == Successes(hits') && out' == out0 + Pushed(prioritized, hits', pick, radius, dist)
  {
    var r := prioritized[tried];
    var g := GeocodeAddress(geo, r.address, apiKey, lookup, now);
    LookupSnoc(prioritized, hits, g, pick, radius, dist);
    TraceSnoc(prioritized, geo.ttl, apiKey, lookup, now, hits, caches, g, geo.entries);
    hits' := hits + [g];
    caches' := caches + [geo.entries];
    assert hits'[..|hits|] == hits;
    out' := out;
    ok' := ok;
    if g.Some? {
      ok' := ok + 1;
      var d := dist(pick, g.value.at);
      if d <= radius {
        var located := r.(lat := Some(g.value.at.lat), lng := Some(g.value.at.lng));
        out' := out + [Near(located, d)];
      }
    }
  }

  /**
   * The geocoding loop: providers are tried in priority order while fewer than `k` are
   * placed and fewer than `budget` lookups were made; a failed lookup still counts as
   * tried; a located provider is placed when it lies within the radius. The ghost `hits`
   * and `caches` are the answers of the lookups and the cache contents between them.
   */
  method GeocodeLoop(prioritized: seq<Provider>, out0: seq<Near>, k: int, budget: int,
                     pick: Coord, radius: real, dist: (Coord, Coord) -> real,
                     geo: TtlCache<Coord>, apiKey: string, lookup: string -> Option<Coord>, now: int)
    returns (out: seq<Near>, tried: nat, ok: nat,
             ghost hits: seq<Option<GeoHit>>, ghost caches: seq<map<string, Entry<Coord>>>)
    modifies geo
    ensures GeocodeRun(prioritized, |out0|, k, budget, pick, radius, dist, geo.ttl, apiKey, lookup, now,
                       old(geo.entries), hits, caches, geo.entries)
    ensures tried == |hits| && ok == Successes(hits)
    ensures out == out0 + Pushed(prioritized, hits, pick, radius, dist)
  {
    out := out0;
    tried := 0;
    ok := 0;
    hits := [];
    caches := [geo.entries];
    while tried < |prioritized|
      invariant Trace(prioritized, geo.ttl, apiKey, lookup, now, hits, caches)
      invariant tried == |hits| && caches[0] == old(geo.entries) && caches[tried] == geo.entries
      invariant tried > 0 ==>
        MayTry(|out0| + |Pushed(prioritized, hits[..tried - 1], pick, radius, dist)|, tried - 1, k, budget)
      invariant ok == Successes(hits)
      invariant out == out0 + Pushed(prioritized, hits, pick, radius, dist)
    {
      if |out| >= k {
        break;
      }
      if tried >= budget {
        break;
      }
      ghost var before := hits;
      out, ok, hits, caches := LookupNext(prioritized, out0, pick, radius, dist, geo, apiKey, lookup, now,
                                          tried, out, ok, hits, caches);
      tried := tried + 1;
    }
  }

  /** At most one entry per successful lookup. */
  lemma {:induction false} PushedCount(prioritized: seq<Provider>, hits: seq<Option<GeoHit>>,
                                       pick: Coord, radius: real, dist: (Coord, Coord) -> real)
    requires |hits| <= |prioritized|
    ensures |Pushed(prioritized, hits, pick, radius, dist)| <= Successes(hits) <= |hits|
  {
    if hits != [] {
      PushedCount(prioritized, hits[..|hits| - 1], pick, radius, dist);
    }
  }

  /** Each entry the lookups add is placed within the radius and made from a prioritised row. */
  lemma {:induction false} PushedSound(prioritized: seq<Provider>, hits: seq<Option<GeoHit>>,
                                       pick: Coord, radius: real, dist: (Coord, Coord) -> real)
    requires |hits| <= |prioritized|
    ensures forall n :: n in Pushed(prioritized, hits, pick, radius, dist) ==>
      Placed(n, pick, radius, dist) && exists t :: 0 <= t < |hits| && SameBut(n.p, prioritized[t])
  {
    if hits != [] {
      var t := |hits| - 1;
      PushedSound(prioritized, hits[..t], pick, radius, dist);
      var last := PushOne(prioritized[t], hits[t], pick, radius, dist);
      forall n | n in last
        ensures Placed(n, pick, radius, dist) && SameBut(n.p, prioritized[t])
      {
        assert Located(n.p) == hits[t].value.at;
      }
    }
  }

  /** Every lookup that found a place within the radius adds its placement. */
  lemma {:induction false} PushedComplete(prioritized: seq<Provider>, hits: seq<Option<GeoHit>>,
                                          pick: Coord, radius: real, dist: (Coord, Coord) -> real)
    requires |hits| <= |prioritized|
    ensures forall t :: 0 <= t < |hits| && hits[t].Some? && dist(pick, hits[t].value.at) <= radius ==>
      Placement(prioritized[t], hits[t].value.at, pick, dist) in Pushed(prioritized, hits, pick, radius, dist)
  {
    if hits != [] {
      var t := |hits| - 1;
      var init := hits[..t];
      PushedComplete(prioritized, init, pick, radius, dist);
      forall s | 0 <= s < t && hits[s].Some? && dist(pick, hits[s].value.at) <= radius
        ensures Placement(prioritized[s], hits[s].value.at, pick, dist) in Pushed(prioritized, hits, pick, radius, dist)
      {
        assert init[s] == hits[s];
      }
    }
  }

  /**
   * What the lookups add: at most one entry per successful lookup, each placed within the
   * radius and made from a prioritised row; every lookup that found a place within the
   * radius is among them.
   */
  lemma PushedSpec(prioritized: seq<Provider>, hits: seq<Option<GeoHit>>,
                   pick: Coord, radius: real, dist: (Coord, Coord) -> real)
    requires |hits| <= |prioritized|
    ensures |Pushed(prioritized, hits, pick, radius, dist)| <= Successes(hits) <= |hits|
    ensures forall n :: n in Pushed(prioritized, hits, pick, radius, dist) ==>
      Placed(n, pick, radius, dist) && exists t :: 0 <= t < |hits| && SameBut(n.p, prioritized[t])
    ensures forall t :: 0 <= t < |hits| && hits[t].Some? && dist(pick, hits[t].value.at) <= radius ==>
      Placement(prioritized[t], hits[t].value.at, pick, dist) in Pushed(prioritized, hits, pick, radius, dist)
  {
    PushedCount(prioritized, hits, pick, radius, dist);
    PushedSound(prioritized, hits, pick, radius, dist);
    PushedComplete(prioritized, hits, pick, radius, dist);
  }

  /** A run's additions only grow with its lookups. */
  lemma {:induction false} PushedPrefix(prioritized: seq<Provider>, hits: seq<Option<GeoHit>>, t: nat,
                                        pick: Coord, radius: real, dist: (Coord, Coord) -> real)
    requires t <= |hits| <= |prioritized|
    ensures |Pushed(prioritized, hits[..t], pick, radius, dist)| <= |Pushed(prioritized, hits, pick, radius, dist)|
  {
    if t < |hits| {
      var n := |hits| - 1;
      assert hits[..n][..t] == hits[..t];
      PushedPrefix(prioritized, hits[..n], t, pick, radius, dist);
    } else {
      assert hits[..t] == hits;
    }
  }

  /**
   * The loop's bounds: no more lookups than providers or than the budget, every lookup
   * made while both stopping tests allowed it, none once `out` held `k` entries, and
   * `out` grows past `k` by at most the entry of the last lookup.
   */
  lemma GeocodeRunBounds(prioritized: seq<Provider>, base: int, k: int, budget: int,
                         pick: Coord, radius: real, dist: (Coord, Coord) -> real,
                         ttl: int, apiKey: string, lookup: string -> Option<Coord>, now: int,
                         m0: map<string, Entry<Coord>>, hits: seq<Option<GeoHit>>,
                         caches: seq<map<string, Entry<Coord>>>, m1: map<string, Entry<Coord>>)
    requires GeocodeRun(prioritized, base, k, budget, pick, radius, dist, ttl, apiKey, lookup, now,
                        m0, hits, caches, m1)
    ensures |hits| <= |prioritized| && (|hits| == 0 || |hits| <= budget)
    ensures forall t :: 0 <= t < |hits| ==>
      MayTry(base + PlacedBefore(prioritized, hits, t, pick, radius, dist), t, k, budget)
    ensures !MayTry(base, 0, k, budget) ==> hits == []
    ensures |hits| > 0 ==> base + |Pushed(prioritized, hits, pick, radius, dist)| <= k
  {
    LoopBounds(prioritized, base, k, budget, pick, radius, dist, hits);
  }

  /** `GeocodeRunBounds` from the two stopping facts alone. */
  lemma LoopBounds(prioritized: seq<Provider>, base: int, k: int, budget: int,
                   pick: Coord, radius: real, dist: (Coord, Coord) -> real, hits: seq<Option<GeoHit>>)
    requires |hits| <= |prioritized|
    requires |hits| > 0 ==>
      MayTry(base + |Pushed(prioritized, hits[..|hits| - 1], pick, radius, dist)|, |hits| - 1, k, budget)
    requires |hits| < |prioritized| ==> !MayTry(base + |Pushed(prioritized, hits, pick, radius, dist)|, |hits|, k, budget)
    ensures |hits| == 0 || |hits| <= budget
    ensures forall t :: 0 <= t < |hits| ==>
      MayTry(base + PlacedBefore(prioritized, hits, t, pick, radius, dist), t, k, budget)
    ensures !MayTry(base, 0, k, budget) ==> hits == []
    ensures |hits| > 0 ==> base + |Pushed(prioritized, hits, pick, radius, dist)| <= k
  {
    if |hits| > 0 {
      LastLookupBound(prioritized, base, k, budget, pick, radius, dist, hits);
      MayTryEarlier(prioritized, base, k, budget, pick, radius, dist, hits);
    }
  }

  /** A lookup made with fewer than `k` entries adds at most one, so `out` ends with at most `k`. */
  lemma LastLookupBound(prioritized: seq<Provider>, base: int, k: int, budget: int,
                        pick: Coord, radius: real, dist: (Coord, Coord) -> real, hits: seq<Option<GeoHit>>)
    requires 0 < |hits| <= |prioritized|
    requires MayTry(base + |Pushed(prioritized, hits[..|hits| - 1], pick, radius, dist)|, |hits| - 1, k, budget)
    ensures |hits| <= budget
    ensures base + |Pushed(prioritized, hits, pick, radius, dist)| <= k
  {
    var n := |hits| - 1;
    assert Pushed(prioritized, hits, pick, radius, dist)
      == Pushed(prioritized, hits[..n], pick, radius, dist) + PushOne(prioritized[n], hits[n], pick, radius, dist);
  }

  /** The last lookup was allowed, so every earlier one was. */
  lemma MayTryEarlier(prioritized: seq<Provider>, base: int, k: int, budget: int,
                      pick: Coord, radius: real, dist: (Coord, Coord) -> real, hits: seq<Option<GeoHit>>)
    requires 0 < |hits| <= |prioritized|
    requires MayTry(base + |Pushed(prioritized, hits[..|hits| - 1], pick, radius, dist)|, |hits| - 1, k, budget)
    ensures forall t :: 0 <= t < |hits| ==>
      MayTry(base + PlacedBefore(prioritized, hits, t, pick, radius, dist), t, k, budget)
  {
    var init := hits[..|hits| - 1];
    forall t | 0 <= t < |hits|
      ensures MayTry(base + PlacedBefore(prioritized, hits, t, pick, radius, dist), t, k, budget)
    {
      PushedPrefix(prioritized, init, t, pick, radius, dist);
      assert init[..t] == hits[..t];
    }
  }

  /**
   * The geocode cache after the lookups: every key a lookup stored holds an entry made
   * now, and every other key is as it was.
   */
  lemma {:induction false} TraceCache(prioritized: seq<Provider>, ttl: int, apiKey: string,
                                      lookup: string -> Option<Coord>, now: int,
                                      hits: seq<Option<GeoHit>>, caches: seq<map<string, Entry<Coord>>>)
    requires Trace(prioritized, ttl, apiKey, lookup, now, hits, caches)
    ensures forall key :: key in Stored(prioritized, hits) ==> key in caches[|hits|] && caches[|hits|][key].at == now
    ensures forall key :: key !in Stored(prioritized, hits) ==>
      (key in caches[|hits|] <==> key in caches[0])
      && (key in caches[0] ==> caches[|hits|][key] == caches[0][key])
  {
    if hits != [] {
      var t := |hits| - 1;
      assert Trace(prioritized, ttl, apiKey, lookup, now, hits[..t], caches[..t + 1]) by {
        forall s | 0 <= s < t
          ensures GeoOutcome(hits[..t][s], caches[..t + 1][s + 1])
            == Geocoded(caches[..t + 1][s], ttl, prioritized[s].address, apiKey, lookup, now)
        {
          assert GeoOutcome(hits[s], caches[s + 1]) == Geocoded(caches[s], ttl, prioritized[s].address, apiKey, lookup, now);
        }
      }
      TraceCache(prioritized, ttl, apiKey, lookup, now, hits[..t], caches[..t + 1]);
      GeocodedSource(caches[t], ttl, prioritized[t].address, apiKey, lookup, now);
      assert GeoOutcome(hits[t], caches[t + 1]) == Geocoded(caches[t], ttl, prioritized[t].address, apiKey, lookup, now);
    }
  }

  // ---------------------------------------------------------------------------------
  // The final `out.sort((a, b) => a.distKm - b.distKm)`: a stable sort by distance.
  // ---------------------------------------------------------------------------------

  /** Non-decreasing in distance. */
  predicate ByDistance(xs: seq<Near>) {
    forall i, j :: 0 <= i < j < |xs| ==> xs[i].distKm <= xs[j].distKm
  }

  /** Places `x` after every entry that is no farther than it. */
  function Insert(s: seq<Near>, x: Near): seq<Near> {
    if s == [] || s[|s| - 1].distKm <= x.distKm then s + [x]
    else Insert(s[..|s| - 1], x) + [s[|s| - 1]]
  }

  /** The stable sort by distance. */
  function SortByDistance(xs: seq<Near>): seq<Near> {
    if xs == [] then [] else Insert(SortByDistance(xs[..|xs| - 1]), xs[|xs| - 1])
  }

  /** Inserting adds exactly `x`. */
  lemma {:induction false} InsertMultiset(s: seq<Near>, x: Near)
    ensures multiset(Insert(s, x)) == multiset(s) + multiset{x}
  {
    if s != [] && s[|s| - 1].distKm > x.distKm {
      var n := |s| - 1;
      var init, last := s[..n], s[n];
      InsertMultiset(init, x);
      assert s == init + [last];
      assert multiset(Insert(init, x) + [last]) == multiset(Insert(init, x)) + multiset{last};
    } else {
      assert multiset(s + [x]) == multiset(s) + multiset{x};
    }
  }

  /** Inserting into a list sorted by distance keeps it sorted. */
  lemma {:induction false} InsertSorted(s: seq<Near>, x: Near)
    requires ByDistance(s)
    ensures ByDistance(Insert(s, x))
  {
    if s != [] && s[|s| - 1].distKm > x.distKm {
      var n := |s| - 1;
      var init, last := s[..n], s[n];
      InsertSorted(init, x);
      InsertMultiset(init, x);
      var t := Insert(init, x);
      forall y | y in t
        ensures y.distKm <= last.distKm
      {
        assert y in multiset(t);
        if y != x {
          var i :| 0 <= i < n && init[i] == y;
          assert s[i] == y;
        }
      }
      forall i, j | 0 <= i < j < |t| + 1
        ensures (t + [last])[i].distKm <= (t + [last])[j].distKm
      {
        if j == |t| {
          assert (t + [last])[i] == t[i];
          assert t[i] in t;
        } else {
          assert (t + [last])[i] == t[i] && (t + [last])[j] == t[j];
        }
      }
    }
  }

  lemma InsertSpec(s: seq<Near>, x: Near)
    requires ByDistance(s)
    ensures ByDistance(Insert(s, x))
    ensures multiset(Insert(s, x)) == multiset(s) + multiset{x}
    ensures |Insert(s, x)| == |s| + 1
  {
    InsertSorted(s, x);
    InsertMultiset(s, x);
    assert |multiset(Insert(s, x))| == |multiset(s)| + 1;
  }

  /** The sorted list is non-decreasing in distance and a permutation of its input. */
  lemma {:induction false} SortByDistanceSpec(xs: seq<Near>)
    ensures ByDistance(SortByDistance(xs))
    ensures multiset(SortByDistance(xs)) == multiset(xs)
    ensures |SortByDistance(xs)| == |xs|
  {
    if xs != [] {
      var n := |xs| - 1;
      SortByDistanceSpec(xs[..n]);
      InsertSpec(SortByDistance(xs[..n]), xs[n]);
      assert xs == xs[..n] + [xs[n]];
    }
  }

  /** The test "at distance `d`". */
  function AtDistance(d: real): Near -> bool {
    (n: Near) => n.distKm == d
  }

  lemma {:induction false} InsertStable(s: seq<Near>, x: Near, d: real)
    ensures Filter(Insert(s, x), AtDistance(d)) == Filter(s, AtDistance(d)) + Filter([x], AtDistance(d))
  {
    var f := AtDistance(d);
    if s != [] && s[|s| - 1].distKm > x.distKm {
      var n := |s| - 1;
      var init, last := s[..n], s[n];
      var ins := Insert(init, x);
      assert Insert(s, x) == ins + [last];
      assert s == init + [last];
      InsertStable(init, x, d);
      FilterConcat(ins, [last], f);
      FilterConcat(init, [last], f);
      FilterOne(last, f);
      FilterOne(x, f);
      SwapEmpty(Filter(init, f), Filter([x], f), Filter([last], f));
    } else {
      FilterConcat(s, [x], f);
    }
  }

  /** Two parts of which one is empty can be swapped. */
  lemma SwapEmpty<T>(a: seq<T>, b: seq<T>, c: seq<T>)
    requires b == [] || c == []
    ensures a + b + c == a + c + b
  {
  }

  /** Stability: entries at equal distance keep their input order. */
  lemma {:induction false} SortByDistanceStable(xs: seq<Near>, d: real)
    ensures Filter(SortByDistance(xs), AtDistance(d)) == Filter(xs, AtDistance(d))
  {
    if xs != [] {
      var n := |xs| - 1;
      var init, last := xs[..n], xs[n];
      var sorted := SortByDistance(init);
      assert SortByDistance(xs) == Insert(sorted, last);
      assert xs == init + [last];
      SortByDistanceStable(init, d);
      InsertStable(sorted, last, d);
      FilterConcat(init, [last], AtDistance(d));
    }
  }

  /** `slice(0, k)`. */
  function Take<T>(xs: seq<T>, k: int): (r: seq<T>)
    ensures |r| <= |xs| && (k >= 0 ==> |r| <= k) && r == xs[..|r|]
    ensures k >= |xs| ==> r == xs
  {
    if k <= 0 then [] else if k >= |xs| then xs else xs[..k]
  }

  /** The providers without coordinates, in the order they are geocoded. */
  function Prioritized(dedup: seq<Provider>, area: AdminArea): seq<Provider> {
    Prioritize(Filter(dedup, LacksCoords), area)
  }

  /** The providers with coordinates that lie within the radius, in input order, with their distances. */
  function InRadius(dedup: seq<Provider>, pick: Coord, radius: real, dist: (Coord, Coord) -> real): seq<Near> {
    Collect(Filter(dedup, HasCoords), WithinRadius(pick, radius, dist))
  }

  /** The last step: sorted by distance, the nearest `k` kept. */
  function Nearest(cands: seq<Near>, k: int): seq<Near> {
    Take(SortByDistance(cands), k)
  }

  /** A prefix of a list holds part of its elements, in the same order. */
  lemma PrefixFacts(xs: seq<Near>, n: nat)
    requires n <= |xs|
    ensures multiset(xs[..n]) <= multiset(xs)
    ensures ByDistance(xs) ==> ByDistance(xs[..n])
  {
    assert xs == xs[..n] + xs[n..];
    assert multiset(xs) == multiset(xs[..n]) + multiset(xs[n..]);
  }

  /**
   * Keeping the nearest `k`: the result is sorted by distance, holds `k` candidates or all
   * of them when there are fewer, and draws only on the candidates, all of them when
   * there are no more than `k`.
   */
  lemma NearestSpec(cands: seq<Near>, k: int)
    ensures ByDistance(Nearest(cands, k))
    ensures k >= 0 ==> |Nearest(cands, k)| == if k < |cands| then k else |cands|
    ensures multiset(Nearest(cands, k)) <= multiset(cands)
    ensures k >= |cands| ==> multiset(Nearest(cands, k)) == multiset(cands)
  {
    var sorted := SortByDistance(cands);
    SortByDistanceSpec(cands);
    var r := Take(sorted, k);
    PrefixFacts(sorted, |r|);
  }

  /** Every candidate left out is at least as far as every one kept. */
  lemma NearestFarthest(cands: seq<Near>, k: int)
    ensures forall c, n :: c in cands && c !in Nearest(cands, k) && n in Nearest(cands, k) ==> n.distKm <= c.distKm
  {
    var sorted := SortByDistance(cands);
    SortByDistanceSpec(cands);
    var r := Take(sorted, k);
    forall c, n | c in cands && c !in r && n in r
      ensures n.distKm <= c.distKm
    {
      assert c in multiset(sorted);
      var j :| 0 <= j < |sorted| && sorted[j] == c;
      var i :| 0 <= i < |r| && r[i] == n;
      assert sorted[i] == n;
    }
  }

  /** The counters `nearestProviders` writes onto `debug`. */
  datatype Diagnostics = Diagnostics(
    deduped: nat, withCoords: nat, needsGeocoding: nat, pickupAdmin: AdminArea,
    geocodeTried: nat, geocodeSuccess: nat)

  /**
   * A run of `nearestProviders` over `rows`: the pickup area is reverse-geocoded through the
   * cache `rev0`, leaving `rev1`; the providers without coordinates are geocoded in
   * priority order through the cache `geo0`, leaving `geo1`; and the result is the nearest
   * `k` of the located providers within the radius followed by the geocoded ones.
   */
  ghost predicate NearestRun(rows: seq<Provider>, pick: Coord, radius: real, k: int, budget: int,
                             apiKey: string, dist: (Coord, Coord) -> real, lookup: string -> Option<Coord>,
                             coordKey: Coord -> string, reverse: Coord -> Option<seq<Component>>, now: int,
                             geoTtl: int, geo0: map<string, Entry<Coord>>, hits: seq<Option<GeoHit>>,
                             caches: seq<map<string, Entry<Coord>>>, geo1: map<string, Entry<Coord>>,
                             revTtl: int, rev0: map<string, Entry<AdminArea>>, rev1: map<string, Entry<AdminArea>>,
                             result: seq<Near>) {
    var dedup := Deduped(rows);
    var area := ReverseGeocoded(rev0, revTtl, pick, apiKey, coordKey, reverse, now);
    var located := InRadius(dedup, pick, radius, dist);
    var prioritized := Prioritized(dedup, area.area);
    rev1 == area.entries
    && GeocodeRun(prioritized, |located|, k, budget, pick, radius, dist, geoTtl, apiKey, lookup, now,
                  geo0, hits, caches, geo1)
    && result == Nearest(located + Pushed(prioritized, hits, pick, radius, dist), k)
  }

  /** Some deduplicated provider is `p`, up to its coordinates. */
  ghost predicate FromRows(p: Provider, dedup: seq<Provider>) {
    exists j :: 0 <= j < |dedup| && SameBut(p, dedup[j])
  }

  /** The two halves of the partition split the deduplicated rows between them. */
  lemma PartitionFacts(dedup: seq<Provider>)
    ensures |dedup| == |Filter(dedup, HasCoords)| + |Filter(dedup, LacksCoords)|
    ensures forall r :: r in Filter(dedup, HasCoords) ==> r in dedup && HasCoords(r)
    ensures forall r :: r in Filter(dedup, LacksCoords) ==> r in dedup
  {
    PartitionSpec(dedup);
    assert |multiset(dedup)| == |multiset(Filter(dedup, HasCoords))| + |multiset(Filter(dedup, LacksCoords))|;
  }

  /** Prioritising neither adds nor drops a provider. */
  lemma PrioritizeFacts(withoutCoords: seq<Provider>, admin: AdminArea)
    ensures multiset(Prioritize(withoutCoords, admin)) == multiset(withoutCoords)
    ensures |Prioritize(withoutCoords, admin)| == |withoutCoords|
  {
    PrioritizeSpec(withoutCoords, admin);
    assert |multiset(Prioritize(withoutCoords, admin))| == |multiset(withoutCoords)|;
  }

  /** Every provider of the radius stage is placed and is a deduplicated row. */
  lemma LocatedFromRows(dedup: seq<Provider>, pick: Coord, radius: real, dist: (Coord, Coord) -> real)
    ensures forall n :: n in InRadius(dedup, pick, radius, dist) ==>
      Placed(n, pick, radius, dist) && FromRows(n.p, dedup)
  {
    PartitionFacts(dedup);
    WithinRadiusSpec(Filter(dedup, HasCoords), pick, radius, dist);
    forall n | n in InRadius(dedup, pick, radius, dist)
      ensures FromRows(n.p, dedup)
    {
      var j :| 0 <= j < |dedup| && dedup[j] == n.p;
    }
  }

  /** The prioritised providers are deduplicated rows. */
  lemma PrioritizedFromRows(dedup: seq<Provider>, area: AdminArea)
    ensures forall r :: r in Prioritized(dedup, area) ==> r in dedup
  {
    PartitionFacts(dedup);
    PrioritizeFacts(Filter(dedup, LacksCoords), area);
    forall r | r in Prioritized(dedup, area)
      ensures r in dedup
    {
      assert r in multiset(Prioritized(dedup, area));
    }
  }

  /** Every provider the geocoding stage adds is placed and is a deduplicated row with new coordinates. */
  lemma PushedFromRows(dedup: seq<Provider>, area: AdminArea, hits: seq<Option<GeoHit>>,
                       pick: Coord, radius: real, dist: (Coord, Coord) -> real)
    requires |hits| <= |Prioritized(dedup, area)|
    ensures forall n :: n in Pushed(Prioritized(dedup, area), hits, pick, radius, dist) ==>
      Placed(n, pick, radius, dist) && FromRows(n.p, dedup)
  {
    var prioritized := Prioritized(dedup, area);
    PrioritizedFromRows(dedup, area);
    PushedSound(prioritized, hits, pick, radius, dist);
    forall n | n in Pushed(prioritized, hits, pick, radius, dist)
      ensures FromRows(n.p, dedup)
    {
      var t :| 0 <= t < |hits| && SameBut(n.p, prioritized[t]);
      assert prioritized[t] in prioritized;
      var j :| 0 <= j < |dedup| && dedup[j] == prioritized[t];
    }
  }

  /** Every candidate of either stage is within the radius and comes from a deduplicated row. */
  lemma CandidatesFromRows(dedup: seq<Provider>, area: AdminArea, hits: seq<Option<GeoHit>>,
                           pick: Coord, radius: real, dist: (Coord, Coord) -> real)
    requires |hits| <= |Prioritized(dedup, area)|
    ensures forall n :: n in InRadius(dedup, pick, radius, dist) + Pushed(Prioritized(dedup, area), hits, pick, radius, dist) ==>
      Placed(n, pick, radius, dist) && FromRows(n.p, dedup)
  {
    LocatedFromRows(dedup, pick, radius, dist);
    PushedFromRows(dedup, area, hits, pick, radius, dist);
  }

  /**
   * The result of `nearestProviders` is sorted by distance, holds at most `k` providers,
   * every one within the radius at its own coordinates and every one a deduplicated input
   * row (with coordinates filled in when it was geocoded); the lookups stay within the
   * budget and never exceed the providers that needed geocoding.
   */
  lemma NearestRunShape(rows: seq<Provider>, pick: Coord, radius: real, k: int, budget: int,
                        apiKey: string, dist: (Coord, Coord) -> real, lookup: string -> Option<Coord>,
                        coordKey: Coord -> string, reverse: Coord -> Option<seq<Component>>, now: int,
                        geoTtl: int, geo0: map<string, Entry<Coord>>, hits: seq<Option<GeoHit>>,
                        caches: seq<map<string, Entry<Coord>>>, geo1: map<string, Entry<Coord>>,
                        revTtl: int, rev0: map<string, Entry<AdminArea>>, rev1: map<string, Entry<AdminArea>>,
                        result: seq<Near>)
    requires NearestRun(rows, pick, radius, k, budget, apiKey, dist, lookup, coordKey, reverse, now,
                        geoTtl, geo0, hits, caches, geo1, revTtl, rev0, rev1, result)
    ensures ByDistance(result)
    ensures k >= 0 ==> |result| <= k
    ensures forall n :: n in result ==> Placed(n, pick, radius, dist) && FromRows(n.p, Deduped(rows))
    ensures |hits| <= |Filter(Deduped(rows), LacksCoords)| && (|hits| == 0 || |hits| <= budget)
  {
    var dedup := Deduped(rows);
    var area := ReverseGeocoded(rev0, revTtl, pick, apiKey, coordKey, reverse, now).area;
    var prioritized := Prioritized(dedup, area);
    var cands := InRadius(dedup, pick, radius, dist) + Pushed(prioritized, hits, pick, radius, dist);
    GeocodeRunBounds(prioritized, |InRadius(dedup, pick, radius, dist)|, k, budget, pick, radius, dist,
                     geoTtl, apiKey, lookup, now, geo0, hits, caches, geo1);
    PrioritizeFacts(Filter(dedup, LacksCoords), area);
    CandidatesFromRows(dedup, area, hits, pick, radius, dist);
    NearestSpec(cands, k);
    forall n | n in result
      ensures Placed(n, pick, radius, dist) && FromRows(n.p, dedup)
    {
      assert n in multiset(cands);
    }
  }

  /**
   * When fewer than `k` providers come back, none was left out: every deduplicated
   * provider with coordinates within the radius is in the result, and so is every
   * provider whose lookup found a place within the radius.
   */
  lemma NearestRunComplete(rows: seq<Provider>, pick: Coord, radius: real, k: int, budget: int,
                           apiKey: string, dist: (Coord, Coord) -> real, lookup: string -> Option<Coord>,
                           coordKey: Coord -> string, reverse: Coord -> Option<seq<Component>>, now: int,
                           geoTtl: int, geo0: map<string, Entry<Coord>>, hits: seq<Option<GeoHit>>,
                           caches: seq<map<string, Entry<Coord>>>, geo1: map<string, Entry<Coord>>,
                           revTtl: int, rev0: map<string, Entry<AdminArea>>, rev1: map<string, Entry<AdminArea>>,
                           result: seq<Near>)
    requires NearestRun(rows, pick, radius, k, budget, apiKey, dist, lookup, coordKey, reverse, now,
                        geoTtl, geo0, hits, caches, geo1, revTtl, rev0, rev1, result)
    requires |result| < k
    ensures forall r :: r in Deduped(rows) && HasCoords(r) && dist(pick, Located(r)) <= radius ==>
      Near(r, dist(pick, Located(r))) in result
    ensures var area := ReverseGeocoded(rev0, revTtl, pick, apiKey, coordKey, reverse, now).area;
      forall t :: 0 <= t < |hits| && hits[t].Some? && dist(pick, hits[t].value.at) <= radius ==>
        Placement(Prioritized(Deduped(rows), area)[t], hits[t].value.at, pick, dist) in result
  {
    var dedup := Deduped(rows);
    var area := ReverseGeocoded(rev0, revTtl, pick, apiKey, coordKey, reverse, now).area;
    var prioritized := Prioritized(dedup, area);
    var located := InRadius(dedup, pick, radius, dist);
    var pushed := Pushed(prioritized, hits, pick, radius, dist);
    NearestSpec(located + pushed, k);
    PartitionFacts(dedup);
    PartitionSpec(dedup);
    WithinRadiusSpec(Filter(dedup, HasCoords), pick, radius, dist);
    PushedSpec(prioritized, hits, pick, radius, dist);
    forall n | n in located + pushed
      ensures n in result
    {
      assert n in multiset(located + pushed);
    }
  }

  /**
   * `nearestProviders`: the result and both caches are those of a run of the steps above
   * on the deduplicated rows, and `debug` counts its stages.
   */
  method NearestProviders(rows: seq<Provider>, pick: Coord, radius: real, k: int, budget: int,
                          apiKey: string, dist: (Coord, Coord) -> real,
                          geo: TtlCache<Coord>, lookup: string -> Option<Coord>,
                          rev: TtlCache<AdminArea>, coordKey: Coord -> string,
                          reverse: Coord -> Option<seq<Component>>, now: int)
    returns (result: seq<Near>, diag: Diagnostics,
             ghost hits: seq<Option<GeoHit>>, ghost caches: seq<map<string, Entry<Coord>>>)
    modifies geo, rev
    ensures NearestRun(rows, pick, radius, k, budget, apiKey, dist, lookup, coordKey, reverse, now,
                       geo.ttl, old(geo.entries), hits, caches, geo.entries,
                       rev.ttl, old(rev.entries), rev.entries, result)
    ensures diag == Diagnostics(|Deduped(rows)|, |Filter(Deduped(rows), HasCoords)|,
                                |Filter(Deduped(rows), LacksCoords)|,
                                ReverseGeocoded(old(rev.entries), rev.ttl, pick, apiKey, coordKey, reverse, now).area,
                                |hits|, Successes(hits))
  {
    var dedup := DedupRows(rows);
    var withCoords, withoutCoords := Partition(dedup);
    PartitionFacts(dedup);
    var admin := ReverseGeocodeAdminArea(rev, pick, apiKey, coordKey, reverse, now);
    var out0 := NearWithCoords(withCoords, pick, radius, dist);
    var prioritized := Prioritize(withoutCoords, admin);
    var out, tried, ok;
    out, tried, ok, hits, caches := GeocodeLoop(prioritized, out0, k, budget, pick, radius, dist,
                                                geo, apiKey, lookup, now);
    result := Take(SortByDistance(out), k);
    diag := Diagnostics(|dedup|, |withCoords|, |withoutCoords|, admin, tried, ok);
  }
}

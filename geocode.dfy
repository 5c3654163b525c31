/**
 * `geocodeAddress` and `reverseGeocodeAdminArea` (functions/_lib/state.js, lines
 * 103-146; nearby.js carries identical copies over its own maps). The HTTP round trip
 * and JSON decoding are oracles: `lookup` gives the first result's location when the
 * reply is OK and both numbers are finite, `reverse` gives the first result's address
 * components when the reply is OK; None stands for every failure the source swallows.
 */
module Geocode {
  import opened Wrappers
  import opened Text
  import opened Cache
  import opened Fields

  /** A finite latitude/longitude pair. */
  datatype Coord = Coord(lat: real, lng: real)

  /** A geocoding answer and whether it came from the cache (`_cached`). */
  datatype GeoHit = GeoHit(at: Coord, cached: bool)

  /** The city and two-letter state of a place; "" where unknown. */
  datatype AdminArea = AdminArea(city: string, state: string)

  /** One entry of a reverse-geocoding reply's `address_components`. */
  datatype Component = Component(types: seq<string>, longName: string, shortName: string)

  /** The geocode cache key: the address trimmed and lower-cased. */
  function AddressKey(address: string): string {
    Lower(Trim(address))
  }

  /** Addresses that differ only in letter case or surrounding white space share a cache entry. */
  lemma AddressKeyCanonical(address: string)
    ensures AddressKey(Upper(address)) == AddressKey(address)
    ensures AddressKey(Trim(address)) == AddressKey(address)
    ensures AddressKey(address) == [] <==> Trim(address) == []
  {
    TrimCase(address);
    CaseRoundTrip(Trim(address));
    TrimIdempotent(address);
  }

  /** What `geocodeAddress` answers, and the geocode cache it leaves behind. */
  datatype GeoOutcome = GeoOutcome(hit: Option<GeoHit>, entries: map<string, Entry<Coord>>)

  /**
   * `geocodeAddress` on cache contents `m`: a blank address gives None without touching
   * the cache; a fresh entry is returned as cached; without an API key, or when the lookup
   * fails, the answer is None and the cache is unchanged; only a successful lookup is stored.
   */
  function Geocoded(m: map<string, Entry<Coord>>, ttl: int, address: string, apiKey: string,
                    lookup: string -> Option<Coord>, now: int): GeoOutcome
  {
    var k := AddressKey(address);
    if k == [] then GeoOutcome(None, m)
    else if IsFresh(m, k, now, ttl) then GeoOutcome(Some(GeoHit(m[k].value, true)), m)
    else if apiKey == [] || lookup(address).None? then GeoOutcome(None, m)
    else GeoOutcome(Some(GeoHit(lookup(address).value, false)), m[k := Entry(now, lookup(address).value)])
  }

  /**
   * The cache changes only by storing a fresh lookup's answer, under the address key, and
   * an answer comes either from a fresh cache entry or from the lookup itself.
   */
  lemma GeocodedSource(m: map<string, Entry<Coord>>, ttl: int, address: string, apiKey: string,
                       lookup: string -> Option<Coord>, now: int)
    ensures var o := Geocoded(m, ttl, address, apiKey, lookup, now);
      o.entries == m
      || (o.hit.Some? && !o.hit.value.cached && o.entries == m[AddressKey(address) := Entry(now, o.hit.value.at)])
    ensures var o := Geocoded(m, ttl, address, apiKey, lookup, now);
      o.hit.Some? && o.hit.value.cached ==>
        IsFresh(m, AddressKey(address), now, ttl) && o.hit.value.at == m[AddressKey(address)].value
    ensures var o := Geocoded(m, ttl, address, apiKey, lookup, now);
      o.hit.Some? && !o.hit.value.cached ==> apiKey != [] && lookup(address) == Some(o.hit.value.at)
  {
  }

  /**
   * Within the time to live, asking again for the same address, or for one that differs
   * only in letter case or surrounding white space, is answered from the cache with the
   * same place, whatever the lookup would now say, and leaves the cache as it was.
   */
  lemma GeocodedAgain(m: map<string, Entry<Coord>>, ttl: int, address: string, again: string,
                      apiKey: string, lookup: string -> Option<Coord>, lookup2: string -> Option<Coord>,
                      now: int, later: int)
    requires AddressKey(again) == AddressKey(address)
    requires now <= later < now + ttl
    ensures var o := Geocoded(m, ttl, address, apiKey, lookup, now);
      o.hit.Some? && !o.hit.value.cached ==>
        Geocoded(o.entries, ttl, again, apiKey, lookup2, later) == GeoOutcome(Some(GeoHit(o.hit.value.at, true)), o.entries)
  {
  }

  /** `geocodeAddress`, over the geocode cache. */
  method GeocodeAddress(cache: TtlCache<Coord>, address: string, apiKey: string,
                        lookup: string -> Option<Coord>, now: int)
    returns (r: Option<GeoHit>)
    modifies cache
    ensures GeoOutcome(r, cache.entries) == Geocoded(old(cache.entries), cache.ttl, address, apiKey, lookup, now)
  {
    var k := AddressKey(address);
    if k == [] {
      return None;
    }
    var c := cache.Lookup(k, now);
    if c.Some? {
      return Some(GeoHit(c.value, true));
    }
    if apiKey == [] {
      return None;
    }
    var loc := lookup(address);
    if loc.None? {
      return None;
    }
    cache.Store(k, loc.value, now);
    r := Some(GeoHit(loc.value, false));
  }

  /** `comp.short_name || comp.long_name`. */
  function ShortOrLong(c: Component): string {
    if c.shortName != [] then c.shortName else c.longName
  }

  function LongName(c: Component): string {
    c.longName
  }

  /** The name of the last component that has type `ty`, or "" when none has. */
  function LastOf(comps: seq<Component>, ty: string, name: Component -> string): string
    decreases |comps|
  {
    if comps == [] then ""
    else if ty in comps[|comps| - 1].types then name(comps[|comps| - 1])
    else LastOf(comps[..|comps| - 1], ty, name)
  }

  /** The last component of type `ty` decides; "" when there is none. */
  lemma {:induction false} LastOfSpec(comps: seq<Component>, ty: string, name: Component -> string, i: int)
    requires 0 <= i < |comps| && ty in comps[i].types
    requires forall j :: i < j < |comps| ==> ty !in comps[j].types
    ensures LastOf(comps, ty, name) == name(comps[i])
  {
    if i < |comps| - 1 {
      LastOfSpec(comps[..|comps| - 1], ty, name, i);
    }
  }

  lemma {:induction false} LastOfNone(comps: seq<Component>, ty: string, name: Component -> string)
    requires forall j :: 0 <= j < |comps| ==> ty !in comps[j].types
    ensures LastOf(comps, ty, name) == []
  {
    if comps != [] {
      LastOfNone(comps[..|comps| - 1], ty, name);
    }
  }

  /**
   * The loop over `address_components`: a later locality overrides the city, a later
   * first-level administrative area overrides the state.
   */
  method PickAdminArea(comps: seq<Component>) returns (city: string, state: string)
    ensures city == LastOf(comps, "locality", LongName)
    ensures state == LastOf(comps, "administrative_area_level_1", ShortOrLong)
  {
    city := "";
    state := "";
    var i := 0;
    while i < |comps|
      invariant 0 <= i <= |comps|
      invariant city == LastOf(comps[..i], "locality", LongName)
      invariant state == LastOf(comps[..i], "administrative_area_level_1", ShortOrLong)
    {
      var comp := comps[i];
      assert comps[..i + 1][..i] == comps[..i];
      if "locality" in comp.types {
        city := comp.longName;
      }
      if "administrative_area_level_1" in comp.types {
        state := ShortOrLong(comp);
      }
      i := i + 1;
    }
    assert comps[..i] == comps;
  }

  /** The admin area a successful reverse lookup yields: the state goes through `stateAbbrev`. */
  function AdminAreaOf(comps: seq<Component>): AdminArea {
    AdminArea(LastOf(comps, "locality", LongName),
              StateAbbrev(LastOf(comps, "administrative_area_level_1", ShortOrLong)))
  }

  /** The state of a reverse-geocoded area is always a normalised abbreviation. */
  lemma AdminAreaStateShape(comps: seq<Component>)
    ensures var s := AdminAreaOf(comps).state;
      Upper(s) == s && Trimmed(s) && StateAbbrev(s) == s
  {
    var raw := LastOf(comps, "administrative_area_level_1", ShortOrLong);
    StateAbbrevShape(raw);
    StateAbbrevIdempotent(raw);
  }

  /** What `reverseGeocodeAdminArea` answers, and the reverse-geocode cache it leaves behind. */
  datatype AreaOutcome = AreaOutcome(area: AdminArea, entries: map<string, Entry<AdminArea>>)

  /**
   * `reverseGeocodeAdminArea` on cache contents `m`: a fresh entry is returned; without an
   * API key or on any failure the answer is an empty area and the cache is unchanged; a
   * successful lookup is stored even when it names no city or state.
   */
  function ReverseGeocoded(m: map<string, Entry<AdminArea>>, ttl: int, pick: Coord, apiKey: string,
                           coordKey: Coord -> string, reverse: Coord -> Option<seq<Component>>,
                           now: int): AreaOutcome
  {
    var k := coordKey(pick);
    if IsFresh(m, k, now, ttl) then AreaOutcome(m[k].value, m)
    else if apiKey == [] || reverse(pick).None? then AreaOutcome(AdminArea("", ""), m)
    else AreaOutcome(AdminAreaOf(reverse(pick).value), m[k := Entry(now, AdminAreaOf(reverse(pick).value))])
  }

  /**
   * A reverse lookup that is not served from the cache yields a normalised state, and the
   * area it stores is found again, unchanged, for as long as the entry is fresh.
   */
  lemma ReverseGeocodedAgain(m: map<string, Entry<AdminArea>>, ttl: int, pick: Coord, apiKey: string,
                             coordKey: Coord -> string, reverse: Coord -> Option<seq<Component>>,
                             reverse2: Coord -> Option<seq<Component>>, now: int, later: int)
    requires !IsFresh(m, coordKey(pick), now, ttl)
    requires now <= later < now + ttl
    ensures var o := ReverseGeocoded(m, ttl, pick, apiKey, coordKey, reverse, now);
      StateAbbrev(o.area.state) == o.area.state
      && (o.entries != m ==> ReverseGeocoded(o.entries, ttl, pick, apiKey, coordKey, reverse2, later) == o)
  {
    var o := ReverseGeocoded(m, ttl, pick, apiKey, coordKey, reverse, now);
    if apiKey != [] && reverse(pick).Some? {
      AdminAreaStateShape(reverse(pick).value);
    } else {
      assert o.area == AdminArea("", "");
      StateAbbrevShape("");
    }
  }

  /** `reverseGeocodeAdminArea`, over the reverse-geocode cache. */
  method ReverseGeocodeAdminArea(cache: TtlCache<AdminArea>, pick: Coord, apiKey: string,
                                 coordKey: Coord -> string, reverse: Coord -> Option<seq<Component>>,
                                 now: int)
    returns (area: AdminArea)
    modifies cache
    ensures AreaOutcome(area, cache.entries)
      == ReverseGeocoded(old(cache.entries), cache.ttl, pick, apiKey, coordKey, reverse, now)
  {
    var k := coordKey(pick);
    var c := cache.Lookup(k, now);
    if c.Some? {
      return c.value;
    }
    if apiKey == [] {
      return AdminArea("", "");
    }
    var reply := reverse(pick);
    if reply.None? {
      return AdminArea("", "");
    }
    var city, state := PickAdminArea(reply.value);
    state := StateAbbrev(state);
    area := AdminArea(city, state);
    cache.Store(k, area, now);
  }
}

/**
 * `loadProviders` (functions/api/providers/nearby.js, lines 154-188) and
 * `clearProviderCache` (functions/_lib/state.js, lines 149-159): fetching a feed,
 * turning its records into providers, and clearing a provider cache. The two act on
 * different caches: `loadProviders` on the endpoint's own `providerCache` (nearby.js,
 * line 76), `clearProviderCache` on the one in state.js (line 9), so clearing never
 * makes the endpoint fetch again.
 */
module Providers {
  import opened Wrappers
  import opened Text
  import opened Phone
  import opened Csv
  import opened Fields
  import opened Cache
  import opened Seqs

  /** One provider as the pipeline carries it; coordinates and fees are None unless finite. */
  datatype Provider = Provider(
    name: string, phone: string, address: string, city: string, state: string,
    lat: Option<real>, lng: Option<real>, baseFee: Option<real>, perMile: Option<real>)

  // The column aliases, tried left to right.
  const ActiveAliases: seq<string> :=
    ["active", "Active", "is_active", "Is Active", "enabled", "Enabled", "status", "Status"]
  const PhoneAliases: seq<string> :=
    ["phone", "Phone", "phone_number", "Phone Number", "PhoneNumber", "Mobile", "Mobile Phone",
     "Primary Phone", "PrimaryPhone"]
  const AddressAliases: seq<string> :=
    ["address", "Address", "street", "Street", "Address 1", "Address1", "Street Address",
     "StreetAddress", "Full Address", "FullAddress"]
  const CityAliases: seq<string> := ["city", "City"]
  const StateAliases: seq<string> := ["state", "State", "Province"]
  const ZipAliases: seq<string> := ["zip", "Zip", "Zip Code", "Postal Code", "Postcode"]
  const LatAliases: seq<string> := ["lat", "Lat", "LAT", "latitude", "Latitude", "LATITUDE"]
  const LngAliases: seq<string> :=
    ["lng", "Lng", "LNG", "lon", "Lon", "LONG", "longitude", "Longitude", "LONGITUDE"]
  const BaseFeeAliases: seq<string> := ["base_fee", "Base Fee", "BaseFee"]
  const PerMileAliases: seq<string> := ["per_mile", "Per Mile", "PerMile", "per_mi", "Per Mi"]
  const NameAliases: seq<string> := ["name", "Name", "company", "Company", "Company Name", "CompanyName"]

  /** `[addr1, city, state, zip].filter(Boolean).join(", ") || [city, state].filter(Boolean).join(", ")`. */
  function ComposeAddress(addr1: string, city: string, state: string, zip: string): string {
    var full := Join(NonEmpty([addr1, city, state, zip]), ", ");
    if full != [] then full else Join(NonEmpty([city, state]), ", ")
  }

  /** A join of non-empty parts is empty only when there are no parts. */
  lemma JoinEmpty(parts: seq<string>, sep: string)
    requires forall i :: 0 <= i < |parts| ==> parts[i] != []
    ensures Join(parts, sep) == [] <==> parts == []
  {
    if |parts| > 1 {
      assert Join(parts, sep) == parts[0] + sep + Join(parts[1..], sep);
    }
  }

  /**
   * The fallback to city and state never changes the address: it is tried only when all
   * four parts are empty, and then it is empty too. The address is empty exactly when
   * street, city, state and zip all are.
   */
  lemma AddressFallbackDead(addr1: string, city: string, state: string, zip: string)
    ensures ComposeAddress(addr1, city, state, zip) == Join(NonEmpty([addr1, city, state, zip]), ", ")
    ensures ComposeAddress(addr1, city, state, zip) == [] <==> addr1 == city == state == zip == []
  {
    var four := [addr1, city, state, zip];
    var parts := NonEmpty(four);
    JoinEmpty(parts, ", ");
    NonEmptyNone(four);
    NonEmptyNone([city, state]);
    JoinEmpty(NonEmpty([city, state]), ", ");
    if parts == [] {
      assert four[0] == [] && four[1] == [] && four[2] == [] && four[3] == [];
    } else {
      assert exists i :: 0 <= i < 4 && four[i] != [];
    }
  }

  /** The normalised phone of a record. */
  function PhoneOf(r: Record): string {
    NormalizeE164Maybe(FirstVal(r, PhoneAliases))
  }

  /**
   * One record of the feed as `loadProviders` reads it: None when the record is marked
   * inactive or has no phone, otherwise the provider with its normalised fields.
   */
  function NormalizeRecord(r: Record, number: string -> Option<real>): Option<Provider> {
    if LooksFalse(Some(FirstVal(r, ActiveAliases))) then None
    else
      var phone := PhoneOf(r);
      if phone == [] then None
      else
        var addr1 := FirstVal(r, AddressAliases);
        var city := FirstVal(r, CityAliases);
        var state := StateAbbrev(FirstVal(r, StateAliases));
        var zip := FirstVal(r, ZipAliases);
        var name := FirstVal(r, NameAliases);
        Some(Provider(
          if name != [] then name else "Provider",
          phone, ComposeAddress(addr1, city, state, zip), city, state,
          ToNum(FirstVal(r, LatAliases), number), ToNum(FirstVal(r, LngAliases), number),
          ToNum(FirstVal(r, BaseFeeAliases), number), ToNum(FirstVal(r, PerMileAliases), number)))
  }

  /** The shape every provider that `loadProviders` produces has. */
  predicate WellFormed(p: Provider) {
    p.name != [] && p.phone != [] && NormalizeE164Maybe(p.phone) == p.phone && Clean(p.phone)
    && StateAbbrev(p.state) == p.state && Trimmed(p.city)
  }

  /**
   * A record is kept exactly when it is not marked inactive and has a phone; a record with
   * no active column at all counts as active. A kept record gives a well-formed provider
   * named after its first non-blank name column, or "Provider".
   */
  lemma NormalizeRecordSpec(r: Record, number: string -> Option<real>)
    ensures NormalizeRecord(r, number).Some? <==>
      !LooksFalse(Some(FirstVal(r, ActiveAliases))) && StripPunct(FirstVal(r, PhoneAliases)) != []
    ensures (forall i :: 0 <= i < |ActiveAliases| ==> Blank(r, ActiveAliases[i])) ==>
      !LooksFalse(Some(FirstVal(r, ActiveAliases)))
    ensures NormalizeRecord(r, number).Some? ==>
      var p := NormalizeRecord(r, number).value;
      WellFormed(p)
      && p.name == (if FirstVal(r, NameAliases) == [] then "Provider" else FirstVal(r, NameAliases))
  {
    var raw := FirstVal(r, PhoneAliases);
    NormalizeShape(raw);
    NormalizeIdempotent(raw);
    FirstValEmpty(r, ActiveAliases);
    LooksFalseCanonical(FirstVal(r, ActiveAliases));
    StateAbbrevIdempotent(FirstVal(r, StateAliases));
    FirstValTrimmed(r, CityAliases);
  }

  /** `NormalizeRecord` with the number parser fixed. */
  function Normalizer(number: string -> Option<real>): Record -> Option<Provider> {
    r => NormalizeRecord(r, number)
  }

  /** The providers of a list of records, in order, skipping the records dropped. */
  function NormalizeRows(records: seq<Record>, number: string -> Option<real>): seq<Provider> {
    Collect(records, Normalizer(number))
  }

  /**
   * Loading keeps at most one provider per record, every provider loaded is well formed
   * and comes from some record, and every record that normalises yields its provider.
   */
  lemma NormalizeRowsSpec(records: seq<Record>, number: string -> Option<real>)
    ensures |NormalizeRows(records, number)| <= |records|
    ensures forall p :: p in NormalizeRows(records, number) ==>
      WellFormed(p) && exists i :: 0 <= i < |records| && NormalizeRecord(records[i], number) == Some(p)
    ensures forall i :: 0 <= i < |records| && NormalizeRecord(records[i], number).Some? ==>
      NormalizeRecord(records[i], number).value in NormalizeRows(records, number)
  {
    var f := Normalizer(number);
    CollectSpec(records, f);
    forall p | p in NormalizeRows(records, number)
      ensures WellFormed(p)
    {
      var i :| 0 <= i < |records| && f(records[i]) == Some(p);
      NormalizeRecordSpec(records[i], number);
    }
  }

  /** The loop of `loadProviders` over the parsed records. */
  method LoadRows(records: seq<Record>, number: string -> Option<real>) returns (rows: seq<Provider>)
    ensures rows == NormalizeRows(records, number)
  {
    rows := [];
    var i := 0;
    while i < |records|
      invariant 0 <= i <= |records|
      invariant rows == NormalizeRows(records[..i], number)
    {
      CollectStep(records, i, Normalizer(number));
      var r := records[i];
      var active := FirstVal(r, ActiveAliases);
      if LooksFalse(Some(active)) {
        assert NormalizeRecord(r, number) == None;
        i := i + 1;
        continue;
      }
      var phone := NormalizeE164Maybe(FirstVal(r, PhoneAliases));
      if phone == [] {
        assert NormalizeRecord(r, number) == None;
        i := i + 1;
        continue;
      }
      var addr1 := FirstVal(r, AddressAliases);
      var city := FirstVal(r, CityAliases);
      var stateRaw := FirstVal(r, StateAliases);
      var state := StateAbbrev(stateRaw);
      var zip := FirstVal(r, ZipAliases);
      var address := ComposeAddress(addr1, city, state, zip);
      var lat := ToNum(FirstVal(r, LatAliases), number);
      var lng := ToNum(FirstVal(r, LngAliases), number);
      var baseFee := ToNum(FirstVal(r, BaseFeeAliases), number);
      var perMile := ToNum(FirstVal(r, PerMileAliases), number);
      var name := FirstVal(r, NameAliases);
      if name == [] {
        name := "Provider";
      }
      var p := Provider(name, phone, address, city, state, lat, lng, baseFee, perMile);
      assert NormalizeRecord(r, number) == Some(p);
      rows := rows + [p];
      i := i + 1;
    }
    assert records[..i] == records;
  }

  /** What `fetch` yields: a network failure, or a status and the body text. */
  datatype Reply = NetworkError | HttpReply(status: int, body: string)

  /** `resp.ok`. */
  predicate IsOk(reply: Reply) {
    reply.HttpReply? && 200 <= reply.status <= 299
  }

  /**
   * `loadProviders`: a fresh cache entry is returned without fetching; a failed fetch is an
   * error and leaves the cache alone; otherwise the feed is parsed, normalised and stored.
   */
  method LoadProviders(cache: TtlCache<seq<Provider>>, csvUrl: string, fetch: string -> Reply,
                       number: string -> Option<real>, now: int)
    returns (r: Result<seq<Provider>>)
    modifies cache
    ensures IsFresh(old(cache.entries), csvUrl, now, cache.ttl) ==>
      r == Ok(old(cache.entries)[csvUrl].value) && cache.entries == old(cache.entries)
    ensures !IsFresh(old(cache.entries), csvUrl, now, cache.ttl) && !IsOk(fetch(csvUrl)) ==>
      r.Err? && cache.entries == old(cache.entries)
    ensures !IsFresh(old(cache.entries), csvUrl, now, cache.ttl) && IsOk(fetch(csvUrl)) ==>
      var rows := NormalizeRows(CsvRecords(fetch(csvUrl).body), number);
      r == Ok(rows) && cache.entries == old(cache.entries)[csvUrl := Entry(now, rows)]
  {
    var cached := cache.Lookup(csvUrl, now);
    if cached.Some? {
      return Ok(cached.value);
    }
    var resp := fetch(csvUrl);
    if resp.NetworkError? {
      return Err("fetch failed");
    }
    if !(200 <= resp.status <= 299) {
      return Err("CSV HTTP status");
    }
    var records := ParseCsv(resp.body);
    var rows := LoadRows(records, number);
    cache.Store(csvUrl, rows, now);
    r := Ok(rows);
  }

  /** The rows `loadProviders` yields when it succeeds: the fresh entry, or the fetched feed. */
  function LoadedRows(m: map<string, Entry<seq<Provider>>>, ttl: int, csvUrl: string, fetch: string -> Reply,
                      number: string -> Option<real>, now: int): seq<Provider>
    requires IsFresh(m, csvUrl, now, ttl) || IsOk(fetch(csvUrl))
  {
    if IsFresh(m, csvUrl, now, ttl) then m[csvUrl].value
    else NormalizeRows(CsvRecords(fetch(csvUrl).body), number)
  }

  /**
   * With the five-minute time to live, a feed fetched now is served from the cache, as
   * the same rows, for the next five minutes, whatever a new fetch would return.
   */
  lemma FeedCachedFiveMinutes(m: map<string, Entry<seq<Provider>>>, csvUrl: string,
                              fetch: string -> Reply, fetch2: string -> Reply,
                              number: string -> Option<real>, now: int, later: int)
    requires IsOk(fetch(csvUrl))
    requires now <= later < now + ProviderTtlMs
    ensures var rows := LoadedRows(m, ProviderTtlMs, csvUrl, fetch, number, now);
      var m1 := if IsFresh(m, csvUrl, now, ProviderTtlMs) then m else m[csvUrl := Entry(now, rows)];
      !IsFresh(m, csvUrl, now, ProviderTtlMs) ==>
        IsFresh(m1, csvUrl, later, ProviderTtlMs)
        && LoadedRows(m1, ProviderTtlMs, csvUrl, fetch2, number, later) == rows
  {
  }

  /** The `cleared` label of `clearProviderCache`. */
  function ClearedLabel(keys: set<string>, hint: string): string {
    if hint == "*" || hint == [] then "all"
    else if exists k :: k in keys && Contains(k, Lower(hint)) then Lower(hint)
    else "all"
  }

  /**
   * The label is the lower-cased hint exactly when the hint is neither "*" nor empty and
   * some cached URL contains it; in every other case, an empty cache included, it is
   * "all". The label is lower-case and never "*".
   */
  lemma ClearedLabelSpec(keys: set<string>, hint: string)
    ensures var tag := ClearedLabel(keys, hint);
      tag == "all" || (tag == Lower(hint) && exists k :: k in keys && Contains(k, tag))
    ensures keys == {} ==> ClearedLabel(keys, hint) == "all"
    ensures hint == "*" || hint == [] ==> ClearedLabel(keys, hint) == "all"
    ensures hint != "*" && hint != [] && (exists k :: k in keys && Contains(k, Lower(hint))) ==>
      ClearedLabel(keys, hint) == Lower(hint)
    ensures hint != "*" && hint != [] && !(exists k :: k in keys && Contains(k, Lower(hint))) ==>
      ClearedLabel(keys, hint) == "all"
    ensures Lower(ClearedLabel(keys, hint)) == ClearedLabel(keys, hint)
    ensures ClearedLabel(keys, hint) != "*"
  {
    var tag := ClearedLabel(keys, hint);
    forall i | 0 <= i < |tag|
      ensures Lower(tag)[i] == tag[i]
    {
      assert Lower(tag)[i] == LowerChar(tag[i]);
      if tag != "all" {
        assert tag[i] == LowerChar(hint[i]);
      }
    }
    if tag != "all" && |tag| == 1 {
      assert tag[0] == LowerChar(hint[0]);
    }
  }

  /** `clearProviderCache`: always empties the provider cache, whatever the hint. */
  method ClearProviderCache(cache: TtlCache<seq<Provider>>, hint: string) returns (cleared: string)
    modifies cache
    ensures cache.entries == map[]
    ensures cleared == ClearedLabel(old(cache.entries).Keys, hint)
  {
    if hint == "*" || hint == [] {
      cache.Clear();
      return "all";
    }
    var key := Lower(hint);
    var existed := exists k :: k in cache.entries && Contains(k, key);
    cache.Clear();
    cleared := if existed then key else "all";
  }
}

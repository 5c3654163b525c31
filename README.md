# Nearby provider resolution, modelled in Dafny

The `/api/providers/nearby` endpoint answers "which service providers are nearest to this
pick-up point?". It works in these steps:

1. It reads the query and clamps its numbers.
2. It picks the CSV feed of the requested service.
3. It loads and normalises the feed's records, through a five-minute provider cache.
4. It deduplicates the providers by normalised phone number.
5. It splits them into providers with and without coordinates.
6. It keeps the providers that have coordinates and lie within the radius.
7. It reverse-geocodes the pick-up point to a city and state.
8. It ranks the providers without coordinates by how well they match that city and state.
9. It geocodes them in that order, within a budget, through a 24-hour cache.
10. It sorts the result by distance and truncates it.

This project models that pipeline in Dafny and proves its contracts. The modules follow the
program:

| file | module | models |
|---|---|---|
| `wrappers.dfy` | `Wrappers` | `Option` (null, NaN) and `Result` (a thrown error) |
| `text.dfy` | `Text` | `trim` and ASCII case mapping, plus `startsWith`, `includes`, `split`, `join` and `filter(Boolean)` on strings |
| `phone.dfy` | `Phone` | `normalizeE164Maybe` of `functions/_lib/state.js`, and the copy in `nearby.js` as written |
| `csv.dfy` | `Csv` | `parseCsv`: the quote-aware line splitter (a loop), the header-to-record mapping, and the `nearby.js` copy as written |
| `fields.dfy` | `Fields` | `firstVal`, `looksFalse`, the 51-entry `stateAbbrev` table, `toNum` |
| `cache.dfy` | `Cache` | the time-to-live caches, as a class `TtlCache` over a map of timestamped entries |
| `geocode.dfy` | `Geocode` | `geocodeAddress` and `reverseGeocodeAdminArea` with their cache discipline |
| `seqs.dfy` | `Seqs` | order-preserving filter and collect, and the stable bucket sort that `Array.prototype.sort` performs on scores 0..3 |
| `providers.dfy` | `Providers` | the record normaliser in `loadProviders`, `loadProviders` itself, `clearProviderCache` |
| `dedup.dfy` | `Dedup` | the first-phone-wins deduplication loop |
| `ranking.dfy` | `Ranking` | the coordinate partition, the radius filter, and the state/city score with the prioritisation |
| `resolver.dfy` | `Resolver` | the budgeted geocoding loop, the stable distance sort, and `nearestProviders` |
| `handler.dfy` | `Handler` | `onRequestGet`: coordinates, clamps, the service table and the final clamp |

The helper functions exist twice: in `functions/_lib/state.js` and as private copies in
`functions/api/providers/nearby.js`. In the `nearby.js` copies the regular expressions and
the split string have a doubled backslash. The model follows the `state.js` forms, which
have the evidently intended meaning, and the rest of the pipeline uses them. The `nearby.js`
forms are modelled too, under names starting with `Nearby`, and their effect is proved under
"## Findings".

Things outside the program are parameters:

- the distance function (haversine) is `dist`;
- the forward geocoder is `lookup`, giving an optional coordinate;
- the reverse geocoder is `reverse`, giving optional address components;
- the key formatting `toFixed(4)` is `coordKey`;
- `fetch` is `fetch`, giving a network error or a status and a body;
- JavaScript's `Number` and `parseInt` are `number` and `parseInt`, with `None` for NaN;
- `Date.now()` is `now`.

A JavaScript number that may be NaN or infinite is an `Option<real>`; `None` means "not
finite".

## Model

| member | source | states |
|---|---|---|
| Phone.NormalizeShape | functions/_lib/state.js:38-45 | the output never contains `(`, `)`, white space, `,` or `-`; it is empty exactly when the input has nothing but those characters |
| Phone.NormalizeIdempotent | functions/_lib/state.js:38-45 | normalising a normalised number changes nothing, so the re-normalisation in the deduplication is harmless |
| Phone.PunctuationInsensitive | functions/_lib/state.js:40 | two numbers that differ only in parentheses, white space, commas and dashes normalise alike |
| Phone.LeadingZeroZero | functions/_lib/state.js:42 | a leading `00` becomes `+` |
| Phone.DigitsGainPlus | functions/_lib/state.js:43 | an all-digit number not starting with `00` gains a `+` prefix |
| Phone.SpacedDigitsCollapse | functions/_lib/state.js:40 | `"555 1234"` and `"5551234"` normalise alike |
| Phone.NearbyDigitTestNeverMatches | functions/api/providers/nearby.js:100 | the `nearby.js` all-digits test is false for every normalised input |
| Phone.NearbyKeepsDigits | functions/api/providers/nearby.js:95-101 | the `nearby.js` copy leaves an all-digit number without its `+` |
| Phone.NearbySpacedDigitsDiffer | functions/api/providers/nearby.js:97 | the `nearby.js` copy keeps the space, so `"555 1234"` and `"5551234"` stay different, while the `state.js` form merges them |
| Csv.SplitCells | functions/_lib/state.js:82-93 | the character loop with its quote flag and index skip yields exactly the cells of the recursive definition |
| Csv.SplitEncodeRoundTrip | functions/_lib/state.js:82-93 | a row of trimmed fields, quoted with `""` for each `"`, splits back into the same fields |
| Csv.UnquotedCellCount | functions/_lib/state.js:88 | on a line without quotes, the cell count is the comma count plus one |
| Csv.CellCount | functions/_lib/state.js:84-90 | on every line, quoted or not, the cell count is one more than the commas outside quotes, where the quoted state flips at each quote character |
| Csv.NonBlankKeepsNoBlank | functions/_lib/state.js:80 | exactly the lines that are not blank after trimming are kept |
| Csv.EmptyText | functions/_lib/state.js:81 | empty text gives no records |
| Csv.MakeRecordKeys | functions/_lib/state.js:97 | each record's keys are exactly the header names |
| Csv.MakeRecordValues | functions/_lib/state.js:97 | for each header name, the value is the cell under its last occurrence, or `""` when the line is short |
| Csv.RecordsShape | functions/_lib/state.js:94-99 | the number of records is the number of non-blank lines minus one, and record i maps the header to the cells of line i+1 |
| Csv.ParseCsv | functions/_lib/state.js:79-100 | the method yields the records of the text as defined above |
| Csv.TwoLines | functions/_lib/state.js:80 | a header and one data line separated by a newline give one record |
| Csv.NearbyCsvNoRecords | functions/api/providers/nearby.js:132 | the `nearby.js` copy gives no records at all for any text without a backslash |
| Csv.NearbyCsvDropsRows | functions/api/providers/nearby.js:132 | on a header plus one line, the `state.js` form gives one record and the `nearby.js` copy gives none |
| Fields.FirstValEmpty | functions/_lib/state.js:56 | the result is `""` exactly when every listed key is absent or blank |
| Fields.FirstValPicksEarliest | functions/_lib/state.js:56 | the result is the trimmed value of the earliest listed key with a non-blank value |
| Fields.FirstValTrimmed | functions/_lib/state.js:56 | the result is always trimmed |
| Fields.LooksFalseCanonical | functions/_lib/state.js:57-61 | the test ignores case and surrounding white space, never holds for a blank value, and is false for null |
| Fields.CodeOfFirst | functions/_lib/state.js:65-73 | a full state name in the table maps to its two-letter code |
| Fields.StateNameAnyCase | functions/_lib/state.js:62-76 | a state name in any case and with any surrounding white space maps to its code |
| Fields.StateAbbrevShape | functions/_lib/state.js:62-76 | the result is upper-case and trimmed, and empty exactly when the input is blank |
| Fields.StateAbbrevIdempotent | functions/_lib/state.js:62-76 | abbreviating an abbreviation changes nothing |
| Fields.StateAbbrevCanonical | functions/_lib/state.js:64 | inputs that agree after trimming and upper-casing abbreviate alike |
| Cache.GetAfterStore | functions/_lib/state.js:118 | a store changes the lookup of its own key only |
| Cache.StoreThenGet | functions/_lib/state.js:118 | a value just stored is found |
| Cache.StaleStaysStale | functions/_lib/state.js:107 | an entry that has expired stays expired as time passes |
| Cache.TtlCache.Lookup | functions/api/providers/nearby.js:155-156 | a hit returns the stored value of an entry younger than the time to live, and changes nothing |
| Cache.TtlCache.Store | functions/api/providers/nearby.js:185 | the key now maps to the value stamped with the current time; no other entry changes |
| Cache.TtlCache.Clear | functions/_lib/state.js:151 | the cache is empty afterwards |
| Geocode.AddressKeyCanonical | functions/_lib/state.js:104 | the cache key ignores case and surrounding white space, and is empty exactly for a blank address |
| Geocode.GeocodeAddress | functions/api/providers/nearby.js:190-208 | the answer and the new cache contents are those of `Geocoded` on the old contents: a blank address gives null and leaves the cache alone; a fresh entry is returned as cached; with no key or a failed lookup the result is null and the cache is unchanged; a success is stored under the address key, stamped now |
| Geocode.GeocodedSource | functions/api/providers/nearby.js:190-208 | the cache changes only by storing a fresh lookup's answer under the address key; a cached answer is the fresh entry's value; an uncached answer is the lookup's, made with a key |
| Geocode.GeocodedAgain | functions/api/providers/nearby.js:193-194 | within the time to live, a second request for the same address, or one differing only in case or surrounding white space, is answered from the cache with the same place and changes nothing |
| Geocode.LastOfSpec | functions/_lib/state.js:138-141 | the name taken for a component type is the one of its last component |
| Geocode.LastOfNone | functions/_lib/state.js:137-141 | without a component of that type the name stays `""` |
| Geocode.PickAdminArea | functions/_lib/state.js:137-141 | the loop leaves the city of the last locality and the short (else long) name of the last first-level area |
| Geocode.AdminAreaStateShape | functions/_lib/state.js:142 | the state of an area is already abbreviated |
| Geocode.ReverseGeocodeAdminArea | functions/api/providers/nearby.js:210-231 | the area and the new cache contents are those of `ReverseGeocoded` on the old contents: a fresh entry is returned; with no key or on failure the area is empty and the cache unchanged; a success is stored, stamped now |
| Geocode.ReverseGeocodedAgain | functions/api/providers/nearby.js:212-213 | an area not taken from the cache has an abbreviated state, and once stored it is returned unchanged while fresh, whatever the geocoder would now say |
| Providers.AddressFallbackDead | functions/api/providers/nearby.js:175 | the fallback address can never be used: it is empty only when all four parts are |
| Providers.NormalizeRecordSpec | functions/api/providers/nearby.js:163-183 | a record is kept exactly when it is not marked inactive and has a phone; a kept record is well formed and named after its first name column, or "Provider" |
| Providers.NormalizeRowsSpec | functions/api/providers/nearby.js:162-184 | every row kept is well formed, and every record that normalises is kept |
| Providers.LoadRows | functions/api/providers/nearby.js:162-184 | the loop with its two `continue`s yields the normalised rows in order |
| Providers.LoadProviders | functions/api/providers/nearby.js:154-188 | a fresh cache entry is returned without fetching; a failed fetch is an error and leaves the cache alone; otherwise the feed is parsed, normalised and stored |
| Providers.FeedCachedFiveMinutes | functions/api/providers/nearby.js:155-156 | with the five-minute time to live, a feed fetched now is served from the cache, as the same rows, for the next five minutes, whatever a new fetch would return |
| Providers.ClearedLabelSpec | functions/_lib/state.js:149-159 | the label is "all" for the hint `*` or an empty hint, and when no cached URL contains the lower-cased hint; otherwise it is that hint; it is always lower-case and never `*` |
| Providers.ClearProviderCache | functions/_lib/state.js:149-159 | the provider cache is always emptied |
| Dedup.DedupRows | functions/api/providers/nearby.js:234 | the loop over a seen-set yields the first-phone-wins list |
| Dedup.DedupedIndices | functions/api/providers/nearby.js:234 | the kept rows are, in input order, exactly the rows whose normalised phone is non-empty and not seen before |
| Dedup.DedupDistinct | functions/api/providers/nearby.js:234 | every kept phone is non-empty and normalised, and no two are equal |
| Dedup.DedupKeepsFirst | functions/api/providers/nearby.js:234 | the first row with a given phone is kept |
| Ranking.Partition | functions/api/providers/nearby.js:239-240 | each part keeps its providers in input order |
| Ranking.PartitionSpec | functions/api/providers/nearby.js:239-240 | the two parts together are a permutation of the input, with the located providers exactly in the first |
| Ranking.NearWithCoords | functions/api/providers/nearby.js:247-251 | the loop yields the located providers within the radius, in order, with their distances |
| Ranking.WithinRadiusSpec | functions/api/providers/nearby.js:247-251 | every entry is a located provider within the radius at its own distance, and every located provider within the radius is there |
| Ranking.ScoreSpec | functions/api/providers/nearby.js:255-260 | the score is 0..3; it is at least 2 exactly on a state match and odd exactly on a city match |
| Ranking.ScoreUnknownArea | functions/api/providers/nearby.js:258-259 | with an unknown pick-up area every score is 0 |
| Ranking.PrioritizeSpec | functions/api/providers/nearby.js:254-261 | the ranking is a permutation, non-increasing in score, and stable within each score |
| Resolver.LookupNext | functions/api/providers/nearby.js:268-272 | one turn of the loop: the next provider's lookup is `geocodeAddress` on the current cache; `ok` counts the successes and `out` gains exactly that lookup's placement when it lies within the radius |
| Resolver.GeocodeLoop | functions/api/providers/nearby.js:263-274 | the loop is a run of lookups in priority order: lookup t is `geocodeAddress` on the cache the previous one left; the last lookup was made while both stopping tests held, and the loop ended at the end of the list or at a failed test; `tried` is the number of lookups, `ok` the number that found a place, and `out` gained exactly the in-radius placements, in order |
| Resolver.PushedSpec | functions/api/providers/nearby.js:269-272 | the lookups add at most one entry per success; each is placed within the radius at its found coordinates and is a prioritised row; every lookup that found a place within the radius adds its placement |
| Resolver.GeocodeRunBounds | functions/api/providers/nearby.js:264-267 | no more lookups than providers or than the budget; every lookup was made while fewer than `k` entries were placed and the budget was not spent; none when `k` was met from the start; `out` ends with at most `k` entries once a lookup was made |
| Resolver.TraceCache | functions/api/providers/nearby.js:203 | after the lookups, every key a lookup stored holds an entry stamped now, and every other key is as it was |
| Resolver.SortByDistanceSpec | functions/api/providers/nearby.js:276 | the sorted list is non-decreasing in distance and a permutation of its input |
| Resolver.SortByDistanceStable | functions/api/providers/nearby.js:276 | entries at equal distance keep their order |
| Resolver.Take | functions/api/providers/nearby.js:277 | the result is a prefix of at most `k` entries, and the whole list when it is no longer |
| Resolver.NearestSpec | functions/api/providers/nearby.js:276-277 | keeping the nearest `k`: sorted by distance, `min(k, n)` entries, all drawn from the candidates, and all of them when there are at most `k` |
| Resolver.NearestFarthest | functions/api/providers/nearby.js:276-277 | every candidate left out is at least as far as every one kept |
| Resolver.CandidatesFromRows | functions/api/providers/nearby.js:247-272 | every entry from either stage lies within the radius and is a deduplicated row, up to the coordinates filled in by geocoding |
| Resolver.NearestProviders | functions/api/providers/nearby.js:233-278 | the result and both caches are those of a run of the pipeline on the deduplicated rows: the pick-up area is `reverseGeocodeAdminArea` on the old reverse cache, the geocoding is a loop run over the prioritised rows from the old geocode cache, and the result is the nearest `k` of the located in-radius providers followed by the geocoded ones; the counters are the sizes of the stages, the lookups and the successes |
| Resolver.NearestRunShape | functions/api/providers/nearby.js:233-278 | the result of such a run is sorted by distance and holds at most `k` deduplicated providers within the radius; the lookups stay within the budget and the providers that needed geocoding |
| Resolver.NearestRunComplete | functions/api/providers/nearby.js:247-277 | when fewer than `k` come back, every deduplicated provider with coordinates within the radius is in the result, and so is every provider whose lookup found a place within the radius |
| Handler.MissingCoordsAccepted | functions/api/providers/nearby.js:8-9 | as written, a request without `lat` and `lng` is accepted as the point (0, 0) |
| Handler.NonNumericRadiusIsNaN | functions/api/providers/nearby.js:16-17 | as written, a non-numeric `radius_km` makes the radius NaN |
| Handler.NonNumericMaxResultsIsNaN | functions/api/providers/nearby.js:18 | as written, a non-numeric `max_results` makes the result limit NaN |
| Handler.NonNumericBudgetNeverSpent | functions/api/providers/nearby.js:19 | as written, a non-numeric `max_geocodes` makes the budget NaN, and then the budget test never stops the loop |
| Handler.Coords | functions/api/providers/nearby.js:22-24 | a pick-up point exists exactly when both coordinates are given and finite, and then it is the written one |
| Handler.Radius | functions/api/providers/nearby.js:12-17 | the radius is at least 1 km, and equals the written clamp whenever that is a number |
| Handler.MaxResults | functions/api/providers/nearby.js:13-18 | the limit is between 1 and 500, and equals the written clamp whenever that is a number |
| Handler.MaxGeocodes | functions/api/providers/nearby.js:14-19 | the budget is never negative, and equals the written clamp whenever that is a number |
| Handler.FeedOf | functions/api/providers/nearby.js:27-32 | exactly "towing" and "mechanic" have a feed |
| Handler.ServiceFeeds | functions/api/providers/nearby.js:10 | an absent or empty service means towing, and the service name ignores case |
| Handler.ClampKeepsNearest | functions/api/providers/nearby.js:40-42 | on the resolver's output the handler's filter and slice remove nothing |
| Handler.ResolveAndClamp | functions/api/providers/nearby.js:36-42 | the providers answered are the result of a `nearestProviders` run, the final filter and slice removing nothing: sorted by distance, within the radius and no more than the limit |
| Handler.HandleNearby | functions/api/providers/nearby.js:5-71 | over the endpoint's caches with their fixed times to live: unusable coordinates and unknown services give 400 with the source's messages and touch no cache; a served request is a 500 exactly when the feed is neither fresh nor fetched with an OK status, and then no cache changes; otherwise the answer's providers are the result of a `nearestProviders` run on the loaded rows with the request's radius, limit and budget, and the feed cache gains the fetched rows when they were fetched |

## Left out

- Network I/O, JSON decoding, `encodeURIComponent` and the response headers are left out. `fetch`, the geocoders and the number parsers are parameters.
- The haversine distance is a parameter `dist`, because it is floating-point trigonometry. Nothing is assumed about it: not symmetry, not zero distance.
- Floating point in general: coordinates, distances and fees are unbounded reals, and NaN and the infinities are `None`.
- The output shaping is not modelled: the per-provider response fields, `Math.round`, `toFixed(2)`, `max_distance_km` and the `debug` object. `Diagnostics` keeps only the counters.
- Concurrency: the requests of one isolate share the caches, and `await` points can interleave. The model runs one request at a time.
- `Date.now()` is read afresh at each cache operation. The model uses one `now` per request.
- Providers.LoadProviders: a failed fetch gives an `Err` whose message does not carry the HTTP status; the handler turns any error into a 500.
- Handler.Radius, Handler.MaxResults, Handler.MaxGeocodes: the environment defaults are parsed from their text with `parseInt`, while the source applies `parseInt` to the text of `Number(text)`. The two differ on many inputs: `"12abc"` (NaN against 12), `".5"` (0 against NaN), a blank value (0 against NaN), `"1_000"`, and exponent and hexadecimal forms.
- Handler.FeedOf: a service name that is an `Object.prototype` property, such as `constructor`, is also a key of the source's `SERVICES` object, with a non-string value. It is treated as unknown.
- Handler.HandleNearby: the `try`/`catch` around the handler is modelled only for the feed load, the one step that can throw.
- Fields.StateNameAnyCase: it requires the name's entry to be the first with that name; all 51 names are distinct.
- Text.Lower, Text.Upper: `toLowerCase` and `toUpperCase` map only ASCII letters.
- Csv.MakeRecord: a header named `__proto__` sets the prototype of the source's plain-object record instead of adding an own key; the model treats it like any other name.
- The endpoint keeps its own provider, geocode and reverse-geocode caches (nearby.js, lines 75-79), separate from those in functions/_lib/state.js (lines 5-11). `ClearProviderCache` models the state.js one: clearing it never makes the endpoint fetch its feed again.
- The `wantDebug` flag and `debug.cache`/`debug.loaded` are not modelled.
- `functions/admin/reload-providers.js` clears a global map that the endpoint never reads; it is not part of this model.
- `haversineKm`, `toRad`, `json` and `corsJson` are not part of this model.

## Findings

| source | as written | input that shows it | evidently intended | confidence | as-written member | corrected member |
|---|---|---|---|---|---|---|
| functions/api/providers/nearby.js:97 | `/[()\\s,-]/g` removes a backslash and the letter `s`, not white space | `"555 1234"` keeps its space, so it and `"5551234"` are not merged by the deduplication | remove white space, as functions/_lib/state.js:40 does | not executed | Phone.NearbySpacedDigitsDiffer | Phone.SpacedDigitsCollapse |
| functions/api/providers/nearby.js:100 | `/^\\d+$/` matches a backslash followed by `d`s | `"5551234"` is returned without a `+` | prefix all-digit numbers with `+`, as functions/_lib/state.js:43 does | not executed | Phone.NearbyKeepsDigits | Phone.DigitsGainPlus |
| functions/api/providers/nearby.js:132 | `.split("\\n")` splits on a backslash followed by `n`, and `/\\r/g` removes that pair | a header line, a newline and one data line give no records | split on newlines, as functions/_lib/state.js:80 does | not executed | Csv.NearbyCsvDropsRows | Csv.TwoLines |
| functions/api/providers/nearby.js:8-9 | `Number(null)` is 0, so missing coordinates pass the finiteness test | a query without `lat` and `lng` is served as a pick-up at (0, 0) | reply 400 "lat/lng required" | not executed | Handler.MissingCoordsAccepted | Handler.Coords |
| functions/api/providers/nearby.js:19 | `Math.max(0, NaN)` is NaN, and `tried >= NaN` is never true | `max_geocodes=abc` lets every provider without coordinates be geocoded | fall back to the default budget | not executed | Handler.NonNumericBudgetNeverSpent | Handler.MaxGeocodes |
| functions/api/providers/nearby.js:18 | `Math.min(Math.max(1, NaN), 500)` is NaN, and `slice(0, NaN)` is empty | `max_results=abc` returns no providers | fall back to the default limit | not executed | Handler.NonNumericMaxResultsIsNaN | Handler.MaxResults |
| functions/api/providers/nearby.js:17 | `Math.max(1, NaN)` is NaN, and `d <= NaN` is false | `radius_km=abc` returns no providers | fall back to the default radius | not executed | Handler.NonNumericRadiusIsNaN | Handler.Radius |

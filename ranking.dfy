/**
 * The middle of `nearestProviders` (functions/api/providers/nearby.js, lines 239-261):
 * splitting the deduplicated providers by whether they carry coordinates, keeping those
 * with coordinates that lie within the radius, and ranking the others for geocoding by
 * how well their state and city match the pickup point.
 */
module Ranking {
  import opened Wrappers
  import opened Text
  import opened Fields
  import opened Seqs
  import opened Geocode
  import opened Providers

  /** A provider with its distance from the pickup point (`{ ...r, distKm: d }`). */
  datatype Near = Near(p: Provider, distKm: real)

  /** Both coordinates are finite numbers. */
  predicate HasCoords(r: Provider) {
    r.lat.Some? && r.lng.Some?
  }

  predicate LacksCoords(r: Provider) {
    !HasCoords(r)
  }

  /** The partition loop: each provider goes to exactly one list, in input order. */
  method Partition(dedup: seq<Provider>) returns (withCoords: seq<Provider>, withoutCoords: seq<Provider>)
    ensures withCoords == Filter(dedup, HasCoords)
    ensures withoutCoords == Filter(dedup, LacksCoords)
  {
    withCoords := [];
    withoutCoords := [];
    var i := 0;
    while i < |dedup|
      invariant 0 <= i <= |dedup|
      invariant withCoords == Filter(dedup[..i], HasCoords)
      invariant withoutCoords == Filter(dedup[..i], LacksCoords)
    {
      FilterStep(dedup, i, HasCoords);
      FilterStep(dedup, i, LacksCoords);
      var r := dedup[i];
      if r.lat.Some? && r.lng.Some? {
        withCoords := withCoords + [r];
      } else {
        withoutCoords := withoutCoords + [r];
      }
      i := i + 1;
    }
    assert dedup[..i] == dedup;
  }

  /**
   * The two lists together are a permutation of the input; the first holds exactly the
   * providers with both coordinates, the second exactly the others.
   */
  lemma PartitionSpec(dedup: seq<Provider>)
    ensures multiset(Filter(dedup, HasCoords)) + multiset(Filter(dedup, LacksCoords)) == multiset(dedup)
    ensures forall r :: r in Filter(dedup, HasCoords) <==> r in dedup && HasCoords(r)
    ensures forall r :: r in Filter(dedup, LacksCoords) <==> r in dedup && !HasCoords(r)
  {
    FilterPartition(dedup, HasCoords, LacksCoords);
    FilterSpec(dedup, HasCoords);
    FilterSpec(dedup, LacksCoords);
  }

  /** The coordinates of a provider that has them. */
  function Located(r: Provider): Coord
    requires HasCoords(r)
  {
    Coord(r.lat.value, r.lng.value)
  }

  /** A provider with coordinates, with its distance, when it lies within the radius. */
  function WithinRadius(pick: Coord, radius: real, dist: (Coord, Coord) -> real): Provider -> Option<Near> {
    r => if HasCoords(r) && dist(pick, Located(r)) <= radius then Some(Near(r, dist(pick, Located(r)))) else None
  }

  /** The radius loop over the providers that carry coordinates. */
  method NearWithCoords(withCoords: seq<Provider>, pick: Coord, radius: real, dist: (Coord, Coord) -> real)
    returns (out: seq<Near>)
    requires forall r :: r in withCoords ==> HasCoords(r)
    ensures out == Collect(withCoords, WithinRadius(pick, radius, dist))
  {
    out := [];
    var i := 0;
    while i < |withCoords|
      invariant 0 <= i <= |withCoords|
      invariant out == Collect(withCoords[..i], WithinRadius(pick, radius, dist))
    {
      CollectStep(withCoords, i, WithinRadius(pick, radius, dist));
      var r := withCoords[i];
      assert HasCoords(r) by {
        assert withCoords[i] in withCoords;
      }
      var d := dist(pick, Located(r));
      assert WithinRadius(pick, radius, dist)(r) == if d <= radius then Some(Near(r, d)) else None;
      if d <= radius {
        out := out + [Near(r, d)];
      }
      i := i + 1;
    }
    assert withCoords[..i] == withCoords;
  }

  /**
   * The radius stage keeps exactly the providers within the radius, each with its
   * distance, which is at most the radius.
   */
  lemma WithinRadiusSpec(withCoords: seq<Provider>, pick: Coord, radius: real, dist: (Coord, Coord) -> real)
    requires forall r :: r in withCoords ==> HasCoords(r)
    ensures forall n :: n in Collect(withCoords, WithinRadius(pick, radius, dist)) ==>
      n.p in withCoords && n.distKm == dist(pick, Located(n.p)) && n.distKm <= radius
    ensures forall r :: r in withCoords && dist(pick, Located(r)) <= radius ==>
      Near(r, dist(pick, Located(r))) in Collect(withCoords, WithinRadius(pick, radius, dist))
  {
    var f := WithinRadius(pick, radius, dist);
    CollectSpec(withCoords, f);
    forall n: Near | n in Collect(withCoords, f)
      ensures n.p in withCoords && n.distKm == dist(pick, Located(n.p)) && n.distKm <= radius
    {
      var i :| 0 <= i < |withCoords| && f(withCoords[i]) == Some(n);
    }
    forall r | r in withCoords && dist(pick, Located(r)) <= radius
      ensures Near(r, dist(pick, Located(r))) in Collect(withCoords, f)
    {
      var i :| 0 <= i < |withCoords| && withCoords[i] == r;
    }
  }

  /** The state half of the score: the pickup state is known and the provider is in it. */
  predicate StateMatch(r: Provider, admin: AdminArea) {
    admin.state != [] && (StateAbbrev(r.state) == admin.state || Contains(Upper(r.address), admin.state))
  }

  /** The city half of the score: both cities are known and equal, ignoring case. */
  predicate CityMatch(r: Provider, admin: AdminArea) {
    var city := Lower(Trim(r.city));
    admin.city != [] && city != [] && city == Lower(admin.city)
  }

  /** The priority score: 2 for a state match plus 1 for a city match. */
  function Score(r: Provider, admin: AdminArea): int {
    (if StateMatch(r, admin) then 2 else 0) + (if CityMatch(r, admin) then 1 else 0)
  }

  /** A score lies in 0..3 and tells both matches apart. */
  lemma ScoreSpec(r: Provider, admin: AdminArea)
    ensures 0 <= Score(r, admin) <= 3
    ensures Score(r, admin) >= 2 <==> StateMatch(r, admin)
    ensures Score(r, admin) % 2 == 1 <==> CityMatch(r, admin)
  {
  }

  /** Without a known pickup area every provider scores 0. */
  lemma ScoreUnknownArea(r: Provider)
    ensures Score(r, AdminArea("", "")) == 0
  {
  }

  /** The score as a key. */
  function ScoreOf(admin: AdminArea): Provider -> int {
    r => Score(r, admin)
  }

  /**
   * `map(score).sort((a, b) => b.score - a.score)`: the sort is stable, so the result is
   * the providers of score 3, then 2, then 1, then 0, each group in input order.
   */
  function Prioritize(withoutCoords: seq<Provider>, admin: AdminArea): seq<Provider> {
    BucketSort(withoutCoords, ScoreOf(admin), 3)
  }

  /**
   * The prioritised list is a permutation of its input, sorted by non-increasing score,
   * and the providers of each score keep their input order.
   */
  lemma PrioritizeSpec(withoutCoords: seq<Provider>, admin: AdminArea)
    ensures multiset(Prioritize(withoutCoords, admin)) == multiset(withoutCoords)
    ensures forall i, j :: 0 <= i < j < |Prioritize(withoutCoords, admin)| ==>
      Score(Prioritize(withoutCoords, admin)[i], admin) >= Score(Prioritize(withoutCoords, admin)[j], admin)
    ensures forall s :: 0 <= s <= 3 ==>
      Filter(Prioritize(withoutCoords, admin), KeyIs(ScoreOf(admin), s))
      == Filter(withoutCoords, KeyIs(ScoreOf(admin), s))
  {
    var key := ScoreOf(admin);
    forall r | r in withoutCoords
      ensures 0 <= key(r) <= 3
    {
      ScoreSpec(r, admin);
    }
    BucketSortPermutation(withoutCoords, key, 3);
    BucketSortSorted(withoutCoords, key, 3);
    forall s | 0 <= s <= 3
      ensures Filter(Prioritize(withoutCoords, admin), KeyIs(key, s)) == Filter(withoutCoords, KeyIs(key, s))
    {
      BucketSortStable(withoutCoords, key, 3, s);
    }
  }
}

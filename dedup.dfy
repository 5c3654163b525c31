/**
 * The first step of `nearestProviders` (functions/api/providers/nearby.js, lines
 * 234-236): every row's phone is normalised again, rows without a phone are dropped,
 * and of the rows that share a phone only the first is kept, carrying the normalised
 * phone.
 */
module Dedup {
  import opened Phone
  import opened Providers

  /** The phone a row is deduplicated by. */
  function Key(r: Provider): string {
    NormalizeE164Maybe(r.phone)
  }

  /** The row as it is kept: with its phone normalised. */
  function Renamed(r: Provider): Provider {
    r.(phone := Key(r))
  }

  /** Row `i` has a phone that no earlier row has. */
  predicate IsFirst(rows: seq<Provider>, i: int) {
    0 <= i < |rows| && Key(rows[i]) != [] && forall j :: 0 <= j < i ==> Key(rows[j]) != Key(rows[i])
  }

  /** The rows kept, in input order. */
  function Deduped(rows: seq<Provider>): seq<Provider> {
    if rows == [] then []
    else
      var n := |rows| - 1;
      Deduped(rows[..n]) + (if IsFirst(rows, n) then [Renamed(rows[n])] else [])
  }

  /** The positions of the rows kept, in input order. */
  function FirstIndices(rows: seq<Provider>): seq<int> {
    if rows == [] then []
    else
      var n := |rows| - 1;
      FirstIndices(rows[..n]) + (if IsFirst(rows, n) then [n] else [])
  }

  /** The non-empty phones of the rows. */
  function SeenKeys(rows: seq<Provider>): set<string> {
    set j | 0 <= j < |rows| && Key(rows[j]) != [] :: Key(rows[j])
  }

  /** Whether a row is the first of its phone does not depend on later rows. */
  lemma IsFirstPrefix(rows: seq<Provider>, m: int, i: int)
    requires 0 <= i < m <= |rows|
    ensures IsFirst(rows[..m], i) == IsFirst(rows, i)
  {
  }

  /** A row is the first of its phone exactly when its phone is non-empty and not seen before. */
  lemma IsFirstSeen(rows: seq<Provider>, i: int)
    requires 0 <= i < |rows|
    ensures IsFirst(rows, i) <==> Key(rows[i]) != [] && Key(rows[i]) !in SeenKeys(rows[..i])
  {
    if Key(rows[i]) in SeenKeys(rows[..i]) {
      var j :| 0 <= j < i && Key(rows[..i][j]) == Key(rows[i]);
      assert Key(rows[j]) == Key(rows[i]);
    }
  }

  lemma SeenKeysStep(rows: seq<Provider>, i: int)
    requires 0 <= i < |rows|
    ensures SeenKeys(rows[..i + 1]) ==
      SeenKeys(rows[..i]) + (if Key(rows[i]) != [] then {Key(rows[i])} else {})
  {
    var a := rows[..i + 1];
    forall s | s in SeenKeys(a)
      ensures s in SeenKeys(rows[..i]) + (if Key(rows[i]) != [] then {Key(rows[i])} else {})
    {
      var j :| 0 <= j < |a| && Key(a[j]) != [] && Key(a[j]) == s;
      if j < i {
        assert rows[..i][j] == a[j];
      }
    }
    forall s | s in SeenKeys(rows[..i])
      ensures s in SeenKeys(a)
    {
      var j :| 0 <= j < i && Key(rows[..i][j]) != [] && Key(rows[..i][j]) == s;
      assert a[j] == rows[..i][j];
    }
    if Key(rows[i]) != [] {
      assert a[i] == rows[i];
    }
  }

  lemma DedupedStep(rows: seq<Provider>, i: int)
    requires 0 <= i < |rows|
    ensures Deduped(rows[..i + 1]) == Deduped(rows[..i]) + (if IsFirst(rows, i) then [Renamed(rows[i])] else [])
  {
    assert rows[..i + 1][..i] == rows[..i];
    IsFirstPrefix(rows, i + 1, i);
  }

  /** The dedup loop: a set of phones seen, and the rows whose phone is new. */
  method DedupRows(rows: seq<Provider>) returns (dedup: seq<Provider>)
    ensures dedup == Deduped(rows)
  {
    dedup := [];
    var seen: set<string> := {};
    var i := 0;
    while i < |rows|
      invariant 0 <= i <= |rows|
      invariant dedup == Deduped(rows[..i])
      invariant seen == SeenKeys(rows[..i])
    {
      DedupedStep(rows, i);
      SeenKeysStep(rows, i);
      IsFirstSeen(rows, i);
      var p := NormalizeE164Maybe(rows[i].phone);
      if p == [] || p in seen {
        i := i + 1;
        continue;
      }
      seen := seen + {p};
      dedup := dedup + [rows[i].(phone := p)];
      i := i + 1;
    }
    assert rows[..i] == rows;
  }

  /** The positions kept are increasing, in range, and exactly those of first rows. */
  lemma {:induction false} FirstIndicesSpec(rows: seq<Provider>)
    ensures forall j :: 0 <= j < |FirstIndices(rows)| ==> 0 <= FirstIndices(rows)[j] < |rows|
    ensures forall j, l :: 0 <= j < l < |FirstIndices(rows)| ==> FirstIndices(rows)[j] < FirstIndices(rows)[l]
    ensures forall i :: IsFirst(rows, i) <==> i in FirstIndices(rows)
  {
    if rows != [] {
      var n := |rows| - 1;
      var init := rows[..n];
      FirstIndicesSpec(init);
      forall i | 0 <= i < n
        ensures IsFirst(init, i) == IsFirst(rows, i)
      {
        IsFirstPrefix(rows, n, i);
      }
    }
  }

  /** The kept rows are the rows at the kept positions, renamed. */
  lemma {:induction false} DedupedAt(rows: seq<Provider>)
    ensures |Deduped(rows)| == |FirstIndices(rows)|
    ensures forall j :: 0 <= j < |FirstIndices(rows)| ==>
      0 <= FirstIndices(rows)[j] < |rows| && Deduped(rows)[j] == Renamed(rows[FirstIndices(rows)[j]])
  {
    if rows != [] {
      var n := |rows| - 1;
      var init := rows[..n];
      DedupedAt(init);
      var d, ix := Deduped(init), FirstIndices(init);
      forall j | 0 <= j < |ix|
        ensures Deduped(rows)[j] == Renamed(rows[FirstIndices(rows)[j]])
      {
        assert Deduped(rows)[j] == d[j] && FirstIndices(rows)[j] == ix[j];
        assert init[ix[j]] == rows[ix[j]];
      }
    }
  }

  /**
   * The rows kept are exactly the first rows of each phone, in input order, each with its
   * phone normalised.
   */
  lemma DedupedIndices(rows: seq<Provider>)
    ensures |Deduped(rows)| == |FirstIndices(rows)|
    ensures forall j :: 0 <= j < |FirstIndices(rows)| ==>
      0 <= FirstIndices(rows)[j] < |rows| && Deduped(rows)[j] == Renamed(rows[FirstIndices(rows)[j]])
    ensures forall j, l :: 0 <= j < l < |FirstIndices(rows)| ==> FirstIndices(rows)[j] < FirstIndices(rows)[l]
    ensures forall i :: IsFirst(rows, i) <==> i in FirstIndices(rows)
  {
    DedupedAt(rows);
    FirstIndicesSpec(rows);
  }

  /** Every row kept has a non-empty normalised phone, and no two rows kept share a phone. */
  lemma DedupDistinct(rows: seq<Provider>)
    ensures forall j :: 0 <= j < |Deduped(rows)| ==>
      Deduped(rows)[j].phone != [] && Deduped(rows)[j].phone == Key(Deduped(rows)[j])
    ensures forall j, l :: 0 <= j < l < |Deduped(rows)| ==> Deduped(rows)[j].phone != Deduped(rows)[l].phone
  {
    DedupedIndices(rows);
    var d := Deduped(rows);
    var ix := FirstIndices(rows);
    forall j | 0 <= j < |d|
      ensures d[j].phone != [] && d[j].phone == Key(d[j])
    {
      assert ix[j] in ix;
      NormalizeIdempotent(rows[ix[j]].phone);
    }
    forall j, l | 0 <= j < l < |d|
      ensures d[j].phone != d[l].phone
    {
      assert ix[l] in ix;
      assert IsFirst(rows, ix[l]);
    }
  }

  /** For every phone of the input, the row kept is its first row. */
  lemma DedupKeepsFirst(rows: seq<Provider>, i: int)
    requires IsFirst(rows, i)
    ensures Renamed(rows[i]) in Deduped(rows)
  {
    DedupedIndices(rows);
    var j :| 0 <= j < |FirstIndices(rows)| && FirstIndices(rows)[j] == i;
    assert Deduped(rows)[j] == Renamed(rows[i]);
  }

  /** Re-normalising the phones of loaded providers changes nothing. */
  lemma RenamedWellFormed(r: Provider)
    requires WellFormed(r)
    ensures Renamed(r) == r
  {
  }
}

/**
 * The field helpers of the provider feed: `firstVal`, `looksFalse`, `stateAbbrev` and
 * `toNum` (functions/_lib/state.js, lines 56-77).
 */
module Fields {
  import opened Wrappers
  import opened Text
  import opened Csv

  /** Column `k` is absent from the record or holds only white space. */
  predicate Blank(o: Record, k: string) {
    k !in o || Trim(o[k]) == []
  }

  /** `firstVal`: the trimmed value of the first alias column that is not blank. */
  function FirstVal(o: Record, ks: seq<string>): string {
    if ks == [] then ""
    else if !Blank(o, ks[0]) then Trim(o[ks[0]])
    else FirstVal(o, ks[1..])
  }

  /** `firstVal` gives "" exactly when every alias is blank. */
  lemma {:induction false} FirstValEmpty(o: Record, ks: seq<string>)
    ensures FirstVal(o, ks) == [] <==> forall i :: 0 <= i < |ks| ==> Blank(o, ks[i])
  {
    if ks != [] {
      FirstValEmpty(o, ks[1..]);
      assert forall i :: 1 <= i < |ks| ==> ks[i] == ks[1..][i - 1];
    }
  }

  /** When alias `i` is the first non-blank one, `firstVal` gives its trimmed value. */
  lemma {:induction false} FirstValPicksEarliest(o: Record, ks: seq<string>, i: int)
    requires 0 <= i < |ks| && !Blank(o, ks[i])
    requires forall j :: 0 <= j < i ==> Blank(o, ks[j])
    ensures FirstVal(o, ks) == Trim(o[ks[i]])
  {
    if i > 0 {
      assert Blank(o, ks[0]);
      FirstValPicksEarliest(o, ks[1..], i - 1);
    }
  }

  /** `firstVal` always gives trimmed text. */
  lemma {:induction false} FirstValTrimmed(o: Record, ks: seq<string>)
    ensures Trimmed(FirstVal(o, ks))
  {
    if ks != [] {
      if !Blank(o, ks[0]) {
        TrimShape(o[ks[0]]);
      } else {
        FirstValTrimmed(o, ks[1..]);
      }
    }
  }

  /** The spellings `looksFalse` reads as "inactive". */
  const FalseTokens: set<string> := {"false", "f", "no", "n", "0", "inactive", "disabled"}

  /** `looksFalse`: None stands for null or undefined. */
  predicate LooksFalse(v: Option<string>) {
    v.Some? && Lower(Trim(v.value)) in FalseTokens
  }

  /**
   * `looksFalse` ignores case and surrounding white space, and never holds for null or
   * for blank text.
   */
  lemma LooksFalseCanonical(v: string)
    ensures LooksFalse(Some(Upper(v))) == LooksFalse(Some(v))
    ensures LooksFalse(Some(Trim(v))) == LooksFalse(Some(v))
    ensures LooksFalse(Some(v)) ==> Trim(v) != []
    ensures !LooksFalse(None)
  {
    TrimCase(v);
    CaseRoundTrip(Trim(v));
    TrimIdempotent(v);
    if Trim(v) == [] {
      assert Lower(Trim(v)) == [];
    }
  }

  predicate IsUpperLetter(c: char) {
    'A' <= c <= 'Z'
  }

  /** A two-letter postal code. */
  type Code = s: string | |s| == 2 && IsUpperLetter(s[0]) && IsUpperLetter(s[1]) witness "DC"

  /** A full state name: every one is longer than a code. */
  type StateName = s: string | |s| >= 4 witness "OHIO"

  /**
   * Full state names, upper-case, with their two-letter postal codes: the 50 states and
   * the District of Columbia, in alphabetical order, in five parts.
   */
  const StateTable: seq<(StateName, Code)> :=
    StatesAToG + StatesHToM + StatesMToN + StatesNToS + StatesSToW

  const StatesAToG: seq<(StateName, Code)> := [
    ("ALABAMA", "AL"), ("ALASKA", "AK"), ("ARIZONA", "AZ"), ("ARKANSAS", "AR"),
    ("CALIFORNIA", "CA"), ("COLORADO", "CO"), ("CONNECTICUT", "CT"), ("DELAWARE", "DE"),
    ("DISTRICT OF COLUMBIA", "DC"), ("FLORIDA", "FL"), ("GEORGIA", "GA")
  ]

  const StatesHToM: seq<(StateName, Code)> := [
    ("HAWAII", "HI"), ("IDAHO", "ID"), ("ILLINOIS", "IL"), ("INDIANA", "IN"), ("IOWA", "IA"),
    ("KANSAS", "KS"), ("KENTUCKY", "KY"), ("LOUISIANA", "LA"), ("MAINE", "ME"), ("MARYLAND", "MD")
  ]

  const StatesMToN: seq<(StateName, Code)> := [
    ("MASSACHUSETTS", "MA"), ("MICHIGAN", "MI"), ("MINNESOTA", "MN"), ("MISSISSIPPI", "MS"),
    ("MISSOURI", "MO"), ("MONTANA", "MT"), ("NEBRASKA", "NE"), ("NEVADA", "NV"),
    ("NEW HAMPSHIRE", "NH"), ("NEW JERSEY", "NJ")
  ]

  const StatesNToS: seq<(StateName, Code)> := [
    ("NEW MEXICO", "NM"), ("NEW YORK", "NY"), ("NORTH CAROLINA", "NC"), ("NORTH DAKOTA", "ND"),
    ("OHIO", "OH"), ("OKLAHOMA", "OK"), ("OREGON", "OR"), ("PENNSYLVANIA", "PA"),
    ("RHODE ISLAND", "RI"), ("SOUTH CAROLINA", "SC")
  ]

  const StatesSToW: seq<(StateName, Code)> := [
    ("SOUTH DAKOTA", "SD"), ("TENNESSEE", "TN"), ("TEXAS", "TX"), ("UTAH", "UT"),
    ("VERMONT", "VT"), ("VIRGINIA", "VA"), ("WASHINGTON", "WA"), ("WEST VIRGINIA", "WV"),
    ("WISCONSIN", "WI"), ("WYOMING", "WY")
  ]

  /** The code of the first entry filed under `name`, if any. */
  function CodeOf(table: seq<(StateName, Code)>, name: string): (r: Option<Code>)
    ensures r.Some? ==> |name| >= 4
  {
    if table == [] then None
    else if table[0].0 == name then Some(table[0].1)
    else CodeOf(table[1..], name)
  }

  /** The lookup finds the first entry filed under a name. */
  lemma {:induction false} CodeOfFirst(table: seq<(StateName, Code)>, i: int)
    requires 0 <= i < |table|
    requires forall j :: 0 <= j < i ==> table[j].0 != table[i].0
    ensures CodeOf(table, table[i].0) == Some(table[i].1)
  {
    if i > 0 {
      CodeOfFirst(table[1..], i - 1);
    }
  }

  /** `stateAbbrev`: a full state name becomes its code, anything else is trimmed and upper-cased. */
  function StateAbbrev(s: string): string {
    if s == [] then ""
    else
      var v := Upper(Trim(s));
      match CodeOf(StateTable, v)
      case Some(code) => code
      case None => v
  }

  /** A code is its own upper-case form and is trimmed. */
  lemma CodeShape(c: Code)
    ensures Upper(c) == c && Trimmed(c)
  {
    assert Upper(c)[0] == UpperChar(c[0]) && Upper(c)[1] == UpperChar(c[1]);
  }

  /** Text that is not a state name comes back trimmed and upper-cased. */
  lemma UnknownShape(s: string)
    ensures var v := Upper(Trim(s)); Upper(v) == v && Trimmed(v)
  {
    UpperIdempotent(Trim(s));
    TrimShape(s);
    UpperKeepsTrimmed(Trim(s));
  }

  /** The result of `stateAbbrev` is upper-case and trimmed, and empty only for blank input. */
  lemma StateAbbrevShape(s: string)
    ensures var r := StateAbbrev(s); Upper(r) == r && Trimmed(r) && (r == [] <==> Trim(s) == [])
  {
    if s != [] {
      var v := Upper(Trim(s));
      match CodeOf(StateTable, v)
      case Some(c) => CodeShape(c);
      case None => UnknownShape(s);
    }
  }

  /** `stateAbbrev` is idempotent: a code or an unknown name comes back unchanged. */
  lemma StateAbbrevIdempotent(s: string)
    ensures StateAbbrev(StateAbbrev(s)) == StateAbbrev(s)
  {
    var r := StateAbbrev(s);
    StateAbbrevShape(s);
    if r != [] {
      TrimOfTrimmed(r);
      if CodeOf(StateTable, Upper(Trim(s))).Some? {
        assert |r| == 2;
      }
    }
  }

  /** `stateAbbrev` depends only on the trimmed, upper-cased text: case and padding do not matter. */
  lemma StateAbbrevCanonical(a: string, b: string)
    requires Upper(Trim(a)) == Upper(Trim(b))
    ensures StateAbbrev(a) == StateAbbrev(b)
  {
    assert Trim([]) == [];
  }

  /**
   * A full state name, in any case and with any padding, maps to its code (the first
   * entry filed under that name; the table's names are distinct).
   */
  lemma StateNameAnyCase(s: string, i: int)
    requires 0 <= i < |StateTable| && Upper(Trim(s)) == StateTable[i].0
    requires forall j :: 0 <= j < i ==> StateTable[j].0 != StateTable[i].0
    ensures StateAbbrev(s) == StateTable[i].1
  {
    assert s != [];
    CodeOfFirst(StateTable, i);
  }

  /** `toNum`: "" (and null) give null, any other text goes through `Number`. */
  function ToNum(v: string, number: string -> Option<real>): Option<real> {
    if v == [] then None else number(v)
  }
}

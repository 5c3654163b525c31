/**
 * `normalizeE164Maybe`: a best-effort phone form that imitates the leading `+` of
 * ITU-T E.164 (no length or country-code check). The canonical form is the key on which
 * the resolver deduplicates providers.
 *
 * The copy in functions/api/providers/nearby.js (lines 95-102) has its regular
 * expressions written with doubled backslashes; it is modelled as written in
 * `NearbyNormalizeE164Maybe` only to exhibit the difference. Everything else in the model
 * uses `NormalizeE164Maybe`, the functions/_lib/state.js version.
 */
module Phone {
  import opened Text

  /** The character class `[()\s,-]` that the normaliser deletes. */
  predicate IsPunct(c: char) {
    c == '(' || c == ')' || IsSpace(c) || c == ',' || c == '-'
  }

  /** `s.replace(/[()\s,-]/g, "")`. */
  function StripPunct(s: string): string {
    if s == [] then [] else (if IsPunct(s[0]) then [] else [s[0]]) + StripPunct(s[1..])
  }

  /** None of the deleted characters occurs in `s`. */
  predicate Clean(s: string) {
    forall i :: 0 <= i < |s| ==> !IsPunct(s[i])
  }

  /** The branches of the normaliser after stripping: `+` kept, `00` to `+`, digits gain `+`. */
  function Canon(p: string): string {
    if StartsWith(p, "+") then p
    else if StartsWith(p, "00") then "+" + p[2..]
    else if AllDigits(p) then "+" + p
    else p
  }

  /** The phone normaliser of functions/_lib/state.js; `!num` is the empty string. */
  function NormalizeE164Maybe(num: string): string {
    if num == [] then [] else Canon(StripPunct(Trim(num)))
  }

  lemma {:induction false} StripPunctClean(s: string)
    ensures Clean(StripPunct(s))
  {
    if s != [] {
      StripPunctClean(s[1..]);
      var h: string := if IsPunct(s[0]) then [] else [s[0]];
      assert StripPunct(s) == h + StripPunct(s[1..]);
    }
  }

  lemma {:induction false} StripConcat(a: string, b: string)
    ensures StripPunct(a + b) == StripPunct(a) + StripPunct(b)
  {
    if a == [] {
      assert a + b == b;
    } else {
      assert (a + b)[1..] == a[1..] + b;
      StripConcat(a[1..], b);
    }
  }

  lemma {:induction false} StripSpaces(s: string)
    requires forall i :: 0 <= i < |s| ==> IsSpace(s[i])
    ensures StripPunct(s) == []
  {
    if s != [] {
      assert IsPunct(s[0]);
      StripSpaces(s[1..]);
    }
  }

  lemma {:induction false} StripClean(s: string)
    requires Clean(s)
    ensures StripPunct(s) == s
  {
    if s != [] {
      StripClean(s[1..]);
    }
  }

  lemma {:induction false} StripTrimStart(s: string)
    ensures StripPunct(TrimStart(s)) == StripPunct(s)
  {
    if s != [] && IsSpace(s[0]) {
      assert IsPunct(s[0]);
      StripTrimStart(s[1..]);
    }
  }

  lemma {:induction false} StripTrimEnd(s: string)
    ensures StripPunct(TrimEnd(s)) == StripPunct(s)
  {
    if s != [] && IsSpace(s[|s| - 1]) {
      var init := s[..|s| - 1];
      assert s == init + [s[|s| - 1]];
      StripConcat(init, [s[|s| - 1]]);
      assert IsPunct(s[|s| - 1]);
      assert StripPunct([s[|s| - 1]]) == [];
      StripTrimEnd(init);
    }
  }

  /** Trimming before stripping changes nothing: trimmed white space is stripped anyway. */
  lemma StripTrim(s: string)
    ensures StripPunct(Trim(s)) == StripPunct(s)
  {
    StripTrimStart(s);
    StripTrimEnd(TrimStart(s));
  }

  /** The normalised form of a number is what `Canon` makes of its stripped text. */
  lemma NormalizeStripped(num: string)
    requires num != []
    ensures NormalizeE164Maybe(num) == Canon(StripPunct(num))
  {
    StripTrim(num);
  }

  lemma CanonClean(p: string)
    requires Clean(p)
    ensures Clean(Canon(p))
    ensures Canon(p) == [] <==> p == []
  {
    var r := Canon(p);
    if !StartsWith(p, "+") && StartsWith(p, "00") {
      assert forall i :: 1 <= i < |r| ==> r[i] == p[i + 1];
    } else if !StartsWith(p, "+") && AllDigits(p) {
      assert forall i :: 1 <= i < |r| ==> r[i] == p[i - 1];
    }
  }

  lemma CanonIdempotent(p: string)
    ensures Canon(Canon(p)) == Canon(p)
  {
    if !StartsWith(p, "+") && StartsWith(p, "00") {
      assert StartsWith(Canon(p), "+");
    } else if !StartsWith(p, "+") && AllDigits(p) {
      assert StartsWith(Canon(p), "+");
    }
  }

  /**
   * The normal form holds none of the deleted characters, and it is empty exactly when
   * the input holds nothing else.
   */
  lemma NormalizeShape(num: string)
    ensures Clean(NormalizeE164Maybe(num))
    ensures NormalizeE164Maybe(num) == [] <==> StripPunct(num) == []
  {
    if num != [] {
      NormalizeStripped(num);
      StripPunctClean(num);
      CanonClean(StripPunct(num));
    }
  }

  /** Normalising an already normalised number leaves it unchanged; the resolver re-normalises. */
  lemma NormalizeIdempotent(num: string)
    ensures NormalizeE164Maybe(NormalizeE164Maybe(num)) == NormalizeE164Maybe(num)
  {
    var r := NormalizeE164Maybe(num);
    if r != [] {
      NormalizeShape(num);
      NormalizeStripped(num);
      NormalizeStripped(r);
      StripClean(r);
      CanonIdempotent(StripPunct(num));
    }
  }

  /**
   * Two spellings that differ only in parentheses, white space, commas and hyphens
   * normalise to the same phone, so the resolver treats them as one provider.
   */
  lemma PunctuationInsensitive(a: string, b: string)
    requires a != [] && b != []
    requires StripPunct(a) == StripPunct(b)
    ensures NormalizeE164Maybe(a) == NormalizeE164Maybe(b)
  {
    NormalizeStripped(a);
    NormalizeStripped(b);
  }

  /** A leading international prefix `00` becomes `+`. */
  lemma LeadingZeroZero(num: string, rest: string)
    requires StripPunct(num) == "00" + rest
    ensures NormalizeE164Maybe(num) == "+" + rest
  {
    assert num != [];
    NormalizeStripped(num);
    var p := StripPunct(num);
    assert p[..2] == "00" && p[2..] == rest;
  }

  /** A number made only of digits (after stripping) gains a leading `+`. */
  lemma DigitsGainPlus(num: string)
    requires AllDigits(StripPunct(num))
    requires !StartsWith(StripPunct(num), "00")
    ensures NormalizeE164Maybe(num) == "+" + StripPunct(num)
  {
    var p := StripPunct(num);
    assert StripPunct([]) == [];
    NormalizeStripped(num);
    assert IsDigit(p[0]) && p[..1] == [p[0]];
    assert Canon(p) == "+" + p;
  }

  // ---------------------------------------------------------------------------------
  // The nearby.js copy, as written. `/[()\\s,-]/g` is a class of the six characters
  // ( ) \ s , - so it deletes the letter s and keeps white space; `/^\\d+$/` matches a
  // backslash followed by letters d, which can never remain after the backslash is
  // deleted, so no all-digit number gains its `+`.
  // ---------------------------------------------------------------------------------

  predicate IsPunctAsWritten(c: char) {
    c == '(' || c == ')' || c == '\\' || c == 's' || c == ',' || c == '-'
  }

  function StripPunctAsWritten(s: string): (r: string)
    ensures '\\' !in r
  {
    if s == [] then [] else (if IsPunctAsWritten(s[0]) then [] else [s[0]]) + StripPunctAsWritten(s[1..])
  }

  /** The pattern `^\\d+$` read literally: a backslash then one or more letters d. */
  predicate BackslashDs(p: string) {
    |p| >= 2 && p[0] == '\\' && forall i :: 1 <= i < |p| ==> p[i] == 'd'
  }

  /** The branches of the as-written copy after stripping. */
  function NearbyCanon(p: string): string {
    if StartsWith(p, "+") then p
    else if StartsWith(p, "00") then "+" + p[2..]
    else if BackslashDs(p) then "+" + p
    else p
  }

  /** normalizeE164Maybe as written in functions/api/providers/nearby.js. */
  function NearbyNormalizeE164Maybe(num: string): string {
    if num == [] then [] else NearbyCanon(StripPunctAsWritten(Trim(num)))
  }

  /** A stripped number that starts with a digit but not with `00` passes through unchanged. */
  lemma NearbyCanonDigitLed(p: string)
    requires p != [] && IsDigit(p[0]) && !StartsWith(p, "00")
    ensures NearbyCanon(p) == p
  {
  }

  /** The all-digits branch of the as-written copy is dead: it never adds a `+`. */
  lemma NearbyDigitTestNeverMatches(num: string)
    ensures !BackslashDs(StripPunctAsWritten(Trim(num)))
  {
  }

  lemma {:induction false} StripAsWrittenConcat(a: string, b: string)
    ensures StripPunctAsWritten(a + b) == StripPunctAsWritten(a) + StripPunctAsWritten(b)
  {
    if a == [] {
      assert a + b == b;
    } else {
      assert (a + b)[1..] == a[1..] + b;
      StripAsWrittenConcat(a[1..], b);
    }
  }

  lemma {:induction false} StripAsWrittenDigits(s: string)
    requires forall i :: 0 <= i < |s| ==> IsDigit(s[i])
    ensures StripPunctAsWritten(s) == s
  {
    if s != [] {
      StripAsWrittenDigits(s[1..]);
    }
  }

  lemma StripAsWrittenKeepsSpace(x: string, y: string)
    requires AllDigits(x) && AllDigits(y)
    ensures StripPunctAsWritten(x + " " + y) == x + " " + y
  {
    StripAsWrittenConcat(x + " ", y);
    StripAsWrittenConcat(x, " ");
    StripAsWrittenDigits(x);
    StripAsWrittenDigits(y);
    assert StripPunctAsWritten(" ") == " ";
  }

  /** On text with nothing to trim or strip, the as-written copy only applies its branches. */
  lemma NearbyNormalizeUnstripped(p: string)
    requires p != [] && Trimmed(p) && StripPunctAsWritten(p) == p
    ensures NearbyNormalizeE164Maybe(p) == NearbyCanon(p)
  {
    TrimOfTrimmed(p);
  }

  lemma SpacedDigitsShape(x: string, y: string)
    requires AllDigits(x) && AllDigits(y) && x[0] != '0'
    ensures Trimmed(x + " " + y) && NearbyCanon(x + " " + y) == x + " " + y
  {
    var spaced := x + " " + y;
    assert spaced[0] == x[0] && spaced[|spaced| - 1] == y[|y| - 1];
    NearbyCanonDigitLed(spaced);
  }

  lemma NearbyKeepsDigitsAndSpace(x: string, y: string)
    requires AllDigits(x) && AllDigits(y) && x[0] != '0'
    ensures NearbyNormalizeE164Maybe(x + " " + y) == x + " " + y
  {
    var spaced := x + " " + y;
    SpacedDigitsShape(x, y);
    StripAsWrittenKeepsSpace(x, y);
    NearbyNormalizeUnstripped(spaced);
  }

  lemma NearbyKeepsDigits(x: string)
    requires AllDigits(x) && x[0] != '0'
    ensures NearbyNormalizeE164Maybe(x) == x
  {
    assert IsDigit(x[0]) && IsDigit(x[|x| - 1]);
    TrimOfTrimmed(x);
    StripAsWrittenDigits(x);
    NearbyCanonDigitLed(x);
  }

  lemma SpacedDigitsCollapse(x: string, y: string)
    ensures NormalizeE164Maybe(x + " " + y) == NormalizeE164Maybe(x + y)
  {
    assert StripPunct(x + " " + y) == StripPunct(x + y) by {
      StripConcat(x + " ", y);
      StripConcat(x, " ");
      StripConcat(x, y);
      assert StripPunct(" ") == [];
    }
    if x + y != [] {
      PunctuationInsensitive(x + " " + y, x + y);
    } else {
      assert x + " " + y == " ";
      NormalizeStripped(" ");
    }
  }

  /**
   * A number written as two digit groups separated by a space, and the same digits
   * written together: the state.js normaliser gives both the same phone, the nearby.js
   * copy keeps the space and adds no `+`, so nearby.js sees two different providers
   * (for instance "555 0001" and "5550001").
   */
  lemma NearbySpacedDigitsDiffer(x: string, y: string)
    requires AllDigits(x) && AllDigits(y) && x[0] != '0'
    ensures NearbyNormalizeE164Maybe(x + " " + y) == x + " " + y
    ensures NearbyNormalizeE164Maybe(x + y) == x + y
    ensures NearbyNormalizeE164Maybe(x + " " + y) != NearbyNormalizeE164Maybe(x + y)
    ensures NormalizeE164Maybe(x + " " + y) == NormalizeE164Maybe(x + y)
  {
    NearbyKeepsDigitsAndSpace(x, y);
    NearbyKeepsDigits(x + y);
    assert (x + " " + y)[|x|] != (x + y)[|x|];
    SpacedDigitsCollapse(x, y);
  }
}

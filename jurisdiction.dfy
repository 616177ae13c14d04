/**
 * The jurisdiction helpers: the test that keeps a street label out of the
 * map when it names an interstate, a numbered US or state route, a pike, a
 * parkway or a highway, and the pick of the first non-blank label among
 * candidate attribute names.
 *
 * The regular expressions are case-insensitive without the `u` flag, so
 * letters fold on ASCII only; `\b` is the boundary between a word character
 * `[A-Za-z0-9_]` and anything else, `\s` the white-space set of `Text.IsSpace`
 * and `\d` an ASCII digit.
 */
module Jurisdiction {
  import opened Geo
  import opened Text

  predicate IsWordChar(c: char)
  {
    ('a' <= c <= 'z') || ('A' <= c <= 'Z') || ('0' <= c <= '9') || c == '_'
  }

  /** `\b` at position `i` of `s`. */
  predicate BoundaryAt(s: string, i: int)
    requires 0 <= i <= |s|
  {
    (i > 0 && IsWordChar(s[i - 1])) != (i < |s| && IsWordChar(s[i]))
  }

  /** The lower-case literal `w` matches `s` at `i`, letters compared without case. */
  predicate LiteralAt(s: string, i: int, w: string)
    requires 0 <= i
  {
    i + |w| <= |s| && Lower(s[i..i + |w|]) == w
  }

  predicate DigitAt(s: string, i: int)
    requires 0 <= i
  {
    i < |s| && IsDigit(s[i])
  }

  predicate SpaceAt(s: string, i: int)
    requires 0 <= i
  {
    i < |s| && IsSpace(s[i])
  }

  /** `-?\s?\d+` starting at `j`: the only ways to reach the first digit. */
  predicate NumberTailAt(s: string, j: int)
    requires 0 <= j
  {
    DigitAt(s, j) ||
    (SpaceAt(s, j) && DigitAt(s, j + 1)) ||
    (j < |s| && s[j] == '-' && DigitAt(s, j + 1)) ||
    (j < |s| && s[j] == '-' && SpaceAt(s, j + 1) && DigitAt(s, j + 2))
  }

  /** `\bP-?\s?\d+` at `i`, for a route prefix `P` such as `I`, `US` or `SR`. */
  predicate RouteNumberAt(s: string, i: int, prefix: string)
    requires 0 <= i <= |s|
  {
    BoundaryAt(s, i) && LiteralAt(s, i, prefix) && NumberTailAt(s, i + |prefix|)
  }

  /** `\bW\b` at `i`, for a whole word `W`. */
  predicate WholeWordAt(s: string, i: int, w: string)
    requires 0 <= i <= |s|
  {
    BoundaryAt(s, i) && LiteralAt(s, i, w) && BoundaryAt(s, i + |w|)
  }

  /** Some excluded route pattern matches `s` starting at `i`. */
  predicate ExcludedAt(s: string, i: int)
    requires 0 <= i <= |s|
  {
    RouteNumberAt(s, i, "i") ||
    WholeWordAt(s, i, "interstate") ||
    RouteNumberAt(s, i, "us") ||
    (BoundaryAt(s, i) && LiteralAt(s, i, "u.s.") && (DigitAt(s, i + 4) || (SpaceAt(s, i + 4) && DigitAt(s, i + 5)))) ||
    RouteNumberAt(s, i, "sr") ||
    WholeWordAt(s, i, "state route") ||
    RouteNumberAt(s, i, "tn") ||
    WholeWordAt(s, i, "pike") ||
    WholeWordAt(s, i, "briley") ||
    WholeWordAt(s, i, "parkway") ||
    WholeWordAt(s, i, "hwy") ||
    WholeWordAt(s, i, "highway")
  }

  predicate MatchesExcludedRoute(s: string)
  {
    exists i :: 0 <= i <= |s| && ExcludedAt(s, i)
  }

  /**
   * `isMetroJurisdictionLabel`: a value that is not a string (`None`) or a
   * blank string passes; any other string passes exactly when no excluded
   * route pattern matches anywhere in it.
   */
  predicate IsMetroJurisdictionLabel(value: Option<string>)
  {
    match value
    case None => true
    case Some(s) => AllSpace(s) || !MatchesExcludedRoute(s)
  }

  /** A label with a whole word "Pike" in it is a state route, whatever surrounds it. */
  lemma {:induction false} PikeLabelExcluded(before: string, after: string)
    requires |after| == 0 || !IsWordChar(after[0])
    ensures !IsMetroJurisdictionLabel(Some(before + " Pike" + after))
  {
    var s := before + " Pike" + after;
    var i := |before| + 1;
    assert s[i..i + 4] == "Pike";
    assert Lower(s[i..i + 4]) == "pike";
    assert s[i - 1] == ' ';
    assert WholeWordAt(s, i, "pike");
    assert ExcludedAt(s, i);
    assert s[i] == 'P' && !IsSpace(s[i]);
  }

  lemma LiteralFirstChar(s: string, i: int, w: string)
    requires 0 <= i && |w| > 0
    ensures LiteralAt(s, i, w) ==> LowerChar(s[i]) == w[0]
  {
    if LiteralAt(s, i, w) {
      assert Lower(s[i..i + |w|])[0] == LowerChar(s[i]);
    }
  }

  /** Inside a word there is no `\b`, so no excluded pattern starts there. */
  lemma InsideWordNotExcluded(s: string, i: int)
    requires 0 < i < |s| && IsWordChar(s[i - 1]) && IsWordChar(s[i])
    ensures !ExcludedAt(s, i)
  {
  }

  /** No excluded pattern starts with a character other than i, u, s, t, p, b or h. */
  lemma OtherLetterNotExcluded(s: string, i: int)
    requires 0 <= i < |s|
    requires var c := LowerChar(s[i]); c != 'i' && c != 'u' && c != 's' && c != 't' && c != 'p' && c != 'b' && c != 'h'
    ensures !ExcludedAt(s, i)
  {
    LiteralFirstChar(s, i, "i");
    LiteralFirstChar(s, i, "interstate");
    LiteralFirstChar(s, i, "us");
    LiteralFirstChar(s, i, "u.s.");
    LiteralFirstChar(s, i, "sr");
    LiteralFirstChar(s, i, "state route");
    LiteralFirstChar(s, i, "tn");
    LiteralFirstChar(s, i, "pike");
    LiteralFirstChar(s, i, "briley");
    LiteralFirstChar(s, i, "parkway");
    LiteralFirstChar(s, i, "hwy");
    LiteralFirstChar(s, i, "highway");
  }

  /** A word that only ends in "pike" is not the word Pike, so "Turnpike Rd" passes. */
  lemma TurnpikePasses()
    ensures IsMetroJurisdictionLabel(Some("Turnpike Rd"))
  {
    var s := "Turnpike Rd";
    forall i | 0 <= i <= |s| ensures !ExcludedAt(s, i) {
      if i == 0 {
        assert s[0..2] == "Tu";
        assert Lower("Tu") == "tu";
        LiteralFirstChar(s, i, "i");
        LiteralFirstChar(s, i, "interstate");
        LiteralFirstChar(s, i, "us");
        LiteralFirstChar(s, i, "u.s.");
        LiteralFirstChar(s, i, "sr");
        LiteralFirstChar(s, i, "state route");
        LiteralFirstChar(s, i, "pike");
        LiteralFirstChar(s, i, "briley");
        LiteralFirstChar(s, i, "parkway");
        LiteralFirstChar(s, i, "hwy");
        LiteralFirstChar(s, i, "highway");
      } else if i == 8 || i == 9 {
        OtherLetterNotExcluded(s, i);
      } else if i < |s| {
        InsideWordNotExcluded(s, i);
      }
    }
  }

  lemma InterstateNumberExcluded()
    ensures !IsMetroJurisdictionLabel(Some("I-40"))
  {
    var s := "I-40";
    assert Lower(s[0..1]) == "i";
    assert RouteNumberAt(s, 0, "i");
    assert ExcludedAt(s, 0);
  }

  /** `properties?.[key]` is a string with content. */
  predicate HasLabel(properties: Option<Properties>, key: string)
  {
    properties.Some? && Get(properties.value, key).Some? && Get(properties.value, key).value.Str? &&
    !AllSpace(Get(properties.value, key).value.s)
  }

  /**
   * `pickFirstMatchingProperty`: the trimmed value of the first candidate
   * key whose value is a string with non-white-space content, else `null`.
   */
  function PickFirstMatchingProperty(properties: Option<Properties>, candidates: seq<string>): (r: Option<string>)
    ensures r.Some? ==> |r.value| > 0 && !IsSpace(r.value[0]) && !IsSpace(r.value[|r.value| - 1])
  {
    if |candidates| == 0 then None
    else if HasLabel(properties, candidates[0]) then Some(Trim(Get(properties.value, candidates[0]).value.s))
    else PickFirstMatchingProperty(properties, candidates[1..])
  }

  /**
   * The pick is the first qualifying candidate in candidate order: `null`
   * exactly when none qualifies, otherwise the trimmed value of a
   * qualifying key before which no candidate qualifies.
   */
  lemma {:induction false} PickFirstIsFirstQualifying(properties: Option<Properties>, candidates: seq<string>)
    ensures var r := PickFirstMatchingProperty(properties, candidates);
      (r.None? <==> forall k :: 0 <= k < |candidates| ==> !HasLabel(properties, candidates[k])) &&
      (r.Some? ==>
         exists k :: 0 <= k < |candidates| && HasLabel(properties, candidates[k]) &&
           (forall j :: 0 <= j < k ==> !HasLabel(properties, candidates[j])) &&
           r.value == Trim(Get(properties.value, candidates[k]).value.s))
  {
    if |candidates| > 0 && !HasLabel(properties, candidates[0]) {
      var tail := candidates[1..];
      PickFirstIsFirstQualifying(properties, tail);
      var r := PickFirstMatchingProperty(properties, tail);
      if r.Some? {
        var k :| 0 <= k < |tail| && HasLabel(properties, tail[k]) &&
          (forall j :: 0 <= j < k ==> !HasLabel(properties, tail[j])) &&
          r.value == Trim(Get(properties.value, tail[k]).value.s);
        assert candidates[k + 1] == tail[k];
        forall j | 0 <= j < k + 1 ensures !HasLabel(properties, candidates[j]) {
          if j > 0 { assert candidates[j] == tail[j - 1]; }
        }
      } else {
        forall k | 0 <= k < |candidates| ensures !HasLabel(properties, candidates[k]) {
          if k > 0 { assert candidates[k] == tail[k - 1]; }
        }
      }
    }
  }
}

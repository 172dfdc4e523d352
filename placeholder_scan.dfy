/**
 * `Array.from(bodyText.matchAll(/\{\{(\d+)\}\}/g))`: the placeholders of a body text, in
 * left-to-right order, each with its position and the digits between the braces.
 */
module PlaceholderScan {
  import opened JsStrings

  datatype Placeholder = Placeholder(position: nat, digits: string)

  /**
   * The pattern matches at `p`: two opening braces, the maximal run of ASCII digits
   * (at least one) and two closing braces. Backtracking into the greedy `\d+` cannot
   * help, since a shorter run is followed by a digit rather than a brace.
   */
  predicate PlaceholderAt(s: string, p: nat) {
    p + 2 <= |s| && s[p] == '{' && s[p + 1] == '{' &&
    var k := DigitRun(s, p + 2);
    k > 0 && p + k + 4 <= |s| && s[p + 2 + k] == '}' && s[p + 3 + k] == '}'
  }

  /** The capture group `(\d+)` of the match at `p`. */
  function DigitsAt(s: string, p: nat): (d: string)
    requires PlaceholderAt(s, p)
    ensures |d| > 0 && AllDigits(d)
  {
    s[p + 2..p + 2 + DigitRun(s, p + 2)]
  }

  /** Length of the whole match at `p`. */
  function MatchLength(s: string, p: nat): nat
    requires PlaceholderAt(s, p)
  {
    DigitRun(s, p + 2) + 4
  }

  /** The global scan from `from`: after a match it resumes right after it, otherwise one character on. */
  function MatchesFrom(s: string, from: nat): (ms: seq<Placeholder>)
    requires from <= |s|
    decreases |s| - from
    ensures forall i :: 0 <= i < |ms| ==>
      from <= ms[i].position && PlaceholderAt(s, ms[i].position) && ms[i].digits == DigitsAt(s, ms[i].position)
    ensures forall i :: 0 <= i < |ms| - 1 ==>
      ms[i].position + MatchLength(s, ms[i].position) <= ms[i + 1].position
  {
    if from == |s| then []
    else if PlaceholderAt(s, from) then
      [Placeholder(from, DigitsAt(s, from))] + MatchesFrom(s, from + MatchLength(s, from))
    else MatchesFrom(s, from + 1)
  }

  /** All matches of the body text. */
  function Matches(s: string): seq<Placeholder> {
    MatchesFrom(s, 0)
  }

  /** Inside a match there is no second `{{`: a placeholder cannot start within another one. */
  lemma NoPlaceholderInside(s: string, p: nat, q: nat)
    requires PlaceholderAt(s, p) && p < q < p + MatchLength(s, p)
    ensures !PlaceholderAt(s, q)
  {
    var k := DigitRun(s, p + 2);
    if q == p + 1 {
      assert IsDigit(s[p + 2]) by { assert s[p + 2..p + 2 + k][0] == s[p + 2]; }
    } else if q < p + 2 + k {
      assert IsDigit(s[q]) by { assert s[p + 2..p + 2 + k][q - (p + 2)] == s[q]; }
    }
  }

  /** Some match of `ms` starts at `p`. */
  predicate HasMatchAt(ms: seq<Placeholder>, p: nat) {
    exists i :: 0 <= i < |ms| && ms[i].position == p
  }

  lemma HasMatchAtCons(m: Placeholder, ms: seq<Placeholder>, p: nat)
    requires HasMatchAt(ms, p)
    ensures HasMatchAt([m] + ms, p)
  {
    var i :| 0 <= i < |ms| && ms[i].position == p;
    assert ([m] + ms)[i + 1] == ms[i];
  }

  /** A scan that starts on a placeholder records it and resumes right after it. */
  lemma MatchesFromMatch(s: string, from: nat)
    requires from <= |s| && PlaceholderAt(s, from)
    ensures MatchesFrom(s, from) ==
      [Placeholder(from, DigitsAt(s, from))] + MatchesFrom(s, from + MatchLength(s, from))
  {
  }

  /** Every placeholder at or after `from` is one of the matches of the scan from `from`. */
  lemma {:induction false} MatchesFromComplete(s: string, from: nat, p: nat)
    requires from <= p && from <= |s| && PlaceholderAt(s, p)
    decreases |s| - from
    ensures HasMatchAt(MatchesFrom(s, from), p)
  {
    if PlaceholderAt(s, from) {
      var m, next := Placeholder(from, DigitsAt(s, from)), from + MatchLength(s, from);
      MatchesFromMatch(s, from);
      if p == from {
        assert MatchesFrom(s, from)[0] == m;
      } else {
        if p < next {
          NoPlaceholderInside(s, from, p);
        }
        MatchesFromComplete(s, next, p);
        HasMatchAtCons(m, MatchesFrom(s, next), p);
      }
    } else {
      assert MatchesFrom(s, from) == MatchesFrom(s, from + 1);
      MatchesFromComplete(s, from + 1, p);
    }
  }

  /**
   * The scan finds exactly the placeholder occurrences of the text, strictly left to right.
   */
  lemma MatchesExact(s: string)
    ensures forall i, j :: 0 <= i < j < |Matches(s)| ==> Matches(s)[i].position < Matches(s)[j].position
    ensures forall p: nat :: PlaceholderAt(s, p) <==> exists i :: 0 <= i < |Matches(s)| && Matches(s)[i].position == p
  {
    var ms := Matches(s);
    forall i, j | 0 <= i < j < |ms| ensures ms[i].position < ms[j].position {
      StrictlyIncreasing(s, ms, i, j);
    }
    forall p: nat | PlaceholderAt(s, p)
      ensures exists i :: 0 <= i < |ms| && ms[i].position == p
    {
      MatchesFromComplete(s, 0, p);
    }
  }

  lemma {:induction false} StrictlyIncreasing(s: string, ms: seq<Placeholder>, i: nat, j: nat)
    requires ms == Matches(s) && i < j < |ms|
    decreases j - i
    ensures ms[i].position < ms[j].position
  {
    if j > i + 1 {
      StrictlyIncreasing(s, ms, i + 1, j);
    }
  }

  /** A body text yields no match exactly when it holds no `{{digits}}` occurrence. */
  lemma NoMatchIffNoPlaceholder(s: string)
    ensures Matches(s) == [] <==> forall p: nat :: !PlaceholderAt(s, p)
  {
    MatchesExact(s);
    var ms := Matches(s);
    if ms != [] {
      assert PlaceholderAt(s, ms[0].position);
    }
  }

  /** A one-digit placeholder `{{d}}` at `p` is matched there, and the scan resumes right after it. */
  lemma OneDigitPlaceholder(s: string, p: nat, d: char)
    requires p + 5 <= |s| && IsDigit(d)
    requires s[p] == '{' && s[p + 1] == '{' && s[p + 2] == d && s[p + 3] == '}' && s[p + 4] == '}'
    ensures MatchesFrom(s, p) == [Placeholder(p, [d])] + MatchesFrom(s, p + 5)
  {
    assert DigitRun(s, p + 3) == 0;
    assert DigitRun(s, p + 2) == 1;
    assert PlaceholderAt(s, p);
    assert DigitsAt(s, p) == [d] && MatchLength(s, p) == 5;
    MatchesFromMatch(s, p);
  }
}

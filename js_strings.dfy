/**
 * The JavaScript string built-ins the template pipeline relies on:
 * `trim`, `toLowerCase`, `toUpperCase`, `indexOf`/`includes`, `replace` (first
 * occurrence), `String(n)` for a non-negative integer and `parseInt`.
 * Strings are `seq<char>`, one element per Unicode scalar value. JavaScript measures
 * strings in UTF-16 code units, where a character above U+FFFF takes two; `Utf16Length`
 * gives that measure wherever the code compares a length or counts positions.
 */
module JsStrings {
  import opened Wrappers

  // ---------------------------------------------------------------------------
  // Characters
  // ---------------------------------------------------------------------------

  predicate IsDigit(c: char) { '0' <= c <= '9' }

  predicate AllDigits(s: string) { forall i :: 0 <= i < |s| ==> IsDigit(s[i]) }

  function DigitValue(c: char): nat
    requires IsDigit(c)
  {
    c as int - '0' as int
  }

  function DigitChar(d: nat): (c: char)
    requires d < 10
    ensures IsDigit(c) && DigitValue(c) == d
  {
    ('0' as int + d) as char
  }

  /** The characters `String.prototype.trim` removes: white space and line terminators. */
  predicate IsSpace(c: char) {
    c in {' ', '\t', '\n', '\r', '\U{B}', '\U{C}', '\U{A0}', '\U{FEFF}', '\U{1680}',
          '\U{2000}', '\U{2001}', '\U{2002}', '\U{2003}', '\U{2004}', '\U{2005}', '\U{2006}',
          '\U{2007}', '\U{2008}', '\U{2009}', '\U{200A}', '\U{2028}', '\U{2029}', '\U{202F}',
          '\U{205F}', '\U{3000}'}
  }

  /** Upper-case letters of the Basic Latin and Latin-1 blocks (× is not a letter). */
  predicate IsUpper(c: char) {
    ('A' <= c <= 'Z') || ('\U{C0}' <= c <= '\U{DE}' && c != '\U{D7}')
  }

  /** Lower-case letters of the Basic Latin and Latin-1 blocks whose upper case is 32 places down (not ß, ÿ, µ; ÷ is no letter). */
  predicate IsLower(c: char) {
    ('a' <= c <= 'z') || ('\U{E0}' <= c <= '\U{FE}' && c != '\U{F7}')
  }

  function ToLowerChar(c: char): (r: char)
    ensures !IsUpper(r)
    ensures IsUpper(c) ==> IsLower(r) && r as int == c as int + 32
    ensures !IsUpper(c) ==> r == c
  {
    if IsUpper(c) then (c as int + 32) as char else c
  }

  function ToUpperChar(c: char): (r: char)
    ensures !IsLower(r)
    ensures IsLower(c) ==> IsUpper(r) && r as int == c as int - 32
    ensures !IsLower(c) ==> r == c
  {
    if IsLower(c) then (c as int - 32) as char else c
  }

  // ---------------------------------------------------------------------------
  // Case mapping
  // ---------------------------------------------------------------------------

  /** `s.toLowerCase()`: the same length, every letter mapped to lower case. */
  function ToLower(s: string): (r: string)
    ensures |r| == |s|
    ensures forall i :: 0 <= i < |s| ==> r[i] == ToLowerChar(s[i])
  {
    seq(|s|, i requires 0 <= i < |s| => ToLowerChar(s[i]))
  }

  /** The characters `toUpperCase` leaves unchanged, within the Basic Latin and Latin-1 scope. */
  predicate UpperFixed(c: char) {
    !IsLower(c) && c != '\U{DF}' && c != '\U{FF}' && c != '\U{B5}'
  }

  /**
   * The upper case of one character: ß becomes "SS", ÿ becomes Ÿ (U+0178), µ becomes the
   * Greek capital mu (U+039C), and the other lower-case letters move 32 places down.
   */
  function UpperOf(c: char): (r: string)
    ensures 1 <= |r| <= 2 && (c != '\U{DF}' <==> |r| == 1)
    ensures forall k :: 0 <= k < |r| ==> UpperFixed(r[k])
    ensures UpperFixed(c) ==> r == [c]
  {
    if c == '\U{DF}' then "SS"
    else if c == '\U{FF}' then "\U{178}"
    else if c == '\U{B5}' then "\U{39C}"
    else [ToUpperChar(c)]
  }

  /**
   * `s.toUpperCase()`: every character replaced by its upper case. Only ß lengthens the
   * string; without it the result maps character to character.
   */
  function ToUpper(s: string): (r: string)
    ensures |r| >= |s|
    ensures forall k :: 0 <= k < |r| ==> UpperFixed(r[k])
    ensures '\U{DF}' !in s ==> |r| == |s| && forall i :: 0 <= i < |s| ==> [r[i]] == UpperOf(s[i])
  {
    if s == [] then []
    else
      var init := s[..|s| - 1];
      assert forall c :: c in init ==> c in s;
      ToUpper(init) + UpperOf(s[|s| - 1])
  }

  /** A string of characters `toUpperCase` leaves alone is its own upper case. */
  lemma {:induction false} ToUpperOfFixed(s: string)
    requires forall k :: 0 <= k < |s| ==> UpperFixed(s[k])
    ensures ToUpper(s) == s
  {
    if s != [] {
      ToUpperOfFixed(s[..|s| - 1]);
      assert s[..|s| - 1] + [s[|s| - 1]] == s;
    }
  }

  /** Upper-casing twice is upper-casing once. */
  lemma ToUpperIdempotent(s: string)
    ensures ToUpper(ToUpper(s)) == ToUpper(s)
  {
    ToUpperOfFixed(ToUpper(s));
  }

  // ---------------------------------------------------------------------------
  // UTF-16 length
  // ---------------------------------------------------------------------------

  /** The UTF-16 code units of one character: a character above U+FFFF is a surrogate pair. */
  function Utf16Width(c: char): nat {
    if c as int > 0xFFFF then 2 else 1
  }

  /** `s.length`: the number of UTF-16 code units. */
  function Utf16Length(s: string): (n: nat)
    ensures |s| <= n <= 2 * |s|
  {
    if s == [] then 0 else Utf16Length(s[..|s| - 1]) + Utf16Width(s[|s| - 1])
  }

  /** Without characters above U+FFFF, `length` is the number of characters. */
  lemma {:induction false} Utf16LengthBmp(s: string)
    requires forall i :: 0 <= i < |s| ==> Utf16Width(s[i]) == 1
    ensures Utf16Length(s) == |s|
  {
    if s != [] {
      Utf16LengthBmp(s[..|s| - 1]);
    }
  }

  /** The code units of a concatenation are those of its parts. */
  lemma {:induction false} Utf16LengthAppend(a: string, b: string)
    ensures Utf16Length(a + b) == Utf16Length(a) + Utf16Length(b)
  {
    if b == [] {
      assert a + b == a;
    } else {
      var b' := b[..|b| - 1];
      assert (a + b)[..|a + b| - 1] == a + b';
      Utf16LengthAppend(a, b');
    }
  }

  /** Lower-casing twice is lower-casing once. */
  lemma ToLowerIdempotent(s: string)
    ensures ToLower(ToLower(s)) == ToLower(s)
  {
    var once := ToLower(s);
    assert forall i :: 0 <= i < |s| ==> ToLower(once)[i] == once[i];
  }

  lemma Utf16LengthSnoc(a: string, c: char)
    ensures Utf16Length(a + [c]) == Utf16Length(a) + Utf16Width(c)
  {
    assert (a + [c])[..|a|] == a;
  }

  /** How many characters the longest suffix of `s` that fits in `budget` UTF-16 code units has. */
  function FittingSuffixLength(s: string, budget: nat): (k: nat)
    ensures k <= |s|
  {
    if s == [] || Utf16Width(s[|s| - 1]) > budget then 0
    else 1 + FittingSuffixLength(s[..|s| - 1], budget - Utf16Width(s[|s| - 1]))
  }

  /** How many characters the longest prefix of `s` that fits in `budget` UTF-16 code units has. */
  function FittingPrefixLength(s: string, budget: nat): (k: nat)
    ensures k <= |s|
  {
    if s == [] || Utf16Width(s[0]) > budget then 0
    else 1 + FittingPrefixLength(s[1..], budget - Utf16Width(s[0]))
  }

  /** The suffix fits in the budget. */
  lemma {:induction false} FittingSuffixFits(s: string, budget: nat)
    ensures Utf16Length(s[|s| - FittingSuffixLength(s, budget)..]) <= budget
  {
    var k := FittingSuffixLength(s, budget);
    if k == 0 {
      assert s[|s|..] == [];
    } else {
      var init, c := s[..|s| - 1], s[|s| - 1];
      var w := Utf16Width(c);
      assert k - 1 == FittingSuffixLength(init, budget - w);
      FittingSuffixFits(init, budget - w);
      var tail := init[|init| - (k - 1)..];
      assert s[|s| - k..] == tail + [c];
      Utf16LengthSnoc(tail, c);
    }
  }

  /** The suffix one character longer would not fit. */
  lemma {:induction false} FittingSuffixMaximal(s: string, budget: nat)
    requires FittingSuffixLength(s, budget) < |s|
    ensures Utf16Length(s[|s| - FittingSuffixLength(s, budget) - 1..]) > budget
  {
    var k := FittingSuffixLength(s, budget);
    var init, c := s[..|s| - 1], s[|s| - 1];
    var w := Utf16Width(c);
    if k == 0 {
      assert s[|s| - 1..] == [] + [c];
      Utf16LengthSnoc([], c);
    } else {
      assert k - 1 == FittingSuffixLength(init, budget - w);
      FittingSuffixMaximal(init, budget - w);
      var tail := init[|init| - k..];
      assert s[|s| - k - 1..] == tail + [c];
      Utf16LengthSnoc(tail, c);
    }
  }

  /** The prefix fits in the budget. */
  lemma {:induction false} FittingPrefixFits(s: string, budget: nat)
    ensures Utf16Length(s[..FittingPrefixLength(s, budget)]) <= budget
  {
    var k := FittingPrefixLength(s, budget);
    if k == 0 {
      assert s[..0] == [];
    } else {
      var c, rest := s[0], s[1..];
      var w := Utf16Width(c);
      assert k - 1 == FittingPrefixLength(rest, budget - w);
      FittingPrefixFits(rest, budget - w);
      assert s[..k] == [c] + rest[..k - 1];
      Utf16LengthCons(c, rest[..k - 1]);
    }
  }

  /** The prefix one character longer would not fit. */
  lemma {:induction false} FittingPrefixMaximal(s: string, budget: nat)
    requires FittingPrefixLength(s, budget) < |s|
    ensures Utf16Length(s[..FittingPrefixLength(s, budget) + 1]) > budget
  {
    var k := FittingPrefixLength(s, budget);
    var c, rest := s[0], s[1..];
    var w := Utf16Width(c);
    if k == 0 {
      assert s[..1] == [c] + [];
      Utf16LengthCons(c, []);
    } else {
      assert k - 1 == FittingPrefixLength(rest, budget - w);
      FittingPrefixMaximal(rest, budget - w);
      assert s[..k + 1] == [c] + rest[..k];
      Utf16LengthCons(c, rest[..k]);
    }
  }

  lemma Utf16LengthCons(c: char, a: string)
    ensures Utf16Length([c] + a) == Utf16Width(c) + Utf16Length(a)
  {
    Utf16LengthAppend([c], a);
    Utf16LengthSnoc([], c);
    assert [] + [c] == [c];
  }

  /** Where every character is one code unit, the suffix is the last `budget` characters (or all of them). */
  lemma {:induction false} FittingSuffixBmp(s: string, budget: nat)
    requires forall i :: 0 <= i < |s| ==> Utf16Width(s[i]) == 1
    ensures FittingSuffixLength(s, budget) == if |s| < budget then |s| else budget
  {
    if s != [] {
      assert Utf16Width(s[|s| - 1]) == 1;
      if budget > 0 {
        FittingSuffixBmp(s[..|s| - 1], budget - 1);
      }
    }
  }

  /** Where every character is one code unit, the prefix is the first `budget` characters (or all of them). */
  lemma {:induction false} FittingPrefixBmp(s: string, budget: nat)
    requires forall i :: 0 <= i < |s| ==> Utf16Width(s[i]) == 1
    ensures FittingPrefixLength(s, budget) == if |s| < budget then |s| else budget
  {
    if s != [] {
      assert Utf16Width(s[0]) == 1;
      if budget > 0 {
        FittingPrefixBmp(s[1..], budget - 1);
      }
    }
  }

  // ---------------------------------------------------------------------------
  // trim
  // ---------------------------------------------------------------------------

  predicate IsBlank(s: string) { forall i :: 0 <= i < |s| ==> IsSpace(s[i]) }

  /** Drops the leading white space: what is left is a suffix starting with a non-space. */
  function TrimStart(s: string): (r: string)
    ensures |r| <= |s| && r == s[|s| - |r|..]
    ensures forall i :: 0 <= i < |s| - |r| ==> IsSpace(s[i])
    ensures r == [] || !IsSpace(r[0])
  {
    if s != [] && IsSpace(s[0]) then TrimStart(s[1..]) else s
  }

  /** Drops the trailing white space: what is left is a prefix ending with a non-space. */
  function TrimEnd(s: string): (r: string)
    ensures |r| <= |s| && r == s[..|r|]
    ensures IsBlank(s[|r|..])
    ensures r == [] || !IsSpace(r[|r| - 1])
  {
    if s != [] && IsSpace(s[|s| - 1]) then TrimEnd(s[..|s| - 1]) else s
  }

  /** `s.trim()`. */
  function Trim(s: string): string {
    TrimEnd(TrimStart(s))
  }

  /** `s.trim() === ''` holds exactly for the strings made of white space only. */
  lemma TrimEmptyIffBlank(s: string)
    ensures Trim(s) == "" <==> IsBlank(s)
  {
    var t := TrimStart(s);
    assert t != [] ==> t[0] == s[|s| - |t|];
    if Trim(s) == "" {
      assert IsBlank(t[0..]);
      assert s[..|s| - |t|] == s;
    }
  }

  // ---------------------------------------------------------------------------
  // Substring search
  // ---------------------------------------------------------------------------

  predicate OccursAt(s: string, pat: string, j: int) {
    0 <= j && j + |pat| <= |s| && s[j..j + |pat|] == pat
  }

  /** The first occurrence of `pat` at or after `from`, if any. */
  function IndexOfFrom(s: string, pat: string, from: nat): (r: Option<nat>)
    requires from <= |s|
    decreases |s| - from
    ensures r.Some? ==> from <= r.value && OccursAt(s, pat, r.value)
    ensures r.Some? ==> forall j :: from <= j < r.value ==> !OccursAt(s, pat, j)
    ensures r.None? ==> forall j :: from <= j ==> !OccursAt(s, pat, j)
  {
    if OccursAt(s, pat, from) then Some(from)
    else if from == |s| then None
    else IndexOfFrom(s, pat, from + 1)
  }

  /** `s.indexOf(pat)`, with `None` for `-1`. */
  function IndexOf(s: string, pat: string): Option<nat> {
    IndexOfFrom(s, pat, 0)
  }

  /** `s.includes(pat)`. */
  predicate Contains(s: string, pat: string) {
    IndexOf(s, pat).Some?
  }

  lemma ContainsIff(s: string, pat: string)
    ensures Contains(s, pat) <==> exists j :: OccursAt(s, pat, j)
  {
  }

  /** `s.replace(pat, rep)` with a string pattern: only the first occurrence is replaced. */
  function ReplaceFirst(s: string, pat: string, rep: string): (r: string)
    ensures IndexOf(s, pat).None? ==> r == s
    ensures IndexOf(s, pat).Some? ==>
      var j := IndexOf(s, pat).value; r == s[..j] + rep + s[j + |pat|..]
  {
    match IndexOf(s, pat)
    case None => s
    case Some(j) => s[..j] + rep + s[j + |pat|..]
  }

  // ---------------------------------------------------------------------------
  // Numbers and their decimal text
  // ---------------------------------------------------------------------------

  /** The value of a string of decimal digits. */
  function DigitsValue(s: string): nat
    requires AllDigits(s)
  {
    if s == [] then 0 else DigitsValue(s[..|s| - 1]) * 10 + DigitValue(s[|s| - 1])
  }

  /** `String(n)` for a non-negative integer: decimal digits without leading zeros. */
  function NatToString(n: nat): (s: string)
    ensures |s| >= 1 && AllDigits(s)
    ensures |s| > 1 ==> s[0] != '0'
  {
    if n < 10 then [DigitChar(n)] else NatToString(n / 10) + [DigitChar(n % 10)]
  }

  /** Reading back the decimal text of `n` gives `n`. */
  lemma {:induction false} DigitsValueOfNatToString(n: nat)
    ensures DigitsValue(NatToString(n)) == n
  {
    if n >= 10 {
      var s := NatToString(n);
      assert s[..|s| - 1] == NatToString(n / 10);
      DigitsValueOfNatToString(n / 10);
    }
  }

  /** Distinct numbers have distinct decimal texts. */
  lemma NatToStringInjective(m: nat, n: nat)
    requires NatToString(m) == NatToString(n)
    ensures m == n
  {
    DigitsValueOfNatToString(m);
    DigitsValueOfNatToString(n);
  }

  /** Length of the run of decimal digits of `s` that starts at `i`. */
  function DigitRun(s: string, i: nat): (k: nat)
    requires i <= |s|
    decreases |s| - i
    ensures i + k <= |s| && AllDigits(s[i..i + k])
    ensures i + k == |s| || !IsDigit(s[i + k])
  {
    if i < |s| && IsDigit(s[i]) then
      var k := DigitRun(s, i + 1);
      assert s[i..i + 1 + k] == [s[i]] + s[i + 1..i + 1 + k];
      1 + k
    else 0
  }

  /**
   * `Number.parseInt(s)` without a radix: leading white space is skipped, an optional
   * sign is read, then the longest run of decimal digits; `None` is `NaN` (no digit).
   */
  function ParseInt(s: string): Option<int> {
    var t := TrimStart(s);
    var negative := t != [] && t[0] == '-';
    var rest := if t != [] && (t[0] == '-' || t[0] == '+') then t[1..] else t;
    var k := DigitRun(rest, 0);
    if k == 0 then None
    else
      var magnitude: int := DigitsValue(rest[..k]);
      Some(if negative then -magnitude else magnitude)
  }

  /** `parseInt(String(n)) === n`: the stringified position of a button reads back as that position. */
  lemma ParseIntOfNatToString(n: nat)
    ensures ParseInt(NatToString(n)) == Some(n)
  {
    var s := NatToString(n);
    assert IsDigit(s[0]);
    assert !IsSpace(s[0]);
    assert TrimStart(s) == s;
    DigitRunAllDigits(s, 0);
    assert s[..|s|] == s;
    DigitsValueOfNatToString(n);
  }

  lemma {:induction false} DigitRunAllDigits(s: string, i: nat)
    requires i <= |s| && AllDigits(s)
    decreases |s| - i
    ensures DigitRun(s, i) == |s| - i
  {
    if i < |s| {
      DigitRunAllDigits(s, i + 1);
    }
  }
}

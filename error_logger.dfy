/**
 * The redaction the error logger applies before storing a request: a shallow copy of the
 * request body or headers in which the values of known sensitive keys are replaced by a
 * fixed marker, and nothing else changes.
 */
module ErrorLogger {
  import opened Wrappers
  import opened JsStrings

  /** A JavaScript value as far as `!v`, `typeof v` and `{...v}` tell values apart. */
  datatype JsValue =
    | Undefined
    | Null
    | Bool(b: bool)
    | Number(n: real)
    | NaN
    | Str(s: string)
    | Array(elements: seq<JsValue>)
    | Object(properties: map<string, JsValue>)
    | Function

  /** A JSON object: property name to value. */
  type JsObject = map<string, JsValue>

  const Redacted := Str("***REDACTED***")

  const SensitiveFields := [
    "password", "confirmPassword", "currentPassword", "newPassword",
    "token", "accessToken", "refreshToken", "authorization"]

  const SensitiveHeaders := ["authorization", "cookie", "x-api-key", "x-auth-token", "proxy-authorization"]

  /** `!v`: the falsy values are undefined, null, false, 0, NaN and the empty string. */
  predicate Falsy(v: JsValue) {
    v.Undefined? || v.Null? || v == Bool(false) || v == Number(0.0) || v.NaN? || v == Str("")
  }

  /** `typeof v === 'object'`: null, arrays and objects. */
  predicate IsObjectType(v: JsValue) {
    v.Null? || v.Array? || v.Object?
  }

  /** What the guard `!v || typeof v !== 'object'` lets through. */
  predicate Sanitizable(v: JsValue) {
    !Falsy(v) && IsObjectType(v)
  }

  /** The own enumerable properties of an array: its elements under the keys "0", "1", … */
  function ArrayEntries(xs: seq<JsValue>): (r: JsObject)
    ensures forall i :: 0 <= i < |xs| ==> NatToString(i) in r && r[NatToString(i)] == xs[i]
    ensures forall k :: k in r ==> exists i :: 0 <= i < |xs| && k == NatToString(i)
  {
    if xs == [] then map[]
    else
      var n := |xs| - 1;
      var r := ArrayEntries(xs[..n])[NatToString(n) := xs[n]];
      assert forall i :: 0 <= i < n ==> NatToString(i) != NatToString(n) by {
        forall i | 0 <= i < n ensures NatToString(i) != NatToString(n) {
          if NatToString(i) == NatToString(n) {
            NatToStringInjective(i, n);
          }
        }
      }
      r
  }

  /** `{...v}` for a value the guard lets through: an object's properties, or an array's entries. */
  function Spread(v: JsValue): JsObject
    requires Sanitizable(v)
  {
    match v
    case Object(m) => m
    case Array(xs) => ArrayEntries(xs)
  }

  /**
   * `sanitizeRequestBody`: anything but a non-null object or array gives `undefined`;
   * otherwise a copy with the same keys in which every sensitive field present is redacted
   * and every other value is the original one.
   */
  method SanitizeRequestBody(body: JsValue) returns (result: Option<JsObject>)
    ensures result.Some? <==> Sanitizable(body)
    ensures result.Some? ==> result.value.Keys == Spread(body).Keys
    ensures result.Some? ==> forall key :: key in result.value ==>
      result.value[key] == if key in SensitiveFields then Redacted else Spread(body)[key]
  {
    if Falsy(body) || !IsObjectType(body) {
      return None;
    }
    var original := Spread(body);
    var sanitized := original;
    var fields := SensitiveFields;
    for i := 0 to |fields|
      invariant sanitized.Keys == original.Keys
      invariant forall key :: key in sanitized ==>
        sanitized[key] == if key in fields[..i] then Redacted else original[key]
    {
      var field := fields[i];
      if field in sanitized {
        sanitized := sanitized[field := Redacted];
      }
      InPrefixStep(fields, i);
    }
    InPrefixStep(fields, |fields|);
    return Some(sanitized);
  }

  /** Membership in a growing prefix: the next prefix adds exactly the next element; the full prefix is the list. */
  lemma InPrefixStep<T>(s: seq<T>, i: nat)
    requires i <= |s|
    ensures i == |s| ==> s[..i] == s
    ensures i < |s| ==> forall x :: x in s[..i + 1] <==> x in s[..i] || x == s[i]
  {
    if i < |s| {
      assert s[..i + 1] == s[..i] + [s[i]];
    }
  }

  /**
   * `sanitizeHeaders`: the same guard and copy; then, for each sensitive header name, every
   * key whose lower-cased form equals the lower-cased name is redacted.
   */
  method SanitizeHeaders(headers: JsValue) returns (result: Option<JsObject>)
    ensures result.Some? <==> Sanitizable(headers)
    ensures result.Some? ==> result.value.Keys == Spread(headers).Keys
    ensures result.Some? ==> forall key :: key in result.value ==>
      result.value[key] == if Matched(key, |SensitiveHeaders|) then Redacted else Spread(headers)[key]
  {
    if Falsy(headers) || !IsObjectType(headers) {
      return None;
    }
    var original := Spread(headers);
    var sanitized := original;
    for i := 0 to |SensitiveHeaders|
      invariant sanitized.Keys == original.Keys
      invariant forall key :: key in sanitized ==>
        sanitized[key] == if Matched(key, i) then Redacted else original[key]
    {
      var lowerHeader := ToLower(SensitiveHeaders[i]);
      sanitized := RedactKeysMatching(sanitized, lowerHeader);
      assert forall key :: Matched(key, i + 1) <==> Matched(key, i) || ToLower(key) == lowerHeader by {
        forall key | Matched(key, i + 1) && !Matched(key, i) ensures ToLower(key) == lowerHeader {
          var j :| 0 <= j < i + 1 && ToLower(key) == ToLower(SensitiveHeaders[j]);
          assert j == i;
        }
      }
    }
    return Some(sanitized);
  }

  /** The inner `Object.keys(sanitized).forEach`: redact every key whose lower-cased form is `lowerHeader`. */
  method RedactKeysMatching(sanitized: JsObject, lowerHeader: string) returns (result: JsObject)
    ensures result.Keys == sanitized.Keys
    ensures forall key :: key in result ==>
      result[key] == if ToLower(key) == lowerHeader then Redacted else sanitized[key]
  {
    result := sanitized;
    var pending := sanitized.Keys;
    while pending != {}
      invariant pending <= result.Keys == sanitized.Keys
      invariant forall key :: key in result ==>
        result[key] == if key !in pending && ToLower(key) == lowerHeader then Redacted else sanitized[key]
      decreases pending
    {
      var key :| key in pending;
      if ToLower(key) == lowerHeader {
        result := result[key := Redacted];
      }
      pending := pending - {key};
    }
  }

  /** The key matches, ignoring case, one of the first `n` sensitive header names. */
  predicate Matched(key: string, n: nat)
    requires n <= |SensitiveHeaders|
  {
    exists j :: 0 <= j < n && ToLower(key) == ToLower(SensitiveHeaders[j])
  }

  /** The sensitive header names are written in lower case, so a key is redacted iff its lower-cased form is listed. */
  lemma MatchedIffListed(key: string)
    ensures Matched(key, |SensitiveHeaders|) <==> ToLower(key) in SensitiveHeaders
  {
    forall j | 0 <= j < |SensitiveHeaders| ensures ToLower(SensitiveHeaders[j]) == SensitiveHeaders[j] {
      HeaderNameLowerCase(j);
    }
  }

  /** Each sensitive header name is its own lower-cased form. */
  lemma HeaderNameLowerCase(j: nat)
    requires j < |SensitiveHeaders|
    ensures ToLower(SensitiveHeaders[j]) == SensitiveHeaders[j]
  {
    var h := SensitiveHeaders[j];
    if j == 0 {
      assert h == "authorization";
      LowerCaseUnchanged(h);
    } else if j == 1 {
      assert h == "cookie";
      LowerCaseUnchanged(h);
    } else if j == 2 {
      assert h == "x-api-key";
      LowerCaseUnchanged(h);
    } else if j == 3 {
      assert h == "x-auth-token";
      LowerCaseUnchanged(h);
    } else {
      assert h == "proxy-authorization";
      LowerCaseUnchanged(h);
    }
  }

  lemma LowerCaseUnchanged(h: string)
    requires forall c :: 0 <= c < |h| ==> !IsUpper(h[c])
    ensures ToLower(h) == h
  {
  }

  /** `Authorization` and `X-API-Key` are redacted whatever their case; `Content-Type` is kept. */
  lemma HeaderCaseExamples()
    ensures Matched("Authorization", |SensitiveHeaders|)
    ensures Matched("X-API-Key", |SensitiveHeaders|)
    ensures !Matched("Content-Type", |SensitiveHeaders|)
  {
    MatchedIffListed("Authorization");
    MatchedIffListed("X-API-Key");
    MatchedIffListed("Content-Type");
    var a, x, c := ToLower("Authorization"), ToLower("X-API-Key"), ToLower("Content-Type");
    assert a == "authorization" by {
      assert a[0] == 'a';
    }
    assert x == "x-api-key" by {
      assert x[0] == 'x' && x[2] == 'a' && x[3] == 'p' && x[4] == 'i' && x[6] == 'k';
    }
    assert |c| == 12 && c[0] == 'c';
  }
}

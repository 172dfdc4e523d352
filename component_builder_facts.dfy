/**
 * What the builder and the validator promise: the final filter keeps an order-preserving
 * subsequence of the filled skeleton, the keep/drop rule in terms of blank strings, the
 * currency and document fills, the isolation of the caller's skeleton, and the validator's
 * scope and completeness.
 */
module ComponentBuilderFacts {
  import opened Wrappers
  import opened JsStrings
  import opened TemplateModel
  import opened ComponentBuilder

  // ===========================================================================
  // The final filter
  // ===========================================================================

  /** A parameter has a value when its string is not blank; a currency or date/time always has one. */
  lemma HasValueIffNotBlank(p: Parameter)
    ensures p.TextParam? ==> (HasValue(p) <==> !IsBlank(p.text))
    ensures p.ImageParam? ==> (HasValue(p) <==> !IsBlank(p.imageLink))
    ensures p.VideoParam? ==> (HasValue(p) <==> !IsBlank(p.videoLink))
    ensures p.DocumentParam? ==> (HasValue(p) <==> !IsBlank(p.documentLink))
    ensures p.PayloadParam? ==> (HasValue(p) <==> !IsBlank(p.payload))
    ensures p.CouponCodeParam? ==> (HasValue(p) <==> !IsBlank(p.couponCode))
    ensures p.CurrencyParam? || p.DateTimeParam? ==> HasValue(p)
  {
    match p
    case TextParam(s) => NonEmptyTrimIffNotBlank(s);
    case ImageParam(s) => NonEmptyTrimIffNotBlank(s);
    case VideoParam(s) => NonEmptyTrimIffNotBlank(s);
    case DocumentParam(s, _) => NonEmptyTrimIffNotBlank(s);
    case PayloadParam(s) => NonEmptyTrimIffNotBlank(s);
    case CouponCodeParam(s) => NonEmptyTrimIffNotBlank(s);
    case CurrencyParam(_) =>
    case DateTimeParam(_) =>
  }

  /** The test every string parameter goes through: non-empty and not blank once trimmed. */
  lemma NonEmptyTrimIffNotBlank(s: string)
    ensures (s != "" && Trim(s) != "") <==> !IsBlank(s)
  {
    TrimEmptyIffBlank(s);
  }

  /** The positions of the elements `p` holds for, in increasing order. */
  function IndicesWhere<T>(cs: seq<T>, p: T -> bool): seq<nat> {
    if cs == [] then []
    else IndicesWhere(cs[..|cs| - 1], p) + (if p(cs[|cs| - 1]) then [|cs| - 1] else [])
  }

  lemma {:induction false} IndicesWhereExact<T>(cs: seq<T>, p: T -> bool)
    ensures var ix := IndicesWhere(cs, p);
      && |ix| <= |cs|
      && (forall k :: 0 <= k < |ix| ==> ix[k] < |cs|)
      && (forall k, l :: 0 <= k < l < |ix| ==> ix[k] < ix[l])
      && (forall j :: 0 <= j < |cs| ==> (p(cs[j]) <==> j in ix))
  {
    if cs != [] {
      var n, prefix := |cs| - 1, cs[..|cs| - 1];
      IndicesWhereExact(prefix, p);
      var before := IndicesWhere(prefix, p);
      var ix := before + (if p(cs[n]) then [n] else []);
      forall j | 0 <= j < |cs| ensures p(cs[j]) <==> j in ix {
        if j < n {
          assert prefix[j] == cs[j];
          assert j in ix <==> j in before;
        } else {
          assert n !in before by {
            forall k | 0 <= k < |before| ensures before[k] != n {
            }
          }
        }
      }
    }
  }

  /** The positions of the components the filter keeps. */
  function KeptIndices(cs: seq<Component>): seq<nat> {
    IndicesWhere(cs, Kept)
  }

  lemma KeptIndicesExact(cs: seq<Component>)
    ensures var ix := KeptIndices(cs);
      && |ix| <= |cs|
      && (forall k :: 0 <= k < |ix| ==> ix[k] < |cs|)
      && (forall k, l :: 0 <= k < l < |ix| ==> ix[k] < ix[l])
      && (forall j :: 0 <= j < |cs| ==> (Kept(cs[j]) <==> j in ix))
  {
    IndicesWhereExact(cs, Kept);
  }

  lemma {:induction false} FilterKeptAligned(cs: seq<Component>)
    ensures var out, ix := FilterKept(cs), KeptIndices(cs);
      && |out| == |ix|
      && forall k :: 0 <= k < |ix| ==> ix[k] < |cs| && out[k] == cs[ix[k]]
  {
    if cs != [] {
      var n := |cs| - 1;
      var prefix := cs[..n];
      FilterKeptAligned(prefix);
      var ix' := KeptIndices(prefix);
      forall k | 0 <= k < |ix'| ensures ix'[k] < n && prefix[ix'[k]] == cs[ix'[k]] {
      }
    }
  }

  /**
   * `buildComponents` returns the filled skeleton components that pass the filter, in
   * skeleton order: an order-preserving subsequence, never longer than the skeleton.
   */
  lemma BuiltIsFilledSubsequence(fields: seq<RequiredField>, values: UserValues, templates: seq<Component>, rt: Runtime)
    ensures var out, filled := Built(fields, values, templates, rt), FillAll(templates, fields, values, rt);
      var ix := KeptIndices(filled);
      && |out| == |ix| <= |templates|
      && (forall k :: 0 <= k < |ix| ==> ix[k] < |templates| && out[k] == FillComponent(templates[ix[k]], fields, values, rt))
      && (forall k, l :: 0 <= k < l < |ix| ==> ix[k] < ix[l])
      && (forall j :: 0 <= j < |templates| ==> (Kept(FillComponent(templates[j], fields, values, rt)) <==> j in ix))
  {
    var filled := FillAll(templates, fields, values, rt);
    KeptIndicesExact(filled);
    FilterKeptAligned(filled);
  }

  /** A component holding a currency or date/time parameter is always kept, filled or not. */
  lemma CurrencyOrDateTimeAlwaysKept(c: Component, fields: seq<RequiredField>, values: UserValues, rt: Runtime)
    requires exists i :: 0 <= i < |c.parameters| && (c.parameters[i].CurrencyParam? || c.parameters[i].DateTimeParam?)
    ensures Kept(FillComponent(c, fields, values, rt))
  {
    var i :| 0 <= i < |c.parameters| && (c.parameters[i].CurrencyParam? || c.parameters[i].DateTimeParam?);
    var r := FillComponent(c, fields, values, rt);
    assert TypeOf(r.parameters[i]) == TypeOf(c.parameters[i]);
    assert HasValue(r.parameters[i]);
  }

  /** Building from a single skeleton component yields that component filled, or nothing. */
  lemma BuiltSingle(c: Component, fields: seq<RequiredField>, values: UserValues, rt: Runtime)
    ensures var r := FillComponent(c, fields, values, rt);
      Built(fields, values, [c], rt) == if Kept(r) then [r] else []
  {
    var r := FillComponent(c, fields, values, rt);
    var filled := FillAll([c], fields, values, rt);
    assert filled[..|filled| - 1] == [] && filled[|filled| - 1] == r;
    assert FilterKept(filled) == FilterKept([]) + (if Kept(r) then [r] else []);
  }

  /** A component without parameters is always dropped. */
  lemma NoParametersDropped(c: Component, fields: seq<RequiredField>, values: UserValues, rt: Runtime)
    requires c.parameters == []
    ensures Built(fields, values, [c], rt) == []
  {
    BuiltSingle(c, fields, values, rt);
  }

  // ===========================================================================
  // Buttons
  // ===========================================================================

  /**
   * A quick-reply skeleton survives exactly when the first button field at its position
   * has a non-blank value, which becomes the payload; without one it is absent from the output.
   */
  lemma QuickReplyKeptIff(index: Option<string>, fields: seq<RequiredField>, values: UserValues, rt: Runtime)
    ensures var c := Component(Button, Some(QuickReply), index, [PayloadParam("")]);
      var bf := FieldsForButton(fields, ButtonIndexOf(c));
      var filled := bf != [] && Truthy(values, bf[0].id) && !IsBlank(values[bf[0].id]);
      && (filled <==> Built(fields, values, [c], rt) != [])
      && (filled ==> Built(fields, values, [c], rt) == [Component(Button, Some(QuickReply), index, [PayloadParam(values[bf[0].id])])])
  {
    var c := Component(Button, Some(QuickReply), index, [PayloadParam("")]);
    var bf := FieldsForButton(fields, ButtonIndexOf(c));
    var given := bf != [] && Truthy(values, bf[0].id);
    var p := if given then PayloadParam(values[bf[0].id]) else PayloadParam("");
    QuickReplyPayload(index, fields, values, rt);
    SingleParameterBuilt(c, p, fields, values, rt);
    HasValueIffNotBlank(p);
  }

  /** A component whose fill has the single parameter `p` survives iff `p` has a value. */
  lemma SingleParameterBuilt(c: Component, p: Parameter, fields: seq<RequiredField>, values: UserValues, rt: Runtime)
    requires FillComponent(c, fields, values, rt) == c.(parameters := [p])
    ensures HasValue(p) <==> Built(fields, values, [c], rt) != []
    ensures HasValue(p) ==> Built(fields, values, [c], rt) == [c.(parameters := [p])]
  {
    var r := c.(parameters := [p]);
    assert Kept(r) <==> HasValue(p) by {
      assert r.parameters[0] == p;
    }
    BuiltSingle(c, fields, values, rt);
  }

  /** The payload of a quick reply is the first button field's value when that value is truthy. */
  lemma QuickReplyPayload(index: Option<string>, fields: seq<RequiredField>, values: UserValues, rt: Runtime)
    ensures var c := Component(Button, Some(QuickReply), index, [PayloadParam("")]);
      var bf := FieldsForButton(fields, ButtonIndexOf(c));
      var given := bf != [] && Truthy(values, bf[0].id);
      FillComponent(c, fields, values, rt) ==
        c.(parameters := [if given then PayloadParam(values[bf[0].id]) else PayloadParam("")])
  {
  }

  /** A URL button whose field has a non-blank value is present, with that value as its text parameter. */
  lemma UrlButtonFilledIsPresent(index: Option<string>, fields: seq<RequiredField>, values: UserValues, rt: Runtime)
    requires var bf := FieldsForButton(fields, ButtonIndexOf(Component(Button, Some(Url), index, [TextParam("")])));
      bf != [] && Truthy(values, bf[0].id) && !IsBlank(values[bf[0].id])
    ensures var c := Component(Button, Some(Url), index, [TextParam("")]);
      var bf := FieldsForButton(fields, ButtonIndexOf(c));
      Built(fields, values, [c], rt) == [Component(Button, Some(Url), index, [TextParam(values[bf[0].id])])]
  {
    var c := Component(Button, Some(Url), index, [TextParam("")]);
    var bf := FieldsForButton(fields, ButtonIndexOf(c));
    var p := TextParam(values[bf[0].id]);
    UrlButtonText(c, fields, values);
    HasValueIffNotBlank(p);
    var r := FillComponent(c, fields, values, rt);
    assert r == FillButton(c, fields, values);
    KeptWithFirst(r);
    BuiltSingle(c, fields, values, rt);
  }

  lemma UrlButtonText(c: Component, fields: seq<RequiredField>, values: UserValues)
    requires c.kind == Button && c.subType == Some(Url) && c.parameters == [TextParam("")]
    requires var bf := FieldsForButton(fields, ButtonIndexOf(c)); bf != [] && Truthy(values, bf[0].id)
    ensures FillButton(c, fields, values) == c.(parameters := [TextParam(values[FieldsForButton(fields, ButtonIndexOf(c))[0].id])])
  {
  }

  /** A component whose first parameter has a value is kept. */
  lemma KeptWithFirst(c: Component)
    requires |c.parameters| > 0 && HasValue(c.parameters[0])
    ensures Kept(c)
  {
  }

  // ===========================================================================
  // Body: currency
  // ===========================================================================

  /**
   * A currency parameter changes only when both its code and its amount fields exist and
   * both values are truthy. Then the code is the value upper-cased (one character for one,
   * except that ß becomes "SS"), the amount is the
   * rounded number of thousandths, and the fallback is the raw code, a space and the
   * 2-decimal amount.
   */
  lemma CurrencyFillRule(index: nat, cur: Currency, bodyFields: seq<RequiredField>, values: UserValues, rt: Runtime)
    ensures var r := FillBodyParameter(index, CurrencyParam(cur), bodyFields, values, rt);
      var codeId, amountId := BodyCurrencyCodeId(index), BodyCurrencyAmountId(index);
      var given := FindById(bodyFields, codeId).Some? && FindById(bodyFields, amountId).Some? &&
        Truthy(values, codeId) && Truthy(values, amountId);
      && r.CurrencyParam?
      && (!given ==> r.currency == cur)
      && (given ==>
            var code, n := values[codeId], rt.parseFloat(values[amountId]);
            && r.currency.code == ToUpper(code)
            && (forall k :: 0 <= k < |r.currency.code| ==> !IsLower(r.currency.code[k]))
            && ('\U{DF}' !in code ==>
                  && |r.currency.code| == |code|
                  && forall k :: 0 <= k < |code| ==> UpperFixed(code[k]) ==> r.currency.code[k] == code[k])
            && r.currency.fallbackValue == code + " " + rt.toFixed2(n)
            && (n.Finite? <==> r.currency.amount1000.Finite?)
            && (n.Finite? ==>
                  && r.currency.amount1000.value == r.currency.amount1000.value.Floor as real
                  && n.value * 1000.0 - 0.5 < r.currency.amount1000.value <= n.value * 1000.0 + 0.5))
  {
  }

  /** Code `"usd"` and amount `12.5` build to code `"USD"`, 12500 thousandths and fallback `"usd 12.50"`. */
  lemma CurrencyExample(rt: Runtime)
    requires rt.parseFloat("12.5") == Finite(12.5)
    requires rt.toFixed2(Finite(12.5)) == "12.50"
    ensures FilledCurrency("usd", "12.5", rt) == Currency("usd 12.50", "USD", Finite(12500.0))
  {
    var upper := ToUpper("usd");
    assert upper[0] == 'U' && upper[1] == 'S' && upper[2] == 'D';
    assert upper == "USD";
    assert (12.5 * 1000.0 + 0.5).Floor == 12500;
  }

  // ===========================================================================
  // Header: document
  // ===========================================================================

  /**
   * A document header's link is set only from a truthy `header_document` value, and its
   * file name is overwritten only by a non-blank `header_document_filename` value; without
   * one the file name keeps the skeleton default.
   */
  lemma DocumentHeaderFill(link: string, filename: string, fields: seq<RequiredField>, values: UserValues, rt: Runtime)
    requires FieldsOfType(fields, Header) != []
    ensures var headerFields := FieldsOfType(fields, Header);
      var r := FillComponent(Component(Header, None, None, [DocumentParam(link, filename)]), fields, values, rt);
      && r.parameters[0].DocumentParam?
      && r.parameters[0].documentLink ==
           (if FindById(headerFields, HeaderDocumentId).Some? && Truthy(values, HeaderDocumentId)
            then values[HeaderDocumentId] else link)
      && r.parameters[0].filename ==
           (if FindById(headerFields, HeaderDocumentFilenameId).Some? && HeaderDocumentFilenameId in values &&
               !IsBlank(values[HeaderDocumentFilenameId])
            then values[HeaderDocumentFilenameId] else filename)
      && (HeaderDocumentFilenameId !in values ==> r.parameters[0].filename == filename)
  {
    if HeaderDocumentFilenameId in values {
      NonEmptyTrimIffNotBlank(values[HeaderDocumentFilenameId]);
    }
  }

  // ===========================================================================
  // Isolation of the caller's skeleton
  // ===========================================================================

  /**
   * Two builds from the same skeleton objects with different values: neither sees the
   * other's fills, since each works on its own copy and the skeleton is never written.
   */
  method BuildTwice(
    fields: seq<RequiredField>, first: UserValues, second: UserValues, componentsTemplate: seq<LiveComponent>, rt: Runtime)
    returns (a: seq<Component>, b: seq<Component>)
    ensures a == Built(fields, first, Snapshots(componentsTemplate), rt)
    ensures b == Built(fields, second, Snapshots(componentsTemplate), rt)
  {
    a := BuildComponents(fields, first, componentsTemplate, rt);
    b := BuildComponents(fields, second, componentsTemplate, rt);
  }

  // ===========================================================================
  // The validator
  // ===========================================================================

  /** The fields whose `required` flag is set, in order. */
  function RequiredOnly(fields: seq<RequiredField>): seq<RequiredField> {
    if fields == [] then []
    else RequiredOnly(fields[..|fields| - 1]) + (if fields[|fields| - 1].required then [fields[|fields| - 1]] else [])
  }

  lemma {:induction false} AllErrorsAppend(a: seq<RequiredField>, b: seq<RequiredField>, values: UserValues, rt: Runtime)
    ensures AllErrors(a + b, values, rt) == AllErrors(a, values, rt) + AllErrors(b, values, rt)
  {
    if b == [] {
      assert a + b == a;
    } else {
      var b', last := b[..|b| - 1], b[|b| - 1];
      assert (a + b)[..|a + b| - 1] == a + b' && (a + b)[|a + b| - 1] == last;
      AllErrorsAppend(a, b', values, rt);
      var e := FieldErrors(last, values, rt);
      assert AllErrors(a + b, values, rt) == AllErrors(a + b', values, rt) + e;
      assert AllErrors(b, values, rt) == AllErrors(b', values, rt) + e;
      ConcatAssociative(AllErrors(a, values, rt), AllErrors(b', values, rt), e);
    }
  }

  /** Only required fields can produce errors: dropping the optional ones changes nothing. */
  lemma {:induction false} OnlyRequiredFieldsReport(fields: seq<RequiredField>, values: UserValues, rt: Runtime)
    ensures AllErrors(fields, values, rt) == AllErrors(RequiredOnly(fields), values, rt)
  {
    if fields != [] {
      var n := |fields| - 1;
      OnlyRequiredFieldsReport(fields[..n], values, rt);
      var tail := if fields[n].required then [fields[n]] else [];
      AllErrorsAppend(RequiredOnly(fields[..n]), tail, values, rt);
      assert AllErrors(tail, values, rt) == FieldErrors(fields[n], values, rt) by {
        assert tail == [] || tail[..0] == [];
      }
    }
  }

  /** The whole input is valid exactly when every single field passes. */
  lemma {:induction false} NoErrorsIffEveryFieldPasses(fields: seq<RequiredField>, values: UserValues, rt: Runtime)
    ensures AllErrors(fields, values, rt) == [] <==> forall k :: 0 <= k < |fields| ==> FieldErrors(fields[k], values, rt) == []
  {
    if fields != [] {
      var n := |fields| - 1;
      var prefix := fields[..n];
      NoErrorsIffEveryFieldPasses(prefix, values, rt);
      var earlier, last := AllErrors(prefix, values, rt), FieldErrors(fields[n], values, rt);
      assert AllErrors(fields, values, rt) == earlier + last;
      assert earlier + last == [] <==> earlier == [] && last == [] by {
        assert |earlier + last| == |earlier| + |last|;
      }
      EveryFieldPassesStep(fields, values, rt);
    }
  }

  /** Every field passes iff every field but the last passes and the last one does. */
  lemma EveryFieldPassesStep(fields: seq<RequiredField>, values: UserValues, rt: Runtime)
    requires fields != []
    ensures var n := |fields| - 1;
      (forall k :: 0 <= k < |fields| ==> FieldErrors(fields[k], values, rt) == []) <==>
      (forall k :: 0 <= k < n ==> FieldErrors(fields[..n][k], values, rt) == []) && FieldErrors(fields[n], values, rt) == []
  {
    var n := |fields| - 1;
    forall k | 0 <= k < n ensures fields[..n][k] == fields[k] {
    }
  }

  /**
   * The errors of a required field. An absent or empty value is only reported missing;
   * any other value, even one made of white space only, goes through every check of its
   * rule, and a blank one is reported missing as well.
   */
  lemma RequiredFieldErrors(f: RequiredField, values: UserValues, rt: Runtime)
    requires f.required
    ensures !Truthy(values, f.id) ==> FieldErrors(f, values, rt) == [MissingMessage(f.labelText)]
    ensures Truthy(values, f.id) ==>
      var rules := if f.validation.Some? then RuleErrors(f.labelText, values[f.id], f.validation.value, rt) else [];
      FieldErrors(f, values, rt) == (if IsBlank(values[f.id]) then [MissingMessage(f.labelText)] else []) + rules
    ensures FieldErrors(f, values, rt) == [] ==> Truthy(values, f.id) && !IsBlank(values[f.id])
  {
    if f.id in values {
      var value := values[f.id];
      NonEmptyTrimIffNotBlank(value);
      assert MissingErrors(f.labelText, value) == if IsBlank(value) then [MissingMessage(f.labelText)] else [];
    }
  }

  /** A value of three spaces against a limit of two characters is reported both missing and too long. */
  lemma WhitespaceValueStillChecked(f: RequiredField, rt: Runtime)
    requires f.required && f.validation == Some(Validation(TextRule, None, Some(2), None))
    ensures FieldErrors(f, map[f.id := "   "], rt) == [MissingMessage(f.labelText), TooLongMessage(f.labelText, 2)]
  {
    var values, value, rule := map[f.id := "   "], "   ", f.validation.value;
    assert values[f.id] == value && Truthy(values, f.id);
    assert IsBlank(value);
    RequiredFieldErrors(f, values, rt);
    ThreeSpacesTooLong(f.labelText, rule, rt);
  }

  lemma ThreeSpacesTooLong(fieldLabel: string, rule: Validation, rt: Runtime)
    requires rule == Validation(TextRule, None, Some(2), None)
    ensures RuleErrors(fieldLabel, "   ", rule, rt) == [TooLongMessage(fieldLabel, 2)]
  {
    var value := "   ";
    Utf16LengthBmp(value);
    assert UrlErrors(fieldLabel, value, rule, rt) == [];
    assert LengthErrors(fieldLabel, value, rule) == [TooLongMessage(fieldLabel, 2)];
    assert PatternErrors(fieldLabel, value, rule, rt) == [];
  }

  /** Eight U+1F389 characters: 16 UTF-16 code units. */
  const EightCelebrations := "\U{1F389}\U{1F389}\U{1F389}\U{1F389}\U{1F389}\U{1F389}\U{1F389}\U{1F389}"

  /**
   * A copy code limited to 15 characters, given eight U+1F389 characters: `value.length` is
   * 16 code units, so the value is reported too long although it holds only eight characters.
   */
  lemma AstralCharactersCountTwice(f: RequiredField, rt: Runtime)
    requires f.required && f.validation == Some(Validation(TextRule, None, Some(15), None))
    ensures |EightCelebrations| == 8
    ensures FieldErrors(f, map[f.id := EightCelebrations], rt) == [TooLongMessage(f.labelText, 15)]
  {
    var value := EightCelebrations;
    var values, rule := map[f.id := value], f.validation.value;
    assert values[f.id] == value && Truthy(values, f.id);
    assert !IsBlank(value) by {
      assert !IsSpace(value[0]);
    }
    RequiredFieldErrors(f, values, rt);
    EightCelebrationsLength();
    assert RuleErrors(f.labelText, value, rule, rt) == [TooLongMessage(f.labelText, 15)] by {
      assert UrlErrors(f.labelText, value, rule, rt) == [];
      assert LengthErrors(f.labelText, value, rule) == [TooLongMessage(f.labelText, 15)];
      assert PatternErrors(f.labelText, value, rule, rt) == [];
    }
  }

  lemma EightCelebrationsLength()
    ensures Utf16Length(EightCelebrations) == 16
  {
    var s := EightCelebrations;
    forall k: nat | k <= 8 ensures Utf16Length(s[..k]) == 2 * k {
      Utf16LengthOfPrefix(s, k);
    }
    assert s[..8] == s;
  }

  lemma {:induction false} Utf16LengthOfPrefix(s: string, k: nat)
    requires k <= |s| && forall i :: 0 <= i < |s| ==> s[i] == '\U{1F389}'
    ensures Utf16Length(s[..k]) == 2 * k
  {
    if k > 0 {
      Utf16LengthOfPrefix(s, k - 1);
      assert s[..k][..k - 1] == s[..k - 1];
    }
  }
}

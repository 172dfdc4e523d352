/**
 * The contract between the analyzer and the builder: the ids the analyzer emits are the
 * ids the builder looks up, so a value supplied for a field lands in the skeleton
 * parameter that field was made for, and in no other.
 */
module PipelineRoundTrip {
  import opened Wrappers
  import opened JsStrings
  import opened TemplateModel
  import opened PlaceholderScan
  import opened TemplateAnalyzer
  import opened TemplateAnalyzerFacts
  import opened ComponentBuilder
  import opened ComponentBuilderFacts

  // ===========================================================================
  // Lookups
  // ===========================================================================

  /** A field that is in the list is found by its id. */
  lemma FoundWhenPresent(fields: seq<RequiredField>, f: RequiredField)
    requires f in fields
    ensures FindById(fields, f.id).Some?
  {
    var k :| 0 <= k < |fields| && fields[k] == f;
  }

  /** A field of a component type that is in the list survives the filter on that type. */
  lemma FoundAmongType(fields: seq<RequiredField>, f: RequiredField, ct: ComponentType)
    requires f in fields && f.componentType == ct
    ensures FindById(FieldsOfType(fields, ct), f.id).Some?
  {
    FoundWhenPresent(FieldsOfType(fields, ct), f);
  }

  // ===========================================================================
  // Body
  // ===========================================================================

  /** What the value map makes of the i-th body parameter, given the kind the analyzer inferred for it. */
  function ExpectedBodyParameter(i: nat, kind: BodyParamKind, values: UserValues, rt: Runtime): Parameter {
    match kind
    case TextKind =>
      if Truthy(values, BodyId(i)) then TextParam(values[BodyId(i)]) else TextParam("")
    case CurrencyKind =>
      var codeId, amountId := BodyCurrencyCodeId(i), BodyCurrencyAmountId(i);
      if Truthy(values, codeId) && Truthy(values, amountId)
      then CurrencyParam(FilledCurrency(values[codeId], values[amountId], rt))
      else CurrencyParam(EmptyCurrency)
    case DateTimeKind =>
      if Truthy(values, BodyDateTimeId(i)) then DateTimeParam(FilledDateTime(values[BodyDateTimeId(i)], rt))
      else DateTimeParam(DateTime("", None))
  }

  /**
   * Filling a body skeleton, with any field list that holds the body's fields, sets its
   * i-th parameter from the ids of the i-th placeholder: `body_i` for text,
   * `body_i_currency_code` and `body_i_currency_amount` for a currency, `body_i_datetime`
   * for a date; a parameter whose value is missing keeps its empty default.
   */
  lemma BodyRoundTrip(text: string, fields: seq<RequiredField>, values: UserValues, rt: Runtime)
    requires BodySkeleton(text).Some?
    requires forall f :: f in BodyFields(text) ==> f in fields
    ensures var r := FillComponent(BodySkeleton(text).value, fields, values, rt);
      var kinds := BodyParameterTypes(text);
      && r.kind == Body
      && |r.parameters| == |kinds| == |Matches(text)|
      && forall i :: 0 <= i < |kinds| ==> r.parameters[i] == ExpectedBodyParameter(i, kinds[i], values, rt)
  {
    BodySkeletonFollowsText(text);
    var kinds := BodyParameterTypes(text);
    forall i | 0 <= i < |kinds|
      ensures FillComponent(BodySkeleton(text).value, fields, values, rt).parameters[i] ==
              ExpectedBodyParameter(i, kinds[i], values, rt)
    {
      BodyParameterRoundTrip(text, fields, values, rt, i);
    }
  }

  /** The i-th parameter of the filled body, for one position. */
  lemma BodyParameterRoundTrip(text: string, fields: seq<RequiredField>, values: UserValues, rt: Runtime, i: nat)
    requires BodySkeleton(text).Some?
    requires forall f :: f in BodyFields(text) ==> f in fields
    requires i < |BodyParameterTypes(text)|
    ensures i < |BodySkeleton(text).value.parameters|
    ensures FillComponent(BodySkeleton(text).value, fields, values, rt).parameters[i] ==
            ExpectedBodyParameter(i, BodyParameterTypes(text)[i], values, rt)
  {
    var ms := Matches(text);
    MatchesAreDigits(text);
    BodySkeletonFollowsText(text);
    var c := BodySkeleton(text).value;
    var kind := BodyParameterTypes(text)[i];
    FieldsOfCover(text, ms, i);
    OwnFieldsFound(i, LiteralNumber(ms[i]), kind, fields);
    FillBodyAt(c, fields, values, rt, i);
    FillEmptyBodyParameter(i, kind, FieldsOfType(fields, Body), values, rt);
  }

  /** The fields made for one placeholder, when all are in the list, are found by the ids the builder reads. */
  lemma OwnFieldsFound(i: nat, n: nat, kind: BodyParamKind, fields: seq<RequiredField>)
    requires forall f :: f in PlaceholderFields(i, n, kind) ==> f in fields
    ensures var bodyFields := FieldsOfType(fields, Body);
      && (kind == TextKind ==> FindById(bodyFields, BodyId(i)).Some?)
      && (kind == CurrencyKind ==>
            FindById(bodyFields, BodyCurrencyCodeId(i)).Some? && FindById(bodyFields, BodyCurrencyAmountId(i)).Some?)
      && (kind == DateTimeKind ==> FindById(bodyFields, BodyDateTimeId(i)).Some?)
  {
    var own := PlaceholderFields(i, n, kind);
    match kind
    case TextKind =>
      FoundAmongType(fields, own[0], Body);
    case CurrencyKind =>
      FoundAmongType(fields, own[0], Body);
      FoundAmongType(fields, own[1], Body);
    case DateTimeKind =>
      FoundAmongType(fields, own[0], Body);
  }

  /** An empty body parameter whose own fields are all present is filled exactly as expected. */
  lemma FillEmptyBodyParameter(i: nat, kind: BodyParamKind, bodyFields: seq<RequiredField>, values: UserValues, rt: Runtime)
    requires kind == TextKind ==> FindById(bodyFields, BodyId(i)).Some?
    requires kind == CurrencyKind ==>
      FindById(bodyFields, BodyCurrencyCodeId(i)).Some? && FindById(bodyFields, BodyCurrencyAmountId(i)).Some?
    requires kind == DateTimeKind ==> FindById(bodyFields, BodyDateTimeId(i)).Some?
    ensures FillBodyParameter(i, EmptyParameter(kind), bodyFields, values, rt) == ExpectedBodyParameter(i, kind, values, rt)
  {
  }

  /** `"body_" + a == "body_" + b` only when `a == b`. */
  lemma PrefixCancel(p: string, a: string, b: string)
    requires p + a == p + b
    ensures a == b
  {
    assert a == (p + a)[|p|..];
    assert b == (p + b)[|p|..];
  }

  /** `body_i` is none of the ids a different placeholder position j reads. */
  lemma BodyIdsDistinct(i: nat, j: nat)
    requires i != j
    ensures BodyId(i) != BodyId(j)
    ensures BodyId(i) != BodyCurrencyCodeId(j) && BodyId(i) != BodyCurrencyAmountId(j)
    ensures BodyId(i) != BodyDateTimeId(j)
  {
    if BodyId(i) == BodyId(j) {
      PrefixCancel("body_", NatToString(i), NatToString(j));
      NatToStringInjective(i, j);
    }
    BodyIdNotSuffixed(i, j, "_currency_code");
    BodyIdNotSuffixed(i, j, "_currency_amount");
    BodyIdNotSuffixed(i, j, "_datetime");
  }

  /** `body_i` never equals `body_j` followed by a suffix that starts with an underscore. */
  lemma BodyIdNotSuffixed(i: nat, j: nat, suffix: string)
    requires suffix != [] && suffix[0] == '_'
    ensures BodyId(i) != BodyId(j) + suffix
  {
    var at := |BodyId(j)|;
    if |BodyId(i)| == at + |suffix| {
      var di := NatToString(i);
      assert BodyId(i)[at] == di[at - 5];
      assert (BodyId(j) + suffix)[at] == '_';
    }
  }

  /**
   * A value supplied under `body_i` changes the i-th parameter only: every other
   * parameter of the filled body is the same with or without it.
   */
  lemma BodyValueStaysAtItsPosition(
    text: string, fields: seq<RequiredField>, values: UserValues, v: string, rt: Runtime, i: nat, j: nat)
    requires BodySkeleton(text).Some?
    requires j < |BodySkeleton(text).value.parameters| && i != j
    ensures var c := BodySkeleton(text).value;
      FillComponent(c, fields, values[BodyId(i) := v], rt).parameters[j] == FillComponent(c, fields, values, rt).parameters[j]
  {
    var c := BodySkeleton(text).value;
    var values' := values[BodyId(i) := v];
    BodyIdsDistinct(i, j);
    var bodyFields := FieldsOfType(fields, Body);
    FillBodyAt(c, fields, values, rt, j);
    FillBodyAt(c, fields, values', rt, j);
    FillBodyParameterFrame(j, c.parameters[j], bodyFields, values, values', rt);
  }

  /** The j-th parameter of a filled component is the j-th parameter filled from position j's ids. */
  lemma FillBodyAt(c: Component, fields: seq<RequiredField>, values: UserValues, rt: Runtime, j: nat)
    requires c.kind == Body && j < |c.parameters|
    ensures FillComponent(c, fields, values, rt).parameters[j]
         == FillBodyParameter(j, c.parameters[j], FieldsOfType(fields, Body), values, rt)
  {
    assert FillComponent(c, fields, values, rt) == FillBody(c, fields, values, rt);
  }

  /** Two value maps that agree on the ids of position j give the same parameter there. */
  lemma FillBodyParameterFrame(
    j: nat, p: Parameter, bodyFields: seq<RequiredField>, values: UserValues, values': UserValues, rt: Runtime)
    requires SameEntry(values, values', BodyId(j)) && SameEntry(values, values', BodyDateTimeId(j))
    requires SameEntry(values, values', BodyCurrencyCodeId(j)) && SameEntry(values, values', BodyCurrencyAmountId(j))
    ensures FillBodyParameter(j, p, bodyFields, values, rt) == FillBodyParameter(j, p, bodyFields, values', rt)
  {
  }

  /** The two maps agree at `id`: both lack it, or both hold the same value. */
  predicate SameEntry(values: UserValues, values': UserValues, id: string) {
    (id in values <==> id in values') && (id in values ==> values[id] == values'[id])
  }

  // ===========================================================================
  // Buttons
  // ===========================================================================

  /** The parameter a button of the given sub-type carries once its value is filled in. */
  function ButtonValue(subType: ButtonSubType, v: string): Parameter {
    match subType
    case QuickReply => PayloadParam(v)
    case CopyCode => CouponCodeParam(v)
    case _ => TextParam(v)
  }

  /**
   * When the button fields of the field list are exactly those the analyzer made for a
   * button list, the k-th button skeleton is filled from the k-th button field, the one
   * made for the same button position: its value becomes the skeleton's only parameter,
   * and without a truthy value the skeleton is unchanged.
   */
  lemma ButtonRoundTrip(bs: seq<RawButton>, fields: seq<RequiredField>, values: UserValues, rt: Runtime, k: nat)
    requires forall f :: f in fields && f.componentType == Button <==> f in ButtonFieldsOf(bs)
    requires k < |ButtonSkeletonsOf(bs)|
    ensures |ButtonFieldsOf(bs)| == |ButtonSkeletonsOf(bs)|
    ensures var s, f := ButtonSkeletonsOf(bs)[k], ButtonFieldsOf(bs)[k];
      var r := FillComponent(s, fields, values, rt);
      && (exists p :: 0 <= p < |bs| && s.index == Some(NatToString(p)) && f.componentIndex == Some(p))
      && |FieldsForButton(fields, ButtonIndexOf(s))| > 0 && FieldsForButton(fields, ButtonIndexOf(s))[0] == f
      && (!Truthy(values, f.id) ==> r == s)
      && (Truthy(values, f.id) ==> r == s.(parameters := [ButtonValue(s.subType.value, values[f.id])]))
  {
    ButtonsAligned(bs);
    var ps, fs, ss := ButtonPositions(bs), ButtonFieldsOf(bs), ButtonSkeletonsOf(bs);
    var p := ps[k];
    ButtonLookup(bs, fields, k);
    ButtonSkeletonShape(p, bs[p]);
    FillButtonSkeleton(ss[k], fields, values, rt);
  }

  /** The k-th button skeleton looks up exactly the k-th button field. */
  lemma ButtonLookup(bs: seq<RawButton>, fields: seq<RequiredField>, k: nat)
    requires forall f :: f in fields && f.componentType == Button <==> f in ButtonFieldsOf(bs)
    requires k < |ButtonSkeletonsOf(bs)|
    ensures |ButtonFieldsOf(bs)| == |ButtonSkeletonsOf(bs)| == |ButtonPositions(bs)|
    ensures var p, s, f := ButtonPositions(bs)[k], ButtonSkeletonsOf(bs)[k], ButtonFieldsOf(bs)[k];
      && p < |bs| && ButtonSkeleton(p, bs[p]) == Some(s) && ButtonField(p, bs[p]) == Some(f)
      && s.index == Some(NatToString(p)) && f.componentIndex == Some(p)
      && |FieldsForButton(fields, ButtonIndexOf(s))| > 0 && FieldsForButton(fields, ButtonIndexOf(s))[0] == f
  {
    ButtonsAligned(bs);
    var ps, fs, ss := ButtonPositions(bs), ButtonFieldsOf(bs), ButtonSkeletonsOf(bs);
    var p, s, f := ps[k], ss[k], fs[k];
    ParseIntOfNatToString(p);
    assert ButtonIndexOf(s) == Some(p);
    var found := FieldsForButton(fields, Some(p));
    assert f in found;
    forall g | g in found ensures g == f {
      ButtonFieldAtPosition(bs, k, g);
    }
    assert found[0] in found;
  }

  /** Button fields are made at distinct positions: the one carrying the k-th position is the k-th. */
  lemma ButtonFieldAtPosition(bs: seq<RawButton>, k: nat, g: RequiredField)
    requires k < |ButtonPositions(bs)| && g in ButtonFieldsOf(bs) && g.componentIndex == Some(ButtonPositions(bs)[k])
    ensures |ButtonFieldsOf(bs)| == |ButtonPositions(bs)| && g == ButtonFieldsOf(bs)[k]
  {
    ButtonsAligned(bs);
    var ps, fs := ButtonPositions(bs), ButtonFieldsOf(bs);
    var l :| 0 <= l < |fs| && fs[l] == g;
    assert ButtonField(ps[l], bs[ps[l]]) == Some(g);
    IncreasingInjective(ps, l, k);
  }

  /** In a strictly increasing sequence, equal elements sit at the same index. */
  lemma IncreasingInjective(s: seq<nat>, i: nat, j: nat)
    requires forall a, b :: 0 <= a < b < |s| ==> s[a] < s[b]
    requires i < |s| && j < |s| && s[i] == s[j]
    ensures i == j
  {
  }

  /** The empty parameter of a button skeleton of the given sub-type. */
  function EmptyButtonParameter(subType: ButtonSubType): Parameter {
    ButtonValue(subType, "")
  }

  /** A button skeleton has one empty parameter of its sub-type's kind. */
  lemma ButtonSkeletonShape(p: nat, b: RawButton)
    requires ButtonSkeleton(p, b).Some?
    ensures var s := ButtonSkeleton(p, b).value;
      && s.kind == Button && s.subType in {Some(QuickReply), Some(Url), Some(CopyCode), Some(Otp)}
      && s.parameters == [EmptyButtonParameter(s.subType.value)]
  {
  }

  /** Filling a one-parameter button skeleton from the first field found for its position. */
  lemma FillButtonSkeleton(s: Component, fields: seq<RequiredField>, values: UserValues, rt: Runtime)
    requires s.kind == Button && s.subType in {Some(QuickReply), Some(Url), Some(CopyCode), Some(Otp)}
    requires s.parameters == [EmptyButtonParameter(s.subType.value)]
    requires FieldsForButton(fields, ButtonIndexOf(s)) != []
    ensures var f := FieldsForButton(fields, ButtonIndexOf(s))[0];
      var r := FillComponent(s, fields, values, rt);
      && (!Truthy(values, f.id) ==> r == s)
      && (Truthy(values, f.id) ==> r == s.(parameters := [ButtonValue(s.subType.value, values[f.id])]))
  {
    assert FillComponent(s, fields, values, rt) == FillButton(s, fields, values);
    FillOneParameterButton(s, fields, values);
  }

  lemma FillOneParameterButton(s: Component, fields: seq<RequiredField>, values: UserValues)
    requires s.kind == Button && s.subType in {Some(QuickReply), Some(Url), Some(CopyCode), Some(Otp)}
    requires s.parameters == [EmptyButtonParameter(s.subType.value)]
    requires FieldsForButton(fields, ButtonIndexOf(s)) != []
    ensures var f := FieldsForButton(fields, ButtonIndexOf(s))[0];
      var r := FillButton(s, fields, values);
      && (!Truthy(values, f.id) ==> r == s)
      && (Truthy(values, f.id) ==> r == s.(parameters := [ButtonValue(s.subType.value, values[f.id])]))
  {
  }

  // ===========================================================================
  // The whole template
  // ===========================================================================

  /** The raw `type` of the components whose fields have the given component type. */
  function KindName(ct: ComponentType): string {
    match ct
    case Header => "HEADER"
    case Body => "BODY"
    case Button => "BUTTONS"
  }

  lemma {:induction false} RawKindCountPositive(cs: seq<RawComponent>, kind: string, j: nat)
    requires j < |cs| && KindOf(cs[j]) == kind
    ensures RawKindCount(cs, kind) >= 1
  {
    var n := |cs| - 1;
    if j < n {
      assert cs[..n][j] == cs[j];
      RawKindCountPositive(cs[..n], kind, j);
    }
  }

  /** One turn of the analysis loop adds to the fields of a type only what a component of the matching kind brings. */
  lemma FieldsOfKindStep(cs: seq<RawComponent>, ct: ComponentType)
    requires cs != []
    ensures var n := |cs| - 1;
      FieldsOfType(TallyOf(cs).fields, ct) ==
        FieldsOfType(TallyOf(cs[..n]).fields, ct) + (if KindOf(cs[n]) == KindName(ct) then ComponentFields(cs[n]) else [])
  {
    var n := |cs| - 1;
    var c := cs[n];
    assert TallyOf(cs).fields == TallyOf(cs[..n]).fields + ComponentFields(c);
    FieldsOfTypeAppend(TallyOf(cs[..n]).fields, ComponentFields(c), ct);
    ComponentFieldsTyped(c);
    if KindOf(c) == KindName(ct) {
      FieldsOfTypeAll(ComponentFields(c), ct);
    } else {
      FieldsOfTypeNone(ComponentFields(c), ct);
    }
  }

  /** The position of the last component of a kind, when there is one. */
  function KindIndex(cs: seq<RawComponent>, kind: string): (r: nat)
    requires RawKindCount(cs, kind) >= 1
    ensures r < |cs| && KindOf(cs[r]) == kind
  {
    var n := |cs| - 1;
    if KindOf(cs[n]) == kind then n
    else
      var r := KindIndex(cs[..n], kind);
      assert cs[..n][r] == cs[r];
      r
  }

  /** With at most one component of a kind, any component of that kind is the one at `KindIndex`. */
  lemma {:induction false} KindIndexUnique(cs: seq<RawComponent>, kind: string, j: nat)
    requires RawKindCount(cs, kind) <= 1 && j < |cs| && KindOf(cs[j]) == kind
    ensures RawKindCount(cs, kind) == 1 && KindIndex(cs, kind) == j
  {
    RawKindCountPositive(cs, kind, j);
    var n := |cs| - 1;
    if j < n {
      assert cs[..n][j] == cs[j];
      RawKindCountPositive(cs[..n], kind, j);
      KindIndexUnique(cs[..n], kind, j);
    }
  }

  /**
   * With at most one component of a kind, the analysis' fields of the matching component
   * type are exactly that component's fields, and none when there is no such component.
   */
  lemma {:induction false} FieldsOfKindInTemplate(cs: seq<RawComponent>, ct: ComponentType)
    requires RawKindCount(cs, KindName(ct)) <= 1
    ensures FieldsOfType(TallyOf(cs).fields, ct) ==
      if RawKindCount(cs, KindName(ct)) == 0 then [] else ComponentFields(cs[KindIndex(cs, KindName(ct))])
  {
    if cs != [] {
      var n, kind := |cs| - 1, KindName(ct);
      assert RawKindCount(cs, kind) ==
        RawKindCount(cs[..n], kind) + (if KindOf(cs[n]) == kind then 1 else 0);
      FieldsOfKindInTemplate(cs[..n], ct);
      FieldsOfKindStep(cs, ct);
      if KindOf(cs[n]) != kind && RawKindCount(cs, kind) == 1 {
        var r := KindIndex(cs[..n], kind);
        assert cs[..n][r] == cs[r];
      }
    }
  }

  /** The same, for a given component of the kind. */
  lemma FieldsOfKindAt(cs: seq<RawComponent>, ct: ComponentType, j: nat)
    requires RawKindCount(cs, KindName(ct)) <= 1 && j < |cs| && KindOf(cs[j]) == KindName(ct)
    ensures FieldsOfType(TallyOf(cs).fields, ct) == ComponentFields(cs[j])
  {
    FieldsOfKindInTemplate(cs, ct);
    KindIndexUnique(cs, KindName(ct), j);
  }

  /**
   * In a template's analysis, every BODY component's skeleton is in the skeleton list, and
   * filling it with the analysis' own fields puts each placeholder's value at its position.
   */
  lemma BodyRoundTripInTemplate(raw: RawTemplate, j: nat, values: UserValues, rt: Runtime)
    requires var cs := GetProperty(raw.components, []);
      j < |cs| && KindOf(cs[j]) == "BODY" && BodySkeleton(GetProperty(cs[j].text, "")).Some?
    ensures var text := GetProperty(GetProperty(raw.components, [])[j].text, "");
      var a, s := Analysis(raw), BodySkeleton(text).value;
      var r := FillComponent(s, a.requiredFields, values, rt);
      var kinds := BodyParameterTypes(text);
      && s in a.componentsTemplate
      && |r.parameters| == |kinds|
      && forall i :: 0 <= i < |kinds| ==> r.parameters[i] == ExpectedBodyParameter(i, kinds[i], values, rt)
  {
    var cs := GetProperty(raw.components, []);
    var text := GetProperty(cs[j].text, "");
    AnalysisShape(raw);
    FlatContains(cs, j);
    assert ComponentSkeletons(cs[j]) == [BodySkeleton(text).value];
    BodyRoundTrip(text, Analysis(raw).requiredFields, values, rt);
  }

  /**
   * With one BUTTONS component, each of its button skeletons in the analysis is filled from
   * the field the analyzer made for the same button.
   */
  lemma ButtonRoundTripInTemplate(raw: RawTemplate, j: nat, values: UserValues, rt: Runtime, k: nat)
    requires var cs := GetProperty(raw.components, []);
      && RawKindCount(cs, "BUTTONS") <= 1
      && j < |cs| && KindOf(cs[j]) == "BUTTONS" && k < |ButtonSkeletonsOf(GetProperty(cs[j].buttons, []))|
    ensures var bs := GetProperty(GetProperty(raw.components, [])[j].buttons, []);
      var a := Analysis(raw);
      && |ButtonFieldsOf(bs)| == |ButtonSkeletonsOf(bs)|
      && var s, f := ButtonSkeletonsOf(bs)[k], ButtonFieldsOf(bs)[k];
        var r := FillComponent(s, a.requiredFields, values, rt);
        && s in a.componentsTemplate && f in a.requiredFields
        && (!Truthy(values, f.id) ==> r == s)
        && (Truthy(values, f.id) ==> r == s.(parameters := [ButtonValue(s.subType.value, values[f.id])]))
  {
    var cs := GetProperty(raw.components, []);
    var bs := GetProperty(cs[j].buttons, []);
    var fields := Analysis(raw).requiredFields;
    AnalysisShape(raw);
    FlatContains(cs, j);
    ButtonsAligned(bs);
    FieldsOfKindAt(cs, Button, j);
    assert FieldsOfType(fields, Button) == ButtonFieldsOf(bs);
    ButtonRoundTrip(bs, fields, values, rt, k);
  }

  /** What the value map makes of the only parameter of a header skeleton of the given format. */
  function ExpectedHeaderParameter(format: string, values: UserValues): Parameter
    requires format in {"IMAGE", "VIDEO", "TEXT", "DOCUMENT"}
  {
    if format == "IMAGE" then
      ImageParam(if Truthy(values, HeaderImageId) then values[HeaderImageId] else "")
    else if format == "VIDEO" then
      VideoParam(if Truthy(values, HeaderVideoId) then values[HeaderVideoId] else "")
    else if format == "TEXT" then
      TextParam(if Truthy(values, HeaderTextId) then values[HeaderTextId] else "")
    else
      DocumentParam(
        if Truthy(values, HeaderDocumentId) then values[HeaderDocumentId] else "",
        if HeaderDocumentFilenameId in values && !IsBlank(values[HeaderDocumentFilenameId])
        then values[HeaderDocumentFilenameId] else "")
  }

  /** Filling a header skeleton when the header fields are exactly those the analyzer made for its format. */
  lemma HeaderRoundTrip(format: string, fields: seq<RequiredField>, values: UserValues, rt: Runtime)
    requires format in {"IMAGE", "VIDEO", "TEXT", "DOCUMENT"}
    requires FieldsOfType(fields, Header) == HeaderFields(format)
    ensures var s := HeaderSkeleton(format).value;
      FillComponent(s, fields, values, rt) == s.(parameters := [ExpectedHeaderParameter(format, values)])
  {
    if format == "DOCUMENT" {
      DocumentHeaderRoundTrip(fields, values, rt);
    } else {
      SingleFieldHeaderRoundTrip(format, fields, values, rt);
    }
  }

  lemma SingleFieldHeaderRoundTrip(format: string, fields: seq<RequiredField>, values: UserValues, rt: Runtime)
    requires format in {"IMAGE", "VIDEO", "TEXT"}
    requires FieldsOfType(fields, Header) == HeaderFields(format)
    ensures var s := HeaderSkeleton(format).value;
      FillComponent(s, fields, values, rt) == s.(parameters := [ExpectedHeaderParameter(format, values)])
  {
    var s := HeaderSkeleton(format).value;
    assert FillComponent(s, fields, values, rt) == FillHeader(s, fields, values);
    assert FieldsOfType(fields, Header)[0].id == if format == "IMAGE" then HeaderImageId
      else if format == "VIDEO" then HeaderVideoId else HeaderTextId;
  }

  lemma DocumentHeaderRoundTrip(fields: seq<RequiredField>, values: UserValues, rt: Runtime)
    requires FieldsOfType(fields, Header) == HeaderFields("DOCUMENT")
    ensures var s := HeaderSkeleton("DOCUMENT").value;
      FillComponent(s, fields, values, rt) == s.(parameters := [ExpectedHeaderParameter("DOCUMENT", values)])
  {
    var headerFields := FieldsOfType(fields, Header);
    FoundWhenPresent(headerFields, headerFields[0]);
    FoundWhenPresent(headerFields, headerFields[1]);
    DocumentHeaderFill("", "", fields, values, rt);
    assert HeaderSkeleton("DOCUMENT").value == Component(Header, None, None, [DocumentParam("", "")]);
  }

  /**
   * With one HEADER component of a format that takes a value, its skeleton is in the
   * analysis and is filled from the header field ids the analyzer made for that format.
   */
  lemma HeaderRoundTripInTemplate(raw: RawTemplate, j: nat, values: UserValues, rt: Runtime)
    requires var cs := GetProperty(raw.components, []);
      && RawKindCount(cs, "HEADER") <= 1
      && j < |cs| && KindOf(cs[j]) == "HEADER" && GetProperty(cs[j].format, "") in {"IMAGE", "VIDEO", "TEXT", "DOCUMENT"}
    ensures var format := GetProperty(GetProperty(raw.components, [])[j].format, "");
      var a, s := Analysis(raw), HeaderSkeleton(format).value;
      && s in a.componentsTemplate
      && FillComponent(s, a.requiredFields, values, rt) == s.(parameters := [ExpectedHeaderParameter(format, values)])
  {
    var cs := GetProperty(raw.components, []);
    var format := GetProperty(cs[j].format, "");
    AnalysisShape(raw);
    FlatContains(cs, j);
    assert ComponentSkeletons(cs[j]) == [HeaderSkeleton(format).value];
    FieldsOfKindAt(cs, Header, j);
    HeaderRoundTrip(format, Analysis(raw).requiredFields, values, rt);
  }
}

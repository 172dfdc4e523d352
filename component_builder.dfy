/**
 * The component builder of the form layer: it deep-copies the analyzer's skeleton, fills
 * the copy in place from the user's `id -> value` map, and drops the components that are
 * still empty; and the validator that collects the error messages of the required fields.
 *
 * A user value is a string; `userValues[id]` is truthy when the key is present and the
 * string is not empty.
 */
module ComponentBuilder {
  import opened Wrappers
  import opened JsStrings
  import opened TemplateModel

  type UserValues = map<string, string>

  /** `userValues[id]` is truthy. */
  predicate Truthy(values: UserValues, id: string) {
    id in values && values[id] != ""
  }

  /** `fields.find(f => f.id === id)`: the first field with that id. */
  function FindById(fields: seq<RequiredField>, id: string): (r: Option<RequiredField>)
    ensures r.None? <==> forall k :: 0 <= k < |fields| ==> fields[k].id != id
    ensures r.Some? ==> r.value.id == id
    ensures r.Some? ==> exists k :: 0 <= k < |fields| && fields[k] == r.value && (forall j :: 0 <= j < k ==> fields[j].id != id)
  {
    if fields == [] then None
    else if fields[0].id == id then Some(fields[0])
    else
      var r := FindById(fields[1..], id);
      assert forall k :: 0 < k < |fields| ==> fields[1..][k - 1] == fields[k];
      r
  }

  /** `fields.filter(f => f.componentType === 'button' && f.componentIndex === buttonIndex)`. */
  function FieldsForButton(fields: seq<RequiredField>, buttonIndex: Option<int>): (r: seq<RequiredField>)
    ensures forall f :: f in r <==>
      f in fields && f.componentType == Button && buttonIndex.Some? && f.componentIndex.Some? &&
      f.componentIndex.value == buttonIndex.value
  {
    if fields == [] then []
    else
      var last := fields[|fields| - 1];
      var hit := last.componentType == Button && buttonIndex.Some? && last.componentIndex.Some? &&
        last.componentIndex.value == buttonIndex.value;
      FieldsForButton(fields[..|fields| - 1], buttonIndex) + (if hit then [last] else [])
  }

  // ===========================================================================
  // The live (mutable) copy of a skeleton component
  // ===========================================================================

  /**
   * A component of the deep copy: its identity is fixed, its parameters are objects the
   * fill operations overwrite in place.
   */
  class LiveComponent {
    const kind: ComponentType
    const subType: Option<ButtonSubType>
    const index: Option<string>
    const parameters: array<Parameter>

    /** The component's current value. */
    function Snapshot(): Component
      reads parameters
    {
      Component(kind, subType, index, parameters[..])
    }

    /** `structuredClone` of one skeleton component: a fresh parameter array holding its parameters. */
    constructor (c: Component)
      ensures Snapshot() == c
      ensures fresh(parameters)
    {
      kind, subType, index := c.kind, c.subType, c.index;
      parameters := new Parameter[|c.parameters|](i requires 0 <= i < |c.parameters| => c.parameters[i]);
    }
  }

  /** The current values of a list of live components. */
  function Snapshots(cs: seq<LiveComponent>): (r: seq<Component>)
    reads set c | c in cs :: c.parameters
    ensures |r| == |cs|
    ensures forall j :: 0 <= j < |cs| ==> r[j] == cs[j].Snapshot()
  {
    seq(|cs|, j reads set c | c in cs :: c.parameters requires 0 <= j < |cs| => cs[j].Snapshot())
  }

  // ===========================================================================
  // HEADER
  // ===========================================================================

  /**
   * The first parameter of a header, after filling. A document takes its link from a truthy
   * `header_document` value and its file name from a non-blank `header_document_filename`
   * value; an image, video or text parameter takes the value of the first header field,
   * if truthy.
   */
  function FillHeaderParameter(p: Parameter, headerFields: seq<RequiredField>, values: UserValues): (r: Parameter)
    requires headerFields != []
    ensures TypeOf(r) == TypeOf(p)
  {
    if p.DocumentParam? then FillDocument(p.documentLink, p.filename, headerFields, values)
    else
      var id := headerFields[0].id;
      if !Truthy(values, id) then p
      else if p.ImageParam? then ImageParam(values[id])
      else if p.VideoParam? then VideoParam(values[id])
      else if p.TextParam? then TextParam(values[id])
      else p
  }

  /** A document header: the link from a truthy `header_document`, the file name from a non-blank `header_document_filename`. */
  function FillDocument(link: string, filename: string, headerFields: seq<RequiredField>, values: UserValues): (r: Parameter)
    ensures r.DocumentParam?
  {
    var urlField := FindById(headerFields, HeaderDocumentId);
    var filenameField := FindById(headerFields, HeaderDocumentFilenameId);
    var link' := if urlField.Some? && Truthy(values, HeaderDocumentId) then values[HeaderDocumentId] else link;
    var filename' :=
      if filenameField.Some? && Truthy(values, HeaderDocumentFilenameId) && Trim(values[HeaderDocumentFilenameId]) != ""
      then values[HeaderDocumentFilenameId] else filename;
    DocumentParam(link', filename')
  }

  /** `fillHeaderComponent` on a component value: only the first parameter can change. */
  function FillHeader(c: Component, fields: seq<RequiredField>, values: UserValues): (r: Component)
    ensures r.kind == c.kind && r.subType == c.subType && r.index == c.index
    ensures |r.parameters| == |c.parameters|
    ensures forall i :: 0 <= i < |c.parameters| ==> TypeOf(r.parameters[i]) == TypeOf(c.parameters[i])
    ensures forall i :: 1 <= i < |c.parameters| ==> r.parameters[i] == c.parameters[i]
  {
    var headerFields := FieldsOfType(fields, Header);
    if headerFields == [] || c.parameters == [] then c
    else c.(parameters := c.parameters[0 := FillHeaderParameter(c.parameters[0], headerFields, values)])
  }

  /** `fillHeaderComponent`: overwrites the first parameter of the live component. */
  method FillHeaderComponent(component: LiveComponent, requiredFields: seq<RequiredField>, userValues: UserValues)
    modifies component.parameters
    ensures component.Snapshot() == FillHeader(old(component.Snapshot()), requiredFields, userValues)
  {
    var headerFields := FieldsOfType(requiredFields, Header);
    if |headerFields| == 0 {
      return;
    }
    if component.parameters.Length == 0 {
      return;
    }
    var param := component.parameters[0];
    if param.DocumentParam? {
      var urlField := FindById(headerFields, HeaderDocumentId);
      var filenameField := FindById(headerFields, HeaderDocumentFilenameId);
      if urlField.Some? {
        if Truthy(userValues, urlField.value.id) {
          param := param.(documentLink := userValues[urlField.value.id]);
        }
      }
      if filenameField.Some? {
        var id := filenameField.value.id;
        if Truthy(userValues, id) && Trim(userValues[id]) != "" {
          param := param.(filename := userValues[id]);
        }
      }
    } else {
      var field := headerFields[0];
      if Truthy(userValues, field.id) {
        var value := userValues[field.id];
        if param.ImageParam? {
          param := ImageParam(value);
        } else if param.VideoParam? {
          param := VideoParam(value);
        } else if param.TextParam? {
          param := TextParam(value);
        }
      }
    }
    component.parameters[0] := param;
  }

  // ===========================================================================
  // BODY
  // ===========================================================================

  /** The currency filled from a code and an amount: upper-cased code, rounded thousandths, raw code and 2-decimal amount as fallback. */
  function FilledCurrency(code: string, amount: string, rt: Runtime): Currency {
    var numAmount := rt.parseFloat(amount);
    Currency(code + " " + rt.toFixed2(numAmount), ToUpper(code), Thousandths(numAmount))
  }

  /**
   * The date/time filled from a date string: the locale date as fallback and the calendar
   * fields, with a 1-based month. An Invalid Date's NaN getters stay NaN.
   */
  function FilledDateTime(dateValue: string, rt: Runtime): (dt: DateTime)
    ensures dt.fallbackValue == rt.parseDate(dateValue).localeDateString
    ensures dt.fields.Some? && dt.fields.value.calendar == "GREGORIAN"
    ensures dt.fields.value.month.Finite? <==> rt.parseDate(dateValue).month.Finite?
    ensures dt.fields.value.month.Finite? ==> dt.fields.value.month.value == rt.parseDate(dateValue).month.value + 1.0
  {
    var date := rt.parseDate(dateValue);
    DateTime(date.localeDateString, Some(CalendarFields(
      date.day, date.fullYear, Plus(date.month, 1), date.date, date.hours, date.minutes, "GREGORIAN")))
  }

  /** The parameter at position `index` of a body, after filling from the body fields. */
  function FillBodyParameter(
    index: nat, p: Parameter, bodyFields: seq<RequiredField>, values: UserValues, rt: Runtime): (r: Parameter)
    ensures TypeOf(r) == TypeOf(p)
  {
    match p
    case TextParam(_) =>
      var id := BodyId(index);
      if FindById(bodyFields, id).Some? && Truthy(values, id) then TextParam(values[id]) else p
    case CurrencyParam(_) =>
      var codeId, amountId := BodyCurrencyCodeId(index), BodyCurrencyAmountId(index);
      if FindById(bodyFields, codeId).Some? && FindById(bodyFields, amountId).Some? &&
         Truthy(values, codeId) && Truthy(values, amountId)
      then CurrencyParam(FilledCurrency(values[codeId], values[amountId], rt))
      else p
    case DateTimeParam(_) =>
      var id := BodyDateTimeId(index);
      if FindById(bodyFields, id).Some? && Truthy(values, id) then DateTimeParam(FilledDateTime(values[id], rt)) else p
    case _ => p
  }

  /** `fillBodyComponent` on a component value: every parameter is filled from the ids of its own position. */
  function FillBody(c: Component, fields: seq<RequiredField>, values: UserValues, rt: Runtime): (r: Component)
    ensures r.kind == c.kind && r.subType == c.subType && r.index == c.index
    ensures |r.parameters| == |c.parameters|
    ensures forall i :: 0 <= i < |c.parameters| ==> TypeOf(r.parameters[i]) == TypeOf(c.parameters[i])
  {
    var bodyFields := FieldsOfType(fields, Body);
    c.(parameters := seq(|c.parameters|, i requires 0 <= i < |c.parameters| =>
      FillBodyParameter(i, c.parameters[i], bodyFields, values, rt)))
  }

  /** `fillBodyComponent`: one pass over the parameters, overwriting each in place. */
  method FillBodyComponent(
    component: LiveComponent, requiredFields: seq<RequiredField>, userValues: UserValues, rt: Runtime)
    modifies component.parameters
    ensures component.Snapshot() == FillBody(old(component.Snapshot()), requiredFields, userValues, rt)
  {
    var bodyFields := FieldsOfType(requiredFields, Body);
    var params := component.parameters;
    for index := 0 to params.Length
      invariant forall j :: 0 <= j < index ==>
        params[j] == FillBodyParameter(j, old(params[j]), bodyFields, userValues, rt)
      invariant forall j :: index <= j < params.Length ==> params[j] == old(params[j])
    {
      FillBodySlot(params, index, bodyFields, userValues, rt);
    }
  }

  /** One turn of the `forEach` in `fillBodyComponent`: overwrites the parameter at `index` in place. */
  method FillBodySlot(
    params: array<Parameter>, index: nat, bodyFields: seq<RequiredField>, userValues: UserValues, rt: Runtime)
    requires index < params.Length
    modifies params
    ensures params[index] == FillBodyParameter(index, old(params[index]), bodyFields, userValues, rt)
    ensures forall j :: 0 <= j < params.Length && j != index ==> params[j] == old(params[j])
  {
    var param := params[index];
    if param.TextParam? {
      var field := FindById(bodyFields, BodyId(index));
      if field.Some? {
        if Truthy(userValues, field.value.id) {
          params[index] := TextParam(userValues[field.value.id]);
        }
      }
    } else if param.CurrencyParam? {
      var codeField := FindById(bodyFields, BodyCurrencyCodeId(index));
      var amountField := FindById(bodyFields, BodyCurrencyAmountId(index));
      if codeField.Some? && amountField.Some? {
        if Truthy(userValues, codeField.value.id) && Truthy(userValues, amountField.value.id) {
          var code := userValues[codeField.value.id];
          var amount := userValues[amountField.value.id];
          var numAmount := rt.parseFloat(amount);
          params[index] := CurrencyParam(Currency(code + " " + rt.toFixed2(numAmount), ToUpper(code), Thousandths(numAmount)));
        }
      }
    } else if param.DateTimeParam? {
      var dateField := FindById(bodyFields, BodyDateTimeId(index));
      if dateField.Some? {
        if Truthy(userValues, dateField.value.id) {
          var date := rt.parseDate(userValues[dateField.value.id]);
          params[index] := DateTimeParam(DateTime(date.localeDateString, Some(CalendarFields(
            date.day, date.fullYear, Plus(date.month, 1), date.date, date.hours, date.minutes, "GREGORIAN"))));
        }
      }
    }
  }

  // ===========================================================================
  // BUTTON
  // ===========================================================================

  /** `Number.parseInt(component.index || '0')`. */
  function ButtonIndexOf(c: Component): Option<int> {
    ParseInt(if c.index.None? || c.index.value == "" then "0" else c.index.value)
  }

  /**
   * `fillButtonComponent` on a component value: the first button field at the component's
   * position supplies the value, written into the first parameter when its type suits the sub-type.
   */
  function FillButton(c: Component, fields: seq<RequiredField>, values: UserValues): (r: Component)
    ensures r.kind == c.kind && r.subType == c.subType && r.index == c.index
    ensures |r.parameters| == |c.parameters|
    ensures forall i :: 0 <= i < |c.parameters| ==> TypeOf(r.parameters[i]) == TypeOf(c.parameters[i])
    ensures forall i :: 1 <= i < |c.parameters| ==> r.parameters[i] == c.parameters[i]
  {
    var buttonFields := FieldsForButton(fields, ButtonIndexOf(c));
    if buttonFields == [] || !Truthy(values, buttonFields[0].id) || c.parameters == [] then c
    else c.(parameters := c.parameters[0 := FillButtonParameter(c.subType, c.parameters[0], values[buttonFields[0].id])])
  }

  /**
   * The first parameter of a button given a truthy value: a quick reply's payload, a URL's or
   * an OTP's text, a copy code's coupon code; a parameter of another type is kept.
   */
  function FillButtonParameter(subType: Option<ButtonSubType>, p: Parameter, value: string): (r: Parameter)
    ensures TypeOf(r) == TypeOf(p)
  {
    if subType == Some(QuickReply) then
      if p.PayloadParam? then PayloadParam(value) else p
    else if subType == Some(Url) || subType == Some(Otp) then
      if p.TextParam? then TextParam(value) else p
    else if subType == Some(CopyCode) then
      if p.CouponCodeParam? then CouponCodeParam(value) else p
    else p
  }

  /** `fillButtonComponent`: overwrites the first parameter of the live component. */
  method FillButtonComponent(component: LiveComponent, requiredFields: seq<RequiredField>, userValues: UserValues)
    modifies component.parameters
    ensures component.Snapshot() == FillButton(old(component.Snapshot()), requiredFields, userValues)
  {
    ghost var before := component.Snapshot();
    var buttonIndex := ParseInt(if component.index.None? || component.index.value == "" then "0" else component.index.value);
    var buttonFields := FieldsForButton(requiredFields, buttonIndex);
    assert buttonFields == FieldsForButton(requiredFields, ButtonIndexOf(before));
    if |buttonFields| == 0 {
      return;
    }
    var field := buttonFields[0];
    if !Truthy(userValues, field.id) {
      return;
    }
    var value := userValues[field.id];
    if component.parameters.Length == 0 {
      return;
    }
    var param := component.parameters[0];
    assert FillButton(before, requiredFields, userValues) ==
      before.(parameters := before.parameters[0 := FillButtonParameter(component.subType, param, value)]);
    if component.subType == Some(QuickReply) {
      if param.PayloadParam? {
        component.parameters[0] := PayloadParam(value);
      }
    } else if component.subType == Some(Url) || component.subType == Some(Otp) {
      if param.TextParam? {
        component.parameters[0] := TextParam(value);
      }
    } else if component.subType == Some(CopyCode) {
      if param.CouponCodeParam? {
        component.parameters[0] := CouponCodeParam(value);
      }
    }
  }

  // ===========================================================================
  // buildComponents
  // ===========================================================================

  /** The fill a component gets, chosen by its type. */
  function FillComponent(c: Component, fields: seq<RequiredField>, values: UserValues, rt: Runtime): (r: Component)
    ensures r.kind == c.kind && r.subType == c.subType && r.index == c.index
    ensures |r.parameters| == |c.parameters|
    ensures forall i :: 0 <= i < |c.parameters| ==> TypeOf(r.parameters[i]) == TypeOf(c.parameters[i])
  {
    match c.kind
    case Header => FillHeader(c, fields, values)
    case Body => FillBody(c, fields, values, rt)
    case Button => FillButton(c, fields, values)
  }

  /** One parameter passes the final filter's `some` test. */
  predicate HasValue(p: Parameter) {
    match p
    case TextParam(text) => text != "" && Trim(text) != ""
    case ImageParam(link) => link != "" && Trim(link) != ""
    case VideoParam(link) => link != "" && Trim(link) != ""
    case DocumentParam(link, _) => link != "" && Trim(link) != ""
    case PayloadParam(payload) => payload != "" && Trim(payload) != ""
    case CurrencyParam(_) => true
    case DateTimeParam(_) => true
    case CouponCodeParam(code) => code != "" && Trim(code) != ""
  }

  /** A component survives the filter: it has parameters and one of them has a value. */
  predicate Kept(c: Component) {
    |c.parameters| != 0 && exists i :: 0 <= i < |c.parameters| && HasValue(c.parameters[i])
  }

  /** `components.filter(Kept)`. */
  function FilterKept(cs: seq<Component>): seq<Component> {
    if cs == [] then []
    else FilterKept(cs[..|cs| - 1]) + (if Kept(cs[|cs| - 1]) then [cs[|cs| - 1]] else [])
  }

  /** Every skeleton component filled, in skeleton order. */
  function FillAll(templates: seq<Component>, fields: seq<RequiredField>, values: UserValues, rt: Runtime): (r: seq<Component>)
    ensures |r| == |templates|
    ensures forall j :: 0 <= j < |templates| ==> r[j] == FillComponent(templates[j], fields, values, rt)
  {
    seq(|templates|, j requires 0 <= j < |templates| => FillComponent(templates[j], fields, values, rt))
  }

  /** The result of `buildComponents`. */
  function Built(fields: seq<RequiredField>, values: UserValues, templates: seq<Component>, rt: Runtime): seq<Component> {
    FilterKept(FillAll(templates, fields, values, rt))
  }

  /** `structuredClone(componentsTemplate)`: fresh components with fresh parameter arrays and the same values. */
  method CloneAll(componentsTemplate: seq<LiveComponent>) returns (components: seq<LiveComponent>)
    ensures Snapshots(components) == Snapshots(componentsTemplate)
    ensures forall j :: 0 <= j < |components| ==> fresh(components[j].parameters)
    ensures forall i, j :: 0 <= i < j < |components| ==> components[i].parameters != components[j].parameters
  {
    components := [];
    for k := 0 to |componentsTemplate|
      invariant |components| == k
      invariant forall j :: 0 <= j < k ==> fresh(components[j].parameters)
      invariant forall i, j :: 0 <= i < j < k ==> components[i].parameters != components[j].parameters
      invariant forall j :: 0 <= j < k ==> components[j].Snapshot() == componentsTemplate[j].Snapshot()
    {
      var clone := new LiveComponent(componentsTemplate[k].Snapshot());
      components := components + [clone];
    }
  }

  /**
   * `buildComponents`: clone the skeleton, fill each clone by its type, keep the non-empty ones.
   * It modifies nothing that exists on entry: the caller's skeleton is left as it was.
   */
  method BuildComponents(
    requiredFields: seq<RequiredField>, userValues: UserValues, componentsTemplate: seq<LiveComponent>, rt: Runtime)
    returns (result: seq<Component>)
    ensures result == Built(requiredFields, userValues, Snapshots(componentsTemplate), rt)
  {
    ghost var templates := Snapshots(componentsTemplate);
    var components := CloneAll(componentsTemplate);
    for k := 0 to |components|
      invariant forall j :: 0 <= j < |components| ==> fresh(components[j].parameters)
      invariant forall j :: 0 <= j < k ==>
        components[j].Snapshot() == FillComponent(templates[j], requiredFields, userValues, rt)
      invariant forall j :: k <= j < |components| ==> components[j].Snapshot() == templates[j]
    {
      var component := components[k];
      ghost var before := Snapshots(components);
      if component.kind == Header {
        FillHeaderComponent(component, requiredFields, userValues);
      } else if component.kind == Body {
        FillBodyComponent(component, requiredFields, userValues, rt);
      } else {
        FillButtonComponent(component, requiredFields, userValues);
      }
      forall j | 0 <= j < |components| && j != k ensures components[j].Snapshot() == before[j] {
        assert components[j].parameters != component.parameters;
      }
    }
    assert Snapshots(components) == FillAll(templates, requiredFields, userValues, rt);
    result := FilterKept(Snapshots(components));
  }

  // ===========================================================================
  // validateRequiredFields
  // ===========================================================================

  /** The messages the validator can emit for a field labelled `label`. */
  function MissingMessage(fieldLabel: string): string { fieldLabel + " é obrigatório" }

  function BadUrlMessage(fieldLabel: string): string { fieldLabel + " deve ser uma URL válida" }

  function TooLongMessage(fieldLabel: string, maxLength: nat): string {
    fieldLabel + " não pode ter mais de " + NatToString(maxLength) + " caracteres"
  }

  function BadFormatMessage(fieldLabel: string): string { fieldLabel + " tem formato inválido" }

  /** A required value that is missing, empty or blank is reported as missing. */
  function MissingErrors(fieldLabel: string, value: string): seq<string> {
    if value == "" || Trim(value) == "" then [MissingMessage(fieldLabel)] else []
  }

  function UrlErrors(fieldLabel: string, value: string, rule: Validation, rt: Runtime): seq<string> {
    if rule.kind == UrlRule && !rt.isAbsoluteUrl(value) then [BadUrlMessage(fieldLabel)] else []
  }

  /** `value.length` counts UTF-16 code units; a `maxLength` of 0 is falsy and disables the check. */
  function LengthErrors(fieldLabel: string, value: string, rule: Validation): seq<string> {
    if rule.maxLength.Some? && rule.maxLength.value != 0 && Utf16Length(value) > rule.maxLength.value
    then [TooLongMessage(fieldLabel, rule.maxLength.value)] else []
  }

  /** An empty `pattern` is falsy and disables the check. */
  function PatternErrors(fieldLabel: string, value: string, rule: Validation, rt: Runtime): seq<string> {
    if rule.pattern.Some? && rule.pattern.value != "" && !rt.regexTest(rule.pattern.value, value)
    then [BadFormatMessage(fieldLabel)] else []
  }

  /** The checks of a validation rule on a truthy value, all of them, in order. */
  function RuleErrors(fieldLabel: string, value: string, rule: Validation, rt: Runtime): seq<string> {
    UrlErrors(fieldLabel, value, rule, rt) + LengthErrors(fieldLabel, value, rule) + PatternErrors(fieldLabel, value, rule, rt)
  }

  /** The value the validator reads for a field: `userValues[field.id]`, absent as empty. */
  function ValueOf(f: RequiredField, values: UserValues): string {
    if f.id in values then values[f.id] else ""
  }

  /** The errors of one field: none unless it is required; missing or blank first, then the rule checks on any truthy value. */
  function FieldErrors(f: RequiredField, values: UserValues, rt: Runtime): seq<string> {
    if !f.required then []
    else
      var value := ValueOf(f, values);
      MissingErrors(f.labelText, value)
      + (if value != "" && f.validation.Some? then RuleErrors(f.labelText, value, f.validation.value, rt) else [])
  }

  /** The errors of all fields, in field order. */
  function AllErrors(fields: seq<RequiredField>, values: UserValues, rt: Runtime): seq<string> {
    if fields == [] then []
    else AllErrors(fields[..|fields| - 1], values, rt) + FieldErrors(fields[|fields| - 1], values, rt)
  }

  lemma ConcatAssociative<T>(a: seq<T>, b: seq<T>, c: seq<T>)
    ensures (a + b) + c == a + (b + c)
  {
  }

  lemma AllErrorsStep(fields: seq<RequiredField>, k: nat, values: UserValues, rt: Runtime)
    requires k < |fields|
    ensures AllErrors(fields[..k + 1], values, rt) == AllErrors(fields[..k], values, rt) + FieldErrors(fields[k], values, rt)
  {
    assert fields[..k + 1][..k] == fields[..k];
  }

  /** `validateRequiredFields`: append every error of every required field; valid when there is none. */
  method ValidateRequiredFields(requiredFields: seq<RequiredField>, userValues: UserValues, rt: Runtime)
    returns (valid: bool, errors: seq<string>)
    ensures errors == AllErrors(requiredFields, userValues, rt)
    ensures valid <==> errors == []
  {
    errors := [];
    for k := 0 to |requiredFields|
      invariant errors == AllErrors(requiredFields[..k], userValues, rt)
    {
      var field := requiredFields[k];
      AllErrorsStep(requiredFields, k, userValues, rt);
      ghost var before := errors;
      if field.required {
        var value := if field.id in userValues then userValues[field.id] else "";
        assert value == ValueOf(field, userValues);
        if value == "" || Trim(value) == "" {
          errors := errors + [MissingMessage(field.labelText)];
        }
        ghost var missing := MissingErrors(field.labelText, value);
        assert errors == before + missing;
        if value != "" && field.validation.Some? {
          ghost var ruleErrors := RuleErrors(field.labelText, value, field.validation.value, rt);
          assert FieldErrors(field, userValues, rt) == missing + ruleErrors;
          errors := CheckRule(errors, field.labelText, value, field.validation.value, rt);
          ConcatAssociative(before, missing, ruleErrors);
        } else {
          assert FieldErrors(field, userValues, rt) == missing + [] == missing;
        }
      } else {
        assert FieldErrors(field, userValues, rt) == [];
      }
      assert errors == before + FieldErrors(field, userValues, rt);
    }
    assert requiredFields[..|requiredFields|] == requiredFields;
    valid := |errors| == 0;
  }

  /** The additional checks of one truthy value against its field's validation rule; no check stops the others. */
  method CheckRule(errors: seq<string>, fieldLabel: string, strValue: string, rule: Validation, rt: Runtime)
    returns (errors': seq<string>)
    ensures errors' == errors + RuleErrors(fieldLabel, strValue, rule, rt)
  {
    errors' := errors;
    if rule.kind == UrlRule {
      if !rt.isAbsoluteUrl(strValue) {
        errors' := errors' + [BadUrlMessage(fieldLabel)];
      }
    }
    if rule.maxLength.Some? && rule.maxLength.value != 0 && Utf16Length(strValue) > rule.maxLength.value {
      errors' := errors' + [TooLongMessage(fieldLabel, rule.maxLength.value)];
    }
    if rule.pattern.Some? && rule.pattern.value != "" {
      if !rt.regexTest(rule.pattern.value, strValue) {
        errors' := errors' + [BadFormatMessage(fieldLabel)];
      }
    }
  }
}

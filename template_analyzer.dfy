/**
 * The template analyzer: from a raw template definition to the field descriptors the
 * form layer renders, the zero-valued component skeleton in the exact outbound wire
 * shape, and a metadata summary.
 *
 * Each analysis step is a method that builds its lists by appending, as the source does,
 * and is proved equal to a specification function; the properties the analysis promises
 * are lemmas about those functions.
 */
module TemplateAnalyzer {
  import opened Wrappers
  import opened JsStrings
  import opened TemplateModel
  import opened PlaceholderScan

  /** `obj[key] ?? defaultValue`: a present property wins, an absent one yields the default. */
  function GetProperty<T>(value: Option<T>, default: T): (r: T)
    ensures value.Some? ==> r == value.value
    ensures value.None? ==> r == default
  {
    match value
    case Some(v) => v
    case None => default
  }

  function OptionToSeq<T>(o: Option<T>): (s: seq<T>)
    ensures o.None? ==> s == []
    ensures o.Some? ==> s == [o.value]
  {
    match o
    case Some(v) => [v]
    case None => []
  }

  // ===========================================================================
  // HEADER
  // ===========================================================================

  const HeaderImageField := RequiredField(
    HeaderImageId, Header, None, ImageType, None, "Imagem do Cabeçalho", "https://exemplo.com/imagem.jpg", true,
    Some(Validation(UrlRule, Some(10), None, None)), Some("URL da imagem (HTTPS obrigatório)"))

  const HeaderVideoField := RequiredField(
    HeaderVideoId, Header, None, VideoType, None, "Vídeo do Cabeçalho", "https://exemplo.com/video.mp4", true,
    Some(Validation(UrlRule, None, None, None)), Some("URL do vídeo (MP4 recomendado)"))

  const HeaderDocumentField := RequiredField(
    HeaderDocumentId, Header, None, DocumentType, None, "Documento do Cabeçalho", "https://exemplo.com/documento.pdf",
    true, Some(Validation(UrlRule, None, None, None)), Some("URL do documento (PDF recomendado)"))

  const HeaderDocumentFilenameField := RequiredField(
    HeaderDocumentFilenameId, Header, None, TextType, None, "Nome do Documento", "meu-documento.pdf", true,
    Some(Validation(TextRule, None, Some(255), None)), Some("Nome personalizado para o documento"))

  const HeaderTextField := RequiredField(
    HeaderTextId, Header, None, TextType, None, "Texto do Cabeçalho", "Digite o texto", true,
    Some(Validation(TextRule, None, Some(60), None)), None)

  /** The fields a header of the given `format` asks the user for. */
  function HeaderFields(format: string): (fields: seq<RequiredField>)
    ensures forall f :: f in fields ==> f.componentType == Header && f.required
    ensures format == "IMAGE" ==>
      && |fields| == 1 && fields[0].id == HeaderImageId && fields[0].parameterType == ImageType
      && fields[0].validation == Some(Validation(UrlRule, Some(10), None, None))
    ensures format == "VIDEO" ==>
      && |fields| == 1 && fields[0].id == HeaderVideoId && fields[0].parameterType == VideoType
      && fields[0].validation == Some(Validation(UrlRule, None, None, None))
    ensures format == "TEXT" ==>
      && |fields| == 1 && fields[0].id == HeaderTextId && fields[0].parameterType == TextType
      && fields[0].validation == Some(Validation(TextRule, None, Some(60), None))
    ensures format == "DOCUMENT" ==>
      && |fields| == 2
      && fields[0].id == HeaderDocumentId && fields[0].validation == Some(Validation(UrlRule, None, None, None))
      && fields[1].id == HeaderDocumentFilenameId
      && fields[1].validation == Some(Validation(TextRule, None, Some(255), None))
    ensures format !in {"IMAGE", "VIDEO", "TEXT", "DOCUMENT"} ==> fields == []
  {
    match HeaderFormatOf(format)
    case Some(ImageHeader) => [HeaderImageField]
    case Some(VideoHeader) => [HeaderVideoField]
    case Some(DocumentHeader) => [HeaderDocumentField, HeaderDocumentFilenameField]
    case Some(TextHeader) => [HeaderTextField]
    case Some(LocationHeader) => []
    case None => []
  }

  /** The header skeleton: one empty parameter of the matching type; LOCATION is present but without parameters. */
  function HeaderSkeleton(format: string): (template: Option<Component>)
    ensures template.Some? <==> format in {"IMAGE", "VIDEO", "TEXT", "DOCUMENT", "LOCATION"}
    ensures template.Some? ==> template.value.kind == Header && template.value.subType.None? && template.value.index.None?
    ensures format == "IMAGE" ==> template.value.parameters == [ImageParam("")]
    ensures format == "VIDEO" ==> template.value.parameters == [VideoParam("")]
    ensures format == "TEXT" ==> template.value.parameters == [TextParam("")]
    ensures format == "DOCUMENT" ==> template.value.parameters == [DocumentParam("", "")]
    ensures format == "LOCATION" ==> template.value.parameters == []
  {
    match HeaderFormatOf(format)
    case Some(ImageHeader) => Some(Component(Header, None, None, [ImageParam("")]))
    case Some(VideoHeader) => Some(Component(Header, None, None, [VideoParam("")]))
    case Some(DocumentHeader) => Some(Component(Header, None, None, [DocumentParam("", "")]))
    case Some(TextHeader) => Some(Component(Header, None, None, [TextParam("")]))
    case Some(LocationHeader) => Some(Component(Header, None, None, []))
    case None => None
  }

  /** `analyzeHeader`: a switch on the format that pushes the fields and sets the skeleton. */
  method AnalyzeHeader(component: RawComponent) returns (fields: seq<RequiredField>, template: Option<Component>)
    ensures fields == HeaderFields(GetProperty(component.format, ""))
    ensures template == HeaderSkeleton(GetProperty(component.format, ""))
  {
    fields := [];
    template := None;
    var format := GetProperty(component.format, "");
    match HeaderFormatOf(format) {
      case Some(ImageHeader) =>
        fields := fields + [HeaderImageField];
        template := Some(Component(Header, None, None, [ImageParam("")]));
      case Some(VideoHeader) =>
        fields := fields + [HeaderVideoField];
        template := Some(Component(Header, None, None, [VideoParam("")]));
      case Some(DocumentHeader) =>
        fields := fields + [HeaderDocumentField, HeaderDocumentFilenameField];
        template := Some(Component(Header, None, None, [DocumentParam("", "")]));
      case Some(TextHeader) =>
        fields := fields + [HeaderTextField];
        template := Some(Component(Header, None, None, [TextParam("")]));
      case Some(LocationHeader) =>
        template := Some(Component(Header, None, None, []));
      case None =>
    }
  }

  // ===========================================================================
  // BODY: parameter type inference
  // ===========================================================================

  const CurrencyCuesBefore := ["$", "€", "£", "price", "preço", "valor", "custo", "total"]
  const CurrencyCuesAfter := ["$", "€", "£"]
  const DateCuesBefore := ["data", "hora", "date", "time", "quando", "when", "dia", "day"]
  const DateCuesAfter := ["data", "hora", "date", "time"]

  /** The regular expression made of the alternatives `cues` finds a match in `s`. */
  predicate MentionsAny(s: string, cues: seq<string>) {
    exists i :: 0 <= i < |cues| && Contains(s, cues[i])
  }

  /**
   * `substring(max(0, at - 20), at)`: the characters of the 20 code units right before the
   * placeholder. A surrogate half cut off at the window's edge is left out; it matches no cue.
   */
  function ContextBefore(lower: string, at: nat): (before: string)
    requires at <= |lower|
    ensures |before| <= at && before == lower[at - |before|..at]
    ensures Utf16Length(before) <= 20
    ensures |before| < at ==> Utf16Length(lower[at - |before| - 1..at]) > 20
    ensures (forall i :: 0 <= i < at ==> Utf16Width(lower[i]) == 1) ==> |before| == if at < 20 then at else 20
  {
    WindowBefore(lower, at);
    lower[at - FittingSuffixLength(lower[..at], 20)..at]
  }

  lemma WindowBefore(lower: string, at: nat)
    requires at <= |lower|
    ensures var k := FittingSuffixLength(lower[..at], 20);
      && Utf16Length(lower[at - k..at]) <= 20
      && (k < at ==> Utf16Length(lower[at - k - 1..at]) > 20)
      && ((forall i :: 0 <= i < at ==> Utf16Width(lower[i]) == 1) ==> k == if at < 20 then at else 20)
  {
    var s := lower[..at];
    var k := FittingSuffixLength(s, 20);
    FittingSuffixFits(s, 20);
    assert s[|s| - k..] == lower[at - k..at];
    if k < at {
      FittingSuffixMaximal(s, 20);
      assert s[|s| - k - 1..] == lower[at - k - 1..at];
    }
    if forall i :: 0 <= i < at ==> Utf16Width(lower[i]) == 1 {
      FittingSuffixBmp(s, 20);
    }
  }

  /**
   * `substring(at, min(length, at + 40))`: the characters of the 40 code units starting at
   * the placeholder itself, again without a surrogate half cut off at the edge.
   */
  function ContextAfter(lower: string, at: nat): (after: string)
    requires at <= |lower|
    ensures at + |after| <= |lower| && after == lower[at..at + |after|]
    ensures Utf16Length(after) <= 40
    ensures at + |after| < |lower| ==> Utf16Length(lower[at..at + |after| + 1]) > 40
    ensures (forall i :: at <= i < |lower| ==> Utf16Width(lower[i]) == 1) ==>
      |after| == if |lower| - at < 40 then |lower| - at else 40
  {
    WindowAfter(lower, at);
    lower[at..at + FittingPrefixLength(lower[at..], 40)]
  }

  lemma WindowAfter(lower: string, at: nat)
    requires at <= |lower|
    ensures var k := FittingPrefixLength(lower[at..], 40);
      && Utf16Length(lower[at..at + k]) <= 40
      && (at + k < |lower| ==> Utf16Length(lower[at..at + k + 1]) > 40)
      && ((forall i :: at <= i < |lower| ==> Utf16Width(lower[i]) == 1) ==>
            k == if |lower| - at < 40 then |lower| - at else 40)
  {
    var s := lower[at..];
    var k := FittingPrefixLength(s, 40);
    FittingPrefixFits(s, 40);
    assert s[..k] == lower[at..at + k];
    if k < |s| {
      FittingPrefixMaximal(s, 40);
      assert s[..k + 1] == lower[at..at + k + 1];
    }
    if forall i :: at <= i < |lower| ==> Utf16Width(lower[i]) == 1 {
      assert forall i :: 0 <= i < |s| ==> Utf16Width(s[i]) == 1;
      FittingPrefixBmp(s, 40);
    }
  }

  /** The text `{{n}}` the heuristic looks for. */
  function PlaceholderText(n: nat): string {
    "{{" + NatToString(n) + "}}"
  }

  predicate CurrencyContext(before: string, after: string) {
    MentionsAny(before, CurrencyCuesBefore) || MentionsAny(after, CurrencyCuesAfter)
  }

  predicate DateContext(before: string, after: string) {
    MentionsAny(before, DateCuesBefore) || MentionsAny(after, DateCuesAfter)
  }

  /**
   * `detectParameterType`: look for the first `{{n}}` of the lower-cased text and classify
   * it from the 20 code units before it and the 40 starting at it; a currency cue wins
   * over a date cue, and no cue (or no occurrence) means plain text.
   */
  function DetectParameterType(bodyText: string, paramNumber: nat): (kind: BodyParamKind)
    ensures IndexOf(ToLower(bodyText), PlaceholderText(paramNumber)).None? ==> kind == TextKind
    ensures IndexOf(ToLower(bodyText), PlaceholderText(paramNumber)).Some? ==>
      var lower := ToLower(bodyText);
      var at := IndexOf(lower, PlaceholderText(paramNumber)).value;
      && at + |PlaceholderText(paramNumber)| <= |lower|
      && (kind == CurrencyKind <==> CurrencyContext(ContextBefore(lower, at), ContextAfter(lower, at)))
      && (kind == DateTimeKind <==>
            !CurrencyContext(ContextBefore(lower, at), ContextAfter(lower, at))
            && DateContext(ContextBefore(lower, at), ContextAfter(lower, at)))
  {
    var lower := ToLower(bodyText);
    var pattern := PlaceholderText(paramNumber);
    assert ToLower(pattern) == pattern by {
      assert forall i :: 0 <= i < |pattern| ==> !IsUpper(pattern[i]);
    }
    match IndexOf(lower, ToLower(pattern))
    case None => TextKind
    case Some(at) =>
      var before := ContextBefore(lower, at);
      var after := ContextAfter(lower, at);
      if CurrencyContext(before, after) then CurrencyKind
      else if DateContext(before, after) then DateTimeKind
      else TextKind
  }

  // ===========================================================================
  // BODY: fields and skeleton
  // ===========================================================================

  function BodyTextField(i: nat, n: nat): RequiredField {
    RequiredField(
      BodyId(i), Body, None, TextType, None, "Parâmetro " + NatToString(n) + " do Corpo",
      "Valor para {{" + NatToString(n) + "}}", true, Some(Validation(TextRule, None, Some(1024), None)), None)
  }

  function BodyCurrencyCodeField(i: nat, n: nat): RequiredField {
    RequiredField(
      BodyCurrencyCodeId(i), Body, None, CurrencyType, None, "Moeda " + NatToString(n) + " - Código", "USD", true,
      Some(Validation(TextRule, None, Some(3), None)), None)
  }

  function BodyCurrencyAmountField(i: nat, n: nat): RequiredField {
    RequiredField(
      BodyCurrencyAmountId(i), Body, None, CurrencyType, None, "Moeda " + NatToString(n) + " - Valor", "100.99", true,
      Some(Validation(NumberRule, None, None, None)), None)
  }

  function BodyDateTimeField(i: nat, n: nat): RequiredField {
    RequiredField(
      BodyDateTimeId(i), Body, None, DateTimeType, None, "Data/Hora " + NatToString(n), "DD/MM/YYYY HH:MM", true,
      Some(Validation(DateRule, None, None, None)), None)
  }

  /** The fields of the i-th match, whose literal number is `n`. */
  function PlaceholderFields(i: nat, n: nat, kind: BodyParamKind): (fields: seq<RequiredField>)
    ensures |fields| == if kind == CurrencyKind then 2 else 1
    ensures forall f :: f in fields ==> f.componentType == Body && f.required && BodyId(i) <= f.id
    ensures kind == TextKind ==>
      && fields[0].id == BodyId(i) && fields[0].parameterType == TextType
      && fields[0].validation == Some(Validation(TextRule, None, Some(1024), None))
    ensures kind == CurrencyKind ==>
      && fields[0].id == BodyCurrencyCodeId(i) && fields[0].parameterType == CurrencyType
      && fields[0].validation == Some(Validation(TextRule, None, Some(3), None))
      && fields[1].id == BodyCurrencyAmountId(i) && fields[1].parameterType == CurrencyType
      && fields[1].validation == Some(Validation(NumberRule, None, None, None))
    ensures kind == DateTimeKind ==>
      && fields[0].id == BodyDateTimeId(i) && fields[0].parameterType == DateTimeType
      && fields[0].validation == Some(Validation(DateRule, None, None, None))
  {
    match kind
    case TextKind => [BodyTextField(i, n)]
    case CurrencyKind => [BodyCurrencyCodeField(i, n), BodyCurrencyAmountField(i, n)]
    case DateTimeKind => [BodyDateTimeField(i, n)]
  }

  /** The zero-valued skeleton parameter for a kind. */
  function EmptyParameter(kind: BodyParamKind): Parameter {
    match kind
    case TextKind => TextParam("")
    case CurrencyKind => CurrencyParam(EmptyCurrency)
    case DateTimeKind => DateTimeParam(DateTime("", None))
  }

  predicate DigitMatches(ms: seq<Placeholder>) {
    forall i :: 0 <= i < |ms| ==> AllDigits(ms[i].digits)
  }

  /** `Number.parseInt(match[1], 10)`. */
  function LiteralNumber(m: Placeholder): nat
    requires AllDigits(m.digits)
  {
    DigitsValue(m.digits)
  }

  /** The inferred kind of each match, in match order. */
  function KindsOf(text: string, ms: seq<Placeholder>): (kinds: seq<BodyParamKind>)
    requires DigitMatches(ms)
    ensures |kinds| == |ms|
    ensures forall i :: 0 <= i < |ms| ==> kinds[i] == DetectParameterType(text, LiteralNumber(ms[i]))
  {
    seq(|ms|, i requires 0 <= i < |ms| => DetectParameterType(text, LiteralNumber(ms[i])))
  }

  /** The fields of the matches, in match order, each keyed by its scan index. */
  function FieldsOf(text: string, ms: seq<Placeholder>): (fields: seq<RequiredField>)
    requires DigitMatches(ms)
    ensures forall f :: f in fields ==> f.componentType == Body
  {
    if ms == [] then []
    else
      var i := |ms| - 1;
      FieldsOf(text, ms[..i]) + PlaceholderFields(i, LiteralNumber(ms[i]), DetectParameterType(text, LiteralNumber(ms[i])))
  }

  /** One zero-valued parameter per match, in match order. */
  function ParametersOf(text: string, ms: seq<Placeholder>): (ps: seq<Parameter>)
    requires DigitMatches(ms)
    ensures |ps| == |ms|
  {
    seq(|ms|, i requires 0 <= i < |ms| => EmptyParameter(DetectParameterType(text, LiteralNumber(ms[i]))))
  }

  /** Appending one match appends its fields, its parameter and its kind. */
  lemma BodyStep(text: string, ms: seq<Placeholder>, i: nat)
    requires DigitMatches(ms) && i < |ms|
    ensures DigitMatches(ms[..i]) && DigitMatches(ms[..i + 1])
    ensures var kind := DetectParameterType(text, LiteralNumber(ms[i]));
      && FieldsOf(text, ms[..i + 1]) == FieldsOf(text, ms[..i]) + PlaceholderFields(i, LiteralNumber(ms[i]), kind)
      && ParametersOf(text, ms[..i + 1]) == ParametersOf(text, ms[..i]) + [EmptyParameter(kind)]
      && KindsOf(text, ms[..i + 1]) == KindsOf(text, ms[..i]) + [kind]
  {
    FieldsStep(text, ms, i);
    ParametersStep(text, ms, i);
    KindsStep(text, ms, i);
  }

  lemma FieldsStep(text: string, ms: seq<Placeholder>, i: nat)
    requires DigitMatches(ms) && i < |ms|
    ensures DigitMatches(ms[..i]) && DigitMatches(ms[..i + 1])
    ensures FieldsOf(text, ms[..i + 1]) ==
      FieldsOf(text, ms[..i]) + PlaceholderFields(i, LiteralNumber(ms[i]), DetectParameterType(text, LiteralNumber(ms[i])))
  {
    assert ms[..i + 1][..i] == ms[..i] && ms[..i + 1][i] == ms[i];
  }

  lemma ParametersStep(text: string, ms: seq<Placeholder>, i: nat)
    requires DigitMatches(ms) && i < |ms|
    ensures DigitMatches(ms[..i]) && DigitMatches(ms[..i + 1])
    ensures ParametersOf(text, ms[..i + 1]) ==
      ParametersOf(text, ms[..i]) + [EmptyParameter(DetectParameterType(text, LiteralNumber(ms[i])))]
  {
    var prefix, longer := ms[..i], ms[..i + 1];
    var ps, ps' := ParametersOf(text, prefix), ParametersOf(text, longer);
    forall j | 0 <= j < i ensures ps'[j] == ps[j] {
      assert longer[j] == prefix[j];
    }
    assert longer[i] == ms[i];
    AppendOne(ps, ps', EmptyParameter(DetectParameterType(text, LiteralNumber(ms[i]))));
  }

  lemma KindsStep(text: string, ms: seq<Placeholder>, i: nat)
    requires DigitMatches(ms) && i < |ms|
    ensures DigitMatches(ms[..i]) && DigitMatches(ms[..i + 1])
    ensures KindsOf(text, ms[..i + 1]) == KindsOf(text, ms[..i]) + [DetectParameterType(text, LiteralNumber(ms[i]))]
  {
    var prefix, longer := ms[..i], ms[..i + 1];
    var ks, ks' := KindsOf(text, prefix), KindsOf(text, longer);
    forall j | 0 <= j < i ensures ks'[j] == ks[j] {
      assert longer[j] == prefix[j];
    }
    assert longer[i] == ms[i];
    AppendOne(ks, ks', DetectParameterType(text, LiteralNumber(ms[i])));
  }

  /** A sequence one longer than `a`, agreeing with it and ending in `x`, is `a + [x]`. */
  lemma AppendOne<T>(a: seq<T>, b: seq<T>, x: T)
    requires |b| == |a| + 1 && b[|a|] == x
    requires forall j :: 0 <= j < |a| ==> b[j] == a[j]
    ensures b == a + [x]
  {
    assert forall j :: 0 <= j < |b| ==> b[j] == (a + [x])[j];
  }

  lemma MatchesAreDigits(text: string)
    ensures DigitMatches(Matches(text))
  {
  }

  function BodyFields(text: string): seq<RequiredField> {
    MatchesAreDigits(text);
    FieldsOf(text, Matches(text))
  }

  function BodyParameterTypes(text: string): seq<BodyParamKind> {
    MatchesAreDigits(text);
    KindsOf(text, Matches(text))
  }

  function BodySkeleton(text: string): Option<Component> {
    MatchesAreDigits(text);
    var ms := Matches(text);
    if ms == [] then None else Some(Component(Body, None, None, ParametersOf(text, ms)))
  }

  /** `analyzeBody`: scan the placeholders and push, per match, its fields, parameter and type. */
  method AnalyzeBody(component: RawComponent)
    returns (fields: seq<RequiredField>, template: Option<Component>, parameterTypes: seq<BodyParamKind>)
    ensures fields == BodyFields(GetProperty(component.text, ""))
    ensures template == BodySkeleton(GetProperty(component.text, ""))
    ensures parameterTypes == BodyParameterTypes(GetProperty(component.text, ""))
  {
    fields := [];
    var parameters: seq<Parameter> := [];
    parameterTypes := [];
    var bodyText := GetProperty(component.text, "");
    var matches := Matches(bodyText);
    MatchesAreDigits(bodyText);
    if |matches| == 0 {
      return [], None, [];
    }
    for index := 0 to |matches|
      invariant fields == FieldsOf(bodyText, matches[..index])
      invariant parameters == ParametersOf(bodyText, matches[..index])
      invariant parameterTypes == KindsOf(bodyText, matches[..index])
    {
      var paramNumber := LiteralNumber(matches[index]);
      var paramType := DetectParameterType(bodyText, paramNumber);
      BodyStep(bodyText, matches, index);
      parameterTypes := parameterTypes + [paramType];
      if paramType == TextKind {
        fields := fields + [BodyTextField(index, paramNumber)];
        parameters := parameters + [TextParam("")];
      } else if paramType == CurrencyKind {
        fields := fields + [BodyCurrencyCodeField(index, paramNumber), BodyCurrencyAmountField(index, paramNumber)];
        parameters := parameters + [CurrencyParam(Currency("", "", Finite(0.0)))];
      } else {
        fields := fields + [BodyDateTimeField(index, paramNumber)];
        parameters := parameters + [DateTimeParam(DateTime("", None))];
      }
    }
    assert matches[..|matches|] == matches;
    template := Some(Component(Body, None, None, parameters));
  }

  // ===========================================================================
  // BUTTONS
  // ===========================================================================

  /** The lower-cased `type` of a raw button, as a sub-type when it names one. */
  function ButtonKindOf(b: RawButton): Option<ButtonSubType> {
    ButtonSubTypeOf(ToLower(GetProperty(b.kind, "")))
  }

  /** The four cases that need a runtime value: quick reply, URL with `{{1}}`, copy code, OTP. */
  predicate HasButtonParameter(b: RawButton) {
    ButtonKindOf(b) in {Some(QuickReply), Some(CopyCode), Some(Otp)}
    || (ButtonKindOf(b) == Some(Url) && Contains(GetProperty(b.url, ""), "{{1}}"))
  }

  function ButtonLabel(i: nat, b: RawButton, what: string): string {
    "Botão " + NatToString(i + 1) + ": " + GetProperty(b.text, "Botão") + " (" + what + ")"
  }

  /** The field of the button at position `i`, when it has one. */
  function ButtonField(i: nat, b: RawButton): (f: Option<RequiredField>)
    ensures f.Some? <==> HasButtonParameter(b)
    ensures f.Some? ==> f.value.componentType == Button && f.value.componentIndex == Some(i)
    ensures f.Some? ==> f.value.subType == ButtonKindOf(b)
    ensures f.Some? ==> (f.value.required <==> ButtonKindOf(b) != Some(QuickReply))
    ensures ButtonKindOf(b) == Some(QuickReply) ==>
      && f.value.id == ButtonFieldId(i, "payload") && f.value.parameterType == PayloadType
      && f.value.validation == Some(Validation(TextRule, None, Some(256), None))
    ensures ButtonKindOf(b) == Some(Url) && f.Some? ==>
      && f.value.id == ButtonFieldId(i, "url_suffix") && f.value.parameterType == TextType
      && f.value.validation == Some(Validation(TextRule, None, Some(2000), None))
      && f.value.hint == Some("URL base: " + ReplaceFirst(GetProperty(b.url, ""), "{{1}}", ""))
    ensures ButtonKindOf(b) == Some(CopyCode) ==>
      && f.value.id == ButtonFieldId(i, "copy_code") && f.value.parameterType == TextType
      && f.value.validation == Some(Validation(TextRule, None, Some(15), None))
    ensures ButtonKindOf(b) == Some(Otp) ==>
      && f.value.id == ButtonFieldId(i, "otp") && f.value.parameterType == TextType
      && f.value.validation == Some(Validation(TextRule, None, None, Some("^[0-9]{4,8}$")))
  {
    var url := GetProperty(b.url, "");
    match ButtonKindOf(b)
    case Some(QuickReply) =>
      Some(RequiredField(
        ButtonFieldId(i, "payload"), Button, Some(i), PayloadType, Some(QuickReply), ButtonLabel(i, b, "Payload"),
        "payload-opcional", false, Some(Validation(TextRule, None, Some(256), None)),
        Some("Payload opcional para rastrear resposta")))
    case Some(Url) =>
      if Contains(url, "{{1}}") then
        Some(RequiredField(
          ButtonFieldId(i, "url_suffix"), Button, Some(i), TextType, Some(Url), ButtonLabel(i, b, "URL"),
          "sufixo-da-url", true, Some(Validation(TextRule, None, Some(2000), None)),
          Some("URL base: " + ReplaceFirst(url, "{{1}}", ""))))
      else None
    case Some(CopyCode) =>
      Some(RequiredField(
        ButtonFieldId(i, "copy_code"), Button, Some(i), TextType, Some(CopyCode), ButtonLabel(i, b, "Código"),
        "ABC123", true, Some(Validation(TextRule, None, Some(15), None)), Some("Código que será copiado")))
    case Some(Otp) =>
      Some(RequiredField(
        ButtonFieldId(i, "otp"), Button, Some(i), TextType, Some(Otp), ButtonLabel(i, b, "OTP"),
        "123456", true, Some(Validation(TextRule, None, None, Some("^[0-9]{4,8}$"))), Some("Código OTP numérico")))
    case _ => None
  }

  /** The skeleton of the button at position `i`: one empty parameter, addressed by `index = String(i)`. */
  function ButtonSkeleton(i: nat, b: RawButton): (c: Option<Component>)
    ensures c.Some? <==> HasButtonParameter(b)
    ensures c.Some? ==>
      && c.value.kind == Button && c.value.subType == ButtonKindOf(b) && c.value.index == Some(NatToString(i))
      && |c.value.parameters| == 1
    ensures ButtonKindOf(b) == Some(QuickReply) ==> c.value.parameters == [PayloadParam("")]
    ensures ButtonKindOf(b) == Some(Url) && c.Some? ==> c.value.parameters == [TextParam("")]
    ensures ButtonKindOf(b) == Some(CopyCode) ==> c.value.parameters == [CouponCodeParam("")]
    ensures ButtonKindOf(b) == Some(Otp) ==> c.value.parameters == [TextParam("")]
  {
    var index := Some(NatToString(i));
    match ButtonKindOf(b)
    case Some(QuickReply) => Some(Component(Button, Some(QuickReply), index, [PayloadParam("")]))
    case Some(Url) =>
      if Contains(GetProperty(b.url, ""), "{{1}}") then Some(Component(Button, Some(Url), index, [TextParam("")]))
      else None
    case Some(CopyCode) => Some(Component(Button, Some(CopyCode), index, [CouponCodeParam("")]))
    case Some(Otp) => Some(Component(Button, Some(Otp), index, [TextParam("")]))
    case _ => None
  }

  function ButtonFieldsOf(bs: seq<RawButton>): (fields: seq<RequiredField>)
    ensures forall f :: f in fields ==> f.componentType == Button
  {
    if bs == [] then [] else ButtonFieldsOf(bs[..|bs| - 1]) + OptionToSeq(ButtonField(|bs| - 1, bs[|bs| - 1]))
  }

  function ButtonSkeletonsOf(bs: seq<RawButton>): (skeletons: seq<Component>)
    ensures forall k :: 0 <= k < |skeletons| ==> skeletons[k].kind == Button && skeletons[k].subType.Some?
  {
    if bs == [] then [] else ButtonSkeletonsOf(bs[..|bs| - 1]) + OptionToSeq(ButtonSkeleton(|bs| - 1, bs[|bs| - 1]))
  }

  /** `templates.map(t => t.sub_type!)`. */
  function SubTypesOf(skeletons: seq<Component>): (types: seq<ButtonSubType>)
    requires forall k :: 0 <= k < |skeletons| ==> skeletons[k].subType.Some?
    ensures |types| == |skeletons|
  {
    seq(|skeletons|, k requires 0 <= k < |skeletons| => skeletons[k].subType.value)
  }

  /** `analyzeButtons`: per button in declared order, push its field and its skeleton when it needs a value. */
  method AnalyzeButtons(component: RawComponent) returns (fields: seq<RequiredField>, templates: seq<Component>)
    ensures fields == ButtonFieldsOf(GetProperty(component.buttons, []))
    ensures templates == ButtonSkeletonsOf(GetProperty(component.buttons, []))
  {
    fields := [];
    templates := [];
    var buttons := GetProperty(component.buttons, []);
    for index := 0 to |buttons|
      invariant fields == ButtonFieldsOf(buttons[..index])
      invariant templates == ButtonSkeletonsOf(buttons[..index])
    {
      var button := buttons[index];
      var buttonType := ButtonKindOf(button);
      var buttonUrl := GetProperty(button.url, "");
      var slot := Some(NatToString(index));
      if buttonType == Some(QuickReply) {
        fields := fields + [ButtonField(index, button).value];
        templates := templates + [Component(Button, Some(QuickReply), slot, [PayloadParam("")])];
      }
      if buttonType == Some(Url) && Contains(buttonUrl, "{{1}}") {
        fields := fields + [ButtonField(index, button).value];
        templates := templates + [Component(Button, Some(Url), slot, [TextParam("")])];
      }
      if buttonType == Some(CopyCode) {
        fields := fields + [ButtonField(index, button).value];
        templates := templates + [Component(Button, Some(CopyCode), slot, [CouponCodeParam("")])];
      }
      if buttonType == Some(Otp) {
        fields := fields + [ButtonField(index, button).value];
        templates := templates + [Component(Button, Some(Otp), slot, [TextParam("")])];
      }
      assert buttons[..index + 1][..index] == buttons[..index];
    }
    assert buttons[..|buttons|] == buttons;
  }

  // ===========================================================================
  // The whole template
  // ===========================================================================

  /** The running state of `analyzeTemplate`'s loop. */
  datatype Tally = Tally(
    fields: seq<RequiredField>,
    skeleton: seq<Component>,
    hasHeader: bool,
    headerFormat: Option<string>,
    bodyParameterCount: nat,
    bodyParameterTypes: seq<BodyParamKind>,
    buttonCount: nat,
    buttonTypes: seq<ButtonSubType>)

  const InitialTally := Tally([], [], false, None, 0, [], 0, [])

  /** `typeof component.type === 'string' ? component.type : ''`. */
  function KindOf(c: RawComponent): string {
    GetProperty(c.kind, "")
  }

  /** The fields one component contributes. */
  function ComponentFields(c: RawComponent): seq<RequiredField> {
    if KindOf(c) == "HEADER" then HeaderFields(GetProperty(c.format, ""))
    else if KindOf(c) == "BODY" then BodyFields(GetProperty(c.text, ""))
    else if KindOf(c) == "BUTTONS" then ButtonFieldsOf(GetProperty(c.buttons, []))
    else []
  }

  /** The skeleton components one component contributes. */
  function ComponentSkeletons(c: RawComponent): seq<Component> {
    if KindOf(c) == "HEADER" then OptionToSeq(HeaderSkeleton(GetProperty(c.format, "")))
    else if KindOf(c) == "BODY" then OptionToSeq(BodySkeleton(GetProperty(c.text, "")))
    else if KindOf(c) == "BUTTONS" then ButtonSkeletonsOf(GetProperty(c.buttons, []))
    else []
  }

  /** One turn of the loop: append the component's fields and skeletons and overwrite its tallies. */
  function Step(t: Tally, c: RawComponent): Tally {
    var t' := t.(fields := t.fields + ComponentFields(c), skeleton := t.skeleton + ComponentSkeletons(c));
    if KindOf(c) == "HEADER" then
      t'.(hasHeader := true, headerFormat := Some(GetProperty(c.format, "")))
    else if KindOf(c) == "BODY" then
      var text := GetProperty(c.text, "");
      t'.(bodyParameterCount := |BodyFields(text)|, bodyParameterTypes := BodyParameterTypes(text))
    else if KindOf(c) == "BUTTONS" then
      var skeletons := ButtonSkeletonsOf(GetProperty(c.buttons, []));
      t'.(buttonCount := |skeletons|, buttonTypes := SubTypesOf(skeletons))
    else t'
  }

  /** The state after the loop has visited `cs`. */
  function TallyOf(cs: seq<RawComponent>): Tally {
    if cs == [] then InitialTally else Step(TallyOf(cs[..|cs| - 1]), cs[|cs| - 1])
  }

  /** Every step appends the component's fields and skeleton parts, whatever its kind. */
  lemma StepAppends(t: Tally, c: RawComponent)
    ensures Step(t, c).fields == t.fields + ComponentFields(c)
    ensures Step(t, c).skeleton == t.skeleton + ComponentSkeletons(c)
  {
  }

  /** The state after one more component is one more step. */
  lemma TallyOfPrefix(cs: seq<RawComponent>, k: nat)
    requires k < |cs|
    ensures TallyOf(cs[..k + 1]) == Step(TallyOf(cs[..k]), cs[k])
  {
    assert cs[..k + 1][..k] == cs[..k];
  }

  /** `analyzeTemplate`'s result, with `totalFields` the number of fields. */
  function Analysis(raw: RawTemplate): (a: TemplateAnalysis)
    ensures a.metadata.totalFields == |a.requiredFields|
  {
    var t := TallyOf(GetProperty(raw.components, []));
    TemplateAnalysis(
      GetProperty(raw.name, ""), GetProperty(raw.language, ""), GetProperty(raw.category, ""),
      GetProperty(raw.status, ""), t.fields, t.skeleton,
      Metadata(t.hasHeader, t.headerFormat, t.bodyParameterCount, t.bodyParameterTypes,
               t.buttonCount, t.buttonTypes, |t.fields|))
  }

  /** `analyzeTemplate`: one pass over the components in declaration order. */
  method AnalyzeTemplate(templateData: RawTemplate) returns (analysis: TemplateAnalysis)
    ensures analysis == Analysis(templateData)
  {
    var requiredFields: seq<RequiredField> := [];
    var componentsTemplate: seq<Component> := [];
    var hasHeader := false;
    var headerFormat: Option<string> := None;
    var bodyParameterCount: nat := 0;
    var bodyParameterTypes: seq<BodyParamKind> := [];
    var buttonCount: nat := 0;
    var buttonTypes: seq<ButtonSubType> := [];

    var components := GetProperty(templateData.components, []);
    for k := 0 to |components|
      invariant Tally(requiredFields, componentsTemplate, hasHeader, headerFormat, bodyParameterCount,
                      bodyParameterTypes, buttonCount, buttonTypes) == TallyOf(components[..k])
    {
      var component := components[k];
      TallyOfPrefix(components, k);
      var componentType := KindOf(component);
      if componentType == "HEADER" {
        hasHeader := true;
        headerFormat := Some(GetProperty(component.format, ""));
        var fields, headerTemplate := AnalyzeHeader(component);
        requiredFields := requiredFields + fields;
        if headerTemplate.Some? {
          componentsTemplate := componentsTemplate + [headerTemplate.value];
        }
      } else if componentType == "BODY" {
        var fields, bodyTemplate, parameterTypes := AnalyzeBody(component);
        bodyParameterCount := |fields|;
        bodyParameterTypes := parameterTypes;
        requiredFields := requiredFields + fields;
        if bodyTemplate.Some? {
          componentsTemplate := componentsTemplate + [bodyTemplate.value];
        }
      } else if componentType == "BUTTONS" {
        var fields, templates := AnalyzeButtons(component);
        buttonCount := |templates|;
        buttonTypes := SubTypesOf(templates);
        requiredFields := requiredFields + fields;
        componentsTemplate := componentsTemplate + templates;
      }
    }
    assert components[..|components|] == components;
    analysis := TemplateAnalysis(
      GetProperty(templateData.name, ""), GetProperty(templateData.language, ""),
      GetProperty(templateData.category, ""), GetProperty(templateData.status, ""),
      requiredFields, componentsTemplate,
      Metadata(hasHeader, headerFormat, bodyParameterCount, bodyParameterTypes, buttonCount, buttonTypes,
               |requiredFields|));
  }
}

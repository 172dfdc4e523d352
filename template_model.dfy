/**
 * The data of the WhatsApp template pipeline: the raw template definition read from the
 * messaging platform, the field descriptors the analyzer emits for the form layer, the
 * component/parameter wire shape of a "send template message" request, and the field-id
 * convention through which the analyzer and the builder meet.
 */
module TemplateModel {
  import opened Wrappers
  import opened JsStrings

  // ---------------------------------------------------------------------------
  // Closed variants
  // ---------------------------------------------------------------------------

  /** The `type` of an outbound component (`'header' | 'body' | 'button'`). */
  datatype ComponentType = Header | Body | Button

  /** A header's `format`. */
  datatype HeaderFormat = TextHeader | ImageHeader | VideoHeader | DocumentHeader | LocationHeader

  /** A button's sub-type, as the lower-cased raw `type` names it. */
  datatype ButtonSubType = QuickReply | Url | PhoneNumber | CopyCode | Catalog | Otp | Flow

  /** The `type` tag of a parameter. */
  datatype ParameterType =
    | TextType | CurrencyType | DateTimeType | ImageType | VideoType | DocumentType | PayloadType | CouponCodeType

  /** What the body heuristic guesses a placeholder to be: `'text' | 'currency' | 'date_time'`. */
  datatype BodyParamKind = TextKind | CurrencyKind | DateTimeKind

  /** `validation.type` of a field descriptor. */
  datatype ValidationType = UrlRule | TextRule | EmailRule | PhoneRule | NumberRule | CurrencyRule | DateRule

  function HeaderFormatOf(s: string): (r: Option<HeaderFormat>)
    ensures r.Some? <==> s in {"TEXT", "IMAGE", "VIDEO", "DOCUMENT", "LOCATION"}
  {
    if s == "TEXT" then Some(TextHeader)
    else if s == "IMAGE" then Some(ImageHeader)
    else if s == "VIDEO" then Some(VideoHeader)
    else if s == "DOCUMENT" then Some(DocumentHeader)
    else if s == "LOCATION" then Some(LocationHeader)
    else None
  }

  function ButtonSubTypeOf(s: string): (r: Option<ButtonSubType>)
    ensures r.Some? <==> s in {"quick_reply", "url", "phone_number", "copy_code", "catalog", "otp", "flow"}
  {
    if s == "quick_reply" then Some(QuickReply)
    else if s == "url" then Some(Url)
    else if s == "phone_number" then Some(PhoneNumber)
    else if s == "copy_code" then Some(CopyCode)
    else if s == "catalog" then Some(Catalog)
    else if s == "otp" then Some(Otp)
    else if s == "flow" then Some(Flow)
    else None
  }

  // ---------------------------------------------------------------------------
  // Raw template definition (third-party JSON; an absent property is `None`)
  // ---------------------------------------------------------------------------

  datatype RawButton = RawButton(kind: Option<string>, text: Option<string>, url: Option<string>)

  datatype RawComponent = RawComponent(
    kind: Option<string>,
    format: Option<string>,
    text: Option<string>,
    buttons: Option<seq<RawButton>>)

  datatype RawTemplate = RawTemplate(
    name: Option<string>,
    language: Option<string>,
    category: Option<string>,
    status: Option<string>,
    components: Option<seq<RawComponent>>)

  // ---------------------------------------------------------------------------
  // Field descriptors
  // ---------------------------------------------------------------------------

  datatype Validation = Validation(
    kind: ValidationType,
    minLength: Option<nat>,
    maxLength: Option<nat>,
    pattern: Option<string>)

  datatype RequiredField = RequiredField(
    id: string,
    componentType: ComponentType,
    componentIndex: Option<nat>,
    parameterType: ParameterType,
    subType: Option<ButtonSubType>,
    labelText: string,
    placeholder: string,
    required: bool,
    validation: Option<Validation>,
    hint: Option<string>)

  // ---------------------------------------------------------------------------
  // Outbound wire shape
  // ---------------------------------------------------------------------------

  /** A JavaScript number as far as amounts and date getters need it: finite, or NaN/Infinity. */
  datatype Num = Finite(value: real) | NonFinite

  /** `n + k` on a JavaScript number: NaN and Infinity stay non-finite. */
  function Plus(n: Num, k: int): (r: Num)
    ensures n.Finite? <==> r.Finite?
    ensures n.Finite? ==> r.value - n.value == k as real
  {
    match n
    case Finite(x) => Finite(x + k as real)
    case NonFinite => NonFinite
  }

  /** `Math.round(n * 1000)`: `Math.round(x)` is `floor(x + 0.5)`; NaN and Infinity stay non-finite. */
  function Thousandths(n: Num): (r: Num)
    ensures n.Finite? <==> r.Finite?
    ensures n.Finite? ==> r.value == r.value.Floor as real
    ensures n.Finite? ==> n.value * 1000.0 - 0.5 < r.value <= n.value * 1000.0 + 0.5
  {
    match n
    case Finite(x) => Finite((x * 1000.0 + 0.5).Floor as real)
    case NonFinite => NonFinite
  }

  datatype Currency = Currency(fallbackValue: string, code: string, amount1000: Num)

  /** The calendar fields `fillBodyComponent` adds to a `date_time` parameter once it is filled. */
  datatype CalendarFields = CalendarFields(
    dayOfWeek: Num, year: Num, month: Num, dayOfMonth: Num, hour: Num, minute: Num, calendar: string)

  datatype DateTime = DateTime(fallbackValue: string, fields: Option<CalendarFields>)

  datatype Parameter =
    | TextParam(text: string)
    | ImageParam(imageLink: string)
    | VideoParam(videoLink: string)
    | DocumentParam(documentLink: string, filename: string)
    | CurrencyParam(currency: Currency)
    | DateTimeParam(dateTime: DateTime)
    | PayloadParam(payload: string)
    | CouponCodeParam(couponCode: string)

  /** The parameter's `type` tag. */
  function TypeOf(p: Parameter): ParameterType {
    match p
    case TextParam(_) => TextType
    case ImageParam(_) => ImageType
    case VideoParam(_) => VideoType
    case DocumentParam(_, _) => DocumentType
    case CurrencyParam(_) => CurrencyType
    case DateTimeParam(_) => DateTimeType
    case PayloadParam(_) => PayloadType
    case CouponCodeParam(_) => CouponCodeType
  }

  /** `{type, sub_type?, index?, parameters}`. */
  datatype Component = Component(
    kind: ComponentType,
    subType: Option<ButtonSubType>,
    index: Option<string>,
    parameters: seq<Parameter>)

  /** The zeroed currency parameter of a skeleton. */
  const EmptyCurrency := Currency("", "", Finite(0.0))

  /** `fields.filter(f => f.componentType === ct)`. */
  function FieldsOfType(fields: seq<RequiredField>, ct: ComponentType): (r: seq<RequiredField>)
    ensures |r| <= |fields|
    ensures forall f :: f in r <==> f in fields && f.componentType == ct
  {
    if fields == [] then []
    else
      var last := fields[|fields| - 1];
      FieldsOfType(fields[..|fields| - 1], ct) + (if last.componentType == ct then [last] else [])
  }

  /** Filtering distributes over concatenation. */
  lemma {:induction false} FieldsOfTypeAppend(a: seq<RequiredField>, b: seq<RequiredField>, ct: ComponentType)
    ensures FieldsOfType(a + b, ct) == FieldsOfType(a, ct) + FieldsOfType(b, ct)
  {
    if b != [] {
      var b' := b[..|b| - 1];
      assert (a + b)[..|a + b| - 1] == a + b';
      assert (a + b)[|a + b| - 1] == b[|b| - 1];
      FieldsOfTypeAppend(a, b', ct);
    } else {
      assert a + b == a;
    }
  }

  /** How many components have the given `type`. */
  function CountOfKind(cs: seq<Component>, ct: ComponentType): (n: nat)
    ensures n <= |cs|
  {
    if cs == [] then 0 else CountOfKind(cs[..|cs| - 1], ct) + (if cs[|cs| - 1].kind == ct then 1 else 0)
  }

  lemma {:induction false} CountOfKindAppend(a: seq<Component>, b: seq<Component>, ct: ComponentType)
    ensures CountOfKind(a + b, ct) == CountOfKind(a, ct) + CountOfKind(b, ct)
  {
    if b != [] {
      var b' := b[..|b| - 1];
      assert (a + b)[..|a + b| - 1] == a + b';
      CountOfKindAppend(a, b', ct);
    } else {
      assert a + b == a;
    }
  }

  // ---------------------------------------------------------------------------
  // Analysis result
  // ---------------------------------------------------------------------------

  datatype Metadata = Metadata(
    hasHeader: bool,
    headerFormat: Option<string>,
    bodyParameterCount: nat,
    bodyParameterTypes: seq<BodyParamKind>,
    buttonCount: nat,
    buttonTypes: seq<ButtonSubType>,
    totalFields: nat)

  datatype TemplateAnalysis = TemplateAnalysis(
    name: string,
    language: string,
    category: string,
    status: string,
    requiredFields: seq<RequiredField>,
    componentsTemplate: seq<Component>,
    metadata: Metadata)

  // ---------------------------------------------------------------------------
  // The field-id convention shared by the analyzer and the builder
  // ---------------------------------------------------------------------------

  const HeaderImageId := "header_image"
  const HeaderVideoId := "header_video"
  const HeaderDocumentId := "header_document"
  const HeaderDocumentFilenameId := "header_document_filename"
  const HeaderTextId := "header_text"

  /** `body_{i}`: the text value of the i-th placeholder of the body, in scan order. */
  function BodyId(i: nat): string { "body_" + NatToString(i) }

  function BodyCurrencyCodeId(i: nat): string { BodyId(i) + "_currency_code" }

  function BodyCurrencyAmountId(i: nat): string { BodyId(i) + "_currency_amount" }

  function BodyDateTimeId(i: nat): string { BodyId(i) + "_datetime" }

  /** `button_{i}_{slot}`: the value of the button at position i. */
  function ButtonFieldId(i: nat, slot: string): string { "button_" + NatToString(i) + "_" + slot }

  // ---------------------------------------------------------------------------
  // The JavaScript runtime services the builder and the validator call
  // ---------------------------------------------------------------------------

  /**
   * What `new Date(s)` exposes through its getters (`getMonth` is 0-based). The getters
   * of an Invalid Date return NaN, so each is a `Num`.
   */
  datatype JsDate = JsDate(
    localeDateString: string, day: Num, fullYear: Num, month: Num, date: Num, hours: Num, minutes: Num)

  /**
   * `Number.parseFloat`, `Number.prototype.toFixed(2)`, `new Date(s)` with
   * `toLocaleDateString('pt-BR')`, `new URL(s)` succeeding, and `new RegExp(p).test(s)`.
   */
  datatype Runtime = Runtime(
    parseFloat: string -> Num,
    toFixed2: Num -> string,
    parseDate: string -> JsDate,
    isAbsoluteUrl: string -> bool,
    regexTest: (string, string) -> bool)
}

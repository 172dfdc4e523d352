# WhatsApp template pipeline: analyzer, component builder, validator and log redaction

This project models the core of a WhatsApp broadcast back office in Dafny:

- **The template analyzer** reads a raw WhatsApp message template (HEADER, BODY and BUTTONS components). It produces:
  - the field descriptors the form layer renders;
  - a zero-valued component skeleton in the exact shape of a "send template message" request;
  - a metadata summary.
- **The component builder** deep-copies that skeleton and fills the copy in place from the user's `id -> value` map. It then drops the components that are still empty.
- **The validator** collects the error messages of the required fields.
- **The error logger's redaction** is a shallow copy of a request body or of its headers in which sensitive keys are masked.

The two halves meet through a field-id convention: `header_image`, `body_{i}`, `body_{i}_currency_code`, `button_{i}_payload`, …. The central property is the round trip between them. Every id the analyzer emits is the id the builder looks up. So a value supplied for `body_i` lands in skeleton parameter `i`, and in no other.

Files:

| file | module | contents |
|---|---|---|
| `wrappers.dfy` | `Wrappers` | `Option` |
| `js_strings.dfy` | `JsStrings` | the JavaScript string built-ins the code calls: `toLowerCase`/`toUpperCase`, `trim`, `indexOf`, `includes`, `replace`, `String(n)`, `parseInt` |
| `placeholder_scan.dfy` | `PlaceholderScan` | `bodyText.matchAll(/\{\{(\d+)\}\}/g)` as a scan function, with its exactness proof |
| `template_model.dfy` | `TemplateModel` | raw template, field descriptors, outbound components and parameters, the id convention, `Math.round`, the runtime services as a parameter |
| `template_analyzer.dfy` | `TemplateAnalyzer` | `analyzeHeader`, `detectParameterType`, `analyzeBody`, `analyzeButtons`, `analyzeTemplate`: methods with loops, proved equal to specification functions |
| `template_analyzer_facts.dfy` | `TemplateAnalyzerFacts` | what the analysis promises |
| `component_builder.dfy` | `ComponentBuilder` | the live copy as a class over a parameter array; `fillHeaderComponent`, `fillBodyComponent`, `fillButtonComponent` update it in place; `buildComponents`; `validateRequiredFields` |
| `component_builder_facts.dfy` | `ComponentBuilderFacts` | what the builder and the validator promise |
| `pipeline_round_trip.dfy` | `PipelineRoundTrip` | analyzer ids versus builder lookups, for header, body and buttons |
| `error_logger.dfy` | `ErrorLogger` | `sanitizeRequestBody`, `sanitizeHeaders` |

The code behaves as follows where a reader might expect otherwise, and the model follows the code:

- `validateRequiredFields` checks only fields whose `required` flag is set. Even the URL, length and pattern checks of an optional field with a value are skipped.
- A whitespace-only value is reported missing, and it is still run through its rule checks.
- `metadata.bodyParameterCount` is the number of body *fields*, so a currency placeholder counts twice.
- `metadata.buttonCount` is the number of button *skeletons*.
- When a template has several components of one kind, the last one's values win the metadata.

## Model

| member | source | states |
|---|---|---|
| TemplateAnalyzer.GetProperty | express/src/services/templateAnalyzer.ts:94-96 | a present property is returned as is; an absent one yields the default |
| TemplateAnalyzer.HeaderFields | express/src/services/templateAnalyzer.ts:101-236 | IMAGE, VIDEO and TEXT headers ask for exactly one required field (`header_image`, `header_video`, `header_text`) of the matching type. Its rule is a URL of at least 10 characters, a URL, or text of at most 60 characters. DOCUMENT asks for `header_document` (URL rule) and `header_document_filename` (max 255). Any other format asks for nothing. |
| TemplateAnalyzer.HeaderSkeleton | express/src/services/templateAnalyzer.ts:101-236 | a skeleton exists iff the format is one of the five known ones. It holds one empty parameter of the matching type: `document` with empty link and file name; LOCATION has no parameters. |
| TemplateAnalyzer.AnalyzeHeader | express/src/services/templateAnalyzer.ts:101-236 | the switch pushes exactly `HeaderFields(format)` and sets `HeaderSkeleton(format)` |
| TemplateAnalyzer.ContextBefore | express/src/services/templateAnalyzer.ts:361 | the text ending right before the placeholder that fits in 20 UTF-16 code units. One more character would not fit, unless the window already reaches the start. Where every character is one code unit, it is the last `min(at, 20)` characters. |
| TemplateAnalyzer.ContextAfter | express/src/services/templateAnalyzer.ts:362-365 | the text starting at the placeholder that fits in 40 UTF-16 code units. One more character would not fit, unless the window already reaches the end. Where every character is one code unit, it is the next `min(length - at, 40)` characters. |
| TemplateAnalyzer.DetectParameterType | express/src/services/templateAnalyzer.ts:353-383 | no occurrence of `{{n}}` in the lower-cased text gives `text`. Otherwise the result is `currency` iff a currency cue is in the window of 20 code units before it or of 40 starting at it. It is `date_time` iff there is no currency cue but a date cue. |
| TemplateAnalyzer.PlaceholderFields | express/src/services/templateAnalyzer.ts:267-340 | one field per placeholder, two for a currency; all body-typed, required, with ids prefixed by `body_{i}`. Text: id `body_{i}`, text type, maximum length 1024. Currency: `body_{i}_currency_code` with maximum length 3, then `body_{i}_currency_amount` with the number rule, both currency-typed. Date: `body_{i}_datetime`, date_time type, date rule |
| TemplateAnalyzer.KindsOf | express/src/services/templateAnalyzer.ts:260-265 | one inferred kind per match, in match order |
| TemplateAnalyzer.ParametersOf | express/src/services/templateAnalyzer.ts:260-340 | one skeleton parameter per match |
| TemplateAnalyzer.BodyStep | express/src/services/templateAnalyzer.ts:260-340 | one loop turn appends the match's fields, its empty parameter and its kind |
| TemplateAnalyzer.AnalyzeBody | express/src/services/templateAnalyzer.ts:241-348 | the loop over the matches builds exactly the specification's fields, skeleton and parameter types; no match gives no fields and no skeleton |
| TemplateAnalyzer.ButtonField | express/src/services/templateAnalyzer.ts:397-523 | a button has a field iff it is a quick reply, a copy code, an OTP, or a URL containing `{{1}}`. The field is button-typed, at the button's own position, with its sub-type; it is optional iff it is a quick reply. Per sub-type: `button_{i}_payload`, payload type, maximum 256; `button_{i}_url_suffix`, text, maximum 2000, hinting the URL with `{{1}}` removed; `button_{i}_copy_code`, text, maximum 15; `button_{i}_otp`, text, pattern `^[0-9]{4,8}$` |
| TemplateAnalyzer.ButtonSkeleton | express/src/services/templateAnalyzer.ts:397-523 | a skeleton exists under the same condition. Its index is `String(position)` and it holds one empty parameter of the sub-type's kind. |
| TemplateAnalyzer.SubTypesOf | express/src/services/templateAnalyzer.ts:567 | one sub-type per button skeleton |
| TemplateAnalyzer.AnalyzeButtons | express/src/services/templateAnalyzer.ts:388-526 | the loop over the buttons builds exactly the specification's fields and skeletons |
| TemplateAnalyzer.Analysis | express/src/services/templateAnalyzer.ts:585 | `totalFields` is the number of required fields |
| TemplateAnalyzer.AnalyzeTemplate | express/src/services/templateAnalyzer.ts:531-591 | one pass over the components in declaration order yields exactly `Analysis(template)`, tallies included |
| PlaceholderScan.MatchesFrom | express/src/services/templateAnalyzer.ts:252-254 | every match found is a placeholder at its position, and matches do not overlap |
| PlaceholderScan.MatchesFromComplete | express/src/services/templateAnalyzer.ts:252-254 | every placeholder at or after the scan's start is the position of one of its matches |
| PlaceholderScan.MatchesExact | express/src/services/templateAnalyzer.ts:252-254 | the scan finds every placeholder occurrence that does not start inside an earlier one, and only those, in strictly increasing order |
| PlaceholderScan.NoMatchIffNoPlaceholder | express/src/services/templateAnalyzer.ts:252-258 | the scan is empty iff the text contains no `{{digits}}` at all |
| PlaceholderScan.OneDigitPlaceholder | express/src/services/templateAnalyzer.ts:252-254 | `{{d}}` is matched where it stands, and the scan resumes right after it |
| TemplateAnalyzerFacts.BodyWithoutPlaceholders | express/src/services/templateAnalyzer.ts:253-258 | a body without any `{{digits}}` yields no fields, no parameter types and no skeleton, and conversely |
| TemplateAnalyzerFacts.BodySkeletonFollowsText | express/src/services/templateAnalyzer.ts:260-345 | the body skeleton has one parameter per placeholder, in strictly increasing text order; each is the empty parameter of its inferred kind |
| TemplateAnalyzerFacts.FieldsOfCount | express/src/services/templateAnalyzer.ts:260-340 | the number of body fields is the number of matches plus the number of currency matches |
| TemplateAnalyzerFacts.BodyFieldCount | express/src/services/templateAnalyzer.ts:260-340 | the same count for a whole body text |
| TemplateAnalyzerFacts.FieldsOfCover | express/src/services/templateAnalyzer.ts:260-340 | the fields of the i-th match are among the body fields |
| TemplateAnalyzerFacts.FieldsOfOrigin | express/src/services/templateAnalyzer.ts:260-340 | every body field belongs to some match |
| TemplateAnalyzerFacts.BodyFieldsByMatch | express/src/services/templateAnalyzer.ts:260-340 | the body fields are exactly the union of the per-match fields |
| TemplateAnalyzerFacts.ButtonPositionsExact | express/src/services/templateAnalyzer.ts:397-523 | the positions of the buttons that need a value are strictly increasing, and are exactly the positions of those buttons |
| TemplateAnalyzerFacts.ButtonFieldsAligned | express/src/services/templateAnalyzer.ts:397-523 | the k-th button field is the field of the k-th button that needs a value |
| TemplateAnalyzerFacts.ButtonSkeletonsAligned | express/src/services/templateAnalyzer.ts:397-523 | the k-th button skeleton is the skeleton of the same button |
| TemplateAnalyzerFacts.ButtonsAligned | express/src/services/templateAnalyzer.ts:397-523 | fields and skeletons are aligned pairwise with the positions of the buttons that need a value |
| TemplateAnalyzerFacts.ButtonSkeletonsAtMostButtons | express/src/services/templateAnalyzer.ts:397-523 | there are no more skeletons than buttons, and as many fields as skeletons |
| TemplateAnalyzerFacts.FlattenAppend | express/src/services/templateAnalyzer.ts:544-573 | the parts of the components, concatenated in order, distribute over appending one component |
| TemplateAnalyzerFacts.FlattenContains | express/src/services/templateAnalyzer.ts:544-573 | every part of any one component is among the concatenated parts |
| TemplateAnalyzerFacts.FlattenOrigin | express/src/services/templateAnalyzer.ts:544-573 | every concatenated part comes from some component |
| TemplateAnalyzerFacts.AnalysisInDeclarationOrder | express/src/services/templateAnalyzer.ts:544-573 | the analysis' fields and skeletons are those of the components concatenated in declaration order |
| TemplateAnalyzerFacts.FlatContains | express/src/services/templateAnalyzer.ts:544-573 | every field and skeleton part of any component appears in the analysis |
| TemplateAnalyzerFacts.FlatSkeletonOrigin | express/src/services/templateAnalyzer.ts:544-573 | every skeleton component comes from some declared component |
| TemplateAnalyzerFacts.HasHeaderIff | express/src/services/templateAnalyzer.ts:550-552 | `hasHeader` holds iff some component has type HEADER |
| TemplateAnalyzerFacts.ComponentFieldsTyped | express/src/services/templateAnalyzer.ts:550-570 | a HEADER, BODY or BUTTONS component contributes only header-, body- or button-typed fields; any other type contributes none |
| TemplateAnalyzerFacts.ComponentSkeletonsTyped | express/src/services/templateAnalyzer.ts:550-570 | the same for skeleton components |
| TemplateAnalyzerFacts.BodyParameterCountIsBodyFields | express/src/services/templateAnalyzer.ts:557-559 | with at most one BODY component, `bodyParameterCount` is the number of body fields, not the number of placeholders |
| TemplateAnalyzerFacts.ButtonCountIsButtonSkeletons | express/src/services/templateAnalyzer.ts:564-566 | with at most one BUTTONS component, `buttonCount` is the number of button skeletons, not of buttons |
| TemplateAnalyzerFacts.AnalysisShape | express/src/services/templateAnalyzer.ts:531-591 | the whole analysis in the terms above: declaration order, `totalFields`, `hasHeader` and both counters |
| TemplateAnalyzerFacts.NoCueIn | express/src/services/templateAnalyzer.ts:368-380 | text of braces and digits mentions no cue that starts with another character |
| TemplateAnalyzerFacts.BracesAndDigitsAreText | express/src/services/templateAnalyzer.ts:353-383 | in a body made only of braces and digits, every placeholder number is classified as plain text |
| TemplateAnalyzerFacts.FieldsOfPlainText | express/src/services/templateAnalyzer.ts:260-340 | where every match is plain text, the k-th body field is the text field of the k-th match, keyed `body_k` |
| TemplateAnalyzerFacts.ThreePlaceholdersExample | express/src/services/templateAnalyzer.ts:260-340 | `{{1}}{{2}}{{3}}` gives three parameters, the kinds `[text, text, text]`, and three text fields keyed `body_0`, `body_1`, `body_2` |
| TemplateAnalyzerFacts.SecondPlaceholderAloneExample | express/src/services/templateAnalyzer.ts:260-340 | `{{2}}` alone gives the kinds `[text]` and one text field keyed `body_0`, although its number is 2 |
| ComponentBuilder.FindById | front/src/app/lib/componentBuilder.ts:121-122 | `find` returns the first field with the id, and none iff no field has it |
| ComponentBuilder.FieldsForButton | front/src/app/lib/componentBuilder.ts:219-221 | the filter keeps exactly the button fields at the parsed button index |
| ComponentBuilder.LiveComponent.constructor | front/src/app/lib/componentBuilder.ts:72 | the copy has the skeleton's contents in a fresh parameter array |
| ComponentBuilder.Snapshots | front/src/app/lib/componentBuilder.ts:72 | the values of the live components, element by element |
| ComponentBuilder.FillHeaderParameter | front/src/app/lib/componentBuilder.ts:119-151 | the header parameter keeps its type |
| ComponentBuilder.FillHeader | front/src/app/lib/componentBuilder.ts:107-152 | only the first parameter can change, and every parameter keeps its type |
| ComponentBuilder.FillHeaderComponent | front/src/app/lib/componentBuilder.ts:107-152 | the in-place update leaves the component equal to `FillHeader` of its old value |
| ComponentBuilder.FilledDateTime | front/src/app/lib/componentBuilder.ts:194-202 | the fallback is the pt-BR locale date, the calendar is GREGORIAN, and the month is `getMonth() + 1`; a NaN month (an Invalid Date) stays NaN |
| ComponentBuilder.FillBodyParameter | front/src/app/lib/componentBuilder.ts:165-206 | each body parameter keeps its type |
| ComponentBuilder.FillBody | front/src/app/lib/componentBuilder.ts:157-208 | the body keeps its identity, its length and its parameter types |
| ComponentBuilder.FillBodySlot | front/src/app/lib/componentBuilder.ts:165-206 | one turn of the loop overwrites the parameter at its index with `FillBodyParameter` of its old value and leaves every other slot alone |
| ComponentBuilder.FillBodyComponent | front/src/app/lib/componentBuilder.ts:157-208 | the loop over the parameter array leaves it equal to `FillBody` of its old value |
| ComponentBuilder.FillButtonParameter | front/src/app/lib/componentBuilder.ts:233-246 | the parameter keeps its type; what it becomes on a skeleton is stated by `FillOneParameterButton` |
| ComponentBuilder.FillButton | front/src/app/lib/componentBuilder.ts:213-247 | only the first parameter can change, and every parameter keeps its type |
| ComponentBuilder.FillButtonComponent | front/src/app/lib/componentBuilder.ts:213-247 | the in-place update leaves the component equal to `FillButton` of its old value |
| ComponentBuilder.FillComponent | front/src/app/lib/componentBuilder.ts:75-83 | the dispatch keeps kind, sub-type, index, length and parameter types |
| ComponentBuilder.FillAll | front/src/app/lib/componentBuilder.ts:75-83 | every skeleton component is filled, in order |
| ComponentBuilder.CloneAll | front/src/app/lib/componentBuilder.ts:72 | `structuredClone`: equal contents, fresh and pairwise distinct parameter arrays |
| ComponentBuilder.BuildComponents | front/src/app/lib/componentBuilder.ts:67-102 | the result is the filtered filling of the skeleton's contents, and the caller's skeleton objects are not written |
| ComponentBuilder.CheckRule | front/src/app/lib/componentBuilder.ts:267-291 | appends exactly the URL, length and pattern messages of a rule, in that order; the length is counted in UTF-16 code units, and a limit of 0 disables it |
| ComponentBuilder.ValidateRequiredFields | front/src/app/lib/componentBuilder.ts:252-298 | the errors are every field's messages in field order, and `valid` holds iff there are none |
| ComponentBuilderFacts.HasValueIffNotBlank | front/src/app/lib/componentBuilder.ts:90-99 | a string parameter counts as filled iff its string is not blank; a currency or date/time always counts |
| ComponentBuilderFacts.KeptIndicesExact | front/src/app/lib/componentBuilder.ts:86-101 | the kept positions are strictly increasing and are exactly those of the components that pass the filter |
| ComponentBuilderFacts.FilterKeptAligned | front/src/app/lib/componentBuilder.ts:86-101 | the filter's output is the input at the kept positions |
| ComponentBuilderFacts.BuiltIsFilledSubsequence | front/src/app/lib/componentBuilder.ts:67-102 | the result is an order-preserving subsequence of the filled skeleton, never longer, holding exactly the filled components with a value |
| ComponentBuilderFacts.BuiltSingle | front/src/app/lib/componentBuilder.ts:67-102 | a one-component skeleton gives that component filled, or nothing |
| ComponentBuilderFacts.CurrencyOrDateTimeAlwaysKept | front/src/app/lib/componentBuilder.ts:96-97 | a component with a currency or date/time parameter is never dropped |
| ComponentBuilderFacts.NoParametersDropped | front/src/app/lib/componentBuilder.ts:87 | a component without parameters is always dropped |
| ComponentBuilderFacts.QuickReplyKeptIff | front/src/app/lib/componentBuilder.ts:213-236 | a quick reply survives iff its field's value is non-blank, which becomes the payload; without a payload value it is absent |
| ComponentBuilderFacts.UrlButtonFilledIsPresent | front/src/app/lib/componentBuilder.ts:237-240 | a URL button with a non-blank value is present, with that value as its text |
| ComponentBuilderFacts.CurrencyFillRule | front/src/app/lib/componentBuilder.ts:172-186 | the currency changes only when both fields exist and both values are truthy. Then the code is `ToUpper` of the raw code: no lower-case letter remains, and unless the code holds `ß` the length is kept with every character that has no capital left in place. The amount is the rounding of the thousandths, and the fallback is the raw code, a space and the 2-decimal amount. |
| ComponentBuilderFacts.CurrencyExample | front/src/app/lib/componentBuilder.ts:180-184 | `usd` and `12.5` give code `USD`, 12500 thousandths and fallback `usd 12.50` |
| ComponentBuilderFacts.DocumentHeaderFill | front/src/app/lib/componentBuilder.ts:120-136 | a document link is set only from a truthy URL value; the file name is replaced only by a non-blank value and otherwise keeps its default |
| ComponentBuilderFacts.BuildTwice | front/src/app/lib/componentBuilder.ts:72 | two builds from the same skeleton objects are each computed from the untouched skeleton |
| ComponentBuilderFacts.AllErrorsAppend | front/src/app/lib/componentBuilder.ts:258-293 | the errors of concatenated field lists are concatenated |
| ComponentBuilderFacts.OnlyRequiredFieldsReport | front/src/app/lib/componentBuilder.ts:259 | dropping the optional fields changes no message |
| ComponentBuilderFacts.NoErrorsIffEveryFieldPasses | front/src/app/lib/componentBuilder.ts:295-297 | the input is valid iff every single field passes |
| ComponentBuilderFacts.RequiredFieldErrors | front/src/app/lib/componentBuilder.ts:259-292 | an absent or empty value is only reported missing. Any other value goes through its rule checks and is also reported missing when blank. A field passes only with a non-blank value. |
| ComponentBuilderFacts.WhitespaceValueStillChecked | front/src/app/lib/componentBuilder.ts:262-282 | three spaces against a limit of two characters are reported both missing and too long |
| ComponentBuilderFacts.AstralCharactersCountTwice | front/src/app/lib/componentBuilder.ts:278 | eight U+1F389 characters are 16 code units, so they break a 15-character limit |
| PipelineRoundTrip.BodyParameterRoundTrip | front/src/app/lib/componentBuilder.ts:165-206 | with the analyzer's body fields available, parameter i is filled from the ids of the i-th placeholder: `body_i`, the currency pair, or `body_i_datetime` |
| PipelineRoundTrip.BodyRoundTrip | front/src/app/lib/componentBuilder.ts:157-208 | the same for every position of a body skeleton |
| PipelineRoundTrip.BodyIdsDistinct | express/src/services/templateAnalyzer.ts:269-322 | `body_i` differs from every id another position j reads |
| PipelineRoundTrip.BodyValueStaysAtItsPosition | front/src/app/lib/componentBuilder.ts:165-170 | a value under `body_i` changes no parameter other than the i-th |
| PipelineRoundTrip.BodyRoundTripInTemplate | express/src/services/templateAnalyzer.ts:557-563 | every BODY skeleton of an analysis is in its skeleton list and is filled position by position from the analysis' own fields |
| PipelineRoundTrip.ButtonLookup | front/src/app/lib/componentBuilder.ts:218-226 | the k-th button skeleton parses back to its button's position and looks up exactly the k-th button field |
| PipelineRoundTrip.ButtonSkeletonShape | express/src/services/templateAnalyzer.ts:420-520 | a button skeleton is a quick reply, URL, copy code or OTP with one empty parameter of its kind |
| PipelineRoundTrip.FillButtonSkeleton | front/src/app/lib/componentBuilder.ts:213-247 | a truthy value becomes the only parameter of the kind the sub-type takes; otherwise the skeleton is unchanged |
| PipelineRoundTrip.FillOneParameterButton | front/src/app/lib/componentBuilder.ts:213-247 | `FillButton` on a one-parameter button skeleton: unchanged without a truthy value, otherwise the value in the sub-type's slot |
| PipelineRoundTrip.ButtonRoundTrip | front/src/app/lib/componentBuilder.ts:213-247 | with the analyzer's button fields, each button skeleton is filled from the field made for the same button |
| PipelineRoundTrip.ButtonRoundTripInTemplate | express/src/services/templateAnalyzer.ts:564-570 | with one BUTTONS component, each of its skeletons in the analysis is filled from its own field |
| PipelineRoundTrip.FieldsOfKindStep | express/src/services/templateAnalyzer.ts:550-570 | one loop turn adds fields of a type only for a component of the matching kind |
| PipelineRoundTrip.FieldsOfKindInTemplate | express/src/services/templateAnalyzer.ts:544-573 | with at most one component of a kind, the analysis has no fields of that type when the kind is absent, and otherwise exactly that component's fields |
| PipelineRoundTrip.KindIndex | express/src/services/templateAnalyzer.ts:544-573 | a template holding a kind has a component of that kind at the returned position |
| PipelineRoundTrip.KindIndexUnique | express/src/services/templateAnalyzer.ts:544-573 | with at most one component of a kind, any component of that kind is the one found |
| PipelineRoundTrip.FieldsOfKindAt | express/src/services/templateAnalyzer.ts:544-573 | with at most one component of a kind, the analysis' fields of that type are that component's fields |
| PipelineRoundTrip.SingleFieldHeaderRoundTrip | front/src/app/lib/componentBuilder.ts:138-150 | an IMAGE, VIDEO or TEXT header skeleton takes the value of `header_image`, `header_video` or `header_text` |
| PipelineRoundTrip.DocumentHeaderRoundTrip | front/src/app/lib/componentBuilder.ts:120-136 | a DOCUMENT header skeleton takes its link from `header_document` and its file name from a non-blank `header_document_filename` |
| PipelineRoundTrip.HeaderRoundTrip | front/src/app/lib/componentBuilder.ts:107-152 | both header cases together |
| PipelineRoundTrip.HeaderRoundTripInTemplate | express/src/services/templateAnalyzer.ts:550-556 | with one HEADER component, its skeleton is in the analysis and is filled from its own field ids |
| ErrorLogger.ArrayEntries | express/src/utils/errorLogger.ts:64 | spreading an array gives exactly the keys "0" … "n-1", each holding its element |
| ErrorLogger.SanitizeRequestBody | express/src/utils/errorLogger.ts:61-85 | a falsy or non-object body gives `undefined`. Otherwise the copy has the same keys, every sensitive field present is `***REDACTED***`, and every other value is unchanged. |
| ErrorLogger.RedactKeysMatching | express/src/utils/errorLogger.ts:101-105 | every key whose lower-cased form is the header name is redacted, and nothing else changes |
| ErrorLogger.SanitizeHeaders | express/src/utils/errorLogger.ts:87-111 | the same guard and key set; a key is redacted iff it matches a sensitive header name ignoring case |
| ErrorLogger.HeaderNameLowerCase | express/src/utils/errorLogger.ts:93-99 | each sensitive header name is already in lower case |
| ErrorLogger.MatchedIffListed | express/src/utils/errorLogger.ts:93-99 | the header names are lower case, so a key is redacted iff its lower-cased form is listed |
| ErrorLogger.HeaderCaseExamples | express/src/utils/errorLogger.ts:100-106 | `Authorization` and `X-API-Key` are redacted; `Content-Type` is kept |
| JsStrings.ToLower | express/src/services/templateAnalyzer.ts:354 | `toLowerCase` maps each character on its own and keeps the length |
| JsStrings.ToLowerIdempotent | express/src/services/templateAnalyzer.ts:354-356 | lower-casing twice is lower-casing once |
| JsStrings.ToUpper | front/src/app/lib/componentBuilder.ts:182 | `toUpperCase` leaves no lower-case letter. `ß` becomes `SS`, `ÿ` becomes U+0178 and `µ` becomes U+039C. Without `ß`, the length is kept and each character maps on its own. |
| JsStrings.ToUpperIdempotent | front/src/app/lib/componentBuilder.ts:182 | upper-casing twice is upper-casing once |
| JsStrings.Utf16Length | front/src/app/lib/componentBuilder.ts:278 | `length` counts UTF-16 code units: between the number of characters and twice it |
| JsStrings.Utf16LengthAppend | front/src/app/lib/componentBuilder.ts:278 | the code units of a concatenation add up |
| JsStrings.Utf16LengthBmp | front/src/app/lib/componentBuilder.ts:278 | where every character is one code unit, `length` is the number of characters |
| JsStrings.FittingSuffixFits | express/src/services/templateAnalyzer.ts:361 | the characters kept before the placeholder fit in the budget of code units |
| JsStrings.FittingSuffixMaximal | express/src/services/templateAnalyzer.ts:361 | one more character before them would exceed the budget |
| JsStrings.FittingPrefixFits | express/src/services/templateAnalyzer.ts:362-365 | the characters kept from the placeholder on fit in the budget of code units |
| JsStrings.FittingPrefixMaximal | express/src/services/templateAnalyzer.ts:362-365 | one more character after them would exceed the budget |
| JsStrings.FittingSuffixBmp | express/src/services/templateAnalyzer.ts:361 | with one code unit per character, `budget` characters are kept, or all of them |
| JsStrings.FittingPrefixBmp | express/src/services/templateAnalyzer.ts:362-365 | the same for the window after the placeholder |
| JsStrings.TrimStart | front/src/app/lib/componentBuilder.ts:91 | the leading white space is dropped: the rest is a suffix that is empty or starts with a non-space |
| JsStrings.TrimEnd | front/src/app/lib/componentBuilder.ts:91 | the trailing white space is dropped: the rest is a prefix that is empty or ends with a non-space |
| JsStrings.IndexOfFrom | express/src/services/templateAnalyzer.ts:356 | `indexOf` returns the first occurrence at or after the start, and none iff there is no occurrence there |
| JsStrings.ReplaceFirst | express/src/services/templateAnalyzer.ts:448 | `replace` with a string pattern replaces only the first occurrence, and leaves a string without one unchanged |
| JsStrings.NatToString | express/src/services/templateAnalyzer.ts:423 | `String(n)` is a non-empty run of decimal digits without a leading zero |
| JsStrings.TrimEmptyIffBlank | front/src/app/lib/componentBuilder.ts:91 | `trim()` is empty iff the string is all white space |
| JsStrings.NatToStringInjective | express/src/services/templateAnalyzer.ts:269 | distinct positions give distinct decimal strings |
| JsStrings.ParseIntOfNatToString | front/src/app/lib/componentBuilder.ts:218 | `parseInt(String(n))` is `n` |
| TemplateModel.Thousandths | front/src/app/lib/componentBuilder.ts:182 | `Math.round(n * 1000)` is an integer within half a unit of `n * 1000`, and non-finite stays non-finite |
| TemplateModel.FieldsOfType | front/src/app/lib/componentBuilder.ts:112 | the filter keeps exactly the fields of the component type |
| TemplateModel.FieldsOfTypeAppend | front/src/app/lib/componentBuilder.ts:112 | the filter distributes over concatenation |

## Left out

- Numeric user values. The value map is `string -> string`. `String(value)` of a number, and the number 0 being falsy, are not modelled.
- Floating point, `toFixed(2)` and `Date` are runtime parameters. `parseFloat`, `toFixed(2)`, `new Date(...)` with its getters and `toLocaleDateString('pt-BR')` are uninterpreted functions of a `Runtime` value. Only `Math.round` and `getMonth() + 1` are written out. The getters return a `Num`, so the NaN fields of an Invalid Date (which `JSON.stringify` sends as `null`) are representable; which strings parse to an Invalid Date is left to the runtime.
- `new URL(...)` succeeding and `new RegExp(p).test(s)` are uninterpreted predicates of the same `Runtime` value. The regular-expression engine is not modelled.
- Case mapping covers ASCII and Latin-1 letters only, including the three Latin-1 letters whose capital lies outside Latin-1 (`ß`, `ÿ`, `µ`). Full Unicode `toLowerCase`/`toUpperCase` is not modelled, e.g. Greek, Cyrillic, and `İ` lower-casing to two characters.
- Strings are sequences of Unicode scalar values, and `length` is their UTF-16 length. A JavaScript string holding a lone surrogate cannot be represented.
- TemplateAnalyzer.ContextBefore and TemplateAnalyzer.ContextAfter leave out a surrogate half that `substring` would cut off at the window's edge. The cues are all one-code-unit text, so a lone surrogate can never be part of a match, and the classification is the same. The placeholder's position is a character index rather than a code-unit index; the windows are measured in code units from it, so they cover the same text.
- Numbers at the edge of double precision are not modelled. `parseInt` of more than 2^53 is exact here, while JavaScript rounds it. `String(n)` is plain decimal even for n ≥ 10^21, where JavaScript switches to exponent form. `new RegExp(pattern)` throws on an invalid pattern, while `rt.regexTest` is total. `numAmount * 1000` is computed exactly on reals, not in IEEE arithmetic, so `Math.round` can differ by one from the browser's result.
- `parseInt` without a radix is modelled for decimal digits with an optional sign after leading white space. Hexadecimal `0x` prefixes are not modelled.
- Raw template properties are typed: `type`, `format`, `text` and `url` are `Option<string>`, and `buttons` is `Option<seq<RawButton>>`. A value of another JSON type is not modelled, nor what the code then does: a non-string body `text` makes `matchAll` throw a TypeError (express/src/services/templateAnalyzer.ts:254), a non-string `url` on a URL button makes `includes` throw (:434), a non-array `buttons` makes `entries()` throw (:397), a non-string `format` matches no case of the switch, and `String(...)` of a non-string button `type` or `text` is not computed.
- Component types other than header, body and button in the builder are not modelled. The analyzer never produces them.
- A parameter whose `type` tag disagrees with the payload object it carries is not modelled. Each parameter is one variant that carries its own payload.
- JavaScript objects are maps in the redaction model. The insertion order of keys is not modelled. Property lookup through the prototype chain (`field in sanitized`) is not modelled either; none of the sensitive names is an `Object.prototype` property. Symbol keys are not modelled.
- In the builder, the live copy is a class with a fresh parameter array per component. Values of parameters are immutable datatypes, so aliasing below the array level is not modelled.
- The database write in `logError`, the console fallback, and `analyzeTemplates` over a list are not modelled: they are I/O, or a plain map over `analyzeTemplate`.
- ComponentBuilder.CheckRule: a helper split out of the validator's loop body (the rule checks of one field). It is not a separate function in the code.
- ErrorLogger.RedactKeysMatching: a helper split out of `sanitizeHeaders`' inner `forEach`. The order in which `Object.keys` visits the keys is left open, since the result does not depend on it.
- PipelineRoundTrip.ButtonRoundTripInTemplate and PipelineRoundTrip.HeaderRoundTripInTemplate require at most one BUTTONS or HEADER component. With two, the button indices or the first header field of the two components collide, and the builder reads the first one's field for both.

/**
 * What the analyzer promises about its output: the shape of each component's fields and
 * skeleton, the placement of every button at its declared position, the declaration order
 * of the whole result, and the meaning of the metadata counters.
 */
module TemplateAnalyzerFacts {
  import opened Wrappers
  import opened JsStrings
  import opened TemplateModel
  import opened PlaceholderScan
  import opened TemplateAnalyzer

  // ===========================================================================
  // Body
  // ===========================================================================

  /** A body without any `{{digits}}` occurrence contributes neither fields nor a skeleton component. */
  lemma BodyWithoutPlaceholders(text: string)
    ensures BodySkeleton(text).None? <==> forall p: nat :: !PlaceholderAt(text, p)
    ensures BodySkeleton(text).None? ==> BodyFields(text) == [] && BodyParameterTypes(text) == []
  {
    NoMatchIffNoPlaceholder(text);
  }

  /**
   * A parameterised body has one skeleton parameter per placeholder occurrence, in
   * left-to-right order of the text, each the zero value of the kind inferred for it.
   */
  lemma BodySkeletonFollowsText(text: string)
    requires BodySkeleton(text).Some?
    ensures var ps := BodySkeleton(text).value.parameters;
      var ms := Matches(text);
      var kinds := BodyParameterTypes(text);
      && BodySkeleton(text).value.kind == Body
      && |ps| == |ms| == |kinds|
      && (forall i :: 0 <= i < |ps| ==> ps[i] == EmptyParameter(kinds[i]))
      && (forall i, j :: 0 <= i < j < |ms| ==> ms[i].position < ms[j].position)
      && (forall p: nat :: PlaceholderAt(text, p) <==> exists i :: 0 <= i < |ms| && ms[i].position == p)
  {
    MatchesExact(text);
  }

  /** How many of the inferred kinds are currency. */
  function CurrencyCount(kinds: seq<BodyParamKind>): (n: nat)
    ensures n <= |kinds|
  {
    if kinds == [] then 0
    else CurrencyCount(kinds[..|kinds| - 1]) + (if kinds[|kinds| - 1] == CurrencyKind then 1 else 0)
  }

  lemma {:induction false} FieldsOfCount(text: string, ms: seq<Placeholder>)
    requires DigitMatches(ms)
    ensures |FieldsOf(text, ms)| == |ms| + CurrencyCount(KindsOf(text, ms))
  {
    if ms != [] {
      var n := |ms| - 1;
      BodyStep(text, ms, n);
      assert ms[..n + 1] == ms;
      FieldsOfCount(text, ms[..n]);
      var ks := KindsOf(text, ms);
      assert ks[..n] == KindsOf(text, ms[..n]);
    }
  }

  /** A text or date/time placeholder contributes one field, a currency placeholder two. */
  lemma BodyFieldCount(text: string)
    ensures |BodyFields(text)| == |Matches(text)| + CurrencyCount(BodyParameterTypes(text))
  {
    MatchesAreDigits(text);
    FieldsOfCount(text, Matches(text));
  }

  /** The fields of the i-th match are among the body fields. */
  lemma {:induction false} FieldsOfCover(text: string, ms: seq<Placeholder>, i: nat)
    requires DigitMatches(ms) && i < |ms|
    ensures forall f :: f in PlaceholderFields(i, LiteralNumber(ms[i]), KindsOf(text, ms)[i]) ==> f in FieldsOf(text, ms)
  {
    var n := |ms| - 1;
    var prefix := ms[..n];
    BodyStep(text, ms, n);
    assert ms[..n + 1] == ms;
    var kind := KindsOf(text, ms)[i];
    var own := PlaceholderFields(i, LiteralNumber(ms[i]), kind);
    var tail := PlaceholderFields(n, LiteralNumber(ms[n]), KindsOf(text, ms)[n]);
    assert FieldsOf(text, ms) == FieldsOf(text, prefix) + tail;
    if i < n {
      FieldsOfCover(text, prefix, i);
      assert prefix[i] == ms[i];
      assert KindsOf(text, prefix)[i] == kind;
      forall f | f in own ensures f in FieldsOf(text, ms) {
        assert f in FieldsOf(text, prefix);
      }
    } else {
      assert i == n;
    }
  }

  /** Every body field belongs to one match: it is among the fields of the j-th match, whose ids start with `body_{j}`. */
  lemma {:induction false} FieldsOfOrigin(text: string, ms: seq<Placeholder>, f: RequiredField)
    requires DigitMatches(ms) && f in FieldsOf(text, ms)
    ensures exists j :: 0 <= j < |ms| && f in PlaceholderFields(j, LiteralNumber(ms[j]), KindsOf(text, ms)[j])
  {
    var n := |ms| - 1;
    var prefix := ms[..n];
    BodyStep(text, ms, n);
    assert ms[..n + 1] == ms;
    var ks := KindsOf(text, ms);
    if f in FieldsOf(text, prefix) {
      FieldsOfOrigin(text, prefix, f);
      var j :| 0 <= j < n && f in PlaceholderFields(j, LiteralNumber(prefix[j]), KindsOf(text, prefix)[j]);
      assert prefix[j] == ms[j] && KindsOf(text, prefix)[j] == ks[j];
    } else {
      assert f in PlaceholderFields(n, LiteralNumber(ms[n]), ks[n]);
    }
  }

  /**
   * The i-th placeholder of a body, in scan order, contributes its fields, keyed `body_{i}`,
   * and no body field comes from anywhere else.
   */
  lemma BodyFieldsByMatch(text: string)
    ensures var ms := Matches(text);
      && DigitMatches(ms)
      && (forall i, f :: 0 <= i < |ms| && f in PlaceholderFields(i, LiteralNumber(ms[i]), BodyParameterTypes(text)[i]) ==>
            f in BodyFields(text))
      && (forall f :: f in BodyFields(text) ==>
            exists j :: 0 <= j < |ms| && f in PlaceholderFields(j, LiteralNumber(ms[j]), BodyParameterTypes(text)[j]))
  {
    var ms := Matches(text);
    MatchesAreDigits(text);
    forall i | 0 <= i < |ms| {
      FieldsOfCover(text, ms, i);
    }
    forall f | f in BodyFields(text) {
      FieldsOfOrigin(text, ms, f);
    }
  }

  // ===========================================================================
  // Buttons
  // ===========================================================================

  /** The positions of the buttons that need a runtime value, in declared order. */
  function ButtonPositions(bs: seq<RawButton>): seq<nat> {
    if bs == [] then []
    else ButtonPositions(bs[..|bs| - 1]) + (if HasButtonParameter(bs[|bs| - 1]) then [|bs| - 1] else [])
  }

  /** The positions are strictly increasing and are exactly those of the buttons that need a value. */
  lemma {:induction false} ButtonPositionsExact(bs: seq<RawButton>)
    ensures var ps := ButtonPositions(bs);
      && |ps| <= |bs|
      && (forall k :: 0 <= k < |ps| ==> ps[k] < |bs|)
      && (forall k, l :: 0 <= k < l < |ps| ==> ps[k] < ps[l])
      && (forall j :: 0 <= j < |bs| ==> (HasButtonParameter(bs[j]) <==> j in ps))
  {
    if bs != [] {
      var n := |bs| - 1;
      var prefix := bs[..n];
      ButtonPositionsExact(prefix);
      forall j | 0 <= j < n ensures prefix[j] == bs[j] {
      }
    }
  }

  /** The k-th field belongs to the button at the k-th position. */
  lemma {:induction false} ButtonFieldsAligned(bs: seq<RawButton>)
    ensures var ps, fs := ButtonPositions(bs), ButtonFieldsOf(bs);
      && |fs| == |ps|
      && forall k :: 0 <= k < |ps| ==> ps[k] < |bs| && ButtonField(ps[k], bs[ps[k]]) == Some(fs[k])
  {
    if bs != [] {
      var n := |bs| - 1;
      var prefix := bs[..n];
      ButtonFieldsAligned(prefix);
      var ps', fs' := ButtonPositions(prefix), ButtonFieldsOf(prefix);
      forall k | 0 <= k < |ps'| ensures ps'[k] < n && prefix[ps'[k]] == bs[ps'[k]] {
      }
      var f := ButtonField(n, bs[n]);
      assert ButtonFieldsOf(bs) == fs' + OptionToSeq(f);
      if f.Some? {
        assert ButtonPositions(bs) == ps' + [n];
      } else {
        assert ButtonPositions(bs) == ps';
      }
    }
  }

  /** The k-th skeleton belongs to the button at the k-th position. */
  lemma {:induction false} ButtonSkeletonsAligned(bs: seq<RawButton>)
    ensures var ps, ss := ButtonPositions(bs), ButtonSkeletonsOf(bs);
      && |ss| == |ps|
      && forall k :: 0 <= k < |ps| ==> ps[k] < |bs| && ButtonSkeleton(ps[k], bs[ps[k]]) == Some(ss[k])
  {
    if bs != [] {
      var n := |bs| - 1;
      var prefix := bs[..n];
      ButtonSkeletonsAligned(prefix);
      var ps', ss' := ButtonPositions(prefix), ButtonSkeletonsOf(prefix);
      forall k | 0 <= k < |ps'| ensures ps'[k] < n && prefix[ps'[k]] == bs[ps'[k]] {
      }
      var s := ButtonSkeleton(n, bs[n]);
      assert ButtonSkeletonsOf(bs) == ss' + OptionToSeq(s);
      if s.Some? {
        assert ButtonPositions(bs) == ps' + [n];
      } else {
        assert ButtonPositions(bs) == ps';
      }
    }
  }

  /**
   * Fields and skeletons line up one to one with the buttons that need a value: the k-th
   * of each belongs to the k-th such button, at its declared position, and no other button
   * contributes anything.
   */
  lemma ButtonsAligned(bs: seq<RawButton>)
    ensures var ps, fs, ss := ButtonPositions(bs), ButtonFieldsOf(bs), ButtonSkeletonsOf(bs);
      && |fs| == |ps| && |ss| == |ps| && |ps| <= |bs|
      && (forall k :: 0 <= k < |ps| ==>
            ps[k] < |bs| && ButtonField(ps[k], bs[ps[k]]) == Some(fs[k]) && ButtonSkeleton(ps[k], bs[ps[k]]) == Some(ss[k]))
      && (forall k, l :: 0 <= k < l < |ps| ==> ps[k] < ps[l])
      && (forall j :: 0 <= j < |bs| ==> (HasButtonParameter(bs[j]) <==> j in ps))
  {
    ButtonPositionsExact(bs);
    ButtonFieldsAligned(bs);
    ButtonSkeletonsAligned(bs);
  }

  /** The button part of the skeleton is never longer than the button list. */
  lemma ButtonSkeletonsAtMostButtons(bs: seq<RawButton>)
    ensures |ButtonSkeletonsOf(bs)| <= |bs|
    ensures |ButtonFieldsOf(bs)| == |ButtonSkeletonsOf(bs)|
  {
    ButtonsAligned(bs);
  }

  // ===========================================================================
  // The whole template
  // ===========================================================================

  /** The parts `f` gives each element, concatenated in order. */
  function Flatten<T, U>(cs: seq<T>, f: T -> seq<U>): seq<U> {
    if cs == [] then [] else f(cs[0]) + Flatten(cs[1..], f)
  }

  lemma {:induction false} FlattenAppend<T, U>(cs: seq<T>, c: T, f: T -> seq<U>)
    ensures Flatten(cs + [c], f) == Flatten(cs, f) + f(c)
  {
    if cs == [] {
      assert [c][1..] == [];
    } else {
      assert (cs + [c])[1..] == cs[1..] + [c];
      FlattenAppend(cs[1..], c, f);
    }
  }

  lemma {:induction false} FlattenContains<T, U>(cs: seq<T>, f: T -> seq<U>, j: nat)
    requires j < |cs|
    ensures forall x :: x in f(cs[j]) ==> x in Flatten(cs, f)
  {
    if j > 0 {
      FlattenContains(cs[1..], f, j - 1);
      assert cs[1..][j - 1] == cs[j];
    }
  }

  lemma {:induction false} FlattenOrigin<T, U>(cs: seq<T>, f: T -> seq<U>, x: U)
    requires x in Flatten(cs, f)
    ensures exists j :: 0 <= j < |cs| && x in f(cs[j])
  {
    if x !in f(cs[0]) {
      FlattenOrigin(cs[1..], f, x);
      var j :| 0 <= j < |cs[1..]| && x in f(cs[1..][j]);
      assert cs[1..][j] == cs[j + 1];
    }
  }

  /** The components' fields concatenated in declaration order. */
  function FlatFields(cs: seq<RawComponent>): seq<RequiredField> {
    Flatten(cs, ComponentFields)
  }

  /** The components' skeleton parts concatenated in declaration order. */
  function FlatSkeletons(cs: seq<RawComponent>): seq<Component> {
    Flatten(cs, ComponentSkeletons)
  }

  /** Fields and skeleton follow the declaration order of the components. */
  lemma {:induction false} AnalysisInDeclarationOrder(cs: seq<RawComponent>)
    ensures TallyOf(cs).fields == FlatFields(cs)
    ensures TallyOf(cs).skeleton == FlatSkeletons(cs)
  {
    if cs != [] {
      var n := |cs| - 1;
      AnalysisInDeclarationOrder(cs[..n]);
      StepAppends(TallyOf(cs[..n]), cs[n]);
      FlattenAppend(cs[..n], cs[n], ComponentFields);
      FlattenAppend(cs[..n], cs[n], ComponentSkeletons);
      SplitLast(cs);
    }
  }

  /** Every field and every skeleton component of a component is in the flattened result. */
  lemma FlatContains(cs: seq<RawComponent>, j: nat)
    requires j < |cs|
    ensures forall f :: f in ComponentFields(cs[j]) ==> f in FlatFields(cs)
    ensures forall s :: s in ComponentSkeletons(cs[j]) ==> s in FlatSkeletons(cs)
  {
    FlattenContains(cs, ComponentFields, j);
    FlattenContains(cs, ComponentSkeletons, j);
  }

  /** Every skeleton component comes from one raw component. */
  lemma FlatSkeletonOrigin(cs: seq<RawComponent>, s: Component)
    requires s in FlatSkeletons(cs)
    ensures exists j :: 0 <= j < |cs| && s in ComponentSkeletons(cs[j])
  {
    FlattenOrigin(cs, ComponentSkeletons, s);
  }

  lemma StepHasHeader(t: Tally, c: RawComponent)
    ensures Step(t, c).hasHeader <==> t.hasHeader || KindOf(c) == "HEADER"
  {
  }

  /** `hasHeader` is set exactly when some component is a HEADER. */
  lemma {:induction false} HasHeaderIff(cs: seq<RawComponent>)
    ensures TallyOf(cs).hasHeader <==> exists j :: 0 <= j < |cs| && KindOf(cs[j]) == "HEADER"
  {
    if cs != [] {
      var n := |cs| - 1;
      HasHeaderIff(cs[..n]);
      StepHasHeader(TallyOf(cs[..n]), cs[n]);
      if !TallyOf(cs).hasHeader {
        forall j | 0 <= j < |cs| ensures KindOf(cs[j]) != "HEADER" {
          if j < n {
            assert cs[..n][j] == cs[j];
          }
        }
      } else if KindOf(cs[n]) != "HEADER" {
        var j :| 0 <= j < n && KindOf(cs[..n][j]) == "HEADER";
        assert cs[j] == cs[..n][j];
      }
    }
  }

  /** How many raw components have the given `type`. */
  function RawKindCount(cs: seq<RawComponent>, kind: string): (n: nat)
    ensures n <= |cs|
  {
    if cs == [] then 0 else RawKindCount(cs[..|cs| - 1], kind) + (if KindOf(cs[|cs| - 1]) == kind then 1 else 0)
  }

  lemma {:induction false} FieldsOfTypeAll(fs: seq<RequiredField>, ct: ComponentType)
    requires forall f :: f in fs ==> f.componentType == ct
    ensures FieldsOfType(fs, ct) == fs
  {
    if fs != [] {
      FieldsOfTypeAll(fs[..|fs| - 1], ct);
      assert fs[..|fs| - 1] + [fs[|fs| - 1]] == fs;
    }
  }

  lemma {:induction false} FieldsOfTypeNone(fs: seq<RequiredField>, ct: ComponentType)
    requires forall f :: f in fs ==> f.componentType != ct
    ensures FieldsOfType(fs, ct) == []
  {
    if fs != [] {
      FieldsOfTypeNone(fs[..|fs| - 1], ct);
    }
  }

  /** A component's fields are all of its own kind: header, body or button. */
  lemma ComponentFieldsTyped(c: RawComponent)
    ensures KindOf(c) == "HEADER" ==> forall f :: f in ComponentFields(c) ==> f.componentType == Header
    ensures KindOf(c) == "BODY" ==> forall f :: f in ComponentFields(c) ==> f.componentType == Body
    ensures KindOf(c) == "BUTTONS" ==> forall f :: f in ComponentFields(c) ==> f.componentType == Button
    ensures KindOf(c) !in {"HEADER", "BODY", "BUTTONS"} ==> ComponentFields(c) == []
  {
  }

  /**
   * With at most one BODY component, `bodyParameterCount` is the number of body fields
   * (a currency placeholder counts twice), not the number of placeholders.
   */
  lemma {:induction false} BodyParameterCountIsBodyFields(cs: seq<RawComponent>)
    requires RawKindCount(cs, "BODY") <= 1
    ensures TallyOf(cs).bodyParameterCount == |FieldsOfType(TallyOf(cs).fields, Body)|
    ensures RawKindCount(cs, "BODY") == 0 ==> TallyOf(cs).bodyParameterCount == 0
  {
    if cs != [] {
      var n := |cs| - 1;
      var c := cs[n];
      BodyParameterCountIsBodyFields(cs[..n]);
      var t := TallyOf(cs[..n]);
      FieldsOfTypeAppend(t.fields, ComponentFields(c), Body);
      ComponentFieldsTyped(c);
      if KindOf(c) == "BODY" {
        FieldsOfTypeAll(ComponentFields(c), Body);
      } else {
        FieldsOfTypeNone(ComponentFields(c), Body);
      }
    }
  }

  lemma {:induction false} CountOfKindAll(cs: seq<Component>, ct: ComponentType)
    requires forall k :: 0 <= k < |cs| ==> cs[k].kind == ct
    ensures CountOfKind(cs, ct) == |cs|
  {
    if cs != [] {
      CountOfKindAll(cs[..|cs| - 1], ct);
    }
  }

  lemma {:induction false} CountOfKindNone(cs: seq<Component>, ct: ComponentType)
    requires forall k :: 0 <= k < |cs| ==> cs[k].kind != ct
    ensures CountOfKind(cs, ct) == 0
  {
    if cs != [] {
      CountOfKindNone(cs[..|cs| - 1], ct);
    }
  }

  /** A component's skeleton parts are all of its own kind. */
  lemma ComponentSkeletonsTyped(c: RawComponent)
    ensures KindOf(c) == "HEADER" ==> forall k :: 0 <= k < |ComponentSkeletons(c)| ==> ComponentSkeletons(c)[k].kind == Header
    ensures KindOf(c) == "BODY" ==> forall k :: 0 <= k < |ComponentSkeletons(c)| ==> ComponentSkeletons(c)[k].kind == Body
    ensures KindOf(c) == "BUTTONS" ==> forall k :: 0 <= k < |ComponentSkeletons(c)| ==> ComponentSkeletons(c)[k].kind == Button
    ensures KindOf(c) !in {"HEADER", "BODY", "BUTTONS"} ==> ComponentSkeletons(c) == []
  {
  }

  /** With at most one BUTTONS component, `buttonCount` is the number of button skeletons, not of buttons. */
  lemma {:induction false} ButtonCountIsButtonSkeletons(cs: seq<RawComponent>)
    requires RawKindCount(cs, "BUTTONS") <= 1
    ensures TallyOf(cs).buttonCount == CountOfKind(TallyOf(cs).skeleton, Button)
    ensures RawKindCount(cs, "BUTTONS") == 0 ==> TallyOf(cs).buttonCount == 0
  {
    if cs != [] {
      var n := |cs| - 1;
      var c := cs[n];
      ButtonCountIsButtonSkeletons(cs[..n]);
      var t := TallyOf(cs[..n]);
      CountOfKindAppend(t.skeleton, ComponentSkeletons(c), Button);
      ComponentSkeletonsTyped(c);
      if KindOf(c) == "BUTTONS" {
        CountOfKindAll(ComponentSkeletons(c), Button);
      } else {
        CountOfKindNone(ComponentSkeletons(c), Button);
      }
    }
  }

  /** The analysis of a whole template, in the terms of the lemmas above. */
  lemma AnalysisShape(raw: RawTemplate)
    ensures var cs := GetProperty(raw.components, []);
      var a := Analysis(raw);
      && a.requiredFields == FlatFields(cs)
      && a.componentsTemplate == FlatSkeletons(cs)
      && a.metadata.totalFields == |a.requiredFields|
      && (a.metadata.hasHeader <==> exists j :: 0 <= j < |cs| && KindOf(cs[j]) == "HEADER")
      && (RawKindCount(cs, "BODY") <= 1 ==>
            a.metadata.bodyParameterCount == |FieldsOfType(a.requiredFields, Body)|)
      && (RawKindCount(cs, "BUTTONS") <= 1 ==>
            a.metadata.buttonCount == CountOfKind(a.componentsTemplate, Button))
  {
    var cs := GetProperty(raw.components, []);
    AnalysisInDeclarationOrder(cs);
    HasHeaderIff(cs);
    if RawKindCount(cs, "BODY") <= 1 {
      BodyParameterCountIsBodyFields(cs);
    }
    if RawKindCount(cs, "BUTTONS") <= 1 {
      ButtonCountIsButtonSkeletons(cs);
    }
  }

  // ===========================================================================
  // Worked examples
  // ===========================================================================

  /** A non-empty sequence is its prefix followed by its last element. */
  lemma SplitLast<T>(s: seq<T>)
    requires s != []
    ensures s[..|s| - 1] + [s[|s| - 1]] == s
  {
  }

  /** A character no cue of the heuristic starts with: a brace or a decimal digit. */
  predicate BraceOrDigit(c: char) {
    c == '{' || c == '}' || '0' <= c <= '9'
  }

  /** Text made of braces and digits mentions no cue that starts with another character. */
  lemma NoCueIn(s: string, cues: seq<string>)
    requires forall i :: 0 <= i < |s| ==> BraceOrDigit(s[i])
    requires forall k :: 0 <= k < |cues| ==> |cues[k]| > 0 && !BraceOrDigit(cues[k][0])
    ensures !MentionsAny(s, cues)
  {
    forall k | 0 <= k < |cues|
      ensures !Contains(s, cues[k])
    {
      var pat := cues[k];
      forall j: int
        ensures !OccursAt(s, pat, j)
      {
        if 0 <= j && j + |pat| <= |s| {
          assert s[j..j + |pat|][0] == s[j];
        }
      }
      ContainsIff(s, pat);
    }
  }

  /** No cue of the heuristic starts with a brace or a digit. */
  lemma CuesStartWithOtherCharacters()
    ensures forall k :: 0 <= k < |CurrencyCuesBefore| ==> |CurrencyCuesBefore[k]| > 0 && !BraceOrDigit(CurrencyCuesBefore[k][0])
    ensures forall k :: 0 <= k < |CurrencyCuesAfter| ==> |CurrencyCuesAfter[k]| > 0 && !BraceOrDigit(CurrencyCuesAfter[k][0])
    ensures forall k :: 0 <= k < |DateCuesBefore| ==> |DateCuesBefore[k]| > 0 && !BraceOrDigit(DateCuesBefore[k][0])
    ensures forall k :: 0 <= k < |DateCuesAfter| ==> |DateCuesAfter[k]| > 0 && !BraceOrDigit(DateCuesAfter[k][0])
  {
  }

  /** Lower-casing, and cutting a window out of, text made of braces and digits keeps it so. */
  lemma BracesAndDigitsWindows(text: string, at: nat)
    requires forall i :: 0 <= i < |text| ==> BraceOrDigit(text[i])
    requires at <= |text|
    ensures var lower := ToLower(text);
      && (forall i :: 0 <= i < |ContextBefore(lower, at)| ==> BraceOrDigit(ContextBefore(lower, at)[i]))
      && (forall i :: 0 <= i < |ContextAfter(lower, at)| ==> BraceOrDigit(ContextAfter(lower, at)[i]))
  {
    BracesAndDigitsLower(text);
    var lower := ToLower(text);
    var before, after := ContextBefore(lower, at), ContextAfter(lower, at);
    BracesAndDigitsSlice(lower, at - |before|, at);
    BracesAndDigitsSlice(lower, at, at + |after|);
  }

  lemma BracesAndDigitsLower(text: string)
    requires forall i :: 0 <= i < |text| ==> BraceOrDigit(text[i])
    ensures ToLower(text) == text
  {
    var lower := ToLower(text);
    forall i | 0 <= i < |lower|
      ensures lower[i] == text[i]
    {
      assert !IsUpper(text[i]);
    }
  }

  lemma BracesAndDigitsSlice(s: string, lo: nat, hi: nat)
    requires lo <= hi <= |s|
    requires forall i :: 0 <= i < |s| ==> BraceOrDigit(s[i])
    ensures forall i :: 0 <= i < hi - lo ==> BraceOrDigit(s[lo..hi][i])
  {
    forall i | 0 <= i < hi - lo
      ensures BraceOrDigit(s[lo..hi][i])
    {
      assert s[lo..hi][i] == s[lo + i];
    }
  }

  /** A body made of braces and digits has every placeholder classified as plain text. */
  lemma BracesAndDigitsAreText(text: string, n: nat)
    requires forall i :: 0 <= i < |text| ==> BraceOrDigit(text[i])
    ensures DetectParameterType(text, n) == TextKind
  {
    var lower := ToLower(text);
    match IndexOf(lower, PlaceholderText(n))
    case None =>
    case Some(at) =>
      BracesAndDigitsWindows(text, at);
      CuesStartWithOtherCharacters();
      NoCueIn(ContextBefore(lower, at), CurrencyCuesBefore);
      NoCueIn(ContextAfter(lower, at), CurrencyCuesAfter);
      NoCueIn(ContextBefore(lower, at), DateCuesBefore);
      NoCueIn(ContextAfter(lower, at), DateCuesAfter);
  }

  const ThreePlaceholders := "{{1}}{{2}}{{3}}"

  lemma {:induction false} ThreePlaceholdersFrom10()
    ensures MatchesFrom(ThreePlaceholders, 10) == [Placeholder(10, "3")]
  {
    OneDigitPlaceholder(ThreePlaceholders, 10, '3');
  }

  lemma {:induction false} ThreePlaceholdersFrom5()
    ensures MatchesFrom(ThreePlaceholders, 5) == [Placeholder(5, "2"), Placeholder(10, "3")]
  {
    OneDigitPlaceholder(ThreePlaceholders, 5, '2');
    ThreePlaceholdersFrom10();
  }

  lemma {:induction false} ThreePlaceholdersScan()
    ensures Matches(ThreePlaceholders) == [Placeholder(0, "1"), Placeholder(5, "2"), Placeholder(10, "3")]
  {
    OneDigitPlaceholder(ThreePlaceholders, 0, '1');
    ThreePlaceholdersFrom5();
  }

  /**
   * `{{1}}{{2}}{{3}}`: three skeleton parameters, all plain text, and one text field per
   * placeholder, keyed by its position k (`body_0`, `body_1`, `body_2`).
   */
  lemma ThreePlaceholdersExample()
    ensures var t := ThreePlaceholders;
      && BodySkeleton(t).Some? && |BodySkeleton(t).value.parameters| == 3
      && BodyParameterTypes(t) == [TextKind, TextKind, TextKind]
      && |BodyFields(t)| == 3
      && forall k :: 0 <= k < 3 ==> BodyFields(t)[k].id == BodyId(k) && BodyFields(t)[k].parameterType == TextType
  {
    var t := ThreePlaceholders;
    ThreePlaceholdersScan();
    MatchesAreDigits(t);
    ThreePlaceholdersAreText();
    var ms := Matches(t);
    var ks := KindsOf(t, ms);
    assert ks == [TextKind, TextKind, TextKind];
    FieldsOfPlainText(t, ms);
  }

  /** Where every placeholder is plain text, match k yields exactly one text field, keyed by k. */
  lemma {:induction false} FieldsOfPlainText(text: string, ms: seq<Placeholder>)
    requires DigitMatches(ms)
    requires forall k :: 0 <= k < |ms| ==> DetectParameterType(text, LiteralNumber(ms[k])) == TextKind
    ensures |FieldsOf(text, ms)| == |ms|
    ensures forall k :: 0 <= k < |ms| ==> FieldsOf(text, ms)[k] == BodyTextField(k, LiteralNumber(ms[k]))
  {
    if ms != [] {
      var i := |ms| - 1;
      var prefix := ms[..i];
      assert forall k :: 0 <= k < i ==> prefix[k] == ms[k];
      FieldsOfPlainText(text, prefix);
      PlainTextFieldStep(text, ms);
      var fs, f := FieldsOf(text, prefix), BodyTextField(i, LiteralNumber(ms[i]));
      forall k | 0 <= k < |ms|
        ensures (fs + [f])[k] == BodyTextField(k, LiteralNumber(ms[k]))
      {
        IndexSnoc(fs, f, k);
      }
    }
  }

  /** A last placeholder of plain text appends one text field. */
  lemma PlainTextFieldStep(text: string, ms: seq<Placeholder>)
    requires DigitMatches(ms) && ms != []
    requires DetectParameterType(text, LiteralNumber(ms[|ms| - 1])) == TextKind
    ensures FieldsOf(text, ms) ==
      FieldsOf(text, ms[..|ms| - 1]) + [BodyTextField(|ms| - 1, LiteralNumber(ms[|ms| - 1]))]
  {
    var i := |ms| - 1;
    FieldsStep(text, ms, i);
    assert ms[..i + 1] == ms;
  }

  lemma IndexSnoc<T>(a: seq<T>, x: T, k: nat)
    requires k <= |a|
    ensures (a + [x])[k] == if k < |a| then a[k] else x
  {
  }

  lemma ThreePlaceholdersAreText()
    ensures forall n: nat :: DetectParameterType(ThreePlaceholders, n) == TextKind
  {
    var t := ThreePlaceholders;
    assert t == ['{', '{', '1', '}', '}', '{', '{', '2', '}', '}', '{', '{', '3', '}', '}'];
    forall n: nat
      ensures DetectParameterType(t, n) == TextKind
    {
      BracesAndDigitsAreText(t, n);
    }
  }

  /** `{{2}}` alone: one plain-text field, keyed by position 0 (`body_0`) although the placeholder's number is 2. */
  lemma SecondPlaceholderAloneExample()
    ensures var t := "{{2}}";
      && BodySkeleton(t).Some? && |BodySkeleton(t).value.parameters| == 1
      && BodyParameterTypes(t) == [TextKind]
      && |BodyFields(t)| == 1 && BodyFields(t)[0].id == BodyId(0) && BodyFields(t)[0].parameterType == TextType
  {
    var t := "{{2}}";
    OneDigitPlaceholder(t, 0, '2');
    assert MatchesFrom(t, 5) == [];
    MatchesAreDigits(t);
    SecondPlaceholderIsText();
    var ms := Matches(t);
    assert |ms| == 1;
    assert KindsOf(t, ms) == [TextKind];
    FieldsOfPlainText(t, ms);
  }

  lemma SecondPlaceholderIsText()
    ensures forall n: nat :: DetectParameterType("{{2}}", n) == TextKind
  {
    var t := "{{2}}";
    assert t == ['{', '{', '2', '}', '}'];
    forall n: nat
      ensures DetectParameterType(t, n) == TextKind
    {
      BracesAndDigitsAreText(t, n);
    }
  }
}

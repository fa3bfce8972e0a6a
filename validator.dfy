/**
 * The class `Validator` of `validator.ts`: one object per document, whose
 * methods update its fields line by line. Every method is proved to leave
 * the state its step function in `ValidatorSpec` computes; the properties of
 * the validator are proved about those functions in `validator_props.dfy`.
 * The walk over the lines that calls these methods (`lineByLine`, `eachLine`,
 * `handleSettings`) is the function `ValidatorSpec.LineByLineStep`.
 *
 * The regular-expression register `match` of the source is not a field: the
 * match a method reads is its parameter. A thrown `Error` is a `Thrown`
 * status that every caller returns at once.
 */
module Validators {
  import opened Wrappers
  import opened Text
  import opened Diagnostics
  import opened Settings
  import opened Resources
  import opened TextRanges
  import opened Patterns
  import opened ValidatorPatterns
  import opened OrderedMaps
  import opened ValidatorSpec
  import Util
  import ValidatorProps

  /** The sections after `handleSection` never hide the ones before: `requiredSettings` alone does not decide a slot. */
  lemma {:induction false} MissingIgnoresRequired(st: VState, slots: seq<Slot>, other: seq<Slot>)
    ensures Missing(st.(requiredSettings := other), slots) == Missing(st, slots)
  {
    if slots != [] {
      MissingIgnoresRequired(st, slots[1..], other);
    }
  }

  class Validator {
    const lines: seq<string>
    const dictionary: Dictionary
    const suggest: (string, seq<string>) -> string
    const addDisplayNames: seq<string> -> seq<string>
    const mapToArray: OrderedMap<seq<string>> -> seq<string>

    var aliases: seq<string>
    var csvColumns: Option<nat>
    var currentLineNumber: nat
    var currentSection: Option<TextRange>
    var currentSettings: seq<Setting>
    var deAliases: seq<TextRange>
    var foundKeyword: Option<TextRange>
    var ifSettings: OrderedMap<seq<Setting>>
    var keywordsStack: seq<TextRange>
    var lastCondition: Option<string>
    var parentSettings: OrderedMap<seq<Setting>>
    var previousSection: Option<TextRange>
    var previousSettings: seq<Setting>
    var sharesPrevious: bool
    var requiredSettings: seq<Slot>
    var result: seq<Diagnostic>
    var settingValues: map<string, string>
    var urlParameters: seq<string>
    var variables: OrderedMap<seq<string>>
    var currentWidget: Option<string>

    /** The document and the collaborators the checker was given. */
    function Environment(): Env {
      Env(lines, dictionary, suggest, addDisplayNames, mapToArray)
    }

    /** The fields as a value. */
    function State(): VState
      reads this
    {
      VState(aliases, csvColumns, currentLineNumber, currentSection, currentSettings, deAliases,
             foundKeyword, ifSettings, keywordsStack, lastCondition, parentSettings, previousSection,
             previousSettings, sharesPrevious, requiredSettings, result, settingValues, urlParameters,
             variables, currentWidget)
    }

    /** The current line, lower-cased. */
    function Line(): string
      reads this
      requires currentLineNumber < |lines|
    {
      ToLower(lines[currentLineNumber])
    }

    /** The document is split into lines once its comments are blanked. */
    constructor(text: string, dictionary: Dictionary, suggest: (string, seq<string>) -> string,
                addDisplayNames: seq<string> -> seq<string>, mapToArray: OrderedMap<seq<string>> -> seq<string>)
      ensures this.dictionary == dictionary && this.suggest == suggest
      ensures this.addDisplayNames == addDisplayNames && this.mapToArray == mapToArray
      ensures |lines| >= 1 && forall k :: 0 <= k < |lines| ==> '\n' !in lines[k]
      ensures State() == Initial
    {
      var content := Util.DeleteComments(text);
      lines := Split(content, '\n');
      this.dictionary := dictionary;
      this.suggest := suggest;
      this.addDisplayNames := addDisplayNames;
      this.mapToArray := mapToArray;
      aliases := [];
      csvColumns := None;
      currentLineNumber := 0;
      currentSection := None;
      currentSettings := [];
      deAliases := [];
      foundKeyword := None;
      ifSettings := [];
      keywordsStack := [];
      lastCondition := None;
      parentSettings := [];
      previousSection := None;
      previousSettings := [];
      sharesPrevious := false;
      requiredSettings := [];
      result := [];
      settingValues := map[];
      urlParameters := [];
      variables := [("freemarker", ["entity", "entities", "type"])];
      currentWidget := None;
    }

    // -------------------------------------------------------------------------
    // eachLine
    // -------------------------------------------------------------------------

    /** `checkFreemarker` */
    method CheckFreemarker(line: string)
      modifies this`result
      ensures result == CheckFreemarkerStep(old(State()), line).result
      ensures result == old(result) <==> !exists j: nat :: DirectiveAt(line, j)
      ensures FreemarkerDirective(line).Some? ==>
        var s := FreemarkerDirective(line).value;
        result == old(result) + [At(currentLineNumber, s.start, s.end, Information, FreemarkerDeprecated)]
    {
      ValidatorProps.FreemarkerDirectiveReported(State(), line);
      var m := FreemarkerDirective(line);
      if m.Some? {
        result := result + [At(currentLineNumber, m.value.start, m.value.end, Information, FreemarkerDeprecated)];
      }
    }

    /** `spellingCheck` */
    method SpellingCheck(h: Header)
      modifies this`result
      ensures result == SpellingCheckStep(Environment(), old(State()), h).result
      ensures h.name in PossibleSections ==> result == old(result)
      ensures h.name !in PossibleSections ==>
        result == old(result) + [At(currentLineNumber, h.prefix, h.prefix + |h.name|, Error, suggest(h.name, PossibleSections))]
    {
      ValidatorProps.UnknownSectionReported(Environment(), State(), h);
      if h.name !in PossibleSections {
        result := result + [At(currentLineNumber, h.prefix, h.prefix + |h.name|, Error, suggest(h.name, PossibleSections))];
      }
    }

    // -------------------------------------------------------------------------
    // Sections
    // -------------------------------------------------------------------------

    /** `handleSection`, with the header match `h`, or `None` for a blank line of `[tags]`. */
    method HandleSection(h: Option<Header>)
      requires HasRequiredNames(dictionary)
      modifies this`result, this`requiredSettings, this`parentSettings, this`currentSection,
        this`currentSettings, this`sharesPrevious, this`previousSettings, this`previousSection,
        this`ifSettings, this`deAliases, this`aliases, this`settingValues
      ensures var r := HandleSectionStep(Environment(), old(State()), h);
        result == r.result && requiredSettings == r.requiredSettings && parentSettings == r.parentSettings
        && currentSection == r.currentSection && currentSettings == r.currentSettings
        && sharesPrevious == r.sharesPrevious && previousSettings == r.previousSettings
        && previousSection == r.previousSection && ifSettings == r.ifSettings && deAliases == r.deAliases
        && aliases == r.aliases && settingValues == r.settingValues
    {
      ghost var s0 := CloseSectionStep(Environment(), State());
      CloseSection();
      assert State() == s0;
      OpenSection(h);
    }

    /** The part of `handleSection` that closes the current section. */
    method CloseSection()
      requires HasRequiredNames(dictionary)
      modifies this`result, this`requiredSettings, this`parentSettings
      ensures var r := CloseSectionStep(Environment(), old(State()));
        result == r.result && requiredSettings == r.requiredSettings && parentSettings == r.parentSettings
    {
      ghost var s0 := CheckPreviousSectionStep(Environment(), State());
      CheckPreviousSection();
      assert State() == s0;
      AddCurrentToParentSettings();
    }

    /** The part of `handleSection` after the previous section is closed. */
    method OpenSection(h: Option<Header>)
      modifies this`result, this`parentSettings, this`currentSection, this`currentSettings,
        this`sharesPrevious, this`previousSettings, this`previousSection, this`ifSettings, this`deAliases,
        this`aliases, this`settingValues
      ensures var r := OpenSectionStep(Environment(), old(State()), h);
        result == r.result && parentSettings == r.parentSettings && currentSection == r.currentSection
        && currentSettings == r.currentSettings && sharesPrevious == r.sharesPrevious
        && previousSettings == r.previousSettings && previousSection == r.previousSection
        && ifSettings == r.ifSettings && deAliases == r.deAliases && aliases == r.aliases
        && settingValues == r.settingValues
    {
      if h.None? {
        ResumeSection();
      } else {
        NewSection(h.value);
      }
    }

    /** A blank line of `[tags]` resumes the previous section. */
    method ResumeSection()
      modifies this`currentSection, this`currentSettings, this`sharesPrevious
      ensures var r := ResumeSectionStep(old(State()));
        currentSection == r.currentSection && currentSettings == r.currentSettings
        && sharesPrevious == r.sharesPrevious
    {
      if previousSection.Some? {
        currentSection := previousSection;
        currentSettings := previousSettings;
        sharesPrevious := true;
      }
    }

    /** The end of a widget: `checkAliases`, then the widget's aliases and values are cleared. */
    method LeaveWidget()
      modifies this`result, this`deAliases, this`aliases, this`settingValues
      ensures var r := LeaveWidgetStep(Environment(), old(State()));
        result == r.result && deAliases == r.deAliases && aliases == r.aliases
        && settingValues == r.settingValues
    {
      CheckAliases();
      deAliases := [];
      aliases := [];
      settingValues := map[];
    }

    /** A section header opens a new section. */
    method NewSection(hd: Header)
      modifies this`result, this`parentSettings, this`currentSection, this`currentSettings,
        this`sharesPrevious, this`previousSettings, this`previousSection, this`ifSettings, this`deAliases,
        this`aliases, this`settingValues
      ensures var r := NewSectionStep(Environment(), old(State()), hd);
        result == r.result && parentSettings == r.parentSettings && currentSection == r.currentSection
        && currentSettings == r.currentSettings && sharesPrevious == r.sharesPrevious
        && previousSettings == r.previousSettings && previousSection == r.previousSection
        && ifSettings == r.ifSettings && deAliases == r.deAliases && aliases == r.aliases
        && settingValues == r.settingValues
    {
      if MentionsWidget(hd.name) {
        LeaveWidget();
      }
      EnterSection(hd);
    }

    /** The header `hd` becomes the current section. */
    method EnterSection(hd: Header)
      modifies this`parentSettings, this`currentSection, this`currentSettings, this`sharesPrevious,
        this`previousSettings, this`previousSection, this`ifSettings
      ensures var r := EnterSectionStep(old(State()), hd);
        parentSettings == r.parentSettings && currentSection == r.currentSection
        && currentSettings == r.currentSettings && sharesPrevious == r.sharesPrevious
        && previousSettings == r.previousSettings && previousSection == r.previousSection
        && ifSettings == r.ifSettings
    {
      previousSettings := currentSettings;
      currentSettings := [];
      sharesPrevious := false;
      previousSection := currentSection;
      ifSettings := [];
      currentSection := Some(TextRange(hd.name, LineRange(currentLineNumber, hd.prefix, hd.prefix + |hd.name|)));
      parentSettings := Delete(parentSettings, hd.name);
    }

    /** `checkPreviousSection` */
    method CheckPreviousSection()
      requires HasRequiredNames(dictionary)
      modifies this`result, this`requiredSettings
      ensures var r := CheckPreviousSectionStep(Environment(), old(State()));
        result == r.result && requiredSettings == r.requiredSettings
    {
      if currentSection.None? {
        return;
      }
      var table := RequiredSectionSettings(dictionary);
      if currentSection.value.text in table {
        requiredSettings := SlotsFromLists(table[currentSection.value.text]) + requiredSettings;
      }
      ghost var slots := requiredSettings;
      assert slots == SlotsOf(Environment(), currentSection.value.text, old(requiredSettings));
      var notFound := MissingSlots(requiredSettings);
      assert State() == old(State()).(requiredSettings := slots);
      MissingIgnoresRequired(old(State()), slots, slots);
      ReportRequired(currentSection.value.range, notFound);
      requiredSettings := [];
      assert result == old(result) + RequiredDiagnostics(currentSection.value.range, Missing(old(State()), slots));
    }
    /** The labelled loop of `checkPreviousSection`: the display names of the unfilled slots. */
    method MissingSlots(slots: seq<Slot>) returns (notFound: seq<string>)
      ensures notFound == Missing(State(), slots)
    {
      ghost var st := State();
      ghost var whole := Missing(st, slots);
      notFound := [];
      for k := 0 to |slots|
        invariant notFound + Missing(st, slots[k..]) == whole
      {
        var found := SlotFound(slots[k]);
        MissingNext(st, slots, k, notFound, whole);
        if !found {
          notFound := notFound + [slots[k][0].displayName];
        }
      }
      assert slots[|slots|..] == [];
    }
    /** Reports `<name> is required` on the section header for every missing name. */
    method ReportRequired(range: Range, names: seq<string>)
      modifies this`result
      ensures result == old(result) + RequiredDiagnostics(range, names)
    {
      for k := 0 to |names|
        invariant result + RequiredDiagnostics(range, names[k..]) == old(result) + RequiredDiagnostics(range, names)
      {
        assert names[k..][1..] == names[k + 1..];
        result := result + [CreateDiagnostic(range, Error, names[k] + " is required")];
      }
    }
    /** The body of the labelled loop of `checkPreviousSection`: whether a slot is filled. */
    method SlotFound(options: Slot) returns (found: bool)
      ensures found == SlotSatisfied(State(), options)
    {
      if options[0].displayName == "metric" {
        if "columnmetric" in settingValues && settingValues["columnmetric"] == "null"
          && "columnvalue" in settingValues && settingValues["columnvalue"] == "null"
        {
          return true;
        }
      }
      found := Util.IsAnyInArray(options, currentSettings);
      if found {
        return;
      }
      var parents := Values(parentSettings);
      for k := 0 to |parents|
        invariant AnyInSome(options, parents) == AnyInSome(options, parents[k..])
      {
        assert parents[k..][1..] == parents[k + 1..];
        found := Util.IsAnyInArray(options, parents[k]);
        if found {
          return;
        }
      }
      if |ifSettings| > 0 {
        var branches := Values(ifSettings);
        for k := 0 to |branches|
          invariant AnyInAll(options, branches) == AnyInAll(options, branches[k..])
        {
          assert branches[k..][1..] == branches[k + 1..];
          found := Util.IsAnyInArray(options, branches[k]);
          if !found {
            return false;
          }
        }
        var keys := Keys(ifSettings);
        var ifCounter := 0;
        var elseCounter := 0;
        for k := 0 to |keys|
          invariant ifCounter + IfCount(keys[k..]) == IfCount(keys)
          invariant elseCounter + ElseCount(keys[k..]) == ElseCount(keys)
        {
          assert keys[k..][1..] == keys[k + 1..];
          if HasWord(keys[k], "if") {
            ifCounter := ifCounter + 1;
          } else if HasWord(keys[k], "else") {
            elseCounter := elseCounter + 1;
          }
        }
        if ifCounter == elseCounter {
          return true;
        }
      }
      return false;
    }

    /** `addCurrentToParentSettings` */
    method AddCurrentToParentSettings()
      modifies this`parentSettings
      ensures parentSettings == AddCurrentToParentSettingsStep(old(State())).parentSettings
    {
      if currentSection.None? {
        return;
      }
      var key := currentSection.value.text;
      var settings := currentSettings;
      var base := Get(parentSettings, key).GetOr([]);
      for k := 0 to |settings|
        invariant k == 0 ==> parentSettings == old(parentSettings)
        invariant k > 0 ==> parentSettings == Set(old(parentSettings), key, base + settings[..k])
      {
        assert base + settings[..k + 1] == (base + settings[..k]) + [settings[k]];
        if k > 0 {
          SetGet(old(parentSettings), key, base + settings[..k]);
          AddToParentsSettings(key, settings[k]);
          SetTwice(old(parentSettings), key, base + settings[..k], base + settings[..k + 1]);
        } else {
          assert base + settings[..0] == base;
          AddToParentsSettings(key, settings[k]);
        }
      }
      assert settings[..|settings|] == settings;
    }

    /** `addToParentsSettings` */
    method AddToParentsSettings(key: string, setting: Setting)
      modifies this`parentSettings
      ensures parentSettings == Set(old(parentSettings), key, Get(old(parentSettings), key).GetOr([]) + [setting])
    {
      var existing := Get(parentSettings, key);
      if existing.None? {
        assert [] + [setting] == [setting];
        parentSettings := Set(parentSettings, key, [setting]);
      } else {
        parentSettings := Set(parentSettings, key, existing.value + [setting]);
      }
    }

    /** `checkAliases` */
    method CheckAliases()
      modifies this`result
      ensures result == CheckAliasesStep(Environment(), old(State())).result
    {
      for k := 0 to |deAliases|
        invariant result + UnknownAliases(Environment(), deAliases[k..], aliases)
          == old(result) + UnknownAliases(Environment(), deAliases, aliases)
      {
        assert deAliases[k..][1..] == deAliases[k + 1..];
        var deAlias := deAliases[k];
        if deAlias.text !in aliases {
          result := result + [CreateDiagnostic(deAlias.range, Error, suggest(deAlias.text, aliases))];
        }
      }
    }

    /** `diagnosticForLeftKeywords` */
    method DiagnosticForLeftKeywords()
      modifies this`result
      ensures result == LeftKeywordsStep(old(State())).result
    {
      for k := 0 to |keywordsStack|
        invariant result + LeftKeywords(keywordsStack[k..]) == old(result) + LeftKeywords(keywordsStack)
      {
        assert keywordsStack[k..][1..] == keywordsStack[k + 1..];
        var nested := keywordsStack[k];
        result := result + [CreateDiagnostic(nested.range, Error, nested.text + " has no matching end" + nested.text)];
      }
    }

    // -------------------------------------------------------------------------
    // Settings
    // -------------------------------------------------------------------------

    /** `addSettingValue` */
    method AddSettingValue(a: Assignment)
      modifies this`settingValues
      ensures settingValues == old(settingValues)[ClearSetting(a.name) := ClearSetting(a.value)]
    {
      settingValues := settingValues[ClearSetting(a.name) := ClearSetting(a.value)];
    }

    /** `getSettingCheck` */
    method GetSettingCheck(a: Assignment) returns (setting: Option<Setting>)
      modifies this`result
      ensures result == GetSettingCheckStep(Environment(), old(State()), a).result
      ensures setting == Util.GetSetting(dictionary, a.name)
      ensures setting.Some? || ValidatorProps.Excused(old(State()), a.name) ==> result == old(result)
      ensures setting.None? && !ValidatorProps.Excused(old(State()), a.name) ==>
        var placeholders := currentSection.Some? && currentSection.value.text == "placeholders";
        result == old(result) + [At(currentLineNumber, a.indent, a.indent + |a.name|, Error,
                                    suggest(a.name, addDisplayNames(if placeholders then urlParameters else [])))]
    {
      ValidatorProps.UnknownSettingReported(Environment(), State(), a);
      setting := Util.GetSetting(dictionary, a.name);
      if setting.Some? || FirstAlternative(a.name, Keywords, true).Some? {
        return;
      }
      var dictionaryNames: seq<string> := [];
      if currentSection.Some? && currentSection.value.text == "placeholders" {
        dictionaryNames := urlParameters;
        if a.name in urlParameters {
          return;
        }
      }
      if StartsWith(a.name, "column") {
        return;
      }
      dictionaryNames := addDisplayNames(dictionaryNames);
      result := result + [At(currentLineNumber, a.indent, a.indent + |a.name|, Error, suggest(a.name, dictionaryNames))];
    }

    /** `checkRepetition` */
    method CheckRepetition(a: Assignment, setting: Setting) returns (status: Status)
      requires Util.GetSetting(dictionary, a.name) == Some(setting)
      modifies this`result, this`ifSettings, this`currentSettings, this`previousSettings
      ensures var r := CheckRepetitionStep(old(State()), a, setting);
        result == r.0.result && ifSettings == r.0.ifSettings && currentSettings == r.0.currentSettings
        && previousSettings == r.0.previousSettings && status == r.1
    {
      var range := LineRange(currentLineNumber, a.indent, a.indent + |a.name|);
      if AreWeIn(keywordsStack, "if") {
        if lastCondition.None? {
          return Thrown("We are in if, but last condition is undefined");
        }
        AddToIfSettings(a, setting, lastCondition.value);
      } else {
        var existing := AddToSettingArray(a, Some(currentSettings));
        currentSettings := existing;
        if sharesPrevious {
          previousSettings := existing;
        }
      }
      return Ok;
    }

    /** The branch of `checkRepetition` inside the `if` branch `key`. */
    method AddToIfSettings(a: Assignment, setting: Setting, key: string)
      requires Util.GetSetting(dictionary, a.name) == Some(setting)
      modifies this`result, this`ifSettings
      ensures var r := IfRepetitionStep(old(State()), a, setting, key);
        result == r.result && ifSettings == r.ifSettings
    {
      var range := LineRange(currentLineNumber, a.indent, a.indent + |a.name|);
      var existing := AddToSettingArray(a, Get(ifSettings, key));
      ifSettings := Set(ifSettings, key, existing);
      if setting in currentSettings {
        result := result + [Util.RepetitionDiagnostic(range, setting, a.name)];
      }
    }

    /** `addToSettingArray`: the list with the setting of `a` appended, or a repetition diagnostic. */
    method AddToSettingArray(a: Assignment, existing: Option<seq<Setting>>) returns (list: seq<Setting>)
      requires Util.GetSetting(dictionary, a.name).Some?
      modifies this`result
      ensures result == SettingArrayStep(old(State()), a, Util.GetSetting(dictionary, a.name).value, existing.GetOr([])).result
      ensures list == WithSetting(existing.GetOr([]), Util.GetSetting(dictionary, a.name).value)
    {
      list := if existing.None? then [] else existing.value;
      var variable := Util.GetSetting(dictionary, a.name);
      if variable.value in list {
        var range := LineRange(currentLineNumber, a.indent, a.indent + |a.name|);
        result := result + [Util.RepetitionDiagnostic(range, variable.value, a.name)];
      } else {
        list := list + [variable.value];
      }
    }

    /** `typeCheck` */
    method TypeCheck(a: Assignment, setting: Setting) returns (status: Status)
      modifies this`result
      ensures var r := TypeCheckStep(old(State()), a, setting);
        result == r.0.result && status == r.1
    {
      var range := LineRange(currentLineNumber, a.indent, a.indent + |a.name|);
      var checked := CheckType(setting, a.value, range, a.name);
      if checked.Failure? {
        return Thrown(checked.message);
      }
      if checked.value.Some? {
        result := result + [checked.value.value];
      }
      return Ok;
    }

    /** `checkExcludes` */
    method CheckExcludes(a: Assignment, setting: Setting)
      modifies this`result
      ensures result == CheckExcludesStep(old(State()), a, setting).result
      ensures |old(result)| <= |result| && result[..|old(result)|] == old(result)
      ensures forall d :: d in result[|old(result)|..] <==>
        exists i :: 0 <= i < |currentSettings| && currentSettings[i].displayName in setting.excludes
          && d == ExcludedBy(currentLineNumber, a, setting, currentSettings[i])
    {
      ValidatorProps.ExcludedSettingsReported(State(), a, setting);
      for k := 0 to |currentSettings|
        invariant result + ExcludesDiagnostics(currentLineNumber, a, setting, currentSettings[k..])
          == old(result) + ExcludesDiagnostics(currentLineNumber, a, setting, currentSettings)
      {
        assert currentSettings[k..][1..] == currentSettings[k + 1..];
        var item := currentSettings[k];
        if item.displayName in setting.excludes {
          result := result + [At(currentLineNumber, a.indent, a.indent + |a.name|, Error,
                                 setting.displayName + " can not be specified simultaneously with " + item.displayName)];
        }
      }
    }

    /** `findUrlParams` on the current line `line`. */
    method FindUrlParams(line: string)
      modifies this`urlParameters
      ensures urlParameters == UrlParams(line, 0)
    {
      var params: seq<string> := [];
      var from := 0;
      var m := NextBraced(line, "{", from);
      ghost var whole := UrlParams(line, 0);
      while m.Some?
        modifies {}
        invariant m == NextBraced(line, "{", from)
        invariant params + UrlParams(line, from) == whole
        decreases |line| - from
      {
        params, from, m := TakeUrlParam(line, from, params, whole);
      }
      urlParameters := params;
    }

    /** One turn of the loop of `findUrlParams`: keeps the name of the match at hand, looks for the next one. */
    method TakeUrlParam(line: string, from: nat, params: seq<string>, ghost whole: seq<string>)
      returns (params': seq<string>, from': nat, m': Option<Span>)
      requires NextBraced(line, "{", from).Some? && params + UrlParams(line, from) == whole
      ensures from < from' && m' == NextBraced(line, "{", from') && params' + UrlParams(line, from') == whole
    {
      var s := NextBraced(line, "{", from).value;
      UrlParamsNext(line, from, params, whole);
      params' := params + [ClearSetting(line[s.start + 1..s.end])];
      from' := s.end + 1;
      m' := NextBraced(line, "{", from');
    }

    /** `checkFreemarkerValue` for the value `value` of the setting line `line`. */
    method CheckFreemarkerValue(line: string, value: string)
      requires IndexOf(line, value).Some?
      modifies this`result
      ensures result == old(result) + FreemarkerValueDiagnostics(Environment(), currentLineNumber, variables, line, value)
    {
      var x := FreemarkerExpression(value);
      if x.None? {
        return;
      }
      var declaration := value[x.value.start..x.value.end];
      ExpressionOccurs(line, value);
      CheckExpressionWords(declaration, IndexOf(line, declaration).value);
    }

    /** The loop of `checkFreemarkerValue`: every word of the expression `declaration` found at `at`. */
    method CheckExpressionWords(declaration: string, at: nat)
      modifies this`result
      ensures result == old(result) + ExpressionDiagnostics(Environment(), currentLineNumber, declaration, at, Get(variables, "freemarker"), 0)
    {
      var freeMarkerVariables := Get(variables, "freemarker");
      var e, n := Environment(), currentLineNumber;
      var p := 0;
      var w := NextWordRun(declaration, p);
      ghost var whole := old(result) + ExpressionDiagnostics(e, n, declaration, at, freeMarkerVariables, 0);
      while w.Some?
        invariant w == NextWordRun(declaration, p)
        invariant result + ExpressionDiagnostics(e, n, declaration, at, freeMarkerVariables, p) == whole
        decreases |declaration| - p
      {
        p, w := CheckExpressionWord(e, n, declaration, at, freeMarkerVariables, p, whole);
      }
    }

    /** One turn of the loop of `checkFreemarkerValue`: reports the word at hand if undeclared, looks for the next one. */
    method CheckExpressionWord(e: Env, n: nat, declaration: string, at: nat, freeMarkerVariables: Option<seq<string>>,
                               p: nat, ghost whole: seq<Diagnostic>)
      returns (p': nat, w': Option<Span>)
      requires e == Environment() && n == currentLineNumber
      requires NextWordRun(declaration, p).Some?
      requires result + ExpressionDiagnostics(e, n, declaration, at, freeMarkerVariables, p) == whole
      modifies this`result
      ensures p < p' && w' == NextWordRun(declaration, p')
      ensures result + ExpressionDiagnostics(e, n, declaration, at, freeMarkerVariables, p') == whole
    {
      var w := NextWordRun(declaration, p).value;
      ExpressionNext(e, n, declaration, at, freeMarkerVariables, p, result, whole);
      var settingName := declaration[w.start..w.end];
      var start := at + w.start;
      if Undeclared(freeMarkerVariables, settingName) {
        result := result + [At(currentLineNumber, start, start + |settingName|, Error,
                               suggest(settingName, freeMarkerVariables.GetOr([])))];
      }
      assert result == old(result) + UnknownWord(e, n, declaration, at, freeMarkerVariables, w);
      p' := w.end;
      w' := NextWordRun(declaration, p');
    }

    /** `addToStringArray(this.aliases)` with the match of an `alias = name` line. */
    method AddToStringArray(m: Option<Declaration>)
      modifies this`result, this`aliases
      ensures var r := AddAliasStep(old(State()), m);
        result == r.result && aliases == r.aliases
      ensures m.Some? ==> m.value.name in aliases
      ensures m.Some? && m.value.name in old(aliases) ==>
        aliases == old(aliases)
        && result == old(result) + [At(currentLineNumber, m.value.prefix, m.value.prefix + |m.value.name|, Error,
                                       m.value.name + " is already defined")]
      ensures m.Some? && m.value.name !in old(aliases) ==> aliases == old(aliases) + [m.value.name] && result == old(result)
    {
      if m.None? {
        return;
      }
      ValidatorProps.AliasDefinedOnce(State(), m.value);
      var variable := m.value.name;
      if variable in aliases {
        result := result + [At(currentLineNumber, m.value.prefix, m.value.prefix + |variable|, Error, variable + " is already defined")];
      } else {
        aliases := aliases + [variable];
      }
    }

    /** `findDeAliases` on the current line `line`. */
    method FindDeAliases(line: string)
      modifies this`deAliases
      ensures deAliases == old(deAliases) + DeAliasRanges(currentLineNumber, line, 0)
    {
      var n := currentLineNumber;
      var found: seq<TextRange> := [];
      var from := 0;
      var m := NextDeAlias(line, from);
      ghost var whole := DeAliasRanges(n, line, 0);
      while m.Some?
        modifies {}
        invariant m == NextDeAlias(line, from)
        invariant found + DeAliasRanges(n, line, from) == whole
        decreases |line| - from
      {
        found, from, m := TakeDeAlias(n, line, from, found, whole);
      }
      deAliases := deAliases + found;
    }

    /** One turn of the loop of `findDeAliases`: keeps the range of the match at hand, looks for the next one. */
    method TakeDeAlias(n: nat, line: string, from: nat, found: seq<TextRange>, ghost whole: seq<TextRange>)
      returns (found': seq<TextRange>, from': nat, m': Option<Span>)
      requires NextDeAlias(line, from).Some? && found + DeAliasRanges(n, line, from) == whole
      ensures from < from' && m' == NextDeAlias(line, from') && found' + DeAliasRanges(n, line, from') == whole
    {
      var s := NextDeAlias(line, from).value;
      DeAliasNext(n, line, from, found, whole);
      found' := found + [TextRange(line[s.start..s.end], LineRange(n, s.start, s.end))];
      from' := s.end + 2;
      m' := NextDeAlias(line, from');
    }

    // -------------------------------------------------------------------------
    // Variables
    // -------------------------------------------------------------------------

    /** `isInMap(name, this.variables)` */
    method IsDeclared(name: string) returns (found: bool)
      ensures found == Declared(variables, name)
    {
      found := Util.IsInMap(Some(name), Util.Plain(Values(variables)));
      DeclaredMeaning(variables, name);
    }

    /** `addToStringMap(this.variables, key)` with the match of a declaration. */
    method AddToStringMap(key: string, m: Option<Declaration>)
      modifies this`result, this`variables
      ensures var r := AddToStringMapStep(old(State()), key, m);
        result == r.result && variables == r.variables
      ensures m.Some? ==> Declared(variables, m.value.name)
      ensures m.Some? && Declared(old(variables), m.value.name) && key != "freemarker" ==>
        var start := m.value.index + m.value.prefix;
        variables == old(variables)
        && result == old(result) + [At(currentLineNumber, start, start + |m.value.name|, Error,
                                       m.value.name + " is already defined")]
      ensures m.Some? && (!Declared(old(variables), m.value.name) || key == "freemarker") ==>
        result == old(result)
        && Get(variables, key) == Some(Get(old(variables), key).GetOr([]) + [m.value.name])
        && forall k :: k != key ==> Get(variables, k) == Get(old(variables), k)
    {
      if m.None? {
        return;
      }
      ValidatorProps.VariableDefinedOnce(State(), key, m.value);
      var variable := m.value.name;
      var declared := IsDeclared(variable);
      if declared && key != "freemarker" {
        var startPosition := m.value.index + m.value.prefix;
        result := result + [At(currentLineNumber, startPosition, startPosition + |variable|, Error, variable + " is already defined")];
      } else {
        var existing := Get(variables, key);
        if existing.None? {
          assert [] + [variable] == [variable];
          variables := Set(variables, key, [variable]);
        } else {
          variables := Set(variables, key, existing.value + [variable]);
        }
      }
    }

    /** `validateFor` on the current line `line`. */
    method ValidateFor(line: string)
      modifies this`result
      ensures result == old(result) + ForDiagnostics(Environment(), currentLineNumber, variables, line, 0)
    {
      var e, n, vars := Environment(), currentLineNumber, variables;
      var from := 0;
      var m := NextBraced(line, "@{", from);
      ghost var whole := old(result) + ForDiagnostics(e, n, vars, line, 0);
      while m.Some?
        invariant m == NextBraced(line, "@{", from)
        invariant result + ForDiagnostics(e, n, vars, line, from) == whole
        decreases |line| - from
      {
        var s := m.value;
        ForDiagnosticsNext(e, n, vars, line, from, s, line[s.start..s.end + 1], result, whole);
        from := ValidateForMatch(e, n, vars, line, s, whole);
        m := NextBraced(line, "@{", from);
      }
    }

    /** One turn of the loop of `validateFor`: checks the placeholder at hand, looks for the next one. */
    method ValidateForMatch(e: Env, n: nat, vars: OrderedMap<seq<string>>, line: string, s: Span, ghost whole: seq<Diagnostic>)
      returns (from': nat)
      requires e == Environment() && n == currentLineNumber && vars == variables
      requires s.start <= s.end < |line|
      requires result + PlaceholderDiagnostics(e, n, vars, line[s.start..s.end + 1], s.start, 0)
        + ForDiagnostics(e, n, vars, line, s.end + 1) == whole
      modifies this`result
      ensures s.start < from'
      ensures result + ForDiagnostics(e, n, vars, line, from') == whole
    {
      ValidatePlaceholder(e, n, vars, line[s.start..s.end + 1], s.start);
      from' := s.end + 1;
    }

    /** The inner loop of `validateFor`: the names of one placeholder `substr` at `startPosition`. */
    method ValidatePlaceholder(e: Env, n: nat, vars: OrderedMap<seq<string>>, substr: string, startPosition: nat)
      requires e == Environment() && n == currentLineNumber && vars == variables
      modifies this`result
      ensures result == old(result) + PlaceholderDiagnostics(e, n, vars, substr, startPosition, 0)
    {
      var p := 0;
      var v := NextVariable(substr, p);
      ghost var whole := old(result) + PlaceholderDiagnostics(e, n, vars, substr, startPosition, 0);
      while v.Some?
        invariant v == NextVariable(substr, p)
        invariant result + PlaceholderDiagnostics(e, n, vars, substr, startPosition, p) == whole
        decreases |substr| - p
      {
        p, v := CheckPlaceholderName(e, n, vars, substr, startPosition, p, whole);
      }
    }

    /** One turn of the inner loop of `validateFor`: reports the name at hand if undeclared, looks for the next one. */
    method CheckPlaceholderName(e: Env, n: nat, vars: OrderedMap<seq<string>>, substr: string, startPosition: nat,
                                p: nat, ghost whole: seq<Diagnostic>)
      returns (p': nat, v': Option<Span>)
      requires e == Environment() && n == currentLineNumber && vars == variables
      requires NextVariable(substr, p).Some?
      requires result + PlaceholderDiagnostics(e, n, vars, substr, startPosition, p) == whole
      modifies this`result
      ensures p < p' && v' == NextVariable(substr, p')
      ensures result + PlaceholderDiagnostics(e, n, vars, substr, startPosition, p') == whole
    {
      var v := NextVariable(substr, p).value;
      PlaceholderNext(e, n, vars, substr, startPosition, p, result, whole);
      if !(v.start > 0 && substr[v.start - 1] == '.') {
        var variable := substr[v.start..v.end];
        var declared := IsDeclared(variable);
        if !declared {
          var position := startPosition + v.start;
          result := result + [At(currentLineNumber, position, position + |variable|, Error, suggest(variable, mapToArray(variables)))];
        }
      }
      assert result == old(result) + UnknownName(e, n, vars, substr, startPosition, v);
      p' := v.end;
      v' := NextVariable(substr, p');
    }

    /** `handleFor` on the current line `line`. */
    method HandleFor(line: string)
      modifies this`result, this`variables
      ensures var r := HandleForStep(Environment(), old(State()), line);
        result == r.result && variables == r.variables
    {
      var matching := ForHeader(line);
      if matching.None? {
        return;
      }
      var h := matching.value;
      ForHeaderReport(line, h);
      assert State() == old(State()).(result := result);
      AddToStringMap("forVariables", Some(h.variable));
    }

    /** The check `handleFor` makes of the collection of the loop header `h` of `line`. */
    method ForHeaderReport(line: string, h: ForHead)
      requires h.length >= 2
      modifies this`result
      ensures result == old(result) + ForHeaderDiagnostics(Environment(), currentLineNumber, variables, line, h)
    {
      var collection := ForCollection(line);
      if collection.Some? {
        var c := collection.value;
        var start := c.prefix + (if c.isKeys then |ObjectKeys| else 0);
        var declared := IsDeclared(c.name);
        if !declared {
          result := result + [At(currentLineNumber, start, start + |c.name|, Error, suggest(c.name, mapToArray(variables)))];
        }
      } else {
        result := result + [At(currentLineNumber, h.length - 2, h.length, Error, "Empty 'in' statement")];
      }
    }

    /** `handleEndFor` */
    method HandleEndFor()
      modifies this`variables
      ensures variables == HandleEndForStep(old(State())).variables
    {
      var forVariables := Get(variables, "forVariables");
      var list: seq<string> := [];
      if forVariables.Some? && forVariables.value != [] {
        list := forVariables.value[..|forVariables.value| - 1];
      }
      variables := Set(variables, "forVariables", list);
    }

    /** `handleFreemarker` for the FreeMarker assignment `f` of the current line `line`. */
    method HandleFreemarker(line: string, f: FreemarkerAssignment)
      requires f.listVariable.Some? ==> IndexOf(line, f.listVariable.value).Some?
      modifies this`result, this`variables
      ensures var r := HandleFreemarkerStep(Environment(), old(State()), line, f);
        result == r.result && variables == r.variables
    {
      ghost var st := State();
      ghost var s1 := if Get(st.variables, "freemarker").None? then st.(variables := Set(st.variables, "freemarker", [])) else st;
      var freeMarkerVariables := Get(variables, "freemarker");
      if freeMarkerVariables.None? {
        variables := Set(variables, "freemarker", []);
        freeMarkerVariables := Some([]);
        SetGet(st.variables, "freemarker", []);
      }
      assert State() == s1;
      var fv := freeMarkerVariables.value;
      assert fv == Get(s1.variables, "freemarker").GetOr([]);
      if f.listVariable.Some? && f.listVariable.value !in fv {
        var lv := f.listVariable.value;
        var p := IndexOf(line, lv).value;
        result := result + [At(currentLineNumber, p, p + |lv|, Error, suggest(lv, fv))];
      }
      AddToStringMap("freemarker", Some(Declaration(0, f.prefix, f.variable)));
    }

    // -------------------------------------------------------------------------
    // Keywords
    // -------------------------------------------------------------------------

    /** `switchKeyword` for the keyword `fk` of the current line `line`. */
    method SwitchKeyword(line: string, fk: TextRange) returns (status: Status)
      modifies this`variables, this`keywordsStack, this`result, this`lastCondition, this`csvColumns
      ensures var r := SwitchKeywordStep(Environment(), old(State()), line, fk);
        variables == r.0.variables && keywordsStack == r.0.keywordsStack && result == r.0.result
        && lastCondition == r.0.lastCondition && csvColumns == r.0.csvColumns && status == r.1
    {
      status := Ok;
      match fk.text
      case "endfor" => EndFor(fk);
      case "endif" => CheckEnd(fk, "if");
      case "endvar" => CheckEnd(fk, "var");
      case "endcsv" => CheckEnd(fk, "csv");
      case "endlist" => CheckEnd(fk, "list");
      case "endscript" => CheckEnd(fk, "script");
      case "else" => HandleElse(line, fk);
      case "elseif" => HandleElse(line, fk);
      case "csv" => status := HandleCsv(line);
      case "var" => HandleVar(line, fk);
      case "list" => HandleList(line, fk);
      case "for" => HandleFor(line);
      case "if" => SetLastCondition(line);
      case "script" => HandleScript(line, fk);
      case "import" =>
      case _ => status := Thrown(fk.text + " is not handled");
    }

    /** The `endfor` case of `switchKeyword`. */
    method EndFor(fk: TextRange)
      modifies this`variables, this`keywordsStack, this`result
      ensures var r := EndForStep(old(State()), fk);
        variables == r.variables && keywordsStack == r.keywordsStack && result == r.result
    {
      HandleEndFor();
      CheckEnd(fk, "for");
    }

    /** The `var` case of `switchKeyword`: a block `var` is pushed, and the name declared. */
    method HandleVar(line: string, fk: TextRange)
      modifies this`variables, this`keywordsStack, this`result
      ensures var r := VarStep(old(State()), line, fk);
        variables == r.variables && keywordsStack == r.keywordsStack && result == r.result
    {
      if VarOpensBlock(line) {
        keywordsStack := keywordsStack + [fk];
      }
      AddToStringMap("varNames", VarDeclaration(line));
    }

    /** `checkEnd(expectedEnd)` for the keyword `fk`. */
    method CheckEnd(fk: TextRange, expectedEnd: string)
      modifies this`keywordsStack, this`result
      ensures var r := CheckEndStep(old(State()), fk, expectedEnd);
        keywordsStack == r.keywordsStack && result == r.result
    {
      var lastKeyword := LastKeyword(keywordsStack);
      if lastKeyword == Some(expectedEnd) {
        keywordsStack := keywordsStack[..|keywordsStack| - 1];
        return;
      }
      if !AreWeIn(keywordsStack, expectedEnd) {
        result := result + [CreateDiagnostic(fk.range, Error, fk.text + " has no matching " + expectedEnd)];
      } else {
        var index := FindIndex(keywordsStack, expectedEnd);
        keywordsStack := keywordsStack[..index] + keywordsStack[index + 1..];
        result := result + [CreateDiagnostic(fk.range, Error, expectedEnd + " has finished before " + Printed(lastKeyword))];
      }
    }

    /** `setLastCondition` on the current line `line`. */
    method SetLastCondition(line: string)
      modifies this`lastCondition
      ensures lastCondition == SetLastConditionStep(old(State()), line).lastCondition
    {
      lastCondition := Some(NatToString(currentLineNumber) + line);
    }

    /** `handleElse` for the keyword `fk` of the current line `line`. */
    method HandleElse(line: string, fk: TextRange)
      modifies this`lastCondition, this`result
      ensures var r := HandleElseStep(old(State()), line, fk);
        lastCondition == r.lastCondition && result == r.result
      ensures !AreWeIn(keywordsStack, "if") ==>
        result == old(result) + [CreateDiagnostic(fk.range, Error, fk.text + " has no matching if")]
      ensures AreWeIn(keywordsStack, "if") && LastKeyword(keywordsStack) != Some("if") ==>
        result == old(result) + [CreateDiagnostic(fk.range, Error, fk.text + " has started before "
                                    + keywordsStack[|keywordsStack| - 1].text + " has finished")]
      ensures LastKeyword(keywordsStack) == Some("if") ==> result == old(result)
    {
      ValidatorProps.ElseOutsideIfReported(State(), line, fk);
      SetLastCondition(line);
      var lastKeyword := LastKeyword(keywordsStack);
      if !AreWeIn(keywordsStack, "if") {
        result := result + [CreateDiagnostic(fk.range, Error, fk.text + " has no matching if")];
      } else if lastKeyword != Some("if") {
        result := result + [CreateDiagnostic(fk.range, Error, fk.text + " has started before " + Printed(lastKeyword) + " has finished")];
      }
    }

    /** `handleCsv` on the current line `line`. */
    method HandleCsv(line: string) returns (status: Status)
      modifies this`result, this`variables, this`csvColumns
      ensures var r := HandleCsvStep(Environment(), old(State()), line);
        result == r.0.result && variables == r.0.variables && csvColumns == r.0.csvColumns && status == r.1
    {
      var header := ReadCsvHeader(line);
      if header.Failure? {
        return Thrown(header.message);
      }
      AddToStringMap("csvNames", CsvDeclaration(line));
      if header.value.None? {
        csvColumns := Some(0);
      } else {
        var columns := Util.CountCsvColumns(header.value.value);
        csvColumns := Some(columns);
      }
      return Ok;
    }

    /** The header lookup of `handleCsv` for the current line `line`. */
    method ReadCsvHeader(line: string) returns (header: Result<Option<string>>)
      ensures header == CsvHeader(Environment(), currentLineNumber, line)
    {
      if EqualsAtEnd(line) {
        var next := NextNonBlankLine(currentLineNumber + 1);
        header := Success(next);
      } else {
        var eq := IndexOf(line, "=");
        if eq.None? {
          return Failure("The line does not contain a '='");
        }
        header := Success(Some(line[eq.value + 1..]));
      }
    }

    /** The loops of `handleCsv` and `handleList`: the first line from `j` on that is not blank. */
    method NextNonBlankLine(j: nat) returns (header: Option<string>)
      ensures header == NextNonBlank(Environment(), j)
    {
      var k := j;
      header := GetLine(Environment(), k);
      while header.Some? && BlankLineM(header.value)
        invariant k >= j && header == GetLine(Environment(), k)
        invariant NextNonBlank(Environment(), j) == NextNonBlank(Environment(), k)
        decreases |lines| - k
      {
        k := k + 1;
        header := GetLine(Environment(), k);
      }
    }

    /** `validateCsv` on the current line `line`. */
    method ValidateCsv(line: string)
      modifies this`result
      ensures result == ValidateCsvStep(old(State()), line).result
    {
      var columns := Util.CountCsvColumns(line);
      if Some(columns) != csvColumns && !BlankLineM(line) {
        var expected := if csvColumns.None? then "undefined" else NatToString(csvColumns.value);
        result := result + [At(currentLineNumber, 0, |line|, Error, "Expected " + expected + " columns, but found " + NatToString(columns))];
      }
    }

    /** `handleList` for the keyword `fk` of the current line `line`. */
    method HandleList(line: string, fk: TextRange)
      modifies this`result, this`variables, this`keywordsStack
      ensures var r := HandleListStep(Environment(), old(State()), line, fk);
        result == r.result && variables == r.variables && keywordsStack == r.keywordsStack
      ensures keywordsStack == old(keywordsStack) + (if ListOpens(Environment(), currentLineNumber, line) then [fk] else [])
    {
      ValidatorProps.ListBlockOpens(Environment(), State(), line, fk);
      AddToStringMap("listNames", ListDeclaration(line));
      var opens := OpensList(line);
      if opens {
        keywordsStack := keywordsStack + [fk];
      }
    }

    /** The test of `handleList`: the line ends the list with `=` or `,`, or the next non-blank line continues it. */
    method OpensList(line: string) returns (opens: bool)
      ensures opens == ListOpens(Environment(), currentLineNumber, line)
    {
      if EqualsOrCommaAtEnd(line) {
        return true;
      }
      var nextLine := NextNonBlankLine(currentLineNumber + 1);
      opens := nextLine.Some? && (StartsWithComma(nextLine.value) || HasWord(nextLine.value, "endlist"));
    }

    /** `handleScript` for the keyword `fk` of the current line `line`. */
    method HandleScript(line: string, fk: TextRange)
      modifies this`keywordsStack, this`result
      ensures var r := HandleScriptStep(old(State()), line, fk);
        keywordsStack == r.keywordsStack && result == r.result
      ensures ScriptAssignment(line) ==> keywordsStack == old(keywordsStack) && result == old(result)
      ensures !ScriptAssignment(line) ==> keywordsStack == old(keywordsStack) + [fk]
      ensures !ScriptAssignment(line) && ScriptTrailing(line).None? ==> result == old(result)
      ensures !ScriptAssignment(line) && ScriptTrailing(line).Some? ==>
        var b := ScriptTrailing(line).value;
        result == old(result) + [At(currentLineNumber, b, b + 6, Error, LinefeedRequired)]
    {
      ValidatorProps.ScriptBlockOpens(State(), line, fk);
      if ScriptAssignment(line) {
        return;
      }
      keywordsStack := keywordsStack + [fk];
      var m := ScriptTrailing(line);
      if m.Some? {
        result := result + [At(currentLineNumber, m.value, m.value + 6, Error, LinefeedRequired)];
      }
    }
  }
}

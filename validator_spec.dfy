/**
 * The checker of `validator.ts` as functions on its state: one step function
 * per method of the `Validator` class, each computing the state the method
 * leaves behind. The class in `validator.dfy` is proved against these.
 *
 * The shared regular-expression register `match` of the class is not part of
 * the state: every method reads the match set just before it is called, so
 * the match is passed as an argument. A thrown `Error` is a `Thrown` status
 * next to the state as it was when the error was raised.
 */
module ValidatorSpec {
  import opened Wrappers
  import opened Text
  import opened Diagnostics
  import opened Settings
  import opened Resources
  import opened TextRanges
  import opened Patterns
  import opened ValidatorPatterns
  import opened OrderedMaps
  import Util

  /** A list of settings of which a section must declare at least one. */
  type Slot = s: seq<Setting> | |s| > 0 witness [Setting("", "", "", "", [], [], false)]

  /**
   * What the checker depends on besides its own state: the document's lines
   * after comments are blanked, the settings dictionary, and the helpers
   * `suggestionMessage`, `addDisplayNames` and `mapToArray`, whose code is
   * not part of this model.
   */
  datatype Env = Env(
    lines: seq<string>,
    dictionary: Dictionary,
    suggest: (string, seq<string>) -> string,
    addDisplayNames: seq<string> -> seq<string>,
    mapToArray: OrderedMap<seq<string>> -> seq<string>)

  /**
   * The fields of a `Validator`. `sharesPrevious` records that
   * `currentSettings` and `previousSettings` are one list: the section
   * handler makes them so when a blank line resumes the previous section,
   * and from then on a push to one is a push to the other.
   */
  datatype VState = VState(
    aliases: seq<string>,
    csvColumns: Option<nat>,
    currentLineNumber: nat,
    currentSection: Option<TextRange>,
    currentSettings: seq<Setting>,
    deAliases: seq<TextRange>,
    foundKeyword: Option<TextRange>,
    ifSettings: OrderedMap<seq<Setting>>,
    keywordsStack: seq<TextRange>,
    lastCondition: Option<string>,
    parentSettings: OrderedMap<seq<Setting>>,
    previousSection: Option<TextRange>,
    previousSettings: seq<Setting>,
    sharesPrevious: bool,
    requiredSettings: seq<Slot>,
    result: seq<Diagnostic>,
    settingValues: map<string, string>,
    urlParameters: seq<string>,
    variables: OrderedMap<seq<string>>,
    currentWidget: Option<string>)

  /** The state of a new `Validator`. */
  const Initial: VState :=
    VState([], None, 0, None, [], [], None, [], [], None, [], None, [], false, [], [], map[], [],
           [("freemarker", ["entity", "entities", "type"])], None)

  // ---------------------------------------------------------------------------
  // Small helpers
  // ---------------------------------------------------------------------------

  const FreemarkerDeprecated: string :=
    "Freemarker expressions are deprecated. Use a native collection: list, csv table, var object."
  const SeriesTagWarning: string :=
    " is interpreted as a series tag and is sent to the server. "
    + "Remove the setting from the [tags] section or enclose it double-quotes to suppress the warning."
  const LinefeedRequired: string := "A linefeed character after 'script' keyword is required"

  /** How a template literal prints a value that may be `undefined`. */
  function Printed(s: Option<string>): string {
    match s
    case None => "undefined"
    case Some(v) => v
  }

  /** A diagnostic on line `line` from character `from` to character `to`. */
  function At(line: nat, from: nat, to: nat, severity: Severity, message: string): (d: Diagnostic)
    ensures d.range == LineRange(line, from, to) && d.severity == severity && d.message == message
    ensures FromChecker(d)
  {
    CreateDiagnostic(LineRange(line, from, to), severity, message)
  }

  /** `this.result.push(d)` */
  function Push(st: VState, d: Diagnostic): VState {
    st.(result := st.result + [d])
  }

  /** The texts of the keywords on the stack. */
  function Texts(stack: seq<TextRange>): (r: seq<string>)
    ensures |r| == |stack| && forall i :: 0 <= i < |stack| ==> r[i] == stack[i].text
  {
    if stack == [] then [] else [stack[0].text] + Texts(stack[1..])
  }

  /** `areWeIn`: a keyword with this text is on the stack. */
  predicate AreWeIn(stack: seq<TextRange>, name: string) {
    name in Texts(stack)
  }

  /** `getLastKeyword`: the text of the top of the stack. */
  function LastKeyword(stack: seq<TextRange>): (r: Option<string>)
    ensures r.None? <==> stack == []
    ensures r.Some? ==> r.value == stack[|stack| - 1].text && r.value in Texts(stack)
  {
    if stack == [] then None else Some(stack[|stack| - 1].text)
  }

  /** `isKeywordEnd`: inside `keyword`, on a line that is not its `end` keyword. */
  predicate IsKeywordEnd(stack: seq<TextRange>, found: Option<TextRange>, keyword: string) {
    AreWeIn(stack, keyword) && (found.None? || found.value.text != "end" + keyword)
  }

  /** `getLine`: the line with the given number, lower-cased. */
  function GetLine(e: Env, j: nat): (r: Option<string>)
    ensures r.Some? <==> j < |e.lines|
    ensures r.Some? ==> r.value == ToLower(e.lines[j])
  {
    if j < |e.lines| then Some(ToLower(e.lines[j])) else None
  }

  /** `getCurrentLine` */
  function CurrentLine(e: Env, st: VState): string
    requires st.currentLineNumber < |e.lines|
  {
    ToLower(e.lines[st.currentLineNumber])
  }

  /** The loops of `handleCsv` and `handleList`: the first line from `j` on that is not blank. */
  function NextNonBlank(e: Env, j: nat): (r: Option<string>)
    ensures r.Some? ==> !BlankLineM(r.value)
    ensures r.Some? ==> exists k :: j <= k < |e.lines| && r.value == ToLower(e.lines[k])
    ensures r.None? ==> forall k :: j <= k < |e.lines| ==> BlankLineM(ToLower(e.lines[k]))
    decreases |e.lines| - j
  {
    if j >= |e.lines| then None
    else if BlankLineM(ToLower(e.lines[j])) then NextNonBlank(e, j + 1)
    else Some(ToLower(e.lines[j]))
  }

  /** `isInMap` on the variables: some list of the map holds the name. */
  predicate Declared(vars: OrderedMap<seq<string>>, name: string) {
    vars != [] && (name in vars[0].1 || Declared(vars[1..], name))
  }

  /** `Declared` is `isInMap` over the map's value lists. */
  lemma {:induction false} DeclaredMeaning(vars: OrderedMap<seq<string>>, name: string)
    ensures Declared(vars, name) <==> Util.InLists(name, Util.Plain(Values(vars)))
  {
    Util.InPlainLists(name, Values(vars));
    ValuesAt(vars);
    if Declared(vars, name) {
      var i := DeclaredIndex(vars, name);
      assert name in Values(vars)[i];
    }
    forall i | 0 <= i < |vars| && name in Values(vars)[i] ensures Declared(vars, name) {
      DeclaredFrom(vars, name, i);
    }
  }

  /** The list of the map that holds a declared name. */
  lemma {:induction false} DeclaredIndex(vars: OrderedMap<seq<string>>, name: string) returns (i: nat)
    requires Declared(vars, name)
    ensures i < |vars| && name in vars[i].1
  {
    if name in vars[0].1 {
      i := 0;
    } else {
      var j := DeclaredIndex(vars[1..], name);
      i := j + 1;
    }
  }

  lemma {:induction false} DeclaredFrom(vars: OrderedMap<seq<string>>, name: string, i: nat)
    requires i < |vars| && name in vars[i].1
    ensures Declared(vars, name)
  {
    if i > 0 {
      DeclaredFrom(vars[1..], name, i - 1);
    }
  }

  // ---------------------------------------------------------------------------
  // Collections: addToStringMap, addToStringArray, addToSettingArray,
  // addToParentsSettings
  // ---------------------------------------------------------------------------

  /**
   * `addToStringMap(this.variables, key)` with the match of a declaration:
   * an Error when the name is declared already (except for FreeMarker
   * names), the name appended to the list under `key` otherwise.
   */
  function AddToStringMapStep(st: VState, key: string, m: Option<Declaration>): (r: VState)
    ensures r.aliases == st.aliases && r.csvColumns == st.csvColumns
      && r.currentLineNumber == st.currentLineNumber && r.currentSection == st.currentSection
      && r.currentSettings == st.currentSettings && r.deAliases == st.deAliases
      && r.foundKeyword == st.foundKeyword && r.ifSettings == st.ifSettings
      && r.keywordsStack == st.keywordsStack && r.lastCondition == st.lastCondition
      && r.parentSettings == st.parentSettings && r.previousSection == st.previousSection
      && r.previousSettings == st.previousSettings && r.sharesPrevious == st.sharesPrevious
      && r.requiredSettings == st.requiredSettings && r.settingValues == st.settingValues
      && r.urlParameters == st.urlParameters && r.currentWidget == st.currentWidget
  {
    match m
    case None => st
    case Some(dcl) =>
      if Declared(st.variables, dcl.name) && key != "freemarker" then
        var start := dcl.index + dcl.prefix;
        Push(st, At(st.currentLineNumber, start, start + |dcl.name|, Error, dcl.name + " is already defined"))
      else
        st.(variables := Set(st.variables, key, Get(st.variables, key).GetOr([]) + [dcl.name]))
  }

  /** `addToStringArray(this.aliases)` with the match of an `alias = name` line. */
  function AddAliasStep(st: VState, m: Option<Declaration>): (r: VState)
    ensures r.csvColumns == st.csvColumns && r.currentLineNumber == st.currentLineNumber
      && r.currentSection == st.currentSection && r.currentSettings == st.currentSettings
      && r.deAliases == st.deAliases && r.foundKeyword == st.foundKeyword && r.ifSettings == st.ifSettings
      && r.keywordsStack == st.keywordsStack && r.lastCondition == st.lastCondition
      && r.parentSettings == st.parentSettings && r.previousSection == st.previousSection
      && r.previousSettings == st.previousSettings && r.sharesPrevious == st.sharesPrevious
      && r.requiredSettings == st.requiredSettings && r.settingValues == st.settingValues
      && r.urlParameters == st.urlParameters && r.variables == st.variables
      && r.currentWidget == st.currentWidget
  {
    match m
    case None => st
    case Some(dcl) =>
      if dcl.name in st.aliases then
        Push(st, At(st.currentLineNumber, dcl.prefix, dcl.prefix + |dcl.name|, Error, dcl.name + " is already defined"))
      else
        st.(aliases := st.aliases + [dcl.name])
  }

  /** The list `addToSettingArray` returns: `variable` appended unless present. */
  function WithSetting(list: seq<Setting>, variable: Setting): (r: seq<Setting>)
    ensures variable in r
    ensures forall x :: x in r <==> x in list || x == variable
  {
    if variable in list then list else list + [variable]
  }

  /**
   * The diagnostic `addToSettingArray` adds: a repetition diagnostic for the
   * setting `a` names when `list` holds it already. The method looks the
   * setting up again by the same name; it finds `variable`.
   */
  function SettingArrayStep(st: VState, a: Assignment, variable: Setting, list: seq<Setting>): (r: VState)
    ensures r.aliases == st.aliases && r.csvColumns == st.csvColumns
      && r.currentLineNumber == st.currentLineNumber && r.currentSection == st.currentSection
      && r.currentSettings == st.currentSettings && r.deAliases == st.deAliases
      && r.foundKeyword == st.foundKeyword && r.ifSettings == st.ifSettings
      && r.keywordsStack == st.keywordsStack && r.lastCondition == st.lastCondition
      && r.parentSettings == st.parentSettings && r.previousSection == st.previousSection
      && r.previousSettings == st.previousSettings && r.sharesPrevious == st.sharesPrevious
      && r.requiredSettings == st.requiredSettings && r.settingValues == st.settingValues
      && r.urlParameters == st.urlParameters && r.variables == st.variables
      && r.currentWidget == st.currentWidget
  {
    if variable in list then
      Push(st, Util.RepetitionDiagnostic(LineRange(st.currentLineNumber, a.indent, a.indent + |a.name|), variable, a.name))
    else st
  }

  /** `addCurrentToParentSettings`: the section's settings appended to its parent entry. */
  function AddCurrentToParentSettingsStep(st: VState): (r: VState)
    ensures r.aliases == st.aliases && r.csvColumns == st.csvColumns
      && r.currentLineNumber == st.currentLineNumber && r.currentSection == st.currentSection
      && r.currentSettings == st.currentSettings && r.deAliases == st.deAliases
      && r.foundKeyword == st.foundKeyword && r.ifSettings == st.ifSettings
      && r.keywordsStack == st.keywordsStack && r.lastCondition == st.lastCondition
      && r.previousSection == st.previousSection && r.previousSettings == st.previousSettings
      && r.sharesPrevious == st.sharesPrevious && r.requiredSettings == st.requiredSettings
      && r.result == st.result && r.settingValues == st.settingValues && r.urlParameters == st.urlParameters
      && r.variables == st.variables && r.currentWidget == st.currentWidget
  {
    if st.currentSection.None? || st.currentSettings == [] then st
    else
      var key := st.currentSection.value.text;
      st.(parentSettings := Set(st.parentSettings, key, Get(st.parentSettings, key).GetOr([]) + st.currentSettings))
  }

  // ---------------------------------------------------------------------------
  // checkAliases, diagnosticForLeftKeywords, checkEnd
  // ---------------------------------------------------------------------------

  /** The diagnostics of `checkAliases`: one per use of an alias nobody declared. */
  function UnknownAliases(e: Env, deAliases: seq<TextRange>, aliases: seq<string>): (r: seq<Diagnostic>)
    ensures |r| <= |deAliases|
  {
    if deAliases == [] then []
    else
      var d := deAliases[0];
      (if d.text in aliases then [] else [CreateDiagnostic(d.range, Error, e.suggest(d.text, aliases))])
      + UnknownAliases(e, deAliases[1..], aliases)
  }

  function CheckAliasesStep(e: Env, st: VState): (r: VState)
    ensures r.aliases == st.aliases && r.csvColumns == st.csvColumns
      && r.currentLineNumber == st.currentLineNumber && r.currentSection == st.currentSection
      && r.currentSettings == st.currentSettings && r.deAliases == st.deAliases
      && r.foundKeyword == st.foundKeyword && r.ifSettings == st.ifSettings
      && r.keywordsStack == st.keywordsStack && r.lastCondition == st.lastCondition
      && r.parentSettings == st.parentSettings && r.previousSection == st.previousSection
      && r.previousSettings == st.previousSettings && r.sharesPrevious == st.sharesPrevious
      && r.requiredSettings == st.requiredSettings && r.settingValues == st.settingValues
      && r.urlParameters == st.urlParameters && r.variables == st.variables
      && r.currentWidget == st.currentWidget
  {
    st.(result := st.result + UnknownAliases(e, st.deAliases, st.aliases))
  }

  /** The diagnostics of `diagnosticForLeftKeywords`: one per keyword left open. */
  function LeftKeywords(stack: seq<TextRange>): (r: seq<Diagnostic>)
    ensures |r| == |stack|
  {
    if stack == [] then []
    else [CreateDiagnostic(stack[0].range, Error, stack[0].text + " has no matching end" + stack[0].text)]
         + LeftKeywords(stack[1..])
  }

  function LeftKeywordsStep(st: VState): (r: VState) {
    st.(result := st.result + LeftKeywords(st.keywordsStack))
  }

  /** The position of the first keyword with this text: `findIndex`. */
  function FindIndex(stack: seq<TextRange>, name: string): (i: nat)
    requires name in Texts(stack)
    ensures i < |stack| && stack[i].text == name
    ensures forall k :: 0 <= k < i ==> stack[k].text != name
  {
    if stack[0].text == name then 0
    else
      assert Texts(stack) == [stack[0].text] + Texts(stack[1..]);
      FindIndex(stack[1..], name) + 1
  }

  /**
   * `checkEnd(expectedEnd)` for the keyword `fk`: pops the top when it is
   * the expected one; otherwise reports the `end` as unmatched, or removes
   * the innermost-from-the-bottom matching keyword and reports that it was
   * closed before the keyword on top.
   */
  function CheckEndStep(st: VState, fk: TextRange, expectedEnd: string): (r: VState)
    ensures r.aliases == st.aliases && r.csvColumns == st.csvColumns
      && r.currentLineNumber == st.currentLineNumber && r.currentSection == st.currentSection
      && r.currentSettings == st.currentSettings && r.deAliases == st.deAliases
      && r.foundKeyword == st.foundKeyword && r.ifSettings == st.ifSettings
      && r.lastCondition == st.lastCondition && r.parentSettings == st.parentSettings
      && r.previousSection == st.previousSection && r.previousSettings == st.previousSettings
      && r.sharesPrevious == st.sharesPrevious && r.requiredSettings == st.requiredSettings
      && r.settingValues == st.settingValues && r.urlParameters == st.urlParameters
      && r.variables == st.variables && r.currentWidget == st.currentWidget
  {
    var stack := st.keywordsStack;
    var last := LastKeyword(stack);
    if last == Some(expectedEnd) then st.(keywordsStack := stack[..|stack| - 1])
    else if !AreWeIn(stack, expectedEnd) then
      Push(st, CreateDiagnostic(fk.range, Error, fk.text + " has no matching " + expectedEnd))
    else
      var i := FindIndex(stack, expectedEnd);
      Push(st.(keywordsStack := stack[..i] + stack[i + 1..]),
           CreateDiagnostic(fk.range, Error, expectedEnd + " has finished before " + Printed(last)))
  }

  // ---------------------------------------------------------------------------
  // Sections: spellingCheck, checkPreviousSection, handleSection
  // ---------------------------------------------------------------------------

  /** `checkFreemarker`: an Information on a `<#list` or `<#assign` directive. */
  function CheckFreemarkerStep(st: VState, line: string): (r: VState)
    ensures r.aliases == st.aliases && r.csvColumns == st.csvColumns
      && r.currentLineNumber == st.currentLineNumber && r.currentSection == st.currentSection
      && r.currentSettings == st.currentSettings && r.deAliases == st.deAliases
      && r.foundKeyword == st.foundKeyword && r.ifSettings == st.ifSettings
      && r.keywordsStack == st.keywordsStack && r.lastCondition == st.lastCondition
      && r.parentSettings == st.parentSettings && r.previousSection == st.previousSection
      && r.previousSettings == st.previousSettings && r.sharesPrevious == st.sharesPrevious
      && r.requiredSettings == st.requiredSettings && r.settingValues == st.settingValues
      && r.urlParameters == st.urlParameters && r.variables == st.variables
      && r.currentWidget == st.currentWidget
  {
    match FreemarkerDirective(line)
    case None => st
    case Some(s) =>
      Push(st, At(st.currentLineNumber, s.start, s.end, Information, FreemarkerDeprecated))
  }

  /** `spellingCheck`: an Error with a suggestion for an unknown section name. */
  function SpellingCheckStep(e: Env, st: VState, h: Header): (r: VState)
    ensures r.aliases == st.aliases && r.csvColumns == st.csvColumns
      && r.currentLineNumber == st.currentLineNumber && r.currentSection == st.currentSection
      && r.currentSettings == st.currentSettings && r.deAliases == st.deAliases
      && r.foundKeyword == st.foundKeyword && r.ifSettings == st.ifSettings
      && r.keywordsStack == st.keywordsStack && r.lastCondition == st.lastCondition
      && r.parentSettings == st.parentSettings && r.previousSection == st.previousSection
      && r.previousSettings == st.previousSettings && r.sharesPrevious == st.sharesPrevious
      && r.requiredSettings == st.requiredSettings && r.settingValues == st.settingValues
      && r.urlParameters == st.urlParameters && r.variables == st.variables
      && r.currentWidget == st.currentWidget
  {
    if h.name in PossibleSections then st
    else Push(st, At(st.currentLineNumber, h.prefix, h.prefix + |h.name|, Error, e.suggest(h.name, PossibleSections)))
  }

  /** Some list holds one of the options. */
  predicate AnyInSome(options: seq<Setting>, lists: seq<seq<Setting>>) {
    lists != [] && (Util.AnyIn(options, lists[0]) || AnyInSome(options, lists[1..]))
  }

  /** Every list holds one of the options. */
  predicate AnyInAll(options: seq<Setting>, lists: seq<seq<Setting>>) {
    lists == [] || (Util.AnyIn(options, lists[0]) && AnyInAll(options, lists[1..]))
  }

  /** The number of `if` branches among the keys of `ifSettings`: keys matching `\bif\b`. */
  function IfCount(keys: seq<string>): nat {
    if keys == [] then 0 else (if HasWord(keys[0], "if") then 1 else 0) + IfCount(keys[1..])
  }

  /** The number of keys matching `\belse\b` but not `\bif\b`. */
  function ElseCount(keys: seq<string>): nat {
    if keys == [] then 0
    else (if !HasWord(keys[0], "if") && HasWord(keys[0], "else") then 1 else 0) + ElseCount(keys[1..])
  }

  /**
   * A required slot is satisfied: by `columnmetric = null` with
   * `columnvalue = null` for the `metric` slot, by the section's own
   * settings, by a parent section's, or by every branch of an `if` whose
   * `if` and `else` branches are as many.
   */
  predicate SlotSatisfied(st: VState, options: Slot) {
    (options[0].displayName == "metric"
      && "columnmetric" in st.settingValues && st.settingValues["columnmetric"] == "null"
      && "columnvalue" in st.settingValues && st.settingValues["columnvalue"] == "null")
    || Util.AnyIn(options, st.currentSettings)
    || AnyInSome(options, Values(st.parentSettings))
    || (|st.ifSettings| > 0 && AnyInAll(options, Values(st.ifSettings))
        && IfCount(Keys(st.ifSettings)) == ElseCount(Keys(st.ifSettings)))
  }

  /** The display names of the slots that are not satisfied, in order. */
  function Missing(st: VState, slots: seq<Slot>): (r: seq<string>)
    ensures |r| <= |slots|
  {
    if slots == [] then []
    else (if SlotSatisfied(st, slots[0]) then [] else [slots[0][0].displayName]) + Missing(st, slots[1..])
  }

  /** One more slot of `Missing`, after the names `done` already found. */
  lemma MissingNext(st: VState, slots: seq<Slot>, k: nat, done: seq<string>, whole: seq<string>)
    requires k < |slots| && done + Missing(st, slots[k..]) == whole
    ensures (done + (if SlotSatisfied(st, slots[k]) then [] else [slots[k][0].displayName])) + Missing(st, slots[k + 1..]) == whole
  {
    assert slots[k..][1..] == slots[k + 1..];
  }

  /** One `<name> is required` Error per missing slot, on the section header. */
  function RequiredDiagnostics(range: Range, names: seq<string>): (r: seq<Diagnostic>)
    ensures |r| == |names|
    ensures forall k :: 0 <= k < |names| ==>
      r[k] == CreateDiagnostic(range, Error, names[k] + " is required")
  {
    if names == [] then []
    else [CreateDiagnostic(range, Error, names[0] + " is required")] + RequiredDiagnostics(range, names[1..])
  }

  /** The slots the section `name` must fill: its own, then those its settings asked for. */
  function SlotsOf(e: Env, name: string, extra: seq<Slot>): seq<Slot>
    requires HasRequiredNames(e.dictionary)
  {
    var table := RequiredSectionSettings(e.dictionary);
    (if name in table then SlotsFromLists(table[name]) else []) + extra
  }

  /** The requirement lists of the table, every one of which is non-empty. */
  function SlotsFromLists(lists: seq<seq<Setting>>): (r: seq<Slot>)
    requires forall k :: 0 <= k < |lists| ==> |lists[k]| > 0
    ensures |r| == |lists| && forall k :: 0 <= k < |lists| ==> r[k] == lists[k]
  {
    if lists == [] then [] else [lists[0]] + SlotsFromLists(lists[1..])
  }

  /**
   * `checkPreviousSection`: an Error on the section header for every slot
   * the section leaves unfilled; the requirements are then cleared.
   */
  function CheckPreviousSectionStep(e: Env, st: VState): (r: VState)
    requires HasRequiredNames(e.dictionary)
    ensures r.aliases == st.aliases && r.csvColumns == st.csvColumns
      && r.currentLineNumber == st.currentLineNumber && r.currentSection == st.currentSection
      && r.currentSettings == st.currentSettings && r.deAliases == st.deAliases
      && r.foundKeyword == st.foundKeyword && r.ifSettings == st.ifSettings
      && r.keywordsStack == st.keywordsStack && r.lastCondition == st.lastCondition
      && r.parentSettings == st.parentSettings && r.previousSection == st.previousSection
      && r.previousSettings == st.previousSettings && r.sharesPrevious == st.sharesPrevious
      && r.settingValues == st.settingValues && r.urlParameters == st.urlParameters
      && r.variables == st.variables && r.currentWidget == st.currentWidget
  {
    match st.currentSection
    case None => st
    case Some(section) =>
      var slots := SlotsOf(e, section.text, st.requiredSettings);
      st.(result := st.result + RequiredDiagnostics(section.range, Missing(st, slots)), requiredSettings := [])
  }

  /**
   * `handleSection` for a header line (`h` is its match) or a blank line
   * of a `[tags]` section (`h` is `None`): closes the section, then either
   * resumes the previous section or opens the new one.
   */
  function HandleSectionStep(e: Env, st: VState, h: Option<Header>): (r: VState)
    requires HasRequiredNames(e.dictionary)
    ensures r.csvColumns == st.csvColumns && r.currentLineNumber == st.currentLineNumber
      && r.foundKeyword == st.foundKeyword && r.keywordsStack == st.keywordsStack
      && r.lastCondition == st.lastCondition && r.urlParameters == st.urlParameters
      && r.variables == st.variables && r.currentWidget == st.currentWidget
  {
    OpenSectionStep(e, CloseSectionStep(e, st), h)
  }

  /** The first half of `handleSection`: the section's required settings are checked, its settings passed to its parent. */
  function CloseSectionStep(e: Env, st: VState): (r: VState)
    requires HasRequiredNames(e.dictionary)
    ensures r == st.(result := r.result, requiredSettings := r.requiredSettings, parentSettings := r.parentSettings)
  {
    AddCurrentToParentSettingsStep(CheckPreviousSectionStep(e, st))
  }

  /**
   * The second half of `handleSection`, once the section is closed: a blank
   * line of `[tags]` resumes the previous section, a header opens a new one.
   */
  function OpenSectionStep(e: Env, s1: VState, h: Option<Header>): (r: VState)
    ensures r.csvColumns == s1.csvColumns && r.currentLineNumber == s1.currentLineNumber
      && r.foundKeyword == s1.foundKeyword && r.keywordsStack == s1.keywordsStack
      && r.lastCondition == s1.lastCondition && r.urlParameters == s1.urlParameters
      && r.variables == s1.variables && r.currentWidget == s1.currentWidget
      && r.requiredSettings == s1.requiredSettings
  {
    match h
    case None => ResumeSectionStep(s1)
    case Some(hd) => NewSectionStep(e, s1, hd)
  }

  /** Leaving a widget: the aliases used and not declared are reported, and the widget's aliases and values forgotten. */
  function LeaveWidgetStep(e: Env, st: VState): (r: VState)
    ensures r == st.(result := r.result, deAliases := [], aliases := [], settingValues := map[])
    ensures r.result == st.result + UnknownAliases(e, st.deAliases, st.aliases)
  {
    CheckAliasesStep(e, st).(deAliases := [], aliases := [], settingValues := map[])
  }

  /** A blank line of `[tags]`: the previous section, if any, becomes current again and shares its settings. */
  function ResumeSectionStep(s1: VState): (r: VState)
    ensures r == s1 || r == s1.(currentSection := s1.previousSection, currentSettings := s1.previousSettings, sharesPrevious := true)
  {
    if s1.previousSection.Some? then
      s1.(currentSection := s1.previousSection, currentSettings := s1.previousSettings, sharesPrevious := true)
    else s1
  }

  /**
   * A section header `hd`: a widget header first reports the aliases used and
   * not declared and forgets the widget's aliases and values; then the header
   * becomes the current section, with no settings of its own yet.
   */
  function NewSectionStep(e: Env, s1: VState, hd: Header): (r: VState)
    ensures r.csvColumns == s1.csvColumns && r.currentLineNumber == s1.currentLineNumber
      && r.foundKeyword == s1.foundKeyword && r.keywordsStack == s1.keywordsStack
      && r.lastCondition == s1.lastCondition && r.urlParameters == s1.urlParameters
      && r.variables == s1.variables && r.currentWidget == s1.currentWidget
      && r.requiredSettings == s1.requiredSettings
    ensures r.currentSettings == [] && r.ifSettings == [] && !r.sharesPrevious
    ensures r.previousSection == s1.currentSection && r.previousSettings == s1.currentSettings
    ensures r.currentSection == Some(TextRange(hd.name, LineRange(s1.currentLineNumber, hd.prefix, hd.prefix + |hd.name|)))
  {
    EnterSectionStep(if MentionsWidget(hd.name) then LeaveWidgetStep(e, s1) else s1, hd)
  }

  /** The header `hd` becomes the current section; the one it replaces becomes the previous one. */
  function EnterSectionStep(s2: VState, hd: Header): (r: VState)
    ensures r.currentSettings == [] && r.ifSettings == [] && !r.sharesPrevious
    ensures r.previousSection == s2.currentSection && r.previousSettings == s2.currentSettings
    ensures r.currentSection == Some(TextRange(hd.name, LineRange(s2.currentLineNumber, hd.prefix, hd.prefix + |hd.name|)))
    ensures r.parentSettings == Delete(s2.parentSettings, hd.name)
  {
    var section := TextRange(hd.name, LineRange(s2.currentLineNumber, hd.prefix, hd.prefix + |hd.name|));
    s2.(previousSettings := s2.currentSettings, currentSettings := [], sharesPrevious := false,
        previousSection := s2.currentSection, ifSettings := [], currentSection := Some(section),
        parentSettings := Delete(s2.parentSettings, hd.name))
  }

  // ---------------------------------------------------------------------------
  // Settings: getSettingCheck, checkRepetition, typeCheck, checkExcludes,
  // findUrlParams, checkFreemarkerValue, findDeAliases, handleSettings
  // ---------------------------------------------------------------------------

  /**
   * `getSettingCheck` for a name the dictionary lacks: an Error with a
   * suggestion, unless the name is a keyword, a url parameter of a
   * `[placeholders]` section or starts with `column`.
   */
  function GetSettingCheckStep(e: Env, st: VState, a: Assignment): (r: VState)
    ensures r.aliases == st.aliases && r.csvColumns == st.csvColumns
      && r.currentLineNumber == st.currentLineNumber && r.currentSection == st.currentSection
      && r.currentSettings == st.currentSettings && r.deAliases == st.deAliases
      && r.foundKeyword == st.foundKeyword && r.ifSettings == st.ifSettings
      && r.keywordsStack == st.keywordsStack && r.lastCondition == st.lastCondition
      && r.parentSettings == st.parentSettings && r.previousSection == st.previousSection
      && r.previousSettings == st.previousSettings && r.sharesPrevious == st.sharesPrevious
      && r.requiredSettings == st.requiredSettings && r.settingValues == st.settingValues
      && r.urlParameters == st.urlParameters && r.variables == st.variables
      && r.currentWidget == st.currentWidget
  {
    if Util.GetSetting(e.dictionary, a.name).Some? then st
    else if FirstAlternative(a.name, Keywords, true).Some? then st
    else
      var placeholders := st.currentSection.Some? && st.currentSection.value.text == "placeholders";
      if placeholders && a.name in st.urlParameters then st
      else if StartsWith(a.name, "column") then st
      else
        var dictionary := if placeholders then st.urlParameters else [];
        Push(st, At(st.currentLineNumber, a.indent, a.indent + |a.name|, Error,
                    e.suggest(a.name, e.addDisplayNames(dictionary))))
  }

  /** The settings pushed to `currentSettings`, and to `previousSettings` when they are one list. */
  function WithCurrentSettings(st: VState, list: seq<Setting>): (r: VState)
    ensures r.aliases == st.aliases && r.csvColumns == st.csvColumns
      && r.currentLineNumber == st.currentLineNumber && r.currentSection == st.currentSection
      && r.deAliases == st.deAliases && r.foundKeyword == st.foundKeyword && r.ifSettings == st.ifSettings
      && r.keywordsStack == st.keywordsStack && r.lastCondition == st.lastCondition
      && r.parentSettings == st.parentSettings && r.previousSection == st.previousSection
      && r.sharesPrevious == st.sharesPrevious && r.requiredSettings == st.requiredSettings
      && r.result == st.result && r.settingValues == st.settingValues && r.urlParameters == st.urlParameters
      && r.variables == st.variables && r.currentWidget == st.currentWidget
  {
    st.(currentSettings := list, previousSettings := if st.sharesPrevious then list else st.previousSettings)
  }

  /**
   * `checkRepetition`: inside an `if`, the setting joins the branch's list
   * (reported when the branch has it already, or the section had it before
   * the `if`); outside, it joins the section's list, reported when present.
   */
  function CheckRepetitionStep(st: VState, a: Assignment, setting: Setting): (r: (VState, Status))
    ensures r.0.aliases == st.aliases && r.0.csvColumns == st.csvColumns
      && r.0.currentLineNumber == st.currentLineNumber && r.0.currentSection == st.currentSection
      && r.0.deAliases == st.deAliases && r.0.foundKeyword == st.foundKeyword
      && r.0.keywordsStack == st.keywordsStack && r.0.lastCondition == st.lastCondition
      && r.0.parentSettings == st.parentSettings && r.0.previousSection == st.previousSection
      && r.0.sharesPrevious == st.sharesPrevious && r.0.requiredSettings == st.requiredSettings
      && r.0.settingValues == st.settingValues && r.0.urlParameters == st.urlParameters
      && r.0.variables == st.variables && r.0.currentWidget == st.currentWidget
  {
    if AreWeIn(st.keywordsStack, "if") then
      match st.lastCondition
      case None => (st, Thrown("We are in if, but last condition is undefined"))
      case Some(key) => (IfRepetitionStep(st, a, setting, key), Ok)
    else
      var s1 := SettingArrayStep(st, a, setting, st.currentSettings);
      (WithCurrentSettings(s1, WithSetting(st.currentSettings, setting)), Ok)
  }

  /**
   * `checkRepetition` inside the `if` branch `key`: the setting joins the
   * branch's list, and is reported once more when the section had it before.
   */
  function IfRepetitionStep(st: VState, a: Assignment, setting: Setting, key: string): (r: VState)
    ensures r.currentSettings == st.currentSettings && r.previousSettings == st.previousSettings
    ensures r.ifSettings == Set(st.ifSettings, key, WithSetting(Get(st.ifSettings, key).GetOr([]), setting))
    ensures r == st.(result := r.result, ifSettings := r.ifSettings)
  {
    var list := Get(st.ifSettings, key).GetOr([]);
    var s1 := SettingArrayStep(st, a, setting, list);
    var s2 := s1.(ifSettings := Set(s1.ifSettings, key, WithSetting(list, setting)));
    var range := LineRange(st.currentLineNumber, a.indent, a.indent + |a.name|);
    if setting in st.currentSettings then Push(s2, Util.RepetitionDiagnostic(range, setting, a.name)) else s2
  }

  /** `typeCheck`: the diagnostic `checkType` finds, or its failure. */
  function TypeCheckStep(st: VState, a: Assignment, setting: Setting): (r: (VState, Status))
    ensures r.0.aliases == st.aliases && r.0.csvColumns == st.csvColumns
      && r.0.currentLineNumber == st.currentLineNumber && r.0.currentSection == st.currentSection
      && r.0.currentSettings == st.currentSettings && r.0.deAliases == st.deAliases
      && r.0.foundKeyword == st.foundKeyword && r.0.ifSettings == st.ifSettings
      && r.0.keywordsStack == st.keywordsStack && r.0.lastCondition == st.lastCondition
      && r.0.parentSettings == st.parentSettings && r.0.previousSection == st.previousSection
      && r.0.previousSettings == st.previousSettings && r.0.sharesPrevious == st.sharesPrevious
      && r.0.requiredSettings == st.requiredSettings && r.0.settingValues == st.settingValues
      && r.0.urlParameters == st.urlParameters && r.0.variables == st.variables
      && r.0.currentWidget == st.currentWidget
  {
    var range := LineRange(st.currentLineNumber, a.indent, a.indent + |a.name|);
    match CheckType(setting, a.value, range, a.name)
    case Failure(message) => (st, Thrown(message))
    case Success(None) => (st, Ok)
    case Success(Some(d)) => (Push(st, d), Ok)
  }

  /** The Error `checkExcludes` reports when `setting` is declared beside `other`, which it excludes. */
  function ExcludedBy(line: nat, a: Assignment, setting: Setting, other: Setting): (d: Diagnostic)
    ensures d.range == LineRange(line, a.indent, a.indent + |a.name|) && d.severity == Error
  {
    At(line, a.indent, a.indent + |a.name|, Error,
       setting.displayName + " can not be specified simultaneously with " + other.displayName)
  }

  /** The diagnostics of `checkExcludes`: one per setting of the section the new one excludes. */
  function ExcludesDiagnostics(line: nat, a: Assignment, setting: Setting, items: seq<Setting>): (r: seq<Diagnostic>)
    ensures |r| <= |items|
  {
    if items == [] then []
    else
      (if items[0].displayName in setting.excludes then [ExcludedBy(line, a, setting, items[0])] else [])
      + ExcludesDiagnostics(line, a, setting, items[1..])
  }

  function CheckExcludesStep(st: VState, a: Assignment, setting: Setting): (r: VState)
    ensures r.aliases == st.aliases && r.csvColumns == st.csvColumns
      && r.currentLineNumber == st.currentLineNumber && r.currentSection == st.currentSection
      && r.currentSettings == st.currentSettings && r.deAliases == st.deAliases
      && r.foundKeyword == st.foundKeyword && r.ifSettings == st.ifSettings
      && r.keywordsStack == st.keywordsStack && r.lastCondition == st.lastCondition
      && r.parentSettings == st.parentSettings && r.previousSection == st.previousSection
      && r.previousSettings == st.previousSettings && r.sharesPrevious == st.sharesPrevious
      && r.requiredSettings == st.requiredSettings && r.settingValues == st.settingValues
      && r.urlParameters == st.urlParameters && r.variables == st.variables
      && r.currentWidget == st.currentWidget
  {
    st.(result := st.result + ExcludesDiagnostics(st.currentLineNumber, a, setting, st.currentSettings))
  }

  /** The names `/{(.+?)}/g` finds from `from` on, each cleared like a setting name. */
  function UrlParams(line: string, from: nat): seq<string>
    decreases |line| - from
  {
    match NextBraced(line, "{", from)
    case None => []
    case Some(s) => [ClearSetting(line[s.start + 1..s.end])] + UrlParams(line, s.end + 1)
  }

  /** One name of `UrlParams`, after the names `done` already found. */
  lemma UrlParamsNext(line: string, from: nat, done: seq<string>, whole: seq<string>)
    requires NextBraced(line, "{", from).Some? && done + UrlParams(line, from) == whole
    ensures var s := NextBraced(line, "{", from).value;
      (done + [ClearSetting(line[s.start + 1..s.end])]) + UrlParams(line, s.end + 1) == whole
  {
  }

  /** `findUrlParams`: the url parameters are replaced by those of the line. */
  function FindUrlParamsStep(st: VState, line: string): (r: VState)
    ensures r.aliases == st.aliases && r.csvColumns == st.csvColumns
      && r.currentLineNumber == st.currentLineNumber && r.currentSection == st.currentSection
      && r.currentSettings == st.currentSettings && r.deAliases == st.deAliases
      && r.foundKeyword == st.foundKeyword && r.ifSettings == st.ifSettings
      && r.keywordsStack == st.keywordsStack && r.lastCondition == st.lastCondition
      && r.parentSettings == st.parentSettings && r.previousSection == st.previousSection
      && r.previousSettings == st.previousSettings && r.sharesPrevious == st.sharesPrevious
      && r.requiredSettings == st.requiredSettings && r.result == st.result
      && r.settingValues == st.settingValues && r.variables == st.variables
      && r.currentWidget == st.currentWidget
  {
    st.(urlParameters := UrlParams(line, 0))
  }

  /** The uses `value('name')` of aliases from `from` on, each with its range. */
  function DeAliasRanges(lineNumber: nat, line: string, from: nat): (r: seq<TextRange>)
    ensures forall k :: 0 <= k < |r| ==> r[k].range.start.line == lineNumber
    decreases |line| - from
  {
    match NextDeAlias(line, from)
    case None => []
    case Some(s) => [TextRange(line[s.start..s.end], LineRange(lineNumber, s.start, s.end))] + DeAliasRanges(lineNumber, line, s.end + 2)
  }

  /** One use of `DeAliasRanges`, after the uses `done` already found. */
  lemma DeAliasNext(lineNumber: nat, line: string, from: nat, done: seq<TextRange>, whole: seq<TextRange>)
    requires NextDeAlias(line, from).Some? && done + DeAliasRanges(lineNumber, line, from) == whole
    ensures var s := NextDeAlias(line, from).value;
      (done + [TextRange(line[s.start..s.end], LineRange(lineNumber, s.start, s.end))]) + DeAliasRanges(lineNumber, line, s.end + 2) == whole
  {
  }

  /** `findDeAliases` */
  function FindDeAliasesStep(st: VState, line: string): (r: VState)
    ensures r.aliases == st.aliases && r.csvColumns == st.csvColumns
      && r.currentLineNumber == st.currentLineNumber && r.currentSection == st.currentSection
      && r.currentSettings == st.currentSettings && r.foundKeyword == st.foundKeyword
      && r.ifSettings == st.ifSettings && r.keywordsStack == st.keywordsStack
      && r.lastCondition == st.lastCondition && r.parentSettings == st.parentSettings
      && r.previousSection == st.previousSection && r.previousSettings == st.previousSettings
      && r.sharesPrevious == st.sharesPrevious && r.requiredSettings == st.requiredSettings
      && r.result == st.result && r.settingValues == st.settingValues && r.urlParameters == st.urlParameters
      && r.variables == st.variables && r.currentWidget == st.currentWidget
  {
    st.(deAliases := st.deAliases + DeAliasRanges(st.currentLineNumber, line, 0))
  }

  /**
   * The diagnostics of `checkFreemarkerValue` for the word runs of the
   * expression `decl` from `p` on; `at` is where the expression occurs in
   * the line and `fv` the FreeMarker variables. A run is reported when no
   * FreeMarker variables exist, or when it is neither one of them nor holds
   * a digit.
   */
  function ExpressionDiagnostics(e: Env, line: nat, decl: string, at: nat, fv: Option<seq<string>>, p: nat): seq<Diagnostic>
    decreases |decl| - p
  {
    match NextWordRun(decl, p)
    case None => []
    case Some(w) => UnknownWord(e, line, decl, at, fv, w) + ExpressionDiagnostics(e, line, decl, at, fv, w.end)
  }

  /** A word of an expression is reported unless it is a FreeMarker variable or holds a digit. */
  predicate Undeclared(fv: Option<seq<string>>, name: string) {
    fv.None? || (name !in fv.value && !HasDigit(name))
  }

  /** The diagnostic for the word run at `w` of an expression. */
  function UnknownWord(e: Env, line: nat, decl: string, at: nat, fv: Option<seq<string>>, w: Span): seq<Diagnostic>
    requires w.start <= w.end <= |decl|
  {
    var name := decl[w.start..w.end];
    if Undeclared(fv, name) then
      [At(line, at + w.start, at + w.start + |name|, Error, e.suggest(name, fv.GetOr([])))]
    else []
  }

  /** One word run of `ExpressionDiagnostics`, after the diagnostics `done` already pushed. */
  lemma ExpressionNext(e: Env, line: nat, decl: string, at: nat, fv: Option<seq<string>>, p: nat, done: seq<Diagnostic>, whole: seq<Diagnostic>)
    requires NextWordRun(decl, p).Some? && done + ExpressionDiagnostics(e, line, decl, at, fv, p) == whole
    ensures var w := NextWordRun(decl, p).value;
      (done + UnknownWord(e, line, decl, at, fv, w)) + ExpressionDiagnostics(e, line, decl, at, fv, w.end) == whole
  {
  }

  /** The expression of a value found in its line occurs in that line too. */
  lemma ExpressionOccurs(line: string, value: string)
    requires IndexOf(line, value).Some? && FreemarkerExpression(value).Some?
    ensures var x := FreemarkerExpression(value).value;
      IndexOf(line, value[x.start..x.end]).Some?
  {
    var x := FreemarkerExpression(value).value;
    PieceOfOccurrence(line, value, x.start, x.end);
  }

  /**
   * The diagnostics of `checkFreemarkerValue` for the value `value` of the
   * setting line `line`: one per unknown word of its `${...}` expression,
   * placed where the expression first occurs in the line.
   */
  function FreemarkerValueDiagnostics(e: Env, lineNumber: nat, vars: OrderedMap<seq<string>>, line: string, value: string): seq<Diagnostic>
    requires IndexOf(line, value).Some?
  {
    match FreemarkerExpression(value)
    case None => []
    case Some(x) =>
      var decl := value[x.start..x.end];
      ExpressionOccurs(line, value);
      ExpressionDiagnostics(e, lineNumber, decl, IndexOf(line, decl).value, Get(vars, "freemarker"), 0)
  }

  /** `checkFreemarkerValue` */
  function CheckFreemarkerValueStep(e: Env, st: VState, line: string, value: string): (r: VState)
    requires IndexOf(line, value).Some?
    ensures r.aliases == st.aliases && r.csvColumns == st.csvColumns
      && r.currentLineNumber == st.currentLineNumber && r.currentSection == st.currentSection
      && r.currentSettings == st.currentSettings && r.deAliases == st.deAliases
      && r.foundKeyword == st.foundKeyword && r.ifSettings == st.ifSettings
      && r.keywordsStack == st.keywordsStack && r.lastCondition == st.lastCondition
      && r.parentSettings == st.parentSettings && r.previousSection == st.previousSection
      && r.previousSettings == st.previousSettings && r.sharesPrevious == st.sharesPrevious
      && r.requiredSettings == st.requiredSettings && r.settingValues == st.settingValues
      && r.urlParameters == st.urlParameters && r.variables == st.variables
      && r.currentWidget == st.currentWidget
  {
    st.(result := st.result + FreemarkerValueDiagnostics(e, st.currentLineNumber, st.variables, line, value))
  }

  /** A `table` setting requires an `attribute` one, and the other way round. */
  function RequireCompanionStep(e: Env, st: VState, setting: Setting): (r: VState)
    ensures r.aliases == st.aliases && r.csvColumns == st.csvColumns
      && r.currentLineNumber == st.currentLineNumber && r.currentSection == st.currentSection
      && r.currentSettings == st.currentSettings && r.deAliases == st.deAliases
      && r.foundKeyword == st.foundKeyword && r.ifSettings == st.ifSettings
      && r.keywordsStack == st.keywordsStack && r.lastCondition == st.lastCondition
      && r.parentSettings == st.parentSettings && r.previousSection == st.previousSection
      && r.previousSettings == st.previousSettings && r.sharesPrevious == st.sharesPrevious
      && r.result == st.result && r.settingValues == st.settingValues && r.urlParameters == st.urlParameters
      && r.variables == st.variables && r.currentWidget == st.currentWidget
  {
    var companion := if setting.name == "table" then Util.GetSetting(e.dictionary, "attribute")
                     else if setting.name == "attribute" then Util.GetSetting(e.dictionary, "table")
                     else None;
    match companion
    case None => st
    case Some(c) => st.(requiredSettings := st.requiredSettings + [[c]])
  }

  /** `handleSettings` after `getSettingCheck` found the setting `a` names. */
  function KnownSettingStep(e: Env, st: VState, line: string, a: Assignment, setting: Setting): (r: (VState, Status))
    requires IndexOf(line, a.value).Some?
    ensures r.0.csvColumns == st.csvColumns && r.0.currentLineNumber == st.currentLineNumber
      && r.0.currentSection == st.currentSection && r.0.foundKeyword == st.foundKeyword
      && r.0.keywordsStack == st.keywordsStack && r.0.lastCondition == st.lastCondition
      && r.0.parentSettings == st.parentSettings && r.0.previousSection == st.previousSection
      && r.0.sharesPrevious == st.sharesPrevious && r.0.settingValues == st.settingValues
      && r.0.variables == st.variables
  {
    var t := SettingChecksStep(e, st, a, setting);
    if t.1.Thrown? then t else (ValueChecksStep(e, t.0, line, a, setting), Ok)
  }

  /**
   * The checks of a known setting that concern the setting itself: its
   * companion, the widget type, a repetition and the type of its value.
   */
  function SettingChecksStep(e: Env, st: VState, a: Assignment, setting: Setting): (r: (VState, Status))
    ensures r.0.csvColumns == st.csvColumns && r.0.currentLineNumber == st.currentLineNumber
      && r.0.currentSection == st.currentSection && r.0.foundKeyword == st.foundKeyword
      && r.0.keywordsStack == st.keywordsStack && r.0.lastCondition == st.lastCondition
      && r.0.parentSettings == st.parentSettings && r.0.previousSection == st.previousSection
      && r.0.sharesPrevious == st.sharesPrevious && r.0.settingValues == st.settingValues
      && r.0.variables == st.variables
  {
    var s1 := RequireCompanionStep(e, st, setting);
    var s2 := if setting.name == "type" then s1.(currentWidget := Some(a.value)) else s1;
    var c := if !setting.multiLine then CheckRepetitionStep(s2, a, setting) else (s2, Ok);
    if c.1.Thrown? then c else TypeCheckStep(c.0, a, setting)
  }

  /**
   * The checks of a known setting that concern its value: the excluded
   * settings, the URL parameters or the FreeMarker expression, an alias and
   * the aliases it uses.
   */
  function ValueChecksStep(e: Env, st: VState, line: string, a: Assignment, setting: Setting): (r: VState)
    requires IndexOf(line, a.value).Some?
    ensures r.csvColumns == st.csvColumns && r.currentLineNumber == st.currentLineNumber
      && r.currentSection == st.currentSection && r.foundKeyword == st.foundKeyword
      && r.keywordsStack == st.keywordsStack && r.lastCondition == st.lastCondition
      && r.parentSettings == st.parentSettings && r.previousSection == st.previousSection
      && r.sharesPrevious == st.sharesPrevious && r.settingValues == st.settingValues
      && r.variables == st.variables
  {
    var s5 := CheckExcludesStep(st, a, setting);
    var s6 := if setting.name == "urlparameters" then FindUrlParamsStep(s5, line)
              else CheckFreemarkerValueStep(e, s5, line, a.value);
    var s7 := if setting.name == "alias" then AddAliasStep(s6, AliasDeclaration(line)) else s6;
    FindDeAliasesStep(s7, line)
  }

  /** The tags branch of `handleSettings`: a dictionary name used as a tag name. */
  function TagLineStep(e: Env, st: VState, line: string): (r: VState)
    ensures r.aliases == st.aliases && r.csvColumns == st.csvColumns
      && r.currentLineNumber == st.currentLineNumber && r.currentSection == st.currentSection
      && r.currentSettings == st.currentSettings && r.deAliases == st.deAliases
      && r.foundKeyword == st.foundKeyword && r.ifSettings == st.ifSettings
      && r.keywordsStack == st.keywordsStack && r.lastCondition == st.lastCondition
      && r.parentSettings == st.parentSettings && r.previousSection == st.previousSection
      && r.previousSettings == st.previousSettings && r.sharesPrevious == st.sharesPrevious
      && r.requiredSettings == st.requiredSettings && r.settingValues == st.settingValues
      && r.urlParameters == st.urlParameters && r.variables == st.variables
      && r.currentWidget == st.currentWidget
  {
    match TagAssignment(line)
    case None => st
    case Some(t) =>
      if Util.GetSetting(e.dictionary, t.name).Some? then
        Push(st, At(st.currentLineNumber, t.prefix, t.prefix + |t.name|, Information, t.name + SeriesTagWarning))
      else st
  }

  /** `handleSettings` for the setting line `line` whose match is `a`. */
  function HandleSettingsStep(e: Env, st: VState, line: string, a: Assignment): (r: (VState, Status))
    requires IndexOf(line, a.value).Some?
    ensures r.0.csvColumns == st.csvColumns && r.0.currentLineNumber == st.currentLineNumber
      && r.0.currentSection == st.currentSection && r.0.foundKeyword == st.foundKeyword
      && r.0.keywordsStack == st.keywordsStack && r.0.lastCondition == st.lastCondition
      && r.0.parentSettings == st.parentSettings && r.0.previousSection == st.previousSection
      && r.0.sharesPrevious == st.sharesPrevious && r.0.variables == st.variables
  {
    if st.currentSection.None? || !IsTagsSection(st.currentSection.value.text) then
      var s1 := st.(settingValues := st.settingValues[ClearSetting(a.name) := ClearSetting(a.value)]);
      var s2 := GetSettingCheckStep(e, s1, a);
      match Util.GetSetting(e.dictionary, a.name)
      case None => (s2, Ok)
      case Some(setting) => KnownSettingStep(e, s2, line, a, setting)
    else (TagLineStep(e, st, line), Ok)
  }

  // ---------------------------------------------------------------------------
  // validateFor, handleFor, handleFreemarker
  // ---------------------------------------------------------------------------

  /**
   * The diagnostics for the names of one `@{...}` placeholder `sub`, which
   * starts at `offset` of the line, from `p` on: a name after a `.` is a
   * member and is skipped; any other name that no variable list holds is
   * reported.
   */
  function PlaceholderDiagnostics(e: Env, line: nat, vars: OrderedMap<seq<string>>, sub: string, offset: nat, p: nat): seq<Diagnostic>
    decreases |sub| - p
  {
    match NextVariable(sub, p)
    case None => []
    case Some(v) => UnknownName(e, line, vars, sub, offset, v) + PlaceholderDiagnostics(e, line, vars, sub, offset, v.end)
  }

  /** The diagnostic for the name at `v` of a placeholder: none for a member or a declared name. */
  function UnknownName(e: Env, line: nat, vars: OrderedMap<seq<string>>, sub: string, offset: nat, v: Span): seq<Diagnostic>
    requires v.start <= v.end <= |sub|
  {
    if v.start > 0 && sub[v.start - 1] == '.' then []
    else
      var name := sub[v.start..v.end];
      if Declared(vars, name) then []
      else [At(line, offset + v.start, offset + v.start + |name|, Error, e.suggest(name, e.mapToArray(vars)))]
  }

  /** One name of `PlaceholderDiagnostics`, after the diagnostics `done` already pushed. */
  lemma PlaceholderNext(e: Env, line: nat, vars: OrderedMap<seq<string>>, sub: string, offset: nat, p: nat, done: seq<Diagnostic>, whole: seq<Diagnostic>)
    requires NextVariable(sub, p).Some? && done + PlaceholderDiagnostics(e, line, vars, sub, offset, p) == whole
    ensures var v := NextVariable(sub, p).value;
      (done + UnknownName(e, line, vars, sub, offset, v)) + PlaceholderDiagnostics(e, line, vars, sub, offset, v.end) == whole
  {
  }

  /** The diagnostics of `validateFor` for the placeholders `/@{.+?}/g` finds from `from` on. */
  function ForDiagnostics(e: Env, line: nat, vars: OrderedMap<seq<string>>, text: string, from: nat): seq<Diagnostic>
    decreases |text| - from
  {
    match NextBraced(text, "@{", from)
    case None => []
    case Some(s) =>
      PlaceholderDiagnostics(e, line, vars, text[s.start..s.end + 1], s.start, 0)
      + ForDiagnostics(e, line, vars, text, s.end + 1)
  }

  /** One placeholder of `ForDiagnostics`, after the diagnostics `done` already pushed. */
  lemma ForDiagnosticsNext(e: Env, line: nat, vars: OrderedMap<seq<string>>, text: string, from: nat, s: Span, substr: string,
                           done: seq<Diagnostic>, whole: seq<Diagnostic>)
    requires NextBraced(text, "@{", from) == Some(s) && substr == text[s.start..s.end + 1]
    requires done + ForDiagnostics(e, line, vars, text, from) == whole
    ensures (done + PlaceholderDiagnostics(e, line, vars, substr, s.start, 0)) + ForDiagnostics(e, line, vars, text, s.end + 1) == whole
  {
    var found, rest := PlaceholderDiagnostics(e, line, vars, substr, s.start, 0), ForDiagnostics(e, line, vars, text, s.end + 1);
    assert ForDiagnostics(e, line, vars, text, from) == found + rest;
    AppendAssociative(done, found, rest);
  }

  /** `validateFor` */
  function ValidateForStep(e: Env, st: VState, line: string): (r: VState)
    ensures r.aliases == st.aliases && r.csvColumns == st.csvColumns
      && r.currentLineNumber == st.currentLineNumber && r.currentSection == st.currentSection
      && r.currentSettings == st.currentSettings && r.deAliases == st.deAliases
      && r.foundKeyword == st.foundKeyword && r.ifSettings == st.ifSettings
      && r.keywordsStack == st.keywordsStack && r.lastCondition == st.lastCondition
      && r.parentSettings == st.parentSettings && r.previousSection == st.previousSection
      && r.previousSettings == st.previousSettings && r.sharesPrevious == st.sharesPrevious
      && r.requiredSettings == st.requiredSettings && r.settingValues == st.settingValues
      && r.urlParameters == st.urlParameters && r.variables == st.variables
      && r.currentWidget == st.currentWidget
  {
    st.(result := st.result + ForDiagnostics(e, st.currentLineNumber, st.variables, line, 0))
  }

  /**
   * `handleFor`: the collection of `for x in c` must be a declared name
   * (`Empty 'in' statement` when there is none); the loop variable is
   * declared.
   */
  function HandleForStep(e: Env, st: VState, line: string): (r: VState)
    ensures r.aliases == st.aliases && r.csvColumns == st.csvColumns
      && r.currentLineNumber == st.currentLineNumber && r.currentSection == st.currentSection
      && r.currentSettings == st.currentSettings && r.deAliases == st.deAliases
      && r.foundKeyword == st.foundKeyword && r.ifSettings == st.ifSettings
      && r.keywordsStack == st.keywordsStack && r.lastCondition == st.lastCondition
      && r.parentSettings == st.parentSettings && r.previousSection == st.previousSection
      && r.previousSettings == st.previousSettings && r.sharesPrevious == st.sharesPrevious
      && r.requiredSettings == st.requiredSettings && r.settingValues == st.settingValues
      && r.urlParameters == st.urlParameters && r.currentWidget == st.currentWidget
  {
    match ForHeader(line)
    case None => st
    case Some(h) =>
      var s1 := st.(result := st.result + ForHeaderDiagnostics(e, st.currentLineNumber, st.variables, line, h));
      AddToStringMapStep(s1, "forVariables", Some(h.variable))
  }

  /**
   * The diagnostics of the header `h` of a `for` line: the collection must
   * be declared, and a header without one is an empty `in` statement.
   */
  function ForHeaderDiagnostics(e: Env, lineNumber: nat, vars: OrderedMap<seq<string>>, line: string, h: ForHead): (r: seq<Diagnostic>)
    requires h.length >= 2
    ensures |r| <= 1
    ensures ForCollection(line).None? ==> r == [At(lineNumber, h.length - 2, h.length, Error, "Empty 'in' statement")]
    ensures ForCollection(line).Some? ==> (r == [] <==> Declared(vars, ForCollection(line).value.name))
  {
    match ForCollection(line)
    case Some(c) =>
      var start := c.prefix + (if c.isKeys then |ObjectKeys| else 0);
      if Declared(vars, c.name) then []
      else [At(lineNumber, start, start + |c.name|, Error, e.suggest(c.name, e.mapToArray(vars)))]
    case None => [At(lineNumber, h.length - 2, h.length, Error, "Empty 'in' statement")]
  }

  /** `handleEndFor`: the innermost loop variable is forgotten. */
  function HandleEndForStep(st: VState): (r: VState)
    ensures r.aliases == st.aliases && r.csvColumns == st.csvColumns
      && r.currentLineNumber == st.currentLineNumber && r.currentSection == st.currentSection
      && r.currentSettings == st.currentSettings && r.deAliases == st.deAliases
      && r.foundKeyword == st.foundKeyword && r.ifSettings == st.ifSettings
      && r.keywordsStack == st.keywordsStack && r.lastCondition == st.lastCondition
      && r.parentSettings == st.parentSettings && r.previousSection == st.previousSection
      && r.previousSettings == st.previousSettings && r.sharesPrevious == st.sharesPrevious
      && r.requiredSettings == st.requiredSettings && r.result == st.result
      && r.settingValues == st.settingValues && r.urlParameters == st.urlParameters
      && r.currentWidget == st.currentWidget
  {
    var forVariables :=
      match Get(st.variables, "forVariables")
      case None => []
      case Some(l) => if l == [] then [] else l[..|l| - 1];
    st.(variables := Set(st.variables, "forVariables", forVariables))
  }

  /**
   * `handleFreemarker`: the listed collection of `<#list c as x>` must be a
   * FreeMarker variable; the new variable is declared.
   */
  function HandleFreemarkerStep(e: Env, st: VState, line: string, f: FreemarkerAssignment): (r: VState)
    requires f.listVariable.Some? ==> IndexOf(line, f.listVariable.value).Some?
    ensures r.aliases == st.aliases && r.csvColumns == st.csvColumns
      && r.currentLineNumber == st.currentLineNumber && r.currentSection == st.currentSection
      && r.currentSettings == st.currentSettings && r.deAliases == st.deAliases
      && r.foundKeyword == st.foundKeyword && r.ifSettings == st.ifSettings
      && r.keywordsStack == st.keywordsStack && r.lastCondition == st.lastCondition
      && r.parentSettings == st.parentSettings && r.previousSection == st.previousSection
      && r.previousSettings == st.previousSettings && r.sharesPrevious == st.sharesPrevious
      && r.requiredSettings == st.requiredSettings && r.settingValues == st.settingValues
      && r.urlParameters == st.urlParameters && r.currentWidget == st.currentWidget
  {
    var s1 := if Get(st.variables, "freemarker").None? then st.(variables := Set(st.variables, "freemarker", [])) else st;
    var fv := Get(s1.variables, "freemarker").GetOr([]);
    var s2 :=
      match f.listVariable
      case Some(lv) =>
        if lv in fv then s1
        else
          var p := IndexOf(line, lv).value;
          Push(s1, At(s1.currentLineNumber, p, p + |lv|, Error, e.suggest(lv, fv)))
      case None => s1;
    AddToStringMapStep(s2, "freemarker", Some(Declaration(0, f.prefix, f.variable)))
  }

  // ---------------------------------------------------------------------------
  // eachLine
  // ---------------------------------------------------------------------------

  /** A setting line: `handleSettings`, then `validateFor` inside a loop. */
  function AssignmentLineStep(e: Env, st: VState, line: string, a: Assignment): (r: (VState, Status))
    requires IndexOf(line, a.value).Some?
    ensures r.0.csvColumns == st.csvColumns && r.0.currentLineNumber == st.currentLineNumber
      && r.0.currentSection == st.currentSection && r.0.foundKeyword == st.foundKeyword
      && r.0.keywordsStack == st.keywordsStack && r.0.lastCondition == st.lastCondition
      && r.0.parentSettings == st.parentSettings && r.0.previousSection == st.previousSection
      && r.0.sharesPrevious == st.sharesPrevious && r.0.variables == st.variables
  {
    var h := HandleSettingsStep(e, st, line, a);
    if h.1.Thrown? then h
    else if AreWeIn(h.0.keywordsStack, "for") then (ValidateForStep(e, h.0, line), Ok)
    else h
  }

  /** The lines other than section headers: settings, FreeMarker, unclosed headers. */
  function BodyLineStep(e: Env, st: VState, line: string): (r: (VState, Status))
    ensures r.0.csvColumns == st.csvColumns && r.0.currentLineNumber == st.currentLineNumber
      && r.0.currentSection == st.currentSection && r.0.foundKeyword == st.foundKeyword
      && r.0.keywordsStack == st.keywordsStack && r.0.lastCondition == st.lastCondition
      && r.0.parentSettings == st.parentSettings && r.0.previousSection == st.previousSection
      && r.0.sharesPrevious == st.sharesPrevious
  {
    var h :=
      match SettingAssignment(line)
      case None => (st, Ok)
      case Some(a) => AssignmentLineStep(e, st, line, a);
    if h.1.Thrown? then h
    else
      var s3 :=
        match FreemarkerAssign(line)
        case None => h.0
        case Some(f) => HandleFreemarkerStep(e, h.0, line, f);
      var s4 :=
        match UnclosedSection(line)
        case None => s3
        case Some(u) => Push(s3, At(s3.currentLineNumber, u.prefix, u.prefix + |u.name|, Error, "Section tag is unclosed"));
      (s4, Ok)
  }

  /**
   * `eachLine` for the line `line`: headers and blank lines of a `[tags]`
   * section go to the section handler, every other line to the setting,
   * FreeMarker and unclosed-header checks.
   */
  function EachLineStep(e: Env, st: VState, line: string): (r: (VState, Status))
    requires HasRequiredNames(e.dictionary)
    ensures r.0.csvColumns == st.csvColumns && r.0.currentLineNumber == st.currentLineNumber
      && r.0.foundKeyword == st.foundKeyword && r.0.keywordsStack == st.keywordsStack
      && r.0.lastCondition == st.lastCondition
  {
    var s1 := CheckFreemarkerStep(st, line);
    var header := SectionHeader(line);
    if header.Some? || (Trim(line) == [] && s1.currentSection.Some? && s1.currentSection.value.text == "tags") then
      var s2 := if header.Some? then SpellingCheckStep(e, s1, header.value) else s1;
      (HandleSectionStep(e, s2, header), Ok)
    else BodyLineStep(e, s1, line)
  }

  // ---------------------------------------------------------------------------
  // Keywords: switchKeyword and its handlers
  // ---------------------------------------------------------------------------

  /** `setLastCondition`: the line number followed by the line. */
  function SetLastConditionStep(st: VState, line: string): (r: VState)
    ensures r.aliases == st.aliases && r.csvColumns == st.csvColumns
      && r.currentLineNumber == st.currentLineNumber && r.currentSection == st.currentSection
      && r.currentSettings == st.currentSettings && r.deAliases == st.deAliases
      && r.foundKeyword == st.foundKeyword && r.ifSettings == st.ifSettings
      && r.keywordsStack == st.keywordsStack && r.parentSettings == st.parentSettings
      && r.previousSection == st.previousSection && r.previousSettings == st.previousSettings
      && r.sharesPrevious == st.sharesPrevious && r.requiredSettings == st.requiredSettings
      && r.result == st.result && r.settingValues == st.settingValues && r.urlParameters == st.urlParameters
      && r.variables == st.variables && r.currentWidget == st.currentWidget
  {
    st.(lastCondition := Some(NatToString(st.currentLineNumber) + line))
  }

  /** `handleElse`: an `else` outside an `if`, or inside a block the `if` encloses, is an Error. */
  function HandleElseStep(st: VState, line: string, fk: TextRange): (r: VState)
    ensures r.aliases == st.aliases && r.csvColumns == st.csvColumns
      && r.currentLineNumber == st.currentLineNumber && r.currentSection == st.currentSection
      && r.currentSettings == st.currentSettings && r.deAliases == st.deAliases
      && r.foundKeyword == st.foundKeyword && r.ifSettings == st.ifSettings
      && r.keywordsStack == st.keywordsStack && r.parentSettings == st.parentSettings
      && r.previousSection == st.previousSection && r.previousSettings == st.previousSettings
      && r.sharesPrevious == st.sharesPrevious && r.requiredSettings == st.requiredSettings
      && r.settingValues == st.settingValues && r.urlParameters == st.urlParameters
      && r.variables == st.variables && r.currentWidget == st.currentWidget
  {
    var s1 := SetLastConditionStep(st, line);
    if !AreWeIn(s1.keywordsStack, "if") then Push(s1, CreateDiagnostic(fk.range, Error, fk.text + " has no matching if"))
    else if LastKeyword(s1.keywordsStack) != Some("if") then
      Push(s1, CreateDiagnostic(fk.range, Error,
           fk.text + " has started before " + Printed(LastKeyword(s1.keywordsStack)) + " has finished"))
    else s1
  }

  /** The number of columns a CSV header line has; `null` (no line) has none. */
  function HeaderColumns(header: Option<string>): nat {
    match header
    case None => 0
    case Some(h) => Util.CellsFrom(h, 0)
  }

  /**
   * The header of the `csv` block opened on line `lineNumber`: the rest of
   * the line after its first `=`, or the next non-blank line when the line
   * ends with `=`; a line without `=` is an error.
   */
  function CsvHeader(e: Env, lineNumber: nat, line: string): (r: Result<Option<string>>)
    ensures r.Failure? <==> !EqualsAtEnd(line) && IndexOf(line, "=").None?
    ensures r.Success? && !EqualsAtEnd(line) ==>
      r.value.Some? && |r.value.value| < |line| && line[|line| - |r.value.value| - 1] == '='
      && r.value.value == line[|line| - |r.value.value|..]
  {
    if EqualsAtEnd(line) then Success(NextNonBlank(e, lineNumber + 1))
    else
      match IndexOf(line, "=")
      case None => Failure("The line does not contain a '='")
      case Some(p) => Success(Some(line[p + 1..]))
  }

  /**
   * `handleCsv`: the header is the rest of the line after `=`, or the next
   * non-blank line when the line ends with `=`; its columns are counted.
   */
  function HandleCsvStep(e: Env, st: VState, line: string): (r: (VState, Status))
    ensures r.0.aliases == st.aliases && r.0.currentLineNumber == st.currentLineNumber
      && r.0.currentSection == st.currentSection && r.0.currentSettings == st.currentSettings
      && r.0.deAliases == st.deAliases && r.0.foundKeyword == st.foundKeyword
      && r.0.ifSettings == st.ifSettings && r.0.keywordsStack == st.keywordsStack
      && r.0.lastCondition == st.lastCondition && r.0.parentSettings == st.parentSettings
      && r.0.previousSection == st.previousSection && r.0.previousSettings == st.previousSettings
      && r.0.sharesPrevious == st.sharesPrevious && r.0.requiredSettings == st.requiredSettings
      && r.0.settingValues == st.settingValues && r.0.urlParameters == st.urlParameters
      && r.0.currentWidget == st.currentWidget
  {
    match CsvHeader(e, st.currentLineNumber, line)
    case Failure(message) => (st, Thrown(message))
    case Success(h) =>
      var s1 := AddToStringMapStep(st, "csvNames", CsvDeclaration(line));
      (s1.(csvColumns := Some(HeaderColumns(h))), Ok)
  }

  /** `validateCsv`: a non-blank row whose column count differs from the header's. */
  function ValidateCsvStep(st: VState, line: string): (r: VState)
    ensures r.aliases == st.aliases && r.csvColumns == st.csvColumns
      && r.currentLineNumber == st.currentLineNumber && r.currentSection == st.currentSection
      && r.currentSettings == st.currentSettings && r.deAliases == st.deAliases
      && r.foundKeyword == st.foundKeyword && r.ifSettings == st.ifSettings
      && r.keywordsStack == st.keywordsStack && r.lastCondition == st.lastCondition
      && r.parentSettings == st.parentSettings && r.previousSection == st.previousSection
      && r.previousSettings == st.previousSettings && r.sharesPrevious == st.sharesPrevious
      && r.requiredSettings == st.requiredSettings && r.settingValues == st.settingValues
      && r.urlParameters == st.urlParameters && r.variables == st.variables
      && r.currentWidget == st.currentWidget
  {
    var columns := Util.CellsFrom(line, 0);
    if Some(columns) != st.csvColumns && !BlankLineM(line) then
      var expected := match st.csvColumns case None => "undefined" case Some(n) => NatToString(n);
      Push(st, At(st.currentLineNumber, 0, |line|, Error,
                  "Expected " + expected + " columns, but found " + NatToString(columns)))
    else st
  }

  /**
   * `handleList`: the list name is declared; the keyword stays open when the
   * line ends with `=` or `,`, or the next non-blank line starts with `,` or
   * holds `endlist`.
   */
  function HandleListStep(e: Env, st: VState, line: string, fk: TextRange): (r: VState)
    ensures r.aliases == st.aliases && r.csvColumns == st.csvColumns
      && r.currentLineNumber == st.currentLineNumber && r.currentSection == st.currentSection
      && r.currentSettings == st.currentSettings && r.deAliases == st.deAliases
      && r.foundKeyword == st.foundKeyword && r.ifSettings == st.ifSettings
      && r.lastCondition == st.lastCondition && r.parentSettings == st.parentSettings
      && r.previousSection == st.previousSection && r.previousSettings == st.previousSettings
      && r.sharesPrevious == st.sharesPrevious && r.requiredSettings == st.requiredSettings
      && r.settingValues == st.settingValues && r.urlParameters == st.urlParameters
      && r.currentWidget == st.currentWidget
  {
    var s1 := AddToStringMapStep(st, "listNames", ListDeclaration(line));
    if ListOpens(e, st.currentLineNumber, line) then s1.(keywordsStack := s1.keywordsStack + [fk]) else s1
  }

  /** Whether the `list` on line `lineNumber` opens a block that an `endlist` must close. */
  function ListOpens(e: Env, lineNumber: nat, line: string): (r: bool)
    ensures EqualsOrCommaAtEnd(line) ==> r
    ensures NextNonBlank(e, lineNumber + 1).None? ==> (r <==> EqualsOrCommaAtEnd(line))
    ensures NextNonBlank(e, lineNumber + 1).Some? ==>
      var next := NextNonBlank(e, lineNumber + 1).value;
      (r <==> EqualsOrCommaAtEnd(line) || StartsWithComma(next) || HasWord(next, "endlist"))
  {
    EqualsOrCommaAtEnd(line)
    || (match NextNonBlank(e, lineNumber + 1)
        case None => false
        case Some(n) => StartsWithComma(n) || HasWord(n, "endlist"))
  }

  /**
   * `handleScript`: `script = ...` is a one-line setting; otherwise the
   * block opens, and text after `script` on the same line is an Error.
   */
  function HandleScriptStep(st: VState, line: string, fk: TextRange): (r: VState)
    ensures r.aliases == st.aliases && r.csvColumns == st.csvColumns
      && r.currentLineNumber == st.currentLineNumber && r.currentSection == st.currentSection
      && r.currentSettings == st.currentSettings && r.deAliases == st.deAliases
      && r.foundKeyword == st.foundKeyword && r.ifSettings == st.ifSettings
      && r.lastCondition == st.lastCondition && r.parentSettings == st.parentSettings
      && r.previousSection == st.previousSection && r.previousSettings == st.previousSettings
      && r.sharesPrevious == st.sharesPrevious && r.requiredSettings == st.requiredSettings
      && r.settingValues == st.settingValues && r.urlParameters == st.urlParameters
      && r.variables == st.variables && r.currentWidget == st.currentWidget
  {
    if ScriptAssignment(line) then st
    else
      var s1 := st.(keywordsStack := st.keywordsStack + [fk]);
      match ScriptTrailing(line)
      case None => s1
      case Some(b) => Push(s1, At(s1.currentLineNumber, b, b + 6, Error, LinefeedRequired))
  }

  /** The `var` case: an object or list left open keeps the keyword; the name is declared. */
  function VarStep(st: VState, line: string, fk: TextRange): (r: VState)
    ensures r.aliases == st.aliases && r.csvColumns == st.csvColumns
      && r.currentLineNumber == st.currentLineNumber && r.currentSection == st.currentSection
      && r.currentSettings == st.currentSettings && r.deAliases == st.deAliases
      && r.foundKeyword == st.foundKeyword && r.ifSettings == st.ifSettings
      && r.lastCondition == st.lastCondition && r.parentSettings == st.parentSettings
      && r.previousSection == st.previousSection && r.previousSettings == st.previousSettings
      && r.sharesPrevious == st.sharesPrevious && r.requiredSettings == st.requiredSettings
      && r.settingValues == st.settingValues && r.urlParameters == st.urlParameters
      && r.currentWidget == st.currentWidget
  {
    var s1 := if VarOpensBlock(line) then st.(keywordsStack := st.keywordsStack + [fk]) else st;
    AddToStringMapStep(s1, "varNames", VarDeclaration(line))
  }

  /** `endfor`: the loop variable is forgotten, then the `for` is closed. */
  function EndForStep(st: VState, fk: TextRange): (r: VState)
    ensures r == st.(variables := r.variables, keywordsStack := r.keywordsStack, result := r.result)
    ensures r.variables == HandleEndForStep(st).variables
  {
    CheckEndStep(HandleEndForStep(st), fk, "for")
  }

  /** `switchKeyword` for the keyword `fk` found on the line `line`. */
  function SwitchKeywordStep(e: Env, st: VState, line: string, fk: TextRange): (r: (VState, Status))
    ensures r.0.aliases == st.aliases && r.0.currentLineNumber == st.currentLineNumber
      && r.0.currentSection == st.currentSection && r.0.currentSettings == st.currentSettings
      && r.0.deAliases == st.deAliases && r.0.foundKeyword == st.foundKeyword
      && r.0.ifSettings == st.ifSettings && r.0.parentSettings == st.parentSettings
      && r.0.previousSection == st.previousSection && r.0.previousSettings == st.previousSettings
      && r.0.sharesPrevious == st.sharesPrevious && r.0.requiredSettings == st.requiredSettings
      && r.0.settingValues == st.settingValues && r.0.urlParameters == st.urlParameters
      && r.0.currentWidget == st.currentWidget
  {
    match fk.text
    case "endfor" => (EndForStep(st, fk), Ok)
    case "endif" => (CheckEndStep(st, fk, "if"), Ok)
    case "endvar" => (CheckEndStep(st, fk, "var"), Ok)
    case "endcsv" => (CheckEndStep(st, fk, "csv"), Ok)
    case "endlist" => (CheckEndStep(st, fk, "list"), Ok)
    case "endscript" => (CheckEndStep(st, fk, "script"), Ok)
    case "else" => (HandleElseStep(st, line, fk), Ok)
    case "elseif" => (HandleElseStep(st, line, fk), Ok)
    case "csv" => HandleCsvStep(e, st, line)
    case "var" => (VarStep(st, line, fk), Ok)
    case "list" => (HandleListStep(e, st, line, fk), Ok)
    case "for" => (HandleForStep(e, st, line), Ok)
    case "if" => (SetLastConditionStep(st, line), Ok)
    case "script" => (HandleScriptStep(st, line, fk), Ok)
    case "import" => (st, Ok)
    case _ => (st, Thrown(fk.text + " is not handled"))
  }

  /** A keyword line: `if`, `for` and `csv` are pushed first, then the keyword is handled. */
  function KeywordStep(e: Env, st: VState, line: string, fk: TextRange): (r: (VState, Status))
    ensures r.0.aliases == st.aliases && r.0.currentLineNumber == st.currentLineNumber
      && r.0.currentSection == st.currentSection && r.0.currentSettings == st.currentSettings
      && r.0.deAliases == st.deAliases && r.0.foundKeyword == st.foundKeyword
      && r.0.ifSettings == st.ifSettings && r.0.parentSettings == st.parentSettings
      && r.0.previousSection == st.previousSection && r.0.previousSettings == st.previousSettings
      && r.0.sharesPrevious == st.sharesPrevious && r.0.requiredSettings == st.requiredSettings
      && r.0.settingValues == st.settingValues && r.0.urlParameters == st.urlParameters
      && r.0.currentWidget == st.currentWidget
  {
    var s1 := if OpensBlock(fk.text) then st.(keywordsStack := st.keywordsStack + [fk]) else st;
    SwitchKeywordStep(e, s1, line, fk)
  }

  // ---------------------------------------------------------------------------
  // lineByLine
  // ---------------------------------------------------------------------------

  /**
   * One iteration of the loop of `lineByLine` over the raw line `i`. Inside
   * a script the line is skipped without advancing the line counter, so
   * from then on the counter, which every check reads its line by, lags
   * behind `i`; only the keyword parser sees the raw line `i`.
   */
  function LineStep(e: Env, st: VState, i: nat): (r: (VState, Status))
    requires HasRequiredNames(e.dictionary)
    requires st.currentLineNumber <= i < |e.lines|
    ensures r.0.currentLineNumber == st.currentLineNumber || r.0.currentLineNumber == st.currentLineNumber + 1
    ensures IsKeywordEnd(st.keywordsStack, Parse(e.lines[i], st.currentLineNumber), "script") ==>
      r == (st.(foundKeyword := Parse(e.lines[i], st.currentLineNumber)), Ok)
    ensures !AreWeIn(st.keywordsStack, "script") && r.1 == Ok ==> r.0.currentLineNumber == st.currentLineNumber + 1
  {
    var fk := Parse(e.lines[i], st.currentLineNumber);
    var s0 := st.(foundKeyword := fk);
    if IsKeywordEnd(s0.keywordsStack, fk, "script") then (s0, Ok)
    else
      var line := CurrentLine(e, s0);
      var s1 := if IsKeywordEnd(s0.keywordsStack, fk, "csv") then ValidateCsvStep(s0, line) else s0;
      var s2 := EachLineStep(e, s1, line);
      if s2.1.Thrown? then s2
      else
        var s3 := match fk case None => s2 case Some(k) => KeywordStep(e, s2.0, line, k);
        if s3.1.Thrown? then s3
        else (s3.0.(currentLineNumber := s3.0.currentLineNumber + 1), Ok)
  }

  /** The loop of `lineByLine` from the raw line `i` on. */
  function Run(e: Env, st: VState, i: nat): (r: (VState, Status))
    requires HasRequiredNames(e.dictionary)
    requires st.currentLineNumber <= i <= |e.lines|
    ensures r.0.currentLineNumber >= st.currentLineNumber
    ensures i < |e.lines| && !AreWeIn(st.keywordsStack, "script") && r.1 == Ok ==> r.0.currentLineNumber > st.currentLineNumber
    decreases |e.lines| - i
  {
    if i == |e.lines| then (st, Ok)
    else
      var s := LineStep(e, st, i);
      if s.1.Thrown? then s else Run(e, s.0, i + 1)
  }

  /**
   * `lineByLine`: every line, then the aliases, the keywords left open and
   * the last section; a used checker refuses to run again.
   */
  function LineByLineStep(e: Env, st: VState): (r: (VState, Status))
    requires HasRequiredNames(e.dictionary)
  {
    if st.currentLineNumber != 0 then (st, Thrown("You should create a new Validator"))
    else
      var s := Run(e, st, 0);
      if s.1.Thrown? then s
      else (CheckPreviousSectionStep(e, LeftKeywordsStep(CheckAliasesStep(e, s.0))), Ok)
  }
}

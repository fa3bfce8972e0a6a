/**
 * What the checker of `validator.ts` promises, proved about the step
 * functions of `ValidatorSpec` that the methods of `Validators.Validator`
 * are proved against.
 */
module ValidatorProps {
  import opened Wrappers
  import opened Text
  import opened Diagnostics
  import opened Settings
  import opened TextRanges
  import opened Patterns
  import opened ValidatorPatterns
  import opened Resources
  import opened OrderedMaps
  import opened ValidatorSpec
  import Util

  // ---------------------------------------------------------------------------
  // Keywords left open; `checkEnd`
  // ---------------------------------------------------------------------------

  /** Every keyword still open at the end gets its own `<k> has no matching end<k>` Error, in stack order. */
  lemma {:induction false} LeftKeywordsEach(stack: seq<TextRange>)
    ensures |LeftKeywords(stack)| == |stack|
    ensures forall k :: 0 <= k < |stack| ==>
      LeftKeywords(stack)[k] == CreateDiagnostic(stack[k].range, Error, stack[k].text + " has no matching end" + stack[k].text)
  {
    if stack != [] {
      LeftKeywordsEach(stack[1..]);
    }
  }

  /** An `end` keyword that matches the top of the stack pops exactly that entry and reports nothing. */
  lemma CheckEndPops(st: VState, fk: TextRange, expectedEnd: string)
    requires LastKeyword(st.keywordsStack) == Some(expectedEnd)
    ensures var r := CheckEndStep(st, fk, expectedEnd);
      r.result == st.result && |r.keywordsStack| == |st.keywordsStack| - 1
      && r.keywordsStack == st.keywordsStack[..|st.keywordsStack| - 1]
  {
  }

  /** An `end` keyword whose keyword is not open leaves the stack alone and reports `endX has no matching X`. */
  lemma CheckEndUnmatched(st: VState, fk: TextRange, expectedEnd: string)
    requires !AreWeIn(st.keywordsStack, expectedEnd)
    ensures var r := CheckEndStep(st, fk, expectedEnd);
      r.keywordsStack == st.keywordsStack
      && r.result == st.result + [CreateDiagnostic(fk.range, Error, fk.text + " has no matching " + expectedEnd)]
  {
  }

  /**
   * An `end` keyword whose keyword is open below another removes the
   * lowest entry with that keyword, which is not the top, and reports that
   * the keyword finished before the one on top.
   */
  lemma CheckEndOutOfOrder(st: VState, fk: TextRange, expectedEnd: string)
    requires AreWeIn(st.keywordsStack, expectedEnd) && LastKeyword(st.keywordsStack) != Some(expectedEnd)
    ensures var stack := st.keywordsStack;
      var r := CheckEndStep(st, fk, expectedEnd);
      exists i :: 0 <= i < |stack| - 1 && stack[i].text == expectedEnd
        && (forall k :: 0 <= k < i ==> stack[k].text != expectedEnd)
        && r.keywordsStack == stack[..i] + stack[i + 1..]
        && r.result == st.result + [CreateDiagnostic(fk.range, Error,
                                      expectedEnd + " has finished before " + stack[|stack| - 1].text)]
  {
    var stack := st.keywordsStack;
    var i := FindIndex(stack, expectedEnd);
    assert i != |stack| - 1;
  }

  // ---------------------------------------------------------------------------
  // Required settings of a section
  // ---------------------------------------------------------------------------

  /** Some list holds one of the options exactly when one of the lists does. */
  lemma {:induction false} AnyInSomeMeaning(options: seq<Setting>, lists: seq<seq<Setting>>)
    ensures AnyInSome(options, lists) <==> exists k :: 0 <= k < |lists| && Util.AnyIn(options, lists[k])
  {
    if lists != [] {
      AnyInSomeMeaning(options, lists[1..]);
      if AnyInSome(options, lists[1..]) {
        var k :| 0 <= k < |lists[1..]| && Util.AnyIn(options, lists[1..][k]);
        assert lists[1..][k] == lists[k + 1];
      }
      forall k | 1 <= k < |lists| && Util.AnyIn(options, lists[k])
        ensures AnyInSome(options, lists[1..])
      {
        assert lists[1..][k - 1] == lists[k];
      }
    }
  }

  /** Every list holds one of the options exactly when each list, one by one, does. */
  lemma {:induction false} AnyInAllMeaning(options: seq<Setting>, lists: seq<seq<Setting>>)
    ensures AnyInAll(options, lists) <==> forall k :: 0 <= k < |lists| ==> Util.AnyIn(options, lists[k])
  {
    if lists != [] {
      AnyInAllMeaning(options, lists[1..]);
      assert forall k :: 1 <= k < |lists| ==> lists[1..][k - 1] == lists[k];
    }
  }

  /** `Missing` names a slot exactly when the slot is unsatisfied, and names nothing else. */
  lemma {:induction false} MissingMeaning(st: VState, slots: seq<Slot>)
    ensures forall k :: 0 <= k < |slots| && !SlotSatisfied(st, slots[k]) ==>
      slots[k][0].displayName in Missing(st, slots)
    ensures forall name :: name in Missing(st, slots) ==>
      exists k :: 0 <= k < |slots| && !SlotSatisfied(st, slots[k]) && slots[k][0].displayName == name
    ensures Missing(st, slots) == [] <==> forall k :: 0 <= k < |slots| ==> SlotSatisfied(st, slots[k])
  {
    if slots != [] {
      var rest := Missing(st, slots[1..]);
      var head := if SlotSatisfied(st, slots[0]) then [] else [slots[0][0].displayName];
      MissingMeaning(st, slots[1..]);
      assert Missing(st, slots) == head + rest;
      forall k | 1 <= k < |slots| ensures slots[1..][k - 1] == slots[k] { }
      forall name | name in Missing(st, slots)
        ensures exists k :: 0 <= k < |slots| && !SlotSatisfied(st, slots[k]) && slots[k][0].displayName == name
      {
        if name !in head {
          assert name in rest;
          var j :| 0 <= j < |slots[1..]| && !SlotSatisfied(st, slots[1..][j]) && slots[1..][j][0].displayName == name;
          assert slots[1..][j] == slots[j + 1];
        }
      }
    }
  }

  /** Closing a section reports one `<name> is required` Error per unsatisfied slot and clears the requirements. */
  lemma RequiredReported(e: Env, st: VState)
    requires HasRequiredNames(e.dictionary) && st.currentSection.Some?
    ensures var r := CheckPreviousSectionStep(e, st);
      var missing := Missing(st, SlotsOf(e, st.currentSection.value.text, st.requiredSettings));
      r.requiredSettings == []
      && |r.result| == |st.result| + |missing|
      && r.result[..|st.result|] == st.result
      && forall k :: 0 <= k < |missing| ==>
           r.result[|st.result| + k] == CreateDiagnostic(st.currentSection.value.range, Error, missing[k] + " is required")
  {
    var missing := Missing(st, SlotsOf(e, st.currentSection.value.text, st.requiredSettings));
    var added := RequiredDiagnostics(st.currentSection.value.range, missing);
    var r := CheckPreviousSectionStep(e, st);
    assert r.result == st.result + added;
    assert forall k :: 0 <= k < |missing| ==> r.result[|st.result| + k] == added[k];
  }

  /** Declaring `table` asks the section for an `attribute`, and the other way round. */
  lemma CompanionRequired(e: Env, st: VState, setting: Setting)
    ensures setting.name == "table" && Util.GetSetting(e.dictionary, "attribute").Some? ==>
      RequireCompanionStep(e, st, setting).requiredSettings
        == st.requiredSettings + [[Util.GetSetting(e.dictionary, "attribute").value]]
    ensures setting.name == "attribute" && Util.GetSetting(e.dictionary, "table").Some? ==>
      RequireCompanionStep(e, st, setting).requiredSettings
        == st.requiredSettings + [[Util.GetSetting(e.dictionary, "table").value]]
    ensures setting.name != "table" && setting.name != "attribute" ==>
      RequireCompanionStep(e, st, setting) == st
  {
  }

  // ---------------------------------------------------------------------------
  // Repetition of a setting
  // ---------------------------------------------------------------------------

  /** The range a repetition diagnostic of the assignment `a` covers: the setting name. */
  function NameRange(st: VState, a: Assignment): Range {
    LineRange(st.currentLineNumber, a.indent, a.indent + |a.name|)
  }

  /**
   * Outside an `if`, a setting new to the section is recorded silently, and
   * one the section has already is reported once and not recorded again.
   */
  lemma RepetitionOutsideIf(st: VState, a: Assignment, setting: Setting)
    requires !AreWeIn(st.keywordsStack, "if")
    ensures var r := CheckRepetitionStep(st, a, setting);
      r.1 == Ok
      && (setting in st.currentSettings ==>
            r.0.currentSettings == st.currentSettings
            && r.0.result == st.result + [Util.RepetitionDiagnostic(NameRange(st, a), setting, a.name)])
      && (setting !in st.currentSettings ==>
            r.0.currentSettings == st.currentSettings + [setting] && r.0.result == st.result)
  {
  }

  /**
   * The same setting twice in a section, outside `if`: the first line
   * reports nothing and the second exactly one repetition diagnostic, at the
   * second line's name.
   */
  lemma SecondDeclarationReported(st: VState, a1: Assignment, a2: Assignment, setting: Setting)
    requires !AreWeIn(st.keywordsStack, "if") && setting !in st.currentSettings
    ensures var s1 := CheckRepetitionStep(st, a1, setting).0;
      var s2 := CheckRepetitionStep(s1, a2, setting);
      s1.result == st.result
      && s2.1 == Ok && s2.0.result == st.result + [Util.RepetitionDiagnostic(NameRange(s1, a2), setting, a2.name)]
  {
    RepetitionOutsideIf(st, a1, setting);
    var s1 := CheckRepetitionStep(st, a1, setting).0;
    RepetitionOutsideIf(s1, a2, setting);
  }

  /**
   * Inside an `if`, a setting the section had before the `if` is reported
   * once on its first use in the branch.
   */
  lemma RepetitionInsideIf(st: VState, a: Assignment, setting: Setting, key: string)
    requires setting in st.currentSettings && setting !in Get(st.ifSettings, key).GetOr([])
    ensures var r := IfRepetitionStep(st, a, setting, key);
      r.result == st.result + [Util.RepetitionDiagnostic(NameRange(st, a), setting, a.name)]
      && Get(r.ifSettings, key) == Some(Get(st.ifSettings, key).GetOr([]) + [setting])
  {
    var list := Get(st.ifSettings, key).GetOr([]);
    SetGet(st.ifSettings, key, WithSetting(list, setting));
  }

  // ---------------------------------------------------------------------------
  // `for` loops
  // ---------------------------------------------------------------------------

  /** The loop variable `for` declares is the one `endfor` forgets: the list of loop variables is restored. */
  lemma EndForRestores(st: VState, v: string)
    requires !Declared(st.variables, v)
    ensures var s1 := AddToStringMapStep(st, "forVariables", Some(Declaration(0, 0, v)));
      Get(s1.variables, "forVariables") == Some(Get(st.variables, "forVariables").GetOr([]) + [v])
      && Get(HandleEndForStep(s1).variables, "forVariables") == Some(Get(st.variables, "forVariables").GetOr([]))
  {
    var before := Get(st.variables, "forVariables").GetOr([]);
    var s1 := AddToStringMapStep(st, "forVariables", Some(Declaration(0, 0, v)));
    SetGet(st.variables, "forVariables", before + [v]);
    assert (before + [v])[..|before + [v]| - 1] == before;
    SetGet(s1.variables, "forVariables", before);
  }

  /** `endfor` forgets exactly the most recent loop variable. */
  lemma EndForPops(st: VState)
    requires Get(st.variables, "forVariables").Some? && Get(st.variables, "forVariables").value != []
    ensures var l := Get(st.variables, "forVariables").value;
      Get(HandleEndForStep(st).variables, "forVariables") == Some(l[..|l| - 1])
  {
    var l := Get(st.variables, "forVariables").value;
    SetGet(st.variables, "forVariables", l[..|l| - 1]);
  }

  // ---------------------------------------------------------------------------
  // CSV rows
  // ---------------------------------------------------------------------------

  /**
   * A row of a `csv` block is reported exactly when it is not blank and its
   * column count differs from the header's, with one `Expected N columns,
   * but found M` Error over the whole row.
   */
  lemma CsvRowReported(st: VState, line: string)
    ensures var r := ValidateCsvStep(st, line);
      var columns := Util.CellsFrom(line, 0);
      (r.result != st.result <==> !BlankLineM(line) && st.csvColumns != Some(columns))
      && (r.result != st.result ==>
            r.result == st.result + [At(st.currentLineNumber, 0, |line|, Error,
                "Expected " + Printed(if st.csvColumns.Some? then Some(NatToString(st.csvColumns.value)) else None)
                + " columns, but found " + NatToString(columns))])
  {
  }

  /** A blank row is never reported, whatever the header. */
  lemma CsvBlankRowSilent(st: VState, line: string)
    requires BlankLineM(line)
    ensures ValidateCsvStep(st, line) == st
  {
  }

  // ---------------------------------------------------------------------------
  // Aliases
  // ---------------------------------------------------------------------------

  /** The uses of `value('x')` whose alias `x` is not among `aliases`, in order. */
  function UndeclaredUses(deAliases: seq<TextRange>, aliases: seq<string>): (r: seq<Range>)
    ensures |r| <= |deAliases|
  {
    if deAliases == [] then []
    else (if deAliases[0].text in aliases then [] else [deAliases[0].range]) + UndeclaredUses(deAliases[1..], aliases)
  }

  /** The ranges of a list of diagnostics. */
  function RangesOf(ds: seq<Diagnostic>): (r: seq<Range>)
    ensures |r| == |ds|
  {
    if ds == [] then [] else [ds[0].range] + RangesOf(ds[1..])
  }

  /** `checkAliases` reports exactly the uses of aliases nobody declared, one Error each, in order. */
  lemma {:induction false} UnknownAliasesAreUndeclaredUses(e: Env, deAliases: seq<TextRange>, aliases: seq<string>)
    ensures RangesOf(UnknownAliases(e, deAliases, aliases)) == UndeclaredUses(deAliases, aliases)
    ensures forall k :: 0 <= k < |UnknownAliases(e, deAliases, aliases)| ==>
      UnknownAliases(e, deAliases, aliases)[k].severity == Error
  {
    if deAliases != [] {
      UnknownAliasesAreUndeclaredUses(e, deAliases[1..], aliases);
      var d := deAliases[0];
      var head := if d.text in aliases then [] else [CreateDiagnostic(d.range, Error, e.suggest(d.text, aliases))];
      var tail := UnknownAliases(e, deAliases[1..], aliases);
      assert UnknownAliases(e, deAliases, aliases) == head + tail;
      RangesOfAppend(head, tail);
    }
  }

  lemma {:induction false} RangesOfAppend(a: seq<Diagnostic>, b: seq<Diagnostic>)
    ensures RangesOf(a + b) == RangesOf(a) + RangesOf(b)
  {
    if a == [] {
      assert a + b == b;
    } else {
      RangesOfAppend(a[1..], b);
      assert (a + b)[1..] == a[1..] + b;
      assert RangesOf(a + b) == [a[0].range] + RangesOf(a[1..] + b);
      AppendAssociative([a[0].range], RangesOf(a[1..]), RangesOf(b));
    }
  }

  /**
   * Which uses are flagged depends on the declared aliases only as a set:
   * the order in which the widget declares them, before or after their
   * uses, does not matter.
   */
  lemma {:induction false} UndeclaredUsesIgnoreOrder(deAliases: seq<TextRange>, a1: seq<string>, a2: seq<string>)
    requires forall x :: x in a1 <==> x in a2
    ensures UndeclaredUses(deAliases, a1) == UndeclaredUses(deAliases, a2)
  {
    if deAliases != [] {
      UndeclaredUsesIgnoreOrder(deAliases[1..], a1, a2);
    }
  }

  /** Declaring the aliases of a widget in either order flags the same uses. */
  lemma AliasOrderIrrelevant(e: Env, deAliases: seq<TextRange>, a: seq<string>, b: seq<string>)
    ensures RangesOf(UnknownAliases(e, deAliases, a + b)) == RangesOf(UnknownAliases(e, deAliases, b + a))
  {
    UnknownAliasesAreUndeclaredUses(e, deAliases, a + b);
    UnknownAliasesAreUndeclaredUses(e, deAliases, b + a);
    UndeclaredUsesIgnoreOrder(deAliases, a + b, b + a);
  }

  // ---------------------------------------------------------------------------
  // Declarations: addToStringArray, addToStringMap, handleFreemarker
  // ---------------------------------------------------------------------------

  /** No name occurs twice. */
  predicate Distinct(names: seq<string>) {
    forall i, j :: 0 <= i < j < |names| ==> names[i] != names[j]
  }

  /**
   * An alias is defined once: a name already among the aliases is reported
   * as `<name> is already defined` over the name and the aliases stay as
   * they are; a new name is appended and nothing is reported. Either way the
   * name is an alias afterwards.
   */
  lemma AliasDefinedOnce(st: VState, dcl: Declaration)
    ensures var r := AddAliasStep(st, Some(dcl));
      dcl.name in r.aliases
      && (dcl.name in st.aliases ==>
            r.aliases == st.aliases
            && r.result == st.result + [At(st.currentLineNumber, dcl.prefix, dcl.prefix + |dcl.name|, Error,
                                           dcl.name + " is already defined")])
      && (dcl.name !in st.aliases ==> r.aliases == st.aliases + [dcl.name] && r.result == st.result)
  {
  }

  /** Because a second definition is refused, the aliases never hold a name twice. */
  lemma AliasesStayDistinct(st: VState, m: Option<Declaration>)
    requires Distinct(st.aliases)
    ensures Distinct(AddAliasStep(st, m).aliases)
  {
    if m.Some? && m.value.name !in st.aliases {
      var a := st.aliases + [m.value.name];
      forall i, j | 0 <= i < j < |a| ensures a[i] != a[j] {
        if j == |st.aliases| {
          assert a[i] == st.aliases[i];
        }
      }
    }
  }

  /** A name stored in some list of the map is declared. */
  lemma DeclaredByGet(vars: OrderedMap<seq<string>>, key: string, name: string)
    requires Get(vars, key).Some? && name in Get(vars, key).value
    ensures Declared(vars, name)
  {
    GetFinds(vars, key);
    var i :| 0 <= i < |vars| && vars[i] == (key, Get(vars, key).value);
    DeclaredFrom(vars, name, i);
  }

  /**
   * A variable is defined once: a name declared under any key is reported as
   * `<name> is already defined` over the name and no list changes, except
   * that FreeMarker names may repeat; otherwise the name is appended to the
   * list under `key`, every other key keeps its list, and nothing is
   * reported. Either way the name is declared afterwards.
   */
  lemma VariableDefinedOnce(st: VState, key: string, dcl: Declaration)
    ensures var r := AddToStringMapStep(st, key, Some(dcl));
      var start := dcl.index + dcl.prefix;
      Declared(r.variables, dcl.name)
      && (Declared(st.variables, dcl.name) && key != "freemarker" ==>
            r.variables == st.variables
            && r.result == st.result + [At(st.currentLineNumber, start, start + |dcl.name|, Error,
                                           dcl.name + " is already defined")])
      && (!Declared(st.variables, dcl.name) || key == "freemarker" ==>
            r.result == st.result
            && Get(r.variables, key) == Some(Get(st.variables, key).GetOr([]) + [dcl.name])
            && forall k :: k != key ==> Get(r.variables, k) == Get(st.variables, k))
  {
    var r := AddToStringMapStep(st, key, Some(dcl));
    if !Declared(st.variables, dcl.name) || key == "freemarker" {
      SetGet(st.variables, key, Get(st.variables, key).GetOr([]) + [dcl.name]);
      DeclaredByGet(r.variables, key, dcl.name);
    }
  }

  /**
   * `<#list c as x>` and `<#assign x>`: a listed collection that is not a
   * FreeMarker variable yet is reported over its first occurrence in the
   * line, with a suggestion among the FreeMarker variables; the new variable
   * then joins them, even when it is there already.
   */
  lemma FreemarkerListChecked(e: Env, st: VState, line: string, f: FreemarkerAssignment)
    requires f.listVariable.Some? ==> IndexOf(line, f.listVariable.value).Some?
    ensures var r := HandleFreemarkerStep(e, st, line, f);
      var fv := Get(st.variables, "freemarker").GetOr([]);
      Get(r.variables, "freemarker") == Some(fv + [f.variable])
      && (f.listVariable.None? || f.listVariable.value in fv ==> r.result == st.result)
      && (f.listVariable.Some? && f.listVariable.value !in fv ==>
            var p := IndexOf(line, f.listVariable.value).value;
            r.result == st.result + [At(st.currentLineNumber, p, p + |f.listVariable.value|, Error,
                                        e.suggest(f.listVariable.value, fv))])
  {
    var fv := Get(st.variables, "freemarker").GetOr([]);
    if Get(st.variables, "freemarker").None? {
      SetGet(st.variables, "freemarker", []);
    }
    var s1 := if Get(st.variables, "freemarker").None? then st.(variables := Set(st.variables, "freemarker", [])) else st;
    assert Get(s1.variables, "freemarker").GetOr([]) == fv;
    var s2 :=
      match f.listVariable
      case Some(lv) =>
        if lv in fv then s1
        else
          var p := IndexOf(line, lv).value;
          Push(s1, At(s1.currentLineNumber, p, p + |lv|, Error, e.suggest(lv, fv)))
      case None => s1;
    VariableDefinedOnce(s2, "freemarker", Declaration(0, f.prefix, f.variable));
  }

  // ---------------------------------------------------------------------------
  // Sections and settings: spellingCheck, checkFreemarker, getSettingCheck,
  // checkExcludes
  // ---------------------------------------------------------------------------

  /**
   * A section header whose name is not a possible section is reported over
   * the name, with a suggestion among the possible sections; a known name
   * changes nothing.
   */
  lemma UnknownSectionReported(e: Env, st: VState, h: Header)
    ensures var r := SpellingCheckStep(e, st, h);
      (h.name in PossibleSections ==> r == st)
      && (h.name !in PossibleSections ==>
            r.result == st.result + [At(st.currentLineNumber, h.prefix, h.prefix + |h.name|, Error,
                                        e.suggest(h.name, PossibleSections))])
  {
  }

  /**
   * A line reports something exactly when it holds a `<#list` or `<#assign`
   * directive; it is then one Information over the first directive, saying
   * that FreeMarker expressions are deprecated.
   */
  lemma FreemarkerDirectiveReported(st: VState, line: string)
    ensures var r := CheckFreemarkerStep(st, line);
      (r.result == st.result <==> !exists j: nat :: DirectiveAt(line, j))
      && (FreemarkerDirective(line).Some? ==>
            var s := FreemarkerDirective(line).value;
            DirectiveAt(line, s.start)
            && r.result == st.result + [At(st.currentLineNumber, s.start, s.end, Information, FreemarkerDeprecated)])
  {
    if FreemarkerDirective(line).Some? {
      assert |CheckFreemarkerStep(st, line).result| == |st.result| + 1;
    }
  }

  /** Where `getSettingCheck` lets a name the dictionary lacks pass. */
  predicate Excused(st: VState, name: string) {
    var placeholders := st.currentSection.Some? && st.currentSection.value.text == "placeholders";
    FirstAlternative(name, Keywords, true).Some? || (placeholders && name in st.urlParameters)
    || StartsWith(name, "column")
  }

  /**
   * A setting name is reported exactly when the dictionary does not know it
   * and it is neither a keyword, nor a url parameter inside `[placeholders]`,
   * nor a name starting with `column`: one Error over the name, with a
   * suggestion among the url parameters in `[placeholders]` and among no
   * names elsewhere.
   */
  lemma UnknownSettingReported(e: Env, st: VState, a: Assignment)
    ensures var r := GetSettingCheckStep(e, st, a);
      var placeholders := st.currentSection.Some? && st.currentSection.value.text == "placeholders";
      var known := Util.GetSetting(e.dictionary, a.name).Some? || Excused(st, a.name);
      (known ==> r == st)
      && (!known ==>
            r.result == st.result + [At(st.currentLineNumber, a.indent, a.indent + |a.name|, Error,
                                        e.suggest(a.name, e.addDisplayNames(if placeholders then st.urlParameters else [])))])
  {
  }

  /**
   * `checkExcludes` reports one Error for each setting of the list that the
   * new setting excludes, naming both, and nothing else.
   */
  lemma {:induction false} ExcludesDiagnosticsMeaning(line: nat, a: Assignment, setting: Setting, items: seq<Setting>)
    ensures forall d :: d in ExcludesDiagnostics(line, a, setting, items) <==>
      exists i :: 0 <= i < |items| && items[i].displayName in setting.excludes && d == ExcludedBy(line, a, setting, items[i])
  {
    if items != [] {
      var head := if items[0].displayName in setting.excludes then [ExcludedBy(line, a, setting, items[0])] else [];
      var tail := ExcludesDiagnostics(line, a, setting, items[1..]);
      ExcludesDiagnosticsMeaning(line, a, setting, items[1..]);
      assert ExcludesDiagnostics(line, a, setting, items) == head + tail;
      forall d ensures d in head + tail <==>
        exists i :: 0 <= i < |items| && items[i].displayName in setting.excludes && d == ExcludedBy(line, a, setting, items[i])
      {
        if d in tail {
          var j :| 0 <= j < |items[1..]| && items[1..][j].displayName in setting.excludes
            && d == ExcludedBy(line, a, setting, items[1..][j]);
          assert items[j + 1] == items[1..][j];
        }
        if exists i :: 0 <= i < |items| && items[i].displayName in setting.excludes && d == ExcludedBy(line, a, setting, items[i]) {
          var i :| 0 <= i < |items| && items[i].displayName in setting.excludes && d == ExcludedBy(line, a, setting, items[i]);
          if i > 0 {
            assert items[1..][i - 1] == items[i];
          }
        }
      }
    }
  }

  /**
   * A new setting of the section is reported once for every setting already
   * declared in the section that it excludes; the diagnostics reported
   * before stay as they were.
   */
  lemma ExcludedSettingsReported(st: VState, a: Assignment, setting: Setting)
    ensures var r := CheckExcludesStep(st, a, setting);
      var items := st.currentSettings;
      |st.result| <= |r.result| && r.result[..|st.result|] == st.result
      && forall d :: d in r.result[|st.result|..] <==>
        exists i :: 0 <= i < |items| && items[i].displayName in setting.excludes
          && d == ExcludedBy(st.currentLineNumber, a, setting, items[i])
  {
    var r := CheckExcludesStep(st, a, setting);
    assert r.result[|st.result|..] == ExcludesDiagnostics(st.currentLineNumber, a, setting, st.currentSettings);
    ExcludesDiagnosticsMeaning(st.currentLineNumber, a, setting, st.currentSettings);
  }

  // ---------------------------------------------------------------------------
  // Keyword lines: handleElse, handleCsv, handleList, handleScript
  // ---------------------------------------------------------------------------

  /**
   * `else` and `elseif` record the line as the last condition; outside any
   * `if` they are reported as having no matching `if`, and inside an `if`
   * whose block is not the innermost one, as starting before the innermost
   * keyword has finished; directly inside the `if`, nothing is reported.
   */
  lemma ElseOutsideIfReported(st: VState, line: string, fk: TextRange)
    ensures var r := HandleElseStep(st, line, fk);
      r.lastCondition == Some(NatToString(st.currentLineNumber) + line)
      && (!AreWeIn(st.keywordsStack, "if") ==>
            r.result == st.result + [CreateDiagnostic(fk.range, Error, fk.text + " has no matching if")])
      && (AreWeIn(st.keywordsStack, "if") && LastKeyword(st.keywordsStack) != Some("if") ==>
            r.result == st.result + [CreateDiagnostic(fk.range, Error, fk.text + " has started before "
                                        + st.keywordsStack[|st.keywordsStack| - 1].text + " has finished")])
      && (LastKeyword(st.keywordsStack) == Some("if") ==> r.result == st.result)
  {
  }

  /**
   * A `csv` line fails exactly when it neither ends with `=` nor holds one,
   * and then nothing changes. Otherwise the column count is the header's:
   * the text after the first `=`, or, for a line ending in `=`, the next
   * non-blank line (none has no columns).
   */
  lemma CsvHeaderCounted(e: Env, st: VState, line: string)
    ensures var r := HandleCsvStep(e, st, line);
      (r.1.Thrown? <==> !EqualsAtEnd(line) && IndexOf(line, "=").None?)
      && (r.1.Thrown? ==> r == (st, Thrown("The line does not contain a '='")))
      && (EqualsAtEnd(line) ==> r.0.csvColumns == Some(HeaderColumns(NextNonBlank(e, st.currentLineNumber + 1))))
      && (!EqualsAtEnd(line) && IndexOf(line, "=").Some? ==>
            r.0.csvColumns == Some(Util.CellsFrom(line[IndexOf(line, "=").value + 1..], 0)))
  {
  }

  /** A `list` line keeps its keyword open exactly when `ListOpens` says it is continued. */
  lemma ListBlockOpens(e: Env, st: VState, line: string, fk: TextRange)
    ensures HandleListStep(e, st, line, fk).keywordsStack
      == st.keywordsStack + (if ListOpens(e, st.currentLineNumber, line) then [fk] else [])
  {
  }

  /**
   * A `script = ...` line is a setting and changes nothing; any other
   * `script` line opens a block, and text after the keyword on that line is
   * reported over the keyword because a line feed must follow it.
   */
  lemma ScriptBlockOpens(st: VState, line: string, fk: TextRange)
    ensures var r := HandleScriptStep(st, line, fk);
      (ScriptAssignment(line) ==> r == st)
      && (!ScriptAssignment(line) ==> r.keywordsStack == st.keywordsStack + [fk])
      && (!ScriptAssignment(line) && ScriptTrailing(line).None? ==> r.result == st.result)
      && (!ScriptAssignment(line) && ScriptTrailing(line).Some? ==>
            var b := ScriptTrailing(line).value;
            r.result == st.result + [At(st.currentLineNumber, b, b + 6, Error, LinefeedRequired)])
  {
  }

  // ---------------------------------------------------------------------------
  // The walk over the lines
  // ---------------------------------------------------------------------------

  /**
   * A checker that has walked a document refuses to walk another: its line
   * counter has left 0, because the first line is never inside a script.
   */
  lemma SecondRunThrows(e: Env)
    requires HasRequiredNames(e.dictionary) && |e.lines| >= 1
    requires LineByLineStep(e, Initial).1 == Ok
    ensures var s := LineByLineStep(e, Initial).0;
      LineByLineStep(e, s) == (s, Thrown("You should create a new Validator"))
  {
    assert !AreWeIn(Initial.keywordsStack, "script");
  }

  /** `switchKeyword` has a case for every lower-case keyword only: `IF` falls to the `default` throw. */
  lemma SwitchUpperCaseThrows(e: Env, st: VState, line: string, fk: TextRange)
    requires fk.text == "IF"
    ensures SwitchKeywordStep(e, st, line, fk).1 == Thrown("IF is not handled")
  {
  }

  /**
   * A keyword written in upper case: the case-insensitive parser finds it,
   * but the lower-cased `switchKeyword` has no case for it, so the keyword
   * step of the walk throws.
   */
  lemma UpperCaseKeywordThrows(e: Env, st: VState, raw: string, n: nat, line: string)
    requires FirstWord(raw) == "IF"
    ensures Parse(raw, n).Some?
    ensures KeywordStep(e, st, line, Parse(raw, n).value).1 == Thrown("IF is not handled")
  {
    TextRanges.UpperCaseKeyword(raw, n);
    var fk := Parse(raw, n).value;
    var s1 := if OpensBlock(fk.text) then st.(keywordsStack := st.keywordsStack + [fk]) else st;
    SwitchUpperCaseThrows(e, s1, line, fk);
  }
}

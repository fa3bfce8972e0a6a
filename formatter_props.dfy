/**
 * Properties of the formatter's walk (`server/src/formatter.ts`), stated on
 * the step functions the class `Formatter` is proved to follow.
 */
module FormatterProperties {
  import opened Wrappers
  import opened Text
  import opened Diagnostics
  import opened Formatting
  import TextRanges
  import Patterns
  import Util

  // ---------------------------------------------------------------------------
  // Indent units
  // ---------------------------------------------------------------------------

  /** One level of indent is whitespace. */
  lemma UnitIsSpace(opts: Options)
    ensures AllSpace(Unit(opts))
  {
    if opts.insertSpaces {
      assert forall k :: 0 <= k < opts.tabSize ==> Unit(opts)[k] == ' ';
    }
  }

  /** A nested section under an indent that ends in one level keeps that indent. */
  lemma {:induction false} NestedKeepsIndent(base: string, opts: Options)
    ensures Increased(Decreased(Increased(base, opts), opts), opts) == Increased(base, opts)
  {
    DecreaseUndoesIncrease(base, opts);
  }

  /** Opening a keyword and closing it again restores the indent and the stack. */
  lemma OpenThenClose(st: FState, opts: Options)
    ensures Closed(Opened(st, opts)) == st.(isKeyword := true)
  {
    var levels := st.keywordsLevels + [st.currentIndent];
    assert levels[..|levels| - 1] == st.keywordsLevels;
  }

  // ---------------------------------------------------------------------------
  // Reading a line
  // ---------------------------------------------------------------------------

  /** Lower-casing keeps every whitespace character where it is, and adds none. */
  lemma {:induction false} LowerKeepsSpaces(s: string, k: nat)
    requires k < |s|
    ensures IsSpace(ToLower(s)[k]) <==> IsSpace(s[k])
    ensures IsBlank(ToLower(s)[k]) <==> IsBlank(s[k])
    ensures IsSpace(s[k]) ==> ToLower(s)[k] == s[k]
  {
    var c := s[k];
    if IsUpper(c) {
      assert IsLower(LowerChar(c));
    }
  }

  /** Lower-casing keeps the end of every run of whitespace or of blanks. */
  lemma {:induction false} LowerKeepsRun(s: string, i: nat, blank: bool)
    requires i <= |s|
    ensures RunEnd(ToLower(s), i, blank) == RunEnd(s, i, blank)
    decreases |s| - i
  {
    if i < |s| {
      LowerKeepsSpaces(s, i);
      LowerKeepsRun(s, i + 1, blank);
    }
  }

  /** The leading whitespace of a lower-cased line is that of the line. */
  lemma LowerKeepsLeading(s: string)
    ensures SpacesEnd(ToLower(s), 0) == SpacesEnd(s, 0)
    ensures ToLower(s)[..SpacesEnd(s, 0)] == s[..SpacesEnd(s, 0)]
    ensures BlanksEnd(ToLower(s), 0) == BlanksEnd(s, 0)
  {
    LowerKeepsRun(s, 0, false);
    LowerKeepsRun(s, 0, true);
    var e := SpacesEnd(s, 0);
    forall k | 0 <= k < e ensures ToLower(s)[k] == s[k] {
      assert s[0..e][k] == s[k];
      LowerKeepsSpaces(s, k);
    }
  }

  // ---------------------------------------------------------------------------
  // checkIndent
  // ---------------------------------------------------------------------------

  /**
   * `checkIndent` adds at most one edit beyond those of reading the line; it
   * adds one iff the line has a non-whitespace character and its leading
   * whitespace differs from the expected indent, and that edit replaces
   * exactly the leading whitespace of the line with the expected indent.
   */
  lemma CheckIndentEdit(st: FState, lines: seq<string>)
    requires CacheValid(st, lines) && st.currentLine < |lines|
    ensures var read := CurrentLine(st, lines).0;
      var r := CheckIndentStep(st, lines);
      var line := lines[st.currentLine];
      var k := SpacesEnd(line, 0);
      |read.edits| <= |r.edits| <= |read.edits| + 1 && r.edits[..|read.edits|] == read.edits
      && (|r.edits| == |read.edits| + 1 <==> k < |line| && line[..k] != st.currentIndent)
      && (|r.edits| == |read.edits| + 1 ==>
            r.edits[|read.edits|] == TextEdit(LineRange(st.currentLine, 0, k), st.currentIndent)
            && AllSpace(line[..k]) && !IsSpace(line[k]))
  {
    var line := lines[st.currentLine];
    var got := CurrentLine(st, lines);
    assert got.1 == ToLower(line);
    LowerKeepsLeading(line);
    var k := SpacesEnd(line, 0);
    assert line[0..k] == line[..k];
    if k < |line| {
      LowerKeepsSpaces(line, k);
    }
  }

  // ---------------------------------------------------------------------------
  // Lines of the walk
  // ---------------------------------------------------------------------------

  /** A blank line is never a section header. */
  lemma BlankIsNotHeader(line: string)
    requires Util.IsEmpty(line)
    ensures SectionName(ToLower(line)).None?
  {
    if |line| > 0 {
      var t := ToLower(line);
      LowerKeepsLeading(line);
      assert SpacesEnd(t, 0) == |line|;
    }
  }

  /**
   * A blank line keeps the indent, the stack, the keyword mark and the
   * sections; the only edits it adds delete trailing whitespace.
   */
  lemma BlankLineKeepsIndent(st: FState, lines: seq<string>, opts: Options, i: nat)
    requires CacheValid(st, lines) && i < |lines| && Util.IsEmpty(lines[i])
    ensures var r := FormatLine(st, lines, opts, i);
      r.currentIndent == st.currentIndent && r.keywordsLevels == st.keywordsLevels
      && r.isKeyword == st.isKeyword && r.current == st.current && r.previous == st.previous
      && |st.edits| <= |r.edits| && r.edits[..|st.edits|] == st.edits
      && forall k :: |st.edits| <= k < |r.edits| ==> r.edits[k].newText == ""
  {
    BlankIsNotHeader(lines[i]);
    var st0 := st.(currentLine := i);
    var f1 := Fetch(st0, lines, i);
    assert IsSectionStep(st0, lines) == (f1.0, None);
    var f2 := Fetch(f1.0, lines, i);
    assert IsSectionStep(f1.0, lines) == (f2.0, None);
    assert FormatLine(st, lines, opts, i) == HeaderOrBlankStep(f1.0, lines, opts) == f2.0;
    assert f2.0.edits[..|st.edits|] == f1.0.edits[..|st.edits|];
  }

  /** A `[group]` or `[configuration]` header puts the expected indent back to the left margin. */
  lemma GroupHeaderResetsIndent(st: FState, lines: seq<string>, opts: Options, name: string)
    requires CacheValid(st, lines) && st.currentLine < |lines|
    requires IsGroupHeader(ToLower(lines[st.currentLine]))
    ensures CalculateIndentStep(st, lines, opts, name).currentIndent == ""
    ensures CalculateIndentStep(st, lines, opts, name).isKeyword == st.isKeyword
  {
    var got := CurrentLine(st.(previous := st.current, current := Some(name)), lines);
    assert got.1 == ToLower(lines[st.currentLine]);
  }

  /**
   * For a header that does not follow a just-opened keyword, the indent is
   * decreased once, then increased again when the previous section is an
   * ancestor, or decreased once more unless both are drawn at the same level.
   */
  lemma HeaderIndentRule(st: FState, lines: seq<string>, opts: Options, name: string)
    requires CacheValid(st, lines) && st.currentLine < |lines|
    requires !IsGroupHeader(ToLower(lines[st.currentLine])) && !st.isKeyword
    ensures var down := Decreased(st.currentIndent, opts);
      CalculateIndentStep(st, lines, opts, name).currentIndent
        == if IsNested(name, st.current) then Increased(down, opts)
           else if !IsSameLevel(name, st.current) then Decreased(down, opts)
           else down
  {
    var st1 := st.(previous := st.current, current := Some(name));
    var got := CurrentLine(st1, lines);
    assert got.1 == ToLower(lines[st.currentLine]);
    assert got.0.currentIndent == st.currentIndent && !got.0.isKeyword;
  }

  /** A header right after an opened keyword keeps the indent and clears the mark. */
  lemma HeaderAfterKeyword(st: FState, lines: seq<string>, opts: Options, name: string)
    requires CacheValid(st, lines) && st.currentLine < |lines|
    requires !IsGroupHeader(ToLower(lines[st.currentLine])) && st.isKeyword
    ensures CalculateIndentStep(st, lines, opts, name).currentIndent == st.currentIndent
    ensures !CalculateIndentStep(st, lines, opts, name).isKeyword
  {
    var st1 := st.(previous := st.current, current := Some(name));
    var got := CurrentLine(st1, lines);
    assert got.1 == ToLower(lines[st.currentLine]);
  }

  // ---------------------------------------------------------------------------
  // Keyword lines
  // ---------------------------------------------------------------------------

  /**
   * `shouldBeClosed` answers false exactly for a `var` line with no `=` followed
   * by whitespace and a bracket that ends the line or starts a `,`-terminated
   * run, and for a `list` line with no `=` or `,` followed only by blanks up to
   * a line end.
   */
  lemma ShouldBeClosedFalse(st: FState, lines: seq<string>)
    requires CacheValid(st, lines) && st.currentLine < |lines|
    ensures var line := ToLower(lines[st.currentLine]);
      !ShouldBeClosedStep(st, lines).1 <==> NotOpening(line)
  {
    var line := ToLower(lines[st.currentLine]);
    assert CurrentLine(st, lines).1 == line;
    CloseForFalse(line);
  }

  /** A `var` line that opens no block, or a `list` line whose values do not go on. */
  ghost predicate NotOpening(line: string) {
    (ClosableKind(line) == Some(VarKeyword) && !exists e: nat, f: nat :: Patterns.EqualsOpens(line, e, f))
    || (ClosableKind(line) == Some(ListKeyword)
        && !exists k: nat | k < |line| :: (line[k] == '=' || line[k] == ',') && BlanksToLineEndM(line, k + 1))
  }

  lemma CloseForFalse(line: string)
    ensures !CloseFor(ClosableKind(line), line) <==> NotOpening(line)
  {
    Patterns.VarOpensFromMeaning(line, 0);
    Patterns.EqualsOrCommaFromMeaning(line, 0);
  }

  /** A line whose first word is `else` or `elseif` is none of `var`, `list` or `script =`. */
  lemma ElseIsNotClosable(line: string)
    requires TextRanges.IsNotCloseAble(line)
    ensures ClosableKind(ToLower(line)).None?
  {
    var t := ToLower(line);
    var b := TextRanges.Indent(line);
    LowerKeepsLeading(line);
    var w := TextRanges.FirstWord(line);
    assert w[0] == 'e' by {
      assert w == "else" || w == "elseif";
    }
    assert t[b] == 'e' by {
      assert line[b..b + |w|][0] == line[b];
    }
    NotAt(t, b, "var");
    NotAt(t, b, "list");
    NotAt(t, b, "script");
  }

  /** A pattern cannot start where its first character is missing. */
  lemma NotAt(s: string, i: nat, p: string)
    requires p != [] && i < |s| && s[i] != p[0]
    ensures !HasAt(s, i, p)
  {
    if i + |p| <= |s| {
      assert s[i..i + |p|][0] == s[i];
    }
  }

  /**
   * A closing line that opens nothing (`endfor`, `endif`, ...) pops the stack and
   * goes back to the indent it held; on an empty stack the indent stays.
   */
  lemma ClosingLineRestores(st: FState, lines: seq<string>, opts: Options, line: string)
    requires CacheValid(st, lines) && st.currentLine < |lines|
    requires TextRanges.IsClosing(line) && !TextRanges.IsCloseAble(line)
    ensures var r := KeywordLineStep(st, lines, opts, line);
      var n := |st.keywordsLevels|;
      r.keywordsLevels == (if n == 0 then [] else st.keywordsLevels[..n - 1])
      && r.currentIndent == (if n == 0 then st.currentIndent else st.keywordsLevels[n - 1])
      && r.isKeyword == st.isKeyword
  {
    assert KeywordLineStep(st, lines, opts, line) == CheckIndentStep(Closed(st), lines);
  }

  /**
   * `else` and `elseif` close the open block and reopen one at the same depth:
   * the stack ends as it was and the indent is one level under the restored one.
   */
  lemma ElseReopens(st: FState, lines: seq<string>, opts: Options)
    requires CacheValid(st, lines) && st.currentLine < |lines|
    requires TextRanges.IsNotCloseAble(lines[st.currentLine])
    ensures var r := KeywordLineStep(st, lines, opts, lines[st.currentLine]);
      var n := |st.keywordsLevels|;
      var restored := if n == 0 then st.currentIndent else st.keywordsLevels[n - 1];
      r.keywordsLevels == (if n == 0 then [restored] else st.keywordsLevels)
      && r.currentIndent == Increased(restored, opts) && r.isKeyword
  {
    var line := lines[st.currentLine];
    TextRanges.NotCloseAbleClosesAndOpens(line);
    var st3 := CheckIndentStep(Closed(st), lines);
    ElseCloses(st3, lines);
    ReopeningLine(st, lines, opts, line);
    if st.keywordsLevels != [] {
      PopThenPush(st.keywordsLevels);
    }
  }

  /** Pushing back the last element of a stack after popping it gives the stack. */
  lemma PopThenPush(s: seq<string>)
    requires s != []
    ensures s[..|s| - 1] + [s[|s| - 1]] == s
  {}

  /** A line that both closes and opens, and should be closed, pops and then pushes. */
  lemma ReopeningLine(st: FState, lines: seq<string>, opts: Options, line: string)
    requires CacheValid(st, lines) && st.currentLine < |lines|
    requires TextRanges.IsClosing(line) && TextRanges.IsCloseAble(line)
    requires ShouldBeClosedStep(CheckIndentStep(Closed(st), lines), lines).1
    ensures KeywordLineStep(st, lines, opts, line)
      == Opened(ShouldBeClosedStep(CheckIndentStep(Closed(st), lines), lines).0, opts)
  {}

  /** `shouldBeClosed` is true on an `else` or `elseif` line. */
  lemma ElseCloses(st: FState, lines: seq<string>)
    requires CacheValid(st, lines) && st.currentLine < |lines|
    requires TextRanges.IsNotCloseAble(lines[st.currentLine])
    ensures ShouldBeClosedStep(st, lines).1
  {
    ElseIsNotClosable(lines[st.currentLine]);
    assert CurrentLine(st, lines).1 == ToLower(lines[st.currentLine]);
  }

  /** A closeable line whose `shouldBeClosed` is true pushes its indent and goes one level deeper. */
  lemma OpeningLinePushes(st: FState, lines: seq<string>, opts: Options, line: string)
    requires CacheValid(st, lines) && st.currentLine < |lines|
    requires !TextRanges.IsClosing(line) && TextRanges.IsCloseAble(line)
    requires ShouldBeClosedStep(CheckIndentStep(st, lines), lines).1
    ensures var r := KeywordLineStep(st, lines, opts, line);
      r.keywordsLevels == st.keywordsLevels + [st.currentIndent]
      && r.currentIndent == Increased(st.currentIndent, opts) && r.isKeyword
  {}

  /** A closeable line whose `shouldBeClosed` is false leaves indent, stack and mark as they were. */
  lemma UnclosedLineKeepsLevel(st: FState, lines: seq<string>, opts: Options, line: string)
    requires CacheValid(st, lines) && st.currentLine < |lines|
    requires !TextRanges.IsClosing(line)
    requires !TextRanges.IsCloseAble(line) || !ShouldBeClosedStep(CheckIndentStep(st, lines), lines).1
    ensures var r := KeywordLineStep(st, lines, opts, line);
      r.keywordsLevels == st.keywordsLevels && r.currentIndent == st.currentIndent && r.isKeyword == st.isKeyword
  {}

  // ---------------------------------------------------------------------------
  // The walk only ever writes whitespace
  // ---------------------------------------------------------------------------

  /**
   * The expected indent, every saved indent and every edit's replacement text
   * are whitespace, and every edit lies within one line of the document.
   */
  predicate WhitespaceOnly(st: FState, lines: seq<string>) {
    AllSpace(st.currentIndent)
    && (forall k :: 0 <= k < |st.keywordsLevels| ==> AllSpace(st.keywordsLevels[k]))
    && (forall k :: 0 <= k < |st.edits| ==> AllSpace(st.edits[k].newText) && OnOneLine(st.edits[k].range, |lines|))
  }

  predicate OnOneLine(r: Range, count: nat) {
    r.start.line == r.end.line < count
  }

  lemma FetchKeeps(st: FState, lines: seq<string>, i: nat)
    requires CacheValid(st, lines) && st.currentLine < |lines| && WhitespaceOnly(st, lines)
    ensures WhitespaceOnly(Fetch(st, lines, i).0, lines)
  {
    var r := Fetch(st, lines, i).0;
    forall k | 0 <= k < |r.edits| ensures AllSpace(r.edits[k].newText) && OnOneLine(r.edits[k].range, |lines|) {
      if k < |st.edits| {
        assert r.edits[k] == r.edits[..|st.edits|][k] == st.edits[k];
      }
    }
  }

  lemma {:induction false} LookAheadKeeps(st: FState, lines: seq<string>, j: nat)
    requires CacheValid(st, lines) && st.currentLine < |lines| && WhitespaceOnly(st, lines)
    ensures WhitespaceOnly(LookAhead(st, lines, j), lines)
    decreases |lines| - j, 1
  {
    var got := Fetch(st, lines, j);
    FetchKeeps(st, lines, j);
    LookAheadAfterKeeps(got.0, lines, j, got.1);
  }

  lemma {:induction false} LookAheadAfterKeeps(st: FState, lines: seq<string>, j: nat, next: Option<string>)
    requires CacheValid(st, lines) && (next.Some? ==> j < |lines|)
    requires st.currentLine < |lines| && WhitespaceOnly(st, lines)
    ensures WhitespaceOnly(LookAheadAfter(st, lines, j, next), lines)
    decreases |lines| - j, 0
  {
    if !(next.None? || HasWord(next.value, "script") || HasWord(next.value, "endscript")) {
      LookAheadKeeps(st, lines, j + 1);
    }
  }

  lemma IncreasedIsSpace(indent: string, opts: Options)
    requires AllSpace(indent)
    ensures AllSpace(Increased(indent, opts)) && AllSpace(Decreased(indent, opts))
  {
    UnitIsSpace(opts);
    var r := Increased(indent, opts);
    forall k | 0 <= k < |r| ensures IsSpace(r[k]) {
      if k >= |indent| {
        assert r[k] == Unit(opts)[k - |indent|];
      }
    }
  }

  lemma CheckIndentKeeps(st: FState, lines: seq<string>)
    requires CacheValid(st, lines) && st.currentLine < |lines| && WhitespaceOnly(st, lines)
    ensures WhitespaceOnly(CheckIndentStep(st, lines), lines)
  {
    FetchKeeps(st, lines, st.currentLine);
    var read := CurrentLine(st, lines).0;
    var r := CheckIndentStep(st, lines);
    CheckIndentEdit(st, lines);
    forall k | 0 <= k < |r.edits| ensures AllSpace(r.edits[k].newText) && OnOneLine(r.edits[k].range, |lines|) {
      if k < |read.edits| {
        assert r.edits[k] == r.edits[..|read.edits|][k] == read.edits[k];
      }
    }
  }

  lemma CalculateIndentKeeps(st: FState, lines: seq<string>, opts: Options, name: string)
    requires CacheValid(st, lines) && st.currentLine < |lines| && WhitespaceOnly(st, lines)
    ensures WhitespaceOnly(CalculateIndentStep(st, lines, opts, name), lines)
  {
    var st1 := st.(previous := st.current, current := Some(name));
    FetchKeeps(st1, lines, st1.currentLine);
    var got := CurrentLine(st1, lines);
    var down := Decreased(got.0.currentIndent, opts);
    IncreasedIsSpace(got.0.currentIndent, opts);
    IncreasedIsSpace(down, opts);
  }

  lemma HeaderOrBlankKeeps(st: FState, lines: seq<string>, opts: Options)
    requires CacheValid(st, lines) && st.currentLine < |lines| && WhitespaceOnly(st, lines)
    ensures WhitespaceOnly(HeaderOrBlankStep(st, lines, opts), lines)
  {
    FetchKeeps(st, lines, st.currentLine);
    var got := IsSectionStep(st, lines);
    if got.1.Some? {
      var st3 := CalculateIndentStep(got.0, lines, opts, got.1.value);
      CalculateIndentKeeps(got.0, lines, opts, got.1.value);
      CheckIndentKeeps(st3, lines);
      IncreasedIsSpace(CheckIndentStep(st3, lines).currentIndent, opts);
    }
  }

  lemma ClosedKeeps(st: FState, lines: seq<string>)
    requires WhitespaceOnly(st, lines)
    ensures WhitespaceOnly(Closed(st), lines)
  {
    var n := |st.keywordsLevels|;
    if n > 0 {
      var r := Closed(st);
      forall k | 0 <= k < n - 1 ensures AllSpace(r.keywordsLevels[k]) {
        assert r.keywordsLevels[k] == st.keywordsLevels[k];
      }
    }
  }

  lemma OpenedKeeps(st: FState, lines: seq<string>, opts: Options)
    requires WhitespaceOnly(st, lines)
    ensures WhitespaceOnly(Opened(st, opts), lines)
  {
    IncreasedIsSpace(st.currentIndent, opts);
    var r := Opened(st, opts);
    forall k | 0 <= k < |r.keywordsLevels| ensures AllSpace(r.keywordsLevels[k]) {
      if k < |st.keywordsLevels| {
        assert r.keywordsLevels[k] == st.keywordsLevels[k];
      }
    }
  }

  lemma KeywordLineKeeps(st: FState, lines: seq<string>, opts: Options, line: string)
    requires CacheValid(st, lines) && st.currentLine < |lines| && WhitespaceOnly(st, lines)
    ensures WhitespaceOnly(KeywordLineStep(st, lines, opts, line), lines)
  {
    var st2 := if TextRanges.IsClosing(line) then Closed(st) else st;
    ClosedKeeps(st, lines);
    var st3 := CheckIndentStep(st2, lines);
    CheckIndentKeeps(st2, lines);
    if TextRanges.IsCloseAble(line) {
      ShouldBeClosedKeeps(st3, lines);
      OpenedKeeps(ShouldBeClosedStep(st3, lines).0, lines, opts);
    }
  }

  lemma ShouldBeClosedKeeps(st: FState, lines: seq<string>)
    requires CacheValid(st, lines) && st.currentLine < |lines| && WhitespaceOnly(st, lines)
    ensures WhitespaceOnly(ShouldBeClosedStep(st, lines).0, lines)
  {
    FetchKeeps(st, lines, st.currentLine);
    var got := CurrentLine(st, lines);
    LookAheadKeeps(got.0, lines, got.0.currentLine + 1);
  }

  lemma FormatLineKeeps(st: FState, lines: seq<string>, opts: Options, i: nat)
    requires CacheValid(st, lines) && i < |lines| && WhitespaceOnly(st, lines)
    ensures WhitespaceOnly(FormatLine(st, lines, opts, i), lines)
  {
    var st0 := st.(currentLine := i);
    FetchKeeps(st0, lines, i);
    var got := IsSectionStep(st0, lines);
    HeaderOrBlankKeeps(got.0, lines, opts);
    KeywordLineKeeps(got.0, lines, opts, lines[i]);
  }

  /**
   * The formatter only ever changes whitespace: every edit of a whole walk puts
   * whitespace (or nothing) in place of a range within one line.
   */
  lemma EditsAreWhitespace(lines: seq<string>, opts: Options)
    ensures var edits := Run(Initial, lines, opts, 0).edits;
      forall k :: 0 <= k < |edits| ==> AllSpace(edits[k].newText) && OnOneLine(edits[k].range, |lines|)
  {
    var st := Initial;
    for index := 0 to |lines|
      invariant CacheValid(st, lines) && WhitespaceOnly(st, lines)
      invariant Run(Initial, lines, opts, 0) == Run(st, lines, opts, index)
    {
      FormatLineKeeps(st, lines, opts, index);
      RunStep(st, lines, opts, index);
      st := FormatLine(st, lines, opts, index);
    }
  }
}

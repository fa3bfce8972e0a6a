/**
 * The formatter of `server/src/formatter.ts`: it walks the lines once,
 * recomputes the expected indent from the nesting of sections and the stack
 * of open keywords, and collects whitespace-only edits.
 *
 * `FState` holds every field the walk updates and the functions below give
 * the state each step leaves; the class `Formatter` performs the same steps
 * in place and is proved to leave exactly those states. The text of a line is
 * read through a one-line cache that also emits the trailing-whitespace edit
 * whenever it loads a line; that edit is placed on the line being formatted,
 * which during the look-ahead of `shouldBeClosed` is not the line loaded.
 */
module Formatting {
  import opened Wrappers
  import opened Text
  import opened Diagnostics
  import Resources
  import TextRanges
  import Patterns
  import Util

  /** The two formatting options the formatter reads. */
  datatype Options = Options(tabSize: nat, insertSpaces: bool)

  /** `TextEdit.replace(range, newText)` */
  datatype TextEdit = TextEdit(range: Range, newText: string)

  /** The fields of the formatter that the walk updates. */
  datatype FState = FState(
    current: Option<string>,
    currentIndent: string,
    currentLine: nat,
    edits: seq<TextEdit>,
    isKeyword: bool,
    keywordsLevels: seq<string>,
    lastLine: Option<string>,
    lastLineNumber: Option<nat>,
    previous: Option<string>)

  /** The state of a new formatter. */
  const Initial: FState := FState(None, "", 0, [], false, [], None, None, None)

  /** The cache holds the lower-cased text of the line it names, if any. */
  predicate CacheValid(st: FState, lines: seq<string>) {
    (st.lastLine.Some? <==> st.lastLineNumber.Some?)
    && (st.lastLineNumber.Some? ==>
          st.lastLineNumber.value < |lines| && st.lastLine.value == ToLower(lines[st.lastLineNumber.value]))
  }

  // ---------------------------------------------------------------------------
  // Reading lines
  // ---------------------------------------------------------------------------

  /**
   * `removeExtraSpaces`: for a line ending in whitespace, the edit deleting
   * the maximal whitespace run at its end, placed on line `at`.
   */
  function ExtraSpacesEdit(at: nat, line: string): (r: Option<TextEdit>)
    ensures r.Some? <==> |line| > 0 && IsSpace(line[|line| - 1])
    ensures r.Some? ==>
      var start := r.value.range.start.character;
      r.value.newText == "" && r.value.range == LineRange(at, start, |line|)
      && start < |line| && AllSpace(line[start..]) && (start == 0 || !IsSpace(line[start - 1]))
  {
    var start := Patterns.TrailingSpaceStart(line);
    if start < |line| then Some(TextEdit(LineRange(at, start, |line|), ""))
    else
      assert |line| > 0 ==> line[|line| - 1] == line[start - 1];
      None
  }

  function AddEdit(edits: seq<TextEdit>, e: Option<TextEdit>): seq<TextEdit> {
    if e.Some? then edits + [e.value] else edits
  }

  /**
   * `getLine(i)`: the cached text when the cache holds a non-empty line `i`;
   * otherwise line `i` lower-cased, its trailing-whitespace edit and a new
   * cache; nothing past the last line.
   */
  function Fetch(st: FState, lines: seq<string>, i: nat): (r: (FState, Option<string>))
    requires CacheValid(st, lines)
    ensures CacheValid(r.0, lines)
    ensures r.1.Some? <==> i < |lines|
    ensures r.1.Some? ==> r.1.value == ToLower(lines[i])
    ensures r.0.(edits := st.edits, lastLine := st.lastLine, lastLineNumber := st.lastLineNumber) == st
    ensures |st.edits| <= |r.0.edits| && r.0.edits[..|st.edits|] == st.edits
    ensures forall k :: |st.edits| <= k < |r.0.edits| ==> r.0.edits[k].newText == ""
  {
    if st.lastLine.None? || st.lastLine.value == "" || st.lastLineNumber != Some(i) then
      if i < |lines| then
        var line := ToLower(lines[i]);
        var edits := AddEdit(st.edits, ExtraSpacesEdit(st.currentLine, line));
        (st.(edits := edits, lastLine := Some(line), lastLineNumber := Some(i)), Some(line))
      else (st, None)
    else (st, st.lastLine)
  }

  /** `getCurrentLine`: `getLine` of the line being formatted. */
  function CurrentLine(st: FState, lines: seq<string>): (r: (FState, string))
    requires CacheValid(st, lines) && st.currentLine < |lines|
    ensures CacheValid(r.0, lines) && r.0.currentLine == st.currentLine
    ensures r.1 == ToLower(lines[st.currentLine])
  {
    var got := Fetch(st, lines, st.currentLine);
    var st', line := got.0, got.1;
    (st', line.value)
  }

  // ---------------------------------------------------------------------------
  // Indents
  // ---------------------------------------------------------------------------

  /** What one level of indent is: `tabSize` spaces, or a tab. */
  function Unit(opts: Options): (u: string)
    ensures |u| == if opts.insertSpaces then opts.tabSize else 1
  {
    if opts.insertSpaces then Repeat(' ', opts.tabSize) else "\t"
  }

  /** `increaseIndent` */
  function Increased(indent: string, opts: Options): (r: string)
    ensures |r| == |indent| + |Unit(opts)| && r[..|indent|] == indent
  {
    indent + Unit(opts)
  }

  /** `decreaseIndent`: drops one level from the end; `substring` clamps a negative length to 0. */
  function Decreased(indent: string, opts: Options): (r: string)
    ensures indent == [] ==> r == []
    ensures indent != [] ==> |r| == if |indent| >= |Unit(opts)| then |indent| - |Unit(opts)| else 0
    ensures r == indent[..|r|]
  {
    if |indent| == 0 then indent
    else
      var newLength := |indent| - |Unit(opts)|;
      indent[..if newLength < 0 then 0 else newLength]
  }

  /** Decreasing undoes increasing, for either kind of indent. */
  lemma DecreaseUndoesIncrease(indent: string, opts: Options)
    ensures Decreased(Increased(indent, opts), opts) == indent
  {
    var up := Increased(indent, opts);
    if up == [] {
      assert indent == [];
    }
  }

  /** Decreasing the empty indent changes nothing. */
  lemma DecreaseEmpty(opts: Options)
    ensures Decreased("", opts) == ""
  {}

  /** `isSameLevel`: the pairs of sections drawn at the same indent. */
  predicate IsSameLevel(current: string, previous: Option<string>) {
    previous.None? || current == previous.value
    || (current == "group" && previous.value == "configuration")
    || (current == "link" && previous.value == "node")
    || (current == "series" && previous.value == "link")
    || (current == "link" && previous.value == "series")
    || (current == "node" && previous.value == "link")
  }

  /** `isNested`: the previous section is an ancestor of the current one. */
  predicate IsNested(current: string, previous: Option<string>) {
    previous.Some? && previous.value in Resources.Ancestors(current)
  }

  // ---------------------------------------------------------------------------
  // Recognizers
  // ---------------------------------------------------------------------------

  /** End of the run of `[a-z]` starting at `i`. */
  function LowerEnd(s: string, i: nat): (e: nat)
    requires i <= |s|
    ensures i <= e <= |s| && (forall k :: i <= k < e ==> IsLower(s[k])) && (e < |s| ==> !IsLower(s[e]))
    decreases |s| - i
  {
    if i < |s| && IsLower(s[i]) then LowerEnd(s, i + 1) else i
  }

  /** `/(^\s*)\[([a-z]+)\]/`: the section name of a header line. */
  function SectionName(line: string): (r: Option<string>)
    ensures r.Some? ==> |r.value| > 0 && forall k :: 0 <= k < |r.value| ==> IsLower(r.value[k])
  {
    var a := SpacesEnd(line, 0);
    if a < |line| && line[a] == '[' then
      var b := LowerEnd(line, a + 1);
      if a + 1 < b < |line| && line[b] == ']' then Some(line[a + 1..b]) else None
    else None
  }

  /** `/\[(?:group|configuration)\]/i` */
  predicate IsGroupHeader(line: string) {
    IndexOf(ToLower(line), "[group]").Some? || IndexOf(ToLower(line), "[configuration]").Some?
  }

  /** The leading whitespace of a line that has a non-whitespace character (`/(^\s*)\S/`). */
  function LeadingIndent(line: string): (r: Option<string>)
    ensures r.Some? ==> (|r.value| < |line| && r.value == line[..|r.value|] && AllSpace(r.value)
                         && !IsSpace(line[|r.value|]))
    ensures r.None? <==> AllSpace(line)
  {
    var a := SpacesEnd(line, 0);
    assert line[0..a] == line[..a];
    if a < |line| then Some(line[..a])
    else None
  }

  /** The keyword `shouldBeClosed` reads: `/^[ \t]*((?:var|list)|script[ \t]*=)/`. */
  datatype Closable = VarKeyword | ListKeyword | ScriptAssignment

  function ClosableKind(line: string): Option<Closable> {
    var b := BlanksEnd(line, 0);
    if HasAt(line, b, "var") then Some(VarKeyword)
    else if HasAt(line, b, "list") then Some(ListKeyword)
    else if HasAt(line, b, "script") then
      var c := BlanksEnd(line, b + 6);
      if c < |line| && line[c] == '=' then Some(ScriptAssignment) else None
    else None
  }

  // ---------------------------------------------------------------------------
  // Steps
  // ---------------------------------------------------------------------------

  /** `isSection`: reads the current line and recognizes a header. */
  function IsSectionStep(st: FState, lines: seq<string>): (r: (FState, Option<string>))
    requires CacheValid(st, lines) && st.currentLine < |lines|
    ensures CacheValid(r.0, lines) && r.0.currentLine == st.currentLine
  {
    var got := CurrentLine(st, lines);
    var st', line := got.0, got.1;
    (st', SectionName(line))
  }

  /** `calculateIndent` for the section `name` just recognized. */
  function CalculateIndentStep(st: FState, lines: seq<string>, opts: Options, name: string): (r: FState)
    requires CacheValid(st, lines) && st.currentLine < |lines|
    ensures CacheValid(r, lines) && r.currentLine == st.currentLine
    ensures r.current == Some(name) && r.previous == st.current && r.keywordsLevels == st.keywordsLevels
  {
    var got := CurrentLine(st.(previous := st.current, current := Some(name)), lines);
    IndentAfter(got.0, opts, got.1)
  }

  /** The rest of `calculateIndent` once the header line has been read as `line`. */
  function IndentAfter(st: FState, opts: Options, line: string): (r: FState)
    ensures r == st.(currentIndent := r.currentIndent, isKeyword := r.isKeyword)
  {
    if IsGroupHeader(line) then st.(currentIndent := "")
    else if st.isKeyword then st.(isKeyword := false)
    else
      var down := Decreased(st.currentIndent, opts);
      if st.current.Some? && IsNested(st.current.value, st.previous) then st.(currentIndent := Increased(down, opts))
      else if st.current.Some? && !IsSameLevel(st.current.value, st.previous) then st.(currentIndent := Decreased(down, opts))
      else st.(currentIndent := down)
  }

  /** `checkIndent`: an edit replacing the leading whitespace when it is not the expected indent. */
  function CheckIndentStep(st: FState, lines: seq<string>): (r: FState)
    requires CacheValid(st, lines) && st.currentLine < |lines|
    ensures CacheValid(r, lines) && r.currentLine == st.currentLine
    ensures r.currentIndent == st.currentIndent && r.keywordsLevels == st.keywordsLevels
    ensures r.isKeyword == st.isKeyword && r.current == st.current && r.previous == st.previous
  {
    var got := CurrentLine(st, lines);
    var st', line := got.0, got.1;
    match LeadingIndent(line)
    case Some(indent) =>
      if indent != st'.currentIndent then
        st'.(edits := st'.edits + [TextEdit(LineRange(st'.currentLine, 0, |indent|), st'.currentIndent)])
      else st'
    case None => st'
  }

  /** The look-ahead of `shouldBeClosed` after `script =`: reads lines until one holds `script` or `endscript`. */
  function LookAhead(st: FState, lines: seq<string>, j: nat): (r: FState)
    requires CacheValid(st, lines)
    ensures CacheValid(r, lines) && r.currentLine == st.currentLine
    ensures r.currentIndent == st.currentIndent && r.keywordsLevels == st.keywordsLevels
    ensures r.isKeyword == st.isKeyword && r.current == st.current && r.previous == st.previous
    decreases |lines| - j, 1
  {
    var got := Fetch(st, lines, j);
    var st', line := got.0, got.1;
    LookAheadAfter(st', lines, j, line)
  }

  /** What the look-ahead still does once line `j` has been read as `next`: it stops at the end or at a line holding `script` or `endscript`. */
  function LookAheadAfter(st: FState, lines: seq<string>, j: nat, next: Option<string>): (r: FState)
    requires CacheValid(st, lines) && (next.Some? ==> j < |lines|)
    ensures CacheValid(r, lines) && r.currentLine == st.currentLine
    ensures r.currentIndent == st.currentIndent && r.keywordsLevels == st.keywordsLevels
    ensures r.isKeyword == st.isKeyword && r.current == st.current && r.previous == st.previous
    decreases |lines| - j, 0
  {
    if next.None? || HasWord(next.value, "script") || HasWord(next.value, "endscript") then st
    else LookAhead(st, lines, j + 1)
  }

  /** `shouldBeClosed`: false only for a `var` or `list` line that does not open a block. */
  function ShouldBeClosedStep(st: FState, lines: seq<string>): (r: (FState, bool))
    requires CacheValid(st, lines) && st.currentLine < |lines|
    ensures CacheValid(r.0, lines) && r.0.currentLine == st.currentLine
    ensures r.0.currentIndent == st.currentIndent && r.0.keywordsLevels == st.keywordsLevels
    ensures r.0.isKeyword == st.isKeyword && r.0.current == st.current && r.0.previous == st.previous
  {
    var got := CurrentLine(st, lines);
    var kind := ClosableKind(got.1);
    (CloseAfter(got.0, lines, kind), CloseFor(kind, got.1))
  }

  /** The state after `shouldBeClosed` once the current line has been read as a line of that kind: only a `script =` line reads on. */
  function CloseAfter(st: FState, lines: seq<string>, kind: Option<Closable>): (r: FState)
    requires CacheValid(st, lines)
    ensures CacheValid(r, lines) && r.currentLine == st.currentLine
    ensures r.currentIndent == st.currentIndent && r.keywordsLevels == st.keywordsLevels
    ensures r.isKeyword == st.isKeyword && r.current == st.current && r.previous == st.previous
  {
    if kind == Some(ScriptAssignment) then LookAhead(st, lines, st.currentLine + 1) else st
  }

  /** The answer of `shouldBeClosed` for a line of the given kind. */
  function CloseFor(kind: Option<Closable>, line: string): bool {
    match kind
    case None => true
    case Some(VarKeyword) => Patterns.VarOpensBlock(line)
    case Some(ListKeyword) => Patterns.EqualsOrCommaAtEnd(line)
    case Some(ScriptAssignment) => true
  }

  /** The body of the `forEach` in `lineByLine` for line `index`. */
  function FormatLine(st: FState, lines: seq<string>, opts: Options, index: nat): (r: FState)
    requires CacheValid(st, lines) && index < |lines|
    ensures CacheValid(r, lines) && r.currentLine == index
  {
    var st0 := st.(currentLine := index);
    var got1 := IsSectionStep(st0, lines);
    var st1, header := got1.0, got1.1;
    if header.Some? || Util.IsEmpty(lines[index]) then HeaderOrBlankStep(st1, lines, opts)
    else KeywordLineStep(st1, lines, opts, lines[index])
  }

  /** A header line gets its indent computed and checked, then opens a level; a blank line changes nothing. */
  function HeaderOrBlankStep(st: FState, lines: seq<string>, opts: Options): (r: FState)
    requires CacheValid(st, lines) && st.currentLine < |lines|
    ensures CacheValid(r, lines) && r.currentLine == st.currentLine
  {
    var got2 := IsSectionStep(st, lines);
    var st2, header := got2.0, got2.1;
    if header.Some? then
      var st3 := CalculateIndentStep(st2, lines, opts, header.value);
      var st4 := CheckIndentStep(st3, lines);
      st4.(currentIndent := Increased(st4.currentIndent, opts))
    else st2
  }

  /** Any other line: a closing keyword restores the indent, the indent is checked, an opening keyword pushes a level. */
  function KeywordLineStep(st: FState, lines: seq<string>, opts: Options, line: string): (r: FState)
    requires CacheValid(st, lines) && st.currentLine < |lines|
    ensures CacheValid(r, lines) && r.currentLine == st.currentLine
  {
    var st2 := if TextRanges.IsClosing(line) then Closed(st) else st;
    var st3 := CheckIndentStep(st2, lines);
    if TextRanges.IsCloseAble(line) then
      var got4 := ShouldBeClosedStep(st3, lines);
      var st4, close := got4.0, got4.1;
      if close then Opened(st4, opts) else st4
    else st3
  }

  /** A closing line: pop the stack and restore the indent it held, if any. */
  function Closed(st: FState): (r: FState)
    ensures st.keywordsLevels == [] ==> r == st
    ensures st.keywordsLevels != [] ==>
      r == st.(keywordsLevels := st.keywordsLevels[..|st.keywordsLevels| - 1],
               currentIndent := st.keywordsLevels[|st.keywordsLevels| - 1])
  {
    if st.keywordsLevels == [] then st
    else st.(keywordsLevels := st.keywordsLevels[..|st.keywordsLevels| - 1],
             currentIndent := st.keywordsLevels[|st.keywordsLevels| - 1])
  }

  /** An opening line: remember the indent, go one level deeper, and mark the keyword. */
  function Opened(st: FState, opts: Options): (r: FState)
    ensures r.keywordsLevels == st.keywordsLevels + [st.currentIndent]
    ensures r.currentIndent == Increased(st.currentIndent, opts) && r.isKeyword
  {
    st.(keywordsLevels := st.keywordsLevels + [st.currentIndent],
        currentIndent := Increased(st.currentIndent, opts), isKeyword := true)
  }

  /** The walk over lines `from..` */
  function Run(st: FState, lines: seq<string>, opts: Options, from: nat): (r: FState)
    requires CacheValid(st, lines) && from <= |lines|
    ensures CacheValid(r, lines)
    decreases |lines| - from
  {
    if from == |lines| then st else Run(FormatLine(st, lines, opts, from), lines, opts, from + 1)
  }

  /** The walk from line `i` is line `i`'s step, then the walk from `i + 1`. */
  lemma RunStep(st: FState, lines: seq<string>, opts: Options, i: nat)
    requires CacheValid(st, lines) && i < |lines|
    ensures Run(st, lines, opts, i) == Run(FormatLine(st, lines, opts, i), lines, opts, i + 1)
  {}

  /** One read of the look-ahead, then the rest of it. */
  lemma LookAheadUnfold(st: FState, lines: seq<string>, j: nat)
    requires CacheValid(st, lines)
    ensures LookAhead(st, lines, j) == LookAheadAfter(Fetch(st, lines, j).0, lines, j, Fetch(st, lines, j).1)
  {}

  /** `Formatter`: the fields of the source class, updated in place. */
  class Formatter {
    var current: Option<string>
    var currentIndent: string
    var currentLine: nat
    var edits: seq<TextEdit>
    var isKeyword: bool
    var keywordsLevels: seq<string>
    var lastLine: Option<string>
    var lastLineNumber: Option<nat>
    const lines: seq<string>
    const options: Options
    var previous: Option<string>

    /** The fields as a value. */
    function State(): FState
      reads this
    {
      FState(current, currentIndent, currentLine, edits, isKeyword, keywordsLevels, lastLine, lastLineNumber, previous)
    }

    predicate Valid()
      reads this
    {
      CacheValid(State(), lines)
    }

    constructor(text: string, formattingOptions: Options)
      ensures lines == Split(text, '\n') && options == formattingOptions
      ensures State() == Initial && Valid()
    {
      current := None;
      currentIndent := "";
      currentLine := 0;
      edits := [];
      isKeyword := false;
      keywordsLevels := [];
      lastLine := None;
      lastLineNumber := None;
      lines := Split(text, '\n');
      options := formattingOptions;
      previous := None;
    }

    /** `lineByLine`: formats every line in order and returns the edits. */
    method LineByLine() returns (result: seq<TextEdit>)
      requires Valid()
      modifies this
      ensures Valid() && State() == Run(old(State()), lines, options, 0) && result == edits
    {
      for index := 0 to |lines|
        invariant Valid()
        invariant Run(old(State()), lines, options, 0) == Run(State(), lines, options, index)
      {
        ghost var before := State();
        FormatLineAt(index);
        assert Run(before, lines, options, index) == Run(State(), lines, options, index + 1) by {
          RunStep(before, lines, options, index);
        }
      }
      return edits;
    }

    /** The `forEach` callback for line `index`. */
    method FormatLineAt(index: nat)
      requires Valid() && index < |lines|
      modifies this
      ensures Valid() && State() == FormatLine(old(State()), lines, options, index)
    {
      currentLine := index;
      var header := IsSection();
      if header.Some? || Util.IsEmpty(lines[index]) {
        FormatHeaderOrBlank();
      } else {
        FormatKeywordLine(lines[index]);
      }
    }

    /** The callback on a header or blank line. */
    method FormatHeaderOrBlank()
      requires Valid() && currentLine < |lines|
      modifies this
      ensures Valid() && State() == HeaderOrBlankStep(old(State()), lines, options)
    {
      var header := IsSection();
      if header.Some? {
        CalculateIndent(header.value);
        CheckIndent();
        IncreaseIndent();
      }
    }

    /** The callback on any other line. */
    method FormatKeywordLine(line: string)
      requires Valid() && currentLine < |lines|
      modifies this
      ensures Valid() && State() == KeywordLineStep(old(State()), lines, options, line)
    {
      if TextRanges.IsClosing(line) {
        RestoreLevel();
      }
      CheckIndent();
      if TextRanges.IsCloseAble(line) {
        var close := ShouldBeClosed();
        if close {
          OpenLevel();
        }
      }
    }

    /** An opening line pushes the indent, goes one level deeper and marks the keyword. */
    method OpenLevel()
      modifies this
      ensures State() == Opened(old(State()), options)
    {
      keywordsLevels := keywordsLevels + [currentIndent];
      IncreaseIndent();
      isKeyword := true;
    }

    /** A closing line pops the stack and sets the indent it held. */
    method RestoreLevel()
      modifies this
      ensures State() == Closed(old(State()))
    {
      var stackHead: Option<string> := None;
      if keywordsLevels != [] {
        stackHead := Some(keywordsLevels[|keywordsLevels| - 1]);
        keywordsLevels := keywordsLevels[..|keywordsLevels| - 1];
      }
      SetIndent(stackHead);
    }

    /** `calculateIndent` for the section `name` the header match found. */
    method CalculateIndent(name: string)
      requires Valid() && currentLine < |lines|
      modifies this
      ensures Valid() && State() == CalculateIndentStep(old(State()), lines, options, name)
    {
      previous := current;
      current := Some(name);
      var line := GetCurrentLine();
      IndentForHeader(line);
    }

    /** The rest of `calculateIndent` once the header line has been read. */
    method IndentForHeader(line: string)
      modifies this
      ensures State() == IndentAfter(old(State()), options, line)
    {
      if IsGroupHeader(line) {
        SetIndent(Some(""));
        return;
      }
      if isKeyword {
        isKeyword := false;
        return;
      }
      DecreaseIndent();
      if current.None? {
        return;
      }
      var nested := IsNestedSection();
      if nested {
        IncreaseIndent();
      } else if !IsSameLevel(current.value, previous) {
        DecreaseIndent();
      }
    }

    /** `checkIndent` */
    method CheckIndent()
      requires Valid() && currentLine < |lines|
      modifies this
      ensures Valid() && State() == CheckIndentStep(old(State()), lines)
    {
      var line := GetCurrentLine();
      var indent := LeadingIndent(line);
      if indent.Some? && indent.value != currentIndent {
        edits := edits + [TextEdit(LineRange(currentLine, 0, |indent.value|), currentIndent)];
      }
    }

    /** `decreaseIndent` */
    method DecreaseIndent()
      modifies this
      ensures State() == old(State()).(currentIndent := Decreased(old(currentIndent), options))
    {
      if |currentIndent| == 0 {
        return;
      }
      var newLength := |currentIndent|;
      if options.insertSpaces {
        newLength := newLength - options.tabSize;
      } else {
        newLength := newLength - 1;
      }
      currentIndent := currentIndent[..if newLength < 0 then 0 else newLength];
    }

    /** `getCurrentLine` */
    method GetCurrentLine() returns (line: string)
      requires Valid() && currentLine < |lines|
      modifies this
      ensures Valid() && State() == CurrentLine(old(State()), lines).0 && line == CurrentLine(old(State()), lines).1
    {
      var fetched := GetLine(currentLine);
      line := fetched.value;
    }

    /** `getLine`: reads through the one-line cache. */
    method GetLine(i: nat) returns (line: Option<string>)
      requires Valid()
      modifies this
      ensures Valid() && State() == Fetch(old(State()), lines, i).0 && line == Fetch(old(State()), lines, i).1
    {
      if lastLine.None? || lastLine.value == "" || lastLineNumber != Some(i) {
        if i >= |lines| {
          return None;
        }
        var text := ToLower(lines[i]);
        RemoveExtraSpaces(text);
        lastLine := Some(text);
        lastLineNumber := Some(i);
      }
      return lastLine;
    }

    /** `increaseIndent` */
    method IncreaseIndent()
      modifies this
      ensures State() == old(State()).(currentIndent := Increased(old(currentIndent), options))
    {
      var addition := "\t";
      if options.insertSpaces {
        addition := Repeat(' ', options.tabSize);
      }
      currentIndent := currentIndent + addition;
    }

    /** `isNested`, with the ancestors computed by `getParents`. */
    method IsNestedSection() returns (nested: bool)
      requires current.Some?
      ensures nested == IsNested(current.value, previous)
    {
      if previous.None? {
        return false;
      }
      var parents := Resources.GetParents(current.value);
      return previous.value in parents;
    }

    /** `isSection` */
    method IsSection() returns (header: Option<string>)
      requires Valid() && currentLine < |lines|
      modifies this
      ensures Valid() && State() == IsSectionStep(old(State()), lines).0 && header == IsSectionStep(old(State()), lines).1
    {
      var line := GetCurrentLine();
      header := SectionName(line);
    }

    /** `removeExtraSpaces`: the trailing-whitespace edit, on the line being formatted. */
    method RemoveExtraSpaces(line: string)
      modifies this
      ensures State() == old(State()).(edits := AddEdit(old(edits), ExtraSpacesEdit(currentLine, line)))
    {
      var start := Patterns.TrailingSpaceStart(line);
      if start < |line| {
        edits := edits + [TextEdit(LineRange(currentLine, start, |line|), "")];
      }
    }

    /** `setIndent`: an undefined indent leaves the current one. */
    method SetIndent(newIndent: Option<string>)
      modifies this
      ensures State() == old(State()).(currentIndent := newIndent.GetOr(old(currentIndent)))
    {
      if newIndent.Some? {
        currentIndent := newIndent.value;
      }
    }

    /** `shouldBeClosed` */
    method ShouldBeClosed() returns (close: bool)
      requires Valid() && currentLine < |lines|
      modifies this
      ensures Valid() && State() == ShouldBeClosedStep(old(State()), lines).0 && close == ShouldBeClosedStep(old(State()), lines).1
    {
      var line := GetCurrentLine();
      var kind := ClosableKind(line);
      CloseAfterKind(kind);
      close := CloseFor(kind, line);
    }

    /** The rest of `shouldBeClosed` once the current line has been read as a line of that kind. */
    method CloseAfterKind(kind: Option<Closable>)
      requires Valid()
      modifies this
      ensures Valid() && State() == CloseAfter(old(State()), lines, kind)
    {
      if kind == Some(ScriptAssignment) {
        LookAheadForEnd();
      }
    }

    /** One read of the look-ahead: line `j` through the cache, and what the look-ahead then still does. */
    method ReadAhead(j: nat) returns (next: Option<string>)
      requires Valid()
      modifies this
      ensures Valid() && (next.Some? ==> j < |lines|)
      ensures LookAhead(old(State()), lines, j) == LookAheadAfter(State(), lines, j, next)
    {
      ghost var before := State();
      next := GetLine(j);
      LookAheadUnfold(before, lines, j);
    }

    /** The loop of `shouldBeClosed` after `script =`: reads on until a line holds `script` or `endscript`. */
    method LookAheadForEnd()
      requires Valid()
      modifies this
      ensures Valid() && State() == LookAhead(old(State()), lines, old(currentLine) + 1)
    {
      var j := currentLine + 1;
      var next := ReadAhead(j);
      while next.Some? && !HasWord(next.value, "script") && !HasWord(next.value, "endscript")
        invariant next.Some? ==> j < |lines|
        invariant Valid() && LookAhead(old(State()), lines, old(currentLine) + 1) == LookAheadAfter(State(), lines, j, next)
        decreases |lines| - j
      {
        assert LookAheadAfter(State(), lines, j, next) == LookAhead(State(), lines, j + 1);
        j := j + 1;
        next := ReadAhead(j);
      }
    }
  }
}

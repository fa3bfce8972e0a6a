/**
 * The remaining regular expressions of the checker (`server/src/validator.ts`):
 * keyword lines, FreeMarker expressions, aliases, url parameters and the
 * placeholders inside `for` loops. The conventions are those of `Patterns`:
 * each recognizer returns what the checker reads from the match, and follows
 * how a backtracking engine resolves the pattern.
 */
module ValidatorPatterns {
  import opened Wrappers
  import opened Text
  import opened Patterns
  import TextRanges

  /** Where a match (or a part of it) starts, and where it ends. */
  datatype Span = Span(start: nat, end: nat)

  /**
   * A declared name: where the match starts, the length of the group in front
   * of the name (the checker positions the name from these) and the name.
   */
  datatype Declaration = Declaration(index: nat, prefix: nat, name: string)

  /** The name stands in the line where the declaration says. */
  predicate DeclaredAt(line: string, d: Declaration) {
    |d.name| > 0 && HasAt(line, d.index + d.prefix, d.name)
  }

  // ---------------------------------------------------------------------------
  // Keywords
  // ---------------------------------------------------------------------------

  /** `/\b(if|for|csv)\b/i`: a keyword that opens a block the checker tracks. */
  predicate OpensBlock(text: string) {
    var t := ToLower(text);
    HasWord(t, "if") || HasWord(t, "for") || HasWord(t, "csv")
  }

  /** Inside a text made of word characters, `\bw\b` can only span all of it. */
  lemma WordInWord(t: string, w: string)
    requires AllWord(t) && |w| > 0
    ensures HasWord(t, w) <==> t == w
  {
    HasWordIff(t, w);
    if HasWord(t, w) {
      var i: nat :| i <= |t| && WordMatchAt(t, i, w);
      assert WordAt(t, i);
      assert !WordAt(t, i - 1) by {
        assert Boundary(t, i);
      }
      assert WordAt(t, i + |w| - 1);
      assert !WordAt(t, i + |w|) by {
        assert Boundary(t, i + |w|);
      }
      assert i == 0 && |w| == |t|;
      assert t == t[i..i + |w|];
    }
    if t == w {
      assert t[0..|w|] == w;
      assert WordMatchAt(t, 0, w);
    }
  }

  /** A keyword as written opens a block exactly when it is `if`, `for` or `csv` in any case. */
  lemma OpensBlockIff(text: string)
    requires AllWord(text)
    ensures OpensBlock(text) <==> ToLower(text) in {"if", "for", "csv"}
  {
    var t := ToLower(text);
    assert AllWord(t);
    WordInWord(t, "if");
    WordInWord(t, "for");
    WordInWord(t, "csv");
  }

  /** `/=[ \t]*$/m` tested from position `k` on. */
  predicate EqualsEndFrom(line: string, k: nat)
    decreases |line| - k
  {
    k < |line| && ((line[k] == '=' && BlanksToLineEndM(line, k + 1)) || EqualsEndFrom(line, k + 1))
  }

  /** `/=[ \t]*$/m`: a `csv` line whose header follows on the next lines. */
  predicate EqualsAtEnd(line: string) {
    EqualsEndFrom(line, 0)
  }

  lemma {:induction false} EqualsEndFromMeaning(line: string, d: nat)
    ensures EqualsEndFrom(line, d) <==>
      exists k: nat | d <= k < |line| :: line[k] == '=' && BlanksToLineEndM(line, k + 1)
    decreases |line| - d
  {
    if d < |line| {
      EqualsEndFromMeaning(line, d + 1);
      if exists k: nat | d <= k < |line| :: line[k] == '=' && BlanksToLineEndM(line, k + 1) {
        var k: nat :| d <= k < |line| && line[k] == '=' && BlanksToLineEndM(line, k + 1);
        assert k == d || d + 1 <= k;
      }
    }
  }

  /** `(^[ \t]*csv[ \t]+)(\w+)[ \t]*=` at the line start `st`. */
  function CsvAt(line: string, st: nat): (r: Option<Declaration>)
    requires st <= |line|
    ensures r.Some? ==> r.value.index == st && DeclaredAt(line, r.value) && AllWord(r.value.name)
  {
    var b := BlanksEnd(line, st);
    if HasAt(line, b, "csv") then
      var c := BlanksEnd(line, b + 3);
      var e := WordEnd(line, c);
      var f := BlanksEnd(line, e);
      if c > b + 3 && e > c && f < |line| && line[f] == '=' then
        assert HasAt(line, c, line[c..e]);
        Some(Declaration(st, c - st, line[c..e]))
      else None
    else None
  }

  /** `/(^[ \t]*csv[ \t]+)(\w+)[ \t]*=/m.exec(line)` from the line start `st` on. */
  function CsvFrom(line: string, st: nat): (r: Option<Declaration>)
    requires st <= |line|
    ensures r.Some? ==> st <= r.value.index && LineStartM(line, r.value.index) && DeclaredAt(line, r.value)
    decreases |line| - st
  {
    var here := if LineStartM(line, st) then CsvAt(line, st) else None;
    if here.Some? then here else if st < |line| then CsvFrom(line, st + 1) else None
  }

  /** `csv name =`: the name of a CSV table. */
  function CsvDeclaration(line: string): (r: Option<Declaration>)
    ensures r.Some? ==> DeclaredAt(line, r.value)
  {
    CsvFrom(line, 0)
  }

  /** `(var\s*)(\w+)\s*=` at `i`. */
  function VarAt(line: string, i: nat): (r: Option<Declaration>)
    ensures r.Some? ==> r.value.index == i && HasAt(line, i, "var") && DeclaredAt(line, r.value) && AllWord(r.value.name)
  {
    if HasAt(line, i, "var") then
      var b := SpacesEnd(line, i + 3);
      var e := WordEnd(line, b);
      var f := SpacesEnd(line, e);
      if e > b && f < |line| && line[f] == '=' then
        assert HasAt(line, b, line[b..e]);
        Some(Declaration(i, b - i, line[b..e]))
      else None
    else None
  }

  /** `/(var\s*)(\w+)\s*=/.exec(line)` from `i` on: the leftmost start wins. */
  function VarFrom(line: string, i: nat): (r: Option<Declaration>)
    ensures r.Some? ==> i <= r.value.index && DeclaredAt(line, r.value)
    ensures forall j :: i <= j && (r.None? || j < r.value.index) ==> VarAt(line, j).None?
    decreases |line| - i
  {
    if i >= |line| then None
    else if VarAt(line, i).Some? then VarAt(line, i)
    else VarFrom(line, i + 1)
  }

  /** The name of a `var name = ...` declaration. */
  function VarDeclaration(line: string): (r: Option<Declaration>)
    ensures r.Some? ==> DeclaredAt(line, r.value)
  {
    VarFrom(line, 0)
  }

  /** `/(^\s*list\s+)(\w+)\s+=/.exec(line)`: the name of a `list`. */
  function ListDeclaration(line: string): (r: Option<Declaration>)
    ensures r.Some? ==> r.value.index == 0 && DeclaredAt(line, r.value) && AllWord(r.value.name)
    ensures r.Some? ==> HasAt(line, SpacesEnd(line, 0), "list")
  {
    var b := SpacesEnd(line, 0);
    if HasAt(line, b, "list") then
      var c := SpacesEnd(line, b + 4);
      var e := WordEnd(line, c);
      var f := SpacesEnd(line, e);
      if c > b + 4 && e > c && f > e && f < |line| && line[f] == '=' then
        assert HasAt(line, c, line[c..e]);
        Some(Declaration(0, c, line[c..e]))
      else None
    else None
  }

  /** `/^[ \t]*,/`: a line that continues a list. */
  predicate StartsWithComma(line: string) {
    var b := BlanksEnd(line, 0);
    b < |line| && line[b] == ','
  }

  /** `^\s*script\s*=` at the line start `st` (the rest, `.*$`, always matches). */
  predicate ScriptAssignmentAt(line: string, st: nat)
    requires st <= |line|
  {
    var b := SpacesEnd(line, st);
    HasAt(line, b, "script") && SpacesEnd(line, b + 6) < |line| && line[SpacesEnd(line, b + 6)] == '='
  }

  /** `/^\s*script\s*=.*$/m` tested from the line start `st` on. */
  predicate ScriptAssignmentFrom(line: string, st: nat)
    requires st <= |line|
    decreases |line| - st
  {
    (LineStartM(line, st) && ScriptAssignmentAt(line, st)) || (st < |line| && ScriptAssignmentFrom(line, st + 1))
  }

  /** `/^\s*script\s*=.*$/m`: a one-line `script = ...` setting, not a block. */
  predicate ScriptAssignment(line: string) {
    ScriptAssignmentFrom(line, 0)
  }

  /** `/(^\s*)script\s*\S/.exec(line)`: the indent of a `script` keyword followed by more text. */
  function ScriptTrailing(line: string): (r: Option<nat>)
    ensures r.Some? ==> r.value == SpacesEnd(line, 0) && HasAt(line, r.value, "script")
    ensures r.Some? ==> SpacesEnd(line, r.value + 6) < |line|
  {
    var b := SpacesEnd(line, 0);
    if HasAt(line, b, "script") && SpacesEnd(line, b + 6) < |line| then Some(b) else None
  }

  /** A `script` line with `=` after the keyword is not a trailing-text error: it is an assignment. */
  lemma ScriptEqualsIsAssignment(line: string)
    requires ScriptTrailing(line).Some? && line[SpacesEnd(line, SpacesEnd(line, 0) + 6)] == '='
    ensures ScriptAssignment(line)
  {
    assert LineStartM(line, 0) && ScriptAssignmentAt(line, 0);
  }

  // ---------------------------------------------------------------------------
  // for
  // ---------------------------------------------------------------------------

  /** The match of `(^\s*for\s+)(\w+)\s+in`: the loop variable and the match's length. */
  datatype ForHead = ForHead(variable: Declaration, length: nat)

  /** `(^\s*for\s+)(\w+)\s+in` at the line start `st`. */
  function ForAt(line: string, st: nat): (r: Option<ForHead>)
    requires st <= |line|
    ensures r.Some? ==> r.value.variable.index == st && DeclaredAt(line, r.value.variable)
    ensures r.Some? ==> r.value.length >= 2 && HasAt(line, st + r.value.length - 2, "in")
  {
    var b := SpacesEnd(line, st);
    if HasAt(line, b, "for") then
      var c := SpacesEnd(line, b + 3);
      var e := WordEnd(line, c);
      var f := SpacesEnd(line, e);
      if c > b + 3 && e > c && f > e && HasAt(line, f, "in") then
        assert HasAt(line, c, line[c..e]);
        Some(ForHead(Declaration(st, c - st, line[c..e]), f + 2 - st))
      else None
    else None
  }

  /** `/(^\s*for\s+)(\w+)\s+in/m.exec(line)` from the line start `st` on. */
  function ForFrom(line: string, st: nat): (r: Option<ForHead>)
    requires st <= |line|
    ensures r.Some? ==> st <= r.value.variable.index && DeclaredAt(line, r.value.variable)
    ensures r.Some? ==> r.value.length >= 2
    decreases |line| - st
  {
    var here := if LineStartM(line, st) then ForAt(line, st) else None;
    if here.Some? then here else if st < |line| then ForFrom(line, st + 1) else None
  }

  /** The loop variable of a `for name in ...` line. */
  function ForHeader(line: string): (r: Option<ForHead>)
    ensures r.Some? ==> DeclaredAt(line, r.value.variable) && r.value.length >= 2
  {
    ForFrom(line, 0)
  }

  /**
   * The groups of `^([ \t]*for[ \t]+\w+[ \t]+in[ \t]+)(?:Object\.keys\((\w+)\)|(\w+)).*$`:
   * the length of the first group, whether the collection is written as
   * `Object.keys(name)`, and the collection's name.
   */
  datatype Collection = Collection(prefix: nat, isKeys: bool, name: string)

  /** `Object.keys(` under the `i` flag, as the checker sees it in the lower-cased line. */
  const ObjectKeys: string := "object.keys("

  /** The alternation after `in`: `Object\.keys\((\w+)\)` first, then `(\w+)`. */
  function CollectionAt(line: string, st: nat, g: nat): (r: Option<Collection>)
    requires st <= g <= |line|
    ensures r.Some? ==> |r.value.name| > 0 && r.value.prefix == g - st
  {
    var k := g + |ObjectKeys|;
    if HasAtIgnoreCase(line, g, ObjectKeys) && WordEnd(line, k) > k
      && WordEnd(line, k) < |line| && line[WordEnd(line, k)] == ')'
    then
      Some(Collection(g - st, true, line[k..WordEnd(line, k)]))
    else
      var v := WordEnd(line, g);
      if v > g then Some(Collection(g - st, false, line[g..v])) else None
  }

  /** The collection of `[ \t]*for[ \t]+\w+[ \t]+in[ \t]+...` at the line start `st`. */
  function ForInAt(line: string, st: nat): (r: Option<Collection>)
    requires st <= |line|
    ensures r.Some? ==> |r.value.name| > 0
  {
    var b := BlanksEnd(line, st);
    if HasAtIgnoreCase(line, b, "for") then
      var c := BlanksEnd(line, b + 3);
      var e := WordEnd(line, c);
      var f := BlanksEnd(line, e);
      if c > b + 3 && e > c && f > e && HasAtIgnoreCase(line, f, "in") then
        var g := BlanksEnd(line, f + 2);
        if g > f + 2 then CollectionAt(line, st, g) else None
      else None
    else None
  }

  /** The `/…/im.exec(line)` of the collection, from the line start `st` on. */
  function ForInFrom(line: string, st: nat): (r: Option<Collection>)
    requires st <= |line|
    ensures r.Some? ==> |r.value.name| > 0
    decreases |line| - st
  {
    var here := if LineStartM(line, st) then ForInAt(line, st) else None;
    if here.Some? then here else if st < |line| then ForInFrom(line, st + 1) else None
  }

  /** The collection a `for` line iterates over: a name, or the keys of a name. */
  function ForCollection(line: string): (r: Option<Collection>)
    ensures r.Some? ==> |r.value.name| > 0
  {
    ForInFrom(line, 0)
  }

  /** `for server in servers` names `servers`, right after the first group. */
  lemma ForCollectionOfPlainLoop(v: string, c: string)
    requires |v| > 0 && AllWord(v) && |c| > 0 && AllWord(c) && !HasAtIgnoreCase(c, 0, ObjectKeys)
    ensures ForCollection("for " + v + " in " + c) == Some(Collection(8 + |v|, false, c))
  {
    var line := "for " + v + " in " + c;
    PlainLoopHeader(v, c);
    assert line[8 + |v|..] == c;
    PlainCollection(line, 8 + |v|);
    assert LineStartM(line, 0);
  }

  /** After `for v in `, the collection alternation starts right after the first group. */
  lemma PlainLoopHeader(v: string, c: string)
    requires |v| > 0 && AllWord(v) && |c| > 0 && IsWordChar(c[0])
    ensures var line := "for " + v + " in " + c;
      ForInAt(line, 0) == CollectionAt(line, 0, 8 + |v|)
  {
    ForWordOfPlainLoop(v, c);
    InWordOfPlainLoop(v, c);
  }

  /** `for v` at the start of `for v in c`: the keyword, one blank and the word `v`. */
  lemma ForWordOfPlainLoop(v: string, c: string)
    requires |v| > 0 && AllWord(v)
    ensures var line := "for " + v + " in " + c;
      BlanksEnd(line, 0) == 0 && HasAtIgnoreCase(line, 0, "for") && BlanksEnd(line, 3) == 4
      && WordEnd(line, 4) == 4 + |v| && BlanksEnd(line, 4 + |v|) == 5 + |v|
  {
    var line := "for " + v + " in " + c;
    assert line[0..3] == "for" && ToLower("for") == "for";
    BlanksEndIs(line, 0, 0);
    BlanksEndIs(line, 3, 4);
    forall k | 4 <= k < 4 + |v| ensures IsWordChar(line[k]) {
      assert line[k] == v[k - 4];
    }
    TextRanges.WordEndIs(line, 4, 4 + |v|);
    BlanksEndIs(line, 4 + |v|, 5 + |v|);
  }

  /** `in c` in `for v in c`: the keyword and one blank before the word `c`. */
  lemma InWordOfPlainLoop(v: string, c: string)
    requires |c| > 0 && IsWordChar(c[0])
    ensures var line := "for " + v + " in " + c;
      HasAtIgnoreCase(line, 5 + |v|, "in") && BlanksEnd(line, 7 + |v|) == 8 + |v|
  {
    var line := "for " + v + " in " + c;
    assert line[5 + |v|..7 + |v|] == "in" && ToLower("in") == "in";
    BlanksEndIs(line, 7 + |v|, 8 + |v|);
  }

  /** A word that runs to the end of the line and is not `Object.keys(` is a plain collection name. */
  lemma PlainCollection(line: string, g: nat)
    requires g < |line| && AllWord(line[g..]) && !HasAtIgnoreCase(line[g..], 0, ObjectKeys)
    ensures CollectionAt(line, 0, g) == Some(Collection(g, false, line[g..]))
  {
    var c := line[g..];
    forall k | g <= k < |line| ensures IsWordChar(line[k]) {
      assert line[k] == c[k - g];
    }
    TextRanges.WordEndIs(line, g, |line|);
    assert |ObjectKeys| <= |c| ==> line[g..g + |ObjectKeys|] == c[..|ObjectKeys|];
    assert !HasAtIgnoreCase(line, g, ObjectKeys);
    assert WordEnd(line, g) == |line| && line[g..|line|] == c;
  }

  // ---------------------------------------------------------------------------
  // Settings
  // ---------------------------------------------------------------------------

  /** The end of the shortest tag name ending in a letter before `[ \t]*=`, from `j` up to `limit`. */
  function TagNameEnd(line: string, j: nat, limit: nat): (r: Option<nat>)
    requires 1 <= j && limit <= |line|
    ensures r.Some? ==> j <= r.value <= limit && IsLower(line[r.value - 1])
    ensures r.Some? ==> BlanksEnd(line, r.value) < |line| && line[BlanksEnd(line, r.value)] == '='
    decreases limit + 1 - j
  {
    if j > limit then None
    else if IsLower(line[j - 1]) && BlanksEnd(line, j) < |line| && line[BlanksEnd(line, j)] == '=' then Some(j)
    else TagNameEnd(line, j + 1, limit)
  }

  /** `(^[ \t]*)([a-z].*?[a-z])[ \t]*=`: a `name = value` line of a `[tags]` section. */
  function TagAssignment(line: string): (r: Option<Declaration>)
    ensures r.Some? ==> r.value.index == 0 && r.value.prefix == BlanksEnd(line, 0)
    ensures r.Some? ==> DeclaredAt(line, r.value) && |r.value.name| >= 2
  {
    var b := BlanksEnd(line, 0);
    if b < |line| && IsLower(line[b]) then
      var limit := DotsEnd(line, b + 1);
      var found := TagNameEnd(line, b + 2, limit);
      if found.Some? then
        assert HasAt(line, b, line[b..found.value]);
        Some(Declaration(0, b, line[b..found.value]))
      else None
    else None
  }

  /** `(^\s*alias\s*=\s*)(\S+)\s*$` at the line start `st`. */
  function AliasAt(line: string, st: nat): (r: Option<Declaration>)
    requires st <= |line|
    ensures r.Some? ==> r.value.index == st && DeclaredAt(line, r.value)
  {
    var b := SpacesEnd(line, st);
    if HasAt(line, b, "alias") then
      var c := SpacesEnd(line, b + 5);
      if c < |line| && line[c] == '=' then
        var g := SpacesEnd(line, c + 1);
        var e := NonSpaceEnd(line, g);
        if e > g && SpacesToLineEndM(line, e) then
          assert HasAt(line, g, line[g..e]);
          Some(Declaration(st, g - st, line[g..e]))
        else None
      else None
    else None
  }

  /** `/(^\s*alias\s*=\s*)(\S+)\s*$/m.exec(line)` from the line start `st` on. */
  function AliasFrom(line: string, st: nat): (r: Option<Declaration>)
    requires st <= |line|
    ensures r.Some? ==> st <= r.value.index && DeclaredAt(line, r.value)
    decreases |line| - st
  {
    var here := if LineStartM(line, st) then AliasAt(line, st) else None;
    if here.Some? then here else if st < |line| then AliasFrom(line, st + 1) else None
  }

  /** The alias an `alias = name` line declares. */
  function AliasDeclaration(line: string): (r: Option<Declaration>)
    ensures r.Some? ==> DeclaredAt(line, r.value)
  {
    AliasFrom(line, 0)
  }

  /** The end of the lazy `\S+?` that starts before `j` and is closed by `q)`. */
  function QuoteClose(line: string, q: char, j: nat): (r: Option<nat>)
    requires j <= |line|
    ensures r.Some? ==> j <= r.value && r.value + 1 < |line| && line[r.value] == q && line[r.value + 1] == ')'
    decreases |line| - j
  {
    if j + 1 < |line| && line[j] == q && line[j + 1] == ')' then Some(j)
    else if j < |line| && !IsSpace(line[j]) then QuoteClose(line, q, j + 1)
    else None
  }

  /** `value\((['"])(\S+?)\1\)` at `i`: the span of the alias name. */
  function DeAliasAt(line: string, i: nat): (r: Option<Span>)
    ensures r.Some? ==> HasAt(line, i, "value(") && r.value.start == i + 7 < r.value.end
    ensures r.Some? ==> r.value.end + 2 <= |line| && line[r.value.end] == line[i + 6] && line[r.value.end + 1] == ')'
    ensures r.Some? ==> line[i + 6] == '\'' || line[i + 6] == '"'
  {
    if HasAt(line, i, "value(") && i + 7 < |line| && (line[i + 6] == '\'' || line[i + 6] == '"') && !IsSpace(line[i + 7]) then
      match QuoteClose(line, line[i + 6], i + 8)
      case Some(e) => Some(Span(i + 7, e))
      case None => None
    else None
  }

  /** `exec` of `/value\((['"])(\S+?)\1\)/g` from `lastIndex` on: the span of the next alias name. */
  function NextDeAlias(line: string, from: nat): (r: Option<Span>)
    ensures r.Some? ==> from + 7 <= r.value.start < r.value.end && r.value.end + 2 <= |line|
    decreases |line| - from
  {
    if from >= |line| then None
    else match DeAliasAt(line, from)
      case Some(s) => Some(s)
      case None => NextDeAlias(line, from + 1)
  }

  /** What `NextDeAlias` finds is a `value('name')` use, the first from `from` on. */
  lemma {:induction false} NextDeAliasFound(line: string, from: nat)
    ensures NextDeAlias(line, from).Some? ==>
      DeAliasAt(line, NextDeAlias(line, from).value.start - 7) == NextDeAlias(line, from)
    ensures forall j :: from <= j && (NextDeAlias(line, from).None? || j < NextDeAlias(line, from).value.start - 7) ==>
      DeAliasAt(line, j).None?
    decreases |line| - from
  {
    if from < |line| && DeAliasAt(line, from).None? {
      NextDeAliasFound(line, from + 1);
    }
  }

  /** The position of the first `}` from `j` on, with only `.` characters before it. */
  function BraceClose(line: string, j: nat): (r: Option<nat>)
    requires j <= |line|
    ensures r.Some? ==> j <= r.value < |line| && line[r.value] == '}'
    decreases |line| - j
  {
    if j < |line| && line[j] == '}' then Some(j)
    else if j < |line| && IsDot(line[j]) then BraceClose(line, j + 1)
    else None
  }

  /** `<open>.+?}` at `i`: the span from the match's start to its closing `}`. */
  function BracedAt(line: string, open: string, i: nat): (r: Option<Span>)
    ensures r.Some? ==> HasAt(line, i, open) && r.value.start == i && i + |open| < r.value.end < |line|
    ensures r.Some? ==> line[r.value.end] == '}'
  {
    if HasAt(line, i, open) && i + |open| < |line| && IsDot(line[i + |open|]) then
      match BraceClose(line, i + |open| + 1)
      case Some(e) => Some(Span(i, e))
      case None => None
    else None
  }

  /** `exec` of `/<open>.+?}/g` from `lastIndex` on. */
  function NextBraced(line: string, open: string, from: nat): (r: Option<Span>)
    ensures r.Some? ==> from <= r.value.start && r.value.start + |open| < r.value.end < |line|
    decreases |line| - from
  {
    if from >= |line| then None
    else match BracedAt(line, open, from)
      case Some(s) => Some(s)
      case None => NextBraced(line, open, from + 1)
  }

  /** What `NextBraced` finds is an `<open>.+?}` match, the first from `from` on. */
  lemma {:induction false} NextBracedFound(line: string, open: string, from: nat)
    ensures NextBraced(line, open, from).Some? ==>
      BracedAt(line, open, NextBraced(line, open, from).value.start) == NextBraced(line, open, from)
    ensures forall j :: from <= j && (NextBraced(line, open, from).None? || j < NextBraced(line, open, from).value.start) ==>
      BracedAt(line, open, j).None?
    decreases |line| - from
  {
    if from < |line| && BracedAt(line, open, from).None? {
      NextBracedFound(line, open, from + 1);
    }
  }

  /** `[a-zA-Z_]` */
  predicate IsIdentifierStart(c: char) { IsLetter(c) || c == '_' }

  /** The characters `(?!\w*["\('])` refuses after a name. */
  predicate IsQuoteOrParen(c: char) { c == '"' || c == '(' || c == '\'' }

  /**
   * `exec` of `/[a-zA-Z_]\w*(?!\w*["\('])/g` from `lastIndex` on. Backtracking
   * `\w*` cannot escape the look-ahead: a name is refused at every position of
   * a word run that a quote or `(` follows.
   */
  function NextVariable(s: string, p: nat): (r: Option<Span>)
    ensures r.Some? ==> p <= r.value.start < r.value.end <= |s|
    decreases |s| - p
  {
    if p >= |s| then None
    else if IsIdentifierStart(s[p]) && !(WordEnd(s, p) < |s| && IsQuoteOrParen(s[WordEnd(s, p)])) then
      Some(Span(p, WordEnd(s, p)))
    else NextVariable(s, p + 1)
  }

  /** What `NextVariable` finds is a whole name that no quote or `(` follows. */
  lemma {:induction false} NextVariableFound(s: string, p: nat)
    requires NextVariable(s, p).Some?
    ensures IsIdentifierStart(s[NextVariable(s, p).value.start])
    ensures NextVariable(s, p).value.end == WordEnd(s, NextVariable(s, p).value.start)
    ensures NextVariable(s, p).value.end == |s| || !IsQuoteOrParen(s[NextVariable(s, p).value.end])
    decreases |s| - p
  {
    if !(IsIdentifierStart(s[p]) && !(WordEnd(s, p) < |s| && IsQuoteOrParen(s[WordEnd(s, p)]))) {
      NextVariableFound(s, p + 1);
    }
  }

  /** Every name `/[a-zA-Z_]\w*(?!\w*["\('])/g` finds from `p` on. */
  function VariablesFrom(s: string, p: nat): (r: seq<Span>)
    ensures forall k :: 0 <= k < |r| ==> r[k].start < r[k].end <= |s|
    decreases |s| - p
  {
    match NextVariable(s, p)
    case None => []
    case Some(v) => [v] + VariablesFrom(s, v.end)
  }

  /** A function call such as `keys(x)` is not a variable name; its argument is. */
  lemma CallIsNotVariable()
    ensures VariablesFrom("f(x)", 0) == [Span(2, 3)]
  {
    var s := "f(x)";
    assert WordEnd(s, 0) == 1;
    assert WordEnd(s, 2) == 3;
    assert NextVariable(s, 0) == NextVariable(s, 1) == NextVariable(s, 2) == Some(Span(2, 3));
    assert NextVariable(s, 3) == None;
  }

  // ---------------------------------------------------------------------------
  // FreeMarker
  // ---------------------------------------------------------------------------

  /** `<#list` or `<#assign` at `i`. */
  predicate DirectiveAt(line: string, i: nat) {
    HasAt(line, i, "<#list") || HasAt(line, i, "<#assign")
  }

  /** `/<#(?:list|assign)/.exec(line)` from `i` on: the leftmost directive. */
  function DirectiveFrom(line: string, i: nat): (r: Option<Span>)
    ensures r.Some? ==> i <= r.value.start && DirectiveAt(line, r.value.start)
    ensures r.Some? ==> r.value.end == r.value.start + (if HasAt(line, r.value.start, "<#list") then 6 else 8)
    ensures forall j :: i <= j && (r.None? || j < r.value.start) ==> !DirectiveAt(line, j)
    decreases |line| - i
  {
    if i >= |line| then None
    else if HasAt(line, i, "<#list") then Some(Span(i, i + 6))
    else if HasAt(line, i, "<#assign") then Some(Span(i, i + 8))
    else DirectiveFrom(line, i + 1)
  }

  /** A FreeMarker `<#list` or `<#assign` directive in the line. */
  function FreemarkerDirective(line: string): (r: Option<Span>)
    ensures r.Some? <==> exists j: nat :: DirectiveAt(line, j)
    ensures r.Some? ==> DirectiveAt(line, r.value.start) && forall j: nat :: j < r.value.start ==> !DirectiveAt(line, j)
  {
    DirectiveFrom(line, 0)
  }

  /**
   * The groups of `(^\s*)<#(?:assign|list\s+(\w+)\s+as)\s+(\w+)` (flag `i`): the
   * listed variable; and, from `(^\s*<#(?:assign|list\s+\w+\s+as)\s+)(\w+)`,
   * which matches the same lines, the length of the first group and the
   * variable the directive introduces.
   */
  datatype FreemarkerAssignment = FreemarkerAssignment(listVariable: Option<string>, prefix: nat, variable: string)

  /** `assign` or `list\s+(\w+)\s+as` at `d`: the listed variable and where the part ends. */
  function DirectiveBody(line: string, d: nat): (r: Option<(Option<string>, nat)>)
    requires d <= |line|
    ensures r.Some? ==> d < r.value.1 <= |line|
    ensures r.Some? && r.value.0.Some? ==> |r.value.0.value| > 0 && IndexOf(line, r.value.0.value).Some?
  {
    if HasAtIgnoreCase(line, d, "assign") then Some((None, d + 6))
    else if HasAtIgnoreCase(line, d, "list") then
      var s := SpacesEnd(line, d + 4);
      var w := WordEnd(line, s);
      var t := SpacesEnd(line, w);
      if s > d + 4 && w > s && t > w && HasAtIgnoreCase(line, t, "as") then
        assert HasAt(line, s, line[s..w]);
        Some((Some(line[s..w]), t + 2))
      else None
    else None
  }

  /** A FreeMarker `<#assign name` or `<#list items as name` line. */
  function FreemarkerAssign(line: string): (r: Option<FreemarkerAssignment>)
    ensures r.Some? ==> DeclaredAt(line, Declaration(0, r.value.prefix, r.value.variable))
    ensures r.Some? && r.value.listVariable.Some? ==>
      |r.value.listVariable.value| > 0 && IndexOf(line, r.value.listVariable.value).Some?
  {
    var b := SpacesEnd(line, 0);
    if HasAt(line, b, "<#") then
      match DirectiveBody(line, b + 2)
      case None => None
      case Some(body) =>
        var v := SpacesEnd(line, body.1);
        var e := WordEnd(line, v);
        if v > body.1 && e > v then
          assert HasAt(line, v, line[v..e]);
          Some(FreemarkerAssignment(body.0, v, line[v..e]))
        else None
    else None
  }

  /** The last `}` in `s[lo..hi]`. */
  function LastBrace(s: string, lo: nat, hi: nat): (r: Option<nat>)
    requires lo <= hi <= |s|
    ensures r.Some? ==> lo <= r.value < hi && s[r.value] == '}' && forall k :: r.value < k < hi ==> s[k] != '}'
    ensures r.None? ==> forall k :: lo <= k < hi ==> s[k] != '}'
    decreases hi - lo
  {
    if lo == hi then None
    else if s[hi - 1] == '}' then Some(hi - 1)
    else LastBrace(s, lo, hi - 1)
  }

  /** `\$\{(\w+).*\}` at `i`: greedy `.*` runs to the last `}` before the line ends. */
  function ExpressionAt(value: string, i: nat): (r: Option<Span>)
    ensures r.Some? ==> r.value.start == i && HasAt(value, i, "${") && i + 2 < r.value.end <= |value|
    ensures r.Some? ==> value[r.value.end - 1] == '}'
  {
    if HasAt(value, i, "${") && WordEnd(value, i + 2) > i + 2 then
      var e := WordEnd(value, i + 2);
      match LastBrace(value, e, DotsEnd(value, e))
      case Some(k) => Some(Span(i, k + 1))
      case None => None
    else None
  }

  /** `/\$\{(\w+).*\}/.exec(value)` from `i` on. */
  function ExpressionFrom(value: string, i: nat): (r: Option<Span>)
    ensures r.Some? ==> i <= r.value.start < r.value.end <= |value|
    ensures r.Some? ==> ExpressionAt(value, r.value.start) == Some(r.value)
    ensures forall j :: i <= j && (r.None? || j < r.value.start) ==> ExpressionAt(value, j).None?
    decreases |value| - i
  {
    if i >= |value| then None
    else match ExpressionAt(value, i)
      case Some(s) => Some(s)
      case None => ExpressionFrom(value, i + 1)
  }

  /** The first FreeMarker `${...}` expression in a setting's value. */
  function FreemarkerExpression(value: string): (r: Option<Span>)
    ensures r.Some? ==> r.value.start < r.value.end <= |value|
    ensures r.Some? ==> HasAt(value, r.value.start, "${") && value[r.value.end - 1] == '}'
  {
    ExpressionFrom(value, 0)
  }

  /** `exec` of `/(\w+)/g` from `lastIndex` on: the next maximal word run. */
  function NextWordRun(s: string, p: nat): (r: Option<Span>)
    ensures r.Some? ==> p <= r.value.start < r.value.end <= |s|
    decreases |s| - p
  {
    if p >= |s| then None
    else if IsWordChar(s[p]) then Some(Span(p, WordEnd(s, p)))
    else NextWordRun(s, p + 1)
  }

  /** `NextWordRun` finds a maximal run of word characters and skips only other characters. */
  lemma {:induction false} NextWordRunFound(s: string, p: nat)
    ensures NextWordRun(s, p).Some? ==> NextWordRun(s, p).value.end == WordEnd(s, NextWordRun(s, p).value.start)
    ensures NextWordRun(s, p).Some? ==> forall k :: p <= k < NextWordRun(s, p).value.start ==> !IsWordChar(s[k])
    ensures NextWordRun(s, p).None? ==> forall k :: p <= k < |s| ==> !IsWordChar(s[k])
    decreases |s| - p
  {
    if p < |s| && !IsWordChar(s[p]) {
      NextWordRunFound(s, p + 1);
    }
  }

  /** `/\d+/.test(w)` */
  predicate HasDigit(w: string) {
    |w| > 0 && (IsDigit(w[0]) || HasDigit(w[1..]))
  }
}

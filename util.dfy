/**
 * The helpers of `server/src/util.ts`: searching the variable and setting
 * collections, counting CSV columns, blanking comments, rewriting scripts and
 * building the diagnostic for a repeated setting.
 */
module Util {
  import opened Wrappers
  import opened Text
  import opened Diagnostics
  import opened Settings
  import Resources

  // ---------------------------------------------------------------------------
  // Collections
  // ---------------------------------------------------------------------------

  /** An element of a map value: a plain value, or a nested list of values (`Map<string, T[][]>`). */
  datatype Item<T> = Value(v: T) | Values(vs: seq<T>)

  /** `item === value`, or the nested list `item` includes `value`. */
  predicate ItemHolds<T(==)>(item: Item<T>, value: T) {
    match item
    case Value(v) => v == value
    case Values(vs) => value in vs
  }

  /** Some list among the map values holds the value, directly or nested. */
  predicate InLists<T(==)>(value: T, lists: seq<seq<Item<T>>>) {
    exists i, j :: 0 <= i < |lists| && 0 <= j < |lists[i]| && ItemHolds(lists[i][j], value)
  }

  /** Map values that hold plain values only (`Map<string, T[]>`). */
  function Plain<T>(lists: seq<seq<T>>): (r: seq<seq<Item<T>>>)
    ensures |r| == |lists|
    ensures forall i :: 0 <= i < |r| ==> |r[i]| == |lists[i]|
    ensures forall i, j :: 0 <= i < |r| && 0 <= j < |r[i]| ==> r[i][j] == Value(lists[i][j])
  {
    seq(|lists|, i requires 0 <= i < |lists| => seq(|lists[i]|, j requires 0 <= j < |lists[i]| => Value(lists[i][j])))
  }

  /**
   * `isInMap`: false for an undefined value; otherwise whether some value
   * list of the map holds it. The map is given by its value lists.
   */
  method IsInMap<T(==)>(value: Option<T>, lists: seq<seq<Item<T>>>) returns (found: bool)
    ensures found <==> value.Some? && InLists(value.value, lists)
  {
    if value.None? {
      return false;
    }
    for i := 0 to |lists|
      invariant forall i', j :: 0 <= i' < i && 0 <= j < |lists[i']| ==> !ItemHolds(lists[i'][j], value.value)
    {
      for j := 0 to |lists[i]|
        invariant forall j' :: 0 <= j' < j ==> !ItemHolds(lists[i][j'], value.value)
      {
        if ItemHolds(lists[i][j], value.value) {
          return true;
        }
      }
    }
    return false;
  }

  /** On plain value lists, being in the map is being in one of the lists. */
  lemma InPlainLists<T>(value: T, lists: seq<seq<T>>)
    ensures InLists(value, Plain(lists)) <==> exists i :: 0 <= i < |lists| && value in lists[i]
  {
    if InLists(value, Plain(lists)) {
      var i, j :| 0 <= i < |lists| && 0 <= j < |lists[i]| && ItemHolds(Plain(lists)[i][j], value);
      assert value in lists[i];
    }
    if exists i :: 0 <= i < |lists| && value in lists[i] {
      var i :| 0 <= i < |lists| && value in lists[i];
      var j :| 0 <= j < |lists[i]| && lists[i][j] == value;
      assert ItemHolds(Plain(lists)[i][j], value);
    }
  }

  /** Some element of `target` is in `among`. */
  predicate AnyIn<T(==)>(target: seq<T>, among: seq<T>) {
    exists k :: 0 <= k < |target| && target[k] in among
  }

  /** `isAnyInArray`: whether `target` has an element that `among` includes. */
  method IsAnyInArray<T(==)>(target: seq<T>, among: seq<T>) returns (found: bool)
    ensures found <==> AnyIn(target, among)
  {
    for k := 0 to |target|
      invariant forall k' :: 0 <= k' < k ==> target[k'] !in among
    {
      if target[k] in among {
        return true;
      }
    }
    return false;
  }

  /** Sharing an element does not depend on which list is searched. */
  lemma AnyInSymmetric<T>(a: seq<T>, b: seq<T>)
    ensures AnyIn(a, b) <==> AnyIn(b, a)
  {
    if AnyIn(a, b) {
      var k :| 0 <= k < |a| && a[k] in b;
      var m :| 0 <= m < |b| && b[m] == a[k];
      assert b[m] in a;
    }
    if AnyIn(b, a) {
      var k :| 0 <= k < |b| && b[k] in a;
      var m :| 0 <= m < |a| && a[m] == b[k];
      assert a[m] in b;
    }
  }

  /** `getSetting`: the dictionary entry of the canonical form of `name`. */
  function GetSetting(d: Resources.Dictionary, name: string): (r: Option<Setting>)
    ensures r.Some? <==> ClearSetting(name) in d
    ensures r.Some? ==> r.value == d[ClearSetting(name)]
  {
    var cleared := ClearSetting(name);
    if cleared in d then Some(d[cleared]) else None
  }

  /**
   * Spelling, case and punctuation do not change the setting found: the
   * canonical name finds the same entry, and in a dictionary keyed by
   * canonical names the entry found carries that name.
   */
  lemma GetSettingCanonical(d: Resources.Dictionary, name: string)
    ensures GetSetting(d, ClearSetting(name)) == GetSetting(d, name)
    ensures (forall k :: k in d ==> d[k].name == k) && GetSetting(d, name).Some?
      ==> GetSetting(d, name).value.name == ClearSetting(name)
  {
    ClearSettingIdempotent(name);
  }

  // ---------------------------------------------------------------------------
  // isEmpty
  // ---------------------------------------------------------------------------

  /** `isEmpty`: `/^\s*$/` matches, that is the run of whitespace reaches the end. */
  function IsEmpty(s: string): (r: bool)
    ensures r <==> AllSpace(s)
  {
    var e := SpacesEnd(s, 0);
    assert s[0..e] == s[..e];
    e == |s|
  }

  /** A string is empty in this sense exactly when trimming leaves nothing. */
  lemma IsEmptyIffTrimEmpty(s: string)
    ensures IsEmpty(s) <==> Trim(s) == []
  {
    TrimEmptyIffAllSpace(s);
  }

  // ---------------------------------------------------------------------------
  // repetitionDiagnostic
  // ---------------------------------------------------------------------------

  const MultiLineScriptMessage: string :=
    "Multi-line scripts are deprecated.\nGroup multiple scripts into blocks:\nscript\nendscript"
  const ThresholdsMessage: string :=
    "Replace multiple `thresholds` settings with one, for example:\nthresholds = 0\nthresholds = 60\nthresholds = 80\n\nthresholds = 0, 60, 80"
  const ColorsMessage: string :=
    "Replace multiple `colors` settings with one, for example:\ncolors = red\ncolors = yellow\ncolors = green\n\ncolors = red, yellow, green"

  /**
   * `repetitionDiagnostic`: a Warning with a fixed advice for the settings
   * that used to be multi-line, an Error naming the setting as written otherwise.
   */
  function RepetitionDiagnostic(range: Range, variable: Setting, name: string): (d: Diagnostic)
    ensures d.range == range && FromChecker(d)
    ensures d.severity == Warning <==> variable.name in {"script", "thresholds", "colors"}
    ensures d.severity == Error <==> variable.name !in {"script", "thresholds", "colors"}
    ensures variable.name == "script" ==> d.message == MultiLineScriptMessage
    ensures variable.name == "thresholds" ==> d.message == ThresholdsMessage
    ensures variable.name == "colors" ==> d.message == ColorsMessage
    ensures variable.name !in {"script", "thresholds", "colors"} ==> d.message == name + " is already defined"
  {
    var severity := if variable.name in ["script", "thresholds", "colors"] then Warning else Error;
    var message :=
      match variable.name
      case "script" => MultiLineScriptMessage
      case "thresholds" => ThresholdsMessage
      case "colors" => ColorsMessage
      case _ => name + " is already defined";
    CreateDiagnostic(range, severity, message)
  }

  // ---------------------------------------------------------------------------
  // countCsvColumns
  // ---------------------------------------------------------------------------

  /** The characters `[^, \t]` excludes. */
  predicate IsSeparator(c: char) { c == ',' || c == ' ' || c == '\t' }

  predicate IsQuote(c: char) { c == '\'' || c == '"' }

  /** The last position in `[lo, hi)` holding `c`. */
  function LastIndexIn(s: string, c: char, lo: nat, hi: nat): (r: Option<nat>)
    requires hi <= |s|
    ensures r.Some? ==> lo <= r.value < hi && s[r.value] == c
    ensures r.Some? ==> forall k :: r.value < k < hi ==> s[k] != c
    ensures r.None? ==> forall k :: lo <= k < hi ==> s[k] != c
    decreases hi
  {
    if hi <= lo then None
    else if s[hi - 1] == c then Some(hi - 1)
    else LastIndexIn(s, c, lo, hi - 1)
  }

  /** End of the maximal run of `[^, \t]` starting at `i`. */
  function CellRunEnd(s: string, i: nat): (e: nat)
    requires i <= |s|
    ensures i <= e <= |s|
    ensures forall k :: i <= k < e ==> !IsSeparator(s[k])
    ensures e < |s| ==> IsSeparator(s[e])
    decreases |s| - i
  {
    if i < |s| && !IsSeparator(s[i]) then CellRunEnd(s, i + 1) else i
  }

  /**
   * End of the match of `(['"]).+\1|[^, \t]+` at a non-separator `i`: a quote
   * runs greedily to the last same quote before the line ends, at least two
   * characters on; otherwise, or when there is none, the run of non-separators.
   */
  function CellEnd(s: string, i: nat): (e: nat)
    requires i < |s| && !IsSeparator(s[i])
    ensures i < e <= |s|
  {
    var closing := if IsQuote(s[i]) then LastIndexIn(s, s[i], i + 2, DotsEnd(s, i + 1)) else None;
    if closing.Some? then closing.value + 1 else CellRunEnd(s, i)
  }

  /** The first position at or after `p` that is not a separator. */
  function FirstCell(s: string, p: nat): (r: Option<nat>)
    requires p <= |s|
    ensures r.Some? ==> p <= r.value < |s| && !IsSeparator(s[r.value])
    ensures r.Some? ==> forall k :: p <= k < r.value ==> IsSeparator(s[k])
    ensures r.None? ==> forall k :: p <= k < |s| ==> IsSeparator(s[k])
    decreases |s| - p
  {
    if p == |s| then None
    else if !IsSeparator(s[p]) then Some(p)
    else FirstCell(s, p + 1)
  }

  /** One `exec` of the global column pattern from `lastIndex = p`: where the match ends. */
  function NextCell(s: string, p: nat): (r: Option<nat>)
    requires p <= |s|
    ensures r.Some? ==> p < r.value <= |s|
  {
    match FirstCell(s, p)
    case None => None
    case Some(i) => Some(CellEnd(s, i))
  }

  /** The number of matches the global pattern finds from `p` on. */
  function CellsFrom(s: string, p: nat): nat
    requires p <= |s|
    decreases |s| - p
  {
    match NextCell(s, p)
    case None => 0
    case Some(e) => 1 + CellsFrom(s, e)
  }

  /** `countCsvColumns`: the number of matches of the column pattern in the line. */
  method CountCsvColumns(line: string) returns (counter: nat)
    ensures counter == CellsFrom(line, 0)
  {
    if |line| == 0 {
      return 0;
    }
    counter := 0;
    var lastIndex := 0;
    var found := NextCell(line, lastIndex);
    while found.Some?
      invariant lastIndex <= |line| && found == NextCell(line, lastIndex)
      invariant counter + CellsFrom(line, lastIndex) == CellsFrom(line, 0)
      decreases |line| - lastIndex
    {
      counter := counter + 1;
      lastIndex := found.value;
      found := NextCell(line, lastIndex);
    }
  }

  /** Where a maximal run of non-separators starts. */
  predicate IsRunStart(s: string, k: nat)
    requires k < |s|
  {
    !IsSeparator(s[k]) && (k == 0 || IsSeparator(s[k - 1]))
  }

  /** The number of maximal runs of non-separators that start at or after `p`. */
  function RunStarts(s: string, p: nat): nat
    requires p <= |s|
    decreases |s| - p
  {
    if p == |s| then 0 else (if IsRunStart(s, p) then 1 else 0) + RunStarts(s, p + 1)
  }

  /** Separators start no run. */
  lemma {:induction false} SkipSeparators(s: string, p: nat, i: nat)
    requires p <= i <= |s| && forall k :: p <= k < i ==> IsSeparator(s[k])
    ensures RunStarts(s, p) == RunStarts(s, i)
    decreases i - p
  {
    if p < i {
      SkipSeparators(s, p + 1, i);
    }
  }

  /** Inside a run no new run starts. */
  lemma {:induction false} SkipRun(s: string, p: nat, e: nat)
    requires 0 < p <= e <= |s| && forall k :: p - 1 <= k < e ==> !IsSeparator(s[k])
    ensures RunStarts(s, p) == RunStarts(s, e)
    decreases e - p
  {
    if p < e {
      SkipRun(s, p + 1, e);
    }
  }

  /** Without quotes the pattern counts the maximal runs of non-separators from `p` on. */
  lemma {:induction false} CellsAreRuns(s: string, p: nat)
    requires forall k :: 0 <= k < |s| ==> !IsQuote(s[k])
    requires p <= |s| && (p == 0 || p == |s| || IsSeparator(s[p - 1]) || IsSeparator(s[p]))
    ensures CellsFrom(s, p) == RunStarts(s, p)
    decreases |s| - p
  {
    match FirstCell(s, p)
    case None =>
      SkipSeparators(s, p, |s|);
    case Some(i) =>
      SkipSeparators(s, p, i);
      var e := CellRunEnd(s, i);
      assert CellEnd(s, i) == e;
      assert IsRunStart(s, i);
      SkipRun(s, i + 1, e);
      CellsAreRuns(s, e);
  }

  /** `countCsvColumns` of a quote-free line is its number of maximal runs of characters other than comma, space and tab. */
  lemma QuoteFreeColumns(s: string)
    requires forall k :: 0 <= k < |s| ==> !IsQuote(s[k])
    ensures CellsFrom(s, 0) == RunStarts(s, 0)
  {
    CellsAreRuns(s, 0);
  }

  /** The empty line has no columns. */
  lemma EmptyLineNoColumns()
    ensures CellsFrom("", 0) == 0
  {}

  // ---------------------------------------------------------------------------
  // deleteComments
  // ---------------------------------------------------------------------------

  /**
   * One `exec` of the global block-comment pattern from `lastIndex = from`:
   * the lazy pattern matches at the leftmost opener from `from` on, up to the
   * nearest closer after it. When that opener has no closer, no later opener
   * has one either, so there is no match.
   */
  function BlockComment(s: string, from: nat): (r: Option<(nat, nat)>)
    ensures r.Some? ==> from <= r.value.0 && r.value.0 + 4 <= r.value.1 <= |s|
  {
    match IndexFrom(s, "/*", from)
    case None => None
    case Some(q) =>
      match IndexFrom(s, "*/", q + 2)
      case None => None
      case Some(c) => Some((q, c + 2))
  }

  /**
   * What a block-comment match is: it starts at the leftmost opener from
   * `from` on and ends just after a closer; when there is none, no opener
   * from `from` on is followed by a closer.
   */
  lemma BlockCommentMatch(s: string, from: nat)
    ensures var r := BlockComment(s, from);
      r.Some? ==>
        && HasAt(s, r.value.0, "/*") && HasAt(s, r.value.1 - 2, "*/")
        && forall p :: from <= p < r.value.0 ==> !HasAt(s, p, "/*")
    ensures BlockComment(s, from).None? ==>
      forall p, j :: from <= p && p + 2 <= j <= |s| && HasAt(s, p, "/*") ==> !HasAt(s, j, "*/")
  {
    IndexFromMatch(s, "/*", from);
    if IndexFrom(s, "/*", from).Some? {
      IndexFromMatch(s, "*/", IndexFrom(s, "/*", from).value + 2);
    }
  }

  /** Position `p` starts a line whose first non-blank character is `#`. */
  predicate CommentAt(s: string, p: nat) {
    LineStartM(s, p) && BlanksEnd(s, p) < |s| && s[BlanksEnd(s, p)] == '#'
  }

  /** The end of the comment line starting at `p`: its line terminator, or the end of `s`. */
  function CommentEnd(s: string, p: nat): (e: nat)
    requires CommentAt(s, p)
    ensures p < e <= |s| && (e < |s| ==> IsLineTerminator(s[e]))
    ensures forall k :: p <= k < e ==> IsDot(s[k])
  {
    var b := BlanksEnd(s, p);
    assert forall k :: p <= k < b ==> IsBlank(s[k]) by {
      forall k | p <= k < b ensures IsBlank(s[k]) { assert IsBlank(s[p..b][k - p]); }
    }
    DotsEnd(s, b + 1)
  }

  /** Position `k` lies in a `#` comment line of `s` that starts at or after `from`. */
  predicate InComment(s: string, from: nat, k: nat) {
    exists p: nat :: from <= p <= k && CommentAt(s, p) && k < CommentEnd(s, p)
  }

  /**
   * One `exec` of `/^[ \t]*#.*` + `/mg` from `lastIndex = from`: the first
   * line at or after `from` whose first non-blank character is `#`, from the
   * line start to its end.
   */
  function LineComment(s: string, from: nat): (r: Option<(nat, nat)>)
    requires from <= |s|
    ensures r.Some? ==> from <= r.value.0 && CommentAt(s, r.value.0) && r.value.1 == CommentEnd(s, r.value.0)
    ensures r.Some? ==> AllDot(s[r.value.0..r.value.1])
    ensures r.Some? ==> forall p: nat :: from <= p < r.value.0 ==> !CommentAt(s, p)
    ensures r.None? ==> forall p: nat :: from <= p ==> !CommentAt(s, p)
    decreases |s| - from
  {
    if from == |s| then None
    else if CommentAt(s, from) then
      var e := CommentEnd(s, from);
      assert AllDot(s[from..e]) by {
        forall k | 0 <= k < e - from ensures IsDot(s[from..e][k]) { assert s[from..e][k] == s[from + k]; }
      }
      Some((from, e))
    else LineComment(s, from + 1)
  }

  /** What replaces a comment: a space per character, then its line feeds. */
  function Blanked(m: string): (r: string)
    ensures |r| == |m| + Occurrences(m, '\n')
    ensures Occurrences(r, '\n') == Occurrences(m, '\n')
  {
    RepeatOccurrences(' ', |m|, '\n');
    RepeatOccurrences('\n', Occurrences(m, '\n'), '\n');
    OccurrencesAppend(Repeat(' ', |m|), Repeat('\n', Occurrences(m, '\n')), '\n');
    Repeat(' ', |m|) + Repeat('\n', Occurrences(m, '\n'))
  }

  /** A comment within one line becomes as many spaces as it has characters. */
  lemma BlankedLine(m: string)
    requires AllDot(m)
    ensures Blanked(m) == Repeat(' ', |m|)
  {
    NoTerminatorNoLineFeed(m);
    assert Repeat('\n', 0) == [];
  }

  lemma {:induction false} RepeatOccurrences(c: char, n: nat, x: char)
    ensures Occurrences(Repeat(c, n), x) == if c == x then n else 0
  {
    if n > 0 {
      assert Repeat(c, n)[1..] == Repeat(c, n - 1);
      RepeatOccurrences(c, n - 1, x);
    }
  }

  lemma {:induction false} NoTerminatorNoLineFeed(m: string)
    requires AllDot(m)
    ensures Occurrences(m, '\n') == 0
  {
    if m != [] {
      assert AllDot(m[1..]) by { assert forall k :: 0 <= k < |m| - 1 ==> m[1..][k] == m[k + 1]; }
      NoTerminatorNoLineFeed(m[1..]);
    }
  }

  /** `content` with `[i, e)` replaced by its blanked form. */
  function Splice(content: string, i: nat, e: nat): (r: string)
    requires i <= e <= |content|
    ensures Occurrences(r, '\n') == Occurrences(content, '\n')
    ensures |r| == |content| + Occurrences(content[i..e], '\n')
  {
    var m := content[i..e];
    assert content == content[..i] + m + content[e..];
    OccurrencesAppend(content[..i] + m, content[e..], '\n');
    OccurrencesAppend(content[..i], m, '\n');
    OccurrencesAppend(content[..i] + Blanked(m), content[e..], '\n');
    OccurrencesAppend(content[..i], Blanked(m), '\n');
    RepeatOccurrences('\n', Occurrences(m, '\n'), '\n');
    content[..i] + Blanked(m) + content[e..]
  }

  /** Without a block comment before `from` and none from `from`, there is none at all. */
  lemma {:induction false} NoBlockBefore(s: string, from: nat)
    requires from <= |s| && BlockComment(s, from).None?
    requires forall p: nat :: p < from ==> !HasAt(s, p, "/*")
    ensures BlockComment(s, 0).None?
    decreases from
  {
    if from > 0 {
      assert BlockComment(s, from - 1) == BlockComment(s, from);
      NoBlockBefore(s, from - 1);
    }
  }

  /** Turning characters into spaces never creates a block comment. */
  lemma SpacesCreateNoBlock(s: string, t: string)
    requires |t| == |s| && forall k :: 0 <= k < |s| ==> t[k] == s[k] || t[k] == ' '
    requires BlockComment(s, 0).None?
    ensures BlockComment(t, 0).None?
  {
    var r := BlockComment(t, 0);
    BlockCommentMatch(s, 0);
    BlockCommentMatch(t, 0);
    if r.Some? {
      var p, e := r.value.0, r.value.1;
      KeptPair(s, t, p, "/*");
      KeptPair(s, t, e - 2, "*/");
    }
  }

  /** Two characters that are not spaces survive blanking only where they were. */
  lemma KeptPair(s: string, t: string, p: nat, x: string)
    requires |t| == |s| && forall k :: 0 <= k < |s| ==> t[k] == s[k] || t[k] == ' '
    requires |x| == 2 && x[0] != ' ' && x[1] != ' ' && HasAt(t, p, x)
    ensures HasAt(s, p, x)
  {
    assert t[p] == x[0] && t[p + 1] == x[1];
    assert s[p..p + 2] == x;
  }

  /** Blanking a block comment leaves no comment opener before the end of its blanked form. */
  lemma BlockStep(before: string, i: nat, e: nat)
    requires i < e <= |before| && forall p: nat :: p < i ==> !HasAt(before, p, "/*")
    ensures var k := Occurrences(before[i..e], '\n');
      forall p: nat :: p < e + k ==> !HasAt(Splice(before, i, e), p, "/*")
  {
    var content := Splice(before, i, e);
    var k := Occurrences(before[i..e], '\n');
    assert forall q :: 0 <= q < i ==> content[q] == before[q];
    assert forall q :: i <= q < e ==> content[q] == ' ';
    assert forall q :: e <= q < e + k ==> content[q] == '\n';
    forall p: nat | p < e + k ensures !HasAt(content, p, "/*") {
      if p + 1 < i {
        assert content[p] == before[p] && content[p + 1] == before[p + 1];
        assert !HasAt(before, p, "/*");
      } else if p + 1 == i {
        assert content[p + 1] == ' ';
      } else {
        assert content[p] == ' ' || content[p] == '\n';
      }
    }
  }

  /**
   * The block-comment passes of `deleteComments` as one global replacement:
   * from `from` on, the text between comments is kept in order and every
   * comment becomes its blanked form. The comments are the successive
   * matches of the pattern in `s` itself.
   */
  function BlocksBlanked(s: string, from: nat): string
    requires from <= |s|
    decreases |s| - from
  {
    match BlockComment(s, from)
    case None => s[from..]
    case Some((i, e)) => s[from..i] + Blanked(s[i..e]) + BlocksBlanked(s, e)
  }

  /** `t` is `s` from `p` on, moved `d` positions to the right. */
  predicate ShiftedFrom(s: string, t: string, p: nat, d: nat)
    decreases |s| - p
  {
    p <= |s| && |t| == |s| + d && (p < |s| ==> t[p + d] == s[p] && ShiftedFrom(s, t, p + 1, d))
  }

  /** Each character of `s` from `p` on sits `d` positions further in `t`. */
  lemma {:induction false} ShiftedAt(s: string, t: string, p: nat, d: nat, j: nat)
    requires ShiftedFrom(s, t, p, d) && p <= j < |s|
    ensures t[j + d] == s[j]
    decreases j - p
  {
    if p < j {
      ShiftedAt(s, t, p + 1, d, j);
    }
  }

  /** `t` holds the characters of `s` from `p` on, `d` positions further. */
  lemma {:induction false} ShiftedIntro(s: string, t: string, p: nat, d: nat)
    requires p <= |s| && |t| == |s| + d && forall j :: p <= j < |s| ==> t[j + d] == s[j]
    ensures ShiftedFrom(s, t, p, d)
    decreases |s| - p
  {
    if p < |s| {
      ShiftedIntro(s, t, p + 1, d);
    }
  }

  /** A position found in the moved text is the one found in `s`, moved. */
  function ShiftPos(r: Option<nat>, d: nat): Option<nat> {
    match r
    case None => None
    case Some(i) => Some(i + d)
  }

  /** A match found in the moved text is the one found in `s`, moved. */
  function ShiftSpan(r: Option<(nat, nat)>, d: nat): Option<(nat, nat)> {
    match r
    case None => None
    case Some((i, e)) => Some((i + d, e + d))
  }

  lemma HasAtShift(s: string, t: string, p: nat, d: nat, j: nat, x: string)
    requires ShiftedFrom(s, t, p, d) && p <= j
    ensures HasAt(t, j + d, x) <==> HasAt(s, j, x)
  {
    if j + |x| <= |s| {
      var a, b := t[j + d..j + d + |x|], s[j..j + |x|];
      forall k | 0 <= k < |x| ensures a[k] == b[k] {
        ShiftedAt(s, t, p, d, j + k);
      }
    }
  }

  lemma {:induction false} IndexFromShift(s: string, t: string, p: nat, d: nat, j: nat, x: string)
    requires ShiftedFrom(s, t, p, d) && p <= j <= |s| + 1
    ensures IndexFrom(t, x, j + d) == ShiftPos(IndexFrom(s, x, j), d)
    decreases |s| + 1 - j
  {
    if j <= |s| {
      HasAtShift(s, t, p, d, j, x);
      if !HasAt(s, j, x) {
        IndexFromShift(s, t, p, d, j + 1, x);
      }
    }
  }

  /** The block comment found from `j` in the moved text is the one found from `j` in `s`, moved. */
  lemma BlockCommentShift(s: string, t: string, p: nat, d: nat, j: nat)
    requires ShiftedFrom(s, t, p, d) && p <= j <= |s|
    ensures BlockComment(t, j + d) == ShiftSpan(BlockComment(s, j), d)
  {
    IndexFromShift(s, t, p, d, j, "/*");
    match IndexFrom(s, "/*", j)
    case None =>
    case Some(q) =>
      IndexFromShift(s, t, p, d, q + 2, "*/");
  }

  /** Line feeds never start a block comment, so the search skips them. */
  lemma {:induction false} SkipLineFeeds(t: string, from: nat, k: nat)
    requires from + k <= |t| && forall q :: from <= q < from + k ==> t[q] == '\n'
    ensures BlockComment(t, from) == BlockComment(t, from + k)
    decreases k
  {
    if k > 0 {
      assert !HasAt(t, from, "/*") by {
        if from + 2 <= |t| {
          assert t[from..from + 2][0] == '\n';
        }
      }
      assert IndexFrom(t, "/*", from) == IndexFrom(t, "/*", from + 1);
      SkipLineFeeds(t, from + 1, k - 1);
    }
  }

  /** Without a comment from `from` on, the rest is kept. */
  lemma BlocksBlankedEnd(s: string, from: nat)
    requires from <= |s| && BlockComment(s, from).None?
    ensures BlocksBlanked(s, from) == s[from..]
  {
  }

  /** The comment found from `from` is blanked and the replacement goes on after it. */
  lemma BlocksBlankedStep(s: string, from: nat, i: nat, e: nat)
    requires from <= |s| && BlockComment(s, from) == Some((i, e))
    ensures BlocksBlanked(s, from) == s[from..i] + Blanked(s[i..e]) + BlocksBlanked(s, e)
  {
  }

  /**
   * What the replacement keeps: the text up to the leftmost comment opener,
   * then as many spaces as the comment has characters and as many line feeds
   * as it holds, then the replacement of the text after the comment; when no
   * opener is followed by a closer, the rest of the text unchanged.
   */
  lemma BlocksBlankedMeaning(s: string, from: nat)
    requires from <= |s|
    ensures BlockComment(s, from).None? ==>
      && BlocksBlanked(s, from) == s[from..]
      && forall p, j :: from <= p && p + 2 <= j <= |s| && HasAt(s, p, "/*") ==> !HasAt(s, j, "*/")
    ensures BlockComment(s, from).Some? ==>
      var (i, e) := BlockComment(s, from).value;
      && from <= i && HasAt(s, i, "/*") && HasAt(s, e - 2, "*/")
      && (forall p :: from <= p < i ==> !HasAt(s, p, "/*"))
      && BlocksBlanked(s, from) == s[from..i] + Repeat(' ', e - i) + Repeat('\n', Occurrences(s[i..e], '\n')) + BlocksBlanked(s, e)
  {
    BlockCommentMatch(s, from);
    match BlockComment(s, from)
    case None =>
      BlocksBlankedEnd(s, from);
    case Some((i, e)) =>
      BlocksBlankedStep(s, from, i, e);
      var sp, lf := Repeat(' ', e - i), Repeat('\n', Occurrences(s[i..e], '\n'));
      assert Blanked(s[i..e]) == sp + lf;
      SplitFront(s[from..i] + Blanked(s[i..e]), s[from..i] + sp, lf, BlocksBlanked(s, e), []);
      assert s[from..i] + Blanked(s[i..e]) + BlocksBlanked(s, e) == s[from..i] + sp + lf + BlocksBlanked(s, e);
  }

  /** Without a slash from `from` on there is no opener. */
  lemma {:induction false} NoSlashNoOpener(s: string, from: nat)
    requires forall k :: from <= k < |s| ==> s[k] != '/'
    ensures IndexFrom(s, "/*", from).None?
    decreases |s| + 1 - from
  {
    if from <= |s| {
      assert !HasAt(s, from, "/*") by {
        if from + 2 <= |s| {
          assert s[from..from + 2][0] == s[from];
        }
      }
      NoSlashNoOpener(s, from + 1);
    }
  }

  /** A leading block comment becomes spaces and the setting after it is kept. */
  lemma LeadingBlockComment()
    ensures BlocksBlanked("/**/ x = 1", 0) == "     x = 1"
  {
    var s := "/**/ x = 1";
    assert HasAt(s, 0, "/*") && IndexFrom(s, "/*", 0) == Some(0);
    assert HasAt(s, 2, "*/") && IndexFrom(s, "*/", 2) == Some(2);
    NoSlashNoOpener(s, 4);
    BlocksBlankedStep(s, 0, 0, 4);
    BlocksBlankedEnd(s, 4);
    assert Blanked(s[0..4]) == "    ";
  }

  /** The replacement keeps every line feed, so line numbers do not change. */
  lemma {:induction false} BlocksBlankedLineFeeds(s: string, from: nat)
    requires from <= |s|
    ensures Occurrences(BlocksBlanked(s, from), '\n') == Occurrences(s[from..], '\n')
    decreases |s| - from
  {
    match BlockComment(s, from)
    case None =>
      BlocksBlankedEnd(s, from);
    case Some((i, e)) =>
      BlocksBlankedStep(s, from, i, e);
      BlocksBlankedLineFeeds(s, e);
      OccurrencesAppend(s[from..i] + Blanked(s[i..e]), BlocksBlanked(s, e), '\n');
      OccurrencesAppend(s[from..i], Blanked(s[i..e]), '\n');
      assert s[from..] == s[from..i] + s[i..e] + s[e..];
      OccurrencesAppend(s[from..i] + s[i..e], s[e..], '\n');
      OccurrencesAppend(s[from..i], s[i..e], '\n');
  }

  /** A piece of `s` from `p` on is the same piece of the moved text. */
  lemma SliceShift(s: string, t: string, p: nat, d: nat, a: nat, b: nat)
    requires ShiftedFrom(s, t, p, d) && p <= a <= b <= |s|
    ensures t[a + d..b + d] == s[a..b]
  {
    var x, y := t[a + d..b + d], s[a..b];
    forall k | 0 <= k < b - a ensures x[k] == y[k] {
      ShiftedAt(s, t, p, d, a + k);
    }
  }

  /** The global replacement from `j` depends only on the text from `j` on. */
  lemma {:induction false} BlocksBlankedShift(s: string, t: string, p: nat, d: nat, j: nat)
    requires ShiftedFrom(s, t, p, d) && p <= j <= |s|
    ensures BlocksBlanked(t, j + d) == BlocksBlanked(s, j)
    decreases |s| - j
  {
    BlockCommentShift(s, t, p, d, j);
    match BlockComment(s, j)
    case None =>
      BlocksBlankedEnd(s, j);
      BlocksBlankedEnd(t, j + d);
      SliceShift(s, t, p, d, j, |s|);
      assert t[j + d..] == t[j + d..|s| + d];
    case Some((i, e)) =>
      BlocksBlankedShift(s, t, p, d, e);
      BlocksBlankedShiftStep(s, t, p, d, j, i, e);
  }

  /** One step of `BlocksBlankedShift`: the comment found from `j` and the rest after it. */
  lemma BlocksBlankedShiftStep(s: string, t: string, p: nat, d: nat, j: nat, i: nat, e: nat)
    requires ShiftedFrom(s, t, p, d) && p <= j <= |s|
    requires BlockComment(s, j) == Some((i, e)) && BlockComment(t, j + d) == Some((i + d, e + d))
    requires BlocksBlanked(t, e + d) == BlocksBlanked(s, e)
    ensures BlocksBlanked(t, j + d) == BlocksBlanked(s, j)
  {
    BlocksBlankedStep(s, j, i, e);
    BlocksBlankedStep(t, j + d, i + d, e + d);
    SliceShift(s, t, p, d, j, i);
    SliceShift(s, t, p, d, i, e);
    BlocksBlankedJoin(BlocksBlanked(t, j + d), BlocksBlanked(s, j), t[j + d..i + d], s[j..i],
      t[i + d..e + d], s[i..e], BlocksBlanked(t, e + d), BlocksBlanked(s, e));
  }

  /** Equal pieces make equal replacements. */
  lemma BlocksBlankedJoin(bt: string, bs: string, a1: string, a2: string, m1: string, m2: string, r1: string, r2: string)
    requires bt == a1 + Blanked(m1) + r1
    requires bs == a2 + Blanked(m2) + r2
    requires a1 == a2
    requires m1 == m2
    requires r1 == r2
    ensures bt == bs
  {
  }

  /**
   * What the block passes of `deleteComments` keep: the text before `from`
   * followed by the replacement from `from` is the replacement of the
   * original text.
   */
  ghost predicate BlocksPhase(content: string, from: nat, goal: string) {
    from <= |content| && content[..from] + BlocksBlanked(content, from) == goal
  }

  /** When the search from `a` and from `b` agree, the replacement from `a` keeps `s[a..b]` and goes on from `b`. */
  lemma BlocksBlankedSkip(s: string, a: nat, b: nat)
    requires a <= b <= |s| && BlockComment(s, a) == BlockComment(s, b)
    ensures BlocksBlanked(s, a) == s[a..b] + BlocksBlanked(s, b)
  {
    match BlockComment(s, a)
    case None =>
      BlocksBlankedEnd(s, a);
      BlocksBlankedEnd(s, b);
      SliceSplit(s, a, b, |s|);
      assert s[a..] == s[a..|s|] && s[b..] == s[b..|s|];
    case Some((i, e)) =>
      BlocksBlankedStep(s, a, i, e);
      BlocksBlankedStep(s, b, i, e);
      SliceSplit(s, a, b, i);
      SplitFront(s[a..i], s[a..b], s[b..i], Blanked(s[i..e]), BlocksBlanked(s, e));
  }

  /** Two adjacent pieces of `s` make the piece they span. */
  lemma SliceSplit(s: string, a: nat, b: nat, c: nat)
    requires a <= b <= c <= |s|
    ensures s[a..c] == s[a..b] + s[b..c]
  {
  }

  /** Splitting the front piece of a concatenation. */
  lemma SplitFront(w: string, u: string, v: string, x: string, y: string)
    requires w == u + v
    ensures w + x + y == u + (v + x + y)
  {
  }

  /** Splicing a comment out leaves the text before it, then spaces, then its line feeds, then the text after it. */
  lemma SplicedParts(content: string, i: nat, e: nat)
    requires i <= e <= |content|
    ensures var t, k := Splice(content, i, e), Occurrences(content[i..e], '\n');
      && t[..e] == content[..i] + Repeat(' ', e - i)
      && t[e..e + k] == Repeat('\n', k)
      && t[e + k..] == content[e..]
  {
    var m := content[i..e];
    var k := Occurrences(m, '\n');
    var t := Splice(content, i, e);
    assert t == (content[..i] + Repeat(' ', e - i)) + Repeat('\n', k) + content[e..];
  }

  /** Line feeds put in front of the text from `e` on are kept, and the replacement goes on as in the text itself. */
  lemma LineFeedsThenRest(content: string, t: string, e: nat, k: nat)
    requires e <= |content| && |t| == |content| + k
    requires t[e..e + k] == Repeat('\n', k) && t[e + k..] == content[e..]
    ensures BlocksBlanked(t, e) == Repeat('\n', k) + BlocksBlanked(content, e)
  {
    forall q | e <= q < e + k ensures t[q] == '\n' {
      assert t[q] == t[e..e + k][q - e];
    }
    SkipLineFeeds(t, e, k);
    BlocksBlankedSkip(t, e, e + k);
    forall j | e <= j < |content| ensures t[j + k] == content[j] {
      assert t[j + k] == t[e + k..][j - e];
    }
    ShiftedIntro(content, t, e, k);
    BlocksBlankedShift(content, t, e, k, e);
  }

  /** After the splice, the replacement from the comment's old end is its line feeds, then the replacement of the text after it. */
  lemma SplicedRest(content: string, i: nat, e: nat)
    requires i <= e <= |content|
    ensures BlocksBlanked(Splice(content, i, e), e) == Repeat('\n', Occurrences(content[i..e], '\n')) + BlocksBlanked(content, e)
  {
    SplicedParts(content, i, e);
    LineFeedsThenRest(content, Splice(content, i, e), e, Occurrences(content[i..e], '\n'));
  }

  /** Regrouping the pieces of the replaced text. */
  lemma RegroupPhase(goal: string, x: string, y: string, h: string, sp: string, m: string, r: string, p: string, q: string, b: string)
    requires goal == x + (y + m + r) && x + y == h && p == h + sp && m == sp + q && b == q + r
    ensures p + b == goal
  {
    calc {
      p + b;
      (h + sp) + (q + r);
      (x + y) + (sp + q) + r;
      x + (y + m + r);
    }
  }

  /** Blanking the comment found from `from` in place and searching on from its old end keeps `BlocksPhase`. */
  lemma BlocksPhaseNext(content: string, from: nat, goal: string)
    requires BlocksPhase(content, from, goal) && BlockComment(content, from).Some?
    ensures var (i, e) := BlockComment(content, from).value;
      BlocksPhase(Splice(content, i, e), e, goal)
  {
    var (i, e) := BlockComment(content, from).value;
    var m := content[i..e];
    var k := Occurrences(m, '\n');
    var t := Splice(content, i, e);
    BlocksBlankedStep(content, from, i, e);
    SplicedParts(content, i, e);
    SplicedRest(content, i, e);
    assert content[..from] + content[from..i] == content[..i];
    assert Blanked(m) == Repeat(' ', e - i) + Repeat('\n', k);
    RegroupPhase(goal, content[..from], content[from..i], content[..i], Repeat(' ', e - i), Blanked(m),
      BlocksBlanked(content, e), t[..e], Repeat('\n', k), BlocksBlanked(t, e));
  }

  /** When no comment is left from `from` on, the text is the replacement. */
  lemma BlocksPhaseEnd(content: string, from: nat, goal: string)
    requires BlocksPhase(content, from, goal) && BlockComment(content, from).None?
    ensures content == goal
  {
    BlocksBlankedEnd(content, from);
    assert content == content[..from] + content[from..];
  }

  /**
   * The state of `deleteComments` while it blanks block comments: `found` is
   * the comment found from `from`, no opener comes before it, and the text
   * so far followed by the replacement from `from` is the replacement `goal`
   * of the original text.
   */
  ghost predicate BlockState(content: string, found: Option<(nat, nat)>, from: nat, goal: string) {
    && found.Some? && found == BlockComment(content, from)
    && found.value.0 + 4 <= found.value.1 <= |content|
    && (forall p: nat :: p < found.value.0 ==> !HasAt(content, p, "/*"))
    && BlocksPhase(content, from, goal)
  }

  /**
   * One block pass: after the found comment is blanked, the search from its
   * old end either finds the next comment, past the inserted line feeds, or
   * finds none, and then no block comment is left and the text is `goal`.
   */
  lemma BlockStateNext(content: string, found: Option<(nat, nat)>, from: nat, goal: string)
    requires BlockState(content, found, from, goal)
    ensures var (i, e) := found.value;
      var c, f := Splice(content, i, e), BlockComment(Splice(content, i, e), e);
      && (f.Some? ==> BlockState(c, f, e, goal) && f.value.0 >= e + Occurrences(content[i..e], '\n'))
      && (f.None? ==> BlockComment(c, 0).None? && c == goal)
  {
    var (i, e) := found.value;
    var c := Splice(content, i, e);
    var f := BlockComment(c, e);
    BlockStep(content, i, e);
    BlocksPhaseNext(content, from, goal);
    BlockCommentMatch(c, e);
    if f.None? {
      NoBlockBefore(c, e);
      BlocksPhaseEnd(c, e, goal);
    }
  }

  /** Blanking a `#` line keeps the length and creates no block comment. */
  lemma LineStep(before: string, i: nat, e: nat)
    requires i < e <= |before| && AllDot(before[i..e]) && BlockComment(before, 0).None?
    ensures |Splice(before, i, e)| == |before| && BlockComment(Splice(before, i, e), 0).None?
  {
    var content := Splice(before, i, e);
    BlankedLine(before[i..e]);
    assert forall q :: 0 <= q < i ==> content[q] == before[q];
    assert forall q :: i <= q < e ==> content[q] == ' ';
    assert forall q :: e <= q < |before| ==> content[q] == before[q];
    SpacesCreateNoBlock(before, content);
  }

  /** A `#` line spliced out is the same text with the line turned into spaces. */
  lemma BlankedSplice(s: string, i: nat, e: nat)
    requires i <= e <= |s| && AllDot(s[i..e])
    ensures |Splice(s, i, e)| == |s|
    ensures forall k :: 0 <= k < |s| ==> Splice(s, i, e)[k] == if i <= k < e then ' ' else s[k]
  {
    BlankedLine(s[i..e]);
    NoTerminatorNoLineFeed(s[i..e]);
  }

  /**
   * The rest of the loop of `deleteComments` once no block comment is left:
   * the `#` line found from `lastIndex = from` is blanked and the search goes
   * on after it.
   */
  function BlankLines(s: string, from: nat): (r: string)
    requires from <= |s|
    ensures |r| == |s|
    decreases |s| - from
  {
    match LineComment(s, from)
    case None => s
    case Some((i, e)) =>
      BlankedSplice(s, i, e);
      BlankLines(Splice(s, i, e), e)
  }

  /** The end of a run of blanks is where the blanks stop. */
  lemma BlanksEndAt(s: string, i: nat, e: nat)
    requires i <= e <= |s| && (forall k :: i <= k < e ==> IsBlank(s[k])) && (e < |s| ==> !IsBlank(s[e]))
    ensures BlanksEnd(s, i) == e
  {
  }

  /** The end of a run of characters other than line terminators is where they stop. */
  lemma DotsEndAt(s: string, i: nat, e: nat)
    requires i <= e <= |s| && (forall k :: i <= k < e ==> IsDot(s[k])) && (e < |s| ==> IsLineTerminator(s[e]))
    ensures DotsEnd(s, i) == e
  {
  }

  /** Two texts equal from `p` on, with a line start at `p` in both or in neither, have the same comment line there. */
  lemma CommentSame(s: string, t: string, p: nat)
    requires |s| == |t| && p <= |s| && forall k :: p <= k < |s| ==> s[k] == t[k]
    requires p == 0 || IsLineTerminator(s[p - 1]) == IsLineTerminator(t[p - 1])
    ensures CommentAt(s, p) == CommentAt(t, p)
    ensures CommentAt(s, p) ==> CommentEnd(s, p) == CommentEnd(t, p)
  {
    var b := BlanksEnd(s, p);
    assert forall k :: p <= k < b ==> IsBlank(t[k]) by {
      forall k | p <= k < b ensures IsBlank(t[k]) { assert IsBlank(s[p..b][k - p]); }
    }
    BlanksEndAt(t, p, b);
    if CommentAt(s, p) {
      var e := CommentEnd(s, p);
      DotsEndAt(t, b + 1, e);
    }
  }

  /** Before a line start `i`, a comment line depends only on the text before `i`. */
  lemma CommentBeforeLine(s: string, t: string, p: nat, i: nat)
    requires |s| == |t| && p < i <= |s| && LineStartM(s, i) && forall k :: 0 <= k < i ==> s[k] == t[k]
    ensures CommentAt(s, p) == CommentAt(t, p)
  {
    var b := BlanksEnd(s, p);
    assert forall k :: p <= k < b ==> IsBlank(t[k]) by {
      forall k | p <= k < b ensures IsBlank(t[k]) { assert IsBlank(s[p..b][k - p]); }
    }
    BlanksEndAt(t, p, b);
  }

  /** A line terminator is never inside a comment line. */
  lemma TerminatorNotInComment(s: string, from: nat, k: nat)
    requires k < |s| && IsLineTerminator(s[k])
    ensures !InComment(s, from, k)
  {
    forall p: nat | from <= p <= k && CommentAt(s, p) ensures CommentEnd(s, p) <= k {
      assert !IsDot(s[k]);
    }
  }

  /** After a blanked `#` line, the text and its comment lines are as they were. */
  lemma CommentsAfterSplice(s: string, i: nat, e: nat)
    requires i < e <= |s| && AllDot(s[i..e])
    ensures forall p: nat :: e <= p ==> CommentAt(Splice(s, i, e), p) == CommentAt(s, p)
    ensures forall k: nat :: InComment(Splice(s, i, e), e, k) <==> InComment(s, e, k)
  {
    BlankedSplice(s, i, e);
    var t := Splice(s, i, e);
    assert IsDot(s[i..e][e - 1 - i]);
    forall p: nat | e <= p
      ensures CommentAt(t, p) == CommentAt(s, p)
      ensures CommentAt(s, p) ==> CommentEnd(t, p) == CommentEnd(s, p)
    {
      if p <= |s| {
        CommentSame(s, t, p);
      }
    }
    forall k: nat ensures InComment(t, e, k) <==> InComment(s, e, k) {
      if InComment(t, e, k) {
        var p: nat :| e <= p <= k && CommentAt(t, p) && k < CommentEnd(t, p);
        assert CommentAt(s, p) && k < CommentEnd(s, p);
      }
      if InComment(s, e, k) {
        var p: nat :| e <= p <= k && CommentAt(s, p) && k < CommentEnd(s, p);
        assert CommentAt(t, p) && k < CommentEnd(t, p);
      }
    }
  }

  /** No comment line starts inside another. */
  lemma NoCommentInside(s: string, i: nat)
    requires CommentAt(s, i)
    ensures forall p: nat :: i < p < CommentEnd(s, i) ==> !CommentAt(s, p)
  {
    forall p: nat | i < p < CommentEnd(s, i) ensures !CommentAt(s, p) {
      assert IsDot(s[p - 1]);
    }
  }

  /** The comment lines from `from` on are the one found first and those after it. */
  lemma InCommentSplit(s: string, from: nat, i: nat, e: nat)
    requires from <= |s| && LineComment(s, from) == Some((i, e))
    ensures forall k: nat :: InComment(s, from, k) <==> (i <= k < e || InComment(s, e, k))
  {
    NoCommentInside(s, i);
    forall k: nat ensures InComment(s, from, k) <==> (i <= k < e || InComment(s, e, k)) {
      if InComment(s, from, k) {
        var p: nat :| from <= p <= k && CommentAt(s, p) && k < CommentEnd(s, p);
        if e <= p {
          assert InComment(s, e, k);
        }
      }
      if i <= k < e {
        assert from <= i <= k && CommentAt(s, i) && k < CommentEnd(s, i);
      } else if InComment(s, e, k) {
        var p: nat :| e <= p <= k && CommentAt(s, p) && k < CommentEnd(s, p);
        assert from <= p;
      }
    }
  }

  /** With no comment line starting in `[from, i)`, no character before `i` is in a comment line from `from` on. */
  lemma NotInCommentBefore(s: string, from: nat, i: nat, k: nat)
    requires k < i && forall p: nat :: from <= p < i ==> !CommentAt(s, p)
    ensures !InComment(s, from, k)
  {
  }

  /** Blanking the comment lines from `from` on keeps the text before the first and blanks the first. */
  lemma FirstCommentBlanked(s: string, r: string, from: nat, i: nat, e: nat)
    requires from <= |s| && LineComment(s, from) == Some((i, e)) && |r| == |s|
    requires forall k :: 0 <= k < |s| ==> r[k] == if InComment(s, from, k) then ' ' else s[k]
    ensures forall k :: 0 <= k < i ==> r[k] == s[k]
    ensures forall k :: i <= k < e ==> r[k] == ' '
    ensures e < |s| ==> IsLineTerminator(r[e])
  {
    forall k | 0 <= k < i ensures r[k] == s[k] {
      NotInCommentBefore(s, from, i, k);
    }
    FirstCommentSpaces(s, r, from, i, e);
    if e < |s| {
      TerminatorNotInComment(s, from, e);
    }
  }

  /** The first comment line found is blanked. */
  lemma FirstCommentSpaces(s: string, r: string, from: nat, i: nat, e: nat)
    requires from <= |s| && LineComment(s, from) == Some((i, e)) && |r| == |s|
    requires forall k :: 0 <= k < |s| ==> r[k] == if InComment(s, from, k) then ' ' else s[k]
    ensures forall k :: i <= k < e ==> r[k] == ' '
  {
    forall k | i <= k < e ensures r[k] == ' ' {
      assert from <= i <= k && CommentAt(s, i) && k < CommentEnd(s, i);
    }
  }

  /** A text blanked on the first comment line found, and clean after it, is clean from `from` on. */
  lemma NoCommentLeft(s: string, r: string, from: nat, i: nat, e: nat)
    requires from <= i < e <= |s| && LineStartM(s, i) && |r| == |s|
    requires forall p: nat :: from <= p < i ==> !CommentAt(s, p)
    requires forall k :: 0 <= k < i ==> r[k] == s[k]
    requires forall k :: i <= k < e ==> r[k] == ' '
    requires e < |s| ==> IsLineTerminator(r[e])
    requires forall p: nat :: e <= p ==> !CommentAt(r, p)
    ensures forall p: nat :: from <= p ==> !CommentAt(r, p)
  {
    forall p: nat | from <= p < e ensures !CommentAt(r, p) {
      if p < i {
        CommentBeforeLine(s, r, p, i);
      } else if p == i {
        BlanksEndAt(r, i, e);
      } else {
        assert r[p - 1] == ' ';
      }
    }
  }

  /**
   * Blanking the `#` lines from `from` on turns every character of those
   * lines into a space, keeps every other character, and leaves no `#` line
   * from `from` on.
   */
  lemma {:induction false} BlankLinesMeaning(s: string, from: nat)
    requires from <= |s|
    ensures forall k :: 0 <= k < |s| ==> BlankLines(s, from)[k] == if InComment(s, from, k) then ' ' else s[k]
    ensures forall p: nat :: from <= p ==> !CommentAt(BlankLines(s, from), p)
    decreases |s| - from
  {
    var r := BlankLines(s, from);
    match LineComment(s, from)
    case None =>
      forall k | 0 <= k < |s| ensures !InComment(s, from, k) {}
    case Some((i, e)) =>
      BlankedSplice(s, i, e);
      var t := Splice(s, i, e);
      BlankLinesMeaning(t, e);
      assert r == BlankLines(t, e);
      CommentsAfterSplice(s, i, e);
      InCommentSplit(s, from, i, e);
      FirstCommentBlanked(s, r, from, i, e);
      NoCommentLeft(s, r, from, i, e);
  }

  /**
   * What the loop of `deleteComments` keeps once no block comment is left:
   * `found` is the `#` line found from `lineFrom`, `lineIndex` is past it,
   * and blanking the `#` lines from `lineFrom` on ends at `goal`.
   */
  ghost predicate LinesPhase(content: string, found: Option<(nat, nat)>, lineFrom: nat, lineIndex: nat, goal: string) {
    BlockComment(content, 0).None? && lineFrom <= |content| && found == LineComment(content, lineFrom)
    && (found.Some? ==> lineIndex == found.value.1)
    && goal == BlankLines(content, lineFrom) && LineComment(goal, 0).None?
  }

  /** The line phase starts with the first `#` line of a text without block comments. */
  lemma LinesPhaseStart(content: string)
    requires BlockComment(content, 0).None?
    ensures var f := LineComment(content, 0);
      LinesPhase(content, f, 0, if f.Some? then f.value.1 else 0, BlankLines(content, 0))
  {
    BlankLinesMeaning(content, 0);
  }

  /** One turn of the line phase: the line is blanked and the search goes on after it. */
  lemma LinesPhaseNext(content: string, i: nat, e: nat, lineFrom: nat, goal: string)
    requires LinesPhase(content, Some((i, e)), lineFrom, e, goal)
    ensures var c := Splice(content, i, e); var f := LineComment(c, e);
      LinesPhase(c, f, e, if f.Some? then f.value.1 else 0, goal)
  {
    LineStep(content, i, e);
  }

  /**
   * `deleteComments`: blanks every block comment, then every `#` line, while
   * both global patterns keep their own `lastIndex` over the changing text.
   */
  method DeleteComments(text: string) returns (content: string)
    ensures content == BlankLines(BlocksBlanked(text, 0), 0)
    ensures Occurrences(content, '\n') == Occurrences(text, '\n')
    ensures BlockComment(content, 0).None? && LineComment(content, 0).None?
    ensures BlockComment(text, 0).None? && LineComment(text, 0).None? ==> content == text
    ensures BlockComment(text, 0).None? ==>
      |content| == |text| && forall k :: 0 <= k < |text| ==> content[k] == if InComment(text, 0, k) then ' ' else text[k]
  {
    content := text;
    var blockIndex: nat := 0;
    var lineIndex: nat := 0;
    ghost var lines := false;
    ghost var lineFrom: nat := 0;
    ghost var goal: string := BlankLines(BlocksBlanked(text, 0), 0);
    ghost var blockFrom: nat := 0;
    var found: Option<(nat, nat)> := BlockComment(content, blockIndex);
    BlockCommentMatch(content, blockIndex);
    if found.Some? {
      assert content[..0] + BlocksBlanked(content, 0) == BlocksBlanked(text, 0);
      blockIndex := found.value.1;
    } else {
      BlocksBlankedEnd(text, 0);
      blockIndex := 0;
      lines := true;
      LinesPhaseStart(content);
      found := LineComment(content, lineIndex);
      lineIndex := if found.Some? then found.value.1 else 0;
    }
    while found.Some?
      invariant blockIndex <= |content| && lineIndex <= |content|
      invariant Occurrences(content, '\n') == Occurrences(text, '\n')
      invariant !lines ==> BlockState(content, found, blockFrom, BlocksBlanked(text, 0))
      invariant !lines ==> blockIndex == found.value.1 && lineIndex == 0
      invariant lines ==> blockIndex == 0 && LinesPhase(content, found, lineFrom, lineIndex, goal)
      invariant goal == BlankLines(BlocksBlanked(text, 0), 0)
      decreases if lines then 0 else 1, if found.Some? then |content| + 1 - found.value.0 else 0
    {
      var i: nat, e: nat := found.value.0, found.value.1;
      if lines {
        LinesPhaseNext(content, i, e, lineFrom, goal);
      } else {
        BlockStateNext(content, found, blockFrom, BlocksBlanked(text, 0));
        blockFrom := e;
      }
      content := Splice(content, i, e);
      found := BlockComment(content, blockIndex);
      if found.Some? {
        assert !lines;
        blockIndex := found.value.1;
      } else {
        if !lines {
          lineFrom := 0;
          LinesPhaseStart(content);
        } else {
          lineFrom := e;
        }
        blockIndex := 0;
        lines := true;
        found := LineComment(content, lineIndex);
        lineIndex := if found.Some? then found.value.1 else 0;
      }
    }
    if BlockComment(text, 0).None? {
      BlocksBlankedEnd(text, 0);
      BlankLinesMeaning(text, 0);
    }
  }

  // ---------------------------------------------------------------------------
  // deleteScripts
  // ---------------------------------------------------------------------------

  /** The first position at or after `from` where the whole word `w` stands. */
  function WordFrom(s: string, w: string, from: nat): (r: Option<nat>)
    ensures r.Some? ==> from <= r.value && WordMatchAt(s, r.value, w)
    ensures r.Some? ==> forall k: nat :: from <= k < r.value ==> !WordMatchAt(s, k, w)
    ensures r.None? ==> forall k: nat :: from <= k ==> !WordMatchAt(s, k, w)
    decreases |s| + 1 - from
  {
    if from > |s| then None
    else if WordMatchAt(s, from, w) then Some(from)
    else WordFrom(s, w, from + 1)
  }

  /**
   * One `exec` of `/\bscript\b([\s\S]+?)\bendscript\b/g` from `from`: the
   * leftmost word `script` followed, after at least one character, by a word
   * `endscript`; the match runs to the nearest such `endscript`.
   */
  function ScriptSpan(s: string, from: nat): (r: Option<(nat, nat)>)
    requires from <= |s|
    ensures r.Some? ==> from <= r.value.0 && r.value.0 + 16 <= r.value.1 <= |s|
    ensures r.Some? ==> WordMatchAt(s, r.value.0, "script") && WordMatchAt(s, r.value.1 - 9, "endscript")
    decreases |s| - from
  {
    if from == |s| then None
    else if WordMatchAt(s, from, "script") then
      match WordFrom(s, "endscript", from + 7)
      case Some(k) => Some((from, k + 9))
      case None => ScriptSpan(s, from + 1)
    else ScriptSpan(s, from + 1)
  }

  const ScriptStub: string := "script\nendscript"

  /** The global replacement from `lastIndex = p` on. */
  function ReplaceScriptsFrom(s: string, p: nat): (r: string)
    requires p <= |s|
    ensures |r| <= |s| - p
    ensures ScriptSpan(s, p).None? ==> r == s[p..]
    ensures ScriptSpan(s, p).Some? ==>
      var i := ScriptSpan(s, p).value.0;
      i - p + |ScriptStub| <= |r| && r[..i - p] == s[p..i] && r[i - p..i - p + |ScriptStub|] == ScriptStub
    decreases |s| - p
  {
    match ScriptSpan(s, p)
    case None => s[p..]
    case Some((i, e)) =>
      var rest := ReplaceScriptsFrom(s, e);
      assert |ScriptStub| == 16;
      var r := s[p..i] + ScriptStub + rest;
      assert r[..i - p] == s[p..i];
      assert r[i - p..i - p + |ScriptStub|] == ScriptStub;
      r
  }

  /**
   * `deleteScripts`: every `script ... endscript` span becomes exactly
   * `script\nendscript`; the text before the first span is kept, the search
   * goes on after the span, a text without a span is unchanged, and the text
   * never grows.
   */
  function DeleteScripts(text: string): (r: string)
    ensures |r| <= |text|
    ensures ScriptSpan(text, 0).None? ==> r == text
    ensures ScriptSpan(text, 0).Some? ==>
      var i := ScriptSpan(text, 0).value.0;
      i + |ScriptStub| <= |r| && r[..i] == text[..i] && r[i..i + |ScriptStub|] == ScriptStub
    ensures ScriptSpan(text, 0).Some? ==>
      var span := ScriptSpan(text, 0).value;
      r == text[..span.0] + ScriptStub + ReplaceScriptsFrom(text, span.1)
  {
    ReplaceScriptsFrom(text, 0)
  }
}

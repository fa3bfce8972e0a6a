/**
 * The regular expressions of the checker (`server/src/validator.ts`), each as a
 * recognizer that returns what the source reads from the match: the capture
 * groups it uses and the lengths it computes positions from.
 *
 * Every recognizer follows how a backtracking engine resolves its pattern:
 * a greedy run followed by a character the run cannot contain is maximal, a
 * lazy run is the shortest that lets the rest match, the leftmost start wins,
 * and under the `m` flag `^` also matches after a line terminator.
 */
module Patterns {
  import opened Wrappers
  import opened Text
  import TextRanges

  /** `s[i..]` starts with `p`, ignoring case (the `i` flag). */
  predicate HasAtIgnoreCase(s: string, i: nat, p: string) {
    i + |p| <= |s| && ToLower(s[i..i + |p|]) == p
  }

  /** End of the maximal run of `\S` starting at `i`. */
  function NonSpaceEnd(s: string, i: nat): (e: nat)
    requires i <= |s|
    ensures i <= e <= |s|
    ensures forall k :: i <= k < e ==> !IsSpace(s[k])
    ensures e < |s| ==> IsSpace(s[e])
    decreases |s| - i
  {
    if i < |s| && !IsSpace(s[i]) then NonSpaceEnd(s, i + 1) else i
  }

  // ---------------------------------------------------------------------------
  // Sections
  // ---------------------------------------------------------------------------

  /** A section name and the length of what precedes it (the indent and the `[`). */
  datatype Header = Header(prefix: nat, name: string)

  /** `(^[\t ]*\[)(\w+)\][\t ]*`: a section header such as `[series]`. */
  function SectionHeader(line: string): (r: Option<Header>)
    ensures r.Some? ==>
      var h := r.value;
      1 <= h.prefix && h.prefix + |h.name| < |line| && AllBlank(line[..h.prefix - 1])
      && line[h.prefix - 1] == '[' && |h.name| > 0 && AllWord(h.name)
      && line[h.prefix..h.prefix + |h.name|] == h.name && line[h.prefix + |h.name|] == ']'
  {
    var b := BlanksEnd(line, 0);
    if b < |line| && line[b] == '[' then
      var e := WordEnd(line, b + 1);
      if b + 1 < e < |line| && line[e] == ']' then Some(Header(b + 1, line[b + 1..e])) else None
    else None
  }

  /** Any line made of blanks, `[`, a word and `]` is a section header for that word. */
  lemma SectionHeaderComplete(blanks: string, name: string, rest: string)
    requires AllBlank(blanks) && |name| > 0 && AllWord(name)
    ensures SectionHeader(blanks + "[" + name + "]" + rest) == Some(Header(|blanks| + 1, name))
  {
    var line := blanks + "[" + name + "]" + rest;
    assert forall k :: 0 <= k < |blanks| ==> line[k] == blanks[k];
    assert line[|blanks|] == '[';
    BlanksEndIs(line, 0, |blanks|);
    forall k | |blanks| + 1 <= k < |blanks| + 1 + |name| ensures IsWordChar(line[k]) {
      assert line[k] == name[k - |blanks| - 1];
    }
    TextRanges.WordEndIs(line, |blanks| + 1, |blanks| + 1 + |name|);
    assert line[|blanks| + 1..|blanks| + 1 + |name|] == name;
  }

  /** The run of blanks ends where the first non-blank character is. */
  lemma {:induction false} BlanksEndIs(s: string, i: nat, e: nat)
    requires i <= e <= |s| && (forall k :: i <= k < e ==> IsBlank(s[k])) && (e < |s| ==> !IsBlank(s[e]))
    ensures BlanksEnd(s, i) == e
    decreases e - i
  {
    if i < e {
      BlanksEndIs(s, i + 1, e);
      assert RunEnd(s, i, true) == RunEnd(s, i + 1, true);
    }
  }

  /** `(^\s*\[)(\w+)\s*$`: a section header whose `]` is missing. */
  function UnclosedSection(line: string): (r: Option<Header>)
    ensures r.Some? ==>
      1 <= r.value.prefix && r.value.prefix + |r.value.name| <= |line|
      && line[r.value.prefix - 1] == '[' && |r.value.name| > 0 && AllWord(r.value.name)
      && line[r.value.prefix..r.value.prefix + |r.value.name|] == r.value.name
      && AllSpace(line[r.value.prefix + |r.value.name|..])
  {
    var i := SpacesEnd(line, 0);
    if i < |line| && line[i] == '[' then
      var e := WordEnd(line, i + 1);
      if e > i + 1 && AllSpace(line[e..]) then Some(Header(i + 1, line[i + 1..e])) else None
    else None
  }

  /** A header with its `]` is never reported as unclosed. */
  lemma ClosedIsNotUnclosed(line: string)
    requires SectionHeader(line).Some?
    ensures UnclosedSection(line).None?
  {
    var b := BlanksEnd(line, 0);
    assert line[b] == '[';
    forall k | 0 <= k < b ensures IsSpace(line[k]) {
      assert IsBlank(line[..b][k]);
    }
    SpacesEndIs(line, 0, b);
    var e := WordEnd(line, b + 1);
    assert line[e] == ']';
    assert line[e..][0] == ']';
  }

  /** The run of whitespace ends where the first other character is. */
  lemma {:induction false} SpacesEndIs(s: string, i: nat, e: nat)
    requires i <= e <= |s| && (forall k :: i <= k < e ==> IsSpace(s[k])) && (e < |s| ==> !IsSpace(s[e]))
    ensures SpacesEnd(s, i) == e
    decreases e - i
  {
    if i < e {
      SpacesEndIs(s, i + 1, e);
      assert RunEnd(s, i, false) == RunEnd(s, i + 1, false);
    }
  }

  /** `/(?:tag|key)s?/`: the section holds series tags or keys. */
  predicate IsTagsSection(name: string) {
    IndexOf(name, "tag").Some? || IndexOf(name, "key").Some?
  }

  /** `/widget/i` */
  predicate MentionsWidget(name: string) {
    IndexOf(ToLower(name), "widget").Some?
  }

  // ---------------------------------------------------------------------------
  // Settings
  // ---------------------------------------------------------------------------

  /** The groups of a `name = value` line: the indent's length, the name and the value. */
  datatype Assignment = Assignment(indent: nat, name: string, value: string)

  /** Start of the maximal run of `\s` that ends the string. */
  function TrailingSpaceStart(s: string): (e: nat)
    ensures e <= |s| && AllSpace(s[e..])
    ensures e > 0 ==> !IsSpace(s[e - 1])
    decreases |s|
  {
    if s != [] && IsSpace(s[|s| - 1]) then
      var e := TrailingSpaceStart(s[..|s| - 1]);
      assert s[e..] == s[..|s| - 1][e..] + [s[|s| - 1]];
      e
    else |s|
  }

  /** The last position at or after `from` whose character `.` matches. */
  function LastDot(s: string, from: nat): (r: Option<nat>)
    requires from <= |s|
    ensures r.Some? ==> from <= r.value < |s| && IsDot(s[r.value])
    ensures r.Some? ==> forall k :: r.value < k < |s| ==> !IsDot(s[k])
    ensures r.None? ==> forall k :: from <= k < |s| ==> !IsDot(s[k])
    decreases |s| - from
  {
    if from == |s| then None
    else match LastDot(s, from + 1)
      case Some(k) => Some(k)
      case None => if IsDot(s[from]) then Some(from) else None
  }

  /**
   * `\s*=\s*(.+?)\s*$` from position `j`: the value after the `=`.
   */
  function ValueAfter(line: string, j: nat): (r: Option<string>)
    requires j <= |line|
    ensures r.Some? ==> |r.value| > 0 && AllDot(r.value)
    ensures r.Some? ==> exists p | j <= p <= |line| :: HasAt(line, p, r.value)
  {
    var a := SpacesEnd(line, j);
    if a < |line| && line[a] == '=' then ValueFrom(line, a + 1) else None
  }

  /**
   * `\s*(.+?)\s*$` from position `q`. Without the `m` flag `$` is the end of
   * the line, so the value runs to where the trailing whitespace starts; when
   * only whitespace follows, the engine gives back whitespace until `.` can
   * match one character, the last one that is not a line terminator.
   */
  function ValueFrom(line: string, q: nat): (r: Option<string>)
    requires q <= |line|
    ensures r.Some? ==> |r.value| > 0 && AllDot(r.value)
    ensures r.Some? ==> exists p | q <= p <= |line| :: HasAt(line, p, r.value)
  {
    var p := SpacesEnd(line, q);
    if p < |line| then
      var e := TrailingSpaceStart(line);
      if p < e && AllDot(line[p..e]) then
        assert HasAt(line, p, line[p..e]);
        Some(line[p..e])
      else None
    else
      var k := LastDot(line, q);
      if k.Some? then
        assert HasAt(line, k.value, [line[k.value]]);
        Some([line[k.value]])
      else None
  }

  /**
   * The end of the shortest name that starts before `j`, ends in a letter at
   * most at `limit` and is followed by a value; and that value.
   */
  function NameEnd(line: string, j: nat, limit: nat): (r: Option<nat>)
    requires 2 <= j && limit <= |line|
    ensures r.Some? ==> j <= r.value <= limit && IsLower(line[r.value - 1]) && ValueAfter(line, r.value).Some?
    decreases limit + 1 - j
  {
    if j > limit then None
    else if IsLower(line[j - 1]) && ValueAfter(line, j).Some? then Some(j)
    else NameEnd(line, j + 1, limit)
  }

  /** `(^\s*)([a-z].*?[a-z])\s*=\s*(.+?)\s*$`: a `name = value` line. */
  function SettingAssignment(line: string): (r: Option<Assignment>)
    ensures r.Some? ==> r.value.indent == SpacesEnd(line, 0) && |r.value.name| >= 2
    ensures r.Some? ==> r.value.indent + |r.value.name| <= |line|
    ensures r.Some? ==> line[r.value.indent..r.value.indent + |r.value.name|] == r.value.name
    ensures r.Some? ==> |r.value.value| > 0 && AllDot(r.value.value)
    ensures r.Some? ==> IndexOf(line, r.value.value).Some?
  {
    var i := SpacesEnd(line, 0);
    if i < |line| && IsLower(line[i]) then
      var limit := DotsEnd(line, i + 1);
      var found := NameEnd(line, i + 2, limit);
      if found.Some? then
        var j := found.value;
        Some(Assignment(i, line[i..j], ValueAfter(line, j).value))
      else None
    else None
  }

  // ---------------------------------------------------------------------------
  // Keyword lines
  // ---------------------------------------------------------------------------

  /** `.*,\s*$` under the `m` flag, from position `q`: a comma later on the same line, then only whitespace to a line end. */
  predicate CommaTail(line: string, q: nat)
    decreases |line| - q
  {
    q < |line| && ((line[q] == ',' && SpacesToLineEndM(line, q + 1)) || (IsDot(line[q]) && CommaTail(line, q + 1)))
  }

  /** `.*,\s*$` matched from `p` with the comma just before `g`. */
  predicate CommaBefore(line: string, p: nat, g: nat) {
    p < g <= |line| && line[g - 1] == ',' && AllDot(line[p..g - 1]) && SpacesToLineEndM(line, g)
  }

  lemma {:induction false} CommaTailMeaning(line: string, p: nat)
    ensures CommaTail(line, p) <==> exists g: nat :: CommaBefore(line, p, g)
    decreases |line| - p
  {
    if p < |line| {
      CommaTailMeaning(line, p + 1);
      if CommaTail(line, p) {
        if line[p] == ',' && SpacesToLineEndM(line, p + 1) {
          assert CommaBefore(line, p, p + 1);
        } else {
          var g: nat :| CommaBefore(line, p + 1, g);
          assert line[p..g - 1] == [line[p]] + line[p + 1..g - 1];
          assert CommaBefore(line, p, g);
        }
      }
      forall g: nat | CommaBefore(line, p, g) ensures CommaTail(line, p) {
        if g > p + 1 {
          assert line[p..g - 1][0] == line[p];
          assert line[p + 1..g - 1] == line[p..g - 1][1..];
          assert CommaBefore(line, p + 1, g);
        }
      }
    } else {
      forall g: nat ensures !CommaBefore(line, p, g) {}
    }
  }

  /** `(|.*,)\s*$` under the `m` flag, from position `p`. */
  predicate BlockTail(line: string, p: nat) {
    SpacesToLineEndM(line, p) || CommaTail(line, p)
  }

  /** `(\[|\{)(|.*,)\s*$` at `f`. */
  predicate OpensAt(line: string, f: nat) {
    f < |line| && (line[f] == '[' || line[f] == '{') && BlockTail(line, f + 1)
  }

  /** `/=\s*(\[|\{)(|.*,)\s*$/m` tested from position `e` on. */
  predicate VarOpensFrom(line: string, e: nat)
    decreases |line| - e
  {
    e < |line| && ((line[e] == '=' && OpensAt(line, SpacesEnd(line, e + 1))) || VarOpensFrom(line, e + 1))
  }

  /** `/=\s*(\[|\{)(|.*,)\s*$/m`: a `var` line that opens a multi-line array or object. */
  predicate VarOpensBlock(line: string) {
    VarOpensFrom(line, 0)
  }

  /** A whitespace run that stops at a non-whitespace character ends there. */
  lemma SpacesEndAt(line: string, b: nat, f: nat)
    requires b <= f < |line| && AllSpace(line[b..f]) && !IsSpace(line[f])
    ensures SpacesEnd(line, b) == f
  {}

  /** `\s*(\[|\{)(|.*,)\s*$` between `e + 1` and the bracket at `f`. */
  predicate BracketAfter(line: string, e: nat, f: nat) {
    e < f < |line| && AllSpace(line[e + 1..f]) && OpensAt(line, f)
  }

  /** The whitespace after `=` must run up to the bracket, which is not whitespace. */
  lemma OpensAfterEquals(line: string, e: nat)
    requires e < |line|
    ensures OpensAt(line, SpacesEnd(line, e + 1)) <==> exists f: nat :: BracketAfter(line, e, f)
  {
    var g := SpacesEnd(line, e + 1);
    if OpensAt(line, g) {
      assert BracketAfter(line, e, g);
    }
    if exists f: nat :: BracketAfter(line, e, f) {
      var f: nat :| BracketAfter(line, e, f);
      SpacesEndAt(line, e + 1, f);
    }
  }

  /** `=\s*(\[|\{)(|.*,)\s*$` with the `=` at `e` and the bracket at `f`. */
  predicate EqualsOpens(line: string, e: nat, f: nat) {
    BracketAfter(line, e, f) && line[e] == '='
  }

  lemma {:induction false} VarOpensFromMeaning(line: string, d: nat)
    ensures VarOpensFrom(line, d) <==> exists e: nat, f: nat | d <= e :: EqualsOpens(line, e, f)
    decreases |line| - d
  {
    if d < |line| {
      VarOpensFromMeaning(line, d + 1);
      OpensAfterEquals(line, d);
      if VarOpensFrom(line, d) {
        if line[d] == '=' && OpensAt(line, SpacesEnd(line, d + 1)) {
          var f: nat :| BracketAfter(line, d, f);
          assert EqualsOpens(line, d, f);
        } else {
          var e: nat, f: nat :| d + 1 <= e && EqualsOpens(line, e, f);
          assert d <= e;
        }
      } else {
        forall e: nat, f: nat | d <= e ensures !EqualsOpens(line, e, f) {
          if e == d {
            assert !BracketAfter(line, d, f) || line[d] != '=';
          } else {
            assert d + 1 <= e;
          }
        }
      }
    } else {
      forall e: nat, f: nat | d <= e ensures !EqualsOpens(line, e, f) {}
    }
  }

  /** `/(=|,)[ \t]*$/m` tested from position `k` on. */
  predicate EqualsOrCommaFrom(line: string, k: nat)
    decreases |line| - k
  {
    k < |line| && (((line[k] == '=' || line[k] == ',') && BlanksToLineEndM(line, k + 1)) || EqualsOrCommaFrom(line, k + 1))
  }

  /** `/(=|,)[ \t]*$/m`: a `list` line whose values go on. */
  predicate EqualsOrCommaAtEnd(line: string) {
    EqualsOrCommaFrom(line, 0)
  }

  lemma {:induction false} EqualsOrCommaFromMeaning(line: string, d: nat)
    ensures EqualsOrCommaFrom(line, d) <==>
      exists k: nat | d <= k < |line| :: (line[k] == '=' || line[k] == ',') && BlanksToLineEndM(line, k + 1)
    decreases |line| - d
  {
    if d < |line| {
      EqualsOrCommaFromMeaning(line, d + 1);
      if exists k: nat | d <= k < |line| :: (line[k] == '=' || line[k] == ',') && BlanksToLineEndM(line, k + 1) {
        var k: nat :| d <= k < |line| && (line[k] == '=' || line[k] == ',') && BlanksToLineEndM(line, k + 1);
        assert k == d || d + 1 <= k;
      }
    }
  }

  /** A line that ends in `=` or `,` before trailing blanks. */
  lemma EqualsOrCommaAtEndOfLine(line: string, k: nat)
    requires k < |line| && (line[k] == '=' || line[k] == ',') && AllBlank(line[k + 1..])
    ensures EqualsOrCommaAtEnd(line)
  {
    assert AllBlank(line[k + 1..|line|]) && LineEndM(line, |line|);
    BlanksToLineEndMMeaning(line, k + 1);
    EqualsOrCommaFromMeaning(line, 0);
  }

  /** `/^[ \t]*$/m` tested from position `st` on. */
  predicate BlankLineFrom(text: string, st: nat)
    decreases |text| - st
  {
    st <= |text| && ((LineStartM(text, st) && BlanksToLineEndM(text, st)) || BlankLineFrom(text, st + 1))
  }

  /** `/^[ \t]*$/m`: some line of the text is blank. */
  predicate BlankLineM(text: string) {
    BlankLineFrom(text, 0)
  }

  lemma {:induction false} BlankLineFromMeaning(text: string, d: nat)
    ensures BlankLineFrom(text, d) <==>
      exists st: nat | d <= st <= |text| :: LineStartM(text, st) && BlanksToLineEndM(text, st)
    decreases |text| + 1 - d
  {
    if d <= |text| {
      BlankLineFromMeaning(text, d + 1);
      if exists st: nat | d <= st <= |text| :: LineStartM(text, st) && BlanksToLineEndM(text, st) {
        var st: nat :| d <= st <= |text| && LineStartM(text, st) && BlanksToLineEndM(text, st);
        assert st == d || d + 1 <= st;
      }
    }
  }
}

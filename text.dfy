/**
 * Character classes and string operations of the JavaScript runtime that the
 * checker's regular expressions and string methods rely on.
 *
 * `\w`, `\d`, `\s`, `.`, `\b` and the `m` flag's line anchors are defined here
 * once, with their JavaScript meaning, so that every hand-written recognizer
 * in the model uses the same classes.
 */
module Text {
  import opened Wrappers

  /** `\d` */
  predicate IsDigit(c: char) { '0' <= c <= '9' }

  predicate IsLower(c: char) { 'a' <= c <= 'z' }

  predicate IsUpper(c: char) { 'A' <= c <= 'Z' }

  predicate IsLetter(c: char) { IsLower(c) || IsUpper(c) }

  /** `\w`: ASCII letters, digits and the underscore. */
  predicate IsWordChar(c: char) { IsLetter(c) || IsDigit(c) || c == '_' }

  /** `[ \t]` */
  predicate IsBlank(c: char) { c == ' ' || c == '\t' }

  /** The characters that end a line: `.` does not match them and the `m` flag anchors at them. */
  predicate IsLineTerminator(c: char) {
    c == '\n' || c == '\r' || c == '\U{2028}' || c == '\U{2029}'
  }

  /** `\s`, which is also what `String.prototype.trim` removes. */
  predicate IsSpace(c: char) {
    c == '\t' || c == '\n' || c == '\U{B}' || c == '\U{C}' || c == '\r' || c == ' '
    || c == '\U{A0}' || c == '\U{1680}' || ('\U{2000}' <= c <= '\U{200A}')
    || c == '\U{2028}' || c == '\U{2029}' || c == '\U{202F}' || c == '\U{205F}'
    || c == '\U{3000}' || c == '\U{FEFF}'
  }

  lemma TerminatorIsSpace(c: char)
    ensures IsLineTerminator(c) ==> IsSpace(c)
  {}

  /** `.` without the `s` flag. */
  predicate IsDot(c: char) { !IsLineTerminator(c) }

  predicate AllDigits(s: string) { forall i :: 0 <= i < |s| ==> IsDigit(s[i]) }

  predicate AllBlank(s: string) { forall i :: 0 <= i < |s| ==> IsBlank(s[i]) }

  predicate AllSpace(s: string) { forall i :: 0 <= i < |s| ==> IsSpace(s[i]) }

  predicate AllDot(s: string) { forall i :: 0 <= i < |s| ==> IsDot(s[i]) }

  predicate AllWord(s: string) { forall i :: 0 <= i < |s| ==> IsWordChar(s[i]) }

  /** Lower-cases one character (ASCII letters only). */
  function LowerChar(c: char): (r: char)
    ensures IsUpper(c) ==> IsLower(r)
    ensures !IsUpper(c) ==> r == c
  {
    if IsUpper(c) then (c as int - 'A' as int + 'a' as int) as char else c
  }

  /** `String.prototype.toLowerCase` restricted to ASCII letters. */
  function ToLower(s: string): (r: string)
    ensures |r| == |s|
    ensures forall i :: 0 <= i < |s| ==> r[i] == LowerChar(s[i])
  {
    if s == [] then [] else [LowerChar(s[0])] + ToLower(s[1..])
  }

  lemma ToLowerAppend(a: string, b: string)
    ensures ToLower(a + b) == ToLower(a) + ToLower(b)
  {
    assert ToLower(a + b) == ToLower(a) + ToLower(b);
  }

  /** Case-insensitive equality of two strings, as the `i` flag compares letters. */
  predicate EqualsIgnoreCase(a: string, b: string) { ToLower(a) == ToLower(b) }

  /** True iff `p` is a prefix of `s[i..]`. */
  predicate HasAt(s: string, i: nat, p: string) {
    i + |p| <= |s| && s[i..i + |p|] == p
  }

  predicate StartsWith(s: string, p: string) { HasAt(s, 0, p) }

  /** Whether position `i` of `s` holds a word character (positions outside `s` do not). */
  predicate WordAt(s: string, i: int) { 0 <= i < |s| && IsWordChar(s[i]) }

  /** `\b` at position `i`. */
  predicate Boundary(s: string, i: int) { WordAt(s, i - 1) != WordAt(s, i) }

  /** `\bw\b` matches at `i`. */
  predicate WordMatchAt(s: string, i: nat, w: string) {
    HasAt(s, i, w) && Boundary(s, i) && Boundary(s, i + |w|)
  }

  /** `/\bw\b/.test(s)` */
  predicate ContainsWord(s: string, w: string) {
    exists i: nat | i <= |s| :: WordMatchAt(s, i, w)
  }

  /** The scan behind `test`: whether the word `w` stands somewhere at or after `i`. */
  predicate WordFromOn(s: string, w: string, i: nat)
    decreases |s| + 1 - i
  {
    i <= |s| && (WordMatchAt(s, i, w) || WordFromOn(s, w, i + 1))
  }

  /** The scan finds the word exactly when it stands at or after `i`. */
  lemma {:induction false} WordFromOnIff(s: string, w: string, i: nat)
    ensures WordFromOn(s, w, i) <==> exists k: nat | i <= k <= |s| :: WordMatchAt(s, k, w)
    decreases |s| + 1 - i
  {
    if i <= |s| {
      WordFromOnIff(s, w, i + 1);
      if !WordMatchAt(s, i, w) && (exists k: nat | i <= k <= |s| :: WordMatchAt(s, k, w)) {
        var k: nat :| i <= k <= |s| && WordMatchAt(s, k, w);
        assert i + 1 <= k;
      }
    }
  }

  /** `/\bw\b/.test(s)`, as the scan from the start. */
  predicate HasWord(s: string, w: string) {
    WordFromOn(s, w, 0)
  }

  lemma HasWordIff(s: string, w: string)
    ensures HasWord(s, w) <==> ContainsWord(s, w)
  {
    WordFromOnIff(s, w, 0);
  }

  /** Whether `i` is where `^` matches under the `m` flag: the start, or just after a terminator. */
  predicate LineStartM(s: string, i: nat) {
    i <= |s| && (i == 0 || IsLineTerminator(s[i - 1]))
  }

  /** Whether `i` is where `$` matches under the `m` flag: the end, or just before a terminator. */
  predicate LineEndM(s: string, i: nat) {
    i <= |s| && (i == |s| || IsLineTerminator(s[i]))
  }

  /** Whether a line terminator stands in `s[i..e]`. */
  predicate TerminatorIn(s: string, i: nat, e: nat)
    requires i <= e <= |s|
    decreases e - i
  {
    i < e && (IsLineTerminator(s[i]) || TerminatorIn(s, i + 1, e))
  }

  lemma {:induction false} TerminatorInMeaning(s: string, i: nat, e: nat)
    requires i <= e <= |s|
    ensures TerminatorIn(s, i, e) <==> exists k: nat | i <= k < e :: IsLineTerminator(s[k])
    decreases e - i
  {
    if i < e {
      TerminatorInMeaning(s, i + 1, e);
      if exists k: nat | i <= k < e :: IsLineTerminator(s[k]) {
        var k: nat :| i <= k < e && IsLineTerminator(s[k]);
        assert k == i || i + 1 <= k;
      }
    }
  }

  /**
   * `\s*$` with the `m` flag matches from `i`: the whitespace run from `i`
   * reaches the end of the text or holds a terminator (terminators are
   * whitespace, so the run cannot stop right before one).
   */
  predicate SpacesToLineEndM(s: string, i: nat) {
    i <= |s| && (SpacesEnd(s, i) == |s| || TerminatorIn(s, i, SpacesEnd(s, i)))
  }

  /** Some end of a whitespace run from `i` is where `$` matches under the `m` flag. */
  lemma SpacesToLineEndMMeaning(s: string, i: nat)
    ensures SpacesToLineEndM(s, i) <==> exists k: nat | i <= k <= |s| :: AllSpace(s[i..k]) && LineEndM(s, k)
  {
    if i <= |s| {
      var e := SpacesEnd(s, i);
      TerminatorInMeaning(s, i, e);
      if SpacesToLineEndM(s, i) {
        if e == |s| {
          assert AllSpace(s[i..e]) && LineEndM(s, e);
        } else {
          var k: nat :| i <= k < e && IsLineTerminator(s[k]);
          assert s[i..k] == s[i..e][..k - i];
          assert AllSpace(s[i..k]) && LineEndM(s, k);
        }
      }
      if exists k: nat | i <= k <= |s| :: AllSpace(s[i..k]) && LineEndM(s, k) {
        var k: nat :| i <= k <= |s| && AllSpace(s[i..k]) && LineEndM(s, k);
        if e < k {
          assert s[i..k][e - i] == s[e];
        } else if k < e {
          assert IsLineTerminator(s[k]);
        }
      }
    }
  }

  /** `[ \t]*$` with the `m` flag matches from `i`: the blank run from `i` stops at a line end. */
  predicate BlanksToLineEndM(s: string, i: nat) {
    i <= |s| && LineEndM(s, BlanksEnd(s, i))
  }

  /** Some end of a blank run from `i` is where `$` matches under the `m` flag. */
  lemma BlanksToLineEndMMeaning(s: string, i: nat)
    ensures BlanksToLineEndM(s, i) <==> exists k: nat | i <= k <= |s| :: AllBlank(s[i..k]) && LineEndM(s, k)
  {
    if i <= |s| {
      var e := BlanksEnd(s, i);
      if BlanksToLineEndM(s, i) {
        assert AllBlank(s[i..e]) && LineEndM(s, e);
      }
      if exists k: nat | i <= k <= |s| :: AllBlank(s[i..k]) && LineEndM(s, k) {
        var k: nat :| i <= k <= |s| && AllBlank(s[i..k]) && LineEndM(s, k);
        if e < k {
          assert s[i..k][e - i] == s[e];
        }
      }
    }
  }

  /** Length of the run of characters satisfying the class that starts at `i`. */
  function RunEnd(s: string, i: nat, blank: bool): (e: nat)
    requires i <= |s|
    ensures i <= e <= |s|
    ensures forall k :: i <= k < e ==> (if blank then IsBlank(s[k]) else IsSpace(s[k]))
    ensures e < |s| ==> !(if blank then IsBlank(s[e]) else IsSpace(s[e]))
    decreases |s| - i
  {
    if i < |s| && (if blank then IsBlank(s[i]) else IsSpace(s[i])) then RunEnd(s, i + 1, blank) else i
  }

  /** End of the maximal run of `[ \t]` starting at `i`. */
  function BlanksEnd(s: string, i: nat): (e: nat)
    requires i <= |s|
    ensures i <= e <= |s| && AllBlank(s[i..e])
    ensures e < |s| ==> !IsBlank(s[e])
  {
    var e := RunEnd(s, i, true);
    assert forall k :: 0 <= k < e - i ==> s[i..e][k] == s[i + k];
    e
  }

  /** End of the maximal run of `\s` starting at `i`. */
  function SpacesEnd(s: string, i: nat): (e: nat)
    requires i <= |s|
    ensures i <= e <= |s| && AllSpace(s[i..e])
    ensures e < |s| ==> !IsSpace(s[e])
  {
    var e := RunEnd(s, i, false);
    assert forall k :: 0 <= k < e - i ==> s[i..e][k] == s[i + k];
    e
  }

  /** End of the maximal run of `\w` starting at `i`. */
  function WordEnd(s: string, i: nat): (e: nat)
    requires i <= |s|
    ensures i <= e <= |s|
    ensures forall k :: i <= k < e ==> IsWordChar(s[k])
    ensures e < |s| ==> !IsWordChar(s[e])
    decreases |s| - i
  {
    if i < |s| && IsWordChar(s[i]) then WordEnd(s, i + 1) else i
  }

  /** End of the maximal run of `.` starting at `i` (the next terminator or the end). */
  function DotsEnd(s: string, i: nat): (e: nat)
    requires i <= |s|
    ensures i <= e <= |s|
    ensures forall k :: i <= k < e ==> IsDot(s[k])
    ensures e < |s| ==> IsLineTerminator(s[e])
    decreases |s| - i
  {
    if i < |s| && IsDot(s[i]) then DotsEnd(s, i + 1) else i
  }

  /** `String.prototype.trim`: strips `\s` at both ends. */
  function Trim(s: string): (r: string)
    ensures |r| <= |s|
    ensures r == [] || (!IsSpace(r[0]) && !IsSpace(r[|r| - 1]))
    decreases |s|
  {
    if |s| > 0 && IsSpace(s[0]) then Trim(s[1..])
    else if |s| > 0 && IsSpace(s[|s| - 1]) then Trim(s[..|s| - 1])
    else s
  }

  /** A trimmed string is empty exactly when the string is all whitespace. */
  lemma {:induction false} TrimEmptyIffAllSpace(s: string)
    ensures Trim(s) == [] <==> AllSpace(s)
    decreases |s|
  {
    if |s| > 0 && IsSpace(s[0]) {
      TrimEmptyIffAllSpace(s[1..]);
      assert AllSpace(s) <==> AllSpace(s[1..]) by {
        if AllSpace(s[1..]) {
          forall i | 0 <= i < |s| ensures IsSpace(s[i]) {
            if i > 0 { assert s[i] == s[1..][i - 1]; }
          }
        }
      }
    } else if |s| > 0 && IsSpace(s[|s| - 1]) {
      TrimEmptyIffAllSpace(s[..|s| - 1]);
      assert !AllSpace(s);
      assert !AllSpace(s[..|s| - 1]) by { assert s[..|s| - 1][0] == s[0]; }
    }
  }

  /** The number of times `c` occurs in `s`. */
  function Occurrences(s: string, c: char): (n: nat)
    ensures n <= |s|
  {
    if s == [] then 0 else (if s[0] == c then 1 else 0) + Occurrences(s[1..], c)
  }

  lemma {:induction false} OccurrencesAppend(a: string, b: string, c: char)
    ensures Occurrences(a + b, c) == Occurrences(a, c) + Occurrences(b, c)
  {
    if a == [] {
      assert a + b == b;
    } else {
      assert (a + b)[1..] == a[1..] + b;
      OccurrencesAppend(a[1..], b, c);
    }
  }

  /** `n` copies of `c`. */
  function Repeat(c: char, n: nat): (r: string)
    ensures |r| == n && forall i :: 0 <= i < n ==> r[i] == c
  {
    if n == 0 then [] else [c] + Repeat(c, n - 1)
  }

  /** `s.indexOf(p)`: the first position where `p` occurs. */
  function IndexOf(s: string, p: string): (r: Option<nat>)
    ensures r.Some? ==> HasAt(s, r.value, p) && forall j :: 0 <= j < r.value ==> !HasAt(s, j, p)
    ensures r.None? ==> forall j :: 0 <= j <= |s| ==> !HasAt(s, j, p)
  {
    IndexFromMatch(s, p, 0);
    IndexFrom(s, p, 0)
  }

  /** The first position at or after `i` where `p` occurs. */
  function IndexFrom(s: string, p: string, i: nat): (r: Option<nat>)
    ensures r.Some? ==> i <= r.value && r.value + |p| <= |s|
    decreases |s| + 1 - i
  {
    if i > |s| then None
    else if HasAt(s, i, p) then Some(i)
    else IndexFrom(s, p, i + 1)
  }

  /** `IndexFrom` finds an occurrence, and none comes before it; without one, `p` does not occur from `i` on. */
  lemma {:induction false} IndexFromMatch(s: string, p: string, i: nat)
    ensures var r := IndexFrom(s, p, i);
      r.Some? ==> i <= r.value && HasAt(s, r.value, p) && forall j :: i <= j < r.value ==> !HasAt(s, j, p)
    ensures IndexFrom(s, p, i).None? ==> forall j :: i <= j <= |s| ==> !HasAt(s, j, p)
    decreases |s| + 1 - i
  {
    if i <= |s| && !HasAt(s, i, p) {
      IndexFromMatch(s, p, i + 1);
    }
  }

  /** A piece of a string that occurs in `s` occurs in `s` too. */
  lemma PieceOfOccurrence(s: string, p: string, a: nat, b: nat)
    requires IndexOf(s, p).Some? && a <= b <= |p|
    ensures IndexOf(s, p[a..b]).Some?
  {
    var k := IndexOf(s, p).value;
    forall t | 0 <= t < b - a ensures p[a..b][t] == s[k + a..k + b][t] {
      assert p[a + t] == s[k..k + |p|][a + t];
    }
    assert HasAt(s, k + a, p[a..b]);
  }

  /** `s.replace(p, r)` with a string pattern: only the first occurrence is replaced. */
  function ReplaceFirst(s: string, p: string, r: string): string {
    match IndexOf(s, p)
    case None => s
    case Some(i) => s[..i] + r + s[i + |p|..]
  }

  /** `parts.join(sep)` */
  function Join(parts: seq<string>, sep: string): string {
    if parts == [] then ""
    else if |parts| == 1 then parts[0]
    else parts[0] + sep + Join(parts[1..], sep)
  }

  /** `s.split(sep)` for a one-character separator. */
  function Split(s: string, sep: char): (parts: seq<string>)
    ensures |parts| >= 1
    ensures forall k :: 0 <= k < |parts| ==> sep !in parts[k]
    decreases |s|
  {
    if sep !in s then [s]
    else
      var i := FirstIndex(s, sep);
      [s[..i]] + Split(s[i + 1..], sep)
  }

  function FirstIndex(s: string, c: char): (i: nat)
    requires c in s
    ensures i < |s| && s[i] == c && c !in s[..i]
  {
    if s[0] == c then 0 else
      assert c in s[1..];
      var j := FirstIndex(s[1..], c);
      assert s[..j + 1] == [s[0]] + s[1..][..j];
      j + 1
  }

  function DigitChar(d: nat): (c: char)
    requires d < 10
    ensures IsDigit(c)
  {
    ('0' as int + d) as char
  }

  /** The decimal rendering of a natural number, as template literals print it. */
  function NatToString(n: nat): (s: string)
    ensures |s| > 0 && AllDigits(s)
  {
    if n < 10 then [DigitChar(n)] else NatToString(n / 10) + [DigitChar(n % 10)]
  }

  /** The decimal rendering of an integer, with a leading `-` when negative. */
  function IntToString(n: int): string {
    if n < 0 then "-" + NatToString(-n) else NatToString(n)
  }

  /** The value of a string of decimal digits. */
  function DecimalValue(s: string): nat
    requires AllDigits(s)
  {
    if s == [] then 0 else DecimalValue(s[..|s| - 1]) * 10 + (s[|s| - 1] as int - '0' as int)
  }

  /** Rendering a number and reading it back gives the number. */
  lemma {:induction false} NatToStringRoundTrip(n: nat)
    ensures DecimalValue(NatToString(n)) == n
  {
    if n >= 10 {
      NatToStringRoundTrip(n / 10);
      var s := NatToString(n);
      assert s[..|s| - 1] == NatToString(n / 10);
    }
  }
}

/**
 * Keyword recognition (`server/src/textRange.ts`): the keyword at the start
 * of a line, and the four line classifiers the checker and the formatter use.
 *
 * Every pattern has the shape `^[ \t]*(?:k1|k2|…)\b`. All keywords are made of
 * word characters, so a match exists exactly when the first word after the
 * leading blanks is one of the alternatives; the lemmas below prove this for
 * `KEYWORD_REGEXP`, whose alternation is read in the source's order.
 */
module TextRanges {
  import opened Wrappers
  import opened Text
  import opened Diagnostics

  /** A keyword as written in the document and where it is. */
  datatype TextRange = TextRange(text: string, range: Range)

  /** The alternatives of `KEYWORD_REGEXP`, in the order the expression tries them. */
  const Keywords: seq<string> :=
    ["import", "endvar", "endcsv", "endfor", "elseif", "endif", "endscript", "endlist",
     "script", "else", "if", "list", "for", "csv", "var"]

  const CloseAbleKeywords: set<string> := {"for", "if", "list", "var", "script", "csv", "else", "elseif"}

  const ClosingKeywords: set<string> :=
    {"endfor", "endif", "endlist", "endvar", "endscript", "endcsv", "elseif", "else"}

  const IncreasingKeywords: set<string> := {"for", "if", "else", "elseif", "script", "csv", "var", "list"}

  const NotCloseAbleKeywords: set<string> := {"else", "elseif"}

  /** Length of the leading `[ \t]*`. */
  function Indent(line: string): (n: nat)
    ensures n <= |line| && AllBlank(line[..n])
    ensures n < |line| ==> !IsBlank(line[n])
  {
    BlanksEnd(line, 0)
  }

  /** The run of word characters right after the leading blanks. */
  function FirstWord(line: string): (w: string)
    ensures AllWord(w)
    ensures Indent(line) + |w| <= |line| && line[Indent(line)..Indent(line) + |w|] == w
    ensures !WordAt(line, Indent(line) + |w|)
  {
    var e := WordEnd(line, Indent(line));
    line[Indent(line)..e]
  }

  /** `^[ \t]*k\b` matches `line`, ignoring case when `ignoreCase` is set. */
  predicate MatchesKeyword(line: string, k: string, ignoreCase: bool) {
    var i := Indent(line);
    i + |k| <= |line|
    && (if ignoreCase then ToLower(line[i..i + |k|]) == k else line[i..i + |k|] == k)
    && !WordAt(line, i + |k|)
  }

  /** The first alternative of `ks` that matches, if any: how the alternation is tried. */
  function FirstAlternative(line: string, ks: seq<string>, ignoreCase: bool): (r: Option<string>)
    ensures r.Some? ==> r.value in ks && MatchesKeyword(line, r.value, ignoreCase)
    ensures r.None? ==> forall k :: k in ks ==> !MatchesKeyword(line, k, ignoreCase)
  {
    if ks == [] then None
    else if MatchesKeyword(line, ks[0], ignoreCase) then Some(ks[0])
    else FirstAlternative(line, ks[1..], ignoreCase)
  }

  /**
   * `TextRange.parse`: the keyword exactly as written, with its range on line `i`.
   */
  function Parse(line: string, i: nat): (r: Option<TextRange>)
    ensures r.Some? ==> r.value.range == LineRange(i, Indent(line), Indent(line) + |r.value.text|)
  {
    match FirstAlternative(line, Keywords, true)
    case None => None
    case Some(k) =>
      var start := Indent(line);
      Some(TextRange(line[start..start + |k|], LineRange(i, start, start + |k|)))
  }

  /** A keyword made of word characters matches exactly when it is the first word. */
  lemma MatchIsFirstWord(line: string, k: string, ignoreCase: bool)
    requires k != [] && AllWord(k)
    ensures MatchesKeyword(line, k, ignoreCase)
      <==> (if ignoreCase then ToLower(FirstWord(line)) == k else FirstWord(line) == k)
  {
    var i := Indent(line);
    var w := FirstWord(line);
    var e := WordEnd(line, i);
    if MatchesKeyword(line, k, ignoreCase) {
      // every character of the match is a word character, and the one after is not
      forall j | i <= j < i + |k| ensures IsWordChar(line[j]) {
        var c := line[i..i + |k|][j - i];
        if ignoreCase {
          assert ToLower(line[i..i + |k|])[j - i] == k[j - i];
        }
        assert IsWordChar(k[j - i]);
      }
      WordEndIs(line, i, i + |k|);
    }
  }

  /** The end of the word run is the first position that is not a word character. */
  lemma {:induction false} WordEndIs(s: string, i: nat, e: nat)
    requires i <= e <= |s|
    requires forall j :: i <= j < e ==> IsWordChar(s[j])
    requires !WordAt(s, e)
    ensures WordEnd(s, i) == e
    decreases e - i
  {
    if i < e {
      WordEndIs(s, i + 1, e);
    }
  }

  /** Every keyword is a non-empty run of word characters. */
  lemma KeywordsAreWords()
    ensures forall k :: k in Keywords ==> k != [] && AllWord(k)
  {}

  /**
   * `parse` finds a keyword iff the first word after the indent is one of the
   * alternatives, in any case; the text is that word as written.
   */
  lemma ParseIsFirstWord(line: string, i: nat)
    ensures Parse(line, i).Some? <==> ToLower(FirstWord(line)) in Keywords
    ensures Parse(line, i).Some? ==> Parse(line, i).value.text == FirstWord(line)
  {
    KeywordsAreWords();
    forall k | k in Keywords ensures MatchesKeyword(line, k, true) <==> ToLower(FirstWord(line)) == k {
      MatchIsFirstWord(line, k, true);
    }
    var r := FirstAlternative(line, Keywords, true);
    if r.Some? {
      assert ToLower(FirstWord(line)) == r.value;
      assert |FirstWord(line)| == |r.value|;
    }
  }

  /** `isCloseAble`, case-sensitive. */
  predicate IsCloseAble(line: string) { FirstWord(line) in CloseAbleKeywords }

  /** `isClosing`, case-sensitive. */
  predicate IsClosing(line: string) { FirstWord(line) in ClosingKeywords }

  /** `isIncreasingIndent`, case-sensitive. */
  predicate IsIncreasingIndent(line: string) { FirstWord(line) in IncreasingKeywords }

  /** `isNotCloseAble`, case-sensitive. */
  predicate IsNotCloseAble(line: string) { FirstWord(line) in NotCloseAbleKeywords }

  /** `isClosing` is true exactly for the `end` keywords, `else` and `elseif`, as its pattern reads. */
  lemma IsClosingMatchesPattern(line: string)
    ensures IsClosing(line) <==> exists k | k in ClosingKeywords :: MatchesKeyword(line, k, false)
  {
    forall k | k in ClosingKeywords ensures MatchesKeyword(line, k, false) <==> FirstWord(line) == k {
      MatchIsFirstWord(line, k, false);
    }
  }

  /** `isCloseAble` reads its pattern the same way. */
  lemma IsCloseAbleMatchesPattern(line: string)
    ensures IsCloseAble(line) <==> exists k | k in CloseAbleKeywords :: MatchesKeyword(line, k, false)
  {
    forall k | k in CloseAbleKeywords ensures MatchesKeyword(line, k, false) <==> FirstWord(line) == k {
      MatchIsFirstWord(line, k, false);
    }
  }

  /** The closeable and the indent-increasing keywords are the same set. */
  lemma CloseAbleIsIncreasing(line: string)
    ensures IsCloseAble(line) <==> IsIncreasingIndent(line)
  {}

  /** `else` and `elseif` both close and reopen a block. */
  lemma NotCloseAbleClosesAndOpens(line: string)
    ensures IsNotCloseAble(line) ==> IsClosing(line) && IsCloseAble(line)
  {}

  /** The line classifiers only see lower-case keywords, while `parse` also accepts upper case. */
  lemma UpperCaseKeyword(line: string, i: nat)
    requires FirstWord(line) == "IF"
    ensures Parse(line, i).Some? && Parse(line, i).value.text == "IF"
    ensures !IsCloseAble(line) && !IsIncreasingIndent(line) && !IsClosing(line)
  {
    assert ToLower("IF") == "if";
    assert Keywords[10] == "if";
    ParseIsFirstWord(line, i);
    TwoLetterKeywords();
    assert "IF"[0] != "if"[0];
  }

  /** `if` is the only two-letter keyword of the classifiers. */
  lemma TwoLetterKeywords()
    ensures forall k | k in CloseAbleKeywords + ClosingKeywords :: |k| == 2 ==> k == "if"
  {}
}

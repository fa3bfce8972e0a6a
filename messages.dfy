/** The message texts of `server/src/messageUtil.ts`. */
module Messages {
  import opened Text
  import Diagnostics

  /** `unknownToken`: the same text as `errorMessage`. */
  function UnknownToken(found: string): (m: string)
    ensures m == Diagnostics.ErrorMessage(found)
    ensures m[..|found|] == found
  {
    found + " is unknown."
  }

  /** The advice shown for a deprecated `[tag]` section. */
  const DeprecatedTagSection: string :=
    "Replace [tag] sections with [tags].\n"
    + "Enclose the tag name in double quotes in case it contains special characters.\n"
    + "\n"
    + "[tag]\n"
    + "  name = k\n"
    + "  value = v\n"
    + "[tag]\n"
    + "  name = my column\n"
    + "  value = my value\n"
    + "\n"
    + "[tags]\n"
    + "  k = v\n"
    + "  \"my column\" = my value\n"

  /**
   * `settingsWithWhitspaces`. The pattern handed to `replace` is the string
   * `s+` (the escape `\s` in a string literal is a plain `s`), so only the first
   * literal `s+` is replaced by a dash and whitespace is left as it is.
   */
  function SettingsWithWhitespaces(found: string): string {
    "The setting " + found + " contains whitespaces. Replace them with the dash\n "
    + ReplaceFirst(found, "s+", "-") + "."
  }

  /** `tagNameWithWhiteSpace` */
  function TagNameWithWhiteSpace(found: string): string {
    "The tag name " + found + " contains whitespaces. Wrap it in double quotes."
  }

  /** The suggested spelling keeps a name that has no literal `s+` as it is, whitespace included. */
  lemma SettingsWithWhitespacesKeepsSpaces(found: string)
    requires IndexOf(found, "s+").None?
    ensures SettingsWithWhitespaces(found)
      == "The setting " + found + " contains whitespaces. Replace them with the dash\n " + found + "."
  {}

  /** Only the first `s+` becomes a dash: the text before it is kept and one character is dropped. */
  lemma {:induction false} ReplaceFirstShape(s: string, p: string, r: string)
    requires p != [] && IndexOf(s, p).Some?
    ensures var i := IndexOf(s, p).value;
      |ReplaceFirst(s, p, r)| == |s| - |p| + |r|
      && ReplaceFirst(s, p, r)[..i] == s[..i]
      && IndexOf(ReplaceFirst(s, p, r)[..i], p).None?
  {
    var i := IndexOf(s, p).value;
    var t := ReplaceFirst(s, p, r);
    assert t[..i] == s[..i];
    forall j | 0 <= j <= i ensures !HasAt(s[..i], j, p) {
      if j + |p| <= i {
        var u, v := s[..i][j..j + |p|], s[j..j + |p|];
        forall k | 0 <= k < |p| ensures u[k] == v[k] {
          assert s[..i][j + k] == s[j + k];
        }
        assert u == v;
        assert !HasAt(s, j, p);
      }
    }
  }

  /** The tag message names the tag: two different names give two different messages. */
  lemma TagNameWithWhiteSpaceInjective(a: string, b: string)
    ensures TagNameWithWhiteSpace(a) == TagNameWithWhiteSpace(b) ==> a == b
  {
    var pre := "The tag name ";
    if TagNameWithWhiteSpace(a) == TagNameWithWhiteSpace(b) {
      assert |a| == |b|;
      assert a == TagNameWithWhiteSpace(a)[|pre|..|pre| + |a|];
      assert b == TagNameWithWhiteSpace(b)[|pre|..|pre| + |b|];
    }
  }
}

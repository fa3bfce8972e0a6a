# Axibase Charts language server, modelled in Dafny

Axibase Charts configurations are line-oriented text: `[section]` headers,
`name = value` settings, and keyword blocks (`if`/`elseif`/`else`/`endif`,
`for`/`endfor`, `list`/`endlist`, `var`/`endvar`, `csv`/`endcsv`,
`script`/`endscript`). The language server of the editor extension checks a
document and reports diagnostics. It also recomputes the indentation of every
line and proposes whitespace-only edits.

This project models the core of that server and proves properties about it:

- **The validator.** `class Validator` in `validator.dfy` walks the
  comment-stripped lines once. While it walks, it keeps:
  - the stack of open keywords;
  - the settings of the current, previous and parent sections and of each
    `if` branch;
  - the declared variables, aliases and de-aliases;
  - the column count of a CSV block.

  Every leaf operation of the source's `Validator` (checking a terminator,
  closing a section, recording a setting, handling `for`/`list`/`csv`/`script`
  lines, and so on) is a method of that class. Each method is proved against
  a function in `validator_spec.dfy`. The line walk itself
  (`lineByLine`, `eachLine` and `handleSettings`) is modelled by the functions
  `ValidatorSpec.LineByLineStep`, `Run` and `LineStep`. The properties that
  relate several operations are in `validator_props.dfy`. The regular
  expressions the validator uses are hand-written recognizers in
  `validator_patterns.dfy` and `patterns.dfy`.
- **The setting type checker** (`setting.dfy`): canonical setting names and
  the grammars of numbers, integers, booleans, enums, intervals, local and
  zoned dates and calendar expressions. `checkType` is the function
  `Settings.CheckType`.
- **The formatter.** `class Formatter` in `formatter.dfy` is proved against
  the step functions beside it. Its properties are in `formatter_props.dfy`.
- **The supporting pieces:**
  - the keyword recognizers of `TextRange` (`textrange.dfy`);
  - the static tables and the ancestor closure of sections (`resources.dfy`);
  - the collection, CSV-column, comment and script helpers (`util.dfy`);
  - the diagnostic builders (`diagnostics.dfy`);
  - the message texts (`messages.dfy`);
  - the client's status-code classifier (`status.dfy`).

The shared pieces are:

- `text.dfy` has the JavaScript character classes and string built-ins the
  source relies on: `\s`, `\w`, `.`, `\b`, `trim`, `indexOf`, `split`,
  `replace` with a string pattern, and number rendering.
- `wrappers.dfy` has `Option` and `Result`.
- `ordered_map.dfy` has an insertion-ordered map, which stands for the
  JavaScript `Map` of variables.

An exception thrown by the source becomes a `Failure`, or a `Thrown` status
of the validator, carrying the same message.

## Model

| member | source | states |
|---|---|---|
| Diagnostics.CreateDiagnostic | server/src/util.ts:82-84 | the diagnostic keeps the given range, severity and message and always carries the source "Axibase Charts" |
| Diagnostics.ErrorMessage | server/src/util.ts:12-13 | the message is the found text followed by " is unknown." |
| Diagnostics.ErrorMessageInjective | server/src/util.ts:12-13 | two different unknown tokens never share a message |
| Messages.UnknownToken | server/src/messageUtil.ts:7 | `unknownToken` produces exactly the text of `errorMessage` and starts with the token |
| Messages.SettingsWithWhitespacesKeepsSpaces | server/src/messageUtil.ts:22-24 | a name without a literal `s+` is repeated as it is, whitespace included, because the pattern is the plain string `s+` |
| Messages.ReplaceFirstShape | server/src/messageUtil.ts:24 | a string-pattern `replace` changes only the first occurrence: the text before it is kept, no earlier occurrence exists, and the length changes by the difference of the two strings |
| Messages.TagNameWithWhiteSpaceInjective | server/src/messageUtil.ts:26-27 | the tag message names the tag: different tags give different messages |
| StatusCodes.Classify | client/src/util.ts:15-32 | success exactly for codes 100 to 599; the family's enum value is `floor(code / 100)`; otherwise the failure message is "Incorrect status code " and the code (or `undefined`) |
| StatusCodes.SameHundredSameFamily | client/src/util.ts:17 | two codes with the same hundreds digit both succeed or both fail, with the same family |
| StatusCodes.FamilyCodeInjective | client/src/util.ts:7-13 | the five families have five different enum values |
| StatusCodes.OutOfRangeThrows | client/src/util.ts:29-30 | codes below 100 (negative ones included) and above 599 throw "Incorrect status code" with the code |
| Util.IsInMap | server/src/util.ts:20-33 | true exactly when the value is defined and some value list holds it, directly or inside a nested list |
| Util.InPlainLists | server/src/util.ts:20-33 | on a map of plain lists, being in the map is being a member of one of its lists |
| Util.IsAnyInArray | server/src/util.ts:40-48 | true exactly when some element of the target occurs in the array |
| Util.AnyInSymmetric | server/src/util.ts:40-48 | sharing an element does not depend on which list is searched |
| Util.GetSetting | server/src/util.ts:53-57 | the dictionary entry under the canonical name, and none when that name is absent |
| Util.GetSettingCanonical | server/src/util.ts:53-57 | looking up the canonical name finds the same entry; in a dictionary keyed by canonical names the entry found carries that name |
| Util.IsEmpty | server/src/util.ts:126 | true exactly when every character is whitespace |
| Util.IsEmptyIffTrimEmpty | server/src/util.ts:126 | a line is empty in this sense exactly when `trim` leaves nothing |
| Util.RepetitionDiagnostic | server/src/util.ts:135-170 | a Warning with the fixed advice for `script`, `thresholds` and `colors`; otherwise an Error "name is already defined"; always at the given range and from the server |
| Util.CellEnd | server/src/util.ts:67 | a column match is non-empty and stays within the line |
| Util.NextCell | server/src/util.ts:69 | one `exec` of the global column pattern moves `lastIndex` strictly forward |
| Util.CountCsvColumns | server/src/util.ts:63-74 | the loop counts the matches of the column pattern from the start of the line |
| Util.QuoteFreeColumns | server/src/util.ts:63-74 | on a line without quotes the column count is the number of maximal runs of characters other than comma, space and tab |
| Util.EmptyLineNoColumns | server/src/util.ts:64-66 | the empty line has no columns |
| Util.BlockComment | server/src/util.ts:93 | the match starts with `/*` at the leftmost opener from `lastIndex` and ends just after a `*/`; none means no opener is ever closed |
| Util.CommentEnd | server/src/util.ts:94 | a `#` comment runs from its line start to just before the next line terminator or the end of the text |
| Util.LineComment | server/src/util.ts:94 | the match is the leftmost `#` comment from `lastIndex`, it holds no line terminator, and none means no `#` comment starts there or later |
| Util.Blanked | server/src/util.ts:101-105 | the replacement has a space per character followed by the comment's line feeds, so it keeps their number |
| Util.BlankedLine | server/src/util.ts:101-105 | a one-line comment becomes exactly as many spaces as it has characters |
| Util.Splice | server/src/util.ts:106 | replacing a comment keeps the number of line feeds and grows the text only by the comment's line feeds |
| Util.BlankLines | server/src/util.ts:94-110 | the `#` comment pass keeps the length of the text |
| Util.BlankLinesMeaning | server/src/util.ts:94-110 | the `#` comment pass turns every character inside a `#` comment into a space, keeps every other character, and leaves no `#` comment behind |
| Util.BlocksBlankedMeaning | server/src/util.ts:99-110 | the block-comment passes keep the text before the leftmost `/*`, write as many spaces as the comment has characters followed by as many line feeds as it holds, and go on after the comment; when no opener is ever closed the rest of the text is kept |
| Util.BlocksBlankedLineFeeds | server/src/util.ts:99-110 | the block-comment passes keep the number of line feeds, so line numbers do not move |
| Util.LeadingBlockComment | server/src/util.ts:99-110 | `/**/ x = 1` becomes four spaces followed by ` x = 1` |
| Util.DeleteComments | server/src/util.ts:91-114 | the result is the `#` pass applied to the block-comment passes, in this order (so `BlocksBlankedMeaning` and `BlankLinesMeaning` together say what every character becomes); the number of line feeds is kept and neither a block comment nor a `#` comment is left; a text without comments is unchanged; without block comments the length is kept and exactly the characters inside `#` comments become spaces |
| Util.ScriptSpan | server/src/util.ts:122 | a match is the word `script` followed, at least one character later, by the word `endscript` |
| Util.ReplaceScriptsFrom | server/src/util.ts:122 | from `lastIndex` on, a text without a span is kept as it is; otherwise the text before the first span is kept and `script\nendscript` follows it; the replacement never grows the text |
| Util.DeleteScripts | server/src/util.ts:121-122 | a text without a span is unchanged; otherwise the text before the first span is kept, the span becomes `script\nendscript` and the rest is replaced the same way from the span's end; the text never grows |
| Settings.ClearSetting | server/src/setting.ts:77-79 | the canonical name is never longer than the input |
| Settings.ClearSettingLower | server/src/setting.ts:77-79 | the canonical name holds only the letters `a` to `z` |
| Settings.ClearSettingKeepsLower | server/src/setting.ts:77-79 | a name of lower-case letters is its own canonical name |
| Settings.ClearSettingIdempotent | server/src/setting.ts:77-79 | clearing twice is clearing once |
| Settings.ClearSettingAppend | server/src/setting.ts:78 | clearing works character by character: the canonical name of a concatenation is the concatenation of the canonical names |
| Settings.ToLowerIdempotent | server/src/setting.ts:139 | lower-casing an enum option twice is lower-casing it once |
| Settings.NewSetting | server/src/setting.ts:137-141 | the constructor keeps the display name and exclusions, sets the name to the canonical display name (letters `a` to `z` only), and lower-cases every enum option without changing the options otherwise |
| Settings.CheckType | server/src/setting.ts:150-238 | a value with `@{…}` or `${…}` passes; an unknown type tag throws "type is not handled"; for a known tag the result is no diagnostic exactly when the tag's grammar accepts the value; a diagnostic is at the given range, and it is a Warning exactly for a bare run of digits in `updateinterval` |
| Settings.IntegerIsNumber | server/src/setting.ts:31-46 | every integer value is also a number value |
| Settings.FractionIsNotInteger | server/src/setting.ts:31 | a value with a decimal point is not an integer |
| Settings.BareDigitsAreNotInterval | server/src/setting.ts:33-36 | a bare run of digits is never a valid interval |
| Settings.BareSecondsSeverity | server/src/setting.ts:205-222 | a bare number of seconds in an interval setting is reported: as a Warning in `updateinterval`, as an Error elsewhere |
| Settings.StringFailsOnlyWhenEmpty | server/src/setting.ts:159-164 | a string setting is reported exactly when the value is empty |
| Settings.EnumOutcome | server/src/setting.ts:192-204 | an enum value passes exactly when some option equals it ignoring case; otherwise the message is "name must be one of:" and the listed options |
| Settings.MonthRange | server/src/setting.ts:40 | the month field accepts exactly the two-digit values 01 to 12 |
| Settings.DayRange | server/src/setting.ts:40 | the day field accepts exactly the two-digit values 01 to 31 |
| Settings.HourRange | server/src/setting.ts:42 | the hour field accepts exactly the two-digit values 00 to 24 |
| Settings.MinuteRange | server/src/setting.ts:42 | the minute and second fields accept exactly the two-digit values 00 to 59 |
| Settings.YearRange | server/src/setting.ts:40 | the year field accepts exactly the four-digit years from 1970 on |
| Resources.SettingsMapOf | server/src/resources.ts:32-42 | every entry is stored under its own canonical name and is normalised; every complete entry's name is a key |
| Resources.CreateSettingsMap | server/src/resources.ts:32-42 | the loop builds exactly that map |
| Resources.LastEntryWins | server/src/resources.ts:36-37 | a name holds the last complete entry with that canonical name: later entries overwrite earlier ones |
| Resources.OnlyCompleteEntries | server/src/resources.ts:35-37 | every stored setting comes from a complete entry |
| Resources.RequiredSectionSettings | server/src/resources.ts:50-65 | `series` has the two slots (entity, value, entities, entitygroup) and (metric, value, table, attribute); `widget` has [type]; `dropdown` has [onchange, changefield]; no other section has slots |
| Resources.ParentsRankLower | server/src/resources.ts:70-78 | every parent in the table is less deeply nested than its child, so the recursion of `getParents` ends |
| Resources.GetParents | server/src/resources.ts:83-94 | the recursive loop returns the depth-first ancestor list: each parent followed by its own ancestors |
| Resources.AncestorsRankLower | server/src/resources.ts:83-94 | every ancestor is less deeply nested than the section |
| Resources.NotOwnAncestor | server/src/resources.ts:83-94 | a section is never among its own ancestors |
| Resources.NoEntryNoAncestors | server/src/resources.ts:85-86 | a section without an entry in the table has no ancestors |
| Resources.AncestorsClosure | server/src/resources.ts:87-90 | the ancestors are exactly the parents and the parents' ancestors |
| Resources.ParentTableUsesKnownSections | server/src/resources.ts:70-102 | every section of the parent table, and every parent in it, is one of the possible sections |
| TextRanges.FirstAlternative | server/src/textRange.ts:11 | the alternation picks an alternative that matches at the line start followed by a word boundary, and none only when no alternative matches |
| TextRanges.Parse | server/src/textRange.ts:53-64 | a found keyword's range is `[indent, indent + length)` on line `i` |
| TextRanges.ParseIsFirstWord | server/src/textRange.ts:10-11 | `parse` finds a keyword exactly when the first word after the blanks is a keyword in any case, and the text is that word as written; so `format = x` is not a keyword line while `elseif` and `endif` are whole keywords |
| TextRanges.MatchIsFirstWord | server/src/textRange.ts:11 | a pattern `^[ \t]*k\b` for a word `k` matches exactly when `k` is the first word after the blanks |
| TextRanges.IsClosingMatchesPattern | server/src/textRange.ts:27-29 | `isClosing` is true exactly when one of `endfor`, `endif`, `endlist`, `endvar`, `endscript`, `endcsv`, `elseif`, `else` matches at the line start |
| TextRanges.IsCloseAbleMatchesPattern | server/src/textRange.ts:18-20 | `isCloseAble` is true exactly when one of its eight keywords matches at the line start |
| TextRanges.CloseAbleIsIncreasing | server/src/textRange.ts:35-37 | `isCloseAble` and `isIncreasingIndent` accept the same lines |
| TextRanges.NotCloseAbleClosesAndOpens | server/src/textRange.ts:44-46 | an `else` or `elseif` line is both closing and closeable |
| TextRanges.UpperCaseKeyword | server/src/textRange.ts:11-28 | `IF` is found by the case-insensitive `parse` as written, while the case-sensitive classifiers reject it |
| Patterns.SectionHeader | server/src/validator.ts:524 | a header match is blanks, `[`, a non-empty word and `]`; the name is that word |
| Patterns.SectionHeaderComplete | server/src/validator.ts:524 | every line made of blanks, `[`, a word and `]` is a header for that word, whatever follows |
| Patterns.UnclosedSection | server/src/validator.ts:544 | an unclosed header is whitespace, `[` and a word followed only by whitespace |
| Patterns.ClosedIsNotUnclosed | server/src/validator.ts:544 | a line with a complete header is never reported as unclosed |
| Patterns.ValueFrom | server/src/validator.ts:533 | the lazy value group is non-empty, holds no line terminator and occurs in the line |
| Patterns.SettingAssignment | server/src/validator.ts:533 | a `name = value` match: the name starts after the leading whitespace, has at least two characters and is written there in the line; the value is non-empty, on one line and occurs in the line |
| Patterns.CommaTailMeaning | server/src/formatter.ts:233 | the scan for `.*,\s*$` succeeds exactly when some comma on the line is followed only by whitespace up to a line end |
| Patterns.OpensAfterEquals | server/src/formatter.ts:233 | after `=`, the bracket is found exactly where the whitespace run stops |
| Patterns.VarOpensFromMeaning | server/src/validator.ts:1011 | the scan for `=\s*(\[|\{)(|.*,)\s*$` succeeds exactly when some `=` is followed by an opening bracket and a tail that is empty or ends in a comma |
| Patterns.EqualsOrCommaFromMeaning | server/src/validator.ts:810 | the scan for `(=|,)[ \t]*$` succeeds exactly when some `=` or `,` is followed only by blanks up to a line end |
| Patterns.EqualsOrCommaAtEndOfLine | server/src/formatter.ts:239 | a line ending in `=` or `,` before trailing blanks matches |
| Patterns.BlankLineFromMeaning | server/src/validator.ts:674 | the scan for `^[ \t]*$` with the `m` flag succeeds exactly when some line of the text is blank |
| Formatting.ExtraSpacesEdit | server/src/formatter.ts:203-210 | an edit exists exactly when the line ends in whitespace; it deletes `[len - k, len)` for the maximal trailing whitespace run of length `k` |
| Formatting.Fetch | server/src/formatter.ts:135-148 | `getLine` returns line `i` lower-cased, and nothing past the last line; the cache stays valid; only edits that delete whitespace are added, and no other field changes |
| Formatting.CurrentLine | server/src/formatter.ts:120-127 | `getCurrentLine` returns the lower-cased current line and keeps the cache valid |
| Formatting.Unit | server/src/formatter.ts:153-161 | one level of indent is `tabSize` characters with spaces, or one character otherwise |
| Formatting.Increased | server/src/formatter.ts:153-161 | `increaseIndent` appends one level and keeps the old indent as a prefix |
| Formatting.Decreased | server/src/formatter.ts:104-115 | `decreaseIndent` is a no-op on the empty indent; otherwise it drops one level from the end, clamping at the empty indent, and the result is a prefix of the old indent |
| Formatting.DecreaseUndoesIncrease | server/src/formatter.ts:104-161 | decreasing after increasing gives back the indent, with spaces or with tabs |
| Formatting.DecreaseEmpty | server/src/formatter.ts:105-107 | decreasing the empty indent changes nothing |
| Formatting.SectionName | server/src/formatter.ts:194 | a section name found in a header is a non-empty run of `a` to `z` |
| Formatting.LeadingIndent | server/src/formatter.ts:91 | the indent is the leading whitespace, followed by a non-whitespace character; there is none exactly for an all-whitespace line |
| Formatting.CalculateIndentStep | server/src/formatter.ts:63-85 | `calculateIndent` makes the header's name the current section and the old current the previous one, and leaves the keyword stack as it was |
| Formatting.IndentAfter | server/src/formatter.ts:69-85 | after the header is read, only the indent and the keyword mark can change |
| Formatting.CheckIndentStep | server/src/formatter.ts:90-99 | `checkIndent` changes no indent, stack, mark or section |
| Formatting.LookAhead | server/src/formatter.ts:248-258 | the look-ahead after `script =` only reads lines: the indent, stack, mark and sections stay |
| Formatting.ShouldBeClosedStep | server/src/formatter.ts:225-266 | `shouldBeClosed` only reads lines: the indent, stack, mark and sections stay |
| Formatting.CloseAfter | server/src/formatter.ts:244-262 | only a `script =` line reads ahead, and reading ahead changes no indent, stack, mark or section |
| Formatting.FormatLine | server/src/formatter.ts:32-53 | one step of the `forEach` sets the current line to its index and keeps the cache valid |
| Formatting.HeaderOrBlankStep | server/src/formatter.ts:34-42 | a header or blank line keeps the cache valid and the line number |
| Formatting.KeywordLineStep | server/src/formatter.ts:43-52 | any other line keeps the cache valid and the line number |
| Formatting.Closed | server/src/formatter.ts:43-46 | a closing line pops the stack and sets the indent to the popped one; on an empty stack nothing changes |
| Formatting.Opened | server/src/formatter.ts:48-52 | an opening line pushes the current indent, increases the indent by one level and marks the keyword |
| Formatting.RunStep | server/src/formatter.ts:31-55 | the walk from line `i` is line `i`'s step followed by the walk from line `i + 1` |
| Formatting.Run | server/src/formatter.ts:30-58 | the walk over the remaining lines keeps the line cache consistent with the document |
| Formatting.IsSectionStep | server/src/formatter.ts:193-197 | reading the current line to recognize a header stays on that line and keeps the cache consistent |
| Formatting.LookAheadAfter | server/src/formatter.ts:248-256 | the look-ahead for `endscript` changes neither the indent, the stack, the keyword mark nor the sections, and returns to the current line |
| Formatting.LookAheadUnfold | server/src/formatter.ts:248-258 | the look-ahead is one read through the cache followed by the rest of the look-ahead |
| Formatting.Formatter.constructor | server/src/formatter.ts:21-24 | the lines are the text split at line feeds, the options are kept and every field starts in the initial state |
| Formatting.Formatter.LineByLine | server/src/formatter.ts:30-58 | the loop leaves the state of the whole walk and returns its edits |
| Formatting.Formatter.FormatLineAt | server/src/formatter.ts:32-53 | the callback for one line leaves exactly the state of that line's step |
| Formatting.Formatter.FormatHeaderOrBlank | server/src/formatter.ts:34-42 | the header or blank branch leaves exactly the state of its step |
| Formatting.Formatter.FormatKeywordLine | server/src/formatter.ts:43-52 | the keyword branch leaves exactly the state of its step |
| Formatting.Formatter.OpenLevel | server/src/formatter.ts:49-51 | pushes the indent, goes one level deeper and marks the keyword |
| Formatting.Formatter.RestoreLevel | server/src/formatter.ts:44-45 | pops the stack and sets the popped indent, if any |
| Formatting.Formatter.CalculateIndent | server/src/formatter.ts:63-85 | leaves exactly the state of `calculateIndent` |
| Formatting.Formatter.IndentForHeader | server/src/formatter.ts:69-85 | leaves exactly the indent and mark the header rule gives |
| Formatting.Formatter.CheckIndent | server/src/formatter.ts:90-99 | leaves exactly the state of `checkIndent` |
| Formatting.Formatter.DecreaseIndent | server/src/formatter.ts:104-115 | the indent becomes the decreased indent and nothing else changes |
| Formatting.Formatter.GetCurrentLine | server/src/formatter.ts:120-127 | returns the lower-cased current line through the cache |
| Formatting.Formatter.GetLine | server/src/formatter.ts:135-148 | returns line `i` through the cache and updates the cache and edits as `getLine` does |
| Formatting.Formatter.IncreaseIndent | server/src/formatter.ts:153-161 | the indent becomes the increased indent and nothing else changes |
| Formatting.Formatter.IsNestedSection | server/src/formatter.ts:166-176 | true exactly when the previous section is among the ancestors `getParents` returns for the current one |
| Formatting.Formatter.IsSection | server/src/formatter.ts:193-197 | returns the header's section name, if any, as `isSection` does |
| Formatting.Formatter.RemoveExtraSpaces | server/src/formatter.ts:203-210 | appends the trailing-whitespace edit, if any, for the line being formatted |
| Formatting.Formatter.SetIndent | server/src/formatter.ts:216-220 | an undefined indent leaves the current one; a defined one replaces it |
| Formatting.Formatter.ShouldBeClosed | server/src/formatter.ts:225-266 | returns the answer of `shouldBeClosed` and leaves its state |
| Formatting.Formatter.CloseAfterKind | server/src/formatter.ts:231-262 | reads ahead only after `script =`, as `shouldBeClosed` does |
| Formatting.Formatter.ReadAhead | server/src/formatter.ts:249-257 | one read of the look-ahead, after which the look-ahead goes on as specified |
| Formatting.Formatter.LookAheadForEnd | server/src/formatter.ts:248-258 | the loop reads from the next line until a line holds the word `script` or `endscript`, or the lines end |
| FormatterProperties.UnitIsSpace | server/src/formatter.ts:153-161 | one level of indent is whitespace |
| FormatterProperties.NestedKeepsIndent | server/src/formatter.ts:79-81 | a nested header under an indent that ends in one level keeps that indent |
| FormatterProperties.OpenThenClose | server/src/formatter.ts:43-52 | opening a keyword and then closing it restores the indent and the stack |
| FormatterProperties.LowerKeepsSpaces | server/src/formatter.ts:141 | lower-casing leaves every whitespace character where it is and adds none |
| FormatterProperties.LowerKeepsRun | server/src/formatter.ts:141 | lower-casing keeps the end of every run of whitespace or blanks |
| FormatterProperties.LowerKeepsLeading | server/src/formatter.ts:91 | the leading whitespace of the lower-cased line is the leading whitespace of the line |
| FormatterProperties.CheckIndentEdit | server/src/formatter.ts:90-99 | `checkIndent` adds an edit exactly when the line has a non-whitespace character and its leading whitespace differs from the expected indent; the edit replaces exactly `(line, 0)..(line, len(indent))` with the expected indent |
| FormatterProperties.BlankIsNotHeader | server/src/formatter.ts:34 | a blank line is never a section header |
| FormatterProperties.BlankLineKeepsIndent | server/src/formatter.ts:34-42 | a blank line keeps the indent, the stack, the mark and the sections; its only edits delete trailing whitespace |
| FormatterProperties.GroupHeaderResetsIndent | server/src/formatter.ts:69-72 | a `[group]` or `[configuration]` header sets the indent to "" |
| FormatterProperties.HeaderIndentRule | server/src/formatter.ts:74-85 | a header not right after an opened keyword decreases the indent once, then increases it when the previous section is an ancestor, otherwise decreases it again unless both are on the same level |
| FormatterProperties.HeaderAfterKeyword | server/src/formatter.ts:74-77 | a header right after an opened keyword keeps the indent and clears the mark |
| FormatterProperties.ShouldBeClosedFalse | server/src/formatter.ts:225-266 | `shouldBeClosed` is false exactly for a `var` line that does not open a bracket block and a `list` line that does not end in `=` or `,` |
| FormatterProperties.CloseForFalse | server/src/formatter.ts:231-265 | the answer for a line is false exactly when the line opens nothing in that sense |
| FormatterProperties.ElseIsNotClosable | server/src/formatter.ts:227 | an `else` or `elseif` line is none of `var`, `list` or `script =` |
| FormatterProperties.ClosingLineRestores | server/src/formatter.ts:43-47 | a closing line that opens nothing pops the stack and returns to the indent it held; on an empty stack the indent stays |
| FormatterProperties.ElseReopens | server/src/formatter.ts:43-52 | `else` and `elseif` close the open block and reopen one: a non-empty stack ends as it was (an empty one ends holding the old indent) and the indent is one level under the restored one |
| FormatterProperties.ReopeningLine | server/src/formatter.ts:43-52 | a line that both closes and opens, and should be closed, pops and then pushes |
| FormatterProperties.ElseCloses | server/src/formatter.ts:228-230 | `shouldBeClosed` is true on an `else` or `elseif` line |
| FormatterProperties.OpeningLinePushes | server/src/formatter.ts:48-52 | a closeable line that should be closed pushes its indent and goes one level deeper |
| FormatterProperties.UnclosedLineKeepsLevel | server/src/formatter.ts:47-52 | a line that opens nothing keeps the indent, the stack and the mark |
| FormatterProperties.FormatLineKeeps | server/src/formatter.ts:32-53 | each step keeps every indent whitespace and every edit whitespace on one line of the document |
| FormatterProperties.EditsAreWhitespace | server/src/formatter.ts:30-58 | the formatter only changes whitespace: every edit of the walk puts whitespace, or nothing, in place of a range within one line |
| ValidatorPatterns.WordInWord | server/src/validator.ts:129 | inside a text made only of word characters, `\bw\b` matches exactly when the text is `w` |
| ValidatorPatterns.OpensBlockIff | server/src/validator.ts:129 | a keyword opens a block the validator pushes exactly when it is `if`, `for` or `csv` in any letter case |
| ValidatorPatterns.EqualsEndFromMeaning | server/src/validator.ts:671 | `/=[ \t]*$/m` holds from `d` on exactly when some `=` at or after `d` is followed only by blanks up to a line end |
| ValidatorPatterns.CsvAt | server/src/validator.ts:684 | a match at a line start declares a word-character name standing where the match says |
| ValidatorPatterns.CsvFrom | server/src/validator.ts:684 | under the `m` flag the match starts at a line start at or after the search start, and its name stands where it says |
| ValidatorPatterns.CsvDeclaration | server/src/validator.ts:684 | the name of a `csv name =` line stands in the line where the match says |
| ValidatorPatterns.VarAt | server/src/validator.ts:1012 | a match at `i` begins with `var` and declares a word-character name standing where it says |
| ValidatorPatterns.VarFrom | server/src/validator.ts:1012 | the match is the leftmost one: no position between the search start and the match starts a `var name =` |
| ValidatorPatterns.VarDeclaration | server/src/validator.ts:1012 | the name of a `var name =` line stands in the line where the match says |
| ValidatorPatterns.ListDeclaration | server/src/validator.ts:808 | a list match starts at the line start with `list` after the whitespace, and names a word-character name standing where it says |
| ValidatorPatterns.ScriptTrailing | server/src/validator.ts:837 | a match gives the indent of a `script` keyword that more non-blank text follows on the line |
| ValidatorPatterns.ScriptEqualsIsAssignment | server/src/validator.ts:833-837 | a `script` line whose trailing text starts with `=` is a one-line `script = ...` setting, so it never reaches the trailing-text error |
| ValidatorPatterns.ForAt | server/src/validator.ts:729 | a `for` match at a line start declares the loop variable where it says and ends with the word `in` |
| ValidatorPatterns.ForFrom | server/src/validator.ts:729 | under the `m` flag the match starts at or after the search start, its variable stands where it says and it ends with `in` |
| ValidatorPatterns.ForHeader | server/src/validator.ts:729 | the loop variable of a `for` line stands where the match says, and the match is at least as long as `in` |
| ValidatorPatterns.CollectionAt | server/src/validator.ts:732 | the collection found after `in` has a non-empty name, positioned right after the first group |
| ValidatorPatterns.ForInAt | server/src/validator.ts:732 | a collection found at a line start has a non-empty name |
| ValidatorPatterns.ForInFrom | server/src/validator.ts:732 | a collection found from a line start on has a non-empty name |
| ValidatorPatterns.ForCollection | server/src/validator.ts:732 | the collection of a `for` line, when there is one, has a non-empty name |
| ValidatorPatterns.ForCollectionOfPlainLoop | server/src/validator.ts:732 | `for v in c` with word names iterates over the plain name `c`, whose first group is `for v in ` |
| ValidatorPatterns.PlainCollection | server/src/validator.ts:732 | a word that runs to the end of the line and is not `Object.keys(` is taken as the collection name |
| ValidatorPatterns.TagNameEnd | server/src/validator.ts:934 | the lazy tag name found ends in a lower-case letter and only blanks separate it from `=` |
| ValidatorPatterns.TagAssignment | server/src/validator.ts:934 | a tag line match starts after the leading blanks, and its name has at least two characters and stands where it says |
| ValidatorPatterns.AliasAt | server/src/validator.ts:927 | an `alias = name` match at a line start declares a name standing where it says |
| ValidatorPatterns.AliasFrom | server/src/validator.ts:927 | under the `m` flag the alias match starts at or after the search start, and its name stands where it says |
| ValidatorPatterns.AliasDeclaration | server/src/validator.ts:927 | the alias an `alias = name` line declares stands in the line where the match says |
| ValidatorPatterns.QuoteClose | server/src/validator.ts:562 | the lazy `\S+?` of a `value(...)` use ends at the same quote, followed by `)` |
| ValidatorPatterns.DeAliasAt | server/src/validator.ts:562 | a use at `i` is `value(` with an opening quote, a non-empty name and the same quote followed by `)` |
| ValidatorPatterns.NextDeAlias | server/src/validator.ts:562-570 | the next use found from `lastIndex` on lies within the line after the search start |
| ValidatorPatterns.NextDeAliasFound | server/src/validator.ts:562-570 | the global search finds the first `value('name')` use at or after `lastIndex`: that use matches there, and none starts before it |
| ValidatorPatterns.BraceClose | server/src/validator.ts:581 | the closing brace found is a `}` at or after the search position |
| ValidatorPatterns.BracedAt | server/src/validator.ts:1078 | a `{...}` or `@{...}` match at `i` starts with the opening, is not empty and ends with `}` |
| ValidatorPatterns.NextBraced | server/src/validator.ts:1078-1104 | the next braced match found lies within the line after the search start |
| ValidatorPatterns.NextBracedFound | server/src/validator.ts:1078-1104 | the global search finds the first braced match at or after `lastIndex`, and none starts before it |
| ValidatorPatterns.NextVariable | server/src/validator.ts:1083-1102 | the next name found lies within the placeholder after the search start |
| ValidatorPatterns.NextVariableFound | server/src/validator.ts:1083 | a name found starts with a letter or `_`, runs to the end of its word, and no quote or `(` follows it |
| ValidatorPatterns.VariablesFrom | server/src/validator.ts:1083-1102 | every name the global search finds is a non-empty span of the placeholder |
| ValidatorPatterns.CallIsNotVariable | server/src/validator.ts:1083 | in `f(x)` the look-ahead refuses the function name `f` and keeps only the argument `x` |
| ValidatorPatterns.DirectiveFrom | server/src/validator.ts:367 | the directive found is the leftmost `<#list` or `<#assign` at or after the start, and its length is that of the directive |
| ValidatorPatterns.FreemarkerDirective | server/src/validator.ts:367 | a directive is found exactly when the line holds `<#list` or `<#assign` somewhere, and it is the first one |
| ValidatorPatterns.DirectiveBody | server/src/validator.ts:540 | a listed variable of `list x as` is non-empty and occurs in the line |
| ValidatorPatterns.FreemarkerAssign | server/src/validator.ts:794 | the variable of an `<#assign`/`<#list ... as` line stands after the first group, and the listed collection occurs in the line |
| ValidatorPatterns.LastBrace | server/src/validator.ts:390 | the brace found is the last `}` of the range, and when none is found the range holds no `}` |
| ValidatorPatterns.ExpressionAt | server/src/validator.ts:390 | an expression at `i` starts with `${` and its greedy match ends at a `}` |
| ValidatorPatterns.ExpressionFrom | server/src/validator.ts:390 | the expression found is the leftmost `${...}` match at or after the start |
| ValidatorPatterns.FreemarkerExpression | server/src/validator.ts:390 | the expression of a value starts with `${` and ends with `}` |
| ValidatorPatterns.NextWordRun | server/src/validator.ts:396-398 | the next word run found lies after the search start |
| ValidatorPatterns.NextWordRunFound | server/src/validator.ts:396-398 | `/(\w+)/g` finds a maximal run of word characters and skips only other characters; none is found only when no word character is left |
| ValidatorSpec.At | server/src/util.ts:82-84 | a diagnostic built on one line has that line's range, the given severity and message, and the validator's source |
| ValidatorSpec.Texts | server/src/validator.ts:288-292 | the texts of the keyword stack, one per keyword, in order |
| ValidatorSpec.LastKeyword | server/src/validator.ts:607-614 | there is a last keyword exactly when the stack is not empty, and it is the text of the top, one of the stack's texts |
| ValidatorSpec.GetLine | server/src/validator.ts:621-623 | a line exists exactly for numbers inside the document, and it is that line lower-cased |
| ValidatorSpec.NextNonBlank | server/src/validator.ts:672-676 | the line found is a lower-cased document line at or after `j` that is not blank; none is found only when every line from `j` on is blank |
| ValidatorSpec.DeclaredMeaning | server/src/util.ts:20-33 | a name is declared exactly when `isInMap` finds it in one of the value lists of the variables |
| ValidatorSpec.DeclaredIndex | server/src/util.ts:20-33 | a declared name lies in one particular list of the map |
| ValidatorSpec.DeclaredFrom | server/src/util.ts:20-33 | a name in any list of the map is declared |
| ValidatorSpec.AddToStringMapStep | server/src/validator.ts:256-281 | declaring a name changes only the diagnostics and the variables; its outcome, a duplicate Error or the append, is stated by `ValidatorProps.VariableDefinedOnce` |
| ValidatorSpec.AddAliasStep | server/src/validator.ts:229-248 | declaring an alias changes only the diagnostics and the aliases; its outcome is stated by `ValidatorProps.AliasDefinedOnce` |
| ValidatorSpec.WithSetting | server/src/validator.ts:196-202 | the list after `addToSettingArray` holds the setting, and exactly the settings of the old list and that one |
| ValidatorSpec.SettingArrayStep | server/src/validator.ts:183-204 | the repetition check of a setting list changes only the diagnostics |
| ValidatorSpec.AddCurrentToParentSettingsStep | server/src/validator.ts:157-163 | passing the section's settings to its parent changes only the parent settings |
| ValidatorSpec.UnknownAliases | server/src/validator.ts:297-305 | there is at most one diagnostic per use of an alias |
| ValidatorSpec.CheckAliasesStep | server/src/validator.ts:297-305 | checking the aliases changes only the diagnostics |
| ValidatorSpec.LeftKeywords | server/src/validator.ts:509-516 | one diagnostic per keyword left on the stack |
| ValidatorSpec.FindIndex | server/src/validator.ts:328-330 | `findIndex` gives the first position of the stack whose keyword has the text |
| ValidatorSpec.CheckEndStep | server/src/validator.ts:312-336 | an `end` keyword changes only the keyword stack and the diagnostics |
| ValidatorSpec.CheckFreemarkerStep | server/src/validator.ts:365-378 | the FreeMarker check changes only the diagnostics; when it reports is stated by `ValidatorProps.FreemarkerDirectiveReported` |
| ValidatorSpec.SpellingCheckStep | server/src/validator.ts:964-980 | the spelling check of a section name changes only the diagnostics; when it reports is stated by `ValidatorProps.UnknownSectionReported` |
| ValidatorSpec.Missing | server/src/validator.ts:426-466 | at most one missing name per required slot |
| ValidatorSpec.MissingNext | server/src/validator.ts:427-466 | the missing names are found slot by slot, in the order of the slots |
| ValidatorSpec.RequiredDiagnostics | server/src/validator.ts:467-471 | one `<name> is required` Error per missing name, in order, on the section's range |
| ValidatorSpec.SlotsFromLists | server/src/validator.ts:422-425 | the requirement lists of the table become slots one for one |
| ValidatorSpec.CheckPreviousSectionStep | server/src/validator.ts:418-474 | checking a finished section changes only the diagnostics and the pending requirements |
| ValidatorSpec.HandleSectionStep | server/src/validator.ts:853-879 | handling a section keeps the keyword stack, the variables, the URL parameters, the widget and the CSV state |
| ValidatorSpec.CloseSectionStep | server/src/validator.ts:853-854 | closing a section changes only the diagnostics, the requirements and the parent settings |
| ValidatorSpec.OpenSectionStep | server/src/validator.ts:855-878 | resuming or opening a section keeps the requirements, the stack, the variables and the URL parameters |
| ValidatorSpec.LeaveWidgetStep | server/src/validator.ts:865-870 | leaving a widget reports exactly the undeclared alias uses and forgets the aliases, their uses and the setting values, changing nothing else |
| ValidatorSpec.ResumeSectionStep | server/src/validator.ts:855-862 | a blank `[tags]` line either changes nothing or makes the previous section current again, sharing its settings list |
| ValidatorSpec.NewSectionStep | server/src/validator.ts:864-878 | a header becomes the current section with its name's range and no settings; the section it replaces and its settings become the previous ones |
| ValidatorSpec.EnterSectionStep | server/src/validator.ts:871-878 | entering a section empties its settings and `if` settings, keeps the old section as previous and drops the parent entry for the new name |
| ValidatorSpec.GetSettingCheckStep | server/src/validator.ts:629-663 | looking up a setting name changes only the diagnostics; when it reports is stated by `ValidatorProps.UnknownSettingReported` |
| ValidatorSpec.WithCurrentSettings | server/src/validator.ts:183-204 | the section's settings list is replaced, and the previous list with it when the two are one list; nothing else changes |
| ValidatorSpec.CheckRepetitionStep | server/src/validator.ts:480-504 | the repetition check changes only the diagnostics, the `if` settings and the section's settings (with the previous section's list when the two are one list) |
| ValidatorSpec.IfRepetitionStep | server/src/validator.ts:489-499 | inside an `if` the setting joins the list of the current condition and the section's own settings are untouched |
| ValidatorSpec.TypeCheckStep | server/src/validator.ts:1041-1055 | the type check changes only the diagnostics |
| ValidatorSpec.ExcludesDiagnostics | server/src/validator.ts:343-360 | at most one diagnostic per setting of the section; which ones is stated by `ValidatorProps.ExcludesDiagnosticsMeaning` |
| ValidatorSpec.CheckExcludesStep | server/src/validator.ts:343-360 | the excludes check changes only the diagnostics; what it adds is stated by `ValidatorProps.ExcludedSettingsReported` |
| ValidatorSpec.UrlParamsNext | server/src/validator.ts:581-587 | the URL parameters are collected one `{...}` match at a time, cleared like setting names |
| ValidatorSpec.FindUrlParamsStep | server/src/validator.ts:578-588 | finding the URL parameters changes only the URL parameters |
| ValidatorSpec.DeAliasRanges | server/src/validator.ts:560-572 | every alias use found lies on the line being checked |
| ValidatorSpec.DeAliasNext | server/src/validator.ts:562-571 | the alias uses are collected one `value('name')` match at a time, each with the range of its name |
| ValidatorSpec.FindDeAliasesStep | server/src/validator.ts:560-572 | finding the alias uses changes only the alias uses |
| ValidatorSpec.ExpressionNext | server/src/validator.ts:396-411 | the words of an expression are checked one word run at a time |
| ValidatorSpec.ExpressionOccurs | server/src/validator.ts:389-392 | the expression of a value found in its line occurs in that line too, so its position is defined |
| ValidatorSpec.CheckFreemarkerValueStep | server/src/validator.ts:385-413 | the FreeMarker value check changes only the diagnostics |
| ValidatorSpec.RequireCompanionStep | server/src/validator.ts:897-907 | a `table` or `attribute` setting changes only the pending requirements |
| ValidatorSpec.KnownSettingStep | server/src/validator.ts:895-929 | the checks of a known setting keep the section, the stack, the parent settings, the setting values and the variables |
| ValidatorSpec.SettingChecksStep | server/src/validator.ts:897-917 | the checks of the setting itself keep the section, the stack, the parents, the setting values and the variables |
| ValidatorSpec.ValueChecksStep | server/src/validator.ts:917-929 | the checks of the value keep the section, the stack, the parents, the setting values and the variables |
| ValidatorSpec.TagLineStep | server/src/validator.ts:931-950 | a tag line changes only the diagnostics |
| ValidatorSpec.HandleSettingsStep | server/src/validator.ts:884-952 | a setting line keeps the section, the keyword stack, the parents and the variables |
| ValidatorSpec.PlaceholderNext | server/src/validator.ts:1083-1102 | the names of a placeholder are checked one name at a time |
| ValidatorSpec.ForDiagnosticsNext | server/src/validator.ts:1078-1104 | the placeholders of a line are checked one `@{...}` match at a time |
| ValidatorSpec.ValidateForStep | server/src/validator.ts:1076-1106 | checking the placeholders changes only the diagnostics |
| ValidatorSpec.HandleForStep | server/src/validator.ts:727-764 | a `for` line changes only the diagnostics and the variables |
| ValidatorSpec.ForHeaderDiagnostics | server/src/validator.ts:733-757 | a `for` line without a collection gets exactly one `Empty 'in' statement` Error at `in`; one with a collection gets a diagnostic exactly when the collection is not declared |
| ValidatorSpec.HandleEndForStep | server/src/validator.ts:712-720 | `endfor` changes only the variables |
| ValidatorSpec.HandleFreemarkerStep | server/src/validator.ts:770-796 | a FreeMarker directive changes only the diagnostics and the variables; its outcome is stated by `ValidatorProps.FreemarkerListChecked` |
| ValidatorSpec.AssignmentLineStep | server/src/validator.ts:532-538 | a setting line keeps the section, the stack, the parents and the variables |
| ValidatorSpec.BodyLineStep | server/src/validator.ts:531-553 | a line other than a header keeps the section, the stack and the parents |
| ValidatorSpec.EachLineStep | server/src/validator.ts:521-555 | handling a line keeps the keyword stack, the found keyword, the last condition, the line counter and the CSV column count |
| ValidatorSpec.SetLastConditionStep | server/src/validator.ts:957-959 | an `if` line changes only the last condition |
| ValidatorSpec.HandleElseStep | server/src/validator.ts:693-707 | an `else` line changes only the diagnostics and the last condition; both messages are stated by `ValidatorProps.ElseOutsideIfReported` |
| ValidatorSpec.CsvHeader | server/src/validator.ts:670-682 | the header fails exactly when the line neither ends with `=` nor holds one; otherwise, for a line not ending with `=`, the header is the rest of the line after an `=` |
| ValidatorSpec.HandleCsvStep | server/src/validator.ts:668-687 | a `csv` line changes only the diagnostics, the column count and the variables, or throws and changes nothing; when it throws and the column count are stated by `ValidatorProps.CsvHeaderCounted` |
| ValidatorSpec.ValidateCsvStep | server/src/validator.ts:1060-1069 | a CSV row changes only the diagnostics |
| ValidatorSpec.HandleListStep | server/src/validator.ts:803-822 | a `list` line changes only the diagnostics, the keyword stack and the variables; the push is stated by `ValidatorProps.ListBlockOpens` |
| ValidatorSpec.ListOpens | server/src/validator.ts:810-821 | a list that ends with `=` or `,` stays open; otherwise it stays open exactly when the next non-blank line starts with `,` or holds the word `endlist`, and with no such line exactly when its line ends with `=` or `,` |
| ValidatorSpec.HandleScriptStep | server/src/validator.ts:828-847 | a `script` line changes only the diagnostics and the keyword stack; its outcome is stated by `ValidatorProps.ScriptBlockOpens` |
| ValidatorSpec.VarStep | server/src/validator.ts:1010-1014 | a `var` line changes only the diagnostics, the keyword stack and the variables |
| ValidatorSpec.EndForStep | server/src/validator.ts:991-1000 | `endfor` falls through: it forgets the loop variable as `handleEndFor` does, then closes like the other ends; nothing else changes |
| ValidatorSpec.SwitchKeywordStep | server/src/validator.ts:985-1035 | handling a keyword keeps the section, the settings, the aliases and the URL parameters |
| ValidatorSpec.KeywordStep | server/src/validator.ts:128-133 | a keyword line keeps the section, the settings, the aliases and the URL parameters |
| ValidatorSpec.LineStep | server/src/validator.ts:116-135 | a line inside a script block that does not end it is skipped with nothing changed but the found keyword, and without advancing the line counter; outside a script a line advances the counter by one |
| ValidatorSpec.Run | server/src/validator.ts:116-136 | the line counter never goes back, and it advances when a line outside a script is handled |
| Validators.MissingIgnoresRequired | server/src/validator.ts:427-466 | whether a slot is missing does not depend on the pending requirement list itself |
| Validators.Validator.constructor | server/src/validator.ts:103-106 | a new validator holds at least one line, none with a line break in it, and starts from the initial state: line 0, nothing open, no diagnostics, the FreeMarker names `entity`, `entities` and `type` declared |
| Validators.Validator.CheckFreemarker | server/src/validator.ts:365-378 | the diagnostics become those of `CheckFreemarkerStep`: one Information exactly when the line holds a FreeMarker directive (`ValidatorProps.FreemarkerDirectiveReported`) |
| Validators.Validator.SpellingCheck | server/src/validator.ts:964-980 | the diagnostics become those of `SpellingCheckStep`: one Error with a suggestion exactly when the name is not a possible section (`ValidatorProps.UnknownSectionReported`) |
| Validators.Validator.HandleSection | server/src/validator.ts:853-879 | every field `handleSection` touches becomes that of `HandleSectionStep` |
| Validators.Validator.CloseSection | server/src/validator.ts:853-854 | the diagnostics, requirements and parent settings become those of `CloseSectionStep` |
| Validators.Validator.OpenSection | server/src/validator.ts:855-878 | the section fields become those of `OpenSectionStep` |
| Validators.Validator.ResumeSection | server/src/validator.ts:855-862 | the section and its settings become those of `ResumeSectionStep` |
| Validators.Validator.LeaveWidget | server/src/validator.ts:865-870 | the diagnostics, aliases, their uses and the setting values become those of `LeaveWidgetStep` |
| Validators.Validator.NewSection | server/src/validator.ts:864-878 | the section fields become those of `NewSectionStep` |
| Validators.Validator.EnterSection | server/src/validator.ts:871-878 | the section fields become those of `EnterSectionStep` |
| Validators.Validator.CheckPreviousSection | server/src/validator.ts:418-474 | the diagnostics and requirements become those of `CheckPreviousSectionStep` |
| Validators.Validator.MissingSlots | server/src/validator.ts:426-466 | the labelled loop collects exactly the display names of the unfilled slots, in order |
| Validators.Validator.ReportRequired | server/src/validator.ts:467-471 | one `<name> is required` Error per missing name is appended to the diagnostics |
| Validators.Validator.SlotFound | server/src/validator.ts:428-465 | a slot counts as filled exactly when `SlotSatisfied` holds: by the `columnmetric`/`columnvalue` exception, the section's settings, a parent's, or every `if` branch with as many `if` as `else` keys |
| Validators.Validator.AddCurrentToParentSettings | server/src/validator.ts:157-163 | the parent settings become those of `AddCurrentToParentSettingsStep` |
| Validators.Validator.AddToParentsSettings | server/src/validator.ts:213-221 | the setting is appended to the list under the key, a missing list starting empty; the other keys are unchanged |
| Validators.Validator.CheckAliases | server/src/validator.ts:297-305 | the diagnostics become those of `CheckAliasesStep` |
| Validators.Validator.DiagnosticForLeftKeywords | server/src/validator.ts:509-516 | the diagnostics become those of `LeftKeywordsStep` |
| Validators.Validator.AddSettingValue | server/src/validator.ts:168-175 | the cleared value is stored under the cleared name; every other name keeps its value |
| Validators.Validator.GetSettingCheck | server/src/validator.ts:629-663 | the setting returned is the dictionary's setting for the name, and the diagnostics become those of `GetSettingCheckStep`: an unknown name is reported unless excused (`ValidatorProps.UnknownSettingReported`) |
| Validators.Validator.CheckRepetition | server/src/validator.ts:480-504 | the diagnostics, the `if` settings and the section's lists become those of `CheckRepetitionStep`, with its status |
| Validators.Validator.AddToIfSettings | server/src/validator.ts:489-499 | the diagnostics and the `if` settings become those of `IfRepetitionStep` |
| Validators.Validator.AddToSettingArray | server/src/validator.ts:183-204 | the list returned holds exactly the old settings and the new one, and the diagnostics become those of `SettingArrayStep` |
| Validators.Validator.TypeCheck | server/src/validator.ts:1041-1055 | the diagnostics and status become those of `TypeCheckStep` |
| Validators.Validator.CheckExcludes | server/src/validator.ts:343-360 | the diagnostics become those of `CheckExcludesStep`: one Error per excluded setting of the section (`ValidatorProps.ExcludedSettingsReported`) |
| Validators.Validator.FindUrlParams | server/src/validator.ts:578-588 | the URL parameters become exactly the cleared names of every `{...}` match of the line, in order |
| Validators.Validator.TakeUrlParam | server/src/validator.ts:583-587 | one turn keeps the name found and moves the search strictly forward, the names kept and still to find making up the whole list |
| Validators.Validator.CheckFreemarkerValue | server/src/validator.ts:385-413 | the diagnostics of the value's expression are appended |
| Validators.Validator.CheckExpressionWords | server/src/validator.ts:394-411 | one diagnostic per undeclared word run of the expression is appended, in order |
| Validators.Validator.CheckExpressionWord | server/src/validator.ts:398-410 | one turn reports the word run at hand if undeclared and moves the search strictly forward, the diagnostics pushed and still to push making up the whole list |
| Validators.Validator.AddToStringArray | server/src/validator.ts:229-248 | the diagnostics and aliases become those of `AddAliasStep`: a repeated alias is reported and a new one appended (`ValidatorProps.AliasDefinedOnce`) |
| Validators.Validator.FindDeAliases | server/src/validator.ts:560-572 | the ranges of every `value('name')` use of the line are appended to the uses, in order |
| Validators.Validator.TakeDeAlias | server/src/validator.ts:565-570 | one turn keeps the use found and moves the search strictly forward |
| Validators.Validator.IsDeclared | server/src/util.ts:20-33 | the answer is whether some variable list holds the name |
| Validators.Validator.AddToStringMap | server/src/validator.ts:256-281 | the diagnostics and variables become those of `AddToStringMapStep`: a repeated name is reported and a new one appended under its key (`ValidatorProps.VariableDefinedOnce`) |
| Validators.Validator.ValidateFor | server/src/validator.ts:1076-1106 | the diagnostics of every `@{...}` placeholder of the line are appended, in order |
| Validators.Validator.ValidateForMatch | server/src/validator.ts:1080-1104 | one turn checks the placeholder at hand and moves the search strictly forward |
| Validators.Validator.ValidatePlaceholder | server/src/validator.ts:1083-1102 | one diagnostic per undeclared name of the placeholder is appended, in order |
| Validators.Validator.CheckPlaceholderName | server/src/validator.ts:1085-1102 | one turn reports the name at hand if undeclared and moves the search strictly forward |
| Validators.Validator.HandleFor | server/src/validator.ts:727-764 | the diagnostics and variables become those of `HandleForStep` |
| Validators.Validator.ForHeaderReport | server/src/validator.ts:733-757 | the diagnostics of the loop header are appended: none for a declared collection, one otherwise |
| Validators.Validator.HandleEndFor | server/src/validator.ts:712-720 | the variables become those of `HandleEndForStep` |
| Validators.Validator.HandleFreemarker | server/src/validator.ts:770-796 | the diagnostics and variables become those of `HandleFreemarkerStep`: an unknown list variable is reported and the new variable joins the FreeMarker ones (`ValidatorProps.FreemarkerListChecked`) |
| Validators.Validator.SwitchKeyword | server/src/validator.ts:985-1035 | every field `switchKeyword` touches, and the status, become those of `SwitchKeywordStep` |
| Validators.Validator.EndFor | server/src/validator.ts:991-1000 | the variables, the stack and the diagnostics become those of `EndForStep` |
| Validators.Validator.HandleVar | server/src/validator.ts:1010-1014 | the variables, the stack and the diagnostics become those of `VarStep` |
| Validators.Validator.CheckEnd | server/src/validator.ts:312-336 | the stack and the diagnostics become those of `CheckEndStep` |
| Validators.Validator.SetLastCondition | server/src/validator.ts:957-959 | the last condition becomes that of `SetLastConditionStep` |
| Validators.Validator.HandleElse | server/src/validator.ts:693-707 | the last condition and the diagnostics become those of `HandleElseStep`: both misplacement messages (`ValidatorProps.ElseOutsideIfReported`) |
| Validators.Validator.HandleCsv | server/src/validator.ts:668-687 | the diagnostics, variables, column count and status become those of `HandleCsvStep`: it throws exactly when the line holds no `=` (`ValidatorProps.CsvHeaderCounted`) |
| Validators.Validator.ReadCsvHeader | server/src/validator.ts:670-682 | the header found is `CsvHeader`'s: the rest after `=`, the next non-blank line, or a failure |
| Validators.Validator.NextNonBlankLine | server/src/validator.ts:672-676 | the loop finds the first non-blank line from `j` on, or none |
| Validators.Validator.ValidateCsv | server/src/validator.ts:1060-1069 | the diagnostics become those of `ValidateCsvStep` |
| Validators.Validator.HandleList | server/src/validator.ts:803-822 | the diagnostics, variables and stack become those of `HandleListStep`: the keyword is pushed exactly when the list continues (`ValidatorProps.ListBlockOpens`) |
| Validators.Validator.OpensList | server/src/validator.ts:810-821 | the answer is `ListOpens`: the list stays open when its line ends with `=` or `,`, or the next non-blank line starts with `,` or holds `endlist` |
| Validators.Validator.HandleScript | server/src/validator.ts:828-847 | the stack and the diagnostics become those of `HandleScriptStep`: a block opens unless the line is a setting, and text after the keyword is reported (`ValidatorProps.ScriptBlockOpens`) |
| ValidatorProps.LeftKeywordsEach | server/src/validator.ts:509-516 | every keyword still open at the end gets its own `<k> has no matching end<k>` Error on its range, in stack order |
| ValidatorProps.CheckEndPops | server/src/validator.ts:316-321 | an `end` that matches the top of the stack pops exactly the top and reports nothing |
| ValidatorProps.CheckEndUnmatched | server/src/validator.ts:322-326 | an `end` whose keyword is not open leaves the stack alone and reports one `endX has no matching X` Error |
| ValidatorProps.CheckEndOutOfOrder | server/src/validator.ts:327-335 | an `end` whose keyword is open below another removes the lowest such entry, never the top, and reports `X has finished before <top>` |
| ValidatorProps.AnyInSomeMeaning | server/src/validator.ts:438-443 | the parent check succeeds exactly when some parent list holds one of the options |
| ValidatorProps.AnyInAllMeaning | server/src/validator.ts:446-451 | the `if` check succeeds exactly when every branch list holds one of the options |
| ValidatorProps.MissingMeaning | server/src/validator.ts:427-466 | a slot's display name is reported exactly when the slot is unsatisfied; nothing is missing exactly when every slot is satisfied |
| ValidatorProps.RequiredReported | server/src/validator.ts:418-474 | closing a section appends one `<name> is required` Error on its header per missing name, in order, keeps the earlier diagnostics and clears the requirements |
| ValidatorProps.CompanionRequired | server/src/validator.ts:897-907 | a `table` setting requires an `attribute` one and the other way round; any other setting adds no requirement |
| ValidatorProps.RepetitionOutsideIf | server/src/validator.ts:480-504 | outside `if`, a setting new to the section is recorded silently and one already there is reported once and not recorded again |
| ValidatorProps.SecondDeclarationReported | server/src/validator.ts:480-504 | the same setting twice in a section outside `if`: the first line reports nothing, the second exactly one repetition diagnostic at its name |
| ValidatorProps.RepetitionInsideIf | server/src/validator.ts:489-499 | inside `if`, a setting the section had before is reported once and joins the branch's list |
| ValidatorProps.EndForRestores | server/src/validator.ts:712-764 | the loop variable `for` declares is the one `endfor` forgets: the list of loop variables is as before the loop |
| ValidatorProps.EndForPops | server/src/validator.ts:712-720 | `endfor` forgets exactly the most recent loop variable |
| ValidatorProps.CsvRowReported | server/src/validator.ts:1060-1069 | a CSV row is reported exactly when it is not blank and its column count differs from the header's, with one `Expected N columns, but found M` Error over the row |
| ValidatorProps.CsvBlankRowSilent | server/src/validator.ts:1063 | a blank row never changes anything |
| ValidatorProps.UndeclaredUses | server/src/validator.ts:297-305 | the reference list of undeclared alias uses has at most one entry per use |
| ValidatorProps.UnknownAliasesAreUndeclaredUses | server/src/validator.ts:297-305 | `checkAliases` reports exactly the uses of undeclared aliases, one Error each, in order |
| ValidatorProps.UndeclaredUsesIgnoreOrder | server/src/validator.ts:299 | which uses are flagged depends on the declared aliases only as a set |
| ValidatorProps.AliasOrderIrrelevant | server/src/validator.ts:297-305 | declaring a widget's aliases in either order flags the same uses, because aliases are checked only when the widget ends |
| ValidatorProps.AliasDefinedOnce | server/src/validator.ts:229-248 | an alias already declared is reported as `<name> is already defined` over the name and the aliases stay; a new one is appended silently; either way it is an alias afterwards |
| ValidatorProps.AliasesStayDistinct | server/src/validator.ts:235-245 | because a repeated alias is refused, the aliases never hold a name twice |
| ValidatorProps.VariableDefinedOnce | server/src/validator.ts:256-281 | a name declared under any key is reported as `<name> is already defined` at the match index plus the indent and no list changes, except under `freemarker`; otherwise it is appended to the key's list (created when missing), every other key keeps its list, and nothing is reported |
| ValidatorProps.FreemarkerListChecked | server/src/validator.ts:770-796 | a `<#list>` collection that is not yet a FreeMarker variable is reported over its first occurrence with a suggestion among them; the new variable always joins the FreeMarker variables |
| ValidatorProps.UnknownSectionReported | server/src/validator.ts:964-980 | a section name that is not a possible section gets one Error over the name with a suggestion among the possible sections; a known name changes nothing |
| ValidatorProps.FreemarkerDirectiveReported | server/src/validator.ts:365-378 | the diagnostics change exactly when the line holds `<#list` or `<#assign`, and then by one Information over the first directive saying FreeMarker is deprecated |
| ValidatorProps.UnknownSettingReported | server/src/validator.ts:629-663 | a name the dictionary lacks is reported with a suggestion unless it is a keyword, a url parameter inside `[placeholders]`, or starts with `column`; the suggestions are the url parameters in `[placeholders]` and none elsewhere |
| ValidatorProps.ExcludesDiagnosticsMeaning | server/src/validator.ts:348-359 | a diagnostic is produced exactly for each setting of the section whose display name the new setting excludes, naming both |
| ValidatorProps.ExcludedSettingsReported | server/src/validator.ts:343-360 | the excludes check keeps the earlier diagnostics and appends exactly one `can not be specified simultaneously` Error per excluded setting of the section |
| ValidatorProps.ElseOutsideIfReported | server/src/validator.ts:693-707 | `else` records the last condition; outside `if` it reports `has no matching if`, inside an `if` that is not on top `has started before <top> has finished`, and directly inside `if` nothing |
| ValidatorProps.CsvHeaderCounted | server/src/validator.ts:668-687 | a `csv` line throws `The line does not contain a '='` and changes nothing exactly when it neither ends with `=` nor holds one; otherwise the column count is that of the text after the first `=`, or of the next non-blank line for a line ending in `=` |
| ValidatorProps.ListBlockOpens | server/src/validator.ts:810-821 | the `list` keyword is pushed exactly when the list continues, and the stack changes in no other way |
| ValidatorProps.ScriptBlockOpens | server/src/validator.ts:828-847 | `script = ...` changes nothing; any other `script` line pushes the keyword, and text after it on the line adds exactly one `A linefeed character after 'script' keyword is required` Error over the keyword |
| ValidatorProps.SecondRunThrows | server/src/validator.ts:113-114 | a validator that has walked a document throws `You should create a new Validator` when asked to walk again |
| ValidatorProps.SwitchUpperCaseThrows | server/src/validator.ts:985-1035 | `switchKeyword` has cases for lower-case keywords only: `IF` falls to the `default` throw `IF is not handled` |
| ValidatorProps.UpperCaseKeywordThrows | server/src/validator.ts:117-133 | a line whose first word is `IF` is found as a keyword by the case-insensitive parser, and its keyword step throws `IF is not handled` |

## Left out

- The editor extension is not part of this model: activation, configuration, the login request, the preview webview, the hover provider and the browser-side scripts. They are I/O, network or editor glue.
- `readSettings` (server/src/resources.ts:10-16) reads and parses a JSON file. Its list of entries is a parameter of `Resources.CreateSettingsMap` instead.
- `suggestionMessage`, `addDisplayNames` and `mapToArray` are imported from files that are not part of this model. They are functions the validator is given (`Validators.Validator.constructor`), and the model states nothing about their texts.
- `toLowerCase` is modelled for ASCII letters only. Other characters are kept as they are, so no Unicode case mapping is modelled.
- Settings.CheckType: an `enum` option is compared with the value as a literal, case-insensitively. The source builds a regular expression from each option, so an option holding regex metacharacters is not modelled.
- The shared regular-expression register `match` of the validator is not a field. Each method receives the match it reads as a parameter, because in the source every reader reads the match set just before.
- `lineByLine`, `eachLine` and `handleSettings`, the dispatch methods of the validator, are the functions `ValidatorSpec.LineByLineStep`, `Run`, `LineStep`, `EachLineStep`, `BodyLineStep` and `HandleSettingsStep`, not methods of `Validators.Validator`. The walk is specified on values: every leaf method of the class is proved against the matching function, and the walk composes those functions rather than updating a `Validator` object in place, so aliasing of the object's arrays during the walk is captured only through `sharesPrevious`.
- Validators.Validator.constructor does not state that its lines are the comment-blanked text split at line breaks, because `Util.DeleteComments` is a method. It states the initial state and that no line holds a line break.
- ValidatorSpec.LineByLineStep has no ensures of its own. What it promises is stated by `ValidatorProps.SecondRunThrows`, and by the ensures of `Run` and `LineStep`.
- Formatting.Formatter.IsNestedSection, Formatting.Formatter.GetCurrentLine and Formatting.Formatter.CalculateIndent have preconditions instead of the source's internal "cannot happen" throws (server/src/formatter.ts:64-66, 122-124, 167-169).
- Messages.SettingsWithWhitespaces, Messages.TagNameWithWhiteSpace and Messages.DeprecatedTagSection have no ensures of their own. They are stated by the lemmas in the table.
- The `Map` of variables is an insertion-ordered association list (`OrderedMaps`). The `ifSettings` and `parentSettings` maps use the same type, so their iteration order is the order of the source.
- The alias between `currentSettings` and `previousSettings` after a blank `[tags]` line (server/src/validator.ts:858) is modelled by the flag `sharesPrevious`. While it is set, a push to one list is a push to the other. No other aliasing between arrays is modelled.
- The trailing-whitespace edit that the formatter's look-ahead makes (server/src/formatter.ts:142, 248-256) is placed on the current line, as written. The model does not correct it.
- Floating-point values are never evaluated. `minValue` and `maxValue` are never consulted by the source, and the number grammars are checked only as text.
- StatusCodes.Classify: status codes are integers. A non-integer code such as 199.5, which the source's `Math.floor` maps into a class, is not representable.
- ValidatorSpec.AddToStringMapStep: its own ensures states only what it leaves unchanged (or a bound); what it reports and changes is stated by `ValidatorProps.VariableDefinedOnce`.
- ValidatorSpec.AddAliasStep: its own ensures states only what it leaves unchanged (or a bound); what it reports and changes is stated by `ValidatorProps.AliasDefinedOnce`.
- ValidatorSpec.CheckFreemarkerStep: its own ensures states only what it leaves unchanged (or a bound); what it reports and changes is stated by `ValidatorProps.FreemarkerDirectiveReported`.
- ValidatorSpec.SpellingCheckStep: its own ensures states only what it leaves unchanged (or a bound); what it reports and changes is stated by `ValidatorProps.UnknownSectionReported`.
- ValidatorSpec.GetSettingCheckStep: its own ensures states only what it leaves unchanged (or a bound); what it reports and changes is stated by `ValidatorProps.UnknownSettingReported`.
- ValidatorSpec.ExcludesDiagnostics: its own ensures states only what it leaves unchanged (or a bound); what it reports and changes is stated by `ValidatorProps.ExcludesDiagnosticsMeaning`.
- ValidatorSpec.CheckExcludesStep: its own ensures states only what it leaves unchanged (or a bound); what it reports and changes is stated by `ValidatorProps.ExcludedSettingsReported`.
- ValidatorSpec.HandleFreemarkerStep: its own ensures states only what it leaves unchanged (or a bound); what it reports and changes is stated by `ValidatorProps.FreemarkerListChecked`.
- ValidatorSpec.HandleElseStep: its own ensures states only what it leaves unchanged (or a bound); what it reports and changes is stated by `ValidatorProps.ElseOutsideIfReported`.
- ValidatorSpec.HandleCsvStep: its own ensures states only what it leaves unchanged (or a bound); what it reports and changes is stated by `ValidatorProps.CsvHeaderCounted`.
- ValidatorSpec.HandleListStep: its own ensures states only what it leaves unchanged (or a bound); what it reports and changes is stated by `ValidatorProps.ListBlockOpens`.
- ValidatorSpec.HandleScriptStep: its own ensures states only what it leaves unchanged (or a bound); what it reports and changes is stated by `ValidatorProps.ScriptBlockOpens`.
- Validators.Validator.HandleFreemarker: its ensures ties it to `HandleFreemarkerStep`; the outcome is stated about that function by `ValidatorProps.FreemarkerListChecked` and is not repeated on the method.
- Validators.Validator.HandleCsv: its ensures ties it to `HandleCsvStep`; the outcome is stated about that function by `ValidatorProps.CsvHeaderCounted` and is not repeated on the method.

/**
 * A setting of the Axibase Charts dictionary (`server/src/setting.ts`): its
 * canonical name, and the value grammars `checkType` applies to it.
 *
 * Each regular expression of the source is a predicate here, written so that
 * it accepts exactly the strings the expression matches.
 */
module Settings {
  import opened Wrappers
  import opened Text
  import opened Diagnostics

  const BooleanKeywords: seq<string> :=
    ["false", "no", "null", "none", "0", "off", "true", "yes", "on", "1"]

  const IntervalUnits: seq<string> :=
    ["nanosecond", "millisecond", "second", "minute", "hour", "day", "week", "month", "quarter", "year"]

  const CalendarKeywords: seq<string> :=
    ["current_day", "current_hour", "current_minute", "current_month", "current_quarter", "current_week",
     "current_year", "first_day", "first_vacation_day", "first_working_day", "friday", "last_vacation_day",
     "last_working_day", "monday", "next_day", "next_hour", "next_minute", "next_month", "next_quarter",
     "next_vacation_day", "next_week", "next_working_day", "next_year", "now", "previous_day", "previous_hour",
     "previous_minute", "previous_month", "previous_quarter", "previous_vacation_day", "previous_week",
     "previous_working_day", "previous_year", "saturday", "sunday", "thursday", "tuesday", "wednesday"]

  /** The type tags `checkType` knows. */
  const KnownTypes: seq<string> := ["string", "number", "integer", "boolean", "enum", "interval", "date"]

  // ---------------------------------------------------------------------------
  // Value grammars
  // ---------------------------------------------------------------------------

  /** `\d+|(?:\d+)?\.\d+`: digits, optionally with a fraction, or a bare fraction. */
  predicate IsUnsignedDecimal(s: string) {
    (|s| > 0 && AllDigits(s))
    || exists k | 0 <= k < |s| - 1 :: s[k] == '.' && AllDigits(s[..k]) && AllDigits(s[k + 1..])
  }

  predicate IsSign(c: char) { c == '+' || c == '-' }

  /** `numberRegExp`: an optional sign, then `.d+`, `d+` or `d+.d+`. */
  predicate IsNumber(s: string) {
    IsUnsignedDecimal(s) || (|s| > 0 && IsSign(s[0]) && IsUnsignedDecimal(s[1..]))
  }

  /** `integerRegExp`: an optional sign, then at least one digit. */
  predicate IsInteger(s: string) {
    var digits := if |s| > 0 && IsSign(s[0]) then s[1..] else s;
    |digits| > 0 && AllDigits(digits)
  }

  /** `booleanRegExp`: one of the ten keywords, exactly as written. */
  predicate IsBooleanKeyword(s: string) { s in BooleanKeywords }

  /** `@\{.+\}`: a placeholder whose body is a non-empty run without line terminators. */
  predicate IsPlaceholder(s: string) {
    |s| >= 4 && s[0] == '@' && s[1] == '{' && s[|s| - 1] == '}' && AllDot(s[2..|s| - 1])
  }

  /** The count of an interval: an optional sign, then a decimal or a placeholder. */
  predicate IsSignedCount(s: string) {
    var body := if |s| > 0 && IsSign(s[0]) then s[1..] else s;
    IsUnsignedDecimal(body) || IsPlaceholder(body)
  }

  /** `intervalRegExp`: `count [ \t]* unit`, or `all`, `auto`, `none`. */
  predicate IsInterval(s: string) {
    s == "all" || s == "auto" || s == "none"
    || exists k | 0 <= k <= |s| :: s[k..] in IntervalUnits
         && exists b | 0 <= b <= k :: AllBlank(s[b..k]) && IsSignedCount(s[..b])
  }

  /** The optional `[ \t]*[-+][ \t]*n[ \t]*\*[ \t]*unit` tail of a calendar expression. */
  predicate IsCalendarOffset(t: string) {
    var a := BlanksEnd(t, 0);
    a < |t| && IsSign(t[a]) &&
    var b := BlanksEnd(t, a + 1);
    exists p | b <= p < |t| :: t[p] == '*'
      && (exists c | b <= c <= p :: IsUnsignedDecimal(t[b..c]) && AllBlank(t[c..p]))
      && t[BlanksEnd(t, p + 1)..] in IntervalUnits
  }

  /** `calendarRegExp`: a calendar keyword with an optional offset. */
  predicate IsCalendar(s: string) {
    exists k | 0 <= k <= |s| :: s[..k] in CalendarKeywords && (k == |s| || IsCalendarOffset(s[k..]))
  }

  /** `(?:19[7-9]|[2-9]\d\d)\d` */
  predicate IsYear(s: string) {
    |s| == 4 && AllDigits(s)
    && ((s[0] == '1' && s[1] == '9' && '7' <= s[2]) || '2' <= s[0])
  }

  /** `0[1-9]|1[0-2]` */
  predicate IsMonth(s: string) {
    |s| == 2 && ((s[0] == '0' && '1' <= s[1] <= '9') || (s[0] == '1' && '0' <= s[1] <= '2'))
  }

  /** `0[1-9]|[12][0-9]|3[01]` */
  predicate IsDay(s: string) {
    |s| == 2 && ((s[0] == '0' && '1' <= s[1] <= '9') || ('1' <= s[0] <= '2' && IsDigit(s[1]))
                 || (s[0] == '3' && '0' <= s[1] <= '1'))
  }

  /** `[01]\d|2[0-4]` */
  predicate IsHour(s: string) {
    |s| == 2 && ((('0' <= s[0] <= '1') && IsDigit(s[1])) || (s[0] == '2' && '0' <= s[1] <= '4'))
  }

  /** `[0-5][0-9]`, for minutes and seconds. */
  predicate IsMinute(s: string) {
    |s| == 2 && '0' <= s[0] <= '5' && IsDigit(s[1])
  }

  /** `(?:\.\d{1,9})?` */
  predicate IsFraction(f: string) {
    f == [] || (2 <= |f| <= 10 && f[0] == '.' && AllDigits(f[1..]))
  }

  /** `(?::[0-5][0-9])?(?:\.\d{1,9})?` after the minutes of a local date. */
  predicate IsTimeTail(t: string) {
    IsFraction(t) || (|t| >= 3 && t[0] == ':' && IsMinute(t[1..3]) && IsFraction(t[3..]))
  }

  /** `localDateRegExp`: `YYYY[-MM[-DD[ HH:MM[:SS][.f]]]]`. */
  predicate IsLocalDate(s: string) {
    |s| >= 4 && IsYear(s[..4])
    && (|s| == 4
        || (|s| >= 7 && s[4] == '-' && IsMonth(s[5..7])
            && (|s| == 7
                || (|s| >= 10 && s[7] == '-' && IsDay(s[8..10])
                    && (|s| == 10
                        || (|s| >= 16 && s[10] == ' ' && IsHour(s[11..13]) && s[13] == ':'
                            && IsMinute(s[14..16]) && IsTimeTail(s[16..])))))))
  }

  /** `[zZ]|[+-](?:[01]\d|2[0-4]):?(?:[0-5][0-9])` */
  predicate IsZone(z: string) {
    z == "z" || z == "Z"
    || (|z| >= 5 && IsSign(z[0]) && IsHour(z[1..3])
        && ((|z| == 5 && IsMinute(z[3..5])) || (|z| == 6 && z[3] == ':' && IsMinute(z[4..6]))))
  }

  /** `zonedDateRegExp`: `YYYY-MM-DDTHH:MM:SS[.f]` followed by a zone. */
  predicate IsZonedDate(s: string) {
    |s| >= 20 && IsYear(s[..4]) && s[4] == '-' && IsMonth(s[5..7]) && s[7] == '-' && IsDay(s[8..10])
    && (s[10] == 't' || s[10] == 'T') && IsHour(s[11..13]) && s[13] == ':' && IsMinute(s[14..16])
    && s[16] == ':' && IsMinute(s[17..19])
    && exists k | 19 <= k <= |s| :: IsFraction(s[19..k]) && IsZone(s[k..])
  }

  /** `isDate` */
  predicate IsDate(s: string) {
    IsCalendar(s) || IsLocalDate(s) || IsZonedDate(s)
  }

  /** `calculatedRegExp`, unanchored: `@{…}` or `${…}` anywhere in the value. */
  predicate IsCalculated(s: string) {
    exists i, j | 0 <= i && i + 2 < j < |s| ::
      (s[i] == '@' || s[i] == '$') && s[i + 1] == '{' && AllDot(s[i + 2..j]) && s[j] == '}'
  }

  // ---------------------------------------------------------------------------
  // Settings
  // ---------------------------------------------------------------------------

  /** `clearSetting`: lower-cases the string and keeps only the letters `a` to `z`. */
  function ClearSetting(s: string): (r: string)
    ensures |r| <= |s|
  {
    if s == [] then []
    else (if IsLower(LowerChar(s[0])) then [LowerChar(s[0])] else []) + ClearSetting(s[1..])
  }

  /** A canonical name holds only the letters `a` to `z`. */
  lemma {:induction false} ClearSettingLower(s: string)
    ensures forall i :: 0 <= i < |ClearSetting(s)| ==> IsLower(ClearSetting(s)[i])
  {
    if s != [] {
      ClearSettingLower(s[1..]);
    }
  }

  /** A string of lower-case letters is its own canonical name. */
  lemma {:induction false} ClearSettingKeepsLower(s: string)
    requires forall i :: 0 <= i < |s| ==> IsLower(s[i])
    ensures ClearSetting(s) == s
  {
    if s != [] {
      ClearSettingKeepsLower(s[1..]);
    }
  }

  /** Clearing is idempotent. */
  lemma ClearSettingIdempotent(s: string)
    ensures ClearSetting(ClearSetting(s)) == ClearSetting(s)
  {
    ClearSettingLower(s);
    ClearSettingKeepsLower(ClearSetting(s));
  }

  /** Clearing removes exactly the characters that are not letters, after lower-casing. */
  lemma {:induction false} ClearSettingAppend(a: string, b: string)
    ensures ClearSetting(a + b) == ClearSetting(a) + ClearSetting(b)
  {
    if a == [] {
      assert a + b == b;
    } else {
      var head := if IsLower(LowerChar(a[0])) then [LowerChar(a[0])] else [];
      assert (a + b)[0] == a[0];
      assert (a + b)[1..] == a[1..] + b;
      assert ClearSetting(a + b) == head + ClearSetting(a[1..] + b);
      assert ClearSetting(a) == head + ClearSetting(a[1..]);
      ClearSettingAppend(a[1..], b);
      assert head + (ClearSetting(a[1..]) + ClearSetting(b)) == (head + ClearSetting(a[1..])) + ClearSetting(b);
    }
  }

  /** The fields of a dictionary entry as read from the dictionary, before normalisation. */
  datatype RawSetting = RawSetting(
    displayName: Option<string>,
    typeTag: Option<string>,
    example: Option<string>,
    enumOptions: seq<string>,
    excludes: seq<string>,
    multiLine: bool)

  /** A dictionary setting; `example` holds the example value as a template literal prints it. */
  datatype Setting = Setting(
    displayName: string,
    name: string,
    typeTag: string,
    example: string,
    enumOptions: seq<string>,
    excludes: seq<string>,
    multiLine: bool)

  /** Whether every enum option is in lower case. */
  predicate LowerCaseOptions(options: seq<string>) {
    forall k :: 0 <= k < |options| ==> ToLower(options[k]) == options[k]
  }

  /** A setting as the constructor leaves it: canonical name, lower-cased options. */
  predicate Normalised(s: Setting) {
    s.name == ClearSetting(s.displayName) && LowerCaseOptions(s.enumOptions)
  }

  lemma ToLowerIdempotent(s: string)
    ensures ToLower(ToLower(s)) == ToLower(s)
  {}

  /**
   * The constructor of `Setting`: copies the entry, lower-cases the enum
   * options and derives the name; absent type and example stay "".
   */
  function NewSetting(raw: RawSetting): (s: Setting)
    requires raw.displayName.Some?
    ensures Normalised(s)
    ensures s.displayName == raw.displayName.value && s.excludes == raw.excludes
    ensures |s.enumOptions| == |raw.enumOptions|
      && forall k :: 0 <= k < |s.enumOptions| ==> EqualsIgnoreCase(s.enumOptions[k], raw.enumOptions[k])
    ensures forall i :: 0 <= i < |s.name| ==> IsLower(s.name[i])
  {
    ClearSettingLower(raw.displayName.value);
    var options := seq(|raw.enumOptions|, k requires 0 <= k < |raw.enumOptions| => ToLower(raw.enumOptions[k]));
    forall k | 0 <= k < |options| ensures ToLower(options[k]) == options[k] {
      ToLowerIdempotent(raw.enumOptions[k]);
    }
    Setting(raw.displayName.value, ClearSetting(raw.displayName.value), raw.typeTag.GetOr(""),
            raw.example.GetOr(""), options, raw.excludes, raw.multiLine)
  }

  // ---------------------------------------------------------------------------
  // checkType
  // ---------------------------------------------------------------------------

  /** Whether some option equals the value when case is ignored. */
  predicate EnumAccepts(options: seq<string>, value: string) {
    exists k | 0 <= k < |options| :: EqualsIgnoreCase(options[k], value)
  }

  /** The option list of an enum failure: joined by ";\n", with the first literal `\d+` shown as `{num}`. */
  function EnumList(options: seq<string>): string {
    ReplaceFirst(Join(options, ";\n"), "\\d+", "{num}")
  }

  /** The tail shared by both interval messages. */
  function IntervalHint(example: string): string {
    ".\nFor example, " + example + ". Supported units:\n * " + Join(IntervalUnits, "\n * ")
  }

  /** Whether the value is accepted by the grammar of a known type tag. */
  predicate Accepts(typeTag: string, options: seq<string>, value: string)
    requires typeTag in KnownTypes
  {
    match typeTag
    case "string" => value != []
    case "number" => IsNumber(value)
    case "integer" => IsInteger(value)
    case "boolean" => IsBooleanKeyword(value)
    case "enum" => EnumAccepts(options, value)
    case "interval" => IsInterval(value)
    case _ => IsDate(value)
  }

  /** The severity `checkType` reports: a Warning only for a bare number of seconds in `updateinterval`. */
  function TypeSeverity(setting: Setting, value: string): Severity {
    if setting.typeTag == "interval" && setting.name == "updateinterval" && |value| > 0 && AllDigits(value)
    then Warning else Error
  }

  /** The message `checkType` reports for a value its type tag rejects. */
  function TypeMessage(setting: Setting, value: string, name: string): string
    requires setting.typeTag in KnownTypes
  {
    match setting.typeTag
    case "string" => name + " can not be empty"
    case "number" => name + " should be a real (floating-point) number. For example, " + setting.example
    case "integer" => name + " should be an integer number. For example, " + setting.example
    case "boolean" => name + " should be a boolean value. For example, " + setting.example
    case "enum" => name + " must be one of:\n" + EnumList(setting.enumOptions)
    case "interval" =>
      if TypeSeverity(setting, value) == Warning
      then "Specifying the interval in seconds is deprecated.\nUse `count unit` format" + IntervalHint(setting.example)
      else name + " should be set as `count unit`" + IntervalHint(setting.example)
    case _ => name + " should be a date. For example, " + setting.example
  }

  /**
   * `checkType`: `Success(None)` when the value is acceptable, `Success(Some(d))`
   * with the diagnostic otherwise, `Failure` for a type tag it does not handle.
   */
  function CheckType(setting: Setting, value: string, range: Range, name: string): (r: Result<Option<Diagnostic>>)
    ensures IsCalculated(value) ==> r == Success(None)
    ensures !IsCalculated(value) && setting.typeTag !in KnownTypes
      ==> r == Failure(setting.typeTag + " is not handled")
    ensures r.Failure? ==> setting.typeTag !in KnownTypes
    ensures setting.typeTag in KnownTypes ==>
      r.Success? && (r.value.None? <==> IsCalculated(value) || Accepts(setting.typeTag, setting.enumOptions, value))
    ensures r.Success? && r.value.Some? ==>
      r.value.value.range == range && FromChecker(r.value.value)
      && (r.value.value.severity == Warning <==> setting.typeTag == "interval" && setting.name == "updateinterval"
                                                 && |value| > 0 && AllDigits(value))
  {
    if IsCalculated(value) then Success(None)
    else if setting.typeTag !in KnownTypes then Failure(setting.typeTag + " is not handled")
    else if Accepts(setting.typeTag, setting.enumOptions, value) then Success(None)
    else Success(Some(CreateDiagnostic(range, TypeSeverity(setting, value), TypeMessage(setting, value, name))))
  }

  // ---------------------------------------------------------------------------
  // Properties of the grammars
  // ---------------------------------------------------------------------------

  /** Every integer is a number. */
  lemma IntegerIsNumber(s: string)
    requires IsInteger(s)
    ensures IsNumber(s)
  {
    if |s| > 0 && IsSign(s[0]) {
      assert IsUnsignedDecimal(s[1..]);
    } else {
      assert IsUnsignedDecimal(s);
    }
  }

  /** A number with a decimal point is not an integer. */
  lemma FractionIsNotInteger(s: string, k: nat)
    requires k < |s| && s[k] == '.'
    ensures !IsInteger(s)
  {
    if |s| > 0 && IsSign(s[0]) {
      if k > 0 { assert s[1..][k - 1] == '.'; }
    }
  }

  /** No interval is a bare run of digits, so a bare number of seconds is always reported. */
  lemma BareDigitsAreNotInterval(s: string)
    requires |s| > 0 && AllDigits(s)
    ensures !IsInterval(s)
  {
    forall k | 0 <= k <= |s| ensures s[k..] !in IntervalUnits {
      if k < |s| {
        assert IsDigit(s[k..][0]);
      }
      forall u | u in IntervalUnits ensures u != [] && !IsDigit(u[0]) {}
    }
    assert IsDigit(s[0]);
    assert s != "all" && s != "auto" && s != "none";
  }

  /** `updateinterval = 60` is a Warning, and the same value for any other interval setting an Error. */
  lemma BareSecondsSeverity(setting: Setting, value: string, range: Range, name: string)
    requires setting.typeTag == "interval" && |value| > 0 && AllDigits(value)
    ensures CheckType(setting, value, range, name).Success?
    ensures CheckType(setting, value, range, name).value.Some?
    ensures CheckType(setting, value, range, name).value.value.severity
      == (if setting.name == "updateinterval" then Warning else Error)
  {
    BareDigitsAreNotInterval(value);
    forall i | 0 <= i < |value| ensures value[i] != '@' && value[i] != '$' {
      assert IsDigit(value[i]);
    }
  }

  /** A string setting fails only on the empty value. */
  lemma StringFailsOnlyWhenEmpty(setting: Setting, value: string, range: Range, name: string)
    requires setting.typeTag == "string"
    ensures CheckType(setting, value, range, name).Success?
    ensures CheckType(setting, value, range, name).value.Some? <==> value == []
  {}

  /** An enum value passes iff some option equals it ignoring case; otherwise the options are listed. */
  lemma EnumOutcome(setting: Setting, value: string, range: Range, name: string)
    requires setting.typeTag == "enum" && !IsCalculated(value)
    ensures CheckType(setting, value, range, name).Success?
    ensures CheckType(setting, value, range, name).value.None? <==> EnumAccepts(setting.enumOptions, value)
    ensures CheckType(setting, value, range, name).value.Some? ==>
      CheckType(setting, value, range, name).value.value.message
        == name + " must be one of:\n" + EnumList(setting.enumOptions)
  {}

  /** Digits of a two-digit field and their value. */
  function Value2(s: string): int
    requires |s| == 2
  {
    (s[0] as int - '0' as int) * 10 + (s[1] as int - '0' as int)
  }

  lemma MonthRange(s: string)
    ensures IsMonth(s) <==> |s| == 2 && AllDigits(s) && 1 <= Value2(s) <= 12
  {}

  lemma DayRange(s: string)
    ensures IsDay(s) <==> |s| == 2 && AllDigits(s) && 1 <= Value2(s) <= 31
  {}

  lemma HourRange(s: string)
    ensures IsHour(s) <==> |s| == 2 && AllDigits(s) && 0 <= Value2(s) <= 24
  {}

  lemma MinuteRange(s: string)
    ensures IsMinute(s) <==> |s| == 2 && AllDigits(s) && 0 <= Value2(s) <= 59
  {}

  /** The year field accepts exactly the four-digit years from 1970 on. */
  lemma YearRange(s: string)
    ensures IsYear(s) <==> |s| == 4 && AllDigits(s) && DecimalValue(s) >= 1970
  {
    if |s| == 4 && AllDigits(s) {
      assert s[..3][..2][..1] == s[..1];
      assert s[..3][..2] == s[..2];
      assert s[..3] == s[..|s| - 1];
      assert s[..1][..0] == [];
      assert DecimalValue(s[..1]) == s[0] as int - 48;
      assert DecimalValue(s[..2]) == (s[0] as int - 48) * 10 + (s[1] as int - 48);
      assert DecimalValue(s[..3]) == DecimalValue(s[..2]) * 10 + (s[2] as int - 48);
      assert DecimalValue(s) == DecimalValue(s[..3]) * 10 + (s[3] as int - 48);
    }
  }
}

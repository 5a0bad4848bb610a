/** The modular time rules of services/validation/TimeValidationService.ts: the `HH:MM` grammar
    and the ordered time range with a 15-minute minimum. Also the `split(':').map(Number)`
    reading of a time into minutes, which the inline variant shares. */
module TimeValidation {
  import opened Wrappers
  import opened Text
  import opened Verdicts

  const TIME_REQUIRED := "La hora es requerida"
  const TIME_FORMAT := "Las horas deben tener formato HH:MM válido (00:00 - 23:59)"
  const START_INVALID_PREFIX := "Hora de inicio inválida: "
  const END_INVALID_PREFIX := "Hora de fin inválida: "
  const START_NOT_BEFORE_END := "La hora de inicio debe ser anterior a la hora de fin"
  const TOO_SHORT := "La tarea debe durar al menos 15 minutos"
  const MIN_DURATION_MINUTES := 15

  predicate IsMinuteTens(c: char) {
    '0' <= c <= '5'
  }

  /** The hour alternatives `[0-1]?[0-9]|2[0-3]` for a two-character hour. */
  predicate IsTwoDigitHour(a: char, b: char) {
    ('0' <= a <= '1' && IsDigit(b)) || (a == '2' && '0' <= b <= '3')
  }

  /** `/^([0-1]?[0-9]|2[0-3]):[0-5][0-9]$/.test(s)`: a one-digit hour, or a two-digit hour
      from 00 to 23, then a colon and two minute digits from 00 to 59. */
  predicate MatchesTimeRegex(s: string) {
    || (|s| == 4 && IsDigit(s[0]) && s[1] == ':' && IsMinuteTens(s[2]) && IsDigit(s[3]))
    || (|s| == 5 && IsTwoDigitHour(s[0], s[1]) && s[2] == ':' && IsMinuteTens(s[3]) && IsDigit(s[4]))
  }

  /** `Number(part)`: the value of a decimal-digit string (`Number('')` is 0); any other string
      reads as NaN, given as `None`. */
  function JsNumber(part: string): (n: Option<nat>)
    ensures AllDigits(part) ==> n == Some(DigitsValue(part))
    ensures !AllDigits(part) ==> n == None
  {
    if AllDigits(part) then Some(DigitsValue(part)) else None
  }

  /** `Number` reads back the decimal rendering of every natural number, with or without one
      leading zero, so "09" and "9" both read as 9. */
  lemma JsNumberReadsRendered(n: nat)
    ensures JsNumber(NatToString(n)) == Some(n)
    ensures JsNumber("0" + NatToString(n)) == Some(n)
  {
    LeadingZeroIgnored(NatToString(n));
  }

  lemma {:induction false} LeadingZeroIgnored(s: string)
    requires AllDigits(s)
    ensures AllDigits("0" + s) && DigitsValue("0" + s) == DigitsValue(s)
  {
    var z := "0" + s;
    if s == [] {
      assert z[..0] == [];
    } else {
      assert z[..|z| - 1] == "0" + s[..|s| - 1];
      LeadingZeroIgnored(s[..|s| - 1]);
    }
  }

  /** `const [h, m] = time.split(':').map(Number); h * 60 + m`, with NaN as `None` (a missing
      minute part is `undefined`, which is NaN too). */
  function ClockMinutes(time: string): Option<int> {
    var parts := Split(time, ':');
    var h := JsNumber(parts[0]);
    var m := if |parts| > 1 then JsNumber(parts[1]) else None;
    if h.Some? && m.Some? then Some(h.value * 60 + m.value) else None
  }

  /** `a >= b` on numbers that may be NaN: false whenever one of them is NaN. */
  predicate NumberAtLeast(a: Option<int>, b: Option<int>) {
    a.Some? && b.Some? && a.value >= b.value
  }

  /** `validateTime`: the empty string is "required"; otherwise the regular expression decides. */
  function ValidateTime(time: string): Verdict {
    if time == "" then Invalid(TIME_REQUIRED)
    else if !MatchesTimeRegex(time) then Invalid(TIME_FORMAT)
    else Valid
  }

  /** `validateTimeRange`: a bad start is reported before the end is looked at; then the start
      must be strictly earlier and at least 15 minutes before the end, on the same day. */
  function ValidateTimeRange(startTime: string, endTime: string): Verdict {
    var startVerdict := ValidateTime(startTime);
    if startVerdict.Invalid? then Invalid(START_INVALID_PREFIX + startVerdict.error)
    else
      var endVerdict := ValidateTime(endTime);
      if endVerdict.Invalid? then Invalid(END_INVALID_PREFIX + endVerdict.error)
      else
        var startMinutes := ClockMinutes(startTime);
        var endMinutes := ClockMinutes(endTime);
        if NumberAtLeast(startMinutes, endMinutes) then Invalid(START_NOT_BEFORE_END)
        else if startMinutes.Some? && endMinutes.Some?
                && endMinutes.value - startMinutes.value < MIN_DURATION_MINUTES then Invalid(TOO_SHORT)
        else Valid
  }

  // ----- an independent description of the accepted times: clock renderings -----

  /** The text of the clock time `h:m`, with the hour written with one digit when it is below
      ten and `padHour` is not set, and with two digits otherwise. */
  function RenderTime(h: nat, m: nat, padHour: bool): (s: string)
    requires h < 24 && m < 60
  {
    (if h < 10 && !padHour then [DigitChar(h)] else [DigitChar(h / 10), DigitChar(h % 10)])
    + [':', DigitChar(m / 10), DigitChar(m % 10)]
  }

  /** The hour written in a string the grammar accepts. */
  function HourOf(s: string): (h: nat)
    requires MatchesTimeRegex(s)
    ensures h < 24
  {
    if |s| == 4 then DigitValue(s[0]) else DigitValue(s[0]) * 10 + DigitValue(s[1])
  }

  /** The minute written in a string the grammar accepts. */
  function MinuteOf(s: string): (m: nat)
    requires MatchesTimeRegex(s)
    ensures m < 60
  {
    DigitValue(s[|s| - 2]) * 10 + DigitValue(s[|s| - 1])
  }

  lemma TwoDigitsValue(a: char, b: char)
    requires IsDigit(a) && IsDigit(b)
    ensures AllDigits([a, b]) && DigitsValue([a, b]) == DigitValue(a) * 10 + DigitValue(b)
  {
    assert [a, b][..1] == [a];
    OneDigitValue(a);
    assert DigitsValue([a, b]) == DigitsValue([a]) * 10 + DigitValue(b);
  }

  lemma OneDigitValue(a: char)
    requires IsDigit(a)
    ensures AllDigits([a]) && DigitsValue([a]) == DigitValue(a)
  {
    assert [a][..0] == [];
  }

  /** Every accepted time is read by `split(':').map(Number)` as its hour and minute, so it
      maps to `H * 60 + M` in 0..1439. */
  lemma {:induction false} AcceptedTimeMinutes(s: string)
    requires MatchesTimeRegex(s)
    ensures ClockMinutes(s) == Some(HourOf(s) * 60 + MinuteOf(s))
    ensures 0 <= ClockMinutes(s).value <= 1439
  {
    var k := |s| - 3;
    var hourText, minuteText := s[..k], s[k + 1..];
    assert s == hourText + [':'] + minuteText;
    assert minuteText == [s[k + 1], s[k + 2]];
    SplitAtOneSeparator(hourText, minuteText, ':');
    TwoDigitsValue(s[k + 1], s[k + 2]);
    if k == 1 {
      assert hourText == [s[0]];
      OneDigitValue(s[0]);
    } else {
      assert hourText == [s[0], s[1]];
      TwoDigitsValue(s[0], s[1]);
    }
  }

  /** Every rendering of a clock time is accepted and reads back as that time. */
  lemma RenderedTimeAccepted(h: nat, m: nat, padHour: bool)
    requires h < 24 && m < 60
    ensures MatchesTimeRegex(RenderTime(h, m, padHour))
    ensures HourOf(RenderTime(h, m, padHour)) == h && MinuteOf(RenderTime(h, m, padHour)) == m
  {
  }

  /** The grammar accepts exactly the renderings of clock times 0:00 to 23:59, with a one- or
      two-digit hour: so "9:30" and "09:30" pass, "25:00", "12:60" and "12:5" do not. */
  lemma {:induction false} TimeRegexIsClockTime(s: string)
    ensures MatchesTimeRegex(s) <==>
            exists h: nat, m: nat, pad: bool :: h < 24 && m < 60 && s == RenderTime(h, m, pad)
  {
    if MatchesTimeRegex(s) {
      var h, m, pad := HourOf(s), MinuteOf(s), |s| == 5;
      assert s == RenderTime(h, m, pad);
    }
    if exists h: nat, m: nat, pad: bool :: h < 24 && m < 60 && s == RenderTime(h, m, pad) {
      var h: nat, m: nat, pad: bool :| h < 24 && m < 60 && s == RenderTime(h, m, pad);
      RenderedTimeAccepted(h, m, pad);
    }
  }

  /** `validateTime` rejects the empty string as "required" before any format check, and
      otherwise accepts exactly the clock renderings. */
  lemma ValidateTimeVerdicts(s: string)
    ensures s == "" ==> ValidateTime(s) == Invalid(TIME_REQUIRED)
    ensures s != "" ==> (ValidateTime(s) == Valid <==>
            exists h: nat, m: nat, pad: bool :: h < 24 && m < 60 && s == RenderTime(h, m, pad))
    ensures s != "" && !ValidateTime(s).Valid? ==> ValidateTime(s) == Invalid(TIME_FORMAT)
  {
    TimeRegexIsClockTime(s);
  }

  /** A bad start wins over anything about the end, and its message is wrapped. */
  lemma RangeReportsStartFirst(startTime: string, endTime: string)
    requires ValidateTime(startTime).Invalid?
    ensures ValidateTimeRange(startTime, endTime)
            == Invalid(START_INVALID_PREFIX + ValidateTime(startTime).error)
  {
  }

  /** With a good start, a bad end is reported with its own wrapped message. */
  lemma RangeReportsEndSecond(startTime: string, endTime: string)
    requires ValidateTime(startTime).Valid? && ValidateTime(endTime).Invalid?
    ensures ValidateTimeRange(startTime, endTime)
            == Invalid(END_INVALID_PREFIX + ValidateTime(endTime).error)
  {
  }

  /** For two well-formed times the verdict depends only on their minutes of the day: the
      start must come strictly first (there is no wrap past midnight), and then the range is
      valid exactly when it lasts at least 15 minutes; exactly 15 is accepted. */
  lemma {:induction false} WellFormedRangeVerdict(startTime: string, endTime: string)
    requires MatchesTimeRegex(startTime) && MatchesTimeRegex(endTime)
    ensures var s, e := HourOf(startTime) * 60 + MinuteOf(startTime), HourOf(endTime) * 60 + MinuteOf(endTime);
            && (ValidateTimeRange(startTime, endTime) == Invalid(START_NOT_BEFORE_END) <==> s >= e)
            && (ValidateTimeRange(startTime, endTime) == Invalid(TOO_SHORT) <==> s < e < s + 15)
            && (ValidateTimeRange(startTime, endTime) == Valid <==> e - s >= 15)
  {
    AcceptedTimeMinutes(startTime);
    AcceptedTimeMinutes(endTime);
  }

  /** The duration boundary the tests pin down: exactly 15 minutes is enough, 10 is not. */
  lemma DurationExamples()
    ensures ValidateTimeRange("12:00", "12:15") == Valid
    ensures ValidateTimeRange("12:00", "12:10") == Invalid(TOO_SHORT)
  {
    WellFormedRangeVerdict("12:00", "12:15");
    WellFormedRangeVerdict("12:00", "12:10");
  }

  /** Equal times are rejected, and there is no wrap past midnight. */
  lemma OrderExamples()
    ensures ValidateTimeRange("12:00", "12:00") == Invalid(START_NOT_BEFORE_END)
    ensures ValidateTimeRange("23:00", "01:00") == Invalid(START_NOT_BEFORE_END)
  {
    WellFormedRangeVerdict("12:00", "12:00");
    WellFormedRangeVerdict("23:00", "01:00");
  }

  /** A one-digit hour is accepted; an hour past 23, a minute past 59 and a one-digit minute
      are not. */
  lemma FormatExamples()
    ensures ValidateTime("9:30") == Valid && ValidateTime("25:00") == Invalid(TIME_FORMAT)
    ensures ValidateTime("12:60") == Invalid(TIME_FORMAT) && ValidateTime("12:5") == Invalid(TIME_FORMAT)
  {
  }
}

/** The inline task validator of services/TaskValidationService.ts, the one the task form uses.
    It checks in a fixed order and stops at the first failure. Unlike the modular rules it has
    no title length cap, no weekday whitelist and no 15-minute minimum. */
module TaskValidation {
  import opened Text
  import opened Verdicts
  import TimeValidation
  import TitleValidation
  import DaysValidation

  const TITLE_REQUIRED := "El título de la tarea es obligatorio"
  const NO_DAYS := "Debes seleccionar al menos un día"
  const TIME_FORMAT := "Las horas deben tener formato HH:MM válido"
  const START_NOT_BEFORE_END := "La hora de inicio debe ser anterior a la hora de fin"

  /** The candidate task: `{ title, days, startTime, endTime }`. */
  datatype TaskInput = TaskInput(title: string, days: seq<string>, startTime: string, endTime: string)

  /** `validateTitle`: fails exactly when the trimmed title is empty. */
  function ValidateTitle(title: string): Verdict {
    if Trim(title) == "" then Invalid(TITLE_REQUIRED) else Valid
  }

  /** `validateDays`: fails exactly when no day is selected. */
  function ValidateDays(days: seq<string>): Verdict {
    if |days| == 0 then Invalid(NO_DAYS) else Valid
  }

  /** `validateTime`: the same regular expression as the modular rule, with its own message. */
  function ValidateTime(time: string): Verdict {
    if !TimeValidation.MatchesTimeRegex(time) then Invalid(TIME_FORMAT) else Valid
  }

  /** `validateTimeRange`: fails exactly when the start minutes are not below the end minutes;
      a time that does not read as numbers gives NaN, and every comparison with NaN is false. */
  function ValidateTimeRange(startTime: string, endTime: string): Verdict {
    if TimeValidation.NumberAtLeast(TimeValidation.ClockMinutes(startTime),
                                    TimeValidation.ClockMinutes(endTime))
    then Invalid(START_NOT_BEFORE_END)
    else Valid
  }

  /** `validateTask`: title, days, start format, end format, range — in that order, returning
      the first failing verdict unchanged. */
  function ValidateTask(data: TaskInput): Verdict {
    var titleVerdict := ValidateTitle(data.title);
    if titleVerdict.Invalid? then titleVerdict
    else
      var daysVerdict := ValidateDays(data.days);
      if daysVerdict.Invalid? then daysVerdict
      else
        var startVerdict := ValidateTime(data.startTime);
        if startVerdict.Invalid? then startVerdict
        else
          var endVerdict := ValidateTime(data.endTime);
          if endVerdict.Invalid? then endVerdict
          else
            var rangeVerdict := ValidateTimeRange(data.startTime, data.endTime);
            if rangeVerdict.Invalid? then rangeVerdict
            else Valid
  }

  /** The five checks in the order `validateTask` runs them. */
  function Checks(data: TaskInput): seq<Verdict> {
    [ValidateTitle(data.title), ValidateDays(data.days), ValidateTime(data.startTime),
     ValidateTime(data.endTime), ValidateTimeRange(data.startTime, data.endTime)]
  }

  /** `validateTask` is the first failure of its five checks: it is valid exactly when all five
      pass, and otherwise it is the first failing check's verdict, unchanged. */
  lemma {:induction false} ValidateTaskIsFirstFailure(data: TaskInput)
    ensures ValidateTask(data) == FirstFailure(Checks(data))
    ensures ValidateTask(data) == Valid <==> forall i :: 0 <= i < 5 ==> Checks(data)[i].Valid?
  {
    var c := Checks(data);
    FirstFailureOfFive(c[0], c[1], c[2], c[3], c[4]);
  }

  /** What a valid task is, in terms of its fields: a title with a non-whitespace character, at
      least one day (any names), two well-formed times, and the start strictly earlier. */
  lemma {:induction false} ValidTaskIff(data: TaskInput)
    ensures ValidateTask(data) == Valid <==>
            && !IsBlank(data.title)
            && |data.days| > 0
            && TimeValidation.MatchesTimeRegex(data.startTime)
            && TimeValidation.MatchesTimeRegex(data.endTime)
            && TimeValidation.HourOf(data.startTime) * 60 + TimeValidation.MinuteOf(data.startTime)
               < TimeValidation.HourOf(data.endTime) * 60 + TimeValidation.MinuteOf(data.endTime)
  {
    if TimeValidation.MatchesTimeRegex(data.startTime) && TimeValidation.MatchesTimeRegex(data.endTime) {
      TimeValidation.AcceptedTimeMinutes(data.startTime);
      TimeValidation.AcceptedTimeMinutes(data.endTime);
    }
  }

  /** The inline time rule accepts exactly what the modular one accepts (the empty string fails
      the regular expression too); only the messages differ. */
  lemma SameTimeGrammar(time: string)
    ensures ValidateTime(time).Valid? <==> TimeValidation.ValidateTime(time).Valid?
  {
  }

  /** Whatever the modular rules accept, the inline rules accept. */
  lemma ModularRulesAreStricter(data: TaskInput)
    requires TitleValidation.ValidateTitle(data.title) == Valid
    requires DaysValidation.ValidateDays(data.days) == Valid
    requires TimeValidation.ValidateTimeRange(data.startTime, data.endTime) == Valid
    ensures ValidateTask(data) == Valid
  {
    TimeValidation.WellFormedRangeVerdict(data.startTime, data.endTime);
    ValidTaskIff(data);
  }

  /** ...but not the other way round: the inline validator lets through a Spanish day name and a
      ten-minute task, both of which the modular rules reject. */
  lemma InlineAcceptsShortSpanishTask()
    ensures ValidateTask(TaskInput("Gym", ["lunes"], "09:00", "09:10")) == Valid
  {
    assert !IsBlank("Gym") by { assert !IsWhitespace("Gym"[0]); }
    assert TimeValidation.MatchesTimeRegex("09:00");
    assert TimeValidation.MatchesTimeRegex("09:10");
    TimeValidation.AcceptedTimeMinutes("09:00");
    TimeValidation.AcceptedTimeMinutes("09:10");
  }

  /** The same task fails both modular checks it would meet. */
  lemma ModularRejectsShortSpanishTask()
    ensures DaysValidation.ValidateDays(["lunes"]).Invalid?
    ensures TimeValidation.ValidateTimeRange("09:00", "09:10") == Invalid(TimeValidation.TOO_SHORT)
  {
    DaysValidation.CaseSensitiveNames();
    assert TimeValidation.MatchesTimeRegex("09:00") && TimeValidation.MatchesTimeRegex("09:10");
    TimeValidation.WellFormedRangeVerdict("09:00", "09:10");
  }
}

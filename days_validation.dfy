/** The weekday whitelist of services/validation/DaysValidationService.ts. */
module DaysValidation {
  import opened Text
  import opened Lists
  import opened Verdicts

  /** `VALID_DAYS`: the seven lowercase English weekday names. */
  const VALID_DAYS: seq<string> := ["monday", "tuesday", "wednesday", "thursday", "friday", "saturday", "sunday"]

  const NO_DAYS := "Debes seleccionar al menos un día"
  const INVALID_DAYS_PREFIX := "Días inválidos: "

  const IsInvalidDay: string -> bool := (d: string) => d !in VALID_DAYS

  /** `days.filter(day => !VALID_DAYS.includes(day))`. */
  function InvalidDays(days: seq<string>): seq<string> {
    Filter(days, IsInvalidDay)
  }

  /** `validateDays`: an empty list is rejected first; otherwise every entry must be one of the
      seven names, compared exactly (case-sensitive), and the error lists the offenders in input
      order separated by ", ". */
  function ValidateDays(days: seq<string>): Verdict {
    if |days| == 0 then Invalid(NO_DAYS)
    else
      var invalid := InvalidDays(days);
      if |invalid| > 0 then Invalid(INVALID_DAYS_PREFIX + Join(invalid, ", "))
      else Valid
  }

  /** A list is accepted exactly when it is non-empty and every entry is a valid name;
      repeating a valid name is allowed. */
  lemma DaysValidIff(days: seq<string>)
    ensures ValidateDays(days) == Valid <==> |days| > 0 && forall d :: d in days ==> d in VALID_DAYS
    ensures |days| == 0 <==> ValidateDays(days) == Invalid(NO_DAYS)
  {
    var invalid := InvalidDays(days);
    if |days| > 0 && |invalid| > 0 {
      assert invalid[0] in invalid;
      var e := INVALID_DAYS_PREFIX + Join(invalid, ", ");
      assert e[1] == INVALID_DAYS_PREFIX[1] != NO_DAYS[1];
    }
  }

  /** For a non-empty list with an invalid entry, the error names exactly the invalid entries,
      each where it stood in the input and in the input's relative order, a repeated invalid name
      as often as it was given. */
  lemma DaysErrorNamesInvalidEntries(days: seq<string>)
    requires |days| > 0 && exists d :: d in days && d !in VALID_DAYS
    ensures ValidateDays(days) == Invalid(INVALID_DAYS_PREFIX + Join(InvalidDays(days), ", "))
    ensures forall d :: d in InvalidDays(days) <==> d in days && d !in VALID_DAYS
    ensures IsSubsequence(InvalidDays(days), days)
    ensures InvalidDays(days) == Select(days, KeepMask(days, IsInvalidDay))
  {
    FilterIsSelection(days, IsInvalidDay);
  }

  /** Names are compared exactly: upper case and Spanish names are invalid. */
  lemma CaseSensitiveNames()
    ensures ValidateDays(["MONDAY"]) == Invalid(INVALID_DAYS_PREFIX + "MONDAY")
    ensures ValidateDays(["lunes"]) == Invalid(INVALID_DAYS_PREFIX + "lunes")
  {
    assert "MONDAY" !in VALID_DAYS;
    assert InvalidDays(["MONDAY"]) == ["MONDAY"];
    assert "lunes" !in VALID_DAYS;
    assert InvalidDays(["lunes"]) == ["lunes"];
  }

  /** A repeated valid name is accepted. */
  lemma DuplicateDaysAccepted()
    ensures ValidateDays(["monday", "monday"]) == Valid
  {
    DaysValidIff(["monday", "monday"]);
  }

  /** The offenders are listed in input order, separated by ", ". */
  lemma InvalidDaysListedInOrder()
    ensures ValidateDays(["monday", "funday", "lunes"]) == Invalid(INVALID_DAYS_PREFIX + "funday, lunes")
  {
    var three := ["monday", "funday", "lunes"];
    assert "funday" !in VALID_DAYS && "lunes" !in VALID_DAYS;
    assert three[1..] == ["funday", "lunes"];
    assert three[1..][1..] == ["lunes"];
    assert InvalidDays(["lunes"]) == ["lunes"];
    assert InvalidDays(["funday", "lunes"]) == ["funday", "lunes"];
    assert InvalidDays(three) == ["funday", "lunes"];
    assert Join(["funday", "lunes"], ", ") == "funday" + ", " + "lunes";
  }
}

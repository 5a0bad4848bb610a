/** The trimmed title length rule of services/validation/TitleValidationService.ts. */
module TitleValidation {
  import opened Text
  import opened Verdicts

  const TITLE_REQUIRED := "El título de la tarea es obligatorio"
  const TITLE_BLANK := "El título de la tarea no puede estar vacío"
  const TITLE_TOO_LONG := "El título no puede exceder 100 caracteres"
  const MAX_TITLE_LENGTH := 100

  /** `validateTitle`: the empty string is "required", a whitespace-only title is "empty", and
      the trimmed title may have at most 100 characters. */
  function ValidateTitle(title: string): Verdict {
    if title == "" then Invalid(TITLE_REQUIRED)
    else
      var trimmed := Trim(title);
      if trimmed == "" then Invalid(TITLE_BLANK)
      else if |trimmed| > MAX_TITLE_LENGTH then Invalid(TITLE_TOO_LONG)
      else Valid
  }

  /** Each verdict and exactly the titles that get it: any title whose trimmed form has 1 to
      100 characters is valid. */
  lemma TitleVerdicts(title: string)
    ensures ValidateTitle(title) == Invalid(TITLE_REQUIRED) <==> title == ""
    ensures ValidateTitle(title) == Invalid(TITLE_BLANK) <==> title != "" && IsBlank(title)
    ensures ValidateTitle(title) == Invalid(TITLE_TOO_LONG) <==> |Trim(title)| > MAX_TITLE_LENGTH
    ensures ValidateTitle(title) == Valid <==> 0 < |Trim(title)| <= MAX_TITLE_LENGTH
  {
    assert TITLE_REQUIRED != TITLE_BLANK by { assert TITLE_REQUIRED[25] != TITLE_BLANK[25]; }
    assert TITLE_REQUIRED != TITLE_TOO_LONG by { assert TITLE_REQUIRED[10] != TITLE_TOO_LONG[10]; }
    assert TITLE_BLANK != TITLE_TOO_LONG by { assert TITLE_BLANK[10] != TITLE_TOO_LONG[10]; }
  }

  /** Length is measured after trimming: surrounding whitespace never changes the verdict of
      a title that has a non-whitespace character. */
  lemma {:induction false} SurroundingWhitespaceIgnored(pre: string, title: string, post: string)
    requires IsBlank(pre) && IsBlank(post) && !IsBlank(title)
    ensures ValidateTitle(pre + title + post) == ValidateTitle(title)
  {
    TrimPadded(pre, title, post);
  }

  /** The boundary: exactly 100 characters pass, 101 do not, and padding does not count. */
  lemma TitleLengthBoundary(title: string)
    requires |title| == MAX_TITLE_LENGTH && !IsWhitespace(title[0]) && !IsWhitespace(title[|title| - 1])
    ensures ValidateTitle(title) == Valid
    ensures ValidateTitle("  " + title + " ") == Valid
    ensures ValidateTitle(title + "x") == Invalid(TITLE_TOO_LONG)
  {
    TrimOfUntrimmed(title);
    assert !IsBlank(title) by { assert !IsWhitespace(title[0]); }
    SurroundingWhitespaceIgnored("  ", title, " ");
    var longer := title + "x";
    TrimOfUntrimmed(longer);
  }

  /** A string that starts and ends with non-whitespace is its own trimmed form. */
  lemma TrimOfUntrimmed(s: string)
    requires s != [] && !IsWhitespace(s[0]) && !IsWhitespace(s[|s| - 1])
    ensures Trim(s) == s
  {
  }
}

/** The generic form-validation hook of hooks/useFormValidation.ts. Each field may carry rules;
    `validateField` applies them in a fixed order and returns the first message, and
    `validateForm` runs it over every field that has rules and keeps the failing fields'
    messages as the hook's `errors` state. The regular expression of a `pattern` rule and the
    `custom` callback are arbitrary functions supplied by the caller. */
module FormValidation {
  import opened Wrappers
  import opened Text

  const FIELD_REQUIRED := "Este campo es requerido"
  const BAD_FORMAT := "Formato inválido"

  function MinMessage(n: int): string { "Mínimo " + IntToString(n) + " caracteres" }
  function MaxMessage(n: int): string { "Máximo " + IntToString(n) + " caracteres" }

  /** `ValidationRules`: every rule is optional; `custom` yields a message or `null` (None). */
  datatype Rules = Rules(required: bool, minLength: Option<int>, maxLength: Option<int>,
                         pattern: Option<string -> bool>, custom: Option<string -> Option<string>>)

  /** A numeric bound applies only when it is set and truthy, so a bound of 0 is ignored. */
  predicate Active(bound: Option<int>) {
    bound.Some? && bound.value != 0
  }

  /** `validateField`: no rules gives `null`; otherwise required (on the trimmed value),
      minLength and maxLength (on the untrimmed length), pattern and, last, whatever `custom` says. */
  function ValidateField(rules: map<string, Rules>, fieldName: string, value: string): (r: Option<string>)
    ensures fieldName !in rules ==> r == None
  {
    if fieldName !in rules then None
    else
      var fieldRules := rules[fieldName];
      if fieldRules.required && Trim(value) == "" then Some(FIELD_REQUIRED)
      else if Active(fieldRules.minLength) && |value| < fieldRules.minLength.value then
        Some(MinMessage(fieldRules.minLength.value))
      else if Active(fieldRules.maxLength) && |value| > fieldRules.maxLength.value then
        Some(MaxMessage(fieldRules.maxLength.value))
      else if fieldRules.pattern.Some? && !fieldRules.pattern.value(value) then Some(BAD_FORMAT)
      else if fieldRules.custom.Some? then fieldRules.custom.value(value)
      else None
  }

  /** Each built-in rule on its own. */
  predicate PassesRequired(fieldRules: Rules, value: string) { !(fieldRules.required && IsBlank(value)) }
  predicate PassesMin(fieldRules: Rules, value: string) {
    !(Active(fieldRules.minLength) && |value| < fieldRules.minLength.value)
  }
  predicate PassesMax(fieldRules: Rules, value: string) {
    !(Active(fieldRules.maxLength) && |value| > fieldRules.maxLength.value)
  }
  predicate PassesPattern(fieldRules: Rules, value: string) {
    fieldRules.pattern.None? || fieldRules.pattern.value(value)
  }

  /** A field with rules yields no message exactly when every built-in rule passes and the
      custom callback, if any, yields no message either. */
  lemma FieldValidIff(rules: map<string, Rules>, fieldName: string, value: string)
    requires fieldName in rules
    ensures var fieldRules := rules[fieldName];
            ValidateField(rules, fieldName, value) == None <==>
              && PassesRequired(fieldRules, value) && PassesMin(fieldRules, value)
              && PassesMax(fieldRules, value) && PassesPattern(fieldRules, value)
              && (fieldRules.custom.None? || fieldRules.custom.value(value) == None)
  {
  }

  /** The first failing rule decides the message: a required field that is blank reports
      "required" whatever its other rules say, and a failing length bound is reported before
      the pattern and the callback are consulted; once the four built-in rules pass, the
      callback's own answer is the message. */
  lemma FirstRuleWins(rules: map<string, Rules>, fieldName: string, value: string)
    requires fieldName in rules
    ensures var fieldRules := rules[fieldName];
            && (!PassesRequired(fieldRules, value) ==> ValidateField(rules, fieldName, value) == Some(FIELD_REQUIRED))
            && (PassesRequired(fieldRules, value) && !PassesMin(fieldRules, value) ==>
                  ValidateField(rules, fieldName, value) == Some(MinMessage(fieldRules.minLength.value)))
            && (PassesRequired(fieldRules, value) && PassesMin(fieldRules, value) && !PassesMax(fieldRules, value) ==>
                  ValidateField(rules, fieldName, value) == Some(MaxMessage(fieldRules.maxLength.value)))
            && ((PassesRequired(fieldRules, value) && PassesMin(fieldRules, value) && PassesMax(fieldRules, value) &&
                 !PassesPattern(fieldRules, value)) ==> ValidateField(rules, fieldName, value) == Some(BAD_FORMAT))
            && ((PassesRequired(fieldRules, value) && PassesMin(fieldRules, value) && PassesMax(fieldRules, value) &&
                 PassesPattern(fieldRules, value) && fieldRules.custom.Some?) ==>
                  ValidateField(rules, fieldName, value) == fieldRules.custom.value(value))
  {
  }

  /** A length bound of 0 behaves exactly like no bound at all. */
  lemma ZeroBoundIgnored(fieldRules: Rules, fieldName: string, value: string)
    ensures ValidateField(map[fieldName := fieldRules.(minLength := Some(0))], fieldName, value)
            == ValidateField(map[fieldName := fieldRules.(minLength := None)], fieldName, value)
    ensures ValidateField(map[fieldName := fieldRules.(maxLength := Some(0))], fieldName, value)
            == ValidateField(map[fieldName := fieldRules.(maxLength := None)], fieldName, value)
  {
  }

  /** `required` looks at the trimmed value, the length bounds at the raw one: two spaces fail
      `required` but satisfy `minLength: 2`. */
  lemma RequiredTrimsLengthDoesNot(fieldName: string)
    ensures ValidateField(map[fieldName := Rules(true, None, None, None, None)], fieldName, "  ") == Some(FIELD_REQUIRED)
    ensures ValidateField(map[fieldName := Rules(false, Some(2), None, None, None)], fieldName, "  ") == None
  {
    assert IsBlank("  ");
  }

  /** `formData[fieldName] || ''`: a missing field is read as the empty string. */
  function FieldValue(formData: map<string, string>, fieldName: string): string {
    if fieldName in formData then formData[fieldName] else ""
  }

  /** `if (error)`: a field is recorded as failing when its message is present and non-empty
      (an empty callback message is falsy and is dropped). */
  predicate Fails(rules: map<string, Rules>, formData: map<string, string>, fieldName: string) {
    var error := ValidateField(rules, fieldName, FieldValue(formData, fieldName));
    error.Some? && error.value != ""
  }

  /** The messages of the failing fields among `fields`. */
  function ErrorsOver(rules: map<string, Rules>, formData: map<string, string>, fields: set<string>): map<string, string> {
    map fieldName | fieldName in fields && fieldName in rules && Fails(rules, formData, fieldName)
      :: ValidateField(rules, fieldName, FieldValue(formData, fieldName)).value
  }

  /** The errors `validateForm` leaves behind: exactly the rule-bearing fields that fail, each
      with its own message. */
  function FormErrors(rules: map<string, Rules>, formData: map<string, string>): (errors: map<string, string>)
    ensures forall fieldName :: fieldName in errors <==> fieldName in rules && Fails(rules, formData, fieldName)
    ensures forall fieldName :: fieldName in errors ==>
              Some(errors[fieldName]) == ValidateField(rules, fieldName, FieldValue(formData, fieldName))
  {
    ErrorsOver(rules, formData, rules.Keys)
  }

  /** The errors recorded for a form depend only on the values of its rule-bearing fields:
      extra entries in the form data change nothing. */
  lemma {:induction false} ExtraFieldsIgnored(rules: map<string, Rules>, formData: map<string, string>,
                                              extraField: string, extraValue: string)
    requires extraField !in rules
    ensures FormErrors(rules, formData[extraField := extraValue]) == FormErrors(rules, formData)
  {
    var a, b := FormErrors(rules, formData[extraField := extraValue]), FormErrors(rules, formData);
    forall fieldName | fieldName in rules
      ensures FieldValue(formData[extraField := extraValue], fieldName) == FieldValue(formData, fieldName)
    {
      assert fieldName != extraField;
    }
    assert a.Keys == b.Keys;
  }

  /** Adding one field to those examined adds its message exactly when it fails. */
  lemma ErrorsOverStep(rules: map<string, Rules>, formData: map<string, string>, fields: set<string>,
                       fieldName: string)
    requires fieldName in rules && fieldName !in fields
    ensures ErrorsOver(rules, formData, fields + {fieldName}) ==
            if Fails(rules, formData, fieldName)
            then ErrorsOver(rules, formData, fields)[fieldName := ValidateField(rules, fieldName, FieldValue(formData, fieldName)).value]
            else ErrorsOver(rules, formData, fields)
  {
    var a := ErrorsOver(rules, formData, fields + {fieldName});
    var b := ErrorsOver(rules, formData, fields);
    if Fails(rules, formData, fieldName) {
      assert a.Keys == b.Keys + {fieldName};
    } else {
      assert a.Keys == b.Keys;
    }
  }

  /** The loop of `validateForm`, over the fields that have rules: it builds the errors map and
      the validity flag; the form is valid exactly when no field fails. */
  method ComputeErrors(rules: map<string, Rules>, formData: map<string, string>)
    returns (newErrors: map<string, string>, isValid: bool)
    ensures newErrors == FormErrors(rules, formData)
    ensures isValid <==> forall fieldName :: fieldName in rules ==> !Fails(rules, formData, fieldName)
  {
    newErrors := map[];
    isValid := true;
    var remaining := rules.Keys;
    while remaining != {}
      invariant remaining <= rules.Keys
      invariant newErrors == ErrorsOver(rules, formData, rules.Keys - remaining)
      invariant isValid <==> forall fieldName :: fieldName in rules.Keys - remaining ==> !Fails(rules, formData, fieldName)
      decreases remaining
    {
      var fieldName :| fieldName in remaining;
      ErrorsOverStep(rules, formData, rules.Keys - remaining, fieldName);
      assert rules.Keys - (remaining - {fieldName}) == (rules.Keys - remaining) + {fieldName};
      var error := ValidateField(rules, fieldName, FieldValue(formData, fieldName));
      if error.Some? && error.value != "" {
        newErrors := newErrors[fieldName := error.value];
        isValid := false;
      }
      remaining := remaining - {fieldName};
    }
    assert rules.Keys - remaining == rules.Keys;
  }

  /** The hook's state: the rules it was created with and the current errors map. */
  class FormValidator {
    const rules: map<string, Rules>
    var errors: map<string, string>

    constructor (rules: map<string, Rules>)
      ensures this.rules == rules && errors == map[]
    {
      this.rules := rules;
      errors := map[];
    }

    /** `validateForm`: replaces the errors with the failing fields' messages and says whether
        there were none. */
    method ValidateForm(formData: map<string, string>) returns (isValid: bool)
      modifies this
      ensures errors == FormErrors(rules, formData)
      ensures isValid <==> errors == map[]
    {
      var newErrors;
      newErrors, isValid := ComputeErrors(rules, formData);
      errors := newErrors;
      if !isValid {
        var failing :| failing in rules && Fails(rules, formData, failing);
        assert failing in errors;
      }
    }

    /** `clearErrors`: empties the map. */
    method ClearErrors()
      modifies this
      ensures errors == map[]
    {
      errors := map[];
    }

    /** `clearFieldError`: removes that one key and keeps every other entry. */
    method ClearFieldError(fieldName: string)
      modifies this
      ensures errors == old(errors) - {fieldName}
      ensures fieldName !in errors
      ensures forall other :: other != fieldName && other in old(errors) ==> other in errors && errors[other] == old(errors)[other]
    {
      errors := errors - {fieldName};
    }
  }
}

/** The create/edit task form of hooks/useTaskForm.ts: its six fields, the day toggle, the
    time-field formatter, the reset and edit-sync effects, and the task it submits. The alert
    shown on a rejected submit is returned as its message; the timestamp id of a new task is a
    parameter. */
module TaskForm {
  import opened Wrappers
  import opened Text
  import opened Lists
  import opened Verdicts
  import opened TaskRegistry
  import TaskValidation

  const NOT_AUTHENTICATED := "Usuario no autenticado"
  const DEFAULT_START := "09:00"
  const DEFAULT_END := "17:00"

  function IsNot(day: string): string -> bool { (d: string) => d != day }

  /** `toggleDay`'s new list: the day removed (every copy) if present, appended at the end if not. */
  function Toggled(days: seq<string>, day: string): (r: seq<string>)
    ensures day in r <==> day !in days
    ensures forall other :: other != day ==> (other in r <==> other in days)
  {
    if day in days then Filter(days, IsNot(day)) else days + [day]
  }

  /** Toggling keeps a list free of duplicates. */
  lemma ToggledNoDuplicates(days: seq<string>, day: string)
    requires NoDuplicates(days)
    ensures NoDuplicates(Toggled(days, day))
  {
    if day in days {
      FilterNoDuplicates(days, IsNot(day));
    }
  }

  /** Toggling an absent day twice gives back the list. */
  lemma {:induction false} ToggleAbsentTwice(days: seq<string>, day: string)
    requires day !in days
    ensures Toggled(Toggled(days, day), day) == days
  {
    var once := days + [day];
    assert Toggled(days, day) == once;
    assert day in once;
    FilterAppend(days, [day], IsNot(day));
    FilterAll(days, IsNot(day));
    FilterNone([day], IsNot(day));
  }

  /** Toggling a present day of a duplicate-free list twice does not give back the list in
      general: the same days come back, with that day moved to the end. */
  lemma {:induction false} TogglePresentTwice(days: seq<string>, day: string)
    requires day in days && NoDuplicates(days)
    ensures Toggled(Toggled(days, day), day) == Filter(days, IsNot(day)) + [day]
    ensures multiset(Toggled(Toggled(days, day), day)) == multiset(days)
  {
    var removed := Filter(days, IsNot(day));
    assert Toggled(days, day) == removed;
    assert day !in removed;
    var isDay := (d: string) => !IsNot(day)(d);
    FilterMultiset(days, IsNot(day), isDay);
    OnlyCopy(days, day, isDay);
    assert Toggled(removed, day) == removed + [day];
  }

  /** In a duplicate-free list, the elements equal to `day` are that one element. */
  lemma {:induction false} OnlyCopy(days: seq<string>, day: string, isDay: string -> bool)
    requires NoDuplicates(days) && day in days
    requires forall d :: isDay(d) == (d == day)
    ensures Filter(days, isDay) == [day]
  {
    if days[0] == day {
      assert day !in days[1..];
      FilterNone(days[1..], isDay);
    } else {
      assert NoDuplicates(days[1..]);
      OnlyCopy(days[1..], day, isDay);
    }
  }

  /** `/[^\d:]/g` keeps ASCII digits and colons. */
  predicate IsTimeChar(c: char) {
    IsDigit(c) || c == ':'
  }

  /** `text.replace(/[^\d:]/g, '')` */
  function TimeChars(text: string): (r: string)
    ensures forall i :: 0 <= i < |r| ==> IsTimeChar(r[i])
  {
    var r := Filter(text, IsTimeChar);
    assert forall i :: 0 <= i < |r| ==> r[i] in r;
    r
  }

  /** What `formatTimeInput` hands to the setter. */
  function FormattedTime(text: string): string {
    var cleaned := TimeChars(text);
    var withColon := if |cleaned| == 2 && ':' !in cleaned then cleaned + ":" else cleaned;
    if |withColon| > 5 then withColon[..5] else withColon
  }

  /** `formatTimeInput`: drops every character that is not a digit or a colon, appends a colon
      after exactly two colon-free characters, and keeps at most five characters. */
  method FormatTimeInput(text: string) returns (formatted: string)
    ensures forall i :: 0 <= i < |formatted| ==> IsTimeChar(formatted[i])
    ensures |formatted| <= 5
    ensures |TimeChars(text)| == 2 && ':' !in TimeChars(text) ==> formatted == TimeChars(text) + ":"
    ensures !(|TimeChars(text)| == 2 && ':' !in TimeChars(text)) ==>
              formatted == TimeChars(text)[..if |TimeChars(text)| > 5 then 5 else |TimeChars(text)|]
    ensures formatted == FormattedTime(text)
  {
    var cleaned := TimeChars(text);
    if |cleaned| == 2 && ':' !in cleaned {
      cleaned := cleaned + ":";
    }
    if |cleaned| > 5 {
      cleaned := cleaned[..5];
    }
    formatted := cleaned;
  }

  /** Formatting an already formatted value changes nothing. */
  lemma {:induction false} FormattedTimeIdempotent(text: string)
    ensures FormattedTime(FormattedTime(text)) == FormattedTime(text)
  {
    var f := FormattedTime(text);
    FilterAll(f, IsTimeChar);
    assert TimeChars(f) == f;
  }

  /** Typing two digits inserts the colon. */
  lemma TwoDigitsGetColon()
    ensures FormattedTime("09") == "09:"
  {
    FilterAll("09", IsTimeChar);
  }

  /** Pasting four digits inserts no colon. */
  lemma FourDigitsStayBare()
    ensures FormattedTime("0930") == "0930"
  {
    FilterAll("0930", IsTimeChar);
  }

  /** Characters that are neither digits nor colons never affect the result, wherever they
      are typed. */
  lemma {:induction false} JunkDropped(before: string, junk: string, after: string)
    requires forall c :: c in junk ==> !IsTimeChar(c)
    ensures FormattedTime(before + junk + after) == FormattedTime(before + after)
  {
    JunkFiltered(before, junk, after);
    assert TimeChars(before + junk + after) == TimeChars(before + after);
  }

  lemma JunkFiltered(before: string, junk: string, after: string)
    requires forall c :: c in junk ==> !IsTimeChar(c)
    ensures Filter(before + junk + after, IsTimeChar) == Filter(before + after, IsTimeChar)
  {
    var kept := Filter(before, IsTimeChar);
    FilterNone(junk, IsTimeChar);
    FilterAppend(before, junk, IsTimeChar);
    assert kept + [] == kept;
    assert Filter(before + junk, IsTimeChar) == kept;
    FilterAppend(before + junk, after, IsTimeChar);
    FilterAppend(before, after, IsTimeChar);
  }

  /** A form the validator accepts still passes once its title is trimmed. */
  lemma TrimmedTitleStillValid(input: TaskValidation.TaskInput)
    requires TaskValidation.ValidateTask(input) == Valid
    ensures TaskValidation.ValidateTask(input.(title := Trim(input.title))) == Valid
  {
    var trimmed := input.(title := Trim(input.title));
    TrimIdempotent(input.title);
    assert TaskValidation.ValidateTitle(trimmed.title) == TaskValidation.ValidateTitle(input.title);
    TaskValidation.ValidateTaskIsFirstFailure(input);
    TaskValidation.ValidateTaskIsFirstFailure(trimmed);
    assert TaskValidation.Checks(trimmed) == TaskValidation.Checks(input);
  }

  /** The task `handleSubmit` builds from the form: trimmed title and description, the user's
      name, and, when editing an existing task, that task's id and status (a new task gets the
      fresh id and no status). */
  function BuiltTask(title: string, description: string, days: seq<string>, startTime: string, endTime: string,
                     notificationsEnabled: bool, username: string, isEditMode: bool, editTask: Option<Task>,
                     freshId: string): (t: Task)
    ensures t.title == Trim(title) && t.description == Trim(description) && t.user == username
    ensures t.days == days && t.startTime == startTime && t.endTime == endTime
    ensures t.notificationsEnabled == Some(notificationsEnabled)
    ensures t.id == (if isEditMode && editTask.Some? then editTask.value.id else freshId)
    ensures t.status == (if isEditMode && editTask.Some? then editTask.value.status else Unset)
  {
    var editing := isEditMode && editTask.Some?;
    Task(if editing then editTask.value.id else freshId, Trim(title), Trim(description), days, startTime,
         endTime, username, if editing then editTask.value.status else Unset, Some(notificationsEnabled))
  }

  /** Opening a task for edit and submitting it untouched gives back that task with its title
      and description trimmed, when its times and its reminder flag are set. */
  lemma {:induction false} UntouchedEditResubmits(t: Task, freshId: string)
    requires t.startTime != "" && t.endTime != "" && t.notificationsEnabled.Some?
    ensures BuiltTask(t.title, t.description, t.days, t.startTime, t.endTime, t.notificationsEnabled != Some(false),
                      t.user, true, Some(t), freshId)
            == t.(title := Trim(t.title), description := Trim(t.description))
  {
    var flag := t.notificationsEnabled.value;
    assert t.notificationsEnabled == Some(flag);
    assert (t.notificationsEnabled != Some(false)) == flag;
  }

  /** The form state. */
  class TaskForm {
    var title: string
    var description: string
    var selectedDays: seq<string>
    var startTime: string
    var endTime: string
    var notificationsEnabled: bool

    predicate IsReset()
      reads this
    {
      title == "" && description == "" && selectedDays == [] && startTime == DEFAULT_START
      && endTime == DEFAULT_END && notificationsEnabled
    }

    constructor ()
      ensures IsReset()
    {
      title := "";
      description := "";
      selectedDays := [];
      startTime := DEFAULT_START;
      endTime := DEFAULT_END;
      notificationsEnabled := true;
    }

    /** What the validator is given. */
    function Input(): TaskValidation.TaskInput
      reads this
    {
      TaskValidation.TaskInput(title, selectedDays, startTime, endTime)
    }

    /** `resetForm`: back to the initial values. */
    method ResetForm()
      modifies this
      ensures IsReset()
    {
      title := "";
      description := "";
      selectedDays := [];
      startTime := DEFAULT_START;
      endTime := DEFAULT_END;
      notificationsEnabled := true;
    }

    /** `toggleDay`: flips the membership of one day and touches nothing else. */
    method ToggleDay(dayKey: string)
      modifies this
      ensures selectedDays == Toggled(old(selectedDays), dayKey)
      ensures title == old(title) && description == old(description) && startTime == old(startTime)
      ensures endTime == old(endTime) && notificationsEnabled == old(notificationsEnabled)
    {
      selectedDays := Toggled(selectedDays, dayKey);
    }

    /** The effect run when the edit target changes: in edit mode with a task, the fields take
        the task's values, with the defaults for empty times and reminders on unless the task
        turned them off; otherwise the form resets. */
    method SyncWithEditTask(isEditMode: bool, editTask: Option<Task>)
      modifies this
      ensures !(isEditMode && editTask.Some?) ==> IsReset()
      ensures isEditMode && editTask.Some? ==>
                && title == editTask.value.title && description == editTask.value.description
                && selectedDays == editTask.value.days
                && startTime == (if editTask.value.startTime == "" then DEFAULT_START else editTask.value.startTime)
                && endTime == (if editTask.value.endTime == "" then DEFAULT_END else editTask.value.endTime)
                && notificationsEnabled == (editTask.value.notificationsEnabled != Some(false))
    {
      if isEditMode && editTask.Some? {
        var t := editTask.value;
        title := t.title;
        description := t.description;
        selectedDays := t.days;
        startTime := if t.startTime == "" then DEFAULT_START else t.startTime;
        endTime := if t.endTime == "" then DEFAULT_END else t.endTime;
        notificationsEnabled := t.notificationsEnabled != Some(false);
      } else {
        ResetForm();
      }
    }

    /** `handleSubmit`: without a username it alerts and submits nothing; a form the inline
        validator rejects alerts with the validator's message and submits nothing; otherwise it
        submits the built task. A submitted task passes the validator again. */
    method HandleSubmit(username: Option<string>, isEditMode: bool, editTask: Option<Task>, freshId: string)
      returns (submitted: Option<Task>, alert: Option<string>)
      ensures username.None? || username.value == "" ==> submitted == None && alert == Some(NOT_AUTHENTICATED)
      ensures username.Some? && username.value != "" && TaskValidation.ValidateTask(Input()).Invalid? ==>
                submitted == None && alert == Some(TaskValidation.ValidateTask(Input()).error)
      ensures submitted.Some? <==> username.Some? && username.value != "" && TaskValidation.ValidateTask(Input()) == Valid
      ensures submitted.Some? ==>
                alert == None
                && submitted.value == BuiltTask(title, description, selectedDays, startTime, endTime,
                                                notificationsEnabled, username.value, isEditMode, editTask, freshId)
                && TaskValidation.ValidateTask(TaskValidation.TaskInput(submitted.value.title, submitted.value.days,
                                                                        submitted.value.startTime, submitted.value.endTime)) == Valid
    {
      if username.None? || username.value == "" {
        return None, Some(NOT_AUTHENTICATED);
      }
      var validation := TaskValidation.ValidateTask(Input());
      if validation.Invalid? {
        return None, Some(validation.error);
      }
      var task := BuiltTask(title, description, selectedDays, startTime, endTime, notificationsEnabled,
                            username.value, isEditMode, editTask, freshId);
      TrimmedTitleStillValid(Input());
      submitted, alert := Some(task), None;
    }
  }
}

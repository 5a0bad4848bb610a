/** The list view's status and day filters and the per-status counts of hooks/useTaskFiltering.ts. */
module TaskFiltering {
  import opened Lists
  import opened TaskRegistry

  /** `'all' | 'completed' | 'in-progress'` */
  datatype FilterType = All | CompletedOnly | InProgressOnly

  /** `'all'` or one weekday name. */
  datatype DayFilter = AllDays | OnDay(day: string)

  predicate StatusMatch(filter: FilterType, status: Status) {
    filter == All || (filter == CompletedOnly && status == Completed) || (filter == InProgressOnly && status == InProgress)
  }

  predicate DayMatch(selectedDay: DayFilter, days: seq<string>) {
    selectedDay == AllDays || selectedDay.day in days
  }

  function Keep(filter: FilterType, selectedDay: DayFilter): Task -> bool {
    (t: Task) => StatusMatch(filter, t.status) && DayMatch(selectedDay, t.days)
  }

  function HasStatus(status: Status): Task -> bool {
    (t: Task) => t.status == status
  }

  /** `filteredTasks` */
  function FilteredTasks(tasks: seq<Task>, filter: FilterType, selectedDay: DayFilter): seq<Task> {
    Filter(tasks, Keep(filter, selectedDay))
  }

  /** `taskCounts`: `{ all, completed, inProgress }` */
  datatype Counts = Counts(all: nat, completed: nat, inProgress: nat)

  /** No task is both completed and in progress, so the two status counts never exceed the
      total. */
  function TaskCounts(tasks: seq<Task>): (c: Counts)
    ensures c.all == |tasks|
    ensures c.completed + c.inProgress <= c.all
  {
    StatusCountsBounded(tasks);
    Counts(|tasks|, Count(tasks, HasStatus(Completed)), Count(tasks, HasStatus(InProgress)))
  }

  /** A task is kept exactly when its status matches the filter and its days match the selected
      day, and the kept tasks appear in their original order. */
  lemma FilteredSpec(tasks: seq<Task>, filter: FilterType, selectedDay: DayFilter)
    ensures forall t :: t in FilteredTasks(tasks, filter, selectedDay) <==>
              t in tasks && StatusMatch(filter, t.status) && DayMatch(selectedDay, t.days)
    ensures IsSubsequence(FilteredTasks(tasks, filter, selectedDay), tasks)
    ensures FilteredTasks(tasks, filter, selectedDay) == Select(tasks, KeepMask(tasks, Keep(filter, selectedDay)))
    ensures |FilteredTasks(tasks, filter, selectedDay)| <= TaskCounts(tasks).all
  {
    FilterIsSubsequence(tasks, Keep(filter, selectedDay));
    FilterIsSelection(tasks, Keep(filter, selectedDay));
  }

  /** `'all'` and `'all'` show the whole list, unchanged. */
  lemma AllAllIsIdentity(tasks: seq<Task>)
    ensures FilteredTasks(tasks, All, AllDays) == tasks
  {
    FilterAll(tasks, Keep(All, AllDays));
  }

  /** A task without a status is shown only under the `'all'` filter. */
  lemma UnsetShownOnlyUnderAll(tasks: seq<Task>, filter: FilterType, selectedDay: DayFilter, t: Task)
    requires t.status == Unset && t in FilteredTasks(tasks, filter, selectedDay)
    ensures filter == All
  {
    FilteredSpec(tasks, filter, selectedDay);
  }

  lemma {:induction false} StatusCountsBounded(tasks: seq<Task>)
    ensures Count(tasks, HasStatus(Completed)) + Count(tasks, HasStatus(InProgress)) <= |tasks|
  {
    if tasks != [] {
      StatusCountsBounded(tasks[1..]);
      assert Filter(tasks, HasStatus(Completed))
             == (if tasks[0].status == Completed then [tasks[0]] else []) + Filter(tasks[1..], HasStatus(Completed));
      assert Filter(tasks, HasStatus(InProgress))
             == (if tasks[0].status == InProgress then [tasks[0]] else []) + Filter(tasks[1..], HasStatus(InProgress));
    }
  }

  /** With every day selected, the status filters show exactly as many tasks as the matching
      counts say. */
  lemma FilterMatchesCounts(tasks: seq<Task>)
    ensures |FilteredTasks(tasks, CompletedOnly, AllDays)| == TaskCounts(tasks).completed
    ensures |FilteredTasks(tasks, InProgressOnly, AllDays)| == TaskCounts(tasks).inProgress
  {
    FilterCongruent(tasks, Keep(CompletedOnly, AllDays), HasStatus(Completed));
    FilterCongruent(tasks, Keep(InProgressOnly, AllDays), HasStatus(InProgress));
  }
}

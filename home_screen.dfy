/** The list shown on the home screen (hooks/useHomeScreen.ts): the logged-in user's tasks,
    filtered by the selected status and day, with the counts shown on the filter tabs. */
module HomeScreen {
  import opened Wrappers
  import opened Lists
  import opened UserAccounts
  import opened TaskRegistry
  import opened TaskFiltering

  /** `user ? getUserTasks(user.username) : []` */
  function UserTasks(user: Option<User>, tasks: seq<Task>): (r: seq<Task>)
    ensures user.None? ==> r == []
    ensures forall t :: t in r <==> user.Some? && t in tasks && t.user == user.value.username
  {
    if user.None? then [] else OwnedBy(tasks, user.value.username)
  }

  /** `getFilteredTasks`: the same status and day filter as the list hook, over the user's tasks. */
  function GetFilteredTasks(user: Option<User>, tasks: seq<Task>, activeFilter: FilterType, selectedDay: DayFilter)
    : seq<Task>
  {
    FilteredTasks(UserTasks(user, tasks), activeFilter, selectedDay)
  }

  /** `getTaskCounts`: `{ allCount, completedCount, inProgressCount }` of the user's tasks. */
  function GetTaskCounts(user: Option<User>, tasks: seq<Task>): Counts {
    TaskCounts(UserTasks(user, tasks))
  }

  /** What the home list keeps of the whole registry for a logged-in user. */
  function Listed(username: string, activeFilter: FilterType, selectedDay: DayFilter): Task -> bool {
    (t: Task) => t.user == username && StatusMatch(activeFilter, t.status) && DayMatch(selectedDay, t.days)
  }

  /** A task is listed exactly when it belongs to the logged-in user and passes both filters;
      the list keeps the registry's order and is never longer than `allCount`. */
  lemma HomeListSpec(user: Option<User>, tasks: seq<Task>, activeFilter: FilterType, selectedDay: DayFilter)
    ensures forall t :: t in GetFilteredTasks(user, tasks, activeFilter, selectedDay) <==>
              user.Some? && t in tasks && t.user == user.value.username
              && StatusMatch(activeFilter, t.status) && DayMatch(selectedDay, t.days)
    ensures IsSubsequence(GetFilteredTasks(user, tasks, activeFilter, selectedDay), tasks)
    ensures user.None? ==> GetFilteredTasks(user, tasks, activeFilter, selectedDay) == []
    ensures user.Some? ==> GetFilteredTasks(user, tasks, activeFilter, selectedDay)
                           == Select(tasks, KeepMask(tasks, Listed(user.value.username, activeFilter, selectedDay)))
    ensures |GetFilteredTasks(user, tasks, activeFilter, selectedDay)| <= GetTaskCounts(user, tasks).all
  {
    var mine := UserTasks(user, tasks);
    FilteredSpec(mine, activeFilter, selectedDay);
    if user.Some? {
      var owner, keep := OwnerIs(user.value.username), Keep(activeFilter, selectedDay);
      var both := Listed(user.value.username, activeFilter, selectedDay);
      FilterTwice(tasks, owner, keep, both);
      FilterIsSubsequence(tasks, both);
      FilterIsSelection(tasks, both);
    } else {
      var nothing := (t: Task) => false;
      FilterIsSubsequence(tasks, nothing);
      FilterNone(tasks, nothing);
    }
  }
}

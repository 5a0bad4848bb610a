/** The task registry of context/TaskContext.tsx: the in-memory list of tasks, the loading
    flag, and the `@tasks` storage entry it is persisted to. Every change builds a new list
    from the current one and commits it to memory only after the storage write succeeds. */
module TaskRegistry {
  import opened Wrappers
  import opened Lists

  /** `status?: 'completed' | 'in-progress'`; Unset is the absent status. */
  datatype Status = Unset | InProgress | Completed

  /** `TaskData`, with the `notificationsEnabled?: boolean` flag other modules read. */
  datatype Task = Task(id: string, title: string, description: string, days: seq<string>,
                       startTime: string, endTime: string, user: string, status: Status,
                       notificationsEnabled: Option<bool>)

  /** `tasks.map(task => task.id === updated.id ? updated : task)` */
  function Replaced(tasks: seq<Task>, updated: Task): (r: seq<Task>)
    ensures |r| == |tasks|
    ensures forall i :: 0 <= i < |tasks| ==> r[i] == (if tasks[i].id == updated.id then updated else tasks[i])
    ensures forall i :: 0 <= i < |tasks| ==> r[i].id == tasks[i].id
  {
    if tasks == [] then []
    else [if tasks[0].id == updated.id then updated else tasks[0]] + Replaced(tasks[1..], updated)
  }

  /** `tasks.map(task => task.id === taskId ? { ...task, status } : task)` */
  function WithStatus(tasks: seq<Task>, taskId: string, status: Status): (r: seq<Task>)
    ensures |r| == |tasks|
    ensures forall i :: 0 <= i < |tasks| ==> r[i].(status := tasks[i].status) == tasks[i]
    ensures forall i :: 0 <= i < |tasks| ==> r[i].status == (if tasks[i].id == taskId then status else tasks[i].status)
  {
    if tasks == [] then []
    else [if tasks[0].id == taskId then tasks[0].(status := status) else tasks[0]] + WithStatus(tasks[1..], taskId, status)
  }

  function IdIsNot(taskId: string): Task -> bool { (t: Task) => t.id != taskId }
  function OwnerIs(username: string): Task -> bool { (t: Task) => t.user == username }

  /** `tasks.filter(task => task.id !== taskId)` */
  function Without(tasks: seq<Task>, taskId: string): seq<Task> {
    Filter(tasks, IdIsNot(taskId))
  }

  /** `tasks.filter(task => task.user === username)` */
  function OwnedBy(tasks: seq<Task>, username: string): seq<Task> {
    Filter(tasks, OwnerIs(username))
  }

  /** `tasks.find(t => t.id === taskId)` */
  function TaskById(tasks: seq<Task>, taskId: string): (r: Option<Task>)
    ensures r.None? <==> forall i :: 0 <= i < |tasks| ==> tasks[i].id != taskId
    ensures r.Some? ==> exists i :: 0 <= i < |tasks| && tasks[i] == r.value && r.value.id == taskId
                                    && forall j :: 0 <= j < i ==> tasks[j].id != taskId
  {
    if tasks == [] then None
    else if tasks[0].id == taskId then Some(tasks[0])
    else
      var r := TaskById(tasks[1..], taskId);
      assert r.Some? ==> exists i :: 0 <= i < |tasks| && tasks[i] == r.value && r.value.id == taskId
                                     && forall j :: 0 <= j < i ==> tasks[j].id != taskId by {
        if r.Some? {
          var i :| 0 <= i < |tasks[1..]| && tasks[1..][i] == r.value && r.value.id == taskId
                   && forall j :: 0 <= j < i ==> tasks[1..][j].id != taskId;
          assert tasks[i + 1] == r.value;
          forall j | 0 <= j < i + 1 ensures tasks[j].id != taskId {
            if j > 0 { assert tasks[j] == tasks[1..][j - 1]; }
          }
        }
      }
      r
  }

  /** Deleting removes every task with that id and nothing else, keeping the others in order. */
  lemma WithoutSpec(tasks: seq<Task>, taskId: string)
    ensures forall t :: t in Without(tasks, taskId) <==> t in tasks && t.id != taskId
    ensures IsSubsequence(Without(tasks, taskId), tasks)
    ensures Without(tasks, taskId) == Select(tasks, KeepMask(tasks, IdIsNot(taskId)))
    ensures TaskById(Without(tasks, taskId), taskId).None?
  {
    FilterIsSubsequence(tasks, IdIsNot(taskId));
    FilterIsSelection(tasks, IdIsNot(taskId));
    var r := Without(tasks, taskId);
    forall i | 0 <= i < |r| ensures r[i].id != taskId { assert r[i] in r; }
  }

  /** The tasks of one user, in order: exactly the tasks whose `user` is that name. */
  lemma OwnedBySpec(tasks: seq<Task>, username: string)
    ensures forall t :: t in OwnedBy(tasks, username) <==> t in tasks && t.user == username
    ensures IsSubsequence(OwnedBy(tasks, username), tasks)
    ensures OwnedBy(tasks, username) == Select(tasks, KeepMask(tasks, OwnerIs(username)))
  {
    FilterIsSubsequence(tasks, OwnerIs(username));
    FilterIsSelection(tasks, OwnerIs(username));
  }

  /** Adding a task extends its owner's list at the end and leaves every other user's list alone. */
  lemma OwnedByAppend(tasks: seq<Task>, task: Task, username: string)
    ensures OwnedBy(tasks + [task], username)
            == OwnedBy(tasks, username) + (if task.user == username then [task] else [])
  {
    FilterAppend(tasks, [task], OwnerIs(username));
    assert [task][1..] == [];
  }

  /** Replacing is idempotent, and replacing with an id nobody has changes nothing. */
  lemma ReplacedIdempotent(tasks: seq<Task>, updated: Task)
    ensures Replaced(Replaced(tasks, updated), updated) == Replaced(tasks, updated)
    ensures TaskById(tasks, updated.id).None? ==> Replaced(tasks, updated) == tasks
  {
  }

  /** A later status patch of the same id overrides an earlier one. */
  lemma WithStatusOverrides(tasks: seq<Task>, taskId: string, first: Status, second: Status)
    ensures WithStatus(WithStatus(tasks, taskId, first), taskId, second) == WithStatus(tasks, taskId, second)
  {
  }

  /** Patching every task of an id with the status they already share changes nothing. */
  lemma WithStatusUnchanged(tasks: seq<Task>, taskId: string, status: Status)
    requires forall i :: 0 <= i < |tasks| && tasks[i].id == taskId ==> tasks[i].status == status
    ensures WithStatus(tasks, taskId, status) == tasks
  {
  }

  /** After a patch, the first task with that id is the old first one with the new status. */
  lemma {:induction false} TaskByIdAfterPatch(tasks: seq<Task>, taskId: string, status: Status)
    ensures TaskById(WithStatus(tasks, taskId, status), taskId)
            == if TaskById(tasks, taskId).None? then None else Some(TaskById(tasks, taskId).value.(status := status))
  {
    if tasks != [] {
      assert WithStatus(tasks, taskId, status)[1..] == WithStatus(tasks[1..], taskId, status);
      TaskByIdAfterPatch(tasks[1..], taskId, status);
    }
  }

  /** The registry provided to the app. `stored` is the content of the `@tasks` entry
      (None when nothing has been stored yet). */
  class TaskStore {
    var tasks: seq<Task>
    var isLoading: bool
    var stored: Option<seq<Task>>

    /** What is in memory is what is persisted. */
    predicate Synced()
      reads this
    {
      stored == Some(tasks)
    }

    /** The provider starts with no tasks, loading, over whatever storage holds. */
    constructor (initial: Option<seq<Task>>)
      ensures tasks == [] && isLoading && stored == initial
    {
      tasks := [];
      isLoading := true;
      stored := initial;
    }

    /** `loadTasks`: takes the stored list when there is one and the read succeeds; a failed
        read is only logged. Loading always ends. */
    method LoadTasks(readOk: bool)
      modifies this
      ensures tasks == (if readOk && old(stored).Some? then old(stored).value else old(tasks))
      ensures !isLoading && stored == old(stored)
      ensures readOk && stored.Some? ==> Synced()
    {
      if readOk && stored.Some? {
        tasks := stored.value;
      }
      isLoading := false;
    }

    /** `saveTasks`: writes the list, and only then commits it to memory; a failed write is only
        logged, and leaves both memory and storage as they were. */
    method SaveTasks(newTasks: seq<Task>, writeOk: bool)
      modifies this
      ensures writeOk ==> tasks == newTasks && stored == Some(newTasks)
      ensures !writeOk ==> tasks == old(tasks) && stored == old(stored)
      ensures isLoading == old(isLoading)
      ensures old(Synced()) ==> Synced()
    {
      if writeOk {
        stored := Some(newTasks);
        tasks := newTasks;
      }
    }

    /** `addTask`: appends at the end. */
    method AddTask(task: Task, writeOk: bool)
      modifies this
      ensures tasks == (if writeOk then old(tasks) + [task] else old(tasks))
      ensures stored == (if writeOk then Some(tasks) else old(stored))
      ensures isLoading == old(isLoading)
      ensures old(Synced()) ==> Synced()
    {
      SaveTasks(tasks + [task], writeOk);
    }

    /** `updateTask`: replaces every task with the same id. */
    method UpdateTask(updated: Task, writeOk: bool)
      modifies this
      ensures tasks == (if writeOk then Replaced(old(tasks), updated) else old(tasks))
      ensures stored == (if writeOk then Some(tasks) else old(stored))
      ensures isLoading == old(isLoading)
      ensures old(Synced()) ==> Synced()
    {
      SaveTasks(Replaced(tasks, updated), writeOk);
    }

    /** `updateTaskStatus`: sets the status of every task with that id. */
    method UpdateTaskStatus(taskId: string, status: Status, writeOk: bool)
      modifies this
      ensures tasks == (if writeOk then WithStatus(old(tasks), taskId, status) else old(tasks))
      ensures stored == (if writeOk then Some(tasks) else old(stored))
      ensures isLoading == old(isLoading)
      ensures old(Synced()) ==> Synced()
    {
      SaveTasks(WithStatus(tasks, taskId, status), writeOk);
    }

    /** `deleteTask`: removes every task with that id. */
    method DeleteTask(taskId: string, writeOk: bool)
      modifies this
      ensures tasks == (if writeOk then Without(old(tasks), taskId) else old(tasks))
      ensures stored == (if writeOk then Some(tasks) else old(stored))
      ensures isLoading == old(isLoading)
      ensures old(Synced()) ==> Synced()
    {
      SaveTasks(Without(tasks, taskId), writeOk);
    }

    /** `getUserTasks`: the tasks of one user, in order. */
    method GetUserTasks(username: string) returns (r: seq<Task>)
      ensures forall t :: t in r <==> t in tasks && t.user == username
      ensures IsSubsequence(r, tasks)
      ensures r == OwnedBy(tasks, username)
    {
      r := OwnedBy(tasks, username);
      OwnedBySpec(tasks, username);
    }
  }
}

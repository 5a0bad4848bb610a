/** Per-task reminder policy of services/TaskNotificationService.ts, over the scheduler of
    NotificationSchedulerService.ts (the notification service and manager in between only
    delegate). Schedule honours the task's reminder flag, update is cancel-then-schedule, and
    toggle schedules or cancels according to the flag. */
module TaskNotifications {
  import opened Wrappers
  import opened Text
  import opened Lists
  import opened TaskRegistry
  import opened NotificationScheduler

  /** `task.notificationsEnabled !== false`: an unset flag counts as on. */
  predicate RemindersOn(task: Task) {
    task.notificationsEnabled != Some(false)
  }

  /** `if (task.notificationsEnabled)`: here an unset flag counts as off. */
  predicate ToggleSchedules(task: Task) {
    task.notificationsEnabled == Some(true)
  }

  /** The two readings of the flag disagree only on an unset flag. */
  lemma FlagReadings(task: Task)
    ensures ToggleSchedules(task) ==> RemindersOn(task)
    ensures RemindersOn(task) && !ToggleSchedules(task) <==> task.notificationsEnabled == None
  {
    if task.notificationsEnabled == Some(true) {
      assert RemindersOn(task);
    } else if task.notificationsEnabled.Some? {
      var v := task.notificationsEnabled.value;
      assert task.notificationsEnabled == Some(v);
      assert !v;
      assert task.notificationsEnabled == Some(false);
    }
  }

  class TaskNotificationService {
    const scheduler: NotificationScheduler

    constructor (scheduler: NotificationScheduler)
      ensures this.scheduler == scheduler
    {
      this.scheduler := scheduler;
    }

    /** `scheduleForTask`: schedules exactly when the flag is not `false`. */
    method ScheduleForTask(task: Task, faults: OsFaults)
      requires scheduler.Valid()
      modifies scheduler
      ensures scheduler.Valid()
      ensures !RemindersOn(task) || task.id == "" || task.title == "" ==> scheduler.pending == old(scheduler.pending)
      ensures RemindersOn(task) && task.id != "" && task.title != "" && faults == NO_FAULTS ==>
                scheduler.pending == CancelledFor(old(scheduler.pending), task.id) + [RequestId(task.id)]
      ensures forall id :: id in old(scheduler.pending) && !StartsWith(id, task.id) ==> id in scheduler.pending
      ensures forall id :: id in scheduler.pending ==> id in old(scheduler.pending) || id == RequestId(task.id)
    {
      if RemindersOn(task) {
        scheduler.ScheduleTaskNotifications(task.id, task.title, task.days, task.startTime, task.endTime, faults);
      }
    }

    /** `cancelForTask`: the scheduler's cancellation, with its exact partial state when a
        cancellation fails. */
    method CancelForTask(taskId: string, faults: OsFaults)
      requires scheduler.Valid()
      modifies scheduler
      ensures scheduler.Valid()
      ensures taskId == "" || faults.listFails ==> scheduler.pending == old(scheduler.pending)
      ensures taskId != "" && !faults.listFails ==>
                var matching := Filter(old(scheduler.pending), HasPrefix(taskId));
                var done := if faults.cancelFailsAt.Some? && faults.cancelFailsAt.value < |matching|
                            then faults.cancelFailsAt.value else |matching|;
                scheduler.pending == Filter(old(scheduler.pending), NotAmong(matching[..done]))
      ensures taskId != "" && faults.cancelFailsAt.None? && !faults.listFails ==>
                scheduler.pending == CancelledFor(old(scheduler.pending), taskId)
      ensures forall id :: id in old(scheduler.pending) && !StartsWith(id, taskId) ==> id in scheduler.pending
      ensures forall id :: id in scheduler.pending ==> id in old(scheduler.pending)
    {
      scheduler.CancelTaskNotifications(taskId, faults);
    }

    /** `updateForTask`: cancels, then schedules. Without faults the task ends with exactly its
        one fresh request when reminders are on, and with none when they are off. */
    method UpdateForTask(task: Task, cancelFaults: OsFaults, scheduleFaults: OsFaults)
      requires scheduler.Valid()
      modifies scheduler
      ensures scheduler.Valid()
      ensures task.id != "" && task.title != "" && cancelFaults == NO_FAULTS && scheduleFaults == NO_FAULTS ==>
                scheduler.pending == (if RemindersOn(task)
                                      then CancelledFor(old(scheduler.pending), task.id) + [RequestId(task.id)]
                                      else CancelledFor(old(scheduler.pending), task.id))
      ensures forall id :: id in old(scheduler.pending) && !StartsWith(id, task.id) ==> id in scheduler.pending
      ensures forall id :: id in scheduler.pending ==> id in old(scheduler.pending) || id == RequestId(task.id)
    {
      CancelForTask(task.id, cancelFaults);
      ScheduleForTask(task, scheduleFaults);
      if task.id != "" && task.title != "" && cancelFaults == NO_FAULTS && scheduleFaults == NO_FAULTS {
        CancelIdempotent(old(scheduler.pending), task.id);
      }
    }

    /** `toggleForTask`: schedules when the flag is `true`, cancels otherwise (an unset flag
        cancels). */
    method ToggleForTask(task: Task, faults: OsFaults)
      requires scheduler.Valid()
      modifies scheduler
      ensures scheduler.Valid()
      ensures task.id != "" && task.title != "" && faults == NO_FAULTS ==>
                scheduler.pending == (if ToggleSchedules(task)
                                      then CancelledFor(old(scheduler.pending), task.id) + [RequestId(task.id)]
                                      else CancelledFor(old(scheduler.pending), task.id))
      ensures forall id :: id in old(scheduler.pending) && !StartsWith(id, task.id) ==> id in scheduler.pending
      ensures forall id :: id in scheduler.pending ==> id in old(scheduler.pending) || id == RequestId(task.id)
    {
      if task.notificationsEnabled == Some(true) {
        ScheduleForTask(task, faults);
      } else {
        CancelForTask(task.id, faults);
      }
    }
  }
}

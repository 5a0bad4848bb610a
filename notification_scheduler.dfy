/** Reminder bookkeeping of services/NotificationSchedulerService.ts. The operating system's
    set of pending notification requests is the `pending` field, a list of request identifiers
    without repetitions (scheduling an identifier that is already pending replaces it). Each
    call into the notification library can fail; which calls fail is given by an `OsFaults`
    value, and every failure is caught and logged, never propagated. */
module NotificationScheduler {
  import opened Wrappers
  import opened Text
  import opened Lists

  /** Which library calls fail during one operation: listing the pending requests, the
      cancellation with the given position in the loop (0 for the first), and registering. */
  datatype OsFaults = OsFaults(listFails: bool, cancelFailsAt: Option<nat>, registerFails: bool)

  const NO_FAULTS := OsFaults(false, None, false)

  /** `${taskId}-scheduled` */
  function RequestId(taskId: string): string {
    taskId + "-scheduled"
  }

  function HasPrefix(taskId: string): string -> bool { (id: string) => StartsWith(id, taskId) }
  function LacksPrefix(taskId: string): string -> bool { (id: string) => !StartsWith(id, taskId) }
  function NotAmong(ids: seq<string>): string -> bool { (id: string) => id !in ids }
  function IsNot(id: string): string -> bool { (other: string) => other != id }

  /** What a complete cancellation for `taskId` leaves pending: every identifier that does not
      start with `taskId`, in the same order. */
  function CancelledFor(pending: seq<string>, taskId: string): (r: seq<string>)
    ensures forall id :: id in r <==> id in pending && !StartsWith(id, taskId)
  {
    Filter(pending, LacksPrefix(taskId))
  }

  /** Registering a request: any pending request with the same identifier is replaced. */
  function Registered(pending: seq<string>, id: string): (r: seq<string>)
    ensures forall other :: other in r <==> other in pending || other == id
  {
    Filter(pending, IsNot(id)) + [id]
  }

  /** Removing, one at a time, every pending identifier that starts with `taskId` is the
      complete cancellation. */
  lemma {:induction false} CancelEachMatching(pending: seq<string>, taskId: string)
    ensures Filter(pending, NotAmong(Filter(pending, HasPrefix(taskId)))) == CancelledFor(pending, taskId)
  {
    var matching := Filter(pending, HasPrefix(taskId));
    FilterCongruent(pending, NotAmong(matching), LacksPrefix(taskId));
  }

  /** Cancellation follows the identifier's text, not its task: cancelling task "1" also
      removes the reminder of task "10". */
  lemma PrefixCollision()
    ensures CancelledFor([RequestId("1"), RequestId("10"), RequestId("2")], "1") == [RequestId("2")]
  {
    var ids := [RequestId("1"), RequestId("10"), RequestId("2")];
    assert StartsWith(ids[0], "1") && StartsWith(ids[1], "1") && !StartsWith(ids[2], "1");
    assert ids[1..][1..] == [ids[2]];
    assert ids[1..][1..][1..] == [];
  }

  /** Cancelling twice is cancelling once, and an identifier with no pending match changes
      nothing. */
  lemma CancelIdempotent(pending: seq<string>, taskId: string)
    ensures CancelledFor(CancelledFor(pending, taskId), taskId) == CancelledFor(pending, taskId)
    ensures (forall id :: id in pending ==> !StartsWith(id, taskId)) ==> CancelledFor(pending, taskId) == pending
  {
    var once := CancelledFor(pending, taskId);
    FilterAll(once, LacksPrefix(taskId));
    if forall id :: id in pending ==> !StartsWith(id, taskId) {
      FilterAll(pending, LacksPrefix(taskId));
    }
  }

  /** Cancelling one more identifier is one more filter step. */
  lemma NotAmongStep(ids: seq<string>, i: nat)
    requires i < |ids|
    ensures forall id :: NotAmong(ids[..i + 1])(id) == (NotAmong(ids[..i])(id) && IsNot(ids[i])(id))
  {
    assert ids[..i + 1] == ids[..i] + [ids[i]];
  }

  /** A task's own request identifier starts with its id, so scheduling leaves the other
      tasks' unrelated requests in order and puts exactly one request of this task at the end;
      scheduling again gives the same set. */
  lemma {:induction false} ScheduleResult(pending: seq<string>, taskId: string)
    ensures Registered(CancelledFor(pending, taskId), RequestId(taskId))
            == CancelledFor(pending, taskId) + [RequestId(taskId)]
    ensures Registered(CancelledFor(Registered(CancelledFor(pending, taskId), RequestId(taskId)), taskId), RequestId(taskId))
            == Registered(CancelledFor(pending, taskId), RequestId(taskId))
  {
    var rid := RequestId(taskId);
    assert StartsWith(rid, taskId) by { assert rid[..|taskId|] == taskId; }
    var cancelled := CancelledFor(pending, taskId);
    FilterAll(cancelled, IsNot(rid));
    var scheduled := cancelled + [rid];
    FilterAppend(cancelled, [rid], LacksPrefix(taskId));
    FilterAll(cancelled, LacksPrefix(taskId));
    FilterNone([rid], LacksPrefix(taskId));
    assert CancelledFor(scheduled, taskId) == cancelled;
  }

  /** Registering keeps the pending list free of repetitions. */
  lemma RegisteredNoDuplicates(pending: seq<string>, id: string)
    requires NoDuplicates(pending)
    ensures NoDuplicates(Registered(pending, id))
  {
    var kept := Filter(pending, IsNot(id));
    FilterNoDuplicates(pending, IsNot(id));
    assert id !in kept;
  }

  class NotificationScheduler {
    var pending: seq<string>

    /** The operating system never holds two requests with one identifier. */
    predicate Valid()
      reads this
    {
      NoDuplicates(pending)
    }

    constructor (pending: seq<string>)
      requires NoDuplicates(pending)
      ensures Valid() && this.pending == pending
    {
      this.pending := pending;
    }

    /** `getScheduledNotifications`: the pending requests, or `[]` when listing them fails. */
    method GetScheduledNotifications(faults: OsFaults) returns (requests: seq<string>)
      ensures requests == if faults.listFails then [] else pending
    {
      if faults.listFails {
        requests := [];
      } else {
        requests := pending;
      }
    }

    /** The `for` loop of `cancelTaskNotifications`: cancels `ids` one after the other, and
        stops at the cancellation that fails, if any. */
    method CancelEach(ids: seq<string>, failsAt: Option<nat>) returns (done: nat)
      requires Valid()
      modifies this
      ensures Valid()
      ensures done == if failsAt.Some? && failsAt.value < |ids| then failsAt.value else |ids|
      ensures pending == Filter(old(pending), NotAmong(ids[..done]))
    {
      ghost var original := pending;
      FilterAll(pending, NotAmong([]));
      done := 0;
      while done < |ids|
        invariant 0 <= done <= |ids|
        invariant pending == Filter(original, NotAmong(ids[..done]))
        invariant NoDuplicates(pending)
        invariant failsAt.Some? ==> done <= failsAt.value
      {
        if failsAt == Some(done) {
          break;
        }
        NotAmongStep(ids, done);
        FilterTwice(original, NotAmong(ids[..done]), IsNot(ids[done]), NotAmong(ids[..done + 1]));
        FilterNoDuplicates(pending, IsNot(ids[done]));
        pending := Filter(pending, IsNot(ids[done]));
        done := done + 1;
      }
    }

    /** `cancelTaskNotifications`: for a non-empty id, lists the pending requests and cancels, in
        order, each one whose identifier starts with the id. A failed listing cancels nothing; a
        failed cancellation stops the loop there. Without faults, exactly the identifiers with
        that prefix are removed. Whatever fails, only identifiers with that prefix are removed
        and nothing is added. */
    method CancelTaskNotifications(taskId: string, faults: OsFaults)
      requires Valid()
      modifies this
      ensures Valid()
      ensures taskId == "" || faults.listFails ==> pending == old(pending)
      ensures taskId != "" && !faults.listFails ==>
                var matching := Filter(old(pending), HasPrefix(taskId));
                var done := if faults.cancelFailsAt.Some? && faults.cancelFailsAt.value < |matching|
                            then faults.cancelFailsAt.value else |matching|;
                pending == Filter(old(pending), NotAmong(matching[..done]))
      ensures taskId != "" && faults.cancelFailsAt.None? && !faults.listFails ==>
                pending == CancelledFor(old(pending), taskId)
      ensures forall id :: id in old(pending) && !StartsWith(id, taskId) ==> id in pending
      ensures forall id :: id in pending ==> id in old(pending)
    {
      if taskId == "" {
        return;
      }
      var scheduled := GetScheduledNotifications(faults);
      var matching := Filter(scheduled, HasPrefix(taskId));
      if faults.listFails {
        FilterAll(pending, NotAmong([]));
      }
      var done := CancelEach(matching, faults.cancelFailsAt);
      forall id | id in old(pending) && !StartsWith(id, taskId) ensures id in pending {
        assert id !in matching;
      }
      if !faults.listFails && faults.cancelFailsAt.None? {
        assert matching[..done] == matching;
        CancelEachMatching(old(pending), taskId);
      }
    }

    /** `scheduleTaskNotifications`: with an empty id or title nothing happens. Otherwise the
        task's pending requests are cancelled first and then one request `${taskId}-scheduled`
        is registered. Without faults the result is the complete cancellation plus that one
        request at the end. Whatever fails, no request of another task is removed and nothing
        but that one request is added. */
    method ScheduleTaskNotifications(taskId: string, title: string, days: seq<string>,
                                     startTime: string, endTime: string, faults: OsFaults)
      requires Valid()
      modifies this
      ensures Valid()
      ensures taskId == "" || title == "" ==> pending == old(pending)
      ensures taskId != "" && title != "" && faults == NO_FAULTS ==>
                pending == CancelledFor(old(pending), taskId) + [RequestId(taskId)]
      ensures taskId != "" && title != "" && !faults.registerFails ==> RequestId(taskId) in pending
      ensures taskId != "" && title != "" && faults.registerFails && faults.cancelFailsAt.None? && !faults.listFails ==>
                pending == CancelledFor(old(pending), taskId)
      ensures forall id :: id in old(pending) && !StartsWith(id, taskId) ==> id in pending
      ensures forall id :: id in pending ==> id in old(pending) || id == RequestId(taskId)
    {
      if taskId == "" || title == "" {
        return;
      }
      CancelTaskNotifications(taskId, faults);
      if !faults.registerFails {
        RegisteredNoDuplicates(pending, RequestId(taskId));
        pending := Registered(pending, RequestId(taskId));
        if faults == NO_FAULTS {
          ScheduleResult(old(pending), taskId);
        }
      }
    }

    /** `cancelAllNotifications`: empties the pending set unless the call fails. */
    method CancelAllNotifications(callFails: bool)
      requires Valid()
      modifies this
      ensures pending == if callFails then old(pending) else []
      ensures Valid()
    {
      if !callFails {
        pending := [];
      }
    }
  }
}

/** frontend/src/pages/Dashboard.tsx: the task list the dashboard keeps, updated by socket
    events and by the optimistic status change, the stats it shows and the query it sends. */
module Dashboard {
  import opened Wrappers
  import opened ClientTasks

  /** `taskUpdated`: every element with the event's `_id` is replaced by the event's task. */
  function OnTaskUpdated(prev: seq<ClientTask>, updated: ClientTask): (r: seq<ClientTask>)
    ensures |r| == |prev|
    ensures forall i :: 0 <= i < |prev| ==>
      r[i] == (if prev[i].id == updated.id then updated else prev[i])
  {
    if prev == [] then []
    else [if prev[0].id == updated.id then updated else prev[0]] + OnTaskUpdated(prev[1..], updated)
  }

  /** `taskCreated`: appended at the end unless an element has the same `_id`. */
  function OnTaskCreated(prev: seq<ClientTask>, created: ClientTask): (r: seq<ClientTask>)
    ensures HasId(prev, created.id) ==> r == prev
    ensures !HasId(prev, created.id) ==> r == prev + [created]
  {
    if HasId(prev, created.id) then prev else prev + [created]
  }

  /** `taskDeleted`: the elements with other ids, in their order. */
  function OnTaskDeleted(prev: seq<ClientTask>, taskId: string): (r: seq<ClientTask>)
    ensures |r| <= |prev|
    ensures forall t :: t in r <==> t in prev && t.id != taskId
  {
    if prev == [] then []
    else (if prev[0].id == taskId then [] else [prev[0]]) + OnTaskDeleted(prev[1..], taskId)
  }

  /** The optimistic update of `handleStatusChange`. */
  function OnStatusChange(prev: seq<ClientTask>, taskId: string, newStatus: string): (r: seq<ClientTask>)
    ensures |r| == |prev|
    ensures forall i :: 0 <= i < |prev| ==>
      r[i] == (if prev[i].id == taskId then prev[i].(status := newStatus) else prev[i])
  {
    if prev == [] then []
    else [if prev[0].id == taskId then prev[0].(status := newStatus) else prev[0]]
         + OnStatusChange(prev[1..], taskId, newStatus)
  }

  /** Number of tasks with this status. */
  function CountStatus(tasks: seq<ClientTask>, status: string): (n: nat)
    ensures n <= |tasks|
    ensures n == 0 <==> forall i :: 0 <= i < |tasks| ==> tasks[i].status != status
    ensures n == |tasks| <==> forall i :: 0 <= i < |tasks| ==> tasks[i].status == status
  {
    if tasks == [] then 0
    else (if tasks[0].status == status then 1 else 0) + CountStatus(tasks[1..], status)
  }

  datatype Stats = Stats(total: nat, todo: nat, inProgress: nat, completed: nat)

  /** `stats`; review tasks are counted in the total only. */
  function StatsOf(tasks: seq<ClientTask>): (s: Stats)
    ensures s.total == |tasks|
    ensures s.todo == CountStatus(tasks, "todo") && s.inProgress == CountStatus(tasks, "in_progress")
      && s.completed == CountStatus(tasks, "completed")
    ensures s.todo + s.inProgress + s.completed <= s.total
  {
    DistinctStatusesBounded(tasks, "todo", "in_progress", "completed");
    Stats(|tasks|, CountStatus(tasks, "todo"), CountStatus(tasks, "in_progress"), CountStatus(tasks, "completed"))
  }

  /** `fetchTasks`' URLSearchParams, as (key, value) pairs in append order. */
  method FetchParams(statusFilter: string, priorityFilter: string, sortBy: string)
    returns (params: seq<(string, string)>)
    ensures |params| == 1 + (if statusFilter != "" then 1 else 0) + (if priorityFilter != "" then 1 else 0)
    ensures params[|params| - 1] == ("sortByDueDate", sortBy)
    ensures (exists i :: 0 <= i < |params| && params[i].0 == "status") <==> statusFilter != ""
    ensures (exists i :: 0 <= i < |params| && params[i].0 == "priority") <==> priorityFilter != ""
    ensures forall i :: 0 <= i < |params| && params[i].0 == "status" ==> params[i] == ("status", statusFilter) && i == 0
    ensures forall i :: 0 <= i < |params| && params[i].0 == "priority" ==>
      params[i] == ("priority", priorityFilter) && i == |params| - 2
  {
    params := [];
    if statusFilter != "" {
      params := params + [("status", statusFilter)];
    }
    if priorityFilter != "" {
      params := params + [("priority", priorityFilter)];
    }
    params := params + [("sortByDueDate", sortBy)];
    if statusFilter != "" {
      assert params[0].0 == "status";
    }
    if priorityFilter != "" {
      assert params[|params| - 2].0 == "priority";
    }
  }

  /** The local state the create, update and delete handlers touch. */
  datatype View = View(tasks: seq<ClientTask>, modalOpen: bool, editing: Option<ClientTask>, submitting: bool)

  /** `handleCreate`, given whether the request succeeded: the list waits for the socket event. */
  function HandleCreate(v: View, succeeded: bool): (r: View)
    ensures r.tasks == v.tasks && !r.submitting
    ensures r.modalOpen == (v.modalOpen && !succeeded)
  {
    v.(modalOpen := v.modalOpen && !succeeded, submitting := false)
  }

  /** `handleUpdate`: nothing happens without a task being edited. */
  function HandleUpdate(v: View, succeeded: bool): (r: View)
    ensures r.tasks == v.tasks
    ensures v.editing.None? ==> r == v
    ensures v.editing.Some? ==> !r.submitting && (succeeded ==> r.editing.None? && !r.modalOpen)
    ensures v.editing.Some? && !succeeded ==> r == v.(submitting := false)
  {
    if v.editing.None? then v
    else if succeeded then v.(editing := None, modalOpen := false, submitting := false)
    else v.(submitting := false)
  }

  /** `handleDelete`, whether or not the user confirmed and the request succeeded. */
  function HandleDelete(v: View, confirmed: bool, succeeded: bool): (r: View)
    ensures r == v
  {
    v
  }

  // ---------------------------------------------------------------------------

  /** Counts of three different statuses never add up to more than the list. */
  lemma {:induction false} DistinctStatusesBounded(tasks: seq<ClientTask>, a: string, b: string, c: string)
    requires a != b && b != c && a != c
    ensures CountStatus(tasks, a) + CountStatus(tasks, b) + CountStatus(tasks, c) <= |tasks|
  {
    if tasks != [] {
      DistinctStatusesBounded(tasks[1..], a, b, c);
    }
  }

  /** Counting works element by element. */
  lemma {:induction false} CountStatusAppend(a: seq<ClientTask>, b: seq<ClientTask>, status: string)
    ensures CountStatus(a + b, status) == CountStatus(a, status) + CountStatus(b, status)
  {
    if a == [] {
      assert a + b == b;
    } else {
      assert (a + b)[1..] == a[1..] + b;
      CountStatusAppend(a[1..], b, status);
    }
  }

  /** A new task adds one to the count of its own status and leaves the others alone;
      a repeated `taskCreated` adds nothing. */
  lemma CreatedIsCounted(prev: seq<ClientTask>, created: ClientTask, status: string)
    ensures CountStatus(OnTaskCreated(prev, created), status)
      == CountStatus(prev, status) + (if !HasId(prev, created.id) && created.status == status then 1 else 0)
  {
    if !HasId(prev, created.id) {
      CountStatusAppend(prev, [created], status);
      assert [created][1..] == [];
    }
  }

  /** The total shown after a `taskCreated` grows by one exactly when the id is new. */
  lemma CreatedStats(prev: seq<ClientTask>, created: ClientTask)
    ensures StatsOf(OnTaskCreated(prev, created)).total == StatsOf(prev).total + (if HasId(prev, created.id) then 0 else 1)
    ensures !HasId(prev, created.id) && created.status == "todo"
      ==> StatsOf(OnTaskCreated(prev, created)).todo == StatsOf(prev).todo + 1
  {
    CreatedIsCounted(prev, created, "todo");
  }

  /** An update for an id the list does not hold changes nothing; applying it twice is
      applying it once. */
  lemma UpdateAbsentIsIdentity(prev: seq<ClientTask>, updated: ClientTask)
    requires !HasId(prev, updated.id)
    ensures OnTaskUpdated(prev, updated) == prev
  {
  }

  lemma UpdateIdempotent(prev: seq<ClientTask>, updated: ClientTask)
    ensures OnTaskUpdated(OnTaskUpdated(prev, updated), updated) == OnTaskUpdated(prev, updated)
  {
  }

  /** Receiving the same `taskCreated` twice leaves the list as receiving it once. */
  lemma CreateIdempotent(prev: seq<ClientTask>, created: ClientTask)
    ensures OnTaskCreated(OnTaskCreated(prev, created), created) == OnTaskCreated(prev, created)
  {
    if !HasId(prev, created.id) {
      var r := prev + [created];
      assert r[|prev|].id == created.id;
    }
  }

  /** Deletion works element by element, so it keeps the order of what remains. */
  lemma {:induction false} DeleteDistributes(a: seq<ClientTask>, b: seq<ClientTask>, taskId: string)
    ensures OnTaskDeleted(a + b, taskId) == OnTaskDeleted(a, taskId) + OnTaskDeleted(b, taskId)
  {
    if a == [] {
      assert a + b == b;
    } else {
      assert (a + b)[1..] == a[1..] + b;
      DeleteDistributes(a[1..], b, taskId);
    }
  }

  /** Deleting an id the list does not hold changes nothing. */
  lemma {:induction false} DeleteAbsentIsIdentity(prev: seq<ClientTask>, taskId: string)
    requires !HasId(prev, taskId)
    ensures OnTaskDeleted(prev, taskId) == prev
  {
    if prev != [] {
      assert !HasId(prev[1..], taskId) by {
        forall i | 0 <= i < |prev[1..]| ensures prev[1..][i].id != taskId {
          assert prev[1..][i] == prev[i + 1];
        }
      }
      DeleteAbsentIsIdentity(prev[1..], taskId);
    }
  }

  /** The optimistic update changes the status field of the matching tasks and nothing else. */
  lemma StatusChangeTouchesOnlyStatus(prev: seq<ClientTask>, taskId: string, newStatus: string)
    ensures var r := OnStatusChange(prev, taskId, newStatus);
      forall i :: 0 <= i < |prev| ==>
        r[i].(status := prev[i].status) == prev[i]
        && (r[i].status != prev[i].status ==> prev[i].id == taskId && r[i].status == newStatus)
  {
  }

  /** The handlers never edit the list themselves; the socket events do. */
  lemma HandlersKeepTasks(v: View, confirmed: bool, succeeded: bool)
    ensures HandleCreate(v, succeeded).tasks == v.tasks
    ensures HandleUpdate(v, succeeded).tasks == v.tasks
    ensures HandleDelete(v, confirmed, succeeded).tasks == v.tasks
  {
  }
}

/** frontend/src/components/tasks/KanbanBoard.tsx: the four status columns, the drop
    guard, and the two drag-state fields. */
module KanbanBoard {
  import opened Wrappers
  import opened ClientTasks

  /** The `id`s of `columns`, in display order. */
  const ColumnIds: seq<string> := ["todo", "in_progress", "review", "completed"]

  /** `tasks.filter(t => t.status === columnId)` */
  function Column(tasks: seq<ClientTask>, columnId: string): (r: seq<ClientTask>)
    ensures |r| <= |tasks|
    ensures forall t :: t in r <==> t in tasks && t.status == columnId
  {
    if tasks == [] then []
    else (if tasks[0].status == columnId then [tasks[0]] else []) + Column(tasks[1..], columnId)
  }

  /** The tasks whose status names a column. */
  function OnBoard(tasks: seq<ClientTask>): (r: seq<ClientTask>)
    ensures forall t :: t in r <==> t in tasks && t.status in ColumnIds
  {
    if tasks == [] then []
    else (if tasks[0].status in ColumnIds then [tasks[0]] else []) + OnBoard(tasks[1..])
  }

  /** What `handleDrop` passes to `onStatusChange`, if it calls it. */
  datatype StatusChange = StatusChange(taskId: string, newStatus: string)

  /** The drop guard: the change is requested only for a task found by the dragged id whose
      status differs from the target column. */
  function DropDecision(tasks: seq<ClientTask>, taskId: string, newStatus: string): (r: Option<StatusChange>)
    ensures r.Some? <==> HasId(tasks, taskId) && tasks[FindId(tasks, taskId).value].status != newStatus
    ensures r.Some? ==> r.value == StatusChange(taskId, newStatus)
  {
    match FindId(tasks, taskId)
    case None => None
    case Some(i) => if tasks[i].status != newStatus then Some(StatusChange(taskId, newStatus)) else None
  }

  class Board {
    var draggedTaskId: Option<string>
    var dragOverColumn: Option<string>

    constructor()
      ensures draggedTaskId.None? && dragOverColumn.None?
    {
      draggedTaskId := None;
      dragOverColumn := None;
    }

    /** `handleDragStart`; the id it puts on the data transfer is what a drop reads back. */
    method DragStart(taskId: string) returns (transferData: string)
      modifies this
      ensures draggedTaskId == Some(taskId) && dragOverColumn == old(dragOverColumn)
      ensures transferData == taskId
    {
      draggedTaskId := Some(taskId);
      transferData := taskId;
    }

    method DragEnd()
      modifies this
      ensures draggedTaskId.None? && dragOverColumn.None?
    {
      draggedTaskId := None;
      dragOverColumn := None;
    }

    method DragOver(columnId: string)
      modifies this
      ensures dragOverColumn == Some(columnId) && draggedTaskId == old(draggedTaskId)
    {
      dragOverColumn := Some(columnId);
    }

    method DragLeave()
      modifies this
      ensures dragOverColumn.None? && draggedTaskId == old(draggedTaskId)
    {
      dragOverColumn := None;
    }

    /** `handleDrop(e, newStatus)` with the id read from the data transfer. */
    method Drop(tasks: seq<ClientTask>, transferData: string, newStatus: string)
      returns (call: Option<StatusChange>)
      modifies this
      ensures call == DropDecision(tasks, transferData, newStatus)
      ensures draggedTaskId.None? && dragOverColumn.None?
    {
      var found := FindId(tasks, transferData);
      call := None;
      if found.Some? && tasks[found.value].status != newStatus {
        call := Some(StatusChange(transferData, newStatus));
      }
      draggedTaskId := None;
      dragOverColumn := None;
    }
  }

  // ---------------------------------------------------------------------------

  /** A task whose status names a column is shown in that column and in no other. */
  lemma ExactlyOneColumn(tasks: seq<ClientTask>, t: ClientTask)
    requires t in tasks && t.status in ColumnIds
    ensures forall c :: 0 <= c < |ColumnIds| ==> (t in Column(tasks, ColumnIds[c]) <==> ColumnIds[c] == t.status)
  {
  }

  /** A column lists its tasks in input order. */
  lemma {:induction false} ColumnKeepsOrder(a: seq<ClientTask>, b: seq<ClientTask>, columnId: string)
    ensures Column(a + b, columnId) == Column(a, columnId) + Column(b, columnId)
  {
    if a == [] {
      assert a + b == b;
    } else {
      assert (a + b)[1..] == a[1..] + b;
      ColumnKeepsOrder(a[1..], b, columnId);
    }
  }

  /** The column counts add up to the number of tasks on the board. */
  lemma {:induction false} ColumnCountsSum(tasks: seq<ClientTask>)
    ensures |Column(tasks, "todo")| + |Column(tasks, "in_progress")| + |Column(tasks, "review")|
            + |Column(tasks, "completed")| == |OnBoard(tasks)|
  {
    if tasks != [] {
      ColumnCountsSum(tasks[1..]);
    }
  }

  /** Dropping a task into the column it is already in requests nothing. */
  lemma DropOnOwnColumn(tasks: seq<ClientTask>, i: nat)
    requires i < |tasks| && FindId(tasks, tasks[i].id) == Some(i)
    ensures DropDecision(tasks, tasks[i].id, tasks[i].status).None?
  {
  }
}

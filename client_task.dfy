/** The task record as the frontend receives it (the `Task` interface that
    frontend/src/pages/Dashboard.tsx and frontend/src/components/tasks/KanbanBoard.tsx both
    declare). Every field is the string the API sends; a populated user is represented by
    its id. */
module ClientTasks {
  import opened Wrappers

  datatype ClientTask = ClientTask(
    id: string,
    title: string,
    description: string,
    status: string,
    priority: string,
    dueDate: string,
    creatorId: string,
    assignedToId: string,
    createdAt: string,
    updatedAt: string)

  /** Some element carries this `_id` (`prev.some(t => t._id === id)`). */
  predicate HasId(tasks: seq<ClientTask>, id: string) {
    exists i :: 0 <= i < |tasks| && tasks[i].id == id
  }

  /** Index of the first element with this `_id` (`tasks.find`). */
  function FindId(tasks: seq<ClientTask>, id: string): (r: Option<nat>)
    ensures r.Some? ==> r.value < |tasks| && tasks[r.value].id == id
    ensures r.Some? ==> forall k :: 0 <= k < r.value ==> tasks[k].id != id
    ensures r.None? <==> !HasId(tasks, id)
  {
    if tasks == [] then None
    else if tasks[0].id == id then Some(0)
    else match FindId(tasks[1..], id)
      case None => None
      case Some(k) => Some(k + 1)
  }
}

/** The stored task document (backend/src/models/Task.model.ts). Persistence itself is out
    of the model; due dates are opaque ordered integers, and ObjectIds are their strings. */
module TaskModel {
  import opened Wrappers
  import opened Constants

  type TaskId = string
  type UserRef = string

  datatype Task = Task(
    id: TaskId,
    title: string,
    description: Option<string>,
    dueDate: int,
    priority: Priority,
    status: Status,
    creatorId: UserRef,
    assignedToId: UserRef)
}

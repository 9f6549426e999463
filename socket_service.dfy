/** The event fan-out of backend/src/sockets/socket.service.ts.

    `ioInstance` is the optional server handle; an emit is recorded as an `Emission`
    appended to an outbox, so that who would receive what is a stated postcondition.
    Delivery by the transport is not modelled. */
module SocketService {
  import opened Wrappers
  import opened SocketRegistry
  import opened TaskModel
  import opened Text

  /** The identity of a socket.io server handle. */
  type ServerId = nat

  /** The payload of `taskAssigned`, as the clients read it. */
  datatype AssignPayload = AssignPayload(message: string)

  datatype Event =
    | TaskCreated(task: Task)
    | TaskUpdated(task: Task)
    | TaskDeleted(taskId: TaskId)
    | TaskAssigned(payload: AssignPayload)

  /** `io.emit(...)` reaches every client; `io.to(id).emit(...)` one socket. */
  datatype Target = AllClients | OneSocket(socket: SocketId)

  datatype Emission = Emission(server: ServerId, target: Target, event: Event)

  /** The four emit functions, as calls. */
  datatype EmitCall =
    | EmitCreated(task: Task)
    | EmitUpdated(task: Task)
    | EmitDeleted(taskId: TaskId)
    | EmitAssigned(user: UserId, payload: AssignPayload)

  /** What one emit call sends, given the server handle and the registry. A looked-up
      socket id is used only when it is truthy. */
  function Dispatch(io: Option<ServerId>, registry: seq<Entry>, call: EmitCall): (out: seq<Emission>)
    ensures io.None? ==> out == []
    ensures |out| <= 1
    ensures call.EmitCreated? ==> out == if io.Some? then [Emission(io.value, AllClients, TaskCreated(call.task))] else []
    ensures call.EmitUpdated? ==> out == if io.Some? then [Emission(io.value, AllClients, TaskUpdated(call.task))] else []
    ensures call.EmitDeleted? ==> out == if io.Some? then [Emission(io.value, AllClients, TaskDeleted(call.taskId))] else []
    ensures call.EmitAssigned? ==>
      (out != [] <==> io.Some? && Truthy(Lookup(registry, call.user)))
      && forall m :: m in out ==>
           m.target == OneSocket(Lookup(registry, call.user).value) && m.event == TaskAssigned(call.payload)
           && Entry(call.user, m.target.socket) in registry
  {
    match io
    case None => []
    case Some(server) =>
      match call
      case EmitCreated(t) => [Emission(server, AllClients, TaskCreated(t))]
      case EmitUpdated(t) => [Emission(server, AllClients, TaskUpdated(t))]
      case EmitDeleted(id) => [Emission(server, AllClients, TaskDeleted(id))]
      case EmitAssigned(u, p) =>
        var socketId := Lookup(registry, u);
        if Truthy(socketId) then [Emission(server, OneSocket(socketId.value), TaskAssigned(p))] else []
  }

  /** Two registrations of one user: a targeted emit goes only to the later socket. */
  lemma AssignedReachesLatestSocket(
    server: ServerId, e: seq<Entry>, u: UserId, s1: SocketId, s2: SocketId, p: AssignPayload)
    requires s2 != ""
    ensures Dispatch(Some(server), Assign(Assign(e, u, s1), u, s2), EmitAssigned(u, p))
         == [Emission(server, OneSocket(s2), TaskAssigned(p))]
  {
    AssignLookupSame(Assign(e, u, s1), u, s2);
  }

  /** After `register(u, s1)` and the disconnect of `s1`, a targeted emit to `u` is dropped
      -- as long as no other user had registered with `s1`. */
  lemma AssignedDroppedAfterDisconnect(
    io: Option<ServerId>, e: seq<Entry>, u: UserId, s1: SocketId, p: AssignPayload)
    requires DistinctUsers(e)
    requires forall k :: 0 <= k < |e| && e[k].user != u ==> e[k].socket != s1
    ensures Dispatch(io, RemoveFirstSocket(Assign(e, u, s1), s1), EmitAssigned(u, p)) == []
  {
    RegisterThenDisconnect(e, u, s1);
  }

  class Service {
    /** `ioInstance`: unset until `initSocketService` runs. */
    var io: Option<ServerId>
    /** Every emission made so far, oldest first. */
    var outbox: seq<Emission>

    /** Module load: no server handle, nothing sent. */
    constructor ()
      ensures io.None? && outbox == []
    {
      io := None;
      outbox := [];
    }

    /** `initSocketService`: store the handle; a later call replaces it. */
    method InitSocketService(server: ServerId)
      modifies this
      ensures io == Some(server) && outbox == old(outbox)
    {
      io := Some(server);
    }

    method EmitTaskCreated(task: Task)
      modifies this
      ensures io == old(io)
      ensures outbox == old(outbox) + Dispatch(io, [], EmitCreated(task))
    {
      if io.Some? {
        outbox := outbox + [Emission(io.value, AllClients, TaskCreated(task))];
      }
    }

    method EmitTaskUpdated(task: Task)
      modifies this
      ensures io == old(io)
      ensures outbox == old(outbox) + Dispatch(io, [], EmitUpdated(task))
    {
      if io.Some? {
        outbox := outbox + [Emission(io.value, AllClients, TaskUpdated(task))];
      }
    }

    method EmitTaskDeleted(taskId: TaskId)
      modifies this
      ensures io == old(io)
      ensures outbox == old(outbox) + Dispatch(io, [], EmitDeleted(taskId))
    {
      if io.Some? {
        outbox := outbox + [Emission(io.value, AllClients, TaskDeleted(taskId))];
      }
    }

    /** `emitTaskAssigned`: a targeted emit through the registry, which it only reads. */
    method EmitTaskAssigned(registry: Registry, userId: UserId, payload: AssignPayload)
      modifies this
      ensures io == old(io)
      ensures registry.entries == old(registry.entries)
      ensures outbox == old(outbox) + Dispatch(io, registry.entries, EmitAssigned(userId, payload))
    {
      if io.None? {
        return;
      }
      var socketId := registry.GetSocketIdByUser(userId);
      if socketId.Some? && socketId.value != "" {
        outbox := outbox + [Emission(io.value, OneSocket(socketId.value), TaskAssigned(payload))];
      }
    }
  }
}

/** The protobuf messages exchanged by the manager and its nodes. */
module Proto {
  import opened Common

  // Protobuf enums are open: a peer may send a number this build has no name for.
  datatype LockMode = Unspecified | NoLock | Write | Exclusive | Unrecognized(code: int)

  datatype InternalError =
    | OK
    | Timeout
    | StartedTimeout
    | BusyQueue
    | FullQueue
    | UnknownTask
    | ModuleError
    | Disconnecting
    | Disconnected
    | UnknownError

  datatype TaskRequest = TaskRequest(
    id: int,
    groupID: Option<int>,
    lockMode: LockMode,
    timeout: nat,
    task: string,
    input: string)

  datatype TaskResponse = TaskResponse(
    id: int,
    groupID: Option<int>,
    output: string,
    error: string,
    retcode: int,
    internalError: InternalError,
    moduleError: string)

  /** The task asks a node for what the request asks for, under an id of its own. */
  predicate Conveys(req: TaskRequest, id: int, task: TaskRequest) {
    && task.id == id && task.groupID == req.groupID && task.timeout == req.timeout
    && task.task == req.task && task.input == req.input
  }

  /** A response that carries only the echoed identifiers and an internal error. */
  function Bare(id: int, groupID: Option<int>, internalError: InternalError): TaskResponse {
    TaskResponse(id, groupID, "", "", 0, internalError, "")
  }

  /** The generated getters return 0 for an absent group. */
  function GroupOf(groupID: Option<int>): int {
    match groupID
    case None => 0
    case Some(g) => g
  }
}

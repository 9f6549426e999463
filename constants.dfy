/** The enumerations and status codes shared by the backend (backend/src/utils/constants.ts). */
module Constants {
  import opened Wrappers

  /** TASK_STATUS; `Name` is the canonical stored string. */
  datatype Status = Todo | InProgress | Review | Completed {
    function Name(): (n: string)
      ensures n in StatusNames
    {
      match this
      case Todo => "todo"
      case InProgress => "in_progress"
      case Review => "review"
      case Completed => "completed"
    }
  }

  /** TASK_PRIORITY; `Name` is the canonical stored string. */
  datatype Priority = Low | Medium | High | Urgent {
    function Name(): (n: string)
      ensures n in PriorityNames
    {
      match this
      case Low => "low"
      case Medium => "medium"
      case High => "high"
      case Urgent => "urgent"
    }
  }

  /** `Object.values(TASK_STATUS)` */
  const StatusNames: seq<string> := ["todo", "in_progress", "review", "completed"]

  /** `Object.values(TASK_PRIORITY)` */
  const PriorityNames: seq<string> := ["low", "medium", "high", "urgent"]

  /** USER_ROLES */
  const RoleAdmin: string := "admin"
  const RoleMember: string := "member"

  /** HTTP_STATUS */
  const HttpOk: int := 200
  const HttpCreated: int := 201
  const HttpNoContent: int := 204
  const HttpBadRequest: int := 400
  const HttpUnauthorized: int := 401
  const HttpForbidden: int := 403
  const HttpNotFound: int := 404
  const HttpConflict: int := 409
  const HttpUnprocessableEntity: int := 422
  const HttpInternalServerError: int := 500

  /** The status with a given canonical name, if any. */
  function StatusNamed(s: string): (r: Option<Status>)
    ensures r.Some? <==> s in StatusNames
    ensures r.Some? ==> r.value.Name() == s
  {
    if s == "todo" then Some(Todo)
    else if s == "in_progress" then Some(InProgress)
    else if s == "review" then Some(Review)
    else if s == "completed" then Some(Completed)
    else None
  }

  /** The priority with a given canonical name, if any. */
  function PriorityNamed(s: string): (r: Option<Priority>)
    ensures r.Some? <==> s in PriorityNames
    ensures r.Some? ==> r.value.Name() == s
  {
    if s == "low" then Some(Low)
    else if s == "medium" then Some(Medium)
    else if s == "high" then Some(High)
    else if s == "urgent" then Some(Urgent)
    else None
  }
}

/** The zod schemas of backend/src/dtos/task.dto.ts as validation functions. A parse
    succeeds exactly when the schema's constraints hold, and keeps only declared keys.
    Body and query fields are modelled as strings or absent. */
module TaskDto {
  import opened Wrappers
  import opened Text
  import opened Constants
  import opened TaskService
  import opened ApiErrors

  /** A request body's fields, before validation. */
  datatype Body = Body(
    title: Option<string>,
    description: Option<string>,
    dueDate: Option<string>,
    priority: Option<string>,
    status: Option<string>,
    assignedToId: Option<string>)

  /** `z.string().min(1).max(100)` */
  predicate ValidTitle(t: string) {
    1 <= |t| <= 100
  }

  /** `CreateTaskDto.parse`: title, dueDate, priority and assignedToId are required,
      description is optional, and `status` is not a key of the schema, so it is dropped. */
  function ParseCreate(b: Body): (r: Option<CreateData>)
    ensures r.Some? <==>
      (b.title.Some? && ValidTitle(b.title.value) && b.dueDate.Some?
       && b.priority.Some? && b.priority.value in PriorityNames && b.assignedToId.Some?)
    ensures r.Some? ==>
      r.value == CreateData(b.title.value, b.description, b.dueDate.value, b.priority.value, None, b.assignedToId.value)
  {
    if b.title.Some? && ValidTitle(b.title.value) && b.dueDate.Some?
       && b.priority.Some? && PriorityNamed(b.priority.value).Some? && b.assignedToId.Some?
    then Some(CreateData(b.title.value, b.description, b.dueDate.value, b.priority.value, None, b.assignedToId.value))
    else None
  }

  /** `UpdateTaskDto.parse`: every field optional; a present title, priority or status
      must satisfy its constraint. */
  function ParseUpdate(b: Body): (r: Option<UpdateData>)
    ensures r.Some? <==>
      ((b.title.Some? ==> ValidTitle(b.title.value))
       && (b.priority.Some? ==> b.priority.value in PriorityNames)
       && (b.status.Some? ==> b.status.value in StatusNames))
    ensures r.Some? ==>
      r.value == UpdateData(b.title, b.description, b.dueDate, b.priority, b.status, b.assignedToId)
  {
    if (b.title.None? || ValidTitle(b.title.value))
       && (b.priority.None? || PriorityNamed(b.priority.value).Some?)
       && (b.status.None? || StatusNamed(b.status.value).Some?)
    then Some(UpdateData(b.title, b.description, b.dueDate, b.priority, b.status, b.assignedToId))
    else None
  }

  /** The query string's fields, before validation. */
  datatype Query = Query(status: Option<string>, priority: Option<string>, sortByDueDate: Option<string>)

  /** `TaskQueryDto.parse` */
  function ParseQuery(q: Query): (r: Option<ListQuery>)
    ensures r.Some? <==>
      ((q.status.Some? ==> q.status.value in StatusNames)
       && (q.priority.Some? ==> q.priority.value in PriorityNames)
       && (q.sortByDueDate.Some? ==> q.sortByDueDate.value in ["asc", "desc"]))
    ensures r.Some? ==> r.value == ListQuery(q.status, q.priority, q.sortByDueDate)
  {
    if (q.status.None? || StatusNamed(q.status.value).Some?)
       && (q.priority.None? || PriorityNamed(q.priority.value).Some?)
       && (q.sortByDueDate.None? || q.sortByDueDate.value == "asc" || q.sortByDueDate.value == "desc")
    then Some(ListQuery(q.status, q.priority, q.sortByDueDate))
    else None
  }

  // ---------------------------------------------------------------------------

  /** The schema admits only the lowercase canonical priorities: "Low" fails, although the
      service's normaliser would accept it. */
  lemma MixedCasePriorityRejected(b: Body)
    requires b.priority == Some("Low")
    ensures ParseCreate(b).None? && ParseUpdate(b).None?
    ensures NormalizePriority("Low") == Ok(Low)
  {
    assert "Low" !in PriorityNames by {
      assert "Low"[0] != "low"[0];
    }
    NormalizePriorityExamples();
  }

  /** Every priority the schemas admit normalises to the priority of that name. */
  lemma AdmittedPriorityNormalises(p: string)
    requires p in PriorityNames
    ensures NormalizePriority(p) == Ok(PriorityNamed(p).value)
  {
    var pr := PriorityNamed(p).value;
    assert p == pr.Name();
    PriorityNameLower(pr);
    NormalizePriorityAnyCase(pr, p);
  }

  /** A task created over HTTP never carries a status, so it is stored as `todo`. */
  lemma HttpCreatedTaskIsTodo(b: Body, userId: string, newId: string, o: Oracles, rule: StatusRule)
    requires ParseCreate(b).Some?
    requires NewTask(userId, ParseCreate(b).value, newId, o, rule).Ok?
    ensures NewTask(userId, ParseCreate(b).value, newId, o, rule).value.status == Todo
  {
  }

  /** An admitted create body fails in the service only on an invalid ObjectId. */
  lemma HttpCreateFailsOnlyOnIds(b: Body, userId: string, newId: string, o: Oracles, rule: StatusRule)
    requires ParseCreate(b).Some?
    ensures NewTask(userId, ParseCreate(b).value, newId, o, rule).Ok?
      <==> o.isValidId(userId) && o.isValidId(b.assignedToId.value)
  {
    AdmittedPriorityNormalises(b.priority.value);
  }

  /** The finding at the HTTP boundary: the update schema admits "in_progress", and the
      service as written then rejects it with 400 "Invalid task status". */
  lemma UpdateToInProgressRejectedAsWritten(b: Body, o: Oracles)
    requires b.status == Some("in_progress")
    requires b.title.None? && b.priority.None?
    ensures ParseUpdate(b).Some?
    ensures NormalizeStatusAsWritten(ParseUpdate(b).value.status).Err?
    ensures PatchOf(ParseUpdate(b).value, o, AsWritten) == Err(BadRequest("Invalid task status"))
  {
    StatusNameLower(InProgress);
    NormalizeStatusAsWrittenRejectsInProgress(b.status.value);
    UpdateToInProgressRejected(ParseUpdate(b).value, o);
  }

  /** With the corrected normaliser, every status the update or query schema admits
      normalises to the status of that name. */
  lemma AdmittedStatusNormalises(s: string)
    requires s in StatusNames
    ensures NormalizeStatus(Some(s)) == Ok(StatusNamed(s).value)
  {
    var st := StatusNamed(s).value;
    StatusNameLower(st);
    NormalizeStatusCanonical(st, s);
  }
}

/** The task rules of backend/src/services/task.service.ts, over an in-memory task store.

    `Types.ObjectId.isValid` and `new Date(...)` are oracles passed in `Oracles`. The
    store stands for the Mongo collection; the repository calls become reads and
    writes of its `tasks` sequence. */
module TaskService {
  import opened Wrappers
  import opened Text
  import opened Constants
  import opened ApiErrors
  import opened TaskModel

  /** The foreign functions the service calls. */
  datatype Oracles = Oracles(isValidId: string -> bool, toDate: string -> int)

  // ---------------------------------------------------------------------------
  // Normalisation

  /** `normalizePriority`: case-insensitive lookup in the four canonical names. */
  function NormalizePriority(priority: string): (r: Result<Priority, ApiError>)
    ensures r.Ok? <==> ToLower(priority) in PriorityNames
    ensures r.Ok? ==> r.value.Name() == ToLower(priority)
    ensures r.Err? ==> r.error == BadRequest("Invalid task priority")
  {
    var key := ToLower(priority);
    if key == "low" then Ok(Low)
    else if key == "medium" then Ok(Medium)
    else if key == "high" then Ok(High)
    else if key == "urgent" then Ok(Urgent)
    else Err(BadRequest("Invalid task priority"))
  }

  /** The dictionary in `normalizeStatus` as the source has it: the canonical
      "in_progress" is not a key. */
  function StatusKeyAsWritten(key: string): (r: Option<Status>)
    ensures r.Some? <==> key in ["todo", "in progress", "review", "completed"]
  {
    if key == "todo" then Some(Todo)
    else if key == "in progress" then Some(InProgress)
    else if key == "review" then Some(Review)
    else if key == "completed" then Some(Completed)
    else None
  }

  /** `normalizeStatus` AS WRITTEN. */
  function NormalizeStatusAsWritten(status: Option<string>): (r: Result<Status, ApiError>)
    ensures !Truthy(status) ==> r == Ok(Todo)
    ensures Truthy(status) ==> (r.Ok? <==> StatusKeyAsWritten(ToLower(status.value)).Some?)
    ensures r.Err? ==> r.error == BadRequest("Invalid task status")
  {
    if !Truthy(status) then Ok(Todo)
    else match StatusKeyAsWritten(ToLower(status.value))
      case Some(st) => Ok(st)
      case None => Err(BadRequest("Invalid task status"))
  }

  /** The corrected dictionary: every canonical name, plus the spelled-out "in progress"
      the source accepts. */
  function StatusKey(key: string): (r: Option<Status>)
    ensures r.Some? <==> key in ["todo", "in progress", "in_progress", "review", "completed"]
  {
    if key == "in_progress" then Some(InProgress) else StatusKeyAsWritten(key)
  }

  /** `normalizeStatus` as evidently intended: the corrected normaliser, selected by
      `StatusRule.Corrected`. */
  function NormalizeStatus(status: Option<string>): (r: Result<Status, ApiError>)
    ensures !Truthy(status) ==> r == Ok(Todo)
    ensures Truthy(status) ==> (r.Ok? <==> StatusKey(ToLower(status.value)).Some?)
    ensures r.Err? ==> r.error == BadRequest("Invalid task status")
  {
    if !Truthy(status) then Ok(Todo)
    else match StatusKey(ToLower(status.value))
      case Some(st) => Ok(st)
      case None => Err(BadRequest("Invalid task status"))
  }

  /** The as-written normaliser rejects the one canonical status value that is not a key,
      in any letter case, although that value is a TASK_STATUS member and so admitted by
      the DTOs. */
  lemma NormalizeStatusAsWrittenRejectsInProgress(s: string)
    requires ToLower(s) == "in_progress"
    ensures InProgress.Name() == "in_progress" && "in_progress" in StatusNames
    ensures NormalizeStatusAsWritten(Some(s)) == Err(BadRequest("Invalid task status"))
  {
    assert StatusKeyAsWritten("in_progress").None? by {
      assert "in_progress"[2] != "in progress"[2];
    }
  }

  /** What it accepts instead is the spelling with a space. */
  lemma NormalizeStatusAsWrittenAcceptsSpace(s: string)
    requires ToLower(s) == "in progress"
    ensures NormalizeStatusAsWritten(Some(s)) == Ok(InProgress)
  {
    assert s != "";
  }

  /** The corrected normaliser maps every canonical status name, in any letter case, to its
      status. */
  lemma NormalizeStatusCanonical(st: Status, s: string)
    requires ToLower(s) == st.Name()
    ensures NormalizeStatus(Some(s)) == Ok(st)
  {
    assert s != "";
    assert StatusKey(st.Name()) == Some(st);
  }

  /** The correction only adds: wherever the source's normaliser succeeds, the corrected one
      agrees, and they differ on nothing but spellings of "in_progress". */
  lemma NormalizeStatusExtendsAsWritten(status: Option<string>)
    ensures NormalizeStatusAsWritten(status).Ok? ==> NormalizeStatus(status) == NormalizeStatusAsWritten(status)
    ensures NormalizeStatus(status) != NormalizeStatusAsWritten(status) ==>
      Truthy(status) && ToLower(status.value) == "in_progress" && NormalizeStatus(status) == Ok(InProgress)
  {
  }

  /** The priority normaliser and the corrected status normaliser ignore letter case. */
  lemma NormalizeCaseInsensitive(s: string)
    ensures NormalizePriority(s) == NormalizePriority(ToLower(s))
    ensures NormalizeStatus(Some(s)) == NormalizeStatus(Some(ToLower(s)))
  {
    var k := ToLower(s);
    assert ToLower(k) == k by {
      ToLowerIsLowerAndIdempotent(s);
    }
    assert NormalizePriority(s) == NormalizePriority(k);
    assert NormalizeStatus(Some(s)) == NormalizeStatus(Some(k)) by {
      assert k == "" <==> s == "";
    }
  }

  /** So does the source's status normaliser. */
  lemma NormalizeStatusAsWrittenCaseInsensitive(s: string)
    ensures NormalizeStatusAsWritten(Some(s)) == NormalizeStatusAsWritten(Some(ToLower(s)))
  {
    var k := ToLower(s);
    assert ToLower(k) == k by {
      ToLowerIsLowerAndIdempotent(s);
    }
    assert k == "" <==> s == "";
  }

  /** Every spelling of a priority name in any letter case gives that priority. */
  lemma NormalizePriorityAnyCase(p: Priority, s: string)
    requires ToLower(s) == p.Name()
    ensures NormalizePriority(s) == Ok(p)
  {
  }

  /** "Low", "LOW" and "low" all give `low`; "urgent!" is rejected. */
  lemma NormalizePriorityExamples()
    ensures NormalizePriority("Low") == Ok(Low)
    ensures NormalizePriority("LOW") == Ok(Low)
    ensures NormalizePriority("low") == Ok(Low)
    ensures NormalizePriority("urgent!") == Err(BadRequest("Invalid task priority"))
  {
    assert NormalizePriority("Low") == Ok(Low) by {
      assert ToLower("Low") == "low";
      NormalizePriorityAnyCase(Low, "Low");
    }
    assert NormalizePriority("LOW") == Ok(Low) by {
      assert ToLower("LOW") == "low";
      NormalizePriorityAnyCase(Low, "LOW");
    }
    assert NormalizePriority("low") == Ok(Low) by {
      assert ToLower("low") == "low";
      NormalizePriorityAnyCase(Low, "low");
    }
    ToLowerOfLower("urgent!");
  }

  /** The canonical status names are already lower case. */
  lemma StatusNameLower(st: Status)
    ensures ToLower(st.Name()) == st.Name()
  {
    match st
    case Todo => ToLowerOfLower("todo");
    case InProgress => ToLowerOfLower("in_progress");
    case Review => ToLowerOfLower("review");
    case Completed => ToLowerOfLower("completed");
  }

  /** The canonical priority names are already lower case. */
  lemma PriorityNameLower(p: Priority)
    ensures ToLower(p.Name()) == p.Name()
  {
    match p
    case Low => ToLowerOfLower("low");
    case Medium => ToLowerOfLower("medium");
    case High => ToLowerOfLower("high");
    case Urgent => ToLowerOfLower("urgent");
  }

  /** Which status dictionary the service uses: the source's (`AsWritten`), which is how
      the code behaves, or the corrected one (`Corrected`), which is what it evidently
      intends. */
  datatype StatusRule = AsWritten | Corrected

  /** `normalizeStatus` under the given rule. */
  function NormalizeStatusBy(rule: StatusRule, status: Option<string>): (r: Result<Status, ApiError>)
    ensures !Truthy(status) ==> r == Ok(Todo)
    ensures r.Err? ==> r.error == BadRequest("Invalid task status")
  {
    match rule
    case AsWritten => NormalizeStatusAsWritten(status)
    case Corrected => NormalizeStatus(status)
  }

  /** The two rules agree wherever the source's succeeds, and differ only on spellings of
      "in_progress", which the source rejects and the correction maps to `InProgress`. */
  lemma RulesDifferOnlyOnInProgress(status: Option<string>)
    ensures NormalizeStatusBy(AsWritten, status).Ok? ==> NormalizeStatusBy(Corrected, status) == NormalizeStatusBy(AsWritten, status)
    ensures NormalizeStatusBy(Corrected, status) != NormalizeStatusBy(AsWritten, status) <==>
      Truthy(status) && ToLower(status.value) == "in_progress"
  {
    NormalizeStatusExtendsAsWritten(status);
    if Truthy(status) && ToLower(status.value) == "in_progress" {
      NormalizeStatusAsWrittenRejectsInProgress(status.value);
    }
  }

  // ---------------------------------------------------------------------------
  // createTask

  /** The `data` argument of `createTask`. */
  datatype CreateData = CreateData(
    title: string,
    description: Option<string>,
    dueDate: string,
    priority: string,
    status: Option<string>,
    assignedToId: string)

  /** The document `createTask` hands to the repository, or the error it throws first:
      creator id, then assignee id, then priority, then status. */
  function NewTask(userId: string, data: CreateData, newId: TaskId, o: Oracles, rule: StatusRule)
    : (r: Result<Task, ApiError>)
    ensures !o.isValidId(userId) ==> r == Err(BadRequest("Invalid creator id"))
    ensures o.isValidId(userId) && !o.isValidId(data.assignedToId) ==> r == Err(BadRequest("Invalid assignedToId"))
    ensures o.isValidId(userId) && o.isValidId(data.assignedToId) && NormalizePriority(data.priority).Err?
      ==> r == Err(BadRequest("Invalid task priority"))
    ensures (o.isValidId(userId) && o.isValidId(data.assignedToId) && NormalizePriority(data.priority).Ok?
      && NormalizeStatusBy(rule, data.status).Err?) ==> r == Err(BadRequest("Invalid task status"))
    ensures r.Ok? <==> (o.isValidId(userId) && o.isValidId(data.assignedToId)
      && NormalizePriority(data.priority).Ok? && NormalizeStatusBy(rule, data.status).Ok?)
    ensures r.Ok? ==> (r.value.id == newId && r.value.creatorId == userId
      && r.value.assignedToId == data.assignedToId && r.value.title == data.title
      && r.value.description == data.description && r.value.dueDate == o.toDate(data.dueDate)
      && r.value.priority.Name() == ToLower(data.priority)
      && Ok(r.value.status) == NormalizeStatusBy(rule, data.status))
  {
    if !o.isValidId(userId) then Err(BadRequest("Invalid creator id"))
    else if !o.isValidId(data.assignedToId) then Err(BadRequest("Invalid assignedToId"))
    else
      var priority :- NormalizePriority(data.priority);
      var status :- NormalizeStatusBy(rule, data.status);
      Ok(Task(newId, data.title, data.description, o.toDate(data.dueDate), priority, status,
              userId, data.assignedToId))
  }

  // ---------------------------------------------------------------------------
  // updateTask

  /** The `data` argument of `updateTask`; every field may be absent. */
  datatype UpdateData = UpdateData(
    title: Option<string>,
    description: Option<string>,
    dueDate: Option<string>,
    priority: Option<string>,
    status: Option<string>,
    assignedToId: Option<string>)

  /** `updateData`: the fields to set. */
  datatype Patch = Patch(
    title: Option<string>,
    description: Option<string>,
    dueDate: Option<int>,
    priority: Option<Priority>,
    status: Option<Status>,
    assignedToId: Option<string>)

  /** The priority step of `updateTask`: a truthy priority is normalised, or fails. */
  function PatchPriority(p: Option<string>): (r: Result<Option<Priority>, ApiError>)
    ensures r.Err? <==> Truthy(p) && NormalizePriority(p.value).Err?
    ensures r.Err? ==> r.error == BadRequest("Invalid task priority")
    ensures r.Ok? ==> (r.value.Some? <==> Truthy(p))
    ensures r.Ok? && r.value.Some? ==> r.value.value.Name() == ToLower(p.value)
  {
    if Truthy(p) then (var x :- NormalizePriority(p.value); Ok(Some(x))) else Ok(None)
  }

  /** The status step of `updateTask`: a truthy status is normalised, or fails. */
  function PatchStatus(st: Option<string>, rule: StatusRule): (r: Result<Option<Status>, ApiError>)
    ensures r.Err? <==> Truthy(st) && NormalizeStatusBy(rule, st).Err?
    ensures r.Err? ==> r.error == BadRequest("Invalid task status")
    ensures r.Ok? ==> (r.value.Some? <==> Truthy(st))
    ensures r.Ok? && r.value.Some? ==> Ok(r.value.value) == NormalizeStatusBy(rule, st)
  {
    if Truthy(st) then (var x :- NormalizeStatusBy(rule, st); Ok(Some(x))) else Ok(None)
  }

  /** The `updateData` record `updateTask` builds: a field is set only when the input
      field is truthy; the first failing check (priority, status, assignee id) throws. */
  function PatchOf(data: UpdateData, o: Oracles, rule: StatusRule): (r: Result<Patch, ApiError>)
    ensures Truthy(data.priority) && NormalizePriority(data.priority.value).Err?
      ==> r == Err(BadRequest("Invalid task priority"))
    ensures (Truthy(data.priority) ==> NormalizePriority(data.priority.value).Ok?)
      && Truthy(data.status) && NormalizeStatusBy(rule, data.status).Err?
      ==> r == Err(BadRequest("Invalid task status"))
    ensures r.Ok? <==>
      (Truthy(data.priority) ==> NormalizePriority(data.priority.value).Ok?)
      && NormalizeStatusBy(rule, data.status).Ok?
      && (Truthy(data.assignedToId) ==> o.isValidId(data.assignedToId.value))
    ensures r.Err? && r.error != BadRequest("Invalid task priority") && r.error != BadRequest("Invalid task status")
      ==> r.error == BadRequest("Invalid assignedToId")
    ensures r.Ok? ==>
      && (r.value.title.Some? <==> Truthy(data.title))
      && (r.value.title.Some? ==> r.value.title == data.title)
      && (r.value.description.Some? <==> Truthy(data.description))
      && (r.value.description.Some? ==> r.value.description == data.description)
      && (r.value.dueDate.Some? <==> Truthy(data.dueDate))
      && (r.value.dueDate.Some? ==> r.value.dueDate.value == o.toDate(data.dueDate.value))
      && (r.value.priority.Some? <==> Truthy(data.priority))
      && (r.value.priority.Some? ==> r.value.priority.value.Name() == ToLower(data.priority.value))
      && (r.value.status.Some? <==> Truthy(data.status))
      && (r.value.status.Some? ==> Ok(r.value.status.value) == NormalizeStatusBy(rule, data.status))
      && (r.value.assignedToId.Some? <==> Truthy(data.assignedToId))
      && (r.value.assignedToId.Some? ==> r.value.assignedToId == data.assignedToId)
  {
    var title := if Truthy(data.title) then data.title else None;
    var description := if Truthy(data.description) then data.description else None;
    var dueDate := if Truthy(data.dueDate) then Some(o.toDate(data.dueDate.value)) else None;
    var priority :- PatchPriority(data.priority);
    var status :- PatchStatus(data.status, rule);
    if Truthy(data.assignedToId) && !o.isValidId(data.assignedToId.value) then
      Err(BadRequest("Invalid assignedToId"))
    else
      var assignee := if Truthy(data.assignedToId) then data.assignedToId else None;
      Ok(Patch(title, description, dueDate, priority, status, assignee))
  }

  /** `findByIdAndUpdate` with `updateData`: set the given fields, keep the others. */
  function ApplyPatch(t: Task, p: Patch): Task {
    t.(title := p.title.GetOr(t.title),
       description := if p.description.Some? then p.description else t.description,
       dueDate := p.dueDate.GetOr(t.dueDate),
       priority := p.priority.GetOr(t.priority),
       status := p.status.GetOr(t.status),
       assignedToId := p.assignedToId.GetOr(t.assignedToId))
  }

  /** An update touches only the fields given as truthy values: an empty string leaves a
      field as it was, and the id and creator never change. */
  lemma UpdateTouchesOnlyTruthyFields(t: Task, data: UpdateData, o: Oracles, rule: StatusRule)
    requires PatchOf(data, o, rule).Ok?
    ensures var u := ApplyPatch(t, PatchOf(data, o, rule).value);
      && u.id == t.id && u.creatorId == t.creatorId
      && u.title == (if Truthy(data.title) then data.title.value else t.title)
      && u.description == (if Truthy(data.description) then data.description else t.description)
      && u.dueDate == (if Truthy(data.dueDate) then o.toDate(data.dueDate.value) else t.dueDate)
      && u.priority == (if Truthy(data.priority) then NormalizePriority(data.priority.value).value else t.priority)
      && u.status == (if Truthy(data.status) then NormalizeStatusBy(rule, data.status).value else t.status)
      && u.assignedToId == (if Truthy(data.assignedToId) then data.assignedToId.value else t.assignedToId)
  {
    var p := PatchOf(data, o, rule).value;
    if Truthy(data.priority) {
      var q := NormalizePriority(data.priority.value).value;
      assert p.priority.value.Name() == q.Name();
      PriorityNameInjective(p.priority.value, q);
    }
  }

  lemma PriorityNameInjective(a: Priority, b: Priority)
    requires a.Name() == b.Name()
    ensures a == b
  {
  }

  // ---------------------------------------------------------------------------
  // listTasks

  /** The query `listTasks` receives. */
  datatype ListQuery = ListQuery(status: Option<string>, priority: Option<string>, sortByDueDate: Option<string>)

  /** The filter and sort `listTasks` hands to the repository. */
  datatype RepoQuery = RepoQuery(user: UserRef, status: Option<Status>, priority: Option<Priority>, descending: bool)

  /** `listTasks` up to the repository call: the status is normalised before the priority,
      and the sort is descending only for exactly "desc". */
  function RepoQueryOf(userId: UserRef, query: ListQuery, rule: StatusRule): (r: Result<RepoQuery, ApiError>)
    ensures Truthy(query.status) && NormalizeStatusBy(rule, query.status).Err? ==> r == Err(BadRequest("Invalid task status"))
    ensures NormalizeStatusBy(rule, query.status).Ok? && Truthy(query.priority) && NormalizePriority(query.priority.value).Err?
      ==> r == Err(BadRequest("Invalid task priority"))
    ensures r.Ok? <==> (NormalizeStatusBy(rule, query.status).Ok?
      && (Truthy(query.priority) ==> NormalizePriority(query.priority.value).Ok?))
    ensures r.Ok? ==> (r.value.user == userId
      && (r.value.descending <==> query.sortByDueDate == Some("desc"))
      && (r.value.status.Some? <==> Truthy(query.status))
      && (r.value.status.Some? ==> Ok(r.value.status.value) == NormalizeStatusBy(rule, query.status))
      && (r.value.priority.Some? <==> Truthy(query.priority))
      && (r.value.priority.Some? ==> r.value.priority.value.Name() == ToLower(query.priority.value)))
  {
    var status :- if Truthy(query.status)
      then (var s :- NormalizeStatusBy(rule, query.status); Ok(Some(s)))
      else Ok(None);
    var priority :- if Truthy(query.priority)
      then (var p :- NormalizePriority(query.priority.value); Ok(Some(p)))
      else Ok(None);
    Ok(RepoQuery(userId, status, priority, query.sortByDueDate == Some("desc")))
  }

  // ---------------------------------------------------------------------------
  // The two status rules in the service

  /** `createTask` under the two rules: the same result wherever the source's succeeds,
      and a difference only for a spelling of "in_progress". */
  lemma NewTaskRulesAgree(userId: string, data: CreateData, newId: TaskId, o: Oracles)
    ensures NewTask(userId, data, newId, o, AsWritten).Ok?
      ==> NewTask(userId, data, newId, o, Corrected) == NewTask(userId, data, newId, o, AsWritten)
    ensures NewTask(userId, data, newId, o, Corrected) != NewTask(userId, data, newId, o, AsWritten)
      ==> Truthy(data.status) && ToLower(data.status.value) == "in_progress"
  {
    RulesDifferOnlyOnInProgress(data.status);
  }

  /** The update record under the two rules, likewise. */
  lemma PatchRulesAgree(data: UpdateData, o: Oracles)
    ensures PatchOf(data, o, AsWritten).Ok? ==> PatchOf(data, o, Corrected) == PatchOf(data, o, AsWritten)
    ensures PatchOf(data, o, Corrected) != PatchOf(data, o, AsWritten)
      ==> Truthy(data.status) && ToLower(data.status.value) == "in_progress"
  {
    RulesDifferOnlyOnInProgress(data.status);
  }

  /** The list query under the two rules, likewise. */
  lemma QueryRulesAgree(userId: UserRef, query: ListQuery)
    ensures RepoQueryOf(userId, query, AsWritten).Ok?
      ==> RepoQueryOf(userId, query, Corrected) == RepoQueryOf(userId, query, AsWritten)
    ensures RepoQueryOf(userId, query, Corrected) != RepoQueryOf(userId, query, AsWritten)
      ==> Truthy(query.status) && ToLower(query.status.value) == "in_progress"
  {
    RulesDifferOnlyOnInProgress(query.status);
  }

  /** As written, an update to status "in_progress" (in any letter case) fails with 400
      "Invalid task status" once the priority has passed; the correction sets `InProgress`. */
  lemma UpdateToInProgressRejected(data: UpdateData, o: Oracles)
    requires Truthy(data.status) && ToLower(data.status.value) == "in_progress"
    requires Truthy(data.priority) ==> NormalizePriority(data.priority.value).Ok?
    ensures PatchOf(data, o, AsWritten) == Err(BadRequest("Invalid task status"))
    ensures PatchOf(data, o, Corrected).Ok? ==> PatchOf(data, o, Corrected).value.status == Some(InProgress)
  {
    NormalizeStatusAsWrittenRejectsInProgress(data.status.value);
    NormalizeStatusCanonical(InProgress, data.status.value);
  }

  /** As written, listing by status "in_progress" fails with 400 "Invalid task status";
      the correction filters on `InProgress`. */
  lemma ListByInProgressRejected(userId: UserRef, query: ListQuery)
    requires Truthy(query.status) && ToLower(query.status.value) == "in_progress"
    ensures RepoQueryOf(userId, query, AsWritten) == Err(BadRequest("Invalid task status"))
    ensures RepoQueryOf(userId, query, Corrected).Ok? ==> RepoQueryOf(userId, query, Corrected).value.status == Some(InProgress)
  {
    NormalizeStatusAsWrittenRejectsInProgress(query.status.value);
    NormalizeStatusCanonical(InProgress, query.status.value);
  }

  /** The repository filter: the requester is creator or assignee, and the optional status
      and priority match. */
  predicate Matches(q: RepoQuery, t: Task) {
    && (t.creatorId == q.user || t.assignedToId == q.user)
    && (q.status.None? || t.status == q.status.value)
    && (q.priority.None? || t.priority == q.priority.value)
  }

  /** `Task.find(filter)` in store order. */
  function Select(tasks: seq<Task>, q: RepoQuery): (r: seq<Task>)
    ensures forall t :: t in r <==> t in tasks && Matches(q, t)
  {
    if tasks == [] then []
    else if Matches(q, tasks[0]) then [tasks[0]] + Select(tasks[1..], q)
    else Select(tasks[1..], q)
  }

  predicate InOrder(a: Task, b: Task, descending: bool) {
    if descending then a.dueDate >= b.dueDate else a.dueDate <= b.dueDate
  }

  predicate SortedByDue(s: seq<Task>, descending: bool) {
    forall i, j :: 0 <= i < j < |s| ==> InOrder(s[i], s[j], descending)
  }

  /** What `.sort({ dueDate: 1 or -1 })` promises of its output: the filtered tasks,
      ordered by due date. The order of tasks with equal due dates is unspecified. */
  ghost predicate IsListing(tasks: seq<Task>, q: RepoQuery, out: seq<Task>) {
    multiset(out) == multiset(Select(tasks, q)) && SortedByDue(out, q.descending)
  }

  function Insert(x: Task, s: seq<Task>, descending: bool): seq<Task> {
    if s == [] then [x]
    else if InOrder(x, s[0], descending) then [x] + s
    else [s[0]] + Insert(x, s[1..], descending)
  }

  /** One order the repository may return: insertion sort, stable. */
  function SortByDue(s: seq<Task>, descending: bool): seq<Task> {
    if s == [] then [] else Insert(s[0], SortByDue(s[1..], descending), descending)
  }

  /** Every element of `s` comes after `a` in the order. */
  predicate AllAfter(a: Task, s: seq<Task>, descending: bool) {
    forall k :: 0 <= k < |s| ==> InOrder(a, s[k], descending)
  }

  lemma {:induction false} InsertAllAfter(a: Task, x: Task, s: seq<Task>, descending: bool)
    requires AllAfter(a, s, descending) && InOrder(a, x, descending)
    ensures AllAfter(a, Insert(x, s, descending), descending)
  {
    if s != [] && !InOrder(x, s[0], descending) {
      assert AllAfter(a, s[1..], descending) by {
        forall k | 0 <= k < |s[1..]| ensures InOrder(a, s[1..][k], descending) { assert s[1..][k] == s[k + 1]; }
      }
      InsertAllAfter(a, x, s[1..], descending);
      var r := Insert(x, s, descending);
      forall k | 0 <= k < |r| ensures InOrder(a, r[k], descending) {
        if k > 0 { assert r[k] == Insert(x, s[1..], descending)[k - 1]; }
      }
    }
  }

  lemma {:induction false} InsertMultiset(x: Task, s: seq<Task>, descending: bool)
    ensures multiset(Insert(x, s, descending)) == multiset(s) + multiset{x}
  {
    if s != [] && !InOrder(x, s[0], descending) {
      InsertMultiset(x, s[1..], descending);
      assert s == [s[0]] + s[1..];
    }
  }

  lemma {:induction false} InsertSorted(x: Task, s: seq<Task>, descending: bool)
    requires SortedByDue(s, descending)
    ensures SortedByDue(Insert(x, s, descending), descending)
  {
    if s == [] {
    } else if InOrder(x, s[0], descending) {
      var r := [x] + s;
      forall i, j | 0 <= i < j < |r| ensures InOrder(r[i], r[j], descending) {
        assert r[j] == s[j - 1];
        if i > 0 { assert r[i] == s[i - 1]; }
        else if j > 1 { assert InOrder(s[0], s[j - 1], descending); }
      }
    } else {
      var t := s[1..];
      assert SortedByDue(t, descending) by {
        forall i, j | 0 <= i < j < |t| ensures InOrder(t[i], t[j], descending) {
          assert t[i] == s[i + 1] && t[j] == s[j + 1];
        }
      }
      InsertSorted(x, t, descending);
      assert AllAfter(s[0], t, descending) by {
        forall k | 0 <= k < |t| ensures InOrder(s[0], t[k], descending) { assert t[k] == s[k + 1]; }
      }
      InsertAllAfter(s[0], x, t, descending);
      var u := Insert(x, t, descending);
      var r := [s[0]] + u;
      forall i, j | 0 <= i < j < |r| ensures InOrder(r[i], r[j], descending) {
        assert r[j] == u[j - 1];
        if i > 0 { assert r[i] == u[i - 1]; }
      }
    }
  }

  lemma {:induction false} SortByDueSorted(s: seq<Task>, descending: bool)
    ensures multiset(SortByDue(s, descending)) == multiset(s)
    ensures SortedByDue(SortByDue(s, descending), descending)
  {
    if s != [] {
      SortByDueSorted(s[1..], descending);
      InsertSorted(s[0], SortByDue(s[1..], descending), descending);
      InsertMultiset(s[0], SortByDue(s[1..], descending), descending);
      assert s == [s[0]] + s[1..];
    }
  }

  /** A listing holds exactly the requester's matching tasks: each listed task is in the
      store with the requester as creator or assignee, and every such task is listed. */
  lemma ListingIsExactlyVisible(tasks: seq<Task>, q: RepoQuery, out: seq<Task>, t: Task)
    requires IsListing(tasks, q, out)
    ensures t in out <==> t in tasks && Matches(q, t)
  {
    assert t in out <==> t in multiset(out);
    assert t in Select(tasks, q) <==> t in multiset(Select(tasks, q));
  }

  // ---------------------------------------------------------------------------
  // The store

  predicate DistinctIds(tasks: seq<Task>) {
    forall i, j :: 0 <= i < j < |tasks| ==> tasks[i].id != tasks[j].id
  }

  /** `findTaskByIdRepo`: the position of the task with that id. */
  function FindTask(tasks: seq<Task>, id: TaskId): (r: Option<nat>)
    ensures r.Some? ==> r.value < |tasks| && tasks[r.value].id == id
    ensures r.None? ==> forall k :: 0 <= k < |tasks| ==> tasks[k].id != id
  {
    if tasks == [] then None
    else if tasks[0].id == id then Some(0)
    else match FindTask(tasks[1..], id)
      case None => None
      case Some(k) => Some(k + 1)
  }

  /** The creator or the assignee may update a task. */
  predicate MayUpdate(t: Task, userId: UserRef) {
    t.creatorId == userId || t.assignedToId == userId
  }

  /** Only the creator may delete a task. */
  predicate MayDelete(t: Task, userId: UserRef) {
    t.creatorId == userId
  }

  /** What `updateTask` and `deleteTask` throw: an ApiError, or the CastError that
      `Task.findById` raises for a task id that is not an ObjectId (path `_id`), which the
      error handler answers with 400 "Invalid _id: <id>". */
  datatype Failure = Api(error: ApiError) | CastFailure(path: string, value: string)

  class TaskStore {
    /** The task collection. */
    var tasks: seq<Task>
    /** The status dictionary the service runs with. */
    const rule: StatusRule

    ghost predicate Valid()
      reads this
    {
      DistinctIds(tasks)
    }

    constructor (rule: StatusRule)
      ensures Valid() && tasks == [] && this.rule == rule
    {
      this.rule := rule;
      tasks := [];
    }

    /** `createTask`: every check precedes the single store write. The id is the one the
        database assigns, fresh by assumption. */
    method CreateTask(userId: UserRef, data: CreateData, newId: TaskId, o: Oracles)
      returns (r: Result<Task, ApiError>)
      requires Valid()
      requires forall k :: 0 <= k < |tasks| ==> tasks[k].id != newId
      modifies this
      ensures Valid()
      ensures r == NewTask(userId, data, newId, o, rule)
      ensures tasks == if r.Ok? then old(tasks) + [r.value] else old(tasks)
    {
      r := NewTask(userId, data, newId, o, rule);
      if r.Ok? {
        tasks := tasks + [r.value];
      }
    }

    /** `updateTask`: the id cast, then not found, then not creator or assignee, all before
        the update record is built; then the record, then the single store write. */
    method UpdateTask(taskId: TaskId, userId: UserRef, data: UpdateData, o: Oracles)
      returns (r: Result<Task, Failure>)
      requires Valid()
      modifies this
      ensures Valid()
      ensures !o.isValidId(taskId) ==> r == Err(CastFailure("_id", taskId))
      ensures o.isValidId(taskId) && FindTask(old(tasks), taskId).None? ==> r == Err(Api(NotFound("Task not found")))
      ensures o.isValidId(taskId) && FindTask(old(tasks), taskId).Some?
        && !MayUpdate(old(tasks)[FindTask(old(tasks), taskId).value], userId)
        ==> r == Err(Api(Forbidden("Not allowed to update this task")))
      ensures (o.isValidId(taskId) && FindTask(old(tasks), taskId).Some?
        && MayUpdate(old(tasks)[FindTask(old(tasks), taskId).value], userId)
        && PatchOf(data, o, rule).Err?) ==> r == Err(Api(PatchOf(data, o, rule).error))
      ensures (o.isValidId(taskId) && FindTask(old(tasks), taskId).Some?
        && MayUpdate(old(tasks)[FindTask(old(tasks), taskId).value], userId)
        && PatchOf(data, o, rule).Ok?)
        ==> r == Ok(ApplyPatch(old(tasks)[FindTask(old(tasks), taskId).value], PatchOf(data, o, rule).value))
      ensures r.Ok? ==>
        var i := FindTask(old(tasks), taskId).value;
        && o.isValidId(taskId)
        && MayUpdate(old(tasks)[i], userId)
        && PatchOf(data, o, rule).Ok?
        && r.value == ApplyPatch(old(tasks)[i], PatchOf(data, o, rule).value)
        && tasks == old(tasks)[i := r.value]
      ensures r.Err? ==> tasks == old(tasks)
    {
      if !o.isValidId(taskId) {
        return Err(CastFailure("_id", taskId));
      }
      var found := FindTask(tasks, taskId);
      if found.None? {
        return Err(Api(NotFound("Task not found")));
      }
      var task := tasks[found.value];
      if task.creatorId != userId && task.assignedToId != userId {
        return Err(Api(Forbidden("Not allowed to update this task")));
      }
      var patch := PatchOf(data, o, rule);
      if patch.Err? {
        return Err(Api(patch.error));
      }
      var updated := ApplyPatch(task, patch.value);
      tasks := tasks[found.value := updated];
      r := Ok(updated);
    }

    /** `deleteTask`: the id cast, then not found; only the creator may delete, the
        assignee alone may not. */
    method DeleteTask(taskId: TaskId, userId: UserRef, o: Oracles) returns (r: Result<(), Failure>)
      requires Valid()
      modifies this
      ensures Valid()
      ensures !o.isValidId(taskId) ==> r == Err(CastFailure("_id", taskId))
      ensures o.isValidId(taskId) && FindTask(old(tasks), taskId).None? ==> r == Err(Api(NotFound("Task not found")))
      ensures o.isValidId(taskId) && FindTask(old(tasks), taskId).Some?
        && !MayDelete(old(tasks)[FindTask(old(tasks), taskId).value], userId)
        ==> r == Err(Api(Forbidden("Only creator can delete task")))
      ensures (o.isValidId(taskId) && FindTask(old(tasks), taskId).Some?
        && MayDelete(old(tasks)[FindTask(old(tasks), taskId).value], userId)) ==> r == Ok(())
      ensures r.Err? ==> tasks == old(tasks)
      ensures r.Ok? ==>
        var i := FindTask(old(tasks), taskId).value;
        o.isValidId(taskId) && MayDelete(old(tasks)[i], userId) && tasks == old(tasks)[..i] + old(tasks)[i + 1..]
    {
      if !o.isValidId(taskId) {
        return Err(CastFailure("_id", taskId));
      }
      var found := FindTask(tasks, taskId);
      if found.None? {
        return Err(Api(NotFound("Task not found")));
      }
      if tasks[found.value].creatorId != userId {
        return Err(Api(Forbidden("Only creator can delete task")));
      }
      var i := found.value;
      ghost var before := tasks;
      tasks := tasks[..i] + tasks[i + 1..];
      forall a, b | 0 <= a < b < |tasks| ensures tasks[a].id != tasks[b].id {
        var a' := if a < i then a else a + 1;
        var b' := if b < i then b else b + 1;
        assert tasks[a] == before[a'] && tasks[b] == before[b'];
      }
      r := Ok(());
    }

    /** `listTasks`: builds the filter and sort, and returns what the repository lists;
        it does not change the store. */
    method ListTasks(userId: UserRef, query: ListQuery) returns (r: Result<seq<Task>, ApiError>)
      ensures RepoQueryOf(userId, query, rule).Err? ==> r == Err(RepoQueryOf(userId, query, rule).error)
      ensures RepoQueryOf(userId, query, rule).Ok? ==> r.Ok? && IsListing(tasks, RepoQueryOf(userId, query, rule).value, r.value)
    {
      var q := RepoQueryOf(userId, query, rule);
      if q.Err? {
        return Err(q.error);
      }
      var selected := Select(tasks, q.value);
      SortByDueSorted(selected, q.value.descending);
      r := Ok(SortByDue(selected, q.value.descending));
    }
  }
}

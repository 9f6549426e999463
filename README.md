# TaskManager core, modelled in Dafny

TaskManager is a collaborative task board. An Express/MongoDB backend serves a REST API,
and a React frontend shows the tasks as a list or a kanban board. A socket.io channel pushes
task changes and assignment notifications to connected users.

This project models the parts of both sides that make decisions:

- **Backend**
  - the user-to-socket registry and the event fan-out;
  - the task service (normalisation, create/update/delete rules, listing);
  - the request schemas;
  - the bearer-token middleware and the role check;
  - the error-to-response mapping and the response helpers;
  - registration and login.
- **Frontend**
  - the dashboard's list updaters, stats and query builder;
  - the notification bell's state;
  - the kanban board's columns and drag state.

Each source file becomes one module:

- State the source changes in place becomes a class. Examples: the socket registry, the socket service's server handle and outbox, the task and user stores, the request the middleware fills in, the bell, and the board's drag fields.
- Decisions become functions with contracts.
- Properties that relate several calls are lemmas.

Calls the model cannot see become function parameters:

- `Types.ObjectId.isValid` and `new Date(...)` are the `Oracles` of `TaskService`;
- bcrypt's hash and compare, and jwt's sign and verify, are parameters of the methods that call them;
- the frontend's request outcomes are passed in as booleans or reply values.

Shared modules:

- `Wrappers` holds `Option` and `Result`.
- `Text` holds the few JavaScript string operations the core needs: `toLowerCase` on ASCII, `\s` and `trim`, `startsWith`, `split` on one character, and `String(n)`.
- `Constants` holds the enumerations and status codes.
- `ApiErrors` holds the error value the services throw.

The model follows the code wherever it departs from the documented behaviour:

- Registering an email that is taken throws a plain `Error("User already exists")`. The auth controller answers it with 400, not 409.
- Wrong credentials are also a plain error, answered with 400 rather than 401.
- The error handler shows stack traces only when `NODE_ENV` is exactly `"development"`.
- "Creator and assignee must reference existing users" is not checked anywhere. The service checks only that both are well-formed ObjectIds.
- `updateTask` and `deleteTask` pass the task id straight to `findById`. A malformed id raises Mongoose's `CastError`, which the error handler answers with 400 "Invalid _id: <id>", not 404. `TaskService.Failure` keeps that case apart from the service's own `ApiError`s.
- `loginUser` signs `{ userId }` alone. A verified login token therefore carries no role, and `authorize` would refuse it ("No role assigned"); see `AuthMiddleware.NoRoleClaimRefused`. No route in the code uses `authorize`.

The status normaliser's dictionary lacks the canonical key "in_progress" (see "## Findings"). The service therefore takes the dictionary as a parameter, `TaskService.StatusRule`:

- `AsWritten` is the dictionary of the code. `NewTask`, `PatchOf`, `RepoQueryOf` and a `TaskStore` built with it do exactly what the code does, rejection of "in_progress" included.
- `Corrected` adds the missing key.
- `RulesDifferOnlyOnInProgress`, `NewTaskRulesAgree`, `PatchRulesAgree` and `QueryRulesAgree` prove that the two rules give the same result wherever the code's succeeds. They differ only for a spelling of "in_progress".

## Model

| member | source | states |
|---|---|---|
| Constants.StatusNamed | backend/src/utils/constants.ts:19-24 | a string names a status exactly when it is one of the four TASK_STATUS values, and the status found has that name |
| Constants.PriorityNamed | backend/src/utils/constants.ts:26-31 | a string names a priority exactly when it is one of the four TASK_PRIORITY values, and the priority found has that name |
| Text.ToLowerIsLowerAndIdempotent | backend/src/services/task.service.ts:23 | lower-casing leaves no capital letter, and lower-casing twice equals lower-casing once |
| Text.ToLowerIsLower | backend/src/services/task.service.ts:23 | lower-casing leaves no capital letter |
| Text.ToLowerNoSpace | backend/src/dtos/auth.dto.ts:11-12 | lower-casing a string without whitespace introduces none |
| Text.ToLowerOfLower | backend/src/services/task.service.ts:44 | lower-casing a string without capitals returns it unchanged |
| Text.TrimNoSpace | backend/src/dtos/auth.dto.ts:12-13 | trimming a string with no whitespace returns it unchanged |
| Text.SplitSecondPiece | backend/src/middlewares/auth.middleware.ts:33 | when the separator occurs, the split has at least two pieces, and the second is the text after the first separator up to the next one |
| SocketRegistry.Lookup | backend/src/sockets/socket.ts:30-32 | a lookup finds an entry of the map for that user, or the user has no entry |
| SocketRegistry.AssignLookupSame | backend/src/sockets/socket.ts:13-14 | after `register(u, s)` the user maps to `s`, whatever it mapped to before |
| SocketRegistry.AssignLookupOther | backend/src/sockets/socket.ts:13-14 | `register(u, s)` does not change what any other user maps to |
| SocketRegistry.AssignShape | backend/src/sockets/socket.ts:14 | an existing key keeps its position when overwritten; a new key is appended at the end |
| SocketRegistry.AssignDistinct | backend/src/sockets/socket.ts:14 | registration keeps every user in at most one entry |
| SocketRegistry.RemoveFirstSocketShape | backend/src/sockets/socket.ts:19-24 | the disconnect scan removes exactly the first entry holding the socket, or nothing when no entry holds it |
| SocketRegistry.AssignAt | backend/src/sockets/socket.ts:14 | after the assignment the user's entry sits at its old position, or at the end when it had none, and every other position is unchanged |
| SocketRegistry.RemoveFirstSocketDistinct | backend/src/sockets/socket.ts:19-24 | disconnect keeps every user in at most one entry |
| SocketRegistry.LookupAt | backend/src/sockets/socket.ts:30-32 | in a map with distinct users, the entry at any position is what a lookup of its user returns |
| SocketRegistry.RemoveFirstSocketLookup | backend/src/sockets/socket.ts:19-24 | after a disconnect, the user whose entry was removed has none, and every other user's lookup is unchanged |
| SocketRegistry.DeleteAtLookup | backend/src/sockets/socket.ts:19-24 | deleting one entry of the map forgets its user and changes no other user's lookup |
| SocketRegistry.RegisterThenDisconnect | backend/src/sockets/socket.ts:13-24 | `register(u, s1)` followed by the disconnect of `s1` leaves `u` unregistered, when no other user holds `s1` |
| SocketRegistry.ReRegisterThenDisconnect | backend/src/sockets/socket.ts:13-24 | registering `u` on `s1` and then on `s2`, then closing `s1`, leaves `u` mapped to `s2` |
| SocketRegistry.SharedSocketLeavesStaleEntry | backend/src/sockets/socket.ts:19-24 | when two users hold one socket, its disconnect removes only the earlier entry and the later user keeps the stale socket |
| SocketRegistry.SharedSocketExample | backend/src/sockets/socket.ts:13-24 | alice and bob both registered on `s1`: after `s1` disconnects, alice is gone and bob still maps to `s1` |
| SocketRegistry.Registry.constructor | backend/src/sockets/socket.ts:7 | the map starts empty |
| SocketRegistry.Registry.Register | backend/src/sockets/socket.ts:13-16 | the new entries are the assignment of the old ones; the user now maps to the socket and every other user is unchanged |
| SocketRegistry.Registry.Disconnect | backend/src/sockets/socket.ts:18-24 | the scan loop leaves exactly the old entries minus the first one holding the socket |
| SocketRegistry.Registry.GetSocketIdByUser | backend/src/sockets/socket.ts:30-32 | the result is the user's entry in the map, or absent when the user has none |
| SocketService.Dispatch | backend/src/sockets/socket.service.ts:10-35 | with no server handle nothing is sent; each broadcast goes to all clients with its payload; `taskAssigned` goes to exactly the socket the registry holds for the user, and only when that socket id is non-empty |
| SocketService.AssignedReachesLatestSocket | backend/src/sockets/socket.service.ts:28-35 | after two registrations of one user, a targeted notification goes only to the later socket |
| SocketService.AssignedDroppedAfterDisconnect | backend/src/sockets/socket.service.ts:28-35 | after the user's socket disconnects, a targeted notification is silently dropped |
| SocketService.Service.constructor | backend/src/sockets/socket.service.ts:4 | no server handle before initialisation, and nothing sent |
| SocketService.Service.InitSocketService | backend/src/sockets/socket.service.ts:6-8 | the handle is stored, and nothing is sent |
| SocketService.Service.EmitTaskCreated | backend/src/sockets/socket.service.ts:10-14 | the outbox grows by exactly the broadcast `Dispatch` prescribes |
| SocketService.Service.EmitTaskUpdated | backend/src/sockets/socket.service.ts:16-20 | the outbox grows by exactly the broadcast `Dispatch` prescribes |
| SocketService.Service.EmitTaskDeleted | backend/src/sockets/socket.service.ts:22-26 | the outbox grows by exactly the `{ taskId }` broadcast `Dispatch` prescribes |
| SocketService.Service.EmitTaskAssigned | backend/src/sockets/socket.service.ts:28-35 | the outbox grows by the targeted emission `Dispatch` prescribes, and the registry is not changed |
| TaskService.NormalizePriority | backend/src/services/task.service.ts:15-29 | succeeds exactly when the lower-cased input is a canonical priority, returns the priority of that name, and otherwise fails with 400 "Invalid task priority" |
| TaskService.StatusKeyAsWritten | backend/src/services/task.service.ts:37-42 | the source's status dictionary has the keys todo, "in progress", review and completed |
| TaskService.NormalizeStatusAsWritten | backend/src/services/task.service.ts:34-50 | a falsy status gives todo; otherwise it succeeds exactly when the lower-cased input is a key of the source's dictionary, and fails with 400 "Invalid task status" |
| TaskService.StatusKey | backend/src/services/task.service.ts:37-42 | the corrected dictionary accepts exactly the source's keys plus "in_progress" |
| TaskService.NormalizeStatus | backend/src/services/task.service.ts:34-50 | as the source's normaliser, over the corrected dictionary |
| TaskService.NormalizeStatusAsWrittenRejectsInProgress | backend/src/services/task.service.ts:37-44 | "in_progress" is the name of a TASK_STATUS value, yet the source's normaliser rejects it in every letter case |
| TaskService.NormalizeStatusAsWrittenAcceptsSpace | backend/src/services/task.service.ts:37-44 | the source's normaliser accepts "in progress", in any letter case, as in_progress instead |
| TaskService.NormalizeStatusCanonical | backend/src/services/task.service.ts:34-50 | the corrected normaliser maps every canonical status name, in any letter case, to its status |
| TaskService.NormalizeStatusExtendsAsWritten | backend/src/services/task.service.ts:34-50 | the correction agrees with the source wherever the source succeeds, and differs only on spellings of "in_progress" |
| TaskService.NormalizeStatusBy | backend/src/services/task.service.ts:34-50 | under either rule, a falsy status gives todo and every failure is 400 "Invalid task status" |
| TaskService.RulesDifferOnlyOnInProgress | backend/src/services/task.service.ts:37-46 | the corrected rule agrees with the code's wherever the code's succeeds, and the two differ exactly for a truthy spelling of "in_progress" |
| TaskService.NormalizeCaseInsensitive | backend/src/services/task.service.ts:23-44 | the priority normaliser and the corrected status normaliser give the same result for a string and its lower-cased form |
| TaskService.NormalizeStatusAsWrittenCaseInsensitive | backend/src/services/task.service.ts:34-44 | the code's status normaliser gives the same result for a string and its lower-cased form |
| TaskService.NormalizePriorityAnyCase | backend/src/services/task.service.ts:15-29 | any string whose lower-cased form is a priority's name normalises to that priority |
| TaskService.StatusNameLower | backend/src/utils/constants.ts:19-24 | every canonical status name is already lower case |
| TaskService.PriorityNameLower | backend/src/utils/constants.ts:26-31 | every canonical priority name is already lower case |
| TaskService.NormalizePriorityExamples | backend/src/services/task.service.ts:15-29 | "Low", "LOW" and "low" give low; "urgent!" is rejected |
| TaskService.NewTask | backend/src/services/task.service.ts:55-73 | the creator id is checked first, then the assignee id, then the priority, then the status under the given rule; each failure gives its own 400 message. It succeeds exactly when all four pass, with the document fields taken from the input and normalised |
| TaskService.PatchPriority | backend/src/services/task.service.ts:95 | a truthy priority is normalised or fails with the priority error; a falsy one sets nothing |
| TaskService.PatchStatus | backend/src/services/task.service.ts:96 | a truthy status is normalised under the given rule or fails with the status error; a falsy one sets nothing |
| TaskService.PatchOf | backend/src/services/task.service.ts:90-103 | a field is set exactly when its input is truthy; the priority error comes before the status error and the assignee-id error; the set values are normalised under the given status rule |
| TaskService.UpdateTouchesOnlyTruthyFields | backend/src/services/task.service.ts:90-105 | an update changes only the fields given as truthy values; an empty string leaves a field as it was; id and creator never change |
| TaskService.NewTaskRulesAgree | backend/src/services/task.service.ts:55-73 | creation under the corrected rule gives the code's result wherever that succeeds, and differs only for a status spelling "in_progress" |
| TaskService.PatchRulesAgree | backend/src/services/task.service.ts:90-103 | the update record under the corrected rule is the code's wherever that succeeds, and differs only for a status spelling "in_progress" |
| TaskService.QueryRulesAgree | backend/src/services/task.service.ts:125-134 | the list query under the corrected rule is the code's wherever that succeeds, and differs only for a status spelling "in_progress" |
| TaskService.UpdateToInProgressRejected | backend/src/services/task.service.ts:92-96 | as written, an update to status "in_progress" in any letter case fails with 400 "Invalid task status" once the priority passes; the corrected rule sets in_progress |
| TaskService.ListByInProgressRejected | backend/src/services/task.service.ts:129-130 | as written, listing by status "in_progress" in any letter case fails with 400 "Invalid task status"; the corrected rule filters on in_progress |
| TaskService.PriorityNameInjective | backend/src/utils/constants.ts:26-31 | distinct priorities have distinct names |
| TaskService.RepoQueryOf | backend/src/services/task.service.ts:125-134 | the filter is the requester as creator or assignee, plus the normalised status and priority when given; a bad status gives "Invalid task status" before a bad priority gives "Invalid task priority"; the sort is descending only for exactly "desc" |
| TaskService.Select | backend/src/repositories/task.repository.ts:12-13 | a task is selected exactly when it is stored and matches the filter |
| TaskService.InsertAllAfter | backend/src/repositories/task.repository.ts:12-13 | inserting an element that follows `a` keeps everything after `a` |
| TaskService.InsertSorted | backend/src/repositories/task.repository.ts:12-13 | inserting into a list sorted by due date keeps it sorted |
| TaskService.SortByDueSorted | backend/src/repositories/task.repository.ts:12-13 | the reference sort returns a permutation of its input, sorted by due date in the requested direction |
| TaskService.ListingIsExactlyVisible | backend/src/services/task.service.ts:126-128 | a listing holds exactly the stored tasks the requester created or is assigned that match the filters |
| TaskService.FindTask | backend/src/repositories/task.repository.ts:5 | finds the position of a task with that id, or proves there is none |
| TaskService.TaskStore.constructor | backend/src/repositories/task.repository.ts:1-13 | the store starts empty and keeps the status rule it is given |
| TaskService.TaskStore.CreateTask | backend/src/services/task.service.ts:55-73 | returns what `NewTask` decides under the store's rule, and stores the task exactly when that succeeds; ids stay distinct |
| TaskService.TaskStore.UpdateTask | backend/src/services/task.service.ts:78-106 | a malformed id is a cast failure on `_id`; then not found; then forbidden for a user who is neither creator nor assignee, all before any normalisation error. When every check passes, the update succeeds with the stored task patched by the update record, and only that task is replaced. On any error the store is unchanged |
| TaskService.TaskStore.DeleteTask | backend/src/services/task.service.ts:111-120 | a malformed id is a cast failure on `_id`; then not found; then forbidden for anyone but the creator, including the assignee. A well-formed id of a stored task, deleted by its creator, always succeeds and removes exactly that task. On any error the store is unchanged |
| TaskService.TaskStore.ListTasks | backend/src/services/task.service.ts:125-137 | a normalisation error under the store's rule is returned as is; otherwise the result is a listing: the matching tasks, sorted by due date in the requested direction |
| TaskDto.ParseCreate | backend/src/dtos/task.dto.ts:4-10 | accepts exactly a title of 1 to 100 characters, a due date, a canonical priority and an assignee id; a description is optional; the status key is dropped |
| TaskDto.ParseUpdate | backend/src/dtos/task.dto.ts:12-19 | accepts exactly when a present title has 1 to 100 characters and a present priority or status is canonical; passes every field through |
| TaskDto.ParseQuery | backend/src/dtos/task.dto.ts:21-25 | accepts exactly canonical status and priority values and a sort of "asc" or "desc", each optional |
| TaskDto.MixedCasePriorityRejected | backend/src/dtos/task.dto.ts:8-16 | the schemas reject "Low", which the service's normaliser would accept |
| TaskDto.AdmittedPriorityNormalises | backend/src/dtos/task.dto.ts:8 | every priority the schemas admit normalises to the priority of that name |
| TaskDto.HttpCreatedTaskIsTodo | backend/src/dtos/task.dto.ts:4-10 | a task created through the schema has no status, so it is stored as todo under either status rule |
| TaskDto.HttpCreateFailsOnlyOnIds | backend/src/services/task.service.ts:55-73 | a body the create schema admits fails in the service exactly when an id is not a valid ObjectId |
| TaskDto.UpdateToInProgressRejectedAsWritten | backend/src/dtos/task.dto.ts:17 | the update schema admits status "in_progress", and the service as written then fails the update with 400 "Invalid task status" |
| TaskDto.AdmittedStatusNormalises | backend/src/dtos/task.dto.ts:17-22 | with the corrected normaliser, every status the schemas admit normalises to the status of that name |
| AuthDto.ParseRegister | backend/src/dtos/auth.dto.ts:3-18 | accepts exactly a name of 2 to 50 characters, a well-formed email and a password of 6 to 100 characters; the email comes out as the input lower-cased, still well formed; the name is trimmed and the password kept |
| AuthDto.ParseLogin | backend/src/dtos/auth.dto.ts:20-27 | accepts exactly a well-formed email and a non-empty password; the email comes out as the input lower-cased, still well formed; the password is kept |
| AuthDto.NormalEmailShape | backend/src/dtos/auth.dto.ts:11-13 | a well-formed email stays well formed when lower-cased and trimmed, becomes lowercase, and trimming changes nothing |
| AuthDto.NormalEmailOfNoSpace | backend/src/dtos/auth.dto.ts:12-13 | for an email without whitespace, lower-casing then trimming is just lower-casing, and the result is lowercase |
| AuthDto.LowerKeepsFormat | backend/src/dtos/auth.dto.ts:11-12 | lower-casing a well-formed email keeps it well formed |
| AuthDto.EmailCaseInsensitive | backend/src/dtos/auth.dto.ts:9-25 | two well-formed emails that differ only in letter case normalise to the same address |
| AuthDto.LongPasswordOnlyLogin | backend/src/dtos/auth.dto.ts:14-26 | a password over 100 characters fails registration but passes the login schema |
| AuthMiddleware.TokenOf | backend/src/middlewares/auth.middleware.ts:23-37 | a missing or empty header, then a missing "Bearer " prefix, then an empty second piece each give their 401; a token returned is the non-empty run of non-space characters right after "Bearer " |
| AuthMiddleware.BearerSplit | backend/src/middlewares/auth.middleware.ts:33 | in a header that starts with "Bearer ", the second split piece is what follows "Bearer " up to the next space |
| AuthMiddleware.TokenRoundTrip | backend/src/middlewares/auth.middleware.ts:29-37 | a client's token sent as "Bearer " plus the token, with or without a space-separated tail, is recovered exactly |
| AuthMiddleware.BearerTokenUnique | backend/src/middlewares/auth.middleware.ts:29-37 | a header holds at most one bearer token, and the header checks return it |
| AuthMiddleware.Authenticate | backend/src/middlewares/auth.middleware.ts:22-58 | every failure is a 401; header errors pass through unchanged; authentication succeeds exactly when the header yields a token that verifies, and then carries the claims; verifier errors map to "Invalid token", "Token has expired" or "Authentication failed" in that order of tests |
| AuthMiddleware.AuthRequest.constructor | backend/src/middlewares/auth.middleware.ts:7-10 | a request starts with no user id and no role |
| AuthMiddleware.Authenticator | backend/src/middlewares/auth.middleware.ts:17-59 | on success the claims are copied onto the request and `next` gets no error; on failure `next` gets the 401 and the request keeps its fields |
| AuthMiddleware.Authorize | backend/src/middlewares/auth.middleware.ts:62-76 | passes exactly when the role is non-empty and listed; otherwise forbidden with "No role assigned" for a missing role, and "Insufficient permissions" for an unlisted one |
| AuthMiddleware.NoRoleClaimRefused | backend/src/middlewares/auth.middleware.ts:39-67 | a verified token without a role claim authenticates, but every role check refuses it |
| ErrorHandler.Handle | backend/src/middlewares/errorHandler.ts:5-79 | `success` is always false; the first matching case decides the reply: ApiError, validation, cast, duplicate key, then the two jwt names, then 500; details and stacks appear only in development |
| ErrorHandler.ClassBeforeName | backend/src/middlewares/errorHandler.ts:14-21 | an ApiError keeps its own status and message whatever its name says |
| ErrorHandler.ProductionHidesDetails | backend/src/middlewares/errorHandler.ts:18-77 | outside development, two errors that differ only in message and stack get the same reply, unless they are ApiErrors |
| ErrorHandler.DuplicateWithoutKeyValue | backend/src/middlewares/errorHandler.ts:45-48 | a duplicate-key error without `keyValue` reports "undefined already exists" |
| ApiResponse.Success | backend/src/utils/ApiResponse.ts:4-10 | replies with the given status and a success body holding the message and the data |
| ApiResponse.Created | backend/src/utils/ApiResponse.ts:12-14 | is a success with status 201 |
| ApiResponse.NoContent | backend/src/utils/ApiResponse.ts:16-18 | replies 204 with no body |
| ApiResponse.Error | backend/src/utils/ApiResponse.ts:20-29 | replies with a failure body holding the message and no data; the body has an `errors` key exactly when errors are given |
| ApiResponse.BadRequest | backend/src/utils/ApiResponse.ts:31-33 | is the error reply with status 400, passing the errors on |
| ApiResponse.Unauthorized | backend/src/utils/ApiResponse.ts:35-37 | is the error reply with status 401 and no errors |
| ApiResponse.Forbidden | backend/src/utils/ApiResponse.ts:39-41 | is the error reply with status 403 and no errors |
| ApiResponse.NotFound | backend/src/utils/ApiResponse.ts:43-45 | is the error reply with status 404 and no errors |
| ApiResponse.Conflict | backend/src/utils/ApiResponse.ts:47-49 | is the error reply with status 409 and no errors |
| ApiResponse.Internal | backend/src/utils/ApiResponse.ts:51-53 | is the error reply with status 500 and no errors |
| ApiResponse.EveryHelperWellShaped | backend/src/utils/ApiResponse.ts:4-53 | in every reply, the flag tells success from failure: only a success carries data, and only a failure may carry errors |
| ApiResponse.Defaults | backend/src/utils/ApiResponse.ts:4-53 | the default message and status of each helper |
| AuthService.FindByEmail | backend/src/repositories/user.repository.ts:3-5 | finds the first user, in insertion order, with exactly this email, or proves there is none |
| AuthService.Login | backend/src/services/auth.service.ts:23-41 | an unknown email and a wrong password fail with the same "Invalid credentials"; success holds exactly when the user exists and the password matches; the token is signed over that user's id with a 7d lifetime |
| AuthService.UserStore.constructor | backend/src/repositories/user.repository.ts:1-9 | the store starts empty |
| AuthService.UserStore.RegisterUser | backend/src/services/auth.service.ts:6-21 | a taken email fails with "User already exists" and stores nothing; otherwise exactly one user is appended, with the password's hash and the member role; emails stay unique |
| AuthService.UserStore.LoginUser | backend/src/services/auth.service.ts:23-41 | returns what `Login` decides over the stored users; the session's user is stored and has the login email |
| AuthService.FindAfterRegister | backend/src/services/auth.service.ts:7-18 | after a registration, a lookup by its email finds the new user |
| AuthService.RegisterThenLogin | backend/src/services/auth.service.ts:6-41 | a fresh registration followed by a login with the same email and password succeeds and names the new user, given a hash whose comparison accepts the password it hashed |
| AuthService.SecondRegistrationFails | backend/src/services/auth.service.ts:7-10 | a second registration with the same email finds the first user |
| ClientTasks.FindId | frontend/src/components/tasks/KanbanBoard.tsx:66 | finds the first task with the id, or proves there is none |
| Dashboard.OnTaskUpdated | frontend/src/pages/Dashboard.tsx:72-74 | the length is unchanged; every element with the event's id becomes the event's task, and every other element is kept |
| Dashboard.OnTaskCreated | frontend/src/pages/Dashboard.tsx:76-82 | a task whose id is present leaves the list as it is; otherwise it is appended at the end |
| Dashboard.OnTaskDeleted | frontend/src/pages/Dashboard.tsx:84-86 | exactly the elements with other ids remain |
| Dashboard.OnStatusChange | frontend/src/pages/Dashboard.tsx:143-145 | the length is unchanged; matching tasks get the new status and the others are kept |
| Dashboard.CountStatus | frontend/src/pages/Dashboard.tsx:169-171 | a status count never exceeds the list length; it is 0 exactly when no task has the status, and the length exactly when every task has it |
| Dashboard.StatsOf | frontend/src/pages/Dashboard.tsx:167-172 | the total is the list length; todo, inProgress and completed are the counts of "todo", "in_progress" and "completed", and add up to at most the total |
| Dashboard.FetchParams | frontend/src/pages/Dashboard.tsx:48-51 | status and priority appear exactly when non-empty, in that order; sortByDueDate always appears, last |
| Dashboard.HandleCreate | frontend/src/pages/Dashboard.tsx:103-114 | the list is unchanged; the modal closes only on success; submitting ends |
| Dashboard.HandleUpdate | frontend/src/pages/Dashboard.tsx:116-129 | the list is unchanged; nothing happens with no task being edited; on success the editor closes |
| Dashboard.HandleDelete | frontend/src/pages/Dashboard.tsx:131-139 | the local state is unchanged whatever the confirmation and the request outcome |
| Dashboard.DistinctStatusesBounded | frontend/src/pages/Dashboard.tsx:169-171 | the counts of three different statuses add up to at most the list length |
| Dashboard.CountStatusAppend | frontend/src/pages/Dashboard.tsx:169-171 | the count of a status over two lists joined is the sum of their counts |
| Dashboard.CreatedIsCounted | frontend/src/pages/Dashboard.tsx:76-82 | a new task adds one to the count of its own status and nothing to the others; a repeated `taskCreated` adds nothing |
| Dashboard.CreatedStats | frontend/src/pages/Dashboard.tsx:76-172 | after a `taskCreated` the total grows by one exactly when the id is new, and a new todo task raises the todo count by one |
| Dashboard.UpdateAbsentIsIdentity | frontend/src/pages/Dashboard.tsx:72-74 | an update for an absent id inserts nothing and changes nothing |
| Dashboard.UpdateIdempotent | frontend/src/pages/Dashboard.tsx:72-74 | applying the same update twice equals applying it once |
| Dashboard.CreateIdempotent | frontend/src/pages/Dashboard.tsx:76-82 | receiving the same `taskCreated` twice equals receiving it once |
| Dashboard.DeleteDistributes | frontend/src/pages/Dashboard.tsx:84-86 | deletion distributes over concatenation, so the remaining tasks keep their order |
| Dashboard.DeleteAbsentIsIdentity | frontend/src/pages/Dashboard.tsx:84-86 | deleting an absent id changes nothing |
| Dashboard.StatusChangeTouchesOnlyStatus | frontend/src/pages/Dashboard.tsx:143-145 | the optimistic update changes only the status field, and only of the matching tasks |
| Dashboard.HandlersKeepTasks | frontend/src/pages/Dashboard.tsx:103-139 | none of the create, update and delete handlers edits the list |
| NotificationBell.CountUnread | frontend/src/components/notifications/NotificationBell.tsx:41 | the unread count is at most the list length, and 0 exactly when every notification is read |
| NotificationBell.MarkRead | frontend/src/components/notifications/NotificationBell.tsx:50-52 | the length is unchanged; the notifications with the id become read, and the others are kept |
| NotificationBell.MarkAllRead | frontend/src/components/notifications/NotificationBell.tsx:64 | every notification becomes read, and nothing else changes |
| NotificationBell.BadgeLabel | frontend/src/components/notifications/NotificationBell.tsx:80-84 | there is a badge exactly for a positive count; it is "9+" above 9 and the single digit otherwise |
| NotificationBell.Bell.constructor | frontend/src/components/notifications/NotificationBell.tsx:13-15 | no notifications and a count of 0 |
| NotificationBell.Bell.OnTaskAssigned | frontend/src/components/notifications/NotificationBell.tsx:21-30 | one unread notification with the payload message is prepended and the count rises by 1; a count in step with the list stays in step |
| NotificationBell.Bell.FetchNotifications | frontend/src/components/notifications/NotificationBell.tsx:37-45 | a fetched list replaces the state, with the count of its unread notifications (an empty list and 0 when the list is missing); a failure changes nothing |
| NotificationBell.Bell.MarkAsRead | frontend/src/components/notifications/NotificationBell.tsx:47-57 | on success the matching notifications become read and the count drops by 1 but never below 0; it stays in step with the list when the id names one unread notification; a failure changes nothing |
| NotificationBell.Bell.MarkAllAsRead | frontend/src/components/notifications/NotificationBell.tsx:59-69 | on success every notification is read and the count is 0; a failure changes nothing |
| NotificationBell.AllReadAfterMarkAll | frontend/src/components/notifications/NotificationBell.tsx:64-65 | after marking all read, none is unread |
| NotificationBell.MarkReadNotMore | frontend/src/components/notifications/NotificationBell.tsx:50-53 | marking an id read never raises the unread count |
| NotificationBell.MarkReadOneUnread | frontend/src/components/notifications/NotificationBell.tsx:50-53 | with distinct ids, marking the id of an unread notification lowers the unread count by exactly 1 |
| NotificationBell.MarkReadAbsent | frontend/src/components/notifications/NotificationBell.tsx:50-52 | marking an id no notification carries changes nothing |
| KanbanBoard.Column | frontend/src/components/tasks/KanbanBoard.tsx:79 | a column holds exactly the tasks with its status |
| KanbanBoard.OnBoard | frontend/src/components/tasks/KanbanBoard.tsx:31-36 | the board shows exactly the tasks whose status is one of the four column ids |
| KanbanBoard.DropDecision | frontend/src/components/tasks/KanbanBoard.tsx:66-70 | a status change is requested exactly when the dragged id is found and that task's status differs from the target column |
| KanbanBoard.Board.constructor | frontend/src/components/tasks/KanbanBoard.tsx:39-40 | nothing is dragged and no column is hovered |
| KanbanBoard.Board.DragStart | frontend/src/components/tasks/KanbanBoard.tsx:42-46 | the dragged id is set and the transfer data carries it |
| KanbanBoard.Board.DragEnd | frontend/src/components/tasks/KanbanBoard.tsx:48-51 | both drag fields are cleared |
| KanbanBoard.Board.DragOver | frontend/src/components/tasks/KanbanBoard.tsx:53-57 | the hovered column is set |
| KanbanBoard.Board.DragLeave | frontend/src/components/tasks/KanbanBoard.tsx:59-61 | the hovered column is cleared |
| KanbanBoard.Board.Drop | frontend/src/components/tasks/KanbanBoard.tsx:63-74 | the status-change call is what `DropDecision` prescribes, and both drag fields are cleared |
| KanbanBoard.ExactlyOneColumn | frontend/src/components/tasks/KanbanBoard.tsx:31-79 | a task with a listed status appears in its own column and in no other |
| KanbanBoard.ColumnKeepsOrder | frontend/src/components/tasks/KanbanBoard.tsx:79 | a column keeps its tasks in input order: filtering distributes over concatenation |
| KanbanBoard.ColumnCountsSum | frontend/src/components/tasks/KanbanBoard.tsx:79-96 | the column counts add up to the number of tasks on the board |
| KanbanBoard.DropOnOwnColumn | frontend/src/components/tasks/KanbanBoard.tsx:68 | dropping a task onto its own column requests nothing |

## Left out

- I/O and transport:
  - the socket.io transport, delivery and reconnection;
  - HTTP routing, controllers and `validateRequest`;
  - MongoDB persistence and Mongoose schema validators;
  - `console` logging;
  - the browser's `Notification`, `confirm` and rendering.
- Async interleavings, `Promise.all` and the event loop: every handler runs as one sequential step.
- The socket identity behind each handler: `Registry.Register` and `Registry.Disconnect` take the connection's socket id as a parameter.
- bcrypt and jwt are parameters, not modelled. Nothing is assumed about them except, in `AuthService.RegisterThenLogin`, that comparing a password with its own hash succeeds.
- Dates: due dates and timestamps become opaque integers through the `toDate` parameter, and the notification id and time are parameters.
- ObjectIds are strings, and their validity is the `isValidId` parameter. Population of `creatorId` and `assignedToId` on the frontend is not modelled: a populated user is represented by its id.
- backend/src/utils/ApiError.ts is not part of this model. `ApiErrors` assumes each helper sets the status its name announces.
- Text.ToLower: lower-cases ASCII letters only. JavaScript's full Unicode case mapping is not modelled.
- String lengths are counted in characters, not in UTF-16 code units as zod and JavaScript count them.
- TaskService.NormalizePriority: inherited dictionary keys such as "constructor", which a plain JavaScript object lookup would also find, are not modelled.
- TaskService.NormalizeStatus: the same inherited keys are not modelled.
- SocketRegistry.Registry: `userSocketMap` is a plain JavaScript object, and its inherited keys are not modelled. Registering the user "__proto__" changes the object's prototype instead of storing an entry, and `getSocketIdByUser("constructor")` returns an inherited function, which `emitTaskAssigned` would treat as a socket id. The model's map holds own entries only.
- SocketRegistry.Registry: the order is insertion order. `Object.entries` puts integer-like keys first; that ordering is not modelled.
- TaskService.TaskStore.ListTasks: states only that the result is the matching tasks in due-date order. The order of tasks with equal due dates is unspecified in the source, and the model does not fix it. Population of `assignedToId` is not modelled. Nor is the `CastError` a malformed `userId` would raise in the `$or` filter; the id comes from a verified token.
- TaskService.TaskStore.UpdateTask: the `CastError` of `findById` is modelled as raised exactly when `isValidId` rejects the id. Mongoose's own cast rule is not part of this model.
- TaskService.TaskStore.DeleteTask: the same cast assumption as `UpdateTask`.
- AuthMiddleware.Authenticate: a `TokenExpiredError` is also a `JsonWebTokenError` in jsonwebtoken, so the "Token has expired" branch is most likely unreachable. The model keeps the branch as written and does not claim that it is reachable.
- AuthDto.ParseRegister: the name's length is checked before trimming, as the schema declares. No length is claimed for the trimmed name, and zod's internal ordering of checks and transforms is not modelled further.
- Request bodies whose fields are not strings: every schema field is modelled as a string or absent.
- Dashboard: the URL encoding of the query and `fetchTasks` itself are not modelled. Nor is the refetch after a failed optimistic update: it replaces the list with whatever the server returns.
- frontend/src/lib/socket.ts, App, TaskCard, TaskForm, TaskFilters, Navbar and Register are presentational or plumbing, and are not part of this model.

## Findings

| source | as written | input that shows it | evidently intended | confidence | as-written member | corrected member |
|---|---|---|---|---|---|---|
| backend/src/services/task.service.ts:37-42 | the status dictionary's keys are todo, "in progress", review and completed, so the canonical "in_progress" is rejected with 400 "Invalid task status" | `updateTask` or `listTasks` with status "in_progress", which UpdateTaskDto and TaskQueryDto admit and which the status filter and kanban drops send | every TASK_STATUS value normalises to itself, "in_progress" included | not executed | TaskService.NormalizeStatusAsWritten | TaskService.NormalizeStatus |

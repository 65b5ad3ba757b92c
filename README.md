# Team-Task-Manager backend: authorization and CRUD rules in Dafny

This project models the backend of Team-Task-Manager: an Express REST API over
PostgreSQL with four tables, `users`, `teams`, `team_memberships` and `tasks`.
Session middleware gates the routes, express-validator rule lists come next,
and three controllers follow: teams, tasks and users. Every controller action is
modelled twice:

- as a function of the tables (`CreateTeamSpec`, `UpdateTaskSpec`, `RegisterSpec`, ...),
  from which the properties are proved as lemmas;
- as an imperative method over the shared `Database` handle (a class whose fields
  are the four tables and their SERIAL counters). Its contract ties the reply and
  the new tables to that function and keeps the database `Consistent`: primary keys,
  unique usernames and emails, one membership per (team, user), ids below the counters.

Modules, one per file:

- `Js`: JavaScript truthiness, `||` defaults and `String.prototype.trim`.
- `Sql`: the row effect of SELECT, UPDATE and DELETE on a table held as a sequence, plus key constraints.
- `Http`: the reply envelope.
- `Store`: rows, the database, the bcrypt digest, and the try/catch rule.
- `Auth`: `isAuthenticated`, `isAdmin` and `setUserSession` on a `Request` object.
- `Teams`, `Tasks` and `Users`: the three controllers.
- `Validation`: the six rule lists.
- `Routes`: gate, then rule list, then handler, for the routes that have middleware.
- `Scenario`: a concrete walk through the handlers.

A thrown `ApiError` inside the team and task handlers' `try` block is caught and
rethrown as a 500 with the handler's generic message. So callers never see those
handlers' 403 and 404 replies. `Store.Attempt` and `Store.Rethrow` model this,
and the methods show it as an explicit `thrown` variable checked at the `catch`.
The user controller has no `try`, so its errors keep their own status.

Request fields are `Option` values: `None` is a field that was absent (sent to
SQL as NULL, so COALESCE keeps the column), and `Some("")` is present but
falsy. Truthiness follows JavaScript: text is truthy when non-empty, a number
when non-zero. An integer field keeps the form it arrived in (`Js.IntValue`):
the text `"0"` and the JSON number 0 both pass `isInt()`, but only the number
is falsy in the handlers' `!field` and `field || null` tests.

Points where the code's behaviour is easy to misread, as the model has them:

- The code's 403 and 404 inside the team and task handlers never reach the
  client: the `catch` turns them into 500.
- The task update and delete routes are `/tasks/updat-tasks/:id` and
  `/tasks/delete-tasks/:id`.
- `userLogin` first answers 400 when the email or password is missing.
- Registration refuses whitespace-only fields, because it checks them with `trim()`.

## Model

| member | source | states |
|---|---|---|
| Js.Trim | backend/src/controllers/user.controller.js:11-17 | `trim()`: the result is empty exactly when the text is whitespace only (the ECMAScript WhiteSpace and LineTerminator set); otherwise it starts and ends with a visible character |
| Js.TrimIdempotent | backend/src/middlewares/validation.js:4 | trimming an already trimmed text changes nothing |
| Js.TrimStart | backend/src/controllers/user.controller.js:13 | the leading half of `trim()`: the result is a suffix of the text, everything dropped is whitespace, and it does not start with whitespace |
| Js.TrimEnd | backend/src/controllers/user.controller.js:13 | the trailing half of `trim()`: the result is a prefix of the text, everything dropped is whitespace, and it does not end with whitespace |
| Js.TruthyInt | backend/src/controllers/task.controller.js:10 | `!field` on an integer field: absent is falsy, the text form is always truthy (even `"0"`), the number form is truthy exactly when non-zero |
| Js.IntOrNull | backend/src/controllers/task.controller.js:34 | the `assigned_to` default to `null`: gives the integer exactly when the field is truthy, so the number 0 becomes NULL and the text `"0"` stays 0 |
| Js.SqlInt | backend/src/controllers/task.controller.js:110 | an integer sent to SQL as given: absent is NULL, both forms give their integer value |
| Sql.Where | backend/src/controllers/team.controller.js:43-50 | a row is in the result of a SELECT (or what a DELETE leaves) exactly when it is stored and satisfies the condition; the result is no longer than the table and is empty exactly when no row satisfies the condition |
| Sql.WhereCounts | backend/src/controllers/team.controller.js:43-50 | each row that satisfies the condition comes back exactly as often as it is stored, and no other row comes back |
| Sql.WhereConcat | backend/src/controllers/team.controller.js:43-50 | storage order: selecting from a table read in two parts gives the first part's selection followed by the second part's |
| Sql.DistinctStoredOnce | backend/src/controllers/team.controller.js:118 | under a key constraint every stored row is stored exactly once |
| Sql.UpdateWhere | backend/src/controllers/team.controller.js:84-92 | an UPDATE rewrites exactly the rows that satisfy the condition, in place; every other row stays |
| Sql.WhereSameFilter | backend/src/controllers/task.controller.js:52-74 | two conditions that agree on every row select the same rows |
| Sql.WhereKeepsDistinct | backend/src/controllers/team.controller.js:118-119 | deleting rows keeps a primary-key or UNIQUE constraint |
| Sql.UpdateKeepsDistinct | backend/src/controllers/user.controller.js:93-96 | an UPDATE that keeps the key column keeps the key constraint |
| Sql.DistinctRowsAgree | backend/src/controllers/user.controller.js:52-60 | under a key constraint at most one row has a given key, so `rows[0]` of a lookup by key is that row |
| Store.Consistent | backend/src/controllers/team.controller.js:159-162 | the integrity the tables keep between requests: primary keys, unique usernames and emails, one membership per (team, user) (the conflict `ON CONFLICT` relies on), and SERIAL counters ahead of every id; the table definitions themselves are not part of this model |
| Store.Hash | backend/src/controllers/user.controller.js:29-30 | the digest of a password verifies that password (`bcrypt.compare`) |
| Store.AppendKeepsDistinct | backend/src/controllers/team.controller.js:17-24 | an INSERT whose key is new keeps the key constraint |
| Store.Rethrow | backend/src/controllers/team.controller.js:96-99 | the `catch` that rethrows as 500: a completed `Attempt` replies with the success status and its tables; any thrown `ApiError`, whatever its status, becomes 500 with the handler's message and the old tables |
| Auth.AuthenticatedGate | backend/src/middlewares/auth.js:1-7 | passes exactly when the session holds a user; otherwise 401 `Unauthorized` |
| Auth.AdminGate | backend/src/middlewares/auth.js:9-15 | passes exactly when the session user's role is `admin`; otherwise 403 `Forbidden: Admins only` |
| Auth.IsAuthenticated | backend/src/middlewares/auth.js:1-7 | answers as `AuthenticatedGate`; when it passes, `req.user` is the session user; otherwise `req.user` is untouched |
| Auth.IsAdmin | backend/src/middlewares/auth.js:9-15 | answers as `AdminGate`; when it passes, `req.user` is the session user |
| Auth.SetUserSession | backend/src/middlewares/auth.js:17-26 | the session holds exactly id, username, email, first and last name and role; no credential |
| Auth.AdminGateStricter | backend/src/middlewares/auth.js:9-15 | whatever passes the admin gate passes authentication; no session and a non-admin session get the same 403 |
| Teams.CreateTeam | backend/src/controllers/team.controller.js:6-36 | the reply and the new tables are those of `CreateTeamSpec`, and the database stays consistent |
| Teams.CreateTeamSpec | backend/src/controllers/team.controller.js:6-36 | createTeam on the tables: 400 unless name and description are truthy, otherwise one new team with the next id and the caller as creator, replied with 201 |
| Teams.IsTeamCreator | backend/src/controllers/team.controller.js:78-82 | the creator check of update, delete and add-member: the SELECT by id and creator returned a row |
| Teams.CreatorOrMember | backend/src/controllers/team.controller.js:43-48 | `creator_id = $1 OR id IN (SELECT team_id ...)`: the caller created the team or has a membership row in it |
| Teams.UpdateTeamTry | backend/src/controllers/team.controller.js:76-95 | updateTeam's `try` block: throws the 403 unless the caller created the team, otherwise rewrites the team with COALESCE and returns the first row with that id |
| Teams.UpdateTeamSpec | backend/src/controllers/team.controller.js:62-102 | updateTeam: 400 when neither field is truthy, otherwise the `try` block under `Rethrow` with 200 and `Failed to update team` |
| Teams.DeleteTeamTry | backend/src/controllers/team.controller.js:110-122 | deleteTeam's `try` block: throws the 403 unless the caller created the team, otherwise deletes the rows with that id |
| Teams.DeleteTeamSpec | backend/src/controllers/team.controller.js:104-129 | deleteTeam: the `try` block under `Rethrow` with 200 and `Failed to delete team` |
| Teams.InsertMembership | backend/src/controllers/team.controller.js:159-164 | `INSERT ... ON CONFLICT DO NOTHING` on the (team, user) key: a row (team, user, `member`) is appended unless that pair already has one |
| Teams.AddMemberTry | backend/src/controllers/team.controller.js:142-168 | addMemberToTeam's `try` block: the 403 unless the caller created the team, then the 404 unless the user exists, otherwise the membership insert with `ON CONFLICT DO NOTHING` |
| Teams.AddMemberSpec | backend/src/controllers/team.controller.js:131-175 | addMemberToTeam: 400 when `userIdToAdd` is falsy, otherwise the `try` block under `Rethrow` with 200 and `Failed to add member to team` |
| Teams.GetTeams | backend/src/controllers/team.controller.js:38-60 | replies 200 with exactly the teams the caller created or has a membership row in |
| Teams.UpdateTeam | backend/src/controllers/team.controller.js:62-102 | the reply and the new tables are those of `UpdateTeamSpec`, including the 403 caught and rethrown as 500 |
| Teams.DeleteTeam | backend/src/controllers/team.controller.js:104-129 | the reply and the new tables are those of `DeleteTeamSpec` |
| Teams.AddMemberToTeam | backend/src/controllers/team.controller.js:131-175 | the reply and the new tables are those of `AddMemberSpec`, including the 403 and the 404 rethrown as 500 |
| Teams.IsTeamCreatorMeans | backend/src/controllers/team.controller.js:78-82 | the creator check finds a row exactly when the team exists with the caller as creator; a missing team and someone else's team look the same |
| Teams.UpdatedTeamReturned | backend/src/controllers/team.controller.js:84-95 | after the creator check passes, `RETURNING *` gives back a row |
| Teams.CreateTeamRejectsMissingField | backend/src/controllers/team.controller.js:10-12 | a missing or falsy name or description gives 400 and leaves the tables unchanged |
| Teams.CreateTeamInsertsOne | backend/src/controllers/team.controller.js:17-29 | inserts exactly one team, with a fresh id, the caller as creator and the given fields, and returns that row; no other table changes |
| Teams.GetTeamsExact | backend/src/controllers/team.controller.js:43-50 | a team is listed exactly when the caller is its creator or has a membership row in it |
| Teams.GetTeamsListsEachOnce | backend/src/controllers/team.controller.js:43-50 | under the primary key every listed team appears exactly once, since membership is tested with `IN` and not joined |
| Teams.UpdateTeamNeedsAField | backend/src/controllers/team.controller.js:67-72 | with neither field truthy the reply is 400 whatever the tables hold, and nothing changes |
| Teams.OnlyCreatorChangesTeam | backend/src/controllers/team.controller.js:76-171 | unless the team exists with the caller as creator, update, delete and add-member change nothing and reply 500 |
| Teams.TeamRepliesNeverForbidden | backend/src/controllers/team.controller.js:142-171 | no team handler ever replies 403 or 404 |
| Teams.UpdateTeamRowsKeepIds | backend/src/controllers/team.controller.js:84-92 | the UPDATE rewrites only the rows with the id, keeps every id, and so keeps the primary key |
| Teams.UpdatedRowReturned | backend/src/controllers/team.controller.js:84-95 | the row `RETURNING *` gives back is the team as rewritten |
| Teams.UpdateTeamCoalesces | backend/src/controllers/team.controller.js:84-95 | a successful update replies with the team whose omitted fields keep their old values, rewrites only that team, and changes no other table |
| Teams.DeleteTeamRemovesOnlyTeamRow | backend/src/controllers/team.controller.js:118-119 | the creator's delete removes exactly the team's row; memberships and tasks are left as they were |
| Teams.AddMemberNeedsUser | backend/src/controllers/team.controller.js:150-156 | adding a user who does not exist adds nothing and replies 500 |
| Teams.AddMemberMakesMember | backend/src/controllers/team.controller.js:158-164 | after a successful add the user is a member; the only possible new row is (team, user, `member`) |
| Teams.AddMemberIdempotent | backend/src/controllers/team.controller.js:159-164 | repeating an add gives the same reply and the same tables (`ON CONFLICT DO NOTHING`) |
| Teams.CreateTeamKeepsConsistent | backend/src/controllers/team.controller.js:17-24 | creating a team keeps the database consistent |
| Teams.UpdateTeamKeepsConsistent | backend/src/controllers/team.controller.js:84-92 | updating a team keeps the database consistent |
| Teams.DeleteTeamKeepsConsistent | backend/src/controllers/team.controller.js:118-119 | deleting a team keeps the database consistent |
| Teams.AddMemberKeepsConsistent | backend/src/controllers/team.controller.js:158-164 | adding a member keeps one membership per (team, user) |
| Tasks.RunTasksQuery | backend/src/controllers/task.controller.js:74 | the rows the database returns for the built statement: visible tasks of the caller in `$1` that satisfy every appended condition |
| Tasks.BuildTasksQuery | backend/src/controllers/task.controller.js:52-72 | the built statement has placeholders `$2, $3, ...` in order, one parameter per placeholder after `$1` = the caller, one condition per truthy filter, and a task satisfies the conditions exactly when it matches the filters |
| Tasks.GetTasks | backend/src/controllers/task.controller.js:46-82 | the reply is `GetTasksSpec`: the tasks whose team the caller creates or belongs to, narrowed by the filters |
| Tasks.CreateTask | backend/src/controllers/task.controller.js:6-44 | the reply and the new tables are those of `CreateTaskSpec`, and the database stays consistent |
| Tasks.UpdateTask | backend/src/controllers/task.controller.js:84-125 | the reply and the new tables are those of `UpdateTaskSpec` |
| Tasks.DeleteTask | backend/src/controllers/task.controller.js:127-153 | the reply and the new tables are those of `DeleteTaskSpec` |
| Tasks.IsTeamCreatorOrMember | backend/src/controllers/task.controller.js:18-27 | createTask's check: a team with that id exists and the caller created it or is a member |
| Tasks.IsTaskCreatorOrAssignee | backend/src/controllers/task.controller.js:97-104 | updateTask's check: a task with that id was created by the caller or is assigned to the caller; a NULL assignee matches no one |
| Tasks.IsTaskCreator | backend/src/controllers/task.controller.js:135-142 | deleteTask's check: a task with that id was created by the caller |
| Tasks.NewTask | backend/src/controllers/task.controller.js:29-34 | the inserted row: description `''`, assignee NULL, due date NULL and status `pending` where the field is falsy, the caller as creator |
| Tasks.Changed | backend/src/controllers/task.controller.js:106-113 | the SET list of updateTask: each of the five columns takes the body's value when it is present and keeps its own when it is absent |
| Tasks.CreateTaskTry | backend/src/controllers/task.controller.js:16-37 | createTask's `try` block: throws the 403 unless the caller is in the team, otherwise inserts `NewTask` with the next id |
| Tasks.CreateTaskSpec | backend/src/controllers/task.controller.js:6-44 | createTask: 400 when the title or `team_id` is falsy, otherwise the `try` block under `Rethrow` with 201 and `Failed to create task` |
| Tasks.UpdateTaskTry | backend/src/controllers/task.controller.js:95-118 | updateTask's `try` block: throws the 403 unless the caller created or is assigned the task, otherwise rewrites it with `Changed` and returns the first row with that id |
| Tasks.UpdateTaskSpec | backend/src/controllers/task.controller.js:84-125 | updateTask: 400 when all five fields are falsy, otherwise the `try` block under `Rethrow` with 200 and `Failed to update task` |
| Tasks.DeleteTaskTry | backend/src/controllers/task.controller.js:133-146 | deleteTask's `try` block: throws the 403 unless the caller created the task, otherwise deletes the rows with that id |
| Tasks.DeleteTaskSpec | backend/src/controllers/task.controller.js:127-153 | deleteTask: the `try` block under `Rethrow` with 200 and `Failed to delete task` |
| Tasks.GetTasksSpec | backend/src/controllers/task.controller.js:46-82 | getTasks' meaning: 200 with the tasks whose team exists with the caller as creator or member and that match each given filter |
| Tasks.UpdateTaskRowsPointwise | backend/src/controllers/task.controller.js:106-116 | the UPDATE rewrites only the rows with the id and never changes a row's id, team or creator |
| Tasks.UpdatedTaskReturned | backend/src/controllers/task.controller.js:106-118 | after the creator-or-assignee check passes, `RETURNING *` gives back a row |
| Tasks.CreateTaskRejectsMissingField | backend/src/controllers/task.controller.js:10-12 | a falsy title or `team_id` gives 400 and changes nothing |
| Tasks.CreateTaskNeedsMembership | backend/src/controllers/task.controller.js:18-27 | a caller who is neither creator nor member of the team (or a missing team) adds no task and gets 500 |
| Tasks.CreateTaskDefaults | backend/src/controllers/task.controller.js:29-36 | a created task has the caller as creator, description `''`, no assignee, no due date and status `pending` where those were falsy, a fresh id, and is the one new row |
| Tasks.GetTasksExact | backend/src/controllers/task.controller.js:52-74 | a task is listed exactly when its team exists with the caller as creator or member and it matches each given filter |
| Tasks.GetTasksListsEachOnce | backend/src/controllers/task.controller.js:52-58 | under the primary key every listed task appears exactly once: the JOIN pairs it with its one team and membership is tested with `IN` |
| Tasks.UpdateTaskNeedsAField | backend/src/controllers/task.controller.js:89-91 | with all five fields falsy the reply is 400 whatever the tables hold, and nothing changes |
| Tasks.OnlyCreatorOrAssigneeUpdates | backend/src/controllers/task.controller.js:97-104 | someone who neither created the task nor is assigned to it changes nothing and gets 500 |
| Tasks.UpdatedRowIsReturned | backend/src/controllers/task.controller.js:106-118 | when ids are unique, the first row `RETURNING *` gives back is the updated task, with the body's fields coalesced into it |
| Tasks.UpdateTaskCoalesces | backend/src/controllers/task.controller.js:106-118 | a successful update replies with the task whose omitted fields keep their old values, rewrites only that task, and never changes any task's team or creator |
| Tasks.OnlyCreatorDeletesTask | backend/src/controllers/task.controller.js:134-142 | anyone but the creator, the assignee included, changes nothing and gets 500 |
| Tasks.DeleteTaskRemovesRow | backend/src/controllers/task.controller.js:144-146 | the creator's delete removes exactly the task's row, whoever it is assigned to |
| Tasks.TaskRepliesNeverForbidden | backend/src/controllers/task.controller.js:119-122 | every failure inside a task handler's try, the 403 included, reaches the client as 500 |
| Tasks.DeletedTeamTasksUnlisted | backend/src/controllers/task.controller.js:52-58 | after a team is deleted its tasks stay in the table, but no one's task list contains them |
| Tasks.CreateTaskKeepsConsistent | backend/src/controllers/task.controller.js:29-36 | creating a task keeps the database consistent |
| Tasks.UpdateTaskKeepsConsistent | backend/src/controllers/task.controller.js:106-116 | updating a task keeps the database consistent |
| Tasks.DeleteTaskKeepsConsistent | backend/src/controllers/task.controller.js:144-145 | deleting a task keeps the database consistent |
| Users.Profiles | backend/src/controllers/user.controller.js:106-108 | lists every user's profile in table order; a profile has no hash |
| Users.RegisterUser | backend/src/controllers/user.controller.js:8-45 | the reply and the new tables are those of `RegisterSpec`, and usernames and emails stay unique |
| Users.UserLogin | backend/src/controllers/user.controller.js:47-78 | the reply is `LoginSpec`; on success the session holds exactly the returned profile, otherwise it is untouched |
| Users.ForgotPassword | backend/src/controllers/user.controller.js:80-100 | the reply and the new tables are those of `ForgotPasswordSpec` |
| Users.GetAllUsers | backend/src/controllers/user.controller.js:102-112 | replies with the profiles of all users exactly when the caller's role is `admin`, otherwise 403 |
| Users.RegisterSpec | backend/src/controllers/user.controller.js:8-45 | registerUser on the tables: 400 on a blank field, 400 on a taken username or email, otherwise one new row with role `user` and a digest of the password, replied as a profile with 201 |
| Users.LoginUser | backend/src/controllers/user.controller.js:66-67 | the user userLogin puts in the session and replies with: the stored row's columns with the email as given in the body |
| Users.LoginSpec | backend/src/controllers/user.controller.js:47-78 | userLogin on the tables: 400, then 404, then 401, otherwise 200 with the profile of the first row with that email |
| Users.ForgotPasswordSpec | backend/src/controllers/user.controller.js:80-100 | forgotPassword on the tables: 400 on a falsy field, 404 on an unknown email, otherwise the hash of every row with that email is replaced |
| Users.GetAllUsersSpec | backend/src/controllers/user.controller.js:102-112 | getAllUsers: 403 unless the caller is an admin, otherwise every stored user's profile |
| Users.RegisterRejectsBlank | backend/src/controllers/user.controller.js:11-17 | a missing field, or one whose `trim()` is empty, gives 400 `All fields are required`, and nothing changes |
| Users.RegisterRejectsTaken | backend/src/controllers/user.controller.js:20-27 | a username or email already in the table gives 400 and nothing is inserted |
| Users.RegisterCreatesUser | backend/src/controllers/user.controller.js:29-44 | inserts one row with a fresh id, role `user`, the given fields and a hash that verifies the password, and replies with that row's profile |
| Users.LoginFailureOrder | backend/src/controllers/user.controller.js:48-64 | 400 on a missing field whatever the tables hold, then 404 on an unknown email, then 401 on a wrong password |
| Users.LoginReturnsProfile | backend/src/controllers/user.controller.js:52-77 | the right password for a stored email replies with exactly that user's profile |
| Users.RegisterThenLogin | backend/src/controllers/user.controller.js:29-77 | who has just registered can log in with the same email and password and gets the registered profile |
| Users.ForgotPasswordChangesOnlyHash | backend/src/controllers/user.controller.js:91-99 | a reset rewrites only the hash of the user with that email, which then verifies the new password; every other column, user and table stays |
| Users.ForgotPasswordUnknownEmail | backend/src/controllers/user.controller.js:85-90 | an unknown email gives 404 and changes nothing |
| Users.ForgotPasswordThenLogin | backend/src/controllers/user.controller.js:91-96 | after a reset the new password logs in as the same profile |
| Users.GetAllUsersAdminOnly | backend/src/controllers/user.controller.js:103-111 | only an admin gets the list, and it holds exactly the profiles of the stored users |
| Users.RegisterKeepsConsistent | backend/src/controllers/user.controller.js:20-40 | registration keeps ids, usernames and emails unique |
| Users.ForgotPasswordKeepsConsistent | backend/src/controllers/user.controller.js:93-96 | a reset keeps the database consistent |
| Validation.Rule | backend/src/middlewares/validation.js:4-10 | a rule contributes no error when it holds, and exactly its own message when it fails |
| Validation.Conclude | backend/src/middlewares/validation.js:11-16 | the request goes on with the sanitized body exactly when there are no errors; otherwise it is answered with the full list |
| Validation.TrimOptional | backend/src/middlewares/validation.js:34 | `optional().trim()`: an absent field stays absent, a present one is trimmed |
| Validation.CharCount | backend/src/middlewares/validation.js:6-8 | the length `isLength` measures is at most the number of characters, and equal to it without presentation selectors |
| Validation.RegistrationErrors | backend/src/middlewares/validation.js:3-10 | no error exactly when all five rules hold, and each rule's message is in the list exactly when that rule fails |
| Validation.ValidateUserRegistration | backend/src/middlewares/validation.js:3-18 | rejects exactly when a rule fails; an accepted body has username, first and last name trimmed |
| Validation.LoginErrors | backend/src/middlewares/validation.js:20-22 | each message is in the list exactly when its rule fails |
| Validation.ValidateUserLogin | backend/src/middlewares/validation.js:20-30 | rejects exactly when a rule fails, passing the body through unchanged otherwise |
| Validation.TeamCreationErrors | backend/src/middlewares/validation.js:33 | the only rule is the trimmed non-empty name |
| Validation.ValidateTeamCreation | backend/src/middlewares/validation.js:32-42 | accepts exactly when the trimmed name is non-empty; the description is optional and only trimmed |
| Validation.AddMemberErrors | backend/src/middlewares/validation.js:45-46 | each message is in the list exactly when the path id or `userIdToAdd` is not an integer |
| Validation.ValidateAddMember | backend/src/middlewares/validation.js:44-54 | accepts exactly when both ids are integers, handing the team id and `userIdToAdd` to the handler in the form they arrived in, text or JSON number |
| Validation.TaskFieldErrors | backend/src/middlewares/validation.js:59-72 | the `assigned_to`, `due_date` and `status` rules that creation and update share: each message is in the list exactly when its rule fails, and the list is empty exactly when all three hold |
| Validation.TaskCreationErrors | backend/src/middlewares/validation.js:56-72 | each of the five messages is in the list exactly when its rule fails |
| Validation.ValidateTaskCreation | backend/src/middlewares/validation.js:56-80 | rejects exactly when a rule fails; an accepted body has a team id and, if given, an allowed status; `team_id` and `assigned_to` keep their form, text or JSON number |
| Validation.TaskUpdateErrors | backend/src/middlewares/validation.js:82-98 | each of the four messages is in the list exactly when its rule fails |
| Validation.ValidateTaskUpdate | backend/src/middlewares/validation.js:82-106 | rejects exactly when a rule fails; otherwise the handler gets the integer task id and the trimmed changes, with `assigned_to` in the form it arrived in |
| Validation.ShortPasswordRejected | backend/src/middlewares/validation.js:6-8 | a password shorter than six characters, or none, is refused at registration |
| Validation.WhitespaceNamesRejected | backend/src/middlewares/validation.js:4-10 | a whitespace-only username is refused at registration, and a whitespace-only team name on team creation |
| Validation.StatusOutsideListRejected | backend/src/middlewares/validation.js:69-72 | a status outside pending, in_progress and completed is refused on create and update; with the status left out the list is the same without that final error |
| Validation.StatusErrorComesLast | backend/src/middlewares/validation.js:69-72 | the status rule is the last shared rule, so its failure appends its error after all the others |
| Validation.AssigneeMustBeInteger | backend/src/middlewares/validation.js:60-63 | a present non-integer `assigned_to` is refused on create and update |
| Validation.AddMemberNeedsIntegers | backend/src/middlewares/validation.js:45-46 | adding a member needs an integer team id and an integer `userIdToAdd`; an absent one is refused too |
| Validation.RegistrationErrorsInOrder | backend/src/middlewares/validation.js:3-10 | when every rule fails, the list holds all five messages in the order of the rule list: username, email, password, first name, last name |
| Validation.RegistrationSanitizerStable | backend/src/middlewares/validation.js:4-10 | validating an accepted, sanitized body again accepts it unchanged |
| Routes.Register | backend/src/routes/user.routes.js:8 | the reply and the new tables are those of the rule list followed by registerUser |
| Routes.RegisterRoute | backend/src/routes/user.routes.js:8 | validateUserRegistration then registerUser: a rejected body answers with its errors and changes nothing; an accepted one goes on sanitized |
| Routes.LoginRoute | backend/src/routes/user.routes.js:9 | validateUserLogin then userLogin |
| Routes.GetAllUsersRoute | backend/src/routes/user.routes.js:11 | isAdmin then getAllUsers, with the session user as `req.user` |
| Routes.CreateTeamRoute | backend/src/routes/team.routes.js:9 | isAuthenticated, validateTeamCreation, createTeam: each stage either answers and stops or hands on |
| Routes.AddMemberRoute | backend/src/routes/team.routes.js:13 | isAuthenticated, validateAddMember, addMemberToTeam |
| Routes.CreateTaskRoute | backend/src/routes/task.routes.js:8 | isAuthenticated, validateTaskCreation, createTask |
| Routes.UpdateTaskRoute | backend/src/routes/task.routes.js:10 | isAuthenticated, validateTaskUpdate, updateTask |
| Routes.Login | backend/src/routes/user.routes.js:9 | the reply is that of the rule list followed by userLogin; the session changes only on success, to the returned profile |
| Routes.ListUsers | backend/src/routes/user.routes.js:11 | the reply is that of isAdmin followed by getAllUsers |
| Routes.PostTeam | backend/src/routes/team.routes.js:9 | the reply and the new tables are those of isAuthenticated, validateTeamCreation and createTeam in turn |
| Routes.PostMember | backend/src/routes/team.routes.js:13 | the reply and the new tables are those of isAuthenticated, validateAddMember and addMemberToTeam in turn |
| Routes.PostTask | backend/src/routes/task.routes.js:8 | the reply and the new tables are those of isAuthenticated, validateTaskCreation and createTask in turn |
| Routes.PutTask | backend/src/routes/task.routes.js:10 | the reply and the new tables are those of isAuthenticated, validateTaskUpdate and updateTask in turn |
| Routes.NoSessionNoChange | backend/src/routes/team.routes.js:9-13 | without a session user the guarded routes reply 401 and change nothing |
| Routes.RegisterRuleFailureStops | backend/src/middlewares/validation.js:11-16 | a failed rule at registration replies 400 with the error list and the handler is not reached |
| Routes.TeamRuleFailureStops | backend/src/middlewares/validation.js:36-41 | a blank team name replies 400 with the error list and no team is created |
| Routes.TaskRuleFailureStops | backend/src/middlewares/validation.js:73-79 | a failed rule on task create or update replies 400 with the list and the handler is not reached |
| Routes.BlankDescriptionRefused | backend/src/controllers/team.controller.js:10-12 | a whitespace-only description passes the rule list (optional, trimmed to `''`) and is then refused by createTeam with 400 |
| Routes.CreatedTeamIsTrimmed | backend/src/middlewares/validation.js:33-34 | a team created through its route replies 201 with the trimmed name and description, the caller as creator and the next id, and that row is the one team appended to the table; nothing else changes but the counter |
| Routes.ZeroTeamIdPassesRulesFailsHandler | backend/src/controllers/task.controller.js:10-27 | `team_id` 0 passes `isInt()` in either form; as a JSON number it is falsy and createTask replies 400, as the text `"0"` it is truthy, finds no team 0 and replies 500; nothing is inserted either way |
| Routes.ZeroUserIdToAddByKind | backend/src/controllers/team.controller.js:136-156 | `userIdToAdd` 0: as a JSON number addMemberToTeam replies 400 `User ID to add is required`; as the text `"0"` it passes that test, finds no user 0 and replies 500; the tables do not change |
| Routes.ZeroAssigneeByKind | backend/src/controllers/task.controller.js:89-91 | an update whose only field is `assigned_to` 0 is refused with 400 exactly when the 0 is a JSON number; with the text `"0"` the reply and the tables are those of updateTask's `try` block, starting at the creator-or-assignee check, under the rethrow-as-500 rule |
| Routes.GetAllUsersOnlyGateRefuses | backend/src/controllers/user.controller.js:103-105 | through its route getAllUsers' own 403 never answers: isAdmin refused every non-admin already |
| Routes.RegisteredNameIsTrimmed | backend/src/middlewares/validation.js:4-10 | a successful registration adds exactly one row, with the trimmed username, first and last name, the email as given and role `user`, replies with that row's profile, and a login with the same email and password then replies with that profile |
| Routes.BlankTitleWrittenOnUpdate | backend/src/controllers/task.controller.js:106-118 | a whitespace-only title passes the rule list and trims to `''`; with any other truthy field, for the creator or the assignee, the reply is the task with the fields coalesced and title `''`, and the stored row gets title `''` |
| Scenario.RegisterAlice | backend/src/controllers/user.controller.js:29-44 | the first registration on empty tables gets id 1 and role `user` |
| Scenario.RegisterBob | backend/src/controllers/user.controller.js:20-44 | a second registration with other username and email succeeds with id 2 |
| Scenario.AliceLogsIn | backend/src/controllers/user.controller.js:52-77 | the first user logs in with the registered password |
| Scenario.AliceCreatesTeam | backend/src/controllers/team.controller.js:17-29 | the first user's team gets id 1 with that user as creator |
| Scenario.AliceCreatesTask | backend/src/controllers/task.controller.js:29-37 | a task created by that user in that team gets status `pending` and description `''` |
| Scenario.AliceCompletesTask | backend/src/controllers/task.controller.js:106-118 | setting only the status changes only the status |
| Scenario.BobCannotDelete | backend/src/controllers/task.controller.js:134-150 | the other user's delete replies 500 (not 403) and the task stays |
| Scenario.Walkthrough | backend/src/controllers/task.controller.js:127-153 | the replies of the whole walk in order, ending with 500 for the non-creator's delete |
| Scenario.VisibleStart | backend/src/controllers/user.controller.js:11-17 | text starting with a visible character is not blank |

## Left out

- Database failures: a connection or statement error and the 500 that the handler's `catch` (or asyncHandler) turns it into are not modelled; every statement succeeds with its row effect.
- Network I/O and the HTTP layer: Express, CORS, JSON parsing and the error-handling middleware are out of scope, as are the session store and cookie settings (`backend/src/app.js`) and the connection pool (`backend/src/db/index.js`).
- PostgreSQL types and constraints beyond the keys: column casts, CHECK constraints and foreign keys are not modelled. There are no referential cascades, so a deleted team's memberships and tasks stay in their tables.
- Row order: lists come back in storage order, which an unordered PostgreSQL SELECT does not promise. The lemmas about lists state membership. The `RETURNING *` row is unique by the primary key.
- Timestamps (`created_at`, `joined_at`, `NOW()`): no clock is modelled, so those columns are dropped.
- `logoutUser`: the asynchronous `session.destroy` callback and the cookie clearing are I/O.
- Concurrency: the race between the authorization SELECT and the later write is not modelled; requests run one at a time.
- bcrypt: salting and hashing are a foreign library. `Store.Digest` keeps the password and a salt parameter that stands for `genSalt(10)`, and `Verify` accepts exactly the password the digest was made from. The model therefore also assumes no two passwords share a hash.
- Store.Verify: bcrypt hashes only the first 72 bytes of the UTF-8 password. Two passwords that agree on those bytes verify against each other's hash in the source, so a login with the wrong password can succeed there; the model's `Verify` accepts only the exact password and answers 401.
- `isEmail` and `isISO8601` are passed in as uninterpreted predicates in `Validation.Checks`.
- Validation.IntAllowed: `isInt()` is modelled on a `Numeric` value that already says whether the field is an integer and, if so, which integer in which form (`IntText` or `IntNumber`). The parsing of the text into that integer is not modelled.
- Request values are text or integers only. JSON booleans, arrays, objects, null and fractional numbers are not modelled.
- Ids that reach a handler without an `isInt()` rule (the path id of update and delete, the query filters of `getTasks`) are modelled as integers. A non-integer text there makes PostgreSQL raise, and the `catch` answers 500; that case is not modelled.
- Tasks.TaskFilter: a query-string filter is truthy whenever present and non-empty. The text `"0"` is truthy there, unlike the number 0 in a JSON body.
- Validation.ValidateTaskCreation: `toDate()` turns `due_date` into a Date before the handler runs; the model (`SanitizedTask`) passes on the validated text unchanged.
- Validation.ValidateTaskUpdate: `toDate()` runs here too; the model (`SanitizedChanges`) also passes `due_date` on as the validated text.
- Sanitizers: express-validator rewrites `req.body` in place. The model returns the rewritten body as the validator's result.
- Routes without validation, where the gate is followed directly by the handler (`GET` teams and tasks, `PUT`/`DELETE /teams/:id`, `DELETE` tasks, `forgot-password`, `logout`), are not written out as route methods. Their handlers are modelled directly.

/** backend/src/controllers/task.controller.js: create tasks in a team the
    caller is in, list the tasks of such teams with optional filters, update a
    task as its creator or assignee, delete it as its creator. */
module Tasks {
  import opened Js
  import opened Sql
  import opened Http
  import opened Store
  import opened Teams

  /** `req.body` of createTask. */
  datatype TaskBody = TaskBody(title: Option<string>, description: Option<string>, teamId: Option<IntValue>,
                               assignedTo: Option<IntValue>, dueDate: Option<string>, status: Option<string>)

  /** `req.body` of updateTask. */
  datatype TaskChanges = TaskChanges(title: Option<string>, description: Option<string>,
                                     assignedTo: Option<IntValue>, dueDate: Option<string>, status: Option<string>)

  /** `req.query` of getTasks. Query-string values are text, so any value that
      is present (not the empty string) is truthy. */
  datatype TaskFilter = TaskFilter(teamId: Option<int>, assignedTo: Option<int>)

  // ---------------------------------------------------------------------------
  // Queries and authorization predicates

  /** `SELECT * FROM teams WHERE id = $1 AND (creator_id = $2 OR id IN (...))` */
  function MemberTeams(s: Db, teamId: int, uid: int): seq<Team> {
    Where(s.teams, (t: Team) => t.id == teamId && CreatorOrMember(s.memberships, t, uid))
  }

  /** The check of createTask: the team exists and the caller is its creator or a member. */
  predicate IsTeamCreatorOrMember(s: Db, teamId: int, uid: int) {
    MemberTeams(s, teamId, uid) != []
  }

  /** `SELECT * FROM tasks WHERE id = $1 AND (created_by = $2 OR assigned_to = $2)`;
      a NULL `assigned_to` matches nobody. */
  function EditableTasks(tasks: seq<Task>, id: int, uid: int): seq<Task> {
    Where(tasks, (t: Task) => t.id == id && (t.createdBy == uid || t.assignedTo == Some(uid)))
  }

  predicate IsTaskCreatorOrAssignee(tasks: seq<Task>, id: int, uid: int) {
    EditableTasks(tasks, id, uid) != []
  }

  /** `SELECT * FROM tasks WHERE id = $1 AND created_by = $2` */
  function OwnTasks(tasks: seq<Task>, id: int, uid: int): seq<Task> {
    Where(tasks, (t: Task) => t.id == id && t.createdBy == uid)
  }

  predicate IsTaskCreator(tasks: seq<Task>, id: int, uid: int) {
    OwnTasks(tasks, id, uid) != []
  }

  /** `SELECT * FROM tasks WHERE id = $1`, the rows `UPDATE ... RETURNING *` gives back. */
  function TasksById(tasks: seq<Task>, id: int): seq<Task> {
    Where(tasks, (t: Task) => t.id == id)
  }

  /** The row createTask inserts: `[title, description || '', team_id,
      assigned_to || null, due_date || null, status || 'pending', userId]`. */
  function NewTask(id: int, uid: int, title: string, teamId: int, body: TaskBody): Task {
    Task(id, title, TextOr(body.description, ""), teamId, IntOrNull(body.assignedTo),
         TextOrNull(body.dueDate), TextOr(body.status, "pending"), uid)
  }

  /** The SET list of updateTask: `COALESCE($n, column)` for title, description,
      assigned_to, due_date and status. */
  function Changed(t: Task, c: TaskChanges): Task {
    t.(title := Coalesce(c.title, t.title), description := Coalesce(c.description, t.description),
       assignedTo := CoalesceNullable(SqlInt(c.assignedTo), t.assignedTo),
       dueDate := CoalesceNullable(c.dueDate, t.dueDate), status := Coalesce(c.status, t.status))
  }

  /** `UPDATE tasks SET ... WHERE id = $6` */
  function UpdateTaskRows(tasks: seq<Task>, id: int, c: TaskChanges): seq<Task> {
    UpdateWhere(tasks, (t: Task) => t.id == id, (t: Task) => Changed(t, c))
  }

  /** `DELETE FROM tasks WHERE id = $1` */
  function DeleteTaskRows(tasks: seq<Task>, id: int): seq<Task> {
    Where(tasks, (t: Task) => t.id != id)
  }

  // ---------------------------------------------------------------------------
  // getTasks: the statement built at run time

  /** `tasks JOIN teams ON tasks.team_id = teams.id WHERE (teams.creator_id = $1
      OR teams.id IN (...))`: the task's team exists and the user is in it. */
  predicate TaskVisible(s: Db, t: Task, uid: int) {
    exists team :: team in s.teams && team.id == t.teamId && CreatorOrMember(s.memberships, team, uid)
  }

  /** What the optional filters ask for. */
  predicate MatchesFilter(t: Task, f: TaskFilter) {
    && (f.teamId.Some? ==> t.teamId == f.teamId.value)
    && (f.assignedTo.Some? ==> t.assignedTo == f.assignedTo)
  }

  /** The reference meaning of getTasks: visible tasks that match the filters, in storage order. */
  function GetTasksSpec(s: Db, uid: int, f: TaskFilter): Response<seq<Task>> {
    Success(200, Where(s.tasks, (t: Task) => TaskVisible(s, t, uid) && MatchesFilter(t, f)),
            "Tasks fetched successfully")
  }

  datatype Column = TeamIdColumn | AssignedToColumn

  /** One appended condition `AND tasks.<column> = $<placeholder>`. */
  datatype Clause = Equals(column: Column, placeholder: int)

  /** `baseQuery` after the appends, and `params`. The base condition uses `$1`. */
  datatype TasksQuery = TasksQuery(clauses: seq<Clause>, params: seq<int>)

  /** Placeholders are numbered `$2, $3, ...` in the order the clauses were
      appended, and each has its parameter. */
  predicate WellFormed(q: TasksQuery) {
    && |q.params| == |q.clauses| + 1
    && forall i :: 0 <= i < |q.clauses| ==> q.clauses[i].placeholder == i + 2
  }

  /** Whether a task satisfies one appended condition, `$n` standing for `params[n - 1]`. */
  predicate SatisfiesClause(t: Task, c: Clause, params: seq<int>) {
    && 1 <= c.placeholder <= |params|
    && match c.column
       case TeamIdColumn => t.teamId == params[c.placeholder - 1]
       case AssignedToColumn => t.assignedTo == Some(params[c.placeholder - 1])
  }

  predicate SatisfiesAll(t: Task, q: TasksQuery) {
    forall i :: 0 <= i < |q.clauses| ==> SatisfiesClause(t, q.clauses[i], q.params)
  }

  /** What the database returns for the built statement. */
  function RunTasksQuery(s: Db, q: TasksQuery): seq<Task>
    requires WellFormed(q)
  {
    Where(s.tasks, (t: Task) => TaskVisible(s, t, q.params[0]) && SatisfiesAll(t, q))
  }

  /** getTasks' string building: start with `params = [userId]`, `paramIndex = 2`,
      and append a condition for each truthy filter. */
  method BuildTasksQuery(uid: int, f: TaskFilter) returns (q: TasksQuery)
    ensures WellFormed(q) && q.params[0] == uid
    ensures |q.clauses| == (if f.teamId.Some? then 1 else 0) + (if f.assignedTo.Some? then 1 else 0)
    ensures forall t :: SatisfiesAll(t, q) <==> MatchesFilter(t, f)
  {
    var clauses: seq<Clause> := [];
    var params := [uid];
    var paramIndex := 2;
    if f.teamId.Some? {
      clauses := clauses + [Equals(TeamIdColumn, paramIndex)];
      params := params + [f.teamId.value];
      paramIndex := paramIndex + 1;
    }
    if f.assignedTo.Some? {
      clauses := clauses + [Equals(AssignedToColumn, paramIndex)];
      params := params + [f.assignedTo.value];
      paramIndex := paramIndex + 1;
    }
    q := TasksQuery(clauses, params);
    forall t ensures SatisfiesAll(t, q) <==> MatchesFilter(t, f) {
      if f.teamId.Some? && f.assignedTo.Some? {
        assert q == TasksQuery([Equals(TeamIdColumn, 2), Equals(AssignedToColumn, 3)],
                               [uid, f.teamId.value, f.assignedTo.value]);
        if SatisfiesAll(t, q) {
          assert SatisfiesClause(t, q.clauses[0], q.params) && SatisfiesClause(t, q.clauses[1], q.params);
        }
      } else if f.teamId.Some? {
        assert q == TasksQuery([Equals(TeamIdColumn, 2)], [uid, f.teamId.value]);
        if SatisfiesAll(t, q) {
          assert SatisfiesClause(t, q.clauses[0], q.params);
        }
      } else if f.assignedTo.Some? {
        assert q == TasksQuery([Equals(AssignedToColumn, 2)], [uid, f.assignedTo.value]);
        if SatisfiesAll(t, q) {
          assert SatisfiesClause(t, q.clauses[0], q.params);
        }
      }
    }
  }

  // ---------------------------------------------------------------------------
  // The handlers as functions of the tables

  function CreateTaskTry(s: Db, uid: int, title: string, teamId: int, body: TaskBody): Attempt<Task> {
    if !IsTeamCreatorOrMember(s, teamId, uid) then
      Threw(ApiError(403, "Not authorized to create task in this team"))
    else
      var task := NewTask(s.nextTaskId, uid, title, teamId, body);
      Completed(task, s.(tasks := s.tasks + [task], nextTaskId := s.nextTaskId + 1))
  }

  function CreateTaskSpec(s: Db, uid: int, body: TaskBody): Step<Task> {
    if !TruthyText(body.title) || !TruthyInt(body.teamId) then
      Step(Failure(400, "Title and team_id are required"), s)
    else
      Rethrow(CreateTaskTry(s, uid, body.title.value, body.teamId.value.n, body), s, 201,
              "Task created successfully", "Failed to create task")
  }

  /** updateTask's guard: every one of the five fields is falsy. */
  predicate AnyChange(c: TaskChanges) {
    TruthyText(c.title) || TruthyText(c.description) || TruthyInt(c.assignedTo)
    || TruthyText(c.dueDate) || TruthyText(c.status)
  }

  function UpdateTaskTry(s: Db, uid: int, id: int, c: TaskChanges): Attempt<Task> {
    if !IsTaskCreatorOrAssignee(s.tasks, id, uid) then
      Threw(ApiError(403, "Not authorized to update this task"))
    else
      var tasks := UpdateTaskRows(s.tasks, id, c);
      UpdatedTaskReturned(s.tasks, id, uid, c);
      Completed(TasksById(tasks, id)[0], s.(tasks := tasks))
  }

  function UpdateTaskSpec(s: Db, uid: int, id: int, c: TaskChanges): Step<Task> {
    if !AnyChange(c) then
      Step(Failure(400, "At least one field must be provided to update"), s)
    else
      Rethrow(UpdateTaskTry(s, uid, id, c), s, 200, "Task updated successfully", "Failed to update task")
  }

  function DeleteTaskTry(s: Db, uid: int, id: int): Attempt<()> {
    if !IsTaskCreator(s.tasks, id, uid) then
      Threw(ApiError(403, "Not authorized to delete this task"))
    else
      Completed((), s.(tasks := DeleteTaskRows(s.tasks, id)))
  }

  function DeleteTaskSpec(s: Db, uid: int, id: int): Step<()> {
    Rethrow(DeleteTaskTry(s, uid, id), s, 200, "Task deleted successfully", "Failed to delete task")
  }

  // ---------------------------------------------------------------------------
  // The handlers over the shared database

  method CreateTask(db: Database, caller: Profile, body: TaskBody) returns (r: Response<Task>)
    requires db.Valid()
    modifies db
    ensures db.Valid()
    ensures Step(r, db.State()) == CreateTaskSpec(old(db.State()), caller.id, body)
  {
    if !TruthyText(body.title) || !TruthyInt(body.teamId) {
      return Failure(400, "Title and team_id are required");
    }
    ghost var s := db.State();
    CreateTaskKeepsConsistent(s, caller.id, body);
    var thrown: Option<ApiError> := None;
    // try
    if MemberTeams(db.State(), body.teamId.value.n, caller.id) == [] {
      thrown := Some(ApiError(403, "Not authorized to create task in this team"));
    } else {
      var task := NewTask(db.nextTaskId, caller.id, body.title.value, body.teamId.value.n, body);
      ghost var after := s.(tasks := s.tasks + [task], nextTaskId := s.nextTaskId + 1);
      db.tasks := db.tasks + [task];
      db.nextTaskId := db.nextTaskId + 1;
      assert db.State() == after;
      r := Success(201, task, "Task created successfully");
      assert CreateTaskTry(s, caller.id, body.title.value, body.teamId.value.n, body) == Completed(task, after);
    }
    // catch
    if thrown.Some? {
      r := Failure(500, "Failed to create task");
      assert CreateTaskTry(s, caller.id, body.title.value, body.teamId.value.n, body).Threw?;
    }
  }

  method GetTasks(db: Database, caller: Profile, f: TaskFilter) returns (r: Response<seq<Task>>)
    ensures r == GetTasksSpec(db.State(), caller.id, f)
  {
    var s := db.State();
    var q := BuildTasksQuery(caller.id, f);
    var rows := RunTasksQuery(s, q);
    WhereSameFilter(s.tasks, (t: Task) => TaskVisible(s, t, q.params[0]) && SatisfiesAll(t, q),
                    (t: Task) => TaskVisible(s, t, caller.id) && MatchesFilter(t, f));
    r := Success(200, rows, "Tasks fetched successfully");
  }

  method UpdateTask(db: Database, caller: Profile, id: int, c: TaskChanges) returns (r: Response<Task>)
    requires db.Valid()
    modifies db
    ensures db.Valid()
    ensures Step(r, db.State()) == UpdateTaskSpec(old(db.State()), caller.id, id, c)
  {
    if !AnyChange(c) {
      return Failure(400, "At least one field must be provided to update");
    }
    ghost var s := db.State();
    UpdateTaskKeepsConsistent(s, caller.id, id, c);
    var thrown: Option<ApiError> := None;
    // try
    if EditableTasks(db.tasks, id, caller.id) == [] {
      thrown := Some(ApiError(403, "Not authorized to update this task"));
    } else {
      UpdatedTaskReturned(db.tasks, id, caller.id, c);
      ghost var after := s.(tasks := UpdateTaskRows(s.tasks, id, c));
      db.tasks := UpdateTaskRows(db.tasks, id, c);
      assert db.State() == after;
      r := Success(200, TasksById(db.tasks, id)[0], "Task updated successfully");
      assert UpdateTaskTry(s, caller.id, id, c) == Completed(r.data, after);
    }
    // catch
    if thrown.Some? {
      r := Failure(500, "Failed to update task");
      assert UpdateTaskTry(s, caller.id, id, c).Threw?;
    }
  }

  method DeleteTask(db: Database, caller: Profile, id: int) returns (r: Response<()>)
    requires db.Valid()
    modifies db
    ensures db.Valid()
    ensures Step(r, db.State()) == DeleteTaskSpec(old(db.State()), caller.id, id)
  {
    DeleteTaskKeepsConsistent(db.State(), caller.id, id);
    var thrown: Option<ApiError> := None;
    // try
    if OwnTasks(db.tasks, id, caller.id) == [] {
      thrown := Some(ApiError(403, "Not authorized to delete this task"));
    } else {
      db.tasks := DeleteTaskRows(db.tasks, id);
      r := Success(200, (), "Task deleted successfully");
    }
    // catch
    if thrown.Some? {
      r := Failure(500, "Failed to delete task");
    }
  }

  // ---------------------------------------------------------------------------
  // Properties

  /** The UPDATE rewrites the rows with the id by `Changed` and keeps every
      row's id, team and creator, so the primary key still holds. */
  lemma UpdateTaskRowsPointwise(tasks: seq<Task>, id: int, c: TaskChanges)
    ensures var u := UpdateTaskRows(tasks, id, c);
      && |u| == |tasks|
      && (forall i :: 0 <= i < |u| ==> u[i] == if tasks[i].id == id then Changed(tasks[i], c) else tasks[i])
      && (forall i :: 0 <= i < |u| ==>
            u[i].id == tasks[i].id && u[i].teamId == tasks[i].teamId && u[i].createdBy == tasks[i].createdBy)
      && (DistinctBy(tasks, TaskId) ==> DistinctBy(u, TaskId))
  {
    var u := UpdateTaskRows(tasks, id, c);
    forall i | 0 <= i < |u| ensures u[i] == if tasks[i].id == id then Changed(tasks[i], c) else tasks[i] {
    }
  }

  /** After the creator-or-assignee check passes, `RETURNING *` yields a row. */
  lemma UpdatedTaskReturned(tasks: seq<Task>, id: int, uid: int, c: TaskChanges)
    requires IsTaskCreatorOrAssignee(tasks, id, uid)
    ensures TasksById(UpdateTaskRows(tasks, id, c), id) != []
  {
    var found := EditableTasks(tasks, id, uid);
    assert found[0] in found;
    var i :| 0 <= i < |tasks| && tasks[i] == found[0];
    UpdateTaskRowsPointwise(tasks, id, c);
    var u := UpdateTaskRows(tasks, id, c);
    assert u[i] in TasksById(u, id);
  }

  lemma CreateTaskRejectsMissingField(s: Db, uid: int, body: TaskBody)
    requires !TruthyText(body.title) || !TruthyInt(body.teamId)
    ensures CreateTaskSpec(s, uid, body) == Step(Failure(400, "Title and team_id are required"), s)
  {
  }

  /** Outside the team (neither its creator nor a member, or no such team) no
      task is added, and the 403 surfaces as 500. */
  lemma CreateTaskNeedsMembership(s: Db, uid: int, body: TaskBody)
    requires TruthyText(body.title) && TruthyInt(body.teamId)
    requires !exists t :: t in s.teams && t.id == body.teamId.value.n && CreatorOrMember(s.memberships, t, uid)
    ensures CreateTaskSpec(s, uid, body) == Step(Failure(500, "Failed to create task"), s)
  {
  }

  /** A created task is one new row owned by the caller, with description `''`,
      no assignee, no due date and status `'pending'` where those were falsy. */
  lemma CreateTaskDefaults(s: Db, uid: int, body: TaskBody)
    requires Consistent(s)
    requires TruthyText(body.title) && TruthyInt(body.teamId)
    requires exists t :: t in s.teams && t.id == body.teamId.value.n && CreatorOrMember(s.memberships, t, uid)
    ensures var r := CreateTaskSpec(s, uid, body);
      && r.response.Success? && r.response.status == 201
      && var t := r.response.data;
      && t.title == body.title.value && t.teamId == body.teamId.value.n && t.createdBy == uid
      && t.description == (if TruthyText(body.description) then body.description.value else "")
      && t.assignedTo == (if TruthyInt(body.assignedTo) then Some(body.assignedTo.value.n) else None)
      && t.dueDate == (if TruthyText(body.dueDate) then body.dueDate else None)
      && t.status == (if TruthyText(body.status) then body.status.value else "pending")
      && (forall u :: u in s.tasks ==> u.id != t.id)
      && r.db.tasks == s.tasks + [t]
      && r.db.users == s.users && r.db.teams == s.teams && r.db.memberships == s.memberships
  {
  }

  /** getTasks lists a task exactly when its team exists with the caller as
      creator or member, narrowed by each filter that was given. */
  lemma GetTasksExact(s: Db, uid: int, f: TaskFilter, t: Task)
    ensures GetTasksSpec(s, uid, f).Success?
    ensures t in GetTasksSpec(s, uid, f).data <==>
      && t in s.tasks
      && (exists team :: team in s.teams && team.id == t.teamId && CreatorOrMember(s.memberships, team, uid))
      && (f.teamId.Some? ==> t.teamId == f.teamId.value)
      && (f.assignedTo.Some? ==> t.assignedTo == f.assignedTo)
  {
  }

  /** A listed task appears exactly once under the primary key: the JOIN matches
      it with its one team, and the membership test is an `IN`, not a join. */
  lemma GetTasksListsEachOnce(s: Db, uid: int, f: TaskFilter, t: Task)
    requires DistinctBy(s.tasks, TaskId)
    requires t in GetTasksSpec(s, uid, f).data
    ensures multiset(GetTasksSpec(s, uid, f).data)[t] == 1
  {
    WhereCounts(s.tasks, (x: Task) => TaskVisible(s, x, uid) && MatchesFilter(x, f));
    DistinctStoredOnce(s.tasks, TaskId, t);
  }

  /** With all five fields falsy the update is refused before the tables are looked at. */
  lemma UpdateTaskNeedsAField(s: Db, s': Db, uid: int, id: int, c: TaskChanges)
    requires !AnyChange(c)
    ensures UpdateTaskSpec(s, uid, id, c).response == UpdateTaskSpec(s', uid, id, c).response
    ensures UpdateTaskSpec(s, uid, id, c) == Step(Failure(400, "At least one field must be provided to update"), s)
  {
  }

  /** Someone who neither created the task nor is assigned to it changes nothing. */
  lemma OnlyCreatorOrAssigneeUpdates(s: Db, uid: int, id: int, c: TaskChanges)
    requires AnyChange(c)
    requires !exists t :: t in s.tasks && t.id == id && (t.createdBy == uid || t.assignedTo == Some(uid))
    ensures UpdateTaskSpec(s, uid, id, c) == Step(Failure(500, "Failed to update task"), s)
  {
  }

  /** A successful update coalesces the five fields of the task, returns that
      row, and never moves a task to another team or creator. */
  lemma UpdateTaskCoalesces(s: Db, uid: int, id: int, c: TaskChanges, prior: Task)
    requires DistinctBy(s.tasks, TaskId)
    requires AnyChange(c)
    requires prior in s.tasks && prior.id == id && (prior.createdBy == uid || prior.assignedTo == Some(uid))
    ensures var r := UpdateTaskSpec(s, uid, id, c);
      && r.response == Success(200, Changed(prior, c), "Task updated successfully")
      && |r.db.tasks| == |s.tasks|
      && (forall i :: 0 <= i < |s.tasks| ==>
            r.db.tasks[i] == if s.tasks[i].id == id then Changed(s.tasks[i], c) else s.tasks[i])
      && (forall i :: 0 <= i < |s.tasks| ==>
            r.db.tasks[i].teamId == s.tasks[i].teamId && r.db.tasks[i].createdBy == s.tasks[i].createdBy)
      && r.db.users == s.users && r.db.teams == s.teams && r.db.memberships == s.memberships
  {
    var u := UpdateTaskRows(s.tasks, id, c);
    assert prior in EditableTasks(s.tasks, id, uid);
    UpdateTaskRowsPointwise(s.tasks, id, c);
    UpdatedRowIsReturned(s.tasks, id, c, prior);
    assert UpdateTaskTry(s, uid, id, c) == Completed(Changed(prior, c), s.(tasks := u));
  }

  /** With unique ids, the row `RETURNING *` yields is the one updated from `prior`. */
  lemma UpdatedRowIsReturned(tasks: seq<Task>, id: int, c: TaskChanges, prior: Task)
    requires DistinctBy(tasks, TaskId)
    requires prior in tasks && prior.id == id
    ensures TasksById(UpdateTaskRows(tasks, id, c), id) != []
    ensures TasksById(UpdateTaskRows(tasks, id, c), id)[0] == Changed(prior, c)
  {
    var u := UpdateTaskRows(tasks, id, c);
    UpdateTaskRowsPointwise(tasks, id, c);
    var i :| 0 <= i < |tasks| && tasks[i] == prior;
    assert u[i] == Changed(prior, c);
    assert u[i] in TasksById(u, id);
    var returned := TasksById(u, id)[0];
    assert returned in TasksById(u, id);
    DistinctRowsAgree(u, TaskId, returned, u[i]);
  }

  /** Only the creator deletes: an assignee who did not create the task gets a 500 and the task stays. */
  lemma OnlyCreatorDeletesTask(s: Db, uid: int, id: int)
    requires !exists t :: t in s.tasks && t.id == id && t.createdBy == uid
    ensures DeleteTaskSpec(s, uid, id) == Step(Failure(500, "Failed to delete task"), s)
  {
  }

  /** The creator's delete removes exactly the task's row, whoever it is assigned to. */
  lemma DeleteTaskRemovesRow(s: Db, uid: int, id: int, prior: Task)
    requires prior in s.tasks && prior.id == id && prior.createdBy == uid
    ensures var r := DeleteTaskSpec(s, uid, id);
      && r.response == Success(200, (), "Task deleted successfully")
      && (forall t :: t in r.db.tasks <==> t in s.tasks && t.id != id)
      && r.db.users == s.users && r.db.teams == s.teams && r.db.memberships == s.memberships
  {
    assert prior in OwnTasks(s.tasks, id, uid);
  }

  /** Every failure inside a task handler's try, the 403 included, reaches the client as 500. */
  lemma TaskRepliesNeverForbidden(s: Db, uid: int, id: int, body: TaskBody, c: TaskChanges)
    ensures CreateTaskSpec(s, uid, body).response.Status() in {201, 400, 500}
    ensures UpdateTaskSpec(s, uid, id, c).response.Status() in {200, 400, 500}
    ensures DeleteTaskSpec(s, uid, id).response.Status() in {200, 500}
  {
  }

  /** Deleting a team does not cascade: its tasks stay in the table, but the
      JOIN in getTasks no longer finds their team, so nobody lists them. */
  lemma DeletedTeamTasksUnlisted(s: Db, uid: int, teamId: int, viewer: int, f: TaskFilter)
    requires Consistent(s)
    requires IsTeamCreator(s.teams, teamId, uid)
    ensures var after := DeleteTeamSpec(s, uid, teamId).db;
      && after.tasks == s.tasks
      && forall t :: t in GetTasksSpec(after, viewer, f).data ==> t.teamId != teamId
  {
    var after := DeleteTeamSpec(s, uid, teamId).db;
    DeleteTeamRemovesOnlyTeamRow(s, uid, teamId);
    forall t | t in GetTasksSpec(after, viewer, f).data ensures t.teamId != teamId {
      assert TaskVisible(after, t, viewer);
    }
  }

  // ---------------------------------------------------------------------------
  // The database's integrity is kept

  lemma CreateTaskKeepsConsistent(s: Db, uid: int, body: TaskBody)
    requires Consistent(s)
    ensures Consistent(CreateTaskSpec(s, uid, body).db)
  {
    if TruthyText(body.title) && TruthyInt(body.teamId) {
      var task := NewTask(s.nextTaskId, uid, body.title.value, body.teamId.value.n, body);
      AppendKeepsDistinct(s.tasks, task, TaskId);
    }
  }

  lemma UpdateTaskKeepsConsistent(s: Db, uid: int, id: int, c: TaskChanges)
    requires Consistent(s)
    ensures Consistent(UpdateTaskSpec(s, uid, id, c).db)
  {
    var tasks := UpdateTaskRows(s.tasks, id, c);
    UpdateTaskRowsPointwise(s.tasks, id, c);
    forall t | t in tasks ensures t.id < s.nextTaskId {
      var i :| 0 <= i < |tasks| && tasks[i] == t;
      assert s.tasks[i] in s.tasks;
    }
  }

  lemma DeleteTaskKeepsConsistent(s: Db, uid: int, id: int)
    requires Consistent(s)
    ensures Consistent(DeleteTaskSpec(s, uid, id).db)
  {
    WhereKeepsDistinct(s.tasks, (t: Task) => t.id != id, TaskId);
  }
}

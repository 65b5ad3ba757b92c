/** The middleware chains of the route files under backend/src/routes for the routes that put a
    gate or a rule list in front of their handler: the gate answers first, then
    the rule list, and only then does the handler run. */
module Routes {
  import opened Js
  import opened Http
  import opened Store
  import opened Auth
  import opened Teams
  import opened Tasks
  import opened Users
  import opened Validation

  // ---------------------------------------------------------------------------
  // The chains as functions of the tables and the session

  /** `POST /register`: validateUserRegistration, registerUser. */
  function RegisterRoute(s: Db, c: Checks, b: RegisterBody, salt: nat): Step<Profile> {
    match ValidateUserRegistration(c, b)
    case Reject(errors) => Step(Invalid(errors), s)
    case Accept(clean) => RegisterSpec(s, clean, salt)
  }

  /** `POST /login`: validateUserLogin, userLogin. */
  function LoginRoute(s: Db, c: Checks, b: LoginBody): Response<Profile> {
    match ValidateUserLogin(c, b)
    case Reject(errors) => Invalid(errors)
    case Accept(clean) => LoginSpec(s, clean)
  }

  /** `GET /get-all-users`: isAdmin, getAllUsers. */
  function GetAllUsersRoute(s: Db, session: Option<Profile>): Response<seq<Profile>> {
    match AdminGate(session)
    case Halt(status, message) => Failure(status, message)
    case Next => GetAllUsersSpec(s, session.value)
  }

  /** `POST /teams`: isAuthenticated, validateTeamCreation, createTeam. */
  function CreateTeamRoute(s: Db, session: Option<Profile>, b: TeamBody): Step<Team> {
    match AuthenticatedGate(session)
    case Halt(status, message) => Step(Failure(status, message), s)
    case Next =>
      match ValidateTeamCreation(b)
      case Reject(errors) => Step(Invalid(errors), s)
      case Accept(clean) => CreateTeamSpec(s, session.value.id, clean)
  }

  /** `POST /teams/:id/members`: isAuthenticated, validateAddMember, addMemberToTeam. */
  function AddMemberRoute(s: Db, session: Option<Profile>, q: AddMemberRequest): Step<()> {
    match AuthenticatedGate(session)
    case Halt(status, message) => Step(Failure(status, message), s)
    case Next =>
      match ValidateAddMember(q)
      case Reject(errors) => Step(Invalid(errors), s)
      case Accept((id, body)) => AddMemberSpec(s, session.value.id, id, body)
  }

  /** `POST /tasks`: isAuthenticated, validateTaskCreation, createTask. */
  function CreateTaskRoute(s: Db, session: Option<Profile>, c: Checks, b: TaskRequest): Step<Task> {
    match AuthenticatedGate(session)
    case Halt(status, message) => Step(Failure(status, message), s)
    case Next =>
      match ValidateTaskCreation(c, b)
      case Reject(errors) => Step(Invalid(errors), s)
      case Accept(clean) => CreateTaskSpec(s, session.value.id, clean)
  }

  /** `PUT /tasks/updat-tasks/:id`: isAuthenticated, validateTaskUpdate, updateTask. */
  function UpdateTaskRoute(s: Db, session: Option<Profile>, c: Checks, q: TaskUpdateRequest): Step<Task> {
    match AuthenticatedGate(session)
    case Halt(status, message) => Step(Failure(status, message), s)
    case Next =>
      match ValidateTaskUpdate(c, q)
      case Reject(errors) => Step(Invalid(errors), s)
      case Accept((id, changes)) => UpdateTaskSpec(s, session.value.id, id, changes)
  }

  // ---------------------------------------------------------------------------
  // The chains over the request and the shared database

  method Register(db: Database, c: Checks, b: RegisterBody, salt: nat) returns (r: Response<Profile>)
    requires db.Valid()
    modifies db
    ensures db.Valid()
    ensures Step(r, db.State()) == RegisterRoute(old(db.State()), c, b, salt)
  {
    var v := ValidateUserRegistration(c, b);
    if v.Reject? {
      return Invalid(v.errors);
    }
    r := RegisterUser(db, v.value, salt);
  }

  method Login(db: Database, req: Request, c: Checks, b: LoginBody) returns (r: Response<Profile>)
    modifies req`session
    ensures r == LoginRoute(db.State(), c, b)
    ensures r.Success? ==> req.session == Some(r.data)
    ensures !r.Success? ==> req.session == old(req.session)
  {
    var v := ValidateUserLogin(c, b);
    if v.Reject? {
      return Invalid(v.errors);
    }
    r := UserLogin(db, req, v.value);
  }

  method ListUsers(db: Database, req: Request) returns (r: Response<seq<Profile>>)
    modifies req`user
    ensures r == GetAllUsersRoute(db.State(), req.session)
  {
    var g := IsAdmin(req);
    if g.Halt? {
      return Failure(g.status, g.message);
    }
    r := GetAllUsers(db, req.user.value);
  }

  method PostTeam(db: Database, req: Request, b: TeamBody) returns (r: Response<Team>)
    requires db.Valid()
    modifies db, req`user
    ensures db.Valid()
    ensures Step(r, db.State()) == CreateTeamRoute(old(db.State()), req.session, b)
  {
    var g := IsAuthenticated(req);
    if g.Halt? {
      return Failure(g.status, g.message);
    }
    var v := ValidateTeamCreation(b);
    if v.Reject? {
      return Invalid(v.errors);
    }
    r := CreateTeam(db, req.user.value, v.value);
  }

  method PostMember(db: Database, req: Request, q: AddMemberRequest) returns (r: Response<()>)
    requires db.Valid()
    modifies db, req`user
    ensures db.Valid()
    ensures Step(r, db.State()) == AddMemberRoute(old(db.State()), req.session, q)
  {
    var g := IsAuthenticated(req);
    if g.Halt? {
      return Failure(g.status, g.message);
    }
    var v := ValidateAddMember(q);
    if v.Reject? {
      return Invalid(v.errors);
    }
    r := AddMemberToTeam(db, req.user.value, v.value.0, v.value.1);
  }

  method PostTask(db: Database, req: Request, c: Checks, b: TaskRequest) returns (r: Response<Task>)
    requires db.Valid()
    modifies db, req`user
    ensures db.Valid()
    ensures Step(r, db.State()) == CreateTaskRoute(old(db.State()), req.session, c, b)
  {
    var g := IsAuthenticated(req);
    if g.Halt? {
      return Failure(g.status, g.message);
    }
    var v := ValidateTaskCreation(c, b);
    if v.Reject? {
      return Invalid(v.errors);
    }
    r := CreateTask(db, req.user.value, v.value);
  }

  method PutTask(db: Database, req: Request, c: Checks, q: TaskUpdateRequest) returns (r: Response<Task>)
    requires db.Valid()
    modifies db, req`user
    ensures db.Valid()
    ensures Step(r, db.State()) == UpdateTaskRoute(old(db.State()), req.session, c, q)
  {
    var g := IsAuthenticated(req);
    if g.Halt? {
      return Failure(g.status, g.message);
    }
    var v := ValidateTaskUpdate(c, q);
    if v.Reject? {
      return Invalid(v.errors);
    }
    r := UpdateTask(db, req.user.value, v.value.0, v.value.1);
  }

  // ---------------------------------------------------------------------------
  // Properties of the chains

  /** Without a session user none of the guarded team and task routes reaches
      its handler: the reply is 401 and the tables stay as they were. */
  lemma NoSessionNoChange(s: Db, c: Checks, tb: TeamBody, mq: AddMemberRequest, b: TaskRequest, q: TaskUpdateRequest)
    ensures CreateTeamRoute(s, None, tb) == Step(Failure(401, "Unauthorized"), s)
    ensures AddMemberRoute(s, None, mq) == Step(Failure(401, "Unauthorized"), s)
    ensures CreateTaskRoute(s, None, c, b) == Step(Failure(401, "Unauthorized"), s)
    ensures UpdateTaskRoute(s, None, c, q) == Step(Failure(401, "Unauthorized"), s)
  {
  }

  /** A rule failure answers 400 with the error list, and the handler is not reached. */
  lemma RegisterRuleFailureStops(s: Db, c: Checks, b: RegisterBody, salt: nat)
    requires RegistrationErrors(c, b) != []
    ensures RegisterRoute(s, c, b, salt) == Step(Invalid(RegistrationErrors(c, b)), s)
  {
  }

  lemma TeamRuleFailureStops(s: Db, user: Profile, b: TeamBody)
    requires !TrimmedNotEmpty(b.name)
    ensures CreateTeamRoute(s, Some(user), b) == Step(Invalid([TeamNameRequired]), s)
  {
  }

  lemma TaskRuleFailureStops(s: Db, user: Profile, c: Checks, b: TaskRequest, q: TaskUpdateRequest)
    requires TaskCreationErrors(c, b) != [] && TaskUpdateErrors(c, q) != []
    ensures CreateTaskRoute(s, Some(user), c, b) == Step(Invalid(TaskCreationErrors(c, b)), s)
    ensures UpdateTaskRoute(s, Some(user), c, q) == Step(Invalid(TaskUpdateErrors(c, q)), s)
  {
  }

  /** The description is optional to the rule list but the handler requires it
      truthy after trimming: a whitespace-only description with a good name is
      refused by createTeam with 400 and nothing is inserted. */
  lemma BlankDescriptionRefused(s: Db, user: Profile, name: string, description: string)
    requires !WhitespaceOnly(name) && WhitespaceOnly(description)
    ensures CreateTeamRoute(s, Some(user), TeamBody(Some(name), Some(description)))
         == Step(Failure(400, "Name and description are required"), s)
  {
    assert Trim(description) == "";
  }

  /** A team created through the route stores the trimmed name and description. */
  lemma CreatedTeamIsTrimmed(s: Db, user: Profile, name: string, description: string)
    requires !WhitespaceOnly(name) && !WhitespaceOnly(description)
    ensures var r := CreateTeamRoute(s, Some(user), TeamBody(Some(name), Some(description)));
      && r.response.Success? && r.response.status == 201
      && r.response.data.name == Trim(name) && r.response.data.description == Trim(description)
      && r.response.data.creatorId == user.id
      && r.db == s.(teams := s.teams + [r.response.data], nextTeamId := s.nextTeamId + 1)
      && r.response.data.id == s.nextTeamId
  {
    assert Trim(name) != "" && Trim(description) != "";
  }

  /** `team_id` 0 passes `isInt()` in either form, and the handler sees the value
      as sent: the JSON number 0 is falsy, so createTask refuses it with 400; the
      text `"0"` is truthy, so the member check runs, finds no team 0 and its 403
      reaches the client as 500. Nothing is inserted either way. */
  lemma ZeroTeamIdPassesRulesFailsHandler(s: Db, user: Profile, c: Checks, b: TaskRequest)
    requires b.teamId.Some? && b.teamId.value.Integer? && b.teamId.value.value.n == 0
    requires TaskCreationErrors(c, b) == []
    requires forall t :: t in s.teams ==> t.id != 0
    ensures b.teamId.value.value.IntNumber? ==>
      CreateTaskRoute(s, Some(user), c, b) == Step(Failure(400, "Title and team_id are required"), s)
    ensures b.teamId.value.value.IntText? ==>
      CreateTaskRoute(s, Some(user), c, b) == Step(Failure(500, "Failed to create task"), s)
  {
  }

  /** The same for `userIdToAdd`: the number 0 gets 400 from addMemberToTeam,
      the text `"0"` gets past that test and ends in 500, whoever asks. */
  lemma ZeroUserIdToAddByKind(s: Db, user: Profile, id: IntValue, target: IntValue)
    requires target.n == 0
    requires forall u :: u in s.users ==> u.id != 0
    ensures var r := AddMemberRoute(s, Some(user), AddMemberRequest(Integer(id), Some(Integer(target))));
      && r.db == s
      && (target.IntNumber? ==> r.response == Failure(400, "User ID to add is required"))
      && (target.IntText? ==> r.response == Failure(500, "Failed to add member to team"))
  {
    if target.IntText? {
      assert UsersById(s.users, 0) == [];
    }
  }

  /** An update whose only field is `assigned_to` 0: as a number it is falsy and
      updateTask answers 400; as text it is truthy, and the reply and the tables
      are those of the `try` block, the creator-or-assignee check first. */
  lemma ZeroAssigneeByKind(s: Db, user: Profile, c: Checks, id: IntValue, assignee: IntValue)
    requires assignee.n == 0
    ensures var q := TaskUpdateRequest(Integer(id), None, None, Some(Integer(assignee)), None, None);
      var r := UpdateTaskRoute(s, Some(user), c, q);
      && ((r.response == Failure(400, "At least one field must be provided to update")) <==> assignee.IntNumber?)
      && (assignee.IntText? ==>
            r == Rethrow(UpdateTaskTry(s, user.id, id.n, SanitizedChanges(q)), s, 200,
                         "Task updated successfully", "Failed to update task"))
  {
  }

  /** Through its route getAllUsers' own 403 is never the one that answers: the
      isAdmin gate already refused every non-admin, and an admin gets the list. */
  lemma GetAllUsersOnlyGateRefuses(s: Db, session: Option<Profile>)
    ensures GetAllUsersRoute(s, session).Success? <==> session.Some? && session.value.role == "admin"
    ensures !GetAllUsersRoute(s, session).Success? ==>
      GetAllUsersRoute(s, session) == Failure(403, "Forbidden: Admins only")
    ensures GetAllUsersRoute(s, session).Success? ==>
      GetAllUsersRoute(s, session).data == Profiles(s.users)
  {
  }

  /** Registration stores the trimmed username and names (the email and the
      password are not trimmed), replies with that row's profile, and a login
      with the same email and password then answers with that same profile. */
  lemma RegisteredNameIsTrimmed(s: Db, c: Checks, b: RegisterBody, salt: nat)
    requires Consistent(s)
    requires RegisterRoute(s, c, b, salt).response.Success?
    ensures var r := RegisterRoute(s, c, b, salt);
      && |r.db.users| == |s.users| + 1 && r.db.users[..|s.users|] == s.users
      && var row := r.db.users[|s.users|];
      && row.username == Trim(b.username.value) && row.email == b.email.value
      && row.firstName == Trim(b.firstName.value) && row.lastName == Trim(b.lastName.value)
      && row.role == "user"
      && r.response.data == ProfileOf(row)
      && LoginSpec(r.db, LoginBody(b.email, b.password)) == Success(200, r.response.data, "Login successful")
  {
    var v := ValidateUserRegistration(c, b);
    assert v.Accept?;
    var clean := v.value;
    assert RegisterRoute(s, c, b, salt) == RegisterSpec(s, clean, salt);
    assert !AnyBlank(clean) && UsersClashing(s.users, clean.username.value, clean.email.value) == [];
    RegisterCreatesUser(s, clean, salt);
    RegisterThenLogin(s, clean, salt);
  }

  /** A whitespace-only title passes updateTask's rule list (every field is
      optional there) and trims to `''`; `''` is falsy, so the request needs some
      other truthy field, and then the COALESCE writes `''` as the title, in the
      reply and in the table, for the creator and the assignee alike. */
  lemma BlankTitleWrittenOnUpdate(s: Db, user: Profile, c: Checks, q: TaskUpdateRequest, prior: Task)
    requires Consistent(s)
    requires TaskUpdateErrors(c, q) == []
    requires q.title.Some? && WhitespaceOnly(q.title.value)
    requires AnyChange(SanitizedChanges(q))
    requires prior in s.tasks && prior.id == q.id.value.n
    requires prior.createdBy == user.id || prior.assignedTo == Some(user.id)
    ensures var r := UpdateTaskRoute(s, Some(user), c, q);
      && r.response == Success(200, Changed(prior, SanitizedChanges(q)), "Task updated successfully")
      && r.response.data.title == ""
      && |r.db.tasks| == |s.tasks|
      && forall i :: 0 <= i < |s.tasks| && s.tasks[i].id == prior.id ==> r.db.tasks[i].title == ""
  {
    var changes := SanitizedChanges(q);
    assert changes.title == Some("");
    UpdateTaskCoalesces(s, user.id, q.id.value.n, changes, prior);
  }
}

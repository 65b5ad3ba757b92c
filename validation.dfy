/** backend/src/middlewares/validation.js: the express-validator rule lists.
    Each list checks its fields in order, the `trim()` sanitizers rewrite the
    body, and the terminal middleware answers 400 with every failed rule's
    message, or lets the request through to the handler with the rewritten body. */
module Validation {
  import opened Js
  import opened Http
  import opened Teams
  import opened Tasks
  import opened Users

  /** The validator.js predicates the rules use, supplied from outside:
      `isEmail` and `isISO8601` are given as functions on the text. */
  datatype Checks = Checks(isEmail: string -> bool, isISO8601: string -> bool)

  /** A request value as `isInt()` sees it: one it accepts, kept as it was sent
      (integer text or a JSON number), or anything else. */
  datatype Numeric = Integer(value: IntValue) | NotInteger

  predicate IsInt(n: Numeric) {
    n.Integer?
  }

  /** Whether the request goes on to the handler, with its sanitized fields,
      or is answered with the error list. */
  datatype Validated<T> = Accept(value: T) | Reject(errors: seq<FieldError>)

  /** One rule of a chain: no error when it holds, its `withMessage` error otherwise. */
  function Rule(holds: bool, error: FieldError): (r: seq<FieldError>)
    ensures r == [] <==> holds
    ensures !holds ==> r == [error]
  {
    if holds then [] else [error]
  }

  /** The `withMessage` texts of the rules, each on the field (the body key or
      path parameter) it checks. */
  const UsernameRequired := FieldError("username", "Username is required")
  const EmailInvalid := FieldError("email", "Valid email is required")
  const PasswordTooShort := FieldError("password", "Password must be at least 6 characters")
  const FirstNameRequired := FieldError("first_name", "First name is required")
  const LastNameRequired := FieldError("last_name", "Last name is required")
  const PasswordRequired := FieldError("password", "Password is required")
  const TeamNameRequired := FieldError("name", "Team name is required")
  const TeamIdNotInt := FieldError("id", "Team ID must be an integer")
  const UserIdToAddNotInt := FieldError("userIdToAdd", "User ID to add must be an integer")
  const TitleRequired := FieldError("title", "Task title is required")
  const TaskTeamIdNotInt := FieldError("team_id", "Team ID must be an integer")
  const AssigneeNotInt := FieldError("assigned_to", "Assigned to must be an integer")
  const DueDateInvalid := FieldError("due_date", "Due date must be a valid date")
  const StatusInvalid := FieldError("status", "Invalid status")
  const TaskIdNotInt := FieldError("id", "Task ID must be an integer")

  /** The terminal middleware of every list: `if (!errors.isEmpty())` answer 400 with the list. */
  function Conclude<T>(errors: seq<FieldError>, sanitized: T): (v: Validated<T>)
    ensures v.Accept? <==> errors == []
    ensures v.Accept? ==> v.value == sanitized
    ensures v.Reject? ==> v.errors == errors
  {
    if errors == [] then Accept(sanitized) else Reject(errors)
  }

  /** `trim().notEmpty()`: an absent field sanitizes to `''`, which is empty,
      and by `Trim`'s contract present text trims to `''` exactly when it is
      whitespace only. */
  predicate TrimmedNotEmpty(field: Option<string>) {
    field.Some? && !WhitespaceOnly(field.value)
  }

  /** `notEmpty()` without a trim. */
  predicate NotEmpty(field: Option<string>) {
    field.Some? && field.value != ""
  }

  /** `isEmail()`: an absent field is checked as `''`, which is no email. */
  predicate Email(c: Checks, field: Option<string>) {
    field.Some? && c.isEmail(field.value)
  }

  /** `optional().trim()`: present text is trimmed, absent stays absent. */
  function TrimOptional(field: Option<string>): (r: Option<string>)
    ensures r.Some? <==> field.Some?
    ensures r.Some? ==> |r.value| <= |field.value| && (r.value == "" <==> WhitespaceOnly(field.value))
  {
    if field.Some? then Some(Trim(field.value)) else None
  }

  /** An `optional().isInt()` field as the handler gets it: unchanged, since `isInt()` does not convert. */
  function IntOptional(field: Option<Numeric>): Option<IntValue> {
    if field.Some? && field.value.Integer? then Some(field.value.value) else None
  }

  /** The length `isLength` measures: code points, not counting the
      presentation selectors U+FE0E and U+FE0F. */
  function CharCount(s: string): (n: nat)
    ensures n <= |s|
    ensures (forall i :: 0 <= i < |s| ==> s[i] != '\U{FE0E}' && s[i] != '\U{FE0F}') ==> n == |s|
  {
    if s == [] then 0
    else (if s[0] == '\U{FE0E}' || s[0] == '\U{FE0F}' then 0 else 1) + CharCount(s[1..])
  }

  /** `isLength({ min: 6 })`; an absent password is checked as `''`. */
  predicate LongEnough(field: Option<string>) {
    field.Some? && CharCount(field.value) >= 6
  }

  const Statuses: seq<string> := ["pending", "in_progress", "completed"]

  /** `optional().isIn(['pending', 'in_progress', 'completed'])` */
  predicate StatusAllowed(field: Option<string>) {
    field.None? || field.value in Statuses
  }

  /** `optional().isISO8601()` */
  predicate DateAllowed(c: Checks, field: Option<string>) {
    field.None? || c.isISO8601(field.value)
  }

  /** `optional().isInt()` */
  predicate IntAllowed(field: Option<Numeric>) {
    field.None? || IsInt(field.value)
  }

  // ---------------------------------------------------------------------------
  // validateUserRegistration

  function RegistrationErrors(c: Checks, b: RegisterBody): (r: seq<FieldError>)
    ensures r == [] <==> TrimmedNotEmpty(b.username) && Email(c, b.email) && LongEnough(b.password)
                          && TrimmedNotEmpty(b.firstName) && TrimmedNotEmpty(b.lastName)
    ensures PasswordTooShort in r <==> !LongEnough(b.password)
    ensures UsernameRequired in r <==> !TrimmedNotEmpty(b.username)
    ensures FirstNameRequired in r <==> !TrimmedNotEmpty(b.firstName)
    ensures LastNameRequired in r <==> !TrimmedNotEmpty(b.lastName)
    ensures EmailInvalid in r <==> !Email(c, b.email)
  {
    Rule(TrimmedNotEmpty(b.username), UsernameRequired)
    + Rule(Email(c, b.email), EmailInvalid)
    + Rule(LongEnough(b.password), PasswordTooShort)
    + Rule(TrimmedNotEmpty(b.firstName), FirstNameRequired)
    + Rule(TrimmedNotEmpty(b.lastName), LastNameRequired)
  }

  /** Username, first and last name come out trimmed; email and password as sent. */
  function ValidateUserRegistration(c: Checks, b: RegisterBody): (v: Validated<RegisterBody>)
    ensures v.Reject? <==> RegistrationErrors(c, b) != []
    ensures v.Accept? ==> v.value == b.(username := TrimOptional(b.username),
                                        firstName := TrimOptional(b.firstName),
                                        lastName := TrimOptional(b.lastName))
  {
    Conclude(RegistrationErrors(c, b),
             b.(username := TrimOptional(b.username), firstName := TrimOptional(b.firstName),
                lastName := TrimOptional(b.lastName)))
  }

  // ---------------------------------------------------------------------------
  // validateUserLogin

  function LoginErrors(c: Checks, b: LoginBody): (r: seq<FieldError>)
    ensures r == [] <==> Email(c, b.email) && NotEmpty(b.password)
    ensures EmailInvalid in r <==> !Email(c, b.email)
    ensures PasswordRequired in r <==> !NotEmpty(b.password)
  {
    Rule(Email(c, b.email), EmailInvalid)
    + Rule(NotEmpty(b.password), PasswordRequired)
  }

  function ValidateUserLogin(c: Checks, b: LoginBody): (v: Validated<LoginBody>)
    ensures v.Reject? <==> LoginErrors(c, b) != []
    ensures v.Accept? ==> v.value == b
  {
    Conclude(LoginErrors(c, b), b)
  }

  // ---------------------------------------------------------------------------
  // validateTeamCreation

  function TeamCreationErrors(b: TeamBody): (r: seq<FieldError>)
    ensures r == [] <==> TrimmedNotEmpty(b.name)
    ensures r != [] ==> r == [TeamNameRequired]
  {
    Rule(TrimmedNotEmpty(b.name), TeamNameRequired)
  }

  /** The name is required; the description is optional here and only trimmed. */
  function ValidateTeamCreation(b: TeamBody): (v: Validated<TeamBody>)
    ensures v.Accept? <==> TrimmedNotEmpty(b.name)
    ensures v.Accept? ==> v.value == TeamBody(TrimOptional(b.name), TrimOptional(b.description))
  {
    Conclude(TeamCreationErrors(b), TeamBody(TrimOptional(b.name), TrimOptional(b.description)))
  }

  // ---------------------------------------------------------------------------
  // validateAddMember

  /** `POST /teams/:id/members` before validation: the path id and the body. */
  datatype AddMemberRequest = AddMemberRequest(id: Numeric, userIdToAdd: Option<Numeric>)

  function AddMemberErrors(q: AddMemberRequest): (r: seq<FieldError>)
    ensures r == [] <==> IsInt(q.id) && q.userIdToAdd.Some? && IsInt(q.userIdToAdd.value)
    ensures TeamIdNotInt in r <==> !IsInt(q.id)
    ensures UserIdToAddNotInt in r <==>
      !(q.userIdToAdd.Some? && IsInt(q.userIdToAdd.value))
  {
    Rule(IsInt(q.id), TeamIdNotInt)
    + Rule(q.userIdToAdd.Some? && IsInt(q.userIdToAdd.value), UserIdToAddNotInt)
  }

  /** On acceptance the handler gets the team id and a present `userIdToAdd`. */
  function ValidateAddMember(q: AddMemberRequest): (v: Validated<(int, MemberBody)>)
    ensures v.Accept? <==> q.id.Integer? && q.userIdToAdd.Some? && q.userIdToAdd.value.Integer?
    ensures v.Accept? ==> v.value == (q.id.value.n, MemberBody(Some(q.userIdToAdd.value.value)))
  {
    var errors := AddMemberErrors(q);
    if errors == [] then Accept((q.id.value.n, MemberBody(Some(q.userIdToAdd.value.value))))
    else Reject(errors)
  }

  // ---------------------------------------------------------------------------
  // validateTaskCreation

  /** `req.body` of `POST /tasks` before validation. */
  datatype TaskRequest = TaskRequest(title: Option<string>, description: Option<string>,
                                     teamId: Option<Numeric>, assignedTo: Option<Numeric>,
                                     dueDate: Option<string>, status: Option<string>)

  /** The three rules that the creation and the update chains share, in their order. */
  function TaskFieldErrors(c: Checks, assignedTo: Option<Numeric>, dueDate: Option<string>,
                           status: Option<string>): (r: seq<FieldError>)
    ensures r == [] <==> IntAllowed(assignedTo) && DateAllowed(c, dueDate) && StatusAllowed(status)
    ensures AssigneeNotInt in r <==> !IntAllowed(assignedTo)
    ensures DueDateInvalid in r <==> !DateAllowed(c, dueDate)
    ensures StatusInvalid in r <==> !StatusAllowed(status)
  {
    Rule(IntAllowed(assignedTo), AssigneeNotInt)
    + Rule(DateAllowed(c, dueDate), DueDateInvalid)
    + Rule(StatusAllowed(status), StatusInvalid)
  }

  function TaskCreationErrors(c: Checks, b: TaskRequest): (r: seq<FieldError>)
    ensures r == [] <==> TrimmedNotEmpty(b.title) && b.teamId.Some? && IsInt(b.teamId.value)
                          && IntAllowed(b.assignedTo) && DateAllowed(c, b.dueDate) && StatusAllowed(b.status)
    ensures TitleRequired in r <==> !TrimmedNotEmpty(b.title)
    ensures TaskTeamIdNotInt in r <==> !(b.teamId.Some? && IsInt(b.teamId.value))
    ensures AssigneeNotInt in r <==> !IntAllowed(b.assignedTo)
    ensures DueDateInvalid in r <==> !DateAllowed(c, b.dueDate)
    ensures StatusInvalid in r <==> !StatusAllowed(b.status)
  {
    Rule(TrimmedNotEmpty(b.title), TitleRequired)
    + Rule(b.teamId.Some? && IsInt(b.teamId.value), TaskTeamIdNotInt)
    + TaskFieldErrors(c, b.assignedTo, b.dueDate, b.status)
  }

  /** Title and description come out trimmed; the integers as they were sent. */
  function SanitizedTask(b: TaskRequest): TaskBody {
    TaskBody(TrimOptional(b.title), TrimOptional(b.description), IntOptional(b.teamId),
             IntOptional(b.assignedTo), b.dueDate, b.status)
  }

  function ValidateTaskCreation(c: Checks, b: TaskRequest): (v: Validated<TaskBody>)
    ensures v.Reject? <==> TaskCreationErrors(c, b) != []
    ensures v.Accept? ==> v.value == SanitizedTask(b) && v.value.teamId.Some?
    ensures v.Accept? && b.status.Some? ==> v.value.status.value in Statuses
  {
    Conclude(TaskCreationErrors(c, b), SanitizedTask(b))
  }

  // ---------------------------------------------------------------------------
  // validateTaskUpdate

  /** `PUT /tasks/updat-tasks/:id` before validation: the path id and the body. */
  datatype TaskUpdateRequest = TaskUpdateRequest(id: Numeric, title: Option<string>,
                                                 description: Option<string>, assignedTo: Option<Numeric>,
                                                 dueDate: Option<string>, status: Option<string>)

  function TaskUpdateErrors(c: Checks, q: TaskUpdateRequest): (r: seq<FieldError>)
    ensures r == [] <==> IsInt(q.id) && IntAllowed(q.assignedTo) && DateAllowed(c, q.dueDate)
                          && StatusAllowed(q.status)
    ensures TaskIdNotInt in r <==> !IsInt(q.id)
    ensures AssigneeNotInt in r <==> !IntAllowed(q.assignedTo)
    ensures DueDateInvalid in r <==> !DateAllowed(c, q.dueDate)
    ensures StatusInvalid in r <==> !StatusAllowed(q.status)
  {
    Rule(IsInt(q.id), TaskIdNotInt)
    + TaskFieldErrors(c, q.assignedTo, q.dueDate, q.status)
  }

  function SanitizedChanges(q: TaskUpdateRequest): TaskChanges {
    TaskChanges(TrimOptional(q.title), TrimOptional(q.description), IntOptional(q.assignedTo),
                q.dueDate, q.status)
  }

  /** Every body field is optional here; the handler gets the task id and the trimmed changes. */
  function ValidateTaskUpdate(c: Checks, q: TaskUpdateRequest): (v: Validated<(int, TaskChanges)>)
    ensures v.Reject? <==> TaskUpdateErrors(c, q) != []
    ensures v.Accept? ==> q.id.Integer? && v.value == (q.id.value.n, SanitizedChanges(q))
  {
    var errors := TaskUpdateErrors(c, q);
    if errors == [] then Accept((q.id.value.n, SanitizedChanges(q))) else Reject(errors)
  }

  // ---------------------------------------------------------------------------
  // Properties

  /** A password of fewer than six characters (an absent one counts as none) is refused at registration. */
  lemma ShortPasswordRejected(c: Checks, b: RegisterBody)
    requires b.password.None? || |b.password.value| < 6
    ensures ValidateUserRegistration(c, b).Reject?
    ensures PasswordTooShort in ValidateUserRegistration(c, b).errors
  {
  }

  /** Text made of whitespace only is refused as username, first or last name, and as a team name. */
  lemma WhitespaceNamesRejected(c: Checks, b: RegisterBody, t: TeamBody)
    requires b.username.Some? && WhitespaceOnly(b.username.value)
    requires t.name.Some? && WhitespaceOnly(t.name.value)
    ensures UsernameRequired in ValidateUserRegistration(c, b).errors
    ensures ValidateTeamCreation(t) == Reject([TeamNameRequired])
  {
  }

  /** A status outside the three allowed ones is refused on create and update; an absent one is not. */
  lemma StatusOutsideListRejected(c: Checks, b: TaskRequest, q: TaskUpdateRequest)
    requires b.status.Some? && b.status.value !in Statuses
    requires q.status.Some? && q.status.value !in Statuses
    ensures StatusInvalid in ValidateTaskCreation(c, b).errors
    ensures StatusInvalid in ValidateTaskUpdate(c, q).errors
    ensures TaskCreationErrors(c, b.(status := None)) + [StatusInvalid] == TaskCreationErrors(c, b)
  {
    var head := Rule(TrimmedNotEmpty(b.title), TitleRequired)
      + Rule(b.teamId.Some? && IsInt(b.teamId.value), TaskTeamIdNotInt);
    var mid := TaskFieldErrors(c, b.assignedTo, b.dueDate, None);
    StatusErrorComesLast(c, b.assignedTo, b.dueDate, b.status);
    assert head + mid + [StatusInvalid] == head + (mid + [StatusInvalid]);
  }

  /** The status rule is the last of the shared rules, so its error closes the list. */
  lemma StatusErrorComesLast(c: Checks, assignedTo: Option<Numeric>, dueDate: Option<string>, status: Option<string>)
    requires !StatusAllowed(status)
    ensures TaskFieldErrors(c, assignedTo, dueDate, None) + [StatusInvalid] == TaskFieldErrors(c, assignedTo, dueDate, status)
  {
    var mid := Rule(IntAllowed(assignedTo), AssigneeNotInt) + Rule(DateAllowed(c, dueDate), DueDateInvalid);
    assert TaskFieldErrors(c, assignedTo, dueDate, None) == mid + [];
  }

  /** A present `assigned_to` that is not an integer is refused on create and update. */
  lemma AssigneeMustBeInteger(c: Checks, b: TaskRequest, q: TaskUpdateRequest)
    requires b.assignedTo == Some(NotInteger) && q.assignedTo == Some(NotInteger)
    ensures AssigneeNotInt in ValidateTaskCreation(c, b).errors
    ensures AssigneeNotInt in ValidateTaskUpdate(c, q).errors
  {
  }

  /** Adding a member needs an integer path id and an integer `userIdToAdd`; an absent one fails too. */
  lemma AddMemberNeedsIntegers(q: AddMemberRequest)
    ensures ValidateAddMember(q).Accept? <==> q.id.Integer? && q.userIdToAdd.Some? && q.userIdToAdd.value.Integer?
    ensures q.userIdToAdd.None? ==>
      UserIdToAddNotInt in ValidateAddMember(q).errors
  {
  }

  /** When every rule fails, say for a body with no fields, the list holds each
      message once, in the order of the rule list. */
  lemma RegistrationErrorsInOrder(c: Checks, b: RegisterBody)
    requires !TrimmedNotEmpty(b.username) && !Email(c, b.email) && !LongEnough(b.password)
    requires !TrimmedNotEmpty(b.firstName) && !TrimmedNotEmpty(b.lastName)
    ensures RegistrationErrors(c, b) == [UsernameRequired,
                                         EmailInvalid,
                                         PasswordTooShort,
                                         FirstNameRequired,
                                         LastNameRequired]
  {
  }

  /** The trim sanitizers are idempotent: validating an accepted body again accepts the same body. */
  lemma RegistrationSanitizerStable(c: Checks, b: RegisterBody)
    requires ValidateUserRegistration(c, b).Accept?
    ensures var b' := ValidateUserRegistration(c, b).value;
      ValidateUserRegistration(c, b') == Accept(b')
  {
    var b' := ValidateUserRegistration(c, b).value;
    TrimIdempotent(b.username.value);
    TrimIdempotent(b.firstName.value);
    TrimIdempotent(b.lastName.value);
    assert CharCount(b'.password.value) == CharCount(b.password.value);
  }
}

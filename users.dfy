/** backend/src/controllers/user.controller.js: registration with unique
    username and email, login into the session, password reset by email, and
    the admin-only list of users. These handlers have no try/catch of their
    own: a thrown `ApiError` reaches the client with its own status. */
module Users {
  import opened Js
  import opened Sql
  import opened Http
  import opened Store
  import opened Auth

  /** `req.body` of registerUser. */
  datatype RegisterBody = RegisterBody(username: Option<string>, email: Option<string>,
                                       password: Option<string>, firstName: Option<string>,
                                       lastName: Option<string>)

  /** `req.body` of userLogin. */
  datatype LoginBody = LoginBody(email: Option<string>, password: Option<string>)

  /** `req.body` of forgotPassword. */
  datatype ResetBody = ResetBody(email: Option<string>, newPassword: Option<string>)

  /** `!field || field.trim() === ''`; by `Trim`'s contract the second test
      holds exactly for whitespace-only text. */
  predicate Blank(field: Option<string>) {
    !TruthyText(field) || WhitespaceOnly(field.value)
  }

  predicate AnyBlank(b: RegisterBody) {
    Blank(b.username) || Blank(b.email) || Blank(b.password) || Blank(b.firstName) || Blank(b.lastName)
  }

  /** `SELECT * FROM users WHERE username = $1 OR email = $2` */
  function UsersClashing(users: seq<User>, username: string, email: string): seq<User> {
    Where(users, (u: User) => u.username == username || u.email == email)
  }

  /** `SELECT * FROM users WHERE email = $1` */
  function UsersByEmail(users: seq<User>, email: string): seq<User> {
    Where(users, (u: User) => u.email == email)
  }

  /** `UPDATE users SET password_hash = $1 WHERE email = $2` */
  function ResetRows(users: seq<User>, email: string, hash: Digest): seq<User> {
    UpdateWhere(users, (u: User) => u.email == email, (u: User) => u.(passwordHash := hash))
  }

  /** `SELECT id, username, email, first_name, last_name, role, created_at FROM users`:
      every user, in storage order, without the hash. */
  function Profiles(users: seq<User>): (r: seq<Profile>)
    ensures |r| == |users|
    ensures forall i :: 0 <= i < |users| ==> r[i] == ProfileOf(users[i])
  {
    if users == [] then [] else [ProfileOf(users[0])] + Profiles(users[1..])
  }

  // ---------------------------------------------------------------------------
  // The handlers as functions of the tables

  /** registerUser; `salt` stands for `bcrypt.genSalt(10)`. */
  function RegisterSpec(s: Db, b: RegisterBody, salt: nat): Step<Profile> {
    if AnyBlank(b) then
      Step(Failure(400, "All fields are required"), s)
    else if UsersClashing(s.users, b.username.value, b.email.value) != [] then
      Step(Failure(400, "Username or Email already exists"), s)
    else
      var user := User(s.nextUserId, b.username.value, b.email.value, Hash(b.password.value, salt),
                       b.firstName.value, b.lastName.value, "user");
      Step(Success(201, ProfileOf(user), "User registered successfully"),
           s.(users := s.users + [user], nextUserId := s.nextUserId + 1))
  }

  /** The user object userLogin hands to `setUserSession`: the row's columns,
      with the email as given in the body. */
  function LoginUser(row: User, email: string): User {
    row.(email := email)
  }

  /** userLogin's reply; it reads the tables and changes none. */
  function LoginSpec(s: Db, b: LoginBody): Response<Profile> {
    if !TruthyText(b.email) || !TruthyText(b.password) then
      Failure(400, "Email and Password are required")
    else
      var found := UsersByEmail(s.users, b.email.value);
      if found == [] then Failure(404, "User not found")
      else if !Verify(b.password.value, found[0].passwordHash) then Failure(401, "Invalid password")
      else Success(200, ProfileOf(LoginUser(found[0], b.email.value)), "Login successful")
  }

  /** forgotPassword; `salt` stands for `bcrypt.genSalt(10)`. */
  function ForgotPasswordSpec(s: Db, b: ResetBody, salt: nat): Step<()> {
    if !TruthyText(b.email) || !TruthyText(b.newPassword) then
      Step(Failure(400, "Email and New Password are required"), s)
    else if UsersByEmail(s.users, b.email.value) == [] then
      Step(Failure(404, "User not found"), s)
    else
      Step(Success(200, (), "Password updated successfully"),
           s.(users := ResetRows(s.users, b.email.value, Hash(b.newPassword.value, salt))))
  }

  /** getAllUsers, with `caller` the `req.user` that `isAdmin` set. */
  function GetAllUsersSpec(s: Db, caller: Profile): Response<seq<Profile>> {
    if caller.role != "admin" then Failure(403, "Forbidden: Admins only")
    else Success(200, Profiles(s.users), "Users fetched successfully")
  }

  // ---------------------------------------------------------------------------
  // The handlers over the shared database

  method RegisterUser(db: Database, b: RegisterBody, salt: nat) returns (r: Response<Profile>)
    requires db.Valid()
    modifies db
    ensures db.Valid()
    ensures Step(r, db.State()) == RegisterSpec(old(db.State()), b, salt)
  {
    if AnyBlank(b) {
      return Failure(400, "All fields are required");
    }
    var userExists := UsersClashing(db.users, b.username.value, b.email.value);
    if |userExists| > 0 {
      return Failure(400, "Username or Email already exists");
    }
    ghost var s := db.State();
    RegisterKeepsConsistent(s, b, salt);
    var passwordHash := Hash(b.password.value, salt);
    var defaultRole := "user";
    var user := User(db.nextUserId, b.username.value, b.email.value, passwordHash,
                     b.firstName.value, b.lastName.value, defaultRole);
    ghost var after := s.(users := s.users + [user], nextUserId := s.nextUserId + 1);
    db.users := db.users + [user];
    db.nextUserId := db.nextUserId + 1;
    assert db.State() == after;
    r := Success(201, ProfileOf(user), "User registered successfully");
  }

  /** userLogin: on success the session holds the profile it replies with;
      otherwise the session is left as it was. */
  method UserLogin(db: Database, req: Request, b: LoginBody) returns (r: Response<Profile>)
    modifies req`session
    ensures r == LoginSpec(db.State(), b)
    ensures r.Success? ==> req.session == Some(r.data)
    ensures !r.Success? ==> req.session == old(req.session)
  {
    if !TruthyText(b.email) || !TruthyText(b.password) {
      return Failure(400, "Email and Password are required");
    }
    var user := UsersByEmail(db.users, b.email.value);
    if |user| == 0 {
      return Failure(404, "User not found");
    }
    var isPasswordValid := Verify(b.password.value, user[0].passwordHash);
    if !isPasswordValid {
      return Failure(401, "Invalid password");
    }
    var u := LoginUser(user[0], b.email.value);
    SetUserSession(req, u);
    r := Success(200, ProfileOf(u), "Login successful");
  }

  method ForgotPassword(db: Database, b: ResetBody, salt: nat) returns (r: Response<()>)
    requires db.Valid()
    modifies db
    ensures db.Valid()
    ensures Step(r, db.State()) == ForgotPasswordSpec(old(db.State()), b, salt)
  {
    if !TruthyText(b.email) || !TruthyText(b.newPassword) {
      return Failure(400, "Email and New Password are required");
    }
    var user := UsersByEmail(db.users, b.email.value);
    if |user| == 0 {
      return Failure(404, "User not found");
    }
    ghost var s := db.State();
    ForgotPasswordKeepsConsistent(s, b, salt);
    var passwordHash := Hash(b.newPassword.value, salt);
    ghost var after := s.(users := ResetRows(s.users, b.email.value, passwordHash));
    db.users := ResetRows(db.users, b.email.value, passwordHash);
    assert db.State() == after;
    r := Success(200, (), "Password updated successfully");
  }

  method GetAllUsers(db: Database, caller: Profile) returns (r: Response<seq<Profile>>)
    ensures r == GetAllUsersSpec(db.State(), caller)
    ensures r.Success? <==> caller.role == "admin"
    ensures r.Success? ==>
      |r.data| == |db.users| && forall i :: 0 <= i < |db.users| ==> r.data[i] == ProfileOf(db.users[i])
  {
    if caller.role != "admin" {
      return Failure(403, "Forbidden: Admins only");
    }
    var result := Profiles(db.users);
    r := Success(200, result, "Users fetched successfully");
  }

  // ---------------------------------------------------------------------------
  // Properties

  /** A missing, empty or whitespace-only field is refused before the table is read. */
  lemma RegisterRejectsBlank(s: Db, b: RegisterBody, salt: nat, i: nat)
    requires i < 5
    requires var f := [b.username, b.email, b.password, b.firstName, b.lastName][i];
      f.None? || Trim(f.value) == ""
    ensures RegisterSpec(s, b, salt) == Step(Failure(400, "All fields are required"), s)
  {
  }

  /** A username or an email already in the table is refused and nothing is inserted. */
  lemma RegisterRejectsTaken(s: Db, b: RegisterBody, salt: nat, other: User)
    requires !AnyBlank(b)
    requires other in s.users && (other.username == b.username.value || other.email == b.email.value)
    ensures RegisterSpec(s, b, salt) == Step(Failure(400, "Username or Email already exists"), s)
  {
    assert other in UsersClashing(s.users, b.username.value, b.email.value);
  }

  /** A registration inserts one row with a fresh id and role `'user'` whose
      hash verifies the password, and replies with that row's profile. */
  lemma RegisterCreatesUser(s: Db, b: RegisterBody, salt: nat)
    requires Consistent(s)
    requires !AnyBlank(b)
    requires forall u :: u in s.users ==> u.username != b.username.value && u.email != b.email.value
    ensures var r := RegisterSpec(s, b, salt);
      && |r.db.users| == |s.users| + 1 && r.db.users[..|s.users|] == s.users
      && var row := r.db.users[|s.users|];
      && r.response == Success(201, ProfileOf(row), "User registered successfully")
      && row.role == "user" && row.username == b.username.value && row.email == b.email.value
      && row.firstName == b.firstName.value && row.lastName == b.lastName.value
      && Verify(b.password.value, row.passwordHash)
      && (forall u :: u in s.users ==> u.id != row.id)
      && r.db.teams == s.teams && r.db.memberships == s.memberships && r.db.tasks == s.tasks
  {
    assert UsersClashing(s.users, b.username.value, b.email.value) == [];
  }

  /** Login fails with 400 on a missing field whatever the tables hold, then
      404 on an unknown email, then 401 on a wrong password. */
  lemma LoginFailureOrder(s: Db, s': Db, b: LoginBody, u: User)
    requires Consistent(s)
    ensures !TruthyText(b.email) || !TruthyText(b.password) ==>
      LoginSpec(s, b) == LoginSpec(s', b) == Failure(400, "Email and Password are required")
    ensures TruthyText(b.email) && TruthyText(b.password) && (forall v :: v in s.users ==> v.email != b.email.value) ==>
      LoginSpec(s, b) == Failure(404, "User not found")
    ensures (TruthyText(b.email) && TruthyText(b.password) && u in s.users && u.email == b.email.value
             && !Verify(b.password.value, u.passwordHash)) ==>
      LoginSpec(s, b) == Failure(401, "Invalid password")
  {
    if TruthyText(b.email) && TruthyText(b.password) && u in s.users && u.email == b.email.value {
      var found := UsersByEmail(s.users, b.email.value);
      assert u in found;
      assert found[0] in found;
      DistinctRowsAgree(s.users, UserEmail, found[0], u);
    }
  }

  /** The right password for a stored email logs in as that user, with
      exactly its profile and no hash. */
  lemma LoginReturnsProfile(s: Db, b: LoginBody, u: User)
    requires Consistent(s)
    requires u in s.users && b.email == Some(u.email) && u.email != ""
    requires b.password.Some? && b.password.value != "" && Verify(b.password.value, u.passwordHash)
    ensures LoginSpec(s, b) == Success(200, ProfileOf(u), "Login successful")
  {
    var found := UsersByEmail(s.users, u.email);
    assert u in found;
    assert found[0] in found;
    DistinctRowsAgree(s.users, UserEmail, found[0], u);
  }

  /** Whoever registers can then log in with the same email and password, as the registered profile. */
  lemma RegisterThenLogin(s: Db, b: RegisterBody, salt: nat)
    requires Consistent(s)
    requires !AnyBlank(b)
    requires RegisterSpec(s, b, salt).response.Success?
    ensures var r := RegisterSpec(s, b, salt);
      LoginSpec(r.db, LoginBody(b.email, b.password)) == Success(200, r.response.data, "Login successful")
  {
    var r := RegisterSpec(s, b, salt);
    RegisterKeepsConsistent(s, b, salt);
    var row := r.db.users[|s.users|];
    assert row in r.db.users;
    assert UsersClashing(s.users, b.username.value, b.email.value) == [];
    LoginReturnsProfile(r.db, LoginBody(b.email, b.password), row);
  }

  /** A reset rewrites only the hash of the user with that email: every other
      column and every other user stays, and the new hash verifies the new password. */
  lemma ForgotPasswordChangesOnlyHash(s: Db, b: ResetBody, salt: nat)
    requires TruthyText(b.email) && TruthyText(b.newPassword)
    requires exists u :: u in s.users && u.email == b.email.value
    ensures var r := ForgotPasswordSpec(s, b, salt);
      && r.response == Success(200, (), "Password updated successfully")
      && |r.db.users| == |s.users|
      && (forall i :: 0 <= i < |s.users| ==>
            r.db.users[i] == if s.users[i].email == b.email.value
                             then s.users[i].(passwordHash := Hash(b.newPassword.value, salt))
                             else s.users[i])
      && (forall i :: 0 <= i < |s.users| && s.users[i].email == b.email.value ==>
            Verify(b.newPassword.value, r.db.users[i].passwordHash))
      && r.db.teams == s.teams && r.db.memberships == s.memberships && r.db.tasks == s.tasks
  {
    var u :| u in s.users && u.email == b.email.value;
    assert u in UsersByEmail(s.users, b.email.value);
  }

  /** An unknown email changes nothing. */
  lemma ForgotPasswordUnknownEmail(s: Db, b: ResetBody, salt: nat)
    requires TruthyText(b.email) && TruthyText(b.newPassword)
    requires forall u :: u in s.users ==> u.email != b.email.value
    ensures ForgotPasswordSpec(s, b, salt) == Step(Failure(404, "User not found"), s)
  {
  }

  /** After a reset the new password logs in. */
  lemma ForgotPasswordThenLogin(s: Db, b: ResetBody, salt: nat, u: User)
    requires Consistent(s)
    requires TruthyText(b.newPassword)
    requires u in s.users && b.email == Some(u.email) && u.email != ""
    ensures var r := ForgotPasswordSpec(s, b, salt);
      LoginSpec(r.db, LoginBody(b.email, b.newPassword)) == Success(200, ProfileOf(u), "Login successful")
  {
    var r := ForgotPasswordSpec(s, b, salt);
    ForgotPasswordChangesOnlyHash(s, b, salt);
    ForgotPasswordKeepsConsistent(s, b, salt);
    var i :| 0 <= i < |s.users| && s.users[i] == u;
    var row := r.db.users[i];
    assert row in r.db.users;
    assert ProfileOf(row) == ProfileOf(u);
    LoginReturnsProfile(r.db, LoginBody(b.email, b.newPassword), row);
  }

  /** Only an admin gets the list, and it holds every user's profile (no hash) in table order. */
  lemma GetAllUsersAdminOnly(s: Db, caller: Profile)
    ensures GetAllUsersSpec(s, caller).Success? <==> caller.role == "admin"
    ensures caller.role != "admin" ==> GetAllUsersSpec(s, caller) == Failure(403, "Forbidden: Admins only")
    ensures caller.role == "admin" ==>
      forall p :: p in GetAllUsersSpec(s, caller).data <==> exists u :: u in s.users && p == ProfileOf(u)
  {
    if caller.role == "admin" {
      var ps := Profiles(s.users);
      forall p ensures p in ps <==> exists u :: u in s.users && p == ProfileOf(u) {
        if p in ps {
          var i :| 0 <= i < |ps| && ps[i] == p;
          assert s.users[i] in s.users;
        }
        if exists u :: u in s.users && p == ProfileOf(u) {
          var u :| u in s.users && p == ProfileOf(u);
          var i :| 0 <= i < |s.users| && s.users[i] == u;
          assert ps[i] == p;
        }
      }
    }
  }

  // ---------------------------------------------------------------------------
  // The database's integrity is kept

  /** Registration keeps usernames and emails unique (the check before the INSERT). */
  lemma RegisterKeepsConsistent(s: Db, b: RegisterBody, salt: nat)
    requires Consistent(s)
    ensures Consistent(RegisterSpec(s, b, salt).db)
  {
    if !AnyBlank(b) && UsersClashing(s.users, b.username.value, b.email.value) == [] {
      var user := User(s.nextUserId, b.username.value, b.email.value, Hash(b.password.value, salt),
                       b.firstName.value, b.lastName.value, "user");
      AppendKeepsDistinct(s.users, user, UserId);
      AppendKeepsDistinct(s.users, user, UserName);
      AppendKeepsDistinct(s.users, user, UserEmail);
    }
  }

  lemma ForgotPasswordKeepsConsistent(s: Db, b: ResetBody, salt: nat)
    requires Consistent(s)
    ensures Consistent(ForgotPasswordSpec(s, b, salt).db)
  {
    if TruthyText(b.email) && TruthyText(b.newPassword) {
      var p := (u: User) => u.email == b.email.value;
      var f := (u: User) => u.(passwordHash := Hash(b.newPassword.value, salt));
      UpdateKeepsDistinct(s.users, p, f, UserId);
      UpdateKeepsDistinct(s.users, p, f, UserName);
      UpdateKeepsDistinct(s.users, p, f, UserEmail);
      var users := UpdateWhere(s.users, p, f);
      forall u | u in users ensures u.id < s.nextUserId {
        var i :| 0 <= i < |users| && users[i] == u;
        assert s.users[i] in s.users;
      }
    }
  }
}

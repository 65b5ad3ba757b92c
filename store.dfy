/** The four tables the controllers read and write (`users`, `teams`,
    `team_memberships`, `tasks`), the database handle that holds them, and the
    way a handler's try/catch turns what happens inside it into a reply. */
module Store {
  import opened Js
  import opened Sql
  import opened Http

  /** A bcrypt hash. Salting and hashing happen in a foreign library, so the
      digest is modelled by what the handlers rely on: `Verify` accepts the
      password the digest was made from. The salt stands for `genSalt(10)`. */
  datatype Digest = Digest(secret: string, salt: nat)

  function Hash(password: string, salt: nat): (d: Digest)
    ensures Verify(password, d)
  {
    Digest(password, salt)
  }

  /** `bcrypt.compare(password, hash)` */
  predicate Verify(password: string, d: Digest) {
    d.secret == password
  }

  /** A row of `users` (`created_at` is left out). */
  datatype User = User(id: int, username: string, email: string, passwordHash: Digest,
                       firstName: string, lastName: string, role: string)

  /** The columns of a user that leave the server: what registration returns,
      what `get-all-users` lists and what the session holds. There is no hash in it. */
  datatype Profile = Profile(id: int, username: string, email: string,
                             firstName: string, lastName: string, role: string)

  function ProfileOf(u: User): Profile {
    Profile(u.id, u.username, u.email, u.firstName, u.lastName, u.role)
  }

  /** A row of `teams`. */
  datatype Team = Team(id: int, name: string, description: string, creatorId: int)

  /** A row of `team_memberships` (`joined_at` is left out). */
  datatype Membership = Membership(teamId: int, userId: int, role: string)

  /** A row of `tasks`; `assignedTo` and `dueDate` are nullable columns. */
  datatype Task = Task(id: int, title: string, description: string, teamId: int,
                       assignedTo: Option<int>, dueDate: Option<string>, status: string,
                       createdBy: int)

  /** The database: the four tables and the next value of each SERIAL id. */
  datatype Db = Db(users: seq<User>, teams: seq<Team>, memberships: seq<Membership>,
                   tasks: seq<Task>, nextUserId: int, nextTeamId: int, nextTaskId: int)

  function UserId(u: User): int { u.id }
  function UserName(u: User): string { u.username }
  function UserEmail(u: User): string { u.email }
  function TeamId(t: Team): int { t.id }
  function MemberKey(m: Membership): (int, int) { (m.teamId, m.userId) }
  function TaskId(t: Task): int { t.id }

  /** The integrity the database keeps: primary keys, unique usernames and
      emails, one membership per (team, user), and SERIAL ids ahead of every row. */
  ghost predicate Consistent(s: Db) {
    && DistinctBy(s.users, UserId) && DistinctBy(s.users, UserName) && DistinctBy(s.users, UserEmail)
    && (forall u :: u in s.users ==> u.id < s.nextUserId)
    && DistinctBy(s.teams, TeamId)
    && (forall t :: t in s.teams ==> t.id < s.nextTeamId)
    && DistinctBy(s.memberships, MemberKey)
    && DistinctBy(s.tasks, TaskId)
    && (forall t :: t in s.tasks ==> t.id < s.nextTaskId)
  }

  /** Appending a row whose key is new keeps a key constraint. */
  lemma AppendKeepsDistinct<T, K>(rows: seq<T>, x: T, key: T -> K)
    requires DistinctBy(rows, key)
    requires forall y :: y in rows ==> key(y) != key(x)
    ensures DistinctBy(rows + [x], key)
  {
    var r := rows + [x];
    forall i, j | 0 <= i < j < |r| ensures key(r[i]) != key(r[j]) {
      if j == |rows| {
        assert r[i] in rows;
      } else {
        assert r[i] == rows[i] && r[j] == rows[j];
      }
    }
  }

  /** The pool handle the controllers share. */
  class Database {
    var users: seq<User>
    var teams: seq<Team>
    var memberships: seq<Membership>
    var tasks: seq<Task>
    var nextUserId: int
    var nextTeamId: int
    var nextTaskId: int

    function State(): Db
      reads this
    {
      Db(users, teams, memberships, tasks, nextUserId, nextTeamId, nextTaskId)
    }

    ghost predicate Valid()
      reads this
    {
      Consistent(State())
    }

    /** Empty tables whose SERIAL ids start at 1. */
    constructor ()
      ensures Valid()
      ensures State() == Db([], [], [], [], 1, 1, 1)
    {
      users, teams, memberships, tasks := [], [], [], [];
      nextUserId, nextTeamId, nextTaskId := 1, 1, 1;
    }
  }

  /** What the statements inside a handler's `try` block come to: they complete
      with a value and new tables, or an `ApiError` is thrown. Every handler
      throws before its first write, so a throw carries no tables. */
  datatype Attempt<+T> = Completed(value: T, db: Db) | Threw(error: ApiError)

  /** A handler's reply together with the tables it leaves. */
  datatype Step<+T> = Step(response: Response<T>, db: Db)

  /** The team and task handlers' `catch (error) { throw new ApiError(500, failMessage) }`:
      a completed try replies with `okStatus`; whatever was thrown inside it, its
      own status included, reaches the client as 500 with the tables untouched. */
  function Rethrow<T>(a: Attempt<T>, s: Db, okStatus: int, okMessage: string,
                      failMessage: string): Step<T>
  {
    match a
    case Completed(v, db) => Step(Success(okStatus, v, okMessage), db)
    case Threw(_) => Step(Failure(500, failMessage), s)
  }
}

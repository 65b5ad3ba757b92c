/** A walk through the handlers from empty tables: two users register, the
    first logs in, creates a team and a task in it and completes the task; the
    second then tries to delete the task. */
module Scenario {
  import opened Js
  import opened Http
  import opened Store
  import opened Teams
  import opened Tasks
  import opened Users

  const Empty: Db := Db([], [], [], [], 1, 1, 1)

  const Alice := RegisterBody(Some("alice"), Some("alice@x.com"), Some("pw123456"), Some("Alice"), Some("A"))
  const Bob := RegisterBody(Some("bob"), Some("bob@x.com"), Some("pw654321"), Some("Bob"), Some("B"))

  /** Text that starts with a visible character is not blank. */
  lemma VisibleStart(s: string)
    requires s != [] && !IsWhitespace(s[0])
    ensures !WhitespaceOnly(s)
  {
  }

  function AliceRow(salt: nat): User {
    User(1, "alice", "alice@x.com", Hash("pw123456", salt), "Alice", "A", "user")
  }

  function BobRow(salt: nat): User {
    User(2, "bob", "bob@x.com", Hash("pw654321", salt), "Bob", "B", "user")
  }

  const Eng := Team(1, "Eng", "desc", 1)
  const FixBug := TaskBody(Some("Fix bug"), None, Some(IntNumber(1)), None, None, None)
  const Pending := Task(1, "Fix bug", "", 1, None, None, "pending", 1)
  const Complete := TaskChanges(None, None, None, None, Some("completed"))
  const DoneTask := Task(1, "Fix bug", "", 1, None, None, "completed", 1)

  /** The tables after each step. */
  function AfterAlice(a: nat): Db { Empty.(users := [AliceRow(a)], nextUserId := 2) }
  function AfterBob(a: nat, b: nat): Db { AfterAlice(a).(users := [AliceRow(a), BobRow(b)], nextUserId := 3) }
  function AfterTeam(a: nat, b: nat): Db { AfterBob(a, b).(teams := [Eng], nextTeamId := 2) }
  function AfterTask(a: nat, b: nat): Db { AfterTeam(a, b).(tasks := [Pending], nextTaskId := 2) }
  function AfterUpdate(a: nat, b: nat): Db { AfterTask(a, b).(tasks := [DoneTask]) }

  lemma RegisterAlice(a: nat)
    ensures RegisterSpec(Empty, Alice, a)
         == Step(Success(201, Profile(1, "alice", "alice@x.com", "Alice", "A", "user"), "User registered successfully"),
                 AfterAlice(a))
  {
    VisibleStart("alice");
    VisibleStart("alice@x.com");
    VisibleStart("pw123456");
    VisibleStart("Alice");
    VisibleStart("A");
  }

  lemma RegisterBob(a: nat, b: nat)
    ensures RegisterSpec(AfterAlice(a), Bob, b)
         == Step(Success(201, Profile(2, "bob", "bob@x.com", "Bob", "B", "user"), "User registered successfully"),
                 AfterBob(a, b))
  {
    VisibleStart("bob");
    VisibleStart("bob@x.com");
    VisibleStart("pw654321");
    VisibleStart("Bob");
    VisibleStart("B");
    assert UsersClashing([AliceRow(a)], "bob", "bob@x.com") == [];
  }

  lemma AliceLogsIn(a: nat, b: nat)
    ensures LoginSpec(AfterBob(a, b), LoginBody(Some("alice@x.com"), Some("pw123456")))
         == Success(200, Profile(1, "alice", "alice@x.com", "Alice", "A", "user"), "Login successful")
  {
    assert UsersByEmail([AliceRow(a), BobRow(b)], "alice@x.com") == [AliceRow(a)];
  }

  lemma AliceCreatesTeam(a: nat, b: nat)
    ensures CreateTeamSpec(AfterBob(a, b), 1, TeamBody(Some("Eng"), Some("desc")))
         == Step(Success(201, Eng, "Team created successfully"), AfterTeam(a, b))
  {
  }

  lemma AliceCreatesTask(a: nat, b: nat)
    ensures CreateTaskSpec(AfterTeam(a, b), 1, FixBug)
         == Step(Success(201, Pending, "Task created successfully"), AfterTask(a, b))
  {
    assert MemberTeams(AfterTeam(a, b), 1, 1) == [Eng];
  }

  lemma AliceCompletesTask(a: nat, b: nat)
    ensures UpdateTaskSpec(AfterTask(a, b), 1, 1, Complete)
         == Step(Success(200, DoneTask, "Task updated successfully"), AfterUpdate(a, b))
  {
    assert EditableTasks([Pending], 1, 1) == [Pending];
    assert UpdateTaskRows([Pending], 1, Complete) == [DoneTask];
    assert TasksById([DoneTask], 1) == [DoneTask];
  }

  lemma BobCannotDelete(a: nat, b: nat)
    ensures DeleteTaskSpec(AfterUpdate(a, b), 2, 1) == Step(Failure(500, "Failed to delete task"), AfterUpdate(a, b))
  {
    assert OwnTasks([DoneTask], 1, 2) == [];
  }

  /** The replies along the walk: 201, 201, 200, 201, 201, 200, and 500 (not
      403) for the second user's delete, which leaves the task in place. */
  lemma Walkthrough(a: nat, b: nat)
    ensures var s1 := RegisterSpec(Empty, Alice, a);
      && s1.response.Status() == 201
      && var s2 := RegisterSpec(s1.db, Bob, b);
      && s2.response.Status() == 201
      && LoginSpec(s2.db, LoginBody(Some("alice@x.com"), Some("pw123456"))).Status() == 200
      && var s3 := CreateTeamSpec(s2.db, 1, TeamBody(Some("Eng"), Some("desc")));
      && s3.response == Success(201, Team(1, "Eng", "desc", 1), "Team created successfully")
      && var s4 := CreateTaskSpec(s3.db, 1, FixBug);
      && s4.response.Success? && s4.response.status == 201 && s4.response.data.status == "pending"
      && var s5 := UpdateTaskSpec(s4.db, 1, 1, Complete);
      && s5.response.Success? && s5.response.status == 200
      && s5.response.data == s4.response.data.(status := "completed")
      && var s6 := DeleteTaskSpec(s5.db, 2, 1);
      && s6.response == Failure(500, "Failed to delete task") && s6.db == s5.db && s6.db.tasks == [s5.response.data]
  {
    RegisterAlice(a);
    RegisterBob(a, b);
    AliceLogsIn(a, b);
    AliceCreatesTeam(a, b);
    AliceCreatesTask(a, b);
    AliceCompletesTask(a, b);
    BobCannotDelete(a, b);
  }
}

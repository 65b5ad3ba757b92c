/** backend/src/controllers/team.controller.js: create, list, update and delete
    teams and add members, gated on the caller being the team's creator (or,
    for listing, its creator or a member). */
module Teams {
  import opened Js
  import opened Sql
  import opened Http
  import opened Store

  /** `req.body` of create and update. */
  datatype TeamBody = TeamBody(name: Option<string>, description: Option<string>)

  /** `req.body` of add-member. */
  datatype MemberBody = MemberBody(userIdToAdd: Option<IntValue>)

  // ---------------------------------------------------------------------------
  // Queries and the authorization predicates built on them

  /** `SELECT * FROM teams WHERE id = $1 AND creator_id = $2` */
  function CreatedTeams(teams: seq<Team>, id: int, uid: int): seq<Team> {
    Where(teams, (t: Team) => t.id == id && t.creatorId == uid)
  }

  /** The creator check of update, delete and add-member: a row came back. */
  predicate IsTeamCreator(teams: seq<Team>, id: int, uid: int) {
    CreatedTeams(teams, id, uid) != []
  }

  /** `id IN (SELECT team_id FROM team_memberships WHERE user_id = $1)` */
  predicate IsMember(memberships: seq<Membership>, teamId: int, uid: int) {
    exists m :: m in memberships && m.teamId == teamId && m.userId == uid
  }

  /** `creator_id = $1 OR id IN (...)`: what being "in" a team means for listing
      teams and for creating and listing tasks. */
  predicate CreatorOrMember(memberships: seq<Membership>, t: Team, uid: int) {
    t.creatorId == uid || IsMember(memberships, t.id, uid)
  }

  /** `SELECT * FROM teams WHERE creator_id = $1 OR id IN (...)` */
  function VisibleTeams(s: Db, uid: int): seq<Team> {
    Where(s.teams, (t: Team) => CreatorOrMember(s.memberships, t, uid))
  }

  /** `SELECT * FROM teams WHERE id = $1`, the rows `UPDATE ... RETURNING *` gives back. */
  function TeamsById(teams: seq<Team>, id: int): seq<Team> {
    Where(teams, (t: Team) => t.id == id)
  }

  /** `SELECT * FROM users WHERE id = $1` */
  function UsersById(users: seq<User>, id: int): seq<User> {
    Where(users, (u: User) => u.id == id)
  }

  /** The SET list of updateTeam: `name = COALESCE($1, name), description = COALESCE($2, description)`. */
  function Renamed(t: Team, body: TeamBody): Team {
    t.(name := Coalesce(body.name, t.name), description := Coalesce(body.description, t.description))
  }

  /** `UPDATE teams SET ... WHERE id = $3` */
  function UpdateTeamRows(teams: seq<Team>, id: int, body: TeamBody): seq<Team> {
    UpdateWhere(teams, (t: Team) => t.id == id, (t: Team) => Renamed(t, body))
  }

  /** `DELETE FROM teams WHERE id = $1` */
  function DeleteTeamRows(teams: seq<Team>, id: int): seq<Team> {
    Where(teams, (t: Team) => t.id != id)
  }

  /** `INSERT INTO team_memberships (team_id, user_id, role, joined_at)
      VALUES ($1, $2, 'member', NOW()) ON CONFLICT DO NOTHING`, the conflict
      being the unique (team_id, user_id) pair. */
  function InsertMembership(memberships: seq<Membership>, teamId: int, uid: int): seq<Membership> {
    if IsMember(memberships, teamId, uid) then memberships
    else memberships + [Membership(teamId, uid, "member")]
  }

  // ---------------------------------------------------------------------------
  // The handlers as functions of the tables

  function CreateTeamSpec(s: Db, uid: int, body: TeamBody): Step<Team> {
    if !TruthyText(body.name) || !TruthyText(body.description) then
      Step(Failure(400, "Name and description are required"), s)
    else
      var team := Team(s.nextTeamId, body.name.value, body.description.value, uid);
      Step(Success(201, team, "Team created successfully"),
           s.(teams := s.teams + [team], nextTeamId := s.nextTeamId + 1))
  }

  function UpdateTeamTry(s: Db, uid: int, id: int, body: TeamBody): Attempt<Team> {
    if !IsTeamCreator(s.teams, id, uid) then
      Threw(ApiError(403, "Not authorized to update this team"))
    else
      var teams := UpdateTeamRows(s.teams, id, body);
      UpdatedTeamReturned(s.teams, id, uid, body);
      Completed(TeamsById(teams, id)[0], s.(teams := teams))
  }

  function UpdateTeamSpec(s: Db, uid: int, id: int, body: TeamBody): Step<Team> {
    if !TruthyText(body.name) && !TruthyText(body.description) then
      Step(Failure(400, "At least one of name or description must be provided"), s)
    else
      Rethrow(UpdateTeamTry(s, uid, id, body), s, 200, "Team updated successfully", "Failed to update team")
  }

  function DeleteTeamTry(s: Db, uid: int, id: int): Attempt<()> {
    if !IsTeamCreator(s.teams, id, uid) then
      Threw(ApiError(403, "Not authorized to delete this team"))
    else
      Completed((), s.(teams := DeleteTeamRows(s.teams, id)))
  }

  function DeleteTeamSpec(s: Db, uid: int, id: int): Step<()> {
    Rethrow(DeleteTeamTry(s, uid, id), s, 200, "Team deleted successfully", "Failed to delete team")
  }

  function AddMemberTry(s: Db, uid: int, id: int, target: int): Attempt<()> {
    if !IsTeamCreator(s.teams, id, uid) then
      Threw(ApiError(403, "Not authorized to add members to this team"))
    else if UsersById(s.users, target) == [] then
      Threw(ApiError(404, "User to add not found"))
    else
      Completed((), s.(memberships := InsertMembership(s.memberships, id, target)))
  }

  function AddMemberSpec(s: Db, uid: int, id: int, body: MemberBody): Step<()> {
    if !TruthyInt(body.userIdToAdd) then
      Step(Failure(400, "User ID to add is required"), s)
    else
      Rethrow(AddMemberTry(s, uid, id, body.userIdToAdd.value.n), s, 200,
              "Member added to team successfully", "Failed to add member to team")
  }

  // ---------------------------------------------------------------------------
  // The handlers over the shared database

  method CreateTeam(db: Database, caller: Profile, body: TeamBody) returns (r: Response<Team>)
    requires db.Valid()
    modifies db
    ensures db.Valid()
    ensures Step(r, db.State()) == CreateTeamSpec(old(db.State()), caller.id, body)
  {
    if !TruthyText(body.name) || !TruthyText(body.description) {
      return Failure(400, "Name and description are required");
    }
    ghost var s := db.State();
    CreateTeamKeepsConsistent(s, caller.id, body);
    var team := Team(db.nextTeamId, body.name.value, body.description.value, caller.id);
    ghost var after := s.(teams := s.teams + [team], nextTeamId := s.nextTeamId + 1);
    db.teams := db.teams + [team];
    db.nextTeamId := db.nextTeamId + 1;
    assert db.State() == after;
    r := Success(201, team, "Team created successfully");
  }

  method GetTeams(db: Database, caller: Profile) returns (r: Response<seq<Team>>)
    ensures r.Success? && r.status == 200
    ensures forall t :: t in r.data <==> t in db.teams && CreatorOrMember(db.memberships, t, caller.id)
  {
    r := Success(200, VisibleTeams(db.State(), caller.id), "Teams fetched successfully");
  }

  method UpdateTeam(db: Database, caller: Profile, id: int, body: TeamBody) returns (r: Response<Team>)
    requires db.Valid()
    modifies db
    ensures db.Valid()
    ensures Step(r, db.State()) == UpdateTeamSpec(old(db.State()), caller.id, id, body)
  {
    if !TruthyText(body.name) && !TruthyText(body.description) {
      return Failure(400, "At least one of name or description must be provided");
    }
    ghost var s := db.State();
    UpdateTeamKeepsConsistent(s, caller.id, id, body);
    var thrown: Option<ApiError> := None;
    // try
    if CreatedTeams(db.teams, id, caller.id) == [] {
      thrown := Some(ApiError(403, "Not authorized to update this team"));
    } else {
      UpdatedTeamReturned(db.teams, id, caller.id, body);
      ghost var after := s.(teams := UpdateTeamRows(s.teams, id, body));
      db.teams := UpdateTeamRows(db.teams, id, body);
      assert db.State() == after;
      r := Success(200, TeamsById(db.teams, id)[0], "Team updated successfully");
      assert UpdateTeamTry(s, caller.id, id, body) == Completed(r.data, after);
    }
    // catch
    if thrown.Some? {
      r := Failure(500, "Failed to update team");
      assert UpdateTeamTry(s, caller.id, id, body).Threw?;
    }
  }

  method DeleteTeam(db: Database, caller: Profile, id: int) returns (r: Response<()>)
    requires db.Valid()
    modifies db
    ensures db.Valid()
    ensures Step(r, db.State()) == DeleteTeamSpec(old(db.State()), caller.id, id)
  {
    DeleteTeamKeepsConsistent(db.State(), caller.id, id);
    var thrown: Option<ApiError> := None;
    // try
    if CreatedTeams(db.teams, id, caller.id) == [] {
      thrown := Some(ApiError(403, "Not authorized to delete this team"));
    } else {
      db.teams := DeleteTeamRows(db.teams, id);
      r := Success(200, (), "Team deleted successfully");
    }
    // catch
    if thrown.Some? {
      r := Failure(500, "Failed to delete team");
    }
  }

  method AddMemberToTeam(db: Database, caller: Profile, id: int, body: MemberBody) returns (r: Response<()>)
    requires db.Valid()
    modifies db
    ensures db.Valid()
    ensures Step(r, db.State()) == AddMemberSpec(old(db.State()), caller.id, id, body)
  {
    if !TruthyInt(body.userIdToAdd) {
      return Failure(400, "User ID to add is required");
    }
    var target := body.userIdToAdd.value.n;
    ghost var s := db.State();
    AddMemberKeepsConsistent(s, caller.id, id, body);
    var thrown: Option<ApiError> := None;
    // try
    if CreatedTeams(db.teams, id, caller.id) == [] {
      thrown := Some(ApiError(403, "Not authorized to add members to this team"));
    } else if UsersById(db.users, target) == [] {
      thrown := Some(ApiError(404, "User to add not found"));
    } else {
      ghost var after := s.(memberships := InsertMembership(s.memberships, id, target));
      db.memberships := InsertMembership(db.memberships, id, target);
      assert db.State() == after;
      r := Success(200, (), "Member added to team successfully");
      assert AddMemberTry(s, caller.id, id, target) == Completed((), after);
    }
    // catch
    if thrown.Some? {
      r := Failure(500, "Failed to add member to team");
      assert AddMemberTry(s, caller.id, id, target).Threw?;
    }
  }

  // ---------------------------------------------------------------------------
  // Properties

  /** The creator check finds a row exactly when the team exists and belongs to
      the caller: a missing team and someone else's team are not told apart. */
  lemma IsTeamCreatorMeans(teams: seq<Team>, id: int, uid: int)
    ensures IsTeamCreator(teams, id, uid) <==> exists t :: t in teams && t.id == id && t.creatorId == uid
  {
    if IsTeamCreator(teams, id, uid) {
      assert CreatedTeams(teams, id, uid)[0] in CreatedTeams(teams, id, uid);
    }
  }

  /** After the creator check passes, `RETURNING *` yields a row. */
  lemma UpdatedTeamReturned(teams: seq<Team>, id: int, uid: int, body: TeamBody)
    requires IsTeamCreator(teams, id, uid)
    ensures TeamsById(UpdateTeamRows(teams, id, body), id) != []
  {
    var found := CreatedTeams(teams, id, uid);
    assert found[0] in found;
    var i :| 0 <= i < |teams| && teams[i] == found[0];
    var updated := UpdateTeamRows(teams, id, body);
    assert updated[i].id == id;
    assert updated[i] in TeamsById(updated, id);
  }

  lemma CreateTeamRejectsMissingField(s: Db, uid: int, body: TeamBody)
    requires !TruthyText(body.name) || !TruthyText(body.description)
    ensures CreateTeamSpec(s, uid, body) == Step(Failure(400, "Name and description are required"), s)
  {
  }

  /** A created team is a single new row owned by the caller, returned as inserted. */
  lemma CreateTeamInsertsOne(s: Db, uid: int, body: TeamBody)
    requires Consistent(s)
    requires TruthyText(body.name) && TruthyText(body.description)
    ensures var r := CreateTeamSpec(s, uid, body);
      && r.response.Success? && r.response.status == 201
      && var t := r.response.data;
      && t.creatorId == uid && t.name == body.name.value && t.description == body.description.value
      && (forall u :: u in s.teams ==> u.id != t.id)
      && r.db.teams == s.teams + [t]
      && r.db.users == s.users && r.db.memberships == s.memberships && r.db.tasks == s.tasks
  {
  }

  /** `getTeams` lists a team exactly when the caller created it or has a membership row in it. */
  lemma GetTeamsExact(s: Db, uid: int, t: Team)
    ensures t in VisibleTeams(s, uid) <==>
      t in s.teams && (t.creatorId == uid || exists m :: m in s.memberships && m.teamId == t.id && m.userId == uid)
  {
  }

  /** The `id IN (SELECT ...)` form lists a team once, however many ways the
      caller is in it: under the primary key every listed team appears exactly once. */
  lemma GetTeamsListsEachOnce(s: Db, uid: int, t: Team)
    requires DistinctBy(s.teams, TeamId)
    requires t in VisibleTeams(s, uid)
    ensures multiset(VisibleTeams(s, uid))[t] == 1
  {
    WhereCounts(s.teams, (x: Team) => CreatorOrMember(s.memberships, x, uid));
    DistinctStoredOnce(s.teams, TeamId, t);
  }

  /** With neither field truthy the update is refused before the tables are looked at. */
  lemma UpdateTeamNeedsAField(s: Db, s': Db, uid: int, id: int, body: TeamBody)
    requires !TruthyText(body.name) && !TruthyText(body.description)
    ensures UpdateTeamSpec(s, uid, id, body).response == UpdateTeamSpec(s', uid, id, body).response
    ensures UpdateTeamSpec(s, uid, id, body)
         == Step(Failure(400, "At least one of name or description must be provided"), s)
  {
  }

  /** Unless the team exists with the caller as creator, update, delete and
      add-member change nothing, and their 403 surfaces as a 500. */
  lemma OnlyCreatorChangesTeam(s: Db, uid: int, id: int, body: TeamBody, member: MemberBody)
    requires !(exists t :: t in s.teams && t.id == id && t.creatorId == uid)
    ensures TruthyText(body.name) || TruthyText(body.description) ==>
      UpdateTeamSpec(s, uid, id, body) == Step(Failure(500, "Failed to update team"), s)
    ensures DeleteTeamSpec(s, uid, id) == Step(Failure(500, "Failed to delete team"), s)
    ensures TruthyInt(member.userIdToAdd) ==>
      AddMemberSpec(s, uid, id, member) == Step(Failure(500, "Failed to add member to team"), s)
  {
    IsTeamCreatorMeans(s.teams, id, uid);
  }

  /** No team handler ever replies 403 or 404. */
  lemma TeamRepliesNeverForbidden(s: Db, uid: int, id: int, body: TeamBody, member: MemberBody)
    ensures UpdateTeamSpec(s, uid, id, body).response.Status() in {200, 400, 500}
    ensures DeleteTeamSpec(s, uid, id).response.Status() in {200, 500}
    ensures AddMemberSpec(s, uid, id, member).response.Status() in {200, 400, 500}
  {
  }

  /** The UPDATE keeps every row's id in place, so the primary key still holds. */
  lemma UpdateTeamRowsKeepIds(teams: seq<Team>, id: int, body: TeamBody)
    ensures var u := UpdateTeamRows(teams, id, body);
      && |u| == |teams|
      && (forall i :: 0 <= i < |u| ==> u[i] == if teams[i].id == id then Renamed(teams[i], body) else teams[i])
      && (forall i :: 0 <= i < |u| ==> u[i].id == teams[i].id)
      && (DistinctBy(teams, TeamId) ==> DistinctBy(u, TeamId))
  {
    var u := UpdateTeamRows(teams, id, body);
    forall i | 0 <= i < |u| ensures u[i] == if teams[i].id == id then Renamed(teams[i], body) else teams[i] {
    }
  }

  /** With a primary key, the row `RETURNING *` gives back is the team as rewritten. */
  lemma UpdatedRowReturned(teams: seq<Team>, id: int, body: TeamBody, prior: Team)
    requires DistinctBy(teams, TeamId)
    requires prior in teams && prior.id == id
    ensures TeamsById(UpdateTeamRows(teams, id, body), id) != []
    ensures TeamsById(UpdateTeamRows(teams, id, body), id)[0] == Renamed(prior, body)
  {
    var u := UpdateTeamRows(teams, id, body);
    UpdateTeamRowsKeepIds(teams, id, body);
    var i :| 0 <= i < |teams| && teams[i] == prior;
    assert u[i] == Renamed(prior, body);
    assert u[i] in TeamsById(u, id);
    var returned := TeamsById(u, id)[0];
    assert returned in TeamsById(u, id);
    DistinctRowsAgree(u, TeamId, returned, u[i]);
  }

  /** A successful update rewrites only the caller's team, keeps each omitted
      (NULL) field's old value, and returns the rewritten row. */
  lemma UpdateTeamCoalesces(s: Db, uid: int, id: int, body: TeamBody, prior: Team)
    requires Consistent(s)
    requires TruthyText(body.name) || TruthyText(body.description)
    requires prior in s.teams && prior.id == id && prior.creatorId == uid
    ensures var r := UpdateTeamSpec(s, uid, id, body);
      && r.response == Success(200, Renamed(prior, body), "Team updated successfully")
      && |r.db.teams| == |s.teams|
      && (forall i :: 0 <= i < |s.teams| ==>
            r.db.teams[i] == if s.teams[i].id == id then Renamed(s.teams[i], body) else s.teams[i])
      && r.db.users == s.users && r.db.memberships == s.memberships && r.db.tasks == s.tasks
  {
    IsTeamCreatorMeans(s.teams, id, uid);
    var teams := UpdateTeamRows(s.teams, id, body);
    UpdatedRowReturned(s.teams, id, body, prior);
    UpdateTeamRowsKeepIds(s.teams, id, body);
    assert UpdateTeamTry(s, uid, id, body) == Completed(Renamed(prior, body), s.(teams := teams));
  }

  /** Deleting a team removes exactly its row; memberships and tasks that refer to it stay. */
  lemma DeleteTeamRemovesOnlyTeamRow(s: Db, uid: int, id: int)
    requires IsTeamCreator(s.teams, id, uid)
    ensures var r := DeleteTeamSpec(s, uid, id);
      && r.response == Success(200, (), "Team deleted successfully")
      && (forall t :: t in r.db.teams <==> t in s.teams && t.id != id)
      && r.db.users == s.users && r.db.memberships == s.memberships && r.db.tasks == s.tasks
  {
  }

  /** Adding a user who does not exist adds nothing (the 404 surfaces as 500). */
  lemma AddMemberNeedsUser(s: Db, uid: int, id: int, body: MemberBody)
    requires TruthyInt(body.userIdToAdd)
    requires forall u :: u in s.users ==> u.id != body.userIdToAdd.value.n
    ensures AddMemberSpec(s, uid, id, body) == Step(Failure(500, "Failed to add member to team"), s)
  {
  }

  /** A successful add leaves the user a member of the team; a new row has role 'member'. */
  lemma AddMemberMakesMember(s: Db, uid: int, id: int, body: MemberBody)
    requires AddMemberSpec(s, uid, id, body).response.Success?
    ensures var r := AddMemberSpec(s, uid, id, body);
      && IsMember(r.db.memberships, id, body.userIdToAdd.value.n)
      && (forall m :: m in r.db.memberships && m !in s.memberships ==>
            m == Membership(id, body.userIdToAdd.value.n, "member"))
      && r.db.teams == s.teams && r.db.users == s.users && r.db.tasks == s.tasks
  {
    var m := Membership(id, body.userIdToAdd.value.n, "member");
    if !IsMember(s.memberships, id, body.userIdToAdd.value.n) {
      assert m in s.memberships + [m];
    }
  }

  /** Repeating an add changes nothing more and answers the same. */
  lemma AddMemberIdempotent(s: Db, uid: int, id: int, body: MemberBody)
    ensures var once := AddMemberSpec(s, uid, id, body);
      AddMemberSpec(once.db, uid, id, body) == once
  {
    var once := AddMemberSpec(s, uid, id, body);
    if once.response.Success? {
      AddMemberMakesMember(s, uid, id, body);
    }
  }

  // ---------------------------------------------------------------------------
  // The database's integrity is kept

  lemma CreateTeamKeepsConsistent(s: Db, uid: int, body: TeamBody)
    requires Consistent(s)
    ensures Consistent(CreateTeamSpec(s, uid, body).db)
  {
    if TruthyText(body.name) && TruthyText(body.description) {
      var team := Team(s.nextTeamId, body.name.value, body.description.value, uid);
      AppendKeepsDistinct(s.teams, team, TeamId);
    }
  }

  lemma UpdateTeamKeepsConsistent(s: Db, uid: int, id: int, body: TeamBody)
    requires Consistent(s)
    ensures Consistent(UpdateTeamSpec(s, uid, id, body).db)
  {
    var teams := UpdateTeamRows(s.teams, id, body);
    UpdateTeamRowsKeepIds(s.teams, id, body);
    forall t | t in teams ensures t.id < s.nextTeamId {
      var i :| 0 <= i < |teams| && teams[i] == t;
      assert s.teams[i] in s.teams;
    }
  }

  lemma DeleteTeamKeepsConsistent(s: Db, uid: int, id: int)
    requires Consistent(s)
    ensures Consistent(DeleteTeamSpec(s, uid, id).db)
  {
    WhereKeepsDistinct(s.teams, (t: Team) => t.id != id, TeamId);
  }

  lemma AddMemberKeepsConsistent(s: Db, uid: int, id: int, body: MemberBody)
    requires Consistent(s)
    ensures Consistent(AddMemberSpec(s, uid, id, body).db)
  {
    if TruthyInt(body.userIdToAdd) {
      var target := body.userIdToAdd.value.n;
      if !IsMember(s.memberships, id, target) {
        AppendKeepsDistinct(s.memberships, Membership(id, target, "member"), MemberKey);
      }
    }
  }
}

/** The community endpoints that shape mining: the team statistics screen and
    the personal invite code. Both give the user a team of their own when the
    user has none, and issue the user's personal invite code when missing. */
module CommunityController {
  import opened Common
  import opened UserModel
  import opened TeamCounts
  import opened Database

  /** The team bonus, in percent, per active member besides the user. */
  const PercentPerMember: nat := 2

  /** The inactive-penalty field: the text "null" with no inactive member,
      otherwise a penalty in percent. */
  datatype PenaltyDisplay = NoPenalty | Penalty(percent: nat)

  datatype TeamStats = TeamStats(
    members: nat,
    active: nat,
    inactive: nat,
    bonusPercent: nat,
    penalty: PenaltyDisplay,
    inviteCode: string,
    isOwner: bool,
    maxTeamSize: nat,
    slotsAvailable: int)

  /** The statistics shown for a team of the given counts. The bonus is 2% per
      member besides the user, less 2% per inactive member, never below zero:
      that is 2% per active member besides one. */
  function StatsOf(c: Counts, inviteCode: string, isOwner: bool): (s: TeamStats)
    ensures s.members == c.members && s.active == c.active && s.inactive == c.inactive
    ensures c.active + c.inactive == c.members && 1 <= c.members ==>
      s.bonusPercent == if c.active == 0 then 0 else PercentPerMember * (c.active - 1)
    ensures 1 <= c.members ==> s.bonusPercent <= PercentPerMember * (c.members - 1)
    ensures s.penalty == NoPenalty <==> c.inactive == 0
    ensures s.penalty.Penalty? ==> s.penalty.percent == PercentPerMember * c.inactive
    ensures s.members + s.slotsAvailable == MaxTeamSize
  {
    var bonus := (c.members - 1) * PercentPerMember;
    var penalty := c.inactive * PercentPerMember;
    TeamStats(
      c.members, c.active, c.inactive,
      Max(0, bonus - penalty),
      if c.inactive > 0 then Penalty(penalty) else NoPenalty,
      inviteCode, isOwner,
      MaxTeamSize, MaxTeamSize - c.members)
  }

  /** The new `users` and `teams` tables after the user was given a team of
      their own, when needed: a user without a team gets a new team they own,
      with the owner bonus (always when `alwaysBonus`, otherwise only from the
      default rate); a user whose team row is missing gets a new team without a
      bonus; a user whose team exists is left as is. */
  ghost predicate TeamAssigned(users0: map<nat, Account>, teams0: map<nat, Team>,
                               users1: map<nat, Account>, teams1: map<nat, Team>,
                               userId: nat, newTeamId: nat, newTeamCode: string, alwaysBonus: bool)
    requires userId in users0
  {
    var a := users0[userId];
    if a.teamId.Some? && a.teamId.value in teams0 then
      users1 == users0 && teams1 == teams0
    else
      var rate := if a.teamId.None? && (alwaysBonus || a.miningRate == DefaultRate)
                  then a.miningRate + OwnerBonus else a.miningRate;
      teams1 == teams0[newTeamId := Team(newTeamCode, Some(userId))] &&
      users1 == users0[userId := a.(teamId := Some(newTeamId), miningRate := rate)]
  }

  /** After the assignment the user belongs to an existing team, no other user
      changed, and a second assignment changes nothing. */
  lemma TeamAssignmentSettles(users0: map<nat, Account>, teams0: map<nat, Team>,
                              users1: map<nat, Account>, teams1: map<nat, Team>,
                              userId: nat, newTeamId: nat, newTeamCode: string, alwaysBonus: bool,
                              laterTeamId: nat, laterCode: string, laterBonus: bool)
    requires userId in users0
    requires TeamAssigned(users0, teams0, users1, teams1, userId, newTeamId, newTeamCode, alwaysBonus)
    ensures userId in users1 && users1.Keys == users0.Keys
    ensures users1[userId].teamId.Some? && users1[userId].teamId.value in teams1
    ensures forall v :: v in users0 && v != userId ==> users1[v] == users0[v]
    ensures TeamAssigned(users1, teams1, users1, teams1, userId, laterTeamId, laterCode, laterBonus)
  {
  }

  /** The owner bonus from the statistics screen is added only to a user at the
      default rate; a user already above it keeps their rate. */
  lemma StatsBonusOnlyFromDefault(users0: map<nat, Account>, teams0: map<nat, Team>,
                                  users1: map<nat, Account>, teams1: map<nat, Team>,
                                  userId: nat, newTeamId: nat, newTeamCode: string)
    requires userId in users0 && users0[userId].miningRate != DefaultRate
    requires TeamAssigned(users0, teams0, users1, teams1, userId, newTeamId, newTeamCode, false)
    ensures userId in users1 && users1[userId].miningRate == users0[userId].miningRate
  {
  }

  /** The invite-code table after `getTeamStats`: a user without a code gets
      the fresh one for their team; an issued code is left as is. */
  function IssueCode(rows: seq<InviteCode>, userId: nat, teamId: nat, freshCode: string): (r: seq<InviteCode>)
    ensures CodeOf(r, userId).Some?
    ensures CodeOf(rows, userId).Some? ==> r == rows
    ensures CodeOf(rows, userId).None? ==>
      r == rows + [InviteCode(userId, teamId, freshCode)] && CodeOf(r, userId) == Some(freshCode)
    ensures UniqueCodeOwners(rows) ==> UniqueCodeOwners(r)
    ensures forall ids: set<nat> :: CodesOwnedBy(rows, ids) && userId in ids ==> CodesOwnedBy(r, ids)
  {
    if CodeRowOf(rows, userId).Some? then rows
    else
      var row := InviteCode(userId, teamId, freshCode);
      AddCodeKeepsOwnersUnique(rows, row);
      rows + [row]
  }

  /** The invite-code table after `generateInviteCode`: an issued code keeps its
      text and is pointed at the user's team; a missing one is issued. */
  function RetargetCode(rows: seq<InviteCode>, userId: nat, teamId: nat, freshCode: string): (r: seq<InviteCode>)
    ensures CodeRowOf(r, userId).Some? && r[CodeRowOf(r, userId).value].teamId == teamId
    ensures CodeOf(rows, userId).Some? ==> CodeOf(r, userId) == CodeOf(rows, userId) && |r| == |rows|
    ensures CodeOf(rows, userId).None? ==>
      r == rows + [InviteCode(userId, teamId, freshCode)] && CodeOf(r, userId) == Some(freshCode)
    ensures forall i :: 0 <= i < |rows| && rows[i].userId != userId ==> r[i] == rows[i]
    ensures UniqueCodeOwners(rows) ==> UniqueCodeOwners(r)
    ensures forall ids: set<nat> :: CodesOwnedBy(rows, ids) && userId in ids ==> CodesOwnedBy(r, ids)
  {
    match CodeRowOf(rows, userId)
    case None => IssueCode(rows, userId, teamId, freshCode)
    case Some(k) =>
      if rows[k].teamId != teamId then
        RetargetKeepsOwnersUnique(rows, k, teamId, userId);
        rows[k := rows[k].(teamId := teamId)]
      else rows
  }

  /** Once issued, a user's invite code never changes: neither endpoint
      replaces it, however often it is called. */
  lemma {:induction false} IssuedCodeNeverChanges(rows: seq<InviteCode>, userId: nat, calls: seq<(bool, nat, string)>)
    requires CodeOf(rows, userId).Some?
    ensures CodeOf(Replay(rows, userId, calls), userId) == CodeOf(rows, userId)
    decreases |calls|
  {
    if calls != [] {
      var (retarget, teamId, freshCode) := calls[0];
      var next := if retarget then RetargetCode(rows, userId, teamId, freshCode) else IssueCode(rows, userId, teamId, freshCode);
      assert CodeOf(next, userId) == CodeOf(rows, userId);
      IssuedCodeNeverChanges(next, userId, calls[1..]);
    }
  }

  /** A series of calls by one user: `getTeamStats` (false) or
      `generateInviteCode` (true), each with its team and fresh code. */
  function Replay(rows: seq<InviteCode>, userId: nat, calls: seq<(bool, nat, string)>): seq<InviteCode>
    decreases |calls|
  {
    if calls == [] then rows
    else
      var (retarget, teamId, freshCode) := calls[0];
      var next := if retarget then RetargetCode(rows, userId, teamId, freshCode) else IssueCode(rows, userId, teamId, freshCode);
      Replay(next, userId, calls[1..])
  }

  /** Gives the user a team of their own when needed (shared by both endpoints). */
  method AssignTeam(db: Database, userId: nat, newTeamId: nat, newTeamCode: string, alwaysBonus: bool)
    returns (teamId: nat)
    requires db.Valid() && userId in db.users && newTeamId !in db.teams
    modifies db`users, db`teams
    ensures db.Valid()
    ensures TeamAssigned(old(db.users), old(db.teams), db.users, db.teams, userId, newTeamId, newTeamCode, alwaysBonus)
    ensures userId in db.users && db.users[userId].teamId == Some(teamId) && teamId in db.teams
  {
    var a := db.users[userId];
    if a.teamId.None? {
      db.teams := db.teams[newTeamId := Team(newTeamCode, Some(userId))];
      var rate := a.miningRate;
      if alwaysBonus || rate == DefaultRate {
        rate := rate + OwnerBonus;
      }
      db.users := db.users[userId := a.(teamId := Some(newTeamId), miningRate := rate)];
      teamId := newTeamId;
    } else if a.teamId.value !in db.teams {
      db.teams := db.teams[newTeamId := Team(newTeamCode, Some(userId))];
      db.users := db.users[userId := a.(teamId := Some(newTeamId))];
      teamId := newTeamId;
    } else {
      teamId := a.teamId.value;
    }
  }

  /** `getTeamStats`: the team screen of the user, after giving them a team and
      a personal invite code when missing. A user row that is missing makes the
      action fail with a server error. */
  method GetTeamStats(db: Database, userId: nat, now: int, newTeamId: nat, newTeamCode: string, newInviteCode: string)
    returns (r: Reply<TeamStats>)
    requires db.Valid() && newTeamId !in db.teams
    modifies db`users, db`teams, db`inviteCodes
    ensures db.Valid()
    ensures userId !in old(db.users) ==>
      r == Failure(ServerError) &&
      db.users == old(db.users) && db.teams == old(db.teams) && db.inviteCodes == old(db.inviteCodes)
    ensures userId in old(db.users) ==>
      TeamAssigned(old(db.users), old(db.teams), db.users, db.teams, userId, newTeamId, newTeamCode, false) &&
      userId in db.users && db.users[userId].teamId.Some? && db.users[userId].teamId.value in db.teams
    ensures userId in old(db.users) ==>
      var teamId := db.users[userId].teamId.value;
      db.inviteCodes == IssueCode(old(db.inviteCodes), userId, teamId, newInviteCode) &&
      r == Success(StatsOf(TeamCount(db.users[userId], ReferredIds(db.referrals, userId), db.users, now),
                           CodeOf(db.inviteCodes, userId).value,
                           db.teams[teamId].ownerId == Some(userId)))
  {
    if userId !in db.users {
      return Failure(ServerError);
    }
    var teamId := AssignTeam(db, userId, newTeamId, newTeamCode, false);
    var row := CodeRowOf(db.inviteCodes, userId);
    var code;
    if row.None? {
      db.inviteCodes := db.inviteCodes + [InviteCode(userId, teamId, newInviteCode)];
      code := newInviteCode;
    } else {
      code := db.inviteCodes[row.value].code;
    }
    assert db.inviteCodes == IssueCode(old(db.inviteCodes), userId, teamId, newInviteCode);
    var counts := TeamCount(db.users[userId], ReferredIds(db.referrals, userId), db.users, now);
    r := Success(StatsOf(counts, code, db.teams[teamId].ownerId == Some(userId)));
  }

  datatype InviteView = InviteView(inviteCode: string, teamId: nat, members: nat, slotsAvailable: int)

  /** `generateInviteCode`: the user's personal invite code, pointed at their
      team. The team given to a user without one is kept even when the user's
      referrals already fill the team and the action answers 400. */
  method GenerateInviteCode(db: Database, userId: nat, newTeamId: nat, newTeamCode: string, newInviteCode: string)
    returns (r: Reply<InviteView>)
    requires db.Valid() && newTeamId !in db.teams
    modifies db`users, db`teams, db`inviteCodes
    ensures db.Valid()
    ensures userId !in old(db.users) ==>
      r == Failure(NotFound) &&
      db.users == old(db.users) && db.teams == old(db.teams) && db.inviteCodes == old(db.inviteCodes)
    ensures userId in old(db.users) ==>
      TeamAssigned(old(db.users), old(db.teams), db.users, db.teams, userId, newTeamId, newTeamCode, true) &&
      userId in db.users && db.users[userId].teamId.Some? && db.users[userId].teamId.value in db.teams
    ensures userId in old(db.users) && ReferralCount(db.referrals, userId) >= MaxTeamSize ==>
      r == Failure(BadRequest) && db.inviteCodes == old(db.inviteCodes)
    ensures userId in old(db.users) && ReferralCount(db.referrals, userId) < MaxTeamSize ==>
      var teamId := db.users[userId].teamId.value;
      var count := ReferralCount(db.referrals, userId);
      db.inviteCodes == RetargetCode(old(db.inviteCodes), userId, teamId, newInviteCode) &&
      r == Success(InviteView(CodeOf(db.inviteCodes, userId).value, teamId, count, MaxTeamSize - count))
  {
    if userId !in db.users {
      return Failure(NotFound);
    }
    var teamId := AssignTeam(db, userId, newTeamId, newTeamCode, true);
    var count := ReferralCount(db.referrals, userId);
    if count >= MaxTeamSize {
      return Failure(BadRequest);
    }
    var row := CodeRowOf(db.inviteCodes, userId);
    var code;
    if row.Some? && db.inviteCodes[row.value].teamId != teamId {
      db.inviteCodes := db.inviteCodes[row.value := db.inviteCodes[row.value].(teamId := teamId)];
      code := db.inviteCodes[row.value].code;
    } else if row.None? {
      db.inviteCodes := db.inviteCodes + [InviteCode(userId, teamId, newInviteCode)];
      code := newInviteCode;
    } else {
      code := db.inviteCodes[row.value].code;
    }
    assert db.inviteCodes == RetargetCode(old(db.inviteCodes), userId, teamId, newInviteCode);
    r := Success(InviteView(code, teamId, count, MaxTeamSize - count));
  }
}

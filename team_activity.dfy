/** The scheduled team-activity check: for every team with at least two users,
    lower the owner's mining rate by 0.005 per inactive member, never below 1.0. */
module TeamActivity {
  import opened Common
  import opened UserModel
  import opened Database

  const DecreasePerInactive: real := 0.005
  const RateFloor: real := 1.0

  /** Not mining, or mining in a session that started more than 24 hours ago.
      A session start that is missing never counts as stale. */
  predicate InactiveMember(a: Account, now: int)
  {
    a.status != Active || (a.status == Active && a.sessionStart.Some? && a.sessionStart.value < now - SecondsPerDay)
  }

  function Members(users: map<nat, Account>, teamId: nat): set<nat>
  {
    set u | u in users && users[u].teamId == Some(teamId)
  }

  /** The team's inactive users; the owner is never among them. */
  function InactiveMembers(users: map<nat, Account>, teamId: nat, ownerId: nat, now: int): (r: set<nat>)
    ensures ownerId !in r
    ensures r <= Members(users, teamId)
  {
    set u | u in users && users[u].teamId == Some(teamId) && u != ownerId && InactiveMember(users[u], now)
  }

  /** The owner's new rate: lowered by the full decrease, or down to the floor,
      and kept as it was when that would not lower it. */
  function DecayedRate(rate: real, inactive: nat): (r: real)
    ensures r <= rate
    ensures rate <= RateFloor || inactive == 0 ==> r == rate
    ensures r < rate ==> RateFloor <= r && RateFloor < rate
    ensures r < rate ==> r == MaxReal(RateFloor, rate - DecreasePerInactive * inactive as real)
    ensures rate - DecreasePerInactive * inactive as real >= RateFloor ==>
      r == rate - DecreasePerInactive * inactive as real
    ensures RateFloor < rate && inactive > 0 ==>
      r == MaxReal(RateFloor, rate - DecreasePerInactive * inactive as real) && r < rate
  {
    var newRate := MaxReal(RateFloor, rate - DecreasePerInactive * inactive as real);
    var actualDecrease := rate - newRate;
    if actualDecrease > 0.0 then newRate else rate
  }

  /** The owner a team's check applies to: its owner, when the owner's row exists. */
  function ExistingOwner(users: map<nat, Account>, team: Team): Option<nat>
  {
    if team.ownerId.Some? && team.ownerId.value in users then team.ownerId else None
  }

  /** One iteration of the check, on one team. */
  function DecayTeam(users: map<nat, Account>, team: Team, teamId: nat, now: int): (r: map<nat, Account>)
    ensures r.Keys == users.Keys
    ensures forall u :: u in users ==> r[u] == users[u].(miningRate := r[u].miningRate)
    ensures forall u :: u in users ==> r[u].miningRate <= users[u].miningRate
    ensures forall u :: u in users && r[u].miningRate < users[u].miningRate ==>
      team.ownerId == Some(u) && RateFloor <= r[u].miningRate && RateFloor < users[u].miningRate
    ensures forall u :: u in users && r[u].miningRate < users[u].miningRate ==>
      r[u].miningRate ==
        MaxReal(RateFloor, users[u].miningRate - DecreasePerInactive * |InactiveMembers(users, teamId, u, now)| as real)
    ensures forall o ::
      (|Members(users, teamId)| > 1 && ExistingOwner(users, team) == Some(o) &&
       RateFloor < users[o].miningRate && |InactiveMembers(users, teamId, o, now)| > 0) ==>
      r[o].miningRate < users[o].miningRate
  {
    if |Members(users, teamId)| <= 1 then users
    else match ExistingOwner(users, team)
      case None => users
      case Some(owner) =>
        var inactive := |InactiveMembers(users, teamId, owner, now)|;
        if inactive == 0 then users
        else users[owner := users[owner].(miningRate := DecayedRate(users[owner].miningRate, inactive))]
  }

  /** The whole run, over the teams in the order the query returns them. */
  function DecayAll(users: map<nat, Account>, teams: map<nat, Team>, order: seq<nat>, now: int): map<nat, Account>
    requires forall i :: 0 <= i < |order| ==> order[i] in teams
  {
    if order == [] then users
    else DecayAll(DecayTeam(users, teams[order[0]], order[0], now), teams, order[1..], now)
  }

  /** Teams with a single user, without an existing owner, or without inactive
      members are left untouched. */
  lemma QuietTeamsUntouched(users: map<nat, Account>, team: Team, teamId: nat, now: int)
    requires |Members(users, teamId)| <= 1 || ExistingOwner(users, team).None? ||
             |InactiveMembers(users, teamId, ExistingOwner(users, team).value, now)| == 0
    ensures DecayTeam(users, team, teamId, now) == users
  {
  }

  predicate OwnsOneOf(u: nat, teams: map<nat, Team>, order: seq<nat>)
    requires forall i :: 0 <= i < |order| ==> order[i] in teams
  {
    exists i :: 0 <= i < |order| && teams[order[i]].ownerId == Some(u)
  }

  /** A run changes nothing but mining rates; it never raises one; it only lowers
      the rate of a team owner whose rate was above 1.0, and never below 1.0. */
  lemma {:induction false} DecayAllLowersOnlyOwnerRates(users: map<nat, Account>, teams: map<nat, Team>,
                                                        order: seq<nat>, now: int)
    requires forall i :: 0 <= i < |order| ==> order[i] in teams
    ensures var r := DecayAll(users, teams, order, now);
      r.Keys == users.Keys &&
      (forall u :: u in users ==> r[u] == users[u].(miningRate := r[u].miningRate)) &&
      (forall u :: u in users ==> r[u].miningRate <= users[u].miningRate) &&
      (forall u :: u in users && r[u].miningRate < users[u].miningRate ==>
        RateFloor <= r[u].miningRate && RateFloor < users[u].miningRate && OwnsOneOf(u, teams, order))
  {
    if order != [] {
      var step := DecayTeam(users, teams[order[0]], order[0], now);
      DecayAllLowersOnlyOwnerRates(step, teams, order[1..], now);
      var r := DecayAll(users, teams, order, now);
      assert r == DecayAll(step, teams, order[1..], now);
      forall u | u in users && r[u].miningRate < users[u].miningRate
        ensures RateFloor <= r[u].miningRate && RateFloor < users[u].miningRate && OwnsOneOf(u, teams, order)
      {
        if r[u].miningRate < step[u].miningRate {
          var i :| 0 <= i < |order[1..]| && teams[order[1..][i]].ownerId == Some(u);
          assert teams[order[i + 1]].ownerId == Some(u);
        } else {
          assert teams[order[0]].ownerId == Some(u);
        }
      }
    }
  }

  /** A rate at or below 1.0 survives a run unchanged. */
  lemma LowRatesNeverDecay(users: map<nat, Account>, teams: map<nat, Team>, order: seq<nat>, now: int, u: nat)
    requires forall i :: 0 <= i < |order| ==> order[i] in teams
    requires u in users && users[u].miningRate <= RateFloor
    ensures u in DecayAll(users, teams, order, now) && DecayAll(users, teams, order, now)[u] == users[u]
  {
    DecayAllLowersOnlyOwnerRates(users, teams, order, now);
  }

  /** An owner at 1.2 with two inactive members drops to 1.19; an owner at the
      registration rate 0.05 is already below the floor and keeps it. */
  lemma DecayExamples()
    ensures DecayedRate(1.2, 2) == 1.19
    ensures DecayedRate(1.005, 3) == 1.0
    ensures DecayedRate(0.05, 2) == 0.05
  {
  }

  /** The body of the loop: one team's check, applied to the users table. */
  method CheckTeam(db: Database, teamId: nat, team: Team, now: int)
    requires db.Valid()
    modifies db`users
    ensures db.Valid()
    ensures db.users == DecayTeam(old(db.users), team, teamId, now)
  {
    if |Members(db.users, teamId)| > 1 && team.ownerId.Some? && team.ownerId.value in db.users {
      var owner := team.ownerId.value;
      var inactive := |InactiveMembers(db.users, teamId, owner, now)|;
      if inactive > 0 {
        var rate := db.users[owner].miningRate;
        var decrease := DecreasePerInactive * inactive as real;
        var newRate := MaxReal(RateFloor, rate - decrease);
        var actualDecrease := rate - newRate;
        if actualDecrease > 0.0 {
          db.users := db.users[owner := db.users[owner].(miningRate := newRate)];
        } else {
          assert DecayedRate(rate, inactive) == rate;
          assert db.users[owner := db.users[owner].(miningRate := rate)] == db.users;
        }
      }
    }
  }

  /** The run over the teams the query returns: every team with more than one
      user, each of them once. */
  method CheckTeamActivity(db: Database, order: seq<nat>, now: int)
    requires forall i :: 0 <= i < |order| ==> order[i] in db.teams
    requires forall i, j :: 0 <= i < j < |order| ==> order[i] != order[j]
    requires forall t :: t in db.teams && |Members(db.users, t)| > 1 ==> t in order
    requires db.Valid()
    modifies db`users
    ensures db.Valid()
    ensures db.users == DecayAll(old(db.users), db.teams, order, now)
  {
    var i := 0;
    while i < |order|
      invariant 0 <= i <= |order|
      invariant DecayAll(db.users, db.teams, order[i..], now) == DecayAll(old(db.users), db.teams, order, now)
      invariant db.Valid()
    {
      CheckTeam(db, order[i], db.teams[order[i]], now);
      assert order[i..][1..] == order[i + 1..];
      i := i + 1;
    }
  }
}

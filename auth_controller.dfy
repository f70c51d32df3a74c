/** Registration: every new user gets a team of their own and a personal invite
    code, and a user who registers with someone's invite code becomes that
    user's referral, raising the referrer's mining rate. */
module AuthController {
  import opened Common
  import opened UserModel
  import opened Database

  /** The length a supplied team code must have. */
  const TeamCodeLength: nat := 8

  /** Whom a registration refers to: nobody, or the owner of the invite code. */
  datatype Referrer = NoReferrer | ReferredBy(userId: nat, code: string)

  /** The team-code rules of registration. A blank code, of any length, counts
      as not supplied: the validator skips its length rule and the action sees
      no code. A non-blank code of the wrong length fails the request's
      validation; a code that matches no invite code, or whose owner already has
      1000 referrals, is refused. Every refusal is answered with 422. */
  function ResolveTeamCode(codes: seq<InviteCode>, referrals: seq<Referral>, teamCode: Option<string>)
    : (r: Result<Referrer, nat>)
    ensures r.Err? ==> r.error == Unprocessable
    ensures r == Ok(NoReferrer) <==> teamCode.None? || IsBlank(teamCode.value)
    ensures teamCode.Some? && !IsBlank(teamCode.value) && |teamCode.value| != TeamCodeLength ==>
      r == Err(Unprocessable)
    ensures r.Ok? && r.value.ReferredBy? <==>
      teamCode.Some? && |teamCode.value| == TeamCodeLength && !IsBlank(teamCode.value) &&
      CodeRowWithCode(codes, teamCode.value).Some? &&
      ReferralCount(referrals, codes[CodeRowWithCode(codes, teamCode.value).value].userId) < MaxTeamSize
    ensures r.Ok? && r.value.ReferredBy? ==>
      var row := codes[CodeRowWithCode(codes, teamCode.value).value];
      row.code == teamCode.value && r.value == ReferredBy(row.userId, row.code)
  {
    match teamCode
    case None => Ok(NoReferrer)
    case Some(code) =>
      if IsBlank(code) then Ok(NoReferrer)
      else if |code| != TeamCodeLength then Err(Unprocessable)
      else match CodeRowWithCode(codes, code)
        case None => Err(Unprocessable)
        case Some(k) =>
          if ReferralCount(referrals, codes[k].userId) >= MaxTeamSize then Err(Unprocessable)
          else Ok(ReferredBy(codes[k].userId, code))
  }

  /** The referrals table after a successful registration of `userId`. */
  function ReferralsAfter(referrals: seq<Referral>, referrer: Referrer, userId: nat): seq<Referral>
  {
    match referrer
    case NoReferrer => referrals
    case ReferredBy(r, code) => referrals + [Referral(r, userId, code)]
  }

  /** A registration adds at most one referral, to the referrer it resolved
      to, and no referrer goes past 1000 referrals through registration. */
  lemma ReferralCapHolds(codes: seq<InviteCode>, referrals: seq<Referral>, teamCode: Option<string>,
                         userId: nat, other: nat)
    requires ResolveTeamCode(codes, referrals, teamCode).Ok?
    requires ReferralCount(referrals, other) <= MaxTeamSize
    ensures var after := ReferralsAfter(referrals, ResolveTeamCode(codes, referrals, teamCode).value, userId);
      ReferralCount(after, other) <= MaxTeamSize &&
      ReferralCount(after, other) ==
        ReferralCount(referrals, other) +
        (if ResolveTeamCode(codes, referrals, teamCode).value.ReferredBy? &&
            ResolveTeamCode(codes, referrals, teamCode).value.userId == other then 1 else 0)
  {
    var referrer := ResolveTeamCode(codes, referrals, teamCode).value;
    if referrer.ReferredBy? {
      ReferredIdsAppend(referrals, Referral(referrer.userId, userId, referrer.code), other);
    }
  }

  /** The users row a registration creates: owner of its own new team, idle,
      with a zero balance checkpointed at registration time, at the default
      rate plus the owner bonus. */
  function NewAccount(teamId: nat, now: int): Account
  {
    Account(0.0, DefaultRate + OwnerBonus, now, Some(now), None, None, Idle, Some(teamId))
  }

  /** A new account has no session, may start mining at once, and earns the
      passive rate until it does. */
  lemma NewAccountStartsIdle(teamId: nat, now: int, teamSize: nat, hours: nat)
    ensures WellFormed(NewAccount(teamId, now))
    ensures CanStartMining(NewAccount(teamId, now), now)
    ensures CurrentBalance(NewAccount(teamId, now), now + hours * SecondsPerHour, teamSize) == PassiveRate * hours as real
  {
    PassiveAccrual(NewAccount(teamId, now), now + hours * SecondsPerHour, teamSize, hours);
  }

  /** The team-code checks as the action performs them, before any write. */
  method CheckTeamCode(db: Database, teamCode: Option<string>) returns (res: Result<Referrer, nat>)
    requires db.Valid()
    ensures res == ResolveTeamCode(db.inviteCodes, db.referrals, teamCode)
    ensures res.Ok? && res.value.ReferredBy? ==> res.value.userId in db.users
  {
    if teamCode.None? || IsBlank(teamCode.value) {
      return Ok(NoReferrer);
    }
    if |teamCode.value| != TeamCodeLength {
      return Err(Unprocessable);
    }
    var row := CodeRowWithCode(db.inviteCodes, teamCode.value);
    if row.None? {
      return Err(Unprocessable);
    }
    var owner := db.inviteCodes[row.value].userId;
    if ReferralCount(db.referrals, owner) >= MaxTeamSize {
      return Err(Unprocessable);
    }
    return Ok(ReferredBy(owner, teamCode.value));
  }

  /** `register`: the fresh ids and random codes are parameters. A refused team
      code leaves every table as it was (the whole action is one transaction). */
  method Register(db: Database, teamCode: Option<string>, userId: nat, teamId: nat,
                  newTeamCode: string, personalCode: string, now: int) returns (r: Reply<nat>)
    requires db.Valid() && userId !in db.users && teamId !in db.teams
    modifies db`users, db`teams, db`referrals, db`inviteCodes
    ensures db.Valid()
    ensures match ResolveTeamCode(old(db.inviteCodes), old(db.referrals), teamCode)
      case Err(status) =>
        r == Failure(status) &&
        db.users == old(db.users) && db.teams == old(db.teams) &&
        db.referrals == old(db.referrals) && db.inviteCodes == old(db.inviteCodes)
      case Ok(referrer) =>
        r == Success(userId) &&
        db.teams == old(db.teams)[teamId := Team(newTeamCode, Some(userId))] &&
        db.inviteCodes == old(db.inviteCodes) + [InviteCode(userId, teamId, personalCode)] &&
        db.referrals == ReferralsAfter(old(db.referrals), referrer, userId) &&
        match referrer
        case NoReferrer =>
          db.users == old(db.users)[userId := NewAccount(teamId, now)]
        case ReferredBy(ref, _) =>
          ref in old(db.users) &&
          db.users == old(db.users)[ref := old(db.users)[ref].(miningRate := old(db.users)[ref].miningRate + ReferralBonus)]
                                   [userId := NewAccount(teamId, now)]
  {
    var check := CheckTeamCode(db, teamCode);
    if check.Err? {
      return Failure(check.error);
    }
    NoCodeForUnknownUser(db.inviteCodes, db.users.Keys, userId);
    CreateOwner(db, userId, teamId, newTeamCode, now);
    if check.value.ReferredBy? && check.value.userId != userId {
      AddReferral(db, check.value.userId, userId, check.value.code);
    }
    AddPersonalCode(db, userId, teamId, personalCode);
    r := Success(userId);
  }

  /** The new user's own team and account: the team is created, the user joins
      it at the default rate, becomes its owner and receives the owner bonus. */
  method CreateOwner(db: Database, userId: nat, teamId: nat, newTeamCode: string, now: int)
    requires db.Valid() && userId !in db.users
    modifies db`users, db`teams
    ensures db.Valid()
    ensures db.teams == old(db.teams)[teamId := Team(newTeamCode, Some(userId))]
    ensures db.users == old(db.users)[userId := NewAccount(teamId, now)]
  {
    db.teams := db.teams[teamId := Team(newTeamCode, None)];
    var account := Account(0.0, DefaultRate, now, Some(now), None, None, Idle, Some(teamId));
    db.users := db.users[userId := account];
    db.teams := db.teams[teamId := Team(newTeamCode, Some(userId))];
    db.users := db.users[userId := account.(miningRate := account.miningRate + OwnerBonus)];
    assert CodesOwnedBy(db.inviteCodes, db.users.Keys);
  }

  /** The referral row, and the referral bonus for the referrer. */
  method AddReferral(db: Database, referrer: nat, userId: nat, code: string)
    requires db.Valid() && referrer in db.users
    modifies db`users, db`referrals
    ensures db.Valid()
    ensures db.referrals == old(db.referrals) + [Referral(referrer, userId, code)]
    ensures db.users == old(db.users)[referrer := old(db.users)[referrer].(miningRate := old(db.users)[referrer].miningRate + ReferralBonus)]
  {
    db.referrals := db.referrals + [Referral(referrer, userId, code)];
    db.users := db.users[referrer := db.users[referrer].(miningRate := db.users[referrer].miningRate + ReferralBonus)];
    assert db.users.Keys == old(db.users).Keys;
  }

  /** The new user's personal invite code, pointing at their own team. */
  method AddPersonalCode(db: Database, userId: nat, teamId: nat, personalCode: string)
    requires db.Valid() && userId in db.users && CodeRowOf(db.inviteCodes, userId).None?
    modifies db`inviteCodes
    ensures db.Valid()
    ensures db.inviteCodes == old(db.inviteCodes) + [InviteCode(userId, teamId, personalCode)]
  {
    AddCodeKeepsOwnersUnique(db.inviteCodes, InviteCode(userId, teamId, personalCode));
    db.inviteCodes := db.inviteCodes + [InviteCode(userId, teamId, personalCode)];
  }
}

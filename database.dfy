/** The database tables that the controllers and the scheduled command share,
    and the row lookups they perform on them. Each controller action runs as
    one atomic step over these tables. */
module Database {
  import opened Common
  import opened UserModel

  /** The mining rate a new user starts from. */
  const DefaultRate: real := 0.04
  /** Added to the rate of a user who becomes the owner of a team. */
  const OwnerBonus: real := 0.01
  /** Added to a referrer's rate for each user who registers with their code. */
  const ReferralBonus: real := 0.02
  /** The most referrals one user may have. */
  const MaxTeamSize: nat := 1000

  datatype Team = Team(code: string, ownerId: Option<nat>)

  datatype Referral = Referral(referrerId: nat, referredId: nat, inviteCode: string)

  /** A personal invite code (table user_invite_codes). */
  datatype InviteCode = InviteCode(userId: nat, teamId: nat, code: string)

  datatype ActionType = Url | Video | InApp | Simple

  datatype Task = Task(
    id: nat,
    reward: real,
    dueDate: int,
    isActive: bool,
    actionType: ActionType,
    verificationCode: Option<string>)

  datatype Completion = Completion(userId: nat, taskId: nat, verificationCode: Option<string>, completedAt: int)

  /** The position of the first row satisfying `p` (a query's `first()`). */
  function FirstWhere<T>(rows: seq<T>, p: T -> bool): (r: Option<nat>)
    ensures r.Some? ==> r.value < |rows| && p(rows[r.value])
    ensures r.Some? ==> forall j :: 0 <= j < r.value ==> !p(rows[j])
    ensures r.None? ==> forall j :: 0 <= j < |rows| ==> !p(rows[j])
  {
    if rows == [] then None
    else if p(rows[0]) then Some(0)
    else
      match FirstWhere(rows[1..], p)
      case None => None
      case Some(k) => Some(k + 1)
  }

  function CodeRowOf(rows: seq<InviteCode>, userId: nat): Option<nat>
  {
    FirstWhere(rows, (row: InviteCode) => row.userId == userId)
  }

  function CodeRowWithCode(rows: seq<InviteCode>, code: string): Option<nat>
  {
    FirstWhere(rows, (row: InviteCode) => row.code == code)
  }

  /** The `referrer_id` column of the referrals table. */
  function ReferrerColumn(rows: seq<Referral>): seq<nat>
  {
    seq(|rows|, i requires 0 <= i < |rows| => rows[i].referrerId)
  }

  /** `pluck('referred_id')` over the rows of one referrer, in table order: one
      id per row of that referrer, and nothing else. */
  function ReferredIds(rows: seq<Referral>, referrer: nat): (ids: seq<nat>)
    ensures |ids| == multiset(ReferrerColumn(rows))[referrer]
    ensures forall id :: id in ids ==> exists i :: 0 <= i < |rows| && rows[i] == Referral(referrer, id, rows[i].inviteCode)
    ensures forall i :: 0 <= i < |rows| && rows[i].referrerId == referrer ==> rows[i].referredId in ids
  {
    if rows == [] then []
    else
      var rest := ReferredIds(rows[1..], referrer);
      assert forall i :: 1 <= i < |rows| ==> rows[i] == rows[1..][i - 1];
      assert forall id :: id in rest ==> exists i :: 1 <= i < |rows| && rows[i] == Referral(referrer, id, rows[i].inviteCode);
      assert ReferrerColumn(rows) == [rows[0].referrerId] + ReferrerColumn(rows[1..]);
      if rows[0].referrerId == referrer then [rows[0].referredId] + rest else rest
  }

  function ReferralCount(rows: seq<Referral>, referrer: nat): nat
  {
    |ReferredIds(rows, referrer)|
  }

  /** A new referral row adds its referred user at the end of its referrer's
      list, and leaves every other referrer's list as it was. */
  lemma {:induction false} ReferredIdsAppend(rows: seq<Referral>, row: Referral, referrer: nat)
    ensures ReferredIds(rows + [row], referrer) ==
      ReferredIds(rows, referrer) + (if row.referrerId == referrer then [row.referredId] else [])
    decreases |rows|
  {
    if rows != [] {
      assert (rows + [row])[1..] == rows[1..] + [row];
      ReferredIdsAppend(rows[1..], row, referrer);
    } else {
      assert ReferredIds([row], referrer) == (if row.referrerId == referrer then [row.referredId] else []) + ReferredIds([], referrer) by {
        assert [row][1..] == [];
      }
    }
  }

  predicate UniqueCodeOwners(rows: seq<InviteCode>)
  {
    forall i, j :: 0 <= i < j < |rows| ==> rows[i].userId != rows[j].userId
  }

  predicate UniqueCompletions(rows: seq<Completion>)
  {
    forall i, j :: 0 <= i < j < |rows| ==> rows[i].userId != rows[j].userId || rows[i].taskId != rows[j].taskId
  }

  predicate HasCompleted(rows: seq<Completion>, userId: nat, taskId: nat)
  {
    exists i :: 0 <= i < |rows| && rows[i].userId == userId && rows[i].taskId == taskId
  }

  /** The personal invite code of a user, if one was issued. */
  function CodeOf(rows: seq<InviteCode>, userId: nat): Option<string>
  {
    match CodeRowOf(rows, userId)
    case None => None
    case Some(k) => Some(rows[k].code)
  }

  /** Every code row belongs to one of `ids`. */
  predicate CodesOwnedBy(rows: seq<InviteCode>, ids: set<nat>)
  {
    forall i :: 0 <= i < |rows| ==> rows[i].userId in ids
  }

  /** A user who is not among the owners holds no invite code. */
  lemma NoCodeForUnknownUser(rows: seq<InviteCode>, ids: set<nat>, userId: nat)
    requires CodesOwnedBy(rows, ids) && userId !in ids
    ensures CodeRowOf(rows, userId).None?
  {
  }

  /** Adding a code for a user who has none makes the new row that user's code,
      and keeps one code per user. */
  lemma AddCodeKeepsOwnersUnique(rows: seq<InviteCode>, row: InviteCode)
    requires CodeRowOf(rows, row.userId).None?
    ensures UniqueCodeOwners(rows) ==> UniqueCodeOwners(rows + [row])
    ensures CodeRowOf(rows + [row], row.userId) == Some(|rows|)
  {
    var all := rows + [row];
    assert forall j :: 0 <= j < |rows| ==> all[j] == rows[j] && all[j].userId != row.userId;
    assert all[|rows|] == row;
  }

  /** Pointing a code row at another team keeps every owner, so it keeps every
      user's first row and one code per user. */
  lemma RetargetKeepsOwnersUnique(rows: seq<InviteCode>, k: nat, teamId: nat, userId: nat)
    requires k < |rows|
    ensures UniqueCodeOwners(rows) ==> UniqueCodeOwners(rows[k := rows[k].(teamId := teamId)])
    ensures CodeRowOf(rows[k := rows[k].(teamId := teamId)], userId) == CodeRowOf(rows, userId)
  {
    var rows' := rows[k := rows[k].(teamId := teamId)];
    assert forall j :: 0 <= j < |rows| ==> rows'[j].userId == rows[j].userId;
  }

  /** Recording a completion for a pair not yet completed keeps pairs unique,
      and the pair then counts as completed. */
  lemma AddCompletionKeepsPairsUnique(rows: seq<Completion>, row: Completion)
    requires UniqueCompletions(rows) && !HasCompleted(rows, row.userId, row.taskId)
    ensures UniqueCompletions(rows + [row])
    ensures HasCompleted(rows + [row], row.userId, row.taskId)
  {
    assert (rows + [row])[|rows|] == row;
  }

  class Database {
    var users: map<nat, Account>
    var teams: map<nat, Team>
    var referrals: seq<Referral>
    var inviteCodes: seq<InviteCode>
    var tasks: seq<Task>
    var completions: seq<Completion>

    /** A user holds at most one personal invite code, and every code belongs to
        a user; each (user, task) pair is completed at most once. */
    ghost predicate Valid()
      reads this
    {
      UniqueCodeOwners(inviteCodes) &&
      CodesOwnedBy(inviteCodes, users.Keys) &&
      UniqueCompletions(completions)
    }

    constructor ()
      ensures Valid()
      ensures users == map[] && teams == map[] && referrals == [] && inviteCodes == []
      ensures tasks == [] && completions == []
    {
      users, teams, referrals, inviteCodes := map[], map[], [], [];
      tasks, completions := [], [];
    }
  }
}

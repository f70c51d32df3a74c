/** How a user's referral team is counted. The mining statistics and the team
    statistics both count the user plus everyone they referred, and call a member
    active when mining, or idle with a session that ended less than a day ago. */
module TeamCounts {
  import opened Common
  import opened UserModel

  predicate ActiveMember(a: Account, now: int)
  {
    a.status == Active || (a.sessionEnd.Some? && a.sessionEnd.value >= now - SecondsPerDay && a.status == Idle)
  }

  /** Referred users that exist and are active; each user is counted once. */
  function ActiveReferredSet(referred: seq<nat>, users: map<nat, Account>, now: int): set<nat>
  {
    set id | id in referred && id in users && ActiveMember(users[id], now)
  }

  /** Referred users that exist and are not active. */
  function InactiveReferredSet(referred: seq<nat>, users: map<nat, Account>, now: int): set<nat>
  {
    set id | id in referred && id in users && !ActiveMember(users[id], now)
  }

  function ActiveReferred(referred: seq<nat>, users: map<nat, Account>, now: int): nat
  {
    |ActiveReferredSet(referred, users, now)|
  }

  datatype Counts = Counts(members: nat, active: nat, inactive: nat)

  predicate Distinct(s: seq<nat>)
  {
    forall i, j :: 0 <= i < j < |s| ==> s[i] != s[j]
  }

  /** `members` counts the user and one per referral row, and `active` never
      exceeds it. When every referral names a distinct existing user, `inactive`
      is exactly the number of inactive members, the user included. */
  function TeamCount(self: Account, referred: seq<nat>, users: map<nat, Account>, now: int): (c: Counts)
    ensures c.members == 1 + |referred|
    ensures c.active <= c.members && c.active + c.inactive == c.members
    ensures Distinct(referred) && (forall id :: id in referred ==> id in users) ==>
      c.inactive == (if ActiveMember(self, now) then 0 else 1) +
        |InactiveReferredSet(referred, users, now)|
  {
    var members := 1 + |referred|;
    var active := (if ActiveMember(self, now) then 1 else 0) + ActiveReferred(referred, users, now);
    ActiveReferredAtMostReferred(referred, users, now);
    if Distinct(referred) && (forall id :: id in referred ==> id in users) then
      InactiveReferredRest(referred, users, now);
      Counts(members, active, members - active)
    else
      Counts(members, active, members - active)
  }

  /** Over distinct existing users, the inactive referred users are those the
      active ones leave. */
  lemma InactiveReferredRest(referred: seq<nat>, users: map<nat, Account>, now: int)
    requires Distinct(referred) && forall id :: id in referred ==> id in users
    ensures |InactiveReferredSet(referred, users, now)| == |referred| - ActiveReferred(referred, users, now)
  {
    var active := ActiveReferredSet(referred, users, now);
    var inactive := InactiveReferredSet(referred, users, now);
    var all := Elements(referred);
    assert all == active + inactive;
    assert active !! inactive;
    assert |all| == |active| + |inactive|;
    DistinctLength(referred);
  }

  function Elements(s: seq<nat>): set<nat>
  {
    set x | x in s
  }

  lemma {:induction false} DistinctAtMostLength(s: seq<nat>)
    ensures |Elements(s)| <= |s|
  {
    if s != [] {
      DistinctAtMostLength(s[1..]);
      assert Elements(s) == Elements(s[1..]) + {s[0]};
    }
  }

  lemma {:induction false} DistinctLength(s: seq<nat>)
    requires Distinct(s)
    ensures |Elements(s)| == |s|
  {
    if s != [] {
      DistinctLength(s[1..]);
      assert Elements(s) == Elements(s[1..]) + {s[0]};
      assert s[0] !in Elements(s[1..]);
    }
  }

  lemma ActiveReferredAtMostReferred(referred: seq<nat>, users: map<nat, Account>, now: int)
    ensures ActiveReferred(referred, users, now) <= |referred|
  {
    var active := ActiveReferredSet(referred, users, now);
    var all := Elements(referred);
    assert all == active + (all - active);
    DistinctAtMostLength(referred);
  }
}

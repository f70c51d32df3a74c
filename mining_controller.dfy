/** The mining endpoints. Each acts on the authenticated user's model object;
    the team size used by the balance formula (users sharing the user's team),
    the referral rows and the users and teams tables are read-only inputs. */
module MiningController {
  import opened Common
  import opened UserModel
  import opened TeamCounts
  import opened Database

  datatype TimeLeft = TimeLeft(hours: nat, minutes: nat, seconds: nat, totalSeconds: nat)

  /** Shown only for an active session whose end is still ahead; the hours
      include whole days, and the parts add up to the seconds left. */
  function TimeRemaining(a: Account, now: int): (r: Option<TimeLeft>)
    ensures r.Some? <==> a.status == Active && a.sessionEnd.Some? && a.sessionEnd.value > now
    ensures r.Some? ==> r.value.totalSeconds == a.sessionEnd.value - now
    ensures r.Some? ==>
      r.value.hours * SecondsPerHour + r.value.minutes * 60 + r.value.seconds == r.value.totalSeconds &&
      r.value.minutes < 60 && r.value.seconds < 60
  {
    if a.status == Active && a.sessionEnd.Some? && a.sessionEnd.value > now then
      var total := a.sessionEnd.value - now;
      var withinHour := total % SecondsPerHour;
      assert withinHour == (withinHour / 60) * 60 + total % 60;
      Some(TimeLeft(total / SecondsPerHour, withinHour / 60, total % 60, total))
    else
      None
  }

  /** What the current session has earned on top of the stored balance. */
  function SessionEarnings(a: Account, now: int, teamSize: nat): real
  {
    if a.status == Active then CurrentBalance(a, now, teamSize) - a.baseBalance else 0.0
  }

  lemma SessionEarningsWithinCap(a: Account, now: int, teamSize: nat)
    requires WellFormed(a) && a.miningRate >= 0.0
    ensures a.status != Active ==> SessionEarnings(a, now, teamSize) == 0.0
    ensures 0.0 <= SessionEarnings(a, now, teamSize) <= ActiveRate(a, teamSize) * 24.0
  {
    ActiveRateNonNegative(a, teamSize);
    if a.status == Active {
      SessionEarningsBounded(a, now, teamSize, a.lastBalanceUpdate);
    }
  }

  /** A balance read's lazy write never changes what is read. */
  lemma InitLastUpdateKeepsBalance(a: Account, now: int, teamSize: nat)
    ensures CurrentBalance(InitLastUpdate(a), now, teamSize) == CurrentBalance(a, now, teamSize)
    ensures ReconcileSession(InitLastUpdate(a), now, teamSize).next.status == ReconcileSession(a, now, teamSize).next.status
  {
  }

  datatype StatusView = StatusView(
    status: Status,
    sessionStart: Option<int>,
    sessionEnd: Option<int>,
    timeRemaining: Option<TimeLeft>,
    sessionEarnings: real,
    canStartMining: bool)

  /** Reconciles the session, then reports on the reconciled account. */
  method GetMiningStatus(u: User, now: int, teamSize: nat) returns (v: StatusView)
    modifies u
    ensures var b := ReconcileSession(old(u.Record()), now, teamSize).next;
      u.Record() == (if b.status == Active then InitLastUpdate(b) else b) &&
      v == StatusView(b.status, b.sessionStart, b.sessionEnd, TimeRemaining(b, now),
                      SessionEarnings(b, now, teamSize), CanStartMining(b, now))
    ensures v.status == Active && v.sessionEnd.Some? ==> now <= v.sessionEnd.value
  {
    ReconciledSessionIsCurrent(u.Record(), now, teamSize);
    var _ := u.CheckMiningSession(now, teamSize);
    var remaining := TimeRemaining(u.Record(), now);
    var earnings := 0.0;
    if u.status == Active {
      var current := u.CalculateCurrentBalance(now, teamSize);
      earnings := current - u.baseBalance;
    }
    v := StatusView(u.status, u.sessionStart, u.sessionEnd, remaining, earnings, CanStartMining(u.Record(), now));
  }

  datatype BalanceView = BalanceView(currentBalance: real, baseBalance: real, sessionEarnings: real, status: Status)

  method GetRealTimeBalance(u: User, now: int, teamSize: nat) returns (v: BalanceView)
    modifies u
    ensures var b := ReconcileSession(old(u.Record()), now, teamSize).next;
      u.Record() == InitLastUpdate(b) &&
      v == BalanceView(CurrentBalance(b, now, teamSize), b.baseBalance,
                       CurrentBalance(b, now, teamSize) - b.baseBalance, b.status)
  {
    var _ := u.CheckMiningSession(now, teamSize);
    var current := u.CalculateCurrentBalance(now, teamSize);
    var again := u.CalculateCurrentBalance(now, teamSize);
    v := BalanceView(current, u.baseBalance, again - u.baseBalance, u.status);
  }

  datatype StartView = StartView(status: Status, sessionStart: Option<int>, sessionEnd: Option<int>, initialBalance: real)

  /** Refused with 400 and no change while a session runs; otherwise starts a
      session, whose own check can then no longer fail. */
  method StartMiningAction(u: User, now: int, teamSize: nat) returns (r: Reply<StartView>)
    modifies u
    ensures !CanStartMining(old(u.Record()), now) ==> r == Failure(BadRequest) && u.Record() == old(u.Record())
    ensures CanStartMining(old(u.Record()), now) ==>
      u.Record() == StartSession(old(u.Record()), now, teamSize).next &&
      r == Success(StartView(Active, Some(now), Some(now + SessionSeconds), CurrentBalance(old(u.Record()), now, teamSize)))
  {
    if !CanStartMining(u.Record(), now) {
      return Failure(BadRequest);
    }
    var outcome := u.StartMining(now, teamSize);
    assert outcome.Ok?;
    r := Success(StartView(u.status, u.sessionStart, u.sessionEnd, u.baseBalance));
  }

  datatype CompletionView = CompletionView(earnings: real, totalBalance: real, status: Status)

  /** A running session cannot be stopped before its end (403); completing with
      no active session fails inside the model (500). */
  method CompleteMiningAction(u: User, now: int, teamSize: nat) returns (r: Reply<CompletionView>)
    modifies u
    ensures var a := old(u.Record());
      a.status == Active && a.sessionEnd.Some? && a.sessionEnd.value > now ==>
        r == Failure(Forbidden) && u.Record() == a
    ensures var a := old(u.Record());
      a.status != Active ==> r == Failure(ServerError) && u.Record() == a
    ensures var a := old(u.Record());
      a.status == Active && (a.sessionEnd.None? || a.sessionEnd.value <= now) ==>
        u.Record() == CompleteSession(a, now, teamSize).next &&
        r == Success(CompletionView(0.0, CurrentBalance(a, now, teamSize), Completed))
  {
    if u.status == Active && u.sessionEnd.Some? {
      if u.sessionEnd.value > now {
        return Failure(Forbidden);
      }
    }
    var earnings := u.CompleteMining(now, teamSize);
    if earnings.Err? {
      return Failure(ServerError);
    }
    r := Success(CompletionView(earnings.value, u.baseBalance, u.status));
  }

  const BaseOwnerRate: real := 0.05
  const RatePerActiveMember: real := 0.02
  const RateTolerance: real := 0.001

  /** The owner's rate the statistics call for: the base owner rate plus 0.02
      per active member other than the owner. */
  function OwnerTargetRate(activeCount: int): real
  {
    BaseOwnerRate + RatePerActiveMember * (activeCount - 1) as real
  }

  /** The stored rate is replaced only when it is off by more than the tolerance. */
  function RecomputedOwnerRate(rate: real, activeCount: int): (r: real)
    ensures r == rate || r == OwnerTargetRate(activeCount)
    ensures AbsReal(r - OwnerTargetRate(activeCount)) <= RateTolerance
    ensures AbsReal(rate - OwnerTargetRate(activeCount)) <= RateTolerance ==> r == rate
  {
    var adjusted := OwnerTargetRate(activeCount);
    if AbsReal(adjusted - rate) > RateTolerance then adjusted else rate
  }

  lemma RecomputedOwnerRateIdempotent(rate: real, activeCount: int)
    ensures RecomputedOwnerRate(RecomputedOwnerRate(rate, activeCount), activeCount)
         == RecomputedOwnerRate(rate, activeCount)
  {
  }

  /** The user owns the team they belong to. */
  predicate OwnsOwnTeam(userId: nat, a: Account, teams: map<nat, Team>)
  {
    a.teamId.Some? && a.teamId.value in teams && teams[a.teamId.value].ownerId == Some(userId)
  }

  datatype StatisticsView = StatisticsView(
    balance: real,
    miningRate: real,
    miningRateBonus: Option<real>,
    teamSize: nat,
    activeMembers: nat,
    inactiveMembers: nat,
    status: Status,
    canStartMining: bool,
    sessionEarnings: real)

  /** The account after the statistics call: reconciled, and for a team owner
      with the rate recomputed from the active count. */
  function StatisticsAccount(a: Account, userId: nat, referrals: seq<Referral>, users: map<nat, Account>,
                             teams: map<nat, Team>, now: int, teamSize: nat): Account
  {
    var b := ReconcileSession(a, now, teamSize).next;
    var c := TeamCount(b, ReferredIds(referrals, userId), users, now);
    if OwnsOwnTeam(userId, b, teams) then b.(miningRate := RecomputedOwnerRate(b.miningRate, c.active)) else b
  }

  /** Non-owners keep their rate; an owner ends within the tolerance of the
      target rate for the team's active count. */
  lemma StatisticsRate(a: Account, userId: nat, referrals: seq<Referral>, users: map<nat, Account>,
                       teams: map<nat, Team>, now: int, teamSize: nat)
    ensures var b := ReconcileSession(a, now, teamSize).next;
      var s := StatisticsAccount(a, userId, referrals, users, teams, now, teamSize);
      var c := TeamCount(b, ReferredIds(referrals, userId), users, now);
      s.(miningRate := b.miningRate) == b &&
      (!OwnsOwnTeam(userId, b, teams) ==> s.miningRate == a.miningRate) &&
      (OwnsOwnTeam(userId, b, teams) ==> AbsReal(s.miningRate - OwnerTargetRate(c.active)) <= RateTolerance)
  {
  }

  method GetMiningStatistics(u: User, referrals: seq<Referral>, users: map<nat, Account>, teams: map<nat, Team>,
                             now: int, teamSize: nat) returns (v: StatisticsView)
    modifies u
    ensures var b := ReconcileSession(old(u.Record()), now, teamSize).next;
      var c := TeamCount(b, ReferredIds(referrals, u.id), users, now);
      var s := StatisticsAccount(old(u.Record()), u.id, referrals, users, teams, now, teamSize);
      u.Record() == InitLastUpdate(s) &&
      v.teamSize == c.members && v.activeMembers == c.active && v.inactiveMembers == c.inactive &&
      v.miningRate == s.miningRate && v.balance == CurrentBalance(s, now, teamSize) &&
      v.status == s.status && v.canStartMining == CanStartMining(s, now) &&
      v.sessionEarnings == SessionEarnings(s, now, teamSize) &&
      v.miningRateBonus == (if OwnsOwnTeam(u.id, b, teams) && c.active > 1
                            then Some(RatePerActiveMember * (c.active - 1) as real) else None)
  {
    ghost var a := u.Record();
    var _ := u.CheckMiningSession(now, teamSize);
    ghost var b := u.Record();
    var referred := ReferredIds(referrals, u.id);
    var counts := TeamCount(u.Record(), referred, users, now);
    var rateBonus := 0.0;
    if OwnsOwnTeam(u.id, u.Record(), teams) {
      rateBonus := RatePerActiveMember * (counts.active - 1) as real;
      var adjusted := BaseOwnerRate + rateBonus;
      assert adjusted == OwnerTargetRate(counts.active);
      if AbsReal(adjusted - u.miningRate) > RateTolerance {
        u.miningRate := adjusted;
      }
    }
    assert rateBonus > 0.0 <==> OwnsOwnTeam(u.id, b, teams) && counts.active > 1;
    ghost var s := u.Record();
    assert s == StatisticsAccount(a, u.id, referrals, users, teams, now, teamSize);
    var balance := u.CalculateCurrentBalance(now, teamSize);
    var earnings := 0.0;
    if u.status == Active {
      var current := u.CalculateCurrentBalance(now, teamSize);
      earnings := current - u.baseBalance;
    }
    assert u.Record() == InitLastUpdate(s);
    InitLastUpdateKeepsBalance(s, now, teamSize);
    v := StatisticsView(balance, u.miningRate, if rateBonus > 0.0 then Some(rateBonus) else None,
                        counts.members, counts.active, counts.inactive,
                        u.status, CanStartMining(u.Record(), now), earnings);
  }
}

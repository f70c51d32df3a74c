/** The mining account of one user (the `User` model): how its balance accrues
    with time, and the idle -> active -> completed session state machine.

    The rules are first stated as functions over an `Account` value (one row of
    the users table); the class `User` below is the in-memory model object whose
    methods update its fields step by step, each proved to follow those rules. */
module UserModel {
  import opened Common

  datatype Status = Idle | Active | Completed | Failed

  datatype MiningError = SessionInProgress | NoActiveSession

  /** The fields of a users row that the mining rules read or write. */
  datatype Account = Account(
    baseBalance: real,
    miningRate: real,
    createdAt: int,
    lastBalanceUpdate: Option<int>,
    sessionStart: Option<int>,
    sessionEnd: Option<int>,
    status: Status,
    teamId: Option<nat>)

  /** Tokens per hour earned outside a mining session. */
  const PassiveRate: real := 0.05
  /** A session pays for at most this many hours. */
  const MaxSessionHours: nat := 24
  const SessionSeconds: int := MaxSessionHours * SecondsPerHour
  /** Each user of the team (the account itself included) adds 10% to the active rate. */
  const TeamBonusPerMember: real := 0.1

  /** `teamSize` is the number of users whose team is this account's team. */
  function TeamSizeBonus(a: Account, teamSize: nat): real
  {
    if a.teamId.Some? then teamSize as real * TeamBonusPerMember else 0.0
  }

  function ActiveRate(a: Account, teamSize: nat): real
  {
    a.miningRate * (1.0 + TeamSizeBonus(a, teamSize))
  }

  /** The balance follows the session formula only when a session start is recorded. */
  predicate InSession(a: Account)
  {
    a.status == Active && a.sessionStart.Some?
  }

  /** The last checkpoint, falling back to the creation time when none was recorded. */
  function LastUpdate(a: Account): int
  {
    a.lastBalanceUpdate.GetOr(a.createdAt)
  }

  /** The lazy write performed by a balance read on an account never checkpointed. */
  function InitLastUpdate(a: Account): (r: Account)
    ensures r.lastBalanceUpdate == Some(LastUpdate(a))
    ensures r.(lastBalanceUpdate := a.lastBalanceUpdate) == a
  {
    if a.lastBalanceUpdate.Some? then a else a.(lastBalanceUpdate := Some(a.createdAt))
  }

  function SessionHours(a: Account, now: int): nat
    requires a.sessionStart.Some?
  {
    Min(HoursBetween(a.sessionStart.value, now), MaxSessionHours)
  }

  /** The balance shown at `now`: the stored balance plus what has accrued since. */
  function CurrentBalance(a: Account, now: int, teamSize: nat): real
  {
    if InSession(a) then
      a.baseBalance + ActiveRate(a, teamSize) * SessionHours(a, now) as real
    else
      a.baseBalance + PassiveRate * HoursBetween(LastUpdate(a), now) as real
  }

  /** Materialises the current balance into the stored one. */
  function Checkpoint(a: Account, now: int, teamSize: nat): Account
  {
    a.(baseBalance := CurrentBalance(a, now, teamSize), lastBalanceUpdate := Some(now))
  }

  predicate CanStartMining(a: Account, now: int)
  {
    if a.sessionStart.None? || a.status == Completed || a.status == Failed || a.status == Idle then
      true
    else if a.status == Active then
      HoursBetween(a.sessionStart.value, now) >= MaxSessionHours
    else
      false
  }

  /** The account after an operation, and what the operation returned or threw.
      A thrown error does not undo the writes made before it. */
  datatype Transition<+T> = Transition(next: Account, result: Result<T, MiningError>)

  function StartSession(a: Account, now: int, teamSize: nat): (t: Transition<()>)
    ensures t.result.Ok? <==> CanStartMining(a, now)
    ensures t.result.Err? ==> t.result.error == SessionInProgress
    ensures t.next.baseBalance == CurrentBalance(a, now, teamSize)
    ensures t.next.lastBalanceUpdate == Some(now)
    ensures t.next.miningRate == a.miningRate && t.next.teamId == a.teamId && t.next.createdAt == a.createdAt
    ensures t.result.Ok? ==>
      t.next.status == Active && t.next.sessionStart == Some(now) && t.next.sessionEnd == Some(now + SessionSeconds)
    ensures t.result.Err? ==>
      t.next.status == a.status && t.next.sessionStart == a.sessionStart && t.next.sessionEnd == a.sessionEnd
  {
    var c := Checkpoint(a, now, teamSize);
    if !CanStartMining(c, now) then
      Transition(c, Err(SessionInProgress))
    else
      Transition(c.(sessionStart := Some(now), sessionEnd := Some(now + SessionSeconds), status := Active), Ok(()))
  }

  /** Completing reports the final balance minus the balance it has just stored,
      so the reported earnings are always zero. */
  function CompleteSession(a: Account, now: int, teamSize: nat): (t: Transition<real>)
    ensures t.result.Ok? <==> a.status == Active
    ensures t.result.Err? ==> t.result.error == NoActiveSession && t.next == a
    ensures t.result.Ok? ==> t.result.value == 0.0
    ensures t.result.Ok? ==>
      t.next.baseBalance == CurrentBalance(a, now, teamSize) && t.next.lastBalanceUpdate == Some(now) &&
      t.next.status == Completed && t.next.sessionStart.None? && t.next.sessionEnd.None?
    ensures t.next.miningRate == a.miningRate && t.next.teamId == a.teamId && t.next.createdAt == a.createdAt
  {
    if a.status != Active then
      Transition(a, Err(NoActiveSession))
    else
      var c := Checkpoint(a, now, teamSize);
      var finalBalance := c.baseBalance;
      var d := c.(status := Completed, sessionStart := None, sessionEnd := None);
      Transition(d, Ok(finalBalance - d.baseBalance))
  }

  /** An active session whose end time has strictly passed. */
  predicate Expired(a: Account, now: int)
  {
    a.status == Active && a.sessionEnd.Some? && now > a.sessionEnd.value
  }

  datatype Reconciled = Reconciled(next: Account, earnings: Option<real>)

  function ReconcileSession(a: Account, now: int, teamSize: nat): (r: Reconciled)
    ensures Expired(a, now) ==> r.next == CompleteSession(a, now, teamSize).next && r.earnings == Some(0.0)
    ensures !Expired(a, now) ==> r.next == a && r.earnings == None
  {
    if a.status != Active then
      Reconciled(a, None)
    else if a.sessionEnd.Some? && now > a.sessionEnd.value then
      var t := CompleteSession(a, now, teamSize);
      Reconciled(t.next, Some(t.result.value))
    else
      Reconciled(a, None)
  }

  /** Session fields are set exactly while a session is active, and a session
      lasts exactly 24 hours. */
  predicate WellFormed(a: Account)
  {
    if a.status == Active then
      a.sessionStart.Some? && a.sessionEnd == Some(a.sessionStart.value + SessionSeconds)
    else
      a.sessionStart.None? && a.sessionEnd.None?
  }

  lemma MulNonNegative(x: real, y: real)
    requires x >= 0.0 && y >= 0.0
    ensures x * y >= 0.0
  {
  }

  lemma MulLeftMonotone(k: real, x: real, y: real)
    requires k >= 0.0 && x <= y
    ensures k * x <= k * y
  {
    MulNonNegative(k, y - x);
  }

  lemma ActiveRateNonNegative(a: Account, teamSize: nat)
    requires a.miningRate >= 0.0
    ensures ActiveRate(a, teamSize) >= 0.0
  {
    MulNonNegative(a.miningRate, 1.0 + TeamSizeBonus(a, teamSize));
  }

  /** With a non-negative rate the balance never decreases as time moves on
      (from the session start, or from the last checkpoint when idle). */
  lemma BalanceMonotoneInTime(a: Account, teamSize: nat, t1: int, t2: int)
    requires a.miningRate >= 0.0
    requires t1 <= t2
    requires InSession(a) ==> a.sessionStart.value <= t1
    requires !InSession(a) ==> LastUpdate(a) <= t1
    ensures CurrentBalance(a, t1, teamSize) <= CurrentBalance(a, t2, teamSize)
  {
    if InSession(a) {
      HoursBetweenMonotone(a.sessionStart.value, t1, t2);
      ActiveRateNonNegative(a, teamSize);
      MulLeftMonotone(ActiveRate(a, teamSize), SessionHours(a, t1) as real, SessionHours(a, t2) as real);
    } else {
      HoursBetweenMonotone(LastUpdate(a), t1, t2);
    }
  }

  /** Outside a session the balance grows by 0.05 per whole hour since the last checkpoint. */
  lemma PassiveAccrual(a: Account, now: int, teamSize: nat, hours: nat)
    requires !InSession(a)
    requires LastUpdate(a) + hours * SecondsPerHour <= now < LastUpdate(a) + (hours + 1) * SecondsPerHour
    ensures CurrentBalance(a, now, teamSize) == a.baseBalance + 0.05 * hours as real
  {
    assert HoursBetween(LastUpdate(a), now) == hours;
  }

  /** During a session the accrual never exceeds 24 hours at the active rate, and
      the last checkpoint plays no part in it. */
  lemma SessionEarningsBounded(a: Account, now: int, teamSize: nat, lastUpdate: Option<int>)
    requires InSession(a) && a.miningRate >= 0.0
    ensures a.baseBalance <= CurrentBalance(a, now, teamSize)
    ensures CurrentBalance(a, now, teamSize) <= a.baseBalance + ActiveRate(a, teamSize) * MaxSessionHours as real
    ensures CurrentBalance(a.(lastBalanceUpdate := lastUpdate), now, teamSize) == CurrentBalance(a, now, teamSize)
  {
    var rate, hours := ActiveRate(a, teamSize), SessionHours(a, now) as real;
    ActiveRateNonNegative(a, teamSize);
    MulNonNegative(rate, hours);
    assert hours <= 24.0;
    MulLeftMonotone(rate, hours, 24.0);
    assert CurrentBalance(a, now, teamSize) == a.baseBalance + rate * hours;
  }

  /** Reading right after a checkpoint gives the same balance outside a session;
      inside a session the session earnings are counted a second time, because
      the session formula starts again from the session start. */
  lemma CheckpointReadBack(a: Account, now: int, teamSize: nat)
    ensures !InSession(a) ==>
      CurrentBalance(Checkpoint(a, now, teamSize), now, teamSize) == CurrentBalance(a, now, teamSize)
    ensures InSession(a) ==>
      CurrentBalance(Checkpoint(a, now, teamSize), now, teamSize)
        == CurrentBalance(a, now, teamSize) + (CurrentBalance(a, now, teamSize) - a.baseBalance)
  {
  }

  /** A started session blocks a restart for exactly 24 hours. */
  lemma StartedSessionBlocksRestart(a: Account, now: int, teamSize: nat, later: int)
    requires StartSession(a, now, teamSize).result.Ok?
    requires now <= later
    ensures CanStartMining(StartSession(a, now, teamSize).next, later) <==> later - now >= SessionSeconds
    ensures later - now < SessionSeconds ==>
      StartSession(StartSession(a, now, teamSize).next, later, teamSize).result == Err(SessionInProgress)
  {
    FullDayOfHours(now, later);
  }

  /** Completing a well-formed session at or after its end credits exactly 24
      hours at the active rate; completing it earlier credits less. */
  lemma CompletionCredits(a: Account, now: int, teamSize: nat)
    requires WellFormed(a) && a.status == Active && a.miningRate >= 0.0
    requires a.sessionStart.value <= now
    ensures now >= a.sessionEnd.value ==>
      CompleteSession(a, now, teamSize).next.baseBalance == a.baseBalance + ActiveRate(a, teamSize) * 24.0
    ensures now < a.sessionEnd.value ==>
      CompleteSession(a, now, teamSize).next.baseBalance
        == a.baseBalance + ActiveRate(a, teamSize) * HoursBetween(a.sessionStart.value, now) as real
  {
    FullDayOfHours(a.sessionStart.value, now);
  }

  /** Every transition keeps the session fields well formed. */
  lemma TransitionsPreserveWellFormed(a: Account, now: int, teamSize: nat)
    requires WellFormed(a)
    ensures WellFormed(Checkpoint(a, now, teamSize))
    ensures WellFormed(StartSession(a, now, teamSize).next)
    ensures WellFormed(CompleteSession(a, now, teamSize).next)
    ensures WellFormed(ReconcileSession(a, now, teamSize).next)
  {
  }

  /** After reconciliation no active session has an end in the past. */
  lemma ReconciledSessionIsCurrent(a: Account, now: int, teamSize: nat)
    ensures var b := ReconcileSession(a, now, teamSize).next;
      b.status == Active && b.sessionEnd.Some? ==> now <= b.sessionEnd.value
  {
  }

  /** With a non-negative rate no transition lowers the stored balance. */
  lemma BaseBalanceNeverDecreases(a: Account, now: int, teamSize: nat)
    requires a.miningRate >= 0.0
    ensures Checkpoint(a, now, teamSize).baseBalance >= a.baseBalance
    ensures StartSession(a, now, teamSize).next.baseBalance >= a.baseBalance
    ensures CompleteSession(a, now, teamSize).next.baseBalance >= a.baseBalance
    ensures ReconcileSession(a, now, teamSize).next.baseBalance >= a.baseBalance
  {
    if InSession(a) {
      SessionEarningsBounded(a, now, teamSize, a.lastBalanceUpdate);
    }
  }

  /** Worked examples: three idle hours after creation earn 0.15; a session at
      rate 0.04 with no team earns 0.4 after ten hours and stops at 0.96. */
  lemma AccrualScenarios(t0: int, base: real)
    ensures CurrentBalance(Account(0.0, 0.04, t0, None, None, None, Idle, None), t0 + 3 * SecondsPerHour, 1) == 0.15
    ensures var a := Account(base, 0.04, t0, Some(t0), Some(t0), Some(t0 + SessionSeconds), Active, None);
      CurrentBalance(a, t0 + 10 * SecondsPerHour, 1) == base + 0.4 &&
      CurrentBalance(a, t0 + 30 * SecondsPerHour, 1) == base + 0.96
  {
    assert HoursBetween(t0, t0 + 3 * SecondsPerHour) == 3;
    assert HoursBetween(t0, t0 + 10 * SecondsPerHour) == 10;
    assert HoursBetween(t0, t0 + 30 * SecondsPerHour) == 30;
  }

  /** The `User` model object. Its methods change its fields in place. */
  class User {
    const id: nat
    var baseBalance: real
    var miningRate: real
    var createdAt: int
    var lastBalanceUpdate: Option<int>
    var sessionStart: Option<int>
    var sessionEnd: Option<int>
    var status: Status
    var teamId: Option<nat>

    /** The row these fields hold. */
    function Record(): Account
      reads this
    {
      Account(baseBalance, miningRate, createdAt, lastBalanceUpdate, sessionStart, sessionEnd, status, teamId)
    }

    constructor (id: nat, a: Account)
      ensures this.id == id && Record() == a
    {
      this.id := id;
      baseBalance, miningRate, createdAt := a.baseBalance, a.miningRate, a.createdAt;
      lastBalanceUpdate, sessionStart, sessionEnd := a.lastBalanceUpdate, a.sessionStart, a.sessionEnd;
      status, teamId := a.status, a.teamId;
    }

    /** Reading the balance writes only the missing last-update time. */
    method CalculateCurrentBalance(now: int, teamSize: nat) returns (balance: real)
      modifies this`lastBalanceUpdate
      ensures Record() == InitLastUpdate(old(Record()))
      ensures balance == CurrentBalance(old(Record()), now, teamSize)
    {
      if lastBalanceUpdate.None? {
        lastBalanceUpdate := Some(createdAt);
      }
      var hoursElapsed := HoursBetween(lastBalanceUpdate.value, now);
      if status == Active && sessionStart.Some? {
        var teamBonus := 0.0;
        if teamId.Some? {
          teamBonus := teamSize as real * TeamBonusPerMember;
        }
        var activeRate := miningRate * (1.0 + teamBonus);
        var hoursInSession := Min(HoursBetween(sessionStart.value, now), MaxSessionHours);
        balance := baseBalance + activeRate * hoursInSession as real;
      } else {
        balance := baseBalance + PassiveRate * hoursElapsed as real;
      }
    }

    method UpdateBalance(now: int, teamSize: nat) returns (current: real)
      modifies this`baseBalance, this`lastBalanceUpdate
      ensures Record() == Checkpoint(old(Record()), now, teamSize)
      ensures current == baseBalance
    {
      current := CalculateCurrentBalance(now, teamSize);
      baseBalance := current;
      lastBalanceUpdate := Some(now);
    }

    /** Checkpoints first, then refuses when a session is still running. */
    method StartMining(now: int, teamSize: nat) returns (outcome: Result<(), MiningError>)
      modifies this
      ensures Record() == StartSession(old(Record()), now, teamSize).next
      ensures outcome == StartSession(old(Record()), now, teamSize).result
    {
      var _ := UpdateBalance(now, teamSize);
      if !CanStartMining(Record(), now) {
        return Err(SessionInProgress);
      }
      sessionStart := Some(now);
      sessionEnd := Some(now + SessionSeconds);
      status := Active;
      outcome := Ok(());
    }

    method CompleteMining(now: int, teamSize: nat) returns (earnings: Result<real, MiningError>)
      modifies this
      ensures Record() == CompleteSession(old(Record()), now, teamSize).next
      ensures earnings == CompleteSession(old(Record()), now, teamSize).result
    {
      if status != Active {
        return Err(NoActiveSession);
      }
      var finalBalance := UpdateBalance(now, teamSize);
      status := Completed;
      sessionStart := None;
      sessionEnd := None;
      earnings := Ok(finalBalance - baseBalance);
    }

    /** Completes an active session whose end has strictly passed; otherwise does nothing. */
    method CheckMiningSession(now: int, teamSize: nat) returns (earnings: Option<real>)
      modifies this
      ensures Record() == ReconcileSession(old(Record()), now, teamSize).next
      ensures earnings == ReconcileSession(old(Record()), now, teamSize).earnings
    {
      if status != Active {
        return None;
      }
      if sessionEnd.Some? && now > sessionEnd.value {
        var completed := CompleteMining(now, teamSize);
        return Some(completed.value);
      }
      earnings := None;
    }
  }
}

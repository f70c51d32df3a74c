# Kook network mining core, modelled in Dafny

This project models the token-mining back end of the Kook network Laravel API.
A user's balance grows with time. It earns a passive 0.05 tokens per whole hour.
A 24-hour mining session pays the user's mining rate, raised 10% per member of
the user's team, for at most 24 hours. The model covers:

- the `User` model's balance formula, checkpoint and idle → active → completed
  session state machine (`user.dfy`);
- the mining endpoints: the early-completion guard, the reconciliation before every
  read, time remaining, session earnings, and the owner-rate recomputation from
  the active team count (`mining_controller.dfy`, with the shared member counting in
  `team_counts.dfy`);
- the scheduled team-activity command, which lowers an owner's rate for inactive
  members but never below 1.0 (`team_activity.dfy`);
- the team statistics and personal invite codes of the community endpoints
  (`community_controller.dfy`);
- the task-completion ledger and the task list (`task_controller.dfy`);
- the project progress → status rule (`project_controller.dfy`);
- registration with a referral code (`auth_controller.dfy`).

The database is `Database.Database` (`database.dfy`). It is one object whose
fields are the tables: users, teams, referral relationships, personal invite
codes, tasks and task completions. The registration, community and task actions
and the team-activity command are methods on it. The mining actions work on the
authenticated `User` object, and the progress update on a `Project` object.

Each action is modelled as one step. Registration, starting and completing a
mining session, and both task completions run in a database transaction, so
they are all-or-nothing. The team statistics, invite-code generation, progress
update, mining status, mining statistics and real-time balance actions run
without one. In the model none of their writes can fail partway through, so
treating them as one step loses nothing. Invite-code generation can refuse a
request after it has assigned a team, and the model keeps that team, as the
source does.

The invariant `Valid()` says three things:

- every user holds at most one personal invite code;
- every invite code belongs to an existing user;
- each (user, task) pair is completed at most once.

Every method that changes the database is proved to preserve `Valid()`.

The account rules are stated twice. First as functions over the `Account`
value, one users row. Then as methods of the class `User`, which change its
fields step by step. Each method is proved to leave the fields equal to the
function's result. Times are integer seconds. Whole hours are rounded down, as
the date library's absolute hour difference does. Amounts are exact reals.

Where the written design of the system and the code differ, the model follows
the code:

- Completing a session returns the final balance minus the balance it has just
  stored. That is zero (`UserModel.CompleteSession`), not the session's earnings.
- The session formula applies only when a session start is recorded. An active
  account without one accrues at the passive rate.
- The team bonus is 10% per user of the team whenever the account has a team, the
  account itself included. A one-user team therefore still earns a 10% bonus.
- A checkpoint taken during a session is not a neutral step. The session formula
  counts again from the session start, so the next read counts the session's
  earnings twice (`UserModel.CheckpointReadBack`).

## Model

| member | source | states |
|---|---|---|
| UserModel.InitLastUpdate | Laravel-API/app/Models/User.php:113-116 | a missing last-update time is set to the creation time, and no other field changes |
| UserModel.PassiveAccrual | Laravel-API/app/Models/User.php:107-147 | outside a session the balance is the stored balance plus 0.05 per whole hour since the last checkpoint |
| UserModel.SessionEarningsBounded | Laravel-API/app/Models/User.php:124-141 | in a session the balance lies between the stored balance and 24 hours at the active rate above it, and does not depend on the last checkpoint |
| UserModel.BalanceMonotoneInTime | Laravel-API/app/Models/User.php:107-147 | with a non-negative rate the computed balance never decreases as time moves on |
| UserModel.AccrualScenarios | Laravel-API/app/Models/User.php:107-147 | three idle hours earn 0.15; a 0.04 session earns 0.4 after ten hours and stops at 0.96 after thirty |
| UserModel.CheckpointReadBack | Laravel-API/app/Models/User.php:152-161 | a read right after a checkpoint returns the same balance outside a session, and adds the session earnings a second time inside one |
| UserModel.StartSession | Laravel-API/app/Models/User.php:177-194 | checkpoints first; succeeds iff a session may start, then is active from now to now + 24h; otherwise fails with the session fields untouched |
| UserModel.StartedSessionBlocksRestart | Laravel-API/app/Models/User.php:227-247 | after a start, a new start is allowed iff at least 24 hours have passed, and a restart earlier fails |
| UserModel.CompleteSession | Laravel-API/app/Models/User.php:199-222 | fails with nothing changed unless active; otherwise stores the current balance, ends the session as completed, and returns 0 |
| UserModel.CompletionCredits | Laravel-API/app/Models/User.php:199-222 | completing at or after the session end credits exactly 24 hours at the active rate, earlier only the elapsed whole hours |
| UserModel.ReconcileSession | Laravel-API/app/Models/User.php:252-267 | completes the session iff it is active and its end has strictly passed; otherwise nothing changes |
| UserModel.ReconciledSessionIsCurrent | Laravel-API/app/Models/User.php:252-267 | after reconciliation no active session has its end in the past |
| UserModel.TransitionsPreserveWellFormed | Laravel-API/app/Models/User.php:177-222 | every transition keeps session fields set exactly while active, with a 24-hour window |
| UserModel.BaseBalanceNeverDecreases | Laravel-API/app/Models/User.php:152-222 | no checkpoint, start, completion or reconciliation lowers the stored balance |
| UserModel.User.CalculateCurrentBalance | Laravel-API/app/Models/User.php:107-147 | returns the balance formula's value; the only write is the missing last-update time |
| UserModel.User.UpdateBalance | Laravel-API/app/Models/User.php:152-162 | stores the current balance with the checkpoint time and returns it |
| UserModel.User.StartMining | Laravel-API/app/Models/User.php:177-194 | fields and outcome equal those of `StartSession` |
| UserModel.User.CompleteMining | Laravel-API/app/Models/User.php:199-222 | fields and outcome equal those of `CompleteSession` |
| UserModel.User.CheckMiningSession | Laravel-API/app/Models/User.php:252-267 | fields and outcome equal those of `ReconcileSession` |
| TeamCounts.TeamCount | Laravel-API/app/Http/Controllers/API/MiningController.php:90-129 | members are the user plus one per referral row; active never exceeds members and active + inactive = members; when the referrals name distinct existing users, inactive is exactly the number of inactive members, the user included |
| TeamCounts.ActiveReferredAtMostReferred | Laravel-API/app/Http/Controllers/API/MiningController.php:112-123 | the active referred users never outnumber the referral rows, so the inactive count is never negative |
| MiningController.TimeRemaining | Laravel-API/app/Http/Controllers/API/MiningController.php:33-46 | present iff active with an end after now; total seconds = end − now, and hours (days included), minutes and seconds add up to it |
| MiningController.SessionEarningsWithinCap | Laravel-API/app/Http/Controllers/API/MiningController.php:56-58 | session earnings are zero when not active and never exceed 24 hours at the active rate |
| MiningController.InitLastUpdateKeepsBalance | Laravel-API/app/Models/User.php:110-121 | the lazy last-update write changes neither the balance read nor the session outcome |
| MiningController.GetMiningStatus | Laravel-API/app/Http/Controllers/API/MiningController.php:21-71 | reports on the reconciled account, so a reported active session never ends in the past |
| MiningController.GetRealTimeBalance | Laravel-API/app/Http/Controllers/API/MiningController.php:301-330 | reconciles first, then reports the current balance, stored balance and their difference |
| MiningController.StartMiningAction | Laravel-API/app/Http/Controllers/API/MiningController.php:205-242 | 400 with nothing changed when a session may not start; otherwise the started session and the checkpointed balance |
| MiningController.CompleteMiningAction | Laravel-API/app/Http/Controllers/API/MiningController.php:251-294 | 403 with nothing changed while the end is still ahead; 500 when not active; otherwise the completed account |
| MiningController.RecomputedOwnerRate | Laravel-API/app/Http/Controllers/API/MiningController.php:134-151 | the rate becomes 0.05 + 0.02·(active − 1) only when more than 0.001 away from it, and always ends within 0.001 of it |
| MiningController.RecomputedOwnerRateIdempotent | Laravel-API/app/Http/Controllers/API/MiningController.php:145-151 | recomputing a second time with the same count changes nothing |
| MiningController.StatisticsRate | Laravel-API/app/Http/Controllers/API/MiningController.php:131-164 | statistics change only the rate, never a non-owner's, and leave an owner within 0.001 of the target |
| MiningController.GetMiningStatistics | Laravel-API/app/Http/Controllers/API/MiningController.php:78-198 | reconciles, counts the team, recomputes an owner's rate and reports counts, rate, bonus and balance of the result |
| TeamActivity.InactiveMembers | Laravel-API/app/Console/Commands/CheckTeamActivity.php:50-59 | the inactive members are team members other than the owner |
| TeamActivity.DecayedRate | Laravel-API/app/Console/Commands/CheckTeamActivity.php:64-74 | never raises the rate; keeps it at or below 1.0 or with no inactive member; above 1.0 with an inactive member it is lowered to exactly max(1.0, rate − 0.005·inactive) |
| TeamActivity.DecayTeam | Laravel-API/app/Console/Commands/CheckTeamActivity.php:42-89 | one team's check changes only rates, never raises one, and lowers only the owner's, to exactly max(1.0, rate − 0.005·inactive); an existing owner above 1.0 in a team of two or more with an inactive member is lowered |
| TeamActivity.QuietTeamsUntouched | Laravel-API/app/Console/Commands/CheckTeamActivity.php:36-62 | a team with one user, no existing owner or no inactive member is left untouched |
| TeamActivity.DecayAllLowersOnlyOwnerRates | Laravel-API/app/Console/Commands/CheckTeamActivity.php:42-89 | a whole run changes only rates, never raises one, and lowers only team owners' rates that were above 1.0, never below 1.0 |
| TeamActivity.LowRatesNeverDecay | Laravel-API/app/Console/Commands/CheckTeamActivity.php:66-74 | a user at or below 1.0 is unchanged by a run |
| TeamActivity.DecayExamples | Laravel-API/app/Console/Commands/CheckTeamActivity.php:64-70 | 1.2 with two inactive gives 1.19, 1.005 with three gives 1.0, 0.05 stays 0.05 |
| TeamActivity.CheckTeam | Laravel-API/app/Console/Commands/CheckTeamActivity.php:42-89 | the loop body leaves the users table as `DecayTeam` describes and keeps `Valid()` |
| TeamActivity.CheckTeamActivity | Laravel-API/app/Console/Commands/CheckTeamActivity.php:31-92 | the loop over the teams the query returns (every team with more than one user, each once) leaves the users table as the fold of `DecayTeam` over them in order, and keeps `Valid()` |
| Database.FirstWhere | Laravel-API/app/Http/Controllers/API/CommunityController.php:79-81 | a query's first row: the lowest matching position, or none iff no row matches |
| Database.ReferredIds | Laravel-API/app/Http/Controllers/API/CommunityController.php:115-117 | the list has one id per referral row of that referrer: each such row's referred id is listed, every listed id comes from such a row, and the length is the number of such rows |
| Database.ReferredIdsAppend | Laravel-API/app/Http/Controllers/API/AuthController.php:111-117 | a new referral row extends only its own referrer's list, by one id |
| Database.AddCodeKeepsOwnersUnique | Laravel-API/app/Http/Controllers/API/CommunityController.php:84-104 | adding a code for a user without one keeps one code per user and becomes that user's code |
| Database.RetargetKeepsOwnersUnique | Laravel-API/app/Http/Controllers/API/CommunityController.php:498-504 | pointing a code at another team keeps every owner and every user's code row |
| Database.NoCodeForUnknownUser | Laravel-API/app/Http/Controllers/API/AuthController.php:131-138 | a user who does not exist yet holds no code |
| Database.AddCompletionKeepsPairsUnique | Laravel-API/app/Http/Controllers/API/TaskController.php:84-111 | recording a pair not yet completed keeps pairs unique and marks it completed |
| CommunityController.StatsOf | Laravel-API/app/Http/Controllers/API/CommunityController.php:141-158 | the bonus is 2% per active member besides one and never negative; the penalty is absent iff no member is inactive, else 2% per inactive member; slots = 1000 − members |
| CommunityController.TeamAssignmentSettles | Laravel-API/app/Http/Controllers/API/CommunityController.php:31-76 | after a team is given the user belongs to an existing team, no other user changed, and a second pass changes nothing |
| CommunityController.StatsBonusOnlyFromDefault | Laravel-API/app/Http/Controllers/API/CommunityController.php:43-46 | the statistics screen adds the owner bonus only to a user at the default rate 0.04 |
| CommunityController.IssueCode | Laravel-API/app/Http/Controllers/API/CommunityController.php:78-104 | an issued code is kept; otherwise the fresh code is added for the user's team; one code per user and code ownership are kept |
| CommunityController.RetargetCode | Laravel-API/app/Http/Controllers/API/CommunityController.php:492-535 | an issued code keeps its text and points at the user's team; otherwise the fresh code is added; other users' rows are unchanged |
| CommunityController.IssuedCodeNeverChanges | Laravel-API/app/Http/Controllers/API/CommunityController.php:492-535 | once issued, a user's code survives any series of both endpoints unchanged |
| CommunityController.AssignTeam | Laravel-API/app/Http/Controllers/API/CommunityController.php:437-477 | gives a user without a team, or with a missing team, a new team they own, with the owner bonus only in the first case |
| CommunityController.GetTeamStats | Laravel-API/app/Http/Controllers/API/CommunityController.php:23-198 | 500 for a missing user; otherwise assigns a team, issues a missing code, and reports the counted statistics |
| CommunityController.GenerateInviteCode | Laravel-API/app/Http/Controllers/API/CommunityController.php:425-560 | 404 for a missing user; assigns a team with the bonus; 400 at 1000 referrals with the team kept; otherwise the user's retargeted code |
| TaskController.CompleteVerdict | Laravel-API/app/Http/Controllers/API/TaskController.php:73-102 | 404 iff the task is unknown; a credit iff it exists, is not yet completed by the user and is simple, of exactly its reward; otherwise 400 |
| TaskController.VerifyVerdict | Laravel-API/app/Http/Controllers/API/TaskController.php:145-181 | 500 iff the code is missing or blank; otherwise 400 iff no task has that id and code or the pair is already completed, and a credit of the task's reward in the remaining case; no action-type check |
| TaskController.CreditAtMostOnce | Laravel-API/app/Http/Controllers/API/TaskController.php:84-94 | after a credit, neither endpoint credits the same user and task again |
| TaskController.VerifiedTasksNeedTheirCode | Laravel-API/app/Http/Controllers/API/TaskController.php:158-168 | a task needing verification is refused by plain completion and credited only with its own code |
| TaskController.RecordCompletion | Laravel-API/app/Http/Controllers/API/TaskController.php:105-115 | appends exactly one completion and adds exactly the reward to the user's stored balance |
| TaskController.CompleteTask | Laravel-API/app/Http/Controllers/API/TaskController.php:67-136 | follows `CompleteVerdict`: a refusal changes nothing, a credit records the completion and the reward |
| TaskController.VerifyTask | Laravel-API/app/Http/Controllers/API/TaskController.php:145-216 | follows `VerifyVerdict`: a refusal changes nothing, a credit records the completion with its code and the reward |
| TaskController.ActiveRows | Laravel-API/app/Http/Controllers/API/TaskController.php:38-42 | one row per active task: a row is listed iff it is an active task's, with the user's completion flag, and there are as many rows as active tasks |
| TaskController.InsertByDue | Laravel-API/app/Http/Controllers/API/TaskController.php:43 | inserting into a due-date-sorted list keeps it sorted and adds exactly the row |
| TaskController.SortByDue | Laravel-API/app/Http/Controllers/API/TaskController.php:43 | the result is sorted by due date and a permutation of the input |
| TaskController.GetTasks | Laravel-API/app/Http/Controllers/API/TaskController.php:21-59 | exactly the active tasks, as many rows as active tasks, by ascending due date, each flagged completed iff the user completed it |
| ProjectController.StatusAfter | Laravel-API/app/Http/Controllers/API/ProjectController.php:189-194 | progress ≥ 1 completes, 0 < progress < 1 is in progress, progress 0 keeps the status |
| ProjectController.StatusAfterSettles | Laravel-API/app/Http/Controllers/API/ProjectController.php:189-194 | repeating an update gives the same status, and full progress completes whatever the status was |
| ProjectController.UpdateProgress | Laravel-API/app/Http/Controllers/API/ProjectController.php:171-210 | invalid input or a missing project gives 500 with nothing changed; otherwise sets progress, the count only when given, and the status rule |
| AuthController.ResolveTeamCode | Laravel-API/app/Http/Controllers/API/AuthController.php:36-68 | no referrer iff no code or a blank one, of any length; a non-blank code not 8 long is refused; a referrer iff the code matches a row whose owner has fewer than 1000 referrals; every refusal is 422 |
| AuthController.ReferralCapHolds | Laravel-API/app/Http/Controllers/API/AuthController.php:53-62 | a registration adds one referral to the resolved referrer only, so nobody passes 1000 referrals |
| AuthController.NewAccountStartsIdle | Laravel-API/app/Http/Controllers/API/AuthController.php:84-100 | a new account is idle, may start mining at once, and earns 0.05 per hour until it does |
| AuthController.CheckTeamCode | Laravel-API/app/Http/Controllers/API/AuthController.php:36-68 | the guards as performed agree with `ResolveTeamCode`, and a referrer exists as a user |
| AuthController.Register | Laravel-API/app/Http/Controllers/API/AuthController.php:29-172 | a refused code changes nothing; otherwise a new owned team, the new user at 0.05, their code, and with a referrer one referral row and +0.02 for that referrer only |
| AuthController.CreateOwner | Laravel-API/app/Http/Controllers/API/AuthController.php:70-100 | the new team is owned by the new user, who joins it idle at 0.04 + 0.01 with a zero balance checkpointed now |
| AuthController.AddReferral | Laravel-API/app/Http/Controllers/API/AuthController.php:108-121 | exactly one referral row is appended and only the referrer's rate rises, by 0.02 |
| AuthController.AddPersonalCode | Laravel-API/app/Http/Controllers/API/AuthController.php:130-138 | the new user's code is appended for their team, keeping one code per user |

## Left out

- UserModel.CompleteSession: returns exactly 0. Base balance and rate are stored with two decimals, so the source returns the rounding residue of that store, which is not modelled.
- Two-decimal storage of `base_balance` and `mining_rate` is not modelled anywhere. Amounts are exact, so a stored balance is never rounded and a rate comparison such as `mining_rate == 0.04` is exact.
- The date library's hour difference is modelled as the absolute difference in whole hours, rounded down. Time zones and daylight saving are not modelled.
- Each request uses one `now`. The source reads the clock several times within a request.
- Formatting of response values is not modelled: `number_format` strings, the "+N%" and "-N%" texts (the penalty is a datatype), team names, `days_active`, log lines and messages.
- `getGlobalStats`, `formatLargeNumber`, `formatHashrate`, community posts and channels: display statistics over floating point and static data.
- VersionController, ProfileController, TeamController and MarketController are not part of this model, nor are login, logout, password reset, tokens and mail in AuthController.
- `Str::random` codes and fresh database ids are parameters. The model does not enforce that generated codes are distinct. A lookup by code takes the first matching row.
- AuthController.Register: only the team-code validation is modelled. Name, email and password validation, and its 422 answers, are left out, as are password hashing and token creation.
- Team codes and task verification codes are taken as they reach the action. The framework's input trimming and empty-to-null conversion are not modelled: a code with surrounding spaces is compared as it is. A blank code counts as not supplied.
- A team id of 0 counts as a team. PHP treats 0 as "no team", but database ids start at 1.
- Failures of the database itself, and the nested try/catch around a missing referral table in the team-count queries, are not modelled: the tables always exist.
- TaskController.GetTasks: rows with equal due dates keep table order. SQL fixes no order among them, so the contract states only sorted-and-permutation. A missing due date is not modelled. Duplicate rows from the join cannot arise because completions are unique.
- Task titles, descriptions and action data, and project fields other than progress, completed tasks and status, are not modelled.
- ProjectController.UpdateProgress: the project lookup is a nullable object, and a progress value that is not a number is a missing one.
- Concurrent requests are not modelled. Each action is one step. For the actions without a transaction, interleaving with other requests is therefore not captured.

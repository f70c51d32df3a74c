/** The task endpoints: the task list, completing a simple task, and completing
    a task with its verification code. A completion credits the task's reward
    to the user's base balance, at most once per user and task. */
module TaskController {
  import opened Common
  import opened UserModel
  import opened Database

  /** The first task with the given id. */
  function TaskById(tasks: seq<Task>, taskId: nat): Option<nat>
  {
    FirstWhere(tasks, (t: Task) => t.id == taskId)
  }

  /** The first task with the given id whose verification code is `code`. */
  function TaskByCode(tasks: seq<Task>, taskId: nat, code: string): Option<nat>
  {
    FirstWhere(tasks, (t: Task) => t.id == taskId && t.verificationCode == Some(code))
  }

  /** What a completion request decides: credit a reward, or refuse with an
      HTTP status. */
  datatype Verdict = Credit(reward: real) | Refuse(status: nat)

  /** `completeTask`: an unknown task is 404; a task already completed by the
      user, or one that needs verification, is 400; otherwise its reward. */
  function CompleteVerdict(tasks: seq<Task>, completions: seq<Completion>, userId: nat, taskId: nat): (v: Verdict)
    ensures v == Refuse(NotFound) <==> TaskById(tasks, taskId).None?
    ensures v.Credit? <==>
      TaskById(tasks, taskId).Some? && !HasCompleted(completions, userId, taskId) &&
      tasks[TaskById(tasks, taskId).value].actionType == Simple
    ensures v.Credit? ==> v.reward == tasks[TaskById(tasks, taskId).value].reward
    ensures v.Refuse? ==> v.status == NotFound || v.status == BadRequest
  {
    match TaskById(tasks, taskId)
    case None => Refuse(NotFound)
    case Some(k) =>
      if HasCompleted(completions, userId, taskId) then Refuse(BadRequest)
      else if tasks[k].actionType != Simple then Refuse(BadRequest)
      else Credit(tasks[k].reward)
  }

  /** `verifyTask`: a missing or blank code fails validation, which the
      action's catch-all turns into 500; a code that does not belong to the task
      is 400, and so is a task already completed by the user; otherwise its
      reward, whatever the task's action type. */
  function VerifyVerdict(tasks: seq<Task>, completions: seq<Completion>, userId: nat, taskId: nat,
                         code: Option<string>): (v: Verdict)
    ensures v == Refuse(ServerError) <==> code.None? || IsBlank(code.value)
    ensures v.Refuse? ==> v.status == ServerError || v.status == BadRequest
    ensures v == Refuse(BadRequest) <==>
      code.Some? && !IsBlank(code.value) &&
      (TaskByCode(tasks, taskId, code.value).None? || HasCompleted(completions, userId, taskId))
    ensures v.Credit? <==>
      code.Some? && !IsBlank(code.value) && TaskByCode(tasks, taskId, code.value).Some? &&
      !HasCompleted(completions, userId, taskId)
    ensures v.Credit? ==>
      var t := tasks[TaskByCode(tasks, taskId, code.value).value];
      t.id == taskId && t.verificationCode == code && v.reward == t.reward
  {
    if code.None? || IsBlank(code.value) then Refuse(ServerError)
    else match TaskByCode(tasks, taskId, code.value)
      case None => Refuse(BadRequest)
      case Some(k) =>
        if HasCompleted(completions, userId, taskId) then Refuse(BadRequest)
        else Credit(tasks[k].reward)
  }

  /** Once a user was credited for a task, neither endpoint credits the same
      user for the same task again. */
  lemma CreditAtMostOnce(tasks: seq<Task>, completions: seq<Completion>, row: Completion, code: Option<string>)
    requires UniqueCompletions(completions) && !HasCompleted(completions, row.userId, row.taskId)
    ensures UniqueCompletions(completions + [row])
    ensures CompleteVerdict(tasks, completions + [row], row.userId, row.taskId).Refuse?
    ensures VerifyVerdict(tasks, completions + [row], row.userId, row.taskId, code).Refuse?
  {
    AddCompletionKeepsPairsUnique(completions, row);
  }

  /** A task that needs verification is credited only with its own code. */
  lemma VerifiedTasksNeedTheirCode(tasks: seq<Task>, completions: seq<Completion>, userId: nat, taskId: nat,
                                   code: Option<string>)
    requires TaskById(tasks, taskId).Some? && tasks[TaskById(tasks, taskId).value].actionType != Simple
    ensures CompleteVerdict(tasks, completions, userId, taskId).Refuse?
    ensures VerifyVerdict(tasks, completions, userId, taskId, code).Credit? ==>
      exists i :: 0 <= i < |tasks| && tasks[i].id == taskId && tasks[i].verificationCode == code
  {
  }

  /** The state after a credit: the completion row is recorded and the reward
      is added to the user's base balance; nothing else changes. */
  ghost predicate Credited(users0: map<nat, Account>, completions0: seq<Completion>,
                           users1: map<nat, Account>, completions1: seq<Completion>,
                           row: Completion, reward: real)
    requires row.userId in users0
  {
    completions1 == completions0 + [row] &&
    users1 == users0[row.userId := users0[row.userId].(baseBalance := users0[row.userId].baseBalance + reward)]
  }

  datatype TaskReward = TaskReward(taskId: nat, reward: real, newBalance: real)

  /** Records the completion and credits the reward (the common tail of both
      completion endpoints). */
  method RecordCompletion(db: Database, row: Completion, reward: real) returns (newBalance: real)
    requires db.Valid() && row.userId in db.users && !HasCompleted(db.completions, row.userId, row.taskId)
    modifies db`users, db`completions
    ensures db.Valid()
    ensures Credited(old(db.users), old(db.completions), db.users, db.completions, row, reward)
    ensures row.userId in db.users && newBalance == db.users[row.userId].baseBalance
  {
    AddCompletionKeepsPairsUnique(db.completions, row);
    db.completions := db.completions + [row];
    var a := db.users[row.userId];
    newBalance := a.baseBalance + reward;
    db.users := db.users[row.userId := a.(baseBalance := newBalance)];
  }

  /** `completeTask`: completes a simple task and credits its reward. */
  method CompleteTask(db: Database, userId: nat, taskId: nat, now: int) returns (r: Reply<TaskReward>)
    requires db.Valid() && userId in db.users
    modifies db`users, db`completions
    ensures db.Valid()
    ensures match CompleteVerdict(old(db.tasks), old(db.completions), userId, taskId)
      case Refuse(status) =>
        r == Failure(status) && db.users == old(db.users) && db.completions == old(db.completions)
      case Credit(reward) =>
        Credited(old(db.users), old(db.completions), db.users, db.completions,
                 Completion(userId, taskId, None, now), reward) &&
        r == Success(TaskReward(taskId, reward, db.users[userId].baseBalance))
  {
    var found := TaskById(db.tasks, taskId);
    if found.None? {
      return Failure(NotFound);
    }
    var task := db.tasks[found.value];
    if HasCompleted(db.completions, userId, taskId) {
      return Failure(BadRequest);
    }
    if task.actionType != Simple {
      return Failure(BadRequest);
    }
    var balance := RecordCompletion(db, Completion(userId, taskId, None, now), task.reward);
    r := Success(TaskReward(taskId, task.reward, balance));
  }

  /** `verifyTask`: completes a task whose verification code matches and
      credits its reward. */
  method VerifyTask(db: Database, userId: nat, taskId: nat, code: Option<string>, now: int)
    returns (r: Reply<TaskReward>)
    requires db.Valid() && userId in db.users
    modifies db`users, db`completions
    ensures db.Valid()
    ensures match VerifyVerdict(old(db.tasks), old(db.completions), userId, taskId, code)
      case Refuse(status) =>
        r == Failure(status) && db.users == old(db.users) && db.completions == old(db.completions)
      case Credit(reward) =>
        Credited(old(db.users), old(db.completions), db.users, db.completions,
                 Completion(userId, taskId, code, now), reward) &&
        r == Success(TaskReward(taskId, reward, db.users[userId].baseBalance))
  {
    if code.None? || IsBlank(code.value) {
      return Failure(ServerError);
    }
    var found := TaskByCode(db.tasks, taskId, code.value);
    if found.None? {
      return Failure(BadRequest);
    }
    var task := db.tasks[found.value];
    if HasCompleted(db.completions, userId, taskId) {
      return Failure(BadRequest);
    }
    var balance := RecordCompletion(db, Completion(userId, taskId, code, now), task.reward);
    r := Success(TaskReward(taskId, task.reward, balance));
  }

  /** One line of the task list. */
  datatype TaskRow = TaskRow(id: nat, reward: real, dueDate: int, actionType: ActionType, completed: bool)

  function RowOf(t: Task, completions: seq<Completion>, userId: nat): TaskRow
  {
    TaskRow(t.id, t.reward, t.dueDate, t.actionType, HasCompleted(completions, userId, t.id))
  }

  /** The `is_active` column of the tasks table. */
  function ActiveColumn(tasks: seq<Task>): seq<bool>
  {
    seq(|tasks|, i requires 0 <= i < |tasks| => tasks[i].isActive)
  }

  /** One row per active task, each flagged with whether the user completed it. */
  function ActiveRows(tasks: seq<Task>, completions: seq<Completion>, userId: nat): (rows: seq<TaskRow>)
    ensures |rows| == multiset(ActiveColumn(tasks))[true]
    ensures forall row :: row in rows <==>
      exists i :: 0 <= i < |tasks| && tasks[i].isActive && row == RowOf(tasks[i], completions, userId)
  {
    if tasks == [] then []
    else
      var rest := ActiveRows(tasks[1..], completions, userId);
      assert forall i :: 1 <= i < |tasks| ==> tasks[i] == tasks[1..][i - 1];
      assert ActiveColumn(tasks) == [tasks[0].isActive] + ActiveColumn(tasks[1..]);
      assert forall row :: row in rest <==>
        exists i :: 1 <= i < |tasks| && tasks[i].isActive && row == RowOf(tasks[i], completions, userId);
      if tasks[0].isActive then [RowOf(tasks[0], completions, userId)] + rest else rest
  }

  predicate SortedByDue(rows: seq<TaskRow>)
  {
    forall i, j :: 0 <= i < j < |rows| ==> rows[i].dueDate <= rows[j].dueDate
  }

  function InsertByDue(row: TaskRow, rows: seq<TaskRow>): (r: seq<TaskRow>)
    requires SortedByDue(rows)
    ensures SortedByDue(r)
    ensures multiset(r) == multiset(rows) + multiset{row}
    ensures |r| == |rows| + 1 && (r[0] == row || (rows != [] && r[0] == rows[0]))
  {
    if rows == [] || row.dueDate <= rows[0].dueDate then [row] + rows
    else
      var rest := InsertByDue(row, rows[1..]);
      assert rows[0].dueDate <= rest[0].dueDate;
      assert forall j :: 0 <= j < |rest| ==> rows[0].dueDate <= rest[j].dueDate;
      assert multiset(rows) == multiset{rows[0]} + multiset(rows[1..]) by {
        assert rows == [rows[0]] + rows[1..];
      }
      [rows[0]] + rest
  }

  function SortByDue(rows: seq<TaskRow>): (r: seq<TaskRow>)
    ensures SortedByDue(r)
    ensures multiset(r) == multiset(rows)
  {
    if rows == [] then []
    else
      assert rows == [rows[0]] + rows[1..];
      InsertByDue(rows[0], SortByDue(rows[1..]))
  }

  /** `getTasks`: exactly the active tasks, each once, with the user's
      completion flag, ordered by due date. */
  function GetTasks(tasks: seq<Task>, completions: seq<Completion>, userId: nat): (r: seq<TaskRow>)
    ensures SortedByDue(r)
    ensures |r| == multiset(ActiveColumn(tasks))[true]
    ensures multiset(r) == multiset(ActiveRows(tasks, completions, userId))
    ensures forall row :: row in r <==>
      exists i :: 0 <= i < |tasks| && tasks[i].isActive && row == RowOf(tasks[i], completions, userId)
    ensures forall row :: row in r ==> (row.completed <==> HasCompleted(completions, userId, row.id))
  {
    var rows := ActiveRows(tasks, completions, userId);
    var r := SortByDue(rows);
    assert forall row :: row in r <==> row in multiset(r);
    assert forall row :: row in rows <==> row in multiset(rows);
    r
  }
}

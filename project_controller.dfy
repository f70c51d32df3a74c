/** Project progress: the only write on projects that this model covers. */
module ProjectController {
  import opened Common

  /** A project row; `updateProgress` changes these fields in place. */
  class Project {
    var progress: real
    var completedTasks: int
    var status: string

    constructor (progress: real, completedTasks: int, status: string)
      ensures this.progress == progress && this.completedTasks == completedTasks && this.status == status
    {
      this.progress := progress;
      this.completedTasks := completedTasks;
      this.status := status;
    }
  }

  /** The status after progress is set: full progress completes the project,
      partial progress puts it in progress, and zero progress leaves the status
      as it was. */
  function StatusAfter(progress: real, status: string): (s: string)
    ensures progress >= 1.0 ==> s == "Completed"
    ensures 0.0 < progress < 1.0 ==> s == "In Progress"
    ensures progress <= 0.0 ==> s == status
  {
    if progress >= 1.0 then "Completed"
    else if progress > 0.0 then "In Progress"
    else status
  }

  /** Setting the same progress twice gives the same status as setting it once,
      and a project set to full progress stays completed whatever it was. */
  lemma StatusAfterSettles(progress: real, status: string)
    ensures StatusAfter(progress, StatusAfter(progress, status)) == StatusAfter(progress, status)
    ensures StatusAfter(1.0, status) == StatusAfter(1.0, "In Progress")
  {
  }

  /** The request is valid: progress is present and between 0 and 1, and a
      completed-task count, when given, is not negative. */
  predicate ValidUpdate(progress: Option<real>, completedTasks: Option<int>)
  {
    progress.Some? && 0.0 <= progress.value <= 1.0 &&
    (completedTasks.Some? ==> completedTasks.value >= 0)
  }

  /** `updateProgress`: a failed validation or a missing project (`null`) is
      answered with 500 by the action's catch-all, and nothing changes. */
  method UpdateProgress(p: Project?, progress: Option<real>, completedTasks: Option<int>) returns (r: Reply<()>)
    modifies p
    ensures !ValidUpdate(progress, completedTasks) || p == null ==> r == Failure(ServerError)
    ensures p != null && !ValidUpdate(progress, completedTasks) ==>
      p.progress == old(p.progress) && p.completedTasks == old(p.completedTasks) && p.status == old(p.status)
    ensures p != null && ValidUpdate(progress, completedTasks) ==>
      r == Success(()) &&
      p.progress == progress.value &&
      p.completedTasks == completedTasks.GetOr(old(p.completedTasks)) &&
      p.status == StatusAfter(progress.value, old(p.status))
  {
    if !ValidUpdate(progress, completedTasks) {
      return Failure(ServerError);
    }
    if p == null {
      return Failure(ServerError);
    }
    p.progress := progress.value;
    if completedTasks.Some? {
      p.completedTasks := completedTasks.value;
    }
    if p.progress >= 1.0 {
      p.status := "Completed";
    } else if p.progress > 0.0 {
      p.status := "In Progress";
    }
    r := Success(());
  }
}

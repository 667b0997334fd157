/** The three pure transition tables of the task machines. */
module TaskKernel {
  import opened Results
  import opened Schema

  datatype TaskEvent = EventOpen | EventPause | EventClose | EventPlatformPause | EventPlatformClose

  datatype ClaimEvent = ClaimRenew | ClaimRelease | ClaimExpire | ClaimUse

  function TaskTransition(from: TaskStatus, event: TaskEvent): Result<TaskStatus> {
    match (from, event)
    case (Paused, EventOpen) => Ok(Open)
    case (Open, EventPause) => Ok(Paused)
    case (Open, EventPlatformPause) => Ok(Paused)
    case (Open, EventClose) => Ok(Closed)
    case (Paused, EventClose) => Ok(Closed)
    case (Open, EventPlatformClose) => Ok(Closed)
    case (Paused, EventPlatformClose) => Ok(Closed)
    case _ => Err(IllegalTransition)
  }

  function ClaimTransition(from: ClaimStatus, event: ClaimEvent): Result<ClaimStatus> {
    match (from, event)
    case (Active, ClaimRenew) => Ok(Active)
    case (Active, ClaimRelease) => Ok(Released)
    case (Active, ClaimExpire) => Ok(Expired)
    case (Active, ClaimUse) => Ok(Used)
    case _ => Err(IllegalTransition)
  }

  function SubmissionTransition(from: SubmissionState, event: SubmissionEvent): Result<SubmissionState> {
    match (from, event)
    case (Delivering, Deliver2XX) => Ok(Settled)
    case (Delivering, Deliver4XX) => Ok(Rejected)
    case (Delivering, Timeout) => Ok(Uncertain)
    case (Delivering, DeliveryFailed) => Ok(Failed)
    case (Uncertain, Deliver2XX) => Ok(Settled)
    case (Uncertain, Deliver4XX) => Ok(Rejected)
    case (Uncertain, DeliveryFailed) => Ok(Failed)
    case (Uncertain, Unresolved) => Ok(Failed)
    case _ => Err(IllegalTransition)
  }

  predicate Terminal(state: SubmissionState) {
    state in {Settled, Rejected, Failed}
  }
}

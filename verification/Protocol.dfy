/** internal/protocol and internal/client/errors.go: what the agent tells the
    Server about the end of a run, and how a failed request is classified. */
module Protocol {
  import opened Options

  datatype RunStatus = Success | Failed | TimedOut | Cancelled | Lost

  datatype FinishReason = SpawnFailed | AgentStopped | AgentRestarted | RunAsNotPermitted

  datatype FinishRequest = FinishRequest(
    status: RunStatus,
    exitCode: Option<int>,
    startedAt: Option<int>,
    finishedAt: int,
    lastSeq: nat,
    truncated: bool,
    reason: Option<FinishReason>)

  datatype ErrorCode = RunNotRunning | RunFinished | NotLeased | LeaseExpired | RunCancelled | OtherCode

  /** Answered is an HTTP error answer, Network a timeout or a broken connection,
      Ended a request cut off by its cancelled context, Malformed an answer that
      cannot be read or a request that cannot be made. */
  datatype Failure =
    | Answered(status: int, code: ErrorCode, retryAfter: nat)
    | Network
    | Ended
    | Malformed

  predicate IsRetryable(f: Failure) {
    match f
    case Answered(status, _, _) => status >= 500 || status == 429
    case Network => true
    case Ended => false
    case Malformed => false
  }

  predicate IsConflict(f: Failure, code: ErrorCode) {
    f.Answered? && f.status == 409 && f.code == code
  }

  predicate IsNotFound(f: Failure) {
    f.Answered? && f.status == 404
  }

  /** Which failures are worth a repeat, and which two tell that the run is closed. */
  lemma FailuresExactly(f: Failure)
    ensures IsRetryable(f) <==> f.Network? || (f.Answered? && (f.status == 429 || f.status >= 500))
    ensures IsNotFound(f) <==> f.Answered? && f.status == 404
    ensures forall code :: IsConflict(f, code) <==> f.Answered? && f.status == 409 && f.code == code
    ensures RetryAfter(f) > 0 ==> f.Answered? && RetryAfter(f) == f.retryAfter
    ensures f.Answered? ==> RetryAfter(f) == f.retryAfter
  {
  }

  function RetryAfter(f: Failure): nat {
    if f.Answered? then f.retryAfter else 0
  }
}

/** internal/agent/reporter.go: the requests one run's delivery makes, and what
    may follow what. */
module DeliveryTrace {
  import opened Chunks
  import opened Options
  import opened Protocol
  import BackoffSpec

  /** Taken is a success; `last` is the Server's last sequence number. */
  datatype OutputAnswer = Taken(last: nat, truncated: bool, cancel: bool) | Refused(failure: Failure)

  datatype HeartbeatAnswer = Beating(cancel: bool) | Missed(failure: Failure)

  /** Slept is the wait of a retry loop, caused by the failure `after`. */
  datatype Act =
    | Beat(beat: HeartbeatAnswer)
    | Sent(batch: seq<Chunk>, answer: OutputAnswer)
    | Finish(request: FinishRequest, failure: Option<Failure>)
    | Slept(delay: int, after: Failure)

  function FailureOf(a: Act): Option<Failure> {
    match a
    case Beat(beat) => if beat.Missed? then Some(beat.failure) else None
    case Sent(_, answer) => if answer.Refused? then Some(answer.failure) else None
    case Finish(_, failure) => failure
    case Slept(_, _) => None
  }

  predicate IsClosing(f: Failure) {
    IsConflict(f, RunNotRunning) || IsNotFound(f)
  }

  /** A transiently failed output or heartbeat request. */
  predicate Fails(a: Act) {
    (a.Beat? || a.Sent?) && FailureOf(a).Some? && IsRetryable(FailureOf(a).value)
  }

  predicate Heals(a: Act) {
    a.Beat? && a.beat.Beating?
  }

  /** A heartbeat answered run_not_running or 404. */
  predicate Closes(a: Act) {
    a.Beat? && a.beat.Missed? && IsClosing(a.beat.failure)
  }

  /** An answer after which the Server wants no more output. */
  predicate EndsOutput(a: Act) {
    a.Sent? && if a.answer.Taken? then a.answer.truncated else !IsRetryable(a.answer.failure)
  }

  /** How often the Server asked to cancel the run. */
  function Asked(t: seq<Act>): nat {
    if t == [] then 0 else Asked(t[..|t| - 1]) + if AsksCancel(t[|t| - 1]) then 1 else 0
  }

  predicate AsksCancel(a: Act) {
    (a.Beat? && a.beat.Beating? && a.beat.cancel) || (a.Sent? && a.answer.Taken? && a.answer.cancel)
  }

  /** Whether the Server said that it cut the output. */
  predicate Limited(t: seq<Act>) {
    exists a :: a in t && SaysLimited(a)
  }

  predicate SaysLimited(a: Act) {
    a.Sent? && a.answer.Taken? && a.answer.truncated
  }

  /** A request that failed because the report context had ended. */
  predicate IsCutOff(a: Act) {
    FailureOf(a) == Some(Ended)
  }

  predicate CutOff(t: seq<Act>) {
    exists a :: a in t && IsCutOff(a)
  }

  /** An answer after which the report may stop sending output for good: the Server's
      limit, or an output or heartbeat request that no retry can mend. */
  predicate Refuses(a: Act) {
    || SaysLimited(a)
    || ((a.Beat? || a.Sent?) && FailureOf(a).Some? && !IsRetryable(FailureOf(a).value) && !IsCutOff(a))
  }

  predicate TurnedDown(t: seq<Act>) {
    exists a :: a in t && Refuses(a)
  }

  predicate GivenUp(t: seq<Act>) {
    TurnedDown(t) || CutOff(t)
  }

  /** Everything that was asked of the Server, with what came of it. */
  function Requests(t: seq<Act>): seq<Act> {
    if t == [] then [] else Requests(t[..|t| - 1]) + if t[|t| - 1].Slept? then [] else [t[|t| - 1]]
  }

  /** How a request may fail: transiently only in an outage, and cut off only once the
      context has ended. */
  predicate MayFail(f: Failure, outage: bool, ended: bool) {
    (IsRetryable(f) ==> outage) && (f == Ended ==> ended)
  }

  lemma OneMoreAct(t: seq<Act>, a: Act)
    ensures Asked(t + [a]) == Asked(t) + if AsksCancel(a) then 1 else 0
    ensures Limited(t + [a]) <==> Limited(t) || SaysLimited(a)
    ensures GivenUp(t + [a]) <==> GivenUp(t) || Refuses(a) || IsCutOff(a)
    ensures CutOff(t + [a]) <==> CutOff(t) || IsCutOff(a)
    ensures Requests(t + [a]) == Requests(t) + if a.Slept? then [] else [a]
  {
    assert (t + [a])[..|t|] == t;
    forall b ensures b in t + [a] <==> b in t || b == a {
    }
  }

  /** One heartbeat was sent, and failed as told or not at all. */
  predicate Beaten(before: seq<Act>, after: seq<Act>, failure: Option<Failure>) {
    |after| == |before| + 1 && before <= after && after[|before|].Beat? && FailureOf(after[|before|]) == failure
  }

  /** The batch was sent: at once while connected, else only once a heartbeat has succeeded. */
  predicate Offered(before: seq<Act>, after: seq<Act>, batch: seq<Chunk>, disconnected: bool) {
    && before < after
    && var first := after[|before|];
       if !disconnected then |after| == |before| + 1 && first.Sent? && first.batch == batch
       else if first.Beat? && first.beat.Missed? then |after| == |before| + 1
       else
         && first.Beat? && |after| == |before| + 2
         && after[|before| + 1].Sent? && after[|before| + 1].batch == batch
  }

  lemma OnlyBeaten(before: seq<Act>, after: seq<Act>, batch: seq<Chunk>, failure: Option<Failure>)
    requires Beaten(before, after, failure) && failure.Some?
    ensures Offered(before, after, batch, true) && after != [] && !Accepts(after[|after| - 1])
    ensures Fails(after[|after| - 1]) <==> IsRetryable(failure.value)
  {
  }

  lemma BeatenAndSent(before: seq<Act>, reconnected: seq<Act>, after: seq<Act>, batch: seq<Chunk>, answer: OutputAnswer,
                      disconnected: bool)
    requires if disconnected then Beaten(before, reconnected, None) else reconnected == before
    requires after == reconnected + [Sent(batch, answer)]
    ensures Offered(before, after, batch, disconnected) && after[|after| - 1] == Sent(batch, answer)
    ensures Fails(after[|after| - 1]) <==> answer.Refused? && IsRetryable(answer.failure)
    ensures EndsOutput(Sent(batch, answer)) <==> if answer.Taken? then answer.truncated else !IsRetryable(answer.failure)
  {
    if disconnected {
      assert after[|before|] == reconnected[|before|];
    }
  }

  /** One attempt: only its last act may be a transient failure, and is one only if the
      attempt failed so. */
  ghost predicate Attempted(before: seq<Act>, after: seq<Act>, failure: Option<Failure>) {
    && before <= after
    && (forall i :: |before| <= i < |after| - 1 ==> !Fails(after[i]))
    && (failure.None? || !IsRetryable(failure.value) ==> after == before || !Fails(after[|after| - 1]))
  }

  lemma BeatenIsAttempt(before: seq<Act>, after: seq<Act>, failure: Option<Failure>)
    requires Beaten(before, after, failure)
    ensures Attempted(before, after, failure)
  {
  }

  lemma SentIsAttempt(before: seq<Act>, reconnected: seq<Act>, after: seq<Act>, batch: seq<Chunk>, answer: OutputAnswer)
    requires reconnected == before || Beaten(before, reconnected, None)
    requires after == reconnected + [Sent(batch, answer)]
    ensures Attempted(before, after, if answer.Taken? then None else Some(answer.failure))
  {
    assert forall i :: 0 <= i < |reconnected| ==> after[i] == reconnected[i];
  }

  /** From the n-th act on, every transient failure but the last act is slept on at once. */
  ghost predicate PacedFrom(t: seq<Act>, n: nat) {
    forall i :: n <= i < |t| - 1 && Fails(t[i]) ==> t[i + 1].Slept?
  }

  ghost predicate Rested(t: seq<Act>, n: nat) {
    |t| <= n || !Fails(t[|t| - 1])
  }

  lemma PacedAttempt(before: seq<Act>, after: seq<Act>, failure: Option<Failure>, n: nat)
    requires n <= |before| && PacedFrom(before, n) && Rested(before, n) && Attempted(before, after, failure)
    ensures PacedFrom(after, n)
    ensures failure.None? || !IsRetryable(failure.value) ==> Rested(after, n)
  {
    assert forall i :: 0 <= i < |before| ==> after[i] == before[i];
  }

  lemma PacedSleep(t: seq<Act>, n: nat, delay: int, after: Failure)
    requires PacedFrom(t, n)
    ensures PacedFrom(t + [Slept(delay, after)], n) && Rested(t + [Slept(delay, after)], n)
  {
    var u := t + [Slept(delay, after)];
    assert forall i :: 0 <= i < |t| ==> u[i] == t[i];
  }

  lemma NothingToPace(t: seq<Act>)
    ensures PacedFrom(t, |t|) && Rested(t, |t|)
  {
  }

  lemma PacedOn(before: seq<Act>, after: seq<Act>, n: nat)
    requires n <= |before| && before <= after && PacedFrom(before, n) && Rested(before, n)
    requires PacedFrom(after, |before|) && Rested(after, |before|)
    ensures PacedFrom(after, n) && Rested(after, n)
  {
    assert forall i :: 0 <= i < |before| ==> after[i] == before[i];
  }

  predicate Accepts(a: Act) {
    a.Sent? && a.answer.Taken?
  }

  /** How many heartbeats were sent. */
  function Beats(t: seq<Act>): nat {
    if t == [] then 0 else Beats(t[..|t| - 1]) + if t[|t| - 1].Beat? then 1 else 0
  }

  lemma {:induction false} BeatsGrow(t: seq<Act>, u: seq<Act>)
    requires t <= u
    ensures Beats(t) <= Beats(u)
    decreases |u|
  {
    if t == u {
    } else {
      BeatsGrow(t, u[..|u| - 1]);
    }
  }

  lemma OneMoreBeat(t: seq<Act>, a: Act)
    ensures Beats(t + [a]) == Beats(t) + if a.Beat? then 1 else 0
  {
    assert (t + [a])[..|t|] == t;
  }

  /** No finish request but this one was made. */
  ghost predicate Carries(t: seq<Act>, request: FinishRequest) {
    forall a :: a in t && a.Finish? ==> a.request == request
  }

  predicate Finished(t: seq<Act>) {
    exists a :: a in t && a.Finish?
  }

  predicate JustFinished(t: seq<Act>) {
    t != [] && t[|t| - 1].Finish?
  }

  /** The last request is a finish that the Server took or will never take. */
  predicate Settled(t: seq<Act>) {
    && t != []
    && var last := t[|t| - 1];
       last.Finish? && (last.failure.None? || (!IsRetryable(last.failure.value) && !IsCutOff(last)))
  }

  ghost predicate HealedBetween(t: seq<Act>, i: int, j: int) {
    exists k :: 0 <= i < k < j <= |t| && Heals(t[k])
  }

  /** Output is replayed after a failure only once a heartbeat has succeeded, with
      no failure since. */
  ghost predicate ReplaysAreSafe(t: seq<Act>) {
    forall i, j :: 0 <= i < j < |t| && Fails(t[i]) && t[j].Sent? ==> HealedBetween(t, i, j)
  }

  ghost predicate ClosedStaysClosed(t: seq<Act>) {
    forall i, j :: 0 <= i < j < |t| && Closes(t[i]) ==> !t[j].Beat? && !t[j].Sent?
  }

  ghost predicate EndedOutputStaysEnded(t: seq<Act>) {
    forall i, j :: 0 <= i < j < |t| && EndsOutput(t[i]) ==> !t[j].Sent?
  }

  ghost predicate FinishComesLast(t: seq<Act>) {
    forall i, j :: 0 <= i < j < |t| && t[i].Finish? ==> t[j].Finish? || t[j].Slept?
  }

  /** A retry loop sleeps after each transient failure, at least four fifths of the
      minimal backoff and as long as the Server's Retry-After asks. */
  ghost predicate Paced(t: seq<Act>) {
    && (forall i :: 0 <= i < |t| && t[i].Slept? ==>
          && i > 0 && FailureOf(t[i - 1]) == Some(t[i].after) && IsRetryable(t[i].after)
          && t[i].delay >= RetryAfter(t[i].after)
          && 10 * t[i].delay >= 8 * BackoffSpec.SECOND)
    && (forall i :: 0 < i < |t| && t[i].Finish? ==> !t[i - 1].Finish?)
  }

  ghost predicate Safe(t: seq<Act>) {
    && ReplaysAreSafe(t) && ClosedStaysClosed(t) && EndedOutputStaysEnded(t)
    && FinishComesLast(t) && Paced(t)
  }

  /** What the reporter's flags know about the requests made before the finish. */
  ghost predicate Knows(t: seq<Act>, disconnected: bool, outputDone: bool, heartbeats: bool) {
    && Safe(t)
    && (forall i :: 0 <= i < |t| ==> !t[i].Finish?)
    && (!disconnected ==> forall i :: 0 <= i < |t| && Fails(t[i]) ==> HealedBetween(t, i, |t|))
    && (forall i :: 0 <= i < |t| && Closes(t[i]) ==> outputDone && !heartbeats)
    && (forall i :: 0 <= i < |t| && EndsOutput(t[i]) ==> outputDone)
  }

  lemma HealedMore(t: seq<Act>, a: Act)
    ensures forall i, j :: HealedBetween(t, i, j) ==> HealedBetween(t + [a], i, j)
  {
    forall i, j | HealedBetween(t, i, j) ensures HealedBetween(t + [a], i, j) {
      var k :| 0 <= i < k < j <= |t| && Heals(t[k]);
      assert Heals((t + [a])[k]);
    }
  }

  lemma ReplayMore(t: seq<Act>, a: Act)
    requires ReplaysAreSafe(t)
    requires a.Sent? ==> forall i :: 0 <= i < |t| && Fails(t[i]) ==> HealedBetween(t, i, |t|)
    ensures ReplaysAreSafe(t + [a])
  {
    var u := t + [a];
    HealedMore(t, a);
    forall i, j | 0 <= i < j < |u| && Fails(u[i]) && u[j].Sent? ensures HealedBetween(u, i, j) {
      assert u[i] == t[i];
      if j < |t| {
        assert u[j] == t[j];
        assert HealedBetween(t, i, j);
      } else {
        assert HealedBetween(t, i, |t|);
      }
    }
  }

  lemma KnowsNothing(heartbeats: bool)
    ensures Knows([], false, false, heartbeats) && Asked([]) == 0 && !Limited([]) && !CutOff([]) && Requests([]) == []
  {
  }

  lemma KnowsBeat(t: seq<Act>, beat: HeartbeatAnswer, disconnected: bool, outputDone: bool, heartbeats: bool)
    requires Knows(t, disconnected, outputDone, heartbeats) && (!outputDone || heartbeats)
    ensures
      var closed := beat.Missed? && IsClosing(beat.failure);
      Knows(t + [Beat(beat)],
            if beat.Beating? then false else disconnected || (!closed && IsRetryable(beat.failure)),
            outputDone || closed, heartbeats && !closed)
  {
    var a := Beat(beat);
    var u := t + [a];
    SafeBeat(t, beat, disconnected, outputDone, heartbeats);
    assert forall i :: 0 <= i < |t| ==> u[i] == t[i];
    hide Safe;
    if beat.Beating? {
      forall i | 0 <= i < |u| && Fails(u[i]) ensures HealedBetween(u, i, |u|) {
        assert Heals(u[|t|]);
      }
    } else if !disconnected && (IsClosing(beat.failure) || !IsRetryable(beat.failure)) {
      HealedMore(t, a);
      forall i | 0 <= i < |u| && Fails(u[i]) ensures HealedBetween(u, i, |u|) {
        assert i < |t| && HealedBetween(t, i, |t|);
        HealedLater(u, i, |t|);
      }
    }
  }

  lemma SafeBeat(t: seq<Act>, beat: HeartbeatAnswer, disconnected: bool, outputDone: bool, heartbeats: bool)
    requires Knows(t, disconnected, outputDone, heartbeats) && (!outputDone || heartbeats)
    ensures Safe(t + [Beat(beat)])
  {
    ReplayMore(t, Beat(beat));
    hide ReplaysAreSafe, HealedBetween;
  }

  lemma HealedLater(t: seq<Act>, i: int, j: int)
    requires HealedBetween(t, i, j) && j <= |t|
    ensures HealedBetween(t, i, |t|)
  {
    var k :| 0 <= i < k < j && Heals(t[k]);
  }

  lemma KnowsSent(t: seq<Act>, batch: seq<Chunk>, answer: OutputAnswer, outputDone: bool, heartbeats: bool)
    requires Knows(t, false, outputDone, heartbeats) && !outputDone
    ensures
      var a := Sent(batch, answer);
      Knows(t + [a], Fails(a), EndsOutput(a), heartbeats)
  {
    var a := Sent(batch, answer);
    var u := t + [a];
    HealedMore(t, a);
    ReplayMore(t, a);
    assert Safe(u);
    if !Fails(a) {
      forall i | 0 <= i < |u| && Fails(u[i]) ensures HealedBetween(u, i, |u|) {
        assert i < |t| && HealedBetween(t, i, |t|);
        HealedLater(u, i, |t|);
      }
    }
  }

  lemma KnowsSlept(t: seq<Act>, delay: int, after: Failure, outputDone: bool, heartbeats: bool)
    requires Knows(t, true, outputDone, heartbeats)
    requires t != [] && FailureOf(t[|t| - 1]) == Some(after) && IsRetryable(after)
    requires delay >= RetryAfter(after) && 10 * delay >= 8 * BackoffSpec.SECOND
    ensures Knows(t + [Slept(delay, after)], true, outputDone, heartbeats)
  {
    SafeSlept(t, delay, after);
    hide Safe, HealedBetween;
  }

  /** Giving up output never contradicts the requests made so far. */
  lemma KnowsDone(t: seq<Act>, disconnected: bool, outputDone: bool, heartbeats: bool)
    requires Knows(t, disconnected, outputDone, heartbeats)
    ensures Knows(t, disconnected, true, heartbeats)
  {
  }

  lemma SafeFinish(t: seq<Act>, request: FinishRequest, failure: Option<Failure>)
    requires Safe(t) && (t != [] ==> !t[|t| - 1].Finish?)
    ensures Safe(t + [Finish(request, failure)])
  {
    ReplayMore(t, Finish(request, failure));
  }

  lemma SafeSlept(t: seq<Act>, delay: int, after: Failure)
    requires Safe(t)
    requires t != [] && FailureOf(t[|t| - 1]) == Some(after) && IsRetryable(after)
    requires delay >= RetryAfter(after) && 10 * delay >= 8 * BackoffSpec.SECOND
    ensures Safe(t + [Slept(delay, after)])
  {
    ReplayMore(t, Slept(delay, after));
  }
}

/** The Server's endpoints for one run as the agent relies on them; the Server itself
    is not part of the repository, so these contracts are an assumption. */
module OutputServer {
  import opened Chunks
  import opened Options
  import opened Protocol
  import opened DeliveryTrace

  function Last(log: seq<Chunk>): nat {
    if log == [] then 0 else log[|log| - 1].seqNo
  }

  function Newer(last: nat, batch: seq<Chunk>): seq<Chunk> {
    if batch == [] then []
    else (if batch[0].seqNo > last then [batch[0]] else []) + Newer(last, batch[1..])
  }

  /** The log of one run. It takes the chunks numbered beyond its last and answers
      its last number; over its output limit it takes nothing more and says so in
      every later answer. Any request may fail with or without its effect, but one is
      cut off only if its context has ended. `exchanges` is every request it was asked,
      with the answer the agent got. */
  class Server {
    var log: seq<Chunk>
    var limited: bool
    ghost var exchanges: seq<Act>

    constructor ()
      ensures log == [] && !limited && exchanges == []
    {
      log, limited, exchanges := [], false, [];
    }

    method Append(batch: seq<Chunk>, outage: bool, ended: bool) returns (answer: OutputAnswer, ghost kept: nat)
      modifies this
      ensures exchanges == old(exchanges) + [Sent(batch, answer)]
      ensures answer.Refused? ==> MayFail(answer.failure, outage, ended)
      ensures kept <= |Newer(Last(old(log)), batch)|
      ensures log == old(log) + Newer(Last(old(log)), batch)[..kept]
      ensures old(limited) ==> kept == 0 && limited
      ensures answer.Taken? ==>
        && answer.last == Last(log) && answer.truncated == limited
        && (!limited ==> kept == |Newer(Last(old(log)), batch)|)
    {
      var news := Newer(Last(log), batch);
      var full: bool, cancel: bool, fails: bool := *, *, *;
      var failure: Failure := *;
      fails := fails && MayFail(failure, outage, ended);
      var n: nat :| n <= |news| && (limited ==> n == 0) && (!limited && !full && !fails ==> n == |news|);
      kept := n;
      log := log + news[..n];
      limited := limited || full;
      answer := if fails then Refused(failure) else Taken(Last(log), limited, cancel);
      exchanges := exchanges + [Sent(batch, answer)];
    }

    method Heartbeat(outage: bool, ended: bool) returns (beat: HeartbeatAnswer)
      modifies this`exchanges
      ensures exchanges == old(exchanges) + [Beat(beat)]
      ensures beat.Missed? ==> MayFail(beat.failure, outage, ended)
    {
      var fails: bool, failure: Failure, cancel: bool := *, *, *;
      beat := if fails && MayFail(failure, outage, ended) then Missed(failure) else Beating(cancel);
      exchanges := exchanges + [Beat(beat)];
    }

    method FinishRun(request: FinishRequest, outage: bool, ended: bool) returns (failure: Option<Failure>)
      modifies this`exchanges
      ensures exchanges == old(exchanges) + [Finish(request, failure)]
      ensures failure.Some? ==> MayFail(failure.value, outage, ended)
    {
      var fails: bool, f: Failure := *, *;
      failure := if fails && MayFail(f, outage, ended) then Some(f) else None;
      exchanges := exchanges + [Finish(request, failure)];
    }
  }

  lemma NewerStep(fed: seq<Chunk>, from: nat, upTo: nat, last: nat)
    requires from < upTo <= |fed| && fed[from].seqNo == from + 1
    ensures Newer(last, fed[from..upTo]) ==
      (if from + 1 > last then [fed[from]] else []) + Newer(last, fed[from + 1..upTo])
  {
    var batch := fed[from..upTo];
    assert batch[0] == fed[from] && batch[1..] == fed[from + 1..upTo];
  }

  lemma {:induction false} NewerIsSuffix(id: RunId, fed: seq<Chunk>, from: nat, upTo: nat, last: nat)
    requires Numbered(id, fed) && from <= upTo <= |fed|
    ensures
      var start := if last <= from then from else if last >= upTo then upTo else last;
      Newer(last, fed[from..upTo]) == fed[start..upTo]
    decreases upTo - from
  {
    hide *;
    if from == upTo {
      NewerOfNone(last, fed[from..upTo]);
    } else {
      NumberAt(id, fed, from);
      NewerStep(fed, from, upTo, last);
      NewerIsSuffix(id, fed, from + 1, upTo, last);
      if last <= from {
        FromNext(fed, from, upTo);
      }
    }
  }

  lemma NewerOfNone(last: nat, batch: seq<Chunk>)
    requires batch == []
    ensures Newer(last, batch) == batch
  {
  }

  lemma NumberAt(id: RunId, fed: seq<Chunk>, k: nat)
    requires Numbered(id, fed) && k < |fed|
    ensures fed[k].seqNo == k + 1
  {
  }

  lemma FromNext(fed: seq<Chunk>, from: nat, upTo: nat)
    requires from < upTo <= |fed|
    ensures [fed[from]] + fed[from + 1..upTo] == fed[from..upTo]
  {
  }

  /** Every chunk from `gone` on that the log's last number covers is in the log. */
  ghost predicate HeldIsLogged(fed: seq<Chunk>, gone: int, log: seq<Chunk>) {
    forall k :: 0 <= gone <= k < |fed| && k < Last(log) ==> fed[k] in log
  }

  /** A request made from the chunks a run was fed, whatever the buffer has let go of
      since, leaves the log an increasing selection of them; what is still held stays in
      step with the log's last number; and a request that is taken whole covers it. */
  lemma AppendKeepsLog(id: RunId, fed: seq<Chunk>, log: seq<Chunk>, from: nat, upTo: nat, gone: int, kept: nat)
    requires Numbered(id, fed) && from <= upTo <= |fed| && from <= gone
    requires Increasing(log) && TakenFrom(log, fed) && HeldIsLogged(fed, gone, log)
    requires kept <= |Newer(Last(log), fed[from..upTo])|
    ensures
      var news := Newer(Last(log), fed[from..upTo]);
      var log' := log + news[..kept];
      && Increasing(log') && TakenFrom(log', fed) && HeldIsLogged(fed, gone, log')
      && Last(log) <= Last(log') <= |fed|
      && (kept == |news| && from < upTo ==> Last(log') >= upTo)
  {
    NewerIsSuffix(id, fed, from, upTo, Last(log));
    var start := if Last(log) <= from then from else if Last(log) >= upTo then upTo else Last(log);
    hide Newer;
    LogGrows(id, fed, log, start, upTo, kept);
    HeldStaysLogged(id, fed, log, start, upTo, gone, kept);
  }

  lemma LogGrows(id: RunId, fed: seq<Chunk>, log: seq<Chunk>, start: nat, upTo: nat, kept: nat)
    requires Numbered(id, fed) && start <= upTo <= |fed| && kept <= upTo - start
    requires Increasing(log) && TakenFrom(log, fed) && (start < upTo ==> Last(log) <= start)
    ensures
      var log' := log + fed[start..upTo][..kept];
      && Increasing(log') && TakenFrom(log', fed)
      && Last(log) <= Last(log') <= |fed|
      && Last(log') == (if kept > 0 then start + kept else Last(log))
  {
    var news := fed[start..upTo][..kept];
    forall i | 0 <= i < kept ensures news[i] == fed[start + i] && news[i].seqNo == start + i + 1 {
    }
    hide Numbered;
    Appends(log, news, start);
    Takes(fed, log, news, start);
  }

  lemma Appends(log: seq<Chunk>, news: seq<Chunk>, start: nat)
    requires Increasing(log) && (news != [] ==> Last(log) <= start)
    requires forall i :: 0 <= i < |news| ==> news[i].seqNo == start + i + 1
    ensures Increasing(log + news)
    ensures Last(log + news) == if news != [] then start + |news| else Last(log)
  {
    var log' := log + news;
    forall i, j | 0 <= i < j < |log'| ensures log'[i].seqNo < log'[j].seqNo {
      if i < |log| <= j {
        assert log[i].seqNo <= Last(log);
        assert log'[j] == news[j - |log|];
      } else if |log| <= i {
        assert log'[i] == news[i - |log|] && log'[j] == news[j - |log|];
      }
    }
    if news != [] {
      assert log'[|log'| - 1] == news[|news| - 1];
    }
  }

  lemma Takes(fed: seq<Chunk>, log: seq<Chunk>, news: seq<Chunk>, start: nat)
    requires TakenFrom(log, fed) && start + |news| <= |fed|
    requires forall i :: 0 <= i < |news| ==> news[i] == fed[start + i] && news[i].seqNo == start + i + 1
    ensures TakenFrom(log + news, fed) && Last(log) <= |fed|
  {
    var log' := log + news;
    forall i | 0 <= i < |log'| ensures 1 <= log'[i].seqNo <= |fed| && log'[i] == fed[log'[i].seqNo - 1] {
      if i >= |log| {
        assert log'[i] == news[i - |log|];
      }
    }
  }

  lemma HeldStaysLogged(id: RunId, fed: seq<Chunk>, log: seq<Chunk>, start: nat, upTo: nat, gone: int, kept: nat)
    requires Numbered(id, fed) && start <= upTo <= |fed| && kept <= upTo - start
    requires HeldIsLogged(fed, gone, log) && (kept > 0 ==> start <= gone || start == Last(log))
    requires var log' := log + fed[start..upTo][..kept];
      Last(log') == if kept > 0 then start + kept else Last(log)
    ensures HeldIsLogged(fed, gone, log + fed[start..upTo][..kept])
  {
    var news := fed[start..upTo][..kept];
    var log' := log + news;
    forall k | 0 <= gone <= k < |fed| && k < Last(log') ensures fed[k] in log' {
      if k < Last(log) {
        assert fed[k] in log;
      } else {
        assert news[k - start] == fed[k];
      }
    }
  }

  /** A log that has every chunk is the chunks. */
  lemma WholeLog(id: RunId, fed: seq<Chunk>, log: seq<Chunk>)
    requires Numbered(id, fed) && Increasing(log) && TakenFrom(log, fed)
    requires forall chunk :: chunk in fed ==> chunk in log
    ensures log == fed
  {
    StartsWith(id, fed, log, |fed|);
    assert fed[..|fed|] == fed;
    if |log| > |fed| {
      FollowsNumber(id, fed, log, |fed|);
      assert false;
    }
  }

  lemma {:induction false} StartsWith(id: RunId, fed: seq<Chunk>, log: seq<Chunk>, i: nat)
    requires Numbered(id, fed) && Increasing(log) && TakenFrom(log, fed) && i <= |fed|
    requires forall chunk :: chunk in fed ==> chunk in log
    ensures i <= |log| && log[..i] == fed[..i]
    decreases i
  {
    if i > 0 {
      StartsWith(id, fed, log, i - 1);
      var chunk := fed[i - 1];
      assert chunk in fed && chunk in log;
      var j :| 0 <= j < |log| && log[j] == chunk;
      NotBefore(id, fed, log, i - 1, j);
      FollowsNumber(id, fed, log, i - 1);
      assert log[i - 1].seqNo <= log[j].seqNo == i;
      assert log[i - 1] == fed[log[i - 1].seqNo - 1];
    }
  }

  lemma NotBefore(id: RunId, fed: seq<Chunk>, log: seq<Chunk>, i: nat, j: nat)
    requires Numbered(id, fed) && i < |fed| && i <= |log| && log[..i] == fed[..i]
    requires j < |log| && log[j] == fed[i]
    ensures i <= j
  {
    forall m | 0 <= m < i ensures log[m].seqNo == m + 1 {
      assert log[m] == log[..i][m] == fed[..i][m] == fed[m];
    }
  }

  lemma FollowsNumber(id: RunId, fed: seq<Chunk>, log: seq<Chunk>, i: nat)
    requires Numbered(id, fed) && Increasing(log) && TakenFrom(log, fed)
    requires i <= |fed| && i < |log| && log[..i] == fed[..i]
    ensures i < log[i].seqNo <= |fed|
  {
    if i > 0 {
      assert log[..i][i - 1] == fed[..i][i - 1];
      assert log[i - 1].seqNo < log[i].seqNo;
    }
  }
}

/** How the chunks of one run are spread over its chunker, the buffer and the
    Server's log. */
module DeliveryLink {
  import opened Chunks
  import opened BufferSpec
  import opened OutputServer

  /** How many chunks the buffer has let go of. */
  function Released(id: RunId, fed: seq<Chunk>, b: State): int {
    |fed| - |ChunksOf(b, id)|
  }

  /** `fed` are the chunks that have reached the buffer. It holds the newest; every
      other one is in the log or was evicted; and of those it holds, the log has all
      that its last number covers. */
  ghost predicate Link(id: RunId, fed: seq<Chunk>, b: State, evicted: set<nat>, log: seq<Chunk>) {
    && Holds(b, id, fed) && (Truncated(b, id) <==> evicted != {})
    && Increasing(log) && TakenFrom(log, fed)
    && HeldIsLogged(fed, Released(id, fed, b), log)
    && GoneIsLogged(fed, Released(id, fed, b), evicted, log)
  }

  ghost predicate GoneIsLogged(fed: seq<Chunk>, gone: int, evicted: set<nat>, log: seq<Chunk>) {
    forall k :: 0 <= k < gone && k < |fed| ==> fed[k] in log || fed[k].seqNo in evicted
  }

  /** A batch that may be sent although the buffer has moved on: a block of the fed
      chunks that starts no later than what is held. */
  ghost predicate CanSend(batch: seq<Chunk>, fed: seq<Chunk>, gone: int) {
    && batch != [] && 1 <= batch[0].seqNo
    && (var from := batch[0].seqNo - 1;
        from <= gone && from + |batch| <= |fed| && batch == fed[from..from + |batch|])
  }

  lemma CanSendLater(batch: seq<Chunk>, fed: seq<Chunk>, gone: int, fed': seq<Chunk>, gone': int)
    requires CanSend(batch, fed, gone) && fed <= fed' && gone <= gone'
    ensures CanSend(batch, fed', gone')
  {
    var from := batch[0].seqNo - 1;
    assert fed'[from..from + |batch|] == fed[from..from + |batch|];
  }

  /** A request with such a batch keeps the log linked, whatever was evicted meanwhile;
      one that is taken whole covers at least its first chunk. */
  lemma AppendKeepsLink(id: RunId, fed: seq<Chunk>, b: State, evicted: set<nat>, log: seq<Chunk>,
                        batch: seq<Chunk>, kept: nat)
    requires Numbered(id, fed) && Link(id, fed, b, evicted, log)
    requires CanSend(batch, fed, Released(id, fed, b))
    ensures kept <= |Newer(Last(log), batch)| ==>
      var log' := log + Newer(Last(log), batch)[..kept];
      && Link(id, fed, b, evicted, log') && Last(log') <= |fed|
      && (kept == |Newer(Last(log), batch)| ==> Last(log') >= batch[0].seqNo)
  {
    hide Newer, Increasing, TakenFrom, Numbered, HeldIsLogged, Holds;
    var from := batch[0].seqNo - 1;
    if kept <= |Newer(Last(log), batch)| {
      AppendKeepsLog(id, fed, log, from, from + |batch|, Released(id, fed, b), kept);
    }
  }

  /** An Add, of the run itself or of another, keeps the link; what it drops of the run
      is listed as evicted. */
  lemma AddKeepsLink(id: RunId, fed: seq<Chunk>, b: State, evicted: set<nat>, log: seq<Chunk>,
                     chunk: Chunk, victims: seq<RunId>)
    requires Valid(b) && Enough(b, chunk, victims) && Numbered(id, fed + Own(chunk, id))
    requires Link(id, fed, b, evicted, log)
    ensures
      var (fed', b') := (fed + Own(chunk, id), Add(b, chunk, victims));
      && Link(id, fed', b', evicted + LostBy(b, chunk, victims, id), log)
      && Released(id, fed, b) <= Released(id, fed', b')
  {
    AddKeepsHolding(b, chunk, victims, id, fed, evicted);
    var (fed', b', lost) := (fed + Own(chunk, id), Add(b, chunk, victims), LostBy(b, chunk, victims, id));
    hide Valid, Enough, Add, LostBy, Own, Holds, Numbered, Increasing, TakenFrom, HeldIsLogged, GoneIsLogged;
    LogStays(id, fed, Own(chunk, id), Released(id, fed, b), Released(id, fed', b'), evicted, lost, log);
  }

  /** The log stays in step while the run is fed more and `lost` is dropped. */
  lemma LogStays(id: RunId, fed: seq<Chunk>, own: seq<Chunk>, gone: int, gone': int,
                 evicted: set<nat>, lost: set<nat>, log: seq<Chunk>)
    requires Numbered(id, fed + own) && TakenFrom(log, fed) && 0 <= gone <= gone' <= |fed + own|
    requires HeldIsLogged(fed, gone, log) && GoneIsLogged(fed, gone, evicted, log) && gone <= |fed|
    requires forall n :: n in lost <==> gone < n <= gone'
    ensures TakenFrom(log, fed + own)
    ensures HeldIsLogged(fed + own, gone', log) && GoneIsLogged(fed + own, gone', evicted + lost, log)
  {
    LastWithin(fed, log);
    var fed' := fed + own;
    forall k | gone' <= k < |fed'| && k < Last(log) ensures fed'[k] in log {
      assert fed'[k] == fed[k];
    }
    forall k | 0 <= k < gone' ensures fed'[k] in log || fed'[k].seqNo in evicted + lost {
      if k < gone {
        assert fed'[k] == fed[k];
      } else {
        assert fed'[k].seqNo == k + 1 && k + 1 in lost;
      }
    }
  }

  lemma LastWithin(fed: seq<Chunk>, log: seq<Chunk>)
    requires TakenFrom(log, fed)
    ensures Last(log) <= |fed|
  {
  }

  /** Acknowledging any number the log's last covers discards only chunks the log has,
      whatever was added and evicted since the request. */
  lemma AckKeepsLink(id: RunId, fed: seq<Chunk>, b: State, evicted: set<nat>, log: seq<Chunk>, upTo: nat)
    requires Valid(b) && Numbered(id, fed) && Link(id, fed, b, evicted, log) && upTo <= Last(log)
    ensures
      var b' := AckUpTo(b, id, upTo);
      && Link(id, fed, b', evicted, log)
      && Released(id, fed, b) <= Released(id, fed, b') && upTo <= Released(id, fed, b')
      && forall chunk :: chunk in ChunksOf(b, id) && chunk !in ChunksOf(b', id) ==> chunk in log
  {
    AckKeepsHolding(b, id, fed, upTo);
    LastWithin(fed, log);
    var b' := AckUpTo(b, id, upTo);
    hide Valid, AckUpTo, Numbered, Increasing, TakenFrom, HeldIsLogged, GoneIsLogged;
    LogCovers(fed, Released(id, fed, b), Released(id, fed, b'), evicted, log);
  }

  /** What is let go of up to a number the log's last covers is in the log. */
  lemma LogCovers(fed: seq<Chunk>, gone: int, gone': int, evicted: set<nat>, log: seq<Chunk>)
    requires 0 <= gone <= gone' <= |fed| && (gone' <= gone || gone' <= Last(log))
    requires HeldIsLogged(fed, gone, log) && GoneIsLogged(fed, gone, evicted, log)
    ensures HeldIsLogged(fed, gone', log) && GoneIsLogged(fed, gone', evicted, log)
    ensures forall chunk :: chunk in fed[gone..] && chunk !in fed[gone'..] ==> chunk in log
  {
    forall chunk | chunk in fed[gone..] && chunk !in fed[gone'..] ensures chunk in log {
      var k :| 0 <= k < |fed| - gone && fed[gone..][k] == chunk;
      assert fed[gone + k] == chunk;
      KeptIn(fed, gone', gone + k);
    }
  }

  lemma KeptIn(fed: seq<Chunk>, gone: int, k: int)
    requires 0 <= gone <= |fed| && 0 <= k < |fed|
    ensures gone <= k ==> fed[k] in fed[gone..]
  {
    if gone <= k {
      assert fed[gone..][k - gone] == fed[k];
    }
  }

  /** What is done for other runs touches neither the run's chunks nor its link. */
  lemma OtherRunKeepsLink(id: RunId, fed: seq<Chunk>, b: State, evicted: set<nat>, log: seq<Chunk>,
                          other: RunId, upTo: nat)
    requires Valid(b) && other != id && Link(id, fed, b, evicted, log)
    ensures Link(id, fed, AckUpTo(b, other, upTo), evicted, log) && Link(id, fed, Forget(b, other), evicted, log)
    ensures ChunksOf(AckUpTo(b, other, upTo), id) == ChunksOf(b, id) == ChunksOf(Forget(b, other), id)
  {
    AckKeepsValid(b, other, upTo);
    ForgetKeepsValid(b, other);
  }

  lemma FedNothing(id: RunId, b: State, acked: nat, evicted: set<nat>)
    requires Block(b, id, [], acked, evicted)
    ensures Link(id, [], b, evicted, [])
  {
    NothingLogged(Released(id, [], b), evicted);
    hide Holds, ChunksOf, Truncated, Released, Increasing, TakenFrom, HeldIsLogged, GoneIsLogged;
  }

  lemma NothingLogged(gone: int, evicted: set<nat>)
    ensures Increasing([]) && TakenFrom([], []) && HeldIsLogged([], gone, []) && GoneIsLogged([], gone, evicted, [])
  {
  }

  /** With nothing held, every chunk is in the log or was evicted. */
  lemma NothingHeld(id: RunId, fed: seq<Chunk>, b: State, evicted: set<nat>, log: seq<Chunk>)
    requires Link(id, fed, b, evicted, log) && Numbered(id, fed)
    ensures forall chunk :: chunk in fed ==> chunk in log || chunk.seqNo in evicted || chunk in ChunksOf(b, id)
    ensures ChunksOf(b, id) == [] && evicted == {} ==> log == fed
  {
    hide *;
    forall k | 0 <= k < |fed| ensures fed[k] in log || fed[k].seqNo in evicted || fed[k] in ChunksOf(b, id) {
      WhereIs(id, fed, b, evicted, log, k);
    }
    LinkMeans(id, fed, b, evicted, log);
    if ChunksOf(b, id) == [] && evicted == {} {
      assert forall chunk :: chunk in fed ==> chunk in log;
      WholeLog(id, fed, log);
    }
  }

  lemma LinkMeans(id: RunId, fed: seq<Chunk>, b: State, evicted: set<nat>, log: seq<Chunk>)
    requires Link(id, fed, b, evicted, log)
    ensures Increasing(log) && TakenFrom(log, fed)
  {
    hide Increasing, TakenFrom, HeldIsLogged, Holds, GoneIsLogged;
  }

  lemma WhereIs(id: RunId, fed: seq<Chunk>, b: State, evicted: set<nat>, log: seq<Chunk>, k: nat)
    requires Link(id, fed, b, evicted, log) && k < |fed|
    ensures fed[k] in log || fed[k].seqNo in evicted || fed[k] in ChunksOf(b, id)
  {
    hide Increasing, TakenFrom, HeldIsLogged;
    var gone := Released(id, fed, b);
    if k >= gone {
      assert ChunksOf(b, id)[k - gone] == fed[k];
    }
  }
}

module Reporter {
  import opened Chunks
  import opened Options
  import opened Protocol
  import opened DeliveryTrace
  import opened OutputServer
  import opened DeliveryLink
  import opened RunnerSpec
  import BackoffSpec
  import BufferSpec
  import ChunkerSpec
  import Backoff
  import Buffer
  import Chunker

  /** How the run came to be: without a process, or with one that has started. */
  datatype Origin = CancelledBeforeStart | NotSpawned(reason: FinishReason) | Spawned(startedAt: int)

  /** The status, exit code, start time and reason a run is finished with; `result`
      matters only if a process ran. */
  function FinishOf(origin: Origin, result: Result, finishedAt: int, lastSeq: nat, truncated: bool): FinishRequest {
    match origin
    case CancelledBeforeStart => FinishRequest(Cancelled, None, None, finishedAt, lastSeq, truncated, None)
    case NotSpawned(reason) => FinishRequest(Failed, None, None, finishedAt, lastSeq, truncated, Some(reason))
    case Spawned(startedAt) =>
      var (status, reason) := OutcomeOf(result);
      FinishRequest(status, Some(result.exitCode), Some(startedAt), finishedAt, lastSeq, truncated, reason)
  }

  lemma FinishKeeps(origin: Origin, result: Result, finishedAt: int, lastSeq: nat, truncated: bool)
    ensures var request := FinishOf(origin, result, finishedAt, lastSeq, truncated);
      request.finishedAt == finishedAt && request.lastSeq == lastSeq && request.truncated == truncated
  {
  }

  /** What a run is finished with: cancelled before its start, it is cancelled; without a
      process, failed for the reason given; else as its process ended. */
  lemma FinishMeans(origin: Origin, result: Result, finishedAt: int, lastSeq: nat, truncated: bool)
    ensures
      var request := FinishOf(origin, result, finishedAt, lastSeq, truncated);
      && (origin.CancelledBeforeStart? ==>
            && request.status == Cancelled && request.exitCode.None? && request.startedAt.None? && request.reason.None?)
      && (origin.NotSpawned? ==>
            && request.status == Failed && request.exitCode.None? && request.startedAt.None?
            && request.reason == Some(origin.reason))
      && (origin.Spawned? ==>
            && request.exitCode == Some(result.exitCode) && request.startedAt == Some(origin.startedAt)
            && (request.status == TimedOut <==> result.timedOut)
            && (request.status == Cancelled <==> result.cancelled && !result.timedOut)
            && (request.status == Success <==>
                  !result.timedOut && !result.cancelled && result.exitCode == 0 && !result.failed)
            && (request.status == Failed <==>
                  !result.timedOut && !result.cancelled && (result.exitCode != 0 || result.failed))
            && request.reason ==
                 if result.cancelled && !result.timedOut && result.reason == "agent_stopped" then Some(AgentStopped) else None)
  {
  }

  /** The finish of a run with a process, told from what happened to it: x is its exit and
      k the rest of wait. */
  lemma FinishTells(startedAt: int, events: seq<Event>, x: nat, k: nat, finishedAt: int, lastSeq: nat, truncated: bool)
    requires FirstExit(events, x) && FirstSettle(events, x, k)
    ensures
      var request := FinishOf(Origin.Spawned(startedAt), RunnerSpec.Run(events).result, finishedAt, lastSeq, truncated);
      var first := FirstTermination(events);
      && request.exitCode == Some(events[k].exitCode) && request.startedAt == Some(startedAt)
      && (request.status == TimedOut <==> first.Some? && first.value.0)
      && (request.status == Cancelled <==> first.Some? && !first.value.0)
      && (request.status == Success <==> first.None? && events[k].exitCode == 0 && !events[k].waitError)
      && (request.status == Failed <==> first.None? && (events[k].exitCode != 0 || events[k].waitError))
      && request.reason ==
           if first.Some? && !first.value.0 && first.value.1 == "agent_stopped" then Some(AgentStopped) else None
  {
    OutcomeTellsWhatEndedIt(events, x, k);
    ResultTells(events, x, k);
    hide RunnerSpec.Run, OutcomeOf, FirstTermination, FirstExit, FirstSettle;
  }

  /** Where every chunk of a run is once the buffer's history has come to `history`, and
      what the truncated flag of its finish says about it. */
  ghost predicate Settles(id: RunId, cap: nat, history: seq<BufferSpec.Event>, emitted: seq<Chunk>,
                          offered: seq<TaggedByte>, log: seq<Chunk>, limited: bool, truncated: bool)
    requires BufferSpec.Legal(cap, history)
  {
    var evicted := BufferSpec.Evicted(cap, history, id);
    var held := BufferSpec.ChunksOf(BufferSpec.After(cap, history), id);
    && BufferSpec.Fed(history, id) == emitted
    && Increasing(log) && TakenFrom(log, emitted)
    && (forall chunk :: chunk in emitted ==> chunk in log || chunk.seqNo in evicted || chunk in held)
    && (truncated <==> evicted != {} || limited || Flat(emitted) != offered)
    && (held == [] && !truncated ==> log == emitted && Flat(log) == offered)
  }

  datatype Tick = FlushTick | SleepEnds | HeartbeatTick

  function Count(ticks: seq<Tick>, tick: Tick): nat {
    if ticks == [] then 0 else Count(ticks[..|ticks| - 1], tick) + if ticks[|ticks| - 1] == tick then 1 else 0
  }

  lemma OneMoreTick(ticks: seq<Tick>, i: nat)
    requires i < |ticks|
    ensures forall tick :: Count(ticks[..i + 1], tick) == Count(ticks[..i], tick) + if ticks[i] == tick then 1 else 0
  {
    assert ticks[..i + 1][..i] == ticks[..i];
  }

  /** The delivery of one run. The reporter's own statements run between calls of
      Others, which stands for everything the rest of the agent may do meanwhile:
      the process writes, ticks flush, other runs use the shared buffer, and the
      report context ends. */
  class Report {
    const runId: RunId
    const origin: Origin
    const buffer: Buffer.Buffer
    const chunker: Chunker.Chunker
    const server: Server
    const backoff: Backoff.Backoff

    /** Whether the report context may end; if it does not, every outage does. */
    const ctxEnds: bool

    var waiting: bool
    var disconnected: bool
    var outputDone: bool
    var heartbeats: bool
    var serverTruncated: bool

    /** Whether the report context is live, and how often the process was asked to stop. */
    var ctxLive: bool
    var cancels: nat

    var trace: seq<Act>

    /** The first `handed` emitted chunks have reached the buffer; `ended` tells that an
        answer has ended the output, which outputDone catches up with. */
    var handed: nat
    ghost var ended: bool

    /** How often output was offered while the process ran. */
    ghost var flushes: nat

    ghost function Fed(): seq<Chunk>
      requires handed <= |chunker.emitted|
      reads this`handed, chunker
    {
      chunker.emitted[..handed]
    }

    /** How many chunks the buffer has let go of. */
    ghost function Gone(): int
      reads this`handed, buffer
    {
      handed - |BufferSpec.ChunksOf(buffer.View(), runId)|
    }

    /** The run's chunks that the buffer holds. */
    ghost function Held(): seq<Chunk>
      reads buffer
    {
      BufferSpec.ChunksOf(buffer.View(), runId)
    }

    /** The numbers of the chunks the buffer has evicted. */
    ghost function Evicted(): set<nat>
      requires buffer.Valid()
      reads buffer
    {
      BufferSpec.Evicted(buffer.globalCap, buffer.history, runId)
    }

    ghost predicate Linked()
      reads this`handed, buffer, chunker, server`log
      ensures Linked() ==> handed <= |chunker.emitted|
    {
      && chunker.Valid() && chunker.runId == runId
      && buffer.Valid() && Numbered(runId, chunker.emitted)
      && handed <= |chunker.emitted|
      && BufferSpec.Fed(buffer.history, runId) == Fed()
      && Link(runId, Fed(), buffer.View(), Evicted(), server.log)
    }

    /** What the reporter's flags know about its requests. */
    ghost predicate Informed()
      reads this`trace, this`disconnected, this`outputDone, this`ended, this`heartbeats
    {
      Knows(trace, disconnected, outputDone || ended, heartbeats)
    }

    /** Every cancellation the Server asked for has reached the process, its word that
        it cut the output is remembered, and output is only given up on an answer that
        refuses it or when the context has ended. */
    ghost predicate Heeded()
      reads this`trace, this`cancels, this`serverTruncated, this`outputDone
    {
      && cancels == (if origin.Spawned? then Asked(trace) else 0)
      && (serverTruncated <==> Limited(trace))
      && (outputDone ==> GivenUp(trace))
    }

    /** The trace is what the Server was asked and answered, its word that it cut the
        output is true, and a request was cut off only by the end of the context. */
    ghost predicate Truthful()
      reads this`trace, this`ctxLive, server`exchanges, server`limited
    {
      && server.exchanges == Requests(trace)
      && (Limited(trace) ==> server.limited)
      && (CutOff(trace) ==> !ctxLive)
    }

    /** The Server has answered a request that the trace does not tell yet. */
    ghost predicate Answered(a: Act)
      reads this`trace, this`ctxLive, server`exchanges, server`limited
    {
      && server.exchanges == Requests(trace) + [a]
      && (Limited(trace) || SaysLimited(a) ==> server.limited)
      && (CutOff(trace) || IsCutOff(a) ==> !ctxLive)
    }

    ghost predicate BackoffReady()
      reads backoff
    {
      backoff.Valid() && backoff.settings == BackoffSpec.DEFAULTS
    }

    /** Between two requests: the flags have caught up with every answer. */
    ghost predicate Steady()
      reads this`handed, this`serverTruncated, this`ctxLive, buffer, chunker, server, backoff
      reads this`trace, this`disconnected, this`outputDone, this`ended, this`heartbeats, this`cancels
      ensures Steady() ==> Linked()
    {
      Linked() && Informed() && Heeded() && Truthful() && BackoffReady() && (ended ==> outputDone)
    }

    /** The report of a run that has delivered nothing yet; its chunks, if any,
        are on their way to the buffer. */
    constructor (runId: RunId, origin: Origin, buffer: Buffer.Buffer, chunker: Chunker.Chunker, server: Server,
                 ctxEnds: bool)
      requires buffer.Valid() && BufferSpec.Fed(buffer.history, runId) == []
      requires chunker.Valid() && chunker.runId == runId && server.log == [] && server.exchanges == []
      ensures Steady() && trace == [] && fresh(backoff) && ctxLive
      ensures !waiting && !disconnected && !outputDone && !ended && heartbeats == origin.Spawned?
      ensures this.runId == runId && this.origin == origin && this.ctxEnds == ctxEnds
      ensures this.buffer == buffer && this.chunker == chunker && this.server == server
    {
      this.runId, this.origin, this.buffer, this.chunker, this.server := runId, origin, buffer, chunker, server;
      this.ctxEnds := ctxEnds;
      backoff := new Backoff.Backoff(0, 0, 0.0, 0.0);
      waiting, disconnected, outputDone, serverTruncated := false, false, false, false;
      heartbeats := origin.Spawned?;
      ctxLive, cancels, trace := true, 0, [];
      handed, ended, flushes := 0, false, 0;
      new;
      hide *;
      DefaultBackoff();
      StartsSteady();
    }

    lemma DefaultBackoff()
      requires backoff.Valid() && backoff.settings.min == BackoffSpec.BACKOFF_MIN
      requires backoff.settings.max == BackoffSpec.BACKOFF_MAX && backoff.settings.factor == BackoffSpec.BACKOFF_FACTOR
      requires backoff.settings.jitter == BackoffSpec.BACKOFF_JITTER
      ensures BackoffReady()
    {
    }

    lemma StartsSteady()
      requires buffer.Valid() && BufferSpec.Fed(buffer.history, runId) == [] && BackoffReady()
      requires chunker.Valid() && chunker.runId == runId && handed == 0
      requires server.log == [] && server.exchanges == []
      requires !disconnected && !outputDone && !ended && !serverTruncated && cancels == 0 && trace == []
      ensures Steady()
    {
      hide BufferSpec.Valid, BufferSpec.Legal, BufferSpec.After, BufferSpec.Fed, BufferSpec.Evicted, ChunkerSpec.Inv,
        Link, Numbered, Knows, Asked, Limited, GivenUp, CutOff, Requests;
      NothingFed();
      StartsNumbered();
      KnowsNothing(heartbeats);
      assert Fed() == [];
    }

    lemma StartsNumbered()
      requires chunker.Valid() && chunker.runId == runId
      ensures Numbered(runId, chunker.emitted)
    {
    }

    /** A run that was fed nothing holds nothing and has lost nothing. */
    lemma NothingFed()
      requires buffer.Valid() && BufferSpec.Fed(buffer.history, runId) == []
      ensures Link(runId, [], buffer.View(), Evicted(), [])
    {
      HistoryTells();
      NoneIsNumbered(runId);
      BufferSpec.EveryHistory(buffer.globalCap, buffer.history);
      hide *;
      FedNothing(runId, buffer.View(), BufferSpec.HighestAck(buffer.history, runId), Evicted());
    }

    lemma HistoryTells()
      requires buffer.Valid()
      ensures BufferSpec.Legal(buffer.globalCap, buffer.history)
      ensures buffer.View() == BufferSpec.After(buffer.globalCap, buffer.history)
      ensures Evicted() == BufferSpec.Evicted(buffer.globalCap, buffer.history, runId)
    {
      hide BufferSpec.Valid, BufferSpec.Legal, BufferSpec.After, BufferSpec.Evicted;
    }

    lemma NoneIsNumbered(id: RunId)
      ensures Numbered(id, [])
    {
    }

    ghost predicate Sendable(batch: seq<Chunk>)
      requires handed <= |chunker.emitted|
      reads this`handed, buffer, chunker
    {
      CanSend(batch, Fed(), Gone())
    }

    /** What only ever moves forward. */
    twostate predicate Later()
      reads this`handed, this`ctxLive, this`trace, this`heartbeats, this`flushes, buffer, chunker
    {
      && old(trace) <= trace && (heartbeats ==> old(heartbeats)) && old(flushes) <= flushes
      && old(handed) <= handed && old(Gone()) <= Gone()
      && old(buffer.history) <= buffer.history
      && old(chunker.emitted) <= chunker.emitted
      && (!old(ctxLive) ==> !ctxLive) && (old(ctxLive) && !ctxEnds ==> ctxLive)
      && chunker.closed == old(chunker.closed)
      && (old(chunker.closed) ==> chunker.emitted == old(chunker.emitted) && chunker.offered == old(chunker.offered))
    }

    /** One more emitted chunk reaches the shared buffer. */
    method HandOver()
      requires Linked() && handed < |chunker.emitted|
      modifies this`handed, buffer
      ensures Linked() && Later() && handed == old(handed) + 1
    {
      hide Link, BufferSpec.Valid, BufferSpec.Legal, BufferSpec.After, BufferSpec.Enough, BufferSpec.Add, BufferSpec.Fed,
        BufferSpec.Evicted, ChunkerSpec.Inv;
      var chunk := chunker.emitted[handed];
      assert chunker.emitted[..handed + 1] == Fed() + [chunk];
      AddToBuffer(chunk);
      handed := handed + 1;
    }

    /** An Add to the shared buffer, of this run's next chunk or of another run's. */
    method AddToBuffer(chunk: Chunk)
      requires Linked() && Numbered(runId, Fed() + BufferSpec.Own(chunk, runId))
      modifies buffer
      ensures buffer.Valid() && old(buffer.history) <= buffer.history
      ensures
        var fed' := Fed() + BufferSpec.Own(chunk, runId);
        && BufferSpec.Fed(buffer.history, runId) == fed'
        && Link(runId, fed', buffer.View(), Evicted(), server.log)
        && old(Gone()) <= |fed'| - |BufferSpec.ChunksOf(buffer.View(), runId)|
    {
      hide Link, BufferSpec.Valid, BufferSpec.Legal, BufferSpec.After, BufferSpec.Enough, BufferSpec.Add, BufferSpec.Fed,
        BufferSpec.Evicted, BufferSpec.LostBy, BufferSpec.Own, ChunkerSpec.Inv;
      ghost var b, fed, evicted, before := buffer.View(), Fed(), Evicted(), buffer.history;
      ghost var victims := buffer.Add(chunk);
      AddKeepsLink(runId, fed, b, evicted, server.log, chunk, victims);
      BufferSpec.FedGrows(before, BufferSpec.Added(chunk, victims), runId);
      BufferSpec.EvictedGrows(buffer.globalCap, before, BufferSpec.Added(chunk, victims), runId);
    }

    /** Another run adds, acknowledges or forgets. */
    method OtherRun()
      requires Linked()
      modifies buffer
      ensures Linked() && Later()
    {
      hide Link, BufferSpec.Valid, BufferSpec.Legal, BufferSpec.After, BufferSpec.Fed, BufferSpec.Evicted, ChunkerSpec.Inv;
      var chunk: Chunk, upTo: nat := *, *;
      if chunk.runId == runId {
        return;
      }
      if {
        case true =>
          assert Fed() + BufferSpec.Own(chunk, runId) == Fed();
          AddToBuffer(chunk);
        case true => OtherAck(chunk.runId, upTo, false);
        case true => OtherAck(chunk.runId, upTo, true);
      }
    }

    method OtherAck(other: RunId, upTo: nat, forget: bool)
      requires Linked() && other != runId
      modifies buffer
      ensures Linked() && Later()
    {
      hide Link, BufferSpec.Valid, BufferSpec.Legal, BufferSpec.After, BufferSpec.AckUpTo, BufferSpec.Forget,
        BufferSpec.Fed, BufferSpec.Evicted, ChunkerSpec.Inv;
      OtherRunKeepsLink(runId, Fed(), buffer.View(), Evicted(), server.log, other, upTo);
      ghost var e := if forget then BufferSpec.Forgotten(other) else BufferSpec.Acked(other, upTo);
      BufferSpec.FedGrows(buffer.history, e, runId);
      BufferSpec.EvictedGrows(buffer.globalCap, buffer.history, e, runId);
      if forget {
        buffer.Forget(other);
      } else {
        buffer.AckUpTo(other, upTo);
      }
    }

    method ProcessWrites()
      requires Linked()
      modifies chunker
      ensures Linked() && Later()
    {
      hide Link, Numbered, BufferSpec.Valid, BufferSpec.Legal, BufferSpec.After, BufferSpec.Fed, BufferSpec.Evicted,
        ChunkerSpec.WriteBytes;
      var stream: Stream, data: seq<Byte>, clock: seq<int> := *, *, *;
      ghost var fed := Fed();
      if {
        case |clock| == |data| => chunker.Write(stream, data, clock);
        case true => chunker.Tick();
      }
      assert Fed() == fed;
      hide ChunkerSpec.Inv;
      StartsNumbered();
    }

    /** One thing the rest of the agent may do. */
    method OtherStep()
      requires Linked()
      modifies this`handed, this`ctxLive, buffer, chunker
      ensures Linked() && Later()
    {
      if {
        case true => ProcessWrites();
        case handed < |chunker.emitted| => HandOver();
        case true => OtherRun();
        case ctxEnds => ctxLive := false;
      }
    }

    /** Whatever happens between two statements of the reporter. */
    method Others()
      requires Linked()
      modifies this`handed, this`ctxLive, buffer, chunker
      ensures Linked() && Later()
    {
      var steps: nat := *;
      while steps > 0
        invariant Linked() && Later()
        decreases steps
      {
        steps := steps - 1;
        OtherStep();
      }
    }

    lemma PrefixGrows(a: seq<Chunk>, b: seq<Chunk>, m: nat, n: nat)
      requires a <= b && m <= n <= |b| && m <= |a|
      ensures a[..m] <= b[..n]
    {
    }

    /** A batch may still be sent after that. */
    method OthersKeep(batch: seq<Chunk>)
      requires Linked() && Sendable(batch)
      modifies this`handed, this`ctxLive, buffer, chunker
      ensures Linked() && Later() && Sendable(batch)
    {
      hide Linked, Gone, CanSend;
      ghost var fed, gone, emitted, before := Fed(), Gone(), chunker.emitted, handed;
      Others();
      PrefixGrows(emitted, chunker.emitted, before, handed);
      CanSendLater(batch, fed, gone, Fed(), Gone());
    }

    ghost predicate LastFailed(failure: Failure)
      reads this`trace
    {
      trace != [] && FailureOf(trace[|trace| - 1]) == Some(failure)
    }

    method Cancel()
      modifies this`cancels
      ensures cancels == old(cancels) + if origin.Spawned? then 1 else 0
    {
      if origin.Spawned? {
        cancels := cancels + 1;
      }
    }

    /** `outage` tells whether a request may fail transiently. */
    method Heartbeat(outage: bool) returns (failure: Option<Failure>)
      requires Linked() && Informed() && Heeded() && Truthful() && (ended ==> outputDone) && (!outputDone || heartbeats)
      modifies this`disconnected, this`outputDone, this`heartbeats, this`cancels, this`trace, server`exchanges
      modifies this`handed, this`ctxLive, buffer, chunker
      ensures Linked() && Later() && Informed() && Heeded() && Truthful() && (ended ==> outputDone)
      ensures failure.None? ==> !disconnected && outputDone == old(outputDone)
      ensures failure.Some? ==> LastFailed(failure.value)
      ensures failure.Some? && IsRetryable(failure.value) ==> outage && disconnected && outputDone == old(outputDone)
      ensures failure.Some? && !IsRetryable(failure.value) ==> GivenUp(trace)
      ensures Beaten(old(trace), trace, failure)
      ensures
        var closed := failure.Some? && IsClosing(failure.value);
        heartbeats == (old(heartbeats) && !closed) && outputDone == (old(outputDone) || closed)
    {
      hide Linked, Knows, Gone, Heeded;
      Others();
      failure := BeatAnswered(outage);
    }

    /** The answer to a heartbeat and what it changes. */
    method BeatAnswered(outage: bool) returns (failure: Option<Failure>)
      requires Informed() && Heeded() && Truthful() && (ended ==> outputDone) && (!outputDone || heartbeats)
      modifies this`disconnected, this`outputDone, this`heartbeats, this`cancels, this`trace, server`exchanges
      ensures Informed() && Heeded() && Truthful() && (ended ==> outputDone)
      ensures failure.None? ==> !disconnected && outputDone == old(outputDone)
      ensures failure.Some? ==> LastFailed(failure.value)
      ensures failure.Some? && IsRetryable(failure.value) ==> outage && disconnected && outputDone == old(outputDone)
      ensures failure.Some? && !IsRetryable(failure.value) ==> GivenUp(trace)
      ensures Beaten(old(trace), trace, failure)
      ensures
        var closed := failure.Some? && IsClosing(failure.value);
        heartbeats == (old(heartbeats) && !closed) && outputDone == (old(outputDone) || closed)
    {
      hide Asked, Limited, GivenUp, CutOff, Requests, Knows;
      var beat := server.Heartbeat(outage, !ctxLive);
      hide Truthful;
      NoteBeat(beat);
      if beat.Beating? {
        disconnected := false;
        if beat.cancel {
          Cancel();
        }
        return None;
      }
      var f := beat.failure;
      if IsConflict(f, RunNotRunning) || IsNotFound(f) {
        heartbeats := false;
        outputDone := true;
      } else if IsRetryable(f) {
        disconnected := true;
      }
      return Some(f);
    }

    /** What the answer to a heartbeat tells before it is heeded. */
    method NoteBeat(beat: HeartbeatAnswer)
      requires Informed() && Heeded() && Answered(Beat(beat)) && (ended ==> outputDone) && (!outputDone || heartbeats)
      modifies this`trace
      ensures trace == old(trace) + [Beat(beat)] && Truthful()
      ensures
        var closed := beat.Missed? && IsClosing(beat.failure);
        Knows(trace, if beat.Beating? then false else disconnected || (!closed && IsRetryable(beat.failure)),
              outputDone || closed, heartbeats && !closed)
      ensures (if origin.Spawned? then Asked(trace) else 0)
           == cancels + if origin.Spawned? && AsksCancel(Beat(beat)) then 1 else 0
      ensures (serverTruncated <==> Limited(trace)) && (outputDone ==> GivenUp(trace))
      ensures beat.Missed? ==> LastFailed(beat.failure) && (!IsRetryable(beat.failure) ==> GivenUp(trace))
    {
      hide Asked, Limited, GivenUp, CutOff, Requests, Knows;
      KnowsBeat(trace, beat, disconnected, outputDone || ended, heartbeats);
      OneMoreAct(trace, Beat(beat));
      trace := trace + [Beat(beat)];
    }

    /** The output request itself; the callers draw the conclusions. */
    method AppendOutput(batch: seq<Chunk>, outage: bool) returns (answer: OutputAnswer)
      requires Linked() && Informed() && Heeded() && Truthful() && Sendable(batch)
      requires !disconnected && !outputDone && !ended
      modifies this`trace, this`ended, this`handed, this`ctxLive, buffer, chunker, server
      ensures Linked() && Later() && Sendable(batch) && Truthful()
      ensures trace == old(trace) + [Sent(batch, answer)]
      ensures Knows(trace, Fails(Sent(batch, answer)), ended, heartbeats)
      ensures ended == EndsOutput(Sent(batch, answer))
      ensures answer.Refused? ==> LastFailed(answer.failure) && Heeded() && (IsRetryable(answer.failure) ==> outage)
      ensures answer.Refused? && !IsRetryable(answer.failure) ==> GivenUp(trace)
      ensures answer.Taken? ==> Covered(batch, answer) && HeededBefore(Sent(batch, answer))
    {
      hide Linked, Knows, Gone, Heeded, HeededBefore, Truthful, Answered, GivenUp, Sendable, Covered;
      answer := Exchange(batch, outage);
      Note(batch, answer);
    }

    method Exchange(batch: seq<Chunk>, outage: bool) returns (answer: OutputAnswer)
      requires Linked() && Sendable(batch) && Truthful()
      modifies this`handed, this`ctxLive, buffer, chunker, server
      ensures Linked() && Later() && Sendable(batch) && Answered(Sent(batch, answer))
      ensures answer.Refused? && IsRetryable(answer.failure) ==> outage
      ensures answer.Taken? ==> Covered(batch, answer)
    {
      hide Linked, Gone, Limited, CutOff, Requests;
      OthersKeep(batch);
      answer := Post(batch, outage);
    }

    /** What the answer tells before it is heeded. */
    method Note(batch: seq<Chunk>, answer: OutputAnswer)
      requires Informed() && Heeded() && Answered(Sent(batch, answer)) && !disconnected && !outputDone && !ended
      modifies this`trace, this`ended
      ensures trace == old(trace) + [Sent(batch, answer)] && Truthful()
      ensures Knows(trace, Fails(Sent(batch, answer)), ended, heartbeats)
      ensures ended == EndsOutput(Sent(batch, answer))
      ensures answer.Refused? ==> LastFailed(answer.failure) && Heeded()
      ensures answer.Refused? && !IsRetryable(answer.failure) ==> GivenUp(trace)
      ensures HeededBefore(Sent(batch, answer))
    {
      hide Knows, Asked, Limited, GivenUp, CutOff, Requests;
      ghost var before := trace;
      KnowsSent(trace, batch, answer, outputDone, heartbeats);
      OneMoreAct(before, Sent(batch, answer));
      trace := trace + [Sent(batch, answer)];
      ended := EndsOutput(Sent(batch, answer));
      HeedsLast(before, Sent(batch, answer));
    }

    /** A success names a number the log covers and, unless the Server has reached its
        limit, at least that of the batch's first chunk. */
    ghost predicate Covered(batch: seq<Chunk>, answer: OutputAnswer)
      requires answer.Taken? && batch != []
      reads server
    {
      answer.last <= Last(server.log) && (!answer.truncated ==> answer.last >= batch[0].seqNo)
    }

    method Post(batch: seq<Chunk>, outage: bool) returns (answer: OutputAnswer)
      requires Linked() && Sendable(batch)
      modifies server
      ensures Linked() && old(server.log) <= server.log
      ensures server.exchanges == old(server.exchanges) + [Sent(batch, answer)]
      ensures (old(server.limited) ==> server.limited) && (SaysLimited(Sent(batch, answer)) ==> server.limited)
      ensures answer.Refused? ==> MayFail(answer.failure, outage, !ctxLive)
      ensures answer.Taken? ==> Covered(batch, answer)
    {
      hide Link, Newer, BufferSpec.Valid, BufferSpec.Legal, BufferSpec.After, BufferSpec.Fed, BufferSpec.Evicted,
        ChunkerSpec.Inv;
      ghost var log, kept: nat := server.log, 0;
      answer, kept := server.Append(batch, outage, !ctxLive);
      AppendKeepsLink(runId, Fed(), buffer.View(), Evicted(), log, batch, kept);
    }

    /** Releases what the answer covers; all of it is in the log. */
    method Acknowledge(last: nat)
      requires Linked() && last <= Last(server.log)
      modifies buffer
      ensures Linked() && Later() && Gone() >= last
      ensures forall chunk ::
        chunk in old(BufferSpec.ChunksOf(buffer.View(), runId)) && chunk !in BufferSpec.ChunksOf(buffer.View(), runId)
        ==> chunk in server.log
    {
      hide Link, BufferSpec.Valid, BufferSpec.Legal, BufferSpec.After, BufferSpec.AckUpTo, BufferSpec.Fed,
        BufferSpec.Evicted, ChunkerSpec.Inv;
      AckKeepsLink(runId, Fed(), buffer.View(), Evicted(), server.log, last);
      ghost var e := BufferSpec.Acked(runId, last);
      BufferSpec.FedGrows(buffer.history, e, runId);
      BufferSpec.EvictedGrows(buffer.globalCap, buffer.history, e, runId);
      buffer.AckUpTo(runId, last);
    }

    /** All but the last answer have been heeded. */
    ghost predicate HeededBefore(a: Act)
      reads this`trace, this`cancels, this`serverTruncated, this`outputDone
    {
      && trace != [] && trace[|trace| - 1] == a
      && cancels == (if origin.Spawned? then Asked(trace[..|trace| - 1]) else 0)
      && (serverTruncated <==> Limited(trace[..|trace| - 1]))
      && (outputDone ==> GivenUp(trace[..|trace| - 1]))
    }

    lemma HeedsLast(before: seq<Act>, a: Act)
      requires trace == before + [a]
      requires cancels == (if origin.Spawned? then Asked(before) else 0) && (serverTruncated <==> Limited(before))
      requires outputDone ==> GivenUp(before)
      ensures HeededBefore(a)
      ensures !AsksCancel(a) && !SaysLimited(a) ==> Heeded()
      ensures Refuses(a) || IsCutOff(a) ==> GivenUp(trace)
    {
      assert trace[..|trace| - 1] == before;
      OneMoreAct(before, a);
    }

    method Accept(batch: seq<Chunk>, answer: OutputAnswer)
      requires Linked() && Informed() && Truthful() && BackoffReady() && !disconnected && !outputDone
      requires answer.Taken? && batch != [] && Covered(batch, answer) && ended == answer.truncated
      requires HeededBefore(Sent(batch, answer))
      modifies this`serverTruncated, this`outputDone, this`cancels
      modifies this`handed, this`ctxLive, buffer, chunker, backoff
      ensures Steady() && Later() && backoff.calls == 0
      ensures Gone() >= answer.last && (!outputDone ==> Gone() >= batch[0].seqNo)
      ensures outputDone == answer.truncated
    {
      hide Linked, Knows, Gone, HeededBefore, Heeded, Limited, CutOff, Requests;
      backoff.Reset();
      Others();
      Acknowledge(answer.last);
      Heed(batch, answer);
    }

    /** What the answer asks for besides the acknowledgement. */
    method Heed(batch: seq<Chunk>, answer: OutputAnswer)
      requires Linked() && Informed() && answer.Taken? && ended == answer.truncated
      requires HeededBefore(Sent(batch, answer))
      modifies this`serverTruncated, this`outputDone, this`cancels
      ensures Linked() && Informed() && Heeded() && Later()
      ensures outputDone == (old(outputDone) || answer.truncated)
    {
      hide Linked, Knows, Gone, Asked, Limited, GivenUp, CutOff, Requests;
      ghost var before := trace[..|trace| - 1];
      assert trace == before + [Sent(batch, answer)];
      OneMoreAct(before, Sent(batch, answer));
      if answer.truncated {
        serverTruncated := true;
        outputDone := true;
      }
      if answer.cancel {
        Cancel();
      }
    }

    /** What a failed request changes; a transient failure also starts the backoff
        sleep. */
    method OutputFailed(failure: Failure)
      requires Linked() && BackoffReady() && Heeded() && Truthful()
      requires Knows(trace, disconnected || IsRetryable(failure), outputDone || ended, heartbeats)
      requires ended ==> outputDone || !IsRetryable(failure)
      requires !IsRetryable(failure) ==> GivenUp(trace)
      modifies this`outputDone, this`disconnected, this`waiting, backoff
      ensures Steady() && Later()
      ensures outputDone == (old(outputDone) || !IsRetryable(failure))
      ensures waiting == (old(waiting) || IsRetryable(failure))
      ensures disconnected == (old(disconnected) || IsRetryable(failure))
    {
      hide Linked, Knows, Gone;
      KnowsDone(trace, disconnected || IsRetryable(failure), outputDone || ended, heartbeats);
      if IsConflict(failure, RunNotRunning) || IsNotFound(failure) {
        outputDone := true;
      } else if IsRetryable(failure) {
        disconnected := true;
        var sleep := RetryLater(failure);
      } else {
        outputDone := true;
      }
    }

    /** Starts one backoff sleep, unless one is running; its end is the event that
        clears `waiting`. */
    method RetryLater(failure: Failure) returns (sleep: Option<int>)
      requires BackoffReady()
      modifies this`waiting, backoff
      ensures BackoffReady()
      ensures waiting == (old(waiting) || IsRetryable(failure))
      ensures sleep.Some? <==> !old(waiting) && waiting
      ensures backoff.calls == old(backoff.calls) + if sleep.Some? then 1 else 0
      ensures sleep.Some? ==>
        && sleep.value >= RetryAfter(failure)
        && 10 * sleep.value >= 8 * BackoffSpec.DefaultSeconds(old(backoff.calls)) * BackoffSpec.SECOND
    {
      if waiting || !IsRetryable(failure) {
        return None;
      }
      waiting := true;
      var delay := Pause(failure);
      return Some(delay);
    }

    /** Offers the longest batch of what is held, unless the output is done or a sleep is
        running: after a failure a heartbeat goes first. A transient failure, and nothing
        else, starts a sleep. */
    method SendOutput() returns (ghost batch: seq<Chunk>)
      requires Steady()
      modifies this, buffer, chunker, server, backoff
      ensures Steady() && Later() && flushes == old(flushes) + 1
      ensures BufferSpec.IsBatch(old(Held()), batch, buffer.batchChunks, buffer.batchBytes)
      ensures batch == [] <==> old(Held()) == []
      ensures old(outputDone || waiting) || old(Held()) == [] ==>
        trace == old(trace) && server.log == old(server.log) && waiting == old(waiting)
      ensures !old(outputDone || waiting) && old(Held()) != [] ==>
        && Offered(old(trace), trace, batch, old(disconnected))
        && (waiting <==> Fails(trace[|trace| - 1])) && (waiting ==> disconnected)
      ensures !old(outputDone || waiting) && old(Held()) != [] && Accepts(trace[|trace| - 1]) ==>
        Gone() >= trace[|trace| - 1].answer.last && outputDone == trace[|trace| - 1].answer.truncated
    {
      hide Linked, Knows, Gone, Steady, Sendable, Held, BufferSpec.IsBatch, Offered, Fails, Accepts;
      flushes := flushes + 1;
      var next := TakeBatch();
      batch := next;
      if outputDone || waiting {
        return;
      }
      if |next| == 0 {
        return;
      }
      Offer(next);
    }

    method Offer(batch: seq<Chunk>)
      requires Steady() && !outputDone && !waiting && batch != [] && Sendable(batch)
      modifies this`disconnected, this`outputDone, this`heartbeats, this`cancels, this`trace, this`waiting, this`ended
      modifies this`serverTruncated, this`handed, this`ctxLive, buffer, chunker, server, backoff
      ensures Steady() && Later()
      ensures Offered(old(trace), trace, batch, old(disconnected))
      ensures trace != [] && (waiting <==> Fails(trace[|trace| - 1])) && (waiting ==> disconnected)
      ensures Accepts(trace[|trace| - 1]) ==>
        Gone() >= trace[|trace| - 1].answer.last && outputDone == trace[|trace| - 1].answer.truncated
    {
      hide Linked, BackoffReady, Gone, Heeded, HeededBefore, Truthful, GivenUp, Sendable, Covered, Knows, Offered,
        Fails, Beaten, EndsOutput;
      var failure := Reconnect(batch, true);
      if failure.Some? {
        var sleep := RetryLater(failure.value);
        OnlyBeaten(old(trace), trace, batch, failure);
        return;
      }
      ghost var reconnected := trace;
      var answer := AppendOutput(batch, true);
      BeatenAndSent(old(trace), reconnected, trace, batch, answer, old(disconnected));
      if answer.Refused? {
        OutputFailed(answer.failure);
      } else {
        Accept(batch, answer);
      }
    }

    /** After a failure a heartbeat goes first; the batch waits if that fails. */
    method Reconnect(batch: seq<Chunk>, outage: bool) returns (failure: Option<Failure>)
      requires Steady() && !outputDone && Sendable(batch)
      modifies this`disconnected, this`outputDone, this`heartbeats, this`cancels, this`trace, server`exchanges
      modifies this`handed, this`ctxLive, buffer, chunker
      ensures Steady() && Later() && Sendable(batch)
      ensures failure.None? ==> !disconnected && !outputDone
      ensures failure.Some? ==> LastFailed(failure.value)
      ensures failure.Some? && IsRetryable(failure.value) ==> outage && disconnected && !outputDone
      ensures failure.Some? && !IsRetryable(failure.value) ==> GivenUp(trace)
      ensures old(disconnected) ==> Beaten(old(trace), trace, failure)
      ensures !old(disconnected) ==> failure.None? && trace == old(trace)
    {
      hide Linked, Knows, Gone;
      failure := None;
      if disconnected {
        ghost var fed, gone, emitted, before := Fed(), Gone(), chunker.emitted, handed;
        failure := Heartbeat(outage);
        PrefixGrows(emitted, chunker.emitted, before, handed);
        CanSendLater(batch, fed, gone, Fed(), Gone());
      }
    }

    /** NextBatch, and why its batch may be sent. */
    method TakeBatch() returns (batch: seq<Chunk>)
      requires Linked()
      ensures batch != [] ==> Sendable(batch) && batch[0].seqNo == Gone() + 1
      ensures batch == [] ==> Gone() == handed
      ensures batch == [] <==> Held() == []
      ensures BufferSpec.IsBatch(Held(), batch, buffer.batchChunks, buffer.batchBytes)
    {
      hide ChunkerSpec.Inv, BufferSpec.Valid;
      batch := buffer.NextBatch(runId);
    }

    /** One heartbeat, if the Server still accepts them. */
    method SendHeartbeat()
      requires Steady()
      modifies this, buffer, chunker, server`exchanges
      ensures Steady() && Later() && waiting == old(waiting) && flushes == old(flushes)
      ensures !old(heartbeats) ==> trace == old(trace) && !heartbeats
      ensures old(heartbeats) ==>
        && |trace| == |old(trace)| + 1 && old(trace) <= trace && trace[|old(trace)|].Beat?
        && (heartbeats <==> !Closes(trace[|old(trace)|]))
    {
      hide Linked, Knows, Gone;
      if !heartbeats {
        return;
      }
      var failure := Heartbeat(true);
    }

    /** What one event of the loop does while the process runs. */
    method OnTick(tick: Tick) returns (ghost batch: seq<Chunk>)
      requires Steady()
      modifies this, buffer, chunker, server, backoff
      ensures Steady() && Later()
      ensures tick.HeartbeatTick? && heartbeats ==> Beats(trace) == Beats(old(trace)) + 1
      ensures tick.FlushTick? ==> flushes == old(flushes) + 1
      ensures tick.SleepEnds? && old(waiting) ==> flushes == old(flushes) + 1
      ensures tick.FlushTick? || (tick.SleepEnds? && old(waiting)) ==>
        BufferSpec.IsBatch(old(Held()), batch, buffer.batchChunks, buffer.batchBytes)
      ensures (tick.FlushTick? && !old(waiting)) || (tick.SleepEnds? && old(waiting)) ==>
        old(outputDone) || old(Held()) == [] || Offered(old(trace), trace, batch, old(disconnected))
    {
      hide Linked, Knows, Gone, Steady, Held, BufferSpec.IsBatch, Offered;
      batch := [];
      match tick {
        case FlushTick =>
          batch := SendOutput();
        case SleepEnds =>
          if waiting {
            Awakes();
            batch := SendOutput();
          }
        case HeartbeatTick =>
          ghost var before := trace;
          SendHeartbeat();
          if heartbeats {
            assert trace == before + [trace[|before|]];
            OneMoreBeat(before, trace[|before|]);
          }
      }
    }

    method Awakes()
      requires Steady()
      modifies this`waiting
      ensures Steady() && !waiting
    {
      hide Linked, Knows, Heeded, Truthful;
      waiting := false;
    }

    /** The loop while the process runs: flush ticks, ends of backoff sleeps and heartbeat
        ticks, as they come, until the process has exited. */
    method Supervise(ticks: seq<Tick>)
      requires Steady()
      modifies this, buffer, chunker, server, backoff
      ensures Steady() && Later()
      ensures heartbeats ==> Beats(trace) >= Beats(old(trace)) + Count(ticks, HeartbeatTick)
      ensures flushes >= old(flushes) + Count(ticks, FlushTick)
    {
      hide Linked, Knows, Gone, Steady;
      ghost var before := trace;
      var i := 0;
      while i < |ticks|
        invariant 0 <= i <= |ticks| && Steady() && Later()
        invariant heartbeats ==> Beats(trace) >= Beats(before) + Count(ticks[..i], HeartbeatTick)
        invariant flushes >= old(flushes) + Count(ticks[..i], FlushTick)
      {
        ghost var t := trace;
        ghost var batch := OnTick(ticks[i]);
        BeatsGrow(t, trace);
        OneMoreTick(ticks, i);
        i := i + 1;
      }
      assert ticks[..|ticks|] == ticks;
    }

    /** One attempt of drain's retry loop. */
    method TryBatch(batch: seq<Chunk>, outage: bool) returns (failure: Option<Failure>)
      requires Steady() && !outputDone && Sendable(batch)
      modifies this, buffer, chunker, server, backoff
      ensures Linked() && Informed() && Heeded() && Truthful() && BackoffReady() && Later()
      ensures failure.None? ==> Steady() && (!outputDone ==> Gone() >= batch[0].seqNo)
      ensures failure.Some? && IsRetryable(failure.value) ==>
        outage && Steady() && !outputDone && Sendable(batch) && disconnected && LastFailed(failure.value)
      ensures failure.Some? && !IsRetryable(failure.value) ==> GivenUp(trace)
      ensures Attempted(old(trace), trace, failure)
    {
      hide Linked, Knows, Gone, Heeded, HeededBefore, Truthful, GivenUp, Covered, Beaten, Attempted;
      failure := Reconnect(batch, outage);
      if failure.Some? {
        BeatenIsAttempt(old(trace), trace, failure);
        return;
      }
      ghost var reconnected := trace;
      var answer := AppendOutput(batch, outage);
      SentIsAttempt(old(trace), reconnected, trace, batch, answer);
      if answer.Refused? {
        if IsRetryable(answer.failure) {
          disconnected := true;
        }
        return Some(answer.failure);
      }
      Accept(batch, answer);
    }

    method Pause(failure: Failure) returns (delay: int)
      requires BackoffReady()
      modifies backoff
      ensures BackoffReady()
      ensures delay >= RetryAfter(failure) && 10 * delay >= 8 * BackoffSpec.SECOND
      ensures 10 * delay >= 8 * BackoffSpec.DefaultSeconds(old(backoff.calls)) * BackoffSpec.SECOND
      ensures delay == RetryAfter(failure)
           || 10 * delay < 12 * BackoffSpec.DefaultSeconds(old(backoff.calls)) * BackoffSpec.SECOND
      ensures backoff.calls == old(backoff.calls) + 1
    {
      var random: real :| 0.0 <= random < 1.0;
      delay := backoff.Next(random);
      if RetryAfter(failure) > delay {
        delay := RetryAfter(failure);
      }
    }

    method PauseDraining(batch: seq<Chunk>, failure: Failure)
      requires Steady() && !outputDone && Sendable(batch) && disconnected
      requires IsRetryable(failure) && LastFailed(failure)
      modifies this`trace, this`handed, this`ctxLive, buffer, chunker, backoff
      ensures Steady() && Later() && Sendable(batch)
      ensures exists delay :: trace == old(trace) + [Slept(delay, failure)]
    {
      hide Linked, Knows, Gone, Asked, Limited, GivenUp, CutOff, Requests;
      var delay := Pause(failure);
      KnowsSlept(trace, delay, failure, outputDone || ended, heartbeats);
      OneMoreAct(trace, Slept(delay, failure));
      trace := trace + [Slept(delay, failure)];
      OthersKeep(batch);
    }

    /** The end of the context, which is what ends an outage that does not. */
    method EndContext()
      requires ctxEnds && Truthful()
      modifies this`ctxLive
      ensures !ctxLive && Truthful()
    {
      ctxLive := false;
    }

    method GiveUpDraining()
      requires ctxEnds && Steady()
      modifies this`ctxLive
      ensures !ctxLive && Steady()
    {
      hide Linked, Knows, Heeded;
      EndContext();
    }

    method OthersSteady()
      requires Steady()
      modifies this`handed, this`ctxLive, buffer, chunker
      ensures Steady() && Later()
    {
      hide Linked, Knows, Heeded, Limited, CutOff, Requests;
      Others();
    }

    lemma MakesSteady()
      requires Linked() && Informed() && Heeded() && Truthful() && BackoffReady() && (outputDone || Steady())
      ensures Steady()
    {
    }

    lemma SteadyMeans()
      requires Steady()
      ensures Linked() && Informed() && Heeded() && Truthful() && BackoffReady()
    {
    }

    method ResetBackoff()
      requires Steady()
      modifies backoff
      ensures Steady()
    {
      hide Linked, Knows, Heeded, Truthful;
      backoff.Reset();
    }

    lemma PacedAfterPause(before: seq<Act>, failure: Failure, n: nat)
      requires PacedFrom(before, n) && exists delay :: trace == before + [Slept(delay, failure)]
      ensures PacedFrom(trace, n) && Rested(trace, n) && |trace| == |before| + 1
    {
      var delay :| trace == before + [Slept(delay, failure)];
      PacedSleep(before, n, delay, failure);
    }

    /** The sleep after a transient failure; the last one lasts until the context ends. */
    method RestDraining(batch: seq<Chunk>, failure: Failure, last: bool, ghost n: nat)
      requires Steady() && !outputDone && Sendable(batch) && disconnected
      requires IsRetryable(failure) && LastFailed(failure) && PacedFrom(trace, n) && (last ==> ctxEnds)
      modifies this`trace, this`handed, this`ctxLive, buffer, chunker, backoff
      ensures Steady() && Later() && Sendable(batch) && (last ==> !ctxLive)
      ensures PacedFrom(trace, n) && Rested(trace, n) && |trace| == |old(trace)| + 1
    {
      hide Linked, Informed, Heeded, Truthful, BackoffReady, Gone, Steady, Sendable, LastFailed, PacedFrom, Rested;
      ghost var before := trace;
      PauseDraining(batch, failure);
      PacedAfterPause(before, failure, n);
      if last {
        GiveUpDraining();
      }
    }

    /** client.Retry around one batch. The sleep may or may not notice that the context
        has ended. An outage that no number of attempts outlasts is ended by it; if the
        context does not end, the outage does, after however many attempts. */
    method DeliverBatch(batch: seq<Chunk>) returns (failure: Option<Failure>)
      requires Steady() && !outputDone && Sendable(batch)
      modifies this, buffer, chunker, server, backoff
      ensures Linked() && Informed() && Heeded() && Truthful() && BackoffReady() && Later()
      ensures failure.None? ==> Steady() && (!outputDone ==> Gone() >= batch[0].seqNo)
      ensures failure.Some? && ctxLive ==> !IsRetryable(failure.value)
      ensures failure.Some? && !IsRetryable(failure.value) ==> GivenUp(trace)
      ensures PacedFrom(trace, |old(trace)|) && Rested(trace, |old(trace)|)
    {
      hide Linked, Informed, Heeded, Truthful, BackoffReady, Gone, Steady, Sendable, LastFailed, GivenUp, Attempted,
        PacedFrom, Rested;
      NothingToPace(trace);
      ghost var n := |trace|;
      var patience: nat := *;
      while true
        invariant Steady() && Later() && !outputDone && Sendable(batch)
        invariant n <= |trace| && PacedFrom(trace, n) && Rested(trace, n)
        decreases patience
      {
        ghost var before := trace;
        failure := TryBatch(batch, ctxEnds || patience > 0);
        PacedAttempt(before, trace, failure, n);
        if failure.None? {
          ResetBackoff();
          SteadyMeans();
          return;
        }
        if !IsRetryable(failure.value) {
          return;
        }
        RestDraining(batch, failure.value, patience == 0, n);
        var noticed: bool := *;
        if !ctxLive && (noticed || patience == 0) {
          SteadyMeans();
          return;
        }
        patience := patience - 1;
      }
    }

    /** Every chunk has been handed over and the process writes no more. */
    ghost predicate AllHandedOver()
      reads this`handed, chunker
    {
      chunker.closed && handed == |chunker.emitted|
    }

    /** Sends what is left; terminates because every accepted batch has its first
        chunk acknowledged. */
    method Drain()
      requires Steady() && AllHandedOver()
      modifies this, buffer, chunker, server, backoff
      ensures Linked() && Informed() && Heeded() && Truthful() && BackoffReady() && Later() && AllHandedOver()
      ensures ctxLive && !outputDone ==> Gone() == handed
      ensures PacedFrom(trace, |old(trace)|) && Rested(trace, |old(trace)|)
    {
      hide Linked, Knows, Heeded, PacedFrom, Rested;
      NothingToPace(trace);
      ghost var n := |trace|;
      var more := true;
      while !outputDone && more
        invariant Linked() && Informed() && Heeded() && Truthful() && BackoffReady() && Later() && AllHandedOver()
        invariant more ==> Steady()
        invariant !more && ctxLive && !outputDone ==> Gone() == handed
        invariant n <= |trace| && PacedFrom(trace, n) && Rested(trace, n)
        decreases more, if outputDone then 0 else 1 + handed - Gone()
      {
        ghost var before := trace;
        more := DrainBatch();
        PacedOn(before, trace, n);
      }
    }

    /** One turn of the loop; false if it is the last. */
    method DrainBatch() returns (more: bool)
      requires Steady() && AllHandedOver() && !outputDone
      modifies this, buffer, chunker, server, backoff
      ensures Linked() && Informed() && Heeded() && Truthful() && BackoffReady() && Later() && AllHandedOver()
      ensures more ==> Steady() && (outputDone || old(Gone()) < Gone() <= handed)
      ensures !more && ctxLive && !outputDone ==> Gone() == handed
      ensures PacedFrom(trace, |old(trace)|) && Rested(trace, |old(trace)|)
    {
      hide Linked, Knows, Heeded, Truthful, BackoffReady, Steady, GivenUp, LastFailed, CanSend, PacedFrom, Rested;
      NothingToPace(trace);
      OthersSteady();
      SteadyMeans();
      var batch := TakeBatch();
      if |batch| == 0 {
        return false;
      }
      var failure := DeliverBatch(batch);
      if !ctxLive {
        return false;
      }
      if failure.Some? && !outputDone {
        OutputFailed(failure.value);
        SteadyMeans();
      } else {
        MakesSteady();
      }
      HeldIsCounted();
      return true;
    }

    lemma HeldIsCounted()
      requires Linked()
      ensures 0 <= Gone() <= handed
    {
      hide BufferSpec.Valid, BufferSpec.Legal, BufferSpec.After, BufferSpec.Fed, BufferSpec.Evicted, ChunkerSpec.Inv;
    }

    /** Closing the chunker; its receive callback has run for every chunk by the
        time Close returns. */
    method CloseOutput() returns (lastSeq: nat, cut: bool)
      requires Steady()
      modifies this`handed, buffer, chunker
      ensures Steady() && AllHandedOver() && old(buffer.history) <= buffer.history
      ensures lastSeq == |chunker.emitted|
      ensures cut <==> Flat(chunker.emitted) != chunker.offered
    {
      hide Linked, Knows, Gone, Heeded, Flat;
      lastSeq, cut := ShutChunker();
      while handed < |chunker.emitted|
        invariant Steady() && chunker.closed && lastSeq == |chunker.emitted| && old(buffer.history) <= buffer.history
        invariant cut <==> Flat(chunker.emitted) != chunker.offered
      {
        HandOver();
      }
    }

    method ShutChunker() returns (lastSeq: nat, cut: bool)
      requires Linked()
      modifies chunker
      ensures Linked() && chunker.closed && lastSeq == |chunker.emitted|
      ensures cut <==> Flat(chunker.emitted) != chunker.offered
    {
      hide BufferSpec.Valid;
      ghost var fed := Fed();
      lastSeq, cut := chunker.Close();
      assert Fed() == fed;
    }

    /** Nothing is left to send, or nothing more can be sent. */
    ghost predicate MayFinish()
      reads this`ctxLive, this`outputDone, this`handed, buffer
    {
      !ctxLive || outputDone || Gone() == handed
    }

    /** What holds from the moment the finish request is made up. */
    ghost predicate Finishing(request: FinishRequest)
      reads this`trace, this`cancels, this`serverTruncated, this`outputDone, this`ctxLive
      reads server`exchanges, server`limited
    {
      Safe(trace) && Carries(trace, request) && Heeded() && Truthful()
    }

    /** One finish request; it is only ever made once the output is delivered,
        refused for good, or cut off by the context. */
    method TryFinish(request: FinishRequest, outage: bool) returns (failure: Option<Failure>)
      requires Linked() && AllHandedOver() && MayFinish() && Finishing(request) && !JustFinished(trace)
      modifies this`trace, this`handed, this`ctxLive, buffer, chunker, server`exchanges
      ensures Linked() && Later() && AllHandedOver() && MayFinish() && Finishing(request)
      ensures trace == old(trace) + [Finish(request, failure)] && Finished(trace)
      ensures failure.None? || !IsRetryable(failure.value) ==> Settled(trace) || !ctxLive
      ensures failure.Some? && IsRetryable(failure.value) ==> outage && LastFailed(failure.value)
    {
      hide Linked, Safe, Gone, Asked, Limited, GivenUp, CutOff, Requests;
      MayStillFinish();
      failure := server.FinishRun(request, outage, !ctxLive);
      SafeFinish(trace, request, failure);
      OneMoreAct(trace, Finish(request, failure));
      trace := trace + [Finish(request, failure)];
      assert trace[|trace| - 1] in trace;
    }

    method MayStillFinish()
      requires Linked() && AllHandedOver() && MayFinish()
      modifies this`handed, this`ctxLive, buffer, chunker
      ensures Linked() && Later() && AllHandedOver() && MayFinish()
    {
      hide Linked;
      Others();
    }

    method PauseFinishing(request: FinishRequest, failure: Failure)
      requires Linked() && BackoffReady() && AllHandedOver() && MayFinish() && Finishing(request)
      requires IsRetryable(failure) && LastFailed(failure)
      modifies this`trace, this`handed, this`ctxLive, buffer, chunker, backoff
      ensures Linked() && BackoffReady() && Later() && AllHandedOver() && MayFinish() && Finishing(request)
      ensures !JustFinished(trace) && (old(Finished(trace)) ==> Finished(trace))
    {
      hide Linked, Safe, Gone, Asked, Limited, GivenUp, CutOff, Requests;
      var delay := Pause(failure);
      SafeSlept(trace, delay, failure);
      OneMoreAct(trace, Slept(delay, failure));
      trace := trace + [Slept(delay, failure)];
      assert forall a :: a in old(trace) ==> a in trace;
      MayStillFinish();
    }

    /** client.Retry around the finish request. */
    method FinishRun(request: FinishRequest)
      requires Linked() && BackoffReady() && AllHandedOver() && MayFinish() && Finishing(request) && !JustFinished(trace)
      modifies this`trace, this`handed, this`ctxLive, buffer, chunker, backoff, server`exchanges
      ensures Linked() && BackoffReady() && Later() && AllHandedOver() && Finishing(request)
      ensures Finished(trace) && (Settled(trace) || !ctxLive)
    {
      hide Linked, Gone, Finishing, Finished, JustFinished, Settled;
      var patience: nat := *;
      while true
        invariant Linked() && BackoffReady() && Later() && AllHandedOver() && MayFinish() && Finishing(request)
        invariant !JustFinished(trace)
        decreases patience
      {
        var failure := TryFinish(request, ctxEnds || patience > 0);
        if failure.None? {
          backoff.Reset();
          return;
        }
        if !IsRetryable(failure.value) {
          return;
        }
        PauseFinishing(request, failure.value);
        if patience == 0 {
          GiveUpFinishing(request);
        }
        var noticed: bool := *;
        if !ctxLive && (noticed || patience == 0) {
          return;
        }
        patience := patience - 1;
      }
    }

    method GiveUpFinishing(request: FinishRequest)
      requires ctxEnds && Finishing(request)
      modifies this`ctxLive
      ensures !ctxLive && Finishing(request)
    {
      hide Safe, Carries, Heeded;
      EndContext();
    }

    /** Everything before the finish: supervise, close the chunker, drain. */
    method DeliverOutput(ticks: seq<Tick>) returns (lastSeq: nat, truncated: bool)
      requires Steady()
      modifies this, buffer, chunker, server, backoff
      ensures Linked() && Informed() && Heeded() && Truthful() && BackoffReady() && AllHandedOver() && MayFinish()
      ensures lastSeq == |chunker.emitted| && old(buffer.history) <= buffer.history
      ensures origin.Spawned? ==> flushes >= old(flushes) + Count(ticks, FlushTick)
      ensures origin.Spawned? && heartbeats ==> Beats(trace) >= Beats(old(trace)) + Count(ticks, HeartbeatTick)
      ensures old(ctxLive) && !ctxEnds ==> ctxLive
      ensures truncated <==>
        BufferSpec.Truncated(buffer.View(), runId) || serverTruncated || Flat(chunker.emitted) != chunker.offered
    {
      hide Linked, Knows, Heeded, Truthful, Informed, Steady, Gone, Flat;
      if origin.Spawned? {
        Supervise(ticks);
      }
      ghost var supervised := trace;
      lastSeq, truncated := Finishes();
      BeatsGrow(supervised, trace);
    }

    /** Closing the chunker, draining, and whether anything is missing. */
    method Finishes() returns (lastSeq: nat, truncated: bool)
      requires Steady()
      modifies this, buffer, chunker, server, backoff
      ensures Linked() && Informed() && Heeded() && Truthful() && BackoffReady() && AllHandedOver() && MayFinish()
      ensures lastSeq == |chunker.emitted| && old(buffer.history) <= buffer.history
      ensures old(flushes) <= flushes && old(trace) <= trace && (heartbeats ==> old(heartbeats))
      ensures old(ctxLive) && !ctxEnds ==> ctxLive
      ensures truncated <==>
        BufferSpec.Truncated(buffer.View(), runId) || serverTruncated || Flat(chunker.emitted) != chunker.offered
    {
      hide Linked, Knows, Heeded, Truthful, Gone;
      OthersSteady();
      var cut: bool;
      lastSeq, cut := CloseOutput();
      Drain();
      var dropped := buffer.Truncated(runId);
      truncated := cut || serverTruncated || dropped;
    }

    /** The delivery of a run, from the launch to the release of its output; `result` is
        what its process comes to and `now` the clock at the finish. Under everything the
        rest of the agent and the Server may do meanwhile:

        - the Server's log is an increasing, duplicate-free selection of the run's
          chunks, and each chunk is in it, or was evicted, or was still held at the end,
          the latter only if the context ended or the Server refused output;
        - the finish says truncated exactly when a chunk was evicted, the Server said so
          or the cap cut bytes, and if it does not and nothing was left, the log is every
          byte written before Close;
        - the requests were safe and in the order the protocol asks, the run was finished
          with this one request until it was settled or the context ended, and every
          cancellation the Server asked for reached the process.

        `history` is what had been done to the buffer when the finish was made up, and
        `live` whether the context was live then. */
    method Deliver(result: Result, now: int, ticks: seq<Tick>)
      returns (request: FinishRequest, ghost history: seq<BufferSpec.Event>, ghost live: bool)
      requires Steady()
      modifies this, buffer, chunker, server, backoff
      ensures chunker.closed
      ensures request == FinishOf(origin, result, now, |chunker.emitted|, request.truncated)
      ensures request.finishedAt == now && request.lastSeq == |chunker.emitted|
      ensures origin.CancelledBeforeStart? ==>
        request.status == Cancelled && request.exitCode.None? && request.startedAt.None? && request.reason.None?
      ensures origin.NotSpawned? ==>
        && request.status == Failed && request.exitCode.None? && request.startedAt.None?
        && request.reason == Some(origin.reason)
      ensures origin.Spawned? ==>
        && request.exitCode == Some(result.exitCode) && request.startedAt == Some(origin.startedAt)
        && (request.status == TimedOut <==> result.timedOut)
        && (request.status == Cancelled <==> result.cancelled && !result.timedOut)
        && (request.status == Success <==>
              !result.timedOut && !result.cancelled && result.exitCode == 0 && !result.failed)
        && (request.status == Failed <==>
              !result.timedOut && !result.cancelled && (result.exitCode != 0 || result.failed))
        && request.reason ==
             if result.cancelled && !result.timedOut && result.reason == "agent_stopped" then Some(AgentStopped) else None
      ensures origin.Spawned? ==> flushes >= old(flushes) + Count(ticks, FlushTick)
      ensures origin.Spawned? && heartbeats ==> Beats(trace) >= Beats(old(trace)) + Count(ticks, HeartbeatTick)
      ensures old(buffer.history) <= history <= buffer.history && BufferSpec.Legal(buffer.globalCap, history)
      ensures Settles(runId, buffer.globalCap, history, chunker.emitted, chunker.offered, server.log, Limited(trace),
                      request.truncated)
      ensures live && !outputDone ==> BufferSpec.ChunksOf(BufferSpec.After(buffer.globalCap, history), runId) == []
      ensures Truthful() && (ctxLive ==> live) && (outputDone && ctxLive ==> TurnedDown(trace))
      ensures old(ctxLive) && !ctxEnds ==> ctxLive
      ensures Safe(trace) && Carries(trace, request) && Finished(trace)
      ensures Settled(trace) || !ctxLive
      ensures cancels == if origin.Spawned? then Asked(trace) else 0
      ensures runId !in buffer.runs && buffer.Valid()
    {
      hide Linked, Safe, Gone, FinishOf, BufferSpec.Valid, BufferSpec.Legal, BufferSpec.After, Settles;
      var lastSeq, truncated := DeliverOutput(ticks);
      history, live := buffer.history, ctxLive;
      ghost var delivered := trace;
      NothingUnfinished();
      MakesUp(truncated);
      request := FinishOf(origin, result, now, lastSeq, truncated);
      FinishKeeps(origin, result, now, lastSeq, truncated);
      FinishMeans(origin, result, now, lastSeq, truncated);
      FinishRun(request);
      assert Limited(trace) == serverTruncated;
      BeatsGrow(delivered, trace);
      Release();
    }

    /** What is known when the finish request is made up. */
    lemma MakesUp(truncated: bool)
      requires Linked() && AllHandedOver() && MayFinish() && Heeded() && Truthful()
      requires truncated <==>
        BufferSpec.Truncated(buffer.View(), runId) || serverTruncated || Flat(chunker.emitted) != chunker.offered
      ensures BufferSpec.Legal(buffer.globalCap, buffer.history)
      ensures Settles(runId, buffer.globalCap, buffer.history, chunker.emitted, chunker.offered, server.log,
                      serverTruncated, truncated)
      ensures ctxLive && !outputDone ==>
        BufferSpec.ChunksOf(BufferSpec.After(buffer.globalCap, buffer.history), runId) == []
    {
      hide ChunkerSpec.Inv, BufferSpec.Valid, BufferSpec.Legal, BufferSpec.After, BufferSpec.Evicted, BufferSpec.Fed;
      assert Fed() == chunker.emitted;
      NothingHeld(runId, chunker.emitted, buffer.View(), Evicted(), server.log);
    }

    method Release()
      requires Linked()
      modifies buffer
      ensures runId !in buffer.runs && buffer.Valid() && old(buffer.history) <= buffer.history
    {
      hide ChunkerSpec.Inv, Link, BufferSpec.Valid, BufferSpec.Legal, BufferSpec.After;
      BufferSpec.ForgetKeepsValid(buffer.View(), runId);
      buffer.Forget(runId);
    }

    lemma NothingUnfinished()
      requires Informed()
      ensures Safe(trace) && !JustFinished(trace) && !Finished(trace)
    {
      hide Safe;
    }
  }
}

/** internal/runner: the race between the timeout, cancellations and the exit of
    one process, and the outcome it is reported with (internal/agent/agent.go). */
module RunnerSpec {
  import opened Options
  import opened Protocol

  const AGENT_STOPPED := "agent_stopped"
  const CANCEL_REQUESTED := "cancel_requested"

  datatype Signal = SIGTERM | SIGKILL

  /** `failed` says that Err is set. */
  datatype Result = Result(exitCode: int, timedOut: bool, cancelled: bool, reason: string, failed: bool)

  /** Where the terminateGroup goroutine stands: about to send SIGTERM, in its grace
      period, about to send SIGKILL, waiting for the end, or returned. */
  datatype Phase = NotStarted | BeforeTerm | Grace | BeforeKill | AfterKill | Returned

  /** `groups` counts the terminateGroup goroutines started, `phase` is where the
      last of them stands and `signals` lists what was sent; `errorAtExit` is the
      termination error wait() picked up. */
  datatype State = State(
    exited: bool,
    terminating: bool,
    timedOut: bool,
    cancelled: bool,
    reason: string,
    terminateError: bool,
    errorAtExit: bool,
    done: bool,
    result: Result,
    groups: nat,
    phase: Phase,
    signals: seq<Signal>)

  /** Each event is one critical section, or one step between two of them:
      Terminate a call of terminate, Exit and Settle the two halves of wait, and
      the others the steps of terminateGroup, whose waits end with done or the
      grace timer. */
  datatype Event =
    | Terminate(timedOut: bool, reason: string)
    | Exit
    | Settle(exitCode: int, waitError: bool)
    | SendTerm(error: bool)
    | GraceEnds
    | SendKill(error: bool)
    | SeeDone

  const START := State(false, false, false, false, "", false, false, false, Result(0, false, false, "", false), 0,
                       NotStarted, [])

  function Step(s: State, e: Event): State {
    match e
    case Terminate(timedOut, reason) =>
      if s.exited || s.terminating then s
      else
        s.(terminating := true, timedOut := timedOut, cancelled := !timedOut, reason := reason,
           groups := s.groups + 1, phase := BeforeTerm)
    case Exit =>
      if s.exited then s
      else
        s.(exited := true, errorAtExit := s.terminateError,
           result := s.result.(timedOut := s.timedOut, cancelled := s.cancelled, reason := s.reason))
    case Settle(exitCode, waitError) =>
      if !s.exited || s.done then s
      else s.(done := true, result := s.result.(exitCode := exitCode, failed := waitError || s.errorAtExit))
    case SendTerm(error) =>
      if s.phase != BeforeTerm then s
      else s.(signals := s.signals + [SIGTERM], terminateError := s.terminateError || error, phase := Grace)
    case GraceEnds =>
      if s.phase != Grace then s else s.(phase := BeforeKill)
    case SendKill(error) =>
      if s.phase != BeforeKill then s
      else s.(signals := s.signals + [SIGKILL], terminateError := s.terminateError || error, phase := AfterKill)
    case SeeDone =>
      if !s.done || (s.phase != Grace && s.phase != AfterKill) then s else s.(phase := Returned)
  }

  function Run(events: seq<Event>): State {
    if events == [] then START else Step(Run(events[..|events| - 1]), events[|events| - 1])
  }

  /** The termination that won: the first one before the exit, if any. */
  function FirstTermination(events: seq<Event>): Option<(bool, string)> {
    if events == [] || events[0].Exit? then None
    else if events[0].Terminate? then Some((events[0].timedOut, events[0].reason))
    else FirstTermination(events[1..])
  }

  predicate Exited(events: seq<Event>) {
    Exit in events
  }

  lemma {:induction false} FirstTerminationSnoc(events: seq<Event>, e: Event)
    ensures
      var first := FirstTermination(events);
      FirstTermination(events + [e]) ==
        if first.None? && !Exited(events) && e.Terminate? then Some((e.timedOut, e.reason)) else first
    decreases |events|
  {
    if events == [] {
      assert [e][1..] == [];
      assert events + [e] == [e];
    } else {
      assert (events + [e])[0] == events[0] && (events + [e])[1..] == events[1..] + [e];
      FirstTerminationSnoc(events[1..], e);
      assert Exited(events) <==> events[0].Exit? || Exited(events[1..]);
    }
  }

  /** The flags always say what the winning termination said. */
  ghost predicate Tells(first: Option<(bool, string)>, timedOut: bool, cancelled: bool, reason: string) {
    match first
    case None => !timedOut && !cancelled && reason == ""
    case Some(t) => timedOut == t.0 && cancelled == !t.0 && reason == t.1
  }

  /** What has been sent when terminateGroup stands at a phase. */
  ghost predicate Sent(phase: Phase, signals: seq<Signal>) {
    match phase
    case NotStarted => signals == []
    case BeforeTerm => signals == []
    case Grace => signals == [SIGTERM]
    case BeforeKill => signals == [SIGTERM]
    case AfterKill => signals == [SIGTERM, SIGKILL]
    case Returned => signals == [SIGTERM] || signals == [SIGTERM, SIGKILL]
  }

  lemma StepKeepsSent(s: State, e: Event)
    requires Sent(s.phase, s.signals) && (s.phase == NotStarted <==> !s.terminating)
    ensures Sent(Step(s, e).phase, Step(s, e).signals)
    ensures Step(s, e).phase == NotStarted <==> !Step(s, e).terminating
    ensures SIGKILL in Step(s, e).signals ==> SIGKILL in s.signals || (s.phase == BeforeKill && e.SendKill?)
    ensures Step(s, e).phase == BeforeKill ==> s.phase == BeforeKill || (s.phase == Grace && e == GraceEnds)
    ensures s.phase == Returned ==> Step(s, e).phase == Returned && Step(s, e).signals == s.signals
  {
    assert [] + [SIGTERM] == [SIGTERM];
    assert [SIGTERM] + [SIGKILL] == [SIGTERM, SIGKILL];
  }

  lemma {:induction false} PhaseTells(events: seq<Event>)
    ensures var s := Run(events); Sent(s.phase, s.signals) && (s.phase == NotStarted <==> !s.terminating)
    decreases |events|
  {
    hide Step, Sent;
    if events == [] {
      NothingSent();
    } else {
      PhaseTells(events[..|events| - 1]);
      StepKeepsSent(Run(events[..|events| - 1]), events[|events| - 1]);
    }
  }

  lemma NothingSent()
    ensures Sent(START.phase, START.signals)
  {
  }

  /** Once terminateGroup has returned, nothing is sent any more. */
  lemma {:induction false} ReturnedStaysSilent(events: seq<Event>, later: seq<Event>)
    requires Run(events).phase == Returned
    ensures Run(events + later).phase == Returned && Run(events + later).signals == Run(events).signals
    decreases |later|
  {
    hide Step;
    if later == [] {
      assert events + later == events;
    } else {
      var before, e := later[..|later| - 1], later[|later| - 1];
      assert (events + later)[..|events + later| - 1] == events + before;
      ReturnedStaysSilent(events, before);
      PhaseTells(events + before);
      StepKeepsSent(Run(events + before), e);
    }
  }

  /** The k-th event is the timer that ends the grace period. */
  predicate EndsGrace(events: seq<Event>, k: nat) {
    k < |events| && events[k] == GraceEnds && Run(events[..k]).phase == Grace
  }

  /** The m-th event sends SIGKILL, and the goroutine has not returned before. */
  ghost predicate Kills(events: seq<Event>, m: nat) {
    && m < |events| && events[m].SendKill? && Run(events[..m]).phase == BeforeKill
    && forall q :: 0 <= q < m ==> Run(events[..q]).phase != Returned
  }

  ghost predicate GraceEnded(events: seq<Event>) {
    exists k :: 0 <= k < |events| && EndsGrace(events, k)
  }

  ghost predicate KilledAfterGrace(events: seq<Event>) {
    exists k, m :: 0 <= k < m < |events| && EndsGrace(events, k) && Kills(events, m)
  }

  /** SIGKILL is sent only after SIGTERM, once each, and only if the timer ended a grace
      period and the goroutine had not seen the process done. */
  lemma {:induction false} KillOnlyAfterGrace(events: seq<Event>)
    ensures
      var s := Run(events);
      && s.signals in {[], [SIGTERM], [SIGTERM, SIGKILL]}
      && (s.phase == BeforeKill ==> GraceEnded(events))
      && (SIGKILL in s.signals ==> KilledAfterGrace(events))
    decreases |events|
  {
    hide Step, EndsGrace, Kills;
    if events != [] {
      var before, e := events[..|events| - 1], events[|events| - 1];
      assert events == before + [e];
      KillOnlyAfterGrace(before);
      PhaseTells(before);
      PhaseTells(events);
      var s := Run(before);
      StepKeepsSent(s, e);
      SameBefore(events);
      if s.phase == Grace && e == GraceEnds {
        GraceEndsNow(events);
      }
      if s.phase == BeforeKill && e.SendKill? {
        KillsNow(events);
      }
    }
  }

  lemma GraceEndsNow(events: seq<Event>)
    requires events != [] && Run(events[..|events| - 1]).phase == Grace && events[|events| - 1] == GraceEnds
    ensures EndsGrace(events, |events| - 1)
  {
  }

  lemma SameBefore(events: seq<Event>)
    requires events != []
    ensures
      var before := events[..|events| - 1];
      && (forall k: nat | k < |before| :: EndsGrace(before, k) ==> EndsGrace(events, k))
      && (forall m: nat | m < |before| :: Kills(before, m) ==> Kills(events, m))
  {
    hide Run;
    var before := events[..|events| - 1];
    forall k: nat | k < |before| ensures before[..k] == events[..k] {
    }
    forall m: nat | m < |before| && Kills(before, m) ensures Kills(events, m) {
      forall q | 0 <= q < m ensures Run(events[..q]).phase != Returned {
        assert before[..q] == events[..q];
      }
    }
  }

  lemma KillsNow(events: seq<Event>)
    requires events != [] && Run(events[..|events| - 1]).phase == BeforeKill && events[|events| - 1].SendKill?
    ensures Kills(events, |events| - 1)
  {
    hide Run, Step;
    var m := |events| - 1;
    forall q | 0 <= q < m ensures Run(events[..q]).phase != Returned {
      assert events[..q] + events[q..m] == events[..m];
      if Run(events[..q]).phase == Returned {
        ReturnedStaysSilent(events[..q], events[q..m]);
      }
    }
  }

  /** The state of a process whose winning termination so far is `first`. */
  ghost predicate Follows(s: State, first: Option<(bool, string)>, exited: bool) {
    && s.groups == (if first.Some? then 1 else 0)
    && s.terminating == first.Some?
    && Tells(first, s.timedOut, s.cancelled, s.reason)
    && s.exited == exited
    && (s.exited ==> Tells(first, s.result.timedOut, s.result.cancelled, s.result.reason))
    && !(s.result.timedOut && s.result.cancelled)
    && (s.done ==> s.exited)
  }

  function Winner(first: Option<(bool, string)>, exited: bool, e: Event): Option<(bool, string)> {
    if first.None? && !exited && e.Terminate? then Some((e.timedOut, e.reason)) else first
  }

  lemma StepFollows(s: State, e: Event, first: Option<(bool, string)>, exited: bool)
    requires Follows(s, first, exited)
    ensures Follows(Step(s, e), Winner(first, exited, e), exited || e.Exit?)
    ensures s.done ==> Step(s, e).done && Step(s, e).result == s.result
    ensures Step(s, e).terminateError || Step(s, e).errorAtExit ==>
      s.terminateError || s.errorAtExit || s.phase == BeforeTerm || s.phase == BeforeKill
  {
  }

  /** For every interleaving of timeout, cancellations, exit and signals: the first
      termination before the exit wins and is what the result reports, at most one
      group termination starts, and timed out and cancelled exclude each other. */
  lemma {:induction false} FirstTerminationWins(events: seq<Event>)
    ensures Follows(Run(events), FirstTermination(events), Exited(events))
    decreases |events|
  {
    hide Step, Follows;
    if events == [] {
      StartFollows();
    } else {
      var before, e := events[..|events| - 1], events[|events| - 1];
      assert events == before + [e];
      FirstTerminationWins(before);
      FirstTerminationSnoc(before, e);
      StepFollows(Run(before), e, FirstTermination(before), Exited(before));
      assert Exited(events) <==> Exited(before) || e.Exit?;
    }
  }

  lemma StartFollows()
    ensures Follows(START, None, false)
  {
  }

  /** Nothing is sent unless a termination won. */
  lemma SignalsNeedATermination(events: seq<Event>)
    ensures Run(events).signals != [] ==> FirstTermination(events).Some?
  {
    hide Run;
    FirstTerminationWins(events);
    PhaseTells(events);
  }

  /** Once Wait can return, nothing changes the result any more. */
  lemma {:induction false} ResultIsFinal(events: seq<Event>, later: seq<Event>)
    requires Run(events).done
    ensures Run(events + later).done && Run(events + later).result == Run(events).result
    decreases |later|
  {
    hide Step, Follows;
    if later == [] {
      assert events + later == events;
    } else {
      var before, e := later[..|later| - 1], later[|later| - 1];
      assert (events + later)[..|events + later| - 1] == events + before;
      ResultIsFinal(events, before);
      FirstTerminationWins(events + before);
      StepFollows(Run(events + before), e, FirstTermination(events + before), Exited(events + before));
    }
  }

  // ----- what is sent, told from the events

  /** The w-th event is the termination that wins. */
  ghost predicate Wins(events: seq<Event>, w: nat) {
    w < |events| && events[w].Terminate? && forall i :: 0 <= i < w ==> !events[i].Exit? && !events[i].Terminate?
  }

  ghost predicate NoTermSince(events: seq<Event>, w: nat) {
    forall i :: w < i < |events| ==> !events[i].SendTerm?
  }

  /** The t-th event sends SIGTERM: it is the first such step after the termination won. */
  ghost predicate TermSent(events: seq<Event>, t: nat) {
    && t < |events| && events[t].SendTerm?
    && exists w :: 0 <= w < t && Wins(events[..t], w) && NoTermSince(events[..t], w)
  }

  /** Since the SIGTERM neither the timer nor done has ended the wait. */
  ghost predicate Waits(events: seq<Event>, t: nat) {
    && TermSent(events, t)
    && forall i :: t < i < |events| ==> !events[i].GraceEnds? && !(events[i].SeeDone? && Run(events[..i]).done)
  }

  /** The g-th event is the timer, and it ended the wait for a SIGTERM. */
  ghost predicate TimerWon(events: seq<Event>, g: nat) {
    && g < |events| && events[g].GraceEnds?
    && exists t :: 0 <= t < g && Waits(events[..g], t)
  }

  ghost predicate NoKillSince(events: seq<Event>, g: nat) {
    forall i :: g < i < |events| ==> !events[i].SendKill?
  }

  /** The m-th event sends SIGKILL: it is the first such step after the timer won. */
  ghost predicate KillSent(events: seq<Event>, m: nat) {
    && m < |events| && events[m].SendKill?
    && exists g :: 0 <= g < m && TimerWon(events[..m], g) && NoKillSince(events[..m], g)
  }

  ghost predicate AnyTerm(events: seq<Event>) {
    exists t :: 0 <= t < |events| && TermSent(events, t)
  }

  ghost predicate AnyKill(events: seq<Event>) {
    exists m :: 0 <= m < |events| && KillSent(events, m)
  }

  /** A signal was sent, and sending it failed. */
  ghost predicate SignalFailed(events: seq<Event>) {
    exists i :: 0 <= i < |events| && FailsAt(events, i)
  }

  ghost predicate FailsAt(events: seq<Event>, i: nat)
    requires i < |events|
  {
    (TermSent(events, i) && events[i].error) || (KillSent(events, i) && events[i].error)
  }

  // A prefix of the events tells the same of what lies within it.

  lemma WithinPrefix(events: seq<Event>, e: Event, i: nat)
    requires i < |events|
    ensures Wins(events + [e], i) <==> Wins(events, i)
    ensures TermSent(events + [e], i) <==> TermSent(events, i)
    ensures TimerWon(events + [e], i) <==> TimerWon(events, i)
    ensures KillSent(events + [e], i) <==> KillSent(events, i)
  {
    assert (events + [e])[..i] == events[..i];
    hide NoTermSince, NoKillSince, Waits;
  }

  lemma AtTheEnd(events: seq<Event>, e: Event)
    ensures (events + [e])[..|events|] == events && (events + [e])[|events|] == e
  {
  }

  /** While neither has happened no termination has won. */
  lemma {:induction false} NoneFirst(events: seq<Event>)
    ensures FirstTermination(events).None? && !Exited(events) <==>
      forall i :: 0 <= i < |events| ==> !events[i].Exit? && !events[i].Terminate?
    decreases |events|
  {
    if events != [] {
      NoneFirst(events[1..]);
      assert events == [events[0]] + events[1..];
    }
  }

  lemma TerminateExactly(events: seq<Event>, e: Event)
    ensures Wins(events + [e], |events|) <==> e.Terminate? && !Run(events).exited && !Run(events).terminating
  {
    FirstTerminationWins(events);
    NoneFirst(events);
    AtTheEnd(events, e);
    assert forall i :: 0 <= i < |events| ==> (events + [e])[i] == events[i];
  }

  /** About to send SIGTERM: a termination has won and no SIGTERM been sent since. */
  ghost predicate TermPending(events: seq<Event>) {
    exists w :: 0 <= w < |events| && Wins(events, w) && NoTermSince(events, w)
  }

  ghost predicate Waiting(events: seq<Event>) {
    exists t :: 0 <= t < |events| && Waits(events, t)
  }

  ghost predicate KillPending(events: seq<Event>) {
    exists g :: 0 <= g < |events| && TimerWon(events, g) && NoKillSince(events, g)
  }

  lemma TermPendingSnoc(events: seq<Event>, e: Event)
    ensures TermPending(events + [e]) <==> Wins(events + [e], |events|) || (TermPending(events) && !e.SendTerm?)
  {
    AtTheEnd(events, e);
    var more := events + [e];
    if w :| 0 <= w < |events| && Wins(events, w) && NoTermSince(events, w) && !e.SendTerm? {
      WithinPrefix(events, e, w);
      assert NoTermSince(more, w);
    }
    if w :| 0 <= w < |more| && Wins(more, w) && NoTermSince(more, w) {
      if w < |events| {
        WithinPrefix(events, e, w);
        assert forall i :: w < i < |events| ==> more[i] == events[i];
        assert NoTermSince(events, w) && !more[|events|].SendTerm?;
      }
    }
  }

  lemma WaitingSnoc(events: seq<Event>, e: Event)
    ensures Waiting(events + [e]) <==>
      TermSent(events + [e], |events|)
      || (Waiting(events) && !e.GraceEnds? && !(e.SeeDone? && Run(events).done))
  {
    AtTheEnd(events, e);
    hide TermSent, Run;
    var more := events + [e];
    assert forall i :: 0 <= i < |events| ==> more[i] == events[i] && more[..i] == events[..i];
    forall t | 0 <= t < |events|
      ensures Waits(more, t) <==> Waits(events, t) && !e.GraceEnds? && !(e.SeeDone? && Run(events).done)
    {
      WithinPrefix(events, e, t);
    }
    assert Waits(more, |events|) <==> TermSent(more, |events|);
  }

  lemma KillPendingSnoc(events: seq<Event>, e: Event)
    ensures KillPending(events + [e]) <==> TimerWon(events + [e], |events|) || (KillPending(events) && !e.SendKill?)
  {
    AtTheEnd(events, e);
    hide TimerWon;
    var more := events + [e];
    assert forall i :: 0 <= i < |events| ==> more[i] == events[i];
    forall g | 0 <= g < |events|
      ensures TimerWon(more, g) && NoKillSince(more, g) <==> TimerWon(events, g) && NoKillSince(events, g) && !e.SendKill?
    {
      WithinPrefix(events, e, g);
    }
  }

  lemma SentAtEnd(events: seq<Event>, e: Event)
    ensures TermSent(events + [e], |events|) <==> e.SendTerm? && TermPending(events)
    ensures TimerWon(events + [e], |events|) <==> e.GraceEnds? && Waiting(events)
    ensures KillSent(events + [e], |events|) <==> e.SendKill? && KillPending(events)
  {
    AtTheEnd(events, e);
    hide Wins, NoTermSince, Waits, NoKillSince;
  }

  /** Where terminateGroup stands, told from the events. */
  ghost predicate Stands(phase: Phase, pending: bool, waiting: bool, killing: bool) {
    && (phase == BeforeTerm <==> pending)
    && (phase == Grace <==> waiting)
    && (phase == BeforeKill <==> killing)
  }

  lemma {:induction false} PhaseExactly(events: seq<Event>)
    ensures Stands(Run(events).phase, TermPending(events), Waiting(events), KillPending(events))
    decreases |events|
  {
    if events != [] {
      var before, e := events[..|events| - 1], events[|events| - 1];
      assert events == before + [e];
      PhaseExactly(before);
      TermPendingSnoc(before, e);
      WaitingSnoc(before, e);
      KillPendingSnoc(before, e);
      SentAtEnd(before, e);
      TerminateExactly(before, e);
      PhaseTells(before);
      hide TermPending, Waiting, KillPending, Wins, TermSent, TimerWon, KillSent;
    }
  }

  lemma AnySnoc(events: seq<Event>, e: Event)
    ensures AnyTerm(events + [e]) <==> AnyTerm(events) || TermSent(events + [e], |events|)
    ensures AnyKill(events + [e]) <==> AnyKill(events) || KillSent(events + [e], |events|)
    ensures SignalFailed(events + [e]) <==> SignalFailed(events) || FailsAt(events + [e], |events|)
  {
    hide TermSent, KillSent;
    var more := events + [e];
    forall i | 0 <= i < |events|
      ensures TermSent(more, i) <==> TermSent(events, i)
      ensures KillSent(more, i) <==> KillSent(events, i)
      ensures FailsAt(more, i) <==> FailsAt(events, i)
    {
      WithinPrefix(events, e, i);
      assert more[i] == events[i];
    }
    hide FailsAt;
    if SignalFailed(events) {
      var i :| 0 <= i < |events| && FailsAt(events, i);
      assert FailsAt(more, i);
    }
    if SignalFailed(more) {
      var i :| 0 <= i < |more| && FailsAt(more, i);
      if i < |events| {
        assert FailsAt(events, i);
      }
    }
  }

  /** For every interleaving: SIGTERM has been sent exactly if a termination won and the
      goroutine then took its first step, SIGKILL exactly if the timer then ended the wait
      before the process was seen to be done; and an error is remembered exactly if one of
      them could not be sent. */
  lemma {:induction false} SignalsExactly(events: seq<Event>)
    ensures
      var s := Run(events);
      && (SIGTERM in s.signals <==> AnyTerm(events))
      && (SIGKILL in s.signals <==> AnyKill(events))
      && (s.terminateError <==> SignalFailed(events))
    decreases |events|
  {
    if events != [] {
      var before, e := events[..|events| - 1], events[|events| - 1];
      assert events == before + [e];
      SignalsExactly(before);
      AnySnoc(before, e);
      SentAtEnd(before, e);
      PhaseExactly(before);
      AtTheEnd(before, e);
      hide AnyTerm, AnyKill, SignalFailed, TermSent, KillSent, TermPending, Waiting, KillPending, TimerWon;
      SendsExactly(Run(before), e);
    }
  }

  lemma SendsExactly(s: State, e: Event)
    ensures SIGTERM in Step(s, e).signals <==> SIGTERM in s.signals || (e.SendTerm? && s.phase == BeforeTerm)
    ensures SIGKILL in Step(s, e).signals <==> SIGKILL in s.signals || (e.SendKill? && s.phase == BeforeKill)
    ensures Step(s, e).terminateError <==>
      s.terminateError || (e.SendTerm? && s.phase == BeforeTerm && e.error)
      || (e.SendKill? && s.phase == BeforeKill && e.error)
  {
    hide Step;
    match e
    case SendTerm(error) =>
      SendsTerm(s, error);
      HasOneMore(s.signals, SIGTERM);
    case SendKill(error) =>
      SendsKill(s, error);
      HasOneMore(s.signals, SIGKILL);
    case Terminate(timedOut, reason) => TerminateSendsNothing(s, timedOut, reason);
    case Exit => ExitSendsNothing(s, 0, false);
    case Settle(exitCode, waitError) => ExitSendsNothing(s, exitCode, waitError);
    case GraceEnds => WaitSendsNothing(s);
    case SeeDone => WaitSendsNothing(s);
  }

  lemma SendsTerm(s: State, error: bool)
    ensures
      var t := Step(s, SendTerm(error));
      && t.signals == s.signals + (if s.phase == BeforeTerm then [SIGTERM] else [])
      && (t.terminateError <==> s.terminateError || (s.phase == BeforeTerm && error))
  {
    assert s.signals + [] == s.signals;
  }

  lemma SendsKill(s: State, error: bool)
    ensures
      var t := Step(s, SendKill(error));
      && t.signals == s.signals + (if s.phase == BeforeKill then [SIGKILL] else [])
      && (t.terminateError <==> s.terminateError || (s.phase == BeforeKill && error))
  {
    assert s.signals + [] == s.signals;
  }

  // The other events send nothing.

  lemma TerminateSendsNothing(s: State, timedOut: bool, reason: string)
    ensures SameSent(s, Step(s, Terminate(timedOut, reason)))
  {
  }

  lemma ExitSendsNothing(s: State, exitCode: int, waitError: bool)
    ensures SameSent(s, Step(s, Exit)) && SameSent(s, Step(s, Settle(exitCode, waitError)))
  {
  }

  lemma WaitSendsNothing(s: State)
    ensures SameSent(s, Step(s, GraceEnds)) && SameSent(s, Step(s, SeeDone))
  {
  }

  predicate SameSent(s: State, t: State) {
    t.signals == s.signals && t.terminateError == s.terminateError
  }

  lemma HasOneMore(signals: seq<Signal>, more: Signal)
    ensures forall signal: Signal :: signal in signals + [more] <==> signal in signals || signal == more
  {
  }

  // ----- the result, told from the events

  /** The x-th event is the exit. */
  ghost predicate FirstExit(events: seq<Event>, x: nat) {
    x < |events| && events[x].Exit? && forall i :: 0 <= i < x ==> !events[i].Exit?
  }

  /** The k-th event settles the result: the first to do so after the exit. */
  ghost predicate FirstSettle(events: seq<Event>, x: nat, k: nat) {
    x < k < |events| && events[k].Settle? && forall i :: x < i < k ==> !events[i].Settle?
  }

  /** What has become of the result, with the exit at x and the settling at k, if they
      have happened. */
  lemma {:induction false} ResultSoFar(events: seq<Event>) returns (x: nat, k: nat)
    ensures var s := Run(events); s.exited <==> FirstExit(events, x)
    ensures !Run(events).exited ==> !Run(events).done && forall i :: 0 <= i < |events| ==> !events[i].Exit?
    ensures Run(events).exited ==> (Run(events).errorAtExit <==> Run(events[..x]).terminateError)
    ensures Run(events).exited && !Run(events).done ==> forall i :: x < i < |events| ==> !events[i].Settle?
    ensures Run(events).done ==>
      && Run(events).exited && FirstSettle(events, x, k)
      && Run(events).result.exitCode == events[k].exitCode
      && (Run(events).result.failed <==> events[k].waitError || Run(events).errorAtExit)
    decreases |events|
  {
    x, k := 0, 0;
    if events != [] {
      var before, e := events[..|events| - 1], events[|events| - 1];
      x, k := ResultSoFar(before);
      ResultStep(Run(before), e);
      if !Run(before).exited && e.Exit? {
        x := |before|;
      } else if Run(before).exited && !Run(before).done && e.Settle? {
        k := |before|;
      }
      assert forall i :: 0 <= i < |before| ==> events[i] == before[i];
      assert x <= |before| ==> events[..x] == before[..x];
      hide Step;
    }
  }

  lemma ResultStep(s: State, e: Event)
    ensures Step(s, e).exited <==> s.exited || e.Exit?
    ensures Step(s, e).done <==> s.done || (s.exited && e.Settle?)
    ensures !s.exited && e.Exit? ==> Step(s, e).errorAtExit == s.terminateError
    ensures s.exited || !e.Exit? ==> Step(s, e).errorAtExit == s.errorAtExit
    ensures s.exited && !s.done && e.Settle? ==>
      Step(s, e).result.exitCode == e.exitCode && Step(s, e).result.failed == (e.waitError || s.errorAtExit)
    ensures !(s.exited && !s.done && e.Settle?) ==>
      Step(s, e).result.exitCode == s.result.exitCode && Step(s, e).result.failed == s.result.failed
  {
    hide Step;
    match e
    case Exit => ExitStep(s);
    case Settle(exitCode, waitError) => SettleStep(s, exitCode, waitError);
    case Terminate(timedOut, reason) => TerminateSettlesNothing(s, timedOut, reason);
    case SendTerm(error) => SignalSettlesNothing(s, error);
    case GraceEnds => WaitSettlesNothing(s);
    case SendKill(error) => SignalSettlesNothing(s, error);
    case SeeDone => WaitSettlesNothing(s);
  }

  lemma ExitStep(s: State)
    ensures
      var t := Step(s, Exit);
      && t.exited && t.done == s.done && t.errorAtExit == (if s.exited then s.errorAtExit else s.terminateError)
      && t.result.exitCode == s.result.exitCode && t.result.failed == s.result.failed
  {
  }

  lemma SettleStep(s: State, exitCode: int, waitError: bool)
    ensures
      var t := Step(s, Settle(exitCode, waitError));
      && t.exited == s.exited && t.errorAtExit == s.errorAtExit && t.done == (s.done || s.exited)
      && (if s.exited && !s.done then t.result.exitCode == exitCode && t.result.failed == (waitError || s.errorAtExit)
          else t.result == s.result)
  {
  }

  // The other events leave the result alone.

  lemma TerminateSettlesNothing(s: State, timedOut: bool, reason: string)
    ensures SameResult(s, Step(s, Terminate(timedOut, reason)))
  {
  }

  lemma SignalSettlesNothing(s: State, error: bool)
    ensures SameResult(s, Step(s, SendTerm(error))) && SameResult(s, Step(s, SendKill(error)))
  {
  }

  lemma WaitSettlesNothing(s: State)
    ensures SameResult(s, Step(s, GraceEnds)) && SameResult(s, Step(s, SeeDone))
  {
  }

  predicate SameResult(s: State, t: State) {
    t.exited == s.exited && t.done == s.done && t.errorAtExit == s.errorAtExit && t.result == s.result
  }

  /** Wait can return exactly when the exit and then the rest of wait have happened. */
  lemma DoneExactly(events: seq<Event>)
    ensures Run(events).done <==> exists x, k :: FirstExit(events, x) && FirstSettle(events, x, k)
  {
    hide Run;
    var x, k := ResultSoFar(events);
    if Run(events).done {
      assert FirstExit(events, x) && FirstSettle(events, x, k);
    }
    if y, l :| FirstExit(events, y) && FirstSettle(events, y, l) {
      assert Run(events).exited;
      assert x == y;
    }
  }

  /** For every interleaving: the result has the exit code that the rest of wait found,
      and it failed exactly if that met an error or, by the exit, a signal could not be
      sent. */
  lemma ResultTells(events: seq<Event>, x: nat, k: nat)
    requires FirstExit(events, x) && FirstSettle(events, x, k)
    ensures Run(events).done
    ensures Run(events).result.exitCode == events[k].exitCode
    ensures Run(events).result.failed <==> events[k].waitError || SignalFailed(events[..x])
  {
    DoneExactly(events);
    SignalsExactly(events[..x]);
    var y, l := ResultSoFar(events);
    hide Run, SignalFailed;
    assert x == y;
    assert k == l;
  }

  // ----- the outcome reported for a result

  function OutcomeOf(r: Result): (RunStatus, Option<FinishReason>) {
    if r.timedOut then (TimedOut, None)
    else if r.cancelled then (Cancelled, if r.reason == AGENT_STOPPED then Some(AgentStopped) else None)
    else if r.exitCode == 0 && !r.failed then (Success, None)
    else (Failed, None)
  }

  /** A finished process is reported by what ended it: its timeout, the agent's own
      stop, a requested cancellation, or else its exit, at x, as the rest of wait, at k,
      found it. */
  lemma OutcomeTellsWhatEndedIt(events: seq<Event>, x: nat, k: nat)
    requires FirstExit(events, x) && FirstSettle(events, x, k)
    ensures
      var first := FirstTermination(events);
      var (status, reason) := OutcomeOf(Run(events).result);
      && (status == TimedOut <==> first.Some? && first.value.0)
      && (status == Cancelled <==> first.Some? && !first.value.0)
      && (reason == Some(AgentStopped) <==> first.Some? && !first.value.0 && first.value.1 == "agent_stopped")
      && (reason.Some? ==> reason.value == AgentStopped)
      && (status == Success <==> first.None? && events[k].exitCode == 0 && !events[k].waitError)
      && (status == Failed <==> first.None? && (events[k].exitCode != 0 || events[k].waitError))
  {
    FirstTerminationWins(events);
    ResultTells(events, x, k);
    SignalErrorsNeedATermination(events);
    ErrorsComeFromBefore(events, x);
  }

  /** Without a termination nothing had failed by the exit either. */
  lemma ErrorsComeFromBefore(events: seq<Event>, x: nat)
    requires x <= |events|
    ensures FirstTermination(events).None? ==> !SignalFailed(events[..x])
  {
    SignalsExactly(events[..x]);
    SignalErrorsNeedATermination(events[..x]);
    FirstTerminationPrefix(events[..x], events[x..]);
    assert events[..x] + events[x..] == events;
    hide Run, SignalFailed;
  }

  lemma {:induction false} FirstTerminationPrefix(a: seq<Event>, b: seq<Event>)
    ensures FirstTermination(a).Some? ==> FirstTermination(a + b) == FirstTermination(a)
    decreases |a|
  {
    if a != [] {
      assert (a + b)[0] == a[0] && (a + b)[1..] == a[1..] + b;
      FirstTerminationPrefix(a[1..], b);
    }
  }

  /** A signal that could not be sent never fails a run that ended by itself. */
  lemma {:induction false} SignalErrorsNeedATermination(events: seq<Event>)
    ensures FirstTermination(events).None? ==> !Run(events).terminateError && !Run(events).errorAtExit
    decreases |events|
  {
    hide Step, Tells;
    if events != [] {
      var before, e := events[..|events| - 1], events[|events| - 1];
      assert events == before + [e];
      SignalErrorsNeedATermination(before);
      FirstTerminationWins(before);
      FirstTerminationSnoc(before, e);
      StepFollows(Run(before), e, FirstTermination(before), Exited(before));
      PhaseTells(before);
    }
  }
}

module Runner {
  import Spec = RunnerSpec

  /** Each method is one critical section of the source's mutex, or the part of
      wait that runs after it. */
  class Process {
    var exited: bool
    var terminating: bool
    var timedOut: bool
    var cancelled: bool
    var reason: string
    var terminateError: bool
    var errorAtExit: bool
    var done: bool
    var result: Spec.Result
    var groups: nat
    var phase: Spec.Phase
    var signals: seq<Spec.Signal>

    ghost function View(): Spec.State
      reads this
    {
      Spec.State(exited, terminating, timedOut, cancelled, reason, terminateError, errorAtExit, done, result,
                 groups, phase, signals)
    }

    constructor ()
      ensures View() == Spec.START
    {
      exited, terminating, timedOut, cancelled, reason := false, false, false, false, "";
      terminateError, errorAtExit, done := false, false, false;
      result := Spec.Result(0, false, false, "", false);
      groups, phase, signals := 0, Spec.NotStarted, [];
    }

    method Terminate(timedOut: bool, reason: string)
      modifies this
      ensures View() == Spec.Step(old(View()), Spec.Terminate(timedOut, reason))
    {
      if exited || terminating {
        return;
      }
      terminating := true;
      this.timedOut := timedOut;
      cancelled := !timedOut;
      this.reason := reason;
      groups := groups + 1;
      phase := Spec.BeforeTerm;
    }

    method Cancel(reason: string)
      modifies this
      ensures View() == Spec.Step(old(View()), Spec.Terminate(false, reason))
    {
      Terminate(false, reason);
    }

    method TimeOut()
      modifies this
      ensures View() == Spec.Step(old(View()), Spec.Terminate(true, ""))
    {
      Terminate(true, "");
    }

    /** The critical section of wait, after the command has exited. */
    method Exit()
      requires !exited
      modifies this
      ensures View() == Spec.Step(old(View()), Spec.Exit)
    {
      exited := true;
      result := result.(timedOut := timedOut, cancelled := cancelled, reason := reason);
      errorAtExit := terminateError;
    }

    /** The rest of wait, up to closing done. */
    method Settle(exitCode: int, waitError: bool)
      requires exited && !done
      modifies this
      ensures View() == Spec.Step(old(View()), Spec.Settle(exitCode, waitError))
      ensures result.exitCode == exitCode && result.failed == (waitError || errorAtExit)
    {
      result := result.(exitCode := exitCode, failed := waitError);
      if !result.failed {
        result := result.(failed := errorAtExit);
      }
      done := true;
    }

    /** signalGroup: only the first error is kept. */
    method SignalGroup(signal: Spec.Signal, error: bool)
      modifies this`signals, this`terminateError
      ensures signals == old(signals) + [signal] && terminateError == (old(terminateError) || error)
    {
      signals := signals + [signal];
      if error && !terminateError {
        terminateError := true;
      }
    }

    // The steps of terminateGroup.

    method SendTerm(error: bool)
      requires phase == Spec.BeforeTerm
      modifies this
      ensures View() == Spec.Step(old(View()), Spec.SendTerm(error))
    {
      SignalGroup(Spec.SIGTERM, error);
      phase := Spec.Grace;
    }

    method GraceEnds()
      requires phase == Spec.Grace
      modifies this
      ensures View() == Spec.Step(old(View()), Spec.GraceEnds)
    {
      phase := Spec.BeforeKill;
    }

    method SendKill(error: bool)
      requires phase == Spec.BeforeKill
      modifies this
      ensures View() == Spec.Step(old(View()), Spec.SendKill(error))
    {
      SignalGroup(Spec.SIGKILL, error);
      phase := Spec.AfterKill;
    }

    /** Either wait ends once done is closed, and the goroutine returns. */
    method SeeDone()
      requires done && (phase == Spec.Grace || phase == Spec.AfterKill)
      modifies this
      ensures View() == Spec.Step(old(View()), Spec.SeeDone)
    {
      phase := Spec.Returned;
    }
  }
}

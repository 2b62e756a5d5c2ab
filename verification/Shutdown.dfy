/** internal/agent/signals.go and agent.go: a stop signal reaches every process and ends
    the polling, over the machine of Lifecycle. */
module Shutdown {
  import opened Options
  import opened Protocol
  import opened StateSpec
  import opened RegistrySpec
  import opened Lifecycle
  import opened Restart

  function Repeat(e: Event, n: nat): seq<Event> {
    if n == 0 then [] else Repeat(e, n - 1) + [e]
  }

  lemma RepeatStep(s: State, e: Event, n: nat)
    ensures Steps(s, Repeat(e, n + 1)) == Step(Steps(s, Repeat(e, n)), e)
  {
    hide Step;
    var events := Repeat(e, n + 1);
    assert events[..|events| - 1] == Repeat(e, n);
  }

  lemma NoSteps(s: State, e: Event)
    ensures Steps(s, Repeat(e, 0)) == s
  {
  }

  /** The signal and what its goroutine does with n processes. */
  function CancelAll(n: nat): seq<Event> {
    [SignalArrives] + Repeat(SignalCancels, n)
  }

  /** And how the poll thread then stops. */
  function StopPolling(n: nat): seq<Event> {
    [SignalStops, PollStops] + Repeat(DrainCancels, n)
  }

  ghost predicate CancelledUpTo(runs: seq<Entry>, n: nat) {
    n <= |runs| && forall i :: 0 <= i < n && runs[i].hasProcess ==> runs[i].cancelled
  }

  lemma SameRunsTwice(a: seq<Entry>, b: seq<Entry>, c: seq<Entry>)
    requires SameRuns(a, b) && SameRuns(b, c)
    ensures SameRuns(a, c)
  {
  }

  lemma OneCancelled(before: seq<Entry>, runs: seq<Entry>, n: nat)
    requires Distinct(before) && SameRuns(before, runs) && n < |before| && CancelledUpTo(runs, n)
    ensures
      var runs' := CancelFirst(runs, before[n]);
      SameRuns(before, runs') && CancelledUpTo(runs', n + 1)
  {
    CancelFirstCancels(runs, before[n]);
    SameRunsTwice(before, runs, CancelFirst(runs, before[n]));
    SameIds(before, runs);
    if runs[n].hasProcess {
      CancelFirstReaches(runs, before[n], n);
    }
  }

  lemma {:induction false} SignalCancelsAll(s: State, n: nat)
    requires s.up && s.thread == Ready && s.signal == Cancelling(s.registry) && Distinct(s.registry) && n <= |s.registry|
    ensures
      var t := Steps(s, Repeat(SignalCancels, n));
      && t == s.(signal := Cancelling(s.registry[n..]), registry := t.registry)
      && SameRuns(s.registry, t.registry) && CancelledUpTo(t.registry, n)
    decreases n
  {
    hide Step, Steps, Repeat, CancelFirst;
    if n == 0 {
      NoSteps(s, SignalCancels);
      assert s.registry[0..] == s.registry;
    } else {
      SignalCancelsAll(s, n - 1);
      RepeatStep(s, SignalCancels, n - 1);
      var t := Steps(s, Repeat(SignalCancels, n - 1));
      OneCancelled(s.registry, t.registry, n - 1);
      assert s.registry[n - 1..][0] == s.registry[n - 1] && s.registry[n - 1..][1..] == s.registry[n..];
      hide SameRuns, CancelledUpTo;
      SignalStep(t);
    }
  }

  lemma SignalStep(s: State)
    requires s.up && s.signal.Cancelling? && s.signal.left != []
    ensures Step(s, SignalCancels)
         == s.(signal := Cancelling(s.signal.left[1..]), registry := CancelFirst(s.registry, s.signal.left[0]))
  {
  }

  lemma {:induction false} DrainsAll(s: State, n: nat)
    requires s.up && s.thread.Stopping? && n <= |s.thread.left|
    ensures
      var t := Steps(s, Repeat(DrainCancels, n));
      t.up && t.thread == Stopping(s.thread.left[n..])
    decreases n
  {
    hide Step, Steps, Repeat;
    if n == 0 {
      NoSteps(s, DrainCancels);
      assert s.thread.left[0..] == s.thread.left;
    } else {
      DrainsAll(s, n - 1);
      RepeatStep(s, DrainCancels, n - 1);
      DrainStep(Steps(s, Repeat(DrainCancels, n - 1)));
      assert s.thread.left[n - 1..][1..] == s.thread.left[n..];
    }
  }

  lemma DrainStep(s: State)
    requires s.up && s.thread.Stopping?
    ensures
      var t := Step(s, DrainCancels);
      t.up && t.thread == if s.thread.left == [] then Waiting else Stopping(s.thread.left[1..])
  {
    hide CancelFirst;
  }

  lemma StopStep(s: State)
    requires s.up && s.thread == Ready && s.signal == Cancelling([])
    ensures Step(Step(s, SignalStops), PollStops) == s.(signal := StopSent, thread := Stopping(s.registry))
  {
    assert Step(s, SignalStops) == s.(signal := StopSent);
  }

  lemma FirstSignal(s: State)
    requires s.up && s.signal == NoSignal
    ensures Step(s, SignalArrives) == s.(signal := Cancelling(s.registry))
  {
  }

  lemma OneThen(s: State, e: Event, events: seq<Event>)
    ensures Steps(s, [e] + events) == Steps(Step(s, e), events)
    decreases |events|
  {
    hide Step;
    if events == [] {
      assert [e] + events == [e] && [e][..0] == [];
      assert Steps(s, [e]) == Step(Steps(s, []), e);
    } else {
      assert ([e] + events)[..|events|] == [e] + events[..|events| - 1];
      OneThen(s, e, events[..|events| - 1]);
    }
  }

  /** From every reachable state with the poll thread between two leases, a signal that
      nothing gets in the way of first cancels every process the agent owns, and then the
      thread stops polling, goes through them again and waits. */
  lemma SignalStopsAgent(limit: nat, events: seq<Event>)
    requires
      var s := Run(limit, events);
      s.up && s.thread == Ready && s.signal == NoSignal
    ensures
      var n := |Run(limit, events).registry|;
      var t := Run(limit, events + CancelAll(n));
      && SameRuns(Run(limit, events).registry, t.registry)
      && (forall i :: 0 <= i < |t.registry| && t.registry[i].hasProcess ==> t.registry[i].cancelled)
      && Run(limit, events + CancelAll(n) + StopPolling(n + 1)).thread == Waiting
  {
    hide Step, Inv, Run, Steps, Repeat, SameRuns;
    var s := Run(limit, events);
    var n := |s.registry|;
    EveryRunKeepsInv(limit, events);
    OwnsEachOnce(s);
    RunMore(limit, events, CancelAll(n));
    OneThen(s, SignalArrives, Repeat(SignalCancels, n));
    FirstSignal(s);
    SignalCancelsAll(s.(signal := Cancelling(s.registry)), n);
    var t := Run(limit, events + CancelAll(n));
    SameLength(s.registry, t.registry);
    assert s.registry[n..] == [];
    RunMore(limit, events + CancelAll(n), StopPolling(n + 1));
    Stops(t, n);
  }

  lemma OwnsEachOnce(s: State)
    requires Inv(s)
    ensures Distinct(s.registry)
  {
    InvMeans(s);
    EntriesDistinct(s);
  }

  lemma SameLength(a: seq<Entry>, b: seq<Entry>)
    requires SameRuns(a, b)
    ensures |a| == |b|
  {
  }

  lemma Stops(s: State, n: nat)
    requires s.up && s.thread == Ready && s.signal == Cancelling([]) && n == |s.registry|
    ensures Steps(s, StopPolling(n + 1)).thread == Waiting
  {
    hide Step, Steps, Repeat;
    var drains := Repeat(DrainCancels, n + 1);
    assert StopPolling(n + 1) == [SignalStops] + ([PollStops] + drains);
    OneThen(s, SignalStops, [PollStops] + drains);
    OneThen(Step(s, SignalStops), PollStops, drains);
    StopStep(s);
    var stopping := s.(signal := StopSent, thread := Stopping(s.registry));
    DrainsAll(stopping, n);
    RepeatStep(stopping, DrainCancels, n);
    assert s.registry[n..] == [];
    DrainStep(Steps(stopping, Repeat(DrainCancels, n)));
  }

  /** The Server's request to cancel reaches the process of the run, and nothing else. */
  lemma ServerCancelReaches(s: State, i: nat)
    requires s.up && i < |s.registry|
    ensures
      var t := Step(s, ServerCancels(i));
      && t == s.(registry := t.registry) && |t.registry| == |s.registry|
      && (forall k :: 0 <= k < |s.registry| && k != i ==> t.registry[k] == s.registry[k])
      && t.registry[i].id == s.registry[i].id
      && (t.registry[i].cancelled <==> s.registry[i].cancelled || s.registry[i].hasProcess)
  {
  }

  /** The last save of a stopping agent writes out what memory holds, but what it prunes. */
  lemma LastSaveSaves(s: State, save: Save)
    requires s.up && s.thread == Waiting && Sound(s.mem)
    ensures
      var t := Step(s, DrainSaves(save));
      && (save.ok ==> t.file == t.mem) && (!save.ok ==> t.file == s.file)
      && t.mem.active == s.mem.active && t.mem.machineId == s.mem.machineId
      && forall id :: RecentOutcome(t.mem, id) in {RecentOutcome(s.mem, id), None}
  {
    PruneForgetsOnly(s.mem, save.now);
    hide RecentOutcome, DeleteFunc, Newest, Dropped, Listed;
  }
}

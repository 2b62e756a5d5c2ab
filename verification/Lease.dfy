/** What has led to a process: internal/agent/lease.go, handleLease over the machine of
    Lifecycle, told from the events before it. */
module Lease {
  import opened Chunks
  import opened Options
  import opened Protocol
  import opened StateSpec
  import opened RegistrySpec
  import opened Lifecycle

  /** After the first n events. */
  function At(limit: nat, events: seq<Event>, n: nat): State
    requires n <= |events|
  {
    Run(limit, events[..n])
  }

  /** From the a-th event to the n-th the poll thread has not taken up another lease. */
  ghost predicate Busy(limit: nat, events: seq<Event>, a: nat, n: nat) {
    a < n <= |events| && forall q :: a < q <= n ==> At(limit, events, q).thread != Ready
  }

  /** The a-th event takes up a lease of a run the agent does not own. */
  ghost predicate TakesUp(limit: nat, events: seq<Event>, a: nat, id: RunId, cancelled: bool) {
    && a < |events| && events[a] == LookupOwned(id, cancelled)
    && At(limit, events, a).up && At(limit, events, a).thread == Ready && !Owns(At(limit, events, a).registry, id)
  }

  /** The b-th event finds no outcome of the run. */
  ghost predicate FindsNone(limit: nat, events: seq<Event>, b: nat, id: RunId) {
    b < |events| && events[b] == LookupRecent && RecentOutcome(At(limit, events, b).mem, id).None?
  }

  /** The i-th event finds the lease valid. */
  ghost predicate Validates(events: seq<Event>, i: nat) {
    i < |events| && events[i] == Verify(true)
  }

  ghost predicate HasSlot(limit: nat, events: seq<Event>, i: nat)
    requires i <= |events|
  {
    |At(limit, events, i).registry| < limit
  }

  // ----- how the thread comes to each of its places

  lemma ThreadStays(s: State, e: Event)
    ensures e.ReporterFinishes? || e.DrainSaves? ==> !s.up || Step(s, e).thread == s.thread
  {
    hide Finished, Saved, Prune;
    match e
    case ReporterFinishes(i, finishedAt, save) =>
      if Finishing(s, i) {
        FinishedElsewhere(s, s.registry[i].id, s.registry[i].outcome.value, finishedAt, save);
      }
    case DrainSaves(save) => SavedElsewhere(s, Prune(s.mem, save.now), save);
    case _ =>
  }

  lemma ComesToNotOwned(s: State, e: Event)
    requires Step(s, e).thread.NotOwned?
    ensures
      var t := Step(s, e).thread;
      || s.thread == t
      || (s.up && s.thread == Ready && e == LookupOwned(t.id, t.cancelled) && !Owns(s.registry, t.id))
  {
    ThreadStays(s, e);
    hide RecentOutcome, IsActive, Finished, Saved, Adopt, CancelFirst, Remove;
  }

  lemma ComesToNotRecent(s: State, e: Event)
    requires Step(s, e).thread.NotRecent?
    ensures
      var t := Step(s, e).thread;
      || s.thread == t
      || (s.thread == NotOwned(t.id, t.cancelled) && e == LookupRecent && RecentOutcome(s.mem, t.id).None?)
  {
    ThreadStays(s, e);
    hide RecentOutcome, IsActive, Finished, Saved, Adopt, CancelFirst, Remove;
  }

  lemma ComesToStarting(s: State, e: Event)
    requires Step(s, e).thread.Starting?
    ensures
      var t := Step(s, e).thread;
      s.thread == t || (s.thread == NotRecent(t.id, false) && e == Verify(true) && |s.registry| < s.limit)
  {
    ThreadStays(s, e);
    hide RecentOutcome, IsActive, Finished, Saved, Adopt, CancelFirst, Remove;
  }

  lemma ComesToAccepted(s: State, e: Event)
    requires Step(s, e).thread.StartAccepted?
    ensures
      var t := Step(s, e).thread;
      s.thread == t || (s.thread == Starting(t.id) && e == StartAnswered(true))
  {
    ThreadStays(s, e);
    hide RecentOutcome, IsActive, Finished, Saved, Adopt, CancelFirst, Remove;
  }

  lemma BusyLonger(limit: nat, events: seq<Event>, a: nat, n: nat)
    requires a <= n < |events| && (a == n || Busy(limit, events, a, n))
    requires At(limit, events, n + 1).thread != Ready
    ensures Busy(limit, events, a, n + 1)
  {
    hide Run;
  }

  lemma OneStep(limit: nat, events: seq<Event>, n: nat)
    requires n < |events|
    ensures At(limit, events, n + 1) == Step(At(limit, events, n), events[n])
  {
    RunStep(limit, events, n);
  }

  lemma Initially(limit: nat, events: seq<Event>)
    ensures At(limit, events, 0).thread == Ready && At(limit, events, 0).limit == limit
  {
    assert events[..0] == [];
  }

  // ----- and from there back to the lease

  lemma {:induction false} FromNotOwned(limit: nat, events: seq<Event>, n: nat) returns (a: nat)
    requires n <= |events| && At(limit, events, n).thread.NotOwned?
    ensures
      var t := At(limit, events, n).thread;
      a < n && TakesUp(limit, events, a, t.id, t.cancelled) && Busy(limit, events, a, n)
    decreases n
  {
    hide Step, Busy, TakesUp, Run;
    Initially(limit, events);
    var m := n - 1;
    OneStep(limit, events, m);
    ComesToNotOwned(At(limit, events, m), events[m]);
    if At(limit, events, m).thread == At(limit, events, n).thread {
      a := FromNotOwned(limit, events, m);
    } else {
      a := m;
      TakesUpNow(limit, events, a);
    }
    BusyLonger(limit, events, a, m);
  }

  lemma TakesUpNow(limit: nat, events: seq<Event>, a: nat)
    requires a < |events| && events[a].LookupOwned? && !Owns(At(limit, events, a).registry, events[a].id)
    requires At(limit, events, a).up && At(limit, events, a).thread == Ready
    ensures TakesUp(limit, events, a, events[a].id, events[a].cancelled)
  {
    hide Run;
  }

  lemma {:induction false} FromNotRecent(limit: nat, events: seq<Event>, n: nat) returns (a: nat, b: nat)
    requires n <= |events| && At(limit, events, n).thread.NotRecent?
    ensures
      var t := At(limit, events, n).thread;
      && a < b < n && TakesUp(limit, events, a, t.id, t.cancelled) && FindsNone(limit, events, b, t.id)
      && Busy(limit, events, a, n)
    decreases n
  {
    hide Step, Busy, TakesUp, Run, RecentOutcome;
    Initially(limit, events);
    var m := n - 1;
    OneStep(limit, events, m);
    ComesToNotRecent(At(limit, events, m), events[m]);
    if At(limit, events, m).thread == At(limit, events, n).thread {
      a, b := FromNotRecent(limit, events, m);
    } else {
      a := FromNotOwned(limit, events, m);
      b := m;
    }
    BusyLonger(limit, events, a, m);
  }

  lemma {:induction false} FromStarting(limit: nat, events: seq<Event>, n: nat) returns (a: nat, b: nat, i: nat)
    requires n <= |events| && At(limit, events, n).thread.Starting?
    ensures
      var id := At(limit, events, n).thread.id;
      && a < b < i < n && TakesUp(limit, events, a, id, false) && FindsNone(limit, events, b, id)
      && Validates(events, i) && HasSlot(limit, events, i) && Busy(limit, events, a, n)
    decreases n
  {
    hide Step, Busy, TakesUp, FindsNone, Run;
    Initially(limit, events);
    var m := n - 1;
    OneStep(limit, events, m);
    ComesToStarting(At(limit, events, m), events[m]);
    if At(limit, events, m).thread == At(limit, events, n).thread {
      a, b, i := FromStarting(limit, events, m);
    } else {
      a, b := FromNotRecent(limit, events, m);
      i := m;
      EveryRunKeepsInv(limit, events[..m]);
    }
    BusyLonger(limit, events, a, m);
  }

  lemma {:induction false} FromAccepted(limit: nat, events: seq<Event>, n: nat)
    returns (a: nat, b: nat, i: nat, j: nat)
    requires n <= |events| && At(limit, events, n).thread.StartAccepted?
    ensures
      var id := At(limit, events, n).thread.id;
      && a < b < i < j < n && TakesUp(limit, events, a, id, false) && FindsNone(limit, events, b, id)
      && Validates(events, i) && HasSlot(limit, events, i) && events[j] == StartAnswered(true)
      && Busy(limit, events, a, n)
    decreases n
  {
    hide Step, Busy, TakesUp, FindsNone, Run, Validates, HasSlot;
    Initially(limit, events);
    var m := n - 1;
    OneStep(limit, events, m);
    ComesToAccepted(At(limit, events, m), events[m]);
    if At(limit, events, m).thread == At(limit, events, n).thread {
      a, b, i, j := FromAccepted(limit, events, m);
    } else {
      a, b, i := FromStarting(limit, events, m);
      j := m;
    }
    BusyLonger(limit, events, a, m);
  }

  /** Over whole runs, however the threads interleave: a process is started only for a
      lease, not cancelled, that the poll thread took up for a run it did not own, found
      no outcome of, found valid with a slot free, and that the Server let it start, one
      after the other and without taking up another lease in between. */
  lemma ExecutedIsLeased(limit: nat, events: seq<Event>, k: nat, id: RunId) returns (a: nat, b: nat, i: nat, j: nat)
    requires Executes(limit, events, k, id)
    ensures a < b < i < j < k
    ensures events[a] == LookupOwned(id, false) && !Owns(Run(limit, events[..a]).registry, id)
    ensures events[b] == LookupRecent && RecentOutcome(Run(limit, events[..b]).mem, id).None?
    ensures events[i] == Verify(true) && |Run(limit, events[..i]).registry| < limit
    ensures events[j] == StartAnswered(true)
    ensures forall q :: a < q <= k ==> Run(limit, events[..q]).thread != Ready
  {
    hide Run, RecentOutcome;
    a, b, i, j := FromAccepted(limit, events, k);
    forall q | a < q <= k ensures Run(limit, events[..q]).thread != Ready {
      assert At(limit, events, q).thread != Ready;
    }
  }

  // ----- what the agent takes on

  /** A started process is marked active and owned, whether or not that is saved. */
  lemma SpawnedIsOwned(s: State, id: RunId, run: ActiveRun, save: Save)
    requires Inv(s) && s.up && s.thread == StartAccepted(id)
    ensures
      var t := Step(Step(Step(s, Spawn(true, run)), RecordActive(save)), Launch);
      && t.thread == Ready && t.registry == s.registry + [Entry(id, true, true, false, None, false)]
      && run.(runId := id) in t.mem.active && IsActive(t.mem, id)
      && (save.ok ==> t.file == t.mem) && (!save.ok ==> t.file == s.file)
  {
    var active := run.(runId := id);
    MarksActive(s, active, save.now);
    hide MarkActive, IsActive, Inv, Step;
    var spawned := Step(s, Spawn(true, run));
    SpawnStep(s, id, run);
    RecordStep(spawned, active, save);
    LaunchStep(Step(spawned, RecordActive(save)), Launch);
  }

  lemma SpawnStep(s: State, id: RunId, run: ActiveRun)
    requires s.up && s.thread == StartAccepted(id)
    ensures
      var t := Step(s, Spawn(true, run));
      && t.up && t.thread == Thread.Spawned(run.(runId := id))
      && t.mem == s.mem && t.file == s.file && t.registry == s.registry
  {
  }

  lemma RecordStep(s: State, run: ActiveRun, save: Save)
    requires s.up && s.thread == Thread.Spawned(run)
    ensures
      var t := Step(s, RecordActive(save));
      && t.up && t.thread == Launching(Entry(run.runId, true, true, false, None, false))
      && t.mem == MarkActive(s.mem, run, save.now) && t.registry == s.registry
      && (save.ok ==> t.file == t.mem) && (!save.ok ==> t.file == s.file)
  {
    hide MarkActive, Dropped, Listed;
  }

  lemma MarksActive(s: State, run: ActiveRun, now: int)
    requires Inv(s)
    ensures var t := MarkActive(s.mem, run, now); run in t.active && IsActive(t, run.runId)
  {
    assert Sound(s.mem);
    hide Inv, MarkActive, IsActive, RecentOutcome;
    MarkActiveFacts(s.mem, run, now);
    ActiveEntries(s.mem, run, Outcome(Success, None, None, None), 0, now);
  }

  /** A process that could not be started is owned without one, its start accepted, to be
      finished as failed. */
  lemma RefusedSpawnIsOwned(s: State, id: RunId, run: ActiveRun)
    requires s.up && s.thread == StartAccepted(id)
    ensures
      Step(Step(s, Spawn(false, run)), Launch)
        == s.(thread := Ready, registry := s.registry + [Entry(id, false, true, false, None, false)])
  {
    var refused := s.(thread := Launching(Entry(id, false, true, false, None, false)));
    assert Step(s, Spawn(false, run)) == refused;
  }
}

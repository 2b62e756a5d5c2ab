/** When exactly a lease makes the agent execute a run, and what a restart tells the
    Server about the runs of the agent before it: internal/agent/lease.go and
    internal/agent/startup.go over the machine of Lifecycle. */
module Restart {
  import opened Chunks
  import opened Options
  import opened Protocol
  import opened StateSpec
  import opened Pruning
  import opened RegistrySpec
  import opened Lifecycle

  function Steps(s: State, events: seq<Event>): State {
    if events == [] then s else Step(Steps(s, events[..|events| - 1]), events[|events| - 1])
  }

  lemma {:induction false} RunMore(limit: nat, a: seq<Event>, b: seq<Event>)
    ensures Run(limit, a + b) == Steps(Run(limit, a), b)
    decreases |b|
  {
    hide Step;
    if b == [] {
      assert a + b == a;
    } else {
      assert (a + b)[..|a + b| - 1] == a + b[..|b| - 1];
      RunMore(limit, a, b[..|b| - 1]);
    }
  }

  lemma {:induction false} StepsKeepInv(s: State, events: seq<Event>)
    requires Inv(s)
    ensures Inv(Steps(s, events)) && Steps(s, events).limit == s.limit
    decreases |events|
  {
    hide Inv, Step;
    if events != [] {
      var before := events[..|events| - 1];
      StepsKeepInv(s, before);
      StepKeepsInv(Steps(s, before), events[|events| - 1]);
      StepKeepsLimit(Steps(s, before), events[|events| - 1]);
    }
  }

  lemma TwoSteps(s: State, a: Event, b: Event)
    ensures Steps(s, [a, b]) == Step(Step(s, a), b)
  {
    hide Step;
    assert [a, b][..1] == [a] && [a][..0] == [];
    assert Steps(s, [a]) == Step(Steps(s, []), a);
  }

  lemma ThreeSteps(s: State, a: Event, b: Event, c: Event)
    ensures Steps(s, [a, b, c]) == Step(Step(Step(s, a), b), c)
  {
    hide Step;
    var events := [a, b, c];
    assert |events| == 3 && events[2] == c && events[..2] == [a, b];
    TwoSteps(s, a, b);
  }

  lemma FourSteps(s: State, a: Event, b: Event, c: Event, d: Event)
    ensures Steps(s, [a, b, c, d]) == Step(Step(Step(Step(s, a), b), c), d)
  {
    hide Step;
    var events := [a, b, c, d];
    assert |events| == 4 && events[3] == d && events[..3] == [a, b, c];
    ThreeSteps(s, a, b, c);
  }

  // ----- when a lease is taken on

  /** A valid lease whose start the Server accepts. */
  function Lease(id: RunId): seq<Event> {
    [LookupOwned(id, false), LookupRecent, Verify(true), StartAnswered(true)]
  }

  // The four steps of a lease that nothing stands in the way of.

  lemma NotOwnedStep(s: State, id: RunId)
    requires s.up && s.thread == Ready && !Owns(s.registry, id)
    ensures Step(s, LookupOwned(id, false)) == s.(thread := NotOwned(id, false))
  {
  }

  lemma NotRecentStep(s: State, id: RunId)
    requires s.up && s.thread == NotOwned(id, false) && RecentOutcome(s.mem, id).None?
    ensures Step(s, LookupRecent) == s.(thread := NotRecent(id, false))
  {
    hide RecentOutcome;
  }

  lemma VerifyStep(s: State, id: RunId)
    requires s.up && s.thread == NotRecent(id, false) && !IsActive(s.mem, id) && |s.registry| < s.limit
    ensures Step(s, Verify(true)) == s.(thread := Starting(id))
  {
    hide IsActive;
  }

  lemma StartStep(s: State, id: RunId)
    requires s.up && s.thread == Starting(id)
    ensures Step(s, StartAnswered(true)) == s.(thread := StartAccepted(id))
  {
  }

  lemma LeaseGoes(s: State, id: RunId)
    requires s.up && s.thread == Ready && |s.registry| < s.limit && !Owns(s.registry, id) && !Known(s.mem, id)
    ensures Steps(s, Lease(id)) == s.(thread := StartAccepted(id))
  {
    hide Step, Steps, RecentOutcome, IsActive;
    FourSteps(s, LookupOwned(id, false), LookupRecent, Verify(true), StartAnswered(true));
    NotOwnedStep(s, id);
    NotRecentStep(s.(thread := NotOwned(id, false)), id);
    VerifyStep(s.(thread := NotRecent(id, false)), id);
    StartStep(s.(thread := Starting(id)), id);
  }

  // What does stand in the way leaves the thread ready for the next lease.

  lemma ReadyStays(s: State)
    requires s.up && s.thread == Ready
    ensures Step(s, LookupRecent) == s && Step(s, Verify(true)) == s && Step(s, StartAnswered(true)) == s
  {
  }

  lemma OwnedStep(s: State, id: RunId)
    requires s.up && s.thread == Ready && Owns(s.registry, id)
    ensures Step(s, LookupOwned(id, false)) == s
  {
  }

  lemma RecentStep(s: State, id: RunId)
    requires s.up && s.thread == NotOwned(id, false) && RecentOutcome(s.mem, id).Some?
    ensures Step(s, LookupRecent) == s.(thread := Ready)
  {
    hide RecentOutcome;
  }

  lemma ActiveStep(s: State, id: RunId)
    requires s.up && s.thread == NotRecent(id, false) && IsActive(s.mem, id)
    ensures Step(s, Verify(true)) == s.(thread := Ready)
  {
    hide IsActive;
  }

  /** Exactly the runs the agent neither owns nor has on record get a process. */
  lemma LeaseExactly(s: State, id: RunId)
    requires s.up && s.thread == Ready && |s.registry| < s.limit
    ensures Steps(s, Lease(id)).thread == StartAccepted(id) <==> !Owns(s.registry, id) && !Known(s.mem, id)
  {
    hide Step, Steps, RecentOutcome, IsActive;
    FourSteps(s, LookupOwned(id, false), LookupRecent, Verify(true), StartAnswered(true));
    ReadyStays(s);
    assert s.(thread := Ready) == s;
    if Owns(s.registry, id) {
      OwnedStep(s, id);
    } else {
      NotOwnedStep(s, id);
      if RecentOutcome(s.mem, id).Some? {
        RecentStep(s.(thread := NotOwned(id, false)), id);
      } else {
        NotRecentStep(s.(thread := NotOwned(id, false)), id);
        if IsActive(s.mem, id) {
          ActiveStep(s.(thread := NotRecent(id, false)), id);
        } else {
          LeaseGoes(s, id);
        }
      }
    }
  }

  // ----- the same lease while the rest of the agent goes on

  /** What other threads may do between two steps of the poll thread. */
  predicate OfOthers(e: Event) {
    || e.ReportLost? || e.ReporterDecides? || e.ReporterSends? || e.ReporterFinishes? || e.ReporterLeaves?
    || e.ServerCancels? || e.SignalArrives? || e.SignalCancels? || e.SignalStops?
  }

  predicate AllOfOthers(events: seq<Event>) {
    forall k :: 0 <= k < |events| ==> OfOthers(events[k])
  }

  /** The poll thread stays where it is, and no slot is taken. */
  ghost predicate Undisturbed(s: State, t: State) {
    t.up == s.up && t.thread == s.thread && t.limit == s.limit && |t.registry| <= |s.registry|
  }

  lemma OtherStep(s: State, e: Event)
    requires OfOthers(e) && s.up
    ensures Undisturbed(s, Step(s, e))
  {
    hide IsActive, RecentOutcome, Dropped, Listed, MarkFinished;
    match e
    case ReporterFinishes(i, finishedAt, save) =>
      if Finishing(s, i) {
        FinishedElsewhere(s, s.registry[i].id, s.registry[i].outcome.value, finishedAt, save);
      }
    case ReporterLeaves(i) =>
      if i < |s.registry| {
        RemoveShortens(s.registry, s.registry[i].id);
      }
    case SignalCancels =>
      if s.signal.Cancelling? && s.signal.left != [] {
        CancelFirstCancels(s.registry, s.signal.left[0]);
      }
    case _ =>
  }

  lemma {:induction false} RemoveShortens(runs: seq<Entry>, id: RunId)
    ensures |Remove(runs, id)| <= |runs|
    decreases |runs|
  {
    if runs != [] {
      RemoveShortens(runs[1..], id);
    }
  }

  lemma {:induction false} OthersLeaveThread(s: State, events: seq<Event>)
    requires AllOfOthers(events) && s.up
    ensures Undisturbed(s, Steps(s, events))
    decreases |events|
  {
    hide Step;
    if events != [] {
      OthersLeaveThread(s, events[..|events| - 1]);
      OtherStep(Steps(s, events[..|events| - 1]), events[|events| - 1]);
    }
  }

  /** One step of the poll thread, and what others do after it. */
  lemma OneAndOthers(limit: nat, events: seq<Event>, e: Event, others: seq<Event>)
    requires AllOfOthers(others) && Step(Run(limit, events), e).up
    ensures Undisturbed(Step(Run(limit, events), e), Run(limit, events + [e] + others))
  {
    hide Step, Steps;
    assert (events + [e])[..|events|] == events;
    RunMore(limit, events + [e], others);
    OthersLeaveThread(Run(limit, events + [e]), others);
  }

  lemma LookupOwnedExactly(s: State, id: RunId, cancelled: bool)
    requires s.up && s.thread == Ready
    ensures
      var t := Step(s, LookupOwned(id, cancelled));
      t.up && t.thread == if Owns(s.registry, id) then Ready else NotOwned(id, cancelled)
  {
  }

  lemma LookupRecentExactly(s: State, id: RunId, cancelled: bool)
    requires s.up && (s.thread == Ready || s.thread == NotOwned(id, cancelled))
    ensures
      var t := Step(s, LookupRecent);
      && t.up
      && t.thread == if s.thread == Ready || RecentOutcome(s.mem, id).Some? then Ready else NotRecent(id, cancelled)
  {
    hide RecentOutcome;
  }

  lemma VerifyExactly(s: State, id: RunId, cancelled: bool, valid: bool)
    requires s.up && (s.thread == Ready || s.thread == NotRecent(id, cancelled))
    requires s.thread.NotRecent? ==> !IsActive(s.mem, id)
    ensures
      var t := Step(s, Verify(valid));
      && t.up
      && t.thread ==
           if s.thread == Ready || !valid then Ready
           else if cancelled then Launching(Entry(id, false, false, false, None, false))
           else if |s.registry| < s.limit then Starting(id)
           else Ready
  {
    hide IsActive;
  }

  lemma StartExactly(s: State, id: RunId, ok: bool)
    requires s.up && (s.thread == Ready || s.thread.Launching? || s.thread == Starting(id))
    ensures Step(s, StartAnswered(ok)).thread == StartAccepted(id) <==> s.thread == Starting(id) && ok
    ensures s.thread == Starting(id) && !ok ==> Step(s, StartAnswered(ok)).thread == Ready
  {
  }

  function LookedUp(events: seq<Event>, id: RunId, cancelled: bool, a: seq<Event>): seq<Event> {
    events + [LookupOwned(id, cancelled)] + a
  }

  /** In every reachable state that takes up a lease, whatever the lease is, and whatever
      reporters and signals do between its steps: the agent executes the run if and only
      if the run is not owned when the registry is looked up, has no outcome on record when
      the store is, the lease is valid and not cancelled, a slot is free then, and the
      Server accepts the start. It is registered without a process, to be finished as
      cancelled, if and only if it is cancelled and otherwise the same up to there. That
      the run might still be active is never what stops it. */
  lemma LeaseRunsExactly(limit: nat, events: seq<Event>, id: RunId, cancelled: bool, a: seq<Event>,
                         b: seq<Event>, valid: bool, c: seq<Event>, ok: bool)
    requires Run(limit, events).up && Run(limit, events).thread == Ready
    requires AllOfOthers(a) && AllOfOthers(b) && AllOfOthers(c)
    ensures
      var found := LookedUp(events, id, cancelled, a);
      var looked := found + [LookupRecent] + b;
      var verified := looked + [Verify(valid)] + c;
      var unknown := !Owns(Run(limit, events).registry, id) && RecentOutcome(Run(limit, found).mem, id).None?;
      && (Run(limit, verified + [StartAnswered(ok)]).thread == StartAccepted(id) <==>
            unknown && valid && !cancelled && |Run(limit, looked).registry| < limit && ok)
      && (Run(limit, verified).thread == Launching(Entry(id, false, false, false, None, false)) <==>
            unknown && valid && cancelled)
  {
    hide Step, Inv, RecentOutcome, IsActive, Run, AllOfOthers, Owns;
    var found := LookedUp(events, id, cancelled, a);
    LookupOwnedExactly(Run(limit, events), id, cancelled);
    OneAndOthers(limit, events, LookupOwned(id, cancelled), a);
    var looked := found + [LookupRecent] + b;
    LookupRecentExactly(Run(limit, found), id, cancelled);
    OneAndOthers(limit, found, LookupRecent, b);
    var verified := looked + [Verify(valid)] + c;
    VerifyNeverSeesActive(limit, looked);
    EveryRunKeepsInv(limit, looked);
    VerifyExactly(Run(limit, looked), id, cancelled, valid);
    OneAndOthers(limit, looked, Verify(valid), c);
    StartExactly(Run(limit, verified), id, ok);
    LastStep(limit, verified, StartAnswered(ok));
  }

  lemma LastStep(limit: nat, events: seq<Event>, e: Event)
    ensures Run(limit, events + [e]) == Step(Run(limit, events), e)
  {
    assert (events + [e])[..|events|] == events;
  }

  // ----- a restart on the same machine

  /** A crash, if the agent is running, and a start. */
  function Reboot(machineId: string, moved: bool, save: Save): seq<Event> {
    [Crash, Boot(machineId, moved, save)]
  }

  /** The machine is the one the file is of, or the file is of none yet. */
  predicate SameMachine(file: Contents, machineId: string) {
    machineId != "" && file.machineId in {"", machineId}
  }

  lemma RebootReloads(s: State, machineId: string, moved: bool, save: Save)
    requires Inv(s) && Named(s) && SameMachine(s.file, machineId)
    ensures
      var t := Steps(s, Reboot(machineId, moved, save));
      && Inv(t) && t.up && t.mem == s.file.(machineId := machineId) && t.thread == Reconciling(s.file.active)
      && t.registry == [] && t.lost == map[] && t.limit == s.limit
  {
    hide Inv, Step;
    StepsKeepInv(s, Reboot(machineId, moved, save));
    TwoSteps(s, Crash, Boot(machineId, moved, save));
    GoesDown(s);
    ComesUp(Step(s, Crash), machineId, moved, save);
  }

  lemma GoesDown(s: State)
    requires Inv(s)
    ensures
      var t := Step(s, Crash);
      !t.up && t.file == s.file && t.registry == [] && t.lost == map[] && t.limit == s.limit
  {
    hide Sound, EntriesKnow, ThreadKnows, HistoryKnown, Processes;
  }

  lemma ComesUp(s: State, machineId: string, moved: bool, save: Save)
    requires !s.up && SameMachine(s.file, machineId)
    requires s.file.machineId == "" ==> s.file.active == [] && s.file.recent == []
    ensures
      var t := Step(s, Boot(machineId, moved, save));
      && t.up && t.mem == s.file.(machineId := machineId) && t.thread == Reconciling(s.file.active)
      && t.registry == s.registry && t.lost == s.lost && t.limit == s.limit
  {
    hide RecentOutcome, Dropped, Listed;
  }

  /** Reports the runs left active as lost, with the clock readings and saves given. */
  function Reconciles(rs: seq<(int, Save)>): seq<Event> {
    seq(|rs|, i requires 0 <= i < |rs| => ReconcileNext(rs[i].0, rs[i].1))
  }

  lemma ReconcilesSnoc(s: State, rs: seq<(int, Save)>)
    requires rs != []
    ensures
      var last := rs[|rs| - 1];
      Steps(s, Reconciles(rs)) == Step(Steps(s, Reconciles(rs[..|rs| - 1])), ReconcileNext(last.0, last.1))
  {
    hide Step;
    assert Reconciles(rs)[..|rs| - 1] == Reconciles(rs[..|rs| - 1]);
  }

  /** The records the reconciliation makes, and its clock readings. */
  function LostRuns(todo: seq<ActiveRun>, rs: seq<(int, Save)>): (done: seq<RecentRun>)
    requires |rs| <= |todo|
    ensures |done| == |rs|
  {
    seq(|rs|, i requires 0 <= i < |rs| => RecentRun(todo[i].runId, LostOutcome(todo[i]), rs[i].0))
  }

  function Clock(rs: seq<(int, Save)>): (clock: seq<int>)
    ensures |clock| == |rs|
  {
    seq(|rs|, i requires 0 <= i < |rs| => rs[i].1.now)
  }

  lemma ReconcileStep(s: State, finishedAt: int, save: Save)
    requires Inv(s) && s.up && s.thread.Reconciling? && s.thread.todo != []
    ensures
      var (t, run) := (Step(s, ReconcileNext(finishedAt, save)), s.thread.todo[0]);
      && t.up && t.thread == Reconciling(s.thread.todo[1..]) && t.registry == s.registry && t.limit == s.limit
      && t.lost == s.lost[run.runId := run]
      && t.mem == MarkFinished(s.mem, run.runId, LostOutcome(run), finishedAt, save.now)
      && (forall id :: id != run.runId ==> RecentOutcome(t.mem, id) in {RecentOutcome(s.mem, id), None})
      && (RecentOutcome(t.mem, run.runId).Some? ==> RecentOutcome(t.mem, run.runId).value.outcome == LostOutcome(run))
  {
    FinishedStore(s, s.thread.todo[0].runId, LostOutcome(s.thread.todo[0]), finishedAt, save);
    hide IsActive, RecentOutcome, Finished, Sound, EntriesKnow, HistoryKnown, Logs, MarkFinished;
    var run := s.thread.todo[0];
    FinishedElsewhere(s, run.runId, LostOutcome(run), finishedAt, save);
    var gone := FinishedRecords(s, run.runId, LostOutcome(run), finishedAt, save);
    assert IsActive(s.mem, run.runId);
  }

  /** What the reconciliation has done when `rs` has been worked off. */
  ghost predicate Reconciled(s: State, rs: seq<(int, Save)>)
    requires s.thread.Reconciling? && |rs| <= |s.thread.todo|
  {
    var (t, todo) := (Steps(s, Reconciles(rs)), s.thread.todo);
    && t.up && t.thread == Reconciling(todo[|rs|..]) && t.registry == s.registry && t.limit == s.limit
    && (forall i :: 0 <= i < |rs| ==> todo[i].runId in t.lost && t.lost[todo[i].runId] == todo[i])
    && (forall i :: 0 <= i < |rs| ==> Told(t.mem, todo[i].runId, LostOutcome(todo[i])))
    && (forall id :: Spared(id, todo[..|rs|]) ==> RecentOutcome(t.mem, id) in {RecentOutcome(s.mem, id), None})
  }

  /** If the store has an outcome of the run, it is this one. */
  predicate Told(c: Contents, id: RunId, outcome: Outcome) {
    RecentOutcome(c, id).Some? ==> RecentOutcome(c, id).value.outcome == outcome
  }

  ghost predicate Spared(id: RunId, done: seq<ActiveRun>) {
    forall i :: 0 <= i < |done| ==> done[i].runId != id
  }

  lemma {:induction false} ReconcilesAll(s: State, rs: seq<(int, Save)>)
    requires Inv(s) && s.up && s.thread.Reconciling? && |rs| <= |s.thread.todo|
    ensures Reconciled(s, rs) && Inv(Steps(s, Reconciles(rs)))
    decreases |rs|
  {
    hide Step, RecentOutcome, Inv, Reconciled;
    StepsKeepInv(s, Reconciles(rs));
    if rs == [] {
      ReconciledNone(s);
      assert rs == [];
    } else {
      ReconcilesAll(s, rs[..|rs| - 1]);
      StepsKeepInv(s, Reconciles(rs[..|rs| - 1]));
      ReconciledMore(s, rs);
    }
  }

  lemma ReconciledNone(s: State)
    requires s.up && s.thread.Reconciling?
    ensures Reconciled(s, [])
  {
    hide Step, RecentOutcome;
    assert Reconciles([]) == [];
    assert s.thread.todo[0..] == s.thread.todo;
  }

  lemma ReconciledMore(s: State, rs: seq<(int, Save)>)
    requires Inv(s) && s.thread.Reconciling? && rs != [] && |rs| <= |s.thread.todo|
    requires Reconciled(s, rs[..|rs| - 1]) && Inv(Steps(s, Reconciles(rs[..|rs| - 1])))
    ensures Reconciled(s, rs)
  {
    hide Step, Steps, RecentOutcome, Inv, Known, MarkFinished;
    var before, last := rs[..|rs| - 1], rs[|rs| - 1];
    ReconcilesSnoc(s, rs);
    var (b, todo) := (Steps(s, Reconciles(before)), s.thread.todo);
    ReconcileStep(b, last.0, last.1);
    DistinctTodo(s);
    assert todo[|before|..][0] == todo[|before|] && todo[|before|..][1..] == todo[|rs|..];
    assert todo[..|rs|] == todo[..|before|] + [todo[|before|]];
  }

  lemma DistinctTodo(s: State)
    requires Inv(s) && s.thread.Reconciling?
    ensures DistinctActive(s.thread.todo)
  {
    hide Sound, EntriesKnow, HistoryKnown;
  }

  lemma MarksMore(c: Contents, todo: seq<ActiveRun>, rs: seq<(int, Save)>)
    requires rs != [] && |rs| <= |todo|
    ensures
      var (n, before) := (|rs| - 1, rs[..|rs| - 1]);
      Marks(c, LostRuns(todo, rs), Clock(rs)) ==
        MarkFinished(Marks(c, LostRuns(todo, before), Clock(before)),
                     todo[n].runId, LostOutcome(todo[n]), rs[n].0, rs[n].1.now)
  {
    hide MarkFinished;
    var n := |rs| - 1;
    assert LostRuns(todo, rs)[..n] == LostRuns(todo, rs[..n]) && Clock(rs)[..n] == Clock(rs[..n]);
  }

  /** In memory, exactly the outcomes of the runs worked off have been recorded. */
  lemma {:induction false} ReconcilesMark(s: State, rs: seq<(int, Save)>)
    requires Inv(s) && s.up && s.thread.Reconciling? && |rs| <= |s.thread.todo|
    ensures Steps(s, Reconciles(rs)).mem == Marks(s.mem, LostRuns(s.thread.todo, rs), Clock(rs))
    decreases |rs|
  {
    if rs != [] {
      var before := rs[..|rs| - 1];
      ReconcilesMark(s, before);
      ReconcilesAll(s, before);
      MarksNext(s, rs);
    }
  }

  lemma MarksNext(s: State, rs: seq<(int, Save)>)
    requires s.thread.Reconciling? && rs != [] && |rs| <= |s.thread.todo|
    requires
      var before := rs[..|rs| - 1];
      && Inv(Steps(s, Reconciles(before))) && Reconciled(s, before)
      && Steps(s, Reconciles(before)).mem == Marks(s.mem, LostRuns(s.thread.todo, before), Clock(before))
    ensures Steps(s, Reconciles(rs)).mem == Marks(s.mem, LostRuns(s.thread.todo, rs), Clock(rs))
  {
    hide *;
    var before, last := rs[..|rs| - 1], rs[|rs| - 1];
    var b := Steps(s, Reconciles(before));
    NextIs(s, before);
    assert s.thread.todo[|before|..][0] == s.thread.todo[|before|];
    ReconcilesSnoc(s, rs);
    ReconcileStep(b, last.0, last.1);
    MarksMore(s.mem, s.thread.todo, rs);
  }

  lemma NextIs(s: State, rs: seq<(int, Save)>)
    requires s.thread.Reconciling? && |rs| <= |s.thread.todo| && Reconciled(s, rs)
    ensures var t := Steps(s, Reconciles(rs)); t.up && t.thread == Reconciling(s.thread.todo[|rs|..])
  {
    hide Steps, Reconciles, Told, Spared, RecentOutcome, LostOutcome;
  }

  lemma TodoIsActive(s: State, rs: seq<(int, Save)>)
    requires Inv(s) && s.thread.Reconciling? && |rs| <= |s.thread.todo|
    ensures Sound(s.mem) && Reports(s.mem, LostRuns(s.thread.todo, rs))
  {
    hide Sound, EntriesKnow, HistoryKnown, IsActive;
  }

  /** Exactly the runs known before the reconciliation are known after it, except those
      that the finish times and clock readings say it forgets. */
  lemma ReconciledExactly(s: State, rs: seq<(int, Save)>, id: RunId)
    requires Inv(s) && s.up && s.thread.Reconciling? && |rs| <= |s.thread.todo|
    ensures
      Known(Steps(s, Reconciles(rs)).mem, id) <==>
        Known(s.mem, id) && !Forgets(s.mem, LostRuns(s.thread.todo, rs), Clock(rs), id)
  {
    ReconcilesMark(s, rs);
    hide Inv, Step, Steps, Known, Forgets, Marks, LostRuns, Clock;
    TodoIsActive(s, rs);
    KnownExactly(s.mem, LostRuns(s.thread.todo, rs), Clock(rs), id);
  }

  /** A file's fate does not depend on the machine id. */
  lemma NameIsNothing(c: Contents, machineId: string, done: seq<RecentRun>, clock: seq<int>, id: RunId)
    requires |done| == |clock|
    ensures Forgets(c.(machineId := machineId), done, clock, id) <==> Forgets(c, done, clock, id)
    ensures Known(c.(machineId := machineId), id) <==> Known(c, id)
    ensures RecentOutcome(c.(machineId := machineId), id) == RecentOutcome(c, id)
  {
  }

  /** After a crash and a restart of the same machine, whatever was running and whatever
      was in memory: a lease makes the agent execute its run if and only if the file did
      not know the run, or the reconciliation forgets it, which the file's records, the
      finish times and the clock readings tell. */
  lemma RestartRunsExactly(limit: nat, events: seq<Event>, machineId: string, moved: bool, save: Save,
                           rs: seq<(int, Save)>, id: RunId)
    requires limit > 0 && SameMachine(Run(limit, events).file, machineId)
    requires |rs| == |Run(limit, events).file.active|
    ensures
      var file := Run(limit, events).file;
      var restarted := events + Reboot(machineId, moved, save) + Reconciles(rs) + [StartPolling];
      Run(limit, restarted + Lease(id)).thread == StartAccepted(id) <==>
        !Known(file, id) || Forgets(file, LostRuns(file.active, rs), Clock(rs), id)
  {
    hide Inv, Step, Known, Forgets, Lease, Reboot, Reconciles, Steps, LostRuns, Clock, SameMachine;
    var file := Run(limit, events).file;
    var b := Restarts(limit, events, machineId, moved, save, rs);
    ReconciledExactly(b, rs, id);
    NameIsNothing(file, machineId, LostRuns(file.active, rs), Clock(rs), id);
    var reconciled := events + Reboot(machineId, moved, save) + Reconciles(rs);
    assert file.active[|rs|..] == [];
    Polls(limit, reconciled);
    RunMore(limit, reconciled + [StartPolling], Lease(id));
    NothingOwned(id);
    LeaseExactly(Run(limit, reconciled + [StartPolling]), id);
  }

  /** The state b after the start, and what the reconciliation makes of it. */
  lemma Restarts(limit: nat, events: seq<Event>, machineId: string, moved: bool, save: Save, rs: seq<(int, Save)>)
    returns (b: State)
    requires SameMachine(Run(limit, events).file, machineId) && |rs| == |Run(limit, events).file.active|
    ensures
      var file := Run(limit, events).file;
      && b.up && b.mem == file.(machineId := machineId) && b.thread == Reconciling(file.active)
      && b.registry == [] && b.limit == limit && Inv(b) && Reconciled(b, rs)
    ensures Run(limit, events + Reboot(machineId, moved, save) + Reconciles(rs)) == Steps(b, Reconciles(rs))
  {
    hide Inv, Step, Steps, Reboot, Reconciles, Reconciled, Run, SameMachine;
    var s := Run(limit, events);
    EveryRunKeepsInv(limit, events);
    EveryRunIsNamed(limit, events);
    RunMore(limit, events, Reboot(machineId, moved, save));
    RebootReloads(s, machineId, moved, save);
    var booted := events + Reboot(machineId, moved, save);
    b := Run(limit, booted);
    RunMore(limit, booted, Reconciles(rs));
    ReconcilesAll(b, rs);
  }

  lemma NothingOwned(id: RunId)
    ensures !Owns([], id)
  {
  }

  lemma Polls(limit: nat, events: seq<Event>)
    requires Run(limit, events).up && Run(limit, events).thread == Reconciling([])
    ensures Run(limit, events + [StartPolling]) == Run(limit, events).(thread := Ready)
  {
    assert (events + [StartPolling])[..|events|] == events;
  }

  /** A file of another machine is set aside and nothing of it is kept: the agent starts
      with an empty store of its own, and reports nothing. */
  lemma AdoptsNothing(limit: nat, events: seq<Event>, machineId: string, moved: bool, save: Save, id: RunId)
    requires machineId != "" && !Run(limit, events).up
    requires Run(limit, events).file.machineId != "" && Run(limit, events).file.machineId != machineId
    ensures
      var (file, t) := (Run(limit, events).file, Run(limit, events + [Boot(machineId, moved, save)]));
      && t.up && t.thread == Reconciling([])
      && t.mem.machineId == machineId && !Known(t.mem, id)
      && (if save.ok then t.file == t.mem
          else if moved then t.file.machineId == "" && !Known(t.file, id)
          else t.file == file)
  {
    LastStep(limit, events, Boot(machineId, moved, save));
    hide Run;
    NothingKnown(NO_CONTENTS.(machineId := machineId));
    NothingKnown(NO_CONTENTS);
    hide Dropped, Listed;
  }

  /** What a restart of the same machine tells about the runs before it, whatever only
      memory knew: a run the file lists as active is reported as lost, also if an outcome
      was on record that no save had covered; an outcome the file had stays as it was;
      and a run the file does not know is unknown. */
  lemma RestartTells(limit: nat, events: seq<Event>, machineId: string, moved: bool, save: Save,
                     rs: seq<(int, Save)>, id: RunId)
    requires SameMachine(Run(limit, events).file, machineId) && |rs| == |Run(limit, events).file.active|
    ensures
      var s := Run(limit, events);
      var t := Run(limit, events + Reboot(machineId, moved, save) + Reconciles(rs));
      && (forall i :: 0 <= i < |rs| ==>
            var run := s.file.active[i];
            var (sent, kept) := (Sends(t, ReportLost(run.runId)), RecentOutcome(t.mem, run.runId));
            && sent.Some? && sent.value.0 == run.runId
            && sent.value.1.status == RunStatus.Lost && sent.value.1.exitCode.None?
            && sent.value.1.startedAt == Some(run.startedAt) && sent.value.1.reason == Some(AgentRestarted)
            && (kept.Some? ==>
                  && kept.value.outcome.status == RunStatus.Lost && kept.value.outcome.exitCode.None?
                  && kept.value.outcome.startedAt == Some(run.startedAt)
                  && kept.value.outcome.reason == Some(AgentRestarted)))
      && (RecentOutcome(s.file, id).Some? ==> RecentOutcome(t.mem, id) in {RecentOutcome(s.file, id), None})
      && (!Known(s.file, id) ==> !Known(t.mem, id))
  {
    hide Inv, Step, Steps, RecentOutcome, IsActive, Reboot, Reconciles, Run, Forgets, LostRuns, Clock, SameMachine;
    var s := Run(limit, events);
    var b := Restarts(limit, events, machineId, moved, save, rs);
    ReconciledExactly(b, rs, id);
    NameIsNothing(s.file, machineId, LostRuns(s.file.active, rs), Clock(rs), id);
    if RecentOutcome(s.file, id).Some? {
      FinishedIsNotActive(b, id);
      assert s.file.active[..|rs|] == s.file.active;
    }
  }

  lemma FinishedIsNotActive(s: State, id: RunId)
    requires Inv(s) && s.thread.Reconciling? && RecentOutcome(s.mem, id).Some?
    ensures Spared(id, s.thread.todo)
  {
    hide RecentOutcome, EntriesKnow, HistoryKnown;
    forall i | 0 <= i < |s.thread.todo| ensures s.thread.todo[i].runId != id {
      assert IsActive(s.mem, s.thread.todo[i].runId);
    }
  }

  // ----- a record that was dropped

  const WEEK_LATER := RECENT_RUN_TTL + 1

  const DONE := Outcome(Success, Some(0), Some(0), None)

  const OF_R := RecentRun("r", DONE, 0)
  const OF_Q := RecentRun("q", DONE, WEEK_LATER)

  const ENTRY_R := Entry("r", true, true, false, None, false)
  const ENTRY_Q := Entry("q", false, false, false, None, false)

  const BOOT: seq<Event> := [Boot("m", false, Save(0, true)), StartPolling]

  const RUN_R: seq<Event> := [Spawn(true, RUN), RecordActive(Save(0, true)), Launch]

  const END_R: seq<Event> := [ReporterDecides(0, DONE), ReporterFinishes(0, 0, Save(0, true)), ReporterLeaves(0)]

  const CANCEL_Q: seq<Event> := [LookupOwned("q", true), LookupRecent, Verify(true), Launch]

  const END_Q: seq<Event> := [ReporterDecides(0, DONE), ReporterFinishes(0, WEEK_LATER, Save(WEEK_LATER, true))]

  /** A run is executed and recorded; a week later another run's record prunes its own. */
  function WeekLater(): seq<Event> {
    BOOT + Lease("r") + RUN_R + END_R + CANCEL_Q + END_Q
  }

  /** The agent between two leases, with everything saved. */
  function Agent(registry: seq<Entry>, c: Contents, spawned: set<RunId>, saved: set<RunId>, dropped: set<RunId>): State {
    State(2, true, Ready, NoSignal, registry, c, c, map[], spawned, saved, dropped, dropped)
  }

  lemma Contents1()
    ensures MarkActive(FRESH, RUN, 0) == FRESH.(active := [RUN])
    ensures Dropped(FRESH, FRESH.(active := [RUN])) == {} && Listed(FRESH.(active := [RUN])) == {"r"}
    ensures !Known(FRESH, "r")
  {
    assert RUN in [RUN] && Listed(FRESH.(active := [RUN])) == {RUN.runId};
  }

  lemma Contents2()
    ensures MarkFinished(FRESH.(active := [RUN]), "r", DONE, 0, 0) == FRESH.(recent := [OF_R])
    ensures Dropped(FRESH.(active := [RUN]), FRESH.(recent := [OF_R])) == {}
    ensures Listed(FRESH.(recent := [OF_R])) == {"r"}
    ensures RecentOutcome(FRESH.(recent := [OF_R]), "r").Some?
  {
    assert RecentWith("r")(OF_R) && !ExpiredAt(0)(OF_R) && ActiveWith("r")(RUN);
    assert [OF_R][1..] == [] && [RUN][1..] == [];
    assert DeleteFunc([RUN], ActiveWith("r")) == [];
    assert DeleteFunc([OF_R], ExpiredAt(0)) == [OF_R];
    assert Put([], RecentWith("r"), OF_R) == [] + [OF_R] == [OF_R];
  }

  lemma Contents3()
    ensures MarkFinished(FRESH.(recent := [OF_R]), "q", DONE, WEEK_LATER, WEEK_LATER) == FRESH.(recent := [OF_Q])
    ensures Dropped(FRESH.(recent := [OF_R]), FRESH.(recent := [OF_Q])) == {"r"}
    ensures Listed(FRESH.(recent := [OF_Q])) == {"q"}
    ensures RecentOutcome(FRESH.(recent := [OF_Q]), "q").Some?
    ensures !Known(FRESH.(recent := [OF_Q]), "r")
    ensures !Known(FRESH.(recent := [OF_R]), "q")
  {
    assert !RecentWith("q")(OF_R) && RecentWith("q")(OF_Q) && !RecentWith("r")(OF_Q);
    assert ExpiredAt(WEEK_LATER)(OF_R) && !ExpiredAt(WEEK_LATER)(OF_Q);
    assert [OF_R, OF_Q][1..] == [OF_Q] && [OF_Q][1..] == [];
    assert DeleteFunc([OF_Q], ExpiredAt(WEEK_LATER)) == [OF_Q];
    assert Put([OF_R], RecentWith("q"), OF_Q) == [OF_R] + [OF_Q] == [OF_R, OF_Q];
    var r := OF_R;
    assert r in [OF_R];
  }

  lemma Boots()
    ensures Run(2, BOOT) == Agent([], FRESH, {}, {}, {})
  {
    assert Prune(FRESH, 0) == FRESH && Dropped(NO_CONTENTS, FRESH) == {} && Listed(FRESH) == {};
    assert NO_CONTENTS.(machineId := "m") == FRESH;
    hide Prune, Dropped, Listed;
    assert [] + BOOT == BOOT;
    RunMore(2, [], BOOT);
    TwoSteps(Init(2), BOOT[0], BOOT[1]);
    assert Step(Init(2), BOOT[0]) == Agent([], FRESH, {}, {}, {}).(thread := Reconciling([]));
  }

  lemma Runs()
    ensures Steps(Agent([], FRESH, {}, {}, {}).(thread := StartAccepted("r")), RUN_R)
         == Agent([ENTRY_R], FRESH.(active := [RUN]), {"r"}, {"r"}, {})
  {
    Contents1();
    hide MarkActive, Dropped, Listed, Known;
    var s := Agent([], FRESH, {}, {}, {}).(thread := StartAccepted("r"));
    ThreeSteps(s, RUN_R[0], RUN_R[1], RUN_R[2]);
    var s1 := Agent([], FRESH, {"r"}, {}, {}).(thread := Spawned(RUN));
    assert Step(s, RUN_R[0]) == s1;
    var s2 := Agent([], FRESH.(active := [RUN]), {"r"}, {"r"}, {}).(thread := Launching(ENTRY_R));
    assert Step(s1, RUN_R[1]) == s2;
  }

  lemma Ends()
    ensures Steps(Agent([ENTRY_R], FRESH.(active := [RUN]), {"r"}, {"r"}, {}), END_R)
         == Agent([], FRESH.(recent := [OF_R]), {"r"}, {"r"}, {})
  {
    Contents2();
    hide MarkFinished, Dropped, Listed, RecentOutcome;
    var s := Agent([ENTRY_R], FRESH.(active := [RUN]), {"r"}, {"r"}, {});
    ThreeSteps(s, END_R[0], END_R[1], END_R[2]);
    var decided := ENTRY_R.(outcome := Some(DONE));
    var s1 := s.(registry := [decided]);
    assert Step(s, END_R[0]) == s1;
    var s2 := Agent([decided.(recorded := true)], FRESH.(recent := [OF_R]), {"r"}, {"r"}, {});
    assert Step(s1, END_R[1]) == s2;
  }

  lemma CancelsAnother()
    ensures Steps(Agent([], FRESH.(recent := [OF_R]), {"r"}, {"r"}, {}), CANCEL_Q)
         == Agent([ENTRY_Q], FRESH.(recent := [OF_R]), {"r"}, {"r"}, {})
  {
    Contents3();
    hide RecentOutcome, IsActive, Dropped, Listed, MarkFinished;
    var s := Agent([], FRESH.(recent := [OF_R]), {"r"}, {"r"}, {});
    FourSteps(s, CANCEL_Q[0], CANCEL_Q[1], CANCEL_Q[2], CANCEL_Q[3]);
    assert Step(s, CANCEL_Q[0]) == s.(thread := NotOwned("q", true));
    assert Step(s.(thread := NotOwned("q", true)), CANCEL_Q[1]) == s.(thread := NotRecent("q", true));
    assert Step(s.(thread := NotRecent("q", true)), CANCEL_Q[2]) == s.(thread := Launching(ENTRY_Q));
  }

  lemma Prunes()
    ensures
      var t := Steps(Agent([ENTRY_Q], FRESH.(recent := [OF_R]), {"r"}, {"r"}, {}), END_Q);
      && t == Agent(t.registry, FRESH.(recent := [OF_Q]), {"r"}, {"r", "q"}, {"r"})
      && |t.registry| == 1 && !Owns(t.registry, "r") && !Known(t.mem, "r")
  {
    Contents3();
    hide MarkFinished, Dropped, Listed, RecentOutcome, Known;
    var s := Agent([ENTRY_Q], FRESH.(recent := [OF_R]), {"r"}, {"r"}, {});
    TwoSteps(s, END_Q[0], END_Q[1]);
    var decided := ENTRY_Q.(outcome := Some(DONE));
    assert Step(s, END_Q[0]) == s.(registry := [decided]);
    var t := Agent([decided.(recorded := true)], FRESH.(recent := [OF_Q]), {"r"}, {"r", "q"}, {"r"});
    assert Step(s.(registry := [decided]), END_Q[1]) == t;
  }

  /** The other half of the condition is needed too: without any crash, a run whose
      record was pruned a week later is executed again. */
  lemma DroppedRunsTwice()
    ensures
      var events := WeekLater() + Lease("r") + [Spawn(true, RUN)];
      && Executes(2, events, 6, "r") && Executes(2, events, |events| - 1, "r")
      && Crash !in events && "r" in Run(2, events[..|events| - 1]).dropped
  {
    hide Step, Steps, Run, Known;
    var first := BOOT + Lease("r");
    var fresh1 := Agent([], FRESH, {}, {}, {});
    Boots();
    Contents1();
    NothingOwned("r");
    RunMore(2, BOOT, Lease("r"));
    LeaseGoes(fresh1, "r");
    RunMore(2, first, RUN_R);
    Runs();
    RunMore(2, first + RUN_R, END_R);
    Ends();
    RunMore(2, first + RUN_R + END_R, CANCEL_Q);
    CancelsAnother();
    RunMore(2, first + RUN_R + END_R + CANCEL_Q, END_Q);
    Prunes();
    var s := Run(2, WeekLater());
    RunMore(2, WeekLater(), Lease("r"));
    LeaseGoes(s, "r");
    var events := WeekLater() + Lease("r") + [Spawn(true, RUN)];
    assert events[..6] == first && events[6] == RUN_R[0];
    assert events[..|events| - 1] == WeekLater() + Lease("r");
  }
}

/** The life of every run on one machine, over any number of restarts of the agent:
    internal/agent/agent.go (poll, launch), lease.go (handleLease, start, spawn),
    startup.go (adopt, reconcile) and signals.go, over the store of
    internal/state. One event is one atomic step of one thread: the poll thread,
    a reporter, the signal goroutine, or a crash of the whole agent. */
module Lifecycle {
  import opened Chunks
  import opened Options
  import opened Protocol
  import opened StateSpec
  import opened RegistrySpec

  /** Where the thread of Run stands. A lease is followed through handleLease:
      after the registry lookup, after the lookup of recent outcomes, once it is
      verified and has a slot, once start is accepted, with a process that is not
      yet marked active, and with a run that is yet to be registered. */
  datatype Thread =
    | Reconciling(todo: seq<ActiveRun>)
    | Ready
    | NotOwned(id: RunId, cancelled: bool)
    | NotRecent(id: RunId, cancelled: bool)
    | Starting(id: RunId)
    | StartAccepted(id: RunId)
    | Spawned(run: ActiveRun)
    | Launching(entry: Entry)
    | Stopping(left: seq<Entry>)
    | Waiting

  datatype Signal = NoSignal | Cancelling(left: seq<Entry>) | StopSent

  /** `file` is the durable state and `mem` the store of the running agent; `lost`
      are the runs whose loss is being reported. The rest is history: the ids
      spawned since the last boot; the ids a successful save has covered, and those
      whose record was dropped by pruning or by a new machine id, each since the
      id was last spawned; and the ids whose record was ever dropped. */
  datatype State = State(
    limit: nat,
    up: bool,
    thread: Thread,
    signal: Signal,
    registry: seq<Entry>,
    mem: Contents,
    file: Contents,
    lost: map<RunId, ActiveRun>,
    spawned: set<RunId>,
    saved: set<RunId>,
    dropped: set<RunId>,
    forgotten: set<RunId>)

  /** A save's clock reading and whether it succeeded. */
  datatype Save = Save(now: int, ok: bool)

  datatype Event =
    | Boot(machineId: string, moved: bool, save: Save)
    | ReconcileNext(finishedAt: int, save: Save)
    | StartPolling
    | LookupOwned(id: RunId, cancelled: bool)
    | LookupRecent
    | Verify(valid: bool)
    | StartAnswered(ok: bool)
    | Spawn(ok: bool, run: ActiveRun)
    | RecordActive(save: Save)
    | Launch
    | ReportLost(id: RunId)
    | ReporterDecides(i: nat, outcome: Outcome)
    | ReporterSends(i: nat)
    | ReporterFinishes(i: nat, finishedAt: int, save: Save)
    | ReporterLeaves(i: nat)
    | ServerCancels(i: nat)
    | SignalArrives
    | SignalCancels
    | SignalStops
    | PollStops
    | DrainCancels
    | DrainSaves(save: Save)
    | Crash

  function Init(limit: nat): State {
    State(limit, false, Ready, NoSignal, [], NO_CONTENTS, NO_CONTENTS, map[], {}, {}, {}, {})
  }

  function LostOutcome(run: ActiveRun): Outcome {
    Outcome(RunStatus.Lost, None, Some(run.startedAt), Some(AgentRestarted))
  }

  /** The ids whose outcome a change of the store dropped. */
  function Dropped(before: Contents, after: Contents): set<RunId> {
    set r | r in before.recent && RecentOutcome(after, r.runId).None? :: r.runId
  }

  /** The ids a store knows. */
  function Listed(c: Contents): set<RunId> {
    (set r | r in c.active :: r.runId) + (set r | r in c.recent :: r.runId)
  }

  function Drop(s: State, ids: set<RunId>): State {
    s.(dropped := s.dropped + ids, forgotten := s.forgotten + ids)
  }

  /** The store after a save: the file follows if the save succeeded. */
  function Saved(s: State, mem: Contents, save: Save): State {
    var t := s.(mem := mem);
    Drop(if save.ok then t.(file := mem, saved := s.saved + Listed(mem)) else t, Dropped(s.mem, mem))
  }

  function Finished(s: State, id: RunId, outcome: Outcome, finishedAt: int, save: Save): State {
    var mem := MarkFinished(s.mem, id, outcome, finishedAt, save.now);
    var t := Saved(s, mem, save);
    if RecentOutcome(mem, id).None? then Drop(t, {id}) else t
  }

  /** adopt: a file of another machine is set aside and nothing of it is kept. */
  function Adopt(s: State, machineId: string, moved: bool, save: Save): State {
    if s.mem.machineId == machineId then s
    else if s.mem.machineId != "" then
      var empty := NO_CONTENTS.(machineId := machineId);
      Drop(s.(mem := empty, file := if save.ok then empty else if moved then NO_CONTENTS else s.file), Listed(s.mem))
    else Saved(s, Prune(s.mem.(machineId := machineId), save.now), save)
  }

  function CancelFirst(runs: seq<Entry>, e: Entry): seq<Entry> {
    if runs == [] then []
    else if runs[0].id == e.id then [runs[0].(cancelled := runs[0].cancelled || runs[0].hasProcess)] + runs[1..]
    else [runs[0]] + CancelFirst(runs[1..], e)
  }

  /** The i-th owned run has its finish request made up, and not yet recorded. */
  predicate Finishing(s: State, i: nat) {
    i < |s.registry| && s.registry[i].outcome.Some? && !s.registry[i].recorded
  }

  /** An event that cannot happen in a state changes nothing; an agent without a machine
      id does not start. */
  function Step(s: State, e: Event): State {
    if !s.up then
      if e.Boot? && e.machineId != "" then
        var loaded := s.(up := true, mem := s.file, thread := Ready, signal := NoSignal);
        var t := Adopt(loaded, e.machineId, e.moved, e.save);
        t.(thread := Reconciling(t.mem.active))
      else s
    else
      match e
      case Boot(_, _, _) => s
      case ReconcileNext(finishedAt, save) =>
        if !s.thread.Reconciling? || s.thread.todo == [] then s
        else
          var run := s.thread.todo[0];
          var t := Finished(s, run.runId, LostOutcome(run), finishedAt, save);
          t.(thread := Reconciling(s.thread.todo[1..]), lost := s.lost[run.runId := run])
      case StartPolling =>
        if s.thread == Reconciling([]) then s.(thread := Ready) else s
      case LookupOwned(id, cancelled) =>
        if s.thread != Ready || exists i :: 0 <= i < |s.registry| && s.registry[i].id == id then s
        else s.(thread := NotOwned(id, cancelled))
      case LookupRecent =>
        if !s.thread.NotOwned? then s
        else if RecentOutcome(s.mem, s.thread.id).Some? then s.(thread := Ready)
        else s.(thread := NotRecent(s.thread.id, s.thread.cancelled))
      case Verify(valid) =>
        if !s.thread.NotRecent? then s
        else if !valid || IsActive(s.mem, s.thread.id) then s.(thread := Ready)
        else if s.thread.cancelled then s.(thread := Launching(Entry(s.thread.id, false, false, false, None, false)))
        else if |s.registry| >= s.limit then s.(thread := Ready)
        else s.(thread := Starting(s.thread.id))
      case StartAnswered(ok) =>
        if !s.thread.Starting? then s
        else s.(thread := if ok then StartAccepted(s.thread.id) else Ready)
      case Spawn(ok, run) =>
        if !s.thread.StartAccepted? then s
        else if ok then
          var active := run.(runId := s.thread.id);
          s.(thread := Spawned(active), spawned := s.spawned + {active.runId},
             saved := s.saved - {active.runId}, dropped := s.dropped - {active.runId})
        else s.(thread := Launching(Entry(s.thread.id, false, true, false, None, false)))
      case RecordActive(save) =>
        if !s.thread.Spawned? then s
        else
          var run := s.thread.run;
          var t := Saved(s, MarkActive(s.mem, run, save.now), save);
          t.(thread := Launching(Entry(run.runId, true, true, false, None, false)))
      case Launch =>
        if !s.thread.Launching? then s
        else s.(thread := Ready, registry := s.registry + [s.thread.entry])
      case ReportLost(_) => s
      case ReporterDecides(i, outcome) =>
        if i >= |s.registry| || s.registry[i].outcome.Some? then s
        else s.(registry := s.registry[i := s.registry[i].(outcome := Some(outcome))])
      case ReporterSends(_) => s
      case ReporterFinishes(i, finishedAt, save) =>
        if !Finishing(s, i) then s
        else
          var t := Finished(s, s.registry[i].id, s.registry[i].outcome.value, finishedAt, save);
          t.(registry := s.registry[i := s.registry[i].(recorded := true)])
      case ReporterLeaves(i) =>
        if i >= |s.registry| || !s.registry[i].recorded then s
        else s.(registry := Remove(s.registry, s.registry[i].id))
      case ServerCancels(i) =>
        if i >= |s.registry| then s
        else s.(registry := s.registry[i := s.registry[i].(cancelled := s.registry[i].cancelled || s.registry[i].hasProcess)])
      case SignalArrives =>
        if s.signal == NoSignal then s.(signal := Cancelling(s.registry)) else s
      case SignalCancels =>
        if !s.signal.Cancelling? || s.signal.left == [] then s
        else s.(signal := Cancelling(s.signal.left[1..]), registry := CancelFirst(s.registry, s.signal.left[0]))
      case SignalStops =>
        if s.signal == Cancelling([]) then s.(signal := StopSent) else s
      case PollStops =>
        if s.thread == Ready && s.signal == StopSent then s.(thread := Stopping(s.registry)) else s
      case DrainCancels =>
        if !s.thread.Stopping? then s
        else if s.thread.left == [] then s.(thread := Waiting)
        else s.(thread := Stopping(s.thread.left[1..]), registry := CancelFirst(s.registry, s.thread.left[0]))
      case DrainSaves(save) =>
        if s.thread != Waiting then s else Saved(s, Prune(s.mem, save.now), save)
      case Crash =>
        s.(up := false, thread := Ready, signal := NoSignal, registry := [], mem := NO_CONTENTS,
           lost := map[], spawned := {})
  }

  function Run(limit: nat, events: seq<Event>): State {
    if events == [] then Init(limit)
    else Step(Run(limit, events[..|events| - 1]), events[|events| - 1])
  }

  // ----- the invariant

  /** No run of that id is owned, active or recorded. */
  ghost predicate Unused(s: State, id: RunId) {
    !Owns(s.registry, id) && !Known(s.mem, id)
  }

  /** What the run's thread may rely on at each of its places. */
  ghost predicate ThreadKnows(s: State) {
    match s.thread
    case Reconciling(todo) =>
      && s.registry == []
      && DistinctActive(todo)
      && forall id :: IsActive(s.mem, id) <==> exists i :: 0 <= i < |todo| && todo[i].runId == id
    case Ready => true
    case NotOwned(id, _) => !Owns(s.registry, id)
    case NotRecent(id, _) => Unused(s, id)
    case Starting(id) => Unused(s, id) && |s.registry| < s.limit
    case StartAccepted(id) => Unused(s, id) && |s.registry| < s.limit
    case Spawned(run) => Unused(s, run.runId) && |s.registry| < s.limit
    case Launching(entry) =>
      && !Owns(s.registry, entry.id) && !entry.recorded
      && RecentOutcome(s.mem, entry.id).None?
      && (IsActive(s.mem, entry.id) <==> entry.hasProcess)
      && (entry.hasProcess ==> |s.registry| < s.limit)
    case Stopping(left) => true
    case Waiting => true
  }

  /** The id of the run that is active but not yet registered. */
  predicate InFlight(s: State, id: RunId) {
    match s.thread
    case Reconciling(todo) => true
    case Launching(entry) => entry.id == id
    case _ => false
  }

  ghost predicate EntriesKnow(s: State) {
    && Distinct(s.registry)
    && (forall i :: 0 <= i < |s.registry| && !s.registry[i].recorded ==>
          RecentOutcome(s.mem, s.registry[i].id).None?)
    && (forall i :: 0 <= i < |s.registry| && s.registry[i].recorded ==> !IsActive(s.mem, s.registry[i].id))
    && (forall id :: IsActive(s.mem, id) ==> Owns(s.registry, id) || InFlight(s, id))
  }

  ghost predicate HistoryKnown(s: State) {
    && (forall id :: id in s.spawned ==>
          id in s.dropped || Known(s.mem, id) || (s.thread.Spawned? && s.thread.run.runId == id))
    && (s.up ==> forall id :: id in s.saved ==> id in s.dropped || Known(s.mem, id))
    && (forall id :: id in s.saved ==> id in s.dropped || Known(s.file, id))
    && (forall id :: id in s.lost ==>
          id in s.forgotten
          || (RecentOutcome(s.mem, id).Some? && RecentOutcome(s.mem, id).value.outcome == LostOutcome(s.lost[id])))
  }

  /** The processes not yet registered count too. */
  function InHand(t: Thread): nat {
    if t.Spawned? || (t.Launching? && t.entry.hasProcess) then 1 else 0
  }

  ghost predicate Inv(s: State) {
    && Sound(s.mem) && Sound(s.file)
    && |s.mem.recent| <= MAX_RECENT_RUNS && |s.file.recent| <= MAX_RECENT_RUNS
    && EntriesKnow(s)
    && ThreadKnows(s)
    && HistoryKnown(s)
    && Processes(s.registry) + InHand(s.thread) <= s.limit
    && (!s.up ==> s.registry == [] && s.mem == NO_CONTENTS && s.thread == Ready && s.spawned == {} && s.lost == map[])
  }

  // ----- what the operations on the store mean for the invariant

  /** From the store before to the store after, outcomes are only forgotten. */
  ghost predicate OnlyForgets(before: Contents, after: Contents, forgotten: set<RunId>) {
    forall j :: RecentOutcome(after, j) == RecentOutcome(before, j)
             || (RecentOutcome(after, j).None? && j in forgotten)
  }

  lemma DroppedIsComplete(before: Contents, after: Contents)
    requires forall j :: RecentOutcome(after, j) in {RecentOutcome(before, j), None}
    ensures OnlyForgets(before, after, Dropped(before, after))
  {
    forall j ensures RecentOutcome(after, j) == RecentOutcome(before, j)
                  || (RecentOutcome(after, j).None? && j in Dropped(before, after))
    {
      if RecentOutcome(after, j) != RecentOutcome(before, j) {
        var i := IndexFunc(before.recent, RecentWith(j));
        var r := before.recent[i];
        assert RecentWith(j)(r) && r in before.recent;
      }
    }
  }

  lemma PruneFacts(c: Contents, machineId: string, now: int)
    requires Sound(c)
    ensures
      var t := Prune(c.(machineId := machineId), now);
      && Sound(t) && |t.recent| <= MAX_RECENT_RUNS
      && (forall j :: IsActive(t, j) <==> IsActive(c, j))
      && OnlyForgets(c, t, Dropped(c, t))
  {
    PruneForgetsOnly(c.(machineId := machineId), now);
    var t := Prune(c.(machineId := machineId), now);
    assert forall j :: RecentOutcome(c.(machineId := machineId), j) == RecentOutcome(c, j);
    assert forall j :: IsActive(t, j) <==> IsActive(c, j);
    DroppedIsComplete(c, t);
  }

  lemma ActiveFacts(c: Contents, run: ActiveRun, now: int)
    requires Sound(c) && RecentOutcome(c, run.runId).None?
    ensures
      var t := MarkActive(c, run, now);
      && Sound(t) && |t.recent| <= MAX_RECENT_RUNS
      && (forall j :: IsActive(t, j) <==> IsActive(c, j) || j == run.runId)
      && OnlyForgets(c, t, Dropped(c, t))
  {
    MarkActiveFacts(c, run, now);
    DroppedIsComplete(c, MarkActive(c, run, now));
  }

  lemma ListedIsKnown(c: Contents)
    ensures forall id :: id in Listed(c) <==> Known(c, id)
  {
    forall id ensures id in Listed(c) <==> Known(c, id) {
      if i :| 0 <= i < |c.active| && c.active[i].runId == id {
        assert ActiveWith(id)(c.active[i]);
      }
      if i :| 0 <= i < |c.recent| && c.recent[i].runId == id {
        assert RecentWith(id)(c.recent[i]);
      }
      if IsActive(c, id) {
        var r := c.active[IndexFunc(c.active, ActiveWith(id))];
        assert ActiveWith(id)(r) && r in c.active;
      } else if Known(c, id) {
        var r := c.recent[IndexFunc(c.recent, RecentWith(id))];
        assert RecentWith(id)(r) && r in c.recent;
      }
    }
  }

  /** What recording an outcome changes; `gone` are the ids it drops. */
  ghost predicate Records(before: Contents, after: Contents, gone: set<RunId>, id: RunId, outcome: Outcome) {
    && Sound(after)
    && (forall j :: IsActive(after, j) <==> IsActive(before, j) && j != id)
    && (forall j :: j != id ==>
          RecentOutcome(after, j) == RecentOutcome(before, j)
          || (RecentOutcome(after, j).None? && j in gone))
    && (if RecentOutcome(after, id).Some? then RecentOutcome(after, id).value.outcome == outcome else id in gone)
  }

  /** The history after a save that dropped `gone`. */
  ghost predicate Logs(s: State, t: State, gone: set<RunId>) {
    && t.dropped == s.dropped + gone && t.forgotten == s.forgotten + gone
    && ((t.file == s.file && t.saved == s.saved)
        || (t.file == t.mem && t.saved == s.saved + Listed(t.mem)))
    && (forall id :: id in Listed(t.mem) <==> Known(t.mem, id))
  }

  lemma SavedLogs(s: State, mem: Contents, save: Save)
    ensures Logs(s, Saved(s, mem, save), Dropped(s.mem, mem))
  {
    ListedIsKnown(mem);
  }

  lemma FinishedRecords(s: State, id: RunId, outcome: Outcome, finishedAt: int, save: Save)
    returns (gone: set<RunId>)
    requires Sound(s.mem)
    ensures
      var t := Finished(s, id, outcome, finishedAt, save);
      && Records(s.mem, t.mem, gone, id, outcome) && Logs(s, t, gone)
      && Sound(t.mem) && |t.mem.recent| <= MAX_RECENT_RUNS
  {
    hide MarkFinished, Dropped, Records, Sound, Listed;
    var mem := MarkFinished(s.mem, id, outcome, finishedAt, save.now);
    gone := Dropped(s.mem, mem) + if RecentOutcome(mem, id).None? then {id} else {};
    MarkingRecords(s.mem, id, outcome, finishedAt, save.now, gone);
    SavedLogs(s, mem, save);
    assert Logs(s, Finished(s, id, outcome, finishedAt, save), gone);
  }

  lemma MarkingRecords(before: Contents, id: RunId, outcome: Outcome, finishedAt: int, now: int, gone: set<RunId>)
    requires Sound(before)
    requires
      var after := MarkFinished(before, id, outcome, finishedAt, now);
      gone == Dropped(before, after) + if RecentOutcome(after, id).None? then {id} else {}
    ensures
      var after := MarkFinished(before, id, outcome, finishedAt, now);
      Records(before, after, gone, id, outcome) && Sound(after) && |after.recent| <= MAX_RECENT_RUNS
  {
    var after := MarkFinished(before, id, outcome, finishedAt, now);
    MarkFinishedFacts(before, id, outcome, finishedAt, now);
    hide MarkFinished, Sound;
    forall j | j != id && RecentOutcome(after, j) != RecentOutcome(before, j)
      ensures RecentOutcome(after, j).None? && j in Dropped(before, after)
    {
      var r := before.recent[IndexFunc(before.recent, RecentWith(j))];
      assert RecentWith(j)(r) && r in before.recent;
    }
  }

  // ----- every event keeps the invariant

  lemma BootKeepsInv(s: State, e: Event)
    requires Inv(s) && !s.up && e.Boot?
    ensures Inv(Step(s, e))
  {
    hide IsActive, RecentOutcome, Prune, Listed;
    PruneFacts(s.file, e.machineId, e.save.now);
    NothingKnown(NO_CONTENTS.(machineId := e.machineId));
    NothingKnown(NO_CONTENTS);
    ListedIsKnown(s.file);
    ListedIsKnown(Prune(s.file.(machineId := e.machineId), e.save.now));
    var t := Step(s, e);
    ActiveIsListed(t.mem);
    assert Processes(t.registry) == 0;
  }

  lemma NothingKnown(c: Contents)
    requires c.active == [] && c.recent == []
    ensures Sound(c)
    ensures forall id :: !Known(c, id)
    ensures forall id :: !IsActive(c, id)
  {
  }

  lemma ActiveIsListed(c: Contents)
    ensures forall id :: IsActive(c, id) <==> exists i :: 0 <= i < |c.active| && c.active[i].runId == id
  {
    forall id ensures IsActive(c, id) <==> exists i :: 0 <= i < |c.active| && c.active[i].runId == id {
      if i :| 0 <= i < |c.active| && c.active[i].runId == id {
        assert ActiveWith(id)(c.active[i]);
      }
      if IsActive(c, id) {
        assert ActiveWith(id)(c.active[IndexFunc(c.active, ActiveWith(id))]);
      }
    }
  }

  lemma ReconcileKeepsInv(s: State, e: Event)
    requires Inv(s) && s.up && e.ReconcileNext? && s.thread.Reconciling? && s.thread.todo != []
    ensures Inv(Step(s, e))
  {
    hide IsActive, RecentOutcome, Finished, Sound, Listed;
    var todo := s.thread.todo;
    FinishedElsewhere(s, todo[0].runId, LostOutcome(todo[0]), e.finishedAt, e.save);
    var gone := FinishedRecords(s, todo[0].runId, LostOutcome(todo[0]), e.finishedAt, e.save);
    var t := Step(s, e);
    forall id ensures IsActive(t.mem, id) <==> exists i :: 0 <= i < |todo[1..]| && todo[1..][i].runId == id {
      if IsActive(t.mem, id) {
        var i :| 0 <= i < |todo| && todo[i].runId == id;
        assert todo[1..][i - 1].runId == id;
      }
    }
  }

  lemma RecordKeepsInv(s: State, e: Event)
    requires Inv(s) && s.up && e.RecordActive? && s.thread.Spawned?
    ensures Inv(Step(s, e))
  {
    hide IsActive, RecentOutcome, MarkActive, Sound, Listed;
    ActiveFacts(s.mem, s.thread.run, e.save.now);
    SavedLogs(s, MarkActive(s.mem, s.thread.run, e.save.now), e.save);
  }

  lemma LaunchKeepsInv(s: State, e: Event)
    requires Inv(s) && s.up && e.Launch? && s.thread.Launching?
    ensures Inv(Step(s, e))
  {
    hide *;
    var t := Step(s, e);
    InvMeans(s);
    LaunchStep(s, e);
    ProcessesSplit(s.registry, [s.thread.entry]);
    ProcessesOfOne(s.thread.entry);
    LaunchedOwns(s.registry, s.thread.entry);
    LaunchKeepsEntries(s, t);
    LaunchKeepsHistory(s, t);
    LaunchKeepsRest(s, t);
  }

  lemma LaunchStep(s: State, e: Event)
    requires s.up && e.Launch? && s.thread.Launching?
    ensures Step(s, e) == s.(thread := Ready, registry := s.registry + [s.thread.entry])
  {
  }

  lemma LaunchedOwns(runs: seq<Entry>, e: Entry)
    ensures forall id :: Owns(runs + [e], id) <==> Owns(runs, id) || id == e.id
  {
    var more := runs + [e];
    assert more[|runs|] == e;
    forall id | Owns(runs, id) ensures Owns(more, id) {
      var i :| 0 <= i < |runs| && runs[i].id == id;
      assert more[i].id == id;
    }
  }

  lemma LaunchKeepsEntries(s: State, t: State)
    requires EntriesKnow(s) && ThreadKnows(s) && s.thread.Launching?
    requires t == s.(thread := Ready, registry := s.registry + [s.thread.entry])
    requires forall id :: Owns(t.registry, id) <==> Owns(s.registry, id) || id == s.thread.entry.id
    ensures EntriesKnow(t)
  {
    hide IsActive, RecentOutcome;
    assert forall i :: 0 <= i < |s.registry| ==> t.registry[i] == s.registry[i];
  }

  lemma LaunchKeepsHistory(s: State, t: State)
    requires HistoryKnown(s) && s.thread.Launching? && t == s.(thread := Ready, registry := t.registry)
    ensures HistoryKnown(t) && ThreadKnows(t)
  {
    hide IsActive, RecentOutcome;
  }

  lemma LaunchKeepsRest(s: State, t: State)
    requires Inv(s) && s.up && s.thread.Launching? && t == s.(thread := Ready, registry := t.registry)
    requires Processes(t.registry) == Processes(s.registry) + if s.thread.entry.hasProcess then 1 else 0
    requires EntriesKnow(t) && ThreadKnows(t) && HistoryKnown(t)
    ensures Inv(t)
  {
    hide EntriesKnow, ThreadKnows, HistoryKnown, Sound, Processes;
  }

  lemma ReporterFinishesKeepsInv(s: State, e: Event)
    requires Inv(s) && s.up && e.ReporterFinishes? && Finishing(s, e.i)
    ensures Inv(Step(s, e))
  {
    hide IsActive, RecentOutcome, Finished, Sound, Records, Logs, EntriesKnow, ThreadKnows, HistoryKnown;
    var (id, outcome) := (s.registry[e.i].id, s.registry[e.i].outcome.value);
    var gone := FinishedRecords(s, id, outcome, e.finishedAt, e.save);
    FinishedElsewhere(s, id, outcome, e.finishedAt, e.save);
    var t := Step(s, e);
    ProcessesAt(s.registry, e.i, t.registry[e.i]);
    LogsLike(s, Finished(s, id, outcome, e.finishedAt, e.save), t, gone);
    FinishKeepsEntries(s, t, e.i, outcome, gone);
    FinishKeepsThread(s, t, e.i, outcome, gone);
    FinishKeepsHistory(s, t, e.i, outcome, gone);
  }

  lemma FinishedElsewhere(s: State, id: RunId, outcome: Outcome, finishedAt: int, save: Save)
    ensures
      var t := Finished(s, id, outcome, finishedAt, save);
      t == s.(mem := t.mem, file := t.file, saved := t.saved, dropped := t.dropped, forgotten := t.forgotten)
  {
  }

  lemma FinishedStore(s: State, id: RunId, outcome: Outcome, finishedAt: int, save: Save)
    ensures Finished(s, id, outcome, finishedAt, save).mem == MarkFinished(s.mem, id, outcome, finishedAt, save.now)
  {
  }

  lemma LogsLike(s: State, t: State, u: State, gone: set<RunId>)
    requires Logs(s, t, gone)
    requires u.mem == t.mem && u.file == t.file && u.saved == t.saved && u.dropped == t.dropped && u.forgotten == t.forgotten
    ensures Logs(s, u, gone) && (u.file == s.file || u.file == u.mem)
  {
  }

  lemma FinishKeepsEntries(s: State, t: State, i: nat, outcome: Outcome, gone: set<RunId>)
    requires EntriesKnow(s) && i < |s.registry|
    requires Records(s.mem, t.mem, gone, s.registry[i].id, outcome)
    requires t.registry == s.registry[i := s.registry[i].(recorded := true)] && t.thread == s.thread
    ensures EntriesKnow(t)
  {
    hide IsActive, RecentOutcome, Sound;
    SameIds(s.registry, t.registry);
  }

  lemma FinishKeepsThread(s: State, t: State, i: nat, outcome: Outcome, gone: set<RunId>)
    requires ThreadKnows(s) && i < |s.registry|
    requires Records(s.mem, t.mem, gone, s.registry[i].id, outcome)
    requires t.registry == s.registry[i := s.registry[i].(recorded := true)] && t.thread == s.thread && t.limit == s.limit
    ensures ThreadKnows(t)
  {
    hide IsActive, RecentOutcome, Sound;
    SameIds(s.registry, t.registry);
    assert Owns(s.registry, s.registry[i].id);
  }

  lemma FinishKeepsHistory(s: State, t: State, i: nat, outcome: Outcome, gone: set<RunId>)
    requires EntriesKnow(s) && HistoryKnown(s) && i < |s.registry| && !s.registry[i].recorded
    requires Records(s.mem, t.mem, gone, s.registry[i].id, outcome)
    requires Logs(s, t, gone)
    requires t.thread == s.thread && t.spawned == s.spawned && t.lost == s.lost && s.up && t.up
    ensures HistoryKnown(t)
  {
    hide IsActive, RecentOutcome, Sound, Listed;
  }

  lemma SameIds(a: seq<Entry>, b: seq<Entry>)
    requires |a| == |b| && forall i :: 0 <= i < |a| ==> a[i].id == b[i].id
    ensures forall id :: Owns(a, id) <==> Owns(b, id)
    ensures Distinct(a) ==> Distinct(b)
  {
    forall id ensures Owns(a, id) <==> Owns(b, id) {
      if i :| 0 <= i < |a| && a[i].id == id {
        assert b[i].id == id;
      }
      if i :| 0 <= i < |b| && b[i].id == id {
        assert a[i].id == id;
      }
    }
  }

  lemma ReporterLeavesKeepsInv(s: State, e: Event)
    requires Inv(s) && s.up && e.ReporterLeaves? && e.i < |s.registry| && s.registry[e.i].recorded
    ensures Inv(Step(s, e))
  {
    hide *;
    var t := Step(s, e);
    LeaveStep(s, e);
    InvMeans(s);
    EntriesDistinct(s);
    RemoveAt(s.registry, e.i);
    ProcessesAt(s.registry, e.i, s.registry[e.i]);
    LeavingOwns(s.registry, e.i);
    LeaveKeepsEntries(s, t, e.i);
    LeaveKeepsThread(s, t);
    SameHistory(s, t);
    LeaveKeepsRest(s, t);
  }

  lemma LeaveStep(s: State, e: Event)
    requires s.up && e.ReporterLeaves? && e.i < |s.registry| && s.registry[e.i].recorded
    ensures Step(s, e) == s.(registry := Remove(s.registry, s.registry[e.i].id))
  {
    hide Remove;
  }

  lemma InvMeans(s: State)
    requires Inv(s)
    ensures EntriesKnow(s) && ThreadKnows(s) && HistoryKnown(s)
  {
    hide EntriesKnow, ThreadKnows, HistoryKnown, Sound, Processes;
  }

  lemma LeaveKeepsRest(s: State, t: State)
    requires Inv(s) && s.up && t == s.(registry := t.registry) && Processes(t.registry) <= Processes(s.registry)
    requires EntriesKnow(t) && ThreadKnows(t) && HistoryKnown(t)
    ensures Inv(t)
  {
    hide EntriesKnow, ThreadKnows, HistoryKnown, Sound, Processes;
  }

  lemma EntriesDistinct(s: State)
    requires EntriesKnow(s)
    ensures Distinct(s.registry)
  {
  }

  lemma SameHistory(s: State, t: State)
    requires HistoryKnown(s) && t == s.(registry := t.registry)
    ensures HistoryKnown(t)
  {
  }

  lemma LeavingOwns(runs: seq<Entry>, i: nat)
    requires i < |runs|
    ensures
      var left := runs[..i] + runs[i + 1..];
      && (forall id :: Owns(left, id) ==> Owns(runs, id))
      && (forall id :: Owns(runs, id) && id != runs[i].id ==> Owns(left, id))
      && |left| < |runs|
  {
    var left := runs[..i] + runs[i + 1..];
    forall id | Owns(left, id) ensures Owns(runs, id) {
      var k :| 0 <= k < |left| && left[k].id == id;
      assert runs[if k < i then k else k + 1].id == id;
    }
    forall id | Owns(runs, id) && id != runs[i].id ensures Owns(left, id) {
      var k :| 0 <= k < |runs| && runs[k].id == id;
      assert left[if k < i then k else k - 1].id == id;
    }
  }

  lemma LeaveKeepsEntries(s: State, t: State, i: nat)
    requires EntriesKnow(s) && i < |s.registry| && s.registry[i].recorded
    requires t.registry == s.registry[..i] + s.registry[i + 1..] && t.mem == s.mem && t.thread == s.thread
    ensures EntriesKnow(t)
  {
    hide IsActive, RecentOutcome, Sound;
    LeavingOwns(s.registry, i);
  }

  lemma LeaveKeepsThread(s: State, t: State)
    requires ThreadKnows(s) && s.registry != []
    requires forall id :: Owns(t.registry, id) ==> Owns(s.registry, id)
    requires |t.registry| < |s.registry| && t == s.(registry := t.registry)
    ensures ThreadKnows(t)
  {
    hide IsActive, RecentOutcome, Sound;
  }

  /** Marking a process as cancelled or making up a finish request touches nothing the
      invariant speaks of. */
  ghost predicate SameRuns(a: seq<Entry>, b: seq<Entry>) {
    && |a| == |b|
    && forall i :: 0 <= i < |a| ==>
         && b[i].id == a[i].id && b[i].hasProcess == a[i].hasProcess && b[i].recorded == a[i].recorded
         && (a[i].cancelled ==> b[i].cancelled)
  }

  lemma {:induction false} CancelFirstCancels(runs: seq<Entry>, e: Entry)
    ensures SameRuns(runs, CancelFirst(runs, e))
    decreases |runs|
  {
    if runs != [] && runs[0].id != e.id {
      CancelFirstCancels(runs[1..], e);
    }
  }

  lemma {:induction false} CancelFirstReaches(runs: seq<Entry>, e: Entry, i: nat)
    requires Distinct(runs) && i < |runs| && runs[i].id == e.id && runs[i].hasProcess
    ensures |CancelFirst(runs, e)| == |runs| && CancelFirst(runs, e)[i].cancelled
    decreases |runs|
  {
    CancelFirstCancels(runs, e);
    if runs[0].id != e.id {
      CancelFirstReaches(runs[1..], e, i - 1);
    }
  }

  lemma {:induction false} SameRunsCounts(a: seq<Entry>, b: seq<Entry>)
    requires SameRuns(a, b)
    ensures Processes(b) == Processes(a)
    decreases |a|
  {
    if a != [] {
      SameRunsCounts(a[..|a| - 1], b[..|b| - 1]);
    }
  }

  lemma CancelKeepsInv(s: State, t: State)
    requires Inv(s) && SameRuns(s.registry, t.registry)
    requires t == s.(registry := t.registry, signal := t.signal, thread := t.thread)
    requires t.thread == s.thread || (s.thread.Stopping? && t.thread.Stopping?)
    requires s.up
    ensures Inv(t)
  {
    hide IsActive, RecentOutcome, Sound;
    SameIds(s.registry, t.registry);
    SameRunsCounts(s.registry, t.registry);
  }

  lemma LookupKeepsInv(s: State, e: Event)
    requires Inv(s) && s.up
    requires e.LookupOwned? || e.LookupRecent? || e.Verify? || e.StartAnswered?
    ensures Inv(Step(s, e))
  {
    hide RecentOutcome, IsActive, Sound;
    var t := Step(s, e);
    assert t == s.(thread := t.thread);
    assert EntriesKnow(t) && ThreadKnows(t);
    assert HistoryKnown(t);
  }

  lemma SpawnKeepsInv(s: State, e: Event)
    requires Inv(s) && s.up && e.Spawn?
    ensures Inv(Step(s, e))
  {
    hide RecentOutcome, IsActive, Sound;
    assert EntriesKnow(Step(s, e)) && ThreadKnows(Step(s, e));
  }

  lemma SignalKeepsInv(s: State, e: Event)
    requires Inv(s) && s.up
    requires
      || e.SignalArrives? || e.SignalStops? || e.PollStops? || e.ServerCancels? || e.SignalCancels? || e.DrainCancels?
      || e.ReporterDecides?
    ensures Inv(Step(s, e))
  {
    hide RecentOutcome, IsActive, Inv, SameRuns;
    match e {
      case ServerCancels(i) =>
        if i < |s.registry| {
          CancelledAt(s.registry, i);
          CancelKeepsInv(s, Step(s, e));
        }
      case ReporterDecides(i, outcome) =>
        if i < |s.registry| {
          DecidedAt(s.registry, i, outcome);
          CancelKeepsInv(s, Step(s, e));
        }
      case SignalCancels =>
        if s.signal.Cancelling? && s.signal.left != [] {
          CancelFirstCancels(s.registry, s.signal.left[0]);
          CancelKeepsInv(s, Step(s, e));
        }
      case DrainCancels =>
        if s.thread.Stopping? {
          if s.thread.left == [] {
            QuietKeepsInv(s, Step(s, e));
          } else {
            CancelFirstCancels(s.registry, s.thread.left[0]);
            CancelKeepsInv(s, Step(s, e));
          }
        }
      case _ =>
        QuietKeepsInv(s, Step(s, e));
    }
  }

  /** The thread may stop, and the signal goroutine move on, at any time. */
  lemma QuietKeepsInv(s: State, t: State)
    requires Inv(s) && s.up
    requires t == s.(signal := t.signal, thread := t.thread)
    requires t.thread == s.thread || (s.thread.Ready? && t.thread.Stopping?) || (s.thread.Stopping? && t.thread.Waiting?)
    ensures Inv(t)
  {
    hide IsActive, RecentOutcome, Sound;
  }

  lemma CancelledAt(runs: seq<Entry>, i: nat)
    requires i < |runs|
    ensures SameRuns(runs, runs[i := runs[i].(cancelled := runs[i].cancelled || runs[i].hasProcess)])
  {
  }

  lemma DecidedAt(runs: seq<Entry>, i: nat, outcome: Outcome)
    requires i < |runs|
    ensures SameRuns(runs, runs[i := runs[i].(outcome := Some(outcome))]) && SameRuns(runs, runs)
  {
  }

  lemma SaveKeepsInv(s: State, e: Event)
    requires Inv(s) && s.up && e.DrainSaves?
    ensures Inv(Step(s, e))
  {
    hide RecentOutcome, IsActive, Prune, Sound, Listed;
    PruneFacts(s.mem, s.mem.machineId, e.save.now);
    SavedLogs(s, Prune(s.mem, e.save.now), e.save);
    assert s.mem.(machineId := s.mem.machineId) == s.mem;
  }

  lemma CrashKeepsInv(s: State, e: Event)
    requires Inv(s) && s.up && e.Crash?
    ensures Inv(Step(s, e))
  {
    hide RecentOutcome, IsActive, Sound;
    NothingKnown(NO_CONTENTS);
    var t := Step(s, e);
    assert Processes(t.registry) == 0;
  }

  lemma StepKeepsInv(s: State, e: Event)
    requires Inv(s)
    ensures Inv(Step(s, e))
  {
    hide Inv;
    if Step(s, e) != s {
      match e
      case Boot(_, _, _) => BootKeepsInv(s, e);
      case ReconcileNext(_, _) => ReconcileKeepsInv(s, e);
      case StartPolling => StartKeepsInv(s, e);
      case LookupOwned(_, _) => LookupKeepsInv(s, e);
      case LookupRecent => LookupKeepsInv(s, e);
      case Verify(_) => LookupKeepsInv(s, e);
      case StartAnswered(_) => LookupKeepsInv(s, e);
      case Spawn(_, _) => SpawnKeepsInv(s, e);
      case RecordActive(_) => RecordKeepsInv(s, e);
      case Launch => LaunchKeepsInv(s, e);
      case ReportLost(_) =>
      case ReporterDecides(_, _) => SignalKeepsInv(s, e);
      case ReporterSends(_) =>
      case ReporterFinishes(_, _, _) => ReporterFinishesKeepsInv(s, e);
      case ReporterLeaves(_) => ReporterLeavesKeepsInv(s, e);
      case ServerCancels(_) => SignalKeepsInv(s, e);
      case SignalArrives => SignalKeepsInv(s, e);
      case SignalCancels => SignalKeepsInv(s, e);
      case SignalStops => SignalKeepsInv(s, e);
      case PollStops => SignalKeepsInv(s, e);
      case DrainCancels => SignalKeepsInv(s, e);
      case DrainSaves(_) => SaveKeepsInv(s, e);
      case Crash => CrashKeepsInv(s, e);
    }
  }

  lemma StartKeepsInv(s: State, e: Event)
    requires Inv(s) && s.up && e.StartPolling?
    ensures Inv(Step(s, e))
  {
    hide RecentOutcome, IsActive, Sound;
  }

  lemma InitInv(limit: nat)
    ensures Inv(Init(limit))
  {
    NothingKnown(NO_CONTENTS);
  }

  /** A store without a machine id has never held a run. */
  ghost predicate Named(s: State) {
    && (s.up ==> s.mem.machineId != "")
    && (s.file.machineId == "" ==> s.file.active == [] && s.file.recent == [])
  }

  lemma StepKeepsName(s: State, e: Event)
    requires s.up && !e.Crash?
    ensures Step(s, e).mem.machineId == s.mem.machineId
  {
    hide IsActive, RecentOutcome, CancelFirst, Remove, Dropped, Listed, Finished, Saved, MarkActive, MarkFinished, Prune;
    match e
    case ReconcileNext(finishedAt, save) =>
      if s.thread.Reconciling? && s.thread.todo != [] {
        var run := s.thread.todo[0];
        FinishedStore(s, run.runId, LostOutcome(run), finishedAt, save);
        SavesKeepName(s.mem, run, LostOutcome(run), finishedAt, save.now);
      }
    case ReporterFinishes(i, finishedAt, save) =>
      if Finishing(s, i) {
        var entry := s.registry[i];
        FinishedStore(s, entry.id, entry.outcome.value, finishedAt, save);
        SavesKeepName(s.mem, ActiveRun(entry.id, 0, 0, 0), entry.outcome.value, finishedAt, save.now);
      }
    case RecordActive(save) =>
      if s.thread.Spawned? {
        SavedStore(s, MarkActive(s.mem, s.thread.run, save.now), save);
        SavesKeepName(s.mem, s.thread.run, LostOutcome(s.thread.run), 0, save.now);
      }
    case DrainSaves(save) =>
      SavedStore(s, Prune(s.mem, save.now), save);
      SavesKeepName(s.mem, ActiveRun("", 0, 0, 0), Outcome(Success, None, None, None), 0, save.now);
    case _ =>
  }

  lemma SavedStore(s: State, mem: Contents, save: Save)
    ensures Saved(s, mem, save).mem == mem
  {
  }

  /** No operation on the store changes its machine id but the one that sets it. */
  lemma SavesKeepName(c: Contents, run: ActiveRun, outcome: Outcome, finishedAt: int, now: int)
    ensures Prune(c, now).machineId == c.machineId && MarkActive(c, run, now).machineId == c.machineId
    ensures MarkFinished(c, run.runId, outcome, finishedAt, now).machineId == c.machineId
  {
    hide Put, DeleteFunc, Newest;
  }

  lemma BootKeepsNamed(s: State, e: Event)
    requires Named(s) && !s.up
    ensures Named(Step(s, e))
  {
    hide IsActive, RecentOutcome, Dropped, Listed, DeleteFunc, Newest;
  }

  lemma {:induction false} EveryRunIsNamed(limit: nat, events: seq<Event>)
    ensures Named(Run(limit, events))
    decreases |events|
  {
    hide Step;
    if events != [] {
      var (s, e) := (Run(limit, events[..|events| - 1]), events[|events| - 1]);
      EveryRunIsNamed(limit, events[..|events| - 1]);
      if !s.up {
        BootKeepsNamed(s, e);
      } else {
        FileFollows(s, e);
        if !e.Crash? {
          StepKeepsName(s, e);
        }
      }
    }
  }

  lemma StepKeepsLimit(s: State, e: Event)
    ensures Step(s, e).limit == s.limit
  {
  }

  lemma {:induction false} EveryRunKeepsInv(limit: nat, events: seq<Event>)
    ensures Inv(Run(limit, events)) && Run(limit, events).limit == limit
    decreases |events|
  {
    hide Inv, Step;
    if events == [] {
      InitInv(limit);
    } else {
      EveryRunKeepsInv(limit, events[..|events| - 1]);
      StepKeepsInv(Run(limit, events[..|events| - 1]), events[|events| - 1]);
      StepKeepsLimit(Run(limit, events[..|events| - 1]), events[|events| - 1]);
    }
  }

  // ----- no run is executed twice

  /** The k-th event starts a process for the run. */
  predicate Executes(limit: nat, events: seq<Event>, k: nat, id: RunId) {
    && k < |events| && events[k].Spawn? && events[k].ok
    && Run(limit, events[..k]).thread == StartAccepted(id)
  }

  lemma RunStep(limit: nat, events: seq<Event>, k: nat)
    requires k < |events|
    ensures Run(limit, events[..k + 1]) == Step(Run(limit, events[..k]), events[k])
  {
    assert events[..k + 1][..k] == events[..k];
  }

  lemma SpawnedUntilCrash(s: State, e: Event, id: RunId)
    requires Inv(s) && id in s.spawned
    ensures id in Step(s, e).spawned || e.Crash?
  {
    hide Sound, EntriesKnow, ThreadKnows, HistoryKnown;
  }

  lemma SpawnSpawns(s: State, e: Event, id: RunId)
    requires Inv(s) && e.Spawn? && e.ok && s.thread == StartAccepted(id)
    ensures id in Step(s, e).spawned
  {
    hide Sound, EntriesKnow, ThreadKnows, HistoryKnown;
  }

  lemma {:induction false} SpawnedSince(limit: nat, events: seq<Event>, i: nat, j: nat, id: RunId)
    requires i < j <= |events| && Executes(limit, events, i, id)
    ensures id in Run(limit, events[..j]).spawned || exists c :: i < c < j && events[c].Crash?
    decreases j
  {
    hide Inv, Step;
    RunStep(limit, events, j - 1);
    EveryRunKeepsInv(limit, events[..j - 1]);
    if j == i + 1 {
      SpawnSpawns(Run(limit, events[..i]), events[i], id);
    } else {
      SpawnedSince(limit, events, i, j - 1, id);
      if id in Run(limit, events[..j - 1]).spawned {
        SpawnedUntilCrash(Run(limit, events[..j - 1]), events[j - 1], id);
      }
    }
  }

  lemma ThreadNeedsUp(limit: nat, events: seq<Event>)
    ensures !Run(limit, events).up ==> Run(limit, events).thread == Ready
  {
    EveryRunKeepsInv(limit, events);
  }

  /** A run id that is executed again has either had its record dropped since it was
      last executed, as too old, one too many or another machine's; or the agent
      crashed after the first execution and, since the last one, before any save that
      covered the run succeeded. */
  lemma NeverExecutedTwice(limit: nat, events: seq<Event>, i: nat, j: nat, id: RunId)
    requires i < j && Executes(limit, events, i, id) && Executes(limit, events, j, id)
    ensures
      var s := Run(limit, events[..j]);
      || id in s.dropped
      || (id !in s.saved && exists c :: i < c < j && events[c].Crash?)
  {
    SpawnedSince(limit, events, i, j, id);
    EveryRunKeepsInv(limit, events[..j]);
    ThreadNeedsUp(limit, events[..j]);
    ReadyToSpawn(Run(limit, events[..j]), id);
  }

  lemma ReadyToSpawn(s: State, id: RunId)
    requires Inv(s) && s.up && s.thread == StartAccepted(id)
    ensures id in s.spawned || id in s.saved ==> id in s.dropped
  {
    hide Sound, EntriesKnow;
  }

  const RUN := ActiveRun("r", 1, 1, 0)

  const BOOT_AND_LEASE: seq<Event> := [
    Boot("m", false, Save(0, true)), StartPolling,
    LookupOwned("r", false), LookupRecent, Verify(true), StartAnswered(true)]

  /** A save that fails between the spawn and a crash. */
  const LOST_MARK: seq<Event> := [Spawn(true, RUN), RecordActive(Save(0, false)), Crash]

  function LostSave(): seq<Event> {
    BOOT_AND_LEASE + LOST_MARK + BOOT_AND_LEASE + [Spawn(true, RUN)]
  }

  const FRESH := NO_CONTENTS.(machineId := "m")

  /** The agent at a place of its thread, with nothing recorded. */
  function FreshAgent(thread: Thread): State {
    State(1, true, thread, NoSignal, [], FRESH, FRESH, map[], {}, {}, {}, {})
  }

  function FreshFile(file: Contents): State {
    State(1, false, Ready, NoSignal, [], NO_CONTENTS, file, map[], {}, {}, {}, {})
  }

  lemma BootsFresh(file: Contents)
    requires file in {NO_CONTENTS, FRESH}
    ensures Step(Step(FreshFile(file), BOOT_AND_LEASE[0]), BOOT_AND_LEASE[1]) == FreshAgent(Ready)
  {
    assert Prune(FRESH, 0) == FRESH && Dropped(NO_CONTENTS, FRESH) == {} && Listed(FRESH) == {};
    assert NO_CONTENTS.(machineId := "m") == FRESH;
    hide Prune, Dropped, Listed;
    assert Step(FreshFile(file), BOOT_AND_LEASE[0]) == FreshAgent(Reconciling([]));
  }

  lemma FollowsLease()
    ensures Step(Step(Step(Step(FreshAgent(Ready), BOOT_AND_LEASE[2]), BOOT_AND_LEASE[3]), BOOT_AND_LEASE[4]), BOOT_AND_LEASE[5])
         == FreshAgent(StartAccepted("r"))
  {
    assert RecentOutcome(FRESH, "r").None? && !IsActive(FRESH, "r");
    hide RecentOutcome, IsActive;
    assert Step(FreshAgent(Ready), BOOT_AND_LEASE[2]) == FreshAgent(NotOwned("r", false));
    assert Step(FreshAgent(NotOwned("r", false)), BOOT_AND_LEASE[3]) == FreshAgent(NotRecent("r", false));
    assert Step(FreshAgent(NotRecent("r", false)), BOOT_AND_LEASE[4]) == FreshAgent(Starting("r"));
  }

  lemma NothingDropped(after: Contents)
    ensures Dropped(FRESH, after) == {}
  {
  }

  /** The process is lost with the agent, and so is the mark that was not saved. */
  lemma LosesMark()
    ensures Step(Step(Step(FreshAgent(StartAccepted("r")), LOST_MARK[0]), LOST_MARK[1]), LOST_MARK[2]) == FreshFile(FRESH)
  {
    hide MarkActive, Dropped;
    NothingDropped(MarkActive(FRESH, RUN, 0));
    assert Step(FreshAgent(StartAccepted("r")), LOST_MARK[0]) == FreshAgent(Spawned(RUN)).(spawned := {"r"});
  }

  /** Six events of a sequence are BOOT_AND_LEASE. */
  lemma SixSteps(events: seq<Event>, k: nat, file: Contents)
    requires k + 6 <= |events| && file in {NO_CONTENTS, FRESH}
    requires events[k..k + 6] == BOOT_AND_LEASE
    requires Run(1, events[..k]) == FreshFile(file)
    ensures Run(1, events[..k + 6]) == FreshAgent(StartAccepted("r"))
  {
    hide Step, Run;
    SliceSteps(events, k, k);
    SliceSteps(events, k, k + 1);
    SliceSteps(events, k, k + 2);
    SliceSteps(events, k, k + 3);
    SliceSteps(events, k, k + 4);
    SliceSteps(events, k, k + 5);
    BootsFresh(file);
    FollowsLease();
  }

  lemma SliceSteps(events: seq<Event>, k: nat, i: nat)
    requires k <= i < k + 6 <= |events| && events[k..k + 6] == BOOT_AND_LEASE
    ensures Run(1, events[..i + 1]) == Step(Run(1, events[..i]), BOOT_AND_LEASE[i - k])
  {
    hide Step, Run;
    RunStep(1, events, i);
    assert events[i] == events[k..k + 6][i - k];
  }

  lemma LostSaveParts()
    ensures
      var events := LostSave();
      && |events| == 16 && events[0..6] == BOOT_AND_LEASE && events[9..15] == BOOT_AND_LEASE
      && events[6] == LOST_MARK[0] && events[7] == LOST_MARK[1] && events[8] == LOST_MARK[2]
      && events[15] == Spawn(true, RUN)
  {
  }

  /** Both halves of the condition are needed: a crash after a failed save makes the
      agent execute a run again whose record was never dropped. */
  lemma LostSaveRunsTwice()
    ensures Executes(1, LostSave(), 6, "r") && Executes(1, LostSave(), 15, "r")
    ensures "r" !in Run(1, LostSave()[..15]).dropped && "r" !in Run(1, LostSave()[..15]).saved
  {
    LostSaveParts();
    var events := LostSave();
    hide Step, LostSave;
    assert Run(1, events[..0]) == FreshFile(NO_CONTENTS);
    hide Run;
    SixSteps(events, 0, NO_CONTENTS);
    RunStep(1, events, 6);
    RunStep(1, events, 7);
    RunStep(1, events, 8);
    LosesMark();
    SixSteps(events, 9, FRESH);
  }

  /** When a lease is verified, its run is never listed as active: the earlier
      lookups have caught every run that could be. */
  lemma VerifyNeverSeesActive(limit: nat, events: seq<Event>)
    ensures
      var s := Run(limit, events);
      s.thread.NotRecent? ==> !IsActive(s.mem, s.thread.id)
  {
    EveryRunKeepsInv(limit, events);
  }

  // ----- recorded outcomes are stable

  /** The running agent has the outcome on record. */
  ghost predicate Remembered(s: State, r: RecentRun) {
    s.up && RecentOutcome(s.mem, r.runId) == Some(r)
  }

  /** The outcome is recorded, in the file and in the running agent. */
  ghost predicate Recorded(s: State, r: RecentRun) {
    && RecentOutcome(s.file, r.runId) == Some(r)
    && (s.up ==> Remembered(s, r))
  }

  lemma ForgottenGrows(s: State, e: Event)
    ensures s.forgotten <= Step(s, e).forgotten
  {
    hide Dropped, Listed, Prune, MarkActive, MarkFinished, RecentOutcome, CancelFirst, Remove;
  }

  lemma BootKeepsRecorded(s: State, e: Event, r: RecentRun)
    requires Inv(s) && !s.up && e.Boot? && Recorded(s, r)
    ensures Recorded(Step(s, e), r) || r.runId in Step(s, e).forgotten
  {
    hide IsActive, RecentOutcome, Prune, EntriesKnow, ThreadKnows, HistoryKnown, Listed;
    PruneFacts(s.file, e.machineId, e.save.now);
    ListedIsKnown(s.file);
    assert Known(s.file, r.runId);
  }

  lemma MarkingKeepsRemembered(s: State, e: Event, r: RecentRun)
    requires Inv(s) && Remembered(s, r)
    requires e.RecordActive? || e.DrainSaves?
    ensures Remembered(Step(s, e), r) || r.runId in Step(s, e).forgotten
  {
    hide IsActive, RecentOutcome, Prune, MarkActive, Sound, HistoryKnown, EntriesKnow, Listed;
    PruneFacts(s.mem, s.mem.machineId, e.save.now);
    assert s.mem.(machineId := s.mem.machineId) == s.mem;
    if s.thread.Spawned? && e.RecordActive? {
      ActiveFacts(s.mem, s.thread.run, e.save.now);
    }
  }

  lemma FinishingKeepsRemembered(s: State, e: Event, r: RecentRun)
    requires Inv(s) && Remembered(s, r)
    requires e.ReconcileNext? || e.ReporterFinishes?
    ensures Remembered(Step(s, e), r) || r.runId in Step(s, e).forgotten
  {
    hide IsActive, RecentOutcome, Finished, HistoryKnown, Listed;
    if e.ReporterFinishes? && Finishing(s, e.i) {
      var (id, outcome) := (s.registry[e.i].id, s.registry[e.i].outcome.value);
      var gone := FinishedRecords(s, id, outcome, e.finishedAt, e.save);
      FinishedElsewhere(s, id, outcome, e.finishedAt, e.save);
    }
    if e.ReconcileNext? && s.thread.Reconciling? && s.thread.todo != [] {
      var run := s.thread.todo[0];
      var gone := FinishedRecords(s, run.runId, LostOutcome(run), e.finishedAt, e.save);
      FinishedElsewhere(s, run.runId, LostOutcome(run), e.finishedAt, e.save);
      assert IsActive(s.mem, run.runId);
    }
  }

  /** Whether or not a save ever succeeds, an outcome stays on record while the agent
      runs. */
  lemma StepKeepsRemembered(s: State, e: Event, r: RecentRun)
    requires Inv(s) && Remembered(s, r) && !e.Crash?
    ensures Remembered(Step(s, e), r) || r.runId in Step(s, e).forgotten
  {
    if e.RecordActive? || e.DrainSaves? {
      MarkingKeepsRemembered(s, e, r);
    } else if e.ReconcileNext? || e.ReporterFinishes? {
      FinishingKeepsRemembered(s, e, r);
    } else {
      KeepsStore(s, e);
    }
  }

  /** The other events of a running agent leave the store alone. */
  lemma KeepsStore(s: State, e: Event)
    requires s.up
    requires !e.RecordActive? && !e.DrainSaves? && !e.ReconcileNext? && !e.ReporterFinishes? && !e.Crash?
    ensures Step(s, e).up && Step(s, e).mem == s.mem
  {
    hide IsActive, RecentOutcome, CancelFirst, Remove;
  }

  lemma FileFollows(s: State, e: Event)
    requires s.up
    ensures Step(s, e).file == s.file || Step(s, e).file == Step(s, e).mem
    ensures e.Crash? ==> Step(s, e).file == s.file && !Step(s, e).up
  {
    hide IsActive, RecentOutcome, CancelFirst, Remove, Dropped, Listed, Prune, MarkActive, MarkFinished;
  }

  lemma StepKeepsRecorded(s: State, e: Event, r: RecentRun)
    requires Inv(s) && Recorded(s, r)
    ensures Recorded(Step(s, e), r) || r.runId in Step(s, e).forgotten
  {
    if s.up {
      hide Step, Inv, RecentOutcome;
      FileFollows(s, e);
      if !e.Crash? {
        StepKeepsRemembered(s, e, r);
      }
    } else if e.Boot? {
      BootKeepsRecorded(s, e, r);
    }
  }

  lemma {:induction false} RecordedSince(limit: nat, events: seq<Event>, i: nat, j: nat, r: RecentRun)
    requires i <= j <= |events| && Recorded(Run(limit, events[..i]), r)
    ensures Recorded(Run(limit, events[..j]), r) || r.runId in Run(limit, events[..j]).forgotten
    decreases j
  {
    hide Inv, Recorded, Step;
    if i < j {
      RecordedSince(limit, events, i, j - 1, r);
      RunStep(limit, events, j - 1);
      EveryRunKeepsInv(limit, events[..j - 1]);
      ForgottenGrows(Run(limit, events[..j - 1]), events[j - 1]);
      if Recorded(Run(limit, events[..j - 1]), r) {
        StepKeepsRecorded(Run(limit, events[..j - 1]), events[j - 1], r);
      }
    }
  }

  /** The finish request an event makes: Resend for a lease of a finished run, the
      report of a lost run, or a reporter's own. */
  function Sends(s: State, e: Event): Option<(RunId, Outcome)> {
    if !s.up then None
    else if e.LookupRecent? && s.thread.NotOwned? && RecentOutcome(s.mem, s.thread.id).Some? then
      Some((s.thread.id, RecentOutcome(s.mem, s.thread.id).value.outcome))
    else if e.ReportLost? && e.id in s.lost then Some((e.id, LostOutcome(s.lost[e.id])))
    else if e.ReporterSends? && Finishing(s, e.i) then
      Some((s.registry[e.i].id, s.registry[e.i].outcome.value))
    else None
  }

  lemma SendsRemembered(s: State, e: Event, r: RecentRun)
    requires Inv(s) && Remembered(s, r) && Sends(s, e).Some? && Sends(s, e).value.0 == r.runId
    ensures Sends(s, e).value.1 == r.outcome || r.runId in s.forgotten
  {
    hide Sound, RecentOutcome, IsActive, ThreadKnows;
  }

  /** A lease of a finished run makes the agent send the outcome it has on record, and
      nothing else happens. */
  lemma ResendsExactly(s: State, id: RunId, cancelled: bool)
    requires s.up && s.thread == NotOwned(id, cancelled)
    ensures Sends(s, LookupRecent).Some? <==> RecentOutcome(s.mem, id).Some?
    ensures RecentOutcome(s.mem, id).Some? ==>
      && Sends(s, LookupRecent) == Some((id, RecentOutcome(s.mem, id).value.outcome))
      && Step(s, LookupRecent) == s.(thread := Ready)
  {
    hide RecentOutcome;
  }

  lemma {:induction false} RememberedSince(limit: nat, events: seq<Event>, i: nat, j: nat, r: RecentRun)
    requires i <= j <= |events| && Remembered(Run(limit, events[..i]), r)
    requires forall k :: i <= k < j ==> !events[k].Crash?
    ensures Remembered(Run(limit, events[..j]), r) || r.runId in Run(limit, events[..j]).forgotten
    decreases j
  {
    hide Inv, Remembered, Step;
    if i < j {
      RememberedSince(limit, events, i, j - 1, r);
      RunStep(limit, events, j - 1);
      EveryRunKeepsInv(limit, events[..j - 1]);
      ForgottenGrows(Run(limit, events[..j - 1]), events[j - 1]);
      if Remembered(Run(limit, events[..j - 1]), r) {
        StepKeepsRemembered(Run(limit, events[..j - 1]), events[j - 1], r);
      }
    }
  }

  /** Once an outcome is on record, saved or not, every later finish request that the
      running agent makes for that run carries exactly it until it is forgotten. */
  lemma RememberedOutcomesAreStable(limit: nat, events: seq<Event>, i: nat, j: nat, r: RecentRun)
    requires i <= j < |events| && Remembered(Run(limit, events[..i]), r)
    requires forall k :: i <= k < j ==> !events[k].Crash?
    ensures
      var s := Run(limit, events[..j]);
      var sent := Sends(s, events[j]);
      sent.Some? && sent.value.0 == r.runId && r.runId !in s.forgotten ==> sent.value.1 == r.outcome
  {
    hide Inv, Remembered, Sends;
    RememberedSince(limit, events, i, j, r);
    EveryRunKeepsInv(limit, events[..j]);
    var s := Run(limit, events[..j]);
    if Remembered(s, r) && Sends(s, events[j]).Some? && Sends(s, events[j]).value.0 == r.runId {
      SendsRemembered(s, events[j], r);
    }
  }

  /** And a lease for the run is answered with it. */
  lemma RememberedIsResent(limit: nat, events: seq<Event>, i: nat, j: nat, r: RecentRun)
    requires i <= j < |events| && Remembered(Run(limit, events[..i]), r)
    requires forall k :: i <= k < j ==> !events[k].Crash?
    requires
      var s := Run(limit, events[..j]);
      s.thread.NotOwned? && s.thread.id == r.runId && events[j] == LookupRecent && r.runId !in s.forgotten
    ensures Sends(Run(limit, events[..j]), events[j]) == Some((r.runId, r.outcome))
  {
    hide Inv, RecentOutcome, Run, Sends;
    RememberedSince(limit, events, i, j, r);
    var s := Run(limit, events[..j]);
    ResendsExactly(s, r.runId, s.thread.cancelled);
  }

  /** Once an outcome is recorded in the file, every later finish request for that
      run, over any number of restarts, carries exactly it until it is forgotten. */
  lemma RecordedOutcomesAreStable(limit: nat, events: seq<Event>, i: nat, j: nat, r: RecentRun)
    requires i <= j < |events| && Recorded(Run(limit, events[..i]), r)
    ensures
      var s := Run(limit, events[..j]);
      var sent := Sends(s, events[j]);
      sent.Some? && sent.value.0 == r.runId && r.runId !in s.forgotten ==> sent.value.1 == r.outcome
  {
    hide Inv, Remembered;
    RecordedSince(limit, events, i, j, r);
    EveryRunKeepsInv(limit, events[..j]);
    var s := Run(limit, events[..j]);
    if s.up && Recorded(s, r) && Sends(s, events[j]).Some? && Sends(s, events[j]).value.0 == r.runId {
      SendsRemembered(s, events[j], r);
    }
  }

  // ----- what is sent is what is recorded

  ghost predicate Decided(runs: seq<Entry>, id: RunId, outcome: Outcome) {
    forall k :: 0 <= k < |runs| && runs[k].id == id ==> runs[k].outcome == Some(outcome)
  }

  lemma {:induction false} CancelKeepsDecided(runs: seq<Entry>, e: Entry, id: RunId, outcome: Outcome)
    requires Decided(runs, id, outcome)
    ensures Decided(CancelFirst(runs, e), id, outcome)
    decreases |runs|
  {
    if runs != [] && runs[0].id != e.id {
      assert Decided(runs[1..], id, outcome);
      CancelKeepsDecided(runs[1..], e, id, outcome);
    }
  }

  lemma {:induction false} RemoveKeepsDecided(runs: seq<Entry>, gone: RunId, id: RunId, outcome: Outcome)
    requires Decided(runs, id, outcome)
    ensures Decided(Remove(runs, gone), id, outcome)
    decreases |runs|
  {
    if runs != [] && runs[0].id != gone {
      assert Decided(runs[1..], id, outcome);
      RemoveKeepsDecided(runs[1..], gone, id, outcome);
    }
  }

  lemma StepKeepsDecided(s: State, e: Event, id: RunId, outcome: Outcome)
    requires Inv(s) && Owns(s.registry, id) && Decided(s.registry, id, outcome)
    ensures Decided(Step(s, e).registry, id, outcome)
  {
    hide Sound, EntriesKnow, HistoryKnown, RecentOutcome, IsActive, Finished, Dropped, Listed, Prune, MarkActive;
    match e
    case ReporterFinishes(i, finishedAt, save) =>
      if s.up && Finishing(s, i) {
        FinishedElsewhere(s, s.registry[i].id, s.registry[i].outcome.value, finishedAt, save);
      }
    case SignalCancels =>
      if s.signal.Cancelling? && s.signal.left != [] {
        CancelKeepsDecided(s.registry, s.signal.left[0], id, outcome);
      }
    case DrainCancels =>
      if s.thread.Stopping? && s.thread.left != [] {
        CancelKeepsDecided(s.registry, s.thread.left[0], id, outcome);
      }
    case ReporterLeaves(i) =>
      if i < |s.registry| {
        RemoveKeepsDecided(s.registry, s.registry[i].id, id, outcome);
      }
    case _ =>
  }

  lemma {:induction false} DecidedSince(limit: nat, events: seq<Event>, i: nat, j: nat, id: RunId, outcome: Outcome)
    requires i <= j <= |events| && Decided(Run(limit, events[..i]).registry, id, outcome)
    requires forall k :: i <= k <= j ==> Owns(Run(limit, events[..k]).registry, id)
    ensures Decided(Run(limit, events[..j]).registry, id, outcome)
    decreases j
  {
    hide Inv, Step, Run, Decided;
    if i < j {
      DecidedSince(limit, events, i, j - 1, id, outcome);
      RunStep(limit, events, j - 1);
      EveryRunKeepsInv(limit, events[..j - 1]);
      StepKeepsDecided(Run(limit, events[..j - 1]), events[j - 1], id, outcome);
    }
  }

  /** While a reporter owns its run, what it records is what every one of its finish
      requests carried. */
  lemma SentIsRecorded(limit: nat, events: seq<Event>, i: nat, j: nat, at: nat, to: nat, id: RunId)
    requires i <= j <= |events| && forall k :: i <= k <= j ==> Owns(Run(limit, events[..k]).registry, id)
    requires Finishing(Run(limit, events[..i]), at) && Run(limit, events[..i]).registry[at].id == id
    requires Finishing(Run(limit, events[..j]), to) && Run(limit, events[..j]).registry[to].id == id
    ensures Run(limit, events[..j]).registry[to].outcome == Run(limit, events[..i]).registry[at].outcome
    ensures Sends(Run(limit, events[..i]), ReporterSends(at))
         == Some((id, Run(limit, events[..j]).registry[to].outcome.value))
  {
    hide Step, Run, ThreadKnows, HistoryKnown, Sound;
    EveryRunKeepsInv(limit, events[..i]);
    EveryRunKeepsInv(limit, events[..j]);
    var s := Run(limit, events[..i]);
    DecidedSince(limit, events, i, j, id, s.registry[at].outcome.value);
  }

  /** A reporter's outcome is recorded by the save that follows it, if that save
      succeeds and the clock does not jump. */
  lemma FinishRecords(limit: nat, events: seq<Event>, e: Event)
    requires
      var s := Run(limit, events);
      && s.up && e.ReporterFinishes? && Finishing(s, e.i)
      && e.save.ok && e.save.now <= e.finishedAt + RECENT_RUN_TTL
    ensures
      var s := Run(limit, events);
      Recorded(Step(s, e), RecentRun(s.registry[e.i].id, s.registry[e.i].outcome.value, e.finishedAt))
  {
    var s := Run(limit, events);
    EveryRunKeepsInv(limit, events);
    FinishSaves(s, e);
    assert Sound(s.mem) && |s.mem.recent| <= MAX_RECENT_RUNS;
    hide Run, Step, Inv, MarkFinished, RecentOutcome;
    JustRecordedSurvives(s.mem, s.registry[e.i].id, s.registry[e.i].outcome.value, e.finishedAt, e.save.now);
  }

  lemma FinishSaves(s: State, e: Event)
    requires s.up && e.ReporterFinishes? && Finishing(s, e.i) && e.save.ok
    ensures
      var t := Step(s, e);
      && t.up && t.file == t.mem
      && t.mem == MarkFinished(s.mem, s.registry[e.i].id, s.registry[e.i].outcome.value, e.finishedAt, e.save.now)
  {
    hide MarkFinished, RecentOutcome, Dropped, Listed;
  }

  // ----- the concurrency limit

  /** The slots of a work request. */
  function Slots(s: State): int {
    var left := s.limit - |s.registry|;
    if left < 0 then 0 else if left > 16 then 16 else left
  }

  /** No more processes than the limit exist at any time, counting one that is not
      yet registered; and the slots asked for leave room for those that exist. */
  lemma ProcessesStayWithinLimit(limit: nat, events: seq<Event>)
    ensures
      var s := Run(limit, events);
      && Processes(s.registry) + InHand(s.thread) <= limit
      && 0 <= Slots(s) <= 16 && Slots(s) <= limit
      && (|s.registry| <= limit ==> Slots(s) + |s.registry| <= limit && (Slots(s) < 16 ==> Slots(s) + |s.registry| == limit))
      && (|s.registry| > limit ==> Slots(s) == 0)
      && Slots(s) + Processes(s.registry) <= limit
  {
    EveryRunKeepsInv(limit, events);
  }

  // ----- a graceful stop misses nobody

  ghost predicate IsLeft(left: seq<Entry>, id: RunId) {
    exists k :: 0 <= k < |left| && left[k].id == id
  }

  ghost predicate StopReaches(s: State) {
    match s.thread
    case Stopping(left) =>
      forall i :: 0 <= i < |s.registry| && s.registry[i].hasProcess ==>
        s.registry[i].cancelled || IsLeft(left, s.registry[i].id)
    case Waiting =>
      forall i :: 0 <= i < |s.registry| && s.registry[i].hasProcess ==> s.registry[i].cancelled
    case _ => true
  }

  lemma DrainKeepsStop(s: State, e: Event)
    requires Distinct(s.registry) && StopReaches(s) && s.up && e.DrainCancels? && s.thread.Stopping?
    ensures StopReaches(Step(s, e))
  {
    var t, left := Step(s, e), s.thread.left;
    if left != [] {
      CancelFirstCancels(s.registry, left[0]);
      LeftShrinks(left);
      forall i | 0 <= i < |s.registry| && s.registry[i].id == left[0].id && s.registry[i].hasProcess
        ensures t.registry[i].cancelled
      {
        CancelFirstReaches(s.registry, left[0], i);
      }
    }
  }

  lemma LeavingKeepsStop(s: State, e: Event)
    requires Distinct(s.registry) && StopReaches(s) && s.up && e.ReporterLeaves?
    ensures StopReaches(Step(s, e))
  {
    if e.i < |s.registry| && s.registry[e.i].recorded {
      RemoveAt(s.registry, e.i);
      assert Step(s, e).registry == s.registry[..e.i] + s.registry[e.i + 1..];
    }
  }

  lemma CancellingKeepsStop(s: State, e: Event)
    requires StopReaches(s) && s.up && (e.SignalCancels? || e.ServerCancels?)
    ensures StopReaches(Step(s, e))
  {
    if e.SignalCancels? && s.signal.Cancelling? && s.signal.left != [] {
      CancelFirstCancels(s.registry, s.signal.left[0]);
    }
    if e.ServerCancels? && e.i < |s.registry| {
      CancelledAt(s.registry, e.i);
    }
  }

  lemma StoppingKeepsStop(s: State, e: Event)
    requires s.up && e.PollStops?
    requires StopReaches(s)
    ensures StopReaches(Step(s, e))
  {
    forall i | 0 <= i < |s.registry| ensures IsLeft(s.registry, s.registry[i].id) {
    }
  }

  /** Recording and saving leave the thread and the processes alone. */
  lemma RecordingKeepsStop(s: State, e: Event)
    requires StopReaches(s) && s.up
    requires e.ReporterDecides? || e.ReporterFinishes? || e.DrainSaves? || e.RecordActive? || e.ReconcileNext?
    ensures StopReaches(Step(s, e))
  {
    hide Finished, Saved, Prune, MarkActive;
    match e
    case ReporterFinishes(i, finishedAt, save) =>
      if Finishing(s, i) {
        FinishedElsewhere(s, s.registry[i].id, s.registry[i].outcome.value, finishedAt, save);
      }
    case DrainSaves(save) => SavedElsewhere(s, Prune(s.mem, save.now), save);
    case _ =>
  }

  lemma SavedElsewhere(s: State, mem: Contents, save: Save)
    ensures Saved(s, mem, save).registry == s.registry && Saved(s, mem, save).thread == s.thread
  {
  }

  /** The steps before a stop, and those that leave the registry alone. */
  lemma EarlierKeepsStop(s: State, e: Event)
    requires StopReaches(s) && s.up
    requires
      || e.Boot? || e.StartPolling? || e.LookupOwned? || e.LookupRecent? || e.Verify? || e.StartAnswered? || e.Spawn?
      || e.Launch? || e.ReportLost? || e.ReporterSends? || e.SignalArrives? || e.SignalStops? || e.Crash?
    ensures StopReaches(Step(s, e))
  {
    hide RecentOutcome, IsActive;
  }

  lemma StepKeepsStop(s: State, e: Event)
    requires Inv(s) && StopReaches(s)
    ensures StopReaches(Step(s, e))
  {
    if !s.up {
      DownKeepsStop(s, e);
    } else {
      hide Step, StopReaches, ThreadKnows, HistoryKnown, Sound;
      match e
      case DrainCancels =>
        if s.thread.Stopping? {
          DrainKeepsStop(s, e);
        } else {
          NoDrain(s);
        }
      case ReporterLeaves(_) => LeavingKeepsStop(s, e);
      case SignalCancels => CancellingKeepsStop(s, e);
      case ServerCancels(_) => CancellingKeepsStop(s, e);
      case PollStops => StoppingKeepsStop(s, e);
      case ReporterDecides(_, _) => RecordingKeepsStop(s, e);
      case ReporterFinishes(_, _, _) => RecordingKeepsStop(s, e);
      case DrainSaves(_) => RecordingKeepsStop(s, e);
      case RecordActive(_) => RecordingKeepsStop(s, e);
      case ReconcileNext(_, _) => RecordingKeepsStop(s, e);
      case _ => EarlierKeepsStop(s, e);
    }
  }

  lemma DownKeepsStop(s: State, e: Event)
    requires Inv(s) && !s.up
    ensures StopReaches(Step(s, e))
  {
    hide Sound, EntriesKnow, HistoryKnown, Adopt;
  }

  lemma NoDrain(s: State)
    requires StopReaches(s) && s.up && !s.thread.Stopping?
    ensures StopReaches(Step(s, DrainCancels))
  {
  }

  lemma LeftShrinks(left: seq<Entry>)
    requires left != []
    ensures forall id :: IsLeft(left, id) ==> id == left[0].id || IsLeft(left[1..], id)
  {
    forall id | IsLeft(left, id) ensures id == left[0].id || IsLeft(left[1..], id) {
      var k :| 0 <= k < |left| && left[k].id == id;
      if k > 0 {
        assert left[1..][k - 1].id == id;
      }
    }
  }

  /** When the agent starts waiting for its reporters, every run it owns that has a
      process has been cancelled, however the signal met the poll thread. */
  lemma {:induction false} StopMissesNobody(limit: nat, events: seq<Event>)
    ensures StopReaches(Run(limit, events))
    ensures
      var s := Run(limit, events);
      s.thread == Waiting ==>
        forall i :: 0 <= i < |s.registry| && s.registry[i].hasProcess ==> s.registry[i].cancelled
    decreases |events|
  {
    hide Inv, Step;
    if events != [] {
      var before := events[..|events| - 1];
      StopMissesNobody(limit, before);
      EveryRunKeepsInv(limit, before);
      StepKeepsStop(Run(limit, before), events[|events| - 1]);
    }
  }
}

/** internal/state/state.go: the store that survives a restart, with one list of
    processes under way and one of outcomes, and what pruning does to the latter. */
module StateSpec {
  import opened Chunks
  import opened Options
  import opened Protocol

  const MAX_RECENT_RUNS := 1000
  const RECENT_RUN_TTL := 7 * 24 * 3600 * 1_000_000_000

  datatype ActiveRun = ActiveRun(runId: RunId, pid: int, pgid: int, startedAt: int)

  datatype Outcome = Outcome(
    status: RunStatus,
    exitCode: Option<int>,
    startedAt: Option<int>,
    reason: Option<FinishReason>)

  datatype RecentRun = RecentRun(runId: RunId, outcome: Outcome, finishedAt: int)

  datatype Contents = Contents(machineId: string, active: seq<ActiveRun>, recent: seq<RecentRun>)

  const NO_CONTENTS := Contents("", [], [])

  // ----- Go's slices functions

  function IndexFunc<T>(xs: seq<T>, p: T -> bool): (i: int)
    ensures -1 <= i < |xs|
    ensures i >= 0 ==> p(xs[i]) && forall j :: 0 <= j < i ==> !p(xs[j])
    ensures i < 0 ==> forall j :: 0 <= j < |xs| ==> !p(xs[j])
  {
    if xs == [] then -1
    else if p(xs[0]) then 0
    else
      var i := IndexFunc(xs[1..], p);
      if i < 0 then -1 else i + 1
  }

  function DeleteFunc<T>(xs: seq<T>, p: T -> bool): seq<T> {
    if xs == [] then [] else (if p(xs[0]) then [] else [xs[0]]) + DeleteFunc(xs[1..], p)
  }

  /** Replaces the first match in place, or appends. */
  function Put<T>(xs: seq<T>, p: T -> bool, x: T): seq<T> {
    var i := IndexFunc(xs, p);
    if i >= 0 then xs[i := x] else xs + [x]
  }

  // ----- the store

  function ActiveWith(id: RunId): ActiveRun -> bool {
    (r: ActiveRun) => r.runId == id
  }

  function RecentWith(id: RunId): RecentRun -> bool {
    (r: RecentRun) => r.runId == id
  }

  function ExpiredAt(now: int): RecentRun -> bool {
    (r: RecentRun) => r.finishedAt < now - RECENT_RUN_TTL
  }

  function Newest(recent: seq<RecentRun>): seq<RecentRun> {
    if |recent| > MAX_RECENT_RUNS then recent[|recent| - MAX_RECENT_RUNS..] else recent
  }

  function Prune(c: Contents, now: int): Contents {
    c.(recent := Newest(DeleteFunc(c.recent, ExpiredAt(now))))
  }

  function MarkActive(c: Contents, run: ActiveRun, now: int): Contents {
    Prune(c.(active := Put(c.active, ActiveWith(run.runId), run)), now)
  }

  /** `finishedAt` and `now` are the two readings of the clock. */
  function MarkFinished(c: Contents, id: RunId, outcome: Outcome, finishedAt: int, now: int): Contents {
    Prune(c.(active := DeleteFunc(c.active, ActiveWith(id)),
             recent := Put(c.recent, RecentWith(id), RecentRun(id, outcome, finishedAt))), now)
  }

  predicate IsActive(c: Contents, id: RunId) {
    IndexFunc(c.active, ActiveWith(id)) >= 0
  }

  function RecentOutcome(c: Contents, id: RunId): Option<RecentRun> {
    var i := IndexFunc(c.recent, RecentWith(id));
    if i < 0 then None else Some(c.recent[i])
  }

  predicate Known(c: Contents, id: RunId) {
    IsActive(c, id) || RecentOutcome(c, id).Some?
  }

  /** One entry per run in either list, and no run in both. */
  ghost predicate Sound(c: Contents) {
    && (forall i, j :: 0 <= i < j < |c.active| ==> c.active[i].runId != c.active[j].runId)
    && (forall i, j :: 0 <= i < j < |c.recent| ==> c.recent[i].runId != c.recent[j].runId)
    && (forall id :: IsActive(c, id) ==> RecentOutcome(c, id).None?)
  }

  // ----- what pruning keeps

  lemma {:induction false} DeleteKeeps<T>(xs: seq<T>, p: T -> bool)
    ensures forall x :: x in DeleteFunc(xs, p) <==> x in xs && !p(x)
    ensures |DeleteFunc(xs, p)| <= |xs|
    decreases |xs|
  {
    if xs != [] {
      DeleteKeeps(xs[1..], p);
      assert xs == [xs[0]] + xs[1..];
    }
  }

  lemma {:induction false} DeleteSplits<T>(a: seq<T>, b: seq<T>, p: T -> bool)
    ensures DeleteFunc(a + b, p) == DeleteFunc(a, p) + DeleteFunc(b, p)
    decreases |a|
  {
    if a == [] {
      assert a + b == b;
    } else {
      assert (a + b)[0] == a[0] && (a + b)[1..] == a[1..] + b;
      DeleteSplits(a[1..], b, p);
    }
  }

  ghost predicate DistinctRecent(recent: seq<RecentRun>) {
    forall i, j :: 0 <= i < j < |recent| ==> recent[i].runId != recent[j].runId
  }

  ghost predicate DistinctActive(active: seq<ActiveRun>) {
    forall i, j :: 0 <= i < j < |active| ==> active[i].runId != active[j].runId
  }

  lemma {:induction false} DeleteStaysDistinct(recent: seq<RecentRun>, p: RecentRun -> bool)
    requires DistinctRecent(recent)
    ensures DistinctRecent(DeleteFunc(recent, p))
    decreases |recent|
  {
    if recent != [] {
      DeleteStaysDistinct(recent[1..], p);
      DeleteKeeps(recent[1..], p);
      var rest := DeleteFunc(recent[1..], p);
      assert forall i :: 0 <= i < |rest| ==> rest[i] in recent[1..];
    }
  }

  lemma {:induction false} DeleteStaysDistinctActive(active: seq<ActiveRun>, p: ActiveRun -> bool)
    requires DistinctActive(active)
    ensures DistinctActive(DeleteFunc(active, p))
    decreases |active|
  {
    if active != [] {
      DeleteStaysDistinctActive(active[1..], p);
      DeleteKeeps(active[1..], p);
      var rest := DeleteFunc(active[1..], p);
      assert forall i :: 0 <= i < |rest| ==> rest[i] in active[1..];
    }
  }

  /** Exactly when pruning keeps an entry: it has not expired, and fewer than 1000
      unexpired entries stand behind it. */
  lemma PruneKeepsExactly(c: Contents, now: int, i: nat)
    requires DistinctRecent(c.recent) && i < |c.recent|
    ensures c.recent[i] in Prune(c, now).recent <==>
      && !ExpiredAt(now)(c.recent[i])
      && |DeleteFunc(c.recent[i + 1..], ExpiredAt(now))| < 1000
    ensures ExpiredAt(now)(c.recent[i]) <==> c.recent[i].finishedAt < now - 7 * 86400 * 1_000_000_000
  {
    var p := ExpiredAt(now);
    var before, x, after := c.recent[..i], c.recent[i], c.recent[i + 1..];
    assert c.recent == before + ([x] + after);
    DeleteSplits(before, [x] + after, p);
    DeleteSplits([x], after, p);
    var kept, tail := DeleteFunc(c.recent, p), DeleteFunc(after, p);
    DeleteKeeps(c.recent, p);
    DeleteStaysDistinct(c.recent, p);
    if !p(x) {
      assert DeleteFunc([x], p) == [x];
      var at := |DeleteFunc(before, p)|;
      assert kept[at] == x && |kept| == at + 1 + |tail|;
      if |kept| > MAX_RECENT_RUNS {
        var start := |kept| - MAX_RECENT_RUNS;
        if at >= start {
          assert kept[start..][at - start] == x;
        } else {
          assert x !in kept[start..];
        }
      }
    } else {
      assert x !in Prune(c, now).recent;
    }
  }

  /** Looking up a distinct list finds the entry with that id. */
  lemma LookupFinds(c: Contents, r: RecentRun)
    requires DistinctRecent(c.recent)
    ensures RecentOutcome(c, r.runId) == Some(r) <==> r in c.recent
  {
    var i := IndexFunc(c.recent, RecentWith(r.runId));
    if r in c.recent {
      var j :| 0 <= j < |c.recent| && c.recent[j] == r;
      assert RecentWith(r.runId)(c.recent[j]);
      assert i >= 0 && RecentWith(r.runId)(c.recent[i]);
    }
  }

  lemma NewestKeeps(recent: seq<RecentRun>)
    requires DistinctRecent(recent)
    ensures DistinctRecent(Newest(recent)) && |Newest(recent)| <= MAX_RECENT_RUNS
    ensures forall r: RecentRun :: r in Newest(recent) ==> r in recent
  {
  }

  /** Pruning forgets outcomes but never changes one. */
  lemma PruneForgetsOnly(c: Contents, now: int)
    requires DistinctRecent(c.recent)
    ensures DistinctRecent(Prune(c, now).recent) && |Prune(c, now).recent| <= MAX_RECENT_RUNS
    ensures forall id :: RecentOutcome(Prune(c, now), id) in {RecentOutcome(c, id), None}
  {
    var kept := DeleteFunc(c.recent, ExpiredAt(now));
    DeleteStaysDistinct(c.recent, ExpiredAt(now));
    DeleteKeeps(c.recent, ExpiredAt(now));
    NewestKeeps(kept);
    forall id ensures RecentOutcome(Prune(c, now), id) in {RecentOutcome(c, id), None} {
      var found := RecentOutcome(Prune(c, now), id);
      if found.Some? {
        LookupFinds(Prune(c, now), found.value);
        LookupFinds(c, found.value);
      }
    }
  }

  /** An outcome is forgotten only when it has expired or the list is over its cap. */
  lemma ForgottenOnlyIfOldOrCrowded(c: Contents, now: int, id: RunId)
    requires DistinctRecent(c.recent)
    requires RecentOutcome(c, id).Some? && RecentOutcome(Prune(c, now), id).None?
    ensures ExpiredAt(now)(RecentOutcome(c, id).value) || |c.recent| > MAX_RECENT_RUNS
  {
    var i := IndexFunc(c.recent, RecentWith(id));
    var r := c.recent[i];
    assert RecentWith(id)(r);
    PruneForgetsOnly(c, now);
    if r in Prune(c, now).recent {
      LookupFinds(Prune(c, now), r);
    }
    PruneKeepsExactly(c, now, i);
    DeleteKeeps(c.recent[i + 1..], ExpiredAt(now));
  }

  // ----- what the two operations do to the two lists

  lemma PutRecent(recent: seq<RecentRun>, r: RecentRun)
    requires DistinctRecent(recent)
    ensures
      var after := Put(recent, RecentWith(r.runId), r);
      && DistinctRecent(after) && r in after
      && (forall x: RecentRun :: x.runId != r.runId ==> (x in after <==> x in recent))
  {
    var i := IndexFunc(recent, RecentWith(r.runId));
    var after := Put(recent, RecentWith(r.runId), r);
    assert forall j :: 0 <= j < |recent| && recent[j].runId == r.runId ==> RecentWith(r.runId)(recent[j]);
    if i >= 0 {
      assert RecentWith(r.runId)(recent[i]) && after[i] == r;
      forall x: RecentRun | x.runId != r.runId ensures x in after <==> x in recent {
        if x in recent {
          var j :| 0 <= j < |recent| && recent[j] == x;
          assert after[j] == x;
        }
      }
    } else {
      assert after[|recent|] == r;
    }
  }

  lemma MarkFinishedFacts(c: Contents, id: RunId, outcome: Outcome, finishedAt: int, now: int)
    requires Sound(c)
    ensures
      var t := MarkFinished(c, id, outcome, finishedAt, now);
      && Sound(t) && t.machineId == c.machineId && |t.recent| <= MAX_RECENT_RUNS
      && (forall j :: IsActive(t, j) <==> IsActive(c, j) && j != id)
      && (forall j :: j != id ==> RecentOutcome(t, j) in {RecentOutcome(c, j), None})
      && RecentOutcome(t, id) in {Some(RecentRun(id, outcome, finishedAt)), None}
  {
    var r := RecentRun(id, outcome, finishedAt);
    var put := c.(active := DeleteFunc(c.active, ActiveWith(id)), recent := Put(c.recent, RecentWith(id), r));
    var t := Prune(put, now);
    assert t == MarkFinished(c, id, outcome, finishedAt, now) && t.active == put.active && t.machineId == c.machineId;
    PutRecent(c.recent, r);
    PruneForgetsOnly(put, now);
    DeleteStaysDistinctActive(c.active, ActiveWith(id));
    ActiveAfterDelete(c, id);
    SameActive(c.(active := put.active), t);
    hide Prune, MarkFinished, DeleteFunc, Put, RecentOutcome, IsActive, ActiveWith, RecentWith;
    PutFinds(put, r);
    forall j | j != id ensures RecentOutcome(put, j) == RecentOutcome(c, j) {
      PutElsewhere(c, put, r, j);
    }
  }

  lemma SameActive(a: Contents, b: Contents)
    requires a.active == b.active
    ensures forall j :: IsActive(a, j) <==> IsActive(b, j)
  {
  }

  lemma PutFinds(put: Contents, r: RecentRun)
    requires DistinctRecent(put.recent) && r in put.recent
    ensures RecentOutcome(put, r.runId) == Some(r)
  {
    LookupFinds(put, r);
  }

  lemma PutElsewhere(c: Contents, put: Contents, r: RecentRun, j: RunId)
    requires DistinctRecent(c.recent) && DistinctRecent(put.recent) && j != r.runId
    requires forall x: RecentRun :: x.runId != r.runId ==> (x in put.recent <==> x in c.recent)
    ensures RecentOutcome(put, j) == RecentOutcome(c, j)
  {
    LookupTells(put, j);
    LookupTells(c, j);
    hide *;
    if RecentOutcome(put, j).Some? {
      LookupFinds(c, RecentOutcome(put, j).value);
    } else if RecentOutcome(c, j).Some? {
      LookupFinds(put, RecentOutcome(c, j).value);
    }
  }

  lemma LookupTells(c: Contents, id: RunId)
    ensures RecentOutcome(c, id).Some? ==> RecentOutcome(c, id).value in c.recent && RecentOutcome(c, id).value.runId == id
  {
    var i := IndexFunc(c.recent, RecentWith(id));
    if i >= 0 {
      assert RecentWith(id)(c.recent[i]);
    }
  }

  lemma ActiveAfterDelete(c: Contents, id: RunId)
    ensures forall j ::
      IsActive(c.(active := DeleteFunc(c.active, ActiveWith(id))), j) <==> IsActive(c, j) && j != id
  {
    var t := c.(active := DeleteFunc(c.active, ActiveWith(id)));
    DeleteKeeps(c.active, ActiveWith(id));
    forall j ensures IsActive(t, j) <==> IsActive(c, j) && j != id {
      if IsActive(t, j) {
        var r := t.active[IndexFunc(t.active, ActiveWith(j))];
        assert ActiveWith(j)(r) && r in c.active && !ActiveWith(id)(r);
      }
      if IsActive(c, j) && j != id {
        var r := c.active[IndexFunc(c.active, ActiveWith(j))];
        assert ActiveWith(j)(r) && !ActiveWith(id)(r) && r in t.active;
      }
    }
  }

  /** Marking a run active makes no other run active and changes no outcome, though its
      save may prune some; the store stays sound exactly if the run is left without one. */
  lemma MarkActiveFacts(c: Contents, run: ActiveRun, now: int)
    requires Sound(c)
    ensures
      var t := MarkActive(c, run, now);
      && (Sound(t) <==> RecentOutcome(t, run.runId).None?)
      && t.machineId == c.machineId && |t.recent| <= MAX_RECENT_RUNS
      && (forall j :: IsActive(t, j) <==> IsActive(c, j) || j == run.runId)
      && (forall j :: RecentOutcome(t, j) in {RecentOutcome(c, j), None})
  {
    var put := c.(active := Put(c.active, ActiveWith(run.runId), run));
    PruneForgetsOnly(put, now);
    PutActive(c, run);
    var t := Prune(put, now);
    assert forall j :: IsActive(t, j) <==> IsActive(put, j);
    assert forall j :: RecentOutcome(put, j) == RecentOutcome(c, j);
  }

  lemma PutActive(c: Contents, run: ActiveRun)
    requires DistinctActive(c.active)
    ensures
      var put := c.(active := Put(c.active, ActiveWith(run.runId), run));
      && DistinctActive(put.active)
      && (forall j :: IsActive(put, j) <==> IsActive(c, j) || j == run.runId)
  {
    var p := ActiveWith(run.runId);
    var i := IndexFunc(c.active, p);
    var put := c.(active := Put(c.active, p, run));
    assert forall k :: 0 <= k < |c.active| && c.active[k].runId == run.runId ==> p(c.active[k]);
    assert i >= 0 ==> p(c.active[i]);
    forall j ensures IsActive(put, j) <==> IsActive(c, j) || j == run.runId {
      if IsActive(put, j) {
        var k := IndexFunc(put.active, ActiveWith(j));
        assert ActiveWith(j)(put.active[k]);
        if put.active[k] != run {
          assert k < |c.active| && ActiveWith(j)(c.active[k]);
        }
      }
      if IsActive(c, j) && j != run.runId {
        var k := IndexFunc(c.active, ActiveWith(j));
        assert ActiveWith(j)(c.active[k]) && put.active[k] == c.active[k];
        assert ActiveWith(j)(put.active[k]);
      }
      if j == run.runId {
        var k := if i >= 0 then i else |c.active|;
        assert put.active[k] == run && ActiveWith(j)(put.active[k]);
      }
    }
  }

  /** Marking a run active replaces its own entry and no other, and finishing it takes
      out just that entry. */
  lemma ActiveEntries(c: Contents, run: ActiveRun, outcome: Outcome, finishedAt: int, now: int)
    requires DistinctActive(c.active)
    ensures forall a: ActiveRun ::
      a in MarkActive(c, run, now).active <==> a == run || (a in c.active && a.runId != run.runId)
    ensures forall a: ActiveRun ::
      a in MarkFinished(c, run.runId, outcome, finishedAt, now).active <==> a in c.active && a.runId != run.runId
  {
    var p := ActiveWith(run.runId);
    var i := IndexFunc(c.active, p);
    DeleteKeeps(c.active, p);
    assert forall k :: 0 <= k < |c.active| && c.active[k].runId == run.runId ==> p(c.active[k]);
    assert i >= 0 ==> p(c.active[i]);
    var put := Put(c.active, p, run);
    assert put[if i >= 0 then i else |c.active|] == run;
    forall a: ActiveRun | a in c.active && a.runId != run.runId ensures a in put {
      var k :| 0 <= k < |c.active| && c.active[k] == a;
      assert put[k] == a;
    }
  }

  /** Exactly when the outcome just recorded survives its own save: the clock has
      not moved on by more than the retention time in between, and fewer than 1000
      unexpired entries stand behind the place it was recorded in. */
  lemma JustRecordedSurvivesExactly(c: Contents, id: RunId, outcome: Outcome, finishedAt: int, now: int)
    requires Sound(c)
    ensures
      var i := IndexFunc(c.recent, RecentWith(id));
      RecentOutcome(MarkFinished(c, id, outcome, finishedAt, now), id) == Some(RecentRun(id, outcome, finishedAt)) <==>
        && finishedAt >= now - RECENT_RUN_TTL
        && (i >= 0 ==> |DeleteFunc(c.recent[i + 1..], ExpiredAt(now))| < MAX_RECENT_RUNS)
  {
    hide Prune, MarkFinished, DeleteFunc, Put, RecentOutcome, IsActive, Sound, ExpiredAt, RecentWith, ActiveWith, Newest,
      DistinctRecent, IndexFunc;
    var r := RecentRun(id, outcome, finishedAt);
    var put := c.(active := DeleteFunc(c.active, ActiveWith(id)), recent := Put(c.recent, RecentWith(id), r));
    MarksByPutting(c, r, now);
    PutRecent(c.recent, r);
    PruneForgetsOnly(put, now);
    LookupFinds(Prune(put, now), r);
    var at := PlaceOf(c.recent, r);
    PruneKeepsExactly(put, now, at);
  }

  lemma MarksByPutting(c: Contents, r: RecentRun, now: int)
    requires Sound(c)
    ensures
      MarkFinished(c, r.runId, r.outcome, r.finishedAt, now) ==
        Prune(c.(active := DeleteFunc(c.active, ActiveWith(r.runId)), recent := Put(c.recent, RecentWith(r.runId), r)), now)
    ensures DistinctRecent(c.recent) && DeleteFunc<RecentRun>([], ExpiredAt(now)) == []
    ensures ExpiredAt(now)(r) <==> r.finishedAt < now - RECENT_RUN_TTL
  {
    hide Prune, Put, IsActive, RecentOutcome;
    assert RecentRun(r.runId, r.outcome, r.finishedAt) == r;
  }

  lemma PlaceOf(recent: seq<RecentRun>, r: RecentRun) returns (at: nat)
    ensures
      var (i, put) := (IndexFunc(recent, RecentWith(r.runId)), Put(recent, RecentWith(r.runId), r));
      && at < |put| && put[at] == r
      && put[at + 1..] == if i >= 0 then recent[i + 1..] else []
  {
    var i := IndexFunc(recent, RecentWith(r.runId));
    at := if i >= 0 then i else |recent|;
  }

  /** With a list within its cap and a clock that does not jump, it always does. */
  lemma JustRecordedSurvives(c: Contents, id: RunId, outcome: Outcome, finishedAt: int, now: int)
    requires Sound(c) && |c.recent| <= MAX_RECENT_RUNS && now <= finishedAt + RECENT_RUN_TTL
    ensures RecentOutcome(MarkFinished(c, id, outcome, finishedAt, now), id) == Some(RecentRun(id, outcome, finishedAt))
  {
    JustRecordedSurvivesExactly(c, id, outcome, finishedAt, now);
    var i := IndexFunc(c.recent, RecentWith(id));
    if i >= 0 {
      DeleteKeeps(c.recent[i + 1..], ExpiredAt(now));
    }
  }
}

module State {
  import opened Chunks
  import opened Options
  import Spec = StateSpec

  /** What stands at the path of the state file. */
  datatype StateFile = Missing | Unreadable | Corrupt | Holds(contents: Spec.Contents)

  /** What a restart would start with, if it can start. */
  function Loaded(file: StateFile): Option<Spec.Contents> {
    match file
    case Unreadable => None
    case Holds(contents) => Some(contents)
    case _ => Some(Spec.NO_CONTENTS)
  }

  /** Loader.Load: a corrupt file is set aside if it can be, which `moved` tells, and
      never keeps the agent from starting; a file that cannot be read does. */
  method Load(file: StateFile, moved: bool) returns (store: Store?)
    ensures (store == null <==> Loaded(file).None?) && (store == null <==> file.Unreadable?)
    ensures store != null ==>
      && fresh(store) && Some(store.contents) == Loaded(file)
      && store.contents == (if file.Holds? then file.contents else Spec.Contents("", [], []))
      && store.file == if file == Corrupt && moved then Missing else file
  {
    match file {
      case Unreadable =>
        return null;
      case Missing =>
        store := new Store(Spec.NO_CONTENTS, file);
      case Corrupt =>
        store := new Store(Spec.NO_CONTENTS, if moved then Missing else file);
      case Holds(contents) =>
        store := new Store(contents, file);
    }
  }

  /** `file` is what stands on disk; a save either replaces it as a whole or leaves it
      alone, which `saved` tells. */
  class Store {
    var contents: Spec.Contents
    var file: StateFile

    constructor (contents: Spec.Contents, file: StateFile)
      ensures this.contents == contents && this.file == file
    {
      this.contents, this.file := contents, file;
    }

    method Save(now: int, saved: bool) returns (ok: bool)
      modifies this
      ensures contents == Spec.Prune(old(contents), now) && ok == saved
      ensures file == if saved then Holds(contents) else old(file)
    {
      var recent := Spec.DeleteFunc(contents.recent, Spec.ExpiredAt(now));
      if |recent| > Spec.MAX_RECENT_RUNS {
        recent := recent[|recent| - Spec.MAX_RECENT_RUNS..];
      }
      contents := contents.(recent := recent);
      if saved {
        file := Holds(contents);
      }
      return saved;
    }

    method MarkActive(run: Spec.ActiveRun, now: int, saved: bool) returns (ok: bool)
      modifies this
      ensures contents == Spec.MarkActive(old(contents), run, now) && ok == saved
      ensures file == if saved then Holds(contents) else old(file)
    {
      var i := Spec.IndexFunc(contents.active, Spec.ActiveWith(run.runId));
      if i >= 0 {
        contents := contents.(active := contents.active[i := run]);
      } else {
        contents := contents.(active := contents.active + [run]);
      }
      ok := Save(now, saved);
    }

    method MarkFinished(id: RunId, outcome: Spec.Outcome, finishedAt: int, now: int, saved: bool) returns (ok: bool)
      modifies this
      ensures contents == Spec.MarkFinished(old(contents), id, outcome, finishedAt, now) && ok == saved
      ensures file == if saved then Holds(contents) else old(file)
    {
      contents := contents.(active := Spec.DeleteFunc(contents.active, Spec.ActiveWith(id)));
      var recent := Spec.RecentRun(id, outcome, finishedAt);
      var i := Spec.IndexFunc(contents.recent, Spec.RecentWith(id));
      if i >= 0 {
        contents := contents.(recent := contents.recent[i := recent]);
      } else {
        contents := contents.(recent := contents.recent + [recent]);
      }
      ok := Save(now, saved);
    }

    method SetMachineId(machineId: string, now: int, saved: bool) returns (ok: bool)
      modifies this
      ensures contents == Spec.Prune(old(contents).(machineId := machineId), now) && ok == saved
      ensures file == if saved then Holds(contents) else old(file)
    {
      contents := contents.(machineId := machineId);
      ok := Save(now, saved);
    }

    /** `moved` tells whether the previous file could be set aside. */
    method Reset(machineId: string, now: int, moved: bool, saved: bool) returns (ok: bool)
      modifies this
      ensures contents == Spec.NO_CONTENTS.(machineId := machineId) && ok == saved
      ensures file == if saved then Holds(contents) else if moved then Missing else old(file)
    {
      if moved {
        file := Missing;
      }
      contents := Spec.NO_CONTENTS.(machineId := machineId);
      ok := Save(now, saved);
    }
  }
}

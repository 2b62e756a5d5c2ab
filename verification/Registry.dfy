/** internal/agent/registry.go: which runs the agent has taken on and not yet let go
    of. Owning a run lasts from its launch until its reporter has returned. */
module RegistrySpec {
  import opened Chunks
  import opened Options
  import StateSpec

  /** An owned run. `cancelled` tells that its process has been asked to stop,
      `outcome` is what its reporter has put into the finish request, and `recorded`
      tells that the reporter has stored it and is about to return. */
  datatype Entry = Entry(
    id: RunId,
    hasProcess: bool,
    startAccepted: bool,
    cancelled: bool,
    outcome: Option<StateSpec.Outcome>,
    recorded: bool)

  ghost predicate Owns(runs: seq<Entry>, id: RunId) {
    exists i :: 0 <= i < |runs| && runs[i].id == id
  }

  ghost predicate Distinct(runs: seq<Entry>) {
    forall i, j :: 0 <= i < j < |runs| ==> runs[i].id != runs[j].id
  }

  /** Without the first run of that id. */
  function Remove(runs: seq<Entry>, id: RunId): seq<Entry> {
    if runs == [] then []
    else if runs[0].id == id then runs[1..]
    else [runs[0]] + Remove(runs[1..], id)
  }

  /** How many runs have a process. */
  function Processes(runs: seq<Entry>): (n: nat)
    ensures n <= |runs|
  {
    if runs == [] then 0
    else Processes(runs[..|runs| - 1]) + if runs[|runs| - 1].hasProcess then 1 else 0
  }

  /** The ids of the runs whose start was accepted. */
  function Accepted(runs: seq<Entry>): seq<RunId> {
    if runs == [] then []
    else Accepted(runs[..|runs| - 1]) + if runs[|runs| - 1].startAccepted then [runs[|runs| - 1].id] else []
  }

  /** A run is listed exactly when it is owned and its start was accepted. */
  lemma {:induction false} AcceptedAreOwned(runs: seq<Entry>)
    ensures forall id :: id in Accepted(runs) <==> exists run :: run in runs && run.startAccepted && run.id == id
    decreases |runs|
  {
    if runs != [] {
      var before, last := runs[..|runs| - 1], runs[|runs| - 1];
      assert runs == before + [last];
      AcceptedAreOwned(before);
      forall id ensures id in Accepted(runs) <==> exists run :: run in runs && run.startAccepted && run.id == id {
        if run :| run in before && run.startAccepted && run.id == id {
          assert run in runs;
        }
        if last.startAccepted && last.id == id {
          assert last in runs;
        }
        if run :| run in runs && run.startAccepted && run.id == id {
          assert run in before || run == last;
        }
      }
    }
  }

  /** With distinct ids, each is listed once. */
  lemma {:induction false} AcceptedOnce(runs: seq<Entry>, i: nat, j: nat)
    requires Distinct(runs) && i < j < |Accepted(runs)|
    ensures Accepted(runs)[i] != Accepted(runs)[j]
    decreases |runs|
  {
    var before, last := runs[..|runs| - 1], runs[|runs| - 1];
    var ids := Accepted(before);
    if j < |ids| {
      AcceptedOnce(before, i, j);
    } else {
      AcceptedAreOwned(before);
      assert ids[i] in ids;
      var run :| run in before && run.startAccepted && run.id == ids[i];
      var k :| 0 <= k < |before| && before[k] == run;
      assert runs[k].id != runs[|runs| - 1].id;
    }
  }

  lemma {:induction false} RemoveAt(runs: seq<Entry>, i: nat)
    requires Distinct(runs) && i < |runs|
    ensures Remove(runs, runs[i].id) == runs[..i] + runs[i + 1..]
    decreases i
  {
    if i > 0 {
      assert runs[1..][i - 1] == runs[i];
      RemoveAt(runs[1..], i - 1);
      assert runs[..i] + runs[i + 1..] == [runs[0]] + (runs[1..][..i - 1] + runs[1..][i..]);
    } else {
      assert runs[..0] + runs[1..] == runs[1..];
    }
  }

  lemma {:induction false} ProcessesSplit(a: seq<Entry>, b: seq<Entry>)
    ensures Processes(a + b) == Processes(a) + Processes(b)
    decreases |b|
  {
    if b == [] {
      assert a + b == a;
    } else {
      assert (a + b)[..|a + b| - 1] == a + b[..|b| - 1];
      ProcessesSplit(a, b[..|b| - 1]);
    }
  }

  lemma ProcessesOfOne(e: Entry)
    ensures Processes([e]) == if e.hasProcess then 1 else 0
  {
    assert [e][..0] == [];
  }

  /** Changing an entry without touching its process keeps the count, and dropping
      one does not raise it. */
  lemma ProcessesAt(runs: seq<Entry>, i: nat, e: Entry)
    requires i < |runs| && e.hasProcess == runs[i].hasProcess
    ensures Processes(runs[i := e]) == Processes(runs)
    ensures Processes(runs[..i] + runs[i + 1..]) <= Processes(runs)
  {
    var a, b := runs[..i], runs[i + 1..];
    assert runs == a + [runs[i]] + b && runs[i := e] == a + [e] + b;
    ProcessesSplit(a + [runs[i]], b);
    ProcessesSplit(a, [runs[i]]);
    ProcessesSplit(a + [e], b);
    ProcessesSplit(a, [e]);
    ProcessesSplit(a, b);
    ProcessesOfOne(runs[i]);
    ProcessesOfOne(e);
  }
}

module Registry {
  import opened Chunks
  import opened Options
  import opened Spec = RegistrySpec

  /** Every method is one critical section of the source's mutex. */
  class Registry {
    var runs: seq<Entry>

    constructor ()
      ensures runs == []
    {
      runs := [];
    }

    method Add(run: Entry)
      modifies this
      ensures runs == old(runs) + [run]
    {
      runs := runs + [run];
    }

    method RemoveRun(id: RunId)
      modifies this
      ensures runs == Remove(old(runs), id)
    {
      var i := 0;
      while i < |runs|
        invariant 0 <= i <= |runs| && runs == old(runs)
        invariant Remove(runs, id) == runs[..i] + Remove(runs[i..], id)
      {
        if runs[i].id == id {
          runs := runs[..i] + runs[i + 1..];
          return;
        }
        RemoveStep(runs, i, id);
        i := i + 1;
      }
    }

    static lemma RemoveStep(runs: seq<Entry>, i: nat, id: RunId)
      requires i < |runs| && runs[i].id != id
      ensures runs[..i] + Remove(runs[i..], id) == runs[..i + 1] + Remove(runs[i + 1..], id)
    {
      assert runs[i..][1..] == runs[i + 1..];
      assert runs[..i] + [runs[i]] == runs[..i + 1];
    }

    method Get(id: RunId) returns (run: Option<Entry>)
      ensures run.Some? <==> Owns(runs, id)
      ensures run.Some? ==> run.value in runs && run.value.id == id
    {
      var i := 0;
      while i < |runs|
        invariant 0 <= i <= |runs|
        invariant forall k :: 0 <= k < i ==> runs[k].id != id
      {
        if runs[i].id == id {
          return Some(runs[i]);
        }
        i := i + 1;
      }
      return None;
    }

    /** What a work request lists as active. */
    method Active() returns (ids: seq<RunId>)
      ensures ids == Accepted(runs)
    {
      ids := [];
      var i := 0;
      while i < |runs|
        invariant 0 <= i <= |runs| && ids == Accepted(runs[..i])
      {
        assert runs[..i + 1][..i] == runs[..i];
        if runs[i].startAccepted {
          ids := ids + [runs[i].id];
        }
        i := i + 1;
      }
      assert runs[..i] == runs;
    }
  }
}

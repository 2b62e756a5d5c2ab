/** internal/state/state.go: what becomes of one record of the store while a series of
    saves takes runs off the active list, told from the contents and the clock alone. */
module Pruning {
  import opened Chunks
  import opened Options
  import opened StateSpec

  /** Records the outcomes one after the other; `clock` are the readings at the saves. */
  function Marks(c: Contents, done: seq<RecentRun>, clock: seq<int>): Contents
    requires |done| == |clock|
  {
    if done == [] then c
    else
      var (n, r) := (|done| - 1, done[|done| - 1]);
      MarkFinished(Marks(c, done[..n], clock[..n]), r.runId, r.outcome, r.finishedAt, clock[n])
  }

  /** The records behind one that had `behind` behind it, once `done` are recorded. */
  function Behind(behind: seq<RecentRun>, done: seq<RecentRun>, clock: seq<int>): seq<RecentRun>
    requires |done| == |clock|
  {
    if done == [] then behind
    else
      var n := |done| - 1;
      DeleteFunc(Behind(behind, done[..n], clock[..n]) + [done[n]], ExpiredAt(clock[n]))
  }

  /** The k-th save prunes the record x: for its age, or for the number of records
      behind it. */
  predicate PrunedAt(x: RecentRun, behind: seq<RecentRun>, done: seq<RecentRun>, clock: seq<int>, k: nat)
    requires k < |done| == |clock|
  {
    ExpiredAt(clock[k])(x) || |Behind(behind, done[..k + 1], clock[..k + 1])| >= MAX_RECENT_RUNS
  }

  predicate PrunedBy(x: RecentRun, behind: seq<RecentRun>, done: seq<RecentRun>, clock: seq<int>)
    requires |done| == |clock|
  {
    exists k :: 0 <= k < |done| && PrunedAt(x, behind, done, clock, k)
  }

  /** The saves forget the run: they prune the record it has, or the one they make. */
  predicate Forgets(c: Contents, done: seq<RecentRun>, clock: seq<int>, id: RunId)
    requires |done| == |clock|
  {
    || (exists i :: 0 <= i < |c.recent| && c.recent[i].runId == id && PrunedBy(c.recent[i], c.recent[i + 1..], done, clock))
    || (exists m :: 0 <= m < |done| && done[m].runId == id && PrunedOnceMade(done, clock, m))
  }

  predicate PrunedOnceMade(done: seq<RecentRun>, clock: seq<int>, m: nat)
    requires m < |done| == |clock|
  {
    ExpiredAt(clock[m])(done[m]) || PrunedBy(done[m], [], done[m + 1..], clock[m + 1..])
  }

  // ----- who stands behind a record

  ghost predicate Fresh(x: RecentRun, clock: seq<int>) {
    forall k :: 0 <= k < |clock| ==> !ExpiredAt(clock[k])(x)
  }

  ghost predicate FreshSinceMade(x: RecentRun, done: seq<RecentRun>, clock: seq<int>)
    requires |done| == |clock|
  {
    exists m :: 0 <= m < |done| && done[m] == x && Fresh(x, clock[m..])
  }

  /** Behind a record stand exactly those that stood there or were recorded since and
      that no save in between has found expired. */
  lemma {:induction false} BehindExactly(behind: seq<RecentRun>, done: seq<RecentRun>, clock: seq<int>, x: RecentRun)
    requires |done| == |clock|
    ensures x in Behind(behind, done, clock) <==> (x in behind && Fresh(x, clock)) || FreshSinceMade(x, done, clock)
    decreases |done|
  {
    if done != [] {
      var n := |done| - 1;
      BehindExactly(behind, done[..n], clock[..n], x);
      DeleteKeeps(Behind(behind, done[..n], clock[..n]) + [done[n]], ExpiredAt(clock[n]));
      FreshSnoc(x, clock, 0);
      assert clock[0..] == clock && clock[..n][0..] == clock[..n];
      hide DeleteFunc, ExpiredAt, Fresh;
      FreshSinceSnoc(x, done, clock);
    }
  }

  lemma FreshSnoc(x: RecentRun, clock: seq<int>, m: nat)
    requires m < |clock|
    ensures Fresh(x, clock[m..]) <==> Fresh(x, clock[..|clock| - 1][m..]) && !ExpiredAt(clock[|clock| - 1])(x)
  {
    var n := |clock| - 1;
    hide ExpiredAt;
    assert clock[m..] == clock[..n][m..] + [clock[n]];
    assert clock[m..][n - m] == clock[n];
    if Fresh(x, clock[m..]) {
      forall k | 0 <= k < |clock[..n][m..]| ensures !ExpiredAt(clock[..n][m..][k])(x) {
        assert clock[m..][k] == clock[..n][m..][k];
      }
    }
  }

  lemma FreshSinceSnoc(x: RecentRun, done: seq<RecentRun>, clock: seq<int>)
    requires |done| == |clock| && done != []
    ensures
      var n := |done| - 1;
      FreshSinceMade(x, done, clock) <==>
        (FreshSinceMade(x, done[..n], clock[..n]) || x == done[n]) && !ExpiredAt(clock[n])(x)
  {
    var n := |done| - 1;
    hide *;
    if FreshSinceMade(x, done, clock) {
      var m := MadeAt(x, done, clock);
      FreshSnoc(x, clock, m);
      if m < n {
        assert done[..n][m] == x;
        FreshSince(x, done[..n], clock[..n], m);
      }
    }
    if FreshSinceMade(x, done[..n], clock[..n]) && !ExpiredAt(clock[n])(x) {
      var m := MadeAt(x, done[..n], clock[..n]);
      FreshSnoc(x, clock, m);
      assert done[m] == x;
      FreshSince(x, done, clock, m);
    }
    if x == done[n] && !ExpiredAt(clock[n])(x) {
      NoSaveYet(x, clock[..n]);
      FreshSnoc(x, clock, n);
      FreshSince(x, done, clock, n);
    }
  }

  lemma NoSaveYet(x: RecentRun, clock: seq<int>)
    ensures Fresh(x, clock[|clock|..])
  {
  }

  lemma MadeAt(x: RecentRun, done: seq<RecentRun>, clock: seq<int>) returns (m: nat)
    requires |done| == |clock| && FreshSinceMade(x, done, clock)
    ensures m < |done| && done[m] == x && Fresh(x, clock[m..])
  {
    hide Fresh;
    m :| 0 <= m < |done| && done[m] == x && Fresh(x, clock[m..]);
  }

  lemma FreshSince(x: RecentRun, done: seq<RecentRun>, clock: seq<int>, m: nat)
    requires m < |done| == |clock| && done[m] == x && Fresh(x, clock[m..])
    ensures FreshSinceMade(x, done, clock)
  {
  }

  // ----- one save

  /** x is a record with exactly `tail` behind it. */
  ghost predicate Ends(recent: seq<RecentRun>, x: RecentRun, tail: seq<RecentRun>) {
    |tail| < |recent| && recent[|recent| - |tail| - 1..] == [x] + tail
  }

  lemma EndsAt(recent: seq<RecentRun>, i: nat)
    requires i < |recent|
    ensures Ends(recent, recent[i], recent[i + 1..])
  {
  }

  lemma PruneKeepsEnd(recent: seq<RecentRun>, now: int, i: nat)
    requires i < |recent|
    ensures
      var (x, tail) := (recent[i], DeleteFunc(recent[i + 1..], ExpiredAt(now)));
      !ExpiredAt(now)(x) && |tail| < MAX_RECENT_RUNS ==> Ends(Newest(DeleteFunc(recent, ExpiredAt(now))), x, tail)
  {
    var p := ExpiredAt(now);
    hide *;
    if !p(recent[i]) && |DeleteFunc(recent[i + 1..], p)| < MAX_RECENT_RUNS {
      DeleteAround(recent, i, p);
      NewestKeepsEnd(DeleteFunc(recent[..i], p), recent[i], DeleteFunc(recent[i + 1..], p));
    }
  }

  lemma DeleteAround(recent: seq<RecentRun>, i: nat, p: RecentRun -> bool)
    requires i < |recent| && !p(recent[i])
    ensures DeleteFunc(recent, p) == DeleteFunc(recent[..i], p) + ([recent[i]] + DeleteFunc(recent[i + 1..], p))
  {
    hide *;
    var before, x, after := recent[..i], recent[i], recent[i + 1..];
    assert recent == before + ([x] + after);
    DeleteSplits(before, [x] + after, p);
    DeleteSplits([x], after, p);
    KeepsOne(x, p);
  }

  lemma KeepsOne(x: RecentRun, p: RecentRun -> bool)
    requires !p(x)
    ensures DeleteFunc([x], p) == [x]
  {
    assert [x][1..] == [];
  }

  lemma NewestKeepsEnd(before: seq<RecentRun>, x: RecentRun, tail: seq<RecentRun>)
    requires |tail| < MAX_RECENT_RUNS
    ensures Ends(Newest(before + ([x] + tail)), x, tail)
  {
    var kept := before + ([x] + tail);
    var newest := Newest(kept);
    assert newest[|newest| - |tail| - 1..] == kept[|before|..] == [x] + tail;
  }

  /** A run that is active is appended when it finishes. */
  lemma AppendsFinished(c: Contents, r: RecentRun)
    requires Sound(c) && IsActive(c, r.runId)
    ensures Put(c.recent, RecentWith(r.runId), r) == c.recent + [r] && DistinctRecent(c.recent + [r])
  {
    hide IsActive;
    assert RecentOutcome(c, r.runId).None?;
    PutRecent(c.recent, r);
  }

  function Marked(c: Contents, r: RecentRun, now: int): Contents {
    MarkFinished(c, r.runId, r.outcome, r.finishedAt, now)
  }

  /** The fate of the i-th record of the list to which the save appends r. */
  lemma MarkFate(c: Contents, r: RecentRun, now: int, i: nat)
    requires Sound(c) && IsActive(c, r.runId) && i <= |c.recent|
    ensures
      var (t, x) := (Marked(c, r, now), (c.recent + [r])[i]);
      var tail := DeleteFunc((c.recent + [r])[i + 1..], ExpiredAt(now));
      if ExpiredAt(now)(x) || |tail| >= MAX_RECENT_RUNS then RecentOutcome(t, x.runId).None? else Ends(t.recent, x, tail)
  {
    AppendsFinished(c, r);
    var put := c.(active := DeleteFunc(c.active, ActiveWith(r.runId)), recent := c.recent + [r]);
    var x := put.recent[i];
    PruneKeepsExactly(put, now, i);
    PruneKeepsEnd(put.recent, now, i);
    PruneForgetsOnly(put, now);
    hide DeleteFunc, Put, RecentOutcome, Newest, ExpiredAt;
    assert x in put.recent;
    LookupFinds(put, x);
    LookupFinds(Prune(put, now), x);
  }

  // ----- looking a record up

  lemma KnownWhenEnds(c: Contents, x: RecentRun, tail: seq<RecentRun>)
    requires Ends(c.recent, x, tail)
    ensures Known(c, x.runId)
  {
    ListedWhenEnds(c, x, tail);
  }

  lemma ListedWhenEnds(c: Contents, x: RecentRun, tail: seq<RecentRun>)
    requires Ends(c.recent, x, tail)
    ensures RecentOutcome(c, x.runId).Some?
  {
    var at := |c.recent| - |tail| - 1;
    assert c.recent[at] == c.recent[at..][0];
    assert RecentWith(x.runId)(c.recent[at]);
  }

  lemma ListedOnce(c: Contents, i: nat)
    requires Sound(c) && i < |c.recent|
    ensures RecentOutcome(c, c.recent[i].runId) == Some(c.recent[i]) && !IsActive(c, c.recent[i].runId)
    ensures forall j :: 0 <= j < |c.recent| && c.recent[j].runId == c.recent[i].runId ==> j == i
  {
    hide IsActive, RecentOutcome;
    LookupFinds(c, c.recent[i]);
  }

  ghost predicate Among(id: RunId, runs: seq<RecentRun>) {
    exists i :: 0 <= i < |runs| && runs[i].runId == id
  }

  lemma UnlistedExactly(c: Contents, id: RunId)
    ensures RecentOutcome(c, id).None? <==> !Among(id, c.recent)
  {
    var p := RecentWith(id);
    forall j | 0 <= j < |c.recent| ensures p(c.recent[j]) <==> c.recent[j].runId == id {
    }
  }

  /** A save that appends r prunes x: it has expired, or 1000 unexpired records stand
      behind it, the new one included. */
  predicate PrunedNow(x: RecentRun, behind: seq<RecentRun>, r: RecentRun, now: int) {
    ExpiredAt(now)(x) || |DeleteFunc(behind + [r], ExpiredAt(now))| >= MAX_RECENT_RUNS
  }

  predicate PrunesListed(c: Contents, r: RecentRun, now: int, id: RunId) {
    exists i :: 0 <= i < |c.recent| && c.recent[i].runId == id && PrunedNow(c.recent[i], c.recent[i + 1..], r, now)
  }

  /** Exactly when the save that takes a run off the active list makes a known run
      unknown: it prunes the new record for its age, or a listed one. */
  lemma ForgetsExactly(c: Contents, r: RecentRun, now: int, id: RunId)
    requires Sound(c) && IsActive(c, r.runId) && Known(c, id)
    ensures !Known(Marked(c, r, now), id) <==>
      (id == r.runId && r.finishedAt < now - RECENT_RUN_TTL) || PrunesListed(c, r, now, id)
  {
    hide IsActive, RecentOutcome, MarkFinished, PrunedNow;
    var t := Marked(c, r, now);
    MarkFinishedFacts(c, r.runId, r.outcome, r.finishedAt, now);
    UnlistedExactly(c, id);
    if id == r.runId {
      NewFate(c, r, now);
      if !ExpiredAt(now)(r) {
        KnownWhenEnds(t, r, []);
      }
    } else if Among(id, c.recent) {
      var i :| 0 <= i < |c.recent| && c.recent[i].runId == id;
      ListedOnce(c, i);
      ListedFate(c, r, now, i);
    }
  }

  lemma ListedFate(c: Contents, r: RecentRun, now: int, i: nat)
    requires Sound(c) && IsActive(c, r.runId) && i < |c.recent|
    ensures
      var (t, x) := (Marked(c, r, now), c.recent[i]);
      RecentOutcome(t, x.runId).None? <==> PrunedNow(x, c.recent[i + 1..], r, now)
  {
    ListedOnce(c, i);
    EndsAt(c.recent, i);
    RecordStep(c, r, now, c.recent[i], c.recent[i + 1..]);
    hide RecentOutcome, DeleteFunc, MarkFinished, Ends, ExpiredAt;
    var t, tail := Marked(c, r, now), DeleteFunc(c.recent[i + 1..] + [r], ExpiredAt(now));
    if Ends(t.recent, c.recent[i], tail) {
      ListedWhenEnds(t, c.recent[i], tail);
    }
  }

  /** The new record itself. */
  lemma NewFate(c: Contents, r: RecentRun, now: int)
    requires Sound(c) && IsActive(c, r.runId)
    ensures
      var t := Marked(c, r, now);
      if ExpiredAt(now)(r) then RecentOutcome(t, r.runId).None? else Ends(t.recent, r, [])
  {
    MarkFate(c, r, now, |c.recent|);
    assert (c.recent + [r])[|c.recent| + 1..] == [];
  }

  /** A record with `tail` behind it. */
  lemma RecordStep(c: Contents, r: RecentRun, now: int, x: RecentRun, tail: seq<RecentRun>)
    requires Sound(c) && IsActive(c, r.runId) && Ends(c.recent, x, tail)
    ensures
      var (t, tail') := (Marked(c, r, now), DeleteFunc(tail + [r], ExpiredAt(now)));
      if ExpiredAt(now)(x) || |tail'| >= MAX_RECENT_RUNS then RecentOutcome(t, x.runId).None? else Ends(t.recent, x, tail')
  {
    var i := |c.recent| - |tail| - 1;
    assert c.recent[i] == c.recent[i..][0];
    assert c.recent[i + 1..] == c.recent[i..][1..];
    assert (c.recent + [r])[i + 1..] == tail + [r];
    MarkFate(c, r, now, i);
  }

  // ----- any number of saves

  /** The runs reported are all active, each once. */
  ghost predicate Reports(c: Contents, done: seq<RecentRun>) {
    DistinctRecent(done) && forall m :: 0 <= m < |done| ==> IsActive(c, done[m].runId)
  }

  lemma {:induction false} MarksFacts(c: Contents, done: seq<RecentRun>, clock: seq<int>)
    requires Sound(c) && |done| == |clock|
    ensures
      var t := Marks(c, done, clock);
      && Sound(t)
      && (forall id :: IsActive(t, id) <==> IsActive(c, id) && !Among(id, done))
      && (forall id :: !Among(id, done) ==> RecentOutcome(t, id) in {RecentOutcome(c, id), None})
    decreases |done|
  {
    hide IsActive, RecentOutcome, MarkFinished, Sound, Among;
    if done == [] {
      NoneAmong();
    } else {
      var n := |done| - 1;
      MarksFacts(c, done[..n], clock[..n]);
      var before := Marks(c, done[..n], clock[..n]);
      MarkFinishedFacts(before, done[n].runId, done[n].outcome, done[n].finishedAt, clock[n]);
      AmongSnoc(done);
    }
  }

  lemma NoneAmong()
    ensures forall id :: !Among(id, [])
  {
  }

  lemma AmongSnoc(done: seq<RecentRun>)
    requires done != []
    ensures forall id :: Among(id, done) <==> Among(id, done[..|done| - 1]) || id == done[|done| - 1].runId
  {
    var n := |done| - 1;
    forall id ensures Among(id, done) <==> Among(id, done[..n]) || id == done[n].runId {
      if Among(id, done) {
        var m :| 0 <= m < |done| && done[m].runId == id;
        if m < n {
          assert done[..n][m].runId == id;
        }
      }
      if Among(id, done[..n]) {
        var m :| 0 <= m < n && done[..n][m].runId == id;
        assert done[m].runId == id;
      }
    }
  }

  lemma PrunedBySnoc(x: RecentRun, behind: seq<RecentRun>, done: seq<RecentRun>, clock: seq<int>)
    requires |done| == |clock| && done != []
    ensures
      var n := |done| - 1;
      PrunedBy(x, behind, done, clock) <==>
        PrunedBy(x, behind, done[..n], clock[..n]) || ExpiredAt(clock[n])(x)
        || |Behind(behind, done, clock)| >= MAX_RECENT_RUNS
  {
    var n := |done| - 1;
    hide *;
    PrunedAtLast(x, behind, done, clock);
    if PrunedBy(x, behind, done, clock) {
      var k := Pruner(x, behind, done, clock);
      if k < n {
        PrunedAtPrefix(x, behind, done, clock, k);
        Prunes(x, behind, done[..n], clock[..n], k);
      }
    }
    if PrunedBy(x, behind, done[..n], clock[..n]) {
      var k := Pruner(x, behind, done[..n], clock[..n]);
      PrunedAtPrefix(x, behind, done, clock, k);
      Prunes(x, behind, done, clock, k);
    }
    if PrunedAt(x, behind, done, clock, n) {
      Prunes(x, behind, done, clock, n);
    }
  }

  lemma Pruner(x: RecentRun, behind: seq<RecentRun>, done: seq<RecentRun>, clock: seq<int>) returns (k: nat)
    requires |done| == |clock| && PrunedBy(x, behind, done, clock)
    ensures k < |done| && PrunedAt(x, behind, done, clock, k)
  {
    hide PrunedAt;
    k :| 0 <= k < |done| && PrunedAt(x, behind, done, clock, k);
  }

  lemma Prunes(x: RecentRun, behind: seq<RecentRun>, done: seq<RecentRun>, clock: seq<int>, k: nat)
    requires k < |done| == |clock| && PrunedAt(x, behind, done, clock, k)
    ensures PrunedBy(x, behind, done, clock)
  {
  }

  lemma PrunedAtLast(x: RecentRun, behind: seq<RecentRun>, done: seq<RecentRun>, clock: seq<int>)
    requires |done| == |clock| && done != []
    ensures
      var n := |done| - 1;
      PrunedAt(x, behind, done, clock, n) <==>
        ExpiredAt(clock[n])(x) || |Behind(behind, done, clock)| >= MAX_RECENT_RUNS
  {
    hide Behind, ExpiredAt;
    assert done[..|done|] == done && clock[..|done|] == clock;
  }

  lemma PrunedAtPrefix(x: RecentRun, behind: seq<RecentRun>, done: seq<RecentRun>, clock: seq<int>, k: nat)
    requires k < |done| - 1 == |clock| - 1
    ensures
      var n := |done| - 1;
      PrunedAt(x, behind, done, clock, k) <==> PrunedAt(x, behind, done[..n], clock[..n], k)
  {
    hide Behind, ExpiredAt;
    var n := |done| - 1;
    assert done[..n][..k + 1] == done[..k + 1] && clock[..n][..k + 1] == clock[..k + 1];
  }

  /** What the saves do to a record that is there before them. */
  lemma {:induction false} RecordFate(c: Contents, done: seq<RecentRun>, clock: seq<int>,
                                      x: RecentRun, behind: seq<RecentRun>)
    requires Sound(c) && Reports(c, done) && |done| == |clock| && Ends(c.recent, x, behind)
    ensures
      var t := Marks(c, done, clock);
      if PrunedBy(x, behind, done, clock) then RecentOutcome(t, x.runId).None?
      else Ends(t.recent, x, Behind(behind, done, clock))
    decreases |done|
  {
    hide IsActive, RecentOutcome, MarkFinished, Sound, Ends, PrunedBy, Among;
    if done == [] {
      NothingPrunes(x, behind);
    } else {
      var n := |done| - 1;
      RecordFate(c, done[..n], clock[..n], x, behind);
      MarksFacts(c, done[..n], clock[..n]);
      PrunedBySnoc(x, behind, done, clock);
      StillReported(done);
      NotReported(c, done, x, behind);
      var (before, r, now) := (Marks(c, done[..n], clock[..n]), done[n], clock[n]);
      assert Marks(c, done, clock) == Marked(before, r, now);
      assert IsActive(before, r.runId);
      FateStep(before, r, now, x, Behind(behind, done[..n], clock[..n]), PrunedBy(x, behind, done[..n], clock[..n]));
    }
  }

  lemma NothingPrunes(x: RecentRun, behind: seq<RecentRun>)
    ensures !PrunedBy(x, behind, [], [])
  {
  }

  lemma StillReported(done: seq<RecentRun>)
    requires DistinctRecent(done) && done != []
    ensures !Among(done[|done| - 1].runId, done[..|done| - 1])
  {
  }

  lemma NotReported(c: Contents, done: seq<RecentRun>, x: RecentRun, behind: seq<RecentRun>)
    requires Sound(c) && Reports(c, done) && Ends(c.recent, x, behind)
    ensures forall m :: 0 <= m < |done| ==> done[m].runId != x.runId
  {
    var i := |c.recent| - |behind| - 1;
    assert c.recent[i] == c.recent[i..][0];
    ListedOnce(c, i);
  }

  lemma FateStep(c: Contents, r: RecentRun, now: int, x: RecentRun, tail: seq<RecentRun>, pruned: bool)
    requires Sound(c) && IsActive(c, r.runId) && r.runId != x.runId
    requires if pruned then RecentOutcome(c, x.runId).None? else Ends(c.recent, x, tail)
    ensures
      var (t, tail') := (Marked(c, r, now), DeleteFunc(tail + [r], ExpiredAt(now)));
      if pruned || ExpiredAt(now)(x) || |tail'| >= MAX_RECENT_RUNS then RecentOutcome(t, x.runId).None?
      else Ends(t.recent, x, tail')
  {
    if pruned {
      hide RecentOutcome, IsActive, DeleteFunc, Ends;
      MarkFinishedFacts(c, r.runId, r.outcome, r.finishedAt, now);
    } else {
      RecordStep(c, r, now, x, tail);
    }
  }

  lemma {:induction false} MarksSplit(c: Contents, done: seq<RecentRun>, clock: seq<int>, m: nat)
    requires m <= |done| == |clock|
    ensures Marks(c, done, clock) == Marks(Marks(c, done[..m], clock[..m]), done[m..], clock[m..])
    decreases |done|
  {
    hide MarkFinished;
    if m == |done| {
      assert done[..m] == done && clock[..m] == clock;
    } else {
      var n := |done| - 1;
      MarksSplit(c, done[..n], clock[..n], m);
      assert done[..n][..m] == done[..m] && clock[..n][..m] == clock[..m];
      assert done[m..][..n - m] == done[..n][m..] && clock[m..][..n - m] == clock[..n][m..];
    }
  }

  /** What they do to the one the m-th of them makes. */
  lemma MadeFate(c: Contents, done: seq<RecentRun>, clock: seq<int>, m: nat)
    requires Sound(c) && Reports(c, done) && m < |done| == |clock|
    ensures Known(Marks(c, done, clock), done[m].runId) <==> !PrunedOnceMade(done, clock, m)
  {
    MarksSplit(c, done, clock, m + 1);
    IsMade(c, done, clock, m);
    var after := Marks(c, done[..m + 1], clock[..m + 1]);
    assert PrunedOnceMade(done, clock, m) <==>
      ExpiredAt(clock[m])(done[m]) || PrunedBy(done[m], [], done[m + 1..], clock[m + 1..]);
    hide *;
    KeptOnceMade(after, done[m + 1..], clock[m + 1..], done[m], ExpiredAt(clock[m])(done[m]));
  }

  /** When it has been made. */
  lemma IsMade(c: Contents, done: seq<RecentRun>, clock: seq<int>, m: nat)
    requires Sound(c) && Reports(c, done) && m < |done| == |clock|
    ensures
      var (after, r) := (Marks(c, done[..m + 1], clock[..m + 1]), done[m]);
      && Sound(after) && Reports(after, done[m + 1..]) && !IsActive(after, r.runId)
      && (if ExpiredAt(clock[m])(r) then RecentOutcome(after, r.runId).None? else Ends(after.recent, r, []))
      && !Among(r.runId, done[m + 1..])
  {
    hide IsActive, RecentOutcome, MarkFinished, Marks, Sound, Ends, ExpiredAt;
    MarksFacts(c, done[..m], clock[..m]);
    MarksFacts(c, done[..m + 1], clock[..m + 1]);
    MarksLast(c, done, clock, m);
    AmongSnoc(done[..m + 1]);
    assert done[..m + 1][..m] == done[..m];
    NewFate(Marks(c, done[..m], clock[..m]), done[m], clock[m]);
  }

  /** And what becomes of it. */
  lemma KeptOnceMade(c: Contents, done: seq<RecentRun>, clock: seq<int>, r: RecentRun, expired: bool)
    requires Sound(c) && Reports(c, done) && |done| == |clock|
    requires !IsActive(c, r.runId) && !Among(r.runId, done)
    requires if expired then RecentOutcome(c, r.runId).None? else Ends(c.recent, r, [])
    ensures Known(Marks(c, done, clock), r.runId) <==> !expired && !PrunedBy(r, [], done, clock)
  {
    hide IsActive, RecentOutcome, Marks, Sound, Ends, PrunedBy, Among, Reports, Behind;
    MarksFacts(c, done, clock);
    if !expired {
      RecordFate(c, done, clock, r, []);
      if !PrunedBy(r, [], done, clock) {
        KnownWhenEnds(Marks(c, done, clock), r, Behind([], done, clock));
      }
    }
  }

  lemma MarksLast(c: Contents, done: seq<RecentRun>, clock: seq<int>, m: nat)
    requires m < |done| == |clock|
    ensures Marks(c, done[..m + 1], clock[..m + 1]) == Marked(Marks(c, done[..m], clock[..m]), done[m], clock[m])
  {
    assert done[..m + 1][..m] == done[..m] && clock[..m + 1][..m] == clock[..m];
  }

  // Forgets, case by case.

  lemma ForgetsMade(c: Contents, done: seq<RecentRun>, clock: seq<int>, m: nat)
    requires Sound(c) && Reports(c, done) && m < |done| == |clock|
    ensures Forgets(c, done, clock, done[m].runId) <==> PrunedOnceMade(done, clock, m)
  {
    hide IsActive, RecentOutcome, PrunedBy, PrunedOnceMade;
    var id := done[m].runId;
    UnlistedExactly(c, id);
    assert forall j :: 0 <= j < |done| && done[j].runId == id ==> j == m;
  }

  lemma ForgetsListed(c: Contents, done: seq<RecentRun>, clock: seq<int>, i: nat)
    requires Sound(c) && Reports(c, done) && |done| == |clock| && i < |c.recent|
    ensures Forgets(c, done, clock, c.recent[i].runId) <==> PrunedBy(c.recent[i], c.recent[i + 1..], done, clock)
  {
    hide IsActive, RecentOutcome, PrunedBy, PrunedOnceMade;
    ListedOnce(c, i);
  }

  lemma ForgetsNothing(c: Contents, done: seq<RecentRun>, clock: seq<int>, id: RunId)
    requires |done| == |clock| && !Among(id, done) && !Among(id, c.recent)
    ensures !Forgets(c, done, clock, id)
  {
  }

  /** Exactly the runs known before are known after any number of such saves, except
      those that the ages and numbers of the records say are forgotten. */
  lemma KnownExactly(c: Contents, done: seq<RecentRun>, clock: seq<int>, id: RunId)
    requires Sound(c) && Reports(c, done) && |done| == |clock|
    ensures Known(Marks(c, done, clock), id) <==> Known(c, id) && !Forgets(c, done, clock, id)
  {
    hide IsActive, RecentOutcome, Marks, Ends, PrunedBy, PrunedOnceMade, Forgets;
    var t := Marks(c, done, clock);
    MarksFacts(c, done, clock);
    UnlistedExactly(c, id);
    if Among(id, done) {
      var m :| 0 <= m < |done| && done[m].runId == id;
      MadeFate(c, done, clock, m);
      ForgetsMade(c, done, clock, m);
    } else if Among(id, c.recent) {
      var i :| 0 <= i < |c.recent| && c.recent[i].runId == id;
      ListedOnce(c, i);
      EndsAt(c.recent, i);
      RecordFate(c, done, clock, c.recent[i], c.recent[i + 1..]);
      ForgetsListed(c, done, clock, i);
      if !PrunedBy(c.recent[i], c.recent[i + 1..], done, clock) {
        KnownWhenEnds(t, c.recent[i], Behind(c.recent[i + 1..], done, clock));
      }
    } else {
      ForgetsNothing(c, done, clock, id);
    }
  }
}

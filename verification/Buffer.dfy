/** internal/output/buffer.go: output waits here until an acknowledgement releases
    it or an eviction drops it; one limit bounds what all runs hold together. */
module BufferSpec {
  import opened Chunks

  datatype RunOutput = RunOutput(chunks: seq<Chunk>, bytes: int, truncated: bool)

  datatype State = State(cap: int, runs: map<RunId, RunOutput>, size: int)

  const NO_OUTPUT := RunOutput([], 0, false)

  function RunOf(s: State, id: RunId): RunOutput {
    if id in s.runs then s.runs[id] else NO_OUTPUT
  }

  function ChunksOf(s: State, id: RunId): seq<Chunk> {
    RunOf(s, id).chunks
  }

  predicate Truncated(s: State, id: RunId) {
    RunOf(s, id).truncated
  }

  /** What a run is given when the chunk is added. */
  function Own(chunk: Chunk, id: RunId): seq<Chunk> {
    if id == chunk.runId then [chunk] else []
  }

  function Bytes(chunks: seq<Chunk>): nat {
    if chunks == [] then 0 else |chunks[0].data| + Bytes(chunks[1..])
  }

  function BytesOf(run: RunOutput): int { run.bytes }

  function CountOf(run: RunOutput): int { |run.chunks| }

  ghost function Sum(runs: map<RunId, RunOutput>, f: RunOutput -> int): int
    decreases |runs|
  {
    if runs == map[] then 0
    else
      var id :| id in runs;
      f(runs[id]) + Sum(runs - {id}, f)
  }

  ghost function NonEmpty(s: State): set<RunId> {
    set id | id in s.runs && s.runs[id].chunks != []
  }

  ghost predicate Valid(s: State) {
    && s.size == Sum(s.runs, BytesOf)
    && 0 <= s.size <= s.cap
    && (forall id :: id in s.runs ==> s.runs[id].bytes == Bytes(s.runs[id].chunks))
  }

  // ----- operations

  function Empty(cap: int): State {
    State(cap, map[], 0)
  }

  /** An entry for the run, as looking one up creates it. */
  function Touch(s: State, id: RunId): State {
    s.(runs := s.runs[id := RunOf(s, id)])
  }

  function DropOldest(s: State, id: RunId): State
    requires id in s.runs && s.runs[id].chunks != []
  {
    var run := s.runs[id];
    var n := |run.chunks[0].data|;
    s.(runs := s.runs[id := run.(chunks := run.chunks[1..], bytes := run.bytes - n)], size := s.size - n)
  }

  function Flag(s: State, id: RunId): State
    requires id in s.runs
  {
    s.(runs := s.runs[id := s.runs[id].(truncated := true)])
  }

  ghost predicate IsLargest(s: State, id: RunId) {
    && id in s.runs && s.runs[id].chunks != []
    && forall other :: other in s.runs && s.runs[other].chunks != [] ==> s.runs[other].bytes <= s.runs[id].bytes
  }

  /** `victims` is a possible order of evictions that make room for `need` bytes:
      each victim is a largest run, whichever one a tie picks, and was evicted
      from while there was still no room. */
  ghost predicate Evictions(s: State, need: nat, victims: seq<RunId>)
    decreases |victims|, 0
  {
    victims == [] ||
    (var before := victims[..|victims| - 1];
     && Evictions(s, need, before)
     && EvictAll(s, need, before).size + need > s.cap
     && IsLargest(EvictAll(s, need, before), victims[|victims| - 1]))
  }

  ghost function EvictAll(s: State, need: nat, victims: seq<RunId>): (t: State)
    requires Evictions(s, need, victims)
    ensures t.cap == s.cap
    decreases |victims|, 1
  {
    if victims == [] then s
    else
      var t := EvictAll(s, need, victims[..|victims| - 1]);
      DropOldest(Flag(t, victims[|victims| - 1]), victims[|victims| - 1])
  }

  /** The evictions have gone far enough: there is room or nothing left to evict. */
  ghost predicate Enough(s: State, chunk: Chunk, victims: seq<RunId>) {
    && Evictions(Touch(s, chunk.runId), |chunk.data|, victims)
    && var t := EvictAll(Touch(s, chunk.runId), |chunk.data|, victims);
      t.size + |chunk.data| <= t.cap || NonEmpty(t) == {}
  }

  function Append(s: State, chunk: Chunk): State
    requires chunk.runId in s.runs
  {
    var run := s.runs[chunk.runId];
    var n := |chunk.data|;
    s.(runs := s.runs[chunk.runId := run.(chunks := run.chunks + [chunk], bytes := run.bytes + n)], size := s.size + n)
  }

  ghost function Add(s: State, chunk: Chunk, victims: seq<RunId>): State
    requires Enough(s, chunk, victims)
  {
    EvictionKeepsKeys(Touch(s, chunk.runId), |chunk.data|, victims);
    var t := EvictAll(Touch(s, chunk.runId), |chunk.data|, victims);
    if t.size + |chunk.data| > t.cap then Flag(t, chunk.runId) else Append(t, chunk)
  }

  function DropAcked(chunks: seq<Chunk>, upTo: nat): seq<Chunk> {
    if chunks != [] && chunks[0].seqNo <= upTo then DropAcked(chunks[1..], upTo) else chunks
  }

  function AckUpTo(s: State, id: RunId, upTo: nat): State
    decreases |ChunksOf(s, id)|
  {
    if id in s.runs && s.runs[id].chunks != [] && s.runs[id].chunks[0].seqNo <= upTo
    then AckUpTo(DropOldest(s, id), id, upTo)
    else s
  }

  function Forget(s: State, id: RunId): State {
    if id in s.runs then s.(runs := s.runs - {id}, size := s.size - s.runs[id].bytes) else s
  }

  // ----- sums over the runs

  lemma {:induction false} SumRemove(runs: map<RunId, RunOutput>, f: RunOutput -> int, id: RunId)
    requires id in runs
    ensures Sum(runs, f) == f(runs[id]) + Sum(runs - {id}, f)
    decreases |runs|
  {
    var k :| k in runs && Sum(runs, f) == f(runs[k]) + Sum(runs - {k}, f);
    if k != id {
      SumRemove(runs - {k}, f, id);
      SumRemove(runs - {id}, f, k);
      assert runs - {k} - {id} == runs - {id} - {k};
    }
  }

  lemma SumUpdate(runs: map<RunId, RunOutput>, f: RunOutput -> int, id: RunId, run: RunOutput)
    ensures Sum(runs[id := run], f) == Sum(runs, f) - (if id in runs then f(runs[id]) else 0) + f(run)
  {
    SumRemove(runs[id := run], f, id);
    assert runs[id := run] - {id} == runs - {id};
    if id in runs {
      SumRemove(runs, f, id);
    } else {
      assert runs - {id} == runs;
    }
  }

  lemma MulMonotone(a: int, b: int, c: nat)
    requires a <= b
    ensures a * c <= b * c
  {
  }

  lemma MulStep(a: int, c: int)
    ensures a * c == (a - 1) * c + c
  {
  }

  /** The pigeonhole behind fair eviction. */
  lemma {:induction false} SumBound(runs: map<RunId, RunOutput>, f: RunOutput -> int, holders: set<RunId>, most: nat)
    requires forall id :: id in runs && id in holders ==> f(runs[id]) <= most
    requires forall id :: id in runs && id !in holders ==> f(runs[id]) <= 0
    ensures Sum(runs, f) <= |holders| * most
    decreases |runs|
  {
    if runs == map[] {
      MulMonotone(0, |holders|, most);
    } else {
      var id :| id in runs;
      var rest := holders - {id};
      SumRemove(runs, f, id);
      SumBound(runs - {id}, f, rest, most);
      if id in holders {
        assert |rest| == |holders| - 1;
        MulStep(|holders|, most);
      } else {
        assert rest == holders;
      }
    }
  }

  lemma {:induction false} SumNonNegative(runs: map<RunId, RunOutput>, f: RunOutput -> int)
    requires forall id :: id in runs ==> f(runs[id]) >= 0
    ensures Sum(runs, f) >= 0
    ensures forall id :: id in runs ==> f(runs[id]) <= Sum(runs, f)
    decreases |runs|
  {
    forall id | id in runs ensures 0 <= f(runs[id]) <= Sum(runs, f) {
      SumRemove(runs, f, id);
      SumNonNegative(runs - {id}, f);
    }
  }

  lemma {:induction false} BytesAppend(chunks: seq<Chunk>, c: Chunk)
    ensures Bytes(chunks + [c]) == Bytes(chunks) + |c.data|
    decreases |chunks|
  {
    if chunks == [] {
      assert chunks + [c] == [c] && [c][1..] == [];
    } else {
      assert (chunks + [c])[1..] == chunks[1..] + [c];
      BytesAppend(chunks[1..], c);
    }
  }

  // ----- what every operation keeps

  lemma TouchKeepsValid(s: State, id: RunId)
    requires Valid(s)
    ensures Valid(Touch(s, id))
    ensures NonEmpty(Touch(s, id)) == NonEmpty(s)
  {
    SumUpdate(s.runs, BytesOf, id, RunOf(s, id));
  }

  lemma DropKeepsValid(s: State, id: RunId)
    requires Valid(s) && id in s.runs && s.runs[id].chunks != []
    ensures Valid(DropOldest(s, id))
    ensures Sum(DropOldest(s, id).runs, CountOf) == Sum(s.runs, CountOf) - 1
  {
    var t := DropOldest(s, id);
    SumUpdate(s.runs, BytesOf, id, t.runs[id]);
    SumUpdate(s.runs, CountOf, id, t.runs[id]);
    SumNonNegative(t.runs, BytesOf);
  }

  lemma FlagKeepsValid(s: State, id: RunId)
    requires Valid(s) && id in s.runs
    ensures Valid(Flag(s, id)) && Flag(s, id).cap == s.cap
    ensures Sum(Flag(s, id).runs, CountOf) == Sum(s.runs, CountOf)
  {
    SumUpdate(s.runs, BytesOf, id, Flag(s, id).runs[id]);
    SumUpdate(s.runs, CountOf, id, Flag(s, id).runs[id]);
  }

  lemma {:induction false} EvictionKeepsKeys(s: State, need: nat, victims: seq<RunId>)
    requires Evictions(s, need, victims)
    ensures EvictAll(s, need, victims).runs.Keys == s.runs.Keys
    decreases |victims|
  {
    if victims != [] {
      EvictionKeepsKeys(s, need, victims[..|victims| - 1]);
    }
  }

  lemma {:induction false} EvictionKeepsValid(s: State, need: nat, victims: seq<RunId>)
    requires Valid(s) && Evictions(s, need, victims)
    ensures Valid(EvictAll(s, need, victims))
    ensures NonEmpty(EvictAll(s, need, victims)) <= NonEmpty(s)
    decreases |victims|
  {
    if victims != [] {
      var t, v := EvictAll(s, need, victims[..|victims| - 1]), victims[|victims| - 1];
      EvictionKeepsValid(s, need, victims[..|victims| - 1]);
      FlagKeepsValid(t, v);
      DropKeepsValid(Flag(t, v), v);
    }
  }

  /** Without a chunk left the buffer is empty. */
  lemma NothingLeft(s: State)
    requires Valid(s) && NonEmpty(s) == {}
    ensures s.size == 0
  {
    assert forall id :: id in s.runs ==> s.runs[id].chunks == [] by {
      forall id | id in s.runs ensures s.runs[id].chunks == [] {
        assert id !in NonEmpty(s);
      }
    }
    SumBound(s.runs, BytesOf, {}, 0);
  }

  /** The size is exact and within the cap after every Add, whatever the ties pick. */
  lemma AddKeepsValid(s: State, chunk: Chunk, victims: seq<RunId>)
    requires Valid(s) && Enough(s, chunk, victims)
    ensures Valid(Add(s, chunk, victims))
    ensures Add(s, chunk, victims).cap == s.cap
  {
    var s0 := Touch(s, chunk.runId);
    TouchKeepsValid(s, chunk.runId);
    EvictionKeepsValid(s0, |chunk.data|, victims);
    EvictionKeepsKeys(s0, |chunk.data|, victims);
    var t := EvictAll(s0, |chunk.data|, victims);
    hide Valid, EvictAll, Evictions, Flag, Append;
    if t.size + |chunk.data| > t.cap {
      FlagKeepsValid(t, chunk.runId);
    } else {
      AppendKeepsValid(t, chunk);
    }
  }

  lemma AppendKeepsValid(s: State, chunk: Chunk)
    requires Valid(s) && chunk.runId in s.runs && s.size + |chunk.data| <= s.cap
    ensures Valid(Append(s, chunk)) && Append(s, chunk).cap == s.cap
  {
    SumUpdate(s.runs, BytesOf, chunk.runId, Append(s, chunk).runs[chunk.runId]);
    BytesAppend(s.runs[chunk.runId].chunks, chunk);
  }

  lemma {:induction false} AckKeepsValid(s: State, id: RunId, upTo: nat)
    requires Valid(s)
    ensures
      var t := AckUpTo(s, id, upTo);
      && Valid(t) && t.cap == s.cap
      && ChunksOf(t, id) == DropAcked(ChunksOf(s, id), upTo)
      && Truncated(t, id) == Truncated(s, id)
      && (forall other :: other != id ==> RunOf(t, other) == RunOf(s, other))
    decreases |ChunksOf(s, id)|
  {
    if id in s.runs && s.runs[id].chunks != [] && s.runs[id].chunks[0].seqNo <= upTo {
      DropKeepsValid(s, id);
      AckKeepsValid(DropOldest(s, id), id, upTo);
    }
  }

  lemma ForgetKeepsValid(s: State, id: RunId)
    requires Valid(s)
    ensures
      var t := Forget(s, id);
      && Valid(t) && t.cap == s.cap && id !in t.runs
      && (forall other :: other != id ==> RunOf(t, other) == RunOf(s, other))
  {
    if id in s.runs {
      SumRemove(s.runs, BytesOf, id);
      SumNonNegative(s.runs, BytesOf);
      SumNonNegative(Forget(s, id).runs, BytesOf);
    }
  }

  // ----- which chunks an Add costs

  /** A run loses its oldest chunks, one for each time it was the victim, and is
      flagged exactly when it lost one. */
  lemma {:induction false} EvictionIsOldestFirst(s: State, need: nat, victims: seq<RunId>, id: RunId)
    requires Evictions(s, need, victims)
    ensures
      var lost := multiset(victims)[id];
      && lost <= |ChunksOf(s, id)|
      && ChunksOf(EvictAll(s, need, victims), id) == ChunksOf(s, id)[lost..]
    ensures Truncated(EvictAll(s, need, victims), id) <==> Truncated(s, id) || id in victims
    decreases |victims|
  {
    if victims != [] {
      EvictionIsOldestFirst(s, need, victims[..|victims| - 1], id);
      NextEviction(s, need, victims, id);
    }
  }

  lemma NextEviction(s: State, need: nat, victims: seq<RunId>, id: RunId)
    requires victims != [] && Evictions(s, need, victims)
    requires
      var before := victims[..|victims| - 1];
      var (t, lost) := (EvictAll(s, need, before), multiset(before)[id]);
      && lost <= |ChunksOf(s, id)| && ChunksOf(t, id) == ChunksOf(s, id)[lost..]
      && (Truncated(t, id) <==> Truncated(s, id) || id in before)
    ensures
      var (t, lost) := (EvictAll(s, need, victims), multiset(victims)[id]);
      && lost <= |ChunksOf(s, id)| && ChunksOf(t, id) == ChunksOf(s, id)[lost..]
      && (Truncated(t, id) <==> Truncated(s, id) || id in victims)
  {
    var before, v := victims[..|victims| - 1], victims[|victims| - 1];
    var (chunks, t) := (ChunksOf(s, id), EvictAll(s, need, before));
    OneEviction(t, v, id);
    assert EvictAll(s, need, victims) == DropOldest(Flag(t, v), v);
    hide *;
    CountSnoc(victims, id);
    DropMore(chunks, multiset(before)[id], if id == v then 1 else 0);
  }

  lemma CountSnoc(victims: seq<RunId>, id: RunId)
    requires victims != []
    ensures
      var before, v := victims[..|victims| - 1], victims[|victims| - 1];
      && multiset(victims)[id] == multiset(before)[id] + (if id == v then 1 else 0)
      && (id in victims <==> id in before || id == v)
  {
    var before, v := victims[..|victims| - 1], victims[|victims| - 1];
    assert victims == before + [v];
  }

  lemma DropMore(chunks: seq<Chunk>, n: nat, d: nat)
    requires n + d <= |chunks|
    ensures chunks[n..][d..] == chunks[n + d..]
  {
  }

  lemma OneEviction(s: State, victim: RunId, id: RunId)
    requires victim in s.runs && s.runs[victim].chunks != []
    ensures
      var t := DropOldest(Flag(s, victim), victim);
      && (id == victim ==> ChunksOf(s, id) != [])
      && ChunksOf(t, id) == ChunksOf(s, id)[if id == victim then 1 else 0..]
      && (Truncated(t, id) <==> Truncated(s, id) || id == victim)
  {
  }

  /** The buffer just before the new chunk is appended or refused. */
  ghost function Cleared(s: State, chunk: Chunk, victims: seq<RunId>): State
    requires Enough(s, chunk, victims)
  {
    EvictAll(Touch(s, chunk.runId), |chunk.data|, victims)
  }

  lemma ClearedIsOldestFirst(s: State, chunk: Chunk, victims: seq<RunId>, id: RunId)
    requires Valid(s) && Enough(s, chunk, victims)
    ensures
      var (t, lost) := (Cleared(s, chunk, victims), multiset(victims)[id]);
      && Valid(t) && t.cap == s.cap && chunk.runId in t.runs
      && NonEmpty(t) <= NonEmpty(s)
      && lost <= |ChunksOf(s, id)|
      && ChunksOf(t, id) == ChunksOf(s, id)[lost..]
      && (Truncated(t, id) <==> Truncated(s, id) || lost > 0)
  {
    var s0 := Touch(s, chunk.runId);
    TouchKeepsValid(s, chunk.runId);
    EvictionIsOldestFirst(s0, |chunk.data|, victims, id);
    EvictionKeepsValid(s0, |chunk.data|, victims);
    EvictionKeepsKeys(s0, |chunk.data|, victims);
  }

  /** An Add leaves each run with the newest of what it held and was given; a run
      that lost anything is flagged, and no other run is. */
  lemma AddKeepsNewest(s: State, chunk: Chunk, victims: seq<RunId>, id: RunId)
    requires Valid(s) && Enough(s, chunk, victims)
    ensures
      var given := ChunksOf(s, id) + Own(chunk, id);
      var t := Add(s, chunk, victims);
      var lost := |given| - |ChunksOf(t, id)|;
      && lost >= 0
      && ChunksOf(t, id) == given[lost..]
      && (Truncated(t, id) <==> Truncated(s, id) || lost > 0)
  {
    hide Valid, Evictions, EvictAll;
    var t := Cleared(s, chunk, victims);
    ClearedIsOldestFirst(s, chunk, victims, id);
    if id == chunk.runId && t.size + |chunk.data| > t.cap {
      assert id !in NonEmpty(t) && ChunksOf(t, id) == [];
    }
  }

  /** A chunk is refused only when it could not fit into an empty buffer, and then
      the buffer is empty. */
  lemma RefusedOnlyIfTooLarge(s: State, chunk: Chunk, victims: seq<RunId>)
    requires Valid(s) && Enough(s, chunk, victims)
    ensures chunk in ChunksOf(Add(s, chunk, victims), chunk.runId) <==> |chunk.data| <= s.cap
    ensures |chunk.data| > s.cap ==> NonEmpty(Add(s, chunk, victims)) == {}
  {
    var t := Cleared(s, chunk, victims);
    ClearedIsOldestFirst(s, chunk, victims, chunk.runId);
    if NonEmpty(t) == {} {
      NothingLeft(t);
    }
    if t.size + |chunk.data| > t.cap {
      assert chunk.runId !in NonEmpty(t);
      assert NonEmpty(Flag(t, chunk.runId)) == NonEmpty(t);
    } else {
      assert ChunksOf(Append(t, chunk), chunk.runId)[|ChunksOf(t, chunk.runId)|] == chunk;
    }
  }

  /** A run that holds no more than an equal share of the room is no victim. */
  lemma LargestExceedsShare(s: State, need: nat, victim: RunId, held: nat, k: nat)
    requires Valid(s) && s.size + need > s.cap && IsLargest(s, victim)
    requires |NonEmpty(s)| <= k && held * k <= s.cap - need
    ensures s.runs[victim].bytes > held
  {
    var most := s.runs[victim].bytes;
    assert most >= 0;
    SumBound(s.runs, BytesOf, NonEmpty(s), most);
    MulMonotone(|NonEmpty(s)|, k, most);
    if most <= held {
      MulMonotone(most, held, k);
    }
  }

  lemma {:induction false} FairVictims(s: State, need: nat, victims: seq<RunId>, id: RunId, k: nat)
    requires Valid(s) && Evictions(s, need, victims)
    requires |NonEmpty(s)| <= k && id in s.runs && s.runs[id].bytes * k <= s.cap - need
    ensures id !in victims
    decreases |victims|
  {
    if victims != [] {
      FairVictims(s, need, victims[..|victims| - 1], id, k);
      NextIsFair(s, need, victims, id, k);
    }
  }

  lemma NextIsFair(s: State, need: nat, victims: seq<RunId>, id: RunId, k: nat)
    requires victims != [] && Valid(s) && Evictions(s, need, victims)
    requires |NonEmpty(s)| <= k && id in s.runs && s.runs[id].bytes * k <= s.cap - need
    requires id !in victims[..|victims| - 1]
    ensures id !in victims
  {
    var before, v := victims[..|victims| - 1], victims[|victims| - 1];
    var t := EvictAll(s, need, before);
    EvictionKeepsValid(s, need, before);
    EvictionKeepsKeys(s, need, before);
    EvictionIsOldestFirst(s, need, before, id);
    assert t.size + need > s.cap && IsLargest(t, v);
    hide EvictAll, Evictions;
    assert multiset(before)[id] == 0 && ChunksOf(t, id) == ChunksOf(s, id);
    assert t.runs[id].bytes == s.runs[id].bytes;
    hide Valid, IsLargest;
    SubsetSize(NonEmpty(t), NonEmpty(s));
    LargestExceedsShare(t, need, v, s.runs[id].bytes, k);
    CountSnoc(victims, id);
  }

  lemma {:induction false} SubsetSize<T>(a: set<T>, b: set<T>)
    requires a <= b
    ensures |a| <= |b|
  {
    if a != {} {
      var x :| x in a;
      SubsetSize(a - {x}, b - {x});
    }
  }

  /** Fair eviction: with k runs holding chunks, a run whose bytes are at most a
      k-th of the room left beside the new chunk keeps every chunk and its flag
      through the whole Add, whichever runs the ties pick. */
  lemma SmallRunsAreSpared(s: State, chunk: Chunk, victims: seq<RunId>, id: RunId)
    requires Valid(s) && Enough(s, chunk, victims)
    requires RunOf(s, id).bytes * |NonEmpty(s)| <= s.cap - |chunk.data|
    ensures ChunksOf(Add(s, chunk, victims), id) ==
      ChunksOf(s, id) + Own(chunk, id)
    ensures Truncated(Add(s, chunk, victims), id) == Truncated(s, id)
  {
    hide Evictions, EvictAll;
    var s0, t := Touch(s, chunk.runId), Cleared(s, chunk, victims);
    TouchKeepsValid(s, chunk.runId);
    ClearedIsOldestFirst(s, chunk, victims, id);
    if id in s0.runs {
      FairVictims(s0, |chunk.data|, victims, id, |NonEmpty(s)|);
    }
    assert multiset(victims)[id] == 0;
    assert RunOf(s, id).bytes * |NonEmpty(s)| >= 0;
    if NonEmpty(t) == {} {
      NothingLeft(t);
    }
  }

  // ----- batches

  ghost predicate Contiguous(chunks: seq<Chunk>) {
    forall i :: 0 < i < |chunks| ==> chunks[i].seqNo == chunks[i - 1].seqNo + 1
  }

  /** The first n chunks may travel in one request. */
  ghost predicate Fits(chunks: seq<Chunk>, n: nat, maxChunks: int, maxBytes: int)
    requires n <= |chunks|
  {
    n <= maxChunks && Contiguous(chunks[..n]) && (n <= 1 || Bytes(chunks[..n]) <= maxBytes)
  }

  /** `batch` is the longest prefix of `chunks` that may travel in one request. */
  ghost predicate IsBatch(chunks: seq<Chunk>, batch: seq<Chunk>, maxChunks: int, maxBytes: int) {
    && batch <= chunks
    && forall n :: 0 <= n <= |chunks| ==> (Fits(chunks, n, maxChunks, maxBytes) <==> n <= |batch|)
  }

  /** What makes it the longest: it holds all, or as many as allowed, or the next chunk
      leaves a gap or has more bytes than still fit. */
  lemma BatchExactly(chunks: seq<Chunk>, batch: seq<Chunk>, maxChunks: int, maxBytes: int)
    requires IsBatch(chunks, batch, maxChunks, maxBytes) && maxChunks > 0
    ensures batch <= chunks && |batch| <= maxChunks && (chunks != [] ==> batch != [])
    ensures forall i :: 0 < i < |batch| ==> batch[i].seqNo == batch[i - 1].seqNo + 1
    ensures |batch| > 1 ==> Bytes(batch) <= maxBytes
    ensures
      || |batch| == |chunks| || |batch| == maxChunks
      || (var n := |batch|;
          chunks[n].seqNo != chunks[n - 1].seqNo + 1 || Bytes(batch) + |chunks[n].data| > maxBytes)
  {
    var n := |batch|;
    assert chunks[..n] == batch && Fits(chunks, n, maxChunks, maxBytes);
    if chunks != [] {
      OneFits(chunks, maxChunks, maxBytes);
      assert n >= 1;
    }
    if n < |chunks| && n < maxChunks && chunks[n].seqNo == chunks[n - 1].seqNo + 1 {
      assert !Fits(chunks, n + 1, maxChunks, maxBytes);
      hide Bytes, Contiguous, IsBatch;
      NextBytes(chunks, n);
      NextContiguous(chunks, n);
    }
  }

  lemma OneFits(chunks: seq<Chunk>, maxChunks: int, maxBytes: int)
    requires chunks != [] && maxChunks > 0
    ensures Fits(chunks, 1, maxChunks, maxBytes)
  {
  }

  lemma NextBytes(chunks: seq<Chunk>, n: nat)
    requires n < |chunks|
    ensures Bytes(chunks[..n + 1]) == Bytes(chunks[..n]) + |chunks[n].data|
  {
    BytesSnoc(chunks[..n], chunks[n]);
    assert chunks[..n + 1] == chunks[..n] + [chunks[n]];
  }

  lemma {:induction false} BytesSnoc(chunks: seq<Chunk>, chunk: Chunk)
    ensures Bytes(chunks + [chunk]) == Bytes(chunks) + |chunk.data|
    decreases |chunks|
  {
    if chunks == [] {
      assert chunks + [chunk] == [chunk] && [chunk][1..] == [];
    } else {
      assert (chunks + [chunk])[1..] == chunks[1..] + [chunk];
      BytesSnoc(chunks[1..], chunk);
    }
  }

  lemma NextContiguous(chunks: seq<Chunk>, n: nat)
    requires 0 < n < |chunks| && Contiguous(chunks[..n]) && chunks[n].seqNo == chunks[n - 1].seqNo + 1
    ensures Contiguous(chunks[..n + 1])
  {
    assert chunks[..n + 1] == chunks[..n] + [chunks[n]];
  }

  /** Until acknowledged the same chunks come back, first, in every later batch. */
  lemma BatchRepeats(chunks: seq<Chunk>, more: seq<Chunk>, batch: seq<Chunk>, later: seq<Chunk>,
                     maxChunks: int, maxBytes: int)
    requires IsBatch(chunks, batch, maxChunks, maxBytes)
    requires IsBatch(chunks + more, later, maxChunks, maxBytes)
    ensures batch <= later
    ensures later == batch || |batch| == |chunks|
  {
    var all := chunks + more;
    forall n | 0 <= n <= |chunks| ensures Fits(all, n, maxChunks, maxBytes) <==> Fits(chunks, n, maxChunks, maxBytes) {
      assert all[..n] == chunks[..n];
    }
    assert Fits(chunks, |batch|, maxChunks, maxBytes);
    assert Fits(all, |batch|, maxChunks, maxBytes);
    if |batch| < |chunks| {
      assert !Fits(chunks, |batch| + 1, maxChunks, maxBytes);
    }
  }

  // ----- whole histories

  datatype Event = Added(chunk: Chunk, victims: seq<RunId>) | Acked(id: RunId, upTo: nat) | Forgotten(id: RunId)

  ghost predicate Possible(s: State, e: Event) {
    e.Added? ==> Enough(s, e.chunk, e.victims)
  }

  ghost function Apply(s: State, e: Event): State
    requires Possible(s, e)
  {
    match e
    case Added(chunk, victims) => Add(s, chunk, victims)
    case Acked(id, upTo) => AckUpTo(s, id, upTo)
    case Forgotten(id) => Forget(s, id)
  }

  ghost predicate Legal(cap: nat, events: seq<Event>)
    decreases |events|, 0
  {
    events == [] ||
    (var before := events[..|events| - 1];
     Legal(cap, before) && Possible(After(cap, before), events[|events| - 1]))
  }

  ghost function After(cap: nat, events: seq<Event>): State
    requires Legal(cap, events)
    decreases |events|, 1
  {
    if events == [] then Empty(cap) else Apply(After(cap, events[..|events| - 1]), events[|events| - 1])
  }

  /** The chunks given for a run since it was last forgotten. */
  function Fed(events: seq<Event>, id: RunId): seq<Chunk> {
    if events == [] then []
    else
      var before := Fed(events[..|events| - 1], id);
      match events[|events| - 1]
      case Added(chunk, _) => before + Own(chunk, id)
      case Acked(_, _) => before
      case Forgotten(other) => if other == id then [] else before
  }

  /** The highest acknowledgement of a run since it was last forgotten. */
  function HighestAck(events: seq<Event>, id: RunId): nat {
    if events == [] then 0
    else
      var before := HighestAck(events[..|events| - 1], id);
      match events[|events| - 1]
      case Added(_, _) => before
      case Acked(other, upTo) => if other == id && upTo > before then upTo else before
      case Forgotten(other) => if other == id then 0 else before
  }

  /** The numbers of the run's chunks that an Add dropped or refused. */
  ghost function LostBy(s: State, chunk: Chunk, victims: seq<RunId>, id: RunId): set<nat>
    requires Enough(s, chunk, victims)
  {
    var given := ChunksOf(s, id) + Own(chunk, id);
    var kept := ChunksOf(Add(s, chunk, victims), id);
    Numbers(Beyond(given, |kept|))
  }

  function Numbers(chunks: seq<Chunk>): set<nat> {
    set c | c in chunks :: c.seqNo
  }

  /** The chunks before the newest n. */
  function Beyond(chunks: seq<Chunk>, n: nat): seq<Chunk> {
    if n <= |chunks| then chunks[..|chunks| - n] else []
  }

  /** The numbers of the run's chunks that were evicted since it was last forgotten. */
  ghost function Evicted(cap: nat, events: seq<Event>, id: RunId): set<nat>
    requires Legal(cap, events)
    decreases |events|
  {
    if events == [] then {}
    else
      var before := events[..|events| - 1];
      match events[|events| - 1]
      case Added(chunk, victims) => Evicted(cap, before, id) + LostBy(After(cap, before), chunk, victims, id)
      case Acked(_, _) => Evicted(cap, before, id)
      case Forgotten(other) => if other == id then {} else Evicted(cap, before, id)
  }

  lemma HistoryGrows(cap: nat, events: seq<Event>, e: Event)
    requires Legal(cap, events) && Possible(After(cap, events), e)
    ensures Legal(cap, events + [e]) && After(cap, events + [e]) == Apply(After(cap, events), e)
  {
    hide Enough, Add, AckUpTo, Forget;
    assert (events + [e])[..|events|] == events;
  }

  lemma FedGrows(events: seq<Event>, e: Event, id: RunId)
    ensures
      var fed := Fed(events, id);
      Fed(events + [e], id) ==
        if e.Added? then fed + Own(e.chunk, id) else if e == Forgotten(id) then [] else fed
  {
    assert (events + [e])[..|events|] == events;
  }

  lemma EvictedGrows(cap: nat, events: seq<Event>, e: Event, id: RunId)
    requires Legal(cap, events) && Possible(After(cap, events), e)
    ensures Legal(cap, events + [e])
    ensures
      var evicted := Evicted(cap, events, id);
      Evicted(cap, events + [e], id) ==
        if e.Added? then evicted + LostBy(After(cap, events), e.chunk, e.victims, id)
        else if e == Forgotten(id) then {} else evicted
  {
    hide Enough, After, LostBy;
    HistoryGrows(cap, events, e);
    assert (events + [e])[..|events|] == events;
  }

  /** The run holds the newest of the chunks it was fed. */
  ghost predicate Holds(s: State, id: RunId, fed: seq<Chunk>) {
    |ChunksOf(s, id)| <= |fed| && ChunksOf(s, id) == fed[|fed| - |ChunksOf(s, id)|..]
  }

  /** What an Add does to a run: the newest of what it was fed stays, and just the rest
      is lost; the flag says whether anything ever was. */
  lemma AddKeepsHolding(s: State, chunk: Chunk, victims: seq<RunId>, id: RunId, fed: seq<Chunk>, evicted: set<nat>)
    requires Valid(s) && Enough(s, chunk, victims) && Holds(s, id, fed)
    requires Truncated(s, id) <==> evicted != {}
    requires Numbered(id, fed + Own(chunk, id))
    ensures
      var (t, fed', lost) :=
        (Add(s, chunk, victims), fed + Own(chunk, id), LostBy(s, chunk, victims, id));
      var (gone, gone') := (|fed| - |ChunksOf(s, id)|, |fed'| - |ChunksOf(t, id)|);
      && Holds(t, id, fed') && gone <= gone'
      && (forall n :: n in lost <==> gone < n <= gone')
      && (Truncated(t, id) <==> evicted + lost != {})
  {
    AddKeepsNewest(s, chunk, victims, id);
    hide Enough, Add, Valid, Numbers, Beyond, Own, Numbered;
    HoldsAfter(s, Add(s, chunk, victims), id, fed, Own(chunk, id), evicted, LostBy(s, chunk, victims, id));
  }

  lemma HoldsAfter(s: State, t: State, id: RunId, fed: seq<Chunk>, own: seq<Chunk>, evicted: set<nat>, lost: set<nat>)
    requires Holds(s, id, fed) && Numbered(id, fed + own) && (Truncated(s, id) <==> evicted != {})
    requires
      var (given, kept) := (ChunksOf(s, id) + own, ChunksOf(t, id));
      && |kept| <= |given| && kept == given[|given| - |kept|..]
      && (Truncated(t, id) <==> Truncated(s, id) || |given| > |kept|)
      && lost == Numbers(Beyond(given, |kept|))
    ensures
      var (gone, gone') := (|fed| - |ChunksOf(s, id)|, |fed + own| - |ChunksOf(t, id)|);
      && Holds(t, id, fed + own) && gone <= gone'
      && (forall n :: n in lost <==> gone < n <= gone')
      && (Truncated(t, id) <==> evicted + lost != {})
  {
    hide Numbers, Beyond, Numbered, ChunksOf, Truncated;
    NewestOfNewest(id, fed, own, ChunksOf(s, id), ChunksOf(t, id));
    assert evicted + lost == {} <==> evicted == {} && lost == {};
  }

  lemma NewestOfNewest(id: RunId, fed: seq<Chunk>, own: seq<Chunk>, chunks: seq<Chunk>, kept: seq<Chunk>)
    requires |chunks| <= |fed| && chunks == fed[|fed| - |chunks|..] && Numbered(id, fed + own)
    requires |kept| <= |chunks + own| && kept == (chunks + own)[|chunks + own| - |kept|..]
    ensures
      var (gone, gone') := (|fed| - |chunks|, |fed + own| - |kept|);
      && kept == (fed + own)[gone'..]
      && (forall n :: n in Numbers(Beyond(chunks + own, |kept|)) <==> gone < n <= gone')
      && (Numbers(Beyond(chunks + own, |kept|)) == {} <==> gone == gone')
  {
    hide Numbers, Beyond, Numbered;
    assert chunks + own == (fed + own)[|fed| - |chunks|..];
    BeyondNumbers(id, fed + own, |fed| - |chunks|, |kept|);
  }

  lemma BeyondNumbers(id: RunId, fed: seq<Chunk>, gone: nat, n: nat)
    requires Numbered(id, fed) && gone + n <= |fed|
    ensures forall k :: k in Numbers(Beyond(fed[gone..], n)) <==> gone < k <= |fed| - n
    ensures Numbers(Beyond(fed[gone..], n)) == {} <==> gone + n == |fed|
  {
    var m := |fed| - gone - n;
    var lost := Beyond(fed[gone..], n);
    forall i | 0 <= i < m ensures lost[i].seqNo == gone + i + 1 {
      assert lost[i] == fed[gone..][i] == fed[gone + i];
    }
    hide Numbered, Beyond;
    assert |lost| == m;
    NumbersInARow(lost, gone);
  }

  lemma NumbersInARow(chunks: seq<Chunk>, before: nat)
    requires forall i :: 0 <= i < |chunks| ==> chunks[i].seqNo == before + i + 1
    ensures forall k :: k in Numbers(chunks) <==> before < k <= before + |chunks|
    ensures Numbers(chunks) == {} <==> chunks == []
  {
    forall k | before < k <= before + |chunks| ensures k in Numbers(chunks) {
      assert chunks[k - 1 - before] in chunks;
    }
    if chunks != [] {
      assert before + 1 in Numbers(chunks);
    }
  }

  /** What the history of a run comes to: it holds the newest of its chunks, and every
      other one was acknowledged or is listed as evicted, which the flag tells. */
  ghost predicate Block(s: State, id: RunId, fed: seq<Chunk>, acked: nat, evicted: set<nat>) {
    && Holds(s, id, fed)
    && (forall n :: 0 < n <= |fed| - |ChunksOf(s, id)| ==> n <= acked || n in evicted)
    && (Truncated(s, id) <==> evicted != {})
  }

  /** Acknowledging drops exactly the chunks with a number up to the given one. */
  lemma {:induction false} AckDropsPrefix(id: RunId, fed: seq<Chunk>, from: nat, upTo: nat)
    requires Numbered(id, fed) && from <= |fed|
    ensures
      var start := if upTo <= from then from else if upTo >= |fed| then |fed| else upTo;
      DropAcked(fed[from..], upTo) == fed[start..]
    decreases |fed| - from
  {
    if from < |fed| && from + 1 <= upTo {
      assert fed[from..][1..] == fed[from + 1..];
      AckDropsPrefix(id, fed, from + 1, upTo);
    }
  }

  /** So it keeps the newest, and lets go only of numbers up to the given one. */
  lemma AckKeepsHolding(s: State, id: RunId, fed: seq<Chunk>, upTo: nat)
    requires Valid(s) && Holds(s, id, fed) && Numbered(id, fed)
    ensures
      var t := AckUpTo(s, id, upTo);
      var (gone, gone') := (|fed| - |ChunksOf(s, id)|, |fed| - |ChunksOf(t, id)|);
      && Holds(t, id, fed) && Truncated(t, id) == Truncated(s, id)
      && gone <= gone' && (gone' <= gone || gone' <= upTo) && (upTo <= |fed| ==> upTo <= gone')
  {
    AckKeepsValid(s, id, upTo);
    AckDropsPrefix(id, fed, |fed| - |ChunksOf(s, id)|, upTo);
  }

  lemma AckKeepsBlock(s: State, id: RunId, fed: seq<Chunk>, acked: nat, evicted: set<nat>, upTo: nat)
    requires Valid(s) && Block(s, id, fed, acked, evicted) && Numbered(id, fed)
    ensures Block(AckUpTo(s, id, upTo), id, fed, if upTo > acked then upTo else acked, evicted)
  {
    hide Valid, AckUpTo, Numbered;
    AckKeepsHolding(s, id, fed, upTo);
  }

  lemma AddKeepsBlock(s: State, chunk: Chunk, victims: seq<RunId>, id: RunId, fed: seq<Chunk>, acked: nat, evicted: set<nat>)
    requires Valid(s) && Enough(s, chunk, victims) && Block(s, id, fed, acked, evicted)
    requires Numbered(id, fed + Own(chunk, id))
    ensures Block(Add(s, chunk, victims), id, fed + Own(chunk, id), acked,
                  evicted + LostBy(s, chunk, victims, id))
  {
    hide Valid, Enough, Add, LostBy, Numbered;
    AddKeepsHolding(s, chunk, victims, id, fed, evicted);
  }

  /** Whatever is added, evicted, acknowledged and forgotten for all the runs: the
      accounting is exact and within the cap, and each run fed the numbers 1, 2,
      3, ... holds one contiguous block of the newest chunks, every missing one
      acknowledged or evicted, and is flagged exactly if one was evicted. */
  lemma {:induction false} EveryHistory(cap: nat, events: seq<Event>)
    requires Legal(cap, events)
    ensures Valid(After(cap, events)) && After(cap, events).cap == cap
    ensures forall id :: Numbered(id, Fed(events, id)) ==>
      Block(After(cap, events), id, Fed(events, id), HighestAck(events, id), Evicted(cap, events, id))
    decreases |events|
  {
    hide *;
    if events == [] {
      NothingHappened(cap);
    } else {
      var before, e := events[..|events| - 1], events[|events| - 1];
      assert events == before + [e];
      LegalBefore(cap, events);
      EveryHistory(cap, before);
      ApplyKeepsValid(After(cap, before), e);
      forall id | Numbered(id, Fed(events, id))
        ensures Block(After(cap, events), id, Fed(events, id), HighestAck(events, id), Evicted(cap, events, id))
      {
        OneMoreEvent(cap, before, e, id);
      }
    }
  }

  lemma NothingHappened(cap: nat)
    ensures Legal(cap, []) && Valid(After(cap, [])) && After(cap, []).cap == cap
    ensures forall id :: Block(After(cap, []), id, Fed([], id), HighestAck([], id), Evicted(cap, [], id))
  {
  }

  lemma LegalBefore(cap: nat, events: seq<Event>)
    requires Legal(cap, events) && events != []
    ensures
      var (before, e) := (events[..|events| - 1], events[|events| - 1]);
      && Legal(cap, before) && Possible(After(cap, before), e)
      && After(cap, events) == Apply(After(cap, before), e)
  {
    hide Apply, Possible;
  }

  lemma ApplyKeepsValid(s: State, e: Event)
    requires Valid(s) && Possible(s, e)
    ensures Valid(Apply(s, e)) && Apply(s, e).cap == s.cap
  {
    hide Valid, Enough, Add, AckUpTo, Forget;
    match e {
      case Added(chunk, victims) => AddKeepsValid(s, chunk, victims);
      case Acked(id, upTo) => AckKeepsValid(s, id, upTo);
      case Forgotten(id) => ForgetKeepsValid(s, id);
    }
  }

  function RaiseAck(acked: nat, e: Event, id: RunId): nat {
    match e
    case Added(_, _) => acked
    case Acked(other, upTo) => if other == id && upTo > acked then upTo else acked
    case Forgotten(other) => if other == id then 0 else acked
  }

  lemma AckGrows(events: seq<Event>, e: Event, id: RunId)
    ensures HighestAck(events + [e], id) == RaiseAck(HighestAck(events, id), e, id)
  {
    assert (events + [e])[..|events|] == events;
  }

  lemma OneMoreEvent(cap: nat, before: seq<Event>, e: Event, id: RunId)
    requires Legal(cap, before) && Possible(After(cap, before), e)
    requires Numbered(id, Fed(before + [e], id)) && Valid(After(cap, before))
    requires Numbered(id, Fed(before, id)) ==>
      Block(After(cap, before), id, Fed(before, id), HighestAck(before, id), Evicted(cap, before, id))
    ensures Legal(cap, before + [e])
    ensures Block(After(cap, before + [e]), id, Fed(before + [e], id), HighestAck(before + [e], id),
                  Evicted(cap, before + [e], id))
  {
    hide Block, Valid, Enough, Numbered, Add, AckUpTo, Forget, Fed, HighestAck, Evicted, LostBy, Legal, After;
    HistoryGrows(cap, before, e);
    FedGrows(before, e, id);
    AckGrows(before, e, id);
    EvictedGrows(cap, before, e, id);
    var (s, fed, acked, evicted) :=
      (After(cap, before), Fed(before, id), HighestAck(before, id), Evicted(cap, before, id));
    if e == Forgotten(id) {
      ForgetKeepsBlock(s, id, id, fed, acked, evicted);
    } else {
      NumberedPrefix(id, fed, Fed(before + [e], id));
      match e {
        case Added(chunk, victims) =>
          AddKeepsBlock(s, chunk, victims, id, fed, acked, evicted);
        case Acked(other, upTo) =>
          OtherAckKeepsBlock(s, other, upTo, id, fed, acked, evicted);
        case Forgotten(other) =>
          ForgetKeepsBlock(s, other, id, fed, acked, evicted);
      }
    }
  }

  lemma NumberedPrefix(id: RunId, a: seq<Chunk>, b: seq<Chunk>)
    requires a <= b && Numbered(id, b)
    ensures Numbered(id, a)
  {
  }

  lemma ForgetKeepsBlock(s: State, other: RunId, id: RunId, fed: seq<Chunk>, acked: nat, evicted: set<nat>)
    requires Valid(s)
    ensures other == id ==> Block(Forget(s, other), id, [], 0, {})
    ensures other != id && Block(s, id, fed, acked, evicted) ==> Block(Forget(s, other), id, fed, acked, evicted)
  {
    ForgetKeepsValid(s, other);
  }

  lemma OtherAckKeepsBlock(s: State, other: RunId, upTo: nat, id: RunId, fed: seq<Chunk>, acked: nat, evicted: set<nat>)
    requires Valid(s) && Block(s, id, fed, acked, evicted) && Numbered(id, fed)
    ensures Block(AckUpTo(s, other, upTo), id, fed, if other == id && upTo > acked then upTo else acked, evicted)
  {
    if other == id {
      AckKeepsBlock(s, id, fed, acked, evicted, upTo);
    } else {
      AckKeepsValid(s, other, upTo);
    }
  }
}

module Buffer {
  import opened Chunks
  import opened Options
  import Spec = BufferSpec

  const DEFAULT_GLOBAL_CAP := 67108864
  const DEFAULT_BATCH_BYTES := 262144
  const DEFAULT_BATCH_CHUNKS := 64

  /** Every method is one critical section of the source's mutex. */
  class Buffer {
    const globalCap: nat
    const batchBytes: int
    const batchChunks: int

    var runs: map<RunId, Spec.RunOutput>
    var size: int

    /** Everything that was done to the buffer. */
    ghost var history: seq<Spec.Event>

    ghost function View(): Spec.State
      reads this
    {
      Spec.State(globalCap, runs, size)
    }

    ghost predicate Valid()
      reads this
    {
      && Spec.Valid(View()) && batchBytes > 0 && batchChunks > 0
      && Spec.Legal(globalCap, history) && View() == Spec.After(globalCap, history)
    }

    constructor (globalCap: int, batchBytes: int, batchChunks: int)
      ensures Valid() && View() == Spec.Empty(if globalCap <= 0 then 64 * 1024 * 1024 else globalCap)
      ensures history == []
      ensures this.batchBytes == (if batchBytes <= 0 then DEFAULT_BATCH_BYTES else batchBytes)
      ensures this.batchChunks == (if batchChunks <= 0 then DEFAULT_BATCH_CHUNKS else batchChunks)
    {
      this.globalCap := if globalCap <= 0 then DEFAULT_GLOBAL_CAP else globalCap;
      this.batchBytes := if batchBytes <= 0 then DEFAULT_BATCH_BYTES else batchBytes;
      this.batchChunks := if batchChunks <= 0 then DEFAULT_BATCH_CHUNKS else batchChunks;
      runs, size, history := map[], 0, [];
    }

    /** `victims` tells which runs the map iteration made the loop evict from. */
    method Add(chunk: Chunk) returns (ghost victims: seq<RunId>)
      requires Valid()
      modifies this
      ensures Valid()
      ensures Spec.Enough(old(View()), chunk, victims)
      ensures View() == Spec.Add(old(View()), chunk, victims)
      ensures history == old(history) + [Spec.Added(chunk, victims)]
    {
      hide Spec.Legal, Spec.After, Spec.Valid, Spec.Enough;
      ghost var before := View();
      var n := |chunk.data|;
      if chunk.runId !in runs {
        runs := runs[chunk.runId := Spec.NO_OUTPUT];
      }
      assert View() == Spec.Touch(before, chunk.runId);
      Spec.TouchKeepsValid(before, chunk.runId);
      victims := MakeRoom(n);
      RoomIsEnough(before, chunk, victims);
      Spec.EvictionKeepsKeys(Spec.Touch(before, chunk.runId), n, victims);
      Spec.AddKeepsValid(before, chunk, victims);
      Spec.HistoryGrows(globalCap, history, Spec.Added(chunk, victims));
      history := history + [Spec.Added(chunk, victims)];

      Place(chunk);
    }

    /** Keeps the chunk if there is room, and else refuses it. */
    method Place(chunk: Chunk)
      requires chunk.runId in runs
      modifies this`runs, this`size
      ensures View() ==
        if old(View()).size + |chunk.data| > globalCap then Spec.Flag(old(View()), chunk.runId)
        else Spec.Append(old(View()), chunk)
    {
      var (run, n) := (runs[chunk.runId], |chunk.data|);
      if size + n > globalCap {
        runs := runs[chunk.runId := run.(truncated := true)];
        return;
      }
      runs := runs[chunk.runId := run.(chunks := run.chunks + [chunk], bytes := run.bytes + n)];
      size := size + n;
    }

    static lemma RoomIsEnough(before: Spec.State, chunk: Chunk, victims: seq<RunId>)
      requires Spec.Evictions(Spec.Touch(before, chunk.runId), |chunk.data|, victims)
      requires
        var t := Spec.EvictAll(Spec.Touch(before, chunk.runId), |chunk.data|, victims);
        t.size + |chunk.data| <= t.cap || Spec.NonEmpty(t) == {}
      ensures Spec.Enough(before, chunk, victims)
    {
    }

    method MakeRoom(n: nat) returns (ghost victims: seq<RunId>)
      requires Spec.Valid(View())
      modifies this`runs, this`size
      ensures Spec.Evictions(old(View()), n, victims) && View() == Spec.EvictAll(old(View()), n, victims)
      ensures size + n <= globalCap || Spec.NonEmpty(View()) == {}
    {
      ghost var before := View();
      victims := [];
      while size + n > globalCap
        invariant Spec.Valid(View())
        invariant Spec.Evictions(before, n, victims) && View() == Spec.EvictAll(before, n, victims)
        decreases Spec.Sum(runs, Spec.CountOf)
      {
        var largest := LargestRun();
        if largest.None? {
          break;
        }
        var id := largest.value;
        OneMore(before, n, victims, id);
        victims := victims + [id];
        runs := runs[id := runs[id].(truncated := true)];
        DropOldest(id);
      }
    }

    static lemma OneMore(before: Spec.State, n: nat, victims: seq<RunId>, id: RunId)
      requires Spec.Evictions(before, n, victims)
      requires var s := Spec.EvictAll(before, n, victims);
        Spec.Valid(s) && s.size + n > s.cap && Spec.IsLargest(s, id)
      ensures
        var s := Spec.EvictAll(before, n, victims);
        var t := Spec.DropOldest(Spec.Flag(s, id), id);
        && Spec.Evictions(before, n, victims + [id]) && Spec.EvictAll(before, n, victims + [id]) == t
        && Spec.Valid(t)
        && 0 <= Spec.Sum(t.runs, Spec.CountOf) < Spec.Sum(s.runs, Spec.CountOf)
    {
      var s := Spec.EvictAll(before, n, victims);
      Spec.FlagKeepsValid(s, id);
      Spec.DropKeepsValid(Spec.Flag(s, id), id);
      Spec.SumNonNegative(Spec.DropOldest(Spec.Flag(s, id), id).runs, Spec.CountOf);
      assert (victims + [id])[..|victims|] == victims;
    }

    method NextBatch(id: RunId) returns (batch: seq<Chunk>)
      requires Valid()
      ensures Spec.IsBatch(Spec.ChunksOf(View(), id), batch, batchChunks, batchBytes)
      ensures batch == [] <==> Spec.ChunksOf(View(), id) == []
    {
      hide Spec.Legal, Spec.After, Spec.Valid, Spec.Contiguous, Spec.Bytes;
      batch := [];
      NoneFits();
      if id !in runs {
        return;
      }
      var chunks := runs[id].chunks;
      var bytes := 0;
      var i := 0;
      while i < |chunks|
        invariant 0 <= i <= |chunks| && batch == chunks[..i] && bytes == Spec.Bytes(chunks[..i])
        invariant Spec.Fits(chunks, i, batchChunks, batchBytes)
      {
        Longer(chunks, i, batchChunks, batchBytes);
        if |batch| == batchChunks {
          break;
        }
        if i > 0 && chunks[i].seqNo != chunks[i - 1].seqNo + 1 {
          break;
        }
        if |batch| > 0 && bytes + |chunks[i].data| > batchBytes {
          break;
        }
        batch := batch + [chunks[i]];
        bytes := bytes + |chunks[i].data|;
        i := i + 1;
      }
      PrefixClosed(chunks, i, batchChunks, batchBytes);
    }

    lemma NoneFits()
      requires Valid()
      ensures forall chunks :: Spec.Fits(chunks, 0, batchChunks, batchBytes)
      ensures Spec.IsBatch([], [], batchChunks, batchBytes) && Spec.Bytes([]) == 0
    {
    }

    /** When one more chunk still fits. */
    static lemma Longer(chunks: seq<Chunk>, n: nat, maxChunks: int, maxBytes: int)
      requires n < |chunks| && Spec.Fits(chunks, n, maxChunks, maxBytes) && maxChunks > 0
      ensures Spec.Fits(chunks, n + 1, maxChunks, maxBytes) <==>
        && n != maxChunks
        && (n > 0 ==> chunks[n].seqNo == chunks[n - 1].seqNo + 1)
        && (n > 0 ==> Spec.Bytes(chunks[..n]) + |chunks[n].data| <= maxBytes)
      ensures Spec.Bytes(chunks[..n + 1]) == Spec.Bytes(chunks[..n]) + |chunks[n].data|
    {
      assert chunks[..n + 1] == chunks[..n] + [chunks[n]];
      Spec.BytesAppend(chunks[..n], chunks[n]);
    }

    /** No prefix fits beyond one that does not, and every shorter one does. */
    static lemma PrefixClosed(chunks: seq<Chunk>, n: nat, maxChunks: int, maxBytes: int)
      requires n <= |chunks| && Spec.Fits(chunks, n, maxChunks, maxBytes)
      requires n < |chunks| ==> !Spec.Fits(chunks, n + 1, maxChunks, maxBytes)
      ensures forall m :: 0 <= m <= |chunks| ==> (Spec.Fits(chunks, m, maxChunks, maxBytes) <==> m <= n)
    {
      forall a: nat, b: nat | a <= b <= |chunks| && Spec.Fits(chunks, b, maxChunks, maxBytes)
        ensures Spec.Fits(chunks, a, maxChunks, maxBytes)
      {
        assert chunks[..a] == chunks[..b][..a];
        PrefixBytes(chunks[..b], a);
      }
    }

    static lemma {:induction false} PrefixBytes(chunks: seq<Chunk>, n: nat)
      requires n <= |chunks|
      ensures Spec.Bytes(chunks[..n]) <= Spec.Bytes(chunks)
      decreases n
    {
      if n > 0 {
        assert chunks[..n][1..] == chunks[1..][..n - 1];
        PrefixBytes(chunks[1..], n - 1);
      }
    }

    method AckUpTo(id: RunId, upTo: nat)
      requires Valid()
      modifies this
      ensures Valid() && View() == Spec.AckUpTo(old(View()), id, upTo)
      ensures history == old(history) + [Spec.Acked(id, upTo)]
    {
      hide Spec.Legal, Spec.After, Spec.Valid;
      Spec.HistoryGrows(globalCap, history, Spec.Acked(id, upTo));
      history := history + [Spec.Acked(id, upTo)];
      if id !in runs {
        return;
      }
      while |runs[id].chunks| > 0 && runs[id].chunks[0].seqNo <= upTo
        invariant id in runs && Spec.Valid(View())
        invariant Spec.AckUpTo(View(), id, upTo) == Spec.AckUpTo(old(View()), id, upTo)
        invariant history == old(history) + [Spec.Acked(id, upTo)]
        decreases |runs[id].chunks|
      {
        Spec.DropKeepsValid(View(), id);
        DropOldest(id);
      }
    }

    method Truncated(id: RunId) returns (truncated: bool)
      ensures truncated == Spec.Truncated(View(), id)
    {
      return id in runs && runs[id].truncated;
    }

    method Forget(id: RunId)
      requires Valid()
      modifies this
      ensures Valid() && View() == Spec.Forget(old(View()), id)
      ensures history == old(history) + [Spec.Forgotten(id)]
    {
      hide Spec.Legal, Spec.After, Spec.Valid;
      Spec.ForgetKeepsValid(View(), id);
      Spec.HistoryGrows(globalCap, history, Spec.Forgotten(id));
      history := history + [Spec.Forgotten(id)];
      if id in runs {
        size := size - runs[id].bytes;
        runs := runs - {id};
      }
    }

    /** The loop meets the runs in any order, as Go's map iteration does. */
    method LargestRun() returns (largest: Option<RunId>)
      ensures largest.Some? ==> Spec.IsLargest(View(), largest.value)
      ensures largest.None? ==> Spec.NonEmpty(View()) == {}
    {
      largest := None;
      var todo := runs.Keys;
      while todo != {}
        invariant todo <= runs.Keys
        invariant largest.Some? ==> largest.value in runs && runs[largest.value].chunks != []
        invariant forall id :: id in runs && id !in todo && runs[id].chunks != [] ==>
          largest.Some? && runs[id].bytes <= runs[largest.value].bytes
        decreases |todo|
      {
        var id :| id in todo;
        todo := todo - {id};
        if |runs[id].chunks| > 0 && (largest.None? || runs[id].bytes > runs[largest.value].bytes) {
          largest := Some(id);
        }
      }
    }

    method DropOldest(id: RunId)
      requires id in runs && runs[id].chunks != []
      modifies this`runs, this`size
      ensures View() == Spec.DropOldest(old(View()), id)
    {
      var n := |runs[id].chunks[0].data|;
      runs := runs[id := runs[id].(chunks := runs[id].chunks[1..], bytes := runs[id].bytes - n)];
      size := size - n;
    }
  }
}

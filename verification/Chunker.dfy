/** internal/output/chunker.go: the chunker that cuts the interleaved stdout and
    stderr of a run into numbered chunks under the run's output cap. */
module ChunkerSpec {
  import opened Chunks

  datatype Pending = Pending(stream: Stream, at: int, data: seq<Byte>)

  const NOTHING := Pending(Stdout, 0, [])

  /** `emitted` lists the chunks handed to the receive callback so far. */
  datatype State = State(
    runId: RunId,
    chunkBytes: nat,
    maxOutput: int,
    pending: Pending,
    seqNo: nat,
    written: int,
    truncated: bool,
    closed: bool,
    emitted: seq<Chunk>)

  /** A write during which the clock moves on is several writes in a row. */
  datatype Event = Write(stream: Stream, now: int, data: seq<Byte>) | Tick | Close

  function Init(runId: RunId, chunkBytes: nat, maxOutput: int): State {
    State(runId, chunkBytes, maxOutput, NOTHING, 0, 0, false, false, [])
  }

  function Flush(s: State): State {
    if s.pending.data == [] then s
    else
      var chunk := Chunk(s.runId, s.seqNo + 1, s.pending.stream, s.pending.at, s.pending.data);
      s.(seqNo := s.seqNo + 1, emitted := s.emitted + [chunk], pending := NOTHING)
  }

  /** A single byte: the simple form that the block-wise Write refines. */
  function WriteByte(s: State, stream: Stream, now: int, byte: Byte): State {
    if s.closed then s
    else if s.maxOutput > 0 && s.written >= s.maxOutput then s.(truncated := true)
    else
      var other := if s.pending.data != [] && s.pending.stream != stream then Flush(s) else s;
      var pending :=
        if other.pending.data == [] then Pending(stream, now, [byte])
        else other.pending.(data := other.pending.data + [byte]);
      var grown := other.(pending := pending, written := other.written + 1);
      if |pending.data| == s.chunkBytes then Flush(grown) else grown
  }

  /** The bytes of one call; clock[i] is what the clock shows if it is read when byte i
      is the next to be taken. */
  function WriteBytes(s: State, stream: Stream, clock: seq<int>, data: seq<Byte>): State
    requires |clock| == |data|
    decreases |data|
  {
    if data == [] then s
    else WriteBytes(WriteByte(s, stream, clock[0], data[0]), stream, clock[1..], data[1..])
  }

  function Step(s: State, e: Event): State {
    match e
    case Write(stream, now, data) => WriteBytes(s, stream, Stamps(now, |data|), data)
    case Tick => Flush(s)
    case Close => Flush(s).(closed := true)
  }

  function Run(s: State, events: seq<Event>): State {
    if events == [] then s
    else Step(Run(s, events[..|events| - 1]), events[|events| - 1])
  }

  // ----- what the events offered, independently of any chunk

  predicate Closed(events: seq<Event>) {
    Close in events
  }

  function Offered(events: seq<Event>): seq<TaggedByte> {
    if events == [] then []
    else
      var before := Offered(events[..|events| - 1]);
      match events[|events| - 1]
      case Write(stream, _, data) =>
        if Closed(events[..|events| - 1]) then before else before + Tag(stream, data)
      case Tick => before
      case Close => before
  }

  function Stamps(now: int, n: nat): seq<int> {
    seq(n, _ => now)
  }

  /** The arrival time of each offered byte. */
  function Arrivals(events: seq<Event>): seq<int> {
    if events == [] then []
    else
      var before := Arrivals(events[..|events| - 1]);
      match events[|events| - 1]
      case Write(_, now, data) =>
        if Closed(events[..|events| - 1]) then before else before + Stamps(now, |data|)
      case Tick => before
      case Close => before
  }

  /** What the cap leaves of the offered bytes; zero or less means no cap. */
  function Kept<T>(maxOutput: int, offered: seq<T>): seq<T> {
    if maxOutput > 0 && |offered| > maxOutput then offered[..maxOutput] else offered
  }

  function WithoutTicks(events: seq<Event>): seq<Event> {
    if events == [] then []
    else
      var before := WithoutTicks(events[..|events| - 1]);
      var last := events[|events| - 1];
      if last.Tick? then before else before + [last]
  }

  // ----- the block-wise form

  lemma {:induction false} SplitWrite(s: State, stream: Stream, ca: seq<int>, cb: seq<int>, a: seq<Byte>, b: seq<Byte>)
    requires |ca| == |a| && |cb| == |b|
    ensures WriteBytes(s, stream, ca + cb, a + b) == WriteBytes(WriteBytes(s, stream, ca, a), stream, cb, b)
    decreases |a|
  {
    hide WriteByte;
    if a == [] {
      assert a + b == b && ca + cb == cb;
    } else {
      assert (a + b)[0] == a[0] && (a + b)[1..] == a[1..] + b;
      assert (ca + cb)[0] == ca[0] && (ca + cb)[1..] == ca[1..] + cb;
      SplitWrite(WriteByte(s, stream, ca[0], a[0]), stream, ca[1..], cb, a[1..], b);
    }
  }

  lemma SplitAt(s: State, stream: Stream, clock: seq<int>, data: seq<Byte>, n: nat)
    requires |clock| == |data| && n <= |data|
    ensures WriteBytes(s, stream, clock, data)
         == WriteBytes(WriteBytes(s, stream, clock[..n], data[..n]), stream, clock[n..], data[n..])
  {
    hide WriteBytes;
    SplitWrite(s, stream, clock[..n], clock[n..], data[..n], data[n..]);
    assert data[..n] + data[n..] == data && clock[..n] + clock[n..] == clock;
  }

  /** One write event for each byte. */
  function Singles(stream: Stream, clock: seq<int>, data: seq<Byte>): seq<Event>
    requires |clock| == |data|
  {
    seq(|data|, i requires 0 <= i < |data| => Write(stream, clock[i], [data[i]]))
  }

  /** A call of Write is a run of write events, whatever the clock shows on the way. */
  lemma {:induction false} WriteIsRun(s: State, stream: Stream, clock: seq<int>, data: seq<Byte>)
    requires |clock| == |data|
    ensures WriteBytes(s, stream, clock, data) == Run(s, Singles(stream, clock, data))
    decreases |data|
  {
    hide WriteByte;
    var events := Singles(stream, clock, data);
    if data != [] {
      var n := |data| - 1;
      WriteIsRun(s, stream, clock[..n], data[..n]);
      SplitAt(s, stream, clock, data, n);
      assert events[..n] == Singles(stream, clock[..n], data[..n]);
      assert clock[n..] == [clock[n]] == Stamps(clock[n], 1) && data[n..] == [data[n]];
    }
  }

  /** A block that neither meets the cap nor crosses a chunk boundary simply
      joins the pending bytes. */
  lemma {:induction false} WriteBlock(s: State, stream: Stream, clock: seq<int>, block: seq<Byte>)
    requires !s.closed && block != [] && |clock| == |block|
    requires s.maxOutput > 0 ==> s.written + |block| <= s.maxOutput
    requires s.pending.data == [] || s.pending.stream == stream
    requires |s.pending.data| + |block| <= s.chunkBytes
    ensures
      var start := if s.pending.data == [] then Pending(stream, clock[0], []) else s.pending;
      var grown := s.(pending := start.(data := start.data + block), written := s.written + |block|);
      WriteBytes(s, stream, clock, block) ==
        if |grown.pending.data| == s.chunkBytes then Flush(grown) else grown
    decreases |block|
  {
    hide Flush;
    var s1 := WriteByte(s, stream, clock[0], block[0]);
    var start := if s.pending.data == [] then Pending(stream, clock[0], []) else s.pending;
    if |block| > 1 {
      assert s1.pending == start.(data := start.data + [block[0]]) && !s1.closed && s1.written == s.written + 1;
      assert (start.data + [block[0]]) + block[1..] == start.data + block;
      WriteBlock(s1, stream, clock[1..], block[1..]);
    } else {
      assert block[1..] == [] && WriteBytes(s1, stream, clock[1..], []) == s1;
      assert block == [block[0]];
      assert s.pending.data == [] ==> start.data + block == [block[0]];
    }
  }

  lemma {:induction false} WriteBeyondCap(s: State, stream: Stream, clock: seq<int>, data: seq<Byte>)
    requires !s.closed && s.maxOutput > 0 && s.written >= s.maxOutput && data != [] && |clock| == |data|
    ensures WriteBytes(s, stream, clock, data) == s.(truncated := true)
    decreases |data|
  {
    var s1 := WriteByte(s, stream, clock[0], data[0]);
    if |data| > 1 {
      WriteBeyondCap(s1, stream, clock[1..], data[1..]);
    } else {
      assert data[1..] == [];
    }
  }

  /** Below the cap nothing reads the truncated flag, so it may be raised early. */
  lemma {:induction false} RaiseEarly(s: State, stream: Stream, clock: seq<int>, data: seq<Byte>)
    requires !s.closed && s.maxOutput > 0 && s.written + |data| <= s.maxOutput && |clock| == |data|
    ensures WriteBytes(s.(truncated := true), stream, clock, data)
         == WriteBytes(s, stream, clock, data).(truncated := true)
    ensures
      var t := WriteBytes(s, stream, clock, data);
      t.written == s.written + |data| && t.maxOutput == s.maxOutput && !t.closed
    decreases |data|
  {
    if data != [] {
      var t := WriteByte(s, stream, clock[0], data[0]);
      RaiseByte(s, stream, clock[0], data[0]);
      hide WriteByte;
      RaiseEarly(t, stream, clock[1..], data[1..]);
    }
  }

  lemma RaiseByte(s: State, stream: Stream, now: int, byte: Byte)
    requires !s.closed && s.maxOutput > 0 && s.written < s.maxOutput
    ensures
      var t := WriteByte(s, stream, now, byte);
      && WriteByte(s.(truncated := true), stream, now, byte) == t.(truncated := true)
      && t.written == s.written + 1 && t.maxOutput == s.maxOutput && !t.closed
  {
  }

  /** Cutting a write that overruns the cap keeps its meaning. */
  lemma CutAtCap(s: State, stream: Stream, clock: seq<int>, data: seq<Byte>)
    requires !s.closed && s.maxOutput > 0 && 0 < s.maxOutput - s.written < |data| && |clock| == |data|
    ensures
      var n := s.maxOutput - s.written;
      WriteBytes(s, stream, clock, data) == WriteBytes(s.(truncated := true), stream, clock[..n], data[..n])
  {
    hide WriteBytes;
    var n := s.maxOutput - s.written;
    RaiseEarly(s, stream, clock[..n], data[..n]);
    SplitAt(s, stream, clock, data, n);
    WriteBeyondCap(WriteBytes(s, stream, clock[..n], data[..n]), stream, clock[n..], data[n..]);
  }

  // ----- invariants of every run of the chunker

  /** The chunker after offering `offered`, whose bytes arrived at `times`; the
      pending bytes may fill a whole chunk that is about to be flushed. */
  ghost predicate Loose(s: State, offered: seq<TaggedByte>, times: seq<int>) {
    && s.chunkBytes > 0
    && |times| == |offered|
    && s.seqNo == |s.emitted|
    && Numbered(s.runId, s.emitted)
    && |s.pending.data| <= s.chunkBytes
    && (forall i :: 0 <= i < |s.emitted| ==> 1 <= |s.emitted[i].data| <= s.chunkBytes)
    && Flat(s.emitted) + Tag(s.pending.stream, s.pending.data) == Kept(s.maxOutput, offered)
    && s.written == |Kept(s.maxOutput, offered)|
    && (s.truncated <==> s.maxOutput > 0 && |offered| > s.maxOutput)
    && Stamped(s, times)
  }

  ghost predicate Inv(s: State, offered: seq<TaggedByte>, times: seq<int>) {
    && Loose(s, offered, times)
    && |s.pending.data| < s.chunkBytes
    && (s.closed ==> s.pending.data == [])
  }

  /** Each chunk, and the pending one, carries the arrival time of its first byte. */
  ghost predicate Stamped(s: State, times: seq<int>) {
    && |Flat(s.emitted)| <= |times|
    && (s.pending.data != [] ==> |Flat(s.emitted)| < |times| && s.pending.at == times[|Flat(s.emitted)|])
    && (forall i :: 0 <= i < |s.emitted| ==> StampedAt(s.emitted, i, times))
  }

  ghost predicate StampedAt(emitted: seq<Chunk>, i: nat, times: seq<int>)
    requires i < |emitted|
  {
    |Flat(emitted[..i])| < |times| && emitted[i].at == times[|Flat(emitted[..i])|]
  }

  lemma FlatSnoc(chunks: seq<Chunk>, c: Chunk)
    ensures Flat(chunks + [c]) == Flat(chunks) + Tag(c.stream, c.data)
  {
    assert (chunks + [c])[..|chunks|] == chunks;
  }

  lemma FlushStaysStamped(s: State, times: seq<int>)
    requires Stamped(s, times) && |Flat(s.emitted)| + |s.pending.data| <= |times|
    ensures Stamped(Flush(s), times)
    ensures Flat(Flush(s).emitted) == Flat(s.emitted) + Tag(s.pending.stream, s.pending.data)
  {
    var t := Flush(s);
    if s.pending.data == [] {
      assert Flat(s.emitted) + Tag(s.pending.stream, s.pending.data) == Flat(s.emitted);
    } else {
      FlatSnoc(s.emitted, t.emitted[|s.emitted|]);
      forall i | 0 <= i < |t.emitted| ensures StampedAt(t.emitted, i, times) {
        assert t.emitted[..i] == s.emitted[..i];
        if i < |s.emitted| {
          assert StampedAt(s.emitted, i, times);
        } else {
          assert s.emitted[..i] == s.emitted;
        }
      }
    }
  }

  lemma KeptIsShorter(maxOutput: int, offered: seq<TaggedByte>)
    ensures |Kept(maxOutput, offered)| <= |offered|
  {
  }

  lemma FlushKeepsInv(s: State, offered: seq<TaggedByte>, times: seq<int>)
    requires Loose(s, offered, times)
    ensures Inv(Flush(s), offered, times)
    ensures Flush(s).pending.data == []
    ensures Flat(Flush(s).emitted) == Kept(s.maxOutput, offered)
  {
    hide Kept, Stamped, Flat;
    KeptIsShorter(s.maxOutput, offered);
    FlushStaysStamped(s, times);
    var t := Flush(s);
    assert Flat(t.emitted) + Tag(t.pending.stream, t.pending.data) == Flat(t.emitted);
  }

  lemma StampedMore(s: State, times: seq<int>, more: seq<int>)
    requires Stamped(s, times)
    ensures Stamped(s, times + more)
  {
    forall i | 0 <= i < |s.emitted| ensures StampedAt(s.emitted, i, times + more) {
      assert StampedAt(s.emitted, i, times);
    }
  }

  lemma AppendKeepsInv(s: State, stream: Stream, now: int, byte: Byte,
                       offered: seq<TaggedByte>, times: seq<int>)
    requires Inv(s, offered, times) && !s.closed
    requires s.maxOutput > 0 ==> s.written < s.maxOutput
    requires s.pending.data == [] || s.pending.stream == stream
    ensures
      var pending :=
        if s.pending.data == [] then Pending(stream, now, [byte])
        else s.pending.(data := s.pending.data + [byte]);
      Loose(s.(pending := pending, written := s.written + 1), offered + [TaggedByte(stream, byte)], times + [now])
  {
    var kept := Kept(s.maxOutput, offered);
    var tags := Tag(s.pending.stream, s.pending.data);
    assert offered == kept;
    assert Kept(s.maxOutput, offered + [TaggedByte(stream, byte)]) == offered + [TaggedByte(stream, byte)];
    StampedMore(s, times, [now]);
    if s.pending.data == [] {
      assert Tag(stream, [byte]) == tags + [TaggedByte(stream, byte)];
    } else {
      assert Tag(stream, s.pending.data + [byte]) == tags + [TaggedByte(stream, byte)];
    }
  }

  lemma PlaceKeepsInv(s: State, stream: Stream, now: int, byte: Byte,
                      offered: seq<TaggedByte>, times: seq<int>)
    requires Inv(s, offered, times) && !s.closed
    requires s.maxOutput > 0 ==> s.written < s.maxOutput
    requires s.pending.data == [] || s.pending.stream == stream
    ensures Inv(WriteByte(s, stream, now, byte), offered + [TaggedByte(stream, byte)], times + [now])
    ensures !WriteByte(s, stream, now, byte).closed
  {
    AppendKeepsInv(s, stream, now, byte, offered, times);
    OpenWrites(s, stream, now, byte);
    hide *;
    var pending :=
      if s.pending.data == [] then Pending(stream, now, [byte])
      else s.pending.(data := s.pending.data + [byte]);
    var grown := s.(pending := pending, written := s.written + 1);
    FlushKeepsInv(grown, offered + [TaggedByte(stream, byte)], times + [now]);
    FlushStaysOpen(grown);
    if |pending.data| != s.chunkBytes {
      LooseWithRoom(grown, offered + [TaggedByte(stream, byte)], times + [now]);
    }
  }

  /** A byte that is taken and continues what is pending. */
  lemma OpenWrites(s: State, stream: Stream, now: int, byte: Byte)
    requires !s.closed && (s.maxOutput > 0 ==> s.written < s.maxOutput)
    requires s.pending.data == [] || s.pending.stream == stream
    ensures
      var pending :=
        if s.pending.data == [] then Pending(stream, now, [byte])
        else s.pending.(data := s.pending.data + [byte]);
      var grown := s.(pending := pending, written := s.written + 1);
      WriteByte(s, stream, now, byte) == if |pending.data| == s.chunkBytes then Flush(grown) else grown
  {
    hide Flush;
  }

  lemma LooseWithRoom(s: State, offered: seq<TaggedByte>, times: seq<int>)
    requires Loose(s, offered, times) && !s.closed && |s.pending.data| != s.chunkBytes
    ensures Inv(s, offered, times)
  {
    LooseIsShort(s, offered, times);
    hide Loose;
  }

  lemma LooseIsShort(s: State, offered: seq<TaggedByte>, times: seq<int>)
    requires Loose(s, offered, times)
    ensures |s.pending.data| <= s.chunkBytes
  {
    hide Stamped, Kept, Flat, Numbered;
  }

  lemma FlushStaysOpen(s: State)
    ensures Flush(s).closed == s.closed
  {
  }

  lemma DropKeepsInv(s: State, b: TaggedByte, now: int, offered: seq<TaggedByte>, times: seq<int>)
    requires Inv(s, offered, times) && s.maxOutput > 0 && s.written >= s.maxOutput
    ensures Inv(s.(truncated := true), offered + [b], times + [now])
  {
    StampedMore(s, times, [now]);
    assert Kept(s.maxOutput, offered + [b]) == Kept(s.maxOutput, offered);
  }

  lemma WriteByteKeepsInv(s: State, stream: Stream, now: int, byte: Byte,
                          offered: seq<TaggedByte>, times: seq<int>)
    requires Inv(s, offered, times) && !s.closed
    ensures Inv(WriteByte(s, stream, now, byte), offered + [TaggedByte(stream, byte)], times + [now])
    ensures !WriteByte(s, stream, now, byte).closed
  {
    if s.maxOutput > 0 && s.written >= s.maxOutput {
      DropKeepsInv(s, TaggedByte(stream, byte), now, offered, times);
    } else if s.pending.data != [] && s.pending.stream != stream {
      FlushKeepsInv(s, offered, times);
      assert WriteByte(s, stream, now, byte) == WriteByte(Flush(s), stream, now, byte);
      assert !Flush(s).closed && Flush(s).written == s.written && Flush(s).maxOutput == s.maxOutput;
      hide *;
      PlaceKeepsInv(Flush(s), stream, now, byte, offered, times);
    } else {
      hide *;
      PlaceKeepsInv(s, stream, now, byte, offered, times);
    }
  }

  lemma TagCons(stream: Stream, data: seq<Byte>, offered: seq<TaggedByte>)
    requires data != []
    ensures (offered + [TaggedByte(stream, data[0])]) + Tag(stream, data[1..]) == offered + Tag(stream, data)
  {
    assert Tag(stream, data) == [TaggedByte(stream, data[0])] + Tag(stream, data[1..]);
  }

  lemma {:induction false} WriteClosed(s: State, stream: Stream, clock: seq<int>, data: seq<Byte>)
    requires s.closed && |clock| == |data|
    ensures WriteBytes(s, stream, clock, data) == s
    decreases |data|
  {
    if data != [] {
      WriteClosed(s, stream, clock[1..], data[1..]);
    }
  }

  lemma {:induction false} WriteBytesKeepsInv(s: State, stream: Stream, clock: seq<int>, data: seq<Byte>,
                                              offered: seq<TaggedByte>, times: seq<int>)
    requires Inv(s, offered, times) && !s.closed && |clock| == |data|
    ensures Inv(WriteBytes(s, stream, clock, data), offered + Tag(stream, data), times + clock)
    ensures !WriteBytes(s, stream, clock, data).closed
    decreases |data|
  {
    hide Inv, WriteByte;
    if data == [] {
      assert offered + Tag(stream, data) == offered && times + clock == times;
    } else {
      WriteByteKeepsInv(s, stream, clock[0], data[0], offered, times);
      var first := TaggedByte(stream, data[0]);
      WriteBytesKeepsInv(WriteByte(s, stream, clock[0], data[0]), stream, clock[1..], data[1..],
                         offered + [first], times + [clock[0]]);
      TagCons(stream, data, offered);
      assert (times + [clock[0]]) + clock[1..] == times + clock;
    }
  }

  lemma StepKeepsInv(s: State, e: Event, offered: seq<TaggedByte>, times: seq<int>)
    requires Inv(s, offered, times)
    ensures e.Write? && !s.closed ==>
      Inv(Step(s, e), offered + Tag(e.stream, e.data), times + Stamps(e.now, |e.data|))
    ensures !e.Write? || s.closed ==> Inv(Step(s, e), offered, times)
    ensures Step(s, e).closed == (s.closed || e.Close?)
  {
    match e
    case Write(stream, now, data) =>
      if s.closed {
        WriteClosed(s, stream, Stamps(now, |data|), data);
      } else {
        WriteBytesKeepsInv(s, stream, Stamps(now, |data|), data, offered, times);
      }
    case Tick => FlushKeepsInv(s, offered, times);
    case Close =>
      FlushKeepsInv(s, offered, times);
      assert Stamped(Flush(s).(closed := true), times);
  }

  lemma {:induction false} RunKeepsInv(runId: RunId, chunkBytes: nat, maxOutput: int, events: seq<Event>)
    requires chunkBytes > 0
    ensures
      var s := Run(Init(runId, chunkBytes, maxOutput), events);
      && Inv(s, Offered(events), Arrivals(events))
      && s.closed == Closed(events)
      && s.maxOutput == maxOutput && s.runId == runId && s.chunkBytes == chunkBytes
    decreases |events|
  {
    if events != [] {
      var before, e := events[..|events| - 1], events[|events| - 1];
      assert events == before + [e];
      RunKeepsInv(runId, chunkBytes, maxOutput, before);
      var s := Run(Init(runId, chunkBytes, maxOutput), before);
      StepKeepsInv(s, e, Offered(before), Arrivals(before));
      StepKeepsLimits(s, e);
    }
  }

  lemma {:induction false} WriteKeepsLimits(s: State, stream: Stream, clock: seq<int>, data: seq<Byte>)
    requires |clock| == |data|
    ensures var t := WriteBytes(s, stream, clock, data);
      t.runId == s.runId && t.chunkBytes == s.chunkBytes && t.maxOutput == s.maxOutput && s.emitted <= t.emitted
    decreases |data|
  {
    if data != [] {
      WriteKeepsLimits(WriteByte(s, stream, clock[0], data[0]), stream, clock[1..], data[1..]);
    }
  }

  lemma StepKeepsLimits(s: State, e: Event)
    ensures var t := Step(s, e);
      t.runId == s.runId && t.chunkBytes == s.chunkBytes && t.maxOutput == s.maxOutput && s.emitted <= t.emitted
  {
    if e.Write? {
      WriteKeepsLimits(s, e.stream, Stamps(e.now, |e.data|), e.data);
    }
  }

  // ----- main results

  /** Whatever the writes, ticks and closes: once closed, the chunks hold exactly
      the first MaxOutput of the bytes offered before Close, in order and each on
      its own stream; they are numbered 1..n with 1..chunkBytes bytes each, carry
      the arrival time of their first byte, and the truncated flag says whether a
      byte was dropped. */
  lemma ChunksAreTheKeptBytes(runId: RunId, chunkBytes: nat, maxOutput: int, events: seq<Event>)
    requires chunkBytes > 0
    ensures
      var s := Run(Init(runId, chunkBytes, maxOutput), events);
      && Flat(s.emitted) <= Kept(maxOutput, Offered(events))
      && (Closed(events) ==> Flat(s.emitted) == Kept(maxOutput, Offered(events)))
      && Numbered(runId, s.emitted) && s.seqNo == |s.emitted|
      && (forall i :: 0 <= i < |s.emitted| ==>
            1 <= |s.emitted[i].data| <= chunkBytes && StampedAt(s.emitted, i, Arrivals(events)))
      && (s.truncated <==> Kept(maxOutput, Offered(events)) != Offered(events))
  {
    RunKeepsInv(runId, chunkBytes, maxOutput, events);
    var s := Run(Init(runId, chunkBytes, maxOutput), events);
    if Closed(events) {
      assert Flat(s.emitted) + Tag(s.pending.stream, s.pending.data) == Flat(s.emitted);
    }
  }

  /** A flush tick leaves nothing behind: at once every byte kept so far is in a chunk. */
  lemma TickSendsAll(runId: RunId, chunkBytes: nat, maxOutput: int, events: seq<Event>)
    requires chunkBytes > 0
    ensures
      var s := Run(Init(runId, chunkBytes, maxOutput), events + [Tick]);
      s.pending.data == [] && Flat(s.emitted) == Kept(maxOutput, Offered(events))
  {
    RunKeepsInv(runId, chunkBytes, maxOutput, events);
    var s := Run(Init(runId, chunkBytes, maxOutput), events);
    assert (events + [Tick])[..|events|] == events;
    StaysCapped(runId, chunkBytes, maxOutput, events);
    hide Run, Offered, Arrivals, Kept, Inv;
    InvIsLoose(s, Offered(events), Arrivals(events));
    FlushKeepsInv(s, Offered(events), Arrivals(events));
  }

  lemma InvIsLoose(s: State, offered: seq<TaggedByte>, times: seq<int>)
    requires Inv(s, offered, times)
    ensures Loose(s, offered, times)
  {
    hide Loose;
  }

  lemma {:induction false} StaysCapped(runId: RunId, chunkBytes: nat, maxOutput: int, events: seq<Event>)
    ensures Run(Init(runId, chunkBytes, maxOutput), events).maxOutput == maxOutput
    decreases |events|
  {
    hide Step;
    if events != [] {
      StaysCapped(runId, chunkBytes, maxOutput, events[..|events| - 1]);
      StepKeepsLimits(Run(Init(runId, chunkBytes, maxOutput), events[..|events| - 1]), events[|events| - 1]);
    }
  }

  lemma {:induction false} TicksOfferNothing(events: seq<Event>)
    ensures Offered(WithoutTicks(events)) == Offered(events)
    ensures Closed(WithoutTicks(events)) == Closed(events)
    decreases |events|
  {
    if events != [] {
      var before, e := events[..|events| - 1], events[|events| - 1];
      assert events == before + [e];
      TicksOfferNothing(before);
      OneMoreEvent(WithoutTicks(before), e);
    }
  }

  lemma OneMoreEvent(events: seq<Event>, e: Event)
    ensures var more := events + [e]; more != [] && more[|more| - 1] == e && more[..|more| - 1] == events
  {
  }

  /** Where the flush ticks fall changes where chunks are cut, never what they carry. */
  lemma TicksNeverMatter(runId: RunId, chunkBytes: nat, maxOutput: int, a: seq<Event>, b: seq<Event>)
    requires chunkBytes > 0 && WithoutTicks(a) == WithoutTicks(b) && Closed(a)
    ensures
      var (s, t) := (Run(Init(runId, chunkBytes, maxOutput), a), Run(Init(runId, chunkBytes, maxOutput), b));
      Flat(s.emitted) == Flat(t.emitted) && s.truncated == t.truncated
  {
    TicksOfferNothing(a);
    TicksOfferNothing(b);
    ChunksAreTheKeptBytes(runId, chunkBytes, maxOutput, a);
    ChunksAreTheKeptBytes(runId, chunkBytes, maxOutput, b);
  }

  /** Without a tick a chunk ends only where it is full or the stream changes. */
  ghost predicate Greedy(s: State) {
    && (forall i :: 0 <= i < |s.emitted| - 1 ==>
          |s.emitted[i].data| == s.chunkBytes || s.emitted[i].stream != s.emitted[i + 1].stream)
    && (s.pending.data != [] && s.emitted != [] ==>
          var last := s.emitted[|s.emitted| - 1];
          |last.data| == s.chunkBytes || last.stream != s.pending.stream)
    && |s.pending.data| < s.chunkBytes
  }

  /** So far no write was cut short: what is not pending ended in a full chunk. */
  ghost predicate Uncut(s: State) {
    Greedy(s) && (s.pending.data == [] && s.emitted != [] && !s.closed ==>
                    |s.emitted[|s.emitted| - 1].data| == s.chunkBytes)
  }

  /** Ready to take bytes of this stream: the last chunk is full or of the other one. */
  ghost predicate Ready(s: State, stream: Stream) {
    && Greedy(s)
    && (s.pending.data == [] || s.pending.stream == stream)
    && (s.pending.data == [] && s.emitted != [] ==>
          var last := s.emitted[|s.emitted| - 1];
          |last.data| == s.chunkBytes || last.stream != stream)
  }

  lemma FlushReadies(s: State, stream: Stream)
    requires Greedy(s) && s.pending.data != [] && s.pending.stream != stream
    ensures Ready(Flush(s), stream)
  {
  }

  lemma PlaceStaysUncut(s: State, stream: Stream, now: int, byte: Byte)
    requires Ready(s, stream) && !s.closed && !(s.maxOutput > 0 && s.written >= s.maxOutput)
    ensures Uncut(WriteByte(s, stream, now, byte))
  {
  }

  lemma WriteByteStaysUncut(s: State, stream: Stream, now: int, byte: Byte)
    requires Uncut(s)
    ensures Uncut(WriteByte(s, stream, now, byte))
  {
    if !s.closed && !(s.maxOutput > 0 && s.written >= s.maxOutput) {
      if s.pending.data != [] && s.pending.stream != stream {
        FlushReadies(s, stream);
        assert WriteByte(s, stream, now, byte) == WriteByte(Flush(s), stream, now, byte);
        hide *;
        PlaceStaysUncut(Flush(s), stream, now, byte);
      } else {
        assert Ready(s, stream);
        hide *;
        PlaceStaysUncut(s, stream, now, byte);
      }
    }
  }

  lemma {:induction false} WriteBytesStayUncut(s: State, stream: Stream, clock: seq<int>, data: seq<Byte>)
    requires Uncut(s) && |clock| == |data|
    ensures Uncut(WriteBytes(s, stream, clock, data))
    decreases |data|
  {
    hide Uncut, WriteByte;
    if data != [] {
      WriteByteStaysUncut(s, stream, clock[0], data[0]);
      WriteBytesStayUncut(WriteByte(s, stream, clock[0], data[0]), stream, clock[1..], data[1..]);
    }
  }

  lemma StepStaysUncut(s: State, e: Event)
    requires Uncut(s) && !e.Tick?
    ensures Uncut(Step(s, e))
  {
    if e.Write? {
      WriteBytesStayUncut(s, e.stream, Stamps(e.now, |e.data|), e.data);
    }
  }

  /** Without ticks every chunk but the last ends where it is full or the stream changes. */
  lemma {:induction false} NoNeedlessCut(runId: RunId, chunkBytes: nat, maxOutput: int, events: seq<Event>)
    requires chunkBytes > 0 && Tick !in events
    ensures Uncut(Run(Init(runId, chunkBytes, maxOutput), events))
    decreases |events|
  {
    if events != [] {
      var before, e := events[..|events| - 1], events[|events| - 1];
      assert e in events;
      hide Uncut, Step;
      NoNeedlessCut(runId, chunkBytes, maxOutput, before);
      StepStaysUncut(Run(Init(runId, chunkBytes, maxOutput), before), e);
    }
  }
}

module Chunker {
  import opened Chunks
  import Spec = ChunkerSpec

  const DEFAULT_CHUNK_BYTES: nat := 65536

  /** The chunker of one run. `emitted` records the calls of the receive callback;
      every method is one critical section of the source's mutex. */
  class Chunker {
    const runId: RunId
    const chunkBytes: nat
    const maxOutput: int

    var pending: Spec.Pending
    var seqNo: nat
    var written: int
    var truncated: bool
    var closed: bool
    var emitted: seq<Chunk>

    ghost var offered: seq<TaggedByte>
    ghost var times: seq<int>

    ghost function View(): Spec.State
      reads this
    {
      Spec.State(runId, chunkBytes, maxOutput, pending, seqNo, written, truncated, closed, emitted)
    }

    ghost predicate Valid()
      reads this
    {
      Spec.Inv(View(), offered, times)
    }

    constructor (runId: RunId, chunkBytes: int, maxOutput: int)
      ensures Valid()
      ensures View() == Spec.Init(runId, if chunkBytes <= 0 then 65536 else chunkBytes, maxOutput)
      ensures offered == []
    {
      this.runId := runId;
      this.chunkBytes := if chunkBytes <= 0 then DEFAULT_CHUNK_BYTES else chunkBytes;
      this.maxOutput := maxOutput;
      pending, seqNo, written, truncated, closed, emitted := Spec.NOTHING, 0, 0, false, false, [];
      offered, times := [], [];
    }

    /** clock[i] is what the clock shows if it is read when byte i is next. */
    method Write(stream: Stream, bytes: seq<Byte>, clock: seq<int>)
      requires Valid() && |clock| == |bytes|
      modifies this
      ensures Valid()
      ensures View() == Spec.WriteBytes(old(View()), stream, clock, bytes)
      ensures offered == if old(closed) then old(offered) else old(offered) + Tag(stream, bytes)
      ensures times == if old(closed) then old(times) else old(times) + clock
      ensures old(emitted) <= emitted && closed == old(closed)
      ensures old(closed) ==> View() == old(View())
    {
      ghost var before := View();
      Spec.WriteKeepsLimits(before, stream, clock, bytes);
      if closed {
        Spec.WriteClosed(before, stream, clock, bytes);
        return;
      }
      Spec.WriteBytesKeepsInv(before, stream, clock, bytes, offered, times);
      offered, times := offered + Tag(stream, bytes), times + clock;
      WriteLocked(stream, bytes, clock);
    }

    method WriteLocked(stream: Stream, bytes: seq<Byte>, clock: seq<int>)
      requires !closed && |pending.data| < chunkBytes && |clock| == |bytes|
      modifies this`pending, this`seqNo, this`written, this`truncated, this`emitted
      ensures View() == Spec.WriteBytes(old(View()), stream, clock, bytes)
    {
      hide Spec.WriteByte;
      ghost var goal := Spec.WriteBytes(View(), stream, clock, bytes);
      var data, readings := bytes, clock;
      while |data| > 0
        invariant !closed && |pending.data| < chunkBytes && |readings| == |data|
        invariant Spec.WriteBytes(View(), stream, readings, data) == goal
        decreases |data|
      {
        if maxOutput > 0 {
          var remaining := maxOutput - written;
          if remaining <= 0 {
            Spec.WriteBeyondCap(View(), stream, readings, data);
            truncated := true;
            return;
          }
          if |data| > remaining {
            Spec.CutAtCap(View(), stream, readings, data);
            data, readings := data[..remaining], readings[..remaining];
            truncated := true;
          }
        }
        var n := Fill(stream, data, readings);
        data, readings := data[n..], readings[n..];
      }
    }

    /** One turn of the loop: as many bytes as the pending chunk still takes. */
    method Fill(stream: Stream, data: seq<Byte>, clock: seq<int>) returns (n: nat)
      requires !closed && |pending.data| < chunkBytes && data != [] && |clock| == |data|
      requires maxOutput > 0 ==> written + |data| <= maxOutput
      modifies this`pending, this`seqNo, this`written, this`emitted
      ensures 0 < n <= |data| && |pending.data| < chunkBytes
      ensures Spec.WriteBytes(View(), stream, clock[n..], data[n..]) == Spec.WriteBytes(old(View()), stream, clock, data)
    {
      hide Spec.WriteBytes, Spec.WriteByte;
      ghost var start := View();
      if |pending.data| > 0 && pending.stream != stream {
        FlushLocked();
      }
      if |pending.data| == 0 {
        pending := Spec.Pending(stream, clock[0], []);
      }
      n := if chunkBytes - |pending.data| < |data| then chunkBytes - |pending.data| else |data|;
      BlockSteps(start, View(), stream, clock, data, n);
      pending := pending.(data := pending.data + data[..n]);
      written := written + n;
      if |pending.data| == chunkBytes {
        FlushLocked();
      }
    }

    /** One turn of the loop writes the first n bytes. */
    static lemma BlockSteps(start: Spec.State, s: Spec.State, stream: Stream, clock: seq<int>, data: seq<Byte>, n: nat)
      requires !start.closed && |start.pending.data| < start.chunkBytes && data != [] && |clock| == |data|
      requires start.maxOutput > 0 ==> start.written + |data| <= start.maxOutput
      requires
        var flushed := if |start.pending.data| > 0 && start.pending.stream != stream then Spec.Flush(start) else start;
        s == if |flushed.pending.data| == 0 then flushed.(pending := Spec.Pending(stream, clock[0], [])) else flushed
      requires 0 < n <= |data| && |s.pending.data| + n <= s.chunkBytes
      ensures
        var grown := s.(pending := s.pending.(data := s.pending.data + data[..n]), written := s.written + n);
        var after := if |grown.pending.data| == s.chunkBytes then Spec.Flush(grown) else grown;
        Spec.WriteBytes(start, stream, clock, data) == Spec.WriteBytes(after, stream, clock[n..], data[n..])
    {
      assert Spec.WriteByte(start, stream, clock[0], data[0]) == Spec.WriteByte(s, stream, clock[0], data[0]);
      assert Spec.WriteBytes(start, stream, clock, data) == Spec.WriteBytes(s, stream, clock, data);
      hide Spec.WriteBytes, Spec.WriteByte;
      Spec.SplitAt(s, stream, clock, data, n);
      Spec.WriteBlock(s, stream, clock[..n], data[..n]);
    }

    /** One tick of flushOnTicks. */
    method Tick()
      requires Valid()
      modifies this
      ensures Valid()
      ensures View() == Spec.Step(old(View()), Spec.Tick)
      ensures pending.data == [] && Flat(emitted) == Spec.Kept(maxOutput, offered)
      ensures offered == old(offered) && old(emitted) <= emitted && closed == old(closed)
      ensures old(closed) ==> View() == old(View())
    {
      Spec.StepKeepsInv(View(), Spec.Tick, offered, times);
      Spec.FlushKeepsInv(View(), offered, times);
      FlushLocked();
    }

    /** The body under closeOnce runs once: a closed chunker has nothing pending. */
    method Close() returns (lastSeq: nat, cut: bool)
      requires Valid()
      modifies this
      ensures Valid() && closed
      ensures View() == Spec.Step(old(View()), Spec.Close)
      ensures old(closed) ==> View() == old(View())
      ensures offered == old(offered) && old(emitted) <= emitted
      ensures lastSeq == |emitted| && Flat(emitted) == Spec.Kept(maxOutput, offered)
      ensures cut <==> Flat(emitted) != offered
    {
      Spec.StepKeepsInv(View(), Spec.Close, offered, times);
      Spec.FlushKeepsInv(View(), offered, times);
      if !closed {
        FlushLocked();
        closed := true;
      }
      return seqNo, truncated;
    }

    method FlushLocked()
      modifies this`pending, this`seqNo, this`emitted
      ensures View() == Spec.Flush(old(View()))
    {
      if |pending.data| == 0 {
        return;
      }
      seqNo := seqNo + 1;
      emitted := emitted + [Chunk(runId, seqNo, pending.stream, pending.at, pending.data)];
      pending := Spec.NOTHING;
    }
  }
}

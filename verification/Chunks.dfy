/** The chunks of captured output that travel from the chunker through the
    buffer to the Server, and the bytes they stand for. */
module Chunks {
  type RunId = string
  type Byte = b: int | 0 <= b < 256

  datatype Stream = Stdout | Stderr

  /** `at` is the arrival time of the first byte of `data`. */
  datatype Chunk = Chunk(runId: RunId, seqNo: nat, stream: Stream, at: int, data: seq<Byte>)

  /** One output byte together with the stream it was written to. */
  datatype TaggedByte = TaggedByte(stream: Stream, byte: Byte)

  function Tag(stream: Stream, data: seq<Byte>): seq<TaggedByte> {
    seq(|data|, i requires 0 <= i < |data| => TaggedByte(stream, data[i]))
  }

  /** The bytes of the chunks in order, each with its stream. */
  function Flat(chunks: seq<Chunk>): seq<TaggedByte> {
    if chunks == [] then []
    else
      var last := chunks[|chunks| - 1];
      Flat(chunks[..|chunks| - 1]) + Tag(last.stream, last.data)
  }

  /** The chunks of one run, numbered 1, 2, 3, ... without a hole. */
  ghost predicate Numbered(runId: RunId, chunks: seq<Chunk>) {
    forall i :: 0 <= i < |chunks| ==> chunks[i].seqNo == i + 1 && chunks[i].runId == runId
  }

  /** `chunks` in strictly increasing sequence order, hence without a duplicate. */
  ghost predicate Increasing(chunks: seq<Chunk>) {
    forall i, j :: 0 <= i < j < |chunks| ==> chunks[i].seqNo < chunks[j].seqNo
  }

  /** Every chunk of `log` is the chunk `emitted` holds under that number. */
  ghost predicate TakenFrom(log: seq<Chunk>, emitted: seq<Chunk>) {
    forall i :: 0 <= i < |log| ==> 1 <= log[i].seqNo <= |emitted| && log[i] == emitted[log[i].seqNo - 1]
  }
}

/** Resumable parsing of input batches: a header, the metadata of every actor, and the data of every
actor and input, received in chunks of any size into buffers that later batches reuse.
*/
module InputParser {
  import opened Bytes

  const BATCH_HEADER_SIZE: nat := 16
  const METADATA_ENTRY_SIZE: nat := 16
  const FRAGMENT_SIZE: nat := 3 * 4096
  const MAX_INPUTS: int := 1024 * 1024

  function Min(a: int, b: int): int {
    if a < b then a else b
  }

  function AsInt32(v: nat): int {
    if v % (2 * INT32) < INT32 then v % (2 * INT32) else v % (2 * INT32) - 2 * INT32
  }

  function ActorsIn(header: seq<Byte>): nat
    requires |header| >= BATCH_HEADER_SIZE
  {
    LittleEndian(header[..8])
  }

  function InputsIn(header: seq<Byte>): nat
    requires |header| >= BATCH_HEADER_SIZE
  {
    LittleEndian(header[8..16])
  }

  function MetadataSize(actors: nat): nat {
    actors * METADATA_ENTRY_SIZE
  }

  function DataSize(actors: nat, inputs: nat): nat {
    actors * inputs * FRAGMENT_SIZE
  }

  /** The header is accepted for the number of actors of the loaded test case. */
  predicate Accepted(header: seq<Byte>, nActors: nat)
    requires |header| >= BATCH_HEADER_SIZE
  {
    ActorsIn(header) == nActors && InputsIn(header) != 0 && AsInt32(InputsIn(header)) <= MAX_INPUTS
  }

  /** The 32-bit comparison enforces the bound exactly on the counts that do not exceed it and on those
      whose low 32 bits, as a signed number, exceed it. */
  lemma AcceptedCounts(header: seq<Byte>, nActors: nat)
    requires |header| >= BATCH_HEADER_SIZE && ActorsIn(header) == nActors
    ensures (Accepted(header, nActors) <==> 1 <= InputsIn(header) <= MAX_INPUTS)
            <==> InputsIn(header) <= MAX_INPUTS || MAX_INPUTS < InputsIn(header) % (2 * INT32) < INT32
  {}

  /** A header for one actor and 2^31 inputs passes the comparison. */
  lemma LargeCountAccepted()
    ensures exists header: seq<Byte> ::
              |header| == BATCH_HEADER_SIZE && Accepted(header, 1) && InputsIn(header) == INT32 > MAX_INPUTS
  {
    hide LittleEndian, AsInt32;
    var actors: seq<Byte>, inputs: seq<Byte> := [1, 0, 0, 0, 0, 0, 0, 0], [0, 0, 0, 0x80, 0, 0, 0, 0];
    var header := actors + inputs;
    LittleEndianOne(actors);
    LittleEndianInt32(inputs);
    assert header[..8] == actors && header[8..16] == inputs;
    Int32Wraps();
    assert Accepted(header, 1) && InputsIn(header) == INT32 > MAX_INPUTS;
  }

  lemma Int32Wraps()
    ensures AsInt32(INT32) == -INT32
  {}

  lemma LittleEndianOne(bs: seq<Byte>)
    requires |bs| > 0 && bs[0] == 1 && forall k :: 1 <= k < |bs| ==> bs[k] == 0
    ensures LittleEndian(bs) == 1
  {
    Zeros(bs[1..]);
  }

  lemma LittleEndianInt32(bs: seq<Byte>)
    requires |bs| >= 4 && bs[0] == bs[1] == bs[2] == 0 && bs[3] == 0x80 && forall k :: 4 <= k < |bs| ==> bs[k] == 0
    ensures LittleEndian(bs) == INT32
  {
    Zeros(bs[4..]);
    FirstByte(bs);
    FirstByte(bs[1..]);
    FirstByte(bs[2..]);
    FirstByte(bs[3..]);
    hide LittleEndian;
    assert bs[1..][1..] == bs[2..] && bs[2..][1..] == bs[3..] && bs[3..][1..] == bs[4..];
  }

  lemma FirstByte(bs: seq<Byte>)
    requires |bs| > 0
    ensures LittleEndian(bs) == (bs[0] as int) + 256 * LittleEndian(bs[1..])
  {}

  lemma Zeros(bs: seq<Byte>)
    requires forall k :: 0 <= k < |bs| ==> bs[k] == 0
    ensures LittleEndian(bs) == 0
  {}

  /** Fewer actors and fewer inputs need less space. */
  lemma DataSizeGrows(a: nat, a': nat, i: nat, i': nat)
    requires a <= a' && i <= i'
    ensures DataSize(a, i) <= DataSize(a', i')
  {
    assert a * i <= a' * i <= a' * i' by { Scale(a, a', i); Scale(i, i', a'); }
  }

  lemma Scale(x: nat, y: nat, k: nat)
    requires x <= y
    ensures x * k <= y * k
  {}

  class Parser {
    var receiving: bool
    var cursor: nat
    var highestActors: nat
    var highestInputs: nat
    var allocatedMetadata: array<Byte>
    var allocatedData: array<Byte>
    var metadataSize: nat
    var dataSize: nat
    var nInputs: nat

    /** The buffers hold what the largest counts need, and a batch in progress fits them. */
    ghost predicate Valid()
      reads this
    {
      && allocatedMetadata != allocatedData
      && allocatedMetadata.Length >= MetadataSize(highestActors)
      && allocatedData.Length >= DataSize(highestActors, highestInputs)
      && (receiving ==>
            && metadataSize <= allocatedMetadata.Length && dataSize <= allocatedData.Length
            && BATCH_HEADER_SIZE <= cursor < End())
    }

    function End(): nat
      reads this
    {
      BATCH_HEADER_SIZE + metadataSize + dataSize
    }

    /** What the buffers hold of the current batch, behind its header. */
    ghost function Body(): seq<Byte>
      reads this, allocatedMetadata, allocatedData
      requires BATCH_HEADER_SIZE <= cursor <= End()
      requires metadataSize <= allocatedMetadata.Length && dataSize <= allocatedData.Length
    {
      if cursor - BATCH_HEADER_SIZE <= metadataSize then allocatedMetadata[..cursor - BATCH_HEADER_SIZE]
      else allocatedMetadata[..metadataSize] + allocatedData[..cursor - BATCH_HEADER_SIZE - metadataSize]
    }

    constructor ()
      ensures Valid() && !receiving && fresh(allocatedMetadata) && fresh(allocatedData)
    {
      receiving, cursor, nInputs, highestActors, highestInputs := false, 0, 0, 0, 0;
      metadataSize, dataSize := 0, 0;
      allocatedMetadata := new Byte[METADATA_ENTRY_SIZE](_ => 0);
      allocatedData := new Byte[FRAGMENT_SIZE](_ => 0);
    }

    /** Parse a header; the buffers grow when one of the counts is larger than at the last allocation. */
    method StartBatchInputParsing(buf: seq<Byte>, nActors: nat) returns (consumed: int)
      requires Valid() && !receiving && |buf| >= BATCH_HEADER_SIZE
      modifies this
      ensures Valid() && !receiving
      ensures allocatedMetadata == old(allocatedMetadata) || fresh(allocatedMetadata)
      ensures allocatedData == old(allocatedData) || fresh(allocatedData)
      ensures if Accepted(buf, nActors) then consumed == BATCH_HEADER_SIZE else consumed < 0
      ensures Accepted(buf, nActors) ==>
                && nInputs == InputsIn(buf) && cursor == 0
                && metadataSize == MetadataSize(nActors) <= allocatedMetadata.Length
                && dataSize == DataSize(nActors, nInputs) <= allocatedData.Length
    {
      hide LittleEndian, AsInt32;
      cursor := 0;
      metadataSize, dataSize := *, *;
      var newActors := LittleEndian(buf[..8]);
      if newActors != nActors { return -1; }
      var newInputs := LittleEndian(buf[8..16]);
      if newInputs == 0 || AsInt32(newInputs) > MAX_INPUTS { return -1; }
      metadataSize := newActors * METADATA_ENTRY_SIZE;
      dataSize := newActors * newInputs * FRAGMENT_SIZE;
      if newActors > highestActors || newInputs > highestInputs {
        allocatedMetadata := new Byte[metadataSize](_ => 0);
        allocatedData := new Byte[dataSize](_ => 0);
        highestActors, highestInputs := newActors, newInputs;
      }
      DataSizeGrows(newActors, highestActors, newInputs, highestInputs);
      nInputs := newInputs;
      return BATCH_HEADER_SIZE;
    }

    /** Copy a chunk behind what the destination holds, up to an end. */
    static method CopyChunk(dest: array<Byte>, start: nat, end: nat, buf: seq<Byte>) returns (copied: nat)
      requires start <= end <= dest.Length
      modifies dest
      ensures copied == Min(|buf|, end - start)
      ensures dest[..start + copied] == old(dest[..start]) + buf[..copied]
    {
      copied := 0;
      while start + copied < end && copied < |buf|
        invariant start + copied <= end && copied <= |buf|
        invariant dest[..start + copied] == old(dest[..start]) + buf[..copied]
      {
        dest[start + copied] := buf[copied];
        copied := copied + 1;
        assert dest[..start + copied] == dest[..start + copied - 1] + [buf[copied - 1]];
      }
    }

    method ReceiveMetadata(buf: seq<Byte>) returns (consumed: nat)
      requires Valid() && receiving && cursor < BATCH_HEADER_SIZE + metadataSize
      modifies this`cursor, allocatedMetadata
      ensures consumed == Min(|buf|, BATCH_HEADER_SIZE + metadataSize - old(cursor)) && cursor == old(cursor) + consumed
      ensures Body() == old(Body()) + buf[..consumed]
    {
      consumed := CopyChunk(allocatedMetadata, cursor - BATCH_HEADER_SIZE, metadataSize, buf);
      cursor := cursor + consumed;
    }

    method ReceiveData(buf: seq<Byte>) returns (consumed: nat)
      requires Valid() && receiving && cursor >= BATCH_HEADER_SIZE + metadataSize
      modifies this`cursor, allocatedData
      ensures consumed == Min(|buf|, End() - old(cursor)) && cursor == old(cursor) + consumed
      ensures Body() == old(Body()) + buf[..consumed]
    {
      ghost var held := cursor - BATCH_HEADER_SIZE - metadataSize;
      consumed := CopyChunk(allocatedData, cursor - metadataSize - BATCH_HEADER_SIZE, dataSize, buf);
      cursor := cursor + consumed;
      assert allocatedData[..held + consumed] == old(allocatedData[..held]) + buf[..consumed];
      assert old(Body()) == allocatedMetadata[..metadataSize] + old(allocatedData[..held]);
      assert Body() == allocatedMetadata[..metadataSize] + allocatedData[..held + consumed];
    }

    /** Take one chunk.  It is consumed up to the end of the header, of the metadata or of the data; the
        caller submits the rest again. */
    method ParseInputBuffer(buf: seq<Byte>, nActors: nat) returns (consumed: int, finished: bool)
      requires Valid() && (!receiving ==> |buf| >= BATCH_HEADER_SIZE)
      modifies this, allocatedMetadata, allocatedData
      ensures Valid() && (finished ==> !receiving)
      ensures allocatedMetadata == old(allocatedMetadata) || fresh(allocatedMetadata)
      ensures allocatedData == old(allocatedData) || fresh(allocatedData)
      ensures !old(receiving) ==>
                if Accepted(buf, nActors) then
                  && consumed == BATCH_HEADER_SIZE == cursor && nInputs == InputsIn(buf)
                  && metadataSize == MetadataSize(nActors) <= allocatedMetadata.Length
                  && dataSize == DataSize(nActors, nInputs) <= allocatedData.Length
                  && Body() == [] && (finished <==> cursor == End()) && receiving == !finished
                else consumed == -1 && !finished && !receiving
      ensures old(receiving) ==>
                && metadataSize == old(metadataSize) && dataSize == old(dataSize) && nInputs == old(nInputs)
                && allocatedMetadata == old(allocatedMetadata) && allocatedData == old(allocatedData)
                && consumed == Min(|buf|, (if old(cursor) < BATCH_HEADER_SIZE + metadataSize
                                           then BATCH_HEADER_SIZE + metadataSize
                                           else End()) - old(cursor))
                && cursor == old(cursor) + consumed && consumed >= 0
                && (finished <==> cursor == End()) && receiving == !finished
                && Body() == old(Body()) + buf[..consumed]
    {
      hide DataSize, MetadataSize, Accepted, InputsIn, ActorsIn;
      finished := false;
      if !receiving {
        consumed := StartBatchInputParsing(buf, nActors);
        if consumed <= 0 { return -1, false; }
        cursor := cursor + consumed;
        receiving := true;
      } else if cursor < BATCH_HEADER_SIZE + metadataSize {
        consumed := ReceiveMetadata(buf);
      } else {
        consumed := ReceiveData(buf);
      }
      if cursor >= End() {
        receiving := false;
        finished := true;
      }
    }
  }

  /** A complete batch for a test case. */
  predicate IsBatch(batch: seq<Byte>, nActors: nat) {
    && |batch| >= BATCH_HEADER_SIZE && Accepted(batch, nActors)
    && |batch| == BATCH_HEADER_SIZE + MetadataSize(nActors) + DataSize(nActors, InputsIn(batch))
  }

  /** What the parser has to hold after a batch. */
  function MetadataOf(batch: seq<Byte>, nActors: nat): seq<Byte>
    requires IsBatch(batch, nActors)
  {
    batch[BATCH_HEADER_SIZE..BATCH_HEADER_SIZE + MetadataSize(nActors)]
  }

  function DataOf(batch: seq<Byte>, nActors: nat): seq<Byte>
    requires IsBatch(batch, nActors)
  {
    batch[BATCH_HEADER_SIZE + MetadataSize(nActors)..]
  }

  lemma HeaderOfChunk(batch: seq<Byte>, size: nat, nActors: nat)
    requires BATCH_HEADER_SIZE <= size <= |batch|
    ensures Accepted(batch[..size], nActors) <==> Accepted(batch, nActors)
    ensures InputsIn(batch[..size]) == InputsIn(batch)
  {
    assert batch[..size][..8] == batch[..8] && batch[..size][8..16] == batch[8..16];
  }

  /** The parser has taken the first `pos` bytes of a batch. */
  ghost predicate Taken(parser: Parser, batch: seq<Byte>, nActors: nat, pos: nat)
    requires IsBatch(batch, nActors)
    reads parser, parser.allocatedMetadata, parser.allocatedData
  {
    && parser.Valid() && parser.receiving == (pos < |batch|)
    && BATCH_HEADER_SIZE <= pos <= |batch| == parser.End() && pos == parser.cursor
    && parser.nInputs == InputsIn(batch)
    && parser.metadataSize == MetadataSize(nActors) <= parser.allocatedMetadata.Length
    && parser.dataSize == DataSize(nActors, InputsIn(batch)) <= parser.allocatedData.Length
    && parser.Body() == batch[BATCH_HEADER_SIZE..pos]
  }

  method SubmitHeader(parser: Parser, batch: seq<Byte>, nActors: nat, size: nat) returns (finished: bool)
    requires parser.Valid() && !parser.receiving && IsBatch(batch, nActors) && BATCH_HEADER_SIZE <= size <= |batch|
    modifies parser, parser.allocatedMetadata, parser.allocatedData
    ensures Taken(parser, batch, nActors, BATCH_HEADER_SIZE) && (finished <==> BATCH_HEADER_SIZE == |batch|)
    ensures parser.allocatedMetadata == old(parser.allocatedMetadata) || fresh(parser.allocatedMetadata)
    ensures parser.allocatedData == old(parser.allocatedData) || fresh(parser.allocatedData)
  {
    hide DataSize, MetadataSize, Accepted, InputsIn, ActorsIn;
    HeaderOfChunk(batch, size, nActors);
    var consumed;
    consumed, finished := parser.ParseInputBuffer(batch[..size], nActors);
  }

  lemma SlicesJoin(bytes: seq<Byte>, from: nat, pos: nat, size: nat, taken: nat)
    requires from <= pos && taken <= size && pos + size <= |bytes|
    ensures bytes[from..pos] + bytes[pos..pos + size][..taken] == bytes[from..pos + taken]
  {
    assert bytes[pos..pos + size][..taken] == bytes[pos..pos + taken];
  }

  method SubmitChunk(parser: Parser, batch: seq<Byte>, nActors: nat, pos: nat, size: nat)
    returns (next: nat, finished: bool)
    requires IsBatch(batch, nActors) && Taken(parser, batch, nActors, pos) && 0 < size <= |batch| - pos
    modifies parser, parser.allocatedMetadata, parser.allocatedData
    ensures pos < next && Taken(parser, batch, nActors, next) && (finished <==> next == |batch|)
    ensures parser.allocatedMetadata == old(parser.allocatedMetadata) &&
            parser.allocatedData == old(parser.allocatedData)
  {
    hide DataSize, MetadataSize, Accepted, InputsIn, ActorsIn;
    var consumed;
    consumed, finished := parser.ParseInputBuffer(batch[pos..pos + size], nActors);
    next := pos + consumed;
    SlicesJoin(batch, BATCH_HEADER_SIZE, pos, size, consumed);
  }

  /** Write a batch in chunks of any sizes, the first of which holds the header; what a call does not
      consume is part of the next chunk.  The parser finishes exactly at the last byte. */
  method SubmitBatch(parser: Parser, batch: seq<Byte>, nActors: nat, chunkSize: nat -> nat)
    requires parser.Valid() && !parser.receiving && IsBatch(batch, nActors)
    requires chunkSize(0) >= BATCH_HEADER_SIZE && forall k :: chunkSize(k) > 0
    modifies parser, parser.allocatedMetadata, parser.allocatedData
    ensures parser.Valid() && !parser.receiving && parser.nInputs == InputsIn(batch)
    ensures parser.allocatedMetadata == old(parser.allocatedMetadata) || fresh(parser.allocatedMetadata)
    ensures parser.allocatedData == old(parser.allocatedData) || fresh(parser.allocatedData)
    ensures MetadataSize(nActors) <= parser.allocatedMetadata.Length &&
            DataSize(nActors, InputsIn(batch)) <= parser.allocatedData.Length
    ensures parser.allocatedMetadata[..MetadataSize(nActors)] == MetadataOf(batch, nActors)
    ensures parser.allocatedData[..DataSize(nActors, InputsIn(batch))] == DataOf(batch, nActors)
  {
    hide DataSize, MetadataSize, Accepted, InputsIn, ActorsIn;
    var pos: nat, k: nat := BATCH_HEADER_SIZE, 1;
    var finished := SubmitHeader(parser, batch, nActors, Min(chunkSize(0), |batch|));
    while !finished
      invariant Taken(parser, batch, nActors, pos) && (finished <==> pos == |batch|)
      invariant parser.allocatedMetadata == old(parser.allocatedMetadata) || fresh(parser.allocatedMetadata)
      invariant parser.allocatedData == old(parser.allocatedData) || fresh(parser.allocatedData)
      decreases |batch| - pos
    {
      pos, finished := SubmitChunk(parser, batch, nActors, pos, Min(chunkSize(k), |batch| - pos));
      k := k + 1;
    }
    assert parser.Body()[..parser.metadataSize] == parser.allocatedMetadata[..parser.metadataSize];
    assert parser.Body()[parser.metadataSize..] == parser.allocatedData[..parser.dataSize];
  }

  datatype Batch = Batch(nActors: nat, bytes: seq<Byte>, chunkSize: nat -> nat)

  /** Batches in any order and of any sizes: every one is received as sent, whatever the buffers held. */
  method SubmitBatches(parser: Parser, batches: seq<Batch>) returns (received: seq<(seq<Byte>, seq<Byte>)>)
    requires parser.Valid() && !parser.receiving
    requires forall b :: b in batches ==>
               IsBatch(b.bytes, b.nActors) && b.chunkSize(0) >= BATCH_HEADER_SIZE && forall k :: b.chunkSize(k) > 0
    modifies parser, parser.allocatedMetadata, parser.allocatedData
    ensures parser.Valid() && !parser.receiving && |received| == |batches|
    ensures forall i :: 0 <= i < |batches| ==>
              received[i] == (MetadataOf(batches[i].bytes, batches[i].nActors),
                              DataOf(batches[i].bytes, batches[i].nActors))
  {
    received := [];
    for i := 0 to |batches|
      invariant parser.Valid() && !parser.receiving && |received| == i
      invariant parser.allocatedMetadata == old(parser.allocatedMetadata) || fresh(parser.allocatedMetadata)
      invariant parser.allocatedData == old(parser.allocatedData) || fresh(parser.allocatedData)
      invariant forall j :: 0 <= j < i ==>
                  received[j] == (MetadataOf(batches[j].bytes, batches[j].nActors),
                                  DataOf(batches[j].bytes, batches[j].nActors))
    {
      hide IsBatch, MetadataOf, DataOf, DataSize, MetadataSize;
      var b := batches[i];
      SubmitBatch(parser, b.bytes, b.nActors, b.chunkSize);
      received := received + [(parser.allocatedMetadata[..MetadataSize(b.nActors)],
                               parser.allocatedData[..DataSize(b.nActors, InputsIn(b.bytes))])];
    }
  }
}

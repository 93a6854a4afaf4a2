/**
 Writer and reader together: messages written one after another, copied out by the reader frame by
 frame, and decoded from the reader's own copy.
 */
module FrameExchange {
  import opened Bytes
  import opened Frames
  import opened FrameReader

  /** A message to send: its type's fixed part, the bytes of its fixed fields, and its payloads. */
  datatype Outgoing = Outgoing(shape: Shape, image: seq<byte>, args: seq<Payload>)

  predicate Sendable(m: Outgoing) {
    && ValidShape(m.shape) && ValidArgs(m.args) && |m.args| == |m.shape.slots| && |m.image| == m.shape.size
    && VbSize(m.shape.size, m.args).Ok?
  }

  predicate AllSendable(ms: seq<Outgoing>) { forall i :: 0 <= i < |ms| ==> Sendable(ms[i]) }

  function Length(m: Outgoing): nat { FrameSize(m.shape.size, m.args) }

  /** Where the frame behind the last of `ms` starts. */
  function Position(ms: seq<Outgoing>): nat {
    if ms == [] then 0 else Position(ms[..|ms| - 1]) + Length(ms[|ms| - 1])
  }

  lemma PositionStep(ms: seq<Outgoing>, k: nat)
    requires k < |ms|
    ensures Position(ms[..k + 1]) == Position(ms[..k]) + Length(ms[k])
  {
    assert ms[..k + 1][..k] == ms[..k];
  }

  lemma LengthAligned(m: Outgoing)
    ensures Length(m) % FRAME_ALIGNMENT == 0
  {
    AlignFacts(Span(m.shape.size, m.args), FRAME_ALIGNMENT);
  }

  lemma {:induction false} PositionsAligned(ms: seq<Outgoing>)
    ensures Position(ms) % FRAME_ALIGNMENT == 0
  {
    if ms != [] {
      var k := |ms| - 1;
      PositionsAligned(ms[..k]);
      LengthAligned(ms[k]);
      StartAligns16(Position(ms[..k]), Length(ms[k]));
    }
  }

  lemma {:induction false} PositionsGrow(ms: seq<Outgoing>, i: nat, j: nat)
    requires i <= j <= |ms|
    ensures Position(ms[..i]) <= Position(ms[..j])
    decreases j
  {
    if i < j {
      PositionsGrow(ms, i, j - 1);
      PositionStep(ms, j - 1);
    }
  }

  /** Frame `k` ends inside the whole, and the next one starts there. */
  lemma FrameInside(ms: seq<Outgoing>, k: nat)
    requires k < |ms|
    ensures Position(ms[..k + 1]) == Position(ms[..k]) + Length(ms[k]) <= Position(ms)
  {
    PositionStep(ms, k);
    PositionsGrow(ms, k + 1, |ms|);
    assert ms[..|ms|] == ms;
  }

  predicate Carried(mem: seq<byte>, ms: seq<Outgoing>, i: nat)
    requires i < |ms| && Sendable(ms[i])
  {
    Encodes(mem, Position(ms[..i]), ms[i].shape, ms[i].args)
  }

  /** Writing frame `k` leaves frame `i` before it as it is. */
  lemma CarriedKept(before: seq<byte>, after: seq<byte>, ms: seq<Outgoing>, i: nat, k: nat)
    requires AllSendable(ms) && i < k < |ms| && Carried(before, ms, i)
    requires AgreeOutside(before, after, Position(ms[..k]), Length(ms[k]), Position(ms[..k]), 0)
    ensures Carried(after, ms, i)
  {
    PositionStep(ms, i);
    PositionsGrow(ms, i + 1, k);
    UntouchedEncodes(before, after, Position(ms[..i]), ms[i], Position(ms[..k]), Length(ms[k]));
  }

  lemma UntouchedEncodes(before: seq<byte>, after: seq<byte>, start: nat, m: Outgoing, at: nat, n: nat)
    requires Sendable(m) && Encodes(before, start, m.shape, m.args) && start + Length(m) <= at
    requires AgreeOutside(before, after, at, n, at, 0)
    ensures Encodes(after, start, m.shape, m.args)
  {
    SameSlice(before, after, start, start + Length(m));
    CopyEncodes(before, start, after, start, m.shape, m.args);
  }

  /** Frame `k` goes where the one before it ends; the earlier ones stay. */
  method WriteNext(mem: array<byte>, ms: seq<Outgoing>, k: nat, at: nat) returns (next: nat)
    requires AllSendable(ms) && k < |ms| && at == Position(ms[..k]) && at + Length(ms[k]) <= mem.Length
    requires forall i :: 0 <= i < k ==> Carried(mem[..], ms, i)
    modifies mem
    ensures next == at + Length(ms[k])
    ensures forall i :: 0 <= i <= k ==> Carried(mem[..], ms, i)
  {
    PositionsAligned(ms[..k]);
    SizingIsExact(ms[k].shape.size, ms[k].args);
    ghost var before := mem[..];
    var written := WriteMessage(mem, at, ms[k].shape, ms[k].image, ms[k].args);
    assert AgreeOutside(before, mem[..], at, Length(ms[k]), at, 0);
    forall i | 0 <= i < k ensures Carried(mem[..], ms, i) {
      CarriedKept(before, mem[..], ms, i, k);
    }
    return at + written.value;
  }

  /** The writer's loop. */
  method WriteAll(mem: array<byte>, ms: seq<Outgoing>)
    requires AllSendable(ms) && Position(ms) <= mem.Length
    modifies mem
    ensures forall i :: 0 <= i < |ms| ==> Carried(mem[..], ms, i)
  {
    assert ms[..|ms|] == ms;
    var at := 0;
    for k := 0 to |ms|
      invariant at == Position(ms[..k])
      invariant forall i :: 0 <= i < k ==> Carried(mem[..], ms, i)
    {
      FrameInside(ms, k);
      at := WriteNext(mem, ms, k, at);
    }
  }

  /** What `copy`, which begins with the frame at `start`, decodes to. */
  lemma DecodesFromCopy(mem: seq<byte>, start: nat, m: Outgoing, copy: seq<byte>, j: nat)
    requires Sendable(m) && j < |m.args| && Encodes(mem, start, m.shape, m.args)
    requires Length(m) <= |copy| && copy[..Length(m)] == mem[start..start + Length(m)]
    ensures ReadBuffer(copy, m.shape.slots[j]) == Ok(m.args[j].data)
  {
    assert copy[0..0 + Length(m)] == copy[..Length(m)];
    CopyEncodes(mem, start, copy, 0, m.shape, m.args);
    FrameIsReadBack(copy, 0, m.shape, m.args, j);
  }

  /** One received message: the payloads its handler sees. */
  predicate Decoded(row: seq<Result<seq<byte>>>, m: Outgoing) {
    |row| == |m.args| && forall j :: 0 <= j < |row| ==> row[j] == Ok(m.args[j].data)
  }

  method DecodeAll(frame: array<byte>, slots: seq<nat>) returns (row: seq<Result<seq<byte>>>)
    ensures |row| == |slots| && forall j :: 0 <= j < |row| ==> row[j] == ReadBuffer(frame[..], slots[j])
  {
    row := [];
    for j := 0 to |slots|
      invariant |row| == j && forall i :: 0 <= i < j ==> row[i] == ReadBuffer(frame[..], slots[i])
    {
      row := row + [ReadBuffer(frame[..], slots[j])];
    }
  }

  /** One fetch: the reader's own copy begins with the frame of message `m`. */
  method Fetch(reader: MessageRingReader, m: Outgoing)
    requires Sendable(m) && reader.Valid() && reader.begin + Length(m) <= reader.end
    requires Encodes(reader.memory, reader.begin, m.shape, m.args)
    modifies reader`begin, reader`messageReadingSequence, reader.frame
    ensures reader.Valid() && reader.begin == old(reader.begin) + Length(m)
    ensures reader.messageReadingSequence == reader.readingSequence - (reader.end - reader.begin)
    ensures Length(m) <= reader.frame.Length
    ensures reader.frame[..Length(m)] == reader.memory[old(reader.begin)..old(reader.begin) + Length(m)]
  {
    ghost var bytes := reader.memory[reader.begin..reader.begin + Length(m)];
    EncodedIsNext(reader.memory, reader.begin, reader.end, m.shape, m.args);
    assert NextFrame(reader.Unread()) == Frame(bytes);
    var fetched := reader.CopyNextFrame();
    assert fetched == Frame(bytes) && |bytes| == Length(m);
  }

  /** Decoding from a buffer that begins with the frame of `m`. */
  method Decode(frame: array<byte>, ghost mem: seq<byte>, ghost start: nat, m: Outgoing)
    returns (row: seq<Result<seq<byte>>>)
    requires Sendable(m) && Encodes(mem, start, m.shape, m.args)
    requires Length(m) <= frame.Length && frame[..Length(m)] == mem[start..start + Length(m)]
    ensures Decoded(row, m)
  {
    row := DecodeAll(frame, m.shape.slots);
    forall j | 0 <= j < |row| ensures row[j] == Ok(m.args[j].data) {
      assert frame[..][..Length(m)] == frame[..Length(m)];
      DecodesFromCopy(mem, start, m, frame[..], j);
    }
  }

  method FetchAndDecode(reader: MessageRingReader, m: Outgoing) returns (row: seq<Result<seq<byte>>>)
    requires Sendable(m) && reader.Valid() && reader.begin + Length(m) <= reader.end
    requires Encodes(reader.memory, reader.begin, m.shape, m.args)
    modifies reader`begin, reader`messageReadingSequence, reader.frame
    ensures reader.Valid() && reader.begin == old(reader.begin) + Length(m)
    ensures reader.messageReadingSequence == reader.readingSequence - (reader.end - reader.begin)
    ensures Decoded(row, m)
  {
    ghost var start := reader.begin;
    Fetch(reader, m);
    row := Decode(reader.frame, reader.memory, start, m);
  }

  predicate AllDecoded(rows: seq<seq<Result<seq<byte>>>>, ms: seq<Outgoing>, k: nat) {
    |rows| == k <= |ms| && forall i :: 0 <= i < k ==> Decoded(rows[i], ms[i])
  }

  /** The next fetch, when everything before frame `k` has been read. */
  method ReceiveNext(reader: MessageRingReader, ms: seq<Outgoing>, k: nat) returns (row: seq<Result<seq<byte>>>)
    requires AllSendable(ms) && k < |ms| && reader.Valid() && Carried(reader.memory, ms, k)
    requires reader.begin == Position(ms[..k]) && reader.end == Position(ms)
    modifies reader`begin, reader`messageReadingSequence, reader.frame
    ensures reader.Valid() && reader.begin == Position(ms[..k + 1])
    ensures reader.messageReadingSequence == reader.readingSequence - (reader.end - reader.begin)
    ensures Decoded(row, ms[k])
  {
    FrameInside(ms, k);
    row := FetchAndDecode(reader, ms[k]);
  }

  /** The reader's loop over a ring that holds exactly `ms`. */
  method ReceiveAll(reader: MessageRingReader, ms: seq<Outgoing>) returns (rows: seq<seq<Result<seq<byte>>>>)
    requires AllSendable(ms) && reader.Valid() && reader.begin == 0 && reader.end == Position(ms)
    requires reader.messageReadingSequence == reader.readingSequence - Position(ms)
    requires forall i :: 0 <= i < |ms| ==> Carried(reader.memory, ms, i)
    modifies reader`begin, reader`messageReadingSequence, reader.frame
    ensures AllDecoded(rows, ms, |ms|)
    ensures reader.begin == reader.end && reader.messageReadingSequence == reader.readingSequence
  {
    rows := [];
    for k := 0 to |ms|
      invariant reader.Valid() && reader.begin == Position(ms[..k])
      invariant reader.messageReadingSequence == reader.readingSequence - (reader.end - reader.begin)
      invariant AllDecoded(rows, ms, k)
    {
      var row := ReceiveNext(reader, ms, k);
      rows := rows + [row];
    }
    assert ms[..|ms|] == ms;
  }

  /**
   The whole way: whatever messages are written one after another, the reader fetches each of them
   once, in order, and every payload decoded from its own copy is the original; in the end nothing
   is unread and the sequence is the writer's.
   */
  method Exchange(ms: seq<Outgoing>) returns (rows: seq<seq<Result<seq<byte>>>>, sequence: int)
    requires AllSendable(ms)
    ensures AllDecoded(rows, ms, |ms|)
    ensures sequence == Position(ms)
  {
    var size := Position(ms);
    var ring := new byte[size];
    WriteAll(ring, ms);
    var reader := new MessageRingReader(ring[..], size);
    rows := ReceiveAll(reader, ms);
    sequence := reader.messageReadingSequence;
  }
}

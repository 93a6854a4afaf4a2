/** Message_ring_R: validated copying of one frame after another out of a readable range. */
module FrameReader {
  import opened Runs
  import opened Bytes
  import opened Frames

  datatype FrameError =
    | InvalidRange | TruncatedPrefix | InvalidMagic | InvalidLength | MisalignedLength | LargerThanLimit | ExceedsRange

  datatype Fetched = Frame(bytes: seq<byte>) | Bad(error: FrameError)

  /** The frame at the front of a readable range, the checks in their order. */
  function NextFrame(range: seq<byte>): Fetched {
    if |range| < PREFIX_SIZE then Bad(TruncatedPrefix)
    else if U64(range, 0) != MAGIC then Bad(InvalidMagic)
    else
      var n := U32(range, 8);
      if n < PREFIX_SIZE then Bad(InvalidLength)
      else if n % FRAME_ALIGNMENT != 0 then Bad(MisalignedLength)
      else if n >= FRAME_SIZE_LIMIT then Bad(LargerThanLimit)
      else if n > |range| then Bad(ExceedsRange)
      else Frame(range[..n])
  }

  predicate WellFormed(f: seq<byte>) {
    && PREFIX_SIZE <= |f| < FRAME_SIZE_LIMIT && |f| % FRAME_ALIGNMENT == 0
    && U64(f, 0) == MAGIC && U32(f, 8) == |f|
  }

  predicate AllWellFormed(fs: seq<seq<byte>>) { forall i :: 0 <= i < |fs| ==> WellFormed(fs[i]) }

  function Concat(fs: seq<seq<byte>>): seq<byte> { if fs == [] then [] else fs[0] + Concat(fs[1..]) }

  /** A frame is returned exactly when the range starts with a well-formed one, and it is that one. */
  lemma NextFrameIsExact(range: seq<byte>, n: nat)
    ensures n <= |range| && WellFormed(range[..n]) <==> NextFrame(range).Frame? && |NextFrame(range).bytes| == n
    ensures NextFrame(range).Frame? ==> NextFrame(range).bytes <= range
  {
    if PREFIX_SIZE <= n <= |range| {
      assert range[..n][0..8] == range[0..8];
      assert range[..n][8..12] == range[8..12];
    }
  }

  /** What the writer produced is well formed for the reader. */
  lemma EncodedIsWellFormed(mem: seq<byte>, start: nat, shape: Shape, args: seq<Payload>)
    requires ValidShape(shape) && ValidArgs(args) && |args| == |shape.slots|
    requires VbSize(shape.size, args).Ok? && Encodes(mem, start, shape, args)
    ensures WellFormed(mem[start..start + FrameSize(shape.size, args)])
  {
    SizingIsExact(shape.size, args);
    PrefixFits(shape.size, args, 0);
    AlignFacts(Span(shape.size, args), FRAME_ALIGNMENT);
    AlignFacts(shape.size, FRAME_ALIGNMENT);
    SliceOfSlice(mem, start, start + FrameSize(shape.size, args), 0, 8);
    SliceOfSlice(mem, start, start + FrameSize(shape.size, args), 8, 12);
  }

  /** A written frame at the front of a range is what the reader finds there. */
  lemma EncodedIsNext(mem: seq<byte>, start: nat, end: nat, shape: Shape, args: seq<Payload>)
    requires ValidShape(shape) && ValidArgs(args) && |args| == |shape.slots|
    requires VbSize(shape.size, args).Ok? && Encodes(mem, start, shape, args)
    requires start + FrameSize(shape.size, args) <= end <= |mem|
    ensures NextFrame(mem[start..end]) == Frame(mem[start..start + FrameSize(shape.size, args)])
  {
    var n := FrameSize(shape.size, args);
    EncodedIsWellFormed(mem, start, shape, args);
    SliceOfSlice(mem, start, end, 0, n);
    FrontIsNext(mem[start..end], n);
  }

  lemma FrontIsNext(range: seq<byte>, n: nat)
    requires n <= |range| && WellFormed(range[0..n])
    ensures NextFrame(range) == Frame(range[0..n])
  {
    assert range[0..n] == range[..n];
    NextFrameIsExact(range, n);
  }

  lemma {:induction false} ConcatAppend(fs: seq<seq<byte>>, f: seq<byte>)
    ensures Concat(fs + [f]) == Concat(fs) + f
    decreases |fs|
  {
    if fs == [] {
      assert (fs + [f])[1..] == [];
    } else {
      ConcatAppend(fs[1..], f);
      assert (fs + [f])[1..] == fs[1..] + [f];
    }
  }

  /** A range made of frames can be taken apart in only one way, from the front. */
  lemma {:induction false} FramesAreFound(written: seq<seq<byte>>, found: seq<seq<byte>>, rest: seq<byte>)
    requires AllWellFormed(written) && AllWellFormed(found) && Concat(written) == Concat(found) + rest
    ensures found <= written && rest == Concat(written[|found|..])
    decreases |found|
  {
    if found == [] {
      assert written[0..] == written;
    } else {
      var range := Concat(written);
      assert range[..|found[0]|] == found[0];
      NextFrameIsExact(range, |found[0]|);
      if written != [] {
        assert range[..|written[0]|] == written[0];
        NextFrameIsExact(range, |written[0]|);
        assert |found[0]| == |written[0]|;
        assert Concat(written[1..]) == range[|written[0]|..];
        assert found[0] + Concat(found[1..]) + rest == found[0] + (Concat(found[1..]) + rest);
        assert range[|found[0]|..] == Concat(found[1..]) + rest;
        FramesAreFound(written[1..], found[1..], rest);
        assert written[1..][|found[1..]|..] == written[|found|..];
      }
    }
  }

  /** Reading until nothing more can be read finds every frame, in order. */
  lemma ReadingFindsAll(written: seq<seq<byte>>, found: seq<seq<byte>>, rest: seq<byte>)
    requires AllWellFormed(written) && AllWellFormed(found) && Concat(written) == Concat(found) + rest
    requires NextFrame(rest).Bad?
    ensures found == written && rest == []
  {
    FramesAreFound(written, found, rest);
    if |found| < |written| {
      var next := written[|found|];
      assert rest[..|next|] == next;
      NextFrameIsExact(rest, |next|);
    }
  }

  /** The reader's side of a ring: a readable range, the owned copy of a frame, and two sequence counters. */
  class MessageRingReader {
    var memory: seq<byte>
    var begin: nat
    var end: nat
    var readingSequence: int
    var messageReadingSequence: int
    const frame: array<byte>

    ghost predicate Valid() reads this { begin <= |memory| && end <= |memory| && frame.Length == FRAME_SIZE_LIMIT }

    ghost function Unread(): seq<byte>
      requires Valid()
      reads this
    {
      if begin <= end then memory[begin..end] else []
    }

    constructor (memory: seq<byte>, readingSequence: int)
      ensures Valid() && this.memory == memory && begin == 0 && end == |memory| && fresh(frame)
      ensures this.readingSequence == readingSequence && messageReadingSequence == readingSequence - |memory|
    {
      this.memory, begin, end := memory, 0, |memory|;
      this.readingSequence, messageReadingSequence := readingSequence, readingSequence - |memory|;
      frame := new byte[FRAME_SIZE_LIMIT];
    }

    /**
     copy_next_frame: on an error nothing changes; otherwise the frame is copied out, the range
     loses exactly it, and the message sequence counts the bytes still unread.
     */
    method CopyNextFrame() returns (r: Fetched)
      requires Valid()
      modifies this`begin, this`messageReadingSequence, frame
      ensures Valid()
      ensures r == if old(begin) > end then Bad(InvalidRange) else old(NextFrame(Unread()))
      ensures r.Bad? ==> begin == old(begin) && messageReadingSequence == old(messageReadingSequence)
      ensures r.Frame? ==>
        && begin == old(begin) + |r.bytes| <= end && old(Unread()) == r.bytes + Unread()
        && |r.bytes| <= frame.Length && frame[..|r.bytes|] == r.bytes
        && messageReadingSequence == readingSequence - |Unread()|
    {
      if end < begin {
        return Bad(InvalidRange);
      }
      var error, bytesToNext := CheckNext();
      if error.Some? {
        return Bad(error.value);
      }
      r := Frame(memory[begin..begin + bytesToNext]);
      FrontOfSlice(memory, begin, end, bytesToNext);
      TakeFront(bytesToNext);
    }

    /** The front of the range is copied out, and the range and the sequence move past it. */
    method TakeFront(n: nat)
      requires Valid() && begin + n <= end && n <= frame.Length
      modifies this`begin, this`messageReadingSequence, frame
      ensures Valid() && begin == old(begin) + n && frame[..n] == memory[old(begin)..begin]
      ensures old(Unread()) == memory[old(begin)..begin] + Unread()
      ensures messageReadingSequence == readingSequence - |Unread()|
    {
      SliceSplit(memory, begin, begin + n, end);
      CopyOut(n);
      begin := begin + n;
      messageReadingSequence := readingSequence - (end - begin);
    }

    /** The checks, in their order, and the length of the frame that passed them. */
    method CheckNext() returns (error: Option<FrameError>, n: nat)
      requires Valid() && begin <= end
      ensures error.Some? ==> NextFrame(Unread()) == Bad(error.value)
      ensures error.None? ==> n <= end - begin && n < FRAME_SIZE_LIMIT && NextFrame(Unread()) == Frame(Unread()[..n])
    {
      var available := end - begin;
      if available < PREFIX_SIZE {
        return Some(TruncatedPrefix), 0;
      }
      SliceOfSlice(memory, begin, end, 0, 8);
      SliceOfSlice(memory, begin, end, 8, 12);
      if U64(memory, begin) != MAGIC {
        return Some(InvalidMagic), 0;
      }
      var bytesToNext := U32(memory, begin + 8);
      if bytesToNext < PREFIX_SIZE {
        return Some(InvalidLength), 0;
      }
      if bytesToNext % FRAME_ALIGNMENT != 0 {
        return Some(MisalignedLength), 0;
      }
      if bytesToNext >= FRAME_SIZE_LIMIT {
        return Some(LargerThanLimit), 0;
      }
      if bytesToNext > available {
        return Some(ExceedsRange), 0;
      }
      return None, bytesToNext;
    }

    /** The copy into storage of the reader's own. */
    method CopyOut(n: nat)
      requires Valid() && begin + n <= |memory| && n <= frame.Length
      modifies frame
      ensures frame[..n] == memory[begin..begin + n]
    {
      forall j | 0 <= j < n { frame[j] := memory[begin + j]; }
    }

    /** One round of the reader loop: one more frame, or an error at the front of what is unread. */
    method FetchOne(ghost all: seq<byte>, ghost first: int, frames: seq<seq<byte>>, sequences: seq<int>)
      returns (more: seq<seq<byte>>, counted: seq<int>, error: bool)
      requires Valid() && begin < end && first == readingSequence - |all|
      requires Taken(all, frames, Unread()) && Counted(sequences, first, frames)
      modifies this`begin, this`messageReadingSequence, frame
      ensures Valid() && begin <= end && Taken(all, more, Unread()) && Counted(counted, first, more)
      ensures if error then begin == old(begin) && NextFrame(Unread()).Bad? else begin > old(begin)
    {
      ghost var unread := Unread();
      var next := CopyNextFrame();
      error := next.Bad?;
      more, counted := frames, sequences;
      if !error {
        NextFrameIsExact(unread, |next.bytes|);
        TakeFrame(all, frames, next.bytes, unread, Unread());
        CountedAppend(sequences, first, frames, messageReadingSequence, next.bytes);
        more, counted := frames + [next.bytes], sequences + [messageReadingSequence];
      }
    }

    /** The reader loop over one range: frames in order, and the sequence reported after each. */
    method FetchAll(ghost written: seq<seq<byte>>) returns (frames: seq<seq<byte>>, sequences: seq<int>, error: bool)
      requires Valid() && begin <= end
      modifies this`begin, this`messageReadingSequence, frame
      ensures Valid()
      ensures Taken(old(Unread()), frames, Unread())
      ensures error <==> Unread() != []
      ensures error ==> NextFrame(Unread()).Bad?
      ensures AllWellFormed(written) && old(Unread()) == Concat(written) ==> frames == written && !error
      ensures Counted(sequences, readingSequence - |old(Unread())|, frames)
    {
      ghost var all, first := Unread(), readingSequence - |Unread()|;
      frames, sequences, error := [], [], false;
      while begin != end && !error
        invariant Valid() && begin <= end && first == readingSequence - |all|
        invariant Taken(all, frames, Unread()) && Counted(sequences, first, frames)
        invariant error ==> NextFrame(Unread()).Bad? && Unread() != []
        decreases end - begin, !error
      {
        frames, sequences, error := FetchOne(all, first, frames, sequences);
      }
      if AllWellFormed(written) && all == Concat(written) {
        ReadingFindsAll(written, frames, Unread());
      }
    }
  }

  /** The frames taken so far and what is still unread make up the range. */
  predicate Taken(all: seq<byte>, frames: seq<seq<byte>>, unread: seq<byte>) {
    AllWellFormed(frames) && all == Concat(frames) + unread
  }

  /** One more frame taken from the front of what was unread. */
  lemma TakeFrame(all: seq<byte>, frames: seq<seq<byte>>, f: seq<byte>, unread: seq<byte>, rest: seq<byte>)
    requires Taken(all, frames, unread)
    requires NextFrame(unread) == Frame(f) && unread == f + rest
    ensures Taken(all, frames + [f], rest)
    ensures |Concat(frames + [f])| == |all| - |rest|
  {
    NextFrameIsExact(unread, |f|);
    assert unread[..|f|] == f;
    ConcatAppend(frames, f);
    assert Concat(frames) + f + rest == Concat(frames) + (f + rest);
  }

  /** `sequences[k]` is the position just behind frame `k`. */
  predicate Counted(sequences: seq<int>, first: int, frames: seq<seq<byte>>) {
    && |sequences| == |frames|
    && forall k :: 0 <= k < |sequences| ==> sequences[k] == first + |Concat(frames[..k + 1])|
  }

  lemma CountedAppend(sequences: seq<int>, first: int, frames: seq<seq<byte>>, s: int, f: seq<byte>)
    requires Counted(sequences, first, frames) && s == first + |Concat(frames + [f])|
    ensures Counted(sequences + [s], first, frames + [f])
  {
    var fs := frames + [f];
    forall k | 0 <= k < |sequences + [s]| ensures (sequences + [s])[k] == first + |Concat(fs[..k + 1])| {
      if k < |frames| {
        assert fs[..k + 1] == frames[..k + 1];
      } else {
        assert fs[..k + 1] == fs;
      }
    }
  }
}

/**
 Message frames: the sizing pass, the constructor that places variable-size payloads behind the
 fixed part with self-relative offsets, and what a reader of the frame finds.
 */
module Frames {
  import opened Bytes

  const MAGIC := 0xc18a1aca1ebac17a
  const RING_SIZE := 0x20_0000
  const FRAME_ALIGNMENT := 16
  const FRAME_SIZE_LIMIT := RING_SIZE / 8
  const PREFIX_SIZE := 64
  const SIZE_MAX := 0xffff_ffff_ffff_ffff
  const UINT32_MAX := 0xffff_ffff

  /** Thrown by the sizing pass and the constructor. */
  datatype Error =
    | AlignmentOverflow | PayloadOverflow | SpanOverflow | LengthField | TooLarge
    | ContainerTooLarge | PayloadLimit | OffsetLimit | SpanLimit | Misaligned

  datatype Result<+T> = Ok(value: T) | Err(error: Error)

  /** A variable-size argument: the bytes of its elements and their alignment. */
  datatype Payload = Payload(align: nat, data: seq<byte>)

  predicate ValidAlign(a: nat) { a == 1 || a == 2 || a == 4 || a == 8 || a == 16 }

  predicate ValidArgs(args: seq<Payload>) { forall i :: 0 <= i < |args| ==> ValidAlign(args[i].align) }

  // ---- Sizing ----

  /** `v % a` for the alignments a type may have here: powers of two up to the frame alignment. */
  function Remainder(v: nat, a: nat): nat {
    match a
    case 2 => v % 2
    case 4 => v % 4
    case 8 => v % 8
    case 16 => v % 16
    case _ => 0
  }

  function Align(v: nat, a: nat): nat {
    if Remainder(v, a) == 0 || a == 0 then v else v + a - Remainder(v, a)
  }

  /** align_up_size. */
  function AlignUpSize(v: nat, a: nat): Result<nat> {
    if Align(v, a) > SIZE_MAX then Err(AlignmentOverflow) else Ok(Align(v, a))
  }

  /** finish_message_frame_size. */
  function FinishFrameSize(spanEnd: nat): Result<nat> {
    match AlignUpSize(spanEnd, FRAME_ALIGNMENT)
    case Err(e) => Err(e)
    case Ok(aligned) =>
      if aligned > UINT32_MAX then Err(LengthField)
      else if aligned >= FRAME_SIZE_LIMIT then Err(TooLarge)
      else Ok(aligned)
  }

  /** accumulate_vb_size: arguments of fixed size add nothing and are left out of `args`. */
  function AccumulateVbSize(offset: nat, args: seq<Payload>): Result<nat>
    decreases |args|
  {
    if args == [] then Ok(offset)
    else if |args[0].data| > SIZE_MAX then Err(PayloadOverflow)
    else
      match AlignUpSize(offset, args[0].align)
      case Err(e) => Err(e)
      case Ok(aligned) =>
        if |args[0].data| > SIZE_MAX - aligned then Err(SpanOverflow)
        else AccumulateVbSize(aligned + |args[0].data|, args[1..])
  }

  /** vb_size, for a message whose fixed part has `base` bytes. */
  function VbSize(base: nat, args: seq<Payload>): Result<int> {
    match AccumulateVbSize(base, args)
    case Err(e) => Err(e)
    case Ok(final) =>
      match FinishFrameSize(final)
      case Err(e) => Err(e)
      case Ok(aligned) => Ok(aligned - base)
  }

  // ---- Where payloads go ----

  /** Rounding up reaches the next multiple and no further. */
  lemma AlignFacts(v: nat, a: nat)
    requires ValidAlign(a)
    ensures v <= Align(v, a) < v + a
    ensures Remainder(Align(v, a), a) == 0
  {
  }

  /** The end of the last payload when `args` are placed one after another from `base`. */
  function Span(base: nat, args: seq<Payload>): nat {
    if args == [] then base
    else
      var k := |args| - 1;
      Align(Span(base, args[..k]), args[k].align) + |args[k].data|
  }

  function Offset(base: nat, args: seq<Payload>, i: nat): nat
    requires i < |args|
  {
    Align(Span(base, args[..i]), args[i].align)
  }

  function FrameSize(base: nat, args: seq<Payload>): nat { Align(Span(base, args), FRAME_ALIGNMENT) }

  lemma SpanStep(base: nat, args: seq<Payload>, k: nat)
    requires k < |args|
    ensures Span(base, args[..k + 1]) == Offset(base, args, k) + |args[k].data|
  {
    assert args[..k + 1][..k] == args[..k];
  }

  lemma {:induction false} SpanGrows(base: nat, args: seq<Payload>, i: nat, j: nat)
    requires ValidArgs(args) && i <= j <= |args|
    ensures Span(base, args[..i]) <= Span(base, args[..j])
    decreases j
  {
    if i < j {
      SpanGrows(base, args, i, j - 1);
      SpanStep(base, args, j - 1);
      AlignFacts(Span(base, args[..j - 1]), args[j - 1].align);
    }
  }

  /**
   Payloads are aligned, behind the fixed part, in order and apart from each other, and inside the
   frame.
   */
  lemma PayloadsArePlacedApart(base: nat, args: seq<Payload>, i: nat, j: nat)
    requires ValidArgs(args) && i < j < |args| + 1
    ensures base <= Offset(base, args, i) && Remainder(Offset(base, args, i), args[i].align) == 0
    ensures Offset(base, args, i) + |args[i].data| <= Span(base, args) <= FrameSize(base, args)
    ensures j < |args| ==> Offset(base, args, i) + |args[i].data| <= Offset(base, args, j)
    ensures FrameSize(base, args) % FRAME_ALIGNMENT == 0
  {
    SpanGrows(base, args, 0, i);
    SpanStep(base, args, i);
    AlignFacts(Span(base, args[..i]), args[i].align);
    SpanGrows(base, args, i + 1, j);
    SpanGrows(base, args, i + 1, |args|);
    assert args[..|args|] == args;
    AlignFacts(Span(base, args), FRAME_ALIGNMENT);
    if j < |args| {
      AlignFacts(Span(base, args[..j]), args[j].align);
    }
  }

  // ---- The sizing pass agrees with the placement ----

  lemma {:induction false} SpanFromFront(base: nat, args: seq<Payload>)
    requires args != []
    ensures Span(base, args) == Span(Align(base, args[0].align) + |args[0].data|, args[1..])
    decreases |args|
  {
    var k := |args| - 1;
    if k == 0 {
      assert args[..0] == [] && args[1..] == [];
    } else {
      SpanFromFront(base, args[..k]);
      assert args[..k][1..] == args[1..][..k - 1];
      assert args[1..][k - 1] == args[k];
    }
  }

  lemma AccumulateStep(offset: nat, args: seq<Payload>)
    requires args != [] && ValidAlign(args[0].align)
    ensures var next := Align(offset, args[0].align) + |args[0].data|;
      if next <= SIZE_MAX then AccumulateVbSize(offset, args) == AccumulateVbSize(next, args[1..])
      else AccumulateVbSize(offset, args).Err?
  {
  }

  lemma {:induction false} AccumulateIsSpan(offset: nat, args: seq<Payload>)
    requires ValidArgs(args) && offset <= SIZE_MAX
    ensures AccumulateVbSize(offset, args).Ok? <==> Span(offset, args) <= SIZE_MAX
    ensures AccumulateVbSize(offset, args).Ok? ==> AccumulateVbSize(offset, args).value == Span(offset, args)
    decreases |args|
  {
    if args != [] {
      var next := Align(offset, args[0].align) + |args[0].data|;
      SpanFromFront(offset, args);
      AccumulateStep(offset, args);
      SpanGrows(next, args[1..], 0, |args[1..]|);
      assert args[1..][..|args[1..]|] == args[1..];
      if next <= SIZE_MAX {
        AccumulateIsSpan(next, args[1..]);
      }
    }
  }

  /** The sizing pass succeeds exactly when the whole frame stays under the limit, and returns its excess. */
  lemma SizingIsExact(base: nat, args: seq<Payload>)
    requires ValidArgs(args) && base <= SIZE_MAX
    ensures VbSize(base, args).Ok? <==> FrameSize(base, args) < FRAME_SIZE_LIMIT
    ensures VbSize(base, args).Ok? ==> base + VbSize(base, args).value == FrameSize(base, args)
  {
    AccumulateIsSpan(base, args);
    AlignFacts(Span(base, args), FRAME_ALIGNMENT);
  }

  /** Prefixes of the arguments make frames no larger. */
  lemma PrefixFits(base: nat, args: seq<Payload>, k: nat)
    requires ValidArgs(args) && k <= |args|
    ensures Align(Span(base, args[..k]), FRAME_ALIGNMENT) <= FrameSize(base, args)
  {
    SpanGrows(base, args, k, |args|);
    assert args[..|args|] == args;
    AlignGrows(Span(base, args[..k]), Span(base, args));
  }

  lemma AlignGrows(v: nat, w: nat)
    requires v <= w
    ensures Align(v, FRAME_ALIGNMENT) <= Align(w, FRAME_ALIGNMENT)
  {
    var a, b := Align(v, 16), Align(w, 16);
    AlignFacts(v, 16);
    AlignFacts(w, 16);
    assert a == 16 * (a / 16) && b == 16 * (b / 16);
  }

  // ---- What a frame says ----

  /** The fixed part of a message type: its size and where its payload descriptors are. */
  datatype Shape = Shape(size: nat, slots: seq<nat>)

  /** Descriptors lie behind the prefix, inside the fixed part, in order and apart. */
  predicate ValidShape(shape: Shape) {
    && PREFIX_SIZE <= shape.size < FRAME_SIZE_LIMIT
    && (forall i :: 0 <= i < |shape.slots| ==> 60 <= shape.slots[i] && shape.slots[i] + 16 <= shape.size)
    && (forall i, j :: 0 <= i < j < |shape.slots| ==> shape.slots[i] + 16 <= shape.slots[j])
  }

  /** A descriptor at `at`: payload length, and payload position relative to the descriptor itself. */
  predicate Described(mem: seq<byte>, at: nat, numBytes: nat, offset: nat) {
    at + 16 <= |mem| && U64(mem, at) == numBytes && U64(mem, at + 8) == offset
  }

  predicate Holds(mem: seq<byte>, at: nat, data: seq<byte>) {
    at + |data| <= |mem| && mem[at..at + |data|] == data
  }

  /** The frame at `start` carries argument `i`. */
  predicate Carries(mem: seq<byte>, start: nat, shape: Shape, args: seq<Payload>, i: nat)
    requires i < |args| == |shape.slots|
  {
    var offset := Offset(shape.size, args, i);
    && shape.slots[i] <= offset
    && Described(mem, start + shape.slots[i], |args[i].data|, offset - shape.slots[i])
    && Holds(mem, start + offset, args[i].data)
  }

  /** A complete frame: magic, its own length, and every argument. */
  predicate Encodes(mem: seq<byte>, start: nat, shape: Shape, args: seq<Payload>)
    requires |args| == |shape.slots|
  {
    && PREFIX_SIZE <= FrameSize(shape.size, args)
    && start + FrameSize(shape.size, args) <= |mem|
    && U64(mem, start) == MAGIC
    && U32(mem, start + 8) == FrameSize(shape.size, args)
    && forall i :: 0 <= i < |args| ==> Carries(mem, start, shape, args, i)
  }

  /** typed_variable_buffer's conversion, for the descriptor at `at`. */
  function ReadBuffer(mem: seq<byte>, at: nat): Result<seq<byte>> {
    if at + 16 > |mem| then Err(OffsetLimit)
    else
      var data := at + U64(mem, at + 8);
      if data + U64(mem, at) > |mem| then Err(SpanLimit) else Ok(mem[data..data + U64(mem, at)])
  }

  /** Every argument is read back from a frame that encodes it. */
  lemma FrameIsReadBack(mem: seq<byte>, start: nat, shape: Shape, args: seq<Payload>, i: nat)
    requires |args| == |shape.slots| && Encodes(mem, start, shape, args) && i < |args|
    ensures ReadBuffer(mem, start + shape.slots[i]) == Ok(args[i].data)
  {
    assert Carries(mem, start, shape, args, i);
  }

  /** Offsets are self-relative: a frame copied to another address says the same. */
  lemma CopyEncodes(mem: seq<byte>, start: nat, mem': seq<byte>, start': nat, shape: Shape, args: seq<Payload>)
    requires ValidShape(shape) && ValidArgs(args) && |args| == |shape.slots| && Encodes(mem, start, shape, args)
    requires var n := FrameSize(shape.size, args);
      start' + n <= |mem'| && mem'[start'..start' + n] == mem[start..start + n]
    ensures Encodes(mem', start', shape, args)
  {
    var n := FrameSize(shape.size, args);
    SliceOfCopy(mem, start, mem', start', n, 0, 8);
    SliceOfCopy(mem, start, mem', start', n, 8, 4);
    forall i | 0 <= i < |args| ensures Carries(mem', start', shape, args, i) {
      CopyCarries(mem, start, mem', start', shape, args, i);
    }
  }

  lemma CopyCarries(mem: seq<byte>, start: nat, mem': seq<byte>, start': nat, shape: Shape, args: seq<Payload>, i: nat)
    requires ValidShape(shape) && ValidArgs(args) && i < |args| == |shape.slots|
    requires Carries(mem, start, shape, args, i)
    requires var n := FrameSize(shape.size, args);
      start + n <= |mem| && start' + n <= |mem'| && mem'[start'..start' + n] == mem[start..start + n]
    ensures Carries(mem', start', shape, args, i)
  {
    var n, offset, slot := FrameSize(shape.size, args), Offset(shape.size, args, i), shape.slots[i];
    PayloadsArePlacedApart(shape.size, args, i, i + 1);
    SliceOfCopy(mem, start, mem', start', n, slot, 8);
    SliceOfCopy(mem, start, mem', start', n, slot + 8, 8);
    SliceOfCopy(mem, start, mem', start', n, offset, |args[i].data|);
  }

  lemma SliceOfCopy(mem: seq<byte>, start: nat, mem': seq<byte>, start': nat, n: nat, at: nat, len: nat)
    requires start + n <= |mem| && start' + n <= |mem'| && mem'[start'..start' + n] == mem[start..start + n]
    requires at + len <= n
    ensures mem'[start' + at..start' + at + len] == mem[start + at..start + at + len]
  {
    var copied, original := mem'[start' + at..start' + at + len], mem[start + at..start + at + len];
    forall j | 0 <= j < len ensures copied[j] == original[j] {
      assert mem'[start' + at + j] == mem'[start'..start' + n][at + j];
      assert mem[start + at + j] == mem[start..start + n][at + j];
    }
  }

  // ---- The in-place writer ----

  /** Everything outside two regions is the same. */
  predicate AgreeOutside(before: seq<byte>, after: seq<byte>, at1: nat, n1: nat, at2: nat, n2: nat) {
    && |before| == |after|
    && forall j :: 0 <= j < |after| && !(at1 <= j < at1 + n1) && !(at2 <= j < at2 + n2) ==> after[j] == before[j]
  }

  twostate predicate OnlyTouches(mem: array<byte>, at1: nat, n1: nat, at2: nat, n2: nat)
    reads mem
  {
    AgreeOutside(old(mem[..]), mem[..], at1, n1, at2, n2)
  }

  method StoreU64(mem: array<byte>, at: nat, n: nat)
    requires at + 8 <= mem.Length && n <= SIZE_MAX
    modifies mem
    ensures U64(mem[..], at) == n
    ensures OnlyTouches(mem, at, 8, at, 0)
  {
    var bytes := LE(n, 8);
    forall j | 0 <= j < 8 { mem[at + j] := bytes[j]; }
    assert mem[..][at..at + 8] == bytes;
    Widths();
    LERoundTrip(n, 8);
  }

  method StoreU32(mem: array<byte>, at: nat, n: nat)
    requires at + 4 <= mem.Length && n <= UINT32_MAX
    modifies mem
    ensures U32(mem[..], at) == n
    ensures OnlyTouches(mem, at, 4, at, 0)
  {
    var bytes := LE(n, 4);
    forall j | 0 <= j < 4 { mem[at + j] := bytes[j]; }
    assert mem[..][at..at + 4] == bytes;
    Widths();
    LERoundTrip(n, 4);
  }

  method StoreBytes(mem: array<byte>, at: nat, data: seq<byte>)
    requires at + |data| <= mem.Length
    modifies mem
    ensures Holds(mem[..], at, data)
    ensures OnlyTouches(mem, at, |data|, at, 0)
  {
    forall j | 0 <= j < |data| { mem[at + j] := data[j]; }
    assert mem[..][at..at + |data|] == data;
  }

  /** A region away from what was touched reads as before. */
  lemma SameSlice(before: seq<byte>, after: seq<byte>, lo: nat, hi: nat)
    requires |before| == |after| && lo <= hi <= |after|
    requires forall j :: lo <= j < hi ==> after[j] == before[j]
    ensures after[lo..hi] == before[lo..hi]
  {
  }

  method StoreDescriptor(mem: array<byte>, at: nat, numBytes: nat, offset: nat)
    requires at + 16 <= mem.Length && numBytes <= SIZE_MAX && offset <= SIZE_MAX
    modifies mem
    ensures Described(mem[..], at, numBytes, offset)
    ensures OnlyTouches(mem, at, 16, at, 0)
  {
    StoreU64(mem, at, numBytes);
    ghost var first := mem[..];
    StoreU64(mem, at + 8, offset);
    SameSlice(first, mem[..], at, at + 8);
  }

  /** The checks of the variable_buffer constructor, in order; the result is the payload's offset. */
  function PlaceCheck(start: nat, bytesToNext: nat, payload: Payload): Result<nat> {
    if |payload.data| > SIZE_MAX then Err(ContainerTooLarge)
    else if |payload.data| > UINT32_MAX then Err(PayloadLimit)
    else
      match AlignUpSize(bytesToNext, payload.align)
      case Err(e) => Err(e)
      case Ok(aligned) =>
        if aligned > UINT32_MAX then Err(OffsetLimit)
        else if |payload.data| > SIZE_MAX - aligned then Err(SpanLimit)
        else if aligned + |payload.data| > UINT32_MAX then Err(SpanLimit)
        else
          match FinishFrameSize(aligned + |payload.data|)
          case Err(e) => Err(e)
          case Ok(_) => if Remainder(start + aligned, payload.align) != 0 then Err(Misaligned) else Ok(aligned)
  }

  /** All those checks together say: the frame with this payload stays under the limit, and the storage is aligned. */
  lemma PlaceCheckIsExact(start: nat, bytesToNext: nat, payload: Payload)
    requires ValidAlign(payload.align)
    ensures var aligned := Align(bytesToNext, payload.align);
      && (PlaceCheck(start, bytesToNext, payload).Ok? <==>
            && Align(aligned + |payload.data|, FRAME_ALIGNMENT) < FRAME_SIZE_LIMIT
            && Remainder(start + aligned, payload.align) == 0)
      && (PlaceCheck(start, bytesToNext, payload).Ok? ==> PlaceCheck(start, bytesToNext, payload).value == aligned)
  {
    AlignFacts(bytesToNext, payload.align);
    AlignFacts(Align(bytesToNext, payload.align) + |payload.data|, FRAME_ALIGNMENT);
  }

  /**
   The variable_buffer constructor: the copy, the descriptor, and the new end of the frame. On an
   error nothing is written.
   */
  method PlaceBuffer(mem: array<byte>, start: nat, self: nat, bytesToNext: nat, payload: Payload)
    returns (r: Result<nat>)
    requires ValidAlign(payload.align) && self + 16 <= bytesToNext
    requires PlaceCheck(start, bytesToNext, payload).Ok? ==>
      start + Align(bytesToNext, payload.align) + |payload.data| <= mem.Length
    modifies mem
    ensures r.Ok? <==> PlaceCheck(start, bytesToNext, payload).Ok?
    ensures r.Err? ==> r.error == PlaceCheck(start, bytesToNext, payload).error && mem[..] == old(mem[..])
    ensures r.Ok? ==>
      var aligned := Align(bytesToNext, payload.align);
      && r.value == aligned + |payload.data| <= FRAME_SIZE_LIMIT
      && bytesToNext <= aligned
      && Described(mem[..], start + self, |payload.data|, aligned - self)
      && Holds(mem[..], start + aligned, payload.data)
      && OnlyTouches(mem, start + self, 16, start + aligned, |payload.data|)
  {
    PlaceCheckIsExact(start, bytesToNext, payload);
    AlignFacts(bytesToNext, payload.align);
    AlignFacts(Align(bytesToNext, payload.align) + |payload.data|, FRAME_ALIGNMENT);
    var checked := PlaceCheck(start, bytesToNext, payload);
    if checked.Err? {
      return Err(checked.error);
    }
    StoreBytes(mem, start + checked.value, payload.data);
    ghost var placed := mem[..];
    StoreDescriptor(mem, start + self, |payload.data|, checked.value - self);
    SameSlice(placed, mem[..], start + checked.value, start + checked.value + |payload.data|);
    return Ok(checked.value + |payload.data|);
  }

  /** Nothing but the descriptor and the payload of argument `k` differs. */
  predicate OnlyArgument(before: seq<byte>, after: seq<byte>, start: nat, shape: Shape, args: seq<Payload>, k: nat)
    requires k < |args| == |shape.slots|
  {
    AgreeOutside(before, after, start + shape.slots[k], 16, start + Offset(shape.size, args, k), |args[k].data|)
  }

  /** Writing a later argument leaves an earlier one as it is. */
  lemma CarriesKept(before: seq<byte>, after: seq<byte>, start: nat, shape: Shape, args: seq<Payload>, i: nat, k: nat)
    requires ValidShape(shape) && ValidArgs(args) && i < k < |args| == |shape.slots| && |before| == |after|
    requires Carries(before, start, shape, args, i)
    requires OnlyArgument(before, after, start, shape, args, k)
    ensures Carries(after, start, shape, args, i)
  {
    PayloadsArePlacedApart(shape.size, args, i, k);
    PayloadsArePlacedApart(shape.size, args, k, k + 1);
    var slot, data := start + shape.slots[i], start + Offset(shape.size, args, i);
    SameSlice(before, after, slot, slot + 8);
    SameSlice(before, after, slot + 8, slot + 16);
    SameSlice(before, after, data, data + |args[i].data|);
  }

  /** Storing the prefix leaves every argument as it is. */
  lemma CarriesKeptByPrefix(before: seq<byte>, after: seq<byte>, start: nat, shape: Shape, args: seq<Payload>, i: nat)
    requires ValidShape(shape) && ValidArgs(args) && i < |args| == |shape.slots| && |before| == |after|
    requires Carries(before, start, shape, args, i)
    requires AgreeOutside(before, after, start, 12, start, 0)
    ensures Carries(after, start, shape, args, i)
  {
    PayloadsArePlacedApart(shape.size, args, i, i + 1);
    var slot, data := start + shape.slots[i], start + Offset(shape.size, args, i);
    SameSlice(before, after, slot, slot + 8);
    SameSlice(before, after, slot + 8, slot + 16);
    SameSlice(before, after, data, data + |args[i].data|);
  }

  /** Byte `j` of the fixed part belongs to no descriptor. */
  predicate Plain(shape: Shape, j: nat) {
    12 <= j < shape.size && forall i :: 0 <= i < |shape.slots| ==> !(shape.slots[i] <= j < shape.slots[i] + 16)
  }

  lemma Multiple2(v: nat, d: nat)
    requires v == 2 * d
    ensures v % 2 == 0
  {
  }

  lemma Multiple4(v: nat, d: nat)
    requires v == 4 * d
    ensures v % 4 == 0
  {
  }

  lemma Multiple8(v: nat, d: nat)
    requires v == 8 * d
    ensures v % 8 == 0
  {
  }

  lemma Multiple16(v: nat, d: nat)
    requires v == 16 * d
    ensures v % 16 == 0
  {
  }

  lemma StartAligns2(start: nat, offset: nat)
    requires start % 16 == 0 && offset % 2 == 0
    ensures (start + offset) % 2 == 0
  {
    var q, d := start / 16, offset / 2;
    assert start == 16 * q && offset == 2 * d;
    Multiple2(start + offset, 8 * q + d);
  }

  lemma StartAligns4(start: nat, offset: nat)
    requires start % 16 == 0 && offset % 4 == 0
    ensures (start + offset) % 4 == 0
  {
    var q, d := start / 16, offset / 4;
    assert start == 16 * q && offset == 4 * d;
    Multiple4(start + offset, 4 * q + d);
  }

  lemma StartAligns8(start: nat, offset: nat)
    requires start % 16 == 0 && offset % 8 == 0
    ensures (start + offset) % 8 == 0
  {
    var q, d := start / 16, offset / 8;
    assert start == 16 * q && offset == 8 * d;
    Multiple8(start + offset, 2 * q + d);
  }

  lemma StartAligns16(start: nat, offset: nat)
    requires start % 16 == 0 && offset % 16 == 0
    ensures (start + offset) % 16 == 0
  {
    var q, d := start / 16, offset / 16;
    assert start == 16 * q && offset == 16 * d;
    Multiple16(start + offset, q + d);
  }

  /** A 16-aligned start aligns every payload. */
  lemma StartAligns(start: nat, offset: nat, a: nat)
    requires ValidAlign(a) && start % FRAME_ALIGNMENT == 0 && Remainder(offset, a) == 0
    ensures Remainder(start + offset, a) == 0
  {
    match a
    case 2 => StartAligns2(start, offset);
    case 4 => StartAligns4(start, offset);
    case 8 => StartAligns8(start, offset);
    case 16 => StartAligns16(start, offset);
    case _ =>
  }

  lemma PlacementNeverFails(start: nat, base: nat, args: seq<Payload>, k: nat)
    requires ValidArgs(args) && k < |args| && start % FRAME_ALIGNMENT == 0
    requires base <= SIZE_MAX && VbSize(base, args).Ok?
    ensures PlaceCheck(start, Span(base, args[..k]), args[k]) == Ok(Offset(base, args, k))
  {
    SizingIsExact(base, args);
    PrefixFits(base, args, k + 1);
    SpanStep(base, args, k);
    AlignFacts(Span(base, args[..k]), args[k].align);
    StartAligns(start, Offset(base, args, k), args[k].align);
    PlaceCheckIsExact(start, Span(base, args[..k]), args[k]);
  }

  /** The fixed part, and the first `k` arguments. */
  predicate Filled(mem: seq<byte>, start: nat, shape: Shape, image: seq<byte>, args: seq<Payload>, k: nat)
    requires k <= |args| == |shape.slots| && |image| == shape.size && start + shape.size <= |mem|
  {
    && (forall i :: 0 <= i < k ==> Carries(mem, start, shape, args, i))
    && (forall j :: 0 <= j < shape.size && Plain(shape, j) ==> mem[start + j] == image[j])
  }

  lemma FilledStep(before: seq<byte>, after: seq<byte>, start: nat, shape: Shape, image: seq<byte>,
                   args: seq<Payload>, k: nat)
    requires ValidShape(shape) && ValidArgs(args) && k < |args| == |shape.slots| && |image| == shape.size
    requires start + shape.size <= |before| == |after| && Filled(before, start, shape, image, args, k)
    requires OnlyArgument(before, after, start, shape, args, k)
    requires Carries(after, start, shape, args, k)
    ensures Filled(after, start, shape, image, args, k + 1)
  {
    forall i | 0 <= i < k ensures Carries(after, start, shape, args, i) {
      CarriesKept(before, after, start, shape, args, i, k);
    }
    PayloadsArePlacedApart(shape.size, args, k, k + 1);
    forall j | 0 <= j < shape.size && Plain(shape, j) ensures after[start + j] == image[j] {
      assert before[start + j] == image[j];
    }
  }

  /** Slot and payload of argument `k` lie inside the frame. */
  lemma StaysInFrame(before: seq<byte>, after: seq<byte>, start: nat, shape: Shape, args: seq<Payload>, k: nat)
    requires ValidShape(shape) && ValidArgs(args) && k < |args| == |shape.slots|
    requires OnlyArgument(before, after, start, shape, args, k)
    ensures AgreeOutside(before, after, start, FrameSize(shape.size, args), start, 0)
  {
    PayloadsArePlacedApart(shape.size, args, k, k + 1);
  }

  lemma ArgumentPlaced(before: seq<byte>, after: seq<byte>, start: nat, shape: Shape, image: seq<byte>,
                       args: seq<Payload>, k: nat)
    requires ValidShape(shape) && ValidArgs(args) && k < |args| == |shape.slots| && |image| == shape.size
    requires start + shape.size <= |before| == |after| && Filled(before, start, shape, image, args, k)
    requires OnlyArgument(before, after, start, shape, args, k)
    requires shape.slots[k] <= Offset(shape.size, args, k)
    requires Described(after, start + shape.slots[k], |args[k].data|, Offset(shape.size, args, k) - shape.slots[k])
    requires Holds(after, start + Offset(shape.size, args, k), args[k].data)
    ensures Filled(after, start, shape, image, args, k + 1)
    ensures AgreeOutside(before, after, start, FrameSize(shape.size, args), start, 0)
  {
    FilledStep(before, after, start, shape, image, args, k);
    StaysInFrame(before, after, start, shape, args, k);
  }

  /** Everything the constructor of argument `k` relies on. */
  lemma ArgumentFits(start: nat, shape: Shape, args: seq<Payload>, k: nat)
    requires ValidShape(shape) && ValidArgs(args) && k < |args| == |shape.slots|
    requires start % FRAME_ALIGNMENT == 0 && VbSize(shape.size, args).Ok?
    ensures PlaceCheck(start, Span(shape.size, args[..k]), args[k]) == Ok(Offset(shape.size, args, k))
    ensures Span(shape.size, args[..k + 1]) == Offset(shape.size, args, k) + |args[k].data|
    ensures Span(shape.size, args[..k + 1]) <= FrameSize(shape.size, args)
    ensures shape.slots[k] + 16 <= shape.size <= Span(shape.size, args[..k]) <= Offset(shape.size, args, k)
  {
    PlacementNeverFails(start, shape.size, args, k);
    PayloadsArePlacedApart(shape.size, args, k, k + 1);
    SpanStep(shape.size, args, k);
    SpanGrows(shape.size, args, 0, k);
    AlignFacts(Span(shape.size, args[..k]), args[k].align);
  }

  /** Argument `k` is built: its constructor takes the running length and leaves the new one. */
  method PlaceArgument(mem: array<byte>, start: nat, shape: Shape, ghost image: seq<byte>, args: seq<Payload>, k: nat,
                       bytesToNext: nat)
    returns (next: nat)
    requires ValidShape(shape) && ValidArgs(args) && k < |args| == |shape.slots| && |image| == shape.size
    requires start % FRAME_ALIGNMENT == 0 && start + FrameSize(shape.size, args) <= mem.Length
    requires start + shape.size <= mem.Length
    requires VbSize(shape.size, args).Ok? && bytesToNext == Span(shape.size, args[..k])
    requires Filled(mem[..], start, shape, image, args, k)
    modifies mem
    ensures next == Span(shape.size, args[..k + 1])
    ensures Filled(mem[..], start, shape, image, args, k + 1)
    ensures OnlyTouches(mem, start, FrameSize(shape.size, args), start, 0)
  {
    ghost var before := mem[..];
    ArgumentFits(start, shape, args, k);
    var placed := PlaceBuffer(mem, start, shape.slots[k], bytesToNext, args[k]);
    assert OnlyArgument(before, mem[..], start, shape, args, k);
    ArgumentPlaced(before, mem[..], start, shape, image, args, k);
    return placed.value;
  }

  /** Magic and final length. */
  method StorePrefix(mem: array<byte>, start: nat, length: nat)
    requires start + 12 <= mem.Length && length <= UINT32_MAX
    modifies mem
    ensures U64(mem[..], start) == MAGIC && U32(mem[..], start + 8) == length
    ensures OnlyTouches(mem, start, 12, start, 0)
  {
    StoreU64(mem, start, MAGIC);
    ghost var marked := mem[..];
    StoreU32(mem, start + 8, length);
    SameSlice(marked, mem[..], start, start + 8);
  }

  lemma PrefixKeepsFilled(before: seq<byte>, after: seq<byte>, start: nat, shape: Shape, image: seq<byte>,
                          args: seq<Payload>)
    requires ValidShape(shape) && ValidArgs(args) && |args| == |shape.slots| && |image| == shape.size
    requires start + shape.size <= |before| == |after| && Filled(before, start, shape, image, args, |args|)
    requires AgreeOutside(before, after, start, 12, start, 0)
    ensures Filled(after, start, shape, image, args, |args|)
  {
    forall i | 0 <= i < |args| ensures Carries(after, start, shape, args, i) {
      CarriesKeptByPrefix(before, after, start, shape, args, i);
    }
  }

  /**
   Sizing, then construction in place at `start`, as the ring writer does it. Failure is decided by
   the sizing pass alone; otherwise the constructor produces exactly the announced length, the
   fields of fixed size are the given ones, and nothing outside the frame changes.
   */
  method WriteMessage(mem: array<byte>, start: nat, shape: Shape, image: seq<byte>, args: seq<Payload>)
    returns (r: Result<nat>)
    requires ValidShape(shape) && ValidArgs(args) && |args| == |shape.slots| && |image| == shape.size
    requires start % FRAME_ALIGNMENT == 0
    requires VbSize(shape.size, args).Ok? ==> start + shape.size + VbSize(shape.size, args).value <= mem.Length
    modifies mem
    ensures r.Ok? <==> VbSize(shape.size, args).Ok?
    ensures r.Err? ==> r.error == VbSize(shape.size, args).error && mem[..] == old(mem[..])
    ensures r.Ok? ==>
      && r.value == shape.size + VbSize(shape.size, args).value
      && start + shape.size <= mem.Length
      && Encodes(mem[..], start, shape, args)
      && (forall j :: 0 <= j < shape.size && Plain(shape, j) ==> mem[start + j] == image[j])
      && OnlyTouches(mem, start, r.value, start, 0)
  {
    var extra := VbSize(shape.size, args);
    if extra.Err? {
      return Err(extra.error);
    }
    SizingIsExact(shape.size, args);
    PrefixFits(shape.size, args, 0);
    AlignFacts(shape.size, FRAME_ALIGNMENT);
    StoreBytes(mem, start, image);
    ImageIsFilled(mem[..], start, shape, image, args);
    var bytesToNext := shape.size;
    for k := 0 to |args|
      invariant bytesToNext == Span(shape.size, args[..k])
      invariant Filled(mem[..], start, shape, image, args, k)
      invariant OnlyTouches(mem, start, FrameSize(shape.size, args), start, 0)
    {
      bytesToNext := PlaceArgument(mem, start, shape, image, args, k, bytesToNext);
    }
    assert args[..|args|] == args;
    var finished := FinishFrameSize(bytesToNext);
    ghost var filled := mem[..];
    StorePrefix(mem, start, finished.value);
    PrefixKeepsFilled(filled, mem[..], start, shape, image, args);
    return Ok(finished.value);
  }

  lemma ImageIsFilled(mem: seq<byte>, start: nat, shape: Shape, image: seq<byte>, args: seq<Payload>)
    requires |args| == |shape.slots| && |image| == shape.size && Holds(mem, start, image)
    ensures Filled(mem, start, shape, image, args, 0)
  {
    forall j | 0 <= j < shape.size ensures mem[start + j] == image[j] {
      assert mem[start..start + |image|][j] == image[j];
    }
  }

  /**
   copy_message_frame: refuses a length that cannot be a frame of a message with `size` fixed bytes;
   otherwise copies the fixed part and then the rest into storage of its own.
   */
  method CopyMessageFrame(mem: array<byte>, start: nat, size: nat) returns (ok: bool, copy: array<byte>)
    requires PREFIX_SIZE <= size && start + size <= mem.Length
    requires start + U32(mem[..], start + 8) <= mem.Length
    ensures var n := U32(mem[..], start + 8);
      && (ok <==> size <= n < FRAME_SIZE_LIMIT && n % FRAME_ALIGNMENT == 0)
      && (ok ==> copy[..] == mem[start..start + n])
    ensures fresh(copy)
  {
    ghost var original := mem[..];
    var n := U32(mem[..], start + 8);
    ok := size <= n < FRAME_SIZE_LIMIT && n % FRAME_ALIGNMENT == 0;
    if !ok {
      copy := new byte[0];
      assert mem[..] == original;
      return;
    }
    copy := new byte[n];
    forall j | 0 <= j < size { copy[j] := mem[start + j]; }
    forall j | size <= j < n { copy[j] := mem[start + j]; }
    assert mem[..] == original;
  }

  /** A frame the writer made is accepted by the copy, and the copy holds the same arguments. */
  lemma OwnedCopyIsFaithful(mem: seq<byte>, start: nat, shape: Shape, args: seq<Payload>, copy: seq<byte>, i: nat)
    requires ValidShape(shape) && ValidArgs(args) && i < |args| == |shape.slots|
    requires VbSize(shape.size, args).Ok? && Encodes(mem, start, shape, args)
    requires copy == mem[start..start + U32(mem, start + 8)]
    ensures var n := U32(mem, start + 8);
      shape.size <= n < FRAME_SIZE_LIMIT && n % FRAME_ALIGNMENT == 0
    ensures ReadBuffer(copy, shape.slots[i]) == Ok(args[i].data)
  {
    SizingIsExact(shape.size, args);
    PrefixFits(shape.size, args, 0);
    AlignFacts(Span(shape.size, args), FRAME_ALIGNMENT);
    AlignFacts(shape.size, FRAME_ALIGNMENT);
    assert copy[0..0 + |copy|] == copy;
    CopyEncodes(mem, start, copy, 0, shape, args);
    FrameIsReadBack(copy, 0, shape, args, i);
  }
}

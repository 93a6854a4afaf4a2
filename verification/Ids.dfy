/**
 Instance ids: eight process bits above fifty-six transceiver bits, with wildcards. An id is
 kept as its two parts; `Bits` is the 64-bit number the source passes around.
 */
module Ids {
  const SPAN := 0x100_0000_0000_0000
  const MAX_PROCESS_INDEX := 127
  const RESERVED_SERVICE_INSTANCES := 0x1000
  const ALL_REMOTE_PROCESSES := 254
  const ALL_PROCESSES := 255
  const ALL_TRANSCEIVERS := 0xFF_FFFF_FFFF_FFFF

  datatype Id = Id(process: nat, transceiver: nat)

  const ANY_LOCAL := Id(1, ALL_TRANSCEIVERS)
  const ANY_REMOTE := Id(ALL_REMOTE_PROCESSES, ALL_TRANSCEIVERS)
  const ANY_LOCAL_OR_REMOTE := Id(ALL_PROCESSES, ALL_TRANSCEIVERS)

  predicate InRange(id: Id) { id.process < 256 && id.transceiver < SPAN }

  /** compose_instance. */
  function Bits(id: Id): nat { id.process * SPAN + id.transceiver }

  /** decompose_instance. */
  function Parts(bits: nat): Id { Id(bits / SPAN, bits % SPAN) }

  /** The comparison of ids as 64-bit numbers. */
  predicate AtLeast(a: Id, b: Id) {
    a.process > b.process || (a.process == b.process && a.transceiver >= b.transceiver)
  }

  predicate IsService(id: Id) { 2 <= id.transceiver < 2 + RESERVED_SERVICE_INSTANCES }

  /** is_local_instance, in the process with index `self`. */
  predicate IsLocalInstance(id: Id, self: nat) { id.process == 1 || id.process == self }

  /** is_local: one or several local instances, complements and wildcards included. */
  predicate IsLocal(id: Id, self: nat) {
    var excluded := 255 - id.process;
    || IsLocalInstance(id, self)
    || (id.process > MAX_PROCESS_INDEX && excluded != 1 && excluded != self)
    || id.process == ALL_PROCESSES
  }

  predicate IsRealProcess(p: nat) { 2 <= p <= MAX_PROCESS_INDEX }

  /** The two-part view is faithful: composing and decomposing are inverse, and order is the number's order. */
  lemma PartsAreFaithful(a: Id, b: Id, bits: nat)
    requires InRange(a) && InRange(b)
    ensures Parts(Bits(a)) == a && Bits(Parts(bits)) == bits
    ensures Bits(a) < 0x1_0000_0000_0000_0000
    ensures AtLeast(a, b) <==> Bits(a) >= Bits(b)
  {
    if a.process > b.process {
      assert a.process * SPAN >= b.process * SPAN + SPAN;
    } else if a.process < b.process {
      assert b.process * SPAN >= a.process * SPAN + SPAN;
    }
  }

  /** The documented meaning of the process part, for a process with a real index. */
  lemma LocalityTable(id: Id, self: nat)
    requires IsRealProcess(self) && InRange(id)
    ensures IsLocal(id, self) <==>
      if id.process <= MAX_PROCESS_INDEX then id.process == 1 || id.process == self
      else id.process != ALL_REMOTE_PROCESSES && id.process != 255 - self
  {
  }
}

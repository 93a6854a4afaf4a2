/**
 The shared spinlock: an owner word and a generation word whose parity says "marked hold".
 A waiter takes over from an exited owner, and watches a live one through a witness that
 must never take two holds for one.
 */
module Spinlock {
  import opened Runs
  import opened Processes

  const UINT64_MAX := 0xFFFF_FFFF_FFFF_FFFF
  const CREDIT_CAP_NS := 20_000_000
  const STALL_TIMEOUT_NS := 2_000_000_000

  /** One owner read: the moment, what it saw, and (history) the tenure it fell in. */
  datatype Read = Read(at: nat, owner: Word, tenure: nat)

  /** One effort sample: the reported total and (history) its parts. */
  datatype Effort = Effort(ns: nat, cpu: nat, backoff: nat, sleeps: nat)

  datatype Witness = Witness(generation: nat, first: Read, start: Effort, last: nat)

  datatype Report = Report(w: Witness, final: Read, effort: Effort)

  /** Locals of one lock() call. `sleeps` is history. */
  datatype Wait = Wait(backoff: nat, sleeps: nat, watch: Option<Witness>)

  datatype Pc =
    | Outside
    | TryLoad
    | TryCas
    | MarkOdd
    | Inside
    | ZeroStore
    | Pause
    | TakeLoad
    | TakeProbe(seen: Word)
    | TakeBump(seen: Word)
    | TakeCas(seen: Word)
    | TakeMarkLoad
    | TakeMarkCas(actual: nat)
    | StartGeneration
    | StartOwner(generation: nat)
    | StartEffort(generation: nat, read: Read)
    | EndEffort
    | EndOwner(sample: Option<Effort>)
    | EndGeneration(sample: Option<Effort>, owner: Word)
    | FinalOwner(effort: Effort)
    | FinalGeneration(effort: Effort, read: Read, generationThen: nat)
    | Stalled(report: Report)

  datatype Local = Local(pc: Pc, wait: Wait)

  /** `tenure` counts holds, `holder` is the thread that took the owner word last, `clock` counts steps. */
  datatype State = State(world: World, owner: Word, generation: nat, threads: map<Thread, Local>,
                         tenure: nat, holder: Option<Thread>, clock: nat)

  /** What happens around one operation: time, scheduling, the CPU clock, a weak compare-and-swap. */
  datatype Env = Env(poll: bool, slept: Option<nat>, cpu: Option<nat>, debugPaused: bool, weakFails: bool)

  datatype Step =
    | SpawnProcess(i: Incarnation)
    | CrashProcess(i: Incarnation)
    | StartThread(t: Thread)
    | Lock(t: Thread)
    | Unlock(t: Thread)
    | Advance(t: Thread, p: Probe, e: Env)

  function Odd(n: nat): bool { n % 2 == 1 }

  function Go(s: State, t: Thread, l: Local): State { s.(threads := s.threads[t := l]) }

  /** The acquire compare-and-swap, its mark, and the second half of unlock. */
  function AcquireOp(s: State, t: Thread, wait: Wait): State
    requires t in s.threads
  {
    var self := Instance(t.inc);
    match s.threads[t].pc
    case TryLoad => Go(s, t, Local(if s.owner == ZERO then TryCas else Pause, wait))
    case TryCas =>
      if s.owner == ZERO
      then Go(s, t, Local(MarkOdd, wait)).(owner := self, tenure := s.tenure + 1, holder := Some(t))
      else Go(s, t, Local(Pause, wait))
    case MarkOdd => Go(s, t, Local(Inside, wait)).(generation := s.generation + 1)
    case ZeroStore => Go(s, t, Local(Outside, wait)).(owner := ZERO)
    case _ => s
  }

  function NoTakeover(wait: Wait): Local {
    Local(if wait.watch.None? then StartGeneration else EndEffort, wait)
  }

  /** Where try_take_over_exited_owner goes next. */
  function TakeoverLocal(s: State, t: Thread, wait: Wait, p: Probe, marked: bool): Local
    requires t in s.threads
  {
    match s.threads[t].pc
    case TakeLoad => if s.owner == ZERO then NoTakeover(wait) else Local(TakeProbe(s.owner), wait)
    case TakeProbe(seen) =>
      if InstanceHasExited(seen, Instance(t.inc), p) then Local(TakeBump(seen), wait) else NoTakeover(wait)
    case TakeBump(seen) => Local(TakeCas(seen), wait)
    case TakeCas(seen) => if s.owner == seen then Local(TakeMarkLoad, wait) else NoTakeover(wait)
    case TakeMarkLoad => Local(TakeMarkCas(s.generation), wait)
    case TakeMarkCas(_) => Local(if marked then Inside else TakeMarkCas(s.generation), wait)
    case _ => s.threads[t]
  }

  /** try_take_over_exited_owner: the bump by two, the taking compare-and-swap, the odd mark. */
  function TakeoverOp(s: State, t: Thread, wait: Wait, p: Probe, weakFails: bool): State
    requires t in s.threads
  {
    var pc := s.threads[t].pc;
    var takes := pc.TakeCas? && s.owner == pc.seen;
    var marks := pc.TakeMarkCas? && s.generation == pc.actual && !weakFails;
    Go(s, t, TakeoverLocal(s, t, wait, p, marks))
    .(generation := s.generation +
        (if pc.TakeBump? then 2 else if !marks then 0 else if Odd(s.generation) then 2 else 1),
      owner := if takes then Instance(t.inc) else s.owner,
      tenure := if takes then s.tenure + 1 else s.tenure,
      holder := if takes then Some(t) else s.holder)
  }

  function Credit(slept: nat): nat { if slept < CREDIT_CAP_NS then slept else CREDIT_CAP_NS }

  /** Pause or sleep once. Sleep credit is capped and the sum saturates. */
  function AfterPause(wait: Wait, slept: Option<nat>): Wait {
    if slept.None? then wait
    else
      var credit := Credit(slept.value);
      wait.(backoff := if wait.backoff < UINT64_MAX - credit then wait.backoff + credit else UINT64_MAX,
            sleeps := wait.sleeps + 1)
  }

  /** read_spinlock_waiter_effort: thread CPU plus sleep credit, unless the sum overflows. */
  function ReadEffort(wait: Wait, cpu: Option<nat>): Option<Effort> {
    if cpu.None? || cpu.value > UINT64_MAX - wait.backoff then None
    else Some(Effort(cpu.value + wait.backoff, cpu.value, wait.backoff, wait.sleeps))
  }

  function Retry(wait: Wait): Local { Local(TryLoad, wait.(watch := None)) }

  /** start_witness, advance_witness and the final confirmation in lock(). */
  function WitnessOp(s: State, t: Thread, wait: Wait, e: Env): Local
    requires t in s.threads
    requires wait.backoff <= UINT64_MAX
  {
    match s.threads[t].pc
    case StartGeneration => Local(StartOwner(s.generation), wait)
    case StartOwner(g) => Local(StartEffort(g, Read(s.clock, s.owner, s.tenure)), wait)
    case StartEffort(g, read) =>
      var effort := ReadEffort(wait, e.cpu);
      Local(TryLoad,
            if Odd(g) && read.owner != ZERO && effort.Some?
            then wait.(watch := Some(Witness(g, read, effort.value, effort.value.ns))) else wait)
    case EndEffort => Local(EndOwner(ReadEffort(wait, e.cpu)), wait)
    case EndOwner(effort) => Local(EndGeneration(effort, s.owner), wait)
    case EndGeneration(effort, owner) =>
      if effort.None? || wait.watch.None? then Retry(wait)
      else
        var w, now := wait.watch.value, effort.value;
        if now.ns < w.last || owner != w.first.owner || s.generation != w.generation then Retry(wait)
        else
          var wait' := wait.(watch := Some(w.(last := now.ns)));
          if now.ns - w.start.ns < STALL_TIMEOUT_NS then Local(TryLoad, wait')
          else if e.debugPaused then Retry(wait)
          else Local(FinalOwner(now), wait')
    case FinalOwner(effort) =>
      Local(FinalGeneration(effort, Read(s.clock, s.owner, s.tenure), s.generation), wait)
    case FinalGeneration(effort, read, _) =>
      if wait.watch.None? then Retry(wait)
      else
        var w := wait.watch.value;
        if read.owner == w.first.owner && s.generation == w.generation && w.first.owner == Instance(t.inc)
        then Local(Stalled(Report(w, read, effort)), wait)
        else Retry(wait)
    case _ => s.threads[t]
  }

  function AdvanceThread(s: State, t: Thread, p: Probe, e: Env): State
    requires t in s.threads && s.threads[t].wait.backoff <= UINT64_MAX
  {
    var wait := s.threads[t].wait;
    match s.threads[t].pc
    case TryLoad | TryCas | MarkOdd | ZeroStore => AcquireOp(s, t, wait)
    case Pause => Go(s, t, Local(if e.poll then TakeLoad else TryLoad, AfterPause(wait, e.slept)))
    case TakeLoad | TakeProbe(_) | TakeBump(_) | TakeCas(_) | TakeMarkLoad | TakeMarkCas(_) =>
      TakeoverOp(s, t, wait, p, e.weakFails)
    case Outside | Inside | Stalled(_) => s
    case _ => Go(s, t, WitnessOp(s, t, wait, e))
  }

  function Apply(s: State, step: Step): State
    requires step.Advance? ==> step.t in s.threads && s.threads[step.t].wait.backoff <= UINT64_MAX
    requires step.Unlock? ==> step.t in s.threads
  {
    var s' :=
      match step
      case SpawnProcess(i) => s.(world := Spawn(s.world, i))
      case CrashProcess(i) => s.(world := Crash(s.world, i))
      case StartThread(t) => Go(s, t, Local(Outside, Wait(0, 0, None)))
      case Lock(t) => Go(s, t, Local(TryLoad, Wait(0, 0, None)))
      case Unlock(t) => Go(s, t, s.threads[t].(pc := ZeroStore)).(generation := s.generation + 1)
      case Advance(t, p, e) => AdvanceThread(s, t, p, e);
    s'.(clock := s.clock + 1)
  }

  ghost predicate Live(s: State, t: Thread) { t in s.threads && t.inc in s.world.live }

  ghost predicate Enabled(s: State, step: Step) {
    match step
    case SpawnProcess(i) => CanSpawn(s.world, i)
    case CrashProcess(i) => i in s.world.live
    case StartThread(t) => t.inc in s.world.live && t !in s.threads
    case Lock(t) => Live(s, t) && s.threads[t].pc.Outside?
    case Unlock(t) => Live(s, t) && s.threads[t].pc.Inside?
    case Advance(t, p, e) => Live(s, t) && s.threads[t].wait.backoff <= UINT64_MAX && Sound(s.world, p)
  }

  ghost predicate Init(s: State) {
    s == State(World({}, {}), ZERO, 0, map[], 0, None, 0)
  }

  ghost predicate Next(s: State, s': State) {
    exists step :: Enabled(s, step) && s' == Apply(s, step)
  }

  // ---- The invariant ----

  /** From the acquire or takeover compare-and-swap to the zero store. */
  predicate Holding(pc: Pc) {
    pc.MarkOdd? || pc.Inside? || pc.ZeroStore? || pc.TakeMarkLoad? || pc.TakeMarkCas?
  }

  ghost predicate Well(s: State) {
    && ValidWorld(s.world)
    && (forall t :: t in s.threads ==> t.inc in Known(s.world) && s.threads[t].wait.backoff <= UINT64_MAX)
    && (s.owner != ZERO ==> Published(s.world, s.owner))
  }

  ghost predicate Exclusive(s: State) {
    forall t :: Live(s, t) && Holding(s.threads[t].pc) ==> s.owner == Instance(t.inc) && s.holder == Some(t)
  }

  ghost predicate Parity(s: State) {
    && (s.owner == ZERO ==> !Odd(s.generation))
    && forall t :: Live(s, t) ==>
         && (s.threads[t].pc.MarkOdd? || s.threads[t].pc.ZeroStore? ==> !Odd(s.generation))
         && (s.threads[t].pc.Inside? ==> Odd(s.generation))
  }

  /**
   While the generation still shows `g`, either the hold seen by `read` is still in progress,
   or its process exited, lost the lock to a takeover, and can never own it again.
   */
  ghost predicate SameHold(s: State, g: nat, read: Read) {
    && g <= s.generation
    && (s.generation == g && Odd(g) && read.owner != ZERO ==>
          || (s.owner == read.owner && s.tenure == read.tenure)
          || (s.owner != read.owner && Published(s.world, read.owner) && !IsLiveInstance(s.world, read.owner)))
  }

  /** Sleep credit since the witness started is at most the cap per sleep. */
  ghost predicate CreditBounded(wait: Wait, start: Effort) {
    && start.sleeps <= wait.sleeps
    && wait.backoff <= start.backoff + CREDIT_CAP_NS * (wait.sleeps - start.sleeps)
  }

  ghost predicate WitnessOk(s: State, wait: Wait) {
    wait.watch.Some? ==>
      var w := wait.watch.value;
      && Odd(w.generation) && w.first.owner != ZERO
      && SameHold(s, w.generation, w.first)
      && w.start.ns == w.start.cpu + w.start.backoff
      && CreditBounded(wait, w.start)
  }

  /** An effort sample taken since the last sleep of this wait. */
  ghost predicate Fresh(wait: Wait, e: Effort) {
    e.ns == e.cpu + e.backoff && e.backoff == wait.backoff && e.sleeps == wait.sleeps
  }

  ghost predicate Sustained(start: Effort, now: Effort) {
    now.ns - start.ns >= STALL_TIMEOUT_NS
  }

  ghost predicate LocalOk(s: State, t: Thread)
    requires t in s.threads
  {
    var wait := s.threads[t].wait;
    && WitnessOk(s, wait)
    && match s.threads[t].pc
       case TakeProbe(seen) => Published(s.world, seen)
       case TakeBump(seen) => Published(s.world, seen) && !IsLiveInstance(s.world, seen)
       case TakeCas(seen) => Published(s.world, seen) && !IsLiveInstance(s.world, seen)
       case StartOwner(g) => g <= s.generation
       case StartEffort(g, read) => SameHold(s, g, read)
       case EndOwner(effort) => effort.Some? ==> Fresh(wait, effort.value)
       case EndGeneration(effort, _) => effort.Some? ==> Fresh(wait, effort.value)
       case FinalOwner(effort) =>
         Fresh(wait, effort) && (wait.watch.Some? ==> Sustained(wait.watch.value.start, effort))
       case FinalGeneration(effort, read, g) =>
         && Fresh(wait, effort) && g <= s.generation
         && (wait.watch.Some? ==>
               && Sustained(wait.watch.value.start, effort)
               && wait.watch.value.generation <= g
               && (g == wait.watch.value.generation && read.owner == wait.watch.value.first.owner ==>
                     read.tenure == wait.watch.value.first.tenure))
       case Stalled(r) => ReportOk(t, r)
       case _ => true
  }

  /** What a stall report claims: one tenure of the waiter's own process, and enough effort. */
  ghost predicate ReportOk(t: Thread, r: Report) {
    && r.w.first.owner == r.final.owner == Instance(t.inc)
    && r.w.first.tenure == r.final.tenure
    && Odd(r.w.generation)
    && EffortOk(r.w.start, r.effort)
  }

  /**
   Both samples are thread CPU plus credited sleep, the credit since the start is at most the cap per
   sleep, and the effort itself has reached the timeout.
   */
  ghost predicate EffortOk(start: Effort, now: Effort) {
    && start.ns == start.cpu + start.backoff && now.ns == now.cpu + now.backoff
    && start.sleeps <= now.sleeps
    && now.backoff - start.backoff <= CREDIT_CAP_NS * (now.sleeps - start.sleeps)
    && now.ns - start.ns >= STALL_TIMEOUT_NS
  }

  ghost predicate Inv(s: State) {
    && Well(s)
    && Exclusive(s)
    && Parity(s)
    && LocalsOk(s)
  }

  ghost predicate LocalsOk(s: State) {
    forall t :: Live(s, t) ==> LocalOk(s, t)
  }

  // ---- Every step keeps the invariant ----

  /** No two holds ever look like one. */
  ghost predicate HoldsKeptApart(s: State, s': State) {
    && ExitsKept(s.world, s'.world)
    && s.generation <= s'.generation
    && forall g, read :: SameHold(s, g, read) ==> SameHold(s', g, read)
  }

  /**
   The owner word changes only under an even generation, beside a bump, or by a takeover
   from an exited process; each of these keeps holds apart.
   */
  lemma OwnerChangesKeepHoldsApart(s: State, s': State)
    requires ExitsKept(s.world, s'.world) && s.generation <= s'.generation
    requires
      || s.generation < s'.generation
      || (s'.owner == s.owner && s'.tenure == s.tenure)
      || !Odd(s.generation)
      || (Published(s.world, s.owner) && !IsLiveInstance(s.world, s.owner) && IsLiveInstance(s'.world, s'.owner))
    ensures HoldsKeptApart(s, s')
  {
    forall g, read | SameHold(s, g, read) ensures SameHold(s', g, read) {
    }
  }

  lemma OthersKeepLocal(s: State, s': State, u: Thread)
    requires Live(s, u) && LocalOk(s, u) && HoldsKeptApart(s, s')
    requires u in s'.threads && s'.threads[u] == s.threads[u]
    ensures LocalOk(s', u)
  {
  }

  /** A step of `t` keeps the invariant if it keeps the words' and `t`'s own part of it. */
  lemma MoveKeepsInv(s: State, s': State, t: Thread)
    requires Inv(s) && s'.world == s.world && t in s'.threads && t.inc in s.world.live
    requires s'.threads == s.threads[t := s'.threads[t]] && s'.threads[t].wait.backoff <= UINT64_MAX
    requires s'.owner != ZERO ==> Published(s.world, s'.owner)
    requires Exclusive(s') && Parity(s') && LocalOk(s', t) && HoldsKeptApart(s, s')
    ensures Inv(s')
  {
    forall u | Live(s', u) && u != t ensures LocalOk(s', u) {
      OthersKeepLocal(s, s', u);
    }
  }

  lemma SelfIsPublished(s: State, t: Thread)
    requires Well(s) && Live(s, t)
    ensures Published(s.world, Instance(t.inc)) && IsLiveInstance(s.world, Instance(t.inc)) && t.inc.pid > 0
  {
    assert t.inc in Known(s.world);
  }

  lemma AcquireOpKeepsWords(s: State, t: Thread)
    requires Exclusive(s) && Parity(s) && Live(s, t)
    requires forall u :: Live(s, u) ==> u.inc.pid > 0
    ensures Exclusive(AcquireOp(s, t, s.threads[t].wait)) && Parity(AcquireOp(s, t, s.threads[t].wait))
  {
  }

  lemma AcquireOpKeepsInv(s: State, t: Thread)
    requires Inv(s) && Live(s, t)
    ensures Inv(AcquireOp(s, t, s.threads[t].wait))
  {
    var s' := AcquireOp(s, t, s.threads[t].wait);
    SelfIsPublished(s, t);
    AcquireOpKeepsWords(s, t);
    OwnerChangesKeepHoldsApart(s, s');
    assert LocalOk(s, t);
    MoveKeepsInv(s, s', t);
  }

  lemma TakeoverOpKeepsExclusive(s: State, t: Thread, p: Probe, weakFails: bool)
    requires Exclusive(s) && Live(s, t) && t.inc.pid > 0
    requires s.threads[t].pc.TakeCas? ==> !IsLiveInstance(s.world, s.threads[t].pc.seen)
    ensures Exclusive(TakeoverOp(s, t, s.threads[t].wait, p, weakFails))
  {
  }

  predicate BeforeTake(pc: Pc) { pc.TakeLoad? || pc.TakeProbe? || pc.TakeBump? }

  lemma FailedTakeoverKeepsParity(s: State, t: Thread, p: Probe, weakFails: bool)
    requires Parity(s) && Live(s, t) && BeforeTake(s.threads[t].pc)
    ensures Parity(TakeoverOp(s, t, s.threads[t].wait, p, weakFails))
  {
  }

  lemma MarkKeepsParity(s: State, t: Thread, p: Probe, weakFails: bool)
    requires Exclusive(s) && Parity(s) && Live(s, t) && t.inc.pid > 0 && !BeforeTake(s.threads[t].pc)
    requires s.threads[t].pc.TakeCas? ==> !IsLiveInstance(s.world, s.threads[t].pc.seen)
    ensures Parity(TakeoverOp(s, t, s.threads[t].wait, p, weakFails))
  {
  }

  /** A failed takeover adds two, a successful one ends odd: neither disturbs the parity of a hold. */
  lemma TakeoverOpKeepsParity(s: State, t: Thread, p: Probe, weakFails: bool)
    requires Exclusive(s) && Parity(s) && Live(s, t) && t.inc.pid > 0
    requires s.threads[t].pc.TakeCas? ==> !IsLiveInstance(s.world, s.threads[t].pc.seen)
    ensures Parity(TakeoverOp(s, t, s.threads[t].wait, p, weakFails))
  {
    if BeforeTake(s.threads[t].pc) {
      FailedTakeoverKeepsParity(s, t, p, weakFails);
    } else {
      MarkKeepsParity(s, t, p, weakFails);
    }
  }

  /** What one operation of a takeover changes: its own thread, and the words only upward or to itself. */
  lemma TakeoverOpMoves(s: State, t: Thread, p: Probe, weakFails: bool)
    requires t in s.threads
    ensures var s' := TakeoverOp(s, t, s.threads[t].wait, p, weakFails);
      && s'.world == s.world && t in s'.threads && s'.threads == s.threads[t := s'.threads[t]]
      && s'.threads[t].wait == s.threads[t].wait
      && (s'.owner == s.owner || s'.owner == Instance(t.inc))
  {
  }

  lemma ProbeKeepsLocal(s: State, t: Thread, p: Probe, weakFails: bool)
    requires Well(s) && Live(s, t) && Sound(s.world, p) && LocalOk(s, t) && BeforeTake(s.threads[t].pc)
    requires HoldsKeptApart(s, TakeoverOp(s, t, s.threads[t].wait, p, weakFails))
    ensures LocalOk(TakeoverOp(s, t, s.threads[t].wait, p, weakFails), t)
  {
    var pc := s.threads[t].pc;
    if pc.TakeProbe? && InstanceHasExited(pc.seen, Instance(t.inc), p) {
      ExitedVerdictIsSound(s.world, pc.seen, t.inc, p);
    }
  }

  lemma TakeKeepsLocal(s: State, t: Thread, p: Probe, weakFails: bool)
    requires Live(s, t) && LocalOk(s, t) && !BeforeTake(s.threads[t].pc)
    requires HoldsKeptApart(s, TakeoverOp(s, t, s.threads[t].wait, p, weakFails))
    ensures LocalOk(TakeoverOp(s, t, s.threads[t].wait, p, weakFails), t)
  {
  }

  lemma TakeoverOpKeepsInv(s: State, t: Thread, p: Probe, weakFails: bool)
    requires Inv(s) && Live(s, t) && Sound(s.world, p)
    ensures Inv(TakeoverOp(s, t, s.threads[t].wait, p, weakFails))
  {
    SelfIsPublished(s, t);
    TakeoverOpMoves(s, t, p, weakFails);
    TakeoverKeepsHoldsApart(s, t, p, weakFails);
    TakeoverOpKeepsExclusive(s, t, p, weakFails);
    TakeoverOpKeepsParity(s, t, p, weakFails);
    if BeforeTake(s.threads[t].pc) {
      ProbeKeepsLocal(s, t, p, weakFails);
    } else {
      TakeKeepsLocal(s, t, p, weakFails);
    }
    MoveKeepsInv(s, TakeoverOp(s, t, s.threads[t].wait, p, weakFails), t);
  }

  lemma StartKeepsLocal(s: State, t: Thread, e: Env)
    requires t in s.threads && LocalOk(s, t) && s.threads[t].wait.backoff <= UINT64_MAX
    requires s.threads[t].pc.StartGeneration? || s.threads[t].pc.StartOwner? || s.threads[t].pc.StartEffort?
    ensures LocalOk(Go(s, t, WitnessOp(s, t, s.threads[t].wait, e)), t)
  {
    var s' := Go(s, t, WitnessOp(s, t, s.threads[t].wait, e));
    assert forall g, read :: SameHold(s, g, read) ==> SameHold(s', g, read);
  }

  lemma EndKeepsLocal(s: State, t: Thread, e: Env)
    requires t in s.threads && LocalOk(s, t) && s.threads[t].wait.backoff <= UINT64_MAX
    requires s.threads[t].pc.EndEffort? || s.threads[t].pc.EndOwner? || s.threads[t].pc.EndGeneration?
    ensures LocalOk(Go(s, t, WitnessOp(s, t, s.threads[t].wait, e)), t)
  {
    var s' := Go(s, t, WitnessOp(s, t, s.threads[t].wait, e));
    assert forall g, read :: SameHold(s, g, read) ==> SameHold(s', g, read);
  }

  /** The final confirmation accepts only the hold the witness started in. */
  lemma FinalKeepsLocal(s: State, t: Thread, e: Env)
    requires t in s.threads && LocalOk(s, t) && s.threads[t].wait.backoff <= UINT64_MAX
    requires s.threads[t].pc.FinalOwner? || s.threads[t].pc.FinalGeneration?
    ensures LocalOk(Go(s, t, WitnessOp(s, t, s.threads[t].wait, e)), t)
  {
    var s' := Go(s, t, WitnessOp(s, t, s.threads[t].wait, e));
    assert forall g, read :: SameHold(s, g, read) ==> SameHold(s', g, read);
  }

  predicate Watching(pc: Pc) {
    pc.StartGeneration? || pc.StartOwner? || pc.StartEffort? || pc.EndEffort? || pc.EndOwner? ||
    pc.EndGeneration? || pc.FinalOwner? || pc.FinalGeneration?
  }

  /** Waiting never touches the words. */
  lemma WaitKeepsInv(s: State, t: Thread, l: Local)
    requires Inv(s) && Live(s, t) && !Holding(l.pc) && l.wait.backoff <= UINT64_MAX
    requires LocalOk(Go(s, t, l), t)
    ensures Inv(Go(s, t, l))
  {
    OwnerChangesKeepHoldsApart(s, Go(s, t, l));
    MoveKeepsInv(s, Go(s, t, l), t);
  }

  lemma WitnessOpKeepsInv(s: State, t: Thread, e: Env)
    requires Inv(s) && Live(s, t) && Watching(s.threads[t].pc)
    ensures Inv(Go(s, t, WitnessOp(s, t, s.threads[t].wait, e)))
  {
    match s.threads[t].pc {
      case StartGeneration | StartOwner(_) | StartEffort(_, _) => StartKeepsLocal(s, t, e);
      case EndEffort | EndOwner(_) | EndGeneration(_, _) => EndKeepsLocal(s, t, e);
      case FinalOwner(_) | FinalGeneration(_, _, _) => FinalKeepsLocal(s, t, e);
    }
    WaitKeepsInv(s, t, WitnessOp(s, t, s.threads[t].wait, e));
  }

  lemma PauseKeepsInv(s: State, t: Thread, e: Env)
    requires Inv(s) && Live(s, t) && s.threads[t].pc.Pause?
    ensures Inv(Go(s, t, Local(if e.poll then TakeLoad else TryLoad, AfterPause(s.threads[t].wait, e.slept))))
  {
    var l := Local(if e.poll then TakeLoad else TryLoad, AfterPause(s.threads[t].wait, e.slept));
    assert LocalOk(s, t);
    assert forall g, read :: SameHold(s, g, read) ==> SameHold(Go(s, t, l), g, read);
    WaitKeepsInv(s, t, l);
  }

  lemma UnlockKeepsWords(s: State, t: Thread)
    requires Exclusive(s) && Parity(s) && Live(s, t) && s.threads[t].pc.Inside?
    requires forall u :: Live(s, u) ==> u.inc.pid > 0
    ensures Exclusive(Apply(s, Unlock(t))) && Parity(Apply(s, Unlock(t)))
  {
  }

  lemma UnlockKeepsInv(s: State, t: Thread)
    requires Inv(s) && Enabled(s, Unlock(t))
    ensures Inv(Apply(s, Unlock(t)))
  {
    UnlockKeepsWords(s, t);
    OwnerChangesKeepHoldsApart(s, Apply(s, Unlock(t)));
    assert LocalOk(s, t);
    MoveKeepsInv(s, Apply(s, Unlock(t)), t);
  }

  /** A thread of this process appears outside, or enters lock(): no word changes. */
  lemma EntryKeepsWords(s: State, s': State, t: Thread, l: Local)
    requires Exclusive(s) && Parity(s) && s'.world == s.world && s'.threads == s.threads[t := l]
    requires s'.owner == s.owner && s'.generation == s.generation && s'.holder == s.holder
    requires l.pc.Outside? || l.pc.TryLoad?
    ensures Exclusive(s') && Parity(s')
  {
  }

  lemma CallKeepsInv(s: State, step: Step)
    requires Inv(s) && Enabled(s, step) && (step.StartThread? || step.Lock?)
    ensures Inv(Apply(s, step))
  {
    var s' := Apply(s, step);
    var l := s'.threads[step.t];
    assert s'.threads == s.threads[step.t := l] && l.wait == Wait(0, 0, None);
    EntryKeepsWords(s, s', step.t, l);
    OwnerChangesKeepHoldsApart(s, s');
    MoveKeepsInv(s, s', step.t);
  }

  lemma {:induction false} SameViewKeepsInv(s: State, s': State)
    requires Inv(s) && ValidWorld(s'.world) && ExitsKept(s.world, s'.world)
    requires s'.world.live <= s.world.live || s.world.live <= s'.world.live
    requires Known(s.world) <= Known(s'.world)
    requires forall u :: Live(s', u) ==> Live(s, u)
    requires s'.(world := s.world, clock := s.clock) == s
    ensures Inv(s')
  {
    OwnerChangesKeepHoldsApart(s, s');
    forall u | Live(s', u) ensures LocalOk(s', u) {
      OthersKeepLocal(s, s', u);
    }
  }

  lemma WorldStepKeepsInv(s: State, step: Step)
    requires Inv(s) && Enabled(s, step) && (step.SpawnProcess? || step.CrashProcess?)
    ensures Inv(Apply(s, step))
  {
    WorldStepKeepsExits(s.world, Apply(s, step).world, step.i);
    SameViewKeepsInv(s, Apply(s, step));
  }

  lemma AdvanceKeepsInv(s: State, t: Thread, p: Probe, e: Env)
    requires Inv(s) && Enabled(s, Advance(t, p, e))
    ensures Inv(AdvanceThread(s, t, p, e))
  {
    var s' := AdvanceIsOneOp(s, t, p, e);
    AcquireOpKeepsInv(s, t);
    TakeoverOpKeepsInv(s, t, p, e.weakFails);
    if s.threads[t].pc.Pause? {
      PauseKeepsInv(s, t, e);
    }
    if Watching(s.threads[t].pc) {
      WitnessOpKeepsInv(s, t, e);
    }
  }

  lemma AdvanceIsOneOp(s: State, t: Thread, p: Probe, e: Env) returns (s': State)
    requires t in s.threads && s.threads[t].wait.backoff <= UINT64_MAX
    ensures s' == AdvanceThread(s, t, p, e)
    ensures
      || s' == s
      || s' == AcquireOp(s, t, s.threads[t].wait)
      || s' == TakeoverOp(s, t, s.threads[t].wait, p, e.weakFails)
      || (s.threads[t].pc.Pause? &&
          s' == Go(s, t, Local(if e.poll then TakeLoad else TryLoad, AfterPause(s.threads[t].wait, e.slept))))
      || (Watching(s.threads[t].pc) && s' == Go(s, t, WitnessOp(s, t, s.threads[t].wait, e)))
  {
    s' := AdvanceThread(s, t, p, e);
  }

  lemma ApplyKeepsInv(s: State, step: Step)
    requires Inv(s) && Enabled(s, step)
    ensures Inv(Apply(s, step))
  {
    match step
    case SpawnProcess(_) => WorldStepKeepsInv(s, step);
    case CrashProcess(_) => WorldStepKeepsInv(s, step);
    case Advance(t, p, e) =>
      AdvanceKeepsInv(s, t, p, e);
      SameViewKeepsInv(AdvanceThread(s, t, p, e), Apply(s, step));
    case Unlock(t) => UnlockKeepsInv(s, t);
    case _ => CallKeepsInv(s, step);
  }

  // ---- Safety over every run ----

  lemma ReachableInv(run: seq<State>, k: nat)
    requires IsRun(Init, Next, run) && k < |run|
    ensures Inv(run[k])
  {
    forall s, s' | Inv(s) && Next(s, s') ensures Inv(s') {
      var step :| Enabled(s, step) && s' == Apply(s, step);
      ApplyKeepsInv(s, step);
    }
    InvariantHolds(Init, Next, Inv, run, k);
  }

  /**
   Mutual exclusion with takeover: at most one live thread is inside, the owner word is its
   process, an open lock shows an even generation and a marked hold an odd one.
   */
  lemma MutualExclusion(run: seq<State>, k: nat, t: Thread, u: Thread)
    requires IsRun(Init, Next, run) && k < |run|
    requires Live(run[k], t) && Live(run[k], u)
    ensures Holding(run[k].threads[t].pc) && Holding(run[k].threads[u].pc) ==> t == u
    ensures Holding(run[k].threads[t].pc) ==> run[k].owner == Instance(t.inc)
    ensures run[k].threads[t].pc.Inside? ==> Odd(run[k].generation)
    ensures run[k].owner == ZERO ==> !Odd(run[k].generation)
  {
    ReachableInv(run, k);
  }

  // ---- One tenure, seen over time ----

  /** The owner word changes to another process only with a new tenure; within one it can only clear. */
  lemma StepWithinTenure(s: State, s': State)
    requires Next(s, s')
    ensures s'.clock == s.clock + 1
    ensures s.generation <= s'.generation && s.tenure <= s'.tenure
    ensures s'.tenure == s.tenure ==> s'.owner == s.owner || s'.owner == ZERO
  {
    var step :| Enabled(s, step) && s' == Apply(s, step);
    if step.Advance? {
      var a := AdvanceIsOneOp(s, step.t, step.p, step.e);
    }
  }

  lemma {:induction false} TenureIsUnbroken(run: seq<State>, i: nat, j: nat, m: nat)
    requires IsRun(Init, Next, run) && i <= j <= m < |run|
    ensures run[i].generation <= run[j].generation <= run[m].generation
    ensures run[i].tenure <= run[j].tenure <= run[m].tenure
    ensures run[j].tenure == run[m].tenure && run[m].owner != ZERO ==> run[j].owner == run[m].owner
    decreases m - i
  {
    if i < j {
      RunStep(Init, Next, run, i + 1);
      StepWithinTenure(run[i], run[i + 1]);
      TenureIsUnbroken(run, i + 1, j, m);
    } else if j < m {
      RunStep(Init, Next, run, m);
      StepWithinTenure(run[m - 1], run[m]);
      TenureIsUnbroken(run, i, j, m - 1);
    }
  }

  lemma AcquireKeepsHoldsApart(s: State, t: Thread)
    requires Live(s, t) && ValidWorld(s.world) && Parity(s)
    ensures HoldsKeptApart(s, AcquireOp(s, t, s.threads[t].wait))
  {
    OwnerChangesKeepHoldsApart(s, AcquireOp(s, t, s.threads[t].wait));
  }

  lemma TakeoverKeepsHoldsApart(s: State, t: Thread, p: Probe, weakFails: bool)
    requires Live(s, t) && Well(s) && LocalOk(s, t)
    ensures HoldsKeptApart(s, TakeoverOp(s, t, s.threads[t].wait, p, weakFails))
  {
    SelfIsPublished(s, t);
    OwnerChangesKeepHoldsApart(s, TakeoverOp(s, t, s.threads[t].wait, p, weakFails));
  }

  lemma AdvanceKeepsHoldsApart(s: State, t: Thread, p: Probe, e: Env)
    requires Inv(s) && Live(s, t)
    ensures HoldsKeptApart(s, AdvanceThread(s, t, p, e))
  {
    var s' := AdvanceIsOneOp(s, t, p, e);
    if s' == AcquireOp(s, t, s.threads[t].wait) {
      AcquireKeepsHoldsApart(s, t);
    } else if s' == TakeoverOp(s, t, s.threads[t].wait, p, e.weakFails) {
      TakeoverKeepsHoldsApart(s, t, p, e.weakFails);
    } else {
      OwnerChangesKeepHoldsApart(s, s');
    }
  }

  lemma StepKeepsHoldsApart(s: State, s': State)
    requires Inv(s) && Next(s, s')
    ensures HoldsKeptApart(s, s')
  {
    var step :| Enabled(s, step) && s' == Apply(s, step);
    match step
    case Advance(t, p, e) => AdvanceKeepsHoldsApart(s, t, p, e);
    case _ => OtherStepsKeepHoldsApart(s, step);
  }

  lemma OtherStepsKeepHoldsApart(s: State, step: Step)
    requires ValidWorld(s.world) && Enabled(s, step) && !step.Advance?
    ensures HoldsKeptApart(s, Apply(s, step))
  {
    if step.SpawnProcess? || step.CrashProcess? {
      WorldStepKeepsExits(s.world, Apply(s, step).world, step.i);
    }
    OwnerChangesKeepHoldsApart(s, Apply(s, step));
  }

  lemma {:induction false} HoldIsRemembered(run: seq<State>, i: nat, j: nat, g: nat, read: Read)
    requires IsRun(Init, Next, run) && i <= j < |run| && SameHold(run[i], g, read)
    ensures SameHold(run[j], g, read)
    decreases j
  {
    if i < j {
      HoldIsRemembered(run, i, j - 1, g, read);
      ReachableInv(run, j - 1);
      RunStep(Init, Next, run, j);
      StepKeepsHoldsApart(run[j - 1], run[j]);
    }
  }

  /**
   No two marked holds look alike: if an odd generation and a nonzero owner are seen together at two
   moments of a run, both moments, and all between them, belong to one tenure of that owner.
   */
  lemma TwoHoldsNeverLookAlike(run: seq<State>, i: nat, m: nat, j: nat)
    requires IsRun(Init, Next, run) && i <= m <= j < |run|
    requires Odd(run[i].generation) && run[i].owner != ZERO
    requires run[j].generation == run[i].generation && run[j].owner == run[i].owner
    ensures run[i].tenure == run[m].tenure == run[j].tenure
    ensures run[m].owner == run[i].owner && run[m].generation == run[i].generation
  {
    HoldIsRemembered(run, i, j, run[i].generation, Read(i, run[i].owner, run[i].tenure));
    TenureIsUnbroken(run, i, m, j);
  }

  /** A recorded owner read happened, at the recorded moment of this run. */
  ghost predicate Happened(run: seq<State>, k: nat, r: Read) {
    && k <= |run|
    && r.at < k
    && run[r.at].owner == r.owner
    && run[r.at].tenure == r.tenure
  }

  ghost predicate Remembers(run: seq<State>, k: nat, l: Local) {
    && (l.wait.watch.Some? ==>
          && Happened(run, k, l.wait.watch.value.first)
          && l.wait.watch.value.generation <= run[l.wait.watch.value.first.at].generation)
    && match l.pc
       case StartEffort(g, read) => Happened(run, k, read) && g <= run[read.at].generation
       case FinalGeneration(_, read, g) =>
         && Happened(run, k, read) && run[read.at].generation == g
         && (l.wait.watch.Some? ==> l.wait.watch.value.first.at <= read.at)
       case Stalled(r) =>
         && Happened(run, k, r.w.first) && Happened(run, k, r.final) && r.w.first.at <= r.final.at
         && run[r.final.at].generation <= r.w.generation <= run[r.w.first.at].generation
       case _ => true
  }

  lemma WitnessOpRemembers(run: seq<State>, k: nat, t: Thread, e: Env)
    requires k < |run| && run[k].clock == k
    requires Live(run[k], t) && LocalOk(run[k], t) && run[k].threads[t].wait.backoff <= UINT64_MAX
    requires Remembers(run, k, run[k].threads[t])
    ensures Remembers(run, k + 1, WitnessOp(run[k], t, run[k].threads[t].wait, e))
  {
  }

  lemma AcquireRemembers(run: seq<State>, k: nat, t: Thread)
    requires k < |run| && t in run[k].threads
    requires Remembers(run, k, run[k].threads[t])
    ensures Remembers(run, k + 1, AcquireOp(run[k], t, run[k].threads[t].wait).threads[t])
  {
  }

  lemma TakeoverRemembers(run: seq<State>, k: nat, t: Thread, p: Probe, weakFails: bool)
    requires k < |run| && t in run[k].threads
    requires Remembers(run, k, run[k].threads[t])
    ensures Remembers(run, k + 1, TakeoverOp(run[k], t, run[k].threads[t].wait, p, weakFails).threads[t])
  {
  }

  lemma OtherOpsRemember(run: seq<State>, k: nat, t: Thread, p: Probe, e: Env)
    requires k < |run| && t in run[k].threads
    requires Remembers(run, k, run[k].threads[t])
    ensures Remembers(run, k + 1, AcquireOp(run[k], t, run[k].threads[t].wait).threads[t])
    ensures Remembers(run, k + 1, TakeoverOp(run[k], t, run[k].threads[t].wait, p, e.weakFails).threads[t])
    ensures run[k].threads[t].pc.Pause? ==>
      Remembers(run, k + 1, Local(if e.poll then TakeLoad else TryLoad, AfterPause(run[k].threads[t].wait, e.slept)))
    ensures Remembers(run, k + 1, run[k].threads[t])
    ensures run[k].threads[t].pc.Inside? ==> Remembers(run, k + 1, run[k].threads[t].(pc := ZeroStore))
  {
    AcquireRemembers(run, k, t);
    TakeoverRemembers(run, k, t, p, e.weakFails);
  }

  lemma AdvanceRemembers(run: seq<State>, k: nat, t: Thread, p: Probe, e: Env)
    requires k < |run| && run[k].clock == k
    requires Live(run[k], t) && LocalOk(run[k], t) && run[k].threads[t].wait.backoff <= UINT64_MAX
    requires Remembers(run, k, run[k].threads[t])
    ensures t in AdvanceThread(run[k], t, p, e).threads
    ensures Remembers(run, k + 1, AdvanceThread(run[k], t, p, e).threads[t])
  {
    var s' := AdvanceIsOneOp(run[k], t, p, e);
    OtherOpsRemember(run, k, t, p, e);
    if Watching(run[k].threads[t].pc) {
      WitnessOpRemembers(run, k, t, e);
    }
  }

  lemma AdvanceMovesOne(s: State, t: Thread, p: Probe, e: Env, u: Thread)
    requires t in s.threads && s.threads[t].wait.backoff <= UINT64_MAX && u != t
    ensures u in AdvanceThread(s, t, p, e).threads <==> u in s.threads
    ensures u in s.threads ==> AdvanceThread(s, t, p, e).threads[u] == s.threads[u]
  {
    var s' := AdvanceIsOneOp(s, t, p, e);
  }

  lemma StepRemembers(run: seq<State>, k: nat, step: Step, t: Thread)
    requires k + 1 < |run| && run[k].clock == k
    requires LocalsOk(run[k])
    requires Enabled(run[k], step) && run[k + 1] == Apply(run[k], step)
    requires t in run[k].threads ==> Remembers(run, k, run[k].threads[t])
    requires t in run[k + 1].threads
    ensures Remembers(run, k + 1, run[k + 1].threads[t])
  {
    if step.Advance? {
      if step.t == t {
        AdvanceRemembers(run, k, t, step.p, step.e);
      } else {
        AdvanceMovesOne(run[k], step.t, step.p, step.e, t);
      }
    }
  }

  ghost predicate AllRemember(run: seq<State>, k: nat) {
    && k < |run|
    && run[k].clock == k
    && forall t :: t in run[k].threads ==> Remembers(run, k, run[k].threads[t])
  }

  lemma {:induction false} RunRemembers(run: seq<State>, k: nat)
    requires IsRun(Init, Next, run) && k < |run|
    ensures AllRemember(run, k)
  {
    if k > 0 {
      RunRemembers(run, k - 1);
      ReachableLocals(run, k - 1);
      RunStep(Init, Next, run, k);
      RememberOneMore(run, k - 1, k);
    }
  }

  lemma RememberOneMore(run: seq<State>, k: nat, next: nat)
    requires next == k + 1 < |run| && AllRemember(run, k) && LocalsOk(run[k]) && Next(run[k], run[next])
    ensures AllRemember(run, next)
  {
    StepWithinTenure(run[k], run[next]);
    var step :| Enabled(run[k], step) && run[next] == Apply(run[k], step);
    forall t | t in run[next].threads ensures Remembers(run, next, run[next].threads[t]) {
      StepRemembers(run, k, step, t);
    }
  }

  lemma ReachableLocals(run: seq<State>, k: nat)
    requires IsRun(Init, Next, run) && k < |run|
    ensures LocalsOk(run[k])
  {
    ReachableInv(run, k);
  }

  lemma ReportIsOk(run: seq<State>, k: nat, t: Thread)
    requires IsRun(Init, Next, run) && k < |run|
    requires Live(run[k], t) && run[k].threads[t].pc.Stalled?
    ensures ReportOk(t, run[k].threads[t].pc.report) && t.inc.pid > 0
  {
    ReachableLocals(run, k);
    ReachableIdentity(run, k, t);
  }

  lemma ReachableIdentity(run: seq<State>, k: nat, t: Thread)
    requires IsRun(Init, Next, run) && k < |run| && Live(run[k], t)
    ensures t.inc.pid > 0
  {
    ReachableInv(run, k);
    SelfIsPublished(run[k], t);
  }

  /**
   Witness soundness: whenever a waiter reports a live-owner stall, then from the witness's
   first owner read to its last the lock was in one uninterrupted marked hold of the waiter's
   own process, and the effort since the start, thread CPU plus sleep credited up to its cap, is at
   least two seconds.
   */
  lemma StallReportIsSound(run: seq<State>, k: nat, t: Thread)
    requires IsRun(Init, Next, run) && k < |run|
    requires Live(run[k], t) && run[k].threads[t].pc.Stalled?
    ensures var r := run[k].threads[t].pc.report;
      && r.w.first.at <= r.final.at < k
      && (forall j :: r.w.first.at <= j <= r.final.at ==>
            && run[j].owner == Instance(t.inc)
            && run[j].tenure == r.w.first.tenure
            && run[j].generation == r.w.generation)
      && Odd(r.w.generation)
      && EffortOk(r.w.start, r.effort)
  {
    ReportIsOk(run, k, t);
    RunRemembers(run, k);
    var r := run[k].threads[t].pc.report;
    forall j | r.w.first.at <= j <= r.final.at
      ensures run[j].owner == Instance(t.inc) && run[j].tenure == r.w.first.tenure
      ensures run[j].generation == r.w.generation
    {
      TenureIsUnbroken(run, r.w.first.at, j, r.final.at);
    }
  }
}

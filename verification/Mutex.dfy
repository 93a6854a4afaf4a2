/**
 The process-robust mutex: an owner word, the tuple published beside it, and a
 recovery/publication gate. Every atomic operation is one step; any process can die
 between two steps and its PID can be taken by a later process.
 */
module Mutex {
  import opened Runs
  import opened Processes

  /** The shared words, in the order the object lays them out. */
  datatype Words = Words(owner: Word, stamp: nat, instance: Word, gate: Word)

  /** try_acquire publishes at most twice; `seen` is the owner word loaded in between. */
  datatype Attempt = First | Second(seen: Word)

  /** Why a thread wants the gate. */
  datatype Use = Publish(a: Attempt) | Recover(seen: Word) | CheckRecursion

  datatype Outcome = NotRun | Acquired | Busy | Deadlock

  /** The next atomic operation of a thread inside try_acquire. */
  datatype Pc =
    | Idle(last: Outcome)
    | GateLoad(use: Use)
    | GateProbe(use: Use, holder: Word)
    | GateReclaim(use: Use, holder: Word)
    | GateTake(use: Use)
    | PublishCheck(a: Attempt)
    | StoreStamp(a: Attempt)
    | StoreInstance(a: Attempt)
    | PublishCas(a: Attempt)
    | OwnerLoad
    | RecoverLoad(seen: Word)
    | RecoverStamp(seen: Word)
    | Judge(seen: Word, stored: nat)
    | QueryStamp(seen: Word, stored: nat)
    | RecoverCas(seen: Word)
    | RecursionOwner
    | RecursionInstance
    | GateRelease(use: Use, ok: bool)

  /**
   The last three fields are history: the threads between their own successful publication
   and their own successful unlock, the thread that published last, and the thread that
   took the gate last.
   */
  datatype State = State(world: World, w: Words, pcs: map<Thread, Pc>,
                         held: set<Thread>, tenure: Option<Thread>, inside: Option<Thread>)

  datatype Step =
    | SpawnProcess(i: Incarnation)
    | CrashProcess(i: Incarnation)
    | StartThread(t: Thread)
    | Call(t: Thread)
    | Unlock(t: Thread)
    | Advance(t: Thread, p: Probe, own: nat)

  // ---- The code of one thread ----

  function AfterRecovery(t: Thread, seen: Word): Pc {
    if seen == Token(t) then GateLoad(CheckRecursion) else Idle(Busy)
  }

  /** Where try_acquire goes once a gated section is over, or the gate was not obtained. */
  function Continue(t: Thread, use: Use, ok: bool): Pc {
    match use
    case Publish(First) => if ok then Idle(Acquired) else OwnerLoad
    case Publish(Second(seen)) => if ok then Idle(Acquired) else AfterRecovery(t, seen)
    case Recover(seen) => if ok then GateLoad(Publish(Second(seen))) else AfterRecovery(t, seen)
    case CheckRecursion => if ok then Idle(Deadlock) else Idle(Busy)
  }

  function Enter(use: Use): Pc {
    match use
    case Publish(a) => PublishCheck(a)
    case Recover(seen) => RecoverLoad(seen)
    case CheckRecursion => RecursionOwner
  }

  /** owner_generation_is_stale. */
  predicate OwnerStampIsStale(seen: Word, stored: nat, p: Probe) {
    && stored != 0
    && p.proves
    && p.stampOf(seen.hi).Some?
    && p.stampOf(seen.hi).value != stored
  }

  /** Taking, reclaiming and releasing the gate. */
  function GateOp(s: State, t: Thread, p: Probe): State
    requires t in s.pcs
  {
    var self := Instance(t.inc);
    match s.pcs[t]
    case GateLoad(u) => Go(s, t, if s.w.gate != ZERO then GateProbe(u, s.w.gate) else GateTake(u))
    case GateProbe(u, h) => Go(s, t, if InstanceHasExited(h, self, p) then GateReclaim(u, h) else GateTake(u))
    case GateReclaim(u, h) => Go(s, t, GateTake(u)).(w := if s.w.gate == h then s.w.(gate := ZERO) else s.w)
    case GateTake(u) =>
      if s.w.gate == ZERO then Go(s, t, Enter(u)).(w := s.w.(gate := self), inside := Some(t))
      else Go(s, t, Continue(t, u, false))
    case GateRelease(u, ok) =>
      Go(s, t, Continue(t, u, ok)).(w := if s.w.gate == self then s.w.(gate := ZERO) else s.w)
    case _ => s
  }

  /** try_acquire_unowned_when_no_recovery, under the gate. */
  function PublishOp(s: State, t: Thread, own: nat): State
    requires t in s.pcs
  {
    match s.pcs[t]
    case PublishCheck(a) =>
      Go(s, t, if s.w.owner != ZERO then GateRelease(Publish(a), false) else StoreStamp(a))
    case StoreStamp(a) => Go(s, t, StoreInstance(a)).(w := s.w.(stamp := own))
    case StoreInstance(a) => Go(s, t, PublishCas(a)).(w := s.w.(instance := Instance(t.inc)))
    case PublishCas(a) =>
      if s.w.owner == ZERO
      then Go(s, t, GateRelease(Publish(a), true))
           .(w := s.w.(owner := Token(t)), held := s.held + {t}, tenure := Some(t))
      else Go(s, t, GateRelease(Publish(a), false))
    case _ => s
  }

  /** try_recover and owner_has_exited, under the gate. */
  function RecoverOp(s: State, t: Thread, p: Probe): State
    requires t in s.pcs
  {
    match s.pcs[t]
    case RecoverLoad(seen) =>
      Go(s, t, if s.w.owner == ZERO then GateRelease(Recover(seen), true)
               else if s.w.owner == seen then RecoverStamp(seen) else GateRelease(Recover(seen), false))
    case RecoverStamp(seen) => Go(s, t, Judge(seen, s.w.stamp))
    case Judge(seen, stored) =>
      Go(s, t, if seen.hi == t.inc.pid
               then (if s.w.instance != Instance(t.inc) then RecoverCas(seen) else GateRelease(Recover(seen), false))
               else (if !p.alive(seen.hi) then RecoverCas(seen) else QueryStamp(seen, stored)))
    case QueryStamp(seen, stored) =>
      Go(s, t, if OwnerStampIsStale(seen, stored, p) then RecoverCas(seen) else GateRelease(Recover(seen), false))
    case RecoverCas(seen) =>
      if s.w.owner == seen then Go(s, t, GateRelease(Recover(seen), true)).(w := s.w.(owner := ZERO))
      else Go(s, t, GateRelease(Recover(seen), false))
    case _ => s
  }

  /** The owner load between the attempts, and the recursion check under the gate. */
  function OwnerOp(s: State, t: Thread): State
    requires t in s.pcs
  {
    match s.pcs[t]
    case OwnerLoad => Go(s, t, if s.w.owner != ZERO then GateLoad(Recover(s.w.owner)) else Idle(Busy))
    case RecursionOwner =>
      Go(s, t, if s.w.owner == Token(t) then RecursionInstance else GateRelease(CheckRecursion, false))
    case RecursionInstance => Go(s, t, GateRelease(CheckRecursion, s.w.instance == Instance(t.inc)))
    case _ => s
  }

  /** One atomic operation of `t`. `p` is what the system answers, `own` the stamp it reports for itself. */
  function AdvanceThread(s: State, t: Thread, p: Probe, own: nat): State
    requires t in s.pcs
  {
    match s.pcs[t]
    case Idle(_) => s
    case OwnerLoad | RecursionOwner | RecursionInstance => OwnerOp(s, t)
    case PublishCheck(_) | StoreStamp(_) | StoreInstance(_) | PublishCas(_) => PublishOp(s, t, own)
    case RecoverLoad(_) | RecoverStamp(_) | Judge(_, _) | QueryStamp(_, _) | RecoverCas(_) => RecoverOp(s, t, p)
    case GateLoad(_) | GateProbe(_, _) | GateReclaim(_, _) | GateTake(_) | GateRelease(_, _) => GateOp(s, t, p)
  }

  function Go(s: State, t: Thread, pc: Pc): State { s.(pcs := s.pcs[t := pc]) }

  function Apply(s: State, step: Step): State
    requires step.Advance? ==> step.t in s.pcs
  {
    match step
    case SpawnProcess(i) => s.(world := Spawn(s.world, i))
    case CrashProcess(i) => s.(world := Crash(s.world, i))
    case StartThread(t) => Go(s, t, Idle(NotRun))
    case Call(t) => Go(s, t, GateLoad(Publish(First)))
    case Unlock(t) =>
      if s.w.owner == Token(t) then s.(w := s.w.(owner := ZERO), held := s.held - {t}) else s
    case Advance(t, p, own) => AdvanceThread(s, t, p, own)
  }

  ghost predicate Live(s: State, t: Thread) { t in s.pcs && t.inc in s.world.live }

  ghost predicate Enabled(s: State, step: Step) {
    match step
    case SpawnProcess(i) => CanSpawn(s.world, i)
    case CrashProcess(i) => i in s.world.live
    case StartThread(t) => t.inc in s.world.live && t !in s.pcs
    case Call(t) => Live(s, t) && s.pcs[t].Idle?
    case Unlock(t) => Live(s, t) && s.pcs[t].Idle?
    case Advance(t, p, own) =>
      Live(s, t) && !s.pcs[t].Idle? && Sound(s.world, p) && (own == 0 || own == t.inc.stamp)
  }

  ghost predicate Init(s: State) {
    && s.world == World({}, {})
    && s.w == Words(ZERO, 0, ZERO, ZERO)
    && s.pcs == map[]
    && s.held == {}
    && s.tenure == None
    && s.inside == None
  }

  ghost predicate Next(s: State, s': State) {
    exists step :: Enabled(s, step) && s' == Apply(s, step)
  }

  // ---- The invariant ----

  predicate InGate(pc: Pc) {
    pc.PublishCheck? || pc.StoreStamp? || pc.StoreInstance? || pc.PublishCas? ||
    pc.RecoverLoad? || pc.RecoverStamp? || pc.Judge? || pc.QueryStamp? || pc.RecoverCas? ||
    pc.RecursionOwner? || pc.RecursionInstance? || pc.GateRelease?
  }

  ghost predicate Well(s: State) {
    && ValidWorld(s.world)
    && (forall t :: t in s.pcs ==> t.inc in Known(s.world))
    && s.held <= s.pcs.Keys
    && (s.w.gate != ZERO ==> Published(s.world, s.w.gate))
  }

  /** The gate has at most one live holder, and names that holder's process. */
  ghost predicate GateExclusive(s: State) {
    forall t :: Live(s, t) && InGate(s.pcs[t]) ==> s.w.gate == Instance(t.inc) && s.inside == Some(t)
  }

  /** A nonzero owner word sits beside its own tenure's stamp and instance. */
  ghost predicate OwnerTuple(s: State) {
    && (s.w.owner != ZERO ==>
         && s.tenure.Some?
         && var h := s.tenure.value;
           && h in s.pcs
           && s.w.owner == Token(h)
           && s.w.instance == Instance(h.inc)
           && (s.w.stamp == 0 || s.w.stamp == h.inc.stamp)
           && (Live(s, h) ==> h in s.held))
    && (forall t :: t in s.held && Live(s, t) ==> s.w.owner != ZERO && s.tenure == Some(t))
  }

  /** A live thread that holds the mutex under the owner word `seen`. */
  ghost predicate LiveHolderOf(s: State, seen: Word, h: Thread) {
    h in s.held && Live(s, h) && Token(h) == seen
  }

  ghost predicate StampFits(s: State, seen: Word, stored: nat) {
    forall h :: LiveHolderOf(s, seen, h) ==> stored == 0 || stored == h.inc.stamp
  }

  /** What a live thread may rely on at its next operation. */
  ghost predicate Local(s: State, t: Thread)
    requires t in s.pcs
  {
    match s.pcs[t]
    case GateProbe(_, h) => Published(s.world, h)
    case GateReclaim(_, h) => Published(s.world, h) && !IsLiveInstance(s.world, h)
    case StoreStamp(_) => s.w.owner == ZERO
    case StoreInstance(_) => s.w.owner == ZERO && (s.w.stamp == 0 || s.w.stamp == t.inc.stamp)
    case PublishCas(_) =>
      && s.w.owner == ZERO
      && (s.w.stamp == 0 || s.w.stamp == t.inc.stamp)
      && s.w.instance == Instance(t.inc)
    case Judge(seen, stored) => StampFits(s, seen, stored)
    case QueryStamp(seen, stored) => StampFits(s, seen, stored)
    case RecoverCas(seen) => forall h :: !LiveHolderOf(s, seen, h)
    case RecursionInstance => s.w.owner == Token(t)
    case GateRelease(CheckRecursion, ok) => ok ==> t in s.held
    case GateRelease(Publish(_), ok) => ok ==> t in s.held
    case _ => true
  }

  ghost predicate Inv(s: State) {
    && Well(s)
    && GateExclusive(s)
    && OwnerTuple(s)
    && forall t :: Live(s, t) ==> Local(s, t)
  }

  // ---- Every step keeps the invariant ----

  /** The gate protects what its holder relies on from every other thread. */
  ghost predicate GateProtects(s: State, s': State, u: Thread) {
    && s'.w.stamp == s.w.stamp
    && s'.w.instance == s.w.instance
    && (s'.w.owner == s.w.owner || (s'.w.owner == ZERO && s.w.owner != Token(u)))
    && s'.held <= s.held
    && (u in s.held ==> u in s'.held)
    && (forall h :: Live(s', h) && h in s.held ==> Live(s, h))
  }

  lemma OthersKeepLocal(s: State, s': State, u: Thread)
    requires Live(s, u) && Local(s, u)
    requires u in s'.pcs && s'.pcs[u] == s.pcs[u]
    requires ExitsKept(s.world, s'.world)
    requires InGate(s.pcs[u]) ==> GateProtects(s, s', u)
    ensures Local(s', u)
  {
    assert InGate(s.pcs[u]) ==> forall w, h :: LiveHolderOf(s', w, h) ==> LiveHolderOf(s, w, h);
  }

  lemma WorldStepKeepsInv(s: State, step: Step)
    requires Inv(s) && Enabled(s, step)
    requires step.SpawnProcess? || step.CrashProcess?
    ensures Inv(Apply(s, step))
  {
    var s' := Apply(s, step);
    WorldStepKeepsExits(s.world, s'.world, step.i);
    forall u | Live(s', u) ensures Local(s', u) {
      assert Live(s, u);
      OthersKeepLocal(s, s', u);
    }
  }

  /** A step of `t` alone keeps the invariant if it keeps gate, tuple and `t`'s own knowledge. */
  lemma MoveKeepsInv(s: State, s': State, t: Thread)
    requires Inv(s) && s'.world == s.world && t in s'.pcs && t.inc in s.world.live
    requires s'.pcs == s.pcs[t := s'.pcs[t]]
    requires s'.held <= s'.pcs.Keys && (s'.w.gate != ZERO ==> Published(s.world, s'.w.gate))
    requires GateExclusive(s') && OwnerTuple(s') && Local(s', t)
    requires forall u :: Live(s, u) && u != t && InGate(s.pcs[u]) ==> GateProtects(s, s', u)
    ensures Inv(s')
  {
    forall u | Live(s', u) && u != t ensures Local(s', u) {
      OthersKeepLocal(s, s', u);
    }
  }

  /** The gate changes hands only while nobody alive is behind it. */
  lemma GateOpKeepsExclusion(s: State, t: Thread, p: Probe)
    requires GateExclusive(s) && Live(s, t) && t.inc.pid > 0
    requires s.pcs[t].GateReclaim? ==> !IsLiveInstance(s.world, s.pcs[t].holder)
    requires forall u :: Live(s, u) ==> u.inc.pid > 0
    ensures GateExclusive(GateOp(s, t, p))
  {
    var s' := GateOp(s, t, p);
    forall u | Live(s', u) && u != t && InGate(s'.pcs[u]) ensures s'.w.gate == Instance(u.inc) && s'.inside == Some(u) {
      assert s'.pcs[u] == s.pcs[u];
    }
  }

  ghost predicate SameTenure(s: State, s': State) {
    && s'.w.owner == s.w.owner && s'.w.stamp == s.w.stamp && s'.w.instance == s.w.instance
    && s'.held == s.held && s'.tenure == s.tenure
  }

  /** A step of `t` that leaves owner word, tuple and holders alone. */
  lemma LoadKeepsInv(s: State, s': State, t: Thread)
    requires Inv(s) && Live(s, t) && SameTenure(s, s') && s'.world == s.world && t in s'.pcs
    requires s'.pcs == s.pcs[t := s'.pcs[t]]
    requires s'.w.gate != ZERO ==> Published(s.world, s'.w.gate)
    requires GateExclusive(s') && Local(s', t)
    ensures Inv(s')
  {
    MoveKeepsInv(s, s', t);
  }

  lemma GateOpKeepsLocal(s: State, t: Thread, p: Probe)
    requires Well(s) && Live(s, t) && Sound(s.world, p) && Local(s, t)
    ensures Local(GateOp(s, t, p), t)
  {
    var pc := s.pcs[t];
    if pc.GateProbe? && InstanceHasExited(pc.holder, Instance(t.inc), p) {
      ExitedVerdictIsSound(s.world, pc.holder, t.inc, p);
    }
  }

  lemma GateOpKeepsInv(s: State, t: Thread, p: Probe)
    requires Inv(s) && Live(s, t) && Sound(s.world, p)
    ensures Inv(GateOp(s, t, p))
  {
    assert Published(s.world, Instance(t.inc)) by { assert t.inc in Known(s.world); }
    GateOpKeepsExclusion(s, t, p);
    GateOpKeepsLocal(s, t, p);
    LoadKeepsInv(s, GateOp(s, t, p), t);
  }

  lemma PublishCheckKeepsInv(s: State, t: Thread, own: nat)
    requires Inv(s) && Live(s, t) && s.pcs[t].PublishCheck?
    ensures Inv(PublishOp(s, t, own))
  {
    LoadKeepsInv(s, PublishOp(s, t, own), t);
  }

  lemma PublishStoreKeepsInv(s: State, t: Thread, own: nat)
    requires Inv(s) && Live(s, t) && (own == 0 || own == t.inc.stamp)
    requires s.pcs[t].StoreStamp? || s.pcs[t].StoreInstance?
    ensures Inv(PublishOp(s, t, own))
  {
    MoveKeepsInv(s, PublishOp(s, t, own), t);
  }

  lemma PublishCasKeepsInv(s: State, t: Thread, own: nat)
    requires Inv(s) && Live(s, t) && s.pcs[t].PublishCas?
    ensures Inv(PublishOp(s, t, own))
  {
    PublishCasKeepsTuple(s, t, own);
    MoveKeepsInv(s, PublishOp(s, t, own), t);
  }

  lemma PublishOpKeepsInv(s: State, t: Thread, own: nat)
    requires Inv(s) && Live(s, t) && (own == 0 || own == t.inc.stamp)
    ensures Inv(PublishOp(s, t, own))
  {
    if s.pcs[t].PublishCheck? {
      PublishCheckKeepsInv(s, t, own);
    } else if s.pcs[t].PublishCas? {
      PublishCasKeepsInv(s, t, own);
    } else if s.pcs[t].StoreStamp? || s.pcs[t].StoreInstance? {
      PublishStoreKeepsInv(s, t, own);
    }
  }

  /** The publication compare-and-swap cannot fail, and publishes a complete tuple. */
  lemma PublishCasKeepsTuple(s: State, t: Thread, own: nat)
    requires Well(s) && OwnerTuple(s) && Live(s, t) && Local(s, t) && s.pcs[t].PublishCas?
    ensures var s' := PublishOp(s, t, own); OwnerTuple(s') && s'.w.owner == Token(t) && t in s'.held
  {
  }

  /** The verdict on the recorded owner is sound: no live thread holds the mutex under that word. */
  lemma VerdictIsSound(s: State, t: Thread, p: Probe)
    requires Well(s) && OwnerTuple(s) && Live(s, t) && Sound(s.world, p) && Local(s, t)
    ensures Local(RecoverOp(s, t, p), t)
  {
    var s' := RecoverOp(s, t, p);
    assert s.pcs[t].RecoverCas? || forall h, w :: LiveHolderOf(s', w, h) ==> LiveHolderOf(s, w, h);
    assert forall h, w :: LiveHolderOf(s, w, h) ==> s.w.owner == w && s.w.instance == Instance(h.inc);
  }

  lemma RecoverCasKeepsInv(s: State, t: Thread, p: Probe)
    requires Inv(s) && Live(s, t) && s.pcs[t].RecoverCas? && s.w.owner == s.pcs[t].seen
    ensures Inv(RecoverOp(s, t, p))
  {
    forall h | h in s.held && Live(s, h) ensures false {
      assert LiveHolderOf(s, s.pcs[t].seen, h);
    }
    MoveKeepsInv(s, RecoverOp(s, t, p), t);
  }

  lemma RecoverLoadKeepsInv(s: State, t: Thread, p: Probe)
    requires Inv(s) && Live(s, t) && Sound(s.world, p) && InGate(s.pcs[t])
    requires !(s.pcs[t].RecoverCas? && s.w.owner == s.pcs[t].seen)
    ensures Inv(RecoverOp(s, t, p))
  {
    VerdictIsSound(s, t, p);
    LoadKeepsInv(s, RecoverOp(s, t, p), t);
  }

  lemma RecoverOpKeepsInv(s: State, t: Thread, p: Probe)
    requires Inv(s) && Live(s, t) && Sound(s.world, p)
    ensures Inv(RecoverOp(s, t, p))
  {
    if s.pcs[t].RecoverCas? && s.w.owner == s.pcs[t].seen {
      RecoverCasKeepsInv(s, t, p);
    } else if InGate(s.pcs[t]) {
      RecoverLoadKeepsInv(s, t, p);
    }
  }

  lemma OwnerOpKeepsInv(s: State, t: Thread)
    requires Inv(s) && Live(s, t)
    ensures Inv(OwnerOp(s, t))
  {
    assert OwnerTuple(s) && Local(s, t);
    LoadKeepsInv(s, OwnerOp(s, t), t);
  }

  /** Any thread may call unlock; a thread that does not hold the mutex displaces nobody. */
  lemma UnlockKeepsInv(s: State, t: Thread)
    requires Inv(s) && Enabled(s, Unlock(t))
    ensures Inv(Apply(s, Unlock(t)))
  {
    if s.w.owner == Token(t) {
      MoveKeepsInv(s, Apply(s, Unlock(t)), t);
    }
  }

  lemma StartThreadKeepsInv(s: State, step: Step)
    requires Inv(s) && Enabled(s, step) && step.StartThread?
    ensures Inv(Apply(s, step))
  {
    MoveKeepsInv(s, Apply(s, step), step.t);
  }

  lemma StartKeepsInv(s: State, step: Step)
    requires Inv(s) && Enabled(s, step) && (step.StartThread? || step.Call?)
    ensures Inv(Apply(s, step))
  {
    if step.Call? {
      LoadKeepsInv(s, Apply(s, step), step.t);
    } else {
      StartThreadKeepsInv(s, step);
    }
  }

  lemma AdvanceKeepsInv(s: State, t: Thread, p: Probe, own: nat)
    requires Inv(s) && Enabled(s, Advance(t, p, own))
    ensures Inv(AdvanceThread(s, t, p, own))
  {
    var s' := AdvanceIsOneOp(s, t, p, own);
    OwnerOpKeepsInv(s, t);
    PublishOpKeepsInv(s, t, own);
    RecoverOpKeepsInv(s, t, p);
    GateOpKeepsInv(s, t, p);
  }

  lemma AdvanceIsOneOp(s: State, t: Thread, p: Probe, own: nat) returns (s': State)
    requires t in s.pcs
    ensures s' == AdvanceThread(s, t, p, own)
    ensures s' in {s, OwnerOp(s, t), PublishOp(s, t, own), RecoverOp(s, t, p), GateOp(s, t, p)}
  {
    s' := AdvanceThread(s, t, p, own);
  }

  lemma NextKeepsInv(s: State, s': State)
    requires Inv(s) && Next(s, s')
    ensures Inv(s')
  {
    var step :| Enabled(s, step) && s' == Apply(s, step);
    match step
    case SpawnProcess(_) => WorldStepKeepsInv(s, step);
    case CrashProcess(_) => WorldStepKeepsInv(s, step);
    case Advance(t, p, own) => AdvanceKeepsInv(s, t, p, own);
    case Unlock(t) => UnlockKeepsInv(s, t);
    case _ => StartKeepsInv(s, step);
  }

  // ---- Safety over every run ----

  lemma ReachableInv(run: seq<State>, k: nat)
    requires IsRun(Init, Next, run) && k < |run|
    ensures Inv(run[k])
  {
    forall s, s' | Inv(s) && Next(s, s') ensures Inv(s') {
      NextKeepsInv(s, s');
    }
    InvariantHolds(Init, Next, Inv, run, k);
  }

  /**
   Mutual exclusion: in every run, at most one live thread holds the mutex, at most one is
   behind the gate, and the owner word and its tuple are those of the live holder.
   */
  lemma MutualExclusion(run: seq<State>, k: nat, t: Thread, u: Thread)
    requires IsRun(Init, Next, run) && k < |run|
    requires Live(run[k], t) && Live(run[k], u)
    ensures t in run[k].held && u in run[k].held ==> t == u
    ensures InGate(run[k].pcs[t]) && InGate(run[k].pcs[u]) ==> t == u
    ensures t in run[k].held ==>
              && run[k].w.owner == Token(t)
              && run[k].w.instance == Instance(t.inc)
              && run[k].w.stamp in {0, t.inc.stamp}
  {
    ReachableInv(run, k);
  }

  lemma OnlyUnlockReleases(s: State, t: Thread, step: Step)
    requires t in s.held && Enabled(s, step) && step != Unlock(t)
    ensures t in Apply(s, step).held
  {
  }

  /**
   No live holder is displaced: whatever step comes next, a live holder still holds, unless
   the step is its own unlock, which succeeds, or the death of its process.
   */
  lemma HolderIsNeverDisplaced(run: seq<State>, k: nat, t: Thread, step: Step)
    requires IsRun(Init, Next, run) && k < |run|
    requires Live(run[k], t) && t in run[k].held && Enabled(run[k], step)
    ensures step == Unlock(t) ==> Apply(run[k], step).w.owner == ZERO && t !in Apply(run[k], step).held
    ensures step != Unlock(t) && Live(Apply(run[k], step), t) ==>
              t in Apply(run[k], step).held && Apply(run[k], step).w.owner == Token(t)
  {
    ReachableInv(run, k);
    var s' := Apply(run[k], step);
    assert Next(run[k], s');
    NextKeepsInv(run[k], s');
    if step != Unlock(t) {
      OnlyUnlockReleases(run[k], t, step);
    }
  }

  /** The publication compare-and-swap never fails: nobody moves the owner off zero without the gate. */
  lemma PublicationNeverFails(run: seq<State>, k: nat, t: Thread, own: nat)
    requires IsRun(Init, Next, run) && k < |run|
    requires Live(run[k], t) && run[k].pcs[t].PublishCas?
    ensures PublishOp(run[k], t, own).w.owner == Token(t) && t in PublishOp(run[k], t, own).held
  {
    ReachableInv(run, k);
  }

  /**
   The recursion error is exact: when the gated check answers "recursive", the thread really
   holds the mutex; when it holds, the check cannot answer otherwise. An owner left by an
   earlier process with the same PID and TID is never taken for recursion.
   */
  lemma RecursionErrorIsExact(run: seq<State>, k: nat, t: Thread, p: Probe, own: nat)
    requires IsRun(Init, Next, run) && k < |run|
    requires Live(run[k], t)
    ensures run[k].pcs[t] == GateRelease(CheckRecursion, true) ==> t in run[k].held
    ensures run[k].pcs[t].RecursionOwner? ==>
              (AdvanceThread(run[k], t, p, own).pcs[t].RecursionInstance? <==> run[k].w.owner == Token(t))
    ensures run[k].pcs[t].RecursionInstance? ==>
              (AdvanceThread(run[k], t, p, own).pcs[t] == GateRelease(CheckRecursion, true) <==> t in run[k].held)
    ensures run[k].w.owner == Token(t) && t !in run[k].held ==> run[k].w.instance != Instance(t.inc)
  {
    ReachableInv(run, k);
  }
}

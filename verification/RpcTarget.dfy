/**
 The lifetime of one RPC target: execution guards taken through the per-function instance maps,
 release, and ensure_rpc_shutdown, called by the destructor and by explicit destroy() calls.
 A critical section of the lifecycle mutex is one step; the map locks are held across steps.
 */
module RpcTarget {
  import opened Runs

  type Tid = nat
  type Fn = nat
  type Guard = nat

  /** Who shuts down: the destructor, which has emptied the maps first, or an explicit destroy(). */
  datatype Caller = Destructor | Explicit

  /** The next operation of a thread. `Looked` and `Unlocking` hold the map lock of `f`. */
  datatype Pc =
    | Outside
    | Looked(f: Fn, found: bool)
    | Unlocking(f: Fn)
    | Releasing(g: Guard)
    | Erasing
    | Check(caller: Caller)
    | Enter(caller: Caller)
    | AwaitZero(caller: Caller)
    | AwaitComplete(caller: Caller)
    | Done(caller: Caller)

  /** `recorded` is the part of tl_executing_rpc_targets that names this object. */
  datatype Local = Local(pc: Pc, recorded: set<Guard>)

  /**
   `live` maps every guard that exists to its thread; it and `issued`, `requester` and `destroyer`
   are history. `active` is the count the source keeps.
   */
  datatype Target = Target(
    mapped: set<Fn>, mapLock: map<Fn, Tid>,
    accepting: bool, requested: bool, complete: bool, active: int, freed: bool,
    threads: map<Tid, Local>,
    live: map<Guard, Tid>, issued: set<Guard>, requester: Option<Tid>, destroyer: Option<Tid>)

  datatype Step =
    | Lookup(t: Tid, f: Fn)
    | TryAcquire(t: Tid, g: Guard)
    | UnlockMap(t: Tid)
    | BeginRelease(t: Tid, g: Guard)
    | FinishRelease(t: Tid)
    | Destruct(t: Tid)
    | EraseOne(t: Tid, f: Fn)
    | CallShutdown(t: Tid)
    | Shutdown(t: Tid)
    | Return(t: Tid)

  function At(s: Target, t: Tid): Local { if t in s.threads then s.threads[t] else Local(Outside, {}) }

  function Put(s: Target, t: Tid, l: Local): Target { s.(threads := s.threads[t := l]) }

  function Goto(s: Target, t: Tid, pc: Pc): Target { Put(s, t, At(s, t).(pc := pc)) }

  ghost predicate Init(s: Target) {
    s == Target(s.mapped, map[], true, false, false, 0, false, map[], map[], {}, None, None)
  }

  /** `Destruct` starts once. An explicit shutdown begins only before it, but may still be under way when it returns. */
  ghost predicate Enabled(s: Target, step: Step) {
    var l := At(s, step.t);
    match step
    case Lookup(t, f) => l.pc == Outside && f !in s.mapLock
    case TryAcquire(t, g) => l.pc.Looked? && g !in s.issued
    case UnlockMap(t) => l.pc.Unlocking?
    case BeginRelease(t, g) => l.pc == Outside && g in l.recorded
    case FinishRelease(t) => l.pc.Releasing?
    case Destruct(t) => l.pc == Outside && s.destroyer.None?
    case EraseOne(t, f) => l.pc == Erasing && f in s.mapped && f !in s.mapLock
    case CallShutdown(t) => (l.pc == Outside && s.destroyer.None?) || (l.pc == Erasing && s.mapped == {})
    case Shutdown(t) =>
      || l.pc.Check? || l.pc.Enter?
      || (l.pc.AwaitZero? && s.active == 0)
      || (l.pc.AwaitComplete? && s.complete)
    case Return(t) =>
      || l.pc == Done(Explicit)
      || (l.pc == Done(Destructor) && !s.freed)
  }

  predicate InShutdown(pc: Pc) { pc.Check? || pc.Enter? || pc.AwaitZero? || pc.AwaitComplete? || pc.Done? }

  /** acquire_rpc_target, the guard's destructor and the map erasures. */
  function GuardOp(s: Target, step: Step): Target {
    var l := At(s, step.t);
    match step
    case Lookup(t, f) => Goto(s, t, Looked(f, f in s.mapped)).(mapLock := s.mapLock[f := t])
    case TryAcquire(t, g) =>
      if !l.pc.Looked? then s
      else if !l.pc.found || !s.accepting then Goto(s, t, Unlocking(l.pc.f))
      else Put(s, t, Local(Unlocking(l.pc.f), l.recorded + {g}))
           .(active := s.active + 1, live := s.live[g := t], issued := s.issued + {g})
    case UnlockMap(t) => if !l.pc.Unlocking? then s else Goto(s, t, Outside).(mapLock := s.mapLock - {l.pc.f})
    case BeginRelease(t, g) => Put(s, t, Local(Releasing(g), l.recorded - {g}))
    case FinishRelease(t) =>
      if !l.pc.Releasing? then s
      else Goto(s, t, Outside).(active := s.active - 1, live := s.live - {l.pc.g})
    case Destruct(t) => Goto(s, t, Erasing).(destroyer := Some(t))
    case EraseOne(t, f) => s.(mapped := s.mapped - {f})
    case _ => s
  }

  /** Where the next operation inside ensure_rpc_shutdown leads. */
  function EnsurePc(s: Target, l: Local): Pc {
    match l.pc
    case Check(caller) => if l.recorded != {} then Outside else Enter(caller)
    case Enter(caller) =>
      if s.complete then Done(caller) else if s.requested then AwaitComplete(caller) else AwaitZero(caller)
    case AwaitZero(caller) => Done(caller)
    case AwaitComplete(caller) => Done(caller)
    case pc => pc
  }

  /** Entering first closes admission; waiting for zero ends in completion. */
  function EnsureOp(s: Target, t: Tid): Target {
    var pc := At(s, t).pc;
    var requests := pc.Enter? && !s.complete && !s.requested;
    Goto(s, t, EnsurePc(s, At(s, t)))
    .(requested := s.requested || requests, accepting := s.accepting && !requests,
      requester := if requests then Some(t) else s.requester,
      complete := s.complete || pc.AwaitZero?)
  }

  /** ensure_rpc_shutdown. A throw gives control back with nothing changed. */
  function ShutdownOp(s: Target, step: Step): Target {
    var t, l := step.t, At(s, step.t);
    match step
    case CallShutdown(_) => Goto(s, t, Check(if l.pc == Erasing then Destructor else Explicit))
    case Shutdown(_) => EnsureOp(s, t)
    case Return(_) => Goto(s, t, Outside).(freed := s.freed || l.pc == Done(Destructor))
    case _ => s
  }

  function Apply(s: Target, step: Step): Target {
    if step.CallShutdown? || step.Shutdown? || step.Return? then ShutdownOp(s, step) else GuardOp(s, step)
  }

  ghost predicate Next(s: Target, s': Target) { exists step :: Enabled(s, step) && s' == Apply(s, step) }

  // ---- The invariant ----

  /** The flags and the count. */
  ghost predicate FlagInv(s: Target) {
    && s.active == |s.live|
    && s.accepting == !s.requested
    && s.requested == s.requester.Some?
    && (s.complete ==> s.requested && s.live == map[])
    && (s.requested && !s.complete ==> At(s, s.requester.value).pc.AwaitZero?)
    && s.live.Keys <= s.issued
    && (s.freed ==> s.complete && s.mapped == {} && s.destroyer.Some?)
  }

  predicate PastErasing(pc: Pc) { InShutdown(pc) && pc.caller == Destructor }

  ghost predicate LocalInv(s: Target, t: Tid) {
    var l := At(s, t);
    && (forall g :: g in l.recorded ==> g in s.live && s.live[g] == t)
    && (match l.pc
        case Looked(f, found) => f in s.mapLock && s.mapLock[f] == t && (found ==> f in s.mapped)
        case Unlocking(f) => f in s.mapLock && s.mapLock[f] == t
        case Releasing(g) => g !in l.recorded && g in s.live && s.live[g] == t
        case Erasing => s.destroyer == Some(t) && !s.freed
        case AwaitZero(_) => !s.complete && s.requester == Some(t)
        case AwaitComplete(_) => s.requested
        case Done(_) => s.complete
        case _ => true)
    && (PastErasing(l.pc) ==> !s.freed)
    && (PastErasing(l.pc) ==> s.mapped == {} && s.destroyer == Some(t))
    && (InShutdown(l.pc) && !l.pc.Check? ==> l.recorded == {})
  }

  /** Every guard is in its thread's list, or its thread is just giving it back. */
  ghost predicate GuardInv(s: Target, g: Guard)
    requires g in s.live
  {
    g in At(s, s.live[g]).recorded || At(s, s.live[g]).pc == Releasing(g)
  }

  ghost predicate Inv(s: Target) {
    && FlagInv(s)
    && (forall t: Tid :: LocalInv(s, t))
    && (forall g :: g in s.live ==> GuardInv(s, g))
  }

  lemma GuardOpKeepsFlags(s: Target, step: Step)
    requires FlagInv(s) && LocalInv(s, step.t) && Enabled(s, step)
    requires s.live != map[] ==> !s.complete
    requires s.requested ==>
      s.requester.value == step.t || At(GuardOp(s, step), s.requester.value) == At(s, s.requester.value)
    ensures FlagInv(GuardOp(s, step))
  {
  }

  lemma LookupKeepsOthers(s: Target, step: Step, t: Tid)
    requires LocalInv(s, t) && Enabled(s, step) && t != step.t && step.Lookup?
    ensures LocalInv(GuardOp(s, step), t)
  {
    assert At(GuardOp(s, step), t) == At(s, t);
  }

  /** What taking a guard changes for others: one more guard, which is not theirs. */
  lemma AcquireChanges(s: Target, step: Step, t: Tid)
    requires s.live.Keys <= s.issued && Enabled(s, step) && t != step.t && step.TryAcquire?
    ensures var s' := GuardOp(s, step);
      && At(s', t) == At(s, t)
      && s'.mapped == s.mapped && s'.mapLock == s.mapLock && s'.freed == s.freed && s'.destroyer == s.destroyer
      && s'.requested == s.requested && s'.complete == s.complete && s'.requester == s.requester
      && (s'.live == s.live || (step.g !in s.live && s'.live == s.live[step.g := step.t]))
  {
  }

  lemma AcquireKeepsOthers(s: Target, step: Step, t: Tid)
    requires s.live.Keys <= s.issued && LocalInv(s, t) && Enabled(s, step) && t != step.t && step.TryAcquire?
    ensures LocalInv(GuardOp(s, step), t)
  {
    AcquireChanges(s, step, t);
  }

  lemma UnlockKeepsOthers(s: Target, step: Step, t: Tid)
    requires LocalInv(s, t) && LocalInv(s, step.t) && Enabled(s, step) && t != step.t && step.UnlockMap?
    ensures LocalInv(GuardOp(s, step), t)
  {
    assert At(GuardOp(s, step), t) == At(s, t);
  }

  lemma OtherOpKeepsOthers(s: Target, step: Step, t: Tid)
    requires LocalInv(s, t) && LocalInv(s, step.t) && Enabled(s, step) && t != step.t
    requires step.BeginRelease? || step.FinishRelease? || step.Destruct? || step.EraseOne?
    ensures LocalInv(GuardOp(s, step), t)
  {
    assert At(GuardOp(s, step), t) == At(s, t);
  }

  lemma LookupKeepsOwn(s: Target, step: Step)
    requires LocalInv(s, step.t) && Enabled(s, step) && step.Lookup?
    ensures LocalInv(GuardOp(s, step), step.t)
  {
  }

  lemma AcquireKeepsOwn(s: Target, step: Step)
    requires s.live.Keys <= s.issued && LocalInv(s, step.t) && Enabled(s, step) && step.TryAcquire?
    ensures LocalInv(GuardOp(s, step), step.t)
  {
  }

  lemma UnlockKeepsOwn(s: Target, step: Step)
    requires LocalInv(s, step.t) && Enabled(s, step) && step.UnlockMap?
    ensures LocalInv(GuardOp(s, step), step.t)
  {
  }

  lemma MapOpKeepsLocal(s: Target, step: Step, t: Tid)
    requires s.live.Keys <= s.issued && LocalInv(s, t) && LocalInv(s, step.t) && Enabled(s, step)
    requires step.Lookup? || step.TryAcquire? || step.UnlockMap?
    ensures LocalInv(GuardOp(s, step), t)
  {
    if step.Lookup? {
      if t == step.t { LookupKeepsOwn(s, step); } else { LookupKeepsOthers(s, step, t); }
    } else if step.TryAcquire? {
      if t == step.t { AcquireKeepsOwn(s, step); } else { AcquireKeepsOthers(s, step, t); }
    } else {
      if t == step.t { UnlockKeepsOwn(s, step); } else { UnlockKeepsOthers(s, step, t); }
    }
  }

  lemma OtherOpKeepsOwn(s: Target, step: Step)
    requires FlagInv(s) && LocalInv(s, step.t) && Enabled(s, step)
    requires step.BeginRelease? || step.FinishRelease? || step.Destruct? || step.EraseOne?
    ensures LocalInv(GuardOp(s, step), step.t)
  {
  }

  lemma OthersGuardsKept(s: Target, step: Step, g: Guard)
    requires g in s.live && s.live[g] != step.t && GuardInv(s, g)
    requires g in GuardOp(s, step).live && GuardOp(s, step).live[g] == s.live[g]
    ensures GuardInv(GuardOp(s, step), g)
  {
    assert At(GuardOp(s, step), s.live[g]) == At(s, s.live[g]);
  }

  lemma AcquireKeepsGuards(s: Target, t: Tid, h: Guard, g: Guard)
    requires At(s, t).pc.Looked? && (g in s.live ==> GuardInv(s, g) && s.live[g] == t)
    ensures g in GuardOp(s, TryAcquire(t, h)).live ==> GuardInv(GuardOp(s, TryAcquire(t, h)), g)
  {
  }

  lemma ReleaseKeepsGuards(s: Target, step: Step, g: Guard)
    requires Enabled(s, step) && (step.BeginRelease? || step.FinishRelease?)
    requires g in s.live && GuardInv(s, g) && s.live[g] == step.t
    ensures g in GuardOp(s, step).live ==> GuardInv(GuardOp(s, step), g)
  {
  }

  lemma MapStepsKeepGuards(s: Target, step: Step, g: Guard)
    requires Enabled(s, step) && !step.TryAcquire? && !step.BeginRelease? && !step.FinishRelease?
    requires g in s.live && GuardInv(s, g) && s.live[g] == step.t
    ensures g in GuardOp(s, step).live ==> GuardInv(GuardOp(s, step), g)
  {
  }

  lemma GuardOpKeepsGuards(s: Target, step: Step, g: Guard)
    requires Enabled(s, step) && s.live.Keys <= s.issued
    requires g in GuardOp(s, step).live && (g in s.live ==> GuardInv(s, g))
    ensures GuardInv(GuardOp(s, step), g)
  {
    if g in s.live && s.live[g] != step.t {
      OthersGuardsKept(s, step, g);
    } else if step.TryAcquire? {
      AcquireKeepsGuards(s, step.t, step.g, g);
    } else if step.BeginRelease? || step.FinishRelease? {
      ReleaseKeepsGuards(s, step, g);
    } else {
      MapStepsKeepGuards(s, step, g);
    }
  }

  lemma ShutdownOpKeepsFlags(s: Target, step: Step)
    requires Inv(s) && Enabled(s, step)
    ensures FlagInv(ShutdownOp(s, step))
  {
    assert LocalInv(s, step.t);
    if s.requested && s.requester.value != step.t {
      assert At(ShutdownOp(s, step), s.requester.value) == At(s, s.requester.value);
    }
  }

  lemma EnsureOpKeepsOwn(s: Target, t: Tid)
    requires FlagInv(s) && LocalInv(s, t) && Enabled(s, Shutdown(t))
    ensures LocalInv(EnsureOp(s, t), t)
  {
  }

  lemma EnsureOpKeepsOthers(s: Target, t: Tid, u: Tid)
    requires FlagInv(s) && LocalInv(s, u) && LocalInv(s, t) && Enabled(s, Shutdown(t)) && u != t
    ensures LocalInv(EnsureOp(s, t), u)
  {
    assert At(EnsureOp(s, t), u) == At(s, u);
  }

  lemma CallKeepsLocal(s: Target, t: Tid, u: Tid)
    requires FlagInv(s) && LocalInv(s, u) && LocalInv(s, t) && Enabled(s, CallShutdown(t))
    ensures LocalInv(ShutdownOp(s, CallShutdown(t)), u)
  {
    if u != t {
      assert At(ShutdownOp(s, CallShutdown(t)), u) == At(s, u);
    }
  }

  /** The destructor's return frees the object. */
  lemma ReturnKeepsLocal(s: Target, step: Step, t: Tid)
    requires FlagInv(s) && LocalInv(s, t) && LocalInv(s, step.t) && Enabled(s, step) && step.Return?
    ensures LocalInv(ShutdownOp(s, step), t)
  {
    if t != step.t {
      assert At(ShutdownOp(s, step), t) == At(s, t);
    }
  }

  lemma GuardOpKeepsLocal(s: Target, step: Step, t: Tid)
    requires FlagInv(s) && LocalInv(s, t) && LocalInv(s, step.t) && Enabled(s, step)
    requires !step.CallShutdown? && !step.Shutdown? && !step.Return?
    ensures LocalInv(GuardOp(s, step), t)
  {
    if step.Lookup? || step.TryAcquire? || step.UnlockMap? {
      MapOpKeepsLocal(s, step, t);
    } else if t == step.t {
      OtherOpKeepsOwn(s, step);
    } else {
      OtherOpKeepsOthers(s, step, t);
    }
  }

  lemma GuardOpKeepsRequest(s: Target, step: Step)
    requires FlagInv(s) && LocalInv(s, step.t) && Enabled(s, step)
    ensures FlagInv(GuardOp(s, step))
  {
    if s.requested && s.requester.value != step.t {
      assert At(GuardOp(s, step), s.requester.value) == At(s, s.requester.value);
    }
    GuardOpKeepsFlags(s, step);
  }

  lemma GuardOpKeepsAllGuards(s: Target, step: Step)
    requires Enabled(s, step) && s.live.Keys <= s.issued && forall g :: g in s.live ==> GuardInv(s, g)
    ensures forall g :: g in GuardOp(s, step).live ==> GuardInv(GuardOp(s, step), g)
  {
    forall g | g in GuardOp(s, step).live ensures GuardInv(GuardOp(s, step), g) {
      GuardOpKeepsGuards(s, step, g);
    }
  }

  lemma GuardOpKeepsInv(s: Target, step: Step)
    requires Inv(s) && Enabled(s, step) && !step.CallShutdown? && !step.Shutdown? && !step.Return?
    ensures Inv(GuardOp(s, step))
  {
    assert LocalInv(s, step.t);
    GuardOpKeepsRequest(s, step);
    GuardOpKeepsAllGuards(s, step);
    forall t: Tid ensures LocalInv(GuardOp(s, step), t) {
      assert LocalInv(s, t);
      GuardOpKeepsLocal(s, step, t);
    }
  }

  lemma ShutdownOpKeepsInv(s: Target, step: Step)
    requires Inv(s) && Enabled(s, step) && (step.CallShutdown? || step.Shutdown? || step.Return?)
    ensures Inv(ShutdownOp(s, step))
  {
    assert LocalInv(s, step.t);
    ShutdownOpKeepsFlags(s, step);
    forall t: Tid ensures LocalInv(ShutdownOp(s, step), t) {
      assert LocalInv(s, t);
      match step
      case Return(_) => ReturnKeepsLocal(s, step, t);
      case CallShutdown(u) => CallKeepsLocal(s, u, t);
      case _ => if t == step.t { EnsureOpKeepsOwn(s, t); } else { EnsureOpKeepsOthers(s, step.t, t); }
    }
    forall g | g in s.live ensures GuardInv(ShutdownOp(s, step), g) {
      ShutdownKeepsGuards(s, step, g);
    }
  }

  /** Shutdown never touches a list of recorded guards, nor a thread that is giving one back. */
  lemma ShutdownKeepsLists(s: Target, step: Step, u: Tid)
    requires Enabled(s, step) && (step.CallShutdown? || step.Shutdown? || step.Return?)
    ensures At(ShutdownOp(s, step), u).recorded == At(s, u).recorded
    ensures At(s, u).pc.Releasing? ==> At(ShutdownOp(s, step), u) == At(s, u)
  {
  }

  lemma ShutdownKeepsGuards(s: Target, step: Step, g: Guard)
    requires Enabled(s, step) && (step.CallShutdown? || step.Shutdown? || step.Return?)
    requires g in s.live && GuardInv(s, g)
    ensures ShutdownOp(s, step).live == s.live && GuardInv(ShutdownOp(s, step), g)
  {
    ShutdownKeepsLists(s, step, s.live[g]);
    ShutdownOpKeepsClosed(s, step);
  }

  lemma ReachableInv(run: seq<Target>, k: nat)
    requires IsRun(Init, Next, run) && k < |run|
    ensures Inv(run[k])
  {
    forall s, s' | Inv(s) && Next(s, s') ensures Inv(s') {
      var step :| Enabled(s, step) && s' == Apply(s, step);
      if step.CallShutdown? || step.Shutdown? || step.Return? {
        ShutdownOpKeepsInv(s, step);
      } else {
        GuardOpKeepsInv(s, step);
      }
    }
    InvariantHolds(Init, Next, Inv, run, k);
  }

  // ---- What holds in every run ----

  /** A thread about to touch the object: to take a guard, to give one back, or inside shutdown. */
  predicate Touches(pc: Pc) { (pc.Looked? && pc.found) || pc.Releasing? || InShutdown(pc) }

  /** Inside an explicit destroy(), which the owner of the object must not let overlap its destruction. */
  predicate InExplicit(pc: Pc) { InShutdown(pc) && pc.caller == Explicit }

  /**
   No RPC target is used after it is freed: the count is the number of live guards, a freed object has
   no guard, and no thread that holds a guard, or is about to touch the object for any reason but an
   explicit destroy() of its own, finds it freed.
   */
  lemma NoUseAfterFree(run: seq<Target>, k: nat, t: Tid)
    requires IsRun(Init, Next, run) && k < |run|
    ensures run[k].active == |run[k].live|
    ensures run[k].freed ==> run[k].active == 0 && run[k].live == map[] && run[k].complete && !run[k].accepting
    ensures run[k].freed ==>
      At(run[k], t).recorded == {} && (Touches(At(run[k], t).pc) <==> InExplicit(At(run[k], t).pc))
  {
    ReachableInv(run, k);
    assert LocalInv(run[k], t);
    if At(run[k], t).recorded != {} {
      var g :| g in At(run[k], t).recorded;
      assert g in run[k].live;
    }
  }

  lemma MapOpTouchesNothing(s: Target, step: Step)
    requires s.mapped == {} && Enabled(s, step) && (step.Lookup? || step.TryAcquire? || step.UnlockMap?)
    ensures !Touches(At(GuardOp(s, step), step.t).pc)
  {
  }

  lemma GuardOpTouchesNothing(s: Target, step: Step)
    requires FlagInv(s) && LocalInv(s, step.t) && Enabled(s, step) && s.freed
    requires !step.CallShutdown? && !step.Shutdown? && !step.Return?
    ensures !Touches(At(GuardOp(s, step), step.t).pc)
  {
    if step.Lookup? || step.TryAcquire? || step.UnlockMap? {
      MapOpTouchesNothing(s, step);
    }
  }

  lemma ShutdownOpStartsNothing(s: Target, step: Step)
    requires FlagInv(s) && LocalInv(s, step.t) && Enabled(s, step) && s.freed
    requires step.CallShutdown? || step.Shutdown? || step.Return?
    ensures Touches(At(ShutdownOp(s, step), step.t).pc) ==> InExplicit(At(s, step.t).pc)
  {
  }

  lemma OthersStay(s: Target, step: Step, t: Tid)
    requires t != step.t
    ensures At(GuardOp(s, step), t) == At(s, t) && At(ShutdownOp(s, step), t) == At(s, t)
  {
  }

  /** After the object is freed nobody starts to touch it any more. */
  lemma NobodyStarts(s: Target, s': Target, t: Tid)
    requires Inv(s) && Next(s, s') && s.freed && Touches(At(s', t).pc)
    requires Touches(At(s, t).pc) ==> InExplicit(At(s, t).pc)
    ensures InExplicit(At(s, t).pc)
  {
    var step :| Enabled(s, step) && s' == Apply(s, step);
    assert LocalInv(s, step.t);
    if t != step.t {
      OthersStay(s, step, t);
    } else if step.CallShutdown? || step.Shutdown? || step.Return? {
      ShutdownOpStartsNothing(s, step);
    } else {
      GuardOpTouchesNothing(s, step);
    }
  }

  /**
   The exception is only the overlap itself: a thread that touches the freed object was inside its
   explicit destroy() at every moment since the object was freed. If nobody was then, nobody is later.
   */
  lemma {:induction false} OnlyOverlapTouches(run: seq<Target>, j: nat, k: nat, t: Tid)
    requires IsRun(Init, Next, run) && j <= k < |run| && run[j].freed && Touches(At(run[k], t).pc)
    ensures run[k].freed && InExplicit(At(run[j], t).pc)
    decreases k
  {
    FreedStays(run, j, k);
    if j < k {
      FreedStays(run, j, k - 1);
      WasInside(run, k, t);
      OnlyOverlapTouches(run, j, k - 1, t);
    } else {
      NoUseAfterFree(run, k, t);
    }
  }

  lemma WasInside(run: seq<Target>, k: nat, t: Tid)
    requires IsRun(Init, Next, run) && 0 < k < |run| && run[k - 1].freed && Touches(At(run[k], t).pc)
    ensures InExplicit(At(run[k - 1], t).pc)
  {
    ReachableInv(run, k - 1);
    RunStep(Init, Next, run, k);
    NoUseAfterFree(run, k - 1, t);
    NobodyStarts(run[k - 1], run[k], t);
  }

  lemma {:induction false} FreedStays(run: seq<Target>, j: nat, k: nat)
    requires IsRun(Init, Next, run) && j <= k < |run| && run[j].freed
    ensures run[k].freed
    decreases k
  {
    if j < k {
      FreedStays(run, j, k - 1);
      RunStep(Init, Next, run, k);
      ClosedStaysClosed(run[k - 1], run[k]);
    }
  }

  lemma GuardOpKeepsClosed(s: Target, step: Step)
    ensures !s.accepting ==> !GuardOp(s, step).accepting && GuardOp(s, step).live.Keys <= s.live.Keys
    ensures GuardOp(s, step).complete == s.complete && GuardOp(s, step).freed == s.freed
  {
  }

  lemma EnsureOpKeepsClosed(s: Target, t: Tid)
    ensures EnsureOp(s, t).live == s.live && EnsureOp(s, t).freed == s.freed
    ensures !s.accepting ==> !EnsureOp(s, t).accepting
    ensures s.complete ==> EnsureOp(s, t).complete
  {
  }

  lemma ShutdownOpKeepsClosed(s: Target, step: Step)
    ensures ShutdownOp(s, step).live == s.live
    ensures !s.accepting ==> !ShutdownOp(s, step).accepting
    ensures s.complete ==> ShutdownOp(s, step).complete
    ensures s.freed ==> ShutdownOp(s, step).freed
  {
    EnsureOpKeepsClosed(s, step.t);
  }

  /** One step: admission once closed stays closed, and completion and freeing are for good. */
  lemma ClosedStaysClosed(s: Target, s': Target)
    requires Next(s, s')
    ensures !s.accepting ==> !s'.accepting && s'.live.Keys <= s.live.Keys
    ensures s.complete ==> s'.complete
    ensures s.freed ==> s'.freed
  {
    var step :| Enabled(s, step) && s' == Apply(s, step);
    ApplyKeepsClosed(s, step);
  }

  lemma ApplyKeepsClosed(s: Target, step: Step)
    ensures var s' := Apply(s, step);
      && (!s.accepting ==> !s'.accepting && s'.live.Keys <= s.live.Keys)
      && (s.complete ==> s'.complete) && (s.freed ==> s'.freed)
  {
    GuardOpKeepsClosed(s, step);
    ShutdownOpKeepsClosed(s, step);
  }

  lemma {:induction false} ClosedForGood(run: seq<Target>, k: nat, j: nat)
    requires IsRun(Init, Next, run) && k <= j < |run|
    ensures !run[k].accepting ==> !run[j].accepting && run[j].live.Keys <= run[k].live.Keys
    ensures run[k].complete ==> run[j].complete
    decreases j
  {
    if k < j {
      ClosedForGood(run, k, j - 1);
      RunStep(Init, Next, run, j);
      ClosedStaysClosed(run[j - 1], run[j]);
    }
  }

  /**
   ensure_rpc_shutdown returns only at zero with admission closed for good: from the moment any
   thread is done, no guard exists and none is ever given again.
   */
  lemma ShutdownReturnsQuiet(run: seq<Target>, k: nat, j: nat, t: Tid)
    requires IsRun(Init, Next, run) && k <= j < |run| && At(run[k], t).pc.Done?
    ensures run[j].active == 0 && run[j].live == map[] && !run[j].accepting
  {
    ReachableInv(run, k);
    ReachableInv(run, j);
    assert LocalInv(run[k], t);
    ClosedForGood(run, k, j);
  }

  predicate Waits(pc: Pc) { pc.AwaitZero? || pc.AwaitComplete? }

  /**
   No thread waits in ensure_rpc_shutdown while holding a guard, so a wait never waits for itself:
   whenever a thread waits, shutdown is complete, or its requester may complete it now, or a guard
   is held by some thread that is not in ensure_rpc_shutdown's waits at all.
   */
  lemma WaitsOnlyForOthers(run: seq<Target>, k: nat, t: Tid)
    requires IsRun(Init, Next, run) && k < |run| && Waits(At(run[k], t).pc)
    ensures forall g :: g in run[k].live ==> run[k].live[g] != t && !Waits(At(run[k], run[k].live[g]).pc)
    ensures run[k].complete
         || (run[k].requester.Some? && Enabled(run[k], Shutdown(run[k].requester.value))
             && Apply(run[k], Shutdown(run[k].requester.value)).complete)
         || run[k].live != map[]
  {
    ReachableInv(run, k);
    assert LocalInv(run[k], t);
    forall g | g in run[k].live ensures run[k].live[g] != t && !Waits(At(run[k], run[k].live[g]).pc) {
      assert GuardInv(run[k], g) && LocalInv(run[k], run[k].live[g]);
    }
  }

  /** A destructor called from inside one of the object's own RPCs throws and changes nothing. */
  lemma SelfDestructionIsRefused(run: seq<Target>, k: nat, t: Tid)
    requires IsRun(Init, Next, run) && k < |run| && At(run[k], t).pc.Check?
    ensures ShutdownOp(run[k], Shutdown(t)) ==
              if exists g :: g in run[k].live && run[k].live[g] == t then Goto(run[k], t, Outside)
              else Goto(run[k], t, Enter(At(run[k], t).pc.caller))
  {
    ReachableInv(run, k);
    assert LocalInv(run[k], t);
    if g :| g in run[k].live && run[k].live[g] == t {
      assert GuardInv(run[k], g);
    }
    if At(run[k], t).recorded != {} {
      var g :| g in At(run[k], t).recorded;
      assert g in run[k].live && run[k].live[g] == t;
    }
  }

  // ---- One thread, undisturbed ----

  /** Lookup, guard, map unlocked again. */
  function Acquired(s: Target, t: Tid, f: Fn, g: Guard): Target {
    GuardOp(GuardOp(GuardOp(s, Lookup(t, f)), TryAcquire(t, g)), UnlockMap(t))
  }

  function Released(s: Target, t: Tid, g: Guard): Target { GuardOp(GuardOp(s, BeginRelease(t, g)), FinishRelease(t)) }

  /** A lookup of a mapped object yields a guard exactly while the object accepts calls. */
  lemma GuardAlone(s: Target, t: Tid, f: Fn, g: Guard)
    requires At(s, t).pc == Outside && f in s.mapped && f !in s.mapLock
    ensures var held := Acquired(s, t, f, g);
      && At(held, t) == Local(Outside, if s.accepting then At(s, t).recorded + {g} else At(s, t).recorded)
      && held.active == (if s.accepting then s.active + 1 else s.active)
      && held.live == (if s.accepting then s.live[g := t] else s.live)
      && held.mapLock == s.mapLock
  {
    var locked := GuardOp(s, Lookup(t, f));
    assert At(locked, t) == Local(Looked(f, true), At(s, t).recorded);
    var acquired := GuardOp(locked, TryAcquire(t, g));
    assert At(acquired, t).pc == Unlocking(f) && acquired.mapLock == s.mapLock[f := t];
    assert s.mapLock[f := t] - {f} == s.mapLock;
  }

  /** Giving a guard back undoes what taking it did. */
  lemma ReleaseAlone(s: Target, t: Tid, g: Guard)
    requires At(s, t).pc == Outside && g in At(s, t).recorded
    ensures var back := Released(s, t, g);
      At(back, t) == Local(Outside, At(s, t).recorded - {g}) && back.active == s.active - 1 && back.live == s.live - {g}
  {
    assert At(GuardOp(s, BeginRelease(t, g)), t) == Local(Releasing(g), At(s, t).recorded - {g});
  }

  /** With no call executing, the first shutdown closes admission and completes by itself. */
  lemma ShutdownAlone(s: Target, t: Tid)
    requires At(s, t) == Local(Outside, {}) && !s.requested && !s.complete && s.active == 0
    ensures var called := ShutdownOp(s, CallShutdown(t));
      var waiting := ShutdownOp(ShutdownOp(called, Shutdown(t)), Shutdown(t));
      var f := ShutdownOp(waiting, Shutdown(t));
      && At(waiting, t).pc == AwaitZero(Explicit) && Enabled(waiting, Shutdown(t))
      && At(f, t).pc == Done(Explicit) && f.complete && !f.accepting && f.freed == s.freed
  {
    var called := ShutdownOp(s, CallShutdown(t));
    assert At(called, t) == Local(Check(Explicit), {});
    var entered := ShutdownOp(called, Shutdown(t));
    assert At(entered, t) == Local(Enter(Explicit), {});
    var waiting := ShutdownOp(entered, Shutdown(t));
    assert At(waiting, t) == Local(AwaitZero(Explicit), {});
  }
}

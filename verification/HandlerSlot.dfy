/**
 One event-handler slot under any number of dispatchers and concurrent copies of its
 deactivator. The dispatcher counts itself in and then checks `active` once more; the
 deactivator clears `active` and then waits for the count.
 */
module HandlerSlot {
  import opened Runs

  type Tid = nat

  /** Where a thread is in dispatch_event_handlers; the name is its next operation. */
  datatype Frame =
    | NoFrame | FirstCheck | TakeMutex | SecondCheck | CountIn | ThirdCheck | Running | CountOut | DropMutex

  /** Where a thread is in the deactivator. */
  datatype Call = NoCall | ClearActive | Claim | Erase | AwaitCount

  datatype Local = Local(frame: Frame, call: Call)

  /**
   `listed` says the slot is in the handler registry and its deactivator in the owner's list.
   `erasures` and `claimer` are history.
   */
  datatype Slot = Slot(active: bool, claimed: bool, invocations: nat, mutex: Option<Tid>, listed: bool,
                       threads: map<Tid, Local>, erasures: nat, claimer: Option<Tid>)

  datatype Step = Collect(t: Tid) | Dispatch(t: Tid) | Deactivate(t: Tid) | Advance(t: Tid)

  function At(s: Slot, t: Tid): Local { if t in s.threads then s.threads[t] else Local(NoFrame, NoCall) }

  function Move(s: Slot, t: Tid, l: Local): Slot { s.(threads := s.threads[t := l]) }

  function Goto(s: Slot, t: Tid, f: Frame): Slot { Move(s, t, Local(f, NoCall)) }

  const FRESH := Slot(true, false, 0, None, true, map[], 0, None)

  /** Where a dispatcher goes next. */
  function NextFrame(f: Frame, active: bool): Frame {
    match f
    case NoFrame => NoFrame
    case FirstCheck => if active then TakeMutex else NoFrame
    case TakeMutex => SecondCheck
    case SecondCheck => if active then CountIn else DropMutex
    case CountIn => ThirdCheck
    case ThirdCheck => if active then Running else CountOut
    case Running => CountOut
    case CountOut => DropMutex
    case DropMutex => NoFrame
  }

  /** The next operation of a dispatcher. The handler body itself is the stay in `Running`. */
  function DispatchOp(s: Slot, t: Tid): Slot {
    var f := At(s, t).frame;
    Goto(s, t, NextFrame(f, s.active))
    .(mutex := if f == TakeMutex then Some(t) else if f == DropMutex then None else s.mutex,
      invocations :=
        if f == CountIn then s.invocations + 1
        else if f == CountOut && s.invocations > 0 then s.invocations - 1 else s.invocations)
  }

  /** A handler that deactivates itself does not wait for its own frame. */
  function Allowed(s: Slot, t: Tid): nat { if At(s, t).frame == Running then 1 else 0 }

  /** The next operation of the deactivator. */
  function DeactivateOp(s: Slot, t: Tid): Slot {
    var frame := At(s, t).frame;
    match At(s, t).call
    case NoCall => s
    case ClearActive => Move(s, t, Local(frame, Claim)).(active := false)
    case Claim =>
      if s.claimed then Move(s, t, Local(frame, AwaitCount))
      else Move(s, t, Local(frame, Erase)).(claimed := true, claimer := Some(t))
    case Erase => Move(s, t, Local(frame, AwaitCount)).(listed := false, erasures := s.erasures + 1)
    case AwaitCount => if s.invocations > Allowed(s, t) then s else Move(s, t, Local(frame, NoCall))
  }

  predicate Enabled(s: Slot, step: Step) {
    var l := At(s, step.t);
    match step
    case Collect(t) => s.listed && l == Local(NoFrame, NoCall)
    case Dispatch(t) => l.call == NoCall && l.frame != NoFrame && (l.frame == TakeMutex ==> s.mutex == None)
    case Deactivate(t) => l.call == NoCall && (l.frame == NoFrame || l.frame == Running)
    case Advance(t) => l.call != NoCall
  }

  function Apply(s: Slot, step: Step): Slot {
    match step
    case Collect(t) => Move(s, t, Local(FirstCheck, NoCall))
    case Dispatch(t) => DispatchOp(s, t)
    case Deactivate(t) => Move(s, t, Local(At(s, t).frame, ClearActive))
    case Advance(t) => DeactivateOp(s, t)
  }

  ghost predicate Init(s: Slot) { s == FRESH }

  ghost predicate Next(s: Slot, s': Slot) { exists step :: Enabled(s, step) && s' == Apply(s, step) }

  // ---- The invariant ----

  predicate HoldsMutex(f: Frame) {
    f == SecondCheck || f == CountIn || f == ThirdCheck || f == Running || f == CountOut || f == DropMutex
  }

  predicate Counted(f: Frame) { f == ThirdCheck || f == Running || f == CountOut }

  /** The invocation mutex serialises the slot, so the count is at most one. */
  ghost predicate CountInv(s: Slot) {
    && (forall t: Tid :: HoldsMutex(At(s, t).frame) ==> s.mutex == Some(t))
    && (s.invocations == if s.mutex.Some? && Counted(At(s, s.mutex.value).frame) then 1 else 0)
  }

  ghost predicate ClaimInv(s: Slot) {
    && (forall t: Tid :: At(s, t).call in {Claim, Erase, AwaitCount} ==> !s.active)
    && (forall t: Tid :: At(s, t).call == Erase ==> s.claimer == Some(t))
    && s.claimed == s.claimer.Some?
    && s.listed == (s.erasures == 0)
    && (s.erasures == if s.claimed && At(s, s.claimer.value).call != Erase then 1 else 0)
  }

  ghost predicate Inv(s: Slot) { CountInv(s) && ClaimInv(s) }

  /** Taking the invocation mutex, or leaving before it. */
  lemma EarlyDispatchKeepsCount(s: Slot, t: Tid)
    requires CountInv(s) && Enabled(s, Dispatch(t)) && !HoldsMutex(At(s, t).frame)
    ensures CountInv(DispatchOp(s, t))
  {
    assert forall u: Tid :: u != t ==> At(DispatchOp(s, t), u) == At(s, u);
  }

  lemma LateDispatchKeepsCount(s: Slot, t: Tid)
    requires CountInv(s) && Enabled(s, Dispatch(t)) && HoldsMutex(At(s, t).frame)
    ensures CountInv(DispatchOp(s, t))
  {
    var s' := DispatchOp(s, t);
    assert s.mutex == Some(t) && At(s', t).frame == NextFrame(At(s, t).frame, s.active);
    forall u: Tid | HoldsMutex(At(s', u).frame) ensures s'.mutex == Some(u) {
      assert u != t ==> At(s', u) == At(s, u);
    }
  }

  lemma DispatchKeepsClaim(s: Slot, t: Tid)
    requires ClaimInv(s) && Enabled(s, Dispatch(t))
    ensures ClaimInv(DispatchOp(s, t))
  {
    assert forall u: Tid :: u != t ==> At(DispatchOp(s, t), u) == At(s, u);
  }

  lemma FrameKept(s: Slot, t: Tid, u: Tid)
    ensures At(DeactivateOp(s, t), u).frame == At(s, u).frame
  {
  }

  lemma DeactivateKeepsCount(s: Slot, t: Tid)
    requires CountInv(s)
    ensures CountInv(DeactivateOp(s, t))
  {
    var s' := DeactivateOp(s, t);
    assert s'.mutex == s.mutex && s'.invocations == s.invocations;
    forall u: Tid ensures At(s', u).frame == At(s, u).frame {
      FrameKept(s, t, u);
    }
  }

  lemma DeactivateKeepsClaim(s: Slot, t: Tid)
    requires ClaimInv(s)
    ensures ClaimInv(DeactivateOp(s, t))
  {
    assert forall u: Tid :: u != t ==> At(DeactivateOp(s, t), u) == At(s, u);
  }

  lemma ApplyKeepsInv(s: Slot, step: Step)
    requires Inv(s) && Enabled(s, step)
    ensures Inv(Apply(s, step))
  {
    match step
    case Dispatch(t) =>
      if HoldsMutex(At(s, t).frame) { LateDispatchKeepsCount(s, t); } else { EarlyDispatchKeepsCount(s, t); }
      DispatchKeepsClaim(s, t);
    case Advance(t) => DeactivateKeepsCount(s, t); DeactivateKeepsClaim(s, t);
    case _ => EntryKeepsInv(s, step);
  }

  lemma EntryKeepsInv(s: Slot, step: Step)
    requires Inv(s) && Enabled(s, step) && (step.Collect? || step.Deactivate?)
    ensures Inv(Apply(s, step))
  {
    assert forall u: Tid :: u != step.t ==> At(Apply(s, step), u) == At(s, u);
  }

  lemma ReachableInv(run: seq<Slot>, k: nat)
    requires IsRun(Init, Next, run) && k < |run|
    ensures Inv(run[k])
  {
    forall s, s' | Inv(s) && Next(s, s') ensures Inv(s') {
      var step :| Enabled(s, step) && s' == Apply(s, step);
      ApplyKeepsInv(s, step);
    }
    InvariantHolds(Init, Next, Inv, run, k);
  }

  // ---- Quiescence ----

  /** Thread `t` leaves the deactivator in the step from `s` to `s'`. */
  ghost predicate Returns(s: Slot, s': Slot, t: Tid) {
    At(s, t).call == AwaitCount && s' == DeactivateOp(s, t) && At(s', t).call == NoCall
  }

  /** When the deactivator returns, nobody runs the handler but, at most, the caller's own frame. */
  lemma ReturnIsQuiet(s: Slot, s': Slot, t: Tid, u: Tid)
    requires Inv(s) && Returns(s, s', t)
    ensures !s'.active
    ensures At(s', u).frame == Running ==> u == t && At(s, t).frame == Running
  {
    assert HoldsMutex(At(s, u).frame) ==> s.mutex == Some(u);
    assert HoldsMutex(At(s, t).frame) ==> s.mutex == Some(t);
  }

  /** Once inactive, always inactive, and no frame starts running. */
  lemma InactiveIsForever(s: Slot, s': Slot, u: Tid)
    requires Next(s, s') && !s.active
    ensures !s'.active
    ensures At(s', u).frame == Running ==> At(s, u).frame == Running
  {
    var step :| Enabled(s, step) && s' == Apply(s, step);
    InactiveStep(s, step, u);
  }

  lemma InactiveStep(s: Slot, step: Step, u: Tid)
    requires Enabled(s, step) && !s.active
    ensures !Apply(s, step).active
    ensures At(Apply(s, step), u).frame == Running ==> At(s, u).frame == Running
  {
    if u != step.t {
      assert At(Apply(s, step), u) == At(s, u);
    }
  }

  lemma {:induction false} QuietForever(run: seq<Slot>, k: nat, i: nat, j: nat, u: Tid)
    requires IsRun(Init, Next, run) && k <= i <= j < |run| && !run[k].active
    ensures !run[j].active
    ensures At(run[j], u).frame == Running ==> At(run[i], u).frame == Running
    decreases j
  {
    if k < j {
      RunStep(Init, Next, run, j);
      QuietForever(run, k, if i < j then i else j - 1, j - 1, u);
      InactiveIsForever(run[j - 1], run[j], u);
    }
  }

  /**
   Handler quiescence: after a deactivator of `t` returns between `k` and `k + 1`, no thread is
   running the handler at any later moment, except `t` in the very frame that called it.
   */
  lemma HandlerQuiescence(run: seq<Slot>, k: nat, i: nat, j: nat, t: Tid, u: Tid)
    requires IsRun(Init, Next, run) && k < i <= j < |run|
    requires Returns(run[k], run[k + 1], t)
    ensures !run[j].active
    ensures At(run[j], u).frame == Running ==>
              u == t && At(run[k], t).frame == Running && At(run[i], t).frame == Running
  {
    ReachableInv(run, k);
    ReturnIsQuiet(run[k], run[k + 1], t, u);
    QuietForever(run, k + 1, k + 1, j, u);
    QuietForever(run, k + 1, i, j, u);
  }

  /**
   The registry entry is erased exactly once: never twice in any run, by the one claimer, and
   always before the claimer's deactivator returns; afterwards no dispatcher can collect the slot.
   */
  lemma ErasedExactlyOnce(run: seq<Slot>, k: nat)
    requires IsRun(Init, Next, run) && k < |run|
    ensures run[k].erasures <= 1
    ensures run[k].listed <==> run[k].erasures == 0
    ensures run[k].claimer.Some? && At(run[k], run[k].claimer.value).call != Erase ==> run[k].erasures == 1
    ensures run[k].claimer.None? ==> run[k].erasures == 0
  {
    ReachableInv(run, k);
  }

  // ---- One thread alone ----

  function Dispatching(s: Slot, t: Tid, n: nat): Slot
    decreases n
  {
    if n == 0 then s else Dispatching(DispatchOp(s, t), t, n - 1)
  }

  function Deactivating(s: Slot, t: Tid, n: nat): Slot
    decreases n
  {
    if n == 0 then s else Deactivating(DeactivateOp(s, t), t, n - 1)
  }

  /** A dispatcher that finds the slot active runs the handler, and leaves count and mutex as they were. */
  lemma ActiveSlotIsInvoked(s: Slot, t: Tid)
    requires s.active && s.mutex == None && At(s, t) == Local(FirstCheck, NoCall)
    ensures At(Dispatching(s, t, 5), t) == Local(Running, NoCall)
    ensures Dispatching(s, t, 5).invocations == s.invocations + 1
    ensures var f := Dispatching(s, t, 8);
      At(f, t) == Local(NoFrame, NoCall) && f.invocations == s.invocations && f.mutex == None && f.active
  {
    var s1 := DispatchOp(s, t);
    var s2 := DispatchOp(s1, t);
    var s3 := DispatchOp(s2, t);
    var s4 := DispatchOp(s3, t);
    var s5 := DispatchOp(s4, t);
    var s6 := DispatchOp(s5, t);
    var s7 := DispatchOp(s6, t);
    assert Dispatching(s, t, 5) == Dispatching(s2, t, 3) == Dispatching(s4, t, 1) == s5;
    assert Dispatching(s, t, 8) == Dispatching(s2, t, 6) == Dispatching(s4, t, 4);
    assert Dispatching(s4, t, 4) == Dispatching(s6, t, 2) == Dispatching(s7, t, 1);
  }

  /** A first deactivation erases the entry, and returns exactly when no other invocation is counted. */
  lemma DeactivationAlone(s: Slot, t: Tid)
    requires !s.claimed && At(s, t).call == NoCall
    ensures var f := Deactivating(Apply(s, Deactivate(t)), t, 4);
      && !f.active && f.claimed && !f.listed && f.erasures == s.erasures + 1
      && (At(f, t).call == NoCall <==> s.invocations <= Allowed(s, t))
  {
    var s0 := Apply(s, Deactivate(t));
    var s1 := DeactivateOp(s0, t);
    var s2 := DeactivateOp(s1, t);
    var s3 := DeactivateOp(s2, t);
    assert Deactivating(s0, t, 4) == Deactivating(s2, t, 2) == Deactivating(s3, t, 1);
  }
}

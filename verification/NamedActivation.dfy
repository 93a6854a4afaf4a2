/**
 Subscribing to a sender by name: a handler slot that an availability callback may install
 later, raced by copies of one outer deactivator. The slot is the one of HandlerSlot; its own
 deactivator is reached only through the outer one.
 */
module NamedActivation {
  import opened Runs
  import S = HandlerSlot

  type Tid = S.Tid

  /** Next operation of a thread in the outer deactivator. `stop`: it copied the inner deactivator. */
  datatype Outer = NotCalling | Transition | CancelAvailability(stop: bool) | CallInner(stop: bool) | Stopping

  /** History: erasures of the shared list entry by the outer deactivator, and the thread that cancelled. */
  datatype Named = Named(installed: bool, cancelled: bool, callbackDone: bool, slot: S.Slot,
                         outer: map<Tid, Outer>, outerErasures: nat, canceller: Option<Tid>)

  datatype Step =
    | Callback
    | Handler(step: S.Step)
    | Begin(t: Tid)
    | Advance(t: Tid)

  function At(n: Named, t: Tid): Outer { if t in n.outer then n.outer[t] else NotCalling }

  function Go(n: Named, t: Tid, o: Outer): Named { n.(outer := n.outer[t := o]) }

  const FRESH := Named(false, false, false, S.FRESH, map[], 0, None)

  /** The outer deactivator. `Transition` runs under the state mutex, as the callback does. */
  function OuterOp(n: Named, t: Tid): Named {
    match At(n, t)
    case NotCalling => n
    case Transition =>
      var n' := Go(n, t, CancelAvailability(n.installed));
      if n.cancelled then n'
      else n'.(cancelled := true, canceller := Some(t), outerErasures := n.outerErasures + if n.installed then 0 else 1)
    case CancelAvailability(stop) => Go(n, t, CallInner(stop))
    case CallInner(stop) =>
      if stop then Go(n, t, Stopping).(slot := S.Apply(n.slot, S.Deactivate(t))) else Go(n, t, NotCalling)
    case Stopping => if S.At(n.slot, t).call == S.NoCall then Go(n, t, NotCalling) else n
  }

  /** A thread inside the outer deactivator moves its slot call only from `Stopping`. */
  predicate Enabled(n: Named, step: Step) {
    match step
    case Callback => !n.callbackDone
    case Handler(st) =>
      && n.installed && S.Enabled(n.slot, st) && !st.Deactivate?
      && (At(n, st.t) == NotCalling || (st.Advance? && At(n, st.t) == Stopping))
    case Begin(t) =>
      At(n, t) == NotCalling && S.At(n.slot, t).call == S.NoCall && S.At(n.slot, t).frame in {S.NoFrame, S.Running}
    case Advance(t) => At(n, t) != NotCalling
  }

  function Apply(n: Named, step: Step): Named {
    match step
    case Callback => n.(callbackDone := true, installed := n.installed || !n.cancelled)
    case Handler(st) => n.(slot := S.Apply(n.slot, st))
    case Begin(t) => Go(n, t, Transition)
    case Advance(t) => OuterOp(n, t)
  }

  ghost predicate Init(n: Named) { n == FRESH }

  ghost predicate Next(n: Named, n': Named) { exists step :: Enabled(n, step) && n' == Apply(n, step) }

  // ---- The invariant ----

  /** Flags: the callback and the transition exclude each other through `cancelled`. */
  ghost predicate FlagInv(n: Named) {
    && S.Inv(n.slot)
    && (!n.installed ==> n.slot == S.FRESH)
    && n.outerErasures == (if n.cancelled && !n.installed then 1 else 0)
    && (n.slot.claimed ==> n.cancelled)
  }

  /** What each thread in the outer deactivator has seen. */
  ghost predicate OuterInv(n: Named, t: Tid) {
    && (At(n, t) != NotCalling ==> S.At(n.slot, t).frame == S.NoFrame || S.At(n.slot, t).frame == S.Running)
    && match At(n, t)
    case NotCalling => S.At(n.slot, t).call == S.NoCall
    case Transition => S.At(n.slot, t).call == S.NoCall
    case CancelAvailability(stop) => n.cancelled && n.installed == stop && S.At(n.slot, t).call == S.NoCall
    case CallInner(stop) => n.cancelled && n.installed == stop && S.At(n.slot, t).call == S.NoCall
    case Stopping =>
      n.cancelled && n.installed && (S.At(n.slot, t).call != S.ClearActive ==> !n.slot.active)
  }

  /** Once the inner deactivator has returned to `t`, nobody else runs the handler. */
  ghost predicate Quiet(n: Named, t: Tid) {
    At(n, t) == Stopping && S.At(n.slot, t).call == S.NoCall ==>
      forall u: Tid :: S.At(n.slot, u).frame == S.Running ==> u == t
  }

  /** Until the slot is claimed, the thread that cancelled an installed handler is still on its way. */
  ghost predicate WillClaim(n: Named) {
    n.cancelled && n.installed && !n.slot.claimed ==>
      && n.canceller.Some?
      && var t := n.canceller.value;
        || At(n, t) == CancelAvailability(true)
        || At(n, t) == CallInner(true)
        || (At(n, t) == Stopping && S.At(n.slot, t).call in {S.ClearActive, S.Claim})
  }

  ghost predicate Inv(n: Named) {
    && FlagInv(n)
    && WillClaim(n)
    && forall t: Tid :: OuterInv(n, t) && Quiet(n, t)
  }

  lemma SlotMovesOne(s: S.Slot, step: S.Step, u: Tid)
    requires S.Enabled(s, step) && u != step.t
    ensures S.At(S.Apply(s, step), u) == S.At(s, u)
    ensures !s.active ==> !S.Apply(s, step).active
  {
  }

  lemma HandlerStepKeepsOthers(n: Named, st: S.Step, t: Tid)
    requires OuterInv(n, t) && S.Enabled(n.slot, st) && t != st.t
    ensures OuterInv(n.(slot := S.Apply(n.slot, st)), t)
  {
    SlotMovesOne(n.slot, st, t);
  }

  lemma HandlerStepKeepsOwn(n: Named, st: S.Step)
    requires OuterInv(n, st.t) && Enabled(n, Handler(st))
    ensures OuterInv(Apply(n, Handler(st)), st.t)
  {
  }

  lemma HandlerStepKeepsQuiet(n: Named, st: S.Step, t: Tid)
    requires Inv(n) && Enabled(n, Handler(st))
    ensures Quiet(Apply(n, Handler(st)), t)
  {
    var n' := Apply(n, Handler(st));
    if At(n', t) == Stopping && S.At(n'.slot, t).call == S.NoCall {
      assert OuterInv(n, t) && Quiet(n, t);
      forall u: Tid | S.At(n'.slot, u).frame == S.Running ensures u == t {
        if S.At(n.slot, t).call == S.NoCall {
          S.InactiveStep(n.slot, st, u);
        } else {
          if t != st.t {
            SlotMovesOne(n.slot, st, t);
          }
          S.ReturnIsQuiet(n.slot, n'.slot, t, u);
        }
      }
    }
  }

  lemma HandlerStepKeepsClaim(n: Named, st: S.Step)
    requires Inv(n) && Enabled(n, Handler(st))
    ensures WillClaim(Apply(n, Handler(st)))
  {
    if n.canceller.Some? && n.canceller.value != st.t {
      SlotMovesOne(n.slot, st, n.canceller.value);
    }
  }

  lemma HandlerStepKeepsInv(n: Named, st: S.Step)
    requires Inv(n) && Enabled(n, Handler(st))
    ensures Inv(Apply(n, Handler(st)))
  {
    S.ApplyKeepsInv(n.slot, st);
    HandlerStepKeepsClaim(n, st);
    assert OuterInv(n, st.t);
    forall t: Tid ensures OuterInv(Apply(n, Handler(st)), t) && Quiet(Apply(n, Handler(st)), t) {
      if t == st.t { HandlerStepKeepsOwn(n, st); } else { HandlerStepKeepsOthers(n, st, t); }
      HandlerStepKeepsQuiet(n, st, t);
    }
  }

  lemma CallInnerKeepsInv(n: Named, t: Tid)
    requires Inv(n) && At(n, t) == CallInner(true)
    ensures Inv(OuterOp(n, t))
  {
    assert OuterInv(n, t);
    var n' := OuterOp(n, t);
    S.ApplyKeepsInv(n.slot, S.Deactivate(t));
    assert forall u: Tid :: S.At(n'.slot, u).frame == S.At(n.slot, u).frame;
    forall u: Tid ensures OuterInv(n', u) && Quiet(n', u) {
      assert OuterInv(n, u) && Quiet(n, u);
    }
  }

  lemma OuterStepKeepsInv(n: Named, t: Tid)
    requires Inv(n) && Enabled(n, Advance(t)) && At(n, t) != CallInner(true)
    ensures Inv(OuterOp(n, t))
  {
    var n' := OuterOp(n, t);
    assert n'.slot == n.slot;
    forall u: Tid ensures OuterInv(n', u) && Quiet(n', u) {
      assert OuterInv(n, u) && Quiet(n, u);
    }
  }

  lemma OtherStepKeepsInv(n: Named, step: Step)
    requires Inv(n) && Enabled(n, step) && (step.Callback? || step.Begin?)
    ensures Inv(Apply(n, step))
  {
    forall u: Tid ensures OuterInv(Apply(n, step), u) && Quiet(Apply(n, step), u) {
      assert OuterInv(n, u) && Quiet(n, u);
    }
  }

  lemma ReachableInv(run: seq<Named>, k: nat)
    requires IsRun(Init, Next, run) && k < |run|
    ensures Inv(run[k])
  {
    forall n, n' | Inv(n) && Next(n, n') ensures Inv(n') {
      var step :| Enabled(n, step) && n' == Apply(n, step);
      match step
      case Handler(st) => HandlerStepKeepsInv(n, st);
      case Advance(t) =>
        if At(n, t) == CallInner(true) { CallInnerKeepsInv(n, t); } else { OuterStepKeepsInv(n, t); }
      case _ => OtherStepKeepsInv(n, step);
    }
    InvariantHolds(Init, Next, Inv, run, k);
  }

  // ---- Cancellation is final ----

  /** Thread `t` leaves the outer deactivator in the step from `n` to `n'`. */
  ghost predicate Returns(n: Named, n': Named, t: Tid) {
    At(n, t) != NotCalling && n' == OuterOp(n, t) && At(n', t) == NotCalling
  }

  /** No handler of this subscription is active, and none can become active. */
  ghost predicate Dead(n: Named) {
    n.cancelled && (n.installed ==> !n.slot.active)
  }

  lemma DeadIsForever(n: Named, n': Named, u: Tid)
    requires Inv(n) && Next(n, n') && Dead(n)
    ensures Dead(n')
    ensures n'.installed == n.installed
    ensures S.At(n'.slot, u).frame == S.Running ==> S.At(n.slot, u).frame == S.Running
  {
    var step :| Enabled(n, step) && n' == Apply(n, step);
    if step.Handler? {
      S.InactiveStep(n.slot, step.step, u);
    }
  }

  lemma {:induction false} DeadForever(run: seq<Named>, k: nat, i: nat, j: nat, u: Tid)
    requires IsRun(Init, Next, run) && k <= i <= j < |run| && Dead(run[k])
    ensures Dead(run[j])
    ensures S.At(run[j].slot, u).frame == S.Running ==> S.At(run[i].slot, u).frame == S.Running
    decreases j
  {
    if k < j {
      RunStep(Init, Next, run, j);
      ReachableInv(run, j - 1);
      DeadForever(run, k, if i < j then i else j - 1, j - 1, u);
      DeadIsForever(run[j - 1], run[j], u);
    }
  }

  /**
   Named activation: whatever race the availability callback and the deactivators run, once an
   outer deactivator of `t` has returned no handler of the subscription is active or can become
   active, and nobody runs it except `t` in the frame that called the deactivator.
   */
  lemma CancellationIsFinal(run: seq<Named>, k: nat, i: nat, j: nat, t: Tid, u: Tid)
    requires IsRun(Init, Next, run) && k < i <= j < |run|
    requires Returns(run[k], run[k + 1], t)
    ensures Dead(run[j])
    ensures S.At(run[j].slot, u).frame == S.Running ==> u == t && S.At(run[i].slot, t).frame == S.Running
  {
    ReachableInv(run, k);
    assert OuterInv(run[k], t) && Quiet(run[k], t);
    assert run[k + 1].slot == run[k].slot;
    DeadForever(run, k + 1, k + 1, j, u);
    DeadForever(run, k + 1, i, j, u);
  }

  /**
   The shared list entry is erased exactly once: never twice and never before cancellation; by
   the outer deactivator exactly when it cancels before installation, by the inner one otherwise;
   and whenever the subscription is cancelled and no deactivator is under way, it is gone.
   */
  lemma EntryErasedOnce(run: seq<Named>, k: nat)
    requires IsRun(Init, Next, run) && k < |run|
    ensures run[k].outerErasures + run[k].slot.erasures <= 1
    ensures run[k].cancelled && !run[k].installed ==> run[k].outerErasures == 1
    ensures run[k].installed ==> run[k].outerErasures == 0
    ensures !run[k].cancelled ==> run[k].outerErasures == run[k].slot.erasures == 0
    ensures run[k].cancelled && (forall t: Tid :: At(run[k], t) == NotCalling) ==>
              run[k].outerErasures + run[k].slot.erasures == 1
  {
    ReachableInv(run, k);
    var n := run[k];
    if n.installed && n.slot.claimed && forall t: Tid :: At(n, t) == NotCalling {
      assert OuterInv(n, n.slot.claimer.value);
    }
  }

  /**
   Whoever comes first decides: a callback before any cancellation installs the handler, and a
   deactivator that ran first, alone, returns with the entry erased and no later callback installs.
   */
  lemma FirstComeDecides(run: seq<Named>, k: nat, t: Tid)
    requires IsRun(Init, Next, run) && k < |run|
    requires Enabled(run[k], Begin(t)) && !run[k].cancelled && !run[k].installed
    ensures Apply(run[k], Callback).installed
    ensures var n := OuterOp(OuterOp(OuterOp(Apply(run[k], Begin(t)), t), t), t);
      At(n, t) == NotCalling && n.cancelled && n.outerErasures == 1 && !Apply(n, Callback).installed
  {
    ReachableInv(run, k);
  }
}

/**
 The teardown protocol of one process: shutdown, leave and finalize over the shared phase,
 admission flag and drain flag, through retries and failures. Calls do not overlap. Children retire
 and the native family changes on their own, between calls and during them; the hook and the
 barriers answer as they like.
 */
module Shutdown {
  import opened Runs

  datatype Phase = Idle | CollectiveEntered | LocalDeparture | HookRunning | HookCompleted | Finalizing

  datatype Hook = NoHook | Returns | Throws

  /** The step of the collective protocol that throws, if any. */
  datatype Fault = NoFault | EntryFails | FenceFails | RendezvousFails | DrainWaitFails

  datatype Reply = Done(ok: bool) | Threw

  /**
   `coordinator`: this process has the coordinator; `remote`: it knows one elsewhere. `children` are
   the outstanding custodies, `family` what the native family still reports. Counts are history of
   the current init cycle.
   */
  datatype State = State(
    alive: bool, coordinator: bool, remote: bool, phase: Phase, closed: bool, drainStarted: bool,
    children: set<nat>, familyActive: bool, family: set<nat>,
    hooks: nat, rendezvous: nat, drains: nat)

  const FRESH := State(false, false, false, Idle, false, false, {}, false, {}, 0, 0, 0)

  /** What the surroundings do before a finalization attempt looks: children retire, the family is as it is. */
  datatype Meanwhile = Meanwhile(retired: set<nat>, family: set<nat>)

  /** `first` and `second`: before the first and, where there is one, the second finalization attempt. */
  datatype Call =
    | Init(coordinator: bool, remote: bool)
    | ActivateFamily
    | Accept(child: nat)
    | Retire(child: nat)
    | FamilyChanges(members: set<nat>)
    | CallFinalize(first: Meanwhile)
    | CallLeave(canLeave: bool, first: Meanwhile)
    | CallShutdown(trivial: bool, hook: Hook, fault: Fault, first: Meanwhile, second: Meanwhile)

  // ---- What each call amounts to ----

  function Amid(s: State, m: Meanwhile): State { s.(children := s.children - m.retired, family := m.family) }

  /** The two guards of finalize_impl: no custody outstanding, and the native family inactive or empty. */
  predicate Settled(s: State) { s.children == {} && (s.familyActive ==> s.family == {}) }

  /** finalize_impl. */
  function Finalized(s: State, m: Meanwhile): State {
    if !s.alive then s
    else
      var drains := if s.drainStarted then s.drains else s.drains + 1;
      var now := Amid(s, m);
      if Settled(now)
      then now.(alive := false, phase := Idle, closed := false, drainStarted := false, drains := drains)
      else now.(phase := if s.phase == Idle then Finalizing else s.phase,
                closed := true, drainStarted := true, drains := drains)
  }

  /** Whether a claim for `desired` is admitted: from idle, or as the retry of the same phase. */
  predicate Admits(s: State, desired: Phase) { if s.closed then s.phase == desired else s.phase == Idle }

  predicate Resumes(s: State) { s.closed && (s.phase == CollectiveEntered || s.phase == HookCompleted) }

  /** The barriers are entered unless no coordinator is known or this one is alone in the group. */
  predicate Collective(s: State, trivial: bool) { (s.coordinator || s.remote) && !(s.coordinator && trivial) }

  /** Where a shutdown begun from idle stands when finalization starts. */
  function Prepared(s: State, trivial: bool, hook: Hook, fault: Fault): State {
    var collective := Collective(s, trivial);
    var runsHook := s.coordinator && hook != NoHook && (collective ==> fault != EntryFails && fault != FenceFails);
    s.(phase :=
         if collective && fault == EntryFails then Idle else if runsHook then HookCompleted else CollectiveEntered,
       hooks := s.hooks + (if runsHook then 1 else 0),
       rendezvous := s.rendezvous + (if collective && fault != EntryFails && fault != FenceFails then 1 else 0))
  }

  /** finalize_impl's answer for a live runtime. */
  function Answer(s: State, m: Meanwhile): Reply { Done(Settled(Amid(s, m))) }

  function After(s: State, c: Call): (State, Reply) {
    match c
    case Init(coordinator, remote) =>
      if s.alive then (s, Threw)
      else
        (s.(alive := true, coordinator := coordinator, remote := remote, hooks := 0, rendezvous := 0, drains := 0),
         Done(true))
    case ActivateFamily => if s.alive then (s, Done(false)) else (s.(familyActive := true), Done(true))
    case Accept(child) =>
      if !s.alive || s.closed then (s, Done(false)) else (s.(children := s.children + {child}), Done(true))
    case Retire(child) => (s.(children := s.children - {child}), Done(true))
    case FamilyChanges(members) => (s.(family := members), Done(true))
    case CallFinalize(m) =>
      if !Admits(s, Finalizing) then (s.(closed := true), Threw)
      else if !s.alive then (s.(phase := Idle, closed := false), Done(false))
      else (Finalized(s.(phase := Finalizing), m), Answer(s, m))
    case CallLeave(canLeave, m) =>
      if !Admits(s, LocalDeparture) then (s.(closed := true), Threw)
      else if !s.alive then (s.(phase := Idle, closed := false), Done(false))
      else if s.coordinator && !canLeave then (s.(phase := Idle, closed := false), Threw)
      else (Finalized(s.(phase := LocalDeparture), m), Answer(s, m))
    case CallShutdown(trivial, hook, fault, first, second) =>
      if !Resumes(s) && (s.closed || s.phase != Idle) then (s, Threw)
      else if !s.alive then (s.(phase := Idle, closed := false), Done(false))
      else if Resumes(s) then (Finalized(s, first), Answer(s, first))
      else Begun(s.(closed := true), trivial, hook, fault, first, second)
  }

  /** The hook threw where its handler finalizes and the outer handler finalizes again. */
  predicate TwoAttempts(s: State, trivial: bool, hook: Hook, fault: Fault) {
    Collective(s, trivial) && fault == NoFault && s.coordinator && hook == Throws
  }

  /** The hook or a step of the collective protocol throws. */
  predicate Fails(s: State, trivial: bool, hook: Hook, fault: Fault) {
    (Collective(s, trivial) && fault != NoFault) || (s.coordinator && hook == Throws)
  }

  /** A shutdown begun from idle: prepare and finalize. */
  function Begun(s: State, trivial: bool, hook: Hook, fault: Fault, first: Meanwhile, second: Meanwhile)
    : (State, Reply)
  {
    var p := Prepared(s, trivial, hook, fault);
    if TwoAttempts(s, trivial, hook, fault) then (Finalized(Finalized(p, first), second), Threw)
    else (Finalized(p, first), if Fails(s, trivial, hook, fault) then Threw else Answer(p, first))
  }

  // ---- Histories ----

  ghost predicate Start(s: State) { s == FRESH }

  ghost predicate Next(s: State, s': State) { exists c: Call :: s' == After(s, c).0 }

  /** Between calls. */
  predicate Inv(s: State) {
    && (s.closed <==> s.phase != Idle)
    && s.phase != HookRunning
    && s.hooks <= 1 && s.rendezvous <= 1
    && (s.alive && (s.phase == Idle || s.phase == LocalDeparture || s.phase == Finalizing) ==>
          s.hooks == 0 && s.rendezvous == 0)
    && (s.alive ==> s.drains == if s.drainStarted then 1 else 0)
    && s.drains <= 1
    && (!s.alive ==> s.phase == Idle && !s.drainStarted && s.children == {})
  }

  lemma FinalizedKeepsInv(s: State, m: Meanwhile)
    requires s.alive && s.hooks <= 1 && s.rendezvous <= 1 && s.phase != HookRunning
    requires s.drains == if s.drainStarted then 1 else 0
    requires s.phase == Idle || s.phase == LocalDeparture || s.phase == Finalizing ==> s.hooks == 0 && s.rendezvous == 0
    ensures Inv(Finalized(s, m))
    ensures Finalized(s, m).alive == !Settled(Amid(s, m))
  {
  }

  /** The surroundings at the second attempt, seen from before the call. */
  function AmidBoth(s: State, first: Meanwhile, second: Meanwhile): State { Amid(Amid(s, first), second) }

  /** What preparation leaves is fit for finalization, and the surroundings are untouched by it. */
  lemma PreparedIsFit(s: State, c: Call)
    requires Inv(s) && s.alive && s.phase == Idle && c.CallShutdown?
    ensures var p := Prepared(s.(closed := true), c.trivial, c.hook, c.fault);
      && p.alive && p.hooks <= 1 && p.rendezvous <= 1 && p.phase != HookRunning
      && p.drains == (if p.drainStarted then 1 else 0)
      && (p.phase == Idle || p.phase == LocalDeparture || p.phase == Finalizing ==> p.hooks == 0 && p.rendezvous == 0)
      && p.children == s.children && p.familyActive == s.familyActive
  {
  }

  /** What a shutdown begun at `s` leaves, in terms of the surroundings at its finalization attempts. */
  lemma BegunKeepsInv(s: State, c: Call)
    requires Inv(s) && s.alive && s.phase == Idle && c.CallShutdown?
    ensures var (s', reply) := Begun(s.(closed := true), c.trivial, c.hook, c.fault, c.first, c.second);
      && Inv(s')
      && (reply == Threw <==> Fails(s, c.trivial, c.hook, c.fault))
      && (!s'.alive <==>
            || Settled(Amid(s, c.first))
            || (TwoAttempts(s, c.trivial, c.hook, c.fault) && Settled(AmidBoth(s, c.first, c.second))))
  {
    var p := Prepared(s.(closed := true), c.trivial, c.hook, c.fault);
    PreparedIsFit(s, c);
    FinalizedKeepsInv(p, c.first);
    SameSurroundings(s, p, c.first, c.second);
    if !Settled(Amid(p, c.first)) {
      FinalizedKeepsInv(Finalized(p, c.first), c.second);
    }
  }

  lemma SameSurroundings(s: State, p: State, first: Meanwhile, second: Meanwhile)
    requires p.alive && p.children == s.children && p.familyActive == s.familyActive
    ensures Settled(Amid(p, first)) <==> Settled(Amid(s, first))
    ensures !Settled(Amid(s, first)) ==>
      (Settled(Amid(Finalized(p, first), second)) <==> Settled(AmidBoth(s, first, second)))
  {
  }

  lemma ShutdownKeepsInv(s: State, c: Call)
    requires Inv(s) && c.CallShutdown?
    ensures Inv(After(s, c).0)
  {
    if s.alive && !s.closed {
      BegunKeepsInv(s, c);
    } else if s.alive && Resumes(s) {
      FinalizedKeepsInv(s, c.first);
    }
  }

  lemma FinalizeKeepsInv(s: State, c: Call)
    requires Inv(s) && c.CallFinalize?
    ensures Inv(After(s, c).0)
  {
    if s.alive && Admits(s, Finalizing) {
      FinalizedKeepsInv(s.(phase := Finalizing), c.first);
    }
  }

  lemma LeaveKeepsInv(s: State, c: Call)
    requires Inv(s) && c.CallLeave?
    ensures Inv(After(s, c).0)
  {
    if s.alive && Admits(s, LocalDeparture) {
      FinalizedKeepsInv(s.(phase := LocalDeparture), c.first);
    }
  }

  lemma SurroundingsKeepInv(s: State, c: Call)
    requires Inv(s) && !c.CallShutdown? && !c.CallFinalize? && !c.CallLeave?
    ensures Inv(After(s, c).0)
  {
  }

  lemma AfterKeepsInv(s: State, c: Call)
    requires Inv(s)
    ensures Inv(After(s, c).0)
  {
    if c.CallShutdown? {
      ShutdownKeepsInv(s, c);
    } else if c.CallFinalize? {
      FinalizeKeepsInv(s, c);
    } else if c.CallLeave? {
      LeaveKeepsInv(s, c);
    } else {
      SurroundingsKeepInv(s, c);
    }
  }

  lemma ReachableInv(run: seq<State>, k: nat)
    requires IsRun(Start, Next, run) && k < |run|
    ensures Inv(run[k])
  {
    forall s, s' | Inv(s) && Next(s, s') ensures Inv(s') {
      var c: Call :| s' == After(s, c).0;
      AfterKeepsInv(s, c);
    }
    InvariantHolds(Start, Next, Inv, run, k);
  }

  /**
   Shutdown histories: after every sequence of calls, admission is closed exactly while a teardown
   is under way, and within one init cycle the hook ran, the hook-done rendezvous was entered and
   the drain was announced at most once each. A finished runtime is back where init may start again.
   */
  lemma ShutdownHistories(run: seq<State>, k: nat)
    requires IsRun(Start, Next, run) && k < |run|
    ensures run[k].phase != Idle <==> run[k].closed
    ensures run[k].hooks <= 1 && run[k].rendezvous <= 1 && run[k].drains <= 1
    ensures !run[k].alive ==>
      run[k].phase == Idle && !run[k].closed && !run[k].drainStarted && run[k].children == {}
  {
    ReachableInv(run, k);
  }

  /**
   After shutdown returns false with the runtime alive, the next shutdown, whatever its options,
   only resumes finalization: no hook, no rendezvous, no second drain announcement. It succeeds
   exactly when by then no custody is outstanding and the native family is inactive or empty.
   */
  lemma RetryOnlyFinalizes(run: seq<State>, k: nat, first: Call, second: Call)
    requires IsRun(Start, Next, run) && k < |run|
    requires first.CallShutdown? && second.CallShutdown?
    requires After(run[k], first).1 == Done(false) && After(run[k], first).0.alive
    ensures var s := After(run[k], first).0;
      var (s', reply) := After(s, second);
      && s' == Finalized(s, second.first) && reply == Done(Settled(Amid(s, second.first)))
      && s'.alive == !Settled(Amid(s, second.first))
      && s'.hooks == s.hooks && s'.rendezvous == s.rendezvous && s'.drains == s.drains == 1
  {
    ReachableInv(run, k);
    AfterKeepsInv(run[k], first);
  }

  // ---- The promise about exceptions ----

  /**
   A comment promises that an exception always leaves the runtime torn down and the state idle.
   A shutdown that throws does so exactly when, at one of its finalization attempts, no custody is
   outstanding and the native family is inactive or empty; otherwise the runtime is alive with
   admission closed and the drain announced.
   */
  lemma ThrowTearsDownExactly(run: seq<State>, k: nat, c: Call)
    requires IsRun(Start, Next, run) && k < |run| && c.CallShutdown?
    requires run[k].alive && run[k].phase == Idle && After(run[k], c).1 == Threw
    ensures var s := After(run[k], c).0;
      && (!s.alive && s.phase == Idle <==>
            || Settled(Amid(run[k], c.first))
            || (TwoAttempts(run[k], c.trivial, c.hook, c.fault) && Settled(AmidBoth(run[k], c.first, c.second))))
      && (s.alive ==> s.closed && s.drains == 1)
  {
    ReachableInv(run, k);
    BegunKeepsInv(run[k], c);
  }

  /** Whatever the surroundings do during the call, it tears the runtime down. */
  ghost predicate SurelyTearsDown(s: State, trivial: bool, hook: Hook, fault: Fault) {
    forall first, second :: !After(s, CallShutdown(trivial, hook, fault, first, second)).0.alive
  }

  lemma SureWithoutChildren(s: State, c: Call)
    requires Inv(s) && s.alive && s.phase == Idle && c.CallShutdown? && s.children == {} && !s.familyActive
    ensures !After(s, c).0.alive
  {
    BegunKeepsInv(s, c);
  }

  lemma UnsureOtherwise(s: State, c: Call)
    requires Inv(s) && s.alive && s.phase == Idle && c.CallShutdown? && (s.children != {} || s.familyActive)
    requires c.first == c.second == Meanwhile({}, {0})
    ensures After(s, c).0.alive
  {
    BegunKeepsInv(s, c);
    assert s.children - {} == s.children;
  }

  /**
   What a caller can know beforehand: a shutdown, whether it is going to fail or not, is sure to tear
   the runtime down if and only if no custody is outstanding and the native family was never
   activated. In particular a process that never had children always gets what the comment promises.
   */
  lemma SureTeardownExactly(run: seq<State>, k: nat, trivial: bool, hook: Hook, fault: Fault)
    requires IsRun(Start, Next, run) && k < |run|
    requires run[k].alive && run[k].phase == Idle
    ensures SurelyTearsDown(run[k], trivial, hook, fault) <==> run[k].children == {} && !run[k].familyActive
  {
    ReachableInv(run, k);
    if run[k].children == {} && !run[k].familyActive {
      forall first, second ensures !After(run[k], CallShutdown(trivial, hook, fault, first, second)).0.alive {
        SureWithoutChildren(run[k], CallShutdown(trivial, hook, fault, first, second));
      }
    } else {
      var still := Meanwhile({}, {0});
      UnsureOtherwise(run[k], CallShutdown(trivial, hook, fault, still, still));
    }
  }

  /** A history that breaks the promise: a coordinator, one child that does not retire, a hook that throws. */
  ghost function StuckHistory(): seq<State> {
    var s := FRESH.(alive := true, coordinator := true);
    [ FRESH, s, s.(children := {7}),
      s.(children := {7}, phase := HookCompleted, closed := true, drainStarted := true,
         hooks := 1, rendezvous := 1, drains := 1) ]
  }

  lemma HookThrowsWithChild()
    ensures IsRun(Start, Next, StuckHistory())
    ensures var c := CallShutdown(false, Throws, NoFault, Meanwhile({}, {}), Meanwhile({}, {}));
      After(StuckHistory()[2], c) == (StuckHistory()[3], Threw)
    ensures StuckHistory()[3].alive && StuckHistory()[3].closed && StuckHistory()[3].phase == HookCompleted
  {
    var run := StuckHistory();
    var c := CallShutdown(false, Throws, NoFault, Meanwhile({}, {}), Meanwhile({}, {}));
    assert run[1] == After(run[0], Init(true, false)).0;
    assert run[2] == After(run[1], Accept(7)).0;
    assert {7} - {} == {7};
    assert run[3] == After(run[2], c).0;
    forall k | 0 < k < |run| ensures MovesTo(Next, run, k) {
      assert k == 1 || k == 2 || k == 3;
    }
  }

  /**
   A shutdown that succeeds from idle did each part exactly once: the drain always, the hook if this
   process is the coordinator and has one, the hook-done rendezvous if there was anyone to meet.
   */
  lemma SuccessDidEachPartOnce(run: seq<State>, k: nat, c: Call)
    requires IsRun(Start, Next, run) && k < |run| && c.CallShutdown?
    requires run[k].alive && run[k].phase == Idle && After(run[k], c).1 == Done(true)
    ensures var s := After(run[k], c).0;
      && !s.alive && s.drains == 1
      && s.hooks == (if run[k].coordinator && c.hook != NoHook then 1 else 0)
      && s.rendezvous == (if Collective(run[k], c.trivial) then 1 else 0)
  {
    ReachableInv(run, k);
    BegunKeepsInv(run[k], c);
  }

  /** When a teardown is under way, exactly the entry point that can continue it is admitted. */
  lemma OnlyTheOwnerContinues(run: seq<State>, k: nat, c: Call)
    requires IsRun(Start, Next, run) && k < |run| && run[k].phase != Idle
    requires c.CallFinalize? || c.CallLeave? || c.CallShutdown?
    ensures After(run[k], c) == (run[k], Threw) <==>
      match run[k].phase
      case Finalizing => !c.CallFinalize?
      case LocalDeparture => !c.CallLeave?
      case _ => !c.CallShutdown?
  {
    ReachableInv(run, k);
  }

  // ---- The code, store by store ----

  /**
   The process-wide runtime. `safe` records that at every single store so far a non-idle phase came
   with closed admission; the three counts are history.
   */
  class Runtime {
    var alive: bool
    var coordinator: bool
    var remote: bool
    var phase: Phase
    var closed: bool
    var drainStarted: bool
    var children: set<nat>
    var familyActive: bool
    var family: set<nat>
    ghost var hooks: nat
    ghost var rendezvous: nat
    ghost var drains: nat
    ghost var safe: bool

    ghost function Contents(): State reads this {
      State(alive, coordinator, remote, phase, closed, drainStarted, children, familyActive, family,
            hooks, rendezvous, drains)
    }

    constructor ()
      ensures Contents() == FRESH && safe
    {
      alive, coordinator, remote, phase, closed, drainStarted := false, false, false, Idle, false, false;
      children, familyActive, family := {}, false, {};
      hooks, rendezvous, drains, safe := 0, 0, 0, true;
    }

    method StorePhase(p: Phase)
      modifies this`phase, this`safe
      ensures phase == p && safe == (old(safe) && (p != Idle ==> closed))
    {
      phase := p;
      safe := safe && (phase != Idle ==> closed);
    }

    method StoreClosed(b: bool)
      modifies this`closed, this`safe
      ensures closed == b && safe == (old(safe) && (phase != Idle ==> b))
    {
      closed := b;
      safe := safe && (phase != Idle ==> closed);
    }

    method Init(coordinator: bool, remote: bool) returns (ok: bool)
      requires Inv(Contents())
      modifies this
      ensures Contents() == After(old(Contents()), Call.Init(coordinator, remote)).0
      ensures safe == old(safe) && ok == !old(alive)
    {
      ok := !alive;
      if ok {
        this.alive, this.coordinator, this.remote := true, coordinator, remote;
        hooks, rendezvous, drains := 0, 0, 0;
      }
    }

    /** The surroundings move on while this process waits. */
    method Elapse(m: Meanwhile)
      modifies this`children, this`family
      ensures children == old(children) - m.retired && family == m.family
    {
      children := children - m.retired;
      family := m.family;
    }

    /** Admission closes, the phase leaves idle, and the drain is announced once. */
    method BeginFinalization()
      modifies this`phase, this`closed, this`drainStarted, this`drains, this`safe
      ensures closed && drainStarted && phase == (if old(phase) == Idle then Finalizing else old(phase))
      ensures drains == if old(drainStarted) then old(drains) else old(drains) + 1
      ensures old(safe) ==> safe
    {
      StoreClosed(true);
      if phase == Idle {
        StorePhase(Finalizing);
      }
      if !drainStarted {
        drains := drains + 1;
        drainStarted := true;
      }
    }

    method DeleteRuntime()
      requires closed
      modifies this`alive, this`phase, this`closed, this`drainStarted, this`safe
      ensures !alive && phase == Idle && !closed && !drainStarted
      ensures old(safe) ==> safe
    {
      StorePhase(Finalizing);
      alive := false;
      drainStarted := false;
      StorePhase(Idle);
      StoreClosed(false);
    }

    method FinalizeImpl(m: Meanwhile) returns (done: bool)
      modifies this
      ensures Contents() == Finalized(old(Contents()), m)
      ensures done == (old(alive) && Settled(Amid(old(Contents()), m)))
      ensures old(safe) ==> safe
    {
      if !alive {
        return false;
      }
      BeginFinalization();
      Elapse(m);
      if children != {} {
        return false;
      }
      if familyActive {
        if family != {} {
          return false;
        }
      }
      DeleteRuntime();
      return true;
    }

    method ResetToIdle()
      modifies this`phase, this`closed, this`safe
      ensures phase == Idle && !closed
      ensures old(safe) ==> safe
    {
      StorePhase(Idle);
      StoreClosed(false);
    }

    /** close_teardown_admission_and_claim_state; false stands for the thrown logic error. */
    method CloseAdmissionAndClaim(desired: Phase) returns (admitted: bool)
      modifies this`phase, this`closed, this`safe
      ensures admitted == Admits(old(Contents()), desired)
      ensures closed && phase == if admitted then desired else old(phase)
      ensures old(safe) ==> safe
    {
      if closed {
        if phase == desired {
          return true;
        }
        return false;
      }
      StoreClosed(true);
      if phase != Idle {
        return false;
      }
      StorePhase(desired);
      return true;
    }

    method Finalize(m: Meanwhile) returns (reply: Reply)
      requires Inv(Contents())
      modifies this
      ensures (Contents(), reply) == After(old(Contents()), CallFinalize(m))
      ensures old(safe) ==> safe
    {
      var admitted := CloseAdmissionAndClaim(Finalizing);
      if !admitted {
        return Threw;
      }
      if !alive {
        ResetToIdle();
        return Done(false);
      }
      var done := FinalizeImpl(m);
      return Done(done);
    }

    method Leave(canLeave: bool, m: Meanwhile) returns (reply: Reply)
      requires Inv(Contents())
      modifies this
      ensures (Contents(), reply) == After(old(Contents()), CallLeave(canLeave, m))
      ensures old(safe) ==> safe
    {
      var admitted := CloseAdmissionAndClaim(LocalDeparture);
      if !admitted {
        return Threw;
      }
      if !alive {
        ResetToIdle();
        return Done(false);
      }
      if coordinator && !canLeave {
        ResetToIdle();
        return Threw;
      }
      var done := FinalizeImpl(m);
      return Done(done);
    }

    /** The coordinator's hook; false when it throws. */
    method RunHook(hook: Hook) returns (returned: bool)
      requires closed
      modifies this`phase, this`safe, this`hooks
      ensures phase == HookCompleted && hooks == old(hooks) + 1 && returned == (hook != Throws)
      ensures old(safe) ==> safe
    {
      StorePhase(HookRunning);
      hooks := hooks + 1;
      returned := hook != Throws;
      StorePhase(HookCompleted);
    }

    /** The collective part up to finalization; false when it threw. */
    method CollectiveProtocol(ghost trivial: bool, hook: Hook, fault: Fault, first: Meanwhile) returns (ok: bool)
      requires alive && closed && phase == Idle && Collective(Contents(), trivial)
      modifies this
      ensures ok == !Fails(old(Contents()), trivial, hook, fault)
      ensures Contents() ==
              if TwoAttempts(old(Contents()), trivial, hook, fault)
              then Finalized(Prepared(old(Contents()), trivial, hook, fault), first)
              else Prepared(old(Contents()), trivial, hook, fault)
      ensures old(safe) ==> safe
    {
      if fault == EntryFails {
        return false;
      }
      StorePhase(CollectiveEntered);
      if fault == FenceFails {
        return false;
      }
      ok := HookAndRendezvous(hook, fault);
      if !ok && fault == NoFault {
        var _ := FinalizeImpl(first);
      }
    }

    /** The hook, if this process has one to run, and then the rendezvous, whatever the hook did. */
    method HookAndRendezvous(hook: Hook, fault: Fault) returns (ok: bool)
      requires closed && phase == CollectiveEntered
      modifies this`phase, this`safe, this`hooks, this`rendezvous
      ensures phase == if coordinator && hook != NoHook then HookCompleted else CollectiveEntered
      ensures hooks == old(hooks) + (if coordinator && hook != NoHook then 1 else 0)
      ensures rendezvous == old(rendezvous) + 1
      ensures ok == (fault != RendezvousFails && fault != DrainWaitFails && !(coordinator && hook == Throws))
      ensures old(safe) ==> safe
    {
      ok := true;
      if coordinator && hook != NoHook {
        ok := RunHook(hook);
      }
      rendezvous := rendezvous + 1;
      if fault == RendezvousFails || fault == DrainWaitFails {
        ok := false;
      }
    }

    /** The path of a process that knows no coordinator at all: neither hook nor barriers matter. */
    method ShutdownSingle(ghost trivial: bool, ghost hook: Hook, ghost fault: Fault, first: Meanwhile)
      returns (reply: Reply)
      requires alive && closed && phase == Idle && !coordinator && !remote
      modifies this
      ensures Contents() == Finalized(Prepared(old(Contents()), trivial, hook, fault), first)
      ensures reply == Answer(old(Contents()), first)
      ensures old(safe) ==> safe
    {
      StorePhase(CollectiveEntered);
      var done := FinalizeImpl(first);
      return Done(done);
    }

    /** The path of a coordinator alone in its group. */
    method ShutdownAlone(hook: Hook, ghost fault: Fault, first: Meanwhile) returns (reply: Reply)
      requires alive && closed && phase == Idle && coordinator
      modifies this
      ensures Contents() == Finalized(Prepared(old(Contents()), true, hook, fault), first)
      ensures reply == if hook == Throws then Threw else Answer(old(Contents()), first)
      ensures old(safe) ==> safe
    {
      StorePhase(CollectiveEntered);
      if hook != NoHook {
        var returned := RunHook(hook);
        if !returned {
          var _ := FinalizeImpl(first);
          return Threw;
        }
      }
      var done := FinalizeImpl(first);
      return Done(done);
    }

    method ShutdownTogether(ghost trivial: bool, hook: Hook, fault: Fault, first: Meanwhile, second: Meanwhile)
      returns (reply: Reply)
      requires alive && closed && phase == Idle && Collective(Contents(), trivial)
      modifies this
      ensures (Contents(), reply) == Begun(old(Contents()), trivial, hook, fault, first, second)
      ensures old(safe) ==> safe
    {
      var ok := CollectiveProtocol(trivial, hook, fault, first);
      if !ok {
        var _ := FinalizeImpl(if fault == NoFault then second else first);
        return Threw;
      }
      var done := FinalizeImpl(first);
      return Done(done);
    }

    /** close_teardown_admission_for_shutdown: whether to throw, and whether to resume. */
    method CloseAdmissionForShutdown() returns (admitted: bool, resume: bool)
      modifies this`closed, this`safe
      ensures resume == Resumes(old(Contents()))
      ensures admitted == (resume || (!old(closed) && phase == Idle))
      ensures closed == (old(closed) || admitted)
      ensures old(safe) ==> safe
    {
      if closed {
        resume := phase == CollectiveEntered || phase == HookCompleted;
        return resume, resume;
      }
      if phase != Idle {
        return false, false;
      }
      StoreClosed(true);
      return true, false;
    }

    method Shutdown(trivial: bool, hook: Hook, fault: Fault, first: Meanwhile, second: Meanwhile) returns (reply: Reply)
      requires Inv(Contents())
      modifies this
      ensures (Contents(), reply) == After(old(Contents()), CallShutdown(trivial, hook, fault, first, second))
      ensures old(safe) ==> safe
    {
      var admitted, resume := CloseAdmissionForShutdown();
      if !admitted {
        return Threw;
      }
      if !alive {
        ResetToIdle();
        return Done(false);
      }
      if resume {
        var done := FinalizeImpl(first);
        return Done(done);
      }
      reply := BeginShutdown(trivial, hook, fault, first, second);
    }

    method BeginShutdown(trivial: bool, hook: Hook, fault: Fault, first: Meanwhile, second: Meanwhile)
      returns (reply: Reply)
      requires alive && closed && phase == Idle
      modifies this
      ensures (Contents(), reply) == Begun(old(Contents()), trivial, hook, fault, first, second)
      ensures old(safe) ==> safe
    {
      if !coordinator && !remote {
        reply := ShutdownSingle(trivial, hook, fault, first);
      } else if coordinator && trivial {
        reply := ShutdownAlone(hook, fault, first);
      } else {
        reply := ShutdownTogether(trivial, hook, fault, first, second);
      }
    }
  }
}

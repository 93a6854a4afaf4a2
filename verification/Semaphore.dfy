/**
 The POSIX semaphore: a shared count changed by compare-and-swap loops, with futex sleep and
 wake. One step per atomic operation; sleeping and the kernel's check of the count are one step.
 */
module Semaphore {
  import opened Runs

  type Tid = nat

  const INT_MAX := 0x7fff_ffff
  const UINT_MAX := 0xffff_ffff

  /** Which try_wait this is: alone, in wait(), or the first, looping or last one of try_wait_for. */
  datatype Mode = Once | Forever | First | Loop | Final

  /** The next operation of a thread. `Load` and `Cas` are try_wait's; `Pause` is about to sleep. */
  datatype Pc =
    | Idle
    | Load(mode: Mode)
    | Cas(mode: Mode, v: nat)
    | Pause(mode: Mode)
    | Asleep(mode: Mode)
    | PostLoad(n: nat)
    | PostCas(v: nat, n: nat)
    | WakeSome(n: nat)

  /** Why a native wait ends: a recheck, the deadline, or an error that wait() reports. */
  datatype Reason = Recheck | Expired | Failed

  /** The last four are history; `largest` is the largest post that has succeeded so far. */
  datatype Sem = Sem(
    count: nat, max: nat, pcs: map<Tid, Pc>, initial: nat, posted: nat, acquired: nat, largest: nat)

  datatype Step =
    | BeginWait(t: Tid, mode: Mode)
    | BeginPost(t: Tid, n: nat)
    | Try(t: Tid, spurious: bool)
    | Sleep(t: Tid)
    | Leave(t: Tid, reason: Reason)
    | Post(t: Tid, spurious: bool)
    | Wake(t: Tid, woken: set<Tid>)

  function At(s: Sem, t: Tid): Pc { if t in s.pcs then s.pcs[t] else Idle }

  function Go(s: Sem, t: Tid, pc: Pc): Sem { s.(pcs := s.pcs[t := pc]) }

  /** init_default and init_named: an initial value above the maximum leaves an unusable semaphore. */
  function Fresh(initial: nat, max: nat): Sem {
    if initial > max then Sem(0, 0, map[], 0, 0, 0, 0) else Sem(initial, max, map[], initial, 0, 0, 0)
  }

  ghost predicate Init(s: Sem) {
    exists initial: nat, max: nat :: initial <= UINT_MAX && max <= UINT_MAX && s == Fresh(initial, max)
  }

  /** Where try_wait's failure leads. */
  function Empty(mode: Mode): Pc {
    match mode
    case Once | Final => Idle
    case Forever => Pause(Forever)
    case First => Load(Loop)
    case Loop => Pause(Loop)
  }

  /** try_wait holds `v`, just read: give up at zero, otherwise try to take one. */
  function Seen(mode: Mode, v: nat): Pc { if v == 0 then Empty(mode) else Cas(mode, v) }

  /** The end of a native wait. */
  function After(mode: Mode, reason: Reason): Pc {
    if mode == Forever then (if reason == Failed then Idle else Load(Forever))
    else if reason == Expired then Load(Final) else Load(Loop)
  }

  /** The number of sleepers the kernel is asked for: the count is cast to a signed integer, negatives to zero. */
  function Requested(n: nat): nat { if n <= INT_MAX then n else 0 }

  ghost function Sleepers(s: Sem): set<Tid> { set t | t in s.pcs && s.pcs[t].Asleep? }

  /** Awake threads that will look at the count again before they sleep or give up. */
  ghost function Contenders(s: Sem): set<Tid> { set t | t in s.pcs && (s.pcs[t].Load? || s.pcs[t].Cas?) }

  ghost predicate Enabled(s: Sem, step: Step) {
    var pc := At(s, step.t);
    match step
    case BeginWait(_, mode) => pc.Idle? && (mode == Once || mode == Forever || mode == First)
    case BeginPost(_, n) => pc.Idle? && n <= UINT_MAX
    case Try(_, _) => pc.Load? || pc.Cas?
    case Sleep(_) => pc.Pause?
    case Leave(_, _) => pc.Pause? || pc.Asleep?
    case Post(_, _) => pc.PostLoad? || pc.PostCas?
    case Wake(_, woken) =>
      && pc.WakeSome? && woken <= Sleepers(s)
      && (|woken| >= Requested(pc.n) || woken == Sleepers(s))
  }

  /** The waiting side. */
  function WaitOp(s: Sem, step: Step): Sem {
    var t, pc := step.t, At(s, step.t);
    match step
    case BeginWait(_, mode) => Go(s, t, Load(mode))
    case Try(_, spurious) =>
      (match pc
       case Load(mode) => Go(s, t, Seen(mode, s.count))
       case Cas(mode, v) =>
         if s.count == v && v > 0 && !spurious then Go(s, t, Idle).(count := v - 1, acquired := s.acquired + 1)
         else if mode == Loop then Go(s, t, Load(Loop))
         else Go(s, t, Seen(mode, s.count))
       case _ => s)
    case Sleep(_) =>
      if !pc.Pause? then s
      else Go(s, t, if s.count == 0 then Asleep(pc.mode) else After(pc.mode, Recheck))
    case Leave(_, reason) => if !pc.Pause? && !pc.Asleep? then s else Go(s, t, After(pc.mode, reason))
    case _ => s
  }

  /** The posting side. */
  function PostOp(s: Sem, step: Step): Sem {
    var t, pc := step.t, At(s, step.t);
    match step
    case BeginPost(_, n) => if n == 0 then s else Go(s, t, PostLoad(n))
    case Post(_, spurious) =>
      (match pc
       case PostLoad(n) => Go(s, t, PostCas(s.count, n))
       case PostCas(v, n) =>
         if n > s.max - v then Go(s, t, Idle)
         else if s.count == v && !spurious
         then Go(s, t, WakeSome(n))
              .(count := v + n, posted := s.posted + n, largest := if n > s.largest then n else s.largest)
         else Go(s, t, PostCas(s.count, n))
       case _ => s)
    case Wake(_, woken) =>
      var s' := s.(pcs := map u | u in s.pcs ::
                     if u in woken && s.pcs[u].Asleep? then After(s.pcs[u].mode, Recheck) else s.pcs[u]);
      Go(s', t, Idle)
    case _ => s
  }

  function Apply(s: Sem, step: Step): Sem {
    if step.BeginPost? || step.Post? || step.Wake? then PostOp(s, step) else WaitOp(s, step)
  }

  ghost predicate Next(s: Sem, s': Sem) { exists step :: Enabled(s, step) && s' == Apply(s, step) }

  // ---- Conservation ----

  ghost predicate PosterOk(s: Sem, t: Tid) {
    && (At(s, t).PostCas? ==> At(s, t).v <= s.max)
    && (At(s, t).WakeSome? ==> At(s, t).n <= s.largest)
  }

  ghost predicate Conserved(s: Sem) {
    && s.count + s.acquired == s.initial + s.posted
    && s.count <= s.max <= UINT_MAX
    && s.largest <= s.max
    && forall t: Tid :: PosterOk(s, t)
  }

  lemma ApplyConserves(s: Sem, step: Step)
    requires Conserved(s) && Enabled(s, step)
    ensures Conserved(Apply(s, step))
  {
    assert PosterOk(s, step.t);
    forall t: Tid ensures PosterOk(Apply(s, step), t) {
      assert PosterOk(s, t);
      PosterStaysOk(s, step, t);
    }
  }

  lemma PosterStaysOk(s: Sem, step: Step, t: Tid)
    requires PosterOk(s, t) && PosterOk(s, step.t) && s.count <= s.max
    ensures PosterOk(Apply(s, step), t)
  {
  }

  /**
   Conservation: in every run the count is the initial value plus what successful posts added
   minus what waits took, and never exceeds its maximum.
   */
  lemma Conservation(run: seq<Sem>, k: nat)
    requires IsRun(Init, Next, run) && k < |run|
    ensures run[k].count == run[k].initial + run[k].posted - run[k].acquired
    ensures run[k].count <= run[k].max
  {
    forall s, s' | Conserved(s) && Next(s, s') ensures Conserved(s') {
      var step :| Enabled(s, step) && s' == Apply(s, step);
      ApplyConserves(s, step);
    }
    InvariantHolds(Init, Next, Conserved, run, k);
  }

  // ---- Pending wakes ----

  ghost function Wakes(s: Sem): map<Tid, nat> { map t | t in s.pcs && s.pcs[t].WakeSome? :: s.pcs[t].n }

  ghost function Total(m: map<Tid, nat>): nat {
    if m == map[] then 0 else var t :| t in m; m[t] + Total(m - {t})
  }

  /** Whichever entry is taken out first, the sum is the same. */
  lemma {:induction false} TotalWithout(m: map<Tid, nat>, t: Tid)
    requires t in m
    ensures Total(m) == m[t] + Total(m - {t})
    decreases |m|
  {
    var u :| u in m && Total(m) == m[u] + Total(m - {u});
    if u != t {
      TotalWithout(m - {u}, t);
      TotalWithout(m - {t}, u);
      assert m - {u} - {t} == m - {t} - {u};
    }
  }

  lemma TotalUpdate(m: map<Tid, nat>, t: Tid, n: nat)
    requires t !in m
    ensures Total(m[t := n]) == Total(m) + n
  {
    TotalWithout(m[t := n], t);
    assert m[t := n] - {t} == m;
  }

  // ---- No lost wakeup ----

  /** Enough wakes are under way, or enough threads awake, for every unit there is. */
  ghost predicate NoneStranded(s: Sem) {
    Sleepers(s) != {} ==> s.count <= Total(Wakes(s)) + |Contenders(s)|
  }

  /** One thread moves: what happens to the three quantities. */
  lemma MoveEffect(s: Sem, t: Tid, pc: Pc)
    ensures var s' := Go(s, t, pc);
      && Sleepers(s') == (if pc.Asleep? then Sleepers(s) + {t} else Sleepers(s) - {t})
      && Contenders(s') == (if pc.Load? || pc.Cas? then Contenders(s) + {t} else Contenders(s) - {t})
      && Wakes(s') == (if pc.WakeSome? then Wakes(s)[t := pc.n] else Wakes(s) - {t})
  {
  }

  /** A waiter moves: pending wakes stay, and contenders change by at most this thread. */
  lemma WaiterEffect(s: Sem, t: Tid, pc: Pc)
    requires !At(s, t).WakeSome? && !pc.WakeSome?
    ensures Sleepers(Go(s, t, pc)) == (if pc.Asleep? then Sleepers(s) + {t} else Sleepers(s) - {t})
    ensures Wakes(Go(s, t, pc)) == Wakes(s)
    ensures var here: int := if pc.Load? || pc.Cas? then 1 else 0;
      var before: int := if At(s, t).Load? || At(s, t).Cas? then 1 else 0;
      |Contenders(Go(s, t, pc))| == |Contenders(s)| + here - before
  {
    MoveEffect(s, t, pc);
    assert t !in Wakes(s);
    assert t in Contenders(s) <==> At(s, t).Load? || At(s, t).Cas?;
  }

  lemma TryStrandsNone(s: Sem, step: Step)
    requires NoneStranded(s) && Enabled(s, step) && step.Try?
    ensures NoneStranded(WaitOp(s, step))
  {
    var s' := WaitOp(s, step);
    WaiterEffect(s, step.t, At(s', step.t));
    var m := Go(s, step.t, At(s', step.t));
    assert s'.pcs == m.pcs;
    assert Sleepers(s') == Sleepers(m) && Contenders(s') == Contenders(m) && Wakes(s') == Wakes(m);
  }

  lemma WaitOpStrandsNone(s: Sem, step: Step)
    requires NoneStranded(s) && Enabled(s, step)
    requires step.BeginWait? || step.Sleep? || step.Leave?
    ensures NoneStranded(WaitOp(s, step))
  {
    var s' := WaitOp(s, step);
    WaiterEffect(s, step.t, At(s', step.t));
    assert s' == Go(s, step.t, At(s', step.t));
  }

  /** A poster moves: nothing changes unless it now owes a wake. */
  lemma PosterEffect(s: Sem, t: Tid, pc: Pc)
    requires At(s, t).Idle? || At(s, t).PostLoad? || At(s, t).PostCas?
    requires pc.Idle? || pc.PostLoad? || pc.PostCas? || pc.WakeSome?
    ensures Sleepers(Go(s, t, pc)) == Sleepers(s) && Contenders(Go(s, t, pc)) == Contenders(s)
    ensures Total(Wakes(Go(s, t, pc))) == Total(Wakes(s)) + if pc.WakeSome? then pc.n else 0
  {
    MoveEffect(s, t, pc);
    assert t !in Wakes(s) && t !in Contenders(s);
    assert Wakes(s) - {t} == Wakes(s);
    if pc.WakeSome? {
      TotalUpdate(Wakes(s), t, pc.n);
    }
  }

  lemma PostOpStrandsNone(s: Sem, step: Step)
    requires NoneStranded(s) && Enabled(s, step) && (step.BeginPost? || step.Post?)
    ensures NoneStranded(PostOp(s, step))
  {
    var s' := PostOp(s, step);
    var pc := At(s', step.t);
    PosterEffect(s, step.t, pc);
    var m := Go(s, step.t, pc);
    if s' != s {
      assert Sleepers(s') == Sleepers(m) && Contenders(s') == Contenders(m) && Wakes(s') == Wakes(m);
    }
  }

  /** A wake of `n` threads turns `n` pending wakes into contenders, or nobody sleeps any more. */
  lemma WakeStrandsNone(s: Sem, step: Step)
    requires NoneStranded(s) && Enabled(s, step) && step.Wake? && At(s, step.t).n <= INT_MAX
    ensures NoneStranded(PostOp(s, step))
  {
    var t, woken := step.t, step.woken;
    WakeEffect(s, t, woken);
    TotalWithout(Wakes(s), t);
    assert Contenders(s) !! woken;
    assert |Contenders(s) + woken| == |Contenders(s)| + |woken|;
  }

  lemma WakeEffect(s: Sem, t: Tid, woken: set<Tid>)
    requires At(s, t).WakeSome? && woken <= Sleepers(s)
    ensures t in Wakes(s) && Wakes(s)[t] == At(s, t).n
    ensures var s' := PostOp(s, Wake(t, woken));
      && Sleepers(s') == Sleepers(s) - woken
      && Contenders(s') == Contenders(s) + woken
      && Wakes(s') == Wakes(s) - {t}
  {
  }

  /** The native wake call can express every successful post so far. */
  ghost predicate Inv(s: Sem) { Conserved(s) && (s.largest <= INT_MAX ==> NoneStranded(s)) }

  lemma ApplyStrandsNone(s: Sem, step: Step)
    requires Conserved(s) && NoneStranded(s) && s.largest <= INT_MAX && Enabled(s, step)
    ensures NoneStranded(Apply(s, step))
  {
    match step
    case BeginPost(_, _) | Post(_, _) => PostOpStrandsNone(s, step);
    case Wake(t, _) =>
      assert PosterOk(s, t);
      WakeStrandsNone(s, step);
    case Try(_, _) => TryStrandsNone(s, step);
    case _ => WaitOpStrandsNone(s, step);
  }

  lemma StepKeepsInv(s: Sem, s': Sem)
    requires Inv(s) && Next(s, s')
    ensures Inv(s') && s.largest <= s'.largest && s'.max == s.max
  {
    var step :| Enabled(s, step) && s' == Apply(s, step);
    ApplyConserves(s, step);
    if s.largest <= INT_MAX {
      ApplyStrandsNone(s, step);
    }
  }

  lemma ReachableInv(run: seq<Sem>, k: nat)
    requires IsRun(Init, Next, run) && k < |run|
    ensures Inv(run[k])
  {
    forall s, s' | Inv(s) && Next(s, s') ensures Inv(s') {
      StepKeepsInv(s, s');
    }
    InvariantHolds(Init, Next, Inv, run, k);
  }

  lemma {:induction false} MaximumIsFixed(run: seq<Sem>, k: nat)
    requires IsRun(Init, Next, run) && k < |run|
    ensures run[k].max == run[0].max && run[k].largest <= run[0].max
  {
    ReachableInv(run, k);
    if k > 0 {
      ReachableInv(run, k - 1);
      RunStep(Init, Next, run, k);
      StepKeepsInv(run[k - 1], run[k]);
      MaximumIsFixed(run, k - 1);
    }
  }

  /**
   No lost wakeup, for every maximum: as long as no post of more than INT_MAX units has succeeded,
   while any waiter sleeps the count is at most the pending wakes plus the awake contenders. In
   particular, when no wake is pending and nobody is contending, a sleeper means that there is
   nothing to take. interprocess_semaphore posts single units, so it always has this.
   */
  lemma NoLostWakeup(run: seq<Sem>, k: nat)
    requires IsRun(Init, Next, run) && k < |run|
    ensures run[k].largest <= INT_MAX && Sleepers(run[k]) != {} ==>
      && run[k].count <= Total(Wakes(run[k])) + |Contenders(run[k])|
      && (Contenders(run[k]) == {} && (forall t: Tid :: !At(run[k], t).WakeSome?) ==> run[k].count == 0)
  {
    ReachableInv(run, k);
    if forall t: Tid :: !At(run[k], t).WakeSome? {
      NoWakesPending(run[k]);
    }
  }

  lemma NoWakesPending(s: Sem)
    requires forall t: Tid :: !At(s, t).WakeSome?
    ensures Wakes(s) == map[]
  {
    forall t: Tid ensures t !in Wakes(s) {
      assert !At(s, t).WakeSome?;
    }
  }

  /**
   What a post of more than INT_MAX units can lead to: threads 1 and 2 sleep, thread 3 posts `n`
   units, the kernel, asked for none, wakes one thread, and that one takes its unit and leaves.
   */
  ghost function StrandingRun(max: nat, n: nat): seq<Sem>
    requires n > 0
  {
    var z := Asleep(Forever);
    [ Sem(0, max, map[], 0, 0, 0, 0),
      Sem(0, max, map[1 := Load(Forever)], 0, 0, 0, 0),
      Sem(0, max, map[1 := Pause(Forever)], 0, 0, 0, 0),
      Sem(0, max, map[1 := z], 0, 0, 0, 0),
      Sem(0, max, map[1 := z, 2 := Load(Forever)], 0, 0, 0, 0),
      Sem(0, max, map[1 := z, 2 := Pause(Forever)], 0, 0, 0, 0),
      Sem(0, max, map[1 := z, 2 := z], 0, 0, 0, 0),
      Sem(0, max, map[1 := z, 2 := z, 3 := PostLoad(n)], 0, 0, 0, 0),
      Sem(0, max, map[1 := z, 2 := z, 3 := PostCas(0, n)], 0, 0, 0, 0),
      Sem(n, max, map[1 := z, 2 := z, 3 := WakeSome(n)], 0, n, 0, n),
      Sem(n, max, map[1 := Load(Forever), 2 := z, 3 := Idle], 0, n, 0, n),
      Sem(n, max, map[1 := Cas(Forever, n), 2 := z, 3 := Idle], 0, n, 0, n),
      Sem(n - 1, max, map[1 := Idle, 2 := z, 3 := Idle], 0, n, 1, n) ]
  }

  ghost function StrandingStep(n: nat, k: nat): Step {
    match k
    case 1 => BeginWait(1, Forever)
    case 2 => Try(1, false)
    case 3 => Sleep(1)
    case 4 => BeginWait(2, Forever)
    case 5 => Try(2, false)
    case 6 => Sleep(2)
    case 7 => BeginPost(3, n)
    case 8 => Post(3, false)
    case 9 => Post(3, false)
    case 10 => Wake(3, {1})
    case _ => Try(1, false)
  }

  lemma SleepersMove(max: nat, n: nat, k: nat)
    requires INT_MAX < n <= max <= UINT_MAX && 0 < k < 7
    ensures var run := StrandingRun(max, n);
      Enabled(run[k - 1], StrandingStep(n, k)) && run[k] == Apply(run[k - 1], StrandingStep(n, k))
  {
  }

  lemma PosterMoves(max: nat, n: nat, k: nat)
    requires INT_MAX < n <= max <= UINT_MAX && 7 <= k < 10
    ensures var run := StrandingRun(max, n);
      Enabled(run[k - 1], StrandingStep(n, k)) && run[k] == Apply(run[k - 1], StrandingStep(n, k))
  {
  }

  lemma WokenMoves(max: nat, n: nat, k: nat)
    requires INT_MAX < n <= max <= UINT_MAX && 10 <= k < 13
    ensures var run := StrandingRun(max, n);
      Enabled(run[k - 1], StrandingStep(n, k)) && run[k] == Apply(run[k - 1], StrandingStep(n, k))
  {
  }

  /**
   Any post size above INT_MAX that the maximum allows strands a sleeper in some run: one thread
   sleeps, nobody is awake, no wake is pending, and there are units to take.
   */
  lemma StrandingIsRun(max: nat, n: nat)
    requires INT_MAX < n <= max <= UINT_MAX
    ensures IsRun(Init, Next, StrandingRun(max, n))
    ensures var s := StrandingRun(max, n)[12];
      && s.max == max && s.largest == n
      && Sleepers(s) == {2} && Contenders(s) == {} && Total(Wakes(s)) == 0 && s.count == n - 1 > 0
  {
    var run := StrandingRun(max, n);
    assert run[0] == Fresh(0, max);
    forall k | 0 < k < |run| ensures MovesTo(Next, run, k) {
      if k < 7 { SleepersMove(max, n, k); } else if k < 10 { PosterMoves(max, n, k); } else { WokenMoves(max, n, k); }
    }
    assert Wakes(run[12]) == map[];
  }

  /**
   The exact condition. Fix a maximum and the largest post its users make: no run strands a sleeper
   if and only if that post size, or else the maximum, fits the signed count of the native wake call.
   */
  lemma NoLostWakeupExactly(max: nat, n: nat)
    requires max <= UINT_MAX
    ensures (forall run: seq<Sem>, k: nat ::
               IsRun(Init, Next, run) && k < |run| && run[0].max == max && run[k].largest <= n ==> NoneStranded(run[k]))
            <==> n <= INT_MAX || max <= INT_MAX
  {
    if n <= INT_MAX || max <= INT_MAX {
      forall run: seq<Sem>, k: nat | IsRun(Init, Next, run) && k < |run| && run[0].max == max && run[k].largest <= n
        ensures NoneStranded(run[k])
      {
        MaximumIsFixed(run, k);
        ReachableInv(run, k);
      }
    } else {
      StrandingIsRun(max, INT_MAX + 1);
      var run := StrandingRun(max, INT_MAX + 1);
      assert run[0].max == max && run[12].largest <= n && !NoneStranded(run[12]);
    }
  }

  // ---- One thread alone ----

  function Trying(s: Sem, t: Tid, n: nat): Sem
    decreases n
  {
    if n == 0 then s else Trying(WaitOp(s, Try(t, false)), t, n - 1)
  }

  function Posting(s: Sem, t: Tid, n: nat): Sem
    decreases n
  {
    if n == 0 then s else Posting(PostOp(s, Post(t, false)), t, n - 1)
  }

  /** try_wait alone takes one unit exactly when there is one. */
  lemma TryWaitAlone(s: Sem, t: Tid)
    requires At(s, t).Idle?
    ensures var f := Trying(WaitOp(s, BeginWait(t, Once)), t, 2);
      && At(f, t).Idle?
      && (if s.count > 0 then f.count == s.count - 1 && f.acquired == s.acquired + 1
          else f.count == 0 && f.acquired == s.acquired)
  {
    var s0 := WaitOp(s, BeginWait(t, Once));
    var s1 := WaitOp(s0, Try(t, false));
    assert Trying(s0, t, 2) == Trying(s1, t, 1) == WaitOp(s1, Try(t, false));
  }

  /** post alone adds its units exactly when they fit, and then owes a wake for all of them. */
  lemma PostAlone(s: Sem, t: Tid, n: nat)
    requires At(s, t).Idle? && n > 0 && s.count <= s.max
    ensures var f := Posting(PostOp(s, BeginPost(t, n)), t, 2);
      if s.count + n <= s.max
      then At(f, t) == WakeSome(n) && f.count == s.count + n && f.posted == s.posted + n
      else At(f, t).Idle? && f.count == s.count && f.posted == s.posted
  {
    var s0 := PostOp(s, BeginPost(t, n));
    var s1 := PostOp(s0, Post(t, false));
    assert Posting(s0, t, 2) == Posting(s1, t, 1) == PostOp(s1, Post(t, false));
  }
}

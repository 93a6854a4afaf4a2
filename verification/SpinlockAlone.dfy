/**
 One lock() and one unlock() of the shared spinlock running with no interference: when the lock
 is obtained, and what is left behind.
 */
module SpinlockAlone {
  import opened Runs
  import opened Processes
  import opened Spinlock

  /** `t` may take its next operation. */
  predicate Ready(s: State, t: Thread) { t in s.threads && s.threads[t].wait.backoff <= UINT64_MAX }

  /** `s'` is `s` after the next operation of `t`. */
  predicate Moved(s: State, s': State, t: Thread, p: Probe, e: Env) {
    Ready(s, t) && s' == Apply(s, Advance(t, p, e))
  }

  /** Consecutive states in which nobody but `t` moves; `e(i)` surrounds its operation number `i`. */
  ghost predicate Undisturbed(states: seq<State>, t: Thread, p: Probe, e: nat -> Env) {
    forall i :: 0 < i < |states| ==> Moved(states[i - 1], states[i], t, p, e(i))
  }

  lemma StaysReady(s: State, s': State, t: Thread, p: Probe, e: Env)
    requires Moved(s, s', t, p, e)
    ensures Ready(s', t)
  {
    var op := AdvanceIsOneOp(s, t, p, e);
  }

  /** A thread can always go on by itself for as long as it likes. */
  lemma {:induction false} CanRunAlone(s: State, t: Thread, p: Probe, e: nat -> Env, n: nat)
    returns (states: seq<State>)
    requires Ready(s, t)
    ensures |states| == n + 1 && states[0] == s && Undisturbed(states, t, p, e) && Ready(states[n], t)
  {
    if n == 0 {
      states := [s];
    } else {
      var before := CanRunAlone(s, t, p, e, n - 1);
      var last := Apply(before[n - 1], Advance(t, p, e(n)));
      assert Moved(before[n - 1], last, t, p, e(n));
      StaysReady(before[n - 1], last, t, p, e(n));
      states := before + [last];
      forall i | 0 < i < |states| ensures Moved(states[i - 1], states[i], t, p, e(i)) {
        if i < n {
          assert Moved(before[i - 1], before[i], t, p, e(i));
        }
      }
    }
  }

  /** The words and the position of `t`, which watches nobody yet. */
  predicate Shows(s: State, t: Thread, owner: Word, generation: nat, pc: Pc) {
    && t in s.threads && s.threads[t].pc == pc && s.threads[t].wait.watch == None
    && s.owner == owner && s.generation == generation
  }

  // ---- One operation each ----

  lemma AcquireMove(s: State, s': State, t: Thread, p: Probe, e: Env, pc: Pc)
    requires Moved(s, s', t, p, e) && Shows(s, t, s.owner, s.generation, pc)
    requires pc == TryLoad || pc == TryCas || pc == MarkOdd || pc == Inside
    ensures pc == TryLoad ==> Shows(s', t, s.owner, s.generation, if s.owner == ZERO then TryCas else Pause)
    ensures pc == TryCas && s.owner == ZERO ==> Shows(s', t, Instance(t.inc), s.generation, MarkOdd)
    ensures pc == MarkOdd ==> Shows(s', t, s.owner, s.generation + 1, Inside)
    ensures pc == Inside ==> Shows(s', t, s.owner, s.generation, Inside)
  {
  }

  lemma PauseMove(s: State, s': State, t: Thread, p: Probe, e: Env)
    requires Moved(s, s', t, p, e) && Shows(s, t, s.owner, s.generation, Pause) && e.poll
    ensures Shows(s', t, s.owner, s.generation, TakeLoad)
  {
  }

  lemma ProbeMove(s: State, s': State, t: Thread, p: Probe, e: Env, pc: Pc)
    requires Moved(s, s', t, p, e) && Shows(s, t, s.owner, s.generation, pc) && s.owner != ZERO
    requires pc == TakeLoad || pc == TakeProbe(s.owner)
    ensures pc == TakeLoad ==> Shows(s', t, s.owner, s.generation, TakeProbe(s.owner))
    ensures pc == TakeProbe(s.owner) ==>
      Shows(s', t, s.owner, s.generation,
            if InstanceHasExited(s.owner, Instance(t.inc), p) then TakeBump(s.owner) else StartGeneration)
  {
  }

  lemma TakeMove(s: State, s': State, t: Thread, p: Probe, e: Env, pc: Pc)
    requires Moved(s, s', t, p, e) && Shows(s, t, s.owner, s.generation, pc)
    requires pc == TakeBump(s.owner) || pc == TakeCas(s.owner)
    ensures pc == TakeBump(s.owner) ==> Shows(s', t, s.owner, s.generation + 2, TakeCas(s.owner))
    ensures pc == TakeCas(s.owner) ==> Shows(s', t, Instance(t.inc), s.generation, TakeMarkLoad)
  {
  }

  lemma MarkMove(s: State, s': State, t: Thread, p: Probe, e: Env, pc: Pc)
    requires Moved(s, s', t, p, e) && Shows(s, t, s.owner, s.generation, pc) && !e.weakFails
    requires pc == TakeMarkLoad || pc == TakeMarkCas(s.generation)
    ensures pc == TakeMarkLoad ==> Shows(s', t, s.owner, s.generation, TakeMarkCas(s.generation))
    ensures pc == TakeMarkCas(s.generation) ==>
      Shows(s', t, s.owner, s.generation + (if Odd(s.generation) then 2 else 1), Inside)
  {
  }

  /** Starting to watch, and looking at the owner again: nothing is held and no word changes. */
  predicate Outsider(pc: Pc) { pc.StartGeneration? || pc.StartOwner? || pc.StartEffort? || pc.TryLoad? || pc.Pause? }

  lemma WatchMove(s: State, s': State, t: Thread, p: Probe, e: Env)
    requires Moved(s, s', t, p, e) && s.owner != ZERO
    requires s.threads[t].pc.StartGeneration? || s.threads[t].pc.StartOwner? || s.threads[t].pc.StartEffort?
    ensures Ready(s', t) && s'.owner == s.owner && s'.generation == s.generation
    ensures Outsider(s'.threads[t].pc)
    ensures s.threads[t].pc.StartGeneration? ==> s'.threads[t].pc.StartOwner?
    ensures s.threads[t].pc.StartOwner? ==> s'.threads[t].pc.StartEffort?
    ensures s.threads[t].pc.StartEffort? ==> s'.threads[t].pc.TryLoad?
  {
  }

  lemma LookAgainMove(s: State, s': State, t: Thread, p: Probe, e: Env)
    requires Moved(s, s', t, p, e) && s.owner != ZERO && s.threads[t].pc.TryLoad?
    ensures Ready(s', t) && s'.owner == s.owner && s'.generation == s.generation && s'.threads[t].pc.Pause?
  {
  }

  // ---- One lock() ----

  /** Obtained if open or abandoned, and then marked; untouched otherwise. */
  predicate Decided(s: State, f: State, t: Thread, p: Probe) {
    && t in f.threads
    && (f.threads[t].pc.Inside? <==> s.owner == ZERO || InstanceHasExited(s.owner, Instance(t.inc), p))
    && (f.threads[t].pc.Inside? ==> f.owner == Instance(t.inc) && Odd(f.generation))
    && (!f.threads[t].pc.Inside? ==> f.owner == s.owner && f.generation == s.generation)
  }

  /** Nine states: the call and eight operations. */
  ghost predicate Eight(states: seq<State>, t: Thread, p: Probe, e: nat -> Env) {
    |states| == 9 && Undisturbed(states, t, p, e)
  }

  lemma Nth(states: seq<State>, t: Thread, p: Probe, e: nat -> Env, i: nat)
    requires Eight(states, t, p, e) && 0 < i < 9
    ensures Moved(states[i - 1], states[i], t, p, e(i))
  {
  }

  lemma {:induction false} InsideFrom(states: seq<State>, t: Thread, p: Probe, e: nat -> Env, i: nat, j: nat)
    requires Eight(states, t, p, e) && i <= j < 9 && Shows(states[i], t, states[i].owner, states[i].generation, Inside)
    ensures Shows(states[j], t, states[i].owner, states[i].generation, Inside)
    decreases j
  {
    if i < j {
      InsideFrom(states, t, p, e, i, j - 1);
      Nth(states, t, p, e, j);
      AcquireMove(states[j - 1], states[j], t, p, e(j), Inside);
    }
  }

  lemma FreeAlone(states: seq<State>, t: Thread, p: Probe, e: nat -> Env)
    requires Eight(states, t, p, e) && Shows(states[0], t, ZERO, states[0].generation, TryLoad)
    ensures Shows(states[8], t, Instance(t.inc), states[0].generation + 1, Inside)
  {
    Nth(states, t, p, e, 1);
    AcquireMove(states[0], states[1], t, p, e(1), TryLoad);
    Nth(states, t, p, e, 2);
    AcquireMove(states[1], states[2], t, p, e(2), TryCas);
    Nth(states, t, p, e, 3);
    AcquireMove(states[2], states[3], t, p, e(3), MarkOdd);
    InsideFrom(states, t, p, e, 3, 8);
  }

  /** Load, pause, load and probe the recorded owner. */
  lemma ProbedAlone(states: seq<State>, t: Thread, p: Probe, e: nat -> Env)
    requires Eight(states, t, p, e) && e(2).poll
    requires Shows(states[0], t, states[0].owner, states[0].generation, TryLoad) && states[0].owner != ZERO
    ensures var s := states[0];
      Shows(states[4], t, s.owner, s.generation,
            if InstanceHasExited(s.owner, Instance(t.inc), p) then TakeBump(s.owner) else StartGeneration)
  {
    var owner := states[0].owner;
    Nth(states, t, p, e, 1);
    AcquireMove(states[0], states[1], t, p, e(1), TryLoad);
    Nth(states, t, p, e, 2);
    PauseMove(states[1], states[2], t, p, e(2));
    Nth(states, t, p, e, 3);
    ProbeMove(states[2], states[3], t, p, e(3), TakeLoad);
    Nth(states, t, p, e, 4);
    ProbeMove(states[3], states[4], t, p, e(4), TakeProbe(owner));
  }

  lemma TakenAlone(states: seq<State>, t: Thread, p: Probe, e: nat -> Env)
    requires Eight(states, t, p, e)
    requires Shows(states[4], t, states[4].owner, states[4].generation, TakeBump(states[4].owner))
    ensures Shows(states[6], t, Instance(t.inc), states[4].generation + 2, TakeMarkLoad)
  {
    var owner := states[4].owner;
    Nth(states, t, p, e, 5);
    TakeMove(states[4], states[5], t, p, e(5), TakeBump(owner));
    Nth(states, t, p, e, 6);
    TakeMove(states[5], states[6], t, p, e(6), TakeCas(owner));
  }

  lemma MarkedAlone(states: seq<State>, t: Thread, p: Probe, e: nat -> Env)
    requires Eight(states, t, p, e) && !e(7).weakFails && !e(8).weakFails
    requires Shows(states[6], t, states[6].owner, states[6].generation, TakeMarkLoad)
    ensures states[8].owner == states[6].owner && Odd(states[8].generation)
    ensures t in states[8].threads && states[8].threads[t].pc.Inside?
  {
    var g := states[6].generation;
    Nth(states, t, p, e, 7);
    MarkMove(states[6], states[7], t, p, e(7), TakeMarkLoad);
    Nth(states, t, p, e, 8);
    MarkMove(states[7], states[8], t, p, e(8), TakeMarkCas(g));
  }

  lemma WatchingAlone(states: seq<State>, t: Thread, p: Probe, e: nat -> Env)
    requires Eight(states, t, p, e)
    requires Shows(states[4], t, states[4].owner, states[4].generation, StartGeneration) && states[4].owner != ZERO
    ensures t in states[8].threads && !states[8].threads[t].pc.Inside?
    ensures states[8].owner == states[4].owner && states[8].generation == states[4].generation
  {
    Nth(states, t, p, e, 5);
    WatchMove(states[4], states[5], t, p, e(5));
    Nth(states, t, p, e, 6);
    WatchMove(states[5], states[6], t, p, e(6));
    Nth(states, t, p, e, 7);
    WatchMove(states[6], states[7], t, p, e(7));
    Nth(states, t, p, e, 8);
    LookAgainMove(states[7], states[8], t, p, e(8));
  }

  lemma LockDecided(s: State, states: seq<State>, t: Thread, p: Probe, e: nat -> Env)
    requires Eight(states, t, p, e) && e(2).poll && !e(7).weakFails && !e(8).weakFails
    requires Shows(states[0], t, s.owner, s.generation, TryLoad) && (s.owner == ZERO ==> !Odd(s.generation))
    ensures Decided(s, states[8], t, p)
  {
    if s.owner == ZERO {
      FreeAlone(states, t, p, e);
    } else {
      ProbedAlone(states, t, p, e);
      if InstanceHasExited(s.owner, Instance(t.inc), p) {
        TakenAlone(states, t, p, e);
        MarkedAlone(states, t, p, e);
      } else {
        WatchingAlone(states, t, p, e);
      }
    }
  }

  /**
   From every reachable state, a lock() running alone with a poll due is inside after eight operations
   if and only if the lock was open or its recorded owner detectably exited, whatever it sleeps and
   samples meanwhile; then the hold is its own and marked. Otherwise neither word has changed. The
   weak compare-and-swap of the mark is taken not to fail by itself.
   */
  lemma LockAlone(run: seq<State>, k: nat, states: seq<State>, t: Thread, p: Probe, e: nat -> Env)
    requires IsRun(Init, Next, run) && k < |run| && Live(run[k], t) && run[k].threads[t].pc.Outside?
    requires |states| == 9 && states[0] == Apply(run[k], Lock(t)) && Undisturbed(states, t, p, e)
    requires e(2).poll && !e(7).weakFails && !e(8).weakFails
    ensures Decided(run[k], states[8], t, p)
  {
    ReachableInv(run, k);
    assert run[k].owner == ZERO ==> !Odd(run[k].generation);
    LockDecided(run[k], states, t, p, e);
  }

  /** unlock() by the thread inside opens the lock under an even generation. */
  lemma UnlockAlone(run: seq<State>, k: nat, f: State, t: Thread, p: Probe, e: Env)
    requires IsRun(Init, Next, run) && k < |run|
    requires Live(run[k], t) && run[k].threads[t].pc.Inside? && Moved(Apply(run[k], Unlock(t)), f, t, p, e)
    ensures t in f.threads && f.threads[t].pc.Outside? && f.owner == ZERO && !Odd(f.generation)
  {
    ReachableInv(run, k);
    assert Odd(run[k].generation);
    OpensAlone(Apply(run[k], Unlock(t)), f, t, p, e);
  }

  lemma OpensAlone(s: State, f: State, t: Thread, p: Probe, e: Env)
    requires Moved(s, f, t, p, e) && s.threads[t].pc.ZeroStore?
    ensures t in f.threads && f.threads[t].pc.Outside? && f.owner == ZERO && f.generation == s.generation
  {
  }

  // ---- The object itself ----

  /** The shared words, with nobody else running. */
  class SharedSpinlock {
    var owner: Word
    var generation: nat

    constructor ()
      ensures owner == ZERO && generation == 0
    {
      owner, generation := ZERO, 0;
    }

    /** try_take_over_exited_owner: bump, take, mark. A failed try leaves both words alone. */
    method TryTakeOverExitedOwner(self: Word, p: Probe) returns (taken: bool)
      requires self != ZERO
      modifies this
      ensures taken == (old(owner) != ZERO && InstanceHasExited(old(owner), self, p))
      ensures owner == if taken then self else old(owner)
      ensures if taken then Odd(generation) && generation > old(generation) + 1 else generation == old(generation)
    {
      var seen := owner;
      if seen == ZERO || !InstanceHasExited(seen, self, p) {
        return false;
      }
      generation := generation + 2;
      if owner != seen {
        return false;
      }
      owner := self;
      var actual := generation;
      generation := if Odd(actual) then actual + 2 else actual + 1;
      return true;
    }

    /** One round of lock(): the acquire, and if that fails the takeover. */
    method TryLock(self: Word, p: Probe) returns (locked: bool)
      requires self != ZERO && (owner == ZERO ==> !Odd(generation))
      modifies this
      ensures locked == (old(owner) == ZERO || InstanceHasExited(old(owner), self, p))
      ensures if locked then owner == self && Odd(generation)
              else owner == old(owner) && generation == old(generation)
    {
      if owner == ZERO {
        owner := self;
        generation := generation + 1;
        return true;
      }
      locked := TryTakeOverExitedOwner(self, p);
    }

    method Unlock()
      requires owner != ZERO && Odd(generation)
      modifies this
      ensures owner == ZERO && !Odd(generation) && generation > old(generation)
    {
      generation := generation + 1;
      owner := ZERO;
    }
  }
}

/**
 One try_acquire running with no interference: what it decides, that it always returns, and
 that it recovers a mutex whose recorded owner and gate holder are detectably exited.
 */
module MutexAlone {
  import opened Runs
  import opened Processes
  import opened Mutex

  predicate GateIsFree(w: Words, t: Thread, p: Probe) {
    w.gate == ZERO || InstanceHasExited(w.gate, Instance(t.inc), p)
  }

  /** owner_has_exited, for the tuple now in memory. */
  predicate OwnerHasExited(w: Words, t: Thread, p: Probe) {
    if w.owner.hi == t.inc.pid then w.instance != Instance(t.inc)
    else !p.alive(w.owner.hi) || OwnerStampIsStale(w.owner, w.stamp, p)
  }

  /** The decision in one glance: which words and outcome an undisturbed call leaves. */
  function Verdict(w: Words, t: Thread, p: Probe, own: nat): (Words, Outcome) {
    if !GateIsFree(w, t, p) then (w, Busy)
    else if w.owner == ZERO || OwnerHasExited(w, t, p) then (Words(Token(t), own, Instance(t.inc), ZERO), Acquired)
    else (w.(gate := ZERO), if w.owner == Token(t) then Deadlock else Busy)
  }

  // ---- The step system, one thread running alone ----

  function UseRank(u: Use): nat {
    match u
    case Publish(First) => 60
    case Recover(_) => 40
    case Publish(Second(_)) => 20
    case CheckRecursion => 5
  }

  /** Bounds the operations left in a call. */
  function Rank(pc: Pc): nat {
    match pc
    case Idle(_) => 0
    case OwnerLoad => 55
    case GateLoad(u) => UseRank(u) + 10
    case GateProbe(u, _) => UseRank(u) + 9
    case GateReclaim(u, _) => UseRank(u) + 8
    case GateTake(u) => UseRank(u) + 7
    case GateRelease(u, _) => UseRank(u) + 1
    case PublishCheck(a) => UseRank(Publish(a)) + 5
    case StoreStamp(a) => UseRank(Publish(a)) + 4
    case StoreInstance(a) => UseRank(Publish(a)) + 3
    case PublishCas(a) => UseRank(Publish(a)) + 2
    case RecoverLoad(seen) => UseRank(Recover(seen)) + 6
    case RecoverStamp(seen) => UseRank(Recover(seen)) + 5
    case Judge(seen, _) => UseRank(Recover(seen)) + 4
    case QueryStamp(seen, _) => UseRank(Recover(seen)) + 3
    case RecoverCas(seen) => UseRank(Recover(seen)) + 2
    case RecursionOwner => UseRank(CheckRecursion) + 3
    case RecursionInstance => UseRank(CheckRecursion) + 2
  }

  lemma GateOpLowersRank(s: State, t: Thread, p: Probe)
    requires t in s.pcs
    requires s.pcs[t].GateLoad? || s.pcs[t].GateProbe? || s.pcs[t].GateReclaim? || s.pcs[t].GateTake? ||
             s.pcs[t].GateRelease?
    ensures Rank(GateOp(s, t, p).pcs[t]) < Rank(s.pcs[t]) <= 70
  {
  }

  lemma PublishOpLowersRank(s: State, t: Thread, own: nat)
    requires t in s.pcs
    requires s.pcs[t].PublishCheck? || s.pcs[t].StoreStamp? || s.pcs[t].StoreInstance? || s.pcs[t].PublishCas?
    ensures Rank(PublishOp(s, t, own).pcs[t]) < Rank(s.pcs[t]) <= 70
  {
  }

  lemma RecoverOpLowersRank(s: State, t: Thread, p: Probe)
    requires t in s.pcs
    requires s.pcs[t].RecoverLoad? || s.pcs[t].RecoverStamp? || s.pcs[t].Judge? || s.pcs[t].QueryStamp? ||
             s.pcs[t].RecoverCas?
    ensures Rank(RecoverOp(s, t, p).pcs[t]) < Rank(s.pcs[t]) <= 70
  {
  }

  /** Every operation leaves strictly fewer to go; no call has more than 70. */
  lemma AdvanceLowersRank(s: State, t: Thread, p: Probe, own: nat)
    requires t in s.pcs && !s.pcs[t].Idle?
    ensures t in AdvanceThread(s, t, p, own).pcs
    ensures Rank(AdvanceThread(s, t, p, own).pcs[t]) < Rank(s.pcs[t]) <= 70
  {
    match s.pcs[t]
    case GateLoad(_) | GateProbe(_, _) | GateReclaim(_, _) | GateTake(_) | GateRelease(_, _) =>
      GateOpLowersRank(s, t, p);
    case PublishCheck(_) | StoreStamp(_) | StoreInstance(_) | PublishCas(_) => PublishOpLowersRank(s, t, own);
    case RecoverLoad(_) | RecoverStamp(_) | Judge(_, _) | QueryStamp(_, _) | RecoverCas(_) =>
      RecoverOpLowersRank(s, t, p);
    case OwnerLoad | RecursionOwner | RecursionInstance =>
  }

  /** `t` alone takes operations until its call is over. It never blocks: every call ends. */
  function Finish(s: State, t: Thread, p: Probe, own: nat): State
    requires t in s.pcs
    decreases Rank(s.pcs[t])
  {
    if s.pcs[t].Idle? then s
    else
      AdvanceLowersRank(s, t, p, own);
      Finish(AdvanceThread(s, t, p, own), t, p, own)
  }

  lemma One(s: State, t: Thread, p: Probe, own: nat) returns (r: State)
    requires t in s.pcs && !s.pcs[t].Idle?
    ensures r == AdvanceThread(s, t, p, own) && t in r.pcs
    ensures Finish(s, t, p, own) == Finish(r, t, p, own)
  {
    AdvanceLowersRank(s, t, p, own);
    r := AdvanceThread(s, t, p, own);
  }

  /** Memory and position of `t` are `w` and `pc`. */
  predicate At(s: State, t: Thread, w: Words, pc: Pc) { t in s.pcs && s.w == w && s.pcs[t] == pc }

  lemma GateAlone(s: State, t: Thread, p: Probe, own: nat, u: Use) returns (r: State)
    requires At(s, t, s.w, GateLoad(u)) && t.inc.pid > 0
    ensures t in r.pcs && Finish(s, t, p, own) == Finish(r, t, p, own)
    ensures if GateIsFree(s.w, t, p) then At(r, t, s.w.(gate := Instance(t.inc)), Enter(u))
            else At(r, t, s.w, Continue(t, u, false))
  {
    r := One(s, t, p, own);
    if s.w.gate != ZERO {
      r := One(r, t, p, own);
      if InstanceHasExited(s.w.gate, Instance(t.inc), p) {
        r := One(r, t, p, own);
      }
    }
    r := One(r, t, p, own);
  }

  /** The three stores and the compare-and-swap of a publication. */
  lemma StoresAlone(s: State, t: Thread, p: Probe, own: nat, a: Attempt) returns (r: State)
    requires At(s, t, s.w, StoreStamp(a)) && s.w.owner == ZERO
    ensures t in r.pcs && Finish(s, t, p, own) == Finish(r, t, p, own)
    ensures At(r, t, Words(Token(t), own, Instance(t.inc), s.w.gate), GateRelease(Publish(a), true)) && t in r.held
  {
    r := One(s, t, p, own);
    r := One(r, t, p, own);
    r := One(r, t, p, own);
  }

  lemma PublishAlone(s: State, t: Thread, p: Probe, own: nat, a: Attempt) returns (r: State)
    requires At(s, t, s.w, PublishCheck(a)) && s.w.gate == Instance(t.inc)
    ensures t in r.pcs && Finish(s, t, p, own) == Finish(r, t, p, own)
    ensures if s.w.owner == ZERO
            then At(r, t, Words(Token(t), own, Instance(t.inc), ZERO), Idle(Acquired)) && t in r.held
            else At(r, t, s.w.(gate := ZERO), Continue(t, Publish(a), false))
  {
    r := One(s, t, p, own);
    if s.w.owner == ZERO {
      r := StoresAlone(r, t, p, own, a);
    }
    r := One(r, t, p, own);
  }

  /** The verdict about the recorded owner, from its stamp, its instance and the probes. */
  lemma JudgedAlone(s: State, t: Thread, p: Probe, own: nat) returns (r: State)
    requires At(s, t, s.w, Judge(s.w.owner, s.w.stamp))
    ensures t in r.pcs && Finish(s, t, p, own) == Finish(r, t, p, own)
    ensures At(r, t, s.w,
               if OwnerHasExited(s.w, t, p) then RecoverCas(s.w.owner) else GateRelease(Recover(s.w.owner), false))
  {
    r := One(s, t, p, own);
    if s.w.owner.hi != t.inc.pid && p.alive(s.w.owner.hi) {
      r := One(r, t, p, own);
    }
  }

  /** Owner and stamp are loaded behind the gate. */
  lemma LoadedAlone(s: State, t: Thread, p: Probe, own: nat) returns (r: State)
    requires At(s, t, s.w, RecoverLoad(s.w.owner)) && s.w.owner != ZERO
    ensures t in r.pcs && Finish(s, t, p, own) == Finish(r, t, p, own)
    ensures At(r, t, s.w, Judge(s.w.owner, s.w.stamp))
  {
    r := One(s, t, p, own);
    r := One(r, t, p, own);
  }

  /** The owner word is cleared and the gate given back. */
  lemma ClearedAlone(s: State, t: Thread, p: Probe, own: nat) returns (r: State)
    requires At(s, t, s.w, RecoverCas(s.w.owner)) && s.w.gate == Instance(t.inc)
    ensures t in r.pcs && Finish(s, t, p, own) == Finish(r, t, p, own)
    ensures At(r, t, s.w.(owner := ZERO, gate := ZERO), GateLoad(Publish(Second(s.w.owner))))
  {
    r := One(s, t, p, own);
    r := One(r, t, p, own);
  }

  lemma RecoverAlone(s: State, t: Thread, p: Probe, own: nat) returns (r: State)
    requires At(s, t, s.w, RecoverLoad(s.w.owner)) && s.w.gate == Instance(t.inc) && s.w.owner != ZERO
    ensures t in r.pcs && Finish(s, t, p, own) == Finish(r, t, p, own)
    ensures if OwnerHasExited(s.w, t, p)
            then At(r, t, s.w.(owner := ZERO, gate := ZERO), GateLoad(Publish(Second(s.w.owner))))
            else At(r, t, s.w.(gate := ZERO), AfterRecovery(t, s.w.owner))
  {
    r := LoadedAlone(s, t, p, own);
    r := JudgedAlone(r, t, p, own);
    if OwnerHasExited(s.w, t, p) {
      r := ClearedAlone(r, t, p, own);
    } else {
      r := One(r, t, p, own);
    }
  }

  lemma RecursionAlone(s: State, t: Thread, p: Probe, own: nat) returns (r: State)
    requires At(s, t, s.w, RecursionOwner) && s.w.gate == Instance(t.inc)
    requires s.w.owner == Token(t) && s.w.instance == Instance(t.inc)
    ensures t in r.pcs && Finish(s, t, p, own) == Finish(r, t, p, own)
    ensures At(r, t, s.w.(gate := ZERO), Idle(Deadlock))
  {
    r := One(s, t, p, own);
    r := One(r, t, p, own);
    r := One(r, t, p, own);
  }

  /** After the first attempt found the mutex owned: recovery, second attempt, recursion check. */
  lemma OwnedAlone(s: State, t: Thread, p: Probe, own: nat)
    requires At(s, t, s.w, OwnerLoad) && t.inc.pid > 0 && s.w.gate == ZERO && s.w.owner != ZERO
    ensures var f := Finish(s, t, p, own);
      && t in f.pcs && (f.w, f.pcs[t]) == (Verdict(s.w, t, p, own).0, Idle(Verdict(s.w, t, p, own).1))
      && (f.pcs[t] == Idle(Acquired) ==> t in f.held)
  {
    var r := One(s, t, p, own);
    r := GateAlone(r, t, p, own, Recover(s.w.owner));
    r := RecoverAlone(r, t, p, own);
    if OwnerHasExited(s.w, t, p) {
      r := GateAlone(r, t, p, own, Publish(Second(s.w.owner)));
      r := PublishAlone(r, t, p, own, Second(s.w.owner));
    } else if s.w.owner == Token(t) {
      r := GateAlone(r, t, p, own, CheckRecursion);
      r := RecursionAlone(r, t, p, own);
    }
  }

  /** With the gate held by a process not known to have exited, the call changes nothing. */
  lemma ShutOutAlone(s: State, t: Thread, p: Probe, own: nat)
    requires At(s, t, s.w, OwnerLoad) && t.inc.pid > 0 && !GateIsFree(s.w, t, p)
    ensures At(Finish(s, t, p, own), t, s.w, Idle(Busy))
  {
    var r := One(s, t, p, own);
    if s.w.owner != ZERO {
      r := GateAlone(r, t, p, own, Recover(s.w.owner));
      if s.w.owner == Token(t) {
        r := GateAlone(r, t, p, own, CheckRecursion);
      }
    }
  }

  /**
   Refinement: from any state, an undisturbed try_acquire ends with exactly the words and the
   outcome of the one-glance verdict, and holds the mutex when it reports success.
   */
  lemma AloneMeetsVerdict(s: State, t: Thread, p: Probe, own: nat)
    requires t in s.pcs && s.pcs[t].Idle? && t.inc.pid > 0
    ensures var f := Finish(Apply(s, Call(t)), t, p, own);
      && t in f.pcs && (f.w, f.pcs[t]) == (Verdict(s.w, t, p, own).0, Idle(Verdict(s.w, t, p, own).1))
      && (f.pcs[t] == Idle(Acquired) ==> t in f.held)
  {
    var c := Apply(s, Call(t));
    var r := GateAlone(c, t, p, own, Publish(First));
    if GateIsFree(s.w, t, p) {
      r := PublishAlone(r, t, p, own, First);
      if s.w.owner != ZERO {
        OwnedAlone(r, t, p, own);
      }
    } else {
      ShutOutAlone(r, t, p, own);
    }
  }

  lemma {:induction false} FinishKeepsInv(s: State, t: Thread, p: Probe, own: nat)
    requires Inv(s) && Live(s, t) && Sound(s.world, p) && (own == 0 || own == t.inc.stamp)
    ensures Inv(Finish(s, t, p, own))
    decreases Rank(s.pcs[t])
  {
    if !s.pcs[t].Idle? {
      AdvanceLowersRank(s, t, p, own);
      AdvanceKeepsInv(s, t, p, own);
      AdvanceKeepsWorld(s, t, p, own);
      FinishKeepsInv(AdvanceThread(s, t, p, own), t, p, own);
    }
  }

  lemma AdvanceKeepsWorld(s: State, t: Thread, p: Probe, own: nat)
    requires t in s.pcs
    ensures AdvanceThread(s, t, p, own).world == s.world
  {
    var s' := AdvanceIsOneOp(s, t, p, own);
  }

  /**
   Crash recovery: in every reachable state, an undisturbed try_acquire by a live thread takes
   the mutex exactly when gate and owner are unset or detectably exited, raises the recursion
   error exactly when the thread itself holds the mutex, and leaves a state from which every
   safety property continues to hold.
   */
  lemma CrashRecovery(run: seq<State>, k: nat, t: Thread, p: Probe, own: nat)
    requires IsRun(Init, Next, run) && k < |run|
    requires Live(run[k], t) && run[k].pcs[t].Idle?
    requires Sound(run[k].world, p) && (own == 0 || own == t.inc.stamp)
    ensures var s, f := run[k], Finish(Apply(run[k], Call(t)), t, p, own);
      && Inv(f) && t in f.pcs
      && (f.pcs[t] == Idle(Acquired) <==>
            GateIsFree(s.w, t, p) && (s.w.owner == ZERO || OwnerHasExited(s.w, t, p)))
      && (f.pcs[t] == Idle(Acquired) ==> t in f.held && f.w.owner == Token(t) && f.w.gate == ZERO)
      && (f.pcs[t] == Idle(Deadlock) <==> GateIsFree(s.w, t, p) && t in s.held)
  {
    ReachableInv(run, k);
    var s := run[k];
    assert t.inc in Known(s.world);
    AloneMeetsVerdict(s, t, p, own);
    StartKeepsInv(s, Call(t));
    FinishKeepsInv(Apply(s, Call(t)), t, p, own);
  }

  /** The operating system reports a PID alive only while a live process has it. */
  ghost predicate Precise(w: World, p: Probe) {
    forall pid :: p.alive(pid) ==> exists i :: i in w.live && i.pid == pid
  }

  /** No live process has this PID, or only the caller's own has, having reused it. */
  ghost predicate NotReusedByOthers(w: World, pid: nat, t: Thread) {
    forall i :: i in w.live && i.pid == pid ==> i == t.inc
  }

  /** Another live process reused the PID, and its stamp is known and differs from the recorded one. */
  ghost predicate StampTellsApart(w: World, pid: nat, stamp: nat, p: Probe) {
    && p.proves && stamp != 0 && p.stampOf(pid).Some?
    && exists i :: i in w.live && i.pid == pid && i.stamp != stamp
  }

  lemma DeadGateIsFree(s: State, t: Thread, p: Probe)
    requires Inv(s) && Live(s, t) && Precise(s.world, p)
    requires s.w.gate != ZERO ==> !IsLiveInstance(s.world, s.w.gate) && NotReusedByOthers(s.world, s.w.gate.hi, t)
    ensures GateIsFree(s.w, t, p)
  {
  }

  lemma DeadOwnerHasExited(s: State, t: Thread, p: Probe)
    requires Inv(s) && Live(s, t) && Sound(s.world, p) && Precise(s.world, p)
    requires s.w.owner != ZERO && s.tenure.Some? && !Live(s, s.tenure.value)
    requires NotReusedByOthers(s.world, s.w.owner.hi, t) || StampTellsApart(s.world, s.w.owner.hi, s.w.stamp, p)
    ensures OwnerHasExited(s.w, t, p)
  {
    var h := s.tenure.value;
    if s.w.owner.hi == t.inc.pid {
      assert h.inc in Known(s.world) && t.inc in Known(s.world);
    }
  }

  /**
   Crash recovery in terms of the world: if the process that holds the mutex on record and the one
   that holds the gate are both dead, and their PIDs are free, or reused by the caller's own process,
   or, for the owner, reused by one whose start stamp differs, then one undisturbed try_acquire takes
   the mutex.
   */
  lemma DeadAreRecovered(run: seq<State>, k: nat, t: Thread, p: Probe, own: nat)
    requires IsRun(Init, Next, run) && k < |run|
    requires Live(run[k], t) && run[k].pcs[t].Idle?
    requires Sound(run[k].world, p) && Precise(run[k].world, p) && (own == 0 || own == t.inc.stamp)
    requires var s := run[k];
      && (s.w.gate != ZERO ==> !IsLiveInstance(s.world, s.w.gate) && NotReusedByOthers(s.world, s.w.gate.hi, t))
      && (s.w.owner != ZERO ==>
            && (forall h :: h in s.held && Token(h) == s.w.owner ==> !Live(s, h))
            && (NotReusedByOthers(s.world, s.w.owner.hi, t) ||
                StampTellsApart(s.world, s.w.owner.hi, s.w.stamp, p)))
    ensures var f := Finish(Apply(run[k], Call(t)), t, p, own);
      t in f.pcs && f.pcs[t] == Idle(Acquired) && t in f.held && f.w.owner == Token(t)
  {
    ReachableInv(run, k);
    DeadGateIsFree(run[k], t, p);
    if run[k].w.owner != ZERO {
      DeadOwnerHasExited(run[k], t, p);
    }
    CrashRecovery(run, k, t, p, own);
  }

  // ---- The object itself ----

  /** interprocess_mutex, called with nobody else running. Each method is one member of the class. */
  class InterprocessMutex {
    var owner: Word
    var ownerStartStamp: nat
    var ownerInstance: Word
    var recovering: Word

    function Contents(): Words
      reads this
    {
      Words(owner, ownerStartStamp, ownerInstance, recovering)
    }

    constructor ()
      ensures Contents() == Words(ZERO, 0, ZERO, ZERO)
    {
      owner, ownerStartStamp, ownerInstance, recovering := ZERO, 0, ZERO, ZERO;
    }

    method AcquireRecoveryGate(t: Thread, p: Probe) returns (ok: bool)
      modifies this`recovering
      ensures ok == old(GateIsFree(Contents(), t, p))
      ensures recovering == if ok then Instance(t.inc) else old(recovering)
    {
      var holder := recovering;
      if holder != ZERO && InstanceHasExited(holder, Instance(t.inc), p) {
        if recovering == holder {
          recovering := ZERO;
        }
      }
      ok := recovering == ZERO;
      if ok {
        recovering := Instance(t.inc);
      }
    }

    method ReleaseRecoveryGate(t: Thread)
      modifies this`recovering
      ensures recovering == if old(recovering) == Instance(t.inc) then ZERO else old(recovering)
    {
      if recovering == Instance(t.inc) {
        recovering := ZERO;
      }
    }

    method TryAcquireUnowned(t: Thread, p: Probe, own: nat) returns (acquired: bool)
      requires t.inc.pid > 0
      modifies this
      ensures acquired == (old(GateIsFree(Contents(), t, p)) && old(owner) == ZERO)
      ensures Contents() ==
              if acquired then Words(Token(t), own, Instance(t.inc), ZERO)
              else if old(GateIsFree(Contents(), t, p)) then old(Contents()).(gate := ZERO)
              else old(Contents())
    {
      var gate := AcquireRecoveryGate(t, p);
      if !gate {
        return false;
      }
      acquired := owner == ZERO;
      if acquired {
        ownerStartStamp := own;
        ownerInstance := Instance(t.inc);
        owner := Token(t);
      }
      ReleaseRecoveryGate(t);
    }

    method TryRecover(t: Thread, seen: Word, p: Probe) returns (recovered: bool)
      requires t.inc.pid > 0
      modifies this
      ensures recovered ==
              (seen != ZERO && old(GateIsFree(Contents(), t, p)) &&
               (old(owner) == ZERO || (old(owner) == seen && old(OwnerHasExited(Contents(), t, p)))))
      ensures owner == if recovered then ZERO else old(owner)
      ensures recovering == if seen != ZERO && old(GateIsFree(Contents(), t, p)) then ZERO else old(recovering)
      ensures ownerStartStamp == old(ownerStartStamp) && ownerInstance == old(ownerInstance)
    {
      if seen == ZERO {
        return false;
      }
      var gate := AcquireRecoveryGate(t, p);
      if !gate {
        return false;
      }
      recovered := owner == ZERO;
      if owner == seen {
        var storedStamp := ownerStartStamp;
        var exited := if seen.hi == t.inc.pid then ownerInstance != Instance(t.inc)
                      else !p.alive(seen.hi) || OwnerStampIsStale(seen, storedStamp, p);
        if exited {
          owner := ZERO;
          recovered := true;
        }
      }
      ReleaseRecoveryGate(t);
    }

    /** try_acquire: words and outcome are the verdict's. `Deadlock` is the thrown recursion error. */
    method TryAcquire(t: Thread, throwOnRecursive: bool, p: Probe, own: nat) returns (outcome: Outcome)
      requires t.inc.pid > 0
      modifies this
      ensures Contents() == old(Verdict(Contents(), t, p, own).0)
      ensures outcome == var v := old(Verdict(Contents(), t, p, own).1);
                         if v == Deadlock && !throwOnRecursive then Busy else v
    {
      var acquired := TryAcquireUnowned(t, p, own);
      if acquired {
        return Acquired;
      }
      var expected := owner;
      if expected != ZERO {
        var recovered := TryRecover(t, expected, p);
        if recovered {
          acquired := TryAcquireUnowned(t, p, own);
          if acquired {
            return Acquired;
          }
        }
      }
      if expected == Token(t) {
        var gate := AcquireRecoveryGate(t, p);
        if !gate {
          return Busy;
        }
        var recursive := owner == Token(t) && ownerInstance == Instance(t.inc);
        ReleaseRecoveryGate(t);
        if recursive && throwOnRecursive {
          return Deadlock;
        }
      }
      return Busy;
    }

    /** unlock: false stands for the "unlock by non-owner" error. */
    method Unlock(t: Thread) returns (ok: bool)
      modifies this`owner
      ensures ok == (old(owner) == Token(t))
      ensures owner == if ok then ZERO else old(owner)
    {
      ok := owner == Token(t);
      if ok {
        owner := ZERO;
      }
    }
  }
}

/**
 Outstanding RPCs of one process: completion, deferral, the return-handler table, cleanup and
 the cancellation scan. Everything a mutex protects is one step; separate critical sections
 are separate steps.
 */
module Rpc {
  import opened Runs

  type Tid = nat
  type CallId = nat

  datatype Phase = Registered | Activated | Failing | Failed

  /** Outstanding_rpc_control and Rpc_state. The last two fields are history. */
  datatype Call = Call(
    target: nat, phase: Phase, keepWaiting: bool, cancelled: bool, abandoned: bool, cleanedUp: bool,
    exception: Option<nat>, body: Option<nat>, fid: nat,
    abandonedBy: Option<Tid>, cleaner: Option<Tid>)

  datatype Reply = Value(v: nat) | Exception(e: nat) | Deferral(newFid: nat)

  datatype Completion = Pending | Abandoned | Cancelled | RemoteException(e: nat) | Returned(v: Option<nat>)

  /** What get_until or get(stop) gives back: an error of its own, or the call's outcome. */
  datatype Result = OwnAbandon | Outcome(c: Completion)

  /** What a thread is in the middle of. */
  datatype Task =
    | Idle
    | Invoke(r: CallId, reply: Reply)
    | Waiting(r: CallId)
    | Abandoning(r: CallId)
    | Reading(r: CallId)
    | Got(r: CallId, result: Result)
    | EraseOutstanding(r: CallId, fid: nat)
    | EraseEntry(r: CallId, fid: nat)
    | Terminating

  datatype Scan = Scan(remaining: set<CallId>, only: Option<nat>, stop: bool)

  /**
   `issued` holds every function id ever used; `stopScanned` says the once-only scan of a leaf is over.
   `collided` is the call whose deferral met an active id. The exception this raises leaves a reader
   thread, which ends the process; until it is gone, that thread keeps the table's mutex.
   */
  datatype Process = Process(
    leaf: bool, calls: map<CallId, Call>, table: map<nat, CallId>, outstanding: set<CallId>,
    issued: set<nat>, mustStop: bool, scan: Option<Scan>, stopScanned: bool, tasks: map<Tid, Task>,
    collided: Option<CallId>)

  datatype Step =
    | Register(r: CallId, target: nat)
    | Activate(r: CallId, fid: nat)
    | ActivateThrows(r: CallId)
    | DropFailed(r: CallId)
    | Lookup(t: Tid, fid: nat, reply: Reply)
    | RunHandler(t: Tid)
    | StopTransport
    | ScanBegin(only: Option<nat>, stop: bool)
    | ScanOne(r: CallId)
    | ScanEnd
    | BeginWait(t: Tid, r: CallId)
    | Wake(t: Tid, expired: bool)
    | Abandon(t: Tid)
    | Read(t: Tid)
    | Clean(t: Tid)
    | Erase(t: Tid)

  function At(p: Process, t: Tid): Task { if t in p.tasks then p.tasks[t] else Idle }

  function Go(p: Process, t: Tid, k: Task): Process { p.(tasks := p.tasks[t := k]) }

  function Put(p: Process, r: CallId, c: Call): Process { p.(calls := p.calls[r := c]) }

  function NewCall(target: nat): Call {
    Call(target, Registered, true, false, false, false, None, None, 0, None, None)
  }

  /** Rpc_handle::state, the order of tests included. */
  function StateOf(c: Call): Completion {
    if c.keepWaiting then Pending
    else if c.abandoned then Abandoned
    else if c.cancelled then Cancelled
    else if c.exception.Some? then RemoteException(c.exception.value)
    else Returned(c.body)
  }

  /** A return or exception handler acts only on a call still waiting; deferrals are apart. */
  function Deliver(c: Call, reply: Reply): Call {
    if !c.keepWaiting then c
    else
      match reply
      case Value(v) => c.(body := Some(v), keepWaiting := false)
      case Exception(e) => c.(exception := Some(e), keepWaiting := false)
      case Deferral(_) => c
  }

  /** The guard of the throw in replace_return_handler_id: the old entry is there, and so is one for the new id. */
  predicate MeetsActive(table: map<nat, CallId>, was: nat, fid: nat) { was in table && fid in table - {was} }

  /** replace_return_handler_id where it does not throw: nothing to move, or the entry moves. */
  function Rekey(table: map<nat, CallId>, was: nat, fid: nat): map<nat, CallId> {
    if was !in table then table else (table - {was})[fid := table[was]]
  }

  function Matches(c: Call, only: Option<nat>): bool { only.None? || c.target == only.value }

  /** One element of unblock_rpc. */
  function CancelOne(c: Call, only: Option<nat>): Call {
    if c.keepWaiting && Matches(c, only) then c.(keepWaiting := false, cancelled := true) else c
  }

  function AbandonBy(c: Call, t: Tid): Call {
    if c.keepWaiting then c.(keepWaiting := false, abandoned := true, abandonedBy := Some(t)) else c
  }

  ghost predicate Enabled(p: Process, step: Step) {
    match step
    case Register(r, _) => r !in p.calls && p.scan.None?
    case Activate(r, f) =>
      r in p.calls && p.calls[r].phase == Registered && f != 0 && f !in p.issued && p.collided.None?
    case ActivateThrows(r) => r in p.calls && p.calls[r].phase == Registered
    case DropFailed(r) => r in p.calls && p.calls[r].phase == Failing && p.scan.None?
    case Lookup(t, f, reply) => At(p, t) == Idle && f in p.table && p.collided.None?
    case RunHandler(t) =>
      && At(p, t).Invoke? && At(p, t).r in p.calls
      && (Defers(p, t) ==> At(p, t).reply.newFid != 0 && p.collided.None?)
    case StopTransport => true
    case ScanBegin(only, stop) => p.scan.None? && (stop ==> p.mustStop && only.None?)
    case ScanOne(r) => p.scan.Some? && r in p.scan.value.remaining && r in p.calls
    case ScanEnd => p.scan.Some? && p.scan.value.remaining == {}
    case BeginWait(t, r) => At(p, t) == Idle && r in p.calls && p.calls[r].phase == Activated
    case Wake(t, expired) => At(p, t).Waiting? && At(p, t).r in p.calls && (expired || !p.calls[At(p, t).r].keepWaiting)
    case Abandon(t) => At(p, t).Abandoning? && At(p, t).r in p.calls
    case Read(t) => At(p, t).Reading? && At(p, t).r in p.calls && !p.calls[At(p, t).r].keepWaiting
    case Clean(t) => At(p, t).Got? && At(p, t).r in p.calls
    case Erase(t) => (At(p, t).EraseOutstanding? && p.scan.None?) || (At(p, t).EraseEntry? && p.collided.None?)
  }

  /** `t` is about to run the deferral handler of a call that still waits. */
  predicate Defers(p: Process, t: Tid) {
    At(p, t).Invoke? && At(p, t).reply.Deferral? && At(p, t).r in p.calls && p.calls[At(p, t).r].keepWaiting
  }

  /** That deferral meets an active id. */
  predicate Collides(p: Process, t: Tid) {
    Defers(p, t) && MeetsActive(p.table, p.calls[At(p, t).r].fid, At(p, t).reply.newFid)
  }

  /** The deferral handler of a waiting call: the entry and the recorded id move, or the move throws half-way. */
  function Defer(p: Process, t: Tid, r: CallId, f: nat): Process
    requires r in p.calls
  {
    var was := p.calls[r].fid;
    if MeetsActive(p.table, was, f) then Go(p, t, Terminating).(table := p.table - {was}, collided := Some(r))
    else Go(Put(p, r, p.calls[r].(fid := f)), t, Idle).(table := Rekey(p.table, was, f), issued := p.issued + {f})
  }

  /** Registration, activation and the reply reader. */
  function CallOp(p: Process, step: Step): Process {
    match step
    case Register(r, target) =>
      if p.leaf && p.mustStop then p
      else Put(p, r, NewCall(target)).(outstanding := p.outstanding + {r})
    case Activate(r, f) =>
      if r !in p.calls then p
      else Put(p, r, p.calls[r].(fid := f, phase := Activated)).(table := p.table[f := r], issued := p.issued + {f})
    case ActivateThrows(r) => if r !in p.calls then p else Put(p, r, p.calls[r].(phase := Failing))
    case DropFailed(r) =>
      if r !in p.calls then p else Put(p, r, p.calls[r].(phase := Failed)).(outstanding := p.outstanding - {r})
    case Lookup(t, f, reply) => if f !in p.table then p else Go(p, t, Invoke(p.table[f], reply))
    case RunHandler(t) =>
      if !At(p, t).Invoke? || At(p, t).r !in p.calls then p
      else
        var r, reply := At(p, t).r, At(p, t).reply;
        if Defers(p, t) then Defer(p, t, r, reply.newFid) else Go(Put(p, r, Deliver(p.calls[r], reply)), t, Idle)
    case _ => p
  }

  /** Transport stop and unblock_rpc. */
  function ScanOp(p: Process, step: Step): Process {
    match step
    case StopTransport => p.(mustStop := true)
    case ScanBegin(only, stop) => p.(scan := Some(Scan(p.outstanding, only, stop)))
    case ScanOne(r) =>
      if p.scan.None? || r !in p.calls then p
      else Put(p, r, CancelOne(p.calls[r], p.scan.value.only))
           .(scan := Some(p.scan.value.(remaining := p.scan.value.remaining - {r})))
    case ScanEnd => if p.scan.None? then p else p.(scan := None, stopScanned := p.stopScanned || p.scan.value.stop)
    case _ => p
  }

  /** get_until and get(stop): wait, abandon at the deadline or stop, read the outcome, clean up. */
  function WaitOp(p: Process, step: Step): Process {
    match step
    case BeginWait(t, r) => Go(p, t, Waiting(r))
    case Wake(t, expired) =>
      if !At(p, t).Waiting? || At(p, t).r !in p.calls then p
      else if !p.calls[At(p, t).r].keepWaiting then Go(p, t, Reading(At(p, t).r))
      else Go(p, t, Abandoning(At(p, t).r))
    case Abandon(t) =>
      if !At(p, t).Abandoning? || At(p, t).r !in p.calls then p
      else
        var r := At(p, t).r;
        Go(Put(p, r, AbandonBy(p.calls[r], t)), t, if p.calls[r].keepWaiting then Got(r, OwnAbandon) else Reading(r))
    case Read(t) =>
      if !At(p, t).Reading? || At(p, t).r !in p.calls then p
      else Go(p, t, Got(At(p, t).r, Outcome(StateOf(p.calls[At(p, t).r]))))
    case Clean(t) =>
      if !At(p, t).Got? || At(p, t).r !in p.calls then p
      else
        var r := At(p, t).r;
        if p.calls[r].cleanedUp then Go(p, t, Idle)
        else Go(Put(p, r, p.calls[r].(cleanedUp := true, cleaner := Some(t))), t, EraseOutstanding(r, p.calls[r].fid))
    case Erase(t) =>
      (match At(p, t)
       case EraseOutstanding(r, f) => Go(p, t, EraseEntry(r, f)).(outstanding := p.outstanding - {r})
       case EraseEntry(r, f) => Go(p, t, Idle).(table := p.table - {f})
       case _ => p)
    case _ => p
  }

  function Apply(p: Process, step: Step): Process {
    match step
    case Register(_, _) | Activate(_, _) | ActivateThrows(_) | DropFailed(_) | Lookup(_, _, _) | RunHandler(_) =>
      CallOp(p, step)
    case StopTransport | ScanBegin(_, _) | ScanOne(_) | ScanEnd => ScanOp(p, step)
    case _ => WaitOp(p, step)
  }

  ghost predicate Init(p: Process) {
    p == Process(p.leaf, map[], map[], {}, {}, false, None, false, map[], None)
  }

  ghost predicate Next(p: Process, p': Process) { exists step :: Enabled(p, step) && p' == Apply(p, step) }

  // ---- The invariant ----

  /** A call has at most one outcome, none while it waits, and is cleaned up only after it. */
  predicate CallOk(c: Call) {
    && (c.keepWaiting ==> !c.cancelled && !c.abandoned && c.exception.None? && c.body.None? && !c.cleanedUp)
    && (!c.keepWaiting ==>
          || (c.abandoned && !c.cancelled && c.exception.None? && c.body.None?)
          || (!c.abandoned && c.cancelled && c.exception.None? && c.body.None?)
          || (!c.abandoned && !c.cancelled && c.exception.Some? && c.body.None?)
          || (!c.abandoned && !c.cancelled && c.exception.None? && c.body.Some?))
    && (c.abandoned <==> c.abandonedBy.Some?)
    && (c.cleanedUp <==> c.cleaner.Some?)
    && (c.phase != Activated ==> !c.cleanedUp)
  }

  predicate Cleaning(k: Task, r: CallId) { (k.EraseOutstanding? || k.EraseEntry?) && k.r == r }

  /** Cleanup of `r` has been claimed and is still under way. */
  predicate BeingCleaned(p: Process, r: CallId)
    requires r in p.calls
  {
    p.calls[r].cleaner.Some? && Cleaning(At(p, p.calls[r].cleaner.value), r)
  }

  /** The call should still be found under its function id. */
  predicate Entered(p: Process, r: CallId)
    requires r in p.calls
  {
    p.calls[r].phase == Activated && (!p.calls[r].cleanedUp || BeingCleaned(p, r))
  }

  ghost predicate CallInv(p: Process, r: CallId)
    requires r in p.calls
  {
    var c := p.calls[r];
    && CallOk(c)
    && (c.phase == Activated ==> c.fid in p.issued)
    && (Entered(p, r) && p.collided != Some(r) ==> c.fid in p.table && p.table[c.fid] == r)
    && (p.collided == Some(r) ==> c.fid !in p.table)
    && (r !in p.outstanding ==> c.phase == Failed || c.cleanedUp)
    && (c.cleanedUp && !BeingCleaned(p, r) ==> r !in p.outstanding)
  }

  /** A table entry belongs to exactly one call, under exactly its current function id. */
  ghost predicate TableInv(p: Process) {
    && (p.collided.Some? ==> p.collided.value in p.calls)
    && forall f :: f in p.table ==>
      && f in p.issued && p.table[f] in p.calls && p.calls[p.table[f]].fid == f && Entered(p, p.table[f])
      && p.collided != Some(p.table[f])
  }

  ghost predicate TaskInv(p: Process, t: Tid) {
    match At(p, t)
    case Idle | Terminating => true
    case Invoke(r, _) => r in p.calls && p.calls[r].phase == Activated
    case Waiting(r) => r in p.calls && p.calls[r].phase == Activated
    case Abandoning(r) => r in p.calls && p.calls[r].phase == Activated
    case Reading(r) => r in p.calls && p.calls[r].phase == Activated && !p.calls[r].keepWaiting
    case Got(r, result) =>
      && r in p.calls && p.calls[r].phase == Activated && !p.calls[r].keepWaiting
      && (result == OwnAbandon ==> p.calls[r].abandonedBy == Some(t))
      && (result != OwnAbandon ==> result.c == StateOf(p.calls[r]))
    case EraseOutstanding(r, f) =>
      r in p.calls && p.calls[r].cleaner == Some(t) && p.calls[r].fid == f && p.calls[r].phase == Activated
    case EraseEntry(r, f) =>
      && r in p.calls && p.calls[r].cleaner == Some(t) && p.calls[r].fid == f && p.calls[r].phase == Activated
      && r !in p.outstanding
  }

  ghost predicate NoneWaits(p: Process, rs: set<CallId>) {
    forall r :: r in rs && r in p.calls ==> !p.calls[r].keepWaiting
  }

  /** Once the stop scan has passed a call, that call no longer waits. */
  ghost predicate ScanInv(p: Process) {
    && p.outstanding <= p.calls.Keys
    && (p.scan.Some? && p.scan.value.stop ==>
          p.mustStop && p.scan.value.only.None? && (p.leaf ==> NoneWaits(p, p.outstanding - p.scan.value.remaining)))
    && (p.stopScanned ==> p.mustStop && (p.leaf ==> NoneWaits(p, p.outstanding)))
  }

  ghost predicate Inv(p: Process) {
    && (forall r :: r in p.calls ==> CallInv(p, r))
    && TableInv(p)
    && (forall t: Tid :: TaskInv(p, t))
    && ScanInv(p)
  }

  // ---- Every step keeps the invariant ----

  /** Changing the position of a thread that cleans nothing up, before and after. */
  lemma TaskMoveKeepsInv(p: Process, t: Tid, k: Task)
    requires Inv(p)
    requires !At(p, t).EraseOutstanding? && !At(p, t).EraseEntry? && !k.EraseOutstanding? && !k.EraseEntry?
    requires TaskInv(Go(p, t, k), t)
    ensures Inv(Go(p, t, k))
  {
    var p' := Go(p, t, k);
    assert forall u: Tid :: u != t ==> At(p', u) == At(p, u);
    assert forall r :: r in p.calls ==> (CallInv(p, r) && (BeingCleaned(p, r) <==> BeingCleaned(p', r)));
    forall u: Tid ensures TaskInv(p', u) {
      assert TaskInv(p, u);
    }
  }

  /** Tasks keep what they rely on while nobody moves and no activated call leaves its phase or outcome. */
  lemma TasksKept(p: Process, p': Process)
    requires forall t: Tid :: TaskInv(p, t)
    requires p'.tasks == p.tasks && p.calls.Keys <= p'.calls.Keys && p'.outstanding - p.outstanding !! p.calls.Keys
    requires forall r :: r in p.calls && p.calls[r].phase == Activated ==> Upholds(p.calls[r], p'.calls[r])
    ensures forall t: Tid :: TaskInv(p', t)
  {
    forall t: Tid ensures TaskInv(p', t) {
      assert TaskInv(p, t) && At(p', t) == At(p, t);
    }
  }

  /** What a task may rely on of the call it works for. */
  ghost predicate Upholds(c: Call, c': Call) {
    && c'.phase == c.phase && c'.cleaner == c.cleaner && (!c.keepWaiting ==> c' == c)
    && (c.cleanedUp ==> c'.fid == c.fid)
    && (c.cleaner.Some? ==> c'.fid == c.fid)
  }

  /** A call may only gain its outcome; an outcome once there never changes. */
  ghost predicate Settles(c: Call, c': Call) {
    && CallOk(c')
    && (!c.keepWaiting ==> c' == c)
    && c'.phase == c.phase && c'.fid == c.fid && c'.cleanedUp == c.cleanedUp && c'.cleaner == c.cleaner
  }

  lemma SettleKeepsCall(p: Process, r: CallId, c': Call, q: CallId)
    requires r in p.calls && Settles(p.calls[r], c') && q in p.calls && CallInv(p, q)
    ensures CallInv(Put(p, r, c'), q) && (Entered(p, q) <==> Entered(Put(p, r, c'), q))
  {
  }

  lemma SettleKeepsInv(p: Process, r: CallId, c': Call)
    requires Inv(p) && r in p.calls && Settles(p.calls[r], c')
    ensures Inv(Put(p, r, c'))
  {
    var p' := Put(p, r, c');
    forall q | q in p.calls ensures CallInv(p', q) && (Entered(p, q) <==> Entered(p', q)) {
      SettleKeepsCall(p, r, c', q);
    }
    TasksKept(p, p');
  }

  lemma RegisterKeepsCall(p: Process, r: CallId, target: nat, q: CallId)
    requires Enabled(p, Register(r, target)) && q in CallOp(p, Register(r, target)).calls && p.collided != Some(r)
    requires q in p.calls ==> CallInv(p, q)
    ensures CallInv(CallOp(p, Register(r, target)), q)
    ensures q in p.calls ==> (Entered(p, q) <==> Entered(CallOp(p, Register(r, target)), q))
  {
  }

  lemma RegisterKeepsInv(p: Process, r: CallId, target: nat)
    requires Inv(p) && Enabled(p, Register(r, target))
    ensures Inv(CallOp(p, Register(r, target)))
  {
    var p' := CallOp(p, Register(r, target));
    forall q | q in p'.calls
      ensures CallInv(p', q) && (q in p.calls ==> (Entered(p, q) <==> Entered(p', q)))
    {
      RegisterKeepsCall(p, r, target, q);
    }
    TasksKept(p, p');
  }

  lemma ActivateKeepsCall(p: Process, r: CallId, f: nat, q: CallId)
    requires Enabled(p, Activate(r, f)) && CallInv(p, r) && q in p.calls && CallInv(p, q)
    requires f !in p.table
    ensures CallInv(CallOp(p, Activate(r, f)), q)
    ensures Entered(p, q) || q == r <==> Entered(CallOp(p, Activate(r, f)), q)
  {
  }

  lemma ActivateKeepsInv(p: Process, r: CallId, f: nat)
    requires Inv(p) && Enabled(p, Activate(r, f))
    ensures Inv(CallOp(p, Activate(r, f)))
  {
    var p' := CallOp(p, Activate(r, f));
    assert CallInv(p, r);
    forall q | q in p.calls ensures CallInv(p', q) && (Entered(p, q) || q == r <==> Entered(p', q)) {
      ActivateKeepsCall(p, r, f, q);
    }
    TasksKept(p, p');
  }

  lemma FailureKeepsCall(p: Process, step: Step, q: CallId)
    requires Enabled(p, step) && (step.ActivateThrows? || step.DropFailed?)
    requires CallInv(p, step.r) && q in p.calls && CallInv(p, q)
    ensures CallInv(CallOp(p, step), q) && (Entered(p, q) <==> Entered(CallOp(p, step), q))
  {
  }

  lemma FailureKeepsInv(p: Process, step: Step)
    requires Inv(p) && Enabled(p, step) && (step.ActivateThrows? || step.DropFailed?)
    ensures Inv(CallOp(p, step))
  {
    var p' := CallOp(p, step);
    assert CallInv(p, step.r);
    forall q | q in p.calls ensures CallInv(p', q) && (Entered(p, q) <==> Entered(p', q)) {
      FailureKeepsCall(p, step, q);
    }
    TasksKept(p, p');
  }

  /** A deferral moves the entry to the new id and the call's id with it. */
  lemma DeferralKeepsInv(p: Process, r: CallId, f: nat)
    requires Inv(p) && r in p.calls && p.calls[r].keepWaiting && p.calls[r].phase == Activated && p.collided.None?
    requires !MeetsActive(p.table, p.calls[r].fid, f)
    ensures var p' := Put(p, r, p.calls[r].(fid := f))
                      .(table := Rekey(p.table, p.calls[r].fid, f), issued := p.issued + {f});
      Inv(p')
  {
    var p' := Put(p, r, p.calls[r].(fid := f)).(table := Rekey(p.table, p.calls[r].fid, f), issued := p.issued + {f});
    assert CallInv(p, r);
    assert p.table[p.calls[r].fid] == r;
    forall q | q in p'.calls ensures CallInv(p', q) {
      assert CallInv(p, q);
    }
    TasksKept(p, p');
  }

  /** A deferral that takes effect. */
  lemma DeferredKeepsInv(p: Process, t: Tid)
    requires Inv(p) && Enabled(p, RunHandler(t)) && Defers(p, t) && !Collides(p, t)
    ensures Inv(CallOp(p, RunHandler(t)))
  {
    var r, f := At(p, t).r, At(p, t).reply.newFid;
    assert TaskInv(p, t);
    DeferralKeepsInv(p, r, f);
    var q := Put(p, r, p.calls[r].(fid := f)).(table := Rekey(p.table, p.calls[r].fid, f), issued := p.issued + {f});
    TaskMoveKeepsInv(q, t, Idle);
    assert CallOp(p, RunHandler(t)) == Go(q, t, Idle);
  }

  /** A deferral that meets an active id loses the entry of its own call and no other. */
  lemma LossKeepsInv(p: Process, r: CallId)
    requires Inv(p) && r in p.calls && p.calls[r].keepWaiting && p.calls[r].phase == Activated && p.collided.None?
    ensures Inv(p.(table := p.table - {p.calls[r].fid}, collided := Some(r)))
  {
    var p' := p.(table := p.table - {p.calls[r].fid}, collided := Some(r));
    assert CallInv(p, r) && p.table[p.calls[r].fid] == r;
    forall q | q in p.calls ensures CallInv(p', q) {
      assert CallInv(p, q);
    }
    TasksKept(p, p');
  }

  lemma CollisionKeepsInv(p: Process, t: Tid)
    requires Inv(p) && Enabled(p, RunHandler(t)) && Collides(p, t)
    ensures Inv(CallOp(p, RunHandler(t)))
  {
    var r := At(p, t).r;
    assert TaskInv(p, t);
    LossKeepsInv(p, r);
    var q := p.(table := p.table - {p.calls[r].fid}, collided := Some(r));
    TaskMoveKeepsInv(q, t, Terminating);
    assert CallOp(p, RunHandler(t)) == Go(q, t, Terminating);
  }

  /** Any other reply, or one that comes too late. */
  lemma AnswerKeepsInv(p: Process, t: Tid)
    requires Inv(p) && Enabled(p, RunHandler(t)) && !Defers(p, t)
    ensures Inv(CallOp(p, RunHandler(t)))
  {
    var r, reply := At(p, t).r, At(p, t).reply;
    var q := Put(p, r, Deliver(p.calls[r], reply));
    assert CallInv(p, r);
    SettleKeepsInv(p, r, Deliver(p.calls[r], reply));
    TaskMoveKeepsInv(q, t, Idle);
    assert CallOp(p, RunHandler(t)) == Go(q, t, Idle);
  }

  lemma ScanOneKeepsInv(p: Process, r: CallId)
    requires Inv(p) && Enabled(p, ScanOne(r))
    ensures Inv(ScanOp(p, ScanOne(r)))
  {
    assert CallInv(p, r);
    var q := Put(p, r, CancelOne(p.calls[r], p.scan.value.only));
    SettleKeepsInv(p, r, CancelOne(p.calls[r], p.scan.value.only));
    ScanOneKeepsScan(p, r);
    SameViewKeepsInv(q, ScanOp(p, ScanOne(r)));
  }

  /** A call the stop scan has passed no longer waits. */
  lemma ScanOneKeepsScan(p: Process, r: CallId)
    requires ScanInv(p) && Enabled(p, ScanOne(r))
    ensures ScanInv(ScanOp(p, ScanOne(r)))
  {
  }

  lemma OtherScanKeepsScan(p: Process, step: Step)
    requires ScanInv(p) && Enabled(p, step) && (step.StopTransport? || step.ScanBegin? || step.ScanEnd?)
    ensures ScanInv(ScanOp(p, step))
  {
  }

  lemma OtherScanKeepsInv(p: Process, step: Step)
    requires Inv(p) && Enabled(p, step) && (step.StopTransport? || step.ScanBegin? || step.ScanEnd?)
    ensures Inv(ScanOp(p, step))
  {
    OtherScanKeepsScan(p, step);
    SameViewKeepsInv(p, ScanOp(p, step));
  }

  lemma SameViewKeepsInv(p: Process, p': Process)
    requires Inv(p) && ScanInv(p')
    requires p'.(scan := p.scan, mustStop := p.mustStop, stopScanned := p.stopScanned) == p
    ensures Inv(p')
  {
    forall q | q in p'.calls ensures CallInv(p', q) {
      assert CallInv(p, q);
    }
    forall t: Tid ensures TaskInv(p', t) {
      assert TaskInv(p, t) && At(p', t) == At(p, t);
    }
  }

  lemma AbandonKeepsInv(p: Process, t: Tid)
    requires Inv(p) && Enabled(p, Abandon(t))
    ensures Inv(WaitOp(p, Abandon(t)))
  {
    var r := At(p, t).r;
    assert CallInv(p, r) && TaskInv(p, t);
    SettleKeepsInv(p, r, AbandonBy(p.calls[r], t));
    TaskMoveKeepsInv(Put(p, r, AbandonBy(p.calls[r], t)), t,
                     if p.calls[r].keepWaiting then Got(r, OwnAbandon) else Reading(r));
  }

  /** Claiming the cleanup of another call leaves this one alone. */
  lemma CleanKeepsOther(p: Process, t: Tid, q: CallId)
    requires Enabled(p, Clean(t)) && !p.calls[At(p, t).r].cleanedUp && q in p.calls && q != At(p, t).r
    requires CallInv(p, q)
    ensures CallInv(WaitOp(p, Clean(t)), q)
  {
    if p.calls[q].cleaner.Some? && p.calls[q].cleaner.value != t {
      assert At(WaitOp(p, Clean(t)), p.calls[q].cleaner.value) == At(p, p.calls[q].cleaner.value);
    }
  }

  lemma CleanKeepsOwn(p: Process, t: Tid)
    requires Enabled(p, Clean(t)) && !p.calls[At(p, t).r].cleanedUp
    requires CallInv(p, At(p, t).r) && TaskInv(p, t)
    ensures CallInv(WaitOp(p, Clean(t)), At(p, t).r)
  {
  }

  lemma CleanKeepsTask(p: Process, t: Tid, u: Tid)
    requires TaskInv(p, u) && Enabled(p, Clean(t)) && !p.calls[At(p, t).r].cleanedUp
    requires TaskInv(p, t) && CallInv(p, At(p, t).r)
    ensures TaskInv(WaitOp(p, Clean(t)), u)
  {
    if u != t {
      assert At(WaitOp(p, Clean(t)), u) == At(p, u);
    }
  }

  lemma CleanKeepsEntered(p: Process, t: Tid, q: CallId)
    requires Enabled(p, Clean(t)) && !p.calls[At(p, t).r].cleanedUp && q in p.calls && Entered(p, q)
    requires CallInv(p, q) && TaskInv(p, t)
    ensures Entered(WaitOp(p, Clean(t)), q) && WaitOp(p, Clean(t)).calls[q].fid == p.calls[q].fid
  {
    if q != At(p, t).r && p.calls[q].cleaner.Some? {
      assert At(WaitOp(p, Clean(t)), p.calls[q].cleaner.value) == At(p, p.calls[q].cleaner.value);
    }
  }

  lemma CleanKeepsTable(p: Process, t: Tid)
    requires Inv(p) && Enabled(p, Clean(t)) && !p.calls[At(p, t).r].cleanedUp
    ensures TableInv(WaitOp(p, Clean(t)))
  {
    assert TaskInv(p, t);
    forall f | f in p.table
      ensures p.table[f] in p.calls && Entered(WaitOp(p, Clean(t)), p.table[f])
      ensures WaitOp(p, Clean(t)).calls[p.table[f]].fid == f
    {
      assert CallInv(p, p.table[f]);
      CleanKeepsEntered(p, t, p.table[f]);
    }
  }

  lemma CleanKeepsInv(p: Process, t: Tid)
    requires Inv(p) && Enabled(p, Clean(t))
    ensures Inv(WaitOp(p, Clean(t)))
  {
    var r := At(p, t).r;
    assert TaskInv(p, t) && CallInv(p, r);
    if p.calls[r].cleanedUp {
      TaskMoveKeepsInv(p, t, Idle);
    } else {
      CleanKeepsTable(p, t);
      forall q | q in p.calls ensures CallInv(WaitOp(p, Clean(t)), q) {
        if q == r { CleanKeepsOwn(p, t); } else { CleanKeepsOther(p, t, q); }
      }
      forall u: Tid ensures TaskInv(WaitOp(p, Clean(t)), u) {
        assert TaskInv(p, u);
        CleanKeepsTask(p, t, u);
      }
    }
  }

  /** Erasing for another call leaves this one alone. */
  lemma EraseKeepsCleaners(p: Process, t: Tid, q: CallId)
    requires Enabled(p, Erase(t)) && q in p.calls && q != At(p, t).r
    ensures q in WaitOp(p, Erase(t)).calls && (BeingCleaned(p, q) <==> BeingCleaned(WaitOp(p, Erase(t)), q))
    ensures q in WaitOp(p, Erase(t)).outstanding <==> q in p.outstanding
  {
    var p' := WaitOp(p, Erase(t));
    if p.calls[q].cleaner.Some? && p.calls[q].cleaner.value != t {
      assert At(p', p.calls[q].cleaner.value) == At(p, p.calls[q].cleaner.value);
    }
  }

  lemma EraseKeepsOther(p: Process, t: Tid, q: CallId)
    requires Enabled(p, Erase(t)) && q in p.calls && At(p, t).r in p.calls && q != At(p, t).r
    requires CallInv(p, q) && TaskInv(p, t) && CallInv(p, At(p, t).r)
    ensures CallInv(WaitOp(p, Erase(t)), q)
  {
    EraseChanges(p, t);
    EraseKeepsCleaners(p, t, q);
  }

  lemma EraseKeepsOwn(p: Process, t: Tid)
    requires Enabled(p, Erase(t)) && At(p, t).r in p.calls && CallInv(p, At(p, t).r) && TaskInv(p, t)
    ensures CallInv(WaitOp(p, Erase(t)), At(p, t).r)
  {
  }

  lemma EraseKeepsTask(p: Process, t: Tid, u: Tid)
    requires TaskInv(p, u) && TaskInv(p, t) && Enabled(p, Erase(t))
    ensures TaskInv(WaitOp(p, Erase(t)), u)
  {
    if u != t {
      assert At(WaitOp(p, Erase(t)), u) == At(p, u);
    }
  }

  /** The entry of a call other than the one being erased is still due. */
  lemma EraseKeepsEntered(p: Process, t: Tid, q: CallId)
    requires Enabled(p, Erase(t)) && q in p.calls && Entered(p, q) && CallInv(p, q)
    requires At(p, t).EraseOutstanding? || q != At(p, t).r
    ensures Entered(WaitOp(p, Erase(t)), q)
  {
    var p' := WaitOp(p, Erase(t));
    if p.calls[q].cleaner.Some? && p.calls[q].cleaner.value != t {
      assert At(p', p.calls[q].cleaner.value) == At(p, p.calls[q].cleaner.value);
    }
  }

  lemma EraseKeepsEntry(p: Process, t: Tid, f: nat)
    requires TableInv(p) && TaskInv(p, t) && Enabled(p, Erase(t)) && f in WaitOp(p, Erase(t)).table
    requires f in p.table && p.table[f] in p.calls && CallInv(p, p.table[f])
    ensures Entered(WaitOp(p, Erase(t)), p.table[f])
  {
    EraseKeepsEntered(p, t, p.table[f]);
  }

  lemma EraseChanges(p: Process, t: Tid)
    requires Enabled(p, Erase(t))
    ensures var p' := WaitOp(p, Erase(t));
      && p'.calls == p.calls && p'.issued == p.issued && p'.collided == p.collided
      && p'.table == (if At(p, t).EraseEntry? then p.table - {At(p, t).fid} else p.table)
  {
  }

  lemma EraseKeepsTable(p: Process, t: Tid)
    requires Inv(p) && Enabled(p, Erase(t))
    ensures TableInv(WaitOp(p, Erase(t)))
  {
    EraseChanges(p, t);
    assert TaskInv(p, t);
    forall f | f in WaitOp(p, Erase(t)).table
      ensures f in p.table && Entered(WaitOp(p, Erase(t)), p.table[f])
    {
      assert CallInv(p, p.table[f]);
      EraseKeepsEntry(p, t, f);
    }
  }

  /** Cleanup removes exactly the entry of its own call. */
  lemma EraseKeepsInv(p: Process, t: Tid)
    requires Inv(p) && Enabled(p, Erase(t))
    ensures Inv(WaitOp(p, Erase(t)))
  {
    EraseKeepsTable(p, t);
    assert TaskInv(p, t) && CallInv(p, At(p, t).r);
    forall q | q in p.calls ensures CallInv(WaitOp(p, Erase(t)), q) {
      if q == At(p, t).r { EraseKeepsOwn(p, t); } else { EraseKeepsOther(p, t, q); }
    }
    forall u: Tid ensures TaskInv(WaitOp(p, Erase(t)), u) {
      EraseKeepsTask(p, t, u);
    }
  }

  lemma WaitKeepsInv(p: Process, step: Step)
    requires Inv(p) && Enabled(p, step) && (step.BeginWait? || step.Wake? || step.Read?)
    ensures Inv(WaitOp(p, step))
  {
    assert TaskInv(p, step.t);
    TaskMoveKeepsInv(p, step.t, At(WaitOp(p, step), step.t));
  }

  lemma CallOpKeepsInv(p: Process, step: Step)
    requires Inv(p) && Enabled(p, step)
    requires
      || step.Register? || step.Activate? || step.ActivateThrows? || step.DropFailed?
      || step.Lookup? || step.RunHandler?
    ensures Inv(CallOp(p, step))
  {
    match step
    case Register(r, target) => RegisterKeepsInv(p, r, target);
    case Activate(r, f) => ActivateKeepsInv(p, r, f);
    case ActivateThrows(_) => FailureKeepsInv(p, step);
    case DropFailed(_) => FailureKeepsInv(p, step);
    case Lookup(t, f, reply) => TaskMoveKeepsInv(p, t, Invoke(p.table[f], reply));
    case RunHandler(t) =>
      if Collides(p, t) {
        CollisionKeepsInv(p, t);
      } else if Defers(p, t) {
        DeferredKeepsInv(p, t);
      } else {
        AnswerKeepsInv(p, t);
      }
  }

  lemma WaitOpKeepsInv(p: Process, step: Step)
    requires Inv(p) && Enabled(p, step)
    requires step.BeginWait? || step.Wake? || step.Read? || step.Abandon? || step.Clean? || step.Erase?
    ensures Inv(WaitOp(p, step))
  {
    match step
    case Abandon(t) => AbandonKeepsInv(p, t);
    case Clean(t) => CleanKeepsInv(p, t);
    case Erase(t) => EraseKeepsInv(p, t);
    case _ => WaitKeepsInv(p, step);
  }

  lemma ApplyKeepsInv(p: Process, step: Step)
    requires Inv(p) && Enabled(p, step)
    ensures Inv(Apply(p, step))
  {
    match step
    case ScanOne(r) => ScanOneKeepsInv(p, r);
    case StopTransport | ScanBegin(_, _) | ScanEnd => OtherScanKeepsInv(p, step);
    case Register(_, _) | Activate(_, _) | ActivateThrows(_) | DropFailed(_) | Lookup(_, _, _) | RunHandler(_) =>
      CallOpKeepsInv(p, step);
    case _ => WaitOpKeepsInv(p, step);
  }

  lemma ReachableInv(run: seq<Process>, k: nat)
    requires IsRun(Init, Next, run) && k < |run|
    ensures Inv(run[k])
  {
    forall p, p' | Inv(p) && Next(p, p') ensures Inv(p') {
      var step :| Enabled(p, step) && p' == Apply(p, step);
      ApplyKeepsInv(p, step);
    }
    InvariantHolds(Init, Next, Inv, run, k);
  }

  // ---- What holds in every run ----

  /** Cleanup apart, a call with an outcome never changes again. */
  ghost predicate Frozen(c: Call, c': Call) {
    && StateOf(c') == StateOf(c) && !c'.keepWaiting
    && c'.fid == c.fid && c'.abandonedBy == c.abandonedBy
    && (c.cleanedUp ==> c'.cleanedUp && c'.cleaner == c.cleaner)
  }

  /** What one step may do to an activated call. */
  ghost predicate CallMoves(p: Process, p': Process, r: CallId)
    requires r in p.calls
  {
    && r in p'.calls
    && (p.calls[r].phase == Activated ==>
          p'.calls[r].phase == Activated && (!p.calls[r].keepWaiting ==> Frozen(p.calls[r], p'.calls[r])))
  }

  lemma DeferMoves(p: Process, t: Tid, q: CallId, f: nat, r: CallId)
    requires q in p.calls && p.calls[q].keepWaiting && r in p.calls
    ensures CallMoves(p, Defer(p, t, q, f), r)
  {
  }

  lemma CallOpMoves(p: Process, step: Step, r: CallId)
    requires Enabled(p, step) && r in p.calls
    ensures CallMoves(p, CallOp(p, step), r)
  {
    if step.RunHandler? && Defers(p, step.t) {
      DeferMoves(p, step.t, At(p, step.t).r, At(p, step.t).reply.newFid, r);
    }
  }

  lemma ScanOpMoves(p: Process, step: Step, r: CallId)
    requires r in p.calls
    ensures CallMoves(p, ScanOp(p, step), r)
  {
  }

  lemma WaitOpMoves(p: Process, step: Step, r: CallId)
    requires r in p.calls
    ensures CallMoves(p, WaitOp(p, step), r)
  {
  }

  lemma SettledStaysSettled(p: Process, step: Step, r: CallId)
    requires Enabled(p, step) && r in p.calls
    ensures CallMoves(p, Apply(p, step), r)
  {
    CallOpMoves(p, step, r);
    ScanOpMoves(p, step, r);
    WaitOpMoves(p, step, r);
  }

  /**
   One RPC outcome: reply, remote exception, cancellation and abandonment race to a single
   permanent outcome. Whatever happens later, late replies and deferrals included, the outcome,
   the function id and the winner of abandonment stay.
   */
  lemma {:induction false} OneOutcome(run: seq<Process>, k: nat, j: nat, r: CallId)
    requires IsRun(Init, Next, run) && k <= j < |run|
    requires r in run[k].calls && run[k].calls[r].phase == Activated && !run[k].calls[r].keepWaiting
    ensures r in run[j].calls && run[j].calls[r].phase == Activated && Frozen(run[k].calls[r], run[j].calls[r])
    ensures StateOf(run[j].calls[r]) != Pending
    decreases j
  {
    if k < j {
      OneOutcome(run, k, j - 1, r);
      ReachableInv(run, j - 1);
      RunStep(Init, Next, run, j);
      var step :| Enabled(run[j - 1], step) && run[j] == Apply(run[j - 1], step);
      SettledStaysSettled(run[j - 1], step, r);
    }
  }

  /**
   get_until and get(stop): the call's own error is given exactly when its own abandon won the
   race against every other outcome; otherwise the result is the outcome committed first.
   */
  lemma WaitResultIsExact(run: seq<Process>, k: nat, t: Tid)
    requires IsRun(Init, Next, run) && k < |run|
    ensures At(run[k], t).Got? ==>
      var r := At(run[k], t).r;
      && r in run[k].calls && !run[k].calls[r].keepWaiting
      && (At(run[k], t).result == OwnAbandon ==>
            StateOf(run[k].calls[r]) == Abandoned && run[k].calls[r].abandonedBy == Some(t))
      && (At(run[k], t).result != OwnAbandon ==> At(run[k], t).result == Outcome(StateOf(run[k].calls[r])))
    ensures At(run[k], t).Abandoning? ==>
      var r := At(run[k], t).r;
      && r in run[k].calls
      && (At(WaitOp(run[k], Abandon(t)), t) == Got(r, OwnAbandon) <==> StateOf(run[k].calls[r]) == Pending)
  {
    ReachableInv(run, k);
    assert TaskInv(run[k], t);
    if At(run[k], t).Got? || At(run[k], t).Abandoning? {
      assert CallInv(run[k], At(run[k], t).r);
    }
  }

  // ---- The return-handler table ----

  /** One step: a collision is for good, happens exactly in the throwing branch, and only to the call deferred. */
  lemma CollisionStep(p: Process, p': Process)
    requires Next(p, p')
    ensures p.collided.Some? ==> p'.collided == p.collided && p'.table == p.table
    ensures p.collided.None? && p'.collided.Some? ==>
      exists t: Tid :: Collides(p, t) && p'.collided == Some(At(p, t).r) && p' == CallOp(p, RunHandler(t))
  {
    var step :| Enabled(p, step) && p' == Apply(p, step);
    if step.RunHandler? && Defers(p, step.t) {
      assert p.collided.None?;
    } else {
      OtherStepsCollideNever(p, step);
    }
  }

  lemma CallOpCollidesNever(p: Process, step: Step)
    requires Enabled(p, step) && !(step.RunHandler? && Defers(p, step.t))
    ensures CallOp(p, step).collided == p.collided && (p.collided.Some? ==> CallOp(p, step).table == p.table)
  {
  }

  lemma ScanOpCollidesNever(p: Process, step: Step)
    ensures ScanOp(p, step).collided == p.collided && ScanOp(p, step).table == p.table
  {
  }

  lemma WaitOpCollidesNever(p: Process, step: Step)
    requires Enabled(p, step)
    ensures WaitOp(p, step).collided == p.collided && (p.collided.Some? ==> WaitOp(p, step).table == p.table)
  {
    if step.Erase? {
      EraseChanges(p, step.t);
    } else {
      WaitOpKeepsTable(p, step);
    }
  }

  lemma WaitOpKeepsTable(p: Process, step: Step)
    requires !step.Erase?
    ensures WaitOp(p, step).collided == p.collided && WaitOp(p, step).table == p.table
  {
  }

  lemma OtherStepsCollideNever(p: Process, step: Step)
    requires Enabled(p, step) && !(step.RunHandler? && Defers(p, step.t))
    ensures Apply(p, step).collided == p.collided
    ensures p.collided.Some? ==> Apply(p, step).table == p.table
  {
    CallOpCollidesNever(p, step);
    ScanOpCollidesNever(p, step);
    WaitOpCollidesNever(p, step);
  }

  /** At moment `j` of the run a deferral of `r` meets an active id and throws. */
  ghost predicate MetActive(run: seq<Process>, j: nat, r: CallId) {
    && j + 1 < |run|
    && exists t: Tid :: Collides(run[j], t) && At(run[j], t).r == r && run[j + 1] == CallOp(run[j], RunHandler(t))
  }

  lemma {:induction false} CollisionStays(run: seq<Process>, j: nat, k: nat)
    requires IsRun(Init, Next, run) && j <= k < |run| && run[j].collided.Some?
    ensures run[k].collided == run[j].collided && run[k].table == run[j].table
    decreases k
  {
    if j < k {
      CollisionStays(run, j, k - 1);
      RunStep(Init, Next, run, k);
      CollisionStep(run[k - 1], run[k]);
    }
  }

  /** `collided` is no more than history: it names `r` exactly when a deferral of `r` has met an active id. */
  lemma {:induction false} CollidedMeansMet(run: seq<Process>, k: nat, r: CallId)
    requires IsRun(Init, Next, run) && k < |run|
    ensures run[k].collided == Some(r) <==> exists j: nat :: j < k && MetActive(run, j, r)
  {
    if j: nat :| j < k && MetActive(run, j, r) {
      assert run[j + 1].collided == Some(r);
      CollisionStays(run, j + 1, k);
    }
    if k > 0 && run[k].collided == Some(r) {
      RunStep(Init, Next, run, k);
      CollisionStep(run[k - 1], run[k]);
      if run[k - 1].collided == Some(r) {
        CollidedMeansMet(run, k - 1, r);
      } else {
        assert MetActive(run, k - 1, r);
      }
    }
  }

  /**
   The return-handler table under deferral. In every run, through any number of deferrals, to ids fresh
   or used before, a waiting call is found under the id its state records, and under no other, if and
   only if no deferral of it has met an active id; after such a deferral it is found under no id at all.
   Cleanup happens after an outcome, and when it is over neither the table nor the outstanding set
   still knows the call: nothing leaks.
   */
  lemma TableFollowsDeferrals(run: seq<Process>, k: nat, r: CallId, f: nat)
    requires IsRun(Init, Next, run) && k < |run|
    requires r in run[k].calls && run[k].calls[r].phase == Activated
    ensures run[k].calls[r].keepWaiting ==>
      (f in run[k].table && run[k].table[f] == r <==>
         f == run[k].calls[r].fid && !exists j: nat :: j < k && MetActive(run, j, r))
    ensures (exists j: nat :: j < k && MetActive(run, j, r)) ==> !(f in run[k].table && run[k].table[f] == r)
    ensures run[k].calls[r].cleanedUp ==> StateOf(run[k].calls[r]) != Pending
    ensures run[k].calls[r].cleanedUp && !BeingCleaned(run[k], r) ==>
              r !in run[k].outstanding && !(f in run[k].table && run[k].table[f] == r)
  {
    ReachableInv(run, k);
    assert CallInv(run[k], r);
    CollidedMeansMet(run, k, r);
  }

  /**
   The last step of a cleanup removes its own call's entry and no other; it finds that entry exactly
   when no deferral of the call has met an active id.
   */
  lemma CleanupRemovesItsOwnEntry(run: seq<Process>, k: nat, t: Tid)
    requires IsRun(Init, Next, run) && k < |run| && At(run[k], t).EraseEntry?
    ensures var r, f := At(run[k], t).r, At(run[k], t).fid;
      && r in run[k].calls && run[k].calls[r].fid == f
      && (f in run[k].table <==> !exists j: nat :: j < k && MetActive(run, j, r))
      && (f in run[k].table ==> run[k].table[f] == r)
      && WaitOp(run[k], Erase(t)).table == run[k].table - {f}
  {
    ReachableInv(run, k);
    var r := At(run[k], t).r;
    assert TaskInv(run[k], t) && CallInv(run[k], r);
    CollidedMeansMet(run, k, r);
  }

  // ---- What a caller can do about it ----

  /** The deferral `t` is about to handle goes to the id under which another call `q` is still entered. */
  ghost predicate SharedWith(p: Process, t: Tid, q: CallId) {
    && Defers(p, t) && q in p.calls && q != At(p, t).r && Entered(p, q)
    && p.calls[q].fid == At(p, t).reply.newFid
  }

  /** No deferral being handled goes to the id of another call not yet cleaned up. */
  ghost predicate Unshared(p: Process) { forall t: Tid, q :: !SharedWith(p, t, q) }

  /** A deferral meets an active id exactly when it goes to the id of another call not yet cleaned up. */
  lemma CollidesExactly(p: Process, t: Tid)
    requires Inv(p) && p.collided.None?
    ensures Collides(p, t) <==> exists q :: SharedWith(p, t, q)
  {
    if Defers(p, t) {
      var r, f := At(p, t).r, At(p, t).reply.newFid;
      assert CallInv(p, r) && TaskInv(p, t);
      if Collides(p, t) {
        assert CallInv(p, p.table[f]);
        assert SharedWith(p, t, p.table[f]);
      }
      if q :| SharedWith(p, t, q) {
        assert CallInv(p, q) && p.table[f] == q && p.table[p.calls[r].fid] == r;
      }
    }
  }

  lemma UnsharedStep(p: Process, p': Process)
    requires Inv(p) && p.collided.None? && Unshared(p) && Next(p, p')
    ensures p'.collided.None?
  {
    CollisionStep(p, p');
    if t: Tid :| Collides(p, t) {
      CollidesExactly(p, t);
    }
  }

  /** While no deferral goes to the id of a call not yet cleaned up, every waiting call is found. */
  lemma {:induction false} OneWaitPerIdIsSafe(run: seq<Process>, k: nat, r: CallId)
    requires IsRun(Init, Next, run) && k < |run| && forall j :: 0 <= j < k ==> Unshared(run[j])
    ensures run[k].collided.None?
    ensures r in run[k].calls && run[k].calls[r].phase == Activated && run[k].calls[r].keepWaiting ==>
      run[k].calls[r].fid in run[k].table && run[k].table[run[k].calls[r].fid] == r
  {
    if k > 0 {
      OneWaitPerIdIsSafe(run, k - 1, r);
      ReachableInv(run, k - 1);
      RunStep(Init, Next, run, k);
      UnsharedStep(run[k - 1], run[k]);
    }
    ReachableInv(run, k);
    if r in run[k].calls {
      assert CallInv(run[k], r);
    }
  }

  /**
   Names: each call has the id the coordinator would defer it to, one per waited name or barrier. Every
   deferral goes there, and no two calls of this process not yet cleaned up have the same.
   */
  ghost predicate OnePerName(p: Process, waitId: CallId -> nat) {
    && (forall t: Tid :: At(p, t).Invoke? && At(p, t).reply.Deferral? ==> At(p, t).reply.newFid == waitId(At(p, t).r))
    && (forall q, r :: q in p.calls && r in p.calls && q != r && Entered(p, q) && Entered(p, r) ==>
          waitId(q) != waitId(r))
  }

  ghost predicate IsWaitId(f: nat, waitId: CallId -> nat) { exists q :: waitId(q) == f }

  predicate HasPhase(p: Process, r: CallId, phase: Phase) { r in p.calls && p.calls[r].phase == phase }

  /** The id of a newly activated call is nobody's wait id: the two kinds come from different counters. */
  ghost predicate FreshlyNamed(p: Process, p': Process, waitId: CallId -> nat) {
    forall r :: HasPhase(p', r, Activated) && !HasPhase(p, r, Activated) ==> !IsWaitId(p'.calls[r].fid, waitId)
  }

  /** An activated call is recorded under its wait id, or under an id that is nobody's wait id. */
  ghost predicate Named(p: Process, waitId: CallId -> nat) {
    forall r :: HasPhase(p, r, Activated) && IsWaitId(p.calls[r].fid, waitId) ==> p.calls[r].fid == waitId(r)
  }

  /** A step changes the id of an activated call only by a deferral of it, to the deferral's id. */
  lemma IdMoves(p: Process, step: Step, r: CallId)
    requires Enabled(p, step) && HasPhase(p, r, Activated)
    ensures HasPhase(Apply(p, step), r, Activated)
    ensures Apply(p, step).calls[r].fid == p.calls[r].fid
         || (step.RunHandler? && Defers(p, step.t) && At(p, step.t).r == r
             && Apply(p, step).calls[r].fid == At(p, step.t).reply.newFid)
  {
    if step.RunHandler? && Defers(p, step.t) {
      DeferMovesId(p, step.t, At(p, step.t).r, At(p, step.t).reply.newFid, r);
    } else {
      IdStays(p, step, r);
    }
  }

  lemma DeferMovesId(p: Process, t: Tid, q: CallId, f: nat, r: CallId)
    requires q in p.calls && HasPhase(p, r, Activated)
    ensures HasPhase(Defer(p, t, q, f), r, Activated)
    ensures Defer(p, t, q, f).calls[r].fid == p.calls[r].fid || (q == r && Defer(p, t, q, f).calls[r].fid == f)
  {
  }

  lemma CallOpKeepsId(p: Process, step: Step, r: CallId)
    requires Enabled(p, step) && HasPhase(p, r, Activated) && !(step.RunHandler? && Defers(p, step.t))
    ensures HasPhase(CallOp(p, step), r, Activated) && CallOp(p, step).calls[r].fid == p.calls[r].fid
  {
  }

  lemma ScanOpKeepsId(p: Process, step: Step, r: CallId)
    requires HasPhase(p, r, Activated)
    ensures HasPhase(ScanOp(p, step), r, Activated) && ScanOp(p, step).calls[r].fid == p.calls[r].fid
  {
  }

  lemma WaitOpKeepsId(p: Process, step: Step, r: CallId)
    requires HasPhase(p, r, Activated)
    ensures HasPhase(WaitOp(p, step), r, Activated) && WaitOp(p, step).calls[r].fid == p.calls[r].fid
  {
  }

  lemma IdStays(p: Process, step: Step, r: CallId)
    requires Enabled(p, step) && HasPhase(p, r, Activated) && !(step.RunHandler? && Defers(p, step.t))
    ensures HasPhase(Apply(p, step), r, Activated) && Apply(p, step).calls[r].fid == p.calls[r].fid
  {
    CallOpKeepsId(p, step, r);
    ScanOpKeepsId(p, step, r);
    WaitOpKeepsId(p, step, r);
  }

  lemma StepKeepsNamed(p: Process, p': Process, waitId: CallId -> nat)
    requires Next(p, p') && Named(p, waitId) && OnePerName(p, waitId) && FreshlyNamed(p, p', waitId)
    ensures Named(p', waitId)
  {
    var step :| Enabled(p, step) && p' == Apply(p, step);
    forall r | HasPhase(p', r, Activated) && IsWaitId(p'.calls[r].fid, waitId) ensures p'.calls[r].fid == waitId(r) {
      if HasPhase(p, r, Activated) {
        IdMoves(p, step, r);
      }
    }
  }

  /** The step to moment `j` is one of a process that keeps to its names. */
  ghost predicate NamedMove(run: seq<Process>, j: nat, waitId: CallId -> nat)
    requires 0 < j < |run|
  {
    OnePerName(run[j - 1], waitId) && FreshlyNamed(run[j - 1], run[j], waitId)
  }

  ghost predicate NamedRun(run: seq<Process>, k: nat, waitId: CallId -> nat)
    requires k < |run|
  {
    forall j :: 0 < j <= k ==> NamedMove(run, j, waitId)
  }

  lemma MoveKeepsNamed(run: seq<Process>, j: nat, waitId: CallId -> nat)
    requires 0 < j < |run| && Next(run[j - 1], run[j]) && NamedMove(run, j, waitId) && Named(run[j - 1], waitId)
    ensures Named(run[j], waitId)
  {
    StepKeepsNamed(run[j - 1], run[j], waitId);
  }

  lemma {:induction false} NamedHolds(run: seq<Process>, j: nat, k: nat, waitId: CallId -> nat)
    requires IsRun(Init, Next, run) && j <= k < |run| && NamedRun(run, k, waitId)
    ensures Named(run[j], waitId)
    decreases j
  {
    if j > 0 {
      NamedHolds(run, j - 1, k, waitId);
      RunStep(Init, Next, run, j);
      MoveKeepsNamed(run, j, waitId);
    }
  }

  /** Two calls on one deferral id are two calls of one name. */
  lemma SharedIdIsSharedName(p: Process, t: Tid, q: CallId, waitId: CallId -> nat)
    requires Named(p, waitId) && SharedWith(p, t, q) && At(p, t).reply.newFid == waitId(At(p, t).r)
    requires TaskInv(p, t) && CallInv(p, At(p, t).r)
    ensures waitId(q) == waitId(At(p, t).r) && Entered(p, At(p, t).r)
  {
    assert HasPhase(p, q, Activated) && IsWaitId(p.calls[q].fid, waitId);
  }

  lemma NamesAreUnshared(p: Process, waitId: CallId -> nat)
    requires Inv(p) && Named(p, waitId) && OnePerName(p, waitId)
    ensures Unshared(p)
  {
    forall t: Tid, q ensures !SharedWith(p, t, q) {
      if SharedWith(p, t, q) {
        SharedIdIsSharedName(p, t, q, waitId);
      }
    }
  }

  /**
   What a caller can do: in every run of a process that never has two calls not yet cleaned up waiting
   for one name or barrier, no deferral meets an active id, and every waiting call is found under the
   id its state records.
   */
  lemma OneWaitPerNameIsSafe(run: seq<Process>, k: nat, waitId: CallId -> nat, r: CallId)
    requires IsRun(Init, Next, run) && k < |run| && NamedRun(run, k, waitId)
    ensures run[k].collided.None?
    ensures HasPhase(run[k], r, Activated) && run[k].calls[r].keepWaiting ==>
      run[k].calls[r].fid in run[k].table && run[k].table[run[k].calls[r].fid] == r
  {
    forall j | 0 <= j < k ensures Unshared(run[j]) {
      ReachableInv(run, j);
      NamedHolds(run, j, k, waitId);
      assert NamedMove(run, j + 1, waitId);
      NamesAreUnshared(run[j], waitId);
    }
    OneWaitPerIdIsSafe(run, k, r);
  }

  // ---- Two waits for one name ----

  function Deferrable(fid: nat): Call { NewCall(0).(phase := Activated, fid := fid) }

  /** Calls 1 and 2, activated under ids 11 and 12, are both deferred to id 50 by the reader, thread 9. */
  ghost function CollidingRun(): seq<Process> {
    var start := Process(true, map[], map[], {}, {}, false, None, false, map[], None);
    var one := map[1 := NewCall(0)];
    var p1 := start.(calls := one, outstanding := {1});
    var p2 := start.(calls := map[1 := Deferrable(11)], outstanding := {1}, table := map[11 := 1], issued := {11});
    var p3 := p2.(calls := map[1 := Deferrable(11), 2 := NewCall(0)], outstanding := {1, 2});
    var both := map[1 := Deferrable(11), 2 := Deferrable(12)];
    var p4 := p2.(calls := both, outstanding := {1, 2}, table := map[11 := 1, 12 := 2], issued := {11, 12});
    var moved := map[1 := Deferrable(50), 2 := Deferrable(12)];
    var p6 := p4.(calls := moved, table := map[50 := 1, 12 := 2], issued := {11, 12, 50}, tasks := map[9 := Idle]);
    [ start, p1, p2, p3, p4,
      p4.(tasks := map[9 := Invoke(1, Deferral(50))]),
      p6,
      p6.(tasks := map[9 := Invoke(2, Deferral(50))]),
      p6.(table := map[50 := 1], tasks := map[9 := Terminating], collided := Some(2)) ]
  }

  ghost function CollidingStep(k: nat): Step {
    match k
    case 1 => Register(1, 0)
    case 2 => Activate(1, 11)
    case 3 => Register(2, 0)
    case 4 => Activate(2, 12)
    case 5 => Lookup(9, 11, Deferral(50))
    case 6 => RunHandler(9)
    case 7 => Lookup(9, 12, Deferral(50))
    case _ => RunHandler(9)
  }

  lemma CollidingSetup(k: nat)
    requires 0 < k < 6
    ensures var run := CollidingRun();
      Enabled(run[k - 1], CollidingStep(k)) && run[k] == Apply(run[k - 1], CollidingStep(k))
  {
  }

  lemma FirstDeferralMoves()
    ensures var run := CollidingRun();
      Enabled(run[5], RunHandler(9)) && run[6] == Apply(run[5], RunHandler(9))
  {
    var run := CollidingRun();
    assert Defers(run[5], 9) && !Collides(run[5], 9);
    assert run[6].table == Rekey(run[5].table, 11, 50);
  }

  lemma SecondDeferralIsFound()
    ensures var run := CollidingRun();
      Enabled(run[6], CollidingStep(7)) && run[7] == Apply(run[6], CollidingStep(7))
  {
  }

  lemma SecondDeferralThrows()
    ensures var run := CollidingRun();
      Collides(run[7], 9) && Enabled(run[7], RunHandler(9)) && run[8] == Apply(run[7], RunHandler(9))
  {
    var run := CollidingRun();
    assert run[7].table - {12} == map[50 := 1];
  }

  /**
   The coordinator hands out one id per waited name and per barrier. Two waits of one process for one
   name are deferred to the same id, and the second is left waiting with no entry: no reply finds it.
   */
  lemma TwoWaitsForOneNameCollide()
    ensures IsRun(Init, Next, CollidingRun())
    ensures MetActive(CollidingRun(), 7, 2)
    ensures var p := CollidingRun()[8];
      && p.calls[2].keepWaiting && p.calls[2].fid == 12 && 12 !in p.table
      && forall f :: f in p.table ==> p.table[f] != 2
  {
    var run := CollidingRun();
    forall k | 0 < k < |run| ensures MovesTo(Next, run, k) {
      FirstDeferralMoves();
      SecondDeferralIsFound();
      SecondDeferralThrows();
      if k < 6 {
        CollidingSetup(k);
      }
    }
    SecondDeferralThrows();
  }

  /**
   No call escapes transport stop: on a leaf, once the once-only scan is over, no registered call
   is waiting, now or later; a call refused or thrown back at registration is the only other kind.
   */
  lemma NoCallEscapesStop(run: seq<Process>, k: nat, r: CallId)
    requires IsRun(Init, Next, run) && k < |run|
    requires run[k].leaf && run[k].stopScanned
    ensures r in run[k].calls && run[k].calls[r].phase != Failed ==> !run[k].calls[r].keepWaiting
    ensures forall q, target :: CallOp(run[k], Register(q, target)) == run[k]
  {
    ReachableInv(run, k);
    if r in run[k].calls {
      assert CallInv(run[k], r);
    }
  }

  // ---- One call, undisturbed ----

  function Answered(p: Process, t: Tid, f: nat, reply: Reply): Process {
    CallOp(CallOp(p, Lookup(t, f, reply)), RunHandler(t))
  }

  function Waited(p: Process, t: Tid, r: CallId, expired: bool): Process {
    WaitOp(WaitOp(p, BeginWait(t, r)), Wake(t, expired))
  }

  lemma ReplyIsDelivered(p: Process, t: Tid, r: CallId, f: nat, v: nat)
    requires At(p, t) == Idle && f in p.table && p.table[f] == r && r in p.calls
    ensures var q := Answered(p, t, f, Value(v));
      At(q, t) == Idle && r in q.calls && q.calls[r] == Deliver(p.calls[r], Value(v))
  {
    assert At(CallOp(p, Lookup(t, f, Value(v))), t) == Invoke(r, Value(v));
  }

  lemma OutcomeIsRead(p: Process, t: Tid, r: CallId)
    requires At(p, t) == Idle && r in p.calls && !p.calls[r].keepWaiting
    ensures var q := WaitOp(Waited(p, t, r, false), Read(t));
      At(q, t) == Got(r, Outcome(StateOf(p.calls[r]))) && q.calls == p.calls
  {
    var p1 := WaitOp(p, BeginWait(t, r));
    assert At(p1, t) == Waiting(r);
    assert At(WaitOp(p1, Wake(t, false)), t) == Reading(r);
  }

  /**
   A reply to a waiting call, looked up by the id its state records, becomes the outcome its waiter
   reads, unless a deferral of the call has met an active id; then the lookup finds nothing.
   */
  lemma ReplyReachesWaiter(run: seq<Process>, k: nat, t: Tid, r: CallId, v: nat)
    requires IsRun(Init, Next, run) && k < |run| && At(run[k], t) == Idle
    requires r in run[k].calls && run[k].calls[r].phase == Activated && run[k].calls[r].keepWaiting
    ensures (exists j: nat :: j < k && MetActive(run, j, r)) ==> run[k].calls[r].fid !in run[k].table
    ensures !(exists j: nat :: j < k && MetActive(run, j, r)) ==>
      var p := WaitOp(Waited(Answered(run[k], t, run[k].calls[r].fid, Value(v)), t, r, false), Read(t));
      At(p, t) == Got(r, Outcome(Returned(Some(v)))) && r in p.calls && StateOf(p.calls[r]) == Returned(Some(v))
  {
    ReachableInv(run, k);
    assert CallInv(run[k], r);
    CollidedMeansMet(run, k, r);
    if run[k].collided != Some(r) {
      ReplyIsDelivered(run[k], t, r, run[k].calls[r].fid, v);
      OutcomeIsRead(Answered(run[k], t, run[k].calls[r].fid, Value(v)), t, r);
    }
  }

  /** A waiter whose deadline passes first abandons the call itself and says so. */
  lemma TimeoutAbandons(p: Process, t: Tid, r: CallId)
    requires At(p, t) == Idle && r in p.calls && p.calls[r].keepWaiting
    ensures var q := WaitOp(Waited(p, t, r, true), Abandon(t));
      && At(q, t) == Got(r, OwnAbandon) && r in q.calls
      && StateOf(q.calls[r]) == Abandoned && q.calls[r].abandonedBy == Some(t)
  {
    var p1 := WaitOp(p, BeginWait(t, r));
    assert At(p1, t) == Waiting(r) && p1.calls == p.calls;
    assert At(WaitOp(p1, Wake(t, true)), t) == Abandoning(r);
  }

  /** Cleanup after an outcome takes the call out of the outstanding set and its entry out of the table. */
  lemma CleanupAlone(p: Process, t: Tid)
    requires At(p, t).Got? && At(p, t).r in p.calls && !p.calls[At(p, t).r].cleanedUp
    ensures var r := At(p, t).r;
      var q := WaitOp(WaitOp(WaitOp(p, Clean(t)), Erase(t)), Erase(t));
      && At(q, t) == Idle && r in q.calls && q.calls[r].cleanedUp
      && q.outstanding == p.outstanding - {r} && q.table == p.table - {p.calls[r].fid}
  {
    var r := At(p, t).r;
    var p1 := WaitOp(p, Clean(t));
    assert At(p1, t) == EraseOutstanding(r, p.calls[r].fid);
    var p2 := WaitOp(p1, Erase(t));
    assert At(p2, t) == EraseEntry(r, p.calls[r].fid);
  }
}

/**
 The instance-name cache of a leaf process: remote name snapshots, invalidated by notices the
 coordinator sends in order, and cleared when the notice ring loses traffic.
 */
module NameCache {
  import opened Runs
  import opened Ids

  type Name = string

  const INVALID := Id(0, 0)

  /** process_of: the id of the process object itself. */
  function ProcessOf(id: Id): Id { Id(id.process, 1) }

  predicate IsProcess(id: Id) { id == ProcessOf(id) }

  datatype Cache = Cache(names: map<Name, Id>, revision: nat)

  datatype Notice = Published(name: Name) | Unpublished(name: Name, iid: Id)

  /** The cached snapshots a notice speaks about. */
  predicate Kills(n: Notice, name: Name, v: Id) {
    match n
    case Published(m) => m == name
    case Unpublished(m, iid) => if IsProcess(iid) then ProcessOf(v) == iid else m == name && v == iid
  }

  /** What every invalidation does: a new revision, and exactly the affected snapshots gone. */
  function Invalidated(c: Cache, n: Notice): Cache {
    Cache(map name | name in c.names && !Kills(n, name, c.names[name]) :: c.names[name], c.revision + 1)
  }

  function Cleared(c: Cache): Cache { Cache(map[], c.revision + 1) }

  /** The second half of resolve, under the lock. */
  function Filled(c: Cache, name: Name, resolved: Id): Cache {
    if resolved == INVALID || name in c.names then c else c.(names := c.names[name := resolved])
  }

  // ---- The class ----

  class InstanceNameCache {
    var names: map<Name, Id>
    var revision: nat

    ghost function Contents(): Cache reads this { Cache(names, revision) }

    constructor ()
      ensures Contents() == Cache(map[], 0)
    {
      names, revision := map[], 0;
    }

    /** First half of resolve: a hit, or the revision to compare with later. */
    method Find(name: Name) returns (hit: Option<Id>, seen: nat)
      ensures hit == (if name in names then Some(names[name]) else None) && seen == revision
    {
      seen := revision;
      if name in names {
        hit := Some(names[name]);
      } else {
        hit := None;
      }
    }

    /** Second half of resolve: keeps the answer unless an invalidation came between; false asks for the retry. */
    method Fill(name: Name, seen: nat, resolved: Id) returns (kept: bool)
      modifies this`names
      ensures kept == (seen == revision)
      ensures Contents() == if kept then Filled(old(Contents()), name, resolved) else old(Contents())
    {
      kept := seen == revision;
      if kept && resolved != INVALID && name !in names {
        names := names[name := resolved];
      }
    }

    method InvalidateName(name: Name)
      modifies this
      ensures Contents() == Invalidated(old(Contents()), Published(name))
    {
      revision := revision + 1;
      names := names - {name};
    }

    /** The erase loop visits every entry once and keeps those of other processes. */
    method InvalidateInstance(name: Name, instance: Id)
      modifies this
      ensures Contents() == Invalidated(old(Contents()), Unpublished(name, instance))
    {
      revision := revision + 1;
      if IsProcess(instance) {
        var unvisited := names.Keys;
        while unvisited != {}
          invariant revision == old(revision) + 1
          invariant unvisited <= names.Keys <= old(names).Keys
          invariant forall m :: m in names ==> names[m] == old(names)[m]
          invariant forall m :: m in old(names) && m !in names ==> ProcessOf(old(names)[m]) == instance
          invariant forall m :: m in names && m !in unvisited ==> ProcessOf(names[m]) != instance
          decreases unvisited
        {
          var entry :| entry in unvisited;
          unvisited := unvisited - {entry};
          if ProcessOf(names[entry]) == instance {
            names := names - {entry};
          }
        }
        assert names == Invalidated(old(Contents()), Unpublished(name, instance)).names;
      } else if name in names && names[name] == instance {
        names := names - {name};
      }
    }

    method Clear()
      modifies this
      ensures Contents() == Cleared(old(Contents()))
    {
      revision := revision + 1;
      names := map[];
    }
  }

  // ---- The system: registry, notice channel, cache, resolving threads ----

  type Tid = nat

  /** Moments are numbers of steps since the start; they are history. */
  datatype How =
    | Hit(began: nat)
    | First(began: nat, readAt: nat, checkedAt: nat)
    | Retried(began: nat, seenAt: nat, readAt: nat)

  datatype Resolve =
    | Idle
    | Missed(name: Name, rev: nat, began: nat)
    | Answered(name: Name, rev: nat, began: nat, value: Id, readAt: nat)
    | Retrying(name: Name, rev: nat, began: nat, seenAt: nat)
    | Resolved(name: Name, value: Id, how: How)

  /**
   `emitting` holds notices decided under the publication-notifications mutex and not yet in the
   ring; `sweeping` is a process whose remaining names are still to be removed. `lost` says the
   ring dropped traffic and the eviction handler has not run yet.
   */
  datatype System = System(
    registry: map<Name, Id>, sweeping: Option<Id>, emitting: seq<Notice>, channel: seq<Notice>, lost: bool,
    cache: Cache, resolves: map<Tid, Resolve>, now: nat)

  datatype Step =
    | Publish(name: Name, iid: Id, delayed: bool)
    | Retire(name: Name, ready: seq<Notice>)
    | Sweep
    | EmitDelayed(ready: seq<Notice>)
    | Emit
    | Deliver
    | Evict(keepsHead: bool, skipped: nat)
    | ReportEviction
    | InvalidateLocally(notice: Notice)
    | Start(t: Tid, name: Name)
    | Ask(t: Tid)
    | Settle(t: Tid)
    | AskAgain(t: Tid)
    | Finish(t: Tid)

  function At(s: System, t: Tid): Resolve { if t in s.resolves then s.resolves[t] else Idle }

  function Go(s: System, t: Tid, r: Resolve): System { s.(resolves := s.resolves[t := r]) }

  function Lookup(registry: map<Name, Id>, name: Name): Id { if name in registry then registry[name] else INVALID }

  function Without(registry: map<Name, Id>, process: Id): map<Name, Id> {
    map name | name in registry && ProcessOf(registry[name]) != process :: registry[name]
  }

  predicate OnlyPublished(ns: seq<Notice>) { forall i :: 0 <= i < |ns| ==> ns[i].Published? }

  ghost predicate Init(s: System) {
    s == System(map[], None, [], [], false, Cache(map[], 0), map[], 0)
  }

  predicate Enabled(s: System, step: Step) {
    match step
    case Publish(name, iid, _) =>
      s.emitting == [] && s.sweeping.None? && name != [] && name !in s.registry && iid.process > 0
    case Retire(name, ready) =>
      s.emitting == [] && s.sweeping.None? && name in s.registry && OnlyPublished(ready)
    case Sweep => s.sweeping.Some?
    case EmitDelayed(ready) => s.emitting == [] && s.sweeping.None? && OnlyPublished(ready)
    case Emit => s.emitting != [] && s.sweeping.None?
    case Deliver => s.channel != []
    case Evict(keepsHead, skipped) => skipped <= |s.channel| && (keepsHead ==> 0 < skipped)
    case ReportEviction => s.lost
    case InvalidateLocally(_) => true
    case Start(t, _) => At(s, t).Idle?
    case Ask(t) => At(s, t).Missed?
    case Settle(t) => At(s, t).Answered?
    case AskAgain(t) => At(s, t).Retrying?
    case Finish(t) => At(s, t).Resolved?
  }

  /** The coordinator's side. */
  function RegistryOp(s: System, step: Step): System {
    match step
    case Publish(name, iid, delayed) =>
      s.(registry := s.registry[name := iid], emitting := if delayed then [] else [Published(name)])
    case Retire(name, ready) =>
      if name !in s.registry then s
      else
        var iid := s.registry[name];
        s.(registry := s.registry - {name}, emitting := [Unpublished(name, iid)] + ready,
           sweeping := if IsProcess(iid) then Some(iid) else None)
    case Sweep =>
      if s.sweeping.None? then s else s.(registry := Without(s.registry, s.sweeping.value), sweeping := None)
    case EmitDelayed(ready) => s.(emitting := ready)
    case Emit => if s.emitting == [] then s else s.(channel := s.channel + [s.emitting[0]], emitting := s.emitting[1..])
    case _ => s
  }

  /** The leaf's reader: a notice is handled, or traffic is lost and later reported. */
  function ReaderOp(s: System, step: Step): System {
    match step
    case Deliver =>
      if s.channel == [] then s else s.(cache := Invalidated(s.cache, s.channel[0]), channel := s.channel[1..])
    case Evict(keepsHead, skipped) =>
      if skipped > |s.channel| || skipped == 0 then s.(lost := true)
      else s.(channel := s.channel[..if keepsHead then 1 else 0] + s.channel[skipped..], lost := true)
    case ReportEviction => s.(cache := Cleared(s.cache), lost := false)
    case InvalidateLocally(n) => s.(cache := Invalidated(s.cache, n))
    case _ => s
  }

  function ResolveOp(s: System, step: Step): System {
    match step
    case Start(t, name) =>
      if name in s.cache.names then Go(s, t, Resolved(name, s.cache.names[name], Hit(s.now)))
      else Go(s, t, Missed(name, s.cache.revision, s.now))
    case Ask(t) =>
      (match At(s, t)
       case Missed(name, rev, began) => Go(s, t, Answered(name, rev, began, Lookup(s.registry, name), s.now))
       case _ => s)
    case Settle(t) =>
      (match At(s, t)
       case Answered(name, rev, began, value, readAt) =>
         if rev == s.cache.revision
         then Go(s, t, Resolved(name, value, First(began, readAt, s.now))).(cache := Filled(s.cache, name, value))
         else Go(s, t, Retrying(name, rev, began, s.now))
       case _ => s)
    case AskAgain(t) =>
      (match At(s, t)
       case Retrying(name, rev, began, seenAt) =>
         Go(s, t, Resolved(name, Lookup(s.registry, name), Retried(began, seenAt, s.now)))
       case _ => s)
    case Finish(t) => Go(s, t, Idle)
    case _ => s
  }

  function Apply(s: System, step: Step): System {
    var s' :=
      match step
      case Publish(_, _, _) | Retire(_, _) | Sweep | EmitDelayed(_) | Emit => RegistryOp(s, step)
      case Deliver | Evict(_, _) | ReportEviction | InvalidateLocally(_) => ReaderOp(s, step)
      case _ => ResolveOp(s, step);
    s'.(now := s.now + 1)
  }

  ghost predicate Next(s: System, s': System) { exists step :: Enabled(s, step) && s' == Apply(s, step) }

  // ---- The invariant ----

  function Undelivered(s: System): seq<Notice> { s.channel + s.emitting }

  ghost predicate Covered(ns: seq<Notice>, name: Name, v: Id) {
    exists i :: 0 <= i < |ns| && Kills(ns[i], name, v)
  }

  /** A snapshot is current, or a notice under way will remove it. */
  ghost predicate Coherent(s: System, name: Name, v: Id) {
    (name in s.registry && s.registry[name] == v) || Covered(Undelivered(s), name, v)
  }

  ghost predicate CacheInv(s: System) {
    forall name :: name in s.cache.names ==> Coherent(s, name, s.cache.names[name])
  }

  /** An answer on its way, if it may still be kept, is as good as a cached snapshot. */
  ghost predicate AnswerInv(s: System, t: Tid) {
    At(s, t).Answered? && At(s, t).rev == s.cache.revision && At(s, t).value != INVALID ==>
      Coherent(s, At(s, t).name, At(s, t).value)
  }

  ghost predicate RevInv(s: System, t: Tid) {
    At(s, t).Missed? || At(s, t).Answered? || At(s, t).Retrying? ==> At(s, t).rev <= s.cache.revision
  }

  ghost predicate SweepInv(s: System) {
    s.sweeping.Some? ==>
      && IsProcess(s.sweeping.value) && s.emitting != []
      && s.emitting[0].Unpublished? && s.emitting[0].iid == s.sweeping.value
  }

  ghost predicate Inv(s: System) {
    && SweepInv(s)
    && (forall t: Tid :: RevInv(s, t))
    && (!s.lost ==> CacheInv(s) && forall t: Tid :: AnswerInv(s, t))
  }

  /** The coordinator's steps never make a coherent snapshot incoherent. */
  lemma RegistryOpKeepsCoherent(s: System, step: Step, name: Name, v: Id)
    requires SweepInv(s) && Enabled(s, step) && Coherent(s, name, v)
    ensures Coherent(RegistryOp(s, step), name, v)
  {
    var s' := RegistryOp(s, step);
    if Covered(Undelivered(s), name, v) {
      var i :| 0 <= i < |Undelivered(s)| && Kills(Undelivered(s)[i], name, v);
      assert step.Emit? ==> Undelivered(s') == Undelivered(s);
      assert Undelivered(s')[i] == Undelivered(s)[i];
    } else if step.Retire? {
      assert Undelivered(s')[|s.channel|] == Unpublished(step.name, s.registry[step.name]);
    } else if step.Sweep? {
      assert Undelivered(s')[|s.channel|] == s.emitting[0];
    }
  }

  lemma RegistryOpKeepsInv(s: System, step: Step)
    requires Inv(s) && Enabled(s, step)
    ensures Inv(RegistryOp(s, step))
  {
    var s' := RegistryOp(s, step);
    assert s'.cache == s.cache && s'.resolves == s.resolves;
    forall t: Tid ensures RevInv(s', t) {
      assert RevInv(s, t);
    }
    if !s.lost {
      forall name | name in s.cache.names ensures Coherent(s', name, s.cache.names[name]) {
        RegistryOpKeepsCoherent(s, step, name, s.cache.names[name]);
      }
      forall t: Tid ensures AnswerInv(s', t) {
        assert AnswerInv(s, t);
        if At(s, t).Answered? && At(s, t).rev == s.cache.revision && At(s, t).value != INVALID {
          RegistryOpKeepsCoherent(s, step, At(s, t).name, At(s, t).value);
        }
      }
    }
  }

  /** A delivered notice takes with it everything only it covered. */
  lemma DeliverKeepsCoherent(s: System, name: Name)
    requires s.channel != [] && name in ReaderOp(s, Deliver).cache.names
    requires Coherent(s, name, s.cache.names[name])
    ensures Coherent(ReaderOp(s, Deliver), name, s.cache.names[name])
  {
    var v := s.cache.names[name];
    if Covered(Undelivered(s), name, v) {
      var i :| 0 <= i < |Undelivered(s)| && Kills(Undelivered(s)[i], name, v);
      assert i > 0;
      assert Undelivered(ReaderOp(s, Deliver))[i - 1] == Undelivered(s)[i];
    }
  }

  lemma ReaderOpKeepsInv(s: System, step: Step)
    requires Inv(s) && Enabled(s, step)
    ensures Inv(ReaderOp(s, step))
  {
    var s' := ReaderOp(s, step);
    assert s'.resolves == s.resolves;
    forall t: Tid ensures RevInv(s', t) && (!s'.lost ==> AnswerInv(s', t)) {
      assert RevInv(s, t) && (!s.lost ==> AnswerInv(s, t));
    }
    if !s'.lost {
      forall name | name in s'.cache.names ensures Coherent(s', name, s'.cache.names[name]) {
        assert Coherent(s, name, s.cache.names[name]);
        if step.Deliver? {
          DeliverKeepsCoherent(s, name);
        }
      }
    }
  }

  lemma ResolveOpKeepsCache(s: System, step: Step)
    requires CacheInv(s) && Enabled(s, step) && (step.Settle? ==> AnswerInv(s, step.t))
    ensures CacheInv(ResolveOp(s, step))
  {
    var s' := ResolveOp(s, step);
    assert Undelivered(s') == Undelivered(s) && s'.registry == s.registry;
    forall name | name in s'.cache.names ensures Coherent(s', name, s'.cache.names[name]) {
      assert Coherent(s, name, s'.cache.names[name]);
    }
  }

  lemma ResolveOpKeepsThread(s: System, step: Step, t: Tid)
    requires Enabled(s, step) && RevInv(s, t)
    ensures RevInv(ResolveOp(s, step), t)
    ensures AnswerInv(s, t) ==> AnswerInv(ResolveOp(s, step), t)
  {
    assert Undelivered(ResolveOp(s, step)) == Undelivered(s);
  }

  lemma ResolveOpKeepsInv(s: System, step: Step)
    requires Inv(s) && Enabled(s, step)
    ensures Inv(ResolveOp(s, step))
  {
    var s' := ResolveOp(s, step);
    assert s'.lost == s.lost && s'.sweeping == s.sweeping && s'.emitting == s.emitting;
    if !s.lost {
      assert step.Settle? ==> AnswerInv(s, step.t);
      ResolveOpKeepsCache(s, step);
    }
    forall t: Tid ensures RevInv(s', t) && (!s.lost ==> AnswerInv(s', t)) {
      assert RevInv(s, t) && (!s.lost ==> AnswerInv(s, t));
      ResolveOpKeepsThread(s, step, t);
    }
  }

  lemma ClockKeepsInv(s: System, now: nat)
    requires Inv(s)
    ensures Inv(s.(now := now))
  {
    var s' := s.(now := now);
    forall t: Tid ensures RevInv(s', t) && (!s.lost ==> AnswerInv(s', t)) {
      assert RevInv(s, t) && (!s.lost ==> AnswerInv(s, t));
    }
  }

  lemma ApplyKeepsInv(s: System, step: Step)
    requires Inv(s) && Enabled(s, step)
    ensures Inv(Apply(s, step))
  {
    match step
    case Publish(_, _, _) | Retire(_, _) | Sweep | EmitDelayed(_) | Emit =>
      RegistryOpKeepsInv(s, step);
      ClockKeepsInv(RegistryOp(s, step), s.now + 1);
    case Deliver | Evict(_, _) | ReportEviction | InvalidateLocally(_) =>
      ReaderOpKeepsInv(s, step);
      ClockKeepsInv(ReaderOp(s, step), s.now + 1);
    case _ =>
      ResolveOpKeepsInv(s, step);
      ClockKeepsInv(ResolveOp(s, step), s.now + 1);
  }

  lemma ReachableInv(run: seq<System>, k: nat)
    requires IsRun(Init, Next, run) && k < |run|
    ensures Inv(run[k])
  {
    forall s, s' | Inv(s) && Next(s, s') ensures Inv(s') {
      var step :| Enabled(s, step) && s' == Apply(s, step);
      ApplyKeepsInv(s, step);
    }
    InvariantHolds(Init, Next, Inv, run, k);
  }

  // ---- What holds in every run ----

  /**
   Name-cache coherence: as long as no unreported loss is outstanding, each cached entry equals the
   registry's or is covered by an undelivered notice, so a drained channel leaves a cache that is a
   subset of the registry.
   */
  lemma CacheCoherence(run: seq<System>, k: nat)
    requires IsRun(Init, Next, run) && k < |run| && !run[k].lost
    ensures forall name :: name in run[k].cache.names ==> Coherent(run[k], name, run[k].cache.names[name])
    ensures Undelivered(run[k]) == [] ==>
              forall name :: name in run[k].cache.names ==>
                name in run[k].registry && run[k].registry[name] == run[k].cache.names[name]
  {
    ReachableInv(run, k);
  }

  /** One step never lowers the revision, and counts itself. */
  lemma StepRaisesRevision(s: System, s': System)
    requires Next(s, s')
    ensures s'.cache.revision >= s.cache.revision && s'.now == s.now + 1
  {
  }

  lemma {:induction false} RevisionGrows(run: seq<System>, j: nat, k: nat)
    requires IsRun(Init, Next, run) && j <= k < |run|
    ensures run[j].cache.revision <= run[k].cache.revision
    ensures run[k].now == k
    decreases k
  {
    if k > 0 {
      RunStep(Init, Next, run, k);
      StepRaisesRevision(run[k - 1], run[k]);
      RevisionGrows(run, if j < k then j else k - 1, k - 1);
    }
  }

  /** What the moments recorded by a resolve mean in the run. */
  ghost predicate Traced(run: seq<System>, k: nat, r: Resolve)
    requires k < |run|
  {
    match r
    case Idle => true
    case Missed(_, rev, began) => began < k && rev == run[began].cache.revision
    case Answered(name, rev, began, value, readAt) =>
      began < readAt < k && rev == run[began].cache.revision && value == Lookup(run[readAt].registry, name)
    case Retrying(_, rev, began, seenAt) => began < seenAt < k && run[seenAt].cache.revision > run[began].cache.revision
    case Resolved(name, value, Hit(began)) =>
      began < k && name in run[began].cache.names && run[began].cache.names[name] == value
    case Resolved(name, value, First(began, readAt, checkedAt)) =>
      && began < readAt < checkedAt < k && value == Lookup(run[readAt].registry, name)
      && run[checkedAt].cache.revision == run[began].cache.revision
    case Resolved(name, value, Retried(began, seenAt, readAt)) =>
      && began < seenAt < readAt < k && value == Lookup(run[readAt].registry, name)
      && run[seenAt].cache.revision > run[began].cache.revision
  }

  lemma ResolveStepIsTraced(run: seq<System>, k: nat, step: Step, t: Tid)
    requires 0 < k < |run| && run[k - 1].now == k - 1 && RevInv(run[k - 1], t)
    requires Traced(run, k - 1, At(run[k - 1], t))
    ensures Traced(run, k, At(ResolveOp(run[k - 1], step), t))
  {
    if At(ResolveOp(run[k - 1], step), t) != At(run[k - 1], t) {
      assert step.t == t;
    }
  }

  lemma OtherStepMovesNoResolve(s: System, step: Step)
    ensures Apply(s, step).resolves == s.resolves || Apply(s, step).resolves == ResolveOp(s, step).resolves
  {
  }

  lemma StepIsTraced(run: seq<System>, k: nat, t: Tid)
    requires 0 < k < |run| && Next(run[k - 1], run[k]) && run[k - 1].now == k - 1 && RevInv(run[k - 1], t)
    requires Traced(run, k - 1, At(run[k - 1], t))
    ensures Traced(run, k, At(run[k], t))
  {
    var step :| Enabled(run[k - 1], step) && run[k] == Apply(run[k - 1], step);
    OtherStepMovesNoResolve(run[k - 1], step);
    if run[k].resolves != run[k - 1].resolves {
      ResolveStepIsTraced(run, k, step, t);
    }
  }

  lemma ReachableRev(run: seq<System>, k: nat, t: Tid)
    requires IsRun(Init, Next, run) && k < |run|
    ensures RevInv(run[k], t) && run[k].now == k
  {
    ReachableInv(run, k);
    RevisionGrows(run, k, k);
  }

  lemma {:induction false} ResolvesAreTraced(run: seq<System>, k: nat, t: Tid)
    requires IsRun(Init, Next, run) && k < |run|
    ensures Traced(run, k, At(run[k], t))
  {
    if k > 0 {
      ResolvesAreTraced(run, k - 1, t);
      ReachableRev(run, k - 1, t);
      RunStep(Init, Next, run, k);
      StepIsTraced(run, k, t);
    }
  }

  /**
   What a finished resolve returned: a snapshot that was coherent when it was found; or the
   registry's value at a moment of the call during which no invalidation came; or, an invalidation
   having been observed, the registry's value at a moment after that observation.
   */
  lemma ResolveIsFresh(run: seq<System>, k: nat, t: Tid)
    requires IsRun(Init, Next, run) && k < |run| && At(run[k], t).Resolved?
    ensures var r := At(run[k], t);
      match r.how
      case Hit(began) => began < k && (!run[began].lost ==> Coherent(run[began], r.name, r.value))
      case First(began, readAt, checkedAt) =>
        && began < readAt < checkedAt < k && r.value == Lookup(run[readAt].registry, r.name)
        && forall i :: began <= i <= checkedAt ==> run[i].cache.revision == run[began].cache.revision
      case Retried(began, seenAt, readAt) =>
        && began < seenAt < readAt < k && r.value == Lookup(run[readAt].registry, r.name)
        && run[seenAt].cache.revision > run[began].cache.revision
  {
    ResolvesAreTraced(run, k, t);
    var r := At(run[k], t);
    match r.how
    case Hit(began) =>
      ReachableInv(run, began);
    case First(began, readAt, checkedAt) =>
      forall i | began <= i <= checkedAt ensures run[i].cache.revision == run[began].cache.revision {
        RevisionGrows(run, began, i);
        RevisionGrows(run, i, checkedAt);
      }
    case Retried(_, _, _) =>
  }

  /**
   A resolve running alone returns the cached snapshot if there is one; otherwise the registry's
   value, which it keeps unless the name is unknown.
   */
  lemma ResolveAlone(s: System, t: Tid, name: Name)
    requires At(s, t) == Idle
    ensures var s1 := ResolveOp(s, Start(t, name));
      if name in s.cache.names
      then At(s1, t).Resolved? && At(s1, t).value == s.cache.names[name] && s1.cache == s.cache
      else
        var f := ResolveOp(ResolveOp(s1, Ask(t)), Settle(t));
        && At(f, t).Resolved? && At(f, t).value == Lookup(s.registry, name)
        && f.cache.revision == s.cache.revision
        && f.cache.names == (if Lookup(s.registry, name) == INVALID then s.cache.names
                             else s.cache.names[name := Lookup(s.registry, name)])
  {
    var s1 := ResolveOp(s, Start(t, name));
    if name !in s.cache.names {
      assert At(s1, t) == Missed(name, s.cache.revision, s.now);
      var s2 := ResolveOp(s1, Ask(t));
      assert At(s2, t) == Answered(name, s.cache.revision, s.now, Lookup(s.registry, name), s.now);
    }
  }
}

/**
 Process incarnations and the oracle that shared locks consult.

 A 64-bit atomic word is kept as its two 32-bit halves. A process instance packs the
 PID above a random token; a lock token packs the PID above a thread id.
 */
module Processes {
  import opened Runs

  datatype Word = Word(hi: nat, lo: nat)
  const ZERO := Word(0, 0)

  /** One process image. A later process may take the same PID, never the same instance. */
  datatype Incarnation = Incarnation(pid: nat, token: nat, stamp: nat)

  datatype Thread = Thread(inc: Incarnation, tid: nat)

  function Instance(i: Incarnation): Word { Word(i.pid, i.token) }

  function Token(t: Thread): Word { Word(t.inc.pid, t.tid) }

  datatype World = World(live: set<Incarnation>, dead: set<Incarnation>)

  function Known(w: World): set<Incarnation> { w.live + w.dead }

  ghost predicate ValidWorld(w: World) {
    && w.live !! w.dead
    && (forall i :: i in Known(w) ==> i.pid > 0)
    && (forall i, j :: i in w.live && j in w.live && i.pid == j.pid ==> i == j)
    && (forall i, j :: i in Known(w) && j in Known(w) && Instance(i) == Instance(j) ==> i == j)
  }

  /** A word that some incarnation, past or present, published as its instance. */
  ghost predicate Published(w: World, word: Word) {
    exists i :: i in Known(w) && Instance(i) == word
  }

  ghost predicate IsLiveInstance(w: World, word: Word) {
    exists i :: i in w.live && Instance(i) == word
  }

  /** The operating system may start a process under any PID no live process has. */
  ghost predicate CanSpawn(w: World, i: Incarnation) {
    && i.pid > 0
    && (forall j :: j in w.live ==> j.pid != i.pid)
    && (forall j :: j in Known(w) ==> Instance(j) != Instance(i))
  }

  function Spawn(w: World, i: Incarnation): World { w.(live := w.live + {i}) }

  function Crash(w: World, i: Incarnation): World { World(w.live - {i}, w.dead + {i}) }

  /** What the operating system answers at one moment. `proves` is false on FreeBSD. */
  datatype Probe = Probe(alive: nat -> bool, stampOf: nat -> Option<nat>, proves: bool)

  /** "Exited" is reported only of an exited PID, and an incarnation always shows one stamp. */
  ghost predicate Sound(w: World, p: Probe) {
    forall i :: i in w.live ==>
      && p.alive(i.pid)
      && (p.stampOf(i.pid).Some? ==> p.stampOf(i.pid).value == i.stamp)
  }

  /** process_instance_has_exited. */
  predicate InstanceHasExited(recorded: Word, self: Word, p: Probe) {
    if recorded.hi == self.hi then recorded != self else !p.alive(recorded.hi)
  }

  /** The verdict is sound for a live observer, even when the recorded PID is the observer's own. */
  lemma ExitedVerdictIsSound(w: World, recorded: Word, self: Incarnation, p: Probe)
    requires ValidWorld(w) && Sound(w, p) && self in w.live
    requires InstanceHasExited(recorded, Instance(self), p)
    ensures !IsLiveInstance(w, recorded)
  {
    if i :| i in w.live && Instance(i) == recorded {
      assert false;
    }
  }

  /** A word published by an exited process stays so: instances are never reused. */
  ghost predicate ExitsKept(a: World, b: World) {
    && (forall word :: Published(a, word) ==> Published(b, word))
    && (forall word :: Published(a, word) && !IsLiveInstance(a, word) ==> !IsLiveInstance(b, word))
  }

  lemma SpawnKeepsExits(a: World, i: Incarnation)
    requires ValidWorld(a) && CanSpawn(a, i)
    ensures ValidWorld(Spawn(a, i)) && ExitsKept(a, Spawn(a, i))
  {
    var b := Spawn(a, i);
    assert i in Known(a) ==> Instance(i) != Instance(i);
    assert Known(b) == Known(a) + {i};
    forall word | Published(a, word) ensures Published(b, word) {
      var j :| j in Known(a) && Instance(j) == word;
      assert j in Known(b);
    }
  }

  lemma CrashKeepsExits(a: World, i: Incarnation)
    requires ValidWorld(a) && i in a.live
    ensures ValidWorld(Crash(a, i)) && ExitsKept(a, Crash(a, i))
  {
    assert Known(Crash(a, i)) == Known(a);
  }

  /** Exit is permanent for an instance, whatever PIDs are reused later. */
  lemma WorldStepKeepsExits(a: World, b: World, i: Incarnation)
    requires ValidWorld(a)
    requires (CanSpawn(a, i) && b == Spawn(a, i)) || (i in a.live && b == Crash(a, i))
    ensures ValidWorld(b) && ExitsKept(a, b)
  {
    if i in a.live { CrashKeepsExits(a, i); } else { SpawnKeepsExits(a, i); }
  }
}

/**
 Request routing through the coordinator: a star of append-only rings. A leaf reads only the
 coordinator's ring; the coordinator reads its own ring and every leaf's, and relays.
 */
module Routing {
  import opened Runs
  import opened Ids

  const NOT_DEFINED_TYPE_ID := 0xFFFF_FFFF_FFFF_FFFF

  datatype Message = Message(sender: Id, receiver: Id, typeId: nat, body: seq<nat>)

  datatype Action = Dispatch | Relay | Drop

  datatype Topology = Topology(coord: nat, leaves: set<nat>)

  predicate Process(top: Topology, p: nat) { p == top.coord || p in top.leaves }

  ghost predicate ValidTopology(top: Topology) {
    top.coord !in top.leaves && forall p :: Process(top, p) ==> IsRealProcess(p)
  }

  /** validate_request_message. */
  predicate Accepted(top: Topology, ringOwner: nat, m: Message) {
    (ringOwner == m.sender.process || ringOwner == top.coord) && m.typeId != NOT_DEFINED_TYPE_ID
  }

  /** What the request reader of process `self` does with a message of the ring of `ringOwner`. */
  function Handle(top: Topology, self: nat, ringOwner: nat, m: Message): Action {
    var own := ringOwner == self;
    var isCoord := self == top.coord;
    if !Accepted(top, ringOwner, m) then Drop
    else if IsLocalInstance(m.receiver, self) then
      if m.receiver == ANY_LOCAL then (if own then Dispatch else Drop)
      else if isCoord && !own && IsService(m.receiver) then Relay
      else Dispatch
    else if AtLeast(m.receiver, ANY_REMOTE) then
      var skipLocalSender := m.receiver == ANY_REMOTE && IsLocal(m.sender, self);
      if isCoord && !own then Relay
      else if skipLocalSender then Drop
      else Dispatch
    else if isCoord && !own then Relay
    else Drop
  }

  // ---- The network ----

  /** `coordAt` and `leafAt` are reader positions; `log` is what each process dispatched, in order. */
  datatype Net = Net(rings: map<nat, seq<Message>>, coordAt: map<nat, nat>, leafAt: map<nat, nat>,
                     log: map<nat, seq<Message>>)

  ghost predicate Shaped(top: Topology, n: Net) {
    top.coord in n.rings && forall p :: Process(top, p) ==>
      && p in n.rings && p in n.coordAt && p in n.leafAt && p in n.log
      && n.coordAt[p] <= |n.rings[p]|
      && n.leafAt[p] <= |n.rings[top.coord]|
  }

  predicate Addressable(id: Id) {
    InRange(id) && (IsRealProcess(id.process) || id == ANY_LOCAL || id == ANY_REMOTE || id == ANY_LOCAL_OR_REMOTE)
  }

  datatype Step = Send(q: nat, m: Message) | CoordRead(q: nat) | LeafRead(p: nat)

  /** A leaf may write anything with an addressable receiver, forged senders included. */
  ghost predicate Enabled(top: Topology, n: Net, step: Step)
    requires Shaped(top, n)
  {
    match step
    case Send(q, m) =>
      Process(top, q) && Addressable(m.receiver) && (q == top.coord ==> m.sender.process == q)
    case CoordRead(q) => Process(top, q) && n.coordAt[q] < |n.rings[q]|
    case LeafRead(p) => p in top.leaves && n.leafAt[p] < |n.rings[top.coord]|
  }

  function Write(n: Net, q: nat, m: Message): Net
    requires q in n.rings
  {
    n.(rings := n.rings[q := n.rings[q] + [m]])
  }

  function Record(n: Net, p: nat, m: Message): Net
    requires p in n.log
  {
    n.(log := n.log[p := n.log[p] + [m]])
  }

  ghost function Apply(top: Topology, n: Net, step: Step): Net
    requires ValidTopology(top) && Shaped(top, n) && Enabled(top, n, step)
  {
    match step
    case Send(q, m) => Write(n, q, m)
    case CoordRead(q) =>
      var m := n.rings[q][n.coordAt[q]];
      var n' := n.(coordAt := n.coordAt[q := n.coordAt[q] + 1]);
      (match Handle(top, top.coord, q, m)
       case Dispatch => Record(n', top.coord, m)
       case Relay => Write(n', top.coord, m)
       case Drop => n')
    case LeafRead(p) =>
      var m := n.rings[top.coord][n.leafAt[p]];
      var n' := n.(leafAt := n.leafAt[p := n.leafAt[p] + 1]);
      if Handle(top, p, top.coord, m) == Dispatch then Record(n', p, m) else n'
  }

  ghost predicate Init(top: Topology, n: Net) {
    && Shaped(top, n)
    && forall p :: Process(top, p) ==>
         n.rings[p] == [] && n.coordAt[p] == 0 && n.leafAt[p] == 0 && n.log[p] == []
  }

  ghost predicate Next(top: Topology, n: Net, n': Net) {
    ValidTopology(top) && Shaped(top, n) && exists step :: Enabled(top, n, step) && n' == Apply(top, n, step)
  }

  /** A network with its fixed topology; runs are runs of these. */
  datatype System = System(top: Topology, net: Net)

  ghost predicate Start(s: System) { ValidTopology(s.top) && Init(s.top, s.net) }

  ghost predicate Moves(s: System, s': System) { s'.top == s.top && Next(s.top, s.net, s'.net) }

  // ---- Subsequences ----

  function Filter(s: seq<Message>, f: Message -> bool): seq<Message> {
    if s == [] then []
    else Filter(s[..|s| - 1], f) + if f(s[|s| - 1]) then [s[|s| - 1]] else []
  }

  lemma FilterAppend(s: seq<Message>, m: Message, f: Message -> bool)
    ensures Filter(s + [m], f) == Filter(s, f) + if f(m) then [m] else []
  {
    assert (s + [m])[..|s|] == s;
  }

  lemma {:induction false} FilterPrefix(s: seq<Message>, n: nat, f: Message -> bool)
    requires n <= |s|
    ensures Filter(s[..n], f) <= Filter(s, f)
  {
    if n < |s| {
      FilterPrefix(s[..|s| - 1], n, f);
      assert s[..|s| - 1][..n] == s[..n];
    } else {
      assert s[..n] == s;
    }
  }

  lemma {:induction false} FilterTwice(s: seq<Message>, f: Message -> bool, g: Message -> bool, fg: Message -> bool)
    requires forall m :: m in s ==> (fg(m) <==> f(m) && g(m))
    ensures Filter(Filter(s, f), g) == Filter(s, fg)
  {
    if s != [] {
      var t, m := s[..|s| - 1], s[|s| - 1];
      FilterTwice(t, f, g, fg);
      assert m in s && forall x :: x in t ==> x in s;
      if f(m) {
        FilterAppend(Filter(t, f), m, g);
      } else {
        assert Filter(t, f) + [] == Filter(t, f);
      }
    }
  }

  lemma {:induction false} FilterSame(s: seq<Message>, f: Message -> bool, g: Message -> bool)
    requires forall m :: m in s ==> (f(m) <==> g(m))
    ensures Filter(s, f) == Filter(s, g)
  {
    if s != [] {
      FilterSame(s[..|s| - 1], f, g);
    }
  }

  // ---- What should be delivered ----

  function From(q: nat): Message -> bool { (m: Message) => m.sender.process == q }

  /** A request the coordinator serves straight from the sender's ring. */
  predicate Direct(top: Topology, m: Message) {
    m.receiver.process == top.coord && !IsService(m.receiver)
  }

  /**
   The documented meaning of a receiver id: which processes a message of process `q` is for.
   any_local events, which `local()` sends, are for the sender's own process.
   */
  predicate Meant(p: nat, q: nat, m: Message) {
    if m.receiver == ANY_LOCAL_OR_REMOTE then true
    else if m.receiver == ANY_REMOTE then p != q
    else if m.receiver == ANY_LOCAL then p == q
    else m.receiver.process == p
  }

  /** A process other than the coordinator's reads no ring of its own. */
  predicate Unrouted(top: Topology, q: nat, m: Message) { m.receiver == ANY_LOCAL && q != top.coord }

  /** What the network delivers: typed messages under their own sender, as meant, if they are routed at all. */
  predicate Wanted(top: Topology, p: nat, q: nat, m: Message) {
    m.sender.process == q && m.typeId != NOT_DEFINED_TYPE_ID && Meant(p, q, m) && !Unrouted(top, q, m)
  }

  function LaneFrom(top: Topology, q: nat, direct: bool): Message -> bool {
    (m: Message) => m.sender.process == q && (q != top.coord && Direct(top, m)) == direct
  }

  function WantedOn(top: Topology, p: nat, q: nat, direct: bool): Message -> bool {
    (m: Message) => Wanted(top, p, q, m) && (q != top.coord && Direct(top, m)) == direct
  }

  function Does(top: Topology, self: nat, ringOwner: nat, a: Action): Message -> bool {
    (m: Message) => Handle(top, self, ringOwner, m) == a
  }

  /** Messages of `q` that process `p` has dispatched on one lane, in dispatch order. */
  function Delivered(top: Topology, n: Net, p: nat, q: nat, direct: bool): seq<Message>
    requires p in n.log
  {
    Filter(n.log[p], LaneFrom(top, q, direct))
  }

  /** Messages `q` has sent on that lane that `p` should dispatch, in sending order. */
  function Expected(top: Topology, n: Net, p: nat, q: nat, direct: bool): seq<Message>
    requires q in n.rings
  {
    Filter(n.rings[q], WantedOn(top, p, q, direct))
  }

  // ---- The invariant ----

  ghost predicate RingsOk(top: Topology, n: Net)
    requires Shaped(top, n)
  {
    && (forall p, m :: Process(top, p) && m in n.rings[p] ==> Addressable(m.receiver))
    && (forall m :: m in n.rings[top.coord] ==>
          && Process(top, m.sender.process)
          && !(m.sender.process != top.coord && Direct(top, m)))
  }

  /** The coordinator's ring holds each leaf's relayed messages once, in that leaf's order. */
  ghost predicate RelayedOnce(top: Topology, n: Net, q: nat)
    requires q in n.rings && top.coord in n.rings && q in n.coordAt && n.coordAt[q] <= |n.rings[q]|
  {
    Filter(n.rings[top.coord], From(q)) == Filter(n.rings[q][..n.coordAt[q]], Does(top, top.coord, q, Relay))
  }

  ghost predicate LeafLogOk(top: Topology, n: Net, p: nat)
    requires p in n.log && p in n.leafAt && top.coord in n.rings && n.leafAt[p] <= |n.rings[top.coord]|
  {
    n.log[p] == Filter(n.rings[top.coord][..n.leafAt[p]], Does(top, p, top.coord, Dispatch))
  }

  function OwnRingLane(top: Topology): Message -> bool {
    (m: Message) => !(m.sender.process != top.coord && Direct(top, m))
  }

  ghost predicate CoordLogOk(top: Topology, n: Net)
    requires Shaped(top, n)
  {
    && Filter(n.log[top.coord], OwnRingLane(top)) ==
       Filter(n.rings[top.coord][..n.coordAt[top.coord]], Does(top, top.coord, top.coord, Dispatch))
    && forall q :: q in top.leaves ==> DirectLaneOk(top, n, q)
  }

  ghost predicate DirectLaneOk(top: Topology, n: Net, q: nat)
    requires top.coord in n.log && q in n.rings && q in n.coordAt && n.coordAt[q] <= |n.rings[q]|
  {
    Filter(n.log[top.coord], LaneFrom(top, q, true)) ==
    Filter(n.rings[q][..n.coordAt[q]], Does(top, top.coord, q, Dispatch))
  }

  ghost predicate Inv(top: Topology, n: Net) {
    && ValidTopology(top) && Shaped(top, n)
    && RingsOk(top, n)
    && (forall q :: q in top.leaves ==> RelayedOnce(top, n, q) && LeafLogOk(top, n, q))
    && CoordLogOk(top, n)
  }

  /** Reading one more message extends the read part of a ring by exactly that message. */
  lemma FilterReadOne(r: seq<Message>, k: nat, f: Message -> bool)
    requires k < |r|
    ensures Filter(r[..k + 1], f) == Filter(r[..k], f) + if f(r[k]) then [r[k]] else []
  {
    assert r[..k + 1] == r[..k] + [r[k]];
    FilterAppend(r[..k], r[k], f);
  }

  lemma WriteKeepsReadParts(n: Net, q: nat, m: Message, p: nat, k: nat)
    requires q in n.rings && p in n.rings && k <= |n.rings[p]|
    ensures Write(n, q, m).rings[p][..k] == n.rings[p][..k]
  {
  }

  lemma SendKeepsInv(top: Topology, n: Net, q: nat, m: Message)
    requires Inv(top, n) && Enabled(top, n, Send(q, m))
    ensures Inv(top, Apply(top, n, Send(q, m)))
  {
    var n' := Apply(top, n, Send(q, m));
    SendKeepsRings(top, n, q, m);
    SendKeepsCoord(top, n, q, m);
    forall p | p in top.leaves ensures RelayedOnce(top, n', p) && LeafLogOk(top, n', p) {
      SendKeepsLeaf(top, n, q, m, p);
    }
  }

  lemma SendKeepsRings(top: Topology, n: Net, q: nat, m: Message)
    requires ValidTopology(top) && Shaped(top, n) && RingsOk(top, n) && Enabled(top, n, Send(q, m))
    ensures Shaped(top, Apply(top, n, Send(q, m))) && RingsOk(top, Apply(top, n, Send(q, m)))
  {
  }

  lemma SendKeepsCoord(top: Topology, n: Net, q: nat, m: Message)
    requires ValidTopology(top) && Shaped(top, n) && CoordLogOk(top, n) && Enabled(top, n, Send(q, m))
    requires Shaped(top, Apply(top, n, Send(q, m)))
    ensures CoordLogOk(top, Apply(top, n, Send(q, m)))
  {
    var n' := Apply(top, n, Send(q, m));
    WriteKeepsReadParts(n, q, m, top.coord, n.coordAt[top.coord]);
    forall p | p in top.leaves ensures DirectLaneOk(top, n', p) {
      assert DirectLaneOk(top, n, p);
      WriteKeepsReadParts(n, q, m, p, n.coordAt[p]);
    }
  }

  lemma SendKeepsLeaf(top: Topology, n: Net, q: nat, m: Message, p: nat)
    requires ValidTopology(top) && Shaped(top, n) && Enabled(top, n, Send(q, m)) && p in top.leaves
    requires Shaped(top, Apply(top, n, Send(q, m))) && RelayedOnce(top, n, p) && LeafLogOk(top, n, p)
    ensures RelayedOnce(top, Apply(top, n, Send(q, m)), p) && LeafLogOk(top, Apply(top, n, Send(q, m)), p)
  {
    WriteKeepsReadParts(n, q, m, p, n.coordAt[p]);
    WriteKeepsReadParts(n, q, m, top.coord, n.leafAt[p]);
    FilterAppend(n.rings[top.coord], m, From(p));
  }

  lemma LeafReadKeepsInv(top: Topology, n: Net, p: nat)
    requires Inv(top, n) && Enabled(top, n, LeafRead(p))
    ensures Inv(top, Apply(top, n, LeafRead(p)))
  {
    var n' := Apply(top, n, LeafRead(p));
    LeafReadKeepsShape(top, n, p);
    LeafReadKeepsCoord(top, n, p);
    forall q | q in top.leaves ensures RelayedOnce(top, n', q) && LeafLogOk(top, n', q) {
      LeafReadKeepsLeaf(top, n, p, q);
    }
  }

  lemma LeafReadKeepsShape(top: Topology, n: Net, p: nat)
    requires ValidTopology(top) && Shaped(top, n) && Enabled(top, n, LeafRead(p))
    ensures Shaped(top, Apply(top, n, LeafRead(p)))
  {
  }

  /** A leaf's read touches nothing of the coordinator's. */
  lemma LeafReadKeepsCoord(top: Topology, n: Net, p: nat)
    requires ValidTopology(top) && Shaped(top, n) && Enabled(top, n, LeafRead(p)) && CoordLogOk(top, n)
    requires Shaped(top, Apply(top, n, LeafRead(p)))
    ensures CoordLogOk(top, Apply(top, n, LeafRead(p)))
  {
    var n' := Apply(top, n, LeafRead(p));
    assert n'.log[top.coord] == n.log[top.coord] && n'.rings == n.rings && n'.coordAt == n.coordAt;
    forall q | q in top.leaves ensures DirectLaneOk(top, n', q) {
      assert DirectLaneOk(top, n, q);
    }
  }

  lemma LeafReadKeepsLeaf(top: Topology, n: Net, p: nat, q: nat)
    requires ValidTopology(top) && Shaped(top, n) && Enabled(top, n, LeafRead(p)) && q in top.leaves
    requires Shaped(top, Apply(top, n, LeafRead(p))) && RelayedOnce(top, n, q) && LeafLogOk(top, n, q)
    ensures RelayedOnce(top, Apply(top, n, LeafRead(p)), q) && LeafLogOk(top, Apply(top, n, LeafRead(p)), q)
  {
    FilterReadOne(n.rings[top.coord], n.leafAt[p], Does(top, p, top.coord, Dispatch));
  }

  /** The coordinator never relays from its own ring, so nothing circulates. */
  lemma OwnReadKeepsLog(top: Topology, n: Net)
    requires ValidTopology(top) && Shaped(top, n) && Enabled(top, n, CoordRead(top.coord)) && CoordLogOk(top, n)
    requires OwnRingLane(top)(n.rings[top.coord][n.coordAt[top.coord]])
    ensures Shaped(top, Apply(top, n, CoordRead(top.coord))) && CoordLogOk(top, Apply(top, n, CoordRead(top.coord)))
    ensures Apply(top, n, CoordRead(top.coord)).rings == n.rings
  {
    var k := n.coordAt[top.coord];
    var m := n.rings[top.coord][k];
    FilterReadOne(n.rings[top.coord], k, Does(top, top.coord, top.coord, Dispatch));
    FilterAppend(n.log[top.coord], m, OwnRingLane(top));
    var n' := Apply(top, n, CoordRead(top.coord));
    forall q | q in top.leaves
      ensures Filter(n'.log[top.coord], LaneFrom(top, q, true)) == Filter(n.log[top.coord], LaneFrom(top, q, true))
    {
      FilterAppend(n.log[top.coord], m, LaneFrom(top, q, true));
    }
  }

  lemma OwnReadKeepsInv(top: Topology, n: Net)
    requires Inv(top, n) && Enabled(top, n, CoordRead(top.coord))
    ensures Inv(top, Apply(top, n, CoordRead(top.coord)))
  {
    var n' := Apply(top, n, CoordRead(top.coord));
    OwnReadKeepsLog(top, n);
    forall q | q in top.leaves ensures RelayedOnce(top, n', q) && LeafLogOk(top, n', q) {
      assert RelayedOnce(top, n, q) && LeafLogOk(top, n, q);
    }
  }

  lemma LeafRingActions(top: Topology, q: nat, m: Message)
    requires ValidTopology(top) && q in top.leaves && Addressable(m.receiver)
    ensures Handle(top, top.coord, q, m) == Dispatch ==> m.sender.process == q && Direct(top, m)
    ensures Handle(top, top.coord, q, m) == Relay ==> m.sender.process == q && !Direct(top, m)
  {
  }

  lemma PeerReadKeepsDirectLane(top: Topology, n: Net, q: nat, p: nat)
    requires ValidTopology(top) && Shaped(top, n) && Enabled(top, n, CoordRead(q))
    requires q in top.leaves && p in top.leaves && Addressable(n.rings[q][n.coordAt[q]].receiver)
    requires Shaped(top, Apply(top, n, CoordRead(q))) && DirectLaneOk(top, n, p)
    ensures DirectLaneOk(top, Apply(top, n, CoordRead(q)), p)
  {
    var m := n.rings[q][n.coordAt[q]];
    LeafRingActions(top, q, m);
    FilterReadOne(n.rings[q], n.coordAt[q], Does(top, top.coord, q, Dispatch));
    FilterAppend(n.log[top.coord], m, LaneFrom(top, p, true));
  }

  lemma PeerReadKeepsShape(top: Topology, n: Net, q: nat)
    requires ValidTopology(top) && Shaped(top, n) && Enabled(top, n, CoordRead(q)) && q in top.leaves
    ensures Shaped(top, Apply(top, n, CoordRead(q)))
  {
  }

  lemma PeerReadKeepsLog(top: Topology, n: Net, q: nat)
    requires ValidTopology(top) && Shaped(top, n) && Enabled(top, n, CoordRead(q)) && CoordLogOk(top, n)
    requires q in top.leaves && Addressable(n.rings[q][n.coordAt[q]].receiver)
    ensures Shaped(top, Apply(top, n, CoordRead(q))) && CoordLogOk(top, Apply(top, n, CoordRead(q)))
  {
    PeerReadKeepsShape(top, n, q);
    var m := n.rings[q][n.coordAt[q]];
    LeafRingActions(top, q, m);
    FilterAppend(n.log[top.coord], m, OwnRingLane(top));
    WriteKeepsReadParts(n, top.coord, m, top.coord, n.coordAt[top.coord]);
    forall p | p in top.leaves ensures DirectLaneOk(top, Apply(top, n, CoordRead(q)), p) {
      PeerReadKeepsDirectLane(top, n, q, p);
    }
  }

  lemma PeerReadKeepsRings(top: Topology, n: Net, q: nat, p: nat)
    requires ValidTopology(top) && Shaped(top, n) && Enabled(top, n, CoordRead(q))
    requires q in top.leaves && p in top.leaves && Addressable(n.rings[q][n.coordAt[q]].receiver)
    requires Shaped(top, Apply(top, n, CoordRead(q)))
    requires RelayedOnce(top, n, p) && LeafLogOk(top, n, p)
    ensures RelayedOnce(top, Apply(top, n, CoordRead(q)), p) && LeafLogOk(top, Apply(top, n, CoordRead(q)), p)
  {
    var m := n.rings[q][n.coordAt[q]];
    LeafRingActions(top, q, m);
    FilterReadOne(n.rings[q], n.coordAt[q], Does(top, top.coord, q, Relay));
    WriteKeepsReadParts(n, top.coord, m, top.coord, n.leafAt[p]);
    FilterAppend(n.rings[top.coord], m, From(p));
  }

  lemma PeerReadKeepsInv(top: Topology, n: Net, q: nat)
    requires Inv(top, n) && Enabled(top, n, CoordRead(q)) && q in top.leaves
    ensures Inv(top, Apply(top, n, CoordRead(q)))
  {
    var m := n.rings[q][n.coordAt[q]];
    var n' := Apply(top, n, CoordRead(q));
    LeafRingActions(top, q, m);
    PeerReadKeepsLog(top, n, q);
    assert RingsOk(top, n');
    forall p | p in top.leaves ensures RelayedOnce(top, n', p) && LeafLogOk(top, n', p) {
      PeerReadKeepsRings(top, n, q, p);
    }
  }

  lemma StepKeepsInv(s: System, s': System)
    requires Inv(s.top, s.net) && Moves(s, s')
    ensures Inv(s'.top, s'.net)
  {
    var step :| Enabled(s.top, s.net, step) && s'.net == Apply(s.top, s.net, step);
    match step
    case Send(q, m) => SendKeepsInv(s.top, s.net, q, m);
    case LeafRead(p) => LeafReadKeepsInv(s.top, s.net, p);
    case CoordRead(q) =>
      if q == s.top.coord { OwnReadKeepsInv(s.top, s.net); } else { PeerReadKeepsInv(s.top, s.net, q); }
  }

  ghost predicate Good(s: System) { Inv(s.top, s.net) }

  lemma ReachableInv(run: seq<System>, k: nat)
    requires IsRun(Start, Moves, run) && k < |run|
    ensures Inv(run[k].top, run[k].net)
  {
    forall s, s' | Good(s) && Moves(s, s') ensures Good(s') {
      StepKeepsInv(s, s');
    }
    InvariantHolds(Start, Moves, Good, run, k);
    assert Good(run[k]);
  }

  // ---- Exactly once, in order ----

  /** Relay by the coordinator and dispatch by a reader of its ring together realise the receiver's meaning. */
  lemma RelayedThenDispatched(top: Topology, p: nat, q: nat, m: Message)
    requires ValidTopology(top) && Process(top, p) && q in top.leaves && Addressable(m.receiver)
    ensures Handle(top, top.coord, q, m) == Relay && Handle(top, p, top.coord, m) == Dispatch <==>
            Wanted(top, p, q, m) && !Direct(top, m)
    ensures Handle(top, top.coord, q, m) == Dispatch <==> Wanted(top, top.coord, q, m) && Direct(top, m)
    ensures Wanted(top, p, q, m) && Direct(top, m) ==> p == top.coord
  {
    assert Process(top, q) && Process(top, top.coord);
  }

  lemma CoordSendsAreDispatched(top: Topology, p: nat, m: Message)
    requires ValidTopology(top) && Process(top, p) && Addressable(m.receiver)
    ensures Handle(top, p, top.coord, m) == Dispatch && m.sender.process == top.coord <==>
            Wanted(top, p, top.coord, m)
  {
    assert Process(top, top.coord);
  }

  /** How far process `p` has read the coordinator's ring. */
  function ReadOfCoordRing(top: Topology, n: Net, p: nat): nat
    requires p in n.leafAt && top.coord in n.coordAt
  {
    if p == top.coord then n.coordAt[top.coord] else n.leafAt[p]
  }

  lemma LogOfCoordRing(top: Topology, n: Net, p: nat, q: nat)
    requires Inv(top, n) && Process(top, p)
    ensures Delivered(top, n, p, q, false) ==
            Filter(Filter(n.rings[top.coord][..ReadOfCoordRing(top, n, p)], Does(top, p, top.coord, Dispatch)),
                   LaneFrom(top, q, false))
  {
    if p == top.coord {
      FilterTwice(n.log[p], OwnRingLane(top), LaneFrom(top, q, false), LaneFrom(top, q, false));
    }
  }

  lemma RelayedDelivery(top: Topology, n: Net, p: nat, q: nat)
    requires Inv(top, n) && Process(top, p) && q in top.leaves
    ensures Delivered(top, n, p, q, false) <= Expected(top, n, p, q, false)
    ensures ReadOfCoordRing(top, n, p) == |n.rings[top.coord]| && n.coordAt[q] == |n.rings[q]| ==>
              Delivered(top, n, p, q, false) == Expected(top, n, p, q, false)
  {
    var ring, at := n.rings[top.coord], ReadOfCoordRing(top, n, p);
    var d, r := Does(top, p, top.coord, Dispatch), Does(top, top.coord, q, Relay);
    var lane, want := LaneFrom(top, q, false), WantedOn(top, p, q, false);
    var both := (m: Message) => d(m) && lane(m);
    forall m | m in n.rings[q] ensures want(m) <==> r(m) && both(m) {
      RelayedThenDispatched(top, p, q, m);
    }
    LogOfCoordRing(top, n, p, q);
    FilterTwice(ring[..at], d, lane, both);
    FilterPrefix(ring, at, both);
    assert ring[..|ring|] == ring;
    FilterTwice(ring, From(q), both, both);
    FilterTwice(n.rings[q][..n.coordAt[q]], r, both, want);
    FilterPrefix(n.rings[q], n.coordAt[q], want);
    assert n.rings[q][..|n.rings[q]|] == n.rings[q];
  }

  lemma CoordSendDelivery(top: Topology, n: Net, p: nat)
    requires Inv(top, n) && Process(top, p)
    ensures Delivered(top, n, p, top.coord, false) <= Expected(top, n, p, top.coord, false)
    ensures ReadOfCoordRing(top, n, p) == |n.rings[top.coord]| ==>
              Delivered(top, n, p, top.coord, false) == Expected(top, n, p, top.coord, false)
  {
    var ring, at := n.rings[top.coord], ReadOfCoordRing(top, n, p);
    var d := Does(top, p, top.coord, Dispatch);
    var lane, want := LaneFrom(top, top.coord, false), WantedOn(top, p, top.coord, false);
    forall m | m in ring ensures want(m) <==> d(m) && lane(m) {
      CoordSendsAreDispatched(top, p, m);
    }
    LogOfCoordRing(top, n, p, top.coord);
    FilterTwice(ring[..at], d, lane, want);
    FilterPrefix(ring, at, want);
    assert ring[..|ring|] == ring;
  }

  lemma {:induction false} FilterNone(s: seq<Message>, f: Message -> bool)
    requires forall m :: m in s ==> !f(m)
    ensures Filter(s, f) == []
  {
    if s != [] {
      FilterNone(s[..|s| - 1], f);
    }
  }

  lemma {:induction false} FilterMembers(s: seq<Message>, f: Message -> bool)
    ensures forall m :: m in Filter(s, f) ==> m in s && f(m)
  {
    if s != [] {
      FilterMembers(s[..|s| - 1], f);
    }
  }

  lemma DirectDelivery(top: Topology, n: Net, p: nat, q: nat)
    requires Inv(top, n) && Process(top, p) && Process(top, q)
    ensures Delivered(top, n, p, q, true) <= Expected(top, n, p, q, true)
    ensures n.coordAt[q] == |n.rings[q]| ==> Delivered(top, n, p, q, true) == Expected(top, n, p, q, true)
  {
    var lane, want := LaneFrom(top, q, true), WantedOn(top, p, q, true);
    if p == top.coord && q != top.coord {
      forall m | m in n.rings[q] ensures want(m) <==> Does(top, top.coord, q, Dispatch)(m) {
        RelayedThenDispatched(top, p, q, m);
      }
      FilterSame(n.rings[q][..n.coordAt[q]], want, Does(top, top.coord, q, Dispatch));
      FilterPrefix(n.rings[q], n.coordAt[q], want);
      assert n.rings[q][..|n.rings[q]|] == n.rings[q];
    } else {
      if p in top.leaves {
        FilterMembers(n.rings[top.coord][..n.leafAt[p]], Does(top, p, top.coord, Dispatch));
      }
      forall m | m in n.rings[q] ensures !want(m) {
        if q in top.leaves {
          RelayedThenDispatched(top, p, q, m);
        }
      }
      FilterNone(n.log[p], lane);
      FilterNone(n.rings[q], want);
    }
  }

  /** Process `p` has read all of the coordinator's ring, and the coordinator all of `q`'s. */
  predicate CaughtUp(top: Topology, n: Net, p: nat, q: nat)
    requires p in n.leafAt && top.coord in n.coordAt && top.coord in n.rings && q in n.coordAt && q in n.rings
  {
    ReadOfCoordRing(top, n, p) == |n.rings[top.coord]| && n.coordAt[q] == |n.rings[q]|
  }

  lemma DeliveryInOrder(top: Topology, n: Net, p: nat, q: nat, direct: bool)
    requires Inv(top, n) && Process(top, p) && Process(top, q)
    ensures Delivered(top, n, p, q, direct) <= Expected(top, n, p, q, direct)
    ensures CaughtUp(top, n, p, q) ==> Delivered(top, n, p, q, direct) == Expected(top, n, p, q, direct)
  {
    if direct {
      DirectDelivery(top, n, p, q);
    } else if q == top.coord {
      CoordSendDelivery(top, n, p);
    } else {
      RelayedDelivery(top, n, p, q);
    }
  }

  /**
   Exactly once and in order. In every run, what process `p` has dispatched of process `q`'s
   messages on a lane is a prefix of what `q` has sent there for `p`, in sending order; once the
   readers have caught up the two are equal. Every event travels on the relayed lane, so any two
   events of one sender are dispatched in sending order everywhere; the direct lane holds the
   requests a leaf sends to ordinary instances of the coordinator's process.
   */
  lemma ExactlyOnceInOrder(run: seq<System>, k: nat, p: nat, q: nat, direct: bool)
    requires IsRun(Start, Moves, run) && k < |run| && Process(run[k].top, p) && Process(run[k].top, q)
    ensures var (top, n) := (run[k].top, run[k].net);
      && Shaped(top, n)
      && Delivered(top, n, p, q, direct) <= Expected(top, n, p, q, direct)
      && (CaughtUp(top, n, p, q) ==> Delivered(top, n, p, q, direct) == Expected(top, n, p, q, direct))
  {
    ReachableInv(run, k);
    DeliveryInOrder(run[k].top, run[k].net, p, q, direct);
  }

  lemma RelayedFromOwner(top: Topology, n: Net, q: nat)
    requires Inv(top, n) && q in top.leaves
    ensures Filter(n.rings[top.coord], From(q)) <= Filter(n.rings[q], Does(top, top.coord, q, Relay))
    ensures forall m :: m in n.rings[top.coord] && m.sender.process == q ==> m in n.rings[q]
  {
    var r := Does(top, top.coord, q, Relay);
    FilterPrefix(n.rings[q], n.coordAt[q], r);
    forall m | m in n.rings[top.coord] && m.sender.process == q ensures m in n.rings[q] {
      InFilter(n.rings[top.coord], From(q), m);
      FilterMembers(n.rings[q][..n.coordAt[q]], r);
    }
  }

  /**
   The two lanes of a leaf at the coordinator, at any moment: with `sent` the part of the leaf's ring
   the coordinator has read, every direct message wanted in `sent` has been dispatched, and the relayed
   ones dispatched are a prefix of those wanted in `sent`.
   */
  ghost predicate LanesInStep(top: Topology, n: Net, q: nat)
    requires top.coord in n.log && q in n.rings && q in n.coordAt && n.coordAt[q] <= |n.rings[q]|
  {
    var sent := n.rings[q][..n.coordAt[q]];
    && Delivered(top, n, top.coord, q, true) == Filter(sent, WantedOn(top, top.coord, q, true))
    && Delivered(top, n, top.coord, q, false) <= Filter(sent, WantedOn(top, top.coord, q, false))
  }

  lemma DirectLaneInStep(top: Topology, n: Net, q: nat)
    requires Inv(top, n) && q in top.leaves
    ensures Delivered(top, n, top.coord, q, true) ==
            Filter(n.rings[q][..n.coordAt[q]], WantedOn(top, top.coord, q, true))
  {
    var want, d := WantedOn(top, top.coord, q, true), Does(top, top.coord, q, Dispatch);
    forall m | m in n.rings[q] ensures want(m) <==> d(m) {
      RelayedThenDispatched(top, top.coord, q, m);
    }
    FilterSame(n.rings[q][..n.coordAt[q]], want, d);
  }

  lemma RelayedLaneInStep(top: Topology, n: Net, q: nat)
    requires Inv(top, n) && q in top.leaves
    ensures Delivered(top, n, top.coord, q, false) <=
            Filter(n.rings[q][..n.coordAt[q]], WantedOn(top, top.coord, q, false))
  {
    var ring, at := n.rings[top.coord], n.coordAt[top.coord];
    var d, r := Does(top, top.coord, top.coord, Dispatch), Does(top, top.coord, q, Relay);
    var lane, want := LaneFrom(top, q, false), WantedOn(top, top.coord, q, false);
    var both := (m: Message) => d(m) && lane(m);
    forall m | m in n.rings[q] ensures want(m) <==> r(m) && both(m) {
      RelayedThenDispatched(top, top.coord, q, m);
    }
    LogOfCoordRing(top, n, top.coord, q);
    FilterTwice(ring[..at], d, lane, both);
    FilterPrefix(ring, at, both);
    FilterTwice(ring, From(q), both, both);
    FilterTwice(n.rings[q][..n.coordAt[q]], r, both, want);
  }

  /**
   Order across lanes: in every run a direct request of a leaf is never overtaken, at the coordinator,
   by anything the leaf sent after it. When a relayed message has been dispatched there, all direct
   ones sent before it have been. The converse order is not kept, as the next lemma shows.
   */
  lemma DirectIsNeverOvertaken(run: seq<System>, k: nat, q: nat)
    requires IsRun(Start, Moves, run) && k < |run| && q in run[k].top.leaves
    ensures Shaped(run[k].top, run[k].net) && Process(run[k].top, q)
    ensures LanesInStep(run[k].top, run[k].net, q)
  {
    ReachableInv(run, k);
    DirectLaneInStep(run[k].top, run[k].net, q);
    RelayedLaneInStep(run[k].top, run[k].net, q);
  }

  /** No message is relayed twice, and a message whose sender is not its ring's owner is never relayed. */
  lemma RelayedAtMostOnce(run: seq<System>, k: nat, q: nat)
    requires IsRun(Start, Moves, run) && k < |run| && q in run[k].top.leaves
    ensures var (top, n) := (run[k].top, run[k].net);
      && Shaped(top, n) && Process(top, q)
      && Filter(n.rings[top.coord], From(q)) <= Filter(n.rings[q], Does(top, top.coord, q, Relay))
      && forall m :: m in n.rings[top.coord] && m.sender.process == q ==> m in n.rings[q]
  {
    ReachableInv(run, k);
    RelayedFromOwner(run[k].top, run[k].net, q);
  }

  lemma {:induction false} InFilter(s: seq<Message>, f: Message -> bool, m: Message)
    requires m in s && f(m)
    ensures m in Filter(s, f)
  {
    if m != s[|s| - 1] {
      InFilter(s[..|s| - 1], f, m);
    }
  }

  // ---- The documented meaning, and where it fails ----

  lemma InPrefix(a: seq<Message>, b: seq<Message>, m: Message)
    requires a <= b && m in a
    ensures m in b
  {
    var i :| 0 <= i < |a| && a[i] == m;
    assert b[i] == m;
  }

  lemma FilterMember(s: seq<Message>, f: Message -> bool, m: Message)
    requires m in Filter(s, f)
    ensures m in s && f(m)
  {
    FilterMembers(s, f);
  }

  /** What has been dispatched was sent, and was wanted. */
  lemma DispatchedWasWanted(top: Topology, n: Net, p: nat, q: nat, m: Message)
    requires Inv(top, n) && Process(top, p) && Process(top, q) && m in n.log[p] && m.sender.process == q
    ensures m in n.rings[q] && Wanted(top, p, q, m)
  {
    var direct := q != top.coord && Direct(top, m);
    DeliveryInOrder(top, n, p, q, direct);
    InFilter(n.log[p], LaneFrom(top, q, direct), m);
    InPrefix(Delivered(top, n, p, q, direct), Expected(top, n, p, q, direct), m);
    FilterMember(n.rings[q], WantedOn(top, p, q, direct), m);
  }

  /** What was sent and is wanted has been dispatched, once the readers have caught up. */
  lemma WantedIsDispatched(top: Topology, n: Net, p: nat, q: nat, m: Message)
    requires Inv(top, n) && Process(top, p) && Process(top, q) && CaughtUp(top, n, p, q)
    requires m in n.rings[q] && Wanted(top, p, q, m)
    ensures m in n.log[p]
  {
    var direct := q != top.coord && Direct(top, m);
    DeliveryInOrder(top, n, p, q, direct);
    InFilter(n.rings[q], WantedOn(top, p, q, direct), m);
    FilterMember(n.log[p], LaneFrom(top, q, direct), m);
  }

  lemma DispatchedAsWanted(top: Topology, n: Net, p: nat, q: nat, m: Message)
    requires Inv(top, n) && Process(top, p) && Process(top, q) && CaughtUp(top, n, p, q)
    requires m in n.rings[q] && m.sender.process == q
    ensures m in n.log[p] <==> Wanted(top, p, q, m)
  {
    if m in n.log[p] {
      DispatchedWasWanted(top, n, p, q, m);
    }
    if Wanted(top, p, q, m) {
      WantedIsDispatched(top, n, p, q, m);
    }
  }

  /** Every reader has caught up. */
  ghost predicate Quiet(top: Topology, n: Net) {
    Shaped(top, n) && forall p, q :: Process(top, p) && Process(top, q) ==> CaughtUp(top, n, p, q)
  }

  /** The message is dispatched by exactly the processes it is meant for. */
  ghost predicate Honoured(top: Topology, n: Net, q: nat, m: Message)
    requires Shaped(top, n)
  {
    forall p :: Process(top, p) ==> (m in n.log[p] <==> Meant(p, q, m))
  }

  lemma HonouredExactly(top: Topology, n: Net, q: nat, m: Message)
    requires Inv(top, n) && Process(top, q) && Quiet(top, n)
    requires m in n.rings[q] && m.sender.process == q && m.typeId != NOT_DEFINED_TYPE_ID
    ensures Honoured(top, n, q, m) <==> !Unrouted(top, q, m)
  {
    forall p | Process(top, p) ensures m in n.log[p] <==> Meant(p, q, m) && !Unrouted(top, q, m) {
      assert CaughtUp(top, n, p, q);
      DispatchedAsWanted(top, n, p, q, m);
    }
    if Unrouted(top, q, m) {
      assert Meant(q, q, m) && m !in n.log[q];
    }
  }

  /**
   The documented meaning is honoured if and only if the message is not an any_local event of a
   process other than the coordinator's: in every run, once the readers have caught up, any other
   typed message is dispatched by exactly the processes it is meant for.
   */
  lemma MeaningIsHonouredExactly(run: seq<System>, k: nat, q: nat, m: Message)
    requires IsRun(Start, Moves, run) && k < |run| && Process(run[k].top, q)
    requires Quiet(run[k].top, run[k].net)
    requires m in run[k].net.rings[q] && m.sender.process == q && m.typeId != NOT_DEFINED_TYPE_ID
    ensures Honoured(run[k].top, run[k].net, q, m) <==> m.receiver != ANY_LOCAL || q == run[k].top.coord
  {
    ReachableInv(run, k);
    HonouredExactly(run[k].top, run[k].net, q, m);
  }

  /**
   `local()` is documented to deliver in the current process. At every moment of every run an
   any_local event has been dispatched by nobody but the coordinator's process, and only if that
   process sent it; and it has been dispatched there as soon as the coordinator has read it.
   */
  lemma LocalEventsNeedTheCoordinator(run: seq<System>, k: nat, p: nat, q: nat, m: Message)
    requires IsRun(Start, Moves, run) && k < |run| && Process(run[k].top, p) && Process(run[k].top, q)
    requires m.receiver == ANY_LOCAL && m.sender.process == q
    ensures var (top, n) := (run[k].top, run[k].net);
      && Shaped(top, n)
      && (m in n.log[p] ==> p == q == top.coord)
      && (m in n.rings[q] && m.typeId != NOT_DEFINED_TYPE_ID && CaughtUp(top, n, q, q) ==>
            (m in n.log[q] <==> q == top.coord))
  {
    ReachableInv(run, k);
    var top, n := run[k].top, run[k].net;
    if m in n.log[p] {
      DispatchedWasWanted(top, n, p, q, m);
    }
    if m in n.rings[q] && CaughtUp(top, n, q, q) {
      DispatchedAsWanted(top, n, q, q, m);
    }
  }

  const PAIR := Topology(2, {3})

  const LOST_EVENT := Message(Id(3, 5), ANY_LOCAL, 1, [])

  function PairNet(ring: seq<Message>, read: nat): Net {
    Net(map[2 := [], 3 := ring], map[2 := 0, 3 := read], map[2 := 0, 3 := 0], map[2 := [], 3 := []])
  }

  ghost function LostEventRun(): seq<System> {
    [ System(PAIR, PairNet([], 0)), System(PAIR, PairNet([LOST_EVENT], 0)), System(PAIR, PairNet([LOST_EVENT], 1)) ]
  }

  lemma LostEventIsSent()
    ensures Next(PAIR, PairNet([], 0), PairNet([LOST_EVENT], 0))
  {
    var n, n' := PairNet([], 0), PairNet([LOST_EVENT], 0);
    assert [] + [LOST_EVENT] == [LOST_EVENT];
    assert n'.rings == n.rings[3 := [LOST_EVENT]];
    assert Enabled(PAIR, n, Send(3, LOST_EVENT)) && n' == Apply(PAIR, n, Send(3, LOST_EVENT));
  }

  lemma LostEventIsRead()
    ensures Next(PAIR, PairNet([LOST_EVENT], 0), PairNet([LOST_EVENT], 1))
  {
    var n, n' := PairNet([LOST_EVENT], 0), PairNet([LOST_EVENT], 1);
    assert Handle(PAIR, 2, 3, LOST_EVENT) == Drop;
    assert n'.coordAt == n.coordAt[3 := 1];
    assert Enabled(PAIR, n, CoordRead(3)) && n' == Apply(PAIR, n, CoordRead(3));
  }

  lemma LostEventRunStarts()
    ensures Start(System(PAIR, PairNet([], 0))) && Quiet(PAIR, PairNet([LOST_EVENT], 1))
  {
  }

  /** A run in which a leaf sends an any_local event, everything has been read, and nobody dispatched it. */
  lemma LeafLocalEventIsLost()
    ensures IsRun(Start, Moves, LostEventRun())
    ensures var n := LostEventRun()[2].net;
      && Quiet(PAIR, n) && LOST_EVENT in n.rings[3] && Meant(3, 3, LOST_EVENT)
      && n.log[3] == [] && n.log[2] == []
  {
    LostEventIsSent();
    LostEventIsRead();
    LostEventRunStarts();
    var run := LostEventRun();
    forall k | 0 < k < |run| ensures MovesTo(Moves, run, k) {
      assert k == 1 || k == 2;
    }
  }

  const EVENT := Message(Id(3, 5), ANY_LOCAL_OR_REMOTE, 1, [])

  const REQUEST := Message(Id(3, 5), Id(2, 0x10000), 1, [])

  function OvertakenNet(sent: seq<Message>, read: nat, relayed: seq<Message>, own: nat, log: seq<Message>): Net {
    Net(map[2 := relayed, 3 := sent], map[2 := own, 3 := read], map[2 := 0, 3 := 0], map[2 := log, 3 := []])
  }

  ghost function OvertakingRun(): seq<System> {
    var both := [EVENT, REQUEST];
    [ System(PAIR, OvertakenNet([], 0, [], 0, [])),
      System(PAIR, OvertakenNet([EVENT], 0, [], 0, [])),
      System(PAIR, OvertakenNet(both, 0, [], 0, [])),
      System(PAIR, OvertakenNet(both, 1, [EVENT], 0, [])),
      System(PAIR, OvertakenNet(both, 2, [EVENT], 0, [REQUEST])),
      System(PAIR, OvertakenNet(both, 2, [EVENT], 1, [REQUEST, EVENT])) ]
  }

  lemma PairActions()
    ensures Handle(PAIR, 2, 2, EVENT) == Dispatch
    ensures Handle(PAIR, 2, 3, EVENT) == Relay
    ensures Handle(PAIR, 2, 3, REQUEST) == Dispatch
  {
  }

  lemma OvertakingStarts()
    ensures Start(System(PAIR, OvertakenNet([], 0, [], 0, [])))
  {
  }

  lemma EventIsSent()
    ensures Next(PAIR, OvertakenNet([], 0, [], 0, []), OvertakenNet([EVENT], 0, [], 0, []))
  {
    var n, n' := OvertakenNet([], 0, [], 0, []), OvertakenNet([EVENT], 0, [], 0, []);
    assert [] + [EVENT] == [EVENT];
    assert n'.rings == n.rings[3 := [EVENT]];
    assert Enabled(PAIR, n, Send(3, EVENT)) && n' == Apply(PAIR, n, Send(3, EVENT));
  }

  lemma RequestIsSent()
    ensures Next(PAIR, OvertakenNet([EVENT], 0, [], 0, []), OvertakenNet([EVENT, REQUEST], 0, [], 0, []))
  {
    var n, n' := OvertakenNet([EVENT], 0, [], 0, []), OvertakenNet([EVENT, REQUEST], 0, [], 0, []);
    assert [EVENT] + [REQUEST] == [EVENT, REQUEST];
    assert n'.rings == n.rings[3 := [EVENT, REQUEST]];
    assert Enabled(PAIR, n, Send(3, REQUEST)) && n' == Apply(PAIR, n, Send(3, REQUEST));
  }

  lemma EventIsRelayed(both: seq<Message>)
    requires both == [EVENT, REQUEST]
    ensures Next(PAIR, OvertakenNet(both, 0, [], 0, []), OvertakenNet(both, 1, [EVENT], 0, []))
  {
    var n, n' := OvertakenNet(both, 0, [], 0, []), OvertakenNet(both, 1, [EVENT], 0, []);
    PairActions();
    assert [] + [EVENT] == [EVENT];
    assert n'.rings == n.rings[2 := [EVENT]] && n'.coordAt == n.coordAt[3 := 1];
    assert Enabled(PAIR, n, CoordRead(3)) && n' == Apply(PAIR, n, CoordRead(3));
  }

  /** The coordinator reads a message of `q` that it dispatches. */
  lemma CoordDispatches(n: Net, n': Net, q: nat, m: Message)
    requires Shaped(PAIR, n) && (q == 2 || q == 3) && n.coordAt[q] < |n.rings[q]| && n.rings[q][n.coordAt[q]] == m
    requires Handle(PAIR, 2, q, m) == Dispatch
    requires n' == n.(coordAt := n.coordAt[q := n.coordAt[q] + 1], log := n.log[2 := n.log[2] + [m]])
    ensures Next(PAIR, n, n')
  {
    assert ValidTopology(PAIR);
    assert Enabled(PAIR, n, CoordRead(q)) && n' == Apply(PAIR, n, CoordRead(q));
  }

  lemma OvertakenShaped(sent: seq<Message>, read: nat, relayed: seq<Message>, own: nat, log: seq<Message>)
    requires read <= |sent| && own <= |relayed|
    ensures Shaped(PAIR, OvertakenNet(sent, read, relayed, own, log))
  {
  }

  lemma RequestIsDispatched(both: seq<Message>)
    requires both == [EVENT, REQUEST]
    ensures Next(PAIR, OvertakenNet(both, 1, [EVENT], 0, []), OvertakenNet(both, 2, [EVENT], 0, [REQUEST]))
  {
    var n, n' := OvertakenNet(both, 1, [EVENT], 0, []), OvertakenNet(both, 2, [EVENT], 0, [REQUEST]);
    PairActions();
    OvertakenShaped(both, 1, [EVENT], 0, []);
    assert [] + [REQUEST] == [REQUEST];
    assert n'.log == n.log[2 := [REQUEST]] && n'.coordAt == n.coordAt[3 := 2];
    CoordDispatches(n, n', 3, REQUEST);
  }

  lemma EventIsDispatched(both: seq<Message>)
    requires both == [EVENT, REQUEST]
    ensures Next(PAIR, OvertakenNet(both, 2, [EVENT], 0, [REQUEST]),
                 OvertakenNet(both, 2, [EVENT], 1, [REQUEST, EVENT]))
  {
    var n, n' := OvertakenNet(both, 2, [EVENT], 0, [REQUEST]), OvertakenNet(both, 2, [EVENT], 1, [REQUEST, EVENT]);
    PairActions();
    OvertakenShaped(both, 2, [EVENT], 0, [REQUEST]);
    assert [REQUEST] + [EVENT] == [REQUEST, EVENT];
    assert n'.log == n.log[2 := [REQUEST, EVENT]] && n'.coordAt == n.coordAt[2 := 1];
    CoordDispatches(n, n', 2, EVENT);
  }

  lemma OvertakingMoves(k: nat)
    requires 0 < k < 6
    ensures Moves(OvertakingRun()[k - 1], OvertakingRun()[k])
  {
    var both := [EVENT, REQUEST];
    if k == 1 {
      EventIsSent();
    } else if k == 2 {
      RequestIsSent();
    } else if k == 3 {
      EventIsRelayed(both);
    } else if k == 4 {
      RequestIsDispatched(both);
    } else {
      EventIsDispatched(both);
    }
  }

  /** A leaf's event and a later request to the coordinator's process are dispatched there the other way round. */
  lemma RelayedCanBeOvertaken()
    ensures IsRun(Start, Moves, OvertakingRun())
    ensures OvertakingRun()[5].net.rings[3] == [EVENT, REQUEST] && OvertakingRun()[5].net.log[2] == [REQUEST, EVENT]
  {
    OvertakingStarts();
    forall k | 0 < k < |OvertakingRun()| ensures MovesTo(Moves, OvertakingRun(), k) {
      OvertakingMoves(k);
    }
  }

  /** Nobody but the coordinator relays, and it never relays from its own ring. */
  lemma {:induction false} NothingToRelay(top: Topology, self: nat, ringOwner: nat, s: seq<Message>)
    requires self != top.coord || ringOwner == self
    ensures Filter(s, Does(top, self, ringOwner, Relay)) == []
  {
    if s != [] {
      NothingToRelay(top, self, ringOwner, s[..|s| - 1]);
    }
  }

  /** What one more message adds to a list of the messages handled in one way. */
  lemma HandledAppend(top: Topology, self: nat, ringOwner: nat, ring: seq<Message>, at: nat, k: nat, a: Action)
    requires at <= k < |ring|
    ensures Filter(ring[at..k + 1], Does(top, self, ringOwner, a)) ==
            Filter(ring[at..k], Does(top, self, ringOwner, a)) +
            if Handle(top, self, ringOwner, ring[k]) == a then [ring[k]] else []
  {
    assert ring[at..k + 1] == ring[at..k] + [ring[k]];
    FilterAppend(ring[at..k], ring[k], Does(top, self, ringOwner, a));
  }

  /**
   The loop of request_reader_function over one ring, from position `at`: what it dispatches and
   what it relays are the subsequences the decision table names, and it stops at the end.
   */
  method ReadRing(top: Topology, self: nat, ringOwner: nat, ring: seq<Message>, at: nat)
    returns (dispatched: seq<Message>, relayed: seq<Message>, position: nat)
    requires at <= |ring|
    ensures position == |ring|
    ensures dispatched == Filter(ring[at..], Does(top, self, ringOwner, Dispatch))
    ensures relayed == Filter(ring[at..], Does(top, self, ringOwner, Relay))
    ensures self != top.coord || ringOwner == self ==> relayed == []
  {
    dispatched, relayed, position := [], [], at;
    while position < |ring|
      invariant at <= position <= |ring|
      invariant dispatched == Filter(ring[at..position], Does(top, self, ringOwner, Dispatch))
      invariant relayed == Filter(ring[at..position], Does(top, self, ringOwner, Relay))
    {
      HandledAppend(top, self, ringOwner, ring, at, position, Dispatch);
      HandledAppend(top, self, ringOwner, ring, at, position, Relay);
      match Handle(top, self, ringOwner, ring[position]) {
        case Dispatch => dispatched := dispatched + [ring[position]];
        case Relay => relayed := relayed + [ring[position]];
        case Drop =>
      }
      position := position + 1;
    }
    assert ring[at..] == ring[at..position];
    if self != top.coord || ringOwner == self {
      NothingToRelay(top, self, ringOwner, ring[at..]);
    }
  }
}

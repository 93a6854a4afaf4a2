/** Finite runs of a step system, and the induction principle every protocol below uses. */
module Runs {

  datatype Option<+T> = None | Some(value: T)

  ghost predicate MovesTo<S(!new)>(next: (S, S) -> bool, run: seq<S>, k: nat)
    requires 0 < k < |run|
  {
    next(run[k - 1], run[k])
  }

  /** A run starts in an initial state and moves by one step between neighbours. */
  ghost predicate IsRun<S(!new)>(init: S -> bool, next: (S, S) -> bool, run: seq<S>) {
    && 0 < |run|
    && init(run[0])
    && forall k :: 0 < k < |run| ==> MovesTo(next, run, k)
  }

  lemma RunStep<S(!new)>(init: S -> bool, next: (S, S) -> bool, run: seq<S>, k: nat)
    requires IsRun(init, next, run) && 0 < k < |run|
    ensures next(run[k - 1], run[k])
  {
    assert MovesTo(next, run, k);
  }

  /** An inductive invariant holds in every state of every run. */
  lemma {:induction false} InvariantHolds<S(!new)>(init: S -> bool, next: (S, S) -> bool, inv: S -> bool,
                                                   run: seq<S>, k: nat)
    requires forall s :: init(s) ==> inv(s)
    requires forall s, s' :: inv(s) && next(s, s') ==> inv(s')
    requires IsRun(init, next, run)
    requires k < |run|
    ensures inv(run[k])
  {
    if k > 0 {
      InvariantHolds(init, next, inv, run, k - 1);
      RunStep(init, next, run, k);
    }
  }
}

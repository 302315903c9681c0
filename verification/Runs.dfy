/** Runs of a step, and what a step that keeps something keeps over a whole run. */
module Runs {
  // The state after the first i steps.
  ghost function At<S, O>(step: (S, O) -> S, s: S, ops: seq<O>, i: nat): S
    requires i <= |ops|
  {
    if i == 0 then s else step(At(step, s, ops, i - 1), ops[i - 1])
  }

  lemma {:induction false} KeptFrom<S(!new), O(!new)>(step: (S, O) -> S, allowed: O -> bool, inv: S -> bool, s: S,
                                      ops: seq<O>, i: nat, j: nat)
    requires i <= j <= |ops| && inv(At(step, s, ops, i))
    requires forall k :: i <= k < j ==> allowed(ops[k])
    requires forall t, o :: inv(t) && allowed(o) ==> inv(step(t, o))
    ensures inv(At(step, s, ops, j))
    decreases j
  {
    if i < j {
      KeptFrom(step, allowed, inv, s, ops, i, j - 1);
    }
  }
}

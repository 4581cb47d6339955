/** Stretches of runs that start in any state. */
module Paths {
  predicate Moves<S, A>(goes: (S, A, S) -> bool, trace: seq<S>, steps: seq<A>, i: nat)
    requires i < |steps| && |trace| == |steps| + 1
  {
    goes(trace[i], steps[i], trace[i + 1])
  }

  /** From s on, every state goes over into the next by the step between them. */
  predicate IsPath<S(==), A>(goes: (S, A, S) -> bool, trace: seq<S>, steps: seq<A>, s: S) {
    && |trace| == |steps| + 1 && trace[0] == s
    && forall i :: 0 <= i < |steps| ==> Moves(goes, trace, steps, i)
  }

  lemma PathFrom<S, A>(goes: (S, A, S) -> bool, trace: seq<S>, steps: seq<A>, s: S, step: A, t: S)
    requires goes(s, step, t) && IsPath(goes, trace, steps, t)
    ensures IsPath(goes, [s] + trace, [step] + steps, s) && ([s] + trace)[|steps| + 1] == trace[|steps|]
  {
    var trace', steps' := [s] + trace, [step] + steps;
    forall i | 0 <= i < |steps'|
      ensures Moves(goes, trace', steps', i)
    {
      if i == 0 {
        assert trace'[0] == s && steps'[0] == step && trace'[1] == t;
      } else {
        assert Moves(goes, trace, steps, i - 1);
        assert trace'[i] == trace[i - 1] && steps'[i] == steps[i - 1] && trace'[i + 1] == trace[i];
      }
    }
  }
}

/** Finite runs of a state machine: a step function folded over a sequence of operations. */
module Runs {
  ghost function Fold<S, O>(step: (S, O) -> S, s: S, ops: seq<O>): S
    decreases |ops|
  {
    if ops == [] then s else Fold(step, step(s, ops[0]), ops[1..])
  }

  lemma {:induction false} Concat<S, O>(step: (S, O) -> S, s: S, first: seq<O>, second: seq<O>)
    ensures Fold(step, s, first + second) == Fold(step, Fold(step, s, first), second)
    decreases |first|
  {
    if first == [] {
      assert first + second == second;
    } else {
      assert (first + second)[1..] == first[1..] + second;
      Concat(step, step(s, first[0]), first[1..], second);
    }
  }

  lemma Single<S, O>(step: (S, O) -> S, s: S, op: O)
    ensures Fold(step, s, [op]) == step(s, op)
  {
    assert Fold(step, s, [op]) == Fold(step, step(s, op), []);
  }

  lemma Snoc<S, O>(step: (S, O) -> S, s: S, ops: seq<O>, op: O)
    ensures Fold(step, s, ops + [op]) == step(Fold(step, s, ops), op)
  {
    Concat(step, s, ops, [op]);
    Single(step, Fold(step, s, ops), op);
  }

  lemma Prefix<S, O>(step: (S, O) -> S, s: S, ops: seq<O>, k: nat)
    requires k < |ops|
    ensures Fold(step, s, ops[..k + 1]) == step(Fold(step, s, ops[..k]), ops[k])
  {
    assert ops[..k + 1] == ops[..k] + [ops[k]];
    Snoc(step, s, ops[..k], ops[k]);
  }

  /** What every step keeps, every run keeps. */
  lemma {:induction false} Invariant<S(!new), O(!new)>(step: (S, O) -> S, inv: S -> bool, s: S, ops: seq<O>)
    requires inv(s)
    requires forall s, o :: inv(s) ==> inv(step(s, o))
    ensures inv(Fold(step, s, ops))
    decreases |ops|
  {
    if ops == [] {
    } else {
      assert inv(step(s, ops[0]));
      Invariant(step, inv, step(s, ops[0]), ops[1..]);
    }
  }
}

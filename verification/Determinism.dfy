/**
 Loops as steps between states: where every step follows from its state, a loop that
 ends can only end in one state.
 */
module Determinism {
  /** `to` is where `n` steps lead from `from`. */
  ghost predicate After<S(!new)>(step: (S, S) -> bool, from: S, n: nat, to: S) {
    if n == 0 then from == to else exists mid :: After(step, from, n - 1, mid) && step(mid, to)
  }

  ghost predicate Deterministic<S(!new)>(step: (S, S) -> bool) {
    forall x, y, z :: step(x, y) && step(x, z) ==> y == z
  }

  /** No step leads on. */
  ghost predicate Ended<S(!new)>(step: (S, S) -> bool, x: S) {
    forall y :: !step(x, y)
  }

  /** Some number of steps ends here. */
  ghost predicate EndsIn<S(!new)>(step: (S, S) -> bool, from: S, end: S) {
    Ended(step, end) && exists n :: After(step, from, n, end)
  }

  lemma {:induction false} SameAfter<S(!new)>(step: (S, S) -> bool, from: S, n: nat, x: S, y: S)
    requires Deterministic(step) && After(step, from, n, x) && After(step, from, n, y)
    ensures x == y
  {
    if n > 0 {
      var x' :| After(step, from, n - 1, x') && step(x', x);
      var y' :| After(step, from, n - 1, y') && step(y', y);
      SameAfter(step, from, n - 1, x', y');
    }
  }

  /** What lies on the way to a later state. */
  lemma {:induction false} OnTheWay<S(!new)>(step: (S, S) -> bool, from: S, m: nat, n: nat, y: S) returns (x: S, x': S)
    requires m < n && After(step, from, n, y)
    ensures After(step, from, m, x) && step(x, x')
  {
    var y' :| After(step, from, n - 1, y') && step(y', y);
    if m == n - 1 {
      x, x' := y', y;
    } else {
      x, x' := OnTheWay(step, from, m, n - 1, y');
    }
  }

  /** A loop has one end. */
  lemma {:induction false} OneEnd<S(!new)>(step: (S, S) -> bool, from: S, x: S, y: S)
    requires Deterministic(step) && EndsIn(step, from, x) && EndsIn(step, from, y)
    ensures x == y
  {
    var m: nat :| After(step, from, m, x);
    var n: nat :| After(step, from, n, y);
    if m < n {
      var z, z' := OnTheWay(step, from, m, n, y);
      SameAfter(step, from, m, x, z);
    } else if n < m {
      var z, z' := OnTheWay(step, from, n, m, x);
      SameAfter(step, from, n, y, z);
    }
    SameAfter(step, from, m, x, y);
  }

  lemma NoSteps<S(!new)>(step: (S, S) -> bool, from: S)
    ensures After(step, from, 0, from)
  {
  }

  lemma {:induction false} OneMore<S(!new)>(step: (S, S) -> bool, from: S, n: nat, x: S, y: S)
    requires After(step, from, n, x) && step(x, y)
    ensures After(step, from, n + 1, y)
  {
  }
}

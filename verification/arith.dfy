/**
 * Small facts about multiplication and Euclidean division on naturals,
 * shared by the buffer cursor, the minibatch layout and the checkpoint
 * cadence.
 */
module Arith {

  lemma MulMonoLe(a: nat, b: nat, c: nat)
    requires a <= b
    ensures a * c <= b * c
  {
    assert b * c == a * c + (b - a) * c;
  }

  /** Euclidean division recovers quotient and remainder. */
  lemma DivModSplit(a: nat, b: nat, n: nat, x: nat)
    requires 0 <= b < n && x == a * n + b
    ensures x / n == a && x % n == b
  {
    var a', b' := x / n, x % n;
    assert x == a' * n + b';
    if a' < a {
      MulMonoLe(a' + 1, a, n);
      assert false;
    } else if a' > a {
      MulMonoLe(a + 1, a', n);
      assert false;
    }
  }

  /** A product of three factors does not depend on their order. */
  lemma MulRotate(a: nat, b: nat, c: nat)
    ensures a * b * c == b * c * a
  {
  }
}

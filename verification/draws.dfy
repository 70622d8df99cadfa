/** `Math.random()` draws, passed in as explicit reals, and the
    `Math.floor(Math.random() * n)` index picks made from them. */
module Draws {
  /** A value `Math.random()` can return. */
  predicate IsDraw(r: real)
  {
    0.0 <= r < 1.0
  }

  /** `Math.floor(r * n)`: an index into a list of `n` entries. */
  function Pick(r: real, n: nat): (k: nat)
    requires IsDraw(r) && n > 0
    ensures k < n
    ensures (k as real) <= r * (n as real) < (k + 1) as real
  {
    ScaledBelow(r, n);
    (r * (n as real)).Floor
  }

  lemma ScaledBelow(r: real, n: nat)
    requires IsDraw(r)
    ensures 0.0 <= r * (n as real) <= n as real
    ensures n > 0 ==> r * (n as real) < n as real
  {
  }

  /** Every index is the pick of some draw: `k / n` lands on `k`. */
  lemma PickReachesEveryIndex(n: nat, k: nat)
    requires k < n
    ensures IsDraw((k as real) / (n as real)) && Pick((k as real) / (n as real), n) == k
  {
    var r := (k as real) / (n as real);
    assert r * (n as real) == k as real;
  }
}

/** Small facts of whole-number arithmetic that the solver is not left to guess. */
module Arith {

  lemma Distribute(x: int, y: int, z: int)
    ensures x * (y + z) == x * y + x * z && (y + z) * x == y * x + z * x
  {
  }

  lemma Reorder(x: int, y: int, z: int)
    ensures x * (y * z) == y * (x * z) == (x * y) * z
  {
  }

  lemma Multiple(n: nat, d: int)
    ensures d >= 1 ==> n * d >= n
    ensures d <= -1 ==> n * d + n <= 0
  {
    if d <= -1 {
      Distribute(n, d, 1);
    }
  }

  /** A remainder is known from any decomposition. */
  lemma ModIs(x: int, n: nat, q: int, r: int)
    requires 0 <= r < n && x == n * q + r
    ensures x % n == r
  {
    var d := x / n - q;
    Distribute(n, x / n, -q);
    assert n * d == r - x % n;
    Multiple(n, d);
  }

  lemma DivIs(x: int, n: nat, q: int, r: int)
    requires 0 <= r < n && x == n * q + r
    ensures x / n == q
  {
    ModIs(x, n, q, r);
    Distribute(n, x / n, -q);
    Multiple(n, x / n - q);
  }
}

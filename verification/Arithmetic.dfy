/** Facts about products and remainders that the index computations rest on. */
module Arithmetic {

  lemma AtLeastOnce(n: nat, times: int)
    requires times >= 1
    ensures n * times >= n
  {
  }

  lemma Distribute(n: int, x: int, y: int)
    ensures n * (x + y) == n * x + n * y
  {
  }

  /** Euclidean division is unique. */
  lemma RemainderIs(x: int, q: int, r: nat, n: nat)
    requires r < n && x == n * q + r
    ensures x % n == r
  {
    var p := x / n;
    var d := q - p;
    Distribute(n, p, d);
    if d > 0 {
      AtLeastOnce(n, d);
    } else if d < 0 {
      AtLeastOnce(n, -d);
      Distribute(n, d, -d);
    }
  }

  /** Whole turns do not count. */
  lemma WholeTurns(e: nat, k: nat, n: nat)
    requires n > 0 && e % n == 0
    ensures (e + k) % n == k % n
  {
    var q := e / n;
    Distribute(n, q, k / n);
    RemainderIs(e + k, q + k / n, k % n, n);
  }
}

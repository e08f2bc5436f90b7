/** Residues of integers: adding multiples, and uniqueness of quotient and remainder. */
module Residues {
  import GoInt

  lemma {:induction false} ShiftByMultiple(a: int, b: int, q: int, m: nat)
    requires m > 0 && a == b + q * m
    ensures a % m == b % m
  {
    var u, v := a / m, b / m;
    assert a == u * m + a % m && b == v * m + b % m;
    assert (u - v - q) * m == b % m - a % m;
    GoInt.SmallMultiple(u - v - q, m);
  }

  lemma {:induction false} ModUnique(x: int, q: int, r: int, m: nat)
    requires x == q * m + r && 0 <= r < m
    ensures x % m == r && x / m == q
  {
    var u := x / m;
    assert x == u * m + x % m;
    assert (q - u) * m == x % m - r;
    GoInt.SmallMultiple(q - u, m);
  }
}

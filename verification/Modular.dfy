/** Arithmetic modulo the group order L, and math/big's modular inverse. */
module Modular {
  import opened Wrappers
  import GoInt
  import opened Residues
  import ScalarLimbs

  const L: nat := ScalarLimbs.L

  /** Equal residues differ by a multiple. */
  lemma {:induction false} Difference(a: int, b: int, m: nat) returns (q: int)
    requires m > 0 && a % m == b % m
    ensures a == b + q * m
  {
    q := a / m - b / m;
    assert a == (a / m) * m + a % m && b == (b / m) * m + b % m;
  }

  lemma {:induction false} AddCongruent(a: int, b: int, c: int, d: int, m: nat)
    requires m > 0 && a % m == b % m && c % m == d % m
    ensures (a + c) % m == (b + d) % m
  {
    var q := Difference(a, b, m);
    var r := Difference(c, d, m);
    assert (q + r) * m == q * m + r * m;
    ShiftByMultiple(a + c, b + d, q + r, m);
  }

  lemma {:induction false} TimesCongruent(a: int, b: int, c: int, m: nat)
    requires m > 0 && a % m == b % m
    ensures (a * c) % m == (b * c) % m
  {
    var q := Difference(a, b, m);
    assert (b + q * m) * c == b * c + (q * c) * m;
    ShiftByMultiple(a * c, b * c, q * c, m);
  }

  lemma {:induction false} SmallResidue(a: int, m: nat)
    requires 0 <= a < m
    ensures a % m == a
  {
  }

  lemma {:induction false} ModTwice(a: int, m: nat)
    requires m > 0
    ensures (a % m) % m == a % m
  {
    SmallResidue(a % m, m);
  }

  // ---------------------------------------------------------------- inverses

  lemma {:induction false} BezoutStep(a: int, b: int, x: int, y: int, q: int, r: int, g: int)
    requires b * x + r * y == g && a == q * b + r
    ensures a * y + b * (x - q * y) == g
  {
    assert (q * b + r) * y == b * (q * y) + r * y;
    assert b * (x - q * y) == b * x - b * (q * y);
  }

  lemma {:induction false} DividesStep(a: int, b: int, q: int, r: int, g: nat)
    requires g > 0 && b % g == 0 && r % g == 0 && a == q * b + r
    ensures a % g == 0
  {
    var u, v := b / g, r / g;
    assert b == u * g && r == v * g;
    assert q * (u * g) + v * g == (q * u + v) * g;
    ShiftByMultiple(a, 0, q * u + v, g);
  }

  /** The extended Euclidean algorithm. */
  function Bezout(a: nat, b: nat): (int, int, nat)
    decreases b
  {
    if b == 0 then (1, 0, a)
    else
      var (x, y, g) := Bezout(b, a % b);
      (y, x - (a / b) * y, g)
  }

  /** g divides a and b and is the combination of them that x and y say. */
  ghost predicate IsBezout(a: int, b: int, x: int, y: int, g: nat) {
    g > 0 && a * x + b * y == g && a % g == 0 && b % g == 0
  }

  lemma {:induction false} EuclidStep(a: int, b: int, x: int, y: int, q: int, r: int, g: nat)
    requires IsBezout(b, r, x, y, g) && a == q * b + r
    ensures IsBezout(a, b, y, x - q * y, g)
  {
    BezoutStep(a, b, x, y, q, r, g);
    DividesStep(a, b, q, r, g);
  }

  lemma {:induction false} Quotient(a: int, b: int)
    requires b > 0
    ensures a == (a / b) * b + a % b
  {
  }

  lemma {:induction false} BezoutIdentity(a: nat, b: nat)
    requires a + b > 0
    ensures var (x, y, g) := Bezout(a, b); IsBezout(a, b, x, y, g)
    decreases b
  {
    if b > 0 {
      BezoutIdentity(b, a % b);
      var (x, y, g) := Bezout(b, a % b);
      Quotient(a, b);
      EuclidStep(a, b, x, y, a / b, a % b, g);
    }
  }

  /** math/big's ModInverse; nothing when a and m share a factor. */
  function ModInverse(a: nat, m: nat): (r: Option<nat>)
    requires m > 1
    ensures r.Some? ==> r.value < m && (a * r.value) % m == 1
  {
    var (x, y, g) := Bezout(a, m);
    BezoutIdentity(a, m);
    if g == 1 then
      InverseValue(a, m, x, y);
      Some(x % m)
    else None
  }

  lemma {:induction false} InverseValue(a: int, m: nat, x: int, y: int)
    requires m > 1 && a * x + m * y == 1
    ensures (a * (x % m)) % m == 1
  {
    ShiftByMultiple(a * x, 1, -y, m);
    ModTwice(x, m);
    TimesCongruent(x % m, x, a, m);
    SmallResidue(1, m);
  }

  lemma {:induction false} WholeQuotient(a: int, g: nat)
    requires g > 0 && a % g == 0
    ensures a == (a / g) * g
  {
  }

  lemma {:induction false} ModInverseFound(a: nat, m: nat, v: int)
    requires m > 1 && (a * v) % m == 1
    ensures ModInverse(a, m).Some?
  {
    BezoutIdentity(a, m);
    var (x, y, g) := Bezout(a, m);
    Quotient(a * v, m);
    WholeQuotient(a, g);
    WholeQuotient(m, g);
    CommonFactor(a, m, v, (a * v) / m, a / g, m / g, g);
  }

  lemma {:induction false} CommonFactor(a: int, m: int, v: int, q: int, u: int, w: int, g: nat)
    requires a * v == q * m + 1 && a == u * g && m == w * g
    ensures g == 1
  {
    assert (u * g) * v == (u * v) * g && q * (w * g) == (q * w) * g;
    assert (u * v - q * w) * g == 1;
    UnitFactor(u * v - q * w, g);
  }

  lemma {:induction false} UnitFactor(k: int, g: nat)
    requires k * g == 1
    ensures g == 1
  {
    GoInt.AbsTimes(g, k);
  }

  /** No k from 2 up to n divides l. */
  predicate Coprime(l: nat, n: nat) {
    n < 2 || (l % n != 0 && Coprime(l, n - 1))
  }

  lemma {:induction false} EightMore(l: nat, n: nat)
    requires Coprime(l, n) && n >= 1
    requires l % (n + 1) != 0 && l % (n + 2) != 0 && l % (n + 3) != 0 && l % (n + 4) != 0
    requires l % (n + 5) != 0 && l % (n + 6) != 0 && l % (n + 7) != 0 && l % (n + 8) != 0
    ensures Coprime(l, n + 8)
  {
    assert Coprime(l, n + 2);
    assert Coprime(l, n + 4);
    assert Coprime(l, n + 6);
  }

  lemma {:induction false} FactorsTo65()
    ensures Coprime(L, 65)
  {
    EightMore(L, 1); EightMore(L, 9); EightMore(L, 17); EightMore(L, 25);
    EightMore(L, 33); EightMore(L, 41); EightMore(L, 49); EightMore(L, 57);
  }

  lemma {:induction false} FactorsTo129()
    ensures Coprime(L, 129)
  {
    FactorsTo65();
    EightMore(L, 65); EightMore(L, 73); EightMore(L, 81); EightMore(L, 89);
    EightMore(L, 97); EightMore(L, 105); EightMore(L, 113); EightMore(L, 121);
  }

  lemma {:induction false} FactorsTo193()
    ensures Coprime(L, 193)
  {
    FactorsTo129();
    EightMore(L, 129); EightMore(L, 137); EightMore(L, 145); EightMore(L, 153);
    EightMore(L, 161); EightMore(L, 169); EightMore(L, 177); EightMore(L, 185);
  }

  lemma {:induction false} FactorsTo249()
    ensures Coprime(L, 249)
  {
    FactorsTo193();
    EightMore(L, 193); EightMore(L, 201); EightMore(L, 209); EightMore(L, 217);
    EightMore(L, 225); EightMore(L, 233); EightMore(L, 241);
  }

  lemma {:induction false} SmallFactors()
    ensures Coprime(L, 255)
  {
    FactorsTo249();
    assert Coprime(L, 251) && Coprime(L, 253);
  }

  lemma {:induction false} CoprimeBelow(n: nat, k: nat)
    requires Coprime(L, n) && 2 <= k <= n
    ensures L % k != 0
  {
    if k < n {
      CoprimeBelow(n - 1, k);
    }
  }

  lemma {:induction false} InverseStep(k: int, q: int, r: int, v: int)
    requires L == q * k + r && (r * v) % L == 1
    ensures (k * -(q * v)) % L == 1
  {
    assert k * -(q * v) == -(q * k) * v;
    assert -(q * k) * v == r * v + (-v) * L by { assert (r - L) * v == r * v - L * v; }
    ShiftByMultiple(k * -(q * v), r * v, -v, L);
  }

  /** Every k from 1 up to n is invertible, without using that L is prime. */
  lemma {:induction false} SmallInverse(n: nat, k: nat) returns (v: int)
    requires Coprime(L, n) && 1 <= k <= n
    ensures (k * v) % L == 1
  {
    if k == 1 {
      v := 1;
    } else {
      CoprimeBelow(n, k);
      var q, r := L / k, L % k;
      v := SmallInverse(n, r);
      InverseStep(k, q, r, v);
      v := -(q * v);
    }
  }
}

/** Go's signed 64-bit integers: wrap-around, and division truncated toward zero. */
module GoInt {

  const TWO63: int := 0x8000_0000_0000_0000
  const TWO64: int := 0x1_0000_0000_0000_0000

  type Int64 = x: int | -0x8000_0000_0000_0000 <= x < 0x8000_0000_0000_0000

  /** The int64 with the same low 64 bits as x. */
  function Wrap(x: int): (r: Int64)
    ensures (r - x) % TWO64 == 0
  {
    var r := (x + TWO63) % TWO64 - TWO63;
    assert r - x == -TWO64 * ((x + TWO63) / TWO64);
    MultipleModulo((x + TWO63) / TWO64);
    r
  }

  lemma {:induction false} MultipleModulo(q: int)
    ensures (-TWO64 * q) % TWO64 == 0
  {
  }

  lemma {:induction false} WrapSmall(x: int)
    requires -TWO63 <= x < TWO63
    ensures Wrap(x) == x
  {
  }

  /** Values that agree modulo 2^64 wrap to the same int64. */
  lemma {:induction false} WrapCongruent(x: int, y: int, q: int)
    requires x == y + q * TWO64
    ensures Wrap(x) == Wrap(y)
  {
  }

  lemma {:induction false} WrapTimes(a: int, b: int)
    ensures Wrap(Wrap(a) * b) == Wrap(a * b)
  {
    var q := (Wrap(a) - a) / TWO64;
    assert Wrap(a) == a + q * TWO64;
    assert Wrap(a) * b == a * b + (q * b) * TWO64;
    WrapCongruent(Wrap(a) * b, a * b, q * b);
  }

  /** Integer division as Go does it: truncated toward zero. */
  function Quo(a: int, b: int): int
    requires b != 0
  {
    if a >= 0 then a / b else -(-a / b)
  }

  function Abs(x: int): nat {
    if x < 0 then -x else x
  }

  lemma {:induction false} ProductSign(x: int, y: int)
    requires x >= 0 && y >= 0
    ensures x * y >= 0
  {
  }

  /** A multiple of b is not negative, or at most -|b|. */
  lemma {:induction false} MultipleAbove(k: int, b: int)
    requires b != 0
    ensures k * b >= 0 || k * b <= -(Abs(b) as int)
  {
    if b > 0 {
      assert (-k - 1) * b == -(k * b) - b;
      if k < 0 { ProductSign(-k - 1, b); } else { ProductSign(k, b); }
    } else {
      assert (k - 1) * (-b) == -(k * b) + b && (-k) * (-b) == k * b;
      if k > 0 { ProductSign(k - 1, -b); } else { ProductSign(-k, -b); }
    }
  }

  lemma {:induction false} SmallMultiple(k: int, b: int)
    requires b != 0 && -(Abs(b) as int) < k * b < Abs(b)
    ensures k == 0
  {
    assert (-k) * b == -(k * b);
    MultipleAbove(k, b);
    MultipleAbove(-k, b);
  }

  lemma {:induction false} AbsTimes(u: int, b: int)
    requires b != 0
    ensures Abs(u) <= Abs(u * b)
  {
    if u >= 0 && b > 0 {
      assert u * (b - 1) >= 0;
    } else if u >= 0 {
      assert u * (-b - 1) >= 0;
    } else if b > 0 {
      assert (-u) * (b - 1) >= 0;
    } else {
      assert (-u) * (-b - 1) >= 0;
    }
  }

  lemma {:induction false} DivideMultiple(q: int, b: int)
    requires b != 0
    ensures (q * b) / b == q
  {
    var a := q * b;
    var u, r := a / b, a % b;
    assert a == u * b + r;
    assert (q - u) * b == r;
    SmallMultiple(q - u, b);
  }

  lemma {:induction false} QuoExact(q: int, b: int)
    requires b != 0
    ensures Quo(q * b, b) == q
  {
    DivideMultiple(q, b);
    DivideMultiple(-q, b);
    assert -(q * b) == (-q) * b;
  }

  lemma {:induction false} DivideBound(c: nat, b: int)
    requires b != 0
    ensures 0 <= (c / b) * b <= c
  {
    var u, r := c / b, c % b;
    assert c == u * b + r;
    MultipleAbove(u, b);
  }

  /** Truncation never moves the product away from zero. */
  lemma {:induction false} QuoBound(a: int, b: int)
    requires b != 0
    ensures Abs(Quo(a, b) * b) <= Abs(a)
  {
    DivideBound(Abs(a), b);
    var u := Abs(a) / b;
    assert (-u) * b == -(u * b);
  }
}

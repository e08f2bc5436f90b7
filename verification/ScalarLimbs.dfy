/**
 Arithmetic modulo the order L of the Ed25519 base point on 24 signed limbs of radix 2^21
 (signer/edwards25519/edwards25519.go). Limbs are mathematical integers; every step states and
 proves that it stays inside int64. An arithmetic shift right is floor division.
 */
module ScalarLimbs {
  import opened Bytes
  import GoInt
  import opened Residues

  /** 2^252 + 27742317777372353535851937790883648493 */
  const L: nat := 7237005577332262213973186563042994240857116359379907606001950938285454250989

  ghost predicate Int64(x: int) {
    -0x8000_0000_0000_0000 <= x < 0x8000_0000_0000_0000
  }

  /** t * 2^(21 i): what t is worth in limb i. */
  function Shift(t: int, i: nat): int {
    if i == 0 then t else 2097152 * Shift(t, i - 1)
  }

  lemma {:induction false} ShiftTimes(t: int, k: int, i: nat)
    ensures Shift(t * k, i) == k * Shift(t, i)
  {
    if i > 0 {
      ShiftTimes(t, k, i - 1);
      assert k * (2097152 * Shift(t, i - 1)) == 2097152 * (k * Shift(t, i - 1));
    }
  }

  lemma {:induction false} ShiftPlus(a: int, b: int, i: nat)
    ensures Shift(a + b, i) == Shift(a, i) + Shift(b, i)
  {
    if i > 0 {
      ShiftPlus(a, b, i - 1);
    }
  }

  /** The number the first n limbs stand for. */
  function Val(s: seq<int>, n: nat): int
    requires n <= |s|
  {
    if n == 0 then 0 else Val(s, n - 1) + Shift(s[n - 1], n - 1)
  }

  /** Limbs lo up to hi stay within the bound in absolute value. */
  ghost predicate Bounded(s: array<int>, lo: nat, hi: nat, bound: int)
    reads s
  {
    forall j :: lo <= j < hi && j < s.Length ==> -bound <= s[j] <= bound
  }

  lemma {:induction false} ValUpdate(s: seq<int>, i: nat, d: int, n: nat)
    requires i < |s| && n <= |s|
    ensures Val(s[i := s[i] + d], n) == Val(s, n) + if i < n then Shift(d, i) else 0
  {
    if n > 0 {
      ValUpdate(s, i, d, n - 1);
      ShiftPlus(s[i], d, i);
    }
  }

  // ----- single steps on the limb array

  function Move(s: seq<int>, i: nat, c: int): (r: seq<int>)
    requires i + 1 < |s|
    ensures |r| == |s|
  {
    var s1 := s[i + 1 := s[i + 1] + c];
    s1[i := s1[i] + c * -2097152]
  }

  /** A carry moves value between neighbours and keeps the number. */
  lemma {:induction false} MoveValue(s: seq<int>, i: nat, c: int)
    requires i + 1 < |s|
    ensures Val(Move(s, i, c), |s|) == Val(s, |s|)
  {
    ValUpdate(s, i + 1, c, |s|);
    ValUpdate(s[i + 1 := s[i + 1] + c], i, c * -2097152, |s|);
    ShiftTimes(c, -2097152, i);
  }

  function CarryOut(x: int, bias: int): int {
    (x + bias) / 2097152
  }

  /** One carry: with bias 2^20 the rounding carry, with bias 0 the floor carry. */
  method Carry(s: array<int>, i: nat, bias: int)
    requires i + 1 < s.Length && (bias == 0 || bias == 1048576)
    requires -0x4000_0000_0000_0000 <= s[i] <= 0x4000_0000_0000_0000
    requires -0x4000_0000_0000_0000 <= s[i + 1] <= 0x4000_0000_0000_0000
    modifies s
    ensures s[i] == old(s[i]) - CarryOut(old(s[i]), bias) * 2097152
    ensures -bias <= s[i] < 2097152 - bias
    ensures s[i + 1] == old(s[i + 1]) + CarryOut(old(s[i]), bias)
    ensures forall j :: 0 <= j < s.Length && j != i && j != i + 1 ==> s[j] == old(s[j])
    ensures Val(s[..], s.Length) == old(Val(s[..], s.Length))
  {
    ghost var s0 := s[..];
    assert Int64(s[i] + bias);
    var c := CarryOut(s[i], bias);
    assert Int64(s[i + 1] + c) && Int64(c * 2097152) && Int64(s[i] - c * 2097152);
    s[i + 1] := s[i + 1] + c;
    s[i] := s[i] - c * 2097152;
    assert s[..] == Move(s0, i, c);
    MoveValue(s0, i, c);
  }

  function AddAt(s: seq<int>, j: nat, d: int): (r: seq<int>)
    requires j < |s|
    ensures |r| == |s|
  {
    s[j := s[j] + d]
  }

  function AddThree(s: seq<int>, j: nat, t: int, k0: int, k1: int, k2: int): (r: seq<int>)
    requires j + 2 < |s|
    ensures |r| == |s|
  {
    AddAt(AddAt(AddAt(s, j, t * k0), j + 1, t * k1), j + 2, t * k2)
  }

  function Folded(s: seq<int>, i: nat): (r: seq<int>)
    requires 12 <= i < |s|
    ensures |r| == |s|
  {
    var low := AddThree(s, i - 12, s[i], 666643, 470296, 654183);
    var high := AddThree(low, i - 9, s[i], -997805, 136657, -683901);
    AddAt(high, i, s[i] * -1)
  }

  lemma {:induction false} AddAtValue(s: seq<int>, j: nat, t: int, k: int)
    requires j < |s|
    ensures Val(AddAt(s, j, t * k), |s|) == Val(s, |s|) + k * Shift(t, j)
  {
    ValUpdate(s, j, t * k, |s|);
    ShiftTimes(t, k, j);
  }

  /** What folding t out of limb j + 12 adds. */
  function FoldDelta(t: int, j: nat): int {
    666643 * Shift(t, j) + 470296 * Shift(t, j + 1) + 654183 * Shift(t, j + 2) - 997805 * Shift(t, j + 3)
    + 136657 * Shift(t, j + 4) - 683901 * Shift(t, j + 5) - Shift(t, j + 12)
  }

  lemma {:induction false} AddThreeValue(s: seq<int>, j: nat, t: int, k0: int, k1: int, k2: int)
    requires j + 2 < |s|
    ensures Val(AddThree(s, j, t, k0, k1, k2), |s|)
         == Val(s, |s|) + k0 * Shift(t, j) + k1 * Shift(t, j + 1) + k2 * Shift(t, j + 2)
  {
    AddAtValue(s, j, t, k0);
    AddAtValue(AddAt(s, j, t * k0), j + 1, t, k1);
    AddAtValue(AddAt(AddAt(s, j, t * k0), j + 1, t * k1), j + 2, t, k2);
  }

  lemma {:induction false} FoldSum(s: seq<int>, i: nat)
    requires 12 <= i < |s|
    ensures Val(Folded(s, i), |s|) == Val(s, |s|) + FoldDelta(s[i], i - 12)
  {
    var low := AddThree(s, i - 12, s[i], 666643, 470296, 654183);
    var high := AddThree(low, i - 9, s[i], -997805, 136657, -683901);
    AddThreeValue(s, i - 12, s[i], 666643, 470296, 654183);
    AddThreeValue(low, i - 9, s[i], -997805, 136657, -683901);
    AddAtValue(high, i, s[i], -1);
  }

  lemma {:induction false} ShiftUp(t: int, j: nat, n: nat)
    ensures Shift(t, j + n) == Shift(Shift(t, j), n)
  {
    if n > 0 {
      ShiftUp(t, j, n - 1);
    }
  }

  /** Twelve limbs up is 2^252, which is congruent to the six fold digits. */
  lemma {:induction false} FoldDigits(j: nat, t: int)
    ensures FoldDelta(t, j) == -Shift(t, j) * L
  {
    var x := Shift(t, j);
    assert Shift(t, j + 6) == 2097152 * Shift(t, j + 5) == 2097152 * (2097152 * Shift(t, j + 4));
    assert Shift(t, j + 12) == 2097152 * Shift(t, j + 11) && Shift(t, j + 11) == 2097152 * Shift(t, j + 10);
    assert Shift(t, j + 10) == 2097152 * Shift(t, j + 9) && Shift(t, j + 9) == 2097152 * Shift(t, j + 8);
    assert Shift(t, j + 8) == 2097152 * Shift(t, j + 7) && Shift(t, j + 7) == 2097152 * Shift(t, j + 6);
    assert Shift(t, j + 4) == 2097152 * Shift(t, j + 3) && Shift(t, j + 3) == 2097152 * Shift(t, j + 2);
    assert Shift(t, j + 2) == 2097152 * Shift(t, j + 1) && Shift(t, j + 1) == 2097152 * x;
  }

  /** Folding limb i away subtracts a multiple of L. */
  lemma {:induction false} FoldValue(s: seq<int>, i: nat)
    requires 12 <= i < |s|
    ensures Val(Folded(s, i), |s|) == Val(s, |s|) - Shift(s[i], i - 12) * L
  {
    FoldSum(s, i);
    FoldDigits(i - 12, s[i]);
  }

  /** One fold: limb i is replaced by its six digits twelve limbs down. */
  method Fold(s: array<int>, i: nat, ghost small: int, ghost big: int)
    requires 12 <= i < s.Length
    requires 0 <= small <= 0x40_0000_0000 && 0 <= big <= 0x400_0000_0000_0000
    requires -small <= s[i] <= small
    requires Bounded(s, i - 12, i - 6, big)
    modifies s
    ensures s[i] == 0
    ensures Bounded(s, i - 12, i - 6, big + 0x10_0000 * small)
    ensures forall k :: 0 <= k < s.Length && k != i && !(i - 12 <= k < i - 6) ==> s[k] == old(s[k])
    ensures Val(s[..], s.Length) == old(Val(s[..], s.Length)) - Shift(old(s[i]), i - 12) * L
    ensures Val(s[..], s.Length) % L == old(Val(s[..], s.Length)) % L
  {
    ghost var s0 := s[..];
    FoldAway(s, i);
    FoldedEntries(s0, i);
    FoldValue(s0, i);
    ShiftByMultiple(Val(s[..], s.Length), Val(s0, s.Length), -Shift(s0[i], i - 12), L);
  }

  lemma {:induction false} FoldedEntries(s: seq<int>, i: nat)
    requires 12 <= i < |s|
    ensures var r, t, j := Folded(s, i), s[i], i - 12;
      && r[j] == s[j] + t * 666643 && r[j + 1] == s[j + 1] + t * 470296 && r[j + 2] == s[j + 2] + t * 654183
      && r[j + 3] == s[j + 3] - t * 997805 && r[j + 4] == s[j + 4] + t * 136657 && r[j + 5] == s[j + 5] - t * 683901
      && r[i] == 0 && forall k :: 0 <= k < |s| && k != i && !(j <= k < j + 6) ==> r[k] == s[k]
  {
  }

  /** The six multiply-and-add statements of a fold; every product and every sum fits an int64. */
  method FoldAway(s: array<int>, i: nat)
    requires 12 <= i < s.Length && -0x40_0000_0000 <= s[i] <= 0x40_0000_0000
    requires Bounded(s, i - 12, i - 6, 0x400_0000_0000_0000)
    modifies s
    ensures s[..] == Folded(old(s[..]), i)
  {
    ghost var s0 := s[..];
    var t, j := s[i], i - 12;
    AddProduct(s, j, t, 666643);
    AddProduct(s, j + 1, t, 470296);
    AddProduct(s, j + 2, t, 654183);
    AddProduct(s, j + 3, t, -997805);
    AddProduct(s, j + 4, t, 136657);
    AddProduct(s, j + 5, t, -683901);
    s[i] := 0;
    FoldedEntries(s0, i);
  }

  /** One of them; subtracting a product is adding its negative. */
  method AddProduct(s: array<int>, j: nat, t: int, k: int)
    requires j < s.Length && -0x40_0000_0000 <= t <= 0x40_0000_0000 && -0x10_0000 <= k <= 0x10_0000
    requires -0x400_0000_0000_0000 <= s[j] <= 0x400_0000_0000_0000
    modifies s
    ensures s[j] == old(s[j]) + t * k
    ensures forall i :: 0 <= i < s.Length && i != j ==> s[i] == old(s[i])
  {
    ProductRange(t, k);
    assert Int64(t * k) && Int64(t * -k) && Int64(s[j] + t * k);
    s[j] := s[j] + t * k;
  }

  lemma {:induction false} ProductRange(t: int, k: int)
    requires -0x40_0000_0000 <= t <= 0x40_0000_0000 && -0x10_0000 <= k <= 0x10_0000
    ensures -0x400_0000_0000_0000 <= t * k <= 0x400_0000_0000_0000 && t * -k == -(t * k)
  {
    var u := if t >= 0 then t else -t;
    GoInt.ProductSign(u, 0x10_0000 - k);
    GoInt.ProductSign(u, k + 0x10_0000);
    assert u * (0x10_0000 - k) == u * 0x10_0000 - u * k && u * (k + 0x10_0000) == u * k + u * 0x10_0000;
    assert t * -k == -(t * k) && -t * k == -(t * k);
  }

  /** A rounding carry with the bounds it keeps: at most 2^20 stays, the rest moves up. */
  method RoundCarry(s: array<int>, i: nat, ghost here: int, ghost next: int)
    requires i + 1 < s.Length && 0 <= here <= 0x2000_0000_0000_0000 && 0 <= next <= 0x2000_0000_0000_0000
    requires -here <= s[i] <= here && -next <= s[i + 1] <= next
    modifies s
    ensures -0x10_0000 <= s[i] <= 0x10_0000
    ensures -(next + here / 0x20_0000 + 1) <= s[i + 1] <= next + here / 0x20_0000 + 1
    ensures forall j :: 0 <= j < s.Length && j != i && j != i + 1 ==> s[j] == old(s[j])
    ensures Val(s[..], s.Length) == old(Val(s[..], s.Length))
  {
    Carry(s, i, 1048576);
  }

  // ----- the passes of the reduction, in source order

  /** Limbs 23 down to 18. */
  method FoldHigh(s: array<int>)
    requires s.Length == 24 && Bounded(s, 0, 24, 0x1_0000_0000)
    modifies s
    ensures Bounded(s, 0, 6, 0x1_0000_0000) && Bounded(s, 6, 18, 0x80_0000_0000_0000)
    ensures Bounded(s, 17, 18, 0x1_0000_0000) && Bounded(s, 18, 24, 0)
    ensures Val(s[..], 24) % L == old(Val(s[..], 24)) % L
  {
    Fold(s, 23, 0x1_0000_0000, 0x1_0000_0000);
    Fold(s, 22, 0x1_0000_0000, 0x10_0001_0000_0000);
    Fold(s, 21, 0x1_0000_0000, 0x20_0001_0000_0000);
    Fold(s, 20, 0x1_0000_0000, 0x30_0001_0000_0000);
    Fold(s, 19, 0x1_0000_0000, 0x40_0001_0000_0000);
    Fold(s, 18, 0x1_0000_0000, 0x50_0001_0000_0000);
  }

  /** Rounding carries out of limbs 6, 8, ..., 16 and then 7, 9, ..., 15. */
  method CarryMiddle(s: array<int>)
    requires s.Length == 24 && Bounded(s, 0, 6, 0x1_0000_0000) && Bounded(s, 6, 18, 0x80_0000_0000_0000)
    requires Bounded(s, 17, 18, 0x1_0000_0000) && Bounded(s, 18, 24, 0)
    modifies s
    ensures Bounded(s, 0, 18, 0x8_0000_0000) && Bounded(s, 18, 24, 0)
    ensures Val(s[..], 24) == old(Val(s[..], 24))
  {
    RoundCarry(s, 6, 0x80_0000_0000_0000, 0x80_0000_0000_0000);
    RoundCarry(s, 8, 0x80_0000_0000_0000, 0x80_0000_0000_0000);
    RoundCarry(s, 10, 0x80_0000_0000_0000, 0x80_0000_0000_0000);
    RoundCarry(s, 12, 0x80_0000_0000_0000, 0x80_0000_0000_0000);
    RoundCarry(s, 14, 0x80_0000_0000_0000, 0x80_0000_0000_0000);
    RoundCarry(s, 16, 0x80_0000_0000_0000, 0x1_0000_0000);
    RoundCarry(s, 7, 0x80_0004_0000_0001, 0x10_0000);
    RoundCarry(s, 9, 0x80_0004_0000_0001, 0x10_0000);
    RoundCarry(s, 11, 0x80_0004_0000_0001, 0x10_0000);
    RoundCarry(s, 13, 0x80_0004_0000_0001, 0x10_0000);
    RoundCarry(s, 15, 0x80_0004_0000_0001, 0x10_0000);
  }

  /** Limbs 17 down to 12. */
  method FoldLow(s: array<int>)
    requires s.Length == 24 && Bounded(s, 0, 18, 0x8_0000_0000) && Bounded(s, 18, 24, 0)
    modifies s
    ensures Bounded(s, 0, 12, 0x400_0000_0000_0000) && Bounded(s, 12, 24, 0)
    ensures Val(s[..], 24) % L == old(Val(s[..], 24)) % L
  {
    Fold(s, 17, 0x8_0000_0000, 0x8_0000_0000);
    Fold(s, 16, 0x8_0000_0000, 0x80_0008_0000_0000);
    Fold(s, 15, 0x8_0000_0000, 0x100_0008_0000_0000);
    Fold(s, 14, 0x8_0000_0000, 0x180_0008_0000_0000);
    Fold(s, 13, 0x8_0000_0000, 0x200_0008_0000_0000);
    Fold(s, 12, 0x8_0000_0000, 0x280_0008_0000_0000);
  }

  /** The even half of the carries out of limbs 0 to 11. */
  method CarryEven(s: array<int>)
    requires s.Length == 24 && Bounded(s, 0, 12, 0x400_0000_0000_0000)
    modifies s
    ensures -0x10_0000 <= s[0] <= 0x10_0000 && -0x10_0000 <= s[2] <= 0x10_0000
    ensures -0x10_0000 <= s[4] <= 0x10_0000 && -0x10_0000 <= s[6] <= 0x10_0000
    ensures -0x10_0000 <= s[8] <= 0x10_0000 && -0x10_0000 <= s[10] <= 0x10_0000
    ensures Bounded(s, 0, 12, 0x400_0020_0000_0001)
    ensures forall j :: 12 <= j < 24 ==> s[j] == old(s[j])
    ensures Val(s[..], 24) == old(Val(s[..], 24))
  {
    RoundCarry(s, 0, 0x400_0000_0000_0000, 0x400_0000_0000_0000);
    RoundCarry(s, 2, 0x400_0000_0000_0000, 0x400_0000_0000_0000);
    RoundCarry(s, 4, 0x400_0000_0000_0000, 0x400_0000_0000_0000);
    RoundCarry(s, 6, 0x400_0000_0000_0000, 0x400_0000_0000_0000);
    RoundCarry(s, 8, 0x400_0000_0000_0000, 0x400_0000_0000_0000);
    RoundCarry(s, 10, 0x400_0000_0000_0000, 0x400_0000_0000_0000);
  }

  /** Rounding carries out of limbs 0, 2, ..., 10 and then 1, 3, ..., 11. */
  method CarryLow(s: array<int>)
    requires s.Length == 24 && Bounded(s, 0, 12, 0x400_0000_0000_0000) && Bounded(s, 12, 24, 0)
    modifies s
    ensures Bounded(s, 0, 13, 0x40_0000_0000) && Bounded(s, 11, 12, 0x10_0000) && Bounded(s, 13, 24, 0)
    ensures Val(s[..], 24) == old(Val(s[..], 24))
  {
    CarryEven(s);
    RoundCarry(s, 1, 0x400_0020_0000_0001, 0x10_0000);
    RoundCarry(s, 3, 0x400_0020_0000_0001, 0x10_0000);
    RoundCarry(s, 5, 0x400_0020_0000_0001, 0x10_0000);
    RoundCarry(s, 7, 0x400_0020_0000_0001, 0x10_0000);
    RoundCarry(s, 9, 0x400_0020_0000_0001, 0x10_0000);
    RoundCarry(s, 11, 0x400_0020_0000_0001, 0x0);
  }

  // ----- full reduction

  lemma {:induction false} ValBound(s: seq<int>, m: nat, n: nat, b: int)
    requires 0 <= b && m <= n <= |s| && forall j :: m <= j < n ==> -b <= s[j] <= b
    ensures -Shift(b, n) <= 2097151 * (Val(s, n) - Val(s, m)) <= Shift(b, n)
  {
    if m < n {
      ValBound(s, m, n - 1, b);
      ShiftOrder(s[n - 1], b, n - 1);
      ShiftOrder(-b, s[n - 1], n - 1);
      ShiftTimes(b, -1, n - 1);
    } else {
      ShiftOrder(0, b, n);
      ShiftTimes(0, 0, n);
    }
  }

  lemma {:induction false} ShiftOrder(a: int, b: int, i: nat)
    requires a <= b
    ensures Shift(a, i) <= Shift(b, i)
  {
    if i > 0 {
      ShiftOrder(a, b, i - 1);
    }
  }

  /** Every limb below n is a digit of radix 2^21. */
  ghost predicate Digits(s: seq<int>, n: nat)
    requires n <= |s|
  {
    forall j :: 0 <= j < n ==> 0 <= s[j] < 2097152
  }

  lemma {:induction false} DigitsBound(s: seq<int>, n: nat)
    requires n <= |s| && Digits(s, n)
    ensures 0 <= Val(s, n) < Shift(1, n)
  {
    if n > 0 {
      DigitsBound(s, n - 1);
      ShiftOrder(0, s[n - 1], n - 1);
      ShiftOrder(s[n - 1], 2097151, n - 1);
      ShiftTimes(0, 0, n - 1);
      ShiftTimes(1, 2097151, n - 1);
    }
  }

  lemma {:induction false} ValZeros(s: seq<int>, m: nat, n: nat)
    requires m <= n <= |s| && forall j :: m <= j < n ==> s[j] == 0
    ensures Val(s, n) == Val(s, m)
  {
    if m < n {
      ValZeros(s, m, n - 1);
      ShiftTimes(0, 0, n - 1);
    }
  }

  lemma {:induction false} Shift12(t: int)
    ensures Shift(t, 12) == t * 0x1000000000000000000000000000000000000000000000000000000000000000
  {
    ShiftTimes(1, t, 12);
    ShiftUp(1, 6, 6);
    assert Shift(1, 6) == 0x40000000000000000000000000000000;
  }

  /** After the last rounding pass and fold the value is below 2^252 in absolute value. */
  lemma {:induction false} BelowTop(s: seq<int>)
    requires |s| == 24
    requires forall j :: 0 <= j < 6 ==> -0x800_0000_0000_0000 <= s[j] <= 0x800_0000_0000_0000
    requires forall j :: 6 <= j < 11 ==> -0x40_0000_0000 <= s[j] <= 0x40_0000_0000
    requires -0x10_0000 <= s[11] <= 0x10_0000
    requires forall j :: 12 <= j < 24 ==> s[j] == 0
    ensures -Shift(1, 12) < Val(s, 24) < Shift(1, 12)
  {
    ValBound(s, 0, 6, 0x800_0000_0000_0000);
    ValBound(s, 6, 11, 0x40_0000_0000);
    ValBound(s, 11, 12, 0x10_0000);
    ValZeros(s, 12, 24);
    ShiftTimes(1, 0x800_0000_0000_0000, 6);
    ShiftTimes(1, 0x40_0000_0000, 11);
    ShiftOrder(s[11], 0x10_0000, 11);
    ShiftOrder(-0x10_0000, s[11], 11);
    ShiftTimes(1, 0x10_0000, 11);
    ShiftTimes(1, -0x10_0000, 11);
  }

  method FoldTop(s: array<int>)
    requires s.Length == 24 && Bounded(s, 0, 13, 0x40_0000_0000)
    requires Bounded(s, 11, 12, 0x10_0000) && Bounded(s, 13, 24, 0)
    modifies s
    ensures Bounded(s, 0, 12, 0x800_0000_0000_0000) && Bounded(s, 12, 24, 0)
    ensures -Shift(1, 12) < Val(s[..], 24) < Shift(1, 12)
    ensures Val(s[..], 24) % L == old(Val(s[..], 24)) % L
  {
    Fold(s, 12, 0x40_0000_0000, 0x40_0000_0000);
    BelowTop(s[..]);
  }

  method FloorCarry(s: array<int>, i: nat)
    requires i + 1 < s.Length && Bounded(s, i, i + 1, 0x800_0080_0000_0000)
    requires Bounded(s, i + 1, i + 2, 0x800_0000_0000_0000) && Digits(s[..], i)
    modifies s
    ensures Digits(s[..], i + 1) && Bounded(s, i + 1, i + 2, 0x800_0080_0000_0000)
    ensures forall j :: 0 <= j < s.Length && j != i && j != i + 1 ==> s[j] == old(s[j])
    ensures Val(s[..], s.Length) == old(Val(s[..], s.Length))
  {
    Carry(s, i, 0);
  }

  /** Floor carries out of limbs 0 to 5. */
  method FloorCarriesLow(s: array<int>)
    requires s.Length == 24 && Bounded(s, 0, 12, 0x800_0000_0000_0000)
    modifies s
    ensures Digits(s[..], 6) && Bounded(s, 6, 7, 0x800_0080_0000_0000)
    ensures forall j :: 7 <= j < 24 ==> s[j] == old(s[j])
    ensures Val(s[..], 24) == old(Val(s[..], 24))
  {
    FloorCarry(s, 0);
    FloorCarry(s, 1);
    FloorCarry(s, 2);
    FloorCarry(s, 3);
    FloorCarry(s, 4);
    FloorCarry(s, 5);
  }

  /** Floor carries out of limbs 0 to 10. */
  method FloorCarries(s: array<int>)
    requires s.Length == 24 && Bounded(s, 0, 12, 0x800_0000_0000_0000)
    modifies s
    ensures Digits(s[..], 11) && Bounded(s, 11, 12, 0x800_0080_0000_0000)
    ensures forall j :: 12 <= j < 24 ==> s[j] == old(s[j])
    ensures Val(s[..], 24) == old(Val(s[..], 24))
  {
    FloorCarriesLow(s);
    FloorCarry(s, 6);
    FloorCarry(s, 7);
    FloorCarry(s, 8);
    FloorCarry(s, 9);
    FloorCarry(s, 10);
  }

  lemma {:induction false} TopCarry(s: seq<int>)
    requires |s| == 24 && Digits(s, 12) && forall j :: 13 <= j < 24 ==> s[j] == 0
    requires -Shift(1, 12) < Val(s, 24) < Shift(1, 12)
    ensures s[12] == 0 || s[12] == -1
  {
    ValZeros(s, 13, 24);
    DigitsBound(s, 12);
    Shift12(s[12]);
    Shift12(1);
  }

  /** Floor carries out of limbs 0 to 11: the carry out of the top is 0 or -1. */
  method FloorPass(s: array<int>)
    requires s.Length == 24 && Bounded(s, 0, 12, 0x800_0000_0000_0000) && Bounded(s, 12, 24, 0)
    requires -Shift(1, 12) < Val(s[..], 24) < Shift(1, 12)
    modifies s
    ensures Digits(s[..], 12) && (s[12] == 0 || s[12] == -1) && Bounded(s, 13, 24, 0)
    ensures Val(s[..], 24) == old(Val(s[..], 24))
  {
    FloorCarries(s);
    Carry(s, 11, 0);
    TopCarry(s[..]);
  }

  lemma {:induction false} TopDigit(s: seq<int>)
    requires |s| >= 12 && Digits(s, 11) && 0 <= Val(s, 12) < L
    ensures 0 <= s[11] <= 2097152
  {
    DigitsBound(s, 11);
    ShiftTimes(1, s[11], 11);
    assert Shift(1, 11) == 0x8000000000000000000000000000000000000000000000000000000000 by {
      ShiftUp(1, 5, 6);
      assert Shift(1, 5) == 0x200000000000000000000000000;
    }
  }

  /** One fold of a carry of 0 or -1 lands in [0, L). */
  lemma {:induction false} FinalFold(s: seq<int>, v: int)
    requires |s| == 24 && Digits(s, 12) && (s[12] == 0 || s[12] == -1)
    requires forall j :: 13 <= j < 24 ==> s[j] == 0
    requires v == Val(s, 24) - Shift(s[12], 0) * L
    ensures 0 <= v < L && v == Val(s, 24) % L
  {
    ValZeros(s, 13, 24);
    DigitsBound(s, 12);
    Shift12(s[12]);
    Shift12(1);
    ModUnique(Val(s, 24), s[12], v, L);
  }

  /** The last fold and the floor carries out of limbs 0 to 10 land in [0, L). */
  method FinalPass(s: array<int>)
    requires s.Length == 24
    requires Digits(s[..], 12) && (s[12] == 0 || s[12] == -1) && Bounded(s, 13, 24, 0)
    modifies s
    ensures Digits(s[..], 11) && 0 <= s[11] <= 2097152
    ensures Val(s[..], 12) == old(Val(s[..], 24)) % L
  {
    ghost var s0 := s[..];
    Fold(s, 12, 1, 0x20_0000);
    FinalFold(s0, Val(s[..], 24));
    FloorCarries(s);
    ValZeros(s[..], 12, 24);
    TopDigit(s[..]);
  }

  /** The tail shared by ScReduce and ScMulAdd: any bounded limbs to the digits of their value mod L. */
  method Reduce(s: array<int>)
    requires s.Length == 24 && Bounded(s, 0, 24, 0x1_0000_0000)
    modifies s
    ensures Digits(s[..], 11) && 0 <= s[11] <= 2097152
    ensures Val(s[..], 12) == old(Val(s[..], 24)) % L
  {
    FoldHigh(s);
    CarryMiddle(s);
    FoldLow(s);
    CarryLow(s);
    FoldTop(s);
    FloorPass(s);
    FinalPass(s);
  }
}

/**
 Field arithmetic modulo p = 2^255 - 19 on ten signed limbs of radix 2^25.5
 (signer/edwards25519/edwards25519.go). Limb k has weight 2^ceil(25.5 k); limbs are mathematical
 integers and every step proves the int32 and int64 ranges the source relies on.
 */
module FieldLimbs {
  import opened Bytes
  import opened Residues

  /** 2^255 - 19 */
  const P: nat := 57896044618658097711785492504343953926634992332820282019728792003956564819949

  ghost predicate Int32(x: int) {
    -0x8000_0000 <= x < 0x8000_0000
  }

  ghost predicate Int64(x: int) {
    -0x8000_0000_0000_0000 <= x < 0x8000_0000_0000_0000
  }

  /** 2^ceil(25.5 i) */
  function Weight(i: nat): int
    requires i < 10
  {
    if i == 0 then 1
    else if i == 1 then 0x4000000
    else if i == 2 then 0x8000000000000
    else if i == 3 then 0x20000000000000000000
    else if i == 4 then 0x40000000000000000000000000
    else if i == 5 then 0x100000000000000000000000000000000
    else if i == 6 then 0x200000000000000000000000000000000000000
    else if i == 7 then 0x800000000000000000000000000000000000000000000
    else if i == 8 then 0x1000000000000000000000000000000000000000000000000000
    else 0x4000000000000000000000000000000000000000000000000000000000
  }

  function Sum(h: seq<int>, n: nat): int
    requires n <= 10 && n <= |h|
  {
    if n == 0 then 0 else Sum(h, n - 1) + Weight(n - 1) * h[n - 1]
  }

  /** The integer a field element stands for. */
  function FVal(h: seq<int>): int
    requires |h| == 10
  {
    Sum(h, 10)
  }

  lemma {:induction false} FValIs(h: seq<int>)
    requires |h| == 10
    ensures FVal(h) == h[0] + 0x4000000 * h[1] + 0x8000000000000 * h[2] + 0x20000000000000000000 * h[3] +
         0x40000000000000000000000000 * h[4] + 0x100000000000000000000000000000000 * h[5] +
         0x200000000000000000000000000000000000000 * h[6] + 0x800000000000000000000000000000000000000000000 *
         h[7] + 0x1000000000000000000000000000000000000000000000000000 * h[8] +
         0x4000000000000000000000000000000000000000000000000000000000 * h[9]
  {
    assert Sum(h, 1) == h[0] && Sum(h, 2) == Sum(h, 1) + Weight(1) * h[1];
    assert Sum(h, 4) == Sum(h, 2) + Weight(2) * h[2] + Weight(3) * h[3];
    assert Sum(h, 6) == Sum(h, 4) + Weight(4) * h[4] + Weight(5) * h[5];
    assert Sum(h, 8) == Sum(h, 6) + Weight(6) * h[6] + Weight(7) * h[7];
    assert Sum(h, 10) == Sum(h, 8) + Weight(8) * h[8] + Weight(9) * h[9];
  }

  /** The radix between limb i and limb i + 1. */
  function Radix(i: nat): int {
    if i % 2 == 0 then 67108864 else 33554432
  }

  // ----- carries

  function Move(h: seq<int>, i: nat, c: int): (r: seq<int>)
    requires |h| == 10 && i < 9
    ensures |r| == 10
  {
    h[i + 1 := h[i + 1] + c][i := h[i] - c * Radix(i)]
  }

  lemma {:induction false} MoveValue(h: seq<int>, i: nat, c: int)
    requires |h| == 10 && i < 9
    ensures FVal(Move(h, i, c)) == FVal(h)
  {
    FValIs(h);
    FValIs(Move(h, i, c));
    if i < 3 {
      if i == 0 {} else if i == 1 {} else {}
    } else if i < 6 {
      if i == 3 {} else if i == 4 {} else {}
    } else {
      if i == 6 {} else if i == 7 {} else {}
    }
  }

  /** The rounding carry out of limb i. */
  method Carry(h: array<int>, i: nat, ghost here: int, ghost next: int)
    requires h.Length == 10 && i < 9
    requires 0 <= here <= 0x1800_0000_0000_0000 && 0 <= next <= 0x1800_0000_0000_0000
    requires -here <= h[i] <= here && -next <= h[i + 1] <= next
    modifies h
    ensures -Radix(i) / 2 <= h[i] <= Radix(i) / 2
    ensures -(next + here / Radix(i) + 1) <= h[i + 1] <= next + here / Radix(i) + 1
    ensures forall j :: 0 <= j < 10 && j != i && j != i + 1 ==> h[j] == old(h[j])
    ensures FVal(h[..]) == old(FVal(h[..]))
  {
    ghost var h0 := h[..];
    assert Int64(h[i] + Radix(i) / 2);
    var c := (h[i] + Radix(i) / 2) / Radix(i);
    assert Int64(h[i + 1] + c) && Int64(c * Radix(i));
    h[i + 1] := h[i + 1] + c;
    h[i] := h[i] - c * Radix(i);
    assert h[..] == Move(h0, i, c);
    MoveValue(h0, i, c);
  }

  lemma {:induction false} WrapValue(h: seq<int>, c: int)
    requires |h| == 10
    ensures FVal(h[0 := h[0] + c * 19][9 := h[9] - c * 33554432]) == FVal(h) + (-c) * P
  {
    FValIs(h);
    FValIs(h[0 := h[0] + c * 19][9 := h[9] - c * 33554432]);
  }

  /** The carry out of the top limb re-enters at the bottom times 19, since 2^255 is 19 mod p. */
  method CarryAround(h: array<int>, ghost top: int, ghost bottom: int)
    requires h.Length == 10
    requires 0 <= top <= 0x1800_0000_0000_0000 && 0 <= bottom <= 0x1800_0000_0000_0000
    requires -top <= h[9] <= top && -bottom <= h[0] <= bottom
    modifies h
    ensures -16777216 <= h[9] <= 16777216
    ensures -(bottom + 19 * (top / 33554432 + 1)) <= h[0] <= bottom + 19 * (top / 33554432 + 1)
    ensures forall j :: 1 <= j < 9 ==> h[j] == old(h[j])
    ensures FVal(h[..]) % P == old(FVal(h[..])) % P
  {
    ghost var h0 := h[..];
    assert Int64(h[9] + 16777216);
    var c := (h[9] + 16777216) / 33554432;
    assert Int64(c * 19) && Int64(h[0] + c * 19) && Int64(c * 33554432);
    h[0] := h[0] + c * 19;
    h[9] := h[9] - c * 33554432;
    assert h[..] == h0[0 := h0[0] + c * 19][9 := h0[9] - c * 33554432];
    WrapValue(h0, c);
    ShiftByMultiple(FVal(h0) + -c * P, FVal(h0), -c, P);
  }

  // ----- FeCombine

  /** What FeCombine, FeMul and FeSquare return: even limbs within 2^25, odd limbs within 1.01 * 2^24. */
  ghost predicate Carried(h: seq<int>) {
    |h| == 10 && forall j :: 0 <= j < 10 ==>
      if j % 2 == 0 then -33554432 <= h[j] <= 33554432 else -16944988 <= h[j] <= 16944988
  }

  ghost predicate BoundedBy(h: seq<int>, b: seq<int>) {
    |h| == |b| == 10 && forall j :: 0 <= j < 10 ==> -b[j] <= h[j] <= b[j]
  }

  /** Carries out of limbs 0, 4, 1 and 5. */
  method CombineFirst(t: array<int>)
    requires t.Length == 10 && BoundedBy(t[..], [0x1000_0000_0000_0000, 0x1000_0000_0000_0000, 0x1000_0000_0000_0000, 0x1000_0000_0000_0000, 0x1000_0000_0000_0000, 0x1000_0000_0000_0000, 0x1000_0000_0000_0000, 0x1000_0000_0000_0000, 0x1000_0000_0000_0000, 0x1000_0000_0000_0000])
    modifies t
    ensures BoundedBy(t[..], [0x200_0000, 0x100_0000, 0x1000_0008_0000_0201, 0x1000_0000_0000_0000, 0x200_0000, 0x100_0000, 0x1000_0008_0000_0201, 0x1000_0000_0000_0000, 0x1000_0000_0000_0000, 0x1000_0000_0000_0000])
    ensures FVal(t[..]) % P == old(FVal(t[..])) % P
  {
    Carry(t, 0, 0x1000_0000_0000_0000, 0x1000_0000_0000_0000);
    Carry(t, 4, 0x1000_0000_0000_0000, 0x1000_0000_0000_0000);
    Carry(t, 1, 0x1000_0004_0000_0001, 0x1000_0000_0000_0000);
    Carry(t, 5, 0x1000_0004_0000_0001, 0x1000_0000_0000_0000);
  }

  /** Carries out of limbs 2, 6, 3 and 7. */
  method CombineSecond(t: array<int>)
    requires t.Length == 10 && BoundedBy(t[..], [0x200_0000, 0x100_0000, 0x1000_0008_0000_0201, 0x1000_0000_0000_0000, 0x200_0000, 0x100_0000, 0x1000_0008_0000_0201, 0x1000_0000_0000_0000, 0x1000_0000_0000_0000, 0x1000_0000_0000_0000])
    modifies t
    ensures BoundedBy(t[..], [0x200_0000, 0x100_0000, 0x200_0000, 0x100_0000, 0x8_0200_0201, 0x100_0000, 0x200_0000, 0x100_0000, 0x1000_0008_0000_0201, 0x1000_0000_0000_0000])
    ensures FVal(t[..]) % P == old(FVal(t[..])) % P
  {
    Carry(t, 2, 0x1000_0008_0000_0201, 0x1000_0000_0000_0000);
    Carry(t, 6, 0x1000_0008_0000_0201, 0x1000_0000_0000_0000);
    Carry(t, 3, 0x1000_0004_0000_0201, 0x200_0000);
    Carry(t, 7, 0x1000_0004_0000_0201, 0x1000_0000_0000_0000);
  }

  /** Carries out of limbs 4, 8, 9 and 0. */
  method CombineLast(t: array<int>)
    requires t.Length == 10 && BoundedBy(t[..], [0x200_0000, 0x100_0000, 0x200_0000, 0x100_0000, 0x8_0200_0201, 0x100_0000, 0x200_0000, 0x100_0000, 0x1000_0008_0000_0201, 0x1000_0000_0000_0000])
    modifies t
    ensures BoundedBy(t[..], [0x200_0000, 0x100_2601, 0x200_0000, 0x100_0000, 0x200_0000, 0x100_0201, 0x200_0000, 0x100_0000, 0x200_0000, 0x100_0000])
    ensures FVal(t[..]) % P == old(FVal(t[..])) % P
  {
    Carry(t, 4, 0x8_0200_0201, 0x100_0000);
    Carry(t, 8, 0x1000_0008_0000_0201, 0x1000_0000_0000_0000);
    CarryAround(t, 0x1000_0004_0000_0201, 0x200_0000);
    Carry(t, 0, 0x98_0200_2613, 0x100_0000);
  }

  /** Carries ten int64 limbs back to int32 limbs of the same field element. */
  method FeCombine(limbs: seq<int>) returns (h: seq<int>)
    requires |limbs| == 10
    requires forall j :: 0 <= j < 10 ==> -0x1000_0000_0000_0000 <= limbs[j] <= 0x1000_0000_0000_0000
    ensures Carried(h) && forall j :: 0 <= j < 10 ==> Int32(h[j])
    ensures FVal(h) % P == FVal(limbs) % P
  {
    var t := new int[10](i requires 0 <= i < 10 => limbs[i]);
    assert t[..] == limbs;
    CombineFirst(t);
    CombineSecond(t);
    CombineLast(t);
    h := t[..];
  }

  // ----- FeMul

  /** The factor of f[i] * g[j]: 2 when both limbs are odd, 19 when the product wraps past 2^255. */
  function Factor(i: nat, j: nat): int {
    (if i % 2 == 1 && j % 2 == 1 then 2 else 1) * (if i + j >= 10 then 19 else 1)
  }

  /** The limb of g that meets limb i of f in column k. */
  function Partner(i: nat, k: nat): nat
    requires i < 10 && k < 10
  {
    if i <= k then k - i else k + 10 - i
  }

  /** Rows 0 to r - 1 of column k. */
  function Column(f: seq<int>, g: seq<int>, k: nat, r: nat): int
    requires |f| == |g| == 10 && k < 10 && r <= 10
  {
    if r == 0 then 0
    else
      var i, j := r - 1, Partner(r - 1, k);
      Column(f, g, k, r - 1) + Factor(i, j) * (f[i] * g[j])
  }

  function Columns(f: seq<int>, g: seq<int>, r: nat): (c: seq<int>)
    requires |f| == |g| == 10 && r <= 10
    ensures |c| == 10
  {
    seq(10, k requires 0 <= k < 10 => Column(f, g, k, r))
  }

  function RowOf(i: nat, x: seq<int>): (c: seq<int>)
    requires i < 10 && |x| == 10
    ensures |c| == 10
  {
    seq(10, k requires 0 <= k < 10 => Factor(i, Partner(i, k)) * x[Partner(i, k)])
  }

  lemma {:induction false} Row0(x: seq<int>) returns (q: int)
    requires |x| == 10
    ensures FVal(RowOf(0, x)) == Weight(0) * FVal(x) - q * P
  {
    FValIs(x);
    FValIs(RowOf(0, x));
    q := 0;
  }

  lemma {:induction false} Row1(x: seq<int>) returns (q: int)
    requires |x| == 10
    ensures FVal(RowOf(1, x)) == Weight(1) * FVal(x) - q * P
  {
    FValIs(x);
    FValIs(RowOf(1, x));
    q := 0x2 * x[9];
  }

  lemma {:induction false} Row2(x: seq<int>) returns (q: int)
    requires |x| == 10
    ensures FVal(RowOf(2, x)) == Weight(2) * FVal(x) - q * P
  {
    FValIs(x);
    FValIs(RowOf(2, x));
    q := 0x1 * x[8] + 0x4000000 * x[9];
  }

  lemma {:induction false} Row3(x: seq<int>) returns (q: int)
    requires |x| == 10
    ensures FVal(RowOf(3, x)) == Weight(3) * FVal(x) - q * P
  {
    FValIs(x);
    FValIs(RowOf(3, x));
    q := 0x2 * x[7] + 0x4000000 * x[8] + 0x10000000000000 * x[9];
  }

  lemma {:induction false} Row4(x: seq<int>) returns (q: int)
    requires |x| == 10
    ensures FVal(RowOf(4, x)) == Weight(4) * FVal(x) - q * P
  {
    FValIs(x);
    FValIs(RowOf(4, x));
    q := 0x1 * x[6] + 0x4000000 * x[7] + 0x8000000000000 * x[8] + 0x20000000000000000000 * x[9];
  }

  lemma {:induction false} Row5(x: seq<int>) returns (q: int)
    requires |x| == 10
    ensures FVal(RowOf(5, x)) == Weight(5) * FVal(x) - q * P
  {
    FValIs(x);
    FValIs(RowOf(5, x));
    q := 0x2 * x[5] + 0x4000000 * x[6] + 0x10000000000000 * x[7] + 0x20000000000000000000 * x[8] + 0x80000000000000000000000000 * x[9];
  }

  lemma {:induction false} Row6(x: seq<int>) returns (q: int)
    requires |x| == 10
    ensures FVal(RowOf(6, x)) == Weight(6) * FVal(x) - q * P
  {
    FValIs(x);
    FValIs(RowOf(6, x));
    q := 0x1 * x[4] + 0x4000000 * x[5] + 0x8000000000000 * x[6] + 0x20000000000000000000 * x[7] + 0x40000000000000000000000000 * x[8] + 0x100000000000000000000000000000000 * x[9];
  }

  lemma {:induction false} Row7(x: seq<int>) returns (q: int)
    requires |x| == 10
    ensures FVal(RowOf(7, x)) == Weight(7) * FVal(x) - q * P
  {
    FValIs(x);
    FValIs(RowOf(7, x));
    q := 0x2 * x[3] + 0x4000000 * x[4] + 0x10000000000000 * x[5] + 0x20000000000000000000 * x[6] + 0x80000000000000000000000000 * x[7] + 0x100000000000000000000000000000000 * x[8] + 0x400000000000000000000000000000000000000 * x[9];
  }

  lemma {:induction false} Row8(x: seq<int>) returns (q: int)
    requires |x| == 10
    ensures FVal(RowOf(8, x)) == Weight(8) * FVal(x) - q * P
  {
    FValIs(x);
    FValIs(RowOf(8, x));
    q := 0x1 * x[2] + 0x4000000 * x[3] + 0x8000000000000 * x[4] + 0x20000000000000000000 * x[5] + 0x40000000000000000000000000 * x[6] + 0x100000000000000000000000000000000 * x[7] + 0x200000000000000000000000000000000000000 * x[8] + 0x800000000000000000000000000000000000000000000 * x[9];
  }

  lemma {:induction false} Row9(x: seq<int>) returns (q: int)
    requires |x| == 10
    ensures FVal(RowOf(9, x)) == Weight(9) * FVal(x) - q * P
  {
    FValIs(x);
    FValIs(RowOf(9, x));
    q := 0x2 * x[1] + 0x4000000 * x[2] + 0x10000000000000 * x[3] + 0x20000000000000000000 * x[4] + 0x80000000000000000000000000 * x[5] + 0x100000000000000000000000000000000 * x[6] + 0x400000000000000000000000000000000000000 * x[7] + 0x800000000000000000000000000000000000000000000 * x[8] + 0x2000000000000000000000000000000000000000000000000000 * x[9];
  }

  /** Row i contributes f[i] times the weight of limb i times g, modulo p. */
  lemma {:induction false} RowValue(i: nat, x: seq<int>) returns (q: int)
    requires i < 10 && |x| == 10
    ensures FVal(RowOf(i, x)) == Weight(i) * FVal(x) - q * P
  {
    if i < 5 {
      if i == 0 { q := Row0(x); } else if i == 1 { q := Row1(x); } else if i == 2 { q := Row2(x); }
      else if i == 3 { q := Row3(x); } else { q := Row4(x); }
    } else {
      if i == 5 { q := Row5(x); } else if i == 6 { q := Row6(x); } else if i == 7 { q := Row7(x); }
      else if i == 8 { q := Row8(x); } else { q := Row9(x); }
    }
  }

  lemma {:induction false} SumOfSums(c: seq<int>, d: seq<int>, e: seq<int>, n: nat)
    requires n <= 10 == |c| == |d| == |e|
    requires forall k :: 0 <= k < n ==> e[k] == c[k] + d[k]
    ensures Sum(e, n) == Sum(c, n) + Sum(d, n)
  {
    if n > 0 {
      SumOfSums(c, d, e, n - 1);
      assert Weight(n - 1) * (c[n - 1] + d[n - 1]) == Weight(n - 1) * c[n - 1] + Weight(n - 1) * d[n - 1];
    }
  }

  lemma {:induction false} ScaledSum(a: int, g: seq<int>, x: seq<int>, n: nat)
    requires n <= 10 == |g| == |x|
    requires forall k :: 0 <= k < n ==> x[k] == a * g[k]
    ensures Sum(x, n) == a * Sum(g, n)
  {
    if n > 0 {
      ScaledSum(a, g, x, n - 1);
      var w, y, z := Weight(n - 1), g[n - 1], Sum(g, n - 1);
      assert w * (a * y) == a * (w * y) && a * (z + w * y) == a * z + a * (w * y);
    }
  }

  lemma {:induction false} Regroup(u: int, w: int, a: int, v: int, q: int, q': int)
    ensures (u * v - q * P) + (w * (a * v) - q' * P) == (u + w * a) * v - (q + q') * P
  {
    assert w * (a * v) == (w * a) * v;
    assert (u + w * a) * v == u * v + (w * a) * v;
    assert (q + q') * P == q * P + q' * P;
  }

  /** The columns of the first r rows are the first r limbs of f times g, up to a multiple of p. */
  lemma {:induction false} ColumnsValue(f: seq<int>, g: seq<int>, r: nat) returns (q: int)
    requires |f| == |g| == 10 && r <= 10
    ensures FVal(Columns(f, g, r)) == Sum(f, r) * FVal(g) - q * P
  {
    var zero := seq(10, _ => 0);
    if r == 0 {
      ScaledSum(0, g, Columns(f, g, 0), 10);
      q := 0;
    } else {
      var i := r - 1;
      var x := seq(10, j requires 0 <= j < 10 => f[i] * g[j]);
      var q0 := ColumnsValue(f, g, i);
      var q1 := RowValue(i, x);
      SumOfSums(Columns(f, g, i), RowOf(i, x), Columns(f, g, r), 10);
      ScaledSum(f[i], g, x, 10);
      Regroup(Sum(f, i), Weight(i), f[i], FVal(g), q0, q1);
      q := q0 + q1;
    }
  }

  /** The input bound of FeMul: 1.1 * 2^26, 1.1 * 2^25, and so on. */
  ghost predicate MulInput(f: seq<int>) {
    |f| == 10 && forall j :: 0 <= j < 10 ==>
      if j % 2 == 0 then -73819750 <= f[j] <= 73819750 else -36909875 <= f[j] <= 36909875
  }

  lemma {:induction false} ProductWithin(x: int, y: int, m: int, n: int)
    requires -m <= x <= m && -n <= y <= n
    ensures -(m * n) <= x * y <= m * n
  {
    assert (m - x) * (n + y) >= 0 && (m + x) * (n - y) >= 0;
    assert (m - x) * (n - y) >= 0 && (m + x) * (n + y) >= 0;
  }

  lemma {:induction false} ColumnBound(f: seq<int>, g: seq<int>, k: nat, r: nat)
    requires MulInput(f) && MulInput(g) && k < 10 && r <= 10
    ensures -(103537754311187500 * r) <= Column(f, g, k, r) <= 103537754311187500 * r
  {
    if r > 0 {
      var i, j := r - 1, Partner(r - 1, k);
      ColumnBound(f, g, k, i);
      if i % 2 == 1 && j % 2 == 1 {
        ProductWithin(f[i], g[j], 36909875, 36909875);
      } else {
        ProductWithin(f[i], g[j], 73819750, 73819750);
      }
    }
  }

  /** h = f * g in the field, for every input within the documented bounds. */
  method FeMul(f: seq<int>, g: seq<int>) returns (h: seq<int>)
    requires MulInput(f) && MulInput(g)
    ensures Carried(h) && forall j :: 0 <= j < 10 ==> Int32(h[j])
    ensures FVal(h) % P == (FVal(f) * FVal(g)) % P
  {
    // the 32-bit precomputations
    assert forall j :: 0 <= j < 10 && j % 2 == 1 ==> Int32(2 * f[j]);
    assert forall j :: 0 <= j < 10 ==> Int32(19 * g[j]);
    var c := Columns(f, g, 10);
    forall k | 0 <= k < 10
      ensures -0x1000_0000_0000_0000 <= c[k] <= 0x1000_0000_0000_0000
    {
      ColumnBound(f, g, k, 10);
    }
    h := FeCombine(c);
    ghost var q := ColumnsValue(f, g, 10);
    ShiftByMultiple(FVal(f) * FVal(g) + -q * P, FVal(f) * FVal(g), -q, P);
  }

  /** FeMul accepts what FeCombine returns, and sums or differences of two such elements. */
  lemma {:induction false} CarriedIsMulInput(f: seq<int>, g: seq<int>)
    requires Carried(f) && Carried(g)
    ensures MulInput(f)
    ensures MulInput(seq(10, j requires 0 <= j < 10 => f[j] + g[j]))
    ensures MulInput(seq(10, j requires 0 <= j < 10 => f[j] - g[j]))
  {
    var s := seq(10, j requires 0 <= j < 10 => f[j] + g[j]);
    var d := seq(10, j requires 0 <= j < 10 => f[j] - g[j]);
    assert forall j :: 0 <= j < 10 ==> s[j] == f[j] + g[j] && d[j] == f[j] - g[j];
  }
}

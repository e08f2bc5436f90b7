/**
 The integer Lagrange coefficients of signer/tsed25519/ed25519.go (calcOmega): the numerator
 and the sequential divisions are int64 operations, with wrap-around and truncation.
 */
module Omega {
  import opened GoInt

  // ---------------------------------------------------------------- specification

  function Factorial(n: nat): (r: nat)
    ensures r >= 1
  {
    if n == 0 then 1 else n * Factorial(n - 1)
  }

  /** Distinct identifiers in 1..n. */
  ghost predicate Players(ids: seq<int>, n: nat) {
    && (forall i :: 0 <= i < |ids| ==> 1 <= ids[i] <= n)
    && (forall i, j :: 0 <= i < j < |ids| ==> ids[i] != ids[j])
  }

  /** The product of the identifiers other than id among the first k. */
  function Others(id: int, ids: seq<int>, k: nat): int
    requires k <= |ids|
  {
    if k == 0 then 1
    else if ids[k - 1] == id then Others(id, ids, k - 1)
    else Others(id, ids, k - 1) * ids[k - 1]
  }

  /** The product of the differences from id among the first k identifiers. */
  function Differences(id: int, ids: seq<int>, k: nat): int
    requires k <= |ids|
  {
    if k == 0 then 1
    else if ids[k - 1] == id then Differences(id, ids, k - 1)
    else Differences(id, ids, k - 1) * (ids[k - 1] - id)
  }

  lemma {:induction false} DifferencesNonzero(id: int, ids: seq<int>, k: nat)
    requires k <= |ids|
    ensures Differences(id, ids, k) != 0
  {
    if k > 0 {
      DifferencesNonzero(id, ids, k - 1);
    }
  }

  lemma {:induction false} OthersPositive(id: int, ids: seq<int>, n: nat, k: nat)
    requires k <= |ids| && Players(ids, n)
    ensures Others(id, ids, k) >= 1
  {
    if k > 0 {
      OthersPositive(id, ids, n, k - 1);
    }
  }

  // ---------------------------------------------------------------- divisibility

  function Product(ds: seq<int>): int {
    if |ds| == 0 then 1 else Product(ds[..|ds| - 1]) * ds[|ds| - 1]
  }

  lemma {:induction false} SwapFactors(a: int, b: int, c: int)
    ensures (a * b) * c == (a * c) * b
  {
  }

  lemma {:induction false} ProductRemove(ds: seq<int>, i: nat)
    requires i < |ds|
    ensures Product(ds) == Product(ds[..i] + ds[i + 1..]) * ds[i]
  {
    var n := |ds| - 1;
    var rest := ds[..i] + ds[i + 1..];
    if i == n {
      assert rest == ds[..n];
    } else {
      var init := ds[..n];
      ProductRemove(init, i);
      var short := init[..i] + init[i + 1..];
      assert rest[..n - 1] == short && rest[n - 1] == ds[n] && init[i] == ds[i];
      SwapFactors(Product(short), ds[i], ds[n]);
    }
  }

  /** Distinct nonzero integers between -b and a. */
  ghost predicate Spread(ds: seq<int>, a: nat, b: nat) {
    && (forall i :: 0 <= i < |ds| ==> ds[i] != 0 && -(b as int) <= ds[i] <= a)
    && (forall i, j :: 0 <= i < j < |ds| ==> ds[i] != ds[j])
  }

  lemma {:induction false} SpreadRemove(ds: seq<int>, i: nat, a: nat, b: nat)
    requires i < |ds| && Spread(ds, a, b)
    ensures ds[i] == a && a > 0 ==> Spread(ds[..i] + ds[i + 1..], a - 1, b)
    ensures ds[i] == -(b as int) && b > 0 ==> Spread(ds[..i] + ds[i + 1..], a, b - 1)
  {
  }

  lemma {:induction false} TakeFactor(q: int, p: int, x: int, f: int, g: int)
    requires q * p == f * g
    ensures q * (p * x) == (x * f) * g
    ensures (x * q) * p == (x * f) * g
    ensures (-q) * (p * -x) == (x * f) * g
    ensures (x * q) * p == f * (x * g)
    ensures (-q) * (p * -x) == f * (x * g)
  {
    assert q * (p * x) == (q * p) * x;
    assert (x * q) * p == x * (q * p);
    assert (-q) * (p * -x) == (q * p) * x;
  }

  /** Any product of distinct nonzero integers between -b and a divides a! b!. */
  lemma {:induction false} SpreadDivides(ds: seq<int>, a: nat, b: nat) returns (q: int)
    requires Spread(ds, a, b)
    ensures q * Product(ds) == Factorial(a) * Factorial(b)
    decreases a + b
  {
    if a > 0 {
      if i :| 0 <= i < |ds| && ds[i] == a {
        SpreadRemove(ds, i, a, b);
        ProductRemove(ds, i);
        var rest := ds[..i] + ds[i + 1..];
        q := SpreadDivides(rest, a - 1, b);
        TakeFactor(q, Product(rest), a, Factorial(a - 1), Factorial(b));
      } else {
        q := SpreadDivides(ds, a - 1, b);
        TakeFactor(q, Product(ds), a, Factorial(a - 1), Factorial(b));
        q := a * q;
      }
    } else if b > 0 {
      if i :| 0 <= i < |ds| && ds[i] == -(b as int) {
        SpreadRemove(ds, i, a, b);
        ProductRemove(ds, i);
        var rest := ds[..i] + ds[i + 1..];
        q := SpreadDivides(rest, a, b - 1);
        TakeFactor(q, Product(rest), b, Factorial(a), Factorial(b - 1));
        q := -q;
      } else {
        q := SpreadDivides(ds, a, b - 1);
        TakeFactor(q, Product(ds), b, Factorial(a), Factorial(b - 1));
        q := b * q;
      }
    } else {
      q := 1;
    }
  }

  /** The number of ways to interleave a and b items. */
  function Choose(a: nat, b: nat): nat {
    if a == 0 || b == 0 then 1 else Choose(a - 1, b) + Choose(a, b - 1)
  }

  lemma {:induction false} PascalStep(x: int, y: int, a: int, b: int, fa: int, fb: int, f: int)
    requires x * (fa * (b * fb)) == f && y * ((a * fa) * fb) == f
    ensures (x + y) * ((a * fa) * (b * fb)) == (a + b) * f
  {
    assert x * ((a * fa) * (b * fb)) == a * (x * (fa * (b * fb)));
    assert y * ((a * fa) * (b * fb)) == b * (y * ((a * fa) * fb));
  }

  lemma {:induction false} ChooseFactorial(a: nat, b: nat)
    ensures Choose(a, b) * (Factorial(a) * Factorial(b)) == Factorial(a + b)
  {
    if a > 0 && b > 0 {
      ChooseFactorial(a - 1, b);
      ChooseFactorial(a, b - 1);
      PascalStep(Choose(a - 1, b), Choose(a, b - 1), a, b, Factorial(a - 1), Factorial(b - 1),
                 Factorial(a + b - 1));
    }
  }

  /** The differences from id among the first k identifiers, as a list. */
  function DifferenceList(id: int, ids: seq<int>, k: nat): seq<int>
    requires k <= |ids|
  {
    if k == 0 then []
    else if ids[k - 1] == id then DifferenceList(id, ids, k - 1)
    else DifferenceList(id, ids, k - 1) + [ids[k - 1] - id]
  }

  lemma {:induction false} DifferenceListProduct(id: int, ids: seq<int>, k: nat)
    requires k <= |ids|
    ensures Product(DifferenceList(id, ids, k)) == Differences(id, ids, k)
  {
    if k > 0 {
      DifferenceListProduct(id, ids, k - 1);
      var ds := DifferenceList(id, ids, k);
      if ids[k - 1] != id {
        assert ds[..|ds| - 1] == DifferenceList(id, ids, k - 1);
      }
    }
  }

  lemma {:induction false} DifferenceListSpread(id: int, ids: seq<int>, n: nat, a: nat, b: nat, k: nat)
    requires k <= |ids| && Players(ids, n)
    requires n - id <= a && 1 - id >= -(b as int)
    ensures Spread(DifferenceList(id, ids, k), a, b)
    ensures forall d :: d in DifferenceList(id, ids, k) ==> exists j :: 0 <= j < k && ids[j] - id == d
  {
    if k > 0 {
      DifferenceListSpread(id, ids, n, a, b, k - 1);
      var ds := DifferenceList(id, ids, k - 1);
      if ids[k - 1] != id {
        assert ids[k - 1] - id !in ds;
        forall d | d in DifferenceList(id, ids, k) ensures exists j :: 0 <= j < k && ids[j] - id == d {
          if d == ids[k - 1] - id {
            assert 0 <= k - 1 < k;
          }
        }
      }
    }
  }

  lemma {:induction false} Compose(c: int, q: int, d: int, f: int, g: int, n: int)
    requires q * d == f && c * f == g
    ensures (n * (c * q)) * d == n * g
  {
    assert (c * q) * d == c * (q * d);
    assert (n * (c * q)) * d == n * ((c * q) * d);
  }

  /** The differences from id among any first k identifiers divide n!. */
  lemma {:induction false} DifferencesDivide(id: int, ids: seq<int>, n: nat, k: nat) returns (q: int)
    requires k <= |ids| && Players(ids, n) && 1 <= id <= n
    ensures q * Differences(id, ids, k) == Factorial(n)
  {
    var ds := DifferenceList(id, ids, k);
    DifferenceListSpread(id, ids, n, n - id, id - 1, k);
    DifferenceListProduct(id, ids, k);
    q := SpreadDivides(ds, n - id, id - 1);
    ChooseFactorial(n - id, id - 1);
    Compose(Choose(n - id, id - 1), q, Product(ds), Factorial(n - id) * Factorial(id - 1), Factorial(n - 1), n);
    q := n * (Choose(n - id, id - 1) * q);
  }

  /** The coefficient itself: n! times the other identifiers, over the differences. */
  function Coefficient(id: int, ids: seq<int>, n: nat): int
  {
    DifferencesNonzero(id, ids, |ids|);
    Factorial(n) * Others(id, ids, |ids|) / Differences(id, ids, |ids|)
  }

  lemma {:induction false} ExactQuotient(q: int, o: int, d: int, f: int)
    requires d != 0 && q * d == f
    ensures (f * o) / d == q * o
    ensures (q * o) * d == f * o
  {
    SwapFactors(q, o, d);
    DivideMultiple(q * o, d);
  }

  lemma {:induction false} CoefficientExact(id: int, ids: seq<int>, n: nat)
    requires Players(ids, n) && 1 <= id <= n
    ensures Coefficient(id, ids, n) * Differences(id, ids, |ids|) == Factorial(n) * Others(id, ids, |ids|)
  {
    var q := DifferencesDivide(id, ids, n, |ids|);
    DifferencesNonzero(id, ids, |ids|);
    ExactQuotient(q, Others(id, ids, |ids|), Differences(id, ids, |ids|), Factorial(n));
  }

  // ---------------------------------------------------------------- the code

  /** The divisions over the first k identifiers, starting from w. */
  function Divided(id: Int64, ids: seq<Int64>, w: Int64, k: nat): Int64
    requires k <= |ids|
  {
    if k == 0 then w
    else if ids[k - 1] == id then Divided(id, ids, w, k - 1)
    else Wrap(Quo(Divided(id, ids, w, k - 1), Gap(ids[k - 1], id)))
  }

  /** An int64 subtraction of two different identifiers is never zero. */
  function Gap(c: Int64, id: Int64): (d: Int64)
    requires c != id
    ensures d != 0
  {
    Wrap(c - id)
  }

  /** What calcOmega returns, as a function of its arguments. */
  function CodeOmega(id: Int64, ids: seq<Int64>, delta: nat): Int64 {
    Divided(id, ids, Wrap(delta * Others(id, ids, |ids|)), |ids|)
  }

  method CalcOmega(id: Int64, ids: seq<Int64>, delta: nat) returns (result: Int64)
    ensures result == CodeOmega(id, ids, delta)
  {
    result := Wrap(delta);
    for i := 0 to |ids|
      invariant result == Wrap(delta * Others(id, ids, i))
    {
      if ids[i] != id {
        WrapTimes(delta * Others(id, ids, i), ids[i]);
        Regroup(delta, Others(id, ids, i), ids[i]);
        result := Wrap(result * ids[i]);
      }
    }
    ghost var w := result;
    for i := 0 to |ids|
      invariant result == Divided(id, ids, w, i)
    {
      if ids[i] != id {
        result := Wrap(Quo(result, Gap(ids[i], id)));
      }
    }
  }

  lemma {:induction false} Regroup(a: int, b: int, c: int)
    ensures (a * b) * c == a * (b * c)
  {
  }

  lemma {:induction false} CancelLeft(r: int, q: int, d: int, e: int)
    requires d != 0 && r * d == q * (d * e)
    ensures r == q * e
  {
    assert (r - q * e) * d == 0;
  }

  lemma {:induction false} BoundByMultiple(r: int, d: int, w: int)
    requires d != 0 && r * d == w
    ensures Abs(r) <= Abs(w)
  {
    AbsTimes(r, d);
  }

  /** One exact int64 division: the quotient q of w by d e, from the quotient r of w by d. */
  lemma {:induction false} ExactStep(r: int, q: int, d: int, e: int, w: Int64)
    requires d != 0 && e != 0 && d * e != 0
    requires r * d == w && q * (d * e) == w && Abs(w) < TWO63
    ensures Wrap(Quo(r, e)) == q
  {
    CancelLeft(r, q, d, e);
    QuoExact(q, e);
    BoundByMultiple(q, d * e, w);
    WrapAbs(q);
  }

  /** When the numerator fits, every prefix of the divisions is exact. */
  lemma {:induction false} ExactDivision(id: Int64, ids: seq<Int64>, n: nat, o: int, w: Int64, k: nat)
    requires k <= |ids| && Players(ids, n) && 1 <= id <= n
    requires w == Factorial(n) * o && Abs(w) < TWO63
    ensures Divided(id, ids, w, k) * Differences(id, ids, k) == w
  {
    if k > 0 {
      ExactDivision(id, ids, n, o, w, k - 1);
      if ids[k - 1] != id {
        var d, e := Differences(id, ids, k - 1), ids[k - 1] - id;
        WrapSmall(e);
        var f := DifferencesDivide(id, ids, n, k);
        DifferencesNonzero(id, ids, k - 1);
        DifferencesNonzero(id, ids, k);
        ExactQuotient(f, o, d * e, Factorial(n));
        ExactStep(Divided(id, ids, w, k - 1), f * o, d, e, w);
      }
    }
  }

  lemma {:induction false} WrapAbs(q: int)
    requires Abs(q) < TWO63
    ensures Wrap(q) == q
  {
    WrapSmall(q);
  }

  // ---------------------------------------------------------------- exactly when it is right

  lemma {:induction false} AbsOrder(x: int, y: int, d: int)
    requires Abs(x) <= Abs(y)
    ensures Abs(x * d) <= Abs(y * d)
  {
    AbsProduct(x, d);
    AbsProduct(y, d);
    ProductSign(Abs(y) - Abs(x), Abs(d));
    assert (Abs(y) - Abs(x)) * Abs(d) == Abs(y) * Abs(d) - Abs(x) * Abs(d);
  }

  lemma {:induction false} AbsProduct(x: int, d: int)
    ensures Abs(x * d) == Abs(x) * Abs(d)
  {
    assert (-x) * d == -(x * d) && x * (-d) == -(x * d) && (-x) * (-d) == x * d;
    ProductSign(Abs(x), Abs(d));
  }

  lemma {:induction false} WrapKeepsAbs(x: int)
    requires Abs(x) <= TWO63
    ensures Abs(Wrap(x)) == Abs(x)
  {
  }

  lemma {:induction false} DividedStepBound(r: Int64, d: int, e: int)
    requires e != 0
    ensures Abs(Wrap(Quo(r, e)) * (d * e)) <= Abs(r * d)
  {
    var q := Quo(r, e);
    QuoBound(r, e);
    AbsTimes(q, e);
    WrapKeepsAbs(q);
    var v := Wrap(q);
    AbsProduct(v, e);
    AbsProduct(q, e);
    AbsOrder(v * e, r, d);
    assert v * (d * e) == (v * e) * d by { SwapFactors(v, d, e); Regroup(v, d, e); }
  }

  /** Wrapped or not, the divisions never overshoot the word they started from. */
  lemma {:induction false} DividedBound(id: Int64, ids: seq<Int64>, n: nat, w: Int64, k: nat)
    requires k <= |ids| && Players(ids, n) && 1 <= id <= n
    ensures Abs(Divided(id, ids, w, k) * Differences(id, ids, k)) <= Abs(w)
  {
    if k > 0 {
      DividedBound(id, ids, n, w, k - 1);
      if ids[k - 1] != id {
        WrapSmall(ids[k - 1] - id);
        DividedStepBound(Divided(id, ids, w, k - 1), Differences(id, ids, k - 1), ids[k - 1] - id);
      }
    }
  }

  lemma {:induction false} FactorialByThree(n: nat) returns (q: int)
    requires n >= 3
    ensures Factorial(n) == 3 * q
  {
    if n == 3 {
      assert Factorial(3) == 6;
      q := 2;
    } else {
      var p := FactorialByThree(n - 1);
      q := n * p;
      assert n * (3 * p) == 3 * (n * p);
    }
  }

  lemma {:induction false} OthersBound(id: int, ids: seq<int>, n: nat)
    requires Players(ids, n)
    ensures Others(id, ids, |ids|) <= Factorial(n)
  {
    DifferenceListSpread(0, ids, n, n, 0, |ids|);
    DifferenceListProduct(0, ids, |ids|);
    var q := SpreadDivides(DifferenceList(0, ids, |ids|), n, 0);
    OthersBelowAll(id, ids, n, |ids|);
    FactorBelow(q, Differences(0, ids, |ids|), Factorial(n));
  }

  lemma {:induction false} GrowOrder(a: int, b: int, x: int)
    requires a <= b && x >= 0
    ensures a * x <= b * x
  {
    ProductSign(b - a, x);
    assert (b - a) * x == b * x - a * x;
  }

  lemma {:induction false} OthersBelowAll(id: int, ids: seq<int>, n: nat, k: nat)
    requires k <= |ids| && Players(ids, n)
    ensures 1 <= Others(id, ids, k) <= Differences(0, ids, k)
  {
    if k > 0 {
      OthersBelowAll(id, ids, n, k - 1);
      GrowOrder(1, Others(id, ids, k - 1), ids[k - 1]);
      GrowOrder(Others(id, ids, k - 1), Differences(0, ids, k - 1), ids[k - 1]);
      GrowOrder(1, ids[k - 1], Differences(0, ids, k - 1));
    }
  }

  lemma {:induction false} FactorBelow(q: int, d: int, f: int)
    requires d >= 1 && f >= 1 && q * d == f
    ensures d <= f
  {
    AbsTimes(d, q);
  }

  /** A numerator of exactly 2^63 cannot arise: it would have to be a multiple of three. */
  lemma {:induction false} NumeratorNotTwo63(id: int, ids: seq<int>, n: nat)
    requires Players(ids, n)
    ensures Factorial(n) * Others(id, ids, |ids|) != TWO63
  {
    if n >= 3 {
      var q := FactorialByThree(n);
      Regroup(3, q, Others(id, ids, |ids|));
    } else {
      OthersBound(id, ids, n);
      OthersPositive(id, ids, n, |ids|);
      assert Factorial(n) <= 2 by { assert Factorial(0) == 1 && Factorial(1) == 1 && Factorial(2) == 2; }
      var f, o := Factorial(n), Others(id, ids, |ids|);
      assert f == 1 || f == 2;
    }
  }

  /**
   calcOmega returns the Lagrange coefficient exactly when its numerator, n! times the other
   identifiers, fits an int64.
   */
  lemma {:induction false} OmegaExact(id: Int64, ids: seq<Int64>, n: nat)
    requires Players(ids, n) && 1 <= id <= n
    ensures CodeOmega(id, ids, Factorial(n)) == Coefficient(id, ids, n)
       <==> Factorial(n) * Others(id, ids, |ids|) < TWO63
  {
    var o, d := Others(id, ids, |ids|), Differences(id, ids, |ids|);
    var p := Factorial(n) * o;
    var r, c := CodeOmega(id, ids, Factorial(n)), Coefficient(id, ids, n);
    OthersPositive(id, ids, n, |ids|);
    ProductSign(Factorial(n), o);
    CoefficientExact(id, ids, n);
    DifferencesNonzero(id, ids, |ids|);
    if p < TWO63 {
      WrapSmall(p);
      ExactDivision(id, ids, n, o, p, |ids|);
      CancelRight(r, c, d);
    } else {
      NumeratorNotTwo63(id, ids, n);
      DividedBound(id, ids, n, Wrap(p), |ids|);
      assert Abs(r * d) <= TWO63 < p;
    }
  }

  lemma {:induction false} CancelRight(x: int, y: int, d: int)
    requires d != 0 && x * d == y * d
    ensures x == y
  {
    assert (x - y) * d == 0;
  }

  lemma {:induction false} FactorialOrder(m: nat, n: nat)
    requires m <= n
    ensures Factorial(m) <= Factorial(n)
  {
    if m < n {
      FactorialOrder(m, n - 1);
      AbsTimes(Factorial(n - 1), n);
    }
  }

  lemma {:induction false} FactorialValues()
    ensures Factorial(12) == 479001600 && Factorial(13) == 6227020800
  {
    assert Factorial(6) == 720;
    assert Factorial(10) == 3628800;
  }

  /** With at most twelve cosigners no coefficient overflows. */
  lemma {:induction false} TwelveFit(id: int, ids: seq<int>, n: nat)
    requires Players(ids, n) && n <= 12
    ensures 1 <= Factorial(n) * Others(id, ids, |ids|) < TWO63
  {
    FactorialOrder(n, 12);
    FactorialValues();
    OthersBound(id, ids, n);
    OthersPositive(id, ids, n, |ids|);
    GrowOrder(1, Factorial(n), Others(id, ids, |ids|));
    GrowOrder(Factorial(n), 479001600, Others(id, ids, |ids|));
  }

  /** Where the numerator wraps to -1, dividing by two gives zero: truncated, not rounded down. */
  lemma {:induction false} WrapsAndTruncates()
    ensures CodeOmega(1, [1, 3], 6148914691236517205) == 0
  {
    var ids: seq<Int64> := [1, 3];
    assert Others(1, ids, 1) == 1;
    assert Others(1, ids, 2) == 3;
    assert Wrap(18446744073709551615) == -1;
    assert Divided(1, ids, -1, 1) == -1;
  }

  /** Thirteen of thirteen is accepted by the configuration rules, and overflows. */
  lemma {:induction false} ThirteenOverflow()
    ensures Players([1, 2, 3, 4, 5, 6, 7, 8, 9, 10, 11, 12, 13], 13)
    ensures CodeOmega(1, [1, 2, 3, 4, 5, 6, 7, 8, 9, 10, 11, 12, 13], Factorial(13))
         != Coefficient(1, [1, 2, 3, 4, 5, 6, 7, 8, 9, 10, 11, 12, 13], 13)
  {
    var ids: seq<Int64> := [1, 2, 3, 4, 5, 6, 7, 8, 9, 10, 11, 12, 13];
    assert Players(ids, 13);
    FactorialValues();
    assert Others(1, ids, 7) == 5040;
    assert Others(1, ids, 10) == 3628800;
    assert Others(1, ids, 13) == 6227020800;
    OmegaExact(1, ids, 13);
  }
}

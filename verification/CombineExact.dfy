/**
 Exactly when combining recovers every secret: CombineShares is right on all polynomials with
 as many coefficients as there are cosigners if and only if every coefficient that calcOmega
 computes is right modulo L (signer/tsed25519/ed25519.go).
 */
module CombineExact {
  import opened GoInt
  import opened Omega
  import opened Interpolation
  import opened Modular
  import opened Shares

  // ---------------------------------------------------------------- a polynomial that isolates one cosigner

  /** The coefficients of carry + (r - x) p(x). */
  function TimesGap(carry: int, cs: seq<int>, r: int): (out: seq<int>)
    ensures |out| == |cs| + 1
    decreases cs
  {
    if cs == [] then [carry] else [carry + r * cs[0]] + TimesGap(-cs[0], cs[1..], r)
  }

  lemma {:induction false} GapStep(carry: int, c: int, r: int, x: int, e: int)
    ensures carry + r * c + x * (-c + (r - x) * e) == carry + (r - x) * (c + x * e)
  {
    assert x * ((r - x) * e) == (r - x) * (x * e);
  }

  lemma {:induction false} EvalTimesGap(carry: int, cs: seq<int>, r: int, x: int)
    ensures Eval(TimesGap(carry, cs, r), x) == carry + (r - x) * Eval(cs, x)
    decreases cs
  {
    var out := TimesGap(carry, cs, r);
    if cs == [] {
      assert out[1..] == [];
    } else {
      assert out[1..] == TimesGap(-cs[0], cs[1..], r);
      EvalTimesGap(-cs[0], cs[1..], r, x);
      GapStep(carry, cs[0], r, x, Eval(cs[1..], x));
    }
  }

  /** The product of ids[j] - x over j < k, j != i, as a polynomial in x. */
  function Basis(ids: seq<int>, i: nat, k: nat): (cs: seq<int>)
    requires i < |ids| && k <= |ids|
    ensures |cs| == if k <= i then k + 1 else k
  {
    if k == 0 then [1]
    else if k - 1 == i then Basis(ids, i, k - 1)
    else TimesGap(0, Basis(ids, i, k - 1), ids[k - 1])
  }

  lemma {:induction false} Commute(a: int, b: int)
    ensures 0 + a * b == b * a
  {
  }

  lemma {:induction false} BasisConstant(ids: seq<int>, n: nat, i: nat, k: nat)
    requires Players(ids, n) && i < |ids| && k <= |ids|
    ensures Basis(ids, i, k)[0] == Others(ids[i], ids, k)
  {
    if k > 0 {
      BasisConstant(ids, n, i, k - 1);
      if k - 1 != i {
        Commute(ids[k - 1], Basis(ids, i, k - 1)[0]);
      }
    }
  }

  lemma {:induction false} BasisAtOwn(ids: seq<int>, n: nat, i: nat, k: nat)
    requires Players(ids, n) && i < |ids| && k <= |ids|
    ensures Eval(Basis(ids, i, k), ids[i]) == Differences(ids[i], ids, k)
  {
    if k == 0 {
      assert Basis(ids, i, 0)[1..] == [];
    } else {
      BasisAtOwn(ids, n, i, k - 1);
      if k - 1 != i {
        assert ids[k - 1] != ids[i];
        var d, r := Differences(ids[i], ids, k - 1), ids[k - 1] - ids[i];
        assert Differences(ids[i], ids, k) == d * r;
        EvalTimesGap(0, Basis(ids, i, k - 1), ids[k - 1], ids[i]);
        assert Eval(Basis(ids, i, k), ids[i]) == 0 + r * d;
        Commute(r, d);
      }
    }
  }

  lemma {:induction false} BasisZero(ids: seq<int>, n: nat, i: nat, k: nat, j: nat)
    requires Players(ids, n) && i < |ids| && j < k <= |ids| && j != i
    ensures Eval(Basis(ids, i, k), ids[j]) == 0
  {
    var before, r := Basis(ids, i, k - 1), ids[k - 1];
    if k - 1 == i {
      BasisZero(ids, n, i, k - 1, j);
    } else {
      EvalTimesGap(0, before, r, ids[j]);
      if j < k - 1 {
        BasisZero(ids, n, i, k - 1, j);
      }
      VanishingFactor(r - ids[j], Eval(before, ids[j]), j == k - 1);
    }
  }

  lemma {:induction false} VanishingFactor(a: int, b: int, first: bool)
    requires if first then a == 0 else b == 0
    ensures 0 + a * b == 0
  {
  }

  // ---------------------------------------------------------------- its differences are invertible

  lemma {:induction false} NegatedInverse(a: int, v: int)
    requires (-a * v) % L == 1
    ensures (a * -v) % L == 1
  {
    assert a * -v == -a * v;
  }

  lemma {:induction false} DifferencesInvertible(id: int, ids: seq<int>, n: nat, k: nat) returns (v: int)
    requires n <= 255 && Players(ids, n) && 1 <= id <= n && k <= |ids|
    ensures (Differences(id, ids, k) * v) % L == 1
  {
    if k == 0 {
      v := 1;
    } else {
      v := DifferencesInvertible(id, ids, n, k - 1);
      var d := ids[k - 1] - id;
      if d != 0 {
        SmallFactors();
        var u := SmallInverse(255, Abs(d));
        if d < 0 {
          NegatedInverse(d, u);
          u := -u;
        }
        InverseProduct(Differences(id, ids, k - 1), v, d, u);
        v := v * u;
      }
    }
  }

  lemma {:induction false} CancelInvertible(d: int, v: int, a: int, b: int)
    requires (d * v) % L == 1 && (d * a) % L == (d * b) % L
    ensures a % L == b % L
  {
    CancelFactorial(d * a, a, d, v);
    CancelFactorial(d * b, b, d, v);
    assert d * a == a * d && d * b == b * d;
    TimesCongruent(d * a, d * b, v, L);
  }

  // ---------------------------------------------------------------- the equivalence

  /** Combining recovers the constant term of every polynomial with at most |ids| coefficients. */
  ghost predicate RecoversAll(total: nat, ids: seq<Int64>) {
    forall cs, vs :: 1 <= |cs| <= |ids| && OnPolynomial(ids, vs, cs) ==> CombinedValue(total, ids, vs) == cs[0] % L
  }

  /** Every coefficient calcOmega computes is the right one modulo L. */
  ghost predicate OmegasRight(total: nat, ids: seq<Int64>) {
    forall i :: 0 <= i < |ids| ==>
      CodeOmega(ids[i], ids, Factorial(total)) % L == Coefficient(ids[i], ids, total) % L
  }

  /** Shares that are zero everywhere but at i. */
  lemma {:induction false} SingleShareSum(ids: seq<Int64>, delta: nat, vs: seq<int>, i: nat, j: nat)
    requires i < |ids| == |vs| && j <= |ids|
    requires forall k :: 0 <= k < |vs| && k != i ==> vs[k] == 0
    ensures PartialSum(ids, delta, vs, j) == if j <= i then 0 else (vs[i] * CodeOmega(ids[i], ids, delta)) % L
  {
    if j > 0 {
      SingleShareSum(ids, delta, vs, i, j - 1);
      if j - 1 != i {
        VanishingFactor(vs[j - 1], CodeOmega(ids[j - 1], ids, delta), true);
      }
    }
  }

  lemma {:induction false} UndoInverse(s: int, f: int, v: int, o: int)
    requires (f * v) % L == 1 && (s * v) % L == o % L
    ensures s % L == (f * o) % L
  {
    TimesCongruent(s * v, o, f, L);
    assert (s * v) * f == (f * v) * s && o * f == f * o;
    TimesCongruent(f * v, 1, s, L);
  }

  /** If combining recovers this one polynomial, its cosigner's coefficient is right. */
  lemma {:induction false} BasisTellsOmega(total: nat, ids: seq<Int64>, i: nat)
    requires total <= 255 && Players(ids, total) && i < |ids| && RecoversAll(total, ids)
    ensures CodeOmega(ids[i], ids, Factorial(total)) % L == Coefficient(ids[i], ids, total) % L
  {
    var m, f := |ids|, Factorial(total);
    var cs, w, c := Basis(ids, i, m), CodeOmega(ids[i], ids, f), Coefficient(ids[i], ids, total);
    var d, o := Differences(ids[i], ids, m), Others(ids[i], ids, m);
    BasisConstant(ids, total, i, m);
    BasisAtOwn(ids, total, i, m);
    var vs := Values(ids, cs);
    forall k | 0 <= k < m && k != i ensures vs[k] == 0 {
      BasisZero(ids, total, i, m, k);
    }
    assert OnPolynomial(ids, vs, cs);
    SingleShareSum(ids, f, vs, i, m);
    DeltaInvertible(total);
    UndoInverse((d * w) % L, f, InverseOrSelf(f), o);
    ModTwice(d * w, L);
    CoefficientExact(ids[i], ids, total);
    assert d * c == c * d;
    var v := DifferencesInvertible(ids[i], ids, total, m);
    CancelInvertible(d, v, w, c);
  }

  lemma {:induction false} WeighByOmega(ids: seq<Int64>, delta: nat, ws: seq<int>, vs: seq<int>, j: nat)
    requires j <= |ids| == |ws| == |vs|
    requires forall i :: 0 <= i < |ids| ==> CodeOmega(ids[i], ids, delta) % L == ws[i] % L
    ensures PartialSum(ids, delta, vs, j) % L == Weigh(ws, vs, j) % L
  {
    if j > 0 {
      WeighByOmega(ids, delta, ws, vs, j - 1);
      var w := CodeOmega(ids[j - 1], ids, delta);
      TimesCongruent(w, ws[j - 1], vs[j - 1], L);
      OneTerm(PartialSum(ids, delta, vs, j - 1), Weigh(ws, vs, j - 1), w, ws[j - 1], vs[j - 1]);
    }
  }

  lemma {:induction false} OneTerm(s: int, t: int, w: int, w': int, v: int)
    requires s % L == t % L && (w * v) % L == (w' * v) % L
    ensures (s + (v * w) % L) % L == (t + Product2(w', v)) % L
  {
    assert v * w == w * v;
    ModTwice(v * w, L);
    AddCongruent(s, t, (v * w) % L, w' * v, L);
  }

  /** Combining is right on every polynomial if and only if every coefficient is right modulo L. */
  lemma {:induction false} RecoversIffOmegasRight(total: nat, ids: seq<Int64>)
    requires total <= 255 && Players(ids, total)
    ensures RecoversAll(total, ids) <==> OmegasRight(total, ids)
  {
    if RecoversAll(total, ids) {
      forall i | 0 <= i < |ids|
        ensures CodeOmega(ids[i], ids, Factorial(total)) % L == Coefficient(ids[i], ids, total) % L
      {
        BasisTellsOmega(total, ids, i);
      }
    }
    if OmegasRight(total, ids) {
      forall cs, vs | 1 <= |cs| <= |ids| && OnPolynomial(ids, vs, cs)
        ensures CombinedValue(total, ids, vs) == cs[0] % L
      {
        RightOmegasRecover(total, ids, vs, cs);
      }
    }
  }

  lemma {:induction false} RightOmegasRecover(total: nat, ids: seq<Int64>, vs: seq<int>, cs: seq<int>)
    requires total <= 255 && Players(ids, total) && OmegasRight(total, ids)
    requires 1 <= |cs| <= |ids| && OnPolynomial(ids, vs, cs)
    ensures CombinedValue(total, ids, vs) == cs[0] % L
  {
    var f := Factorial(total);
    WeighByOmega(ids, f, Coefficients(total, ids), vs, |ids|);
    WeighShares(total, ids, vs, cs);
    DeltaInvertible(total);
    CancelFactorial(PartialSum(ids, f, vs, |ids|), cs[0], f, InverseOrSelf(f));
  }

  lemma {:induction false} SmallCongruent(a: int, b: int)
    requires -TWO63 <= a < TWO63 && -(L as int) + TWO63 < b < L - TWO63 && a % L == b % L
    ensures a == b
  {
    var q := Difference(a, b, L);
    SmallMultiple(q, L);
  }

  /**
   As long as the coefficients themselves stay below L - 2^63 (every total up to 33), combining
   is right on every polynomial exactly when no numerator overflows an int64.
   */
  lemma {:induction false} RecoversIffFits(total: nat, ids: seq<Int64>)
    requires total <= 255 && Players(ids, total)
    requires forall i :: 0 <= i < |ids| ==> Factorial(total) * Others(ids[i], ids, |ids|) < L - TWO63
    ensures RecoversAll(total, ids) <==> Fits(total, ids)
  {
    RecoversIffOmegasRight(total, ids);
    forall i | 0 <= i < |ids|
      ensures CodeOmega(ids[i], ids, Factorial(total)) % L == Coefficient(ids[i], ids, total) % L
         <==> Factorial(total) * Others(ids[i], ids, |ids|) < TWO63
    {
      OmegaExact(ids[i], ids, total);
      var w, c := CodeOmega(ids[i], ids, Factorial(total)), Coefficient(ids[i], ids, total);
      CoefficientExact(ids[i], ids, total);
      DifferencesNonzero(ids[i], ids, |ids|);
      OthersPositive(ids[i], ids, total, |ids|);
      ProductSign(Factorial(total), Others(ids[i], ids, |ids|));
      BoundByMultiple(c, Differences(ids[i], ids, |ids|), Factorial(total) * Others(ids[i], ids, |ids|));
      if w % L == c % L {
        SmallCongruent(w, c);
      }
    }
  }

  lemma {:induction false} Factorial33()
    ensures Factorial(33) == 8683317618811886495518194401280000000
  {
    FactorialValues();
    assert Factorial(18) == 6402373705728000;
    assert Factorial(23) == 25852016738884976640000;
    assert Factorial(28) == 304888344611713860501504000000;
  }

  /** For up to 33 cosigners the equivalence holds without any further condition. */
  lemma {:induction false} RecoversIffFitsTo33(total: nat, ids: seq<Int64>)
    requires total <= 33 && Players(ids, total)
    ensures RecoversAll(total, ids) <==> Fits(total, ids)
  {
    Factorial33();
    FactorialOrder(total, 33);
    forall i | 0 <= i < |ids| ensures Factorial(total) * Others(ids[i], ids, |ids|) < L - TWO63 {
      OthersBound(ids[i], ids, total);
      OthersPositive(ids[i], ids, total, |ids|);
      GrowOrder(Factorial(total), Factorial(33), Others(ids[i], ids, |ids|));
      GrowOrder(Others(ids[i], ids, |ids|), Factorial(33), Factorial(33));
    }
    RecoversIffFits(total, ids);
  }

  /** Eight of fifteen is accepted by the configuration rules; its last eight cosigners do not recover every secret. */
  lemma {:induction false} EightOfFifteenFails()
    ensures Players([8, 9, 10, 11, 12, 13, 14, 15], 15)
    ensures !RecoversAll(15, [8, 9, 10, 11, 12, 13, 14, 15])
  {
    var ids: seq<Int64> := [8, 9, 10, 11, 12, 13, 14, 15];
    assert Players(ids, 15);
    assert Others(ids[0], ids, 4) == 990;
    assert Others(ids[0], ids, 8) == 32432400;
    FactorialValues();
    assert Factorial(15) == 1307674368000;
    RecoversIffFitsTo33(15, ids);
  }
}

/**
 What fewer than threshold shares tell (signer/tsed25519/ed25519.go DealShares): nothing. For every
 other secret there is exactly one choice of the random coefficients that deals the same shares
 to any threshold - 1 cosigners.
 */
module Secrecy {
  import opened Bytes
  import opened GoInt
  import opened Omega
  import opened Interpolation
  import opened Residues
  import opened Modular
  import opened Shares
  import opened CombineExact

  // ---------------------------------------------------------------- polynomials modulo L

  /** Equal coefficients modulo L. */
  ghost predicate Congruent(cs: seq<int>, ds: seq<int>) {
    |cs| == |ds| && forall j :: 0 <= j < |cs| ==> cs[j] % L == ds[j] % L
  }

  lemma {:induction false} CongruentStep(a: int, b: int, x: int, e: int, f: int)
    requires a % L == b % L && e % L == f % L
    ensures (a + x * e) % L == (b + x * f) % L
  {
    TimesCongruent(e, f, x, L);
    assert e * x == x * e && f * x == x * f;
    AddCongruent(a, b, x * e, x * f, L);
  }

  lemma {:induction false} EvalCongruent(cs: seq<int>, ds: seq<int>, x: int)
    requires Congruent(cs, ds)
    ensures Eval(cs, x) % L == Eval(ds, x) % L
    decreases cs
  {
    if |cs| > 0 {
      EvalCongruent(cs[1..], ds[1..], x);
      CongruentStep(cs[0], ds[0], x, Eval(cs[1..], x), Eval(ds[1..], x));
    }
  }

  /** cs + c vs, coefficient by coefficient. */
  function Combination(cs: seq<int>, c: int, vs: seq<int>): (out: seq<int>)
    requires |cs| == |vs|
    ensures |out| == |cs|
  {
    seq(|cs|, j requires 0 <= j < |cs| => cs[j] + Product2(c, vs[j]))
  }

  lemma {:induction false} LinearStep(a: int, c: int, v: int, x: int, e: int, f: int)
    ensures a + Product2(c, v) + x * (e + Product2(c, f)) == a + x * e + Product2(c, v + x * f)
  {
    assert x * (c * f) == c * (x * f);
  }

  lemma {:induction false} EvalCombination(cs: seq<int>, c: int, vs: seq<int>, x: int)
    requires |cs| == |vs|
    ensures Eval(Combination(cs, c, vs), x) == Eval(cs, x) + Product2(c, Eval(vs, x))
    decreases cs
  {
    if |cs| > 0 {
      var out := Combination(cs, c, vs);
      assert out[1..] == Combination(cs[1..], c, vs[1..]);
      EvalCombination(cs[1..], c, vs[1..], x);
      LinearStep(cs[0], c, vs[0], x, Eval(cs[1..], x), Eval(vs[1..], x));
    }
  }

  // ---------------------------------------------------------------- a polynomial that is zero at the identifiers

  /** The product of ids[j] - x over the first k identifiers. */
  function Vanishing(ids: seq<int>, k: nat): (cs: seq<int>)
    requires k <= |ids|
    ensures |cs| == k + 1
  {
    if k == 0 then [1] else TimesGap(0, Vanishing(ids, k - 1), ids[k - 1])
  }

  lemma {:induction false} VanishingAt(ids: seq<int>, k: nat, j: nat)
    requires j < k <= |ids|
    ensures Eval(Vanishing(ids, k), ids[j]) == 0
  {
    var before := Vanishing(ids, k - 1);
    EvalTimesGap(0, before, ids[k - 1], ids[j]);
    if j < k - 1 {
      VanishingAt(ids, k - 1, j);
    }
    VanishingFactor(ids[k - 1] - ids[j], Eval(before, ids[j]), j == k - 1);
  }

  lemma {:induction false} VanishingConstant(ids: seq<int>, n: nat, k: nat) returns (v: int)
    requires n <= 255 && Players(ids, n) && k <= |ids|
    ensures (Vanishing(ids, k)[0] * v) % L == 1
  {
    if k == 0 {
      v := 1;
    } else {
      v := VanishingConstant(ids, n, k - 1);
      SmallFactors();
      var u := SmallInverse(255, ids[k - 1]);
      var c := Vanishing(ids, k - 1)[0];
      InverseProduct(c, v, ids[k - 1], u);
      Commute(ids[k - 1], c);
      v := v * u;
    }
  }

  // ---------------------------------------------------------------- too many roots

  /** The quotient of cs by x - r. */
  function Quotient(cs: seq<int>, r: int): (q: seq<int>)
    ensures |q| == if |cs| == 0 then 0 else |cs| - 1
    decreases cs
  {
    if |cs| <= 1 then [] else [Eval(cs[1..], r)] + Quotient(cs[1..], r)
  }

  lemma {:induction false} QuotientStep(c: int, x: int, r: int, hx: int, hr: int, q: int)
    requires hx - hr == Product2(x - r, q)
    ensures (c + x * hx) - (c + r * hr) == Product2(x - r, hr + x * q)
  {
    assert (x - r) * (hr + x * q) == (x - r) * hr + x * ((x - r) * q);
    assert (x - r) * hr == x * hr - r * hr;
  }

  lemma {:induction false} QuotientValue(cs: seq<int>, r: int, x: int)
    ensures Eval(cs, x) - Eval(cs, r) == Product2(x - r, Eval(Quotient(cs, r), x))
    decreases cs
  {
    if |cs| == 1 {
      assert cs[1..] == [];
    } else if |cs| > 1 {
      var h, q := cs[1..], Quotient(cs, r);
      assert q[1..] == Quotient(h, r);
      QuotientValue(h, r, x);
      QuotientStep(cs[0], x, r, Eval(h, x), Eval(h, r), Eval(Quotient(h, r), x));
    }
  }

  ghost predicate Zero(cs: seq<int>) {
    forall j :: 0 <= j < |cs| ==> cs[j] % L == 0
  }

  lemma {:induction false} ConstantZero(c: int, r: int, h: int)
    requires (c + r * h) % L == 0 && h % L == 0
    ensures c % L == 0
  {
    TimesCongruent(h, 0, r, L);
    assert h * r == r * h;
    var p := Difference(c + r * h, 0, L);
    var q := Difference(r * h, 0, L);
    assert c == 0 + (p - q) * L;
    ShiftByMultiple(c, 0, p - q, L);
  }

  /** If the quotient is zero and r is a root, the polynomial is zero. */
  lemma {:induction false} ZeroQuotient(cs: seq<int>, r: int)
    requires Zero(Quotient(cs, r)) && Eval(cs, r) % L == 0
    ensures Zero(cs)
    decreases cs
  {
    if |cs| == 1 {
      assert cs[1..] == [] && Eval([], r) == 0;
    } else if |cs| > 1 {
      var q := Quotient(cs, r);
      assert q[0] == Eval(cs[1..], r);
      assert q[1..] == Quotient(cs[1..], r);
      ZeroQuotient(cs[1..], r);
      ConstantZero(cs[0], r, Eval(cs[1..], r));
      assert forall j :: 0 < j < |cs| ==> cs[j] == cs[1..][j - 1];
    }
  }

  /** Distinct nodes between 0 and 255. */
  ghost predicate Nodes255(xs: seq<int>) {
    && (forall i :: 0 <= i < |xs| ==> 0 <= xs[i] <= 255)
    && (forall i, j :: 0 <= i < j < |xs| ==> xs[i] != xs[j])
  }

  lemma {:induction false} DividesOut(d: int, e: int)
    requires d != 0 && -255 <= d <= 255 && Product2(d, e) % L == 0
    ensures e % L == 0
  {
    SmallFactors();
    var u := SmallInverse(255, Abs(d));
    if d < 0 {
      NegatedInverse(d, u);
      u := -u;
    }
    CancelInvertible(d, u, e, 0);
  }

  lemma {:induction false} RootOfQuotient(cs: seq<int>, r: int, x: int)
    requires Eval(cs, x) % L == 0 && Eval(cs, r) % L == 0 && x != r && 0 <= x <= 255 && 0 <= r <= 255
    ensures Eval(Quotient(cs, r), x) % L == 0
  {
    QuotientValue(cs, r, x);
    var p := Difference(Eval(cs, x), 0, L);
    var q := Difference(Eval(cs, r), 0, L);
    assert Eval(cs, x) - Eval(cs, r) == 0 + (p - q) * L;
    ShiftByMultiple(Eval(cs, x) - Eval(cs, r), 0, p - q, L);
    DividesOut(x - r, Eval(Quotient(cs, r), x));
  }

  /** A polynomial modulo L with as many such roots as coefficients is zero. */
  lemma {:induction false} TooManyRoots(cs: seq<int>, xs: seq<int>)
    requires |cs| <= |xs| && Nodes255(xs)
    requires forall i :: 0 <= i < |xs| ==> Eval(cs, xs[i]) % L == 0
    ensures Zero(cs)
    decreases |xs|
  {
    if |cs| > 0 {
      var n := |xs| - 1;
      var r, q := xs[n], Quotient(cs, xs[n]);
      forall i | 0 <= i < n ensures Eval(q, xs[..n][i]) % L == 0 {
        assert xs[i] != r;
        RootOfQuotient(cs, r, xs[i]);
      }
      TooManyRoots(q, xs[..n]);
      ZeroQuotient(cs, r);
    }
  }

  // ---------------------------------------------------------------- secrecy

  /** Random coefficients as they are drawn. */
  ghost predicate Drawn(random: seq<nat>, m: nat) {
    |random| == m && forall j :: 0 <= j < m ==> random[j] < L
  }

  /** Both polynomials deal the same shares to these cosigners. */
  ghost predicate SameShares(cs: seq<int>, ds: seq<int>, ids: seq<int>)
    requires |cs| >= 1 && |ds| >= 1
  {
    forall i :: 0 <= i < |ids| ==> ShareValue(cs, ids[i]) == ShareValue(ds, ids[i])
  }

  /** The multiple of the vanishing polynomial that moves the constant term from s to t. */
  lemma {:induction false} Shifted(s: int, t: int, v: int, u: int)
    requires (v * u) % L == 1
    ensures (s + Product2(Product2(t - s, u), v)) % L == t % L
  {
    TimesCongruent(v * u, 1, t - s, L);
    assert (v * u) * (t - s) == ((t - s) * u) * v;
    AddCongruent(s, s, ((t - s) * u) * v, t - s, L);
  }

  function Reduced(cs: seq<int>): (out: seq<nat>)
    ensures |out| == |cs| && forall j :: 0 <= j < |cs| ==> out[j] == cs[j] % L
  {
    seq(|cs|, j requires 0 <= j < |cs| => cs[j] % L)
  }

  /** Some coefficients deal the same shares for the other secret. */
  lemma {:induction false} SomeCoefficients(secret: seq<Byte>, random: seq<nat>, other: seq<Byte>, ids: seq<int>, n: nat)
    returns (rs: seq<nat>)
    requires n <= 255 && Players(ids, n) && |ids| == |random|
    ensures Drawn(rs, |random|) && SameShares(Polynomial(secret, random), Polynomial(other, rs), ids)
  {
    var m := |ids|;
    var cs, vs := Polynomial(secret, random), Vanishing(ids, m);
    var u := VanishingConstant(ids, n, m);
    var c := Product2(LE(other) - LE(secret), u);
    var es := Combination(cs, c, vs);
    rs := Reduced(es[1..]);
    var ds := Polynomial(other, rs);
    Shifted(LE(secret), LE(other), vs[0], u);
    forall j | 0 <= j < |es| ensures es[j] % L == ds[j] % L {
      if j > 0 {
        assert ds[j] == rs[j - 1] == es[j] % L;
        ModTwice(es[j], L);
      }
    }
    forall i | 0 <= i < m ensures ShareValue(cs, ids[i]) == ShareValue(ds, ids[i]) {
      EvalCongruent(es, ds, ids[i]);
      EvalCombination(cs, c, vs, ids[i]);
      VanishingAt(ids, m, i);
      VanishingFactor(c, Eval(vs, ids[i]), false);
    }
  }

  /** The identifiers and zero. */
  function WithZero(ids: seq<int>): seq<int> {
    ids + [0]
  }

  lemma {:induction false} EvalAtZero(cs: seq<int>)
    requires |cs| >= 1
    ensures Eval(cs, 0) == cs[0]
  {
  }

  lemma {:induction false} SameResidue(a: int, b: int)
    requires (a + Product2(-1, b)) % L == 0
    ensures a % L == b % L
  {
    var q := Difference(a + Product2(-1, b), 0, L);
    ShiftByMultiple(a, b, q, L);
  }

  lemma {:induction false} ZeroDifference(a: int, b: int)
    requires a % L == b % L
    ensures (a + Product2(-1, b)) % L == 0
  {
    var q := Difference(a, b, L);
    assert a + Product2(-1, b) == 0 + q * L;
    ShiftByMultiple(a + Product2(-1, b), 0, q, L);
  }

  /** The shares and the secret determine the coefficients. */
  lemma {:induction false} OnlyCoefficients(other: seq<Byte>, rs: seq<nat>, ts: seq<nat>, ids: seq<int>, n: nat)
    requires n <= 255 && Players(ids, n) && Drawn(rs, |ids|) && Drawn(ts, |ids|)
    requires SameShares(Polynomial(other, rs), Polynomial(other, ts), ids)
    ensures rs == ts
  {
    var cs, ds := Polynomial(other, rs), Polynomial(other, ts);
    var es, xs := Combination(cs, -1, ds), WithZero(ids);
    forall i | 0 <= i < |xs| ensures Eval(es, xs[i]) % L == 0 {
      EvalCombination(cs, -1, ds, xs[i]);
      if i == |ids| {
        EvalAtZero(cs);
        EvalAtZero(ds);
      }
      ZeroDifference(Eval(cs, xs[i]), Eval(ds, xs[i]));
    }
    TooManyRoots(es, xs);
    forall j | 0 <= j < |ids| ensures rs[j] == ts[j] {
      assert es[j + 1] == rs[j] + Product2(-1, ts[j]);
      SameResidue(rs[j], ts[j]);
      SmallResidue(rs[j], L);
      SmallResidue(ts[j], L);
    }
  }

  /**
   Secrecy: whatever threshold - 1 distinct cosigners hold, every other secret explains it just as
   well, with exactly one choice of the random coefficients.
   */
  lemma {:induction false} FewerSharesTellNothing(secret: seq<Byte>, random: seq<nat>, other: seq<Byte>, ids: seq<int>, total: nat)
    returns (rs: seq<nat>)
    requires total <= 255 && Players(ids, total) && |ids| == |random|
    ensures Drawn(rs, |random|) && SameShares(Polynomial(secret, random), Polynomial(other, rs), ids)
    ensures forall ts :: Drawn(ts, |random|) && SameShares(Polynomial(secret, random), Polynomial(other, ts), ids) ==> ts == rs
  {
    rs := SomeCoefficients(secret, random, other, ids, total);
    forall ts | Drawn(ts, |random|) && SameShares(Polynomial(secret, random), Polynomial(other, ts), ids) ensures ts == rs {
      OnlyCoefficients(other, ts, rs, ids, total);
    }
  }
}

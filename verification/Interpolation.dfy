/**
 Interpolation at zero with integer coefficients: over any m distinct identifiers the scaled
 Lagrange coefficients recover n! times the constant term of every polynomial with at most m
 coefficients, over the integers and before any reduction (signer/tsed25519/ed25519.go).
 */
module Interpolation {
  import DD = DividedDifferences
  import opened GoInt
  import opened Omega

  function IPow(x: int, k: nat): int {
    if k == 0 then 1 else x * IPow(x, k - 1)
  }

  /** cs[0] + cs[1] x + cs[2] x^2 + ... */
  function Eval(cs: seq<int>, x: int): int {
    if |cs| == 0 then 0 else cs[0] + x * Eval(cs[1..], x)
  }

  /** Weight i is n! times the product of the other identifiers over their differences from ids[i]. */
  ghost predicate Lagrange(ids: seq<int>, n: nat, ws: seq<int>) {
    && |ws| == |ids|
    && forall i :: 0 <= i < |ids| ==>
         ws[i] * Differences(ids[i], ids, |ids|) == Factorial(n) * Others(ids[i], ids, |ids|)
  }

  function Product2(a: int, b: int): int {
    a * b
  }

  /** The first j terms of the sum of ws[i] * vs[i]. */
  function Weigh(ws: seq<int>, vs: seq<int>, j: nat): int
    requires j <= |ws| == |vs|
  {
    if j == 0 then 0 else Weigh(ws, vs, j - 1) + Product2(ws[j - 1], vs[j - 1])
  }

  // ---------------------------------------------------------------- reals

  lemma {:induction false} CastTimes(a: int, b: int)
    ensures Product2(a, b) as real == DD.Times(a as real, b as real)
  {
  }

  /** The identifiers and zero, as real nodes. */
  function Nodes(ids: seq<int>): seq<real> {
    seq(|ids| + 1, i requires 0 <= i <= |ids| => if i < |ids| then ids[i] as real else 0.0)
  }

  lemma {:induction false} NodesDistinct(ids: seq<int>, n: nat)
    requires Players(ids, n)
    ensures DD.Distinct(Nodes(ids))
  {
  }

  lemma {:induction false} PowCast(x: int, k: nat)
    ensures DD.Pow(x as real, k) == IPow(x, k) as real
  {
    if k > 0 {
      PowCast(x, k - 1);
      CastTimes(x, IPow(x, k - 1));
    }
  }

  lemma {:induction false} CastFactor(r: real, d: int, x: real, a: int, y: real, b: int)
    requires r == d as real && x == a as real && y == b as real
    ensures r * (x - y) == (d * (a - b)) as real
  {
    CastTimes(d, a - b);
  }

  /** The real differences of cast nodes are the cast integer differences. */
  lemma {:induction false} DiffCastAt(ids: seq<int>, xs: seq<real>, i: nat, id: int, k: nat)
    requires k <= |ids| <= |xs| && i < |xs| && xs[i] == id as real
    requires forall j :: 0 <= j < k ==> xs[j] == ids[j] as real
    requires forall j :: 0 <= j < k ==> (ids[j] == id <==> j == i)
    ensures DD.Diff(xs, i, k) == Differences(id, ids, k) as real
  {
    if k > 0 {
      DiffCastAt(ids, xs, i, id, k - 1);
      if i != k - 1 {
        CastFactor(DD.Diff(xs, i, k - 1), Differences(id, ids, k - 1), xs[k - 1], ids[k - 1], xs[i], id);
      }
    }
  }

  /** Node i against the first k identifiers: the integer differences. */
  lemma {:induction false} DiffCast(ids: seq<int>, n: nat, i: nat, id: int, k: nat)
    requires Players(ids, n) && k <= |ids| && i <= |ids|
    requires id == if i < |ids| then ids[i] else 0
    ensures DD.Diff(Nodes(ids), i, k) == Differences(id, ids, k) as real
  {
    DiffCastAt(ids, Nodes(ids), i, id, k);
  }

  lemma {:induction false} OwnFactor(ids: seq<int>, n: nat, i: nat, k: nat)
    requires Players(ids, n) && i < |ids| && k <= |ids|
    ensures k <= i ==> Others(ids[i], ids, k) == Differences(0, ids, k)
    ensures k > i ==> Others(ids[i], ids, k) * ids[i] == Differences(0, ids, k)
  {
    if k > 0 {
      OwnFactor(ids, n, i, k - 1);
      if k - 1 > i {
        SwapFactors(Others(ids[i], ids, k - 1), ids[k - 1], ids[i]);
      }
    }
  }

  lemma {:induction false} RealTerm(c: real, d: real, f: real, o: real, x: real, p: real, q: real, e: real)
    requires d != 0.0 && x != 0.0 && e != 0.0
    requires DD.Times(c, d) == DD.Times(f, o) && DD.Times(o, x) == p && e == d * (0.0 - x)
    ensures DD.Times(c, q) == DD.Times(-DD.Times(f, p), q / e)
  {
    var u := q / e;
    assert u * e == q;
    assert c * (u * (d * (0.0 - x))) == -(((c * d) * x) * u);
    assert (f * o) * x == f * (o * x);
  }

  /** c is a weight, d its differences, f = n!, o the other identifiers, x its own. */
  lemma {:induction false} WeightAsTerm(c: int, d: int, f: int, o: int, x: int, p: int, q: int, e: real)
    requires d != 0 && x != 0 && e != 0.0
    requires c * d == f * o && o * x == p && e == d as real * (0.0 - x as real)
    ensures Product2(c, q) as real == DD.Times(-DD.Times(f as real, p as real), q as real / e)
  {
    CastTimes(c, d);
    CastTimes(f, o);
    CastTimes(o, x);
    CastTimes(c, q);
    RealTerm(c as real, d as real, f as real, o as real, x as real, p as real, q as real, e);
  }

  lemma {:induction false} LastFactor(ids: seq<int>, n: nat, i: nat)
    requires Players(ids, n) && i < |ids|
    ensures DD.Distinct(Nodes(ids)) && DD.Diff(Nodes(ids), i, |ids| + 1) != 0.0
    ensures DD.Diff(Nodes(ids), i, |ids| + 1)
         == Differences(ids[i], ids, |ids|) as real * (0.0 - ids[i] as real)
  {
    NodesDistinct(ids, n);
    DD.DiffNonzero(Nodes(ids), i, |ids| + 1);
    DiffCast(ids, n, i, ids[i], |ids|);
  }

  function Scale(ids: seq<int>, n: nat): real {
    -DD.Times(Factorial(n) as real, Differences(0, ids, |ids|) as real)
  }

  lemma {:induction false} WeightedPower(ids: seq<int>, n: nat, ws: seq<int>, i: nat, k: nat)
    requires Players(ids, n) && i < |ids| && Lagrange(ids, n, ws)
    ensures DD.Distinct(Nodes(ids))
    ensures Product2(ws[i], IPow(ids[i], k)) as real == DD.Times(Scale(ids, n), DD.Term(Nodes(ids), i, k))
  {
    var m, x := |ids|, ids[i];
    LastFactor(ids, n, i);
    DifferencesNonzero(x, ids, m);
    PowCast(x, k);
    OwnFactor(ids, n, i, m);
    WeightAsTerm(ws[i], Differences(x, ids, m), Factorial(n), Others(x, ids, m), x,
                 Differences(0, ids, m), IPow(x, k), DD.Diff(Nodes(ids), i, m + 1));
  }

  /** The k-th powers of the identifiers. */
  function Powers(ids: seq<int>, k: nat): seq<int> {
    seq(|ids|, i requires 0 <= i < |ids| => IPow(ids[i], k))
  }

  lemma {:induction false} SumTerms(ws: seq<int>, vs: seq<int>, xs: seq<real>, s: real, k: nat, j: nat)
    requires j <= |ws| == |vs| < |xs| && DD.Distinct(xs)
    requires forall i :: 0 <= i < |ws| ==> Product2(ws[i], vs[i]) as real == DD.Times(s, DD.Term(xs, i, k))
    ensures Weigh(ws, vs, j) as real == DD.Times(s, DD.Terms(xs, k, j))
  {
    if j > 0 {
      SumTerms(ws, vs, xs, s, k, j - 1);
      DD.Distribute(s, DD.Terms(xs, k, j - 1), DD.Term(xs, j - 1, k));
    }
  }

  lemma {:induction false} ZeroTerm(f: real, p: real, q: real, t: real)
    requires p != 0.0 && t + q / p == 0.0
    ensures DD.Times(-DD.Times(f, p), t) == DD.Times(f, q)
  {
    assert (q / p) * p == q;
    assert -(f * p) * -(q / p) == f * ((q / p) * p);
  }

  lemma {:induction false} LastTerm(ids: seq<int>, n: nat, k: nat)
    requires Players(ids, n) && k < |ids|
    ensures DD.Distinct(Nodes(ids)) && Differences(0, ids, |ids|) != 0
    ensures DD.Terms(Nodes(ids), k, |ids|) + IPow(0, k) as real / Differences(0, ids, |ids|) as real == 0.0
  {
    NodesDistinct(ids, n);
    DifferencesNonzero(0, ids, |ids|);
    DD.Vanishes(Nodes(ids), k);
    DiffCast(ids, n, |ids|, 0, |ids|);
    PowCast(0, k);
    assert DD.Term(Nodes(ids), |ids|, k) == IPow(0, k) as real / Differences(0, ids, |ids|) as real;
  }

  /** The weighted sum of k-th powers is n! for k = 0 and zero for every other k below |ids|. */
  lemma {:induction false} Moments(ids: seq<int>, n: nat, ws: seq<int>, k: nat)
    requires Players(ids, n) && Lagrange(ids, n, ws) && k < |ids|
    ensures Weigh(ws, Powers(ids, k), |ids|) == if k == 0 then Factorial(n) else 0
  {
    var vs := Powers(ids, k);
    LastTerm(ids, n, k);
    forall i | 0 <= i < |ws|
      ensures Product2(ws[i], vs[i]) as real == DD.Times(Scale(ids, n), DD.Term(Nodes(ids), i, k))
    {
      WeightedPower(ids, n, ws, i, k);
    }
    SumTerms(ws, vs, Nodes(ids), Scale(ids, n), k, |ids|);
    ZeroTerm(Factorial(n) as real, Differences(0, ids, |ids|) as real, IPow(0, k) as real,
             DD.Terms(Nodes(ids), k, |ids|));
    CastTimes(Factorial(n), IPow(0, k));
  }

  // ---------------------------------------------------------------- polynomials

  /** Weighing is linear. */
  lemma {:induction false} WeighLinear(ws: seq<int>, c: int, us: seq<int>, vs: seq<int>, ts: seq<int>, j: nat)
    requires j <= |ws| == |us| == |vs| == |ts|
    requires forall i :: 0 <= i < |ws| ==> ts[i] == Product2(c, us[i]) + vs[i]
    ensures Weigh(ws, ts, j) == Product2(c, Weigh(ws, us, j)) + Weigh(ws, vs, j)
  {
    if j > 0 {
      WeighLinear(ws, c, us, vs, ts, j - 1);
      LinearStep(ws[j - 1], c, us[j - 1], vs[j - 1], Weigh(ws, us, j - 1));
    }
  }

  lemma {:induction false} LinearStep(w: int, c: int, u: int, v: int, s: int)
    ensures Product2(w, Product2(c, u) + v) == Product2(c, Product2(w, u)) + Product2(w, v)
    ensures Product2(c, s + Product2(w, u)) == Product2(c, s) + Product2(c, Product2(w, u))
  {
    assert w * (c * u) == c * (w * u);
  }

  lemma {:induction false} WeighZeros(ws: seq<int>, vs: seq<int>, j: nat)
    requires j <= |ws| == |vs| && forall i :: 0 <= i < |vs| ==> vs[i] == 0
    ensures Weigh(ws, vs, j) == 0
  {
    if j > 0 {
      WeighZeros(ws, vs, j - 1);
    }
  }

  /** x^k times the polynomial, at every identifier. */
  function ShiftedValues(ids: seq<int>, cs: seq<int>, k: nat): seq<int> {
    seq(|ids|, i requires 0 <= i < |ids| => Product2(IPow(ids[i], k), Eval(cs, ids[i])))
  }

  lemma {:induction false} ShiftStep(p: int, c: int, x: int, e: int)
    ensures Product2(p, c + x * e) == Product2(c, p) + Product2(x * p, e)
  {
    assert p * (x * e) == (x * p) * e;
  }

  lemma {:induction false} ShiftedMoment(ids: seq<int>, n: nat, ws: seq<int>, cs: seq<int>, k: nat)
    requires Players(ids, n) && Lagrange(ids, n, ws) && k + |cs| <= |ids|
    ensures Weigh(ws, ShiftedValues(ids, cs, k), |ids|)
         == if k == 0 && |cs| > 0 then Product2(cs[0], Factorial(n)) else 0
    decreases |cs|
  {
    var ts := ShiftedValues(ids, cs, k);
    if |cs| == 0 {
      WeighZeros(ws, ts, |ids|);
    } else {
      var us, vs := Powers(ids, k), ShiftedValues(ids, cs[1..], k + 1);
      forall i | 0 <= i < |ids| ensures ts[i] == Product2(cs[0], us[i]) + vs[i] {
        ShiftStep(IPow(ids[i], k), cs[0], ids[i], Eval(cs[1..], ids[i]));
      }
      WeighLinear(ws, cs[0], us, vs, ts, |ids|);
      Moments(ids, n, ws, k);
      ShiftedMoment(ids, n, ws, cs[1..], k + 1);
    }
  }

  /** The polynomial at every identifier. */
  function Values(ids: seq<int>, cs: seq<int>): (vs: seq<int>)
    ensures |vs| == |ids|
  {
    seq(|ids|, i requires 0 <= i < |ids| => Eval(cs, ids[i]))
  }

  /** Over at least |cs| identifiers, the weighted values recover n! times the constant term. */
  lemma {:induction false} Recovers(ids: seq<int>, n: nat, ws: seq<int>, cs: seq<int>)
    requires Players(ids, n) && Lagrange(ids, n, ws) && 1 <= |cs| <= |ids|
    ensures Weigh(ws, Values(ids, cs), |ids|) == cs[0] * Factorial(n)
  {
    ShiftedMoment(ids, n, ws, cs, 0);
    assert Values(ids, cs) == ShiftedValues(ids, cs, 0);
  }
}

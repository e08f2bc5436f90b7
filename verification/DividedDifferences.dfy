/**
 Divided differences of powers over distinct nodes vanish below the number of nodes. This is
 the algebra behind interpolation at zero (signer/tsed25519/ed25519.go, CombineShares).
 */
module DividedDifferences {

  function Pow(x: real, k: nat): real {
    if k == 0 then 1.0 else x * Pow(x, k - 1)
  }

  /** The product of xs[j] - xs[i] over j < n, j != i. */
  function Diff(xs: seq<real>, i: nat, n: nat): real
    requires i < |xs| && n <= |xs|
  {
    if n == 0 then 1.0
    else if n - 1 == i then Diff(xs, i, n - 1)
    else Diff(xs, i, n - 1) * (xs[n - 1] - xs[i])
  }

  ghost predicate Distinct(xs: seq<real>) {
    forall i, j :: 0 <= i < j < |xs| ==> xs[i] != xs[j]
  }

  lemma {:induction false} DiffNonzero(xs: seq<real>, i: nat, n: nat)
    requires i < |xs| && n <= |xs| && Distinct(xs)
    ensures Diff(xs, i, n) != 0.0
  {
    if n > 0 {
      DiffNonzero(xs, i, n - 1);
    }
  }

  function Term(xs: seq<real>, i: nat, k: nat): real
    requires i < |xs| && Distinct(xs)
  {
    DiffNonzero(xs, i, |xs|);
    Pow(xs[i], k) / Diff(xs, i, |xs|)
  }

  /** The first n terms of the divided difference of x^k over the nodes xs. */
  function Terms(xs: seq<real>, k: nat, n: nat): real
    requires n <= |xs| && Distinct(xs)
  {
    if n == 0 then 0.0 else Terms(xs, k, n - 1) + Term(xs, n - 1, k)
  }

  function DividedDifference(xs: seq<real>, k: nat): real
    requires Distinct(xs)
  {
    Terms(xs, k, |xs|)
  }

  function Times(x: real, y: real): real {
    x * y
  }

  lemma {:induction false} Quotient(p: real, d: real)
    requires d != 0.0
    ensures Times(p / d, d) == p
  {
  }

  /** A term times its difference product is the power. */
  lemma {:induction false} TermSpec(xs: seq<real>, i: nat, k: nat)
    requires i < |xs| && Distinct(xs)
    ensures Diff(xs, i, |xs|) != 0.0
    ensures Times(Term(xs, i, k), Diff(xs, i, |xs|)) == Pow(xs[i], k)
  {
    DiffNonzero(xs, i, |xs|);
    Quotient(Pow(xs[i], k), Diff(xs, i, |xs|));
  }

  lemma {:induction false} EqualByFactor(a: real, b: real, e: real)
    requires e != 0.0 && Times(a, e) == Times(b, e)
    ensures a == b
  {
    assert (a - b) * e == 0.0;
  }

  /** t, t' and u are the terms for p over e, x p over e and p over d, where e has one factor more. */
  lemma {:induction false} CancelFactor(t: real, t': real, u: real, p: real, d: real, e: real, x: real, z: real)
    requires e != 0.0 && e == Times(d, z - x)
    requires Times(t, e) == p && Times(t', e) == Times(x, p) && Times(u, d) == p
    ensures Times(z, t) - t' == u
  {
    assert Times(Times(z, t) - t', e) == z * (t * e) - t' * e == (z - x) * p;
    assert Times(u, e) == (u * d) * (z - x);
    EqualByFactor(Times(z, t) - t', u, e);
  }

  lemma {:induction false} DiffPrefix(xs: seq<real>, ys: seq<real>, i: nat, n: nat)
    requires i < |ys| && n <= |ys| && |ys| <= |xs| && ys == xs[..|ys|]
    ensures Diff(xs, i, n) == Diff(ys, i, n)
  {
    if n > 0 {
      DiffPrefix(xs, ys, i, n - 1);
    }
  }

  lemma {:induction false} Distribute(z: real, a: real, b: real)
    ensures Times(z, a + b) == Times(z, a) + Times(z, b)
  {
  }

  lemma {:induction false} OwnTerm(xs: seq<real>, i: nat, k: nat)
    requires i < |xs| && Distinct(xs)
    ensures Term(xs, i, k + 1) == Times(xs[i], Term(xs, i, k))
  {
    TermSpec(xs, i, k);
    TermSpec(xs, i, k + 1);
    OneMore(Term(xs, i, k), Term(xs, i, k + 1), Pow(xs[i], k), Diff(xs, i, |xs|), xs[i]);
  }

  lemma {:induction false} OneMore(t: real, t': real, p: real, e: real, x: real)
    requires e != 0.0 && Times(t, e) == p && Times(t', e) == x * p
    ensures t' == Times(x, t)
  {
    assert Times(Times(x, t), e) == x * (t * e);
    EqualByFactor(t', Times(x, t), e);
  }

  /** Dropping the last node cancels its factor from every other term. */
  lemma {:induction false} DropLastTerm(xs: seq<real>, i: nat, k: nat)
    requires i < |xs| - 1 && Distinct(xs)
    ensures Distinct(xs[..|xs| - 1])
    ensures Times(xs[|xs| - 1], Term(xs, i, k)) - Term(xs, i, k + 1) == Term(xs[..|xs| - 1], i, k)
  {
    var z, ys := xs[|xs| - 1], xs[..|xs| - 1];
    DiffPrefix(xs, ys, i, |ys|);
    DiffNonzero(ys, i, |ys|);
    TermSpec(ys, i, k);
    TermSpec(xs, i, k);
    TermSpec(xs, i, k + 1);
    CancelFactor(Term(xs, i, k), Term(xs, i, k + 1), Term(ys, i, k), Pow(xs[i], k),
                 Diff(ys, i, |ys|), Diff(xs, i, |xs|), xs[i], z);
  }

  lemma {:induction false} DropLastTerms(xs: seq<real>, k: nat, n: nat)
    requires n < |xs| && Distinct(xs)
    ensures Distinct(xs[..|xs| - 1])
    ensures Times(xs[|xs| - 1], Terms(xs, k, n)) - Terms(xs, k + 1, n) == Terms(xs[..|xs| - 1], k, n)
  {
    if n > 0 {
      DropLastTerms(xs, k, n - 1);
      DropLastTerm(xs, n - 1, k);
      Distribute(xs[|xs| - 1], Terms(xs, k, n - 1), Term(xs, n - 1, k));
    }
  }

  lemma {:induction false} DropLast(xs: seq<real>, k: nat)
    requires |xs| >= 1 && Distinct(xs)
    ensures Distinct(xs[..|xs| - 1])
    ensures DividedDifference(xs, k + 1)
         == Times(xs[|xs| - 1], DividedDifference(xs, k)) - DividedDifference(xs[..|xs| - 1], k)
  {
    var m := |xs| - 1;
    DropLastTerms(xs, k, m);
    OwnTerm(xs, m, k);
    Distribute(xs[m], Terms(xs, k, m), Term(xs, m, k));
  }

  lemma {:induction false} SwapFactors(a: real, b: real, d: real, e: real, f: real)
    requires a == d * e && b == d * f
    ensures a * f == b * e
  {
  }

  lemma {:induction false} DiffTail(xs: seq<real>, i: nat, n: nat)
    requires |xs| >= 1 && i < |xs| - 1 && n <= |xs| - 1
    ensures Diff(xs, i + 1, n + 1) == Diff(xs[1..], i, n) * (xs[0] - xs[i + 1])
  {
    if n == 0 {
      assert Diff(xs, i + 1, 1) == Diff(xs, i + 1, 0) * (xs[0] - xs[i + 1]);
    } else {
      DiffTail(xs, i, n - 1);
      var ys := xs[1..];
      assert ys[i] == xs[i + 1] && ys[n - 1] == xs[n];
      if n - 1 != i {
        SwapFactors(Diff(xs, i + 1, n), Diff(ys, i, n), Diff(ys, i, n - 1), xs[0] - xs[i + 1], xs[n] - xs[i + 1]);
      }
    }
  }

  lemma {:induction false} DropFirstTerm(xs: seq<real>, i: nat, k: nat)
    requires i < |xs| - 1 && Distinct(xs)
    ensures Distinct(xs[1..])
    ensures Times(xs[0], Term(xs, i + 1, k)) - Term(xs, i + 1, k + 1) == Term(xs[1..], i, k)
  {
    var z, ys, x := xs[0], xs[1..], xs[i + 1];
    assert Distinct(ys) && ys[i] == x;
    DiffTail(xs, i, |ys|);
    DiffNonzero(ys, i, |ys|);
    TermSpec(ys, i, k);
    TermSpec(xs, i + 1, k);
    TermSpec(xs, i + 1, k + 1);
    CancelFactor(Term(xs, i + 1, k), Term(xs, i + 1, k + 1), Term(ys, i, k), Pow(x, k),
                 Diff(ys, i, |ys|), Diff(xs, i + 1, |xs|), x, z);
  }

  lemma {:induction false} DropFirstTerms(xs: seq<real>, k: nat, n: nat)
    requires n < |xs| && Distinct(xs)
    ensures Distinct(xs[1..])
    ensures Times(xs[0], Terms(xs, k, n + 1)) - Terms(xs, k + 1, n + 1) == Terms(xs[1..], k, n)
  {
    assert Distinct(xs[1..]);
    if n == 0 {
      OwnTerm(xs, 0, k);
      Distribute(xs[0], Terms(xs, k, 0), Term(xs, 0, k));
    } else {
      DropFirstTerms(xs, k, n - 1);
      DropFirstTerm(xs, n - 1, k);
      Distribute(xs[0], Terms(xs, k, n), Term(xs, n, k));
    }
  }

  lemma {:induction false} DropFirst(xs: seq<real>, k: nat)
    requires |xs| >= 1 && Distinct(xs)
    ensures Distinct(xs[1..])
    ensures DividedDifference(xs, k + 1)
         == Times(xs[0], DividedDifference(xs, k)) - DividedDifference(xs[1..], k)
  {
    DropFirstTerms(xs, k, |xs| - 1);
  }

  /** Over m distinct nodes the divided difference of x^k is zero for every k < m - 1. */
  lemma {:induction false} Vanishes(xs: seq<real>, k: nat)
    requires Distinct(xs) && k + 2 <= |xs|
    ensures DividedDifference(xs, k) == 0.0
    decreases |xs|, k
  {
    var m := |xs|;
    if k > 0 {
      DropLast(xs, k - 1);
      Vanishes(xs, k - 1);
      Vanishes(xs[..m - 1], k - 1);
    } else {
      DropLast(xs, 0);
      DropFirst(xs, 0);
      if m == 2 {
        Single(xs[1..]);
        Single(xs[..m - 1]);
      } else {
        Vanishes(xs[1..], 0);
        Vanishes(xs[..m - 1], 0);
      }
      EqualSlopes(xs[m - 1], xs[0], DividedDifference(xs, 0));
    }
  }

  lemma {:induction false} Single(xs: seq<real>)
    requires |xs| == 1
    ensures Distinct(xs) && DividedDifference(xs, 0) == 1.0
  {
    assert Diff(xs, 0, 1) == Diff(xs, 0, 0) == 1.0;
    assert Terms(xs, 0, 1) == Terms(xs, 0, 0) + Term(xs, 0, 0);
  }

  lemma {:induction false} EqualSlopes(a: real, b: real, d: real)
    requires a != b && Times(a, d) == Times(b, d)
    ensures d == 0.0
  {
    assert (a - b) * d == 0.0;
  }
}

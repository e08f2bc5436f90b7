/**
 Splitting a secret into shares and combining shares again (signer/tsed25519/ed25519.go,
 DealShares and CombineShares).
 */
module Shares {
  import opened Wrappers
  import opened Bytes
  import opened GoInt
  import opened Omega
  import opened Interpolation
  import opened Residues
  import opened Modular

  // ---------------------------------------------------------------- dealing

  const TWO256: nat := 0x1_0000000000000000_0000000000000000_0000000000000000_0000000000000000

  /** The polynomial that is shared: the secret first, then the random coefficients. */
  function Polynomial(secret: seq<Byte>, random: seq<nat>): (cs: seq<int>)
    ensures |cs| == |random| + 1
  {
    [LE(secret)] + random
  }

  /**
   What ends up in the share of cosigner x: the polynomial at x modulo L. A polynomial of one
   coefficient is never reduced, only cut to 32 bytes.
   */
  function ShareValue(cs: seq<int>, x: int): int
    requires |cs| >= 1
  {
    if |cs| == 1 then cs[0] % TWO256 else Eval(cs, x) % L
  }

  lemma {:induction false} LowPart(a: int, b: int, q: int, m: nat)
    requires a == b + m * q && 0 <= b < m
    ensures a % m == b
  {
    ShiftByMultiple(a, b, q, m);
    SmallResidue(b, m);
  }

  lemma {:induction false} TakeValue(b: seq<Byte>, n: nat)
    requires n <= |b|
    ensures LE(b[..n]) == LE(b) % Pow256(n)
  {
    var lo, hi := b[..n], b[n..];
    assert b == lo + hi;
    LEAppend(lo, hi);
    LEBound(lo);
    assert |lo| == n;
    LowPart(LE(b), LE(lo), LE(hi), Pow256(n));
  }

  /** Copying into 32 bytes keeps the value modulo 256^32. */
  lemma {:induction false} ScalarBytesWrap(n: nat)
    ensures LE(ScalarBytes(n)) == n % TWO256
  {
    var r := Reversed(BigBytes(n));
    Pow256At32();
    if |r| <= 32 {
      LEBound(r);
      PowOrder(|r|, 32);
      ScalarBytesValue(n);
      SmallResidue(n, TWO256);
    } else {
      TakeValue(r, 32);
    }
  }

  lemma {:induction false} Pow256At32()
    ensures Pow256(32) == TWO256 > L
  {
    assert Pow256(8) == 0x1_0000000000000000;
    assert Pow256(16) == 0x1_0000000000000000_0000000000000000;
    assert Pow256(24) == 0x1_0000000000000000_0000000000000000_0000000000000000;
  }

  lemma {:induction false} HornerStep(v: int, e: int, x: int, c: int)
    requires v % L == e % L
    ensures (v * x + c) % L == (c + x * e) % L
  {
    TimesCongruent(v, e, x, L);
    AddCongruent(v * x, e * x, c, c, L);
    assert e * x == x * e;
  }

  /** One share by Horner's rule, reducing after every step. */
  method Horner(cs: seq<nat>, x: nat) returns (v: nat)
    requires |cs| >= 1
    ensures v == if |cs| == 1 then cs[0] else Eval(cs, x) % L
  {
    v := cs[|cs| - 1];
    ghost var ints: seq<int> := cs;
    assert ints[|cs| - 1..] == [v];
    assert Eval([], x) == 0;
    for j := |cs| - 1 downto 0
      invariant v % L == Eval(ints[j..], x) % L
      invariant v == if j == |cs| - 1 then cs[|cs| - 1] else Eval(ints[j..], x) % L
    {
      assert ints[j..][1..] == ints[j + 1..];
      HornerStep(v, Eval(ints[j + 1..], x), x, cs[j]);
      v := (v * x + cs[j]) % L;
      ModTwice(Eval(ints[j..], x), L);
    }
    assert ints[0..] == cs;
  }

  /** The bytes dealt to cosigner x. */
  predicate IsShare(cs: seq<int>, x: int, share: seq<Byte>)
    requires |cs| >= 1
  {
    |share| == 32 && LE(share) == ShareValue(cs, x)
  }

  lemma {:induction false} ShareBytes(cs: seq<nat>, x: int, v: nat)
    requires |cs| >= 1 && v == if |cs| == 1 then cs[0] else Eval(cs, x) % L
    ensures IsShare(cs, x, ScalarBytes(v))
  {
    ScalarBytesWrap(v);
    Pow256At32();
    if |cs| > 1 {
      SmallResidue(v, TWO256);
    }
  }

  method DealOne(cs: seq<nat>, x: nat) returns (share: seq<Byte>)
    requires |cs| >= 1
    ensures IsShare(cs, x, share)
  {
    var v := Horner(cs, x);
    ShareBytes(cs, x, v);
    share := ScalarBytes(v);
  }

  /** Share k is that of cosigner k + 1. */
  ghost predicate AllShares(cs: seq<int>, shares: seq<seq<Byte>>)
    requires |cs| >= 1
  {
    forall k :: 0 <= k < |shares| ==> IsShare(cs, k + 1, shares[k])
  }

  lemma {:induction false} OneMoreShare(cs: seq<int>, shares: seq<seq<Byte>>, share: seq<Byte>)
    requires |cs| >= 1 && AllShares(cs, shares) && IsShare(cs, |shares| + 1, share)
    ensures AllShares(cs, shares + [share])
  {
  }

  method DealShares(secret: seq<Byte>, random: seq<nat>, threshold: nat, total: nat) returns (shares: seq<seq<Byte>>)
    requires 1 <= threshold <= 255 && total <= 255
    requires |random| == threshold - 1 && forall j :: 0 <= j < |random| ==> random[j] < L
    ensures |shares| == total
    ensures forall i :: 0 <= i < total ==> IsShare(Polynomial(secret, random), i + 1, shares[i])
  {
    var reversed := Reverse(secret);
    ReversedTwice(secret);
    var cs: seq<nat> := [LE(Reversed(reversed))] + random;
    assert cs == Polynomial(secret, random);
    shares := [];
    for i := 0 to total
      invariant |shares| == i && AllShares(cs, shares)
    {
      var share := DealOne(cs, i + 1);
      OneMoreShare(cs, shares, share);
      shares := shares + [share];
    }
  }

  /** A share is the polynomial at its identifier modulo L, unless an over-long secret was cut. */
  lemma {:induction false} ShareCongruent(secret: seq<Byte>, random: seq<nat>, x: int)
    requires |secret| <= 32 || |random| > 0
    ensures ShareValue(Polynomial(secret, random), x) % L == Eval(Polynomial(secret, random), x) % L
  {
    var cs := Polynomial(secret, random);
    if |cs| == 1 {
      assert cs[1..] == [];
      assert Eval(cs, x) == cs[0];
      LEBound(secret);
      PowOrder(|secret|, 32);
      Pow256At32();
      SmallResidue(cs[0], TWO256);
    } else {
      ModTwice(Eval(cs, x), L);
    }
  }

  lemma {:induction false} PowOrder(m: nat, n: nat)
    requires m <= n
    ensures Pow256(m) <= Pow256(n)
  {
    if m < n {
      PowOrder(m, n - 1);
    }
  }

  // ---------------------------------------------------------------- combining

  /** The running sum over the first j shares: every product is reduced, the sum is not. */
  function PartialSum(ids: seq<Int64>, delta: nat, vs: seq<int>, j: nat): int
    requires j <= |ids| <= |vs|
  {
    if j == 0 then 0
    else PartialSum(ids, delta, vs, j - 1) + (vs[j - 1] * CodeOmega(ids[j - 1], ids, delta)) % L
  }

  /** ModInverse leaves its receiver alone when there is no inverse. */
  function InverseOrSelf(delta: nat): int {
    match ModInverse(delta, L)
    case Some(v) => v
    case None => delta
  }

  function CombinedValue(total: nat, ids: seq<Int64>, vs: seq<int>): int
    requires |ids| <= |vs|
  {
    (PartialSum(ids, Factorial(total), vs, |ids|) * InverseOrSelf(Factorial(total))) % L
  }

  function ShareNumbers(shares: seq<seq<Byte>>): (vs: seq<int>)
    ensures |vs| == |shares|
  {
    seq(|shares|, i requires 0 <= i < |shares| => LE(shares[i]))
  }

  method CombineShares(total: nat, ids: seq<Int64>, shares: seq<seq<Byte>>) returns (combined: seq<Byte>)
    requires total <= 255 && |ids| <= |shares|
    ensures |combined| == 32 && LE(combined) == CombinedValue(total, ids, ShareNumbers(shares))
  {
    var delta := 1;
    for i := 0 to total
      invariant delta == Factorial(i)
    {
      delta := (i + 1) * delta;
    }
    var secret: nat := 0;
    for i := 0 to |ids|
      invariant secret == PartialSum(ids, delta, ShareNumbers(shares), i)
    {
      var omega := CalcOmega(ids[i], ids, delta);
      var reversed := Reverse(shares[i]);
      ReversedTwice(shares[i]);
      var shareNum := (LE(Reversed(reversed)) * omega) % L;
      secret := secret + shareNum;
    }
    var inverse := InverseOrSelf(delta);
    secret := (secret * inverse) % L;
    combined := ScalarBytes(secret);
    Pow256At32();
    ScalarBytesValue(secret);
  }

  // ---------------------------------------------------------------- correctness

  lemma {:induction false} InverseProduct(a: int, u: int, b: int, v: int)
    requires (a * u) % L == 1 && (b * v) % L == 1
    ensures ((a * b) * (u * v)) % L == 1
  {
    assert (a * b) * (u * v) == (a * u) * (b * v);
    TimesCongruent(a * u, 1, b * v, L);
  }

  lemma {:induction false} FactorialInverse(n: nat, top: nat) returns (v: int)
    requires n <= top && Coprime(L, top)
    ensures (Factorial(n) * v) % L == 1
  {
    if n == 0 {
      v := 1;
    } else {
      var u := SmallInverse(top, n);
      var w := FactorialInverse(n - 1, top);
      InverseProduct(n, u, Factorial(n - 1), w);
      v := u * w;
    }
  }

  /** For every configurable total, n! has an inverse modulo L and ModInverse finds it. */
  lemma {:induction false} DeltaInvertible(total: nat)
    requires total <= 255
    ensures (Factorial(total) * InverseOrSelf(Factorial(total))) % L == 1
  {
    SmallFactors();
    var v := FactorialInverse(total, 255);
    ModInverseFound(Factorial(total), L, v);
  }

  /** Every coefficient the combination uses fits an int64. */
  ghost predicate Fits(total: nat, ids: seq<int>) {
    forall i :: 0 <= i < |ids| ==> Factorial(total) * Others(ids[i], ids, |ids|) < TWO63
  }

  function Coefficients(total: nat, ids: seq<int>): (ws: seq<int>)
    ensures |ws| == |ids|
  {
    seq(|ids|, i requires 0 <= i < |ids| => Coefficient(ids[i], ids, total))
  }

  lemma {:induction false} CoefficientsAreLagrange(total: nat, ids: seq<int>)
    requires Players(ids, total)
    ensures Lagrange(ids, total, Coefficients(total, ids))
  {
    forall i | 0 <= i < |ids|
      ensures Coefficients(total, ids)[i] * Differences(ids[i], ids, |ids|)
           == Factorial(total) * Others(ids[i], ids, |ids|)
    {
      CoefficientExact(ids[i], ids, total);
    }
  }

  lemma {:induction false} ReducedTerm(s: int, t: int, w: int, v: int)
    requires s % L == t % L
    ensures (s + (v * w) % L) % L == (t + Product2(w, v)) % L
  {
    ModTwice(v * w, L);
    AddCongruent(s, t, (v * w) % L, v * w, L);
  }

  lemma {:induction false} PartialSumIsWeigh(ids: seq<Int64>, delta: nat, ws: seq<int>, vs: seq<int>, j: nat)
    requires j <= |ids| == |ws| == |vs|
    requires forall i :: 0 <= i < |ids| ==> ws[i] == CodeOmega(ids[i], ids, delta)
    ensures PartialSum(ids, delta, vs, j) % L == Weigh(ws, vs, j) % L
  {
    if j > 0 {
      PartialSumIsWeigh(ids, delta, ws, vs, j - 1);
      ReducedTerm(PartialSum(ids, delta, vs, j - 1), Weigh(ws, vs, j - 1), ws[j - 1], vs[j - 1]);
    }
  }

  lemma {:induction false} CancelFactorial(s: int, t: int, f: int, v: int)
    requires s % L == (t * f) % L && (f * v) % L == 1
    ensures (s * v) % L == t % L
  {
    TimesCongruent(s, t * f, v, L);
    assert (t * f) * v == (f * v) * t;
    TimesCongruent(f * v, 1, t, L);
  }

  /** If the weighted shares are n! t modulo L, the combination is t modulo L. */
  lemma {:induction false} CombinedFromWeights(total: nat, ids: seq<Int64>, vs: seq<int>, t: int)
    requires total <= 255 && Players(ids, total) && Fits(total, ids) && |ids| == |vs|
    requires Weigh(Coefficients(total, ids), vs, |ids|) % L == (t * Factorial(total)) % L
    ensures CombinedValue(total, ids, vs) == t % L
  {
    var ws := Coefficients(total, ids);
    forall i | 0 <= i < |ids| ensures ws[i] == CodeOmega(ids[i], ids, Factorial(total)) {
      OmegaExact(ids[i], ids, total);
    }
    PartialSumIsWeigh(ids, Factorial(total), ws, vs, |ids|);
    DeltaInvertible(total);
    CancelFactorial(PartialSum(ids, Factorial(total), vs, |ids|), t, Factorial(total),
                    InverseOrSelf(Factorial(total)));
  }

  /** The share numbers of these cosigners are the polynomial at their identifiers, modulo L. */
  ghost predicate OnPolynomial(ids: seq<int>, vs: seq<int>, cs: seq<int>) {
    && |ids| == |vs|
    && forall i :: 0 <= i < |ids| ==> vs[i] % L == Eval(cs, ids[i]) % L
  }

  lemma {:induction false} WeighCongruent(ws: seq<int>, us: seq<int>, vs: seq<int>, j: nat)
    requires j <= |ws| == |us| == |vs|
    requires forall i :: 0 <= i < |ws| ==> us[i] % L == vs[i] % L
    ensures Weigh(ws, us, j) % L == Weigh(ws, vs, j) % L
  {
    if j > 0 {
      WeighCongruent(ws, us, vs, j - 1);
      TimesCongruent(us[j - 1], vs[j - 1], ws[j - 1], L);
      AddCongruent(Weigh(ws, us, j - 1), Weigh(ws, vs, j - 1),
                   Product2(ws[j - 1], us[j - 1]), Product2(ws[j - 1], vs[j - 1]), L);
    }
  }

  lemma {:induction false} WeighShares(total: nat, ids: seq<int>, vs: seq<int>, cs: seq<int>)
    requires Players(ids, total) && 1 <= |cs| <= |ids| && OnPolynomial(ids, vs, cs)
    ensures Weigh(Coefficients(total, ids), vs, |ids|) % L == (cs[0] * Factorial(total)) % L
  {
    CoefficientsAreLagrange(total, ids);
    WeighCongruent(Coefficients(total, ids), vs, Values(ids, cs), |ids|);
    Recovers(ids, total, Coefficients(total, ids), cs);
  }

  /**
   Combining inverts dealing: any distinct cosigners, at least as many as the polynomial has
   coefficients, recover its constant term.
   */
  lemma {:induction false} CombineInvertsDeal(total: nat, ids: seq<Int64>, vs: seq<int>, cs: seq<int>)
    requires total <= 255 && Players(ids, total) && Fits(total, ids)
    requires 1 <= |cs| <= |ids| && OnPolynomial(ids, vs, cs)
    ensures CombinedValue(total, ids, vs) == cs[0] % L
  {
    WeighShares(total, ids, vs, cs);
    CombinedFromWeights(total, ids, vs, cs[0]);
  }

  lemma {:induction false} TwelveAlwaysFit(total: nat, ids: seq<int>)
    requires Players(ids, total) && total <= 12
    ensures Fits(total, ids)
  {
    forall i | 0 <= i < |ids| ensures Factorial(total) * Others(ids[i], ids, |ids|) < TWO63 {
      TwelveFit(ids[i], ids, total);
    }
  }
}

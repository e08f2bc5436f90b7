/**
 Threshold signing is correct: whatever threshold-sized set of cosigners answers, the combined
 signature is the one the whole key would have made, and it satisfies the verification
 equation of section 5.1.7 of RFC 8032.
 */
module SignatureEquation {
  import opened Bytes
  import opened Group
  import opened GoInt
  import opened Omega
  import opened Interpolation
  import opened Modular
  import opened Shares
  import opened ThresholdSigner

  /** The sum of the first n nonce polynomials at x. */
  function NonceAt(dealers: seq<seq<nat>>, x: int, n: nat): int
    requires n <= |dealers|
  {
    if n == 0 then 0 else NonceAt(dealers, x, n - 1) + Eval(dealers[n - 1], x)
  }

  /** The sum of the first n nonce secrets. */
  function NonceSecret(dealers: seq<seq<nat>>, n: nat): nat
    requires n <= |dealers| && forall d :: 0 <= d < |dealers| ==> |dealers[d]| >= 1
  {
    if n == 0 then 0 else NonceSecret(dealers, n - 1) + dealers[n - 1][0]
  }

  function NonceValues(ids: seq<int>, dealers: seq<seq<nat>>, n: nat): (vs: seq<int>)
    requires n <= |dealers|
    ensures |vs| == |ids|
  {
    seq(|ids|, i requires 0 <= i < |ids| => NonceAt(dealers, ids[i], n))
  }

  /** Polynomials a set of m cosigners can interpolate. */
  ghost predicate Dealt(dealers: seq<seq<nat>>, m: nat) {
    forall d :: 0 <= d < |dealers| ==> 1 <= |dealers[d]| <= m
  }

  lemma {:induction false} WeighNonces(total: nat, ids: seq<int>, ws: seq<int>, dealers: seq<seq<nat>>, n: nat)
    requires Players(ids, total) && Lagrange(ids, total, ws)
    requires Dealt(dealers, |ids|) && n <= |dealers|
    ensures Weigh(ws, NonceValues(ids, dealers, n), |ids|) == Product2(NonceSecret(dealers, n), Factorial(total))
  {
    var ts := NonceValues(ids, dealers, n);
    if n == 0 {
      WeighZeros(ws, ts, |ids|);
    } else {
      WeighNonces(total, ids, ws, dealers, n - 1);
      var us, vs := NonceValues(ids, dealers, n - 1), Values(ids, dealers[n - 1]);
      WeighLinear(ws, 1, us, vs, ts, |ids|);
      Recovers(ids, total, ws, dealers[n - 1]);
      SumFactor(NonceSecret(dealers, n - 1), dealers[n - 1][0], Factorial(total));
    }
  }

  lemma {:induction false} SumFactor(a: int, b: int, f: int)
    ensures Product2(a + b, f) == Product2(a, f) + b * f
  {
  }

  lemma {:induction false} ScaleFactor(k: int, a: int, r: int, f: int)
    ensures Product2(k, a * f) + Product2(r, f) == Response(k, a, r) * f
  {
    assert k * (a * f) == (k * a) * f;
  }

  /** Combining shares of k a + r gives k a + r modulo L, for any large enough set of cosigners. */
  lemma {:induction false} CombinedResponse(total: nat, ids: seq<Int64>, vs: seq<int>, key: seq<nat>,
                                            dealers: seq<seq<nat>>, k: nat)
    requires total <= 255 && Players(ids, total) && Fits(total, ids) && |vs| == |ids|
    requires 1 <= |key| <= |ids| && Dealt(dealers, |ids|)
    requires forall i :: 0 <= i < |ids| ==>
      vs[i] % L == Response(k, Eval(key, ids[i]), NonceAt(dealers, ids[i], |dealers|)) % L
    ensures CombinedValue(total, ids, vs) == Response(k, key[0], NonceSecret(dealers, |dealers|)) % L
  {
    var ws, n := Coefficients(total, ids), |dealers|;
    CoefficientsAreLagrange(total, ids);
    var us, ns := Values(ids, key), NonceValues(ids, dealers, n);
    var ts := seq(|ids|, i requires 0 <= i < |ids| => Product2(k, us[i]) + ns[i]);
    WeighCongruent(ws, vs, ts, |ids|);
    WeighLinear(ws, k, us, ns, ts, |ids|);
    Recovers(ids, total, ws, key);
    WeighNonces(total, ids, ws, dealers, n);
    ScaleFactor(k, key[0], NonceSecret(dealers, n), Factorial(total));
    CombinedFromWeights(total, ids, vs, Response(k, key[0], NonceSecret(dealers, n)));
  }

  // ---------------------------------------------------------------- one round of signing

  /** What is being signed, the key that was split, and the nonces dealt for this signature. */
  datatype Round = Round(
    payload: seq<Byte>, total: nat, key: seq<nat>, pubKey: seq<Byte>,
    dealers: seq<seq<nat>>, nonceKeys: seq<seq<Byte>>)

  ghost predicate ValidRound<P(!new)>(c: Curve<P>, r: Round) {
    && r.total <= 255 && |r.key| >= 1
    && c.decode(r.pubKey) == Mul(c.group, r.key[0], c.base)
    && |r.nonceKeys| == |r.dealers|
    && (forall d :: 0 <= d < |r.dealers| ==>
          |r.dealers[d]| >= 1 && |r.nonceKeys[d]| == 32
          && c.decode(r.nonceKeys[d]) == Mul(c.group, r.dealers[d][0] % L, c.base))
  }

  /** A cosigner holding its share of the key and one nonce from every dealer. */
  ghost predicate Participant(r: Round, id: int, s: Signer, nonces: seq<Nonce>) {
    && |s.privateKeyShard| >= 32 && s.pubKey == r.pubKey
    && LE(s.privateKeyShard[..32]) % L == Eval(r.key, id) % L
    && |nonces| == |r.dealers| && PubKeys(nonces) == r.nonceKeys
    && (forall d :: 0 <= d < |nonces| ==> LE(nonces[d].share) % L == Eval(r.dealers[d], id) % L)
  }

  /** Such cosigners' answers, gathered under distinct identifiers. */
  ghost predicate Gathered<P(!new)>(c: Curve<P>, hash: seq<Byte> -> seq<Byte>, r: Round, sigs: seq<PartialSignature>,
                                    signers: seq<Signer>, nonces: seq<seq<Nonce>>)
    requires ValidRound(c, r)
  {
    && |sigs| == |signers| == |nonces|
    && Players(SigIds(sigs), r.total) && Fits(r.total, SigIds(sigs))
    && |r.key| <= |sigs| && Dealt(r.dealers, |sigs|)
    && (forall i :: 0 <= i < |sigs| ==>
          Participant(r, sigs[i].id, signers[i], nonces[i])
          && IsPartial(c, hash, signers[i], nonces[i], r.payload, sigs[i].signature))
  }

  /** What CombineSignatures returns for signatures without a fault. */
  ghost predicate Combined(total: nat, sigs: seq<PartialSignature>, full: seq<Byte>) {
    && |full| == 64 && sigs != [] && |sigs[0].signature| > 32
    && full[..32] == sigs[0].signature[..32]
    && LE(full[32..]) == CombinedValue(total, SigIds(sigs), ShareNumbers(ShareSigs(sigs)))
  }

  /**
   The check a verifier makes (section 5.1.7 of RFC 8032), without the cofactor: S B = R + k A, with
   k the hash of the 32 bytes R, the key A and the message, in this order.
   */
  ghost predicate Verifies<P(!new)>(c: Curve<P>, hash: seq<Byte> -> seq<Byte>, pubKey: seq<Byte>, message: seq<Byte>, sig: seq<Byte>) {
    && |sig| == 64 && LE(sig[32..]) < L
    && Mul(c.group, LE(sig[32..]), c.base)
       == c.group.add(c.decode(sig[..32]), Mul(c.group, LE(hash(sig[..32] + pubKey + message)) % L, c.decode(pubKey)))
  }

  lemma {:induction false} NonceSumCongruent(r: Round, id: int, nonces: seq<Nonce>, n: nat)
    requires n <= |nonces| == |r.dealers|
    requires forall d :: 0 <= d < |nonces| ==> LE(nonces[d].share) % L == Eval(r.dealers[d], id) % L
    ensures SumOf(ShareParts(nonces), n) % L == NonceAt(r.dealers, id, n) % L
  {
    if n > 0 {
      NonceSumCongruent(r, id, nonces, n - 1);
      AddCongruent(SumOf(ShareParts(nonces), n - 1), NonceAt(r.dealers, id, n - 1),
                   LE(nonces[n - 1].share), Eval(r.dealers[n - 1], id), L);
    }
  }

  lemma {:induction false} ResponseCongruent(k: int, a: int, x: int, m: int, y: int)
    requires a % L == x % L && m % L == y % L
    ensures (Response(k, a, m % L) % L) % L == Response(k, x, y) % L
  {
    ModTwice(k * a + m % L, L);
    ModTwice(m, L);
    TimesCongruent(a, x, k, L);
    assert k * a == a * k && k * x == x * k;
    AddCongruent(k * a, k * x, m % L, y, L);
  }

  /** All nonce keys of the round, added up. */
  function RoundKey<P(!new)>(c: Curve<P>, r: Round): P {
    PointSum(c, r.nonceKeys, |r.nonceKeys|)
  }

  /** The challenge of the round: it hashes the summed nonce keys, the public key and the payload. */
  function RoundChallenge<P(!new)>(c: Curve<P>, hash: seq<Byte> -> seq<Byte>, r: Round): nat {
    LE(hash(c.encode(RoundKey(c, r)) + r.pubKey + r.payload)) % L
  }

  /** What the owner of the whole key and of all nonces would answer: k a + r modulo L. */
  function WholeKeyResponse(r: Round, k: nat): nat
    requires |r.key| >= 1 && forall d :: 0 <= d < |r.dealers| ==> |r.dealers[d]| >= 1
  {
    Response(k, r.key[0], NonceSecret(r.dealers, |r.dealers|)) % L
  }

  lemma {:induction false} PartialCongruent<P(!new)>(
      c: Curve<P>, hash: seq<Byte> -> seq<Byte>, r: Round, id: int, s: Signer, nonces: seq<Nonce>, sig: seq<Byte>)
    requires Participant(r, id, s, nonces) && IsPartial(c, hash, s, nonces, r.payload, sig)
    ensures sig[..32] == c.encode(RoundKey(c, r))
    ensures LE(sig[32..]) % L
         == Response(RoundChallenge(c, hash, r), Eval(r.key, id), NonceAt(r.dealers, id, |r.dealers|)) % L
  {
    NonceSumCongruent(r, id, nonces, |r.dealers|);
    ResponseCongruent(RoundChallenge(c, hash, r), LE(s.privateKeyShard[..32]), Eval(r.key, id),
                      SumOf(ShareParts(nonces), |nonces|), NonceAt(r.dealers, id, |r.dealers|));
  }

  /** The scalar of the full signature is r + k a modulo L: it does not depend on who answered. */
  lemma {:induction false} ResponseScalar<P(!new)>(
      c: Curve<P>, hash: seq<Byte> -> seq<Byte>, r: Round, sigs: seq<PartialSignature>,
      signers: seq<Signer>, nonces: seq<seq<Nonce>>, full: seq<Byte>)
    requires ValidRound(c, r) && Gathered(c, hash, r, sigs, signers, nonces)
    requires Combined(r.total, sigs, full)
    ensures full[..32] == c.encode(RoundKey(c, r))
    ensures LE(full[32..]) == WholeKeyResponse(r, RoundChallenge(c, hash, r))
  {
    var k := RoundChallenge(c, hash, r);
    var ids, vs := SigIds(sigs), ShareNumbers(ShareSigs(sigs));
    forall i | 0 <= i < |sigs|
      ensures sigs[i].signature[..32] == c.encode(RoundKey(c, r))
      ensures vs[i] % L == Response(k, Eval(r.key, ids[i]), NonceAt(r.dealers, ids[i], |r.dealers|)) % L
    {
      PartialCongruent(c, hash, r, ids[i], signers[i], nonces[i], sigs[i].signature);
    }
    CombinedResponse(r.total, ids, vs, r.key, r.dealers, k);
  }

  lemma {:induction false} MulZero<P(!new)>(g: Group<P>, q: nat)
    requires Abelian(g)
    ensures Mul(g, q, g.zero) == g.zero
  {
    if q > 0 {
      MulZero(g, q - 1);
      assert Laws(g, g.zero, g.zero, g.zero);
    }
  }

  /** Multiples of the base point only depend on the scalar modulo L. */
  lemma {:induction false} MulModulo<P(!new)>(c: Curve<P>, n: nat)
    requires ValidCurve(c)
    ensures Mul(c.group, n % L, c.base) == Mul(c.group, n, c.base)
  {
    var g, q := c.group, n / L;
    assert n == q * L + n % L;
    MulMul(g, q, L, c.base);
    MulZero(g, q);
    MulAdd(g, q * L, n % L, c.base);
    assert Laws(g, Mul(g, n % L, c.base), g.zero, g.zero);
  }

  /** The nonce keys add up to the sum of the nonce secrets times the base point. */
  lemma {:induction false} RoundKeyValue<P(!new)>(c: Curve<P>, r: Round, n: nat)
    requires ValidCurve(c) && ValidRound(c, r) && n <= |r.dealers|
    ensures PointSum(c, r.nonceKeys, n) == Mul(c.group, NonceSecret(r.dealers, n), c.base)
  {
    if n > 0 {
      RoundKeyValue(c, r, n - 1);
      var s, d := NonceSecret(r.dealers, n - 1), r.dealers[n - 1][0];
      MulModulo(c, d);
      MulAdd(c.group, d, s, c.base);
      assert CopyInto(32, r.nonceKeys[n - 1]) == r.nonceKeys[n - 1];
    }
  }

  lemma {:induction false} EquationFromScalar<P(!new)>(c: Curve<P>, k: nat, a: nat, s: nat)
    requires ValidCurve(c)
    ensures Mul(c.group, Response(k, a, s) % L, c.base)
         == c.group.add(Mul(c.group, s, c.base), Mul(c.group, k, Mul(c.group, a, c.base)))
  {
    MulModulo(c, k * a + s);
    MulAdd(c.group, s, k * a, c.base);
    MulMul(c.group, k, a, c.base);
  }

  /**
   Every set of cosigners of at least threshold size, holding shares of one key and nonces of
   one set of dealers, produces a signature that verifies against the whole key.
   */
  lemma {:induction false} FullSignatureVerifies<P(!new)>(
      c: Curve<P>, hash: seq<Byte> -> seq<Byte>, r: Round, sigs: seq<PartialSignature>,
      signers: seq<Signer>, nonces: seq<seq<Nonce>>, full: seq<Byte>)
    requires ValidCurve(c) && ValidRound(c, r) && Gathered(c, hash, r, sigs, signers, nonces)
    requires Combined(r.total, sigs, full)
    ensures Verifies(c, hash, r.pubKey, r.payload, full)
  {
    ResponseScalar(c, hash, r, sigs, signers, nonces, full);
    RoundKeyValue(c, r, |r.dealers|);
    EquationFromScalar(c, RoundChallenge(c, hash, r), r.key[0], NonceSecret(r.dealers, |r.dealers|));
  }

  /** Any two sets of cosigners that answer the same round end with the same 64 bytes. */
  lemma {:induction false} SubsetIndependent<P(!new)>(
      c: Curve<P>, hash: seq<Byte> -> seq<Byte>, r: Round,
      sigs: seq<PartialSignature>, signers: seq<Signer>, nonces: seq<seq<Nonce>>, full: seq<Byte>,
      sigs': seq<PartialSignature>, signers': seq<Signer>, nonces': seq<seq<Nonce>>, full': seq<Byte>)
    requires ValidCurve(c) && ValidRound(c, r)
    requires Gathered(c, hash, r, sigs, signers, nonces) && Combined(r.total, sigs, full)
    requires Gathered(c, hash, r, sigs', signers', nonces') && Combined(r.total, sigs', full')
    ensures full == full'
  {
    ResponseScalar(c, hash, r, sigs, signers, nonces, full);
    ResponseScalar(c, hash, r, sigs', signers', nonces', full');
    LEInjective(full[32..], full'[32..]);
    assert full == full[..32] + full[32..] && full' == full'[..32] + full'[32..];
  }

  /** Answers of one round are never rejected for their nonce keys. */
  lemma {:induction false} GatheredIsFaultless<P(!new)>(
      c: Curve<P>, hash: seq<Byte> -> seq<Byte>, r: Round, sigs: seq<PartialSignature>,
      signers: seq<Signer>, nonces: seq<seq<Nonce>>)
    requires ValidCurve(c) && ValidRound(c, r) && Gathered(c, hash, r, sigs, signers, nonces)
    ensures Faultless(sigs, |sigs|)
  {
  }
}

/**
 From the key ceremony to a verified signature: the shards, the nonces, the partial signatures
 and their combination as the methods produce them.
 */
module SigningRun {
  import opened Wrappers
  import opened Bytes
  import opened Group
  import opened GoInt
  import opened Omega
  import opened Interpolation
  import opened Modular
  import opened Shares
  import opened ThresholdSigner
  import opened SignatureEquation

  /** The randomness of one dealing: a 32-byte secret and the other coefficients. */
  datatype Draw = Draw(secret: seq<Byte>, random: seq<nat>)

  ghost predicate ValidDraw(d: Draw, threshold: nat) {
    |d.secret| == 32 && |d.random| == threshold - 1 && forall j :: 0 <= j < |d.random| ==> d.random[j] < L
  }

  /** The dealt polynomial, with its coefficients as natural numbers. */
  function Coeffs(d: Draw): (cs: seq<nat>)
    ensures |cs| == |d.random| + 1 && cs[0] == LE(d.secret)
  {
    [LE(d.secret)] + d.random
  }

  lemma {:induction false} DealtShare(d: Draw, threshold: nat, share: seq<Byte>, x: int)
    requires threshold >= 1 && ValidDraw(d, threshold) && IsShare(Polynomial(d.secret, d.random), x, share)
    ensures LE(share) % L == Eval(Coeffs(d), x) % L && |Coeffs(d)| == threshold
  {
    ShareCongruent(d.secret, d.random, x);
    assert Coeffs(d) == Polynomial(d.secret, d.random);
  }

  /** Every cosigner deals nonces for one signature. */
  method DealNonces<P(!new)>(c: Curve<P>, draws: seq<Draw>, threshold: nat, total: nat) returns (dealt: seq<Nonces>)
    requires ValidCurve(c) && 1 <= threshold <= 255 && total <= 255
    requires forall d :: 0 <= d < |draws| ==> ValidDraw(draws[d], threshold)
    ensures |dealt| == |draws|
    ensures forall d :: 0 <= d < |draws| ==> DealtBy(c, draws[d], total, dealt[d])
  {
    dealt := [];
    for d := 0 to |draws|
      invariant |dealt| == d
      invariant forall k :: 0 <= k < d ==> DealtBy(c, draws[k], total, dealt[k])
    {
      var nonces := GenerateNonces(c, draws[d].secret, draws[d].random, threshold, total);
      dealt := dealt + [nonces];
    }
  }

  /** The nonce key and a share of the secret for every cosigner. */
  ghost predicate DealtBy<P(!new)>(c: Curve<P>, d: Draw, total: nat, n: Nonces) {
    && |n.pubKey| == 32 && c.decode(n.pubKey) == Mul(c.group, LE(d.secret) % L, c.base)
    && |n.shares| == total
    && forall i :: 0 <= i < total ==> IsShare(Polynomial(d.secret, d.random), i + 1, n.shares[i])
  }

  /** What reaches cosigner id: one nonce from every dealer. */
  function NoncesFor(dealt: seq<Nonces>, id: nat): (ns: seq<Nonce>)
    requires forall d :: 0 <= d < |dealt| ==> 1 <= id <= |dealt[d].shares|
    ensures |ns| == |dealt|
  {
    seq(|dealt|, d requires 0 <= d < |dealt| => Nonce(0, dealt[d].shares[id - 1], dealt[d].pubKey))
  }

  ghost function RoundOf(key: Draw, pubKey: seq<Byte>, draws: seq<Draw>, dealt: seq<Nonces>, total: nat, payload: seq<Byte>): Round
    requires |dealt| == |draws|
  {
    Round(payload, total, Coeffs(key), pubKey,
          seq(|draws|, d requires 0 <= d < |draws| => Coeffs(draws[d])),
          seq(|dealt|, d requires 0 <= d < |dealt| => dealt[d].pubKey))
  }

  lemma {:induction false} RoundIsValid<P(!new)>(c: Curve<P>, key: Draw, pubKey: seq<Byte>, draws: seq<Draw>, dealt: seq<Nonces>,
                                                 total: nat, payload: seq<Byte>)
    requires ValidCurve(c) && total <= 255 && |dealt| == |draws|
    requires c.decode(pubKey) == Mul(c.group, LE(key.secret) % L, c.base)
    requires forall d :: 0 <= d < |draws| ==> DealtBy(c, draws[d], total, dealt[d])
    ensures ValidRound(c, RoundOf(key, pubKey, draws, dealt, total, payload))
  {
    MulModulo(c, LE(key.secret));
  }

  /** A cosigner with its shard and its nonces is a participant of the round. */
  lemma {:induction false} HolderParticipates<P(!new)>(
      c: Curve<P>, key: Draw, pubKey: seq<Byte>, draws: seq<Draw>, dealt: seq<Nonces>, threshold: nat, total: nat,
      payload: seq<Byte>, shard: seq<Byte>, id: nat)
    requires 1 <= threshold && 1 <= id <= total && |dealt| == |draws|
    requires forall d :: 0 <= d < |dealt| ==> |dealt[d].shares| == total
    requires ValidDraw(key, threshold) && IsShare(Polynomial(key.secret, key.random), id, shard)
    requires forall d :: 0 <= d < |draws| ==> ValidDraw(draws[d], threshold) && DealtBy(c, draws[d], total, dealt[d])
    ensures Participant(RoundOf(key, pubKey, draws, dealt, total, payload), id,
                        Signer(shard, pubKey, threshold, total), NoncesFor(dealt, id))
  {
    var r, ns := RoundOf(key, pubKey, draws, dealt, total, payload), NoncesFor(dealt, id);
    assert shard[..32] == shard;
    DealtShare(key, threshold, shard, id);
    assert PubKeys(ns) == r.nonceKeys;
    forall d | 0 <= d < |ns| ensures LE(ns[d].share) % L == Eval(r.dealers[d], id) % L {
      assert DealtBy(c, draws[d], total, dealt[d]);
      DealtShare(draws[d], threshold, dealt[d].shares[id - 1], id);
    }
  }

  /**
   Deal a key, deal nonces, let any distinct cosigners sign, at least threshold of them, and
   combine: no step fails, and the signature verifies against the key.
   */
  method SignTogether<P(!new)>(c: Curve<P>, hash: seq<Byte> -> seq<Byte>, key: Draw, draws: seq<Draw>,
                               threshold: nat, total: nat, ids: seq<Int64>, payload: seq<Byte>)
    returns (pubKey: seq<Byte>, full: seq<Byte>)
    requires ValidCurve(c) && Digest(hash) && 1 <= threshold <= |ids| && total <= 255
    requires ValidDraw(key, threshold) && forall d :: 0 <= d < |draws| ==> ValidDraw(draws[d], threshold)
    requires Players(ids, total) && Fits(total, ids) && threshold <= total
    ensures c.decode(pubKey) == Mul(c.group, LE(key.secret), c.base)
    ensures Verifies(c, hash, pubKey, payload, full)
  {
    pubKey := ScalarMultiplyBase(c, key.secret);
    MulModulo(c, LE(key.secret));
    var shards := DealShares(key.secret, key.random, threshold, total);
    var dealt := DealNonces(c, draws, threshold, total);
    ghost var r := RoundOf(key, pubKey, draws, dealt, total, payload);
    RoundIsValid(c, key, pubKey, draws, dealt, total, payload);
    var sigs: seq<PartialSignature> := [];
    ghost var signers, nonces := [], [];
    for i := 0 to |ids|
      invariant |sigs| == |signers| == |nonces| == i
      invariant forall k :: 0 <= k < i ==> Signed(c, hash, r, ids[k], signers[k], nonces[k], sigs[k])
    {
      var id: nat := ids[i];
      assert forall d :: 0 <= d < |dealt| ==> DealtBy(c, draws[d], total, dealt[d]);
      HolderParticipates(c, key, pubKey, draws, dealt, threshold, total, payload, shards[id - 1], id);
      var signer, ns := Signer(shards[id - 1], pubKey, threshold, total), NoncesFor(dealt, id);
      var sig := Sign(c, hash, signer, ns, payload);
      sigs := sigs + [PartialSignature(ids[i], sig.value)];
      signers, nonces := signers + [signer], nonces + [ns];
    }
    AllGathered(c, hash, r, ids, sigs, signers, nonces);
    GatheredIsFaultless(c, hash, r, sigs, signers, nonces);
    var combined := CombineSignatures(Signer(shards[0], pubKey, threshold, total), sigs);
    full := combined.value;
    FullSignatureVerifies(c, hash, r, sigs, signers, nonces, full);
  }

  ghost predicate Signed<P(!new)>(c: Curve<P>, hash: seq<Byte> -> seq<Byte>, r: Round, id: int, s: Signer, ns: seq<Nonce>,
                                  sig: PartialSignature)
  {
    sig.id == id && Participant(r, id, s, ns) && IsPartial(c, hash, s, ns, r.payload, sig.signature)
  }

  lemma {:induction false} AllGathered<P(!new)>(c: Curve<P>, hash: seq<Byte> -> seq<Byte>, r: Round, ids: seq<Int64>,
                                                sigs: seq<PartialSignature>, signers: seq<Signer>, nonces: seq<seq<Nonce>>)
    requires ValidRound(c, r) && |sigs| == |signers| == |nonces| == |ids|
    requires Players(ids, r.total) && Fits(r.total, ids) && |r.key| <= |ids| && Dealt(r.dealers, |ids|)
    requires forall k :: 0 <= k < |ids| ==> Signed(c, hash, r, ids[k], signers[k], nonces[k], sigs[k])
    ensures Gathered(c, hash, r, sigs, signers, nonces)
  {
    assert SigIds(sigs) == ids;
  }
}

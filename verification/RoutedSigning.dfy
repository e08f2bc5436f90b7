/**
 From routed nonces to a verified signature: if every cosigner dealt its nonces and the letters
 went the way the leader sends them, the partial signatures of enough chosen cosigners combine.
 */
module RoutedSigning {
  import opened Wrappers
  import opened Bytes
  import opened Group
  import opened GoInt
  import opened Omega
  import opened Modular
  import opened Shares
  import opened Payload
  import opened NonceStore
  import opened ThresholdSigner
  import opened SignatureEquation
  import opened SigningRun
  import opened NonceRouting

  type Draws = nat -> Draw

  /** Every cosigner generated its nonces from its own draw. */
  ghost predicate AllDealt<P(!new)>(c: Curve<P>, made: Made, draws: Draws, threshold: nat, total: nat) {
    forall s :: 1 <= s <= total ==> ValidDraw(draws(s), threshold) && DealtBy(c, draws(s), total, made(s))
  }

  lemma {:induction false} DealtIsComplete<P(!new)>(c: Curve<P>, made: Made, draws: Draws, threshold: nat, total: nat)
    requires AllDealt(c, made, draws, threshold, total)
    ensures Complete(made, total)
  {
    forall s, d | 1 <= s <= total && 0 <= d < total ensures |made(s).shares| == total && made(s).shares[d] != [] {
      assert DealtBy(c, draws(s), total, made(s));
    }
  }

  /** The draws, and the nonces, of these sources in slot order. */
  ghost function DrawsOf(draws: Draws, have: set<int>, n: nat): seq<Draw> {
    if n == 0 then [] else if n in have then DrawsOf(draws, have, n - 1) + [draws(n)] else DrawsOf(draws, have, n - 1)
  }

  ghost function DealtOf(made: Made, have: set<int>, n: nat): seq<Nonces> {
    if n == 0 then [] else if n in have then DealtOf(made, have, n - 1) + [made(n)] else DealtOf(made, have, n - 1)
  }

  lemma {:induction false} ListsMatch<P(!new)>(c: Curve<P>, made: Made, draws: Draws, threshold: nat, total: nat, have: set<int>, n: nat)
    requires AllDealt(c, made, draws, threshold, total) && n <= total
    ensures var ds, ns := DrawsOf(draws, have, n), DealtOf(made, have, n);
      |ds| == |ns| && forall d :: 0 <= d < |ds| ==> ValidDraw(ds[d], threshold) && DealtBy(c, ds[d], total, ns[d])
  {
    if n > 0 {
      ListsMatch(c, made, draws, threshold, total, have, n - 1);
    }
  }

  /** What a cosigner must sum is one nonce from each of these sources. */
  lemma {:induction false} ExpectedIsDealt(made: Made, total: nat, have: set<int>, id: nat, n: nat)
    requires Complete(made, total) && 1 <= id <= total && n <= total
    ensures forall d :: 0 <= d < |DealtOf(made, have, n)| ==> |DealtOf(made, have, n)[d].shares| == total
    ensures Expected(made, have, id, n) == NoncesFor(DealtOf(made, have, n), id)
  {
    if n > 0 {
      ExpectedIsDealt(made, total, have, id, n - 1);
    }
  }

  /** The round the chosen set signs in: the key, and the nonces of the chosen cosigners. */
  ghost function RoutedRound(key: Draw, pubKey: Data, draws: Draws, made: Made, have: set<int>, total: nat, payload: Data): Round
    requires |DrawsOf(draws, have, total)| == |DealtOf(made, have, total)|
  {
    RoundOf(key, pubKey, DrawsOf(draws, have, total), DealtOf(made, have, total), total, payload)
  }

  /** A cosigner with its shard, whose record holds what it was sent, made the partial signature. */
  ghost predicate SignedRouted<P(!new)>(c: Curve<P>, hash: seq<Byte> -> seq<Byte>, unseal: nat -> Security, made: Made, total: nat,
                                        payload: Data, id: nat, signer: Signer, xs: seq<CosignerNonce>, sig: Data)
    requires 1 <= id <= total
  {
    && |signer.privateKeyShard| >= 32
    && IsPartial(c, hash, signer,
                 Contributions(Delivered(OwnSlots(made, id, total), id, total, unseal(id), xs, |xs|), id, total), payload, sig)
  }

  lemma {:induction false} RoutedParticipates<P(!new)>(
      c: Curve<P>, hash: seq<Byte> -> seq<Byte>, seal: Sealing, unseal: nat -> Security, made: Made, draws: Draws,
      key: Draw, pubKey: Data, shard: Data, threshold: nat, total: nat, peers: seq<nat>, payload: Data,
      id: nat, xs: seq<CosignerNonce>, sig: PartialSignature)
    requires AllDealt(c, made, draws, threshold, total) && Complete(made, total)
    requires threshold >= 1 && ValidDraw(key, threshold) && Sealed(seal, unseal) && Chosen(peers, total) && id in peers
    requires FromOthers(seal, made, peers, id, xs) && IsShare(Polynomial(key.secret, key.random), id, shard)
    requires |DrawsOf(draws, Members(peers), total)| == |DealtOf(made, Members(peers), total)|
    requires sig.id == id
    requires SignedRouted(c, hash, unseal, made, total, payload, id, Signer(shard, pubKey, threshold, total), xs, sig.signature)
    ensures Signed(c, hash, RoutedRound(key, pubKey, draws, made, Members(peers), total, payload), id,
                   Signer(shard, pubKey, threshold, total), Expected(made, Members(peers), id, total), sig)
  {
    var have := Members(peers);
    EverySignerSumsTheChosen(seal, unseal, made, peers, total, id, xs);
    ExpectedIsDealt(made, total, have, id, total);
    ListsMatch(c, made, draws, threshold, total, have, total);
    HolderParticipates(c, key, pubKey, DrawsOf(draws, have, total), DealtOf(made, have, total), threshold, total, payload, shard, id);
  }

  /**
   End to end: nonces dealt by every cosigner, sealed, routed by the leader and opened again; at
   least threshold of the chosen cosigners sign with what they received. Nothing mismatches, and
   what combining returns verifies against the key.
   */
  lemma {:induction false} RoutedSignatureVerifies<P(!new)>(
      c: Curve<P>, hash: seq<Byte> -> seq<Byte>, seal: Sealing, unseal: nat -> Security, made: Made, draws: Draws,
      key: Draw, pubKey: Data, shards: seq<Data>, threshold: nat, total: nat, peers: seq<nat>, payload: Data,
      ids: seq<Int64>, sent: seq<seq<CosignerNonce>>, sigs: seq<PartialSignature>, full: Data)
    requires ValidCurve(c) && AllDealt(c, made, draws, threshold, total)
    requires 1 <= threshold <= |ids| && total <= 255 && ValidDraw(key, threshold)
    requires c.decode(pubKey) == Mul(c.group, LE(key.secret) % L, c.base)
    requires Sealed(seal, unseal) && Chosen(peers, total)
    requires Players(ids, total) && Fits(total, ids) && |shards| == |sent| == |sigs| == |ids|
    requires forall i :: 0 <= i < |ids| ==>
      && ids[i] in peers && sigs[i].id == ids[i] && FromOthers(seal, made, peers, ids[i], sent[i])
      && IsShare(Polynomial(key.secret, key.random), ids[i], shards[i])
      && SignedRouted(c, hash, unseal, made, total, payload, ids[i], Signer(shards[i], pubKey, threshold, total), sent[i], sigs[i].signature)
    ensures Faultless(sigs, |sigs|)
    ensures SignatureEquation.Combined(total, sigs, full) ==> Verifies(c, hash, pubKey, payload, full)
  {
    var have := Members(peers);
    DealtIsComplete(c, made, draws, threshold, total);
    ListsMatch(c, made, draws, threshold, total, have, total);
    var r := RoutedRound(key, pubKey, draws, made, have, total, payload);
    RoundIsValid(c, key, pubKey, DrawsOf(draws, have, total), DealtOf(made, have, total), total, payload);
    var signers := seq(|ids|, i requires 0 <= i < |ids| => Signer(shards[i], pubKey, threshold, total));
    var nonces := seq(|ids|, i requires 0 <= i < |ids| => Expected(made, have, ids[i], total));
    forall i | 0 <= i < |ids| ensures Signed(c, hash, r, ids[i], signers[i], nonces[i], sigs[i]) {
      RoutedParticipates(c, hash, seal, unseal, made, draws, key, pubKey, shards[i], threshold, total, peers, payload,
                         ids[i], sent[i], sigs[i]);
    }
    AllGathered(c, hash, r, ids, sigs, signers, nonces);
    GatheredIsFaultless(c, hash, r, sigs, signers, nonces);
    if SignatureEquation.Combined(total, sigs, full) {
      FullSignatureVerifies(c, hash, r, sigs, signers, nonces, full);
    }
  }
}

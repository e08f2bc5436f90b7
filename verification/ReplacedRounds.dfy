/**
 Rounds in which a failed cosigner was replaced (signer/threshold_validator.go): the replacement
 adds its own nonce to the sum, so its partial signature fits the others exactly if that nonce
 key is the zero of the group.
 */
module ReplacedRounds {
  import opened Wrappers
  import opened Bytes
  import opened Group
  import opened GoInt
  import opened Payload
  import opened ThresholdSigner
  import opened NonceRouting

  /** The point an element adds to a sum; an empty element adds nothing. */
  function KeyPoint<P(!new)>(c: Curve<P>, key: Data): P {
    if key == [] then c.group.zero else c.decode(CopyInto(32, key))
  }

  /** The sum of the nonce keys of these sources. */
  ghost function SumOfKeys<P(!new)>(c: Curve<P>, made: Made, have: set<int>, n: nat): P {
    PointSum(c, KeysOf(made, have, n), |KeysOf(made, have, n)|)
  }

  lemma {:induction false} PointSumPrefix<P(!new)>(c: Curve<P>, a: seq<Data>, b: seq<Data>, n: nat)
    requires n <= |a| && n <= |b| && a[..n] == b[..n]
    ensures PointSum(c, a, n) == PointSum(c, b, n)
  {
    if n > 0 {
      assert a[n - 1] == a[..n][n - 1] == b[n - 1] && a[..n - 1] == a[..n][..n - 1] == b[..n - 1];
      PointSumPrefix(c, a, b, n - 1);
    }
  }

  /** One more source. */
  lemma {:induction false} SumStep<P(!new)>(c: Curve<P>, made: Made, have: set<int>, n: nat)
    requires ValidCurve(c) && n >= 1
    ensures SumOfKeys(c, made, have, n)
         == if n in have then c.group.add(KeyPoint(c, made(n).pubKey), SumOfKeys(c, made, have, n - 1))
            else SumOfKeys(c, made, have, n - 1)
  {
    if n in have {
      var keys, before := KeysOf(made, have, n), KeysOf(made, have, n - 1);
      PointSumPrefix(c, keys, before, |before|);
      assert Laws(c.group, SumOfKeys(c, made, have, n - 1), c.group.zero, c.group.zero);
    }
  }

  lemma {:induction false} Swap<P(!new)>(g: Group<P>, a: P, b: P, s: P)
    requires Abelian(g)
    ensures g.add(a, g.add(b, s)) == g.add(b, g.add(a, s))
  {
    assert Laws(g, a, b, s) && Laws(g, b, a, s);
  }

  /** A source from outside adds its own key to the sum. */
  lemma {:induction false} KeyAdded<P(!new)>(c: Curve<P>, made: Made, have: set<int>, k: nat, n: nat)
    requires ValidCurve(c) && k >= 1 && k !in have
    ensures SumOfKeys(c, made, have + {k as int}, n)
         == if k <= n then c.group.add(KeyPoint(c, made(k).pubKey), SumOfKeys(c, made, have, n)) else SumOfKeys(c, made, have, n)
  {
    if n > 0 {
      KeyAdded(c, made, have, k, n - 1);
      SumStep(c, made, have, n);
      SumStep(c, made, have + {k as int}, n);
      if n in have && k < n {
        Swap(c.group, KeyPoint(c, made(n).pubKey), KeyPoint(c, made(k).pubKey), SumOfKeys(c, made, have, n - 1));
      }
    }
  }

  /** What cosigner id puts on top of the chosen set's sum: nothing if it is chosen, its own key otherwise. */
  ghost function Extra<P(!new)>(c: Curve<P>, made: Made, peers: seq<nat>, id: nat): P {
    if id in peers then c.group.zero else KeyPoint(c, made(id).pubKey)
  }

  /** Partial signatures of these cosigners, chosen or not, each over what was routed to it. */
  ghost predicate Routed<P(!new)>(c: Curve<P>, hash: seq<Byte> -> seq<Byte>, made: Made, peers: seq<nat>, total: nat,
                                  payload: Data, ids: seq<nat>, signers: seq<Signer>, sigs: seq<PartialSignature>)
    requires Complete(made, total)
  {
    && |ids| == |signers| == |sigs|
    && forall i :: 0 <= i < |ids| ==>
         && 1 <= ids[i] <= total && |signers[i].privateKeyShard| >= 32
         && IsPartial(c, hash, signers[i], Expected(made, Members(peers) + {ids[i] as int}, ids[i], total), payload, sigs[i].signature)
  }

  lemma {:induction false} MembersAre(peers: seq<nat>, id: nat)
    ensures id in Members(peers) <==> id in peers
  {
    if id in peers {
      var i :| 0 <= i < |peers| && peers[i] == id;
      assert peers[i] in Members(peers);
    }
  }

  /** The ephemeral key of a partial signature: the chosen set's sum and what the signer puts on top. */
  lemma {:induction false} EphemeralKey<P(!new)>(c: Curve<P>, hash: seq<Byte> -> seq<Byte>, made: Made, peers: seq<nat>, total: nat,
                                                 payload: Data, id: nat, signer: Signer, sig: Data)
    requires ValidCurve(c) && Complete(made, total) && 1 <= id <= total && |signer.privateKeyShard| >= 32
    requires IsPartial(c, hash, signer, Expected(made, Members(peers) + {id as int}, id, total), payload, sig)
    ensures |sig| == 64
    ensures sig[..32] == c.encode(c.group.add(Extra(c, made, peers, id), SumOfKeys(c, made, Members(peers), total)))
  {
    var have := Members(peers);
    ExpectedKeys(made, have + {id as int}, id, total);
    MembersAre(peers, id);
    if id in peers {
      assert have + {id as int} == have;
      var s := SumOfKeys(c, made, have, total);
      assert Laws(c.group, s, c.group.zero, s);
    } else {
      KeyAdded(c, made, have, id, total);
    }
  }

  lemma {:induction false} SameEncoding<P(!new)>(c: Curve<P>, a: P, b: P, s: P)
    requires ValidCurve(c)
    ensures c.encode(c.group.add(a, s)) == c.encode(c.group.add(b, s)) <==> a == b
  {
    if c.encode(c.group.add(a, s)) == c.encode(c.group.add(b, s)) {
      assert c.decode(c.encode(c.group.add(a, s))) == c.decode(c.encode(c.group.add(b, s)));
      Cancel(c.group, a, b, s);
    }
  }

  /** Combining accepts routed partials if and only if all signers put the same on top. */
  lemma {:induction false} FaultlessIffSameExtras<P(!new)>(
      c: Curve<P>, hash: seq<Byte> -> seq<Byte>, made: Made, peers: seq<nat>, total: nat, payload: Data,
      ids: seq<nat>, signers: seq<Signer>, sigs: seq<PartialSignature>)
    requires ValidCurve(c) && Complete(made, total) && Routed(c, hash, made, peers, total, payload, ids, signers, sigs)
    ensures Faultless(sigs, |sigs|) <==>
      forall i :: 0 <= i < |ids| ==> Extra(c, made, peers, ids[i]) == Extra(c, made, peers, ids[0])
    ensures forall i :: 0 <= i < |ids| && Extra(c, made, peers, ids[i]) != Extra(c, made, peers, ids[0]) ==>
      Fault(sigs, i) == Some(Mismatch)
  {
    var s := SumOfKeys(c, made, Members(peers), total);
    forall i | 0 <= i < |ids|
      ensures |sigs[i].signature| == |sigs[0].signature| == 64
      ensures sigs[i].signature[..32] == sigs[0].signature[..32]
         <==> Extra(c, made, peers, ids[i]) == Extra(c, made, peers, ids[0])
    {
      EphemeralKey(c, hash, made, peers, total, payload, ids[i], signers[i], sigs[i].signature);
      EphemeralKey(c, hash, made, peers, total, payload, ids[0], signers[0], sigs[0].signature);
      SameEncoding(c, Extra(c, made, peers, ids[i]), Extra(c, made, peers, ids[0]), s);
    }
    if Faultless(sigs, |sigs|) {
      forall i | 0 <= i < |ids| ensures Extra(c, made, peers, ids[i]) == Extra(c, made, peers, ids[0]) {
        assert Fault(sigs, i) == None;
      }
    }
  }

  /**
   A round with at least one chosen signer, such as the leader itself, survives its replacements
   if and only if the nonce key of every one of them is the zero of the group.
   */
  lemma {:induction false} ReplacedFaultlessIffZero<P(!new)>(
      c: Curve<P>, hash: seq<Byte> -> seq<Byte>, made: Made, peers: seq<nat>, total: nat, payload: Data,
      ids: seq<nat>, signers: seq<Signer>, sigs: seq<PartialSignature>, me: nat)
    requires ValidCurve(c) && Complete(made, total) && Routed(c, hash, made, peers, total, payload, ids, signers, sigs)
    requires me < |ids| && ids[me] in peers
    ensures Faultless(sigs, |sigs|) <==>
      forall i :: 0 <= i < |ids| && ids[i] !in peers ==> KeyPoint(c, made(ids[i]).pubKey) == c.group.zero
  {
    FaultlessIffSameExtras(c, hash, made, peers, total, payload, ids, signers, sigs);
    if Faultless(sigs, |sigs|) {
      forall i | 0 <= i < |ids| && ids[i] !in peers ensures KeyPoint(c, made(ids[i]).pubKey) == c.group.zero {
        assert Extra(c, made, peers, ids[i]) == Extra(c, made, peers, ids[0]) == Extra(c, made, peers, ids[me]);
      }
    } else if forall i :: 0 <= i < |ids| && ids[i] !in peers ==> KeyPoint(c, made(ids[i]).pubKey) == c.group.zero {
      assert forall i :: 0 <= i < |ids| ==> Extra(c, made, peers, ids[i]) == c.group.zero;
    }
  }

  /** Three cosigners whose nonce keys all encode the same point. */
  ghost function ThreeEqual<P(!new)>(c: Curve<P>, p: P): Made {
    s => Nonces(c.encode(p), [[1], [1], [1]])
  }

  /** Cosigners 1 and 2 were chosen, 3 replaces 2: on any curve, with any nonce key but zero, combining fails. */
  lemma {:induction false} TwoReplacedByThree<P(!new)>(c: Curve<P>, hash: seq<Byte> -> seq<Byte>, p: P, payload: Data,
                                                       signers: seq<Signer>, sigs: seq<PartialSignature>)
    requires ValidCurve(c) && p != c.group.zero
    requires Routed(c, hash, ThreeEqual(c, p), [1, 2], 3, payload, [1, 3], signers, sigs)
    ensures Fault(sigs, 1) == Some(Mismatch)
  {
    var made := ThreeEqual(c, p);
    assert CopyInto(32, c.encode(p)) == c.encode(p);
    assert [1, 3][1] == 3 && 3 !in [1, 2] && 1 in [1, 2];
    FaultlessIffSameExtras(c, hash, made, [1, 2], 3, payload, [1, 3], signers, sigs);
    assert Extra(c, made, [1, 2], [1, 3][1]) == p && Extra(c, made, [1, 2], [1, 3][0]) == c.group.zero;
  }
}

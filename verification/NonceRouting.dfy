/**
 From GetNonces on every chosen cosigner to the signature each of them makes: who ends up
 with which nonce (signer/local_cosigner.go GetNonces, setNonce and SetNoncesAndSign,
 signer/cosigner.go For).
 */
module NonceRouting {
  import opened Wrappers
  import opened Bytes
  import opened Payload
  import opened NonceStore
  import opened NonceCache
  import opened ThresholdSigner

  /** EncryptAndSign of a source, for a destination. */
  type Sealing = (nat, nat, Data, Data) -> CosignerNonce

  /** DecryptAndVerify at a destination undoes what a source sealed for it. */
  ghost predicate Sealed(seal: Sealing, unseal: nat -> Security) {
    forall s: nat, d: nat, pub, share ::
      var n := seal(s, d, pub, share);
      n.sourceID == s && n.destinationID == d && n.signature.Some?
      && unseal(d)(s, n.pubKey, n.share, n.signature.value) == Some((pub, share))
  }

  /** The nonces every cosigner generated for one UUID: a key, and a share for each of the others. */
  type Made = nat -> Nonces

  ghost predicate Complete(made: Made, total: nat) {
    forall s :: 1 <= s <= total ==>
      |made(s).shares| == total && forall d :: 0 <= d < total ==> made(s).shares[d] != []
  }

  /** Distinct cosigners between 1 and total. */
  ghost predicate Chosen(peers: seq<nat>, total: nat) {
    && (forall i :: 0 <= i < |peers| ==> 1 <= peers[i] <= total)
    && (forall i, j :: 0 <= i < j < |peers| ==> peers[i] != peers[j])
  }

  /** What source s seals for destination d. */
  function Letter(seal: Sealing, made: Made, s: nat, d: nat): CosignerNonce
    requires 1 <= d <= |made(s).shares|
  {
    seal(s, d, made(s).pubKey, made(s).shares[d - 1])
  }

  /** One letter for every cosigner up to n but the source itself. */
  function Letters(seal: Sealing, made: Made, s: nat, n: nat): seq<CosignerNonce>
    requires n <= |made(s).shares|
  {
    if n == 0 then []
    else if n == s then Letters(seal, made, s, n - 1)
    else Letters(seal, made, s, n - 1) + [Letter(seal, made, s, n)]
  }

  lemma {:induction false} LettersCount(seal: Sealing, made: Made, s: nat, n: nat)
    requires n <= |made(s).shares| && s >= 1
    ensures |Letters(seal, made, s, n)| == if n < s then n else n - 1
  {
    if n > 0 {
      LettersCount(seal, made, s, n - 1);
    }
  }

  lemma {:induction false} LetterAt(seal: Sealing, made: Made, s: nat, n: nat, i: nat)
    requires n <= |made(s).shares| && s >= 1 && i < n && i + 1 != s
    ensures |Letters(seal, made, s, n)| == if n < s then n else n - 1
    ensures Letters(seal, made, s, n)[if i >= s then i - 1 else i] == Letter(seal, made, s, i + 1)
  {
    LettersCount(seal, made, s, n);
    LettersCount(seal, made, s, n - 1);
    if i < n - 1 {
      LetterAt(seal, made, s, n - 1, i);
    }
  }

  /** Where the letter to cosigner i + 1 goes in a list without cosigner id. */
  function Index(i: int, id: int): int {
    if i >= id then i - 1 else i
  }

  /** GetNonces for one UUID: every peer's letter is written at its own index of a shorter array. */
  method GetNonces(seal: Sealing, made: Made, id: nat, total: nat) returns (nonces: seq<CosignerNonce>)
    requires 1 <= id <= total == |made(id).shares|
    ensures nonces == Letters(seal, made, id, total)
  {
    var a := new CosignerNonce[total - 1](_ => CosignerNonce(0, 0, [], [], None));
    for i := 0 to total
      invariant forall k :: 0 <= k < i && k + 1 != id ==>
        a[Index(k, id)] == Letter(seal, made, id, k + 1)
    {
      var peerID := i + 1;
      if peerID == id {
        continue;
      }
      var secretPart := Letter(seal, made, id, peerID);
      if i >= id {
        a[i - 1] := secretPart;
      } else {
        a[i] := secretPart;
      }
    }
    nonces := a[..];
    LettersCount(seal, made, id, total);
    forall m | 0 <= m < total - 1 ensures nonces[m] == Letters(seal, made, id, total)[m] {
      var k := if m + 1 >= id then m + 1 else m;
      assert a[Index(k, id)] == Letter(seal, made, id, k + 1);
      LetterAt(seal, made, id, total, k);
    }
  }

  /** Everything the first p chosen cosigners answered, as the leader keeps it. */
  function Pool(seal: Sealing, made: Made, peers: seq<nat>, total: nat, p: nat): seq<CosignerNonce>
    requires p <= |peers| && forall i :: 0 <= i < |peers| ==> |made(peers[i]).shares| == total
  {
    if p == 0 then [] else Pool(seal, made, peers, total, p - 1) + Letters(seal, made, peers[p - 1], total)
  }

  /** The nonces for one destination among the first n, in order. */
  function Addressed(nonces: seq<CosignerNonce>, id: int, n: nat): seq<CosignerNonce>
    requires n <= |nonces|
  {
    if n == 0 then []
    else if nonces[n - 1].destinationID == id then Addressed(nonces, id, n - 1) + [nonces[n - 1]]
    else Addressed(nonces, id, n - 1)
  }

  method For(nonces: seq<CosignerNonce>, id: int) returns (res: seq<CosignerNonce>)
    ensures res == Addressed(nonces, id, |nonces|)
  {
    res := [];
    for i := 0 to |nonces|
      invariant res == Addressed(nonces, id, i)
    {
      if nonces[i].destinationID == id {
        res := res + [nonces[i]];
      }
    }
  }

  lemma {:induction false} AddressedMembers(nonces: seq<CosignerNonce>, id: int, n: nat, x: CosignerNonce)
    requires n <= |nonces|
    ensures x in Addressed(nonces, id, n) <==> x in nonces[..n] && x.destinationID == id
  {
    if n > 0 {
      AddressedMembers(nonces, id, n - 1, x);
      assert nonces[..n] == nonces[..n - 1] + [nonces[n - 1]];
    }
  }

  /** They come in the order in which they were listed. */
  lemma {:induction false} AddressedInOrder(nonces: seq<CosignerNonce>, id: int, n: nat) returns (src: seq<nat>)
    requires n <= |nonces|
    ensures |src| == |Addressed(nonces, id, n)| && Increasing(src)
    ensures forall k :: 0 <= k < |src| ==> src[k] < n && Addressed(nonces, id, n)[k] == nonces[src[k]]
  {
    src := [];
    if n > 0 {
      src := AddressedInOrder(nonces, id, n - 1);
      if nonces[n - 1].destinationID == id {
        src := src + [n - 1];
      }
    }
  }

  lemma {:induction false} LettersMembers(seal: Sealing, made: Made, s: nat, n: nat, x: CosignerNonce)
    requires n <= |made(s).shares|
    ensures x in Letters(seal, made, s, n) <==> exists d :: 1 <= d <= n && d != s && x == Letter(seal, made, s, d)
  {
    if n > 0 {
      LettersMembers(seal, made, s, n - 1, x);
    }
  }

  /** A letter in the pool is some chosen cosigner's letter to another cosigner. */
  lemma {:induction false} PoolMembers(seal: Sealing, made: Made, peers: seq<nat>, total: nat, p: nat, x: CosignerNonce)
    requires p <= |peers| && forall i :: 0 <= i < |peers| ==> |made(peers[i]).shares| == total
    ensures x in Pool(seal, made, peers, total, p) <==>
      exists i :: 0 <= i < p && x in Letters(seal, made, peers[i], total)
  {
    if p > 0 {
      PoolMembers(seal, made, peers, total, p - 1, x);
    }
  }

  /** What cosigner c is sent: exactly the letters to it from the other chosen cosigners. */
  ghost predicate FromOthers(seal: Sealing, made: Made, peers: seq<nat>, c: nat, xs: seq<CosignerNonce>)
    requires forall i :: 0 <= i < |peers| ==> 1 <= c <= |made(peers[i]).shares|
  {
    forall x :: x in xs <==> exists i :: 0 <= i < |peers| && peers[i] != c && x == Letter(seal, made, peers[i], c)
  }

  lemma {:induction false} ForIsFromOthers(seal: Sealing, unseal: nat -> Security, made: Made, peers: seq<nat>, total: nat, c: nat)
    requires Sealed(seal, unseal) && Complete(made, total) && Chosen(peers, total) && 1 <= c <= total
    ensures var pool := Pool(seal, made, peers, total, |peers|);
      FromOthers(seal, made, peers, c, Addressed(pool, c, |pool|))
  {
    var pool := Pool(seal, made, peers, total, |peers|);
    var xs := Addressed(pool, c, |pool|);
    forall x ensures x in xs <==> exists i :: 0 <= i < |peers| && peers[i] != c && x == Letter(seal, made, peers[i], c) {
      AddressedMembers(pool, c, |pool|, x);
      assert pool[..|pool|] == pool;
      PoolMembers(seal, made, peers, total, |peers|, x);
      if x in xs {
        var i :| 0 <= i < |peers| && x in Letters(seal, made, peers[i], total);
        LettersMembers(seal, made, peers[i], total, x);
      }
      if i :| 0 <= i < |peers| && peers[i] != c && x == Letter(seal, made, peers[i], c) {
        LettersMembers(seal, made, peers[i], total, x);
        assert x in Letters(seal, made, peers[i], total);
      }
    }
  }

  // ---------------------------------------------------------------- at the destination

  /** The record as generated: only the own slot is filled. */
  function OwnSlots(made: Made, c: nat, total: nat): seq<Slot> {
    seq(total, k requires 0 <= k < total =>
      if k + 1 == c then Slot(made(c).pubKey, made(c).shares) else Slot([], []))
  }

  /** The slot holds what source s made, as far as cosigner c can see. */
  ghost predicate SlotFrom(slot: Slot, made: Made, s: nat, c: nat, total: nat)
    requires 1 <= c <= total == |made(s).shares|
  {
    slot.pubKey == made(s).pubKey && |slot.shares| == total && slot.shares[c - 1] == made(s).shares[c - 1]
  }

  /** Exactly the slots of these sources are filled. */
  ghost predicate Filled(slots: seq<Slot>, made: Made, c: nat, total: nat, have: set<int>)
    requires Complete(made, total) && 1 <= c <= total
  {
    && |slots| == total
    && forall s :: 1 <= s <= total ==>
         if s in have then SlotFrom(slots[s - 1], made, s, c, total) else slots[s - 1].shares == []
  }

  /** A letter to cosigner c from the source it names. */
  ghost predicate LetterTo(seal: Sealing, made: Made, total: nat, c: nat, x: CosignerNonce)
    requires Complete(made, total) && 1 <= c <= total
  {
    1 <= x.sourceID <= total && x == Letter(seal, made, x.sourceID, c)
  }

  /** The slots after the first n letters are stored, one slot each (SetNoncesAndSign, setNonce). */
  function Delivered(slots: seq<Slot>, c: nat, total: nat, unseal: Security, xs: seq<CosignerNonce>, n: nat): (out: seq<Slot>)
    requires 1 <= c <= total == |slots| && n <= |xs|
    ensures |out| == total
  {
    if n == 0 then slots
    else
      var before := Delivered(slots, c, total, unseal, xs, n - 1);
      var x := xs[n - 1];
      if x.signature.None? || !(1 <= x.sourceID <= total) then before
      else
        match unseal(x.sourceID, x.pubKey, x.share, x.signature.value)
        case None => before
        case Some((pub, share)) => WithSlot(Record(0, before, 0), x.sourceID, c, total, pub, share).slots
  }

  /** The sources in c's record once the first n letters are stored. */
  ghost function Have(c: int, xs: seq<CosignerNonce>, n: nat): (have: set<int>)
    requires n <= |xs|
    ensures forall s :: s in have <==> s == c || exists i :: 0 <= i < n && xs[i].sourceID == s
  {
    if n == 0 then {c} else Have(c, xs, n - 1) + {xs[n - 1].sourceID}
  }

  lemma {:induction false} OwnSlotsFilled(made: Made, c: nat, total: nat)
    requires Complete(made, total) && 1 <= c <= total
    ensures Filled(OwnSlots(made, c, total), made, c, total, {c as int})
  {
  }

  lemma {:induction false} DeliverOne(seal: Sealing, unseal: nat -> Security, made: Made, c: nat, total: nat,
                                      before: seq<Slot>, have: set<int>, xs: seq<CosignerNonce>, n: nat)
    requires Sealed(seal, unseal) && Complete(made, total) && 1 <= c <= total && 1 <= n <= |xs|
    requires LetterTo(seal, made, total, c, xs[n - 1]) && Filled(before, made, c, total, have)
    requires before == Delivered(OwnSlots(made, c, total), c, total, unseal(c), xs, n - 1)
    ensures Filled(Delivered(OwnSlots(made, c, total), c, total, unseal(c), xs, n), made, c, total,
                   have + {xs[n - 1].sourceID})
  {
  }

  lemma {:induction false} DeliveredFills(seal: Sealing, unseal: nat -> Security, made: Made, c: nat, total: nat,
                                          xs: seq<CosignerNonce>, n: nat)
    requires Sealed(seal, unseal) && Complete(made, total) && 1 <= c <= total && n <= |xs|
    requires forall i :: 0 <= i < |xs| ==> LetterTo(seal, made, total, c, xs[i])
    ensures Filled(Delivered(OwnSlots(made, c, total), c, total, unseal(c), xs, n), made, c, total, Have(c, xs, n))
  {
    if n == 0 {
      OwnSlotsFilled(made, c, total);
    } else {
      DeliveredFills(seal, unseal, made, c, total, xs, n - 1);
      DeliverOne(seal, unseal, made, c, total, Delivered(OwnSlots(made, c, total), c, total, unseal(c), xs, n - 1),
                 Have(c, xs, n - 1), xs, n);
    }
  }

  /** What cosigner c must sum: the contributions of these sources, in slot order. */
  ghost function Expected(made: Made, have: set<int>, c: nat, n: nat): seq<Nonce>
    requires 1 <= c && forall s :: 1 <= s <= n ==> c <= |made(s).shares|
  {
    if n == 0 then []
    else if n in have then Expected(made, have, c, n - 1) + [Nonce(0, made(n).shares[c - 1], made(n).pubKey)]
    else Expected(made, have, c, n - 1)
  }

  lemma {:induction false} FilledContributions(slots: seq<Slot>, made: Made, c: nat, total: nat, have: set<int>, n: nat)
    requires Complete(made, total) && 1 <= c <= total && Filled(slots, made, c, total, have) && n <= total
    ensures Contributions(slots, c, n) == Expected(made, have, c, n)
  {
    if n > 0 {
      FilledContributions(slots, made, c, total, have, n - 1);
    }
  }

  /** The nonce keys of these sources, in slot order. */
  ghost function KeysOf(made: Made, have: set<int>, n: nat): seq<Data> {
    if n == 0 then [] else if n in have then KeysOf(made, have, n - 1) + [made(n).pubKey] else KeysOf(made, have, n - 1)
  }

  lemma {:induction false} ExpectedKeys(made: Made, have: set<int>, c: nat, n: nat)
    requires 1 <= c && forall s :: 1 <= s <= n ==> c <= |made(s).shares|
    ensures PubKeys(Expected(made, have, c, n)) == KeysOf(made, have, n)
  {
    if n > 0 {
      ExpectedKeys(made, have, c, n - 1);
    }
  }

  ghost function Members(peers: seq<nat>): set<int> {
    set i | 0 <= i < |peers| :: peers[i]
  }

  /** Sent letters are letters, and they name the chosen set; the cosigner's own nonce is there in any case. */
  lemma {:induction false} SentFromChosen(seal: Sealing, unseal: nat -> Security, made: Made, peers: seq<nat>, total: nat,
                                          c: nat, xs: seq<CosignerNonce>)
    requires Sealed(seal, unseal) && Complete(made, total) && Chosen(peers, total) && 1 <= c <= total
    requires FromOthers(seal, made, peers, c, xs)
    ensures forall i :: 0 <= i < |xs| ==> LetterTo(seal, made, total, c, xs[i])
    ensures Have(c, xs, |xs|) == Members(peers) + {c as int}
  {
    forall k | 0 <= k < |xs| ensures LetterTo(seal, made, total, c, xs[k]) && xs[k].sourceID in Members(peers) {
      assert xs[k] in xs;
      var i :| 0 <= i < |peers| && peers[i] != c && xs[k] == Letter(seal, made, peers[i], c);
      assert xs[k].sourceID == peers[i];
    }
    forall i | 0 <= i < |peers| && peers[i] != c ensures peers[i] in Have(c, xs, |xs|) {
      var x := Letter(seal, made, peers[i], c);
      assert x in xs;
      var k :| 0 <= k < |xs| && xs[k] == x;
      assert xs[k].sourceID == peers[i];
    }
  }

  /**
   Routing: for a fresh UUID, whatever order its letters arrive in, a cosigner sums exactly the
   contributions of the chosen set and its own, in slot order. For a chosen cosigner that is the
   chosen set; a replacement from outside adds itself.
   */
  lemma {:induction false} EverySignerSumsTheChosen(seal: Sealing, unseal: nat -> Security, made: Made, peers: seq<nat>,
                                                    total: nat, c: nat, xs: seq<CosignerNonce>)
    requires Sealed(seal, unseal) && Complete(made, total) && Chosen(peers, total) && 1 <= c <= total
    requires FromOthers(seal, made, peers, c, xs)
    ensures var sum := Contributions(Delivered(OwnSlots(made, c, total), c, total, unseal(c), xs, |xs|), c, total);
      && sum == Expected(made, Members(peers) + {c as int}, c, total)
      && (c in peers ==> sum == Expected(made, Members(peers), c, total))
  {
    SentFromChosen(seal, unseal, made, peers, total, c, xs);
    DeliveredFills(seal, unseal, made, c, total, xs, |xs|);
    FilledContributions(Delivered(OwnSlots(made, c, total), c, total, unseal(c), xs, |xs|),
                        made, c, total, Members(peers) + {c as int}, total);
    if i :| 0 <= i < |peers| && peers[i] == c {
      assert Members(peers) + {c as int} == Members(peers);
    }
  }

  /** Partial signatures of chosen cosigners, made with routed nonces, all start with the same ephemeral key. */
  lemma {:induction false} PartialsNeverMismatch<P(!new)>(
      curve: Curve<P>, hash: seq<Byte> -> seq<Byte>, made: Made, peers: seq<nat>, total: nat, payload: Data,
      ids: seq<nat>, signers: seq<Signer>, sigs: seq<PartialSignature>)
    requires Complete(made, total) && Chosen(peers, total) && |ids| == |signers| == |sigs|
    requires forall i :: 0 <= i < |ids| ==>
      ids[i] in peers && |signers[i].privateKeyShard| >= 32
      && IsPartial(curve, hash, signers[i], Expected(made, Members(peers), ids[i], total), payload, sigs[i].signature)
    ensures Faultless(sigs, |sigs|)
  {
    forall i | 0 <= i < |sigs|
      ensures |sigs[i].signature| == 64
      ensures sigs[i].signature[..32]
           == curve.encode(PointSum(curve, KeysOf(made, Members(peers), total), |KeysOf(made, Members(peers), total)|))
    {
      ExpectedKeys(made, Members(peers), ids[i], total);
    }
  }

  /** What the leader's cache hands out for these peers is their pool of letters. */
  lemma {:induction false} CacheHandsOutThePool(seal: Sealing, made: Made, cn: CachedNonce, peers: seq<nat>, total: nat, p: nat)
    requires p <= |peers| && Covers(cn, peers)
    requires forall i :: 0 <= i < |peers| ==> |made(peers[i]).shares| == total
    requires forall i :: 0 <= i < |cn.nonces| && cn.nonces[i].cosigner >= 0 && |made(cn.nonces[i].cosigner).shares| == total ==>
      cn.nonces[i].nonces == Letters(seal, made, cn.nonces[i].cosigner, total)
    ensures Gathered(cn, peers, p) == Pool(seal, made, peers, total, p)
  {
    if p > 0 {
      CacheHandsOutThePool(seal, made, cn, peers, total, p - 1);
    }
  }

  /** Every cosigner that answered sent its letters for UUID number i, as GetNonces writes them. */
  ghost predicate AnsweredLetters(seal: Sealing, made: Made, answers: seq<Option<Answer>>, i: nat, total: nat)
    requires Answered(answers, i + 1)
  {
    forall a :: 0 <= a < |answers| && answers[a].Some? ==>
      && answers[a].value.cosigner >= 0 && |made(answers[a].value.cosigner).shares| == total
      && answers[a].value.nonces[i] == Letters(seal, made, answers[a].value.cosigner, total)
  }

  lemma {:induction false} EntryHoldsLetters(seal: Sealing, made: Made, answers: seq<Option<Answer>>, i: nat, total: nat,
                                             e: CachedNonce, uuid: nat, expiration: int, k: nat)
    requires Answered(answers, i + 1) && AnsweredLetters(seal, made, answers, i, total)
    requires HoldsAnswers(e, uuid, expiration, answers, i) && k < |e.nonces|
    ensures var id := e.nonces[k].cosigner;
      id >= 0 && |made(id).shares| == total && e.nonces[k].nonces == Letters(seal, made, id, total)
  {
    var a := RecordIsAnswer(answers, i, |answers|, k);
    assert e.nonces[Count(answers, a)] == Rel(answers[a].value.cosigner, answers[a].value.nonces[i]);
  }

  /**
   From the load to the leader's pool: the entry that was loaded for UUID number i hands out, for
   any peers it covers, exactly the letters these peers made for that UUID.
   */
  lemma {:induction false} LoadedEntryHandsOutThePool(seal: Sealing, made: Made, uuids: seq<nat>, expiration: int,
                                                      answers: seq<Option<Answer>>, threshold: nat, i: nat, total: nat, peers: seq<nat>)
    requires i < |uuids| && Answered(answers, |uuids|) && AnsweredLetters(seal, made, answers, i, total)
    requires Count(answers, |answers|) % 256 >= threshold
    requires forall p :: 0 <= p < |peers| ==> |made(peers[p]).shares| == total
    ensures var es := NewEntries(uuids, expiration, answers, threshold, |uuids|);
      && |es| == |uuids| && es[i].uuid == uuids[i]
      && (Covers(es[i], peers) ==> Gathered(es[i], peers, |peers|) == Pool(seal, made, peers, total, |peers|))
  {
    LoadedEntries(uuids, expiration, answers, threshold, |uuids|);
    var e := NewEntries(uuids, expiration, answers, threshold, |uuids|)[i];
    if Covers(e, peers) {
      forall k | 0 <= k < |e.nonces|
        ensures e.nonces[k].cosigner >= 0 && |made(e.nonces[k].cosigner).shares| == total
        ensures e.nonces[k].nonces == Letters(seal, made, e.nonces[k].cosigner, total)
      {
        EntryHoldsLetters(seal, made, answers, i, total, e, uuids[i], expiration, k);
      }
      CacheHandsOutThePool(seal, made, e, peers, total, |peers|);
    }
  }
}

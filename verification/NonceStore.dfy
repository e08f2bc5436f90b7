/**
 The nonces a cosigner holds, by UUID (signer/local_cosigner.go): generated here, filled in by
 other cosigners slot by slot, and consumed by the one signing operation that reads them.
 */
module NonceStore {
  import opened Wrappers
  import opened Payload
  import opened ThresholdSigner

  /** What one source contributed: its nonce key and the shares it dealt; no shares while empty. */
  datatype Slot = Slot(pubKey: Data, shares: seq<Data>)

  /** One generated nonce set; the serial number tells apart sets generated for the same UUID. */
  datatype Record = Record(serial: nat, slots: seq<Slot>, expiration: int)

  datatype NonceError = NoMetadata | Insufficient(have: nat, need: nat) | SignatureRequired | NotAuthentic | UnexpectedState

  /** Slots are empty or hold a share for every cosigner. */
  ghost predicate Shaped(slots: seq<Slot>, total: nat) {
    && |slots| == total
    && forall i :: 0 <= i < total ==> |slots[i].shares| == 0 || |slots[i].shares| == total
  }

  predicate Usable(slot: Slot, myID: nat)
    requires myID >= 1
  {
    |slot.shares| >= myID && slot.shares[myID - 1] != []
  }

  /** The slots among the first n that hold a share for myID, in order. */
  function Sources(slots: seq<Slot>, myID: nat, n: nat): seq<nat>
    requires myID >= 1 && n <= |slots|
  {
    if n == 0 then []
    else if Usable(slots[n - 1], myID) then Sources(slots, myID, n - 1) + [n - 1]
    else Sources(slots, myID, n - 1)
  }

  /** Source i of the list, as the nonce that goes into a signature. */
  function Contributions(slots: seq<Slot>, myID: nat, n: nat): seq<Nonce>
    requires myID >= 1 && n <= |slots|
  {
    if n == 0 then []
    else if Usable(slots[n - 1], myID) then
      Contributions(slots, myID, n - 1) + [Nonce(0, slots[n - 1].shares[myID - 1], slots[n - 1].pubKey)]
    else Contributions(slots, myID, n - 1)
  }

  ghost predicate Increasing(s: seq<nat>) {
    forall i, j :: 0 <= i < j < |s| ==> s[i] < s[j]
  }

  /** Every contribution comes from a slot of its own, and every usable slot contributes. */
  lemma {:induction false} ContributionsPerSource(slots: seq<Slot>, myID: nat, n: nat)
    requires myID >= 1 && n <= |slots|
    ensures var src, ns := Sources(slots, myID, n), Contributions(slots, myID, n);
      && |src| == |ns| && Increasing(src)
      && (forall i :: 0 <= i < |src| ==>
            src[i] < n && Usable(slots[src[i]], myID)
            && ns[i] == Nonce(0, slots[src[i]].shares[myID - 1], slots[src[i]].pubKey))
      && (forall k :: 0 <= k < n && Usable(slots[k], myID) ==> k in src)
  {
    if n > 0 {
      ContributionsPerSource(slots, myID, n - 1);
    }
  }

  /** The outcome of reading a record's nonces. */
  function Combined(r: Record, myID: nat, threshold: nat): Result<seq<Nonce>, NonceError>
    requires myID >= 1
  {
    var ns := Contributions(r.slots, myID, |r.slots|);
    if |ns| < threshold then Err(Insufficient(|ns|, threshold)) else Ok(ns)
  }

  function WithSlot(r: Record, source: nat, myID: nat, total: nat, pubKey: Data, share: Data): Record
    requires 1 <= myID <= total && 1 <= source <= |r.slots|
  {
    var old_ := r.slots[source - 1].shares;
    var shares := if old_ == [] then seq(total, _ => []) else old_;
    if |shares| < myID then r
    else r.(slots := r.slots[source - 1 := Slot(pubKey, shares[myID - 1 := share])])
  }

  function Unexpired(store: map<nat, Record>, now: int): map<nat, Record> {
    map u | u in store && store[u].expiration >= now :: store[u]
  }

  /** Checks the signature and decrypts: the nonce key and the share, if the source is who it says. */
  type Security = (int, Data, Data, Data) -> Option<(Data, Data)>

  datatype CosignerNonce = CosignerNonce(
    sourceID: int, destinationID: int, pubKey: Data, share: Data, signature: Option<Data>)

  class Store {
    const myID: nat
    const total: nat
    var nonces: map<nat, Record>

    ghost predicate Valid()
      reads this
    {
      1 <= myID <= total && forall u :: u in nonces ==> Shaped(nonces[u].slots, total)
    }

    constructor (myID: nat, total: nat)
      requires 1 <= myID <= total
      ensures Valid() && nonces == map[] && this.myID == myID && this.total == total
    {
      this.myID, this.total, nonces := myID, total, map[];
    }

    /** generateNoncesIfNecessary without another writer in between: an existing record is kept. */
    method GenerateIfNecessary(uuid: nat, made: Record) returns (r: Record)
      requires Valid() && Shaped(made.slots, total)
      modifies this`nonces
      ensures Valid() && uuid in nonces && r == nonces[uuid]
      ensures nonces == if uuid in old(nonces) then old(nonces) else old(nonces)[uuid := made]
    {
      if uuid in nonces {
        return nonces[uuid];
      }
      nonces := nonces[uuid := made];
      return made;
    }

    /** Reads and deletes under one lock: whatever comes back, the UUID is gone. */
    method CombinedNonces(threshold: nat, uuid: nat) returns (r: Result<seq<Nonce>, NonceError>)
      requires Valid()
      modifies this`nonces
      ensures Valid() && nonces == old(nonces) - {uuid}
      ensures uuid !in old(nonces) ==> r == Err(NoMetadata)
      ensures uuid in old(nonces) ==> r == Combined(old(nonces)[uuid], myID, threshold)
      ensures r.Ok? <==> uuid in old(nonces) && |Sources(old(nonces)[uuid].slots, myID, total)| >= threshold
      ensures r.Ok? ==> |Sources(old(nonces)[uuid].slots, myID, total)| == |r.value|
    {
      if uuid !in nonces {
        return Err(NoMetadata);
      }
      var record := nonces[uuid];
      nonces := nonces - {uuid};
      var combined := [];
      for i := 0 to |record.slots|
        invariant combined == Contributions(record.slots, myID, i)
      {
        var c := record.slots[i];
        if |c.shares| == 0 || |c.shares[myID - 1]| == 0 {
          continue;
        }
        combined := combined + [Nonce(0, c.shares[myID - 1], c.pubKey)];
      }
      ContributionsPerSource(record.slots, myID, total);
      if |combined| < threshold {
        return Err(Insufficient(|combined|, threshold));
      }
      return Ok(combined);
    }

    /** Stores an authenticated contribution in its source's slot; only that slot changes. */
    method SetNonce(security: Security, uuid: nat, nonce: CosignerNonce) returns (err: Option<NonceError>)
      requires Valid()
      requires forall s, p, h, g :: security(s, p, h, g).Some? ==> 1 <= s <= total
      modifies this`nonces
      ensures Valid()
      ensures err.Some? ==> nonces == old(nonces)
      ensures err.None? <==>
        nonce.signature.Some? && uuid in old(nonces)
        && security(nonce.sourceID, nonce.pubKey, nonce.share, nonce.signature.value).Some?
      ensures err.None? ==>
        var (pub, share) := security(nonce.sourceID, nonce.pubKey, nonce.share, nonce.signature.value).value;
        nonces == old(nonces)[uuid := WithSlot(old(nonces)[uuid], nonce.sourceID, myID, total, pub, share)]
    {
      if nonce.signature.None? {
        return Some(SignatureRequired);
      }
      var plain := security(nonce.sourceID, nonce.pubKey, nonce.share, nonce.signature.value);
      if plain.None? {
        return Some(NotAuthentic);
      }
      if uuid !in nonces {
        return Some(UnexpectedState);
      }
      var (pub, share) := plain.value;
      var n, slot := nonces[uuid], nonce.sourceID - 1;
      var shares := n.slots[slot].shares;
      if shares == [] {
        shares := seq(total, _ => []);
      }
      shares := shares[myID - 1 := share];
      nonces := nonces[uuid := n.(slots := n.slots[slot := Slot(pub, shares)])];
      return None;
    }

    /** What a request leaves behind is deleted when it ends. */
    method Forget(uuids: set<nat>)
      requires Valid()
      modifies this`nonces
      ensures Valid() && nonces == old(nonces) - uuids
    {
      nonces := nonces - uuids;
    }

    /** Drops exactly the expired records. */
    method Prune(now: int)
      requires Valid()
      modifies this`nonces
      ensures Valid() && nonces == Unexpired(old(nonces), now)
      ensures forall u :: u in nonces <==> u in old(nonces) && old(nonces)[u].expiration >= now
      ensures forall u :: u in nonces ==> nonces[u] == old(nonces)[u]
    {
      ghost var full := nonces;
      var keys := nonces.Keys;
      while keys != {}
        invariant keys <= full.Keys && Valid()
        invariant forall u :: u in full ==> (u in nonces <==> u in keys || full[u].expiration >= now)
        invariant forall u :: u in nonces ==> u in full && nonces[u] == full[u]
        decreases keys
      {
        var u :| u in keys;
        if u in nonces && now > nonces[u].expiration {
          nonces := nonces - {u};
        }
        keys := keys - {u};
      }
      assert nonces == Unexpired(full, now);
    }
  }
}

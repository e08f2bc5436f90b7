/**
 Collecting nonces from whichever cosigners answer first, when the cache has none
 (signer/threshold_validator.go getNoncesFallback and waitForPeerNonces).
 */
module Fallback {
  import opened NonceStore
  import opened NonceCache

  /** A cosigner's successful answer. */
  datatype Arrival = Arrival(peer: int, nonces: seq<UUIDNonces>)

  /** The result so far, and how often the channel was closed. */
  datatype Result = Result(cosigners: seq<int>, nonces: seq<UUIDNonces>, closed: nat)

  // ---------------------------------------------------------------- specification

  /** Where the UUID is listed from j on, or the length of the list. */
  function Place(ns: seq<UUIDNonces>, uuid: nat, j: nat): (k: nat)
    requires j <= |ns|
    ensures j <= k <= |ns| && (k < |ns| ==> ns[k].uuid == uuid)
    ensures forall i :: j <= i < k ==> ns[i].uuid != uuid
    decreases |ns| - j
  {
    if j == |ns| || ns[j].uuid == uuid then j else Place(ns, uuid, j + 1)
  }

  /** Adds one cosigner's nonces for one UUID. */
  function Merge(ns: seq<UUIDNonces>, n: UUIDNonces): seq<UUIDNonces> {
    var k := Place(ns, n.uuid, 0);
    if k < |ns| then ns[k := UUIDNonces(n.uuid, ns[k].nonces + n.nonces)] else ns + [n]
  }

  function MergeAll(ns: seq<UUIDNonces>, more: seq<UUIDNonces>, m: nat): seq<UUIDNonces>
    requires m <= |more|
  {
    if m == 0 then ns else Merge(MergeAll(ns, more, m - 1), more[m - 1])
  }

  function Arrive(r: Result, a: Arrival, threshold: int): Result {
    if |r.cosigners| >= threshold then r
    else
      var cosigners := r.cosigners + [a.peer];
      Result(cosigners, MergeAll(r.nonces, a.nonces, |a.nonces|),
             if |cosigners| == threshold then r.closed + 1 else r.closed)
  }

  function Run(arrivals: seq<Arrival>, threshold: int, n: nat): Result
    requires n <= |arrivals|
  {
    if n == 0 then Result([], [], 0) else Arrive(Run(arrivals, threshold, n - 1), arrivals[n - 1], threshold)
  }

  // ---------------------------------------------------------------- the object

  class Collector {
    const threshold: int
    var cosigners: seq<int>
    var nonces: seq<UUIDNonces>
    var closed: nat

    function View(): Result
      reads this
    {
      Result(cosigners, nonces, closed)
    }

    constructor (threshold: int)
      ensures this.threshold == threshold && View() == Result([], [], 0)
    {
      this.threshold, cosigners, nonces, closed := threshold, [], [], 0;
    }

    /** The locked part of a worker whose cosigner answered. */
    method Report(a: Arrival)
      modifies this
      ensures View() == Arrive(old(View()), a, threshold)
    {
      if |cosigners| >= threshold {
        return;
      }
      cosigners := cosigners + [a.peer];
      ghost var before := nonces;
      for m := 0 to |a.nonces|
        invariant nonces == MergeAll(before, a.nonces, m)
        invariant cosigners == old(cosigners) + [a.peer] && closed == old(closed)
      {
        var n := a.nonces[m];
        var found := false;
        var k := 0;
        while k < |nonces|
          invariant 0 <= k <= |nonces| && !found && Place(nonces, n.uuid, 0) == Place(nonces, n.uuid, k)
          invariant nonces == MergeAll(before, a.nonces, m)
          invariant cosigners == old(cosigners) + [a.peer] && closed == old(closed)
        {
          if n.uuid == nonces[k].uuid {
            nonces := nonces[k := UUIDNonces(nonces[k].uuid, nonces[k].nonces + n.nonces)];
            found := true;
            break;
          }
          k := k + 1;
        }
        if !found {
          nonces := nonces + [n];
        }
      }
      if |cosigners| == threshold {
        closed := closed + 1;
      }
    }
  }

  // ---------------------------------------------------------------- any order of arrival

  /** All nonces listed under the UUID. */
  function Under(ns: seq<UUIDNonces>, uuid: nat, n: nat): seq<CosignerNonce>
    requires n <= |ns|
  {
    if n == 0 then []
    else if ns[n - 1].uuid == uuid then Under(ns, uuid, n - 1) + ns[n - 1].nonces
    else Under(ns, uuid, n - 1)
  }

  /** What the first n arrivals say about the UUID, in order. */
  function Said(arrivals: seq<Arrival>, uuid: nat, n: nat): seq<CosignerNonce>
    requires n <= |arrivals|
  {
    if n == 0 then []
    else Said(arrivals, uuid, n - 1) + Under(arrivals[n - 1].nonces, uuid, |arrivals[n - 1].nonces|)
  }

  ghost predicate DistinctUuids(ns: seq<UUIDNonces>) {
    forall i, j :: 0 <= i < j < |ns| ==> ns[i].uuid != ns[j].uuid
  }

  /** With every UUID listed once, what is under it is its one entry. */
  lemma {:induction false} UnderOnce(ns: seq<UUIDNonces>, uuid: nat, n: nat)
    requires DistinctUuids(ns) && n <= |ns|
    ensures var k := Place(ns, uuid, 0);
      Under(ns, uuid, n) == if k < n then ns[k].nonces else []
  {
    if n > 0 {
      UnderOnce(ns, uuid, n - 1);
    }
  }

  lemma {:induction false} MergeAdds(ns: seq<UUIDNonces>, n: UUIDNonces, uuid: nat)
    requires DistinctUuids(ns)
    ensures DistinctUuids(Merge(ns, n))
    ensures Under(Merge(ns, n), uuid, |Merge(ns, n)|)
         == Under(ns, uuid, |ns|) + if n.uuid == uuid then n.nonces else []
  {
    var out := Merge(ns, n);
    assert DistinctUuids(out);
    UnderOnce(ns, uuid, |ns|);
    UnderOnce(out, uuid, |out|);
    SamePlace(ns, out, uuid, 0);
  }

  lemma {:induction false} SamePlace(ns: seq<UUIDNonces>, out: seq<UUIDNonces>, uuid: nat, j: nat)
    requires j <= |ns| <= |out| && forall i :: 0 <= i < |ns| ==> ns[i].uuid == out[i].uuid
    ensures Place(ns, uuid, j) < |ns| ==> Place(out, uuid, j) == Place(ns, uuid, j)
    ensures Place(ns, uuid, j) == |ns| ==> Place(out, uuid, j) >= |ns|
    decreases |ns| - j
  {
  }

  lemma {:induction false} MergeAllAdds(ns: seq<UUIDNonces>, more: seq<UUIDNonces>, uuid: nat, m: nat)
    requires DistinctUuids(ns) && m <= |more|
    ensures DistinctUuids(MergeAll(ns, more, m))
    ensures var out := MergeAll(ns, more, m); Under(out, uuid, |out|) == Under(ns, uuid, |ns|) + Under(more, uuid, m)
  {
    if m > 0 {
      MergeAllAdds(ns, more, uuid, m - 1);
      MergeAdds(MergeAll(ns, more, m - 1), more[m - 1], uuid);
    }
  }

  function Min(a: int, b: int): int {
    if a < b then a else b
  }

  function Peers(arrivals: seq<Arrival>, n: nat): (ps: seq<int>)
    requires n <= |arrivals|
    ensures |ps| == n
  {
    seq(n, i requires 0 <= i < n => arrivals[i].peer)
  }

  /**
   For any order of arrival: the first threshold cosigners are kept, under every UUID exactly
   what those said, in order; the channel closes once, when the threshold is met, and from
   then on nothing changes.
   */
  lemma {:induction false} FirstThresholdKept(arrivals: seq<Arrival>, threshold: nat, n: nat, uuid: nat)
    requires n <= |arrivals|
    ensures var k: nat := Min(n, threshold);
      var r := Run(arrivals, threshold, n);
      && r == Run(arrivals, threshold, k)
      && r.cosigners == Peers(arrivals, k)
      && DistinctUuids(r.nonces) && Under(r.nonces, uuid, |r.nonces|) == Said(arrivals, uuid, k)
      && r.closed == if n >= threshold >= 1 then 1 else 0
  {
    if n > 0 {
      FirstThresholdKept(arrivals, threshold, n - 1, uuid);
      if n <= threshold {
        var before := Run(arrivals, threshold, n - 1);
        MergeAllAdds(before.nonces, arrivals[n - 1].nonces, uuid, |arrivals[n - 1].nonces|);
      }
    }
  }

  /** Cosigners that answer once each are kept once each. */
  lemma {:induction false} KeptOnce(arrivals: seq<Arrival>, threshold: nat, n: nat)
    requires n <= |arrivals| && forall i, j :: 0 <= i < j < |arrivals| ==> arrivals[i].peer != arrivals[j].peer
    ensures var kept := Run(arrivals, threshold, n).cosigners;
      |kept| == Min(n, threshold) && forall i, j :: 0 <= i < j < |kept| ==> kept[i] != kept[j]
  {
    FirstThresholdKept(arrivals, threshold, n, 0);
  }
}

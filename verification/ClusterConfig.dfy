/** Which clusters are accepted (signer/config.go): majority thresholds and shard IDs 1..n. */
module ClusterConfig {
  import opened Wrappers
  import Omega
  import Sets

  datatype CosignerConfig = CosignerConfig(shardID: int, p2pAddr: string)

  datatype ConfigError =
    | BadChainNode | NoThresholdMode | ThresholdTooLow | TooFewShards | BadTimeout
    | Duplicates(ids: map<int, seq<string>>) | OutOfRange(id: int) | BadAddress(id: int) | Unreachable

  /** The addresses given for an ID among the first n entries, in order. */
  function AddressesOf(cosigners: seq<CosignerConfig>, id: int, n: nat): seq<string>
    requires n <= |cosigners|
  {
    if n == 0 then []
    else if cosigners[n - 1].shardID == id then AddressesOf(cosigners, id, n - 1) + [cosigners[n - 1].p2pAddr]
    else AddressesOf(cosigners, id, n - 1)
  }

  function ShardIDs(cosigners: seq<CosignerConfig>): (ids: seq<int>)
    ensures |ids| == |cosigners|
  {
    seq(|cosigners|, i requires 0 <= i < |cosigners| => cosigners[i].shardID)
  }

  lemma {:induction false} AddressPresent(cosigners: seq<CosignerConfig>, id: int, n: nat, i: nat)
    requires i < n <= |cosigners| && cosigners[i].shardID == id
    ensures |AddressesOf(cosigners, id, n)| >= 1
  {
    if i < n - 1 {
      AddressPresent(cosigners, id, n - 1, i);
    }
  }

  /** An ID with two addresses is an ID given twice. */
  lemma {:induction false} TwoAddresses(cosigners: seq<CosignerConfig>, id: int, n: nat)
    requires n <= |cosigners|
    ensures |AddressesOf(cosigners, id, n)| >= 1 <==> exists i :: 0 <= i < n && cosigners[i].shardID == id
    ensures |AddressesOf(cosigners, id, n)| >= 2
       <==> exists i, j :: 0 <= i < j < n && cosigners[i].shardID == id && cosigners[j].shardID == id
  {
    if n > 0 {
      TwoAddresses(cosigners, id, n - 1);
    }
  }

  /** Exactly the addresses given for the ID are listed. */
  lemma {:induction false} AddressesListed(cosigners: seq<CosignerConfig>, id: int, n: nat, addr: string)
    requires n <= |cosigners|
    ensures addr in AddressesOf(cosigners, id, n)
       <==> exists i :: 0 <= i < n && cosigners[i].shardID == id && cosigners[i].p2pAddr == addr
  {
    if n > 0 {
      AddressesListed(cosigners, id, n - 1, addr);
    }
  }

  /** The IDs given more than once, each with all its addresses. */
  method DuplicateCosigners(cosigners: seq<CosignerConfig>) returns (dupl: map<int, seq<string>>)
    ensures forall id :: id in dupl <==> |AddressesOf(cosigners, id, |cosigners|)| >= 2
    ensures forall id :: id in dupl ==> dupl[id] == AddressesOf(cosigners, id, |cosigners|)
  {
    var idAddrs: map<int, seq<string>> := map[];
    for i := 0 to |cosigners|
      invariant forall id :: id in idAddrs <==> AddressesOf(cosigners, id, i) != []
      invariant forall id :: id in idAddrs ==> idAddrs[id] == AddressesOf(cosigners, id, i)
    {
      var id := cosigners[i].shardID;
      idAddrs := idAddrs[id := (if id in idAddrs then idAddrs[id] else []) + [cosigners[i].p2pAddr]];
    }
    ghost var full := idAddrs;
    var keys := idAddrs.Keys;
    while keys != {}
      invariant keys <= full.Keys
      invariant forall id :: id in full ==> (id in idAddrs <==> id in keys || |full[id]| != 1)
      invariant forall id :: id in idAddrs ==> id in full && idAddrs[id] == full[id]
      decreases keys
    {
      ghost var witnessed := Sets.Pick(keys);
      var id :| id in keys;
      if |idAddrs[id]| == 1 {
        idAddrs := idAddrs - {id};
      }
      keys := keys - {id};
    }
    dupl := idAddrs;
  }

  ghost predicate DistinctIDs(cosigners: seq<CosignerConfig>) {
    forall i, j :: 0 <= i < j < |cosigners| ==> cosigners[i].shardID != cosigners[j].shardID
  }

  lemma {:induction false} NoDuplicates(cosigners: seq<CosignerConfig>, dupl: map<int, seq<string>>)
    requires forall id :: id in dupl <==> |AddressesOf(cosigners, id, |cosigners|)| >= 2
    ensures dupl == map[] <==> DistinctIDs(cosigners)
  {
    if dupl == map[] {
      forall i, j | 0 <= i < j < |cosigners| ensures cosigners[i].shardID != cosigners[j].shardID {
        TwoAddresses(cosigners, cosigners[i].shardID, |cosigners|);
        assert cosigners[i].shardID !in dupl;
      }
    } else {
      assert dupl.Keys != {};
      var id := Sets.Pick(dupl.Keys);
      TwoAddresses(cosigners, id, |cosigners|);
    }
  }

  /** The host of an address; None where it does not parse. */
  type Hosts = string -> Option<string>

  ghost predicate GoodEntry(c: CosignerConfig, n: nat, hosts: Hosts) {
    1 <= c.shardID <= n && hosts(c.p2pAddr).Some? && hosts(c.p2pAddr).value != "0.0.0.0"
  }

  method ValidateCosigners(cosigners: seq<CosignerConfig>, hosts: Hosts) returns (err: Option<ConfigError>)
    ensures err.None? <==>
      DistinctIDs(cosigners) && forall i :: 0 <= i < |cosigners| ==> GoodEntry(cosigners[i], |cosigners|, hosts)
  {
    var dupl := DuplicateCosigners(cosigners);
    NoDuplicates(cosigners, dupl);
    if dupl != map[] {
      return Some(Duplicates(dupl));
    }
    var shards := |cosigners|;
    for i := 0 to |cosigners|
      invariant forall k :: 0 <= k < i ==> GoodEntry(cosigners[k], |cosigners|, hosts)
    {
      var c := cosigners[i];
      if c.shardID < 1 || c.shardID > shards {
        assert !GoodEntry(cosigners[i], |cosigners|, hosts);
        return Some(OutOfRange(c.shardID));
      }
      var host := hosts(c.p2pAddr);
      if host.None? {
        assert !GoodEntry(cosigners[i], |cosigners|, hosts);
        return Some(BadAddress(c.shardID));
      }
      if host.value == "0.0.0.0" {
        assert !GoodEntry(cosigners[i], |cosigners|, hosts);
        return Some(Unreachable);
      }
    }
    return None;
  }

  /** What the rest of the system relies on. */
  ghost predicate Accepted(threshold: int, cosigners: seq<CosignerConfig>) {
    && |cosigners| < 2 * threshold && threshold <= |cosigners|
    && Omega.Players(ShardIDs(cosigners), |cosigners|)
  }

  /** The thresholdMode section; whether its two timeouts parse is all that matters about them. */
  datatype ThresholdMode = ThresholdMode(threshold: int, cosigners: seq<CosignerConfig>, timeoutsParse: bool)

  /** A chain node: whether its address and its connection key parse. */
  datatype ChainNode = ChainNode(addressParses: bool, keyParses: bool)

  predicate GoodNode(n: ChainNode) {
    n.addressParses && n.keyParses
  }

  method ValidateChainNodes(nodes: seq<ChainNode>) returns (ok: bool)
    ensures ok <==> forall i :: 0 <= i < |nodes| ==> GoodNode(nodes[i])
  {
    for i := 0 to |nodes|
      invariant forall k :: 0 <= k < i ==> GoodNode(nodes[k])
    {
      if !nodes[i].addressParses || !nodes[i].keyParses {
        assert !GoodNode(nodes[i]);
        return false;
      }
    }
    return true;
  }

  method ValidateThresholdMode(nodes: seq<ChainNode>, mode: Option<ThresholdMode>, hosts: Hosts)
    returns (err: Option<ConfigError>)
    ensures err.None? <==>
      && (forall i :: 0 <= i < |nodes| ==> GoodNode(nodes[i]))
      && mode.Some? && Accepted(mode.value.threshold, mode.value.cosigners) && mode.value.timeoutsParse
      && forall i :: 0 <= i < |mode.value.cosigners| ==> GoodEntry(mode.value.cosigners[i], |mode.value.cosigners|, hosts)
  {
    var nodesOk := ValidateChainNodes(nodes);
    if !nodesOk {
      return Some(BadChainNode);
    }
    if mode.None? {
      return Some(NoThresholdMode);
    }
    var ThresholdMode(threshold, cosigners, timeoutsParse) := mode.value;
    var numShards := |cosigners|;
    if threshold <= numShards / 2 {
      return Some(ThresholdTooLow);
    }
    if numShards < threshold {
      return Some(TooFewShards);
    }
    if !timeoutsParse {
      return Some(BadTimeout);
    }
    err := ValidateCosigners(cosigners, hosts);
    assert err.None? ==> Omega.Players(ShardIDs(cosigners), |cosigners|);
    if err.Some? && Omega.Players(ShardIDs(cosigners), |cosigners|) {
      forall i, j | 0 <= i < j < |cosigners| ensures cosigners[i].shardID != cosigners[j].shardID {
        assert ShardIDs(cosigners)[i] != ShardIDs(cosigners)[j];
      }
    }
  }

  function Interval(n: nat): (s: set<int>)
    ensures |s| == n && forall k :: k in s <==> 1 <= k <= n
  {
    if n == 0 then {} else Interval(n - 1) + {n}
  }

  function IDSet(ids: seq<int>): (s: set<int>)
    ensures forall k :: k in s <==> k in ids
  {
    set k | k in ids
  }

  lemma {:induction false} DistinctCount(ids: seq<int>)
    requires forall i, j :: 0 <= i < j < |ids| ==> ids[i] != ids[j]
    ensures |IDSet(ids)| == |ids|
  {
    if |ids| > 0 {
      var n := |ids| - 1;
      DistinctCount(ids[..n]);
      assert IDSet(ids) == IDSet(ids[..n]) + {ids[n]};
      assert ids[n] !in ids[..n];
    }
  }

  /** An accepted cluster has exactly the shard IDs 1..n, and a threshold above half of them. */
  lemma {:induction false} AcceptedIDs(threshold: int, cosigners: seq<CosignerConfig>)
    requires Accepted(threshold, cosigners)
    ensures IDSet(ShardIDs(cosigners)) == Interval(|cosigners|)
    ensures |cosigners| < 2 * threshold <= 2 * |cosigners|
  {
    DistinctCount(ShardIDs(cosigners));
    Sets.FullSubset(IDSet(ShardIDs(cosigners)), Interval(|cosigners|));
  }
}

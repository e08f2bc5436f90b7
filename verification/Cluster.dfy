/**
 The cluster: cosigners 1..n, any number of leaders talking to them at once, and full
 signatures put together from a threshold of shares.
 */
module Cluster {
  import opened Wrappers
  import opened Hrs
  import opened Payload
  import opened CosignerSteps
  import opened CosignerSafety
  import ClusterConfig
  import Sets

  datatype FullSignature = FullSignature(chain: string, bytes: Data)

  datatype World = World(cosigners: map<int, State>, full: seq<FullSignature>)

  /** A step of one cosigner, or somebody combining the shares of these cosigners over these bytes. */
  datatype WorldEvent = At(id: int, event: Event) | Combine(chain: string, bytes: Data, signers: set<int>)

  /** Every cosigner runs the same code with its own ID and shard. */
  type Configs = int -> Config

  ghost predicate SameCode(cfgs: Configs, codec: Codec, n: nat) {
    forall id :: 1 <= id <= n ==> cfgs(id).codec == codec && cfgs(id).myID == id
  }

  /** The cosigner has handed out a share over exactly these bytes, as a vote or as an extension. */
  ghost predicate Handed(s: State, chain: string, bytes: Data) {
    exists r :: HandedOut(s, chain, r) && r.bytes == bytes
  }

  /** A full signature needs shares over the same bytes from a threshold of cosigners. */
  ghost predicate Enough(w: World, threshold: nat, chain: string, bytes: Data, signers: set<int>) {
    && |signers| >= threshold
    && forall id :: id in signers ==> id in w.cosigners && Handed(w.cosigners[id], chain, bytes)
  }

  ghost function Next(cfgs: Configs, threshold: nat, w: World, e: WorldEvent): World
    requires forall id :: id in w.cosigners ==> cfgs(id).myID >= 1
  {
    match e
    case At(id, event) =>
      if id in w.cosigners then w.(cosigners := w.cosigners[id := Apply(cfgs(id), w.cosigners[id], event)]) else w
    case Combine(chain, bytes, signers) =>
      if Enough(w, threshold, chain, bytes, signers) then w.(full := w.full + [FullSignature(chain, bytes)]) else w
  }

  ghost predicate Reached(cfgs: Configs, codec: Codec, n: nat, threshold: nat, w: World) {
    && w.cosigners.Keys == ClusterConfig.Interval(n)
    && (forall id :: id in w.cosigners ==> cfgs(id).codec == codec && cfgs(id).myID >= 1 && Safe(cfgs(id), w.cosigners[id]))
    && (forall i :: 0 <= i < |w.full| ==> Backed(w, threshold, w.full[i]))
  }

  /** The signers of a full signature, who still remember what they handed out. */
  ghost predicate Backed(w: World, threshold: nat, f: FullSignature) {
    exists signers :: signers <= w.cosigners.Keys && Enough(w, threshold, f.chain, f.bytes, signers)
  }

  ghost function Start(n: nat): World {
    World(map id | id in ClusterConfig.Interval(n) :: Init, [])
  }

  ghost function RunWorld(cfgs: Configs, codec: Codec, n: nat, threshold: nat, events: seq<WorldEvent>): (w: World)
    requires SameCode(cfgs, codec, n)
    ensures w.cosigners.Keys == ClusterConfig.Interval(n)
  {
    if |events| == 0 then Start(n)
    else
      var w := RunWorld(cfgs, codec, n, threshold, events[..|events| - 1]);
      Next(cfgs, threshold, w, events[|events| - 1])
  }

  // ---------------------------------------------------------------- shares are never taken back

  /** Every share handed out stays handed out. */
  ghost predicate Remembers(a: State, b: State) {
    && |a.chains| <= |b.chains|
    && forall i :: 0 <= i < |a.chains| ==> a.chains[i].name == b.chains[i].name && a.chains[i].released <= b.chains[i].released
  }

  lemma {:induction false} StepRemembers(cfg: Config, s: State, j: nat)
    requires cfg.myID >= 1 && Ready(s, j)
    ensures Remembers(s, StepJob(cfg, s, j))
  {
    var q := s.jobs[j].request;
    match s.jobs[j].phase
    case TakingVote => TakeFrame(cfg, s, j, Vote, q.uuid);
    case TakingExtension(_) => TakeFrame(cfg, s, j, Extension, q.extUuid);
    case TakingExtensionOnly(_) => TakeFrame(cfg, s, j, Extension, q.extUuid);
    case _ =>
  }

  lemma {:induction false} ApplyRemembers(cfg: Config, s: State, e: Event)
    requires cfg.myID >= 1
    ensures Remembers(s, Apply(cfg, s, e))
  {
    match e
    case Advance(j) =>
      if Ready(s, j) {
        StepRemembers(cfg, s, j);
      }
    case _ =>
  }

  lemma {:induction false} StillHanded(a: State, b: State, chain: string, bytes: Data)
    requires Remembers(a, b) && Handed(a, chain, bytes)
    ensures Handed(b, chain, bytes)
  {
    var r :| HandedOut(a, chain, r) && r.bytes == bytes;
    var i :| 0 <= i < |a.chains| && a.chains[i].name == chain && r in a.chains[i].released;
    assert r in b.chains[i].released;
    assert HandedOut(b, chain, r);
  }

  lemma {:induction false} NextKeeps(cfgs: Configs, codec: Codec, n: nat, threshold: nat, w: World, e: WorldEvent)
    requires Reached(cfgs, codec, n, threshold, w)
    ensures Reached(cfgs, codec, n, threshold, Next(cfgs, threshold, w, e))
  {
    match e
    case At(id, event) => StepKeepsReached(cfgs, codec, n, threshold, w, id, event);
    case Combine(chain, bytes, signers) => CombineKeepsReached(cfgs, codec, n, threshold, w, chain, bytes, signers);
  }

  lemma {:induction false} StepKeepsReached(cfgs: Configs, codec: Codec, n: nat, threshold: nat, w: World, id: int, event: Event)
    requires Reached(cfgs, codec, n, threshold, w)
    ensures Reached(cfgs, codec, n, threshold, Next(cfgs, threshold, w, At(id, event)))
  {
    var w' := Next(cfgs, threshold, w, At(id, event));
    if id in w.cosigners {
      ApplyKeepsSafe(cfgs(id), w.cosigners[id], event);
      ApplyRemembers(cfgs(id), w.cosigners[id], event);
      assert w'.cosigners.Keys == w.cosigners.Keys;
      forall i | 0 <= i < |w'.full| ensures Backed(w', threshold, w'.full[i]) {
        BackedForGood(w, w', threshold, w.full[i], id);
      }
    }
  }

  lemma {:induction false} CombineKeepsReached(cfgs: Configs, codec: Codec, n: nat, threshold: nat, w: World,
                                               chain: string, bytes: Data, signers: set<int>)
    requires Reached(cfgs, codec, n, threshold, w)
    ensures Reached(cfgs, codec, n, threshold, Next(cfgs, threshold, w, Combine(chain, bytes, signers)))
  {
    var w' := Next(cfgs, threshold, w, Combine(chain, bytes, signers));
    if Enough(w, threshold, chain, bytes, signers) {
      assert signers <= w.cosigners.Keys && Enough(w', threshold, chain, bytes, signers);
      forall i | 0 <= i < |w'.full| ensures Backed(w', threshold, w'.full[i]) {
        if i < |w.full| {
          StillBacked(w, w', threshold, w.full[i]);
        }
      }
    }
  }

  lemma {:induction false} StillBacked(w: World, w': World, threshold: nat, f: FullSignature)
    requires Backed(w, threshold, f) && w'.cosigners == w.cosigners
    ensures Backed(w', threshold, f)
  {
    var signers :| signers <= w.cosigners.Keys && Enough(w, threshold, f.chain, f.bytes, signers);
    assert Enough(w', threshold, f.chain, f.bytes, signers);
  }

  lemma {:induction false} BackedForGood(w: World, w': World, threshold: nat, f: FullSignature, id: int)
    requires Backed(w, threshold, f) && id in w.cosigners && w'.cosigners.Keys == w.cosigners.Keys
    requires Remembers(w.cosigners[id], w'.cosigners[id])
    requires forall k :: k in w.cosigners && k != id ==> w'.cosigners[k] == w.cosigners[k]
    ensures Backed(w', threshold, f)
  {
    var signers :| signers <= w.cosigners.Keys && Enough(w, threshold, f.chain, f.bytes, signers);
    if id in signers {
      StillHanded(w.cosigners[id], w'.cosigners[id], f.chain, f.bytes);
    }
    assert Enough(w', threshold, f.chain, f.bytes, signers);
  }

  lemma {:induction false} RunReaches(cfgs: Configs, codec: Codec, n: nat, threshold: nat, events: seq<WorldEvent>)
    requires SameCode(cfgs, codec, n)
    ensures Reached(cfgs, codec, n, threshold, RunWorld(cfgs, codec, n, threshold, events))
  {
    if |events| > 0 {
      var before := events[..|events| - 1];
      RunReaches(cfgs, codec, n, threshold, before);
      NextKeeps(cfgs, codec, n, threshold, RunWorld(cfgs, codec, n, threshold, before), events[|events| - 1]);
    }
  }

  // ---------------------------------------------------------------- cluster safety

  /** Nothing that parses as a vote extension of this chain also parses as a vote or a proposal. */
  ghost predicate DomainSeparated(codec: Codec, chain: string) {
    forall d :: codec.extension(d).Some? && codec.extension(d).value.chainID == chain ==> KeyOf(codec, d).None?
  }

  /** On a separated chain, a share over a payload with a key was handed out as a vote under that key. */
  lemma {:induction false} HandedAsVote(cfg: Config, s: State, chain: string, r: Release, key: HRSKey)
    requires Safe(cfg, s) && DomainSeparated(cfg.codec, chain)
    requires HandedOut(s, chain, r) && KeyOf(cfg.codec, r.bytes) == Some(key)
    ensures r.kind == Vote && r.key == key
  {
    var i :| 0 <= i < |s.chains| && s.chains[i].name == chain && r in s.chains[i].released;
    assert ChainSafe(cfg.codec, s.chains[i]);
    assert ReleaseSafe(cfg.codec, s.chains[i], r);
  }

  /** A cosigner that stored the chain once and handed out shares over both payloads saw them agree. */
  lemma {:induction false} OneCosignerAgrees(cfg: Config, s: State, chain: string, a: Data, b: Data)
    requires Safe(cfg, s) && DomainSeparated(cfg.codec, chain) && Stores(s.chains, chain) <= 1
    requires Handed(s, chain, a) && Handed(s, chain, b) && SameSlot(cfg.codec, a, b)
    ensures OnlyStampsDiffer(cfg.codec, a, b)
  {
    SlotIsKey(cfg.codec, a, b);
    var x :| HandedOut(s, chain, x) && x.bytes == a;
    var y :| HandedOut(s, chain, y) && y.bytes == b;
    HandedAsVote(cfg, s, chain, x, KeyOf(cfg.codec, a).value);
    HandedAsVote(cfg, s, chain, y, KeyOf(cfg.codec, a).value);
    OnceAgrees(cfg, s, chain);
  }

  /** No cosigner stored the chain more than k times. */
  ghost predicate StoredAtMost(w: World, chain: string, k: nat) {
    forall id :: id in w.cosigners ==> Stores(w.cosigners[id].chains, chain) <= k
  }

  /** Full signatures on the chain for one height, round and type of message never differ beyond the timestamp. */
  ghost predicate NeverTwice(codec: Codec, w: World, chain: string) {
    forall f, g :: f in w.full && g in w.full && f.chain == chain && g.chain == chain
                   && SameSlot(codec, f.bytes, g.bytes) ==>
      OnlyStampsDiffer(codec, f.bytes, g.bytes)
  }

  /**
   Cluster safety: in every run of an accepted cluster in which no cosigner stores the chain
   twice, two full signatures on it over prevotes, precommits or proposals of one height and
   round never cover messages that differ beyond the timestamp.
   */
  lemma {:induction false} NoDoubleSign(cfgs: Configs, codec: Codec, threshold: nat,
                                        cosigners: seq<ClusterConfig.CosignerConfig>,
                                        events: seq<WorldEvent>, chain: string)
    requires ClusterConfig.Accepted(threshold, cosigners)
    requires SameCode(cfgs, codec, |cosigners|) && DomainSeparated(codec, chain)
    requires StoredAtMost(RunWorld(cfgs, codec, |cosigners|, threshold, events), chain, 1)
    ensures NeverTwice(codec, RunWorld(cfgs, codec, |cosigners|, threshold, events), chain)
  {
    var n := |cosigners|;
    RunReaches(cfgs, codec, n, threshold, events);
    var w := RunWorld(cfgs, codec, n, threshold, events);
    forall f, g | f in w.full && g in w.full && f.chain == chain && g.chain == chain && SameSlot(codec, f.bytes, g.bytes)
      ensures OnlyStampsDiffer(codec, f.bytes, g.bytes)
    {
      assert Backed(w, threshold, f) && Backed(w, threshold, g);
      var a :| a <= w.cosigners.Keys && Enough(w, threshold, f.chain, f.bytes, a);
      var b :| b <= w.cosigners.Keys && Enough(w, threshold, g.chain, g.bytes, b);
      var id := Sets.Overlap(a, b, ClusterConfig.Interval(n));
      OneCosignerAgrees(cfgs(id), w.cosigners[id], chain, f.bytes, g.bytes);
    }
  }
}

/**
 What overlapping loads do to the cluster: cluster safety holds for all runs that store a chain
 at most k times per cosigner if and only if k is at most one.
 */
module ClusterLoading {
  import opened Wrappers
  import opened Hrs
  import opened Payload
  import opened SigningState
  import opened CosignerSteps
  import opened CosignerSafety
  import opened ChainLoading
  import opened Cluster
  import ClusterConfig

  /** One cosigner's run as events of the cluster. */
  function Lift(id: int, es: seq<Event>): seq<WorldEvent> {
    if |es| == 0 then [] else Lift(id, es[..|es| - 1]) + [At(id, es[|es| - 1])]
  }

  lemma {:induction false} Snoc(cfgs: Configs, codec: Codec, n: nat, threshold: nat, xs: seq<WorldEvent>, e: WorldEvent)
    requires SameCode(cfgs, codec, n)
    ensures RunWorld(cfgs, codec, n, threshold, xs + [e]) == Next(cfgs, threshold, RunWorld(cfgs, codec, n, threshold, xs), e)
  {
    assert (xs + [e])[..|xs|] == xs;
  }

  lemma {:induction false} SnocTwo(cfgs: Configs, codec: Codec, n: nat, threshold: nat, xs: seq<WorldEvent>, e: WorldEvent, f: WorldEvent)
    requires SameCode(cfgs, codec, n)
    ensures RunWorld(cfgs, codec, n, threshold, xs + [e] + [f])
      == Next(cfgs, threshold, Next(cfgs, threshold, RunWorld(cfgs, codec, n, threshold, xs), e), f)
  {
    Snoc(cfgs, codec, n, threshold, xs, e);
    Snoc(cfgs, codec, n, threshold, xs + [e], f);
  }

  lemma {:induction false} LiftSnoc(xs: seq<WorldEvent>, id: int, es: seq<Event>)
    requires |es| > 0
    ensures xs + Lift(id, es) == xs + Lift(id, es[..|es| - 1]) + [At(id, es[|es| - 1])]
  {
  }

  lemma {:induction false} NextAt(cfgs: Configs, threshold: nat, w: World, v: World, id: int, x: State, e: Event)
    requires (forall k :: k in v.cosigners ==> cfgs(k).myID >= 1) && id in w.cosigners
    requires v.full == w.full && v.cosigners == w.cosigners[id := x]
    ensures var w' := Next(cfgs, threshold, v, At(id, e));
      w'.full == w.full && w'.cosigners == w.cosigners[id := Apply(cfgs(id), x, e)]
  {
  }

  /** A cosigner that has done nothing yet goes through a run of its own; the rest stays as it is. */
  lemma {:induction false} LiftRun(cfgs: Configs, codec: Codec, n: nat, threshold: nat, xs: seq<WorldEvent>, id: int, es: seq<Event>)
    requires SameCode(cfgs, codec, n) && 1 <= id <= n
    requires RunWorld(cfgs, codec, n, threshold, xs).cosigners[id] == Init
    ensures var w, w' := RunWorld(cfgs, codec, n, threshold, xs), RunWorld(cfgs, codec, n, threshold, xs + Lift(id, es));
      w'.full == w.full && w'.cosigners == w.cosigners[id := RunEvents(cfgs(id), es)]
  {
    if |es| == 0 {
      assert xs + Lift(id, es) == xs;
    } else {
      var m := |es| - 1;
      LiftRun(cfgs, codec, n, threshold, xs, id, es[..m]);
      var ys := xs + Lift(id, es[..m]);
      LiftSnoc(xs, id, es);
      Snoc(cfgs, codec, n, threshold, ys, At(id, es[m]));
      NextAt(cfgs, threshold, RunWorld(cfgs, codec, n, threshold, xs), RunWorld(cfgs, codec, n, threshold, ys),
             id, RunEvents(cfgs(id), es[..m]), es[m]);
    }
  }

  /** The cosigner handed out shares over both payloads after two stores. */
  ghost predicate Both(s: State, chain: string, a: Data, b: Data) {
    Stores(s.chains, chain) <= 2 && Handed(s, chain, a) && Handed(s, chain, b)
  }

  /** Cosigners 1..m handed out both, the others have done nothing. */
  ghost predicate UpTo(w: World, m: nat, chain: string, a: Data, b: Data) {
    && w.full == []
    && forall id :: id in w.cosigners ==> if id <= m then Both(w.cosigners[id], chain, a, b) else w.cosigners[id] == Init
  }

  ghost predicate HandedByAll(w: World, chain: string, bytes: Data) {
    forall id :: id in w.cosigners ==> Handed(w.cosigners[id], chain, bytes)
  }

  lemma {:induction false} AllOfThem(w: World, n: nat, chain: string, a: Data, b: Data)
    requires UpTo(w, n, chain, a, b) && w.cosigners.Keys == ClusterConfig.Interval(n)
    ensures HandedByAll(w, chain, a) && HandedByAll(w, chain, b) && StoredAtMost(w, chain, 2)
  {
    forall id | id in w.cosigners ensures Both(w.cosigners[id], chain, a, b) {
      assert id in ClusterConfig.Interval(n);
    }
  }

  /** A cluster in which every cosigner counts on the same threshold, and a key beyond what can be loaded. */
  ghost predicate Setting(cfgs: Configs, codec: Codec, n: nat, threshold: nat, mark: Watermark, key: HRSKey) {
    && SameCode(cfgs, codec, n) && threshold <= n && Loadable(mark) && key.GreaterThan(mark.latest.key)
    && forall id :: 1 <= id <= n ==> cfgs(id).threshold == threshold
  }

  /** One cosigner hands out both. */
  lemma {:induction false} BothRun(cfg: Config, n: nat, chain: string, mark: Watermark, key: HRSKey, a: Data, b: Data)
    returns (es: seq<Event>)
    requires 1 <= cfg.myID <= n && cfg.threshold <= n && Loadable(mark) && key.GreaterThan(mark.latest.key)
    requires KeyOf(cfg.codec, a) == Some(key) && KeyOf(cfg.codec, b) == Some(key)
    ensures Both(RunEvents(cfg, es), chain, a, b)
  {
    es := OverlappingLoadsClash(cfg, n, chain, mark, key, a, b);
  }

  lemma {:induction false} OneMore(w: World, w': World, n: nat, m: nat, chain: string, a: Data, b: Data, x: State)
    requires UpTo(w, m, chain, a, b) && m < n && w.cosigners.Keys == ClusterConfig.Interval(n)
    requires w'.full == w.full && w'.cosigners == w.cosigners[m + 1 := x] && Both(x, chain, a, b)
    ensures UpTo(w', m + 1, chain, a, b)
  {
  }

  lemma {:induction false} HandBoth(cfgs: Configs, codec: Codec, n: nat, threshold: nat, chain: string, mark: Watermark,
                                    key: HRSKey, a: Data, b: Data, m: nat) returns (events: seq<WorldEvent>)
    requires Setting(cfgs, codec, n, threshold, mark, key) && m <= n
    requires KeyOf(codec, a) == Some(key) && KeyOf(codec, b) == Some(key)
    ensures UpTo(RunWorld(cfgs, codec, n, threshold, events), m, chain, a, b)
  {
    events := [];
    if m > 0 {
      var before := HandBoth(cfgs, codec, n, threshold, chain, mark, key, a, b, m - 1);
      var w := RunWorld(cfgs, codec, n, threshold, before);
      var es := BothRun(cfgs(m), n, chain, mark, key, a, b);
      assert w.cosigners[m] == Init;
      LiftRun(cfgs, codec, n, threshold, before, m, es);
      events := before + Lift(m, es);
      OneMore(w, RunWorld(cfgs, codec, n, threshold, events), n, m - 1, chain, a, b, RunEvents(cfgs(m), es));
    }
  }

  /** Everybody's shares over these bytes are combined. */
  lemma {:induction false} CombineAll(cfgs: Configs, n: nat, threshold: nat, w: World, chain: string, bytes: Data)
    requires (forall id :: id in w.cosigners ==> cfgs(id).myID >= 1) && threshold <= n
    requires w.cosigners.Keys == ClusterConfig.Interval(n) && HandedByAll(w, chain, bytes)
    ensures Next(cfgs, threshold, w, Combine(chain, bytes, ClusterConfig.Interval(n)))
      == World(w.cosigners, w.full + [FullSignature(chain, bytes)])
  {
    assert Enough(w, threshold, chain, bytes, ClusterConfig.Interval(n));
  }

  lemma {:induction false} CombineTwice(cfgs: Configs, n: nat, threshold: nat, w: World, chain: string, a: Data, b: Data)
    requires (forall id :: id in w.cosigners ==> cfgs(id).myID >= 1) && threshold <= n
    requires w.cosigners.Keys == ClusterConfig.Interval(n) && HandedByAll(w, chain, a) && HandedByAll(w, chain, b)
    requires w.full == [] && StoredAtMost(w, chain, 2)
    ensures var everybody := ClusterConfig.Interval(n);
      var w' := Next(cfgs, threshold, Next(cfgs, threshold, w, Combine(chain, a, everybody)), Combine(chain, b, everybody));
      StoredAtMost(w', chain, 2) && w'.full == [FullSignature(chain, a), FullSignature(chain, b)]
  {
    CombineAll(cfgs, n, threshold, w, chain, a);
    CombineAll(cfgs, n, threshold, World(w.cosigners, w.full + [FullSignature(chain, a)]), chain, b);
  }

  /** Two full signatures for one height, round and step over any two payloads, with no store beyond the second. */
  lemma {:induction false} StaleStoresDoubleSign(cfgs: Configs, codec: Codec, n: nat, threshold: nat, chain: string,
                                                 mark: Watermark, key: HRSKey, a: Data, b: Data)
    returns (events: seq<WorldEvent>)
    requires Setting(cfgs, codec, n, threshold, mark, key)
    requires KeyOf(codec, a) == Some(key) && KeyOf(codec, b) == Some(key)
    ensures var w := RunWorld(cfgs, codec, n, threshold, events);
      StoredAtMost(w, chain, 2) && w.full == [FullSignature(chain, a), FullSignature(chain, b)]
  {
    events := HandBoth(cfgs, codec, n, threshold, chain, mark, key, a, b, n);
    var w := RunWorld(cfgs, codec, n, threshold, events);
    AllOfThem(w, n, chain, a, b);
    CombineTwice(cfgs, n, threshold, w, chain, a, b);
    var everybody := ClusterConfig.Interval(n);
    SnocTwo(cfgs, codec, n, threshold, events, Combine(chain, a, everybody), Combine(chain, b, everybody));
    events := events + [Combine(chain, a, everybody)] + [Combine(chain, b, everybody)];
  }

  lemma {:induction false} Twice(codec: Codec, w: World, chain: string, key: HRSKey, a: Data, b: Data)
    requires Clash(codec, key, a, b) && w.full == [FullSignature(chain, a), FullSignature(chain, b)]
    ensures !NeverTwice(codec, w, chain)
  {
    assert w.full[0] in w.full && w.full[1] in w.full;
  }

  /** All runs with at most k stores of the chain per cosigner are safe. */
  ghost predicate SafeUpTo(cfgs: Configs, codec: Codec, n: nat, threshold: nat, chain: string, k: nat)
    requires SameCode(cfgs, codec, n)
  {
    forall events :: StoredAtMost(RunWorld(cfgs, codec, n, threshold, events), chain, k) ==>
      NeverTwice(codec, RunWorld(cfgs, codec, n, threshold, events), chain)
  }

  /**
   The exact condition for cluster safety: as long as two payloads for one key can differ at all,
   an accepted cluster is safe in all runs with at most k stores if and only if k is at most one.
   */
  lemma {:induction false} SafeIffStoredOnce(cfgs: Configs, codec: Codec, threshold: nat,
                                             cosigners: seq<ClusterConfig.CosignerConfig>, chain: string,
                                             mark: Watermark, key: HRSKey, a: Data, b: Data, k: nat)
    requires ClusterConfig.Accepted(threshold, cosigners) && DomainSeparated(codec, chain)
    requires Setting(cfgs, codec, |cosigners|, threshold, mark, key) && Clash(codec, key, a, b)
    ensures SafeUpTo(cfgs, codec, |cosigners|, threshold, chain, k) <==> k <= 1
  {
    var n := |cosigners|;
    if k <= 1 {
      forall events | StoredAtMost(RunWorld(cfgs, codec, n, threshold, events), chain, k)
        ensures NeverTwice(codec, RunWorld(cfgs, codec, n, threshold, events), chain)
      {
        NoDoubleSign(cfgs, codec, threshold, cosigners, events, chain);
      }
    } else {
      SlotIsKey(codec, a, b);
      var events := StaleStoresDoubleSign(cfgs, codec, n, threshold, chain, mark, key, a, b);
      Twice(codec, RunWorld(cfgs, codec, n, threshold, events), chain, key, a, b);
      assert StoredAtMost(RunWorld(cfgs, codec, n, threshold, events), chain, k);
    }
  }
}

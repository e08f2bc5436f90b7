/**
 Loading a chain's state without a lock (signer/local_cosigner.go LoadSignStateIfNecessary): a
 cosigner keeps its promise exactly while no chain is stored twice. Loading one at a time, or
 before any request is served, is enough; two overlapping loads are enough to break it.
 */
module ChainLoading {
  import opened Wrappers
  import opened Hrs
  import opened Payload
  import opened SigningState
  import opened NonceStore
  import opened CosignerSteps
  import opened CosignerSafety

  // ---------------------------------------------------------------- one load at a time

  predicate Reading(s: State, name: string) {
    exists i :: 0 <= i < |s.pending| && s.pending[i].chain == name
  }

  /** Nobody reads the chain's state while somebody else is between reading and storing it. */
  ghost predicate OneAtATime(cfg: Config, events: seq<Event>, name: string)
    requires cfg.myID >= 1
  {
    forall k :: 0 <= k < |events| && events[k].Read? && events[k].chain == name ==>
      !Reading(RunEvents(cfg, events[..k]), name)
  }

  /** At most one load, and none under way once the state is stored. */
  ghost predicate LoadedOnce(s: State, name: string) {
    && (forall i, j :: 0 <= i < j < |s.pending| ==> s.pending[i].chain != name || s.pending[j].chain != name)
    && (if name in s.current then Stores(s.chains, name) <= 1 && !Reading(s, name) else Stores(s.chains, name) == 0)
  }

  lemma {:induction false} StoresByName(a: seq<Chain>, b: seq<Chain>, name: string)
    requires |a| == |b| && forall i :: 0 <= i < |a| ==> a[i].name == b[i].name
    ensures Stores(a, name) == Stores(b, name)
  {
    if |a| > 0 {
      StoresByName(a[..|a| - 1], b[..|b| - 1], name);
    }
  }

  /** The same states under the same names, whatever happened to them. */
  ghost predicate SameNames(s: State, s': State) {
    && s'.current == s.current && s'.pending == s.pending && |s'.chains| == |s.chains|
    && forall i :: 0 <= i < |s.chains| ==> s'.chains[i].name == s.chains[i].name
  }

  lemma {:induction false} StepKeepsNames(cfg: Config, s: State, j: nat)
    requires cfg.myID >= 1 && Ready(s, j)
    ensures SameNames(s, StepJob(cfg, s, j))
  {
    var q := s.jobs[j].request;
    match s.jobs[j].phase
    case TakingVote => TakeFrame(cfg, s, j, Vote, q.uuid);
    case TakingExtension(_) => TakeFrame(cfg, s, j, Extension, q.extUuid);
    case TakingExtensionOnly(_) => TakeFrame(cfg, s, j, Extension, q.extUuid);
    case _ =>
  }

  lemma {:induction false} InstallLoads(s: State, i: nat, name: string)
    requires LoadedOnce(s, name) && i < |s.pending|
    ensures LoadedOnce(StepInstall(s, i), name)
  {
    var s' := StepInstall(s, i);
    assert s'.chains[..|s'.chains| - 1] == s.chains;
    assert s.pending[i].chain == name ==> Reading(s, name);
    assert forall k :: 0 <= k < |s'.pending| ==> s'.pending[k] == s.pending[if k < i then k else k + 1];
  }

  lemma {:induction false} ApplyKeepsLoads(cfg: Config, s: State, e: Event, name: string)
    requires cfg.myID >= 1 && LoadedOnce(s, name)
    requires e.Read? && e.chain == name ==> !Reading(s, name)
    ensures LoadedOnce(Apply(cfg, s, e), name)
  {
    var s' := Apply(cfg, s, e);
    match e
    case Read(_, _) =>
    case Install(i) => if i < |s.pending| { InstallLoads(s, i, name); }
    case Advance(j) =>
      if Ready(s, j) {
        StepKeepsNames(cfg, s, j);
        StoresByName(s.chains, s'.chains, name);
      }
    case Replicate(_, _) => StoresByName(s.chains, s'.chains, name);
    case _ =>
  }

  /** Loads that do not overlap store a chain at most once. */
  lemma {:induction false} OneAtATimeStoresOnce(cfg: Config, events: seq<Event>, name: string)
    requires cfg.myID >= 1 && OneAtATime(cfg, events, name)
    ensures LoadedOnce(RunEvents(cfg, events), name)
  {
    if |events| > 0 {
      var n := |events| - 1;
      assert forall k :: 0 <= k <= n ==> events[..n][..k] == events[..k];
      OneAtATimeStoresOnce(cfg, events[..n], name);
      ApplyKeepsLoads(cfg, RunEvents(cfg, events[..n]), events[n], name);
    }
  }

  // ---------------------------------------------------------------- overlapping loads

  /** Two payloads for one key that differ beyond the timestamp. */
  ghost predicate Clash(codec: Codec, key: HRSKey, a: Data, b: Data) {
    KeyOf(codec, a) == Some(key) && SameSlot(codec, a, b) && !OnlyStampsDiffer(codec, a, b)
  }

  lemma {:induction false} Extend(cfg: Config, events: seq<Event>, e: Event) returns (more: seq<Event>)
    requires cfg.myID >= 1
    ensures more == events + [e] && RunEvents(cfg, more) == Apply(cfg, RunEvents(cfg, events), e)
  {
    more := events + [e];
    assert more[..|more| - 1] == events;
  }

  /** A record in which every one of the total sources left a share for everybody. */
  function FullSlots(total: nat): seq<Slot> {
    seq(total, _ => Slot([], seq(total, _ => [0])))
  }

  lemma {:induction false} FullContributions(total: nat, myID: nat, n: nat)
    requires 1 <= myID <= total && n <= total
    ensures |Contributions(FullSlots(total), myID, n)| == n
  {
    if n > 0 {
      FullContributions(total, myID, n - 1);
    }
  }

  /** A chain whose current state has not reached the key. */
  ghost predicate Behind(s: State, name: string, at: nat, key: HRSKey) {
    && name in s.current && s.current[name] == at < |s.chains| && s.chains[at].name == name
    && key.GreaterThan(s.chains[at].mark.latest.key)
  }

  /** A request with nonces for it, as the last one. */
  ghost predicate Asked(s: State, name: string, at: nat, key: HRSKey, bytes: Data, phase: Phase) {
    && |s.jobs| >= 1 && s.jobs[|s.jobs| - 1] == Job(Request(name, key, false, bytes, [], 0, 0), at, phase)
    && at < |s.chains|
  }

  lemma {:induction false} Ask(cfg: Config, events: seq<Event>, total: nat, name: string, at: nat, key: HRSKey, bytes: Data)
    returns (more: seq<Event>)
    requires 1 <= cfg.myID <= total && cfg.threshold <= total && KeyOf(cfg.codec, bytes) == Some(key)
    requires Behind(RunEvents(cfg, events), name, at, key)
    ensures var s, s' := RunEvents(cfg, events), RunEvents(cfg, more);
      && SameChains(s, s') && Asked(s', name, at, key, bytes, Gating)
      && 0 in s'.store && s'.store[0].slots == FullSlots(total)
  {
    more := Extend(cfg, events, Generate(0, FullSlots(total), 0));
    more := Extend(cfg, more, Receive(name, bytes, [], 0, 0));
  }

  function Last(s: State): nat
    requires |s.jobs| >= 1
  {
    |s.jobs| - 1
  }

  lemma {:induction false} NextStep(cfg: Config, s: State)
    requires cfg.myID >= 1 && |s.jobs| >= 1 && Ready(s, Last(s))
    ensures Apply(cfg, s, Advance(Last(s))) == StepJob(cfg, s, Last(s))
  {
  }

  lemma {:induction false} GateOpens(cfg: Config, s: State, name: string, at: nat, key: HRSKey, bytes: Data)
    requires cfg.myID >= 1 && KeyOf(cfg.codec, bytes) == Some(key)
    requires Asked(s, name, at, key, bytes, Gating) && Behind(s, name, at, key)
    ensures var s' := Apply(cfg, s, Advance(Last(s)));
      SameChains(s, s') && s'.store == s.store && Asked(s', name, at, key, bytes, TakingVote)
  {
    GateMeaning(cfg.codec, s.chains[at].mark.latest, key, bytes);
    NextStep(cfg, s);
    assert StepJob(cfg, s, Last(s)) == StepGate(cfg, s, Last(s)) == SetPhase(s, Last(s), TakingVote);
  }

  lemma {:induction false} NoncesThere(cfg: Config, s: State, total: nat, name: string, at: nat, key: HRSKey, bytes: Data)
    returns (v: Held)
    requires 1 <= cfg.myID <= total && cfg.threshold <= total && Asked(s, name, at, key, bytes, TakingVote)
    requires 0 in s.store && s.store[0].slots == FullSlots(total)
    ensures var s' := Apply(cfg, s, Advance(Last(s)));
      SameChains(s, s') && Asked(s', name, at, key, bytes, Signing(v, None))
  {
    FullContributions(total, cfg.myID, total);
    TakeFrame(cfg, s, Last(s), Vote, 0);
    v := Take(cfg, s, Last(s), Vote, 0).1.value;
  }

  lemma {:induction false} Signs(cfg: Config, s: State, name: string, at: nat, key: HRSKey, bytes: Data, v: Held)
    returns (share: Data)
    requires cfg.myID >= 1 && Asked(s, name, at, key, bytes, Signing(v, None))
    ensures var s' := Apply(cfg, s, Advance(Last(s)));
      SameChains(s, s') && Asked(s', name, at, key, bytes, Saving(share, None))
  {
    share := cfg.sign(v.nonces, bytes);
    NextStep(cfg, s);
    assert StepJob(cfg, s, Last(s)) == StepSign(cfg, s, Last(s), v, None);
  }

  /** The state at this index changed, keeping its name, and no other. */
  ghost predicate OnlyAt(s: State, s': State, at: nat) {
    SameNames(s, s') && forall i :: 0 <= i < |s.chains| && i != at ==> s'.chains[i] == s.chains[i]
  }

  lemma {:induction false} Saves(cfg: Config, s: State, name: string, at: nat, key: HRSKey, bytes: Data, share: Data)
    requires cfg.myID >= 1 && Asked(s, name, at, key, bytes, Saving(share, None)) && Behind(s, name, at, key)
    ensures var s' := Apply(cfg, s, Advance(Last(s)));
      OnlyAt(s, s', at) && Asked(s', name, at, key, bytes, Answering(share, None))
  {
    TotalOrder(key, s.chains[at].mark.latest.key, key);
    NextStep(cfg, s);
    var c := SaveOn(s.chains[at], Consensus(key, Some(share), None, Some(bytes)));
    assert StepJob(cfg, s, Last(s)) == StepSave(s, Last(s), share, None)
        == SetPhase(SetChain(s, Last(s), c), Last(s), Answering(share, None));
  }

  lemma {:induction false} Answers(cfg: Config, s: State, name: string, at: nat, key: HRSKey, bytes: Data, share: Data)
    requires cfg.myID >= 1 && Asked(s, name, at, key, bytes, Answering(share, None))
    ensures var s' := Apply(cfg, s, Advance(Last(s)));
      OnlyAt(s, s', at) && Release(name, key, Vote, bytes) in s'.chains[at].released
  {
    NextStep(cfg, s);
    assert StepJob(cfg, s, Last(s)) == Answer(s, Last(s), false);
    assert Release(name, key, Vote, bytes) == Shares(s.jobs[Last(s)].request, false)[0];
  }

  /** A request from arrival to its answer: the share is out, and no other state has changed. */
  lemma {:induction false} Serve(cfg: Config, events: seq<Event>, total: nat, name: string, at: nat, key: HRSKey, bytes: Data)
    returns (more: seq<Event>)
    requires 1 <= cfg.myID <= total && cfg.threshold <= total && KeyOf(cfg.codec, bytes) == Some(key)
    requires Behind(RunEvents(cfg, events), name, at, key)
    ensures var s, s' := RunEvents(cfg, events), RunEvents(cfg, more);
      OnlyAt(s, s', at) && Release(name, key, Vote, bytes) in s'.chains[at].released
  {
    more := Ask(cfg, events, total, name, at, key, bytes);
    var s := RunEvents(cfg, more);
    GateOpens(cfg, s, name, at, key, bytes);
    more := Extend(cfg, more, Advance(Last(s)));
    s := RunEvents(cfg, more);
    var v := NoncesThere(cfg, s, total, name, at, key, bytes);
    more := Extend(cfg, more, Advance(Last(s)));
    s := RunEvents(cfg, more);
    var share := Signs(cfg, s, name, at, key, bytes, v);
    more := Extend(cfg, more, Advance(Last(s)));
    s := RunEvents(cfg, more);
    Saves(cfg, s, name, at, key, bytes, share);
    more := Extend(cfg, more, Advance(Last(s)));
    s := RunEvents(cfg, more);
    Answers(cfg, s, name, at, key, bytes, share);
    more := Extend(cfg, more, Advance(Last(s)));
  }

  /** The state of a chain is read twice before it is stored for the first time. */
  lemma {:induction false} ReadTwice(cfg: Config, name: string, mark: Watermark) returns (events: seq<Event>)
    requires cfg.myID >= 1 && Loadable(mark)
    ensures var s := RunEvents(cfg, events);
      && |s.chains| == 1 && s.chains[0].name == name && s.chains[0].mark == mark
      && s.current == map[name := 0] && s.pending == [Pending(name, mark)]
  {
    events := Extend(cfg, [], Read(name, mark));
    assert RunEvents(cfg, events).pending == [Pending(name, mark)];
    events := Extend(cfg, events, Read(name, mark));
    assert RunEvents(cfg, events).pending == [Pending(name, mark), Pending(name, mark)];
    events := Extend(cfg, events, Install(0));
  }

  lemma {:induction false} TwoStores(chains: seq<Chain>, name: string)
    requires |chains| == 2 && chains[0].name == name && chains[1].name == name
    ensures Stores(chains, name) == 2
  {
    assert chains[..1] == [chains[0]] && [chains[0]][..0] == [];
    assert Stores([chains[0]], name) == 1;
  }

  /** The second store brings the watermark back. */
  lemma {:induction false} StoreAgain(cfg: Config, events: seq<Event>, name: string, mark: Watermark) returns (more: seq<Event>)
    requires cfg.myID >= 1
    requires var s := RunEvents(cfg, events); |s.chains| == 1 && s.chains[0].name == name && s.pending == [Pending(name, mark)]
    ensures var s, s' := RunEvents(cfg, events), RunEvents(cfg, more);
      && |s'.chains| == 2 && s'.chains[0] == s.chains[0] && s'.chains[1].name == name && s'.chains[1].mark == mark
      && name in s'.current && s'.current[name] == 1
  {
    more := Extend(cfg, events, Install(0));
  }

  /**
   Two requests that both find nothing stored, read and store one after the other, with the first
   one served in between: whatever the two payloads are, both shares leave the cosigner.
   */
  lemma {:induction false} OverlappingLoadsClash(cfg: Config, total: nat, name: string, mark: Watermark, key: HRSKey, a: Data, b: Data)
    returns (events: seq<Event>)
    requires 1 <= cfg.myID <= total && cfg.threshold <= total && Loadable(mark) && key.GreaterThan(mark.latest.key)
    requires KeyOf(cfg.codec, a) == Some(key) && KeyOf(cfg.codec, b) == Some(key)
    ensures var s := RunEvents(cfg, events);
      && Stores(s.chains, name) == 2
      && HandedOut(s, name, Release(name, key, Vote, a)) && HandedOut(s, name, Release(name, key, Vote, b))
  {
    events := ReadTwice(cfg, name, mark);
    events := Serve(cfg, events, total, name, 0, key, a);
    events := StoreAgain(cfg, events, name, mark);
    events := Serve(cfg, events, total, name, 1, key, b);
    TwoStores(RunEvents(cfg, events).chains, name);
  }

  /**
   The exact bound: as long as two payloads for one key can differ at all, all runs that store a
   chain at most k times have agreeing shares if and only if k is at most one.
   */
  lemma {:induction false} AgreesIffStoredOnce(cfg: Config, total: nat, name: string, mark: Watermark, key: HRSKey, a: Data, b: Data, k: nat)
    requires 1 <= cfg.myID <= total && cfg.threshold <= total && Loadable(mark) && key.GreaterThan(mark.latest.key)
    requires Clash(cfg.codec, key, a, b)
    ensures (forall events :: Stores(RunEvents(cfg, events).chains, name) <= k ==> Agreeing(cfg.codec, RunEvents(cfg, events), name))
       <==> k <= 1
  {
    if k <= 1 {
      forall events | Stores(RunEvents(cfg, events).chains, name) <= k
        ensures Agreeing(cfg.codec, RunEvents(cfg, events), name)
      {
        SharesAgree(cfg, events, name);
      }
    } else {
      SlotIsKey(cfg.codec, a, b);
      var events := OverlappingLoadsClash(cfg, total, name, mark, key, a, b);
      assert !Agreeing(cfg.codec, RunEvents(cfg, events), name);
    }
  }
}

/** What every run of a cosigner keeps, whatever the interleaving. */
module CosignerSafety {
  import opened Wrappers
  import opened Hrs
  import opened Payload
  import opened SigningState
  import opened NonceStore
  import opened CosignerSteps

  // ---------------------------------------------------------------- shares agree

  /** The bytes agree, up to their timestamp, with what was first saved under the key. */
  ghost predicate Matches(codec: Codec, c: Chain, key: HRSKey, bytes: Data) {
    key in c.saved && Same(codec, key.step, c.saved[key], bytes)
  }

  ghost predicate ChainSafe(codec: Codec, c: Chain) {
    && SigningState.Valid(c.mark)
    && c.mark.latest.key in c.saved && c.saved[c.mark.latest.key] == BytesOf(c.mark.latest.signBytes)
    && (forall k :: k in c.saved ==> !k.GreaterThan(c.mark.latest.key))
    && (forall k :: k in c.mark.cache ==> k in c.saved && c.saved[k] == BytesOf(c.mark.cache[k].signBytes))
    && (forall i :: 0 <= i < |c.released| ==> ReleaseSafe(codec, c, c.released[i]))
  }

  /** A vote share is for the key its bytes carry and agrees with the record; an extension share is for its own extension. */
  ghost predicate ReleaseSafe(codec: Codec, c: Chain, r: Release) {
    r.chain == c.name &&
    if r.kind == Vote then Matches(codec, c, r.key, r.bytes) && KeyOf(codec, r.bytes) == Some(r.key)
    else ExtensionFor(codec, r.chain, r.key, r.bytes)
  }

  /** The request's key is the one its bytes carry. */
  ghost predicate Verified(codec: Codec, q: Request) {
    var v := VerifySignPayload(codec, q.chain, q.signBytes, q.extBytes);
    v.Ok? && v.value.0.key == q.key && v.value.1 == q.hasExtension
  }

  predicate Cleared(p: Phase) {
    p.Answering? || p.TakingExtensionOnly? || p.SigningExtensionOnly?
  }

  ghost predicate JobSafe(codec: Codec, chains: seq<Chain>, job: Job) {
    && job.at < |chains| && chains[job.at].name == job.request.chain
    && Verified(codec, job.request)
    && PhaseSafe(codec, chains[job.at], job.request, job.phase)
  }

  /** A request that may still answer has its key on record, and a cleared one agrees with the record. */
  ghost predicate PhaseSafe(codec: Codec, c: Chain, q: Request, p: Phase) {
    && (Cleared(p) ==> Matches(codec, c, q.key, q.signBytes))
    && (p.Regating? ==> q.key in c.saved)
    && (ForExtension(p) ==> q.hasExtension)
  }

  predicate ForExtension(p: Phase) {
    match p
    case Signing(_, e) => e.Some?
    case Saving(_, x) => x.Some?
    case Regating(_, x) => x.Some?
    case Answering(_, x) => x.Some?
    case _ => p.Looking? || p.TakingExtension? || p.TakingExtensionOnly? || p.SigningExtensionOnly?
  }

  /** What is stored under a name belongs to it. */
  ghost predicate CurrentSafe(s: State) {
    forall n :: n in s.current ==> s.current[n] < |s.chains| && s.chains[s.current[n]].name == n
  }

  ghost predicate Safe(cfg: Config, s: State) {
    && CurrentSafe(s)
    && (forall i :: 0 <= i < |s.pending| ==> Loadable(s.pending[i].mark))
    && (forall i :: 0 <= i < |s.chains| ==> ChainSafe(cfg.codec, s.chains[i]))
    && (forall i :: 0 <= i < |s.jobs| ==> JobSafe(cfg.codec, s.chains, s.jobs[i]))
  }

  /** The same chain, with nothing recorded under a key changed. */
  ghost predicate Extends(a: Chain, b: Chain) {
    a.name == b.name && forall k :: k in a.saved ==> k in b.saved && a.saved[k] == b.saved[k]
  }

  /** Replacing a chain by an extension of it, and moving one job on, keeps all the other jobs safe. */
  lemma {:induction false} Update(cfg: Config, s: State, c: Chain, j: nat, p: Phase)
    requires Safe(cfg, s) && Ready(s, j) && ChainSafe(cfg.codec, c)
    requires Extends(ChainOf(s, j), c) && PhaseSafe(cfg.codec, c, s.jobs[j].request, p)
    ensures Safe(cfg, SetPhase(SetChain(s, j, c), j, p))
  {
  }

  ghost predicate SameChains(s: State, s': State) {
    s'.chains == s.chains && s'.current == s.current && s'.pending == s.pending
  }

  /** Moving one job on, whatever happens outside the chains. */
  lemma {:induction false} Move(cfg: Config, s: State, s': State, j: nat, p: Phase)
    requires Safe(cfg, s) && SameChains(s, s') && s'.jobs == s.jobs && Ready(s, j)
    requires PhaseSafe(cfg.codec, ChainOf(s, j), s.jobs[j].request, p)
    ensures Safe(cfg, SetPhase(s', j, p))
  {
  }

  lemma {:induction false} SaveKeepsChain(codec: Codec, c: Chain, ssc: Consensus)
    requires ChainSafe(codec, c)
    ensures ChainSafe(codec, SaveOn(c, ssc)) && Extends(c, SaveOn(c, ssc))
    ensures Rejection(c.mark.latest.key, ssc.key).None? ==>
      Matches(codec, SaveOn(c, ssc), ssc.key, BytesOf(ssc.signBytes))
  {
  }

  lemma {:induction false} KnownStep(codec: Codec, q: Request)
    requires Verified(codec, q)
    ensures q.key.step in {STEP_PROPOSE, STEP_PREVOTE, STEP_PRECOMMIT}
  {
  }

  lemma {:induction false} StepKeepsSafe(cfg: Config, s: State, j: nat)
    requires Safe(cfg, s) && cfg.myID >= 1 && Ready(s, j)
    ensures Safe(cfg, StepJob(cfg, s, j))
  {
    var p := s.jobs[j].phase;
    if p.Gating? || p.Looking? || p.TakingVote? || p.TakingExtension? || p.TakingExtensionOnly? {
      EarlyStepKeepsSafe(cfg, s, j);
    } else {
      LateStepKeepsSafe(cfg, s, j);
    }
  }

  lemma {:induction false} EarlyStepKeepsSafe(cfg: Config, s: State, j: nat)
    requires Safe(cfg, s) && cfg.myID >= 1 && Ready(s, j)
    requires var p := s.jobs[j].phase;
      p.Gating? || p.Looking? || p.TakingVote? || p.TakingExtension? || p.TakingExtensionOnly?
    ensures Safe(cfg, StepJob(cfg, s, j))
  {
    match s.jobs[j].phase
    case Gating => GateKeepsSafe(cfg, s, j);
    case Looking => LookKeepsSafe(cfg, s, j);
    case TakingVote => TakeVoteKeepsSafe(cfg, s, j);
    case TakingExtension(v) => TakeExtensionKeepsSafe(cfg, s, j, v);
    case TakingExtensionOnly(share) => TakeExtensionOnlyKeepsSafe(cfg, s, j, share);
  }

  lemma {:induction false} LateStepKeepsSafe(cfg: Config, s: State, j: nat)
    requires Safe(cfg, s) && cfg.myID >= 1 && Ready(s, j)
    requires var p := s.jobs[j].phase;
      !p.Gating? && !p.Looking? && !p.TakingVote? && !p.TakingExtension? && !p.TakingExtensionOnly?
    ensures Safe(cfg, StepJob(cfg, s, j))
  {
    match s.jobs[j].phase
    case Signing(v, e) => SignKeepsSafe(cfg, s, j, v, e);
    case Saving(share, extShare) => SavePhaseKeepsSafe(cfg, s, j, share, extShare);
    case Regating(share, extShare) => RegateKeepsSafe(cfg, s, j, share, extShare);
    case Answering(_, extShare) =>
      assert JobSafe(cfg.codec, s.chains, s.jobs[j]);
      AnswerKeepsSafe(cfg, s, s, j, extShare.Some?);
    case SigningExtensionOnly(_, held) => ExtensionOnlyKeepsSafe(cfg, s, j, held);
    case Finished =>
  }

  lemma {:induction false} GateKeepsSafe(cfg: Config, s: State, j: nat)
    requires Safe(cfg, s) && Ready(s, j)
    ensures Safe(cfg, StepGate(cfg, s, j))
  {
    Move(cfg, s, s, j, StepGate(cfg, s, j).jobs[j].phase);
  }

  /** A cached entry holds the bytes on record, so exact bytes match them. */
  lemma {:induction false} LookKeepsSafe(cfg: Config, s: State, j: nat)
    requires Safe(cfg, s) && Ready(s, j) && s.jobs[j].phase == Looking
    ensures Safe(cfg, StepLook(cfg, s, j))
  {
    assert JobSafe(cfg.codec, s.chains, s.jobs[j]);
    assert ChainSafe(cfg.codec, ChainOf(s, j));
    Move(cfg, s, s, j, StepLook(cfg, s, j).jobs[j].phase);
  }

  lemma {:induction false} TakeFrame(cfg: Config, s: State, j: nat, kind: Kind, uuid: nat)
    requires cfg.myID >= 1
    ensures var s' := Take(cfg, s, j, kind, uuid).0; SameChains(s, s') && s'.jobs == s.jobs
  {
  }

  lemma {:induction false} TakeVoteKeepsSafe(cfg: Config, s: State, j: nat)
    requires Safe(cfg, s) && cfg.myID >= 1 && Ready(s, j)
    ensures Safe(cfg, StepTakeVote(cfg, s, j))
  {
    var (s', h) := Take(cfg, s, j, Vote, s.jobs[j].request.uuid);
    TakeFrame(cfg, s, j, Vote, s.jobs[j].request.uuid);
    Move(cfg, s, s', j, AfterVote(s.jobs[j].request, h));
  }

  lemma {:induction false} TakeExtensionKeepsSafe(cfg: Config, s: State, j: nat, v: Held)
    requires Safe(cfg, s) && cfg.myID >= 1 && Ready(s, j) && s.jobs[j].phase == TakingExtension(v)
    ensures Safe(cfg, StepTakeExtension(cfg, s, j, v))
  {
    assert JobSafe(cfg.codec, s.chains, s.jobs[j]);
    var (s', h) := Take(cfg, s, j, Extension, s.jobs[j].request.extUuid);
    TakeFrame(cfg, s, j, Extension, s.jobs[j].request.extUuid);
    Move(cfg, s, s', j, AfterExtension(v, h));
  }

  lemma {:induction false} TakeExtensionOnlyKeepsSafe(cfg: Config, s: State, j: nat, share: Data)
    requires Safe(cfg, s) && cfg.myID >= 1 && Ready(s, j) && s.jobs[j].phase == TakingExtensionOnly(share)
    ensures Safe(cfg, StepTakeExtensionOnly(cfg, s, j, share))
  {
    var (s', h) := Take(cfg, s, j, Extension, s.jobs[j].request.extUuid);
    TakeFrame(cfg, s, j, Extension, s.jobs[j].request.extUuid);
    assert JobSafe(cfg.codec, s.chains, s.jobs[j]);
    Move(cfg, s, s', j, AfterExtensionOnly(share, h));
  }

  lemma {:induction false} SignKeepsSafe(cfg: Config, s: State, j: nat, v: Held, e: Option<Held>)
    requires Safe(cfg, s) && Ready(s, j) && s.jobs[j].phase == Signing(v, e)
    ensures Safe(cfg, StepSign(cfg, s, j, v, e))
  {
    assert JobSafe(cfg.codec, s.chains, s.jobs[j]);
    var s' := StepSign(cfg, s, j, v, e);
    Move(cfg, s, s.(operations := s'.operations), j, s'.jobs[j].phase);
  }

  lemma {:induction false} SavePhaseKeepsSafe(cfg: Config, s: State, j: nat, share: Data, extShare: Option<Data>)
    requires Safe(cfg, s) && Ready(s, j) && s.jobs[j].phase == Saving(share, extShare)
    ensures Safe(cfg, StepSave(s, j, share, extShare))
  {
    assert JobSafe(cfg.codec, s.chains, s.jobs[j]);
    var q := s.jobs[j].request;
    var c := ChainOf(s, j);
    var ssc := Consensus(q.key, Some(share), extShare, Some(q.signBytes));
    SaveKeepsChain(cfg.codec, c, ssc);
    if Rejection(c.mark.latest.key, q.key).None? {
      Update(cfg, s, SaveOn(c, ssc), j, Answering(share, extShare));
    } else {
      Move(cfg, s, s, j, StepSave(s, j, share, extShare).jobs[j].phase);
    }
  }

  /** At the re-gate the key is on record, so it is not beyond the watermark any more. */
  lemma {:induction false} RegateKeepsSafe(cfg: Config, s: State, j: nat, share: Data, extShare: Option<Data>)
    requires Safe(cfg, s) && Ready(s, j) && s.jobs[j].phase == Regating(share, extShare)
    ensures Safe(cfg, StepRegate(cfg, s, j, share, extShare))
  {
    var q := s.jobs[j].request;
    var c := ChainOf(s, j);
    assert JobSafe(cfg.codec, s.chains, s.jobs[j]) && ChainSafe(cfg.codec, c);
    KnownStep(cfg.codec, q);
    GateMeaning(cfg.codec, c.mark.latest, q.key, q.signBytes);
    Move(cfg, s, s, j, StepRegate(cfg, s, j, share, extShare).jobs[j].phase);
  }

  lemma {:induction false} ReleaseKeeps(codec: Codec, c: Chain, out: seq<Release>)
    requires ChainSafe(codec, c) && forall i :: 0 <= i < |out| ==> ReleaseSafe(codec, c, out[i])
    ensures ChainSafe(codec, c.(released := c.released + out)) && Extends(c, c.(released := c.released + out))
  {
  }

  lemma {:induction false} AnswerKeepsSafe(cfg: Config, s: State, s': State, j: nat, withExtension: bool)
    requires Safe(cfg, s) && Ready(s, j) && Cleared(s.jobs[j].phase)
    requires withExtension ==> s.jobs[j].request.hasExtension
    requires SameChains(s, s') && s'.jobs == s.jobs
    ensures Safe(cfg, Answer(s', j, withExtension))
  {
    var q := s.jobs[j].request;
    var c := ChainOf(s, j);
    var out := Shares(q, withExtension);
    assert JobSafe(cfg.codec, s.chains, s.jobs[j]);
    VerifiedByKey(cfg.codec, q.chain, q.signBytes, q.extBytes);
    ReleaseKeeps(cfg.codec, c, out);
    Update(cfg, s, c.(released := c.released + out), j, Finished);
  }

  lemma {:induction false} ExtensionOnlyKeepsSafe(cfg: Config, s: State, j: nat, held: Held)
    requires Safe(cfg, s) && Ready(s, j) && s.jobs[j].phase.SigningExtensionOnly?
    ensures Safe(cfg, StepExtensionOnly(s, j, held))
  {
    assert JobSafe(cfg.codec, s.chains, s.jobs[j]);
    AnswerKeepsSafe(cfg, s, s.(operations := s.operations + [Operation(j, Extension, held.serial, held.sources)]), j, true);
  }

  lemma {:induction false} ApplyKeepsSafe(cfg: Config, s: State, e: Event)
    requires Safe(cfg, s) && cfg.myID >= 1
    ensures Safe(cfg, Apply(cfg, s, e))
  {
    match e
    case Read(chain, mark) =>
    case Install(i) => if i < |s.pending| { InstallKeepsSafe(cfg, s, i); }
    case Receive(chain, signBytes, extBytes, uuid, extUuid) =>
      AcceptKeepsSafe(cfg, s, chain, signBytes, extBytes, uuid, extUuid);
    case Advance(j) =>
      if Ready(s, j) {
        StepKeepsSafe(cfg, s, j);
      }
    case Replicate(chain, ssc) => ReplicateKeepsSafe(cfg, s, chain, ssc);
    case Generate(_, _, _) =>
    case SetSlot(_, _) =>
    case Expire(_) =>
    case Discard(_) =>
  }

  lemma {:induction false} AcceptKeepsSafe(cfg: Config, s: State, chain: string, signBytes: Data, extBytes: Data, uuid: nat, extUuid: nat)
    requires Safe(cfg, s)
    ensures Safe(cfg, Accept(cfg, s, chain, signBytes, extBytes, uuid, extUuid))
  {
    var s' := Accept(cfg, s, chain, signBytes, extBytes, uuid, extUuid);
    forall i | 0 <= i < |s'.jobs| ensures JobSafe(cfg.codec, s'.chains, s'.jobs[i]) {
      if i < |s.jobs| {
        assert JobSafe(cfg.codec, s.chains, s.jobs[i]);
      }
    }
  }

  lemma {:induction false} FreshChainSafe(codec: Codec, name: string, mark: Watermark)
    requires Loadable(mark)
    ensures ChainSafe(codec, Chain(name, mark, map[mark.latest.key := BytesOf(mark.latest.signBytes)], []))
  {
    TotalOrder(mark.latest.key, mark.latest.key, mark.latest.key);
  }

  /** Storing a state again: requests that fetched the old one go on with it. */
  lemma {:induction false} InstallKeepsSafe(cfg: Config, s: State, i: nat)
    requires Safe(cfg, s) && i < |s.pending|
    ensures Safe(cfg, StepInstall(s, i))
  {
    var s' := StepInstall(s, i);
    FreshChainSafe(cfg.codec, s.pending[i].chain, s.pending[i].mark);
    forall k | 0 <= k < |s'.jobs| ensures JobSafe(cfg.codec, s'.chains, s'.jobs[k]) {
      assert JobSafe(cfg.codec, s.chains, s.jobs[k]);
    }
  }

  lemma {:induction false} ReplicateKeepsSafe(cfg: Config, s: State, chain: string, ssc: Consensus)
    requires Safe(cfg, s)
    ensures Safe(cfg, StepReplicate(s, chain, ssc))
  {
    var s' := StepReplicate(s, chain, ssc);
    if chain in s.current {
      SaveKeepsChain(cfg.codec, s.chains[s.current[chain]], ssc);
    }
    forall i | 0 <= i < |s'.jobs| ensures JobSafe(cfg.codec, s'.chains, s'.jobs[i]) {
      assert JobSafe(cfg.codec, s.chains, s.jobs[i]);
    }
  }

  /** A replicated result beyond the watermark becomes the watermark of the chain's current state, and of no other. */
  lemma {:induction false} ReplicateRaises(cfg: Config, s: State, chain: string, ssc: Consensus)
    requires cfg.myID >= 1 && CurrentSafe(s) && chain in s.current
    ensures var s', i := Apply(cfg, s, Replicate(chain, ssc)), s.current[chain];
      && |s'.chains| == |s.chains| && s'.jobs == s.jobs && s'.current == s.current
      && (forall k :: 0 <= k < |s.chains| && k != i ==> s'.chains[k] == s.chains[k])
      && s'.chains[i].mark.latest
         == if ssc.key.GreaterThan(s.chains[i].mark.latest.key) then ssc else s.chains[i].mark.latest
  {
    TotalOrder(ssc.key, s.chains[s.current[chain]].mark.latest.key, ssc.key);
  }

  /** A request is taken in exactly if its payload verifies, its chain is stored and its nonce sets differ. */
  lemma {:induction false} AcceptedExactly(cfg: Config, s: State, chain: string, signBytes: Data, extBytes: Data, uuid: nat, extUuid: nat)
    requires cfg.myID >= 1
    ensures var s' := Apply(cfg, s, Receive(chain, signBytes, extBytes, uuid, extUuid));
      var extended := Extendable(cfg.codec, signBytes) && extBytes != [];
      if VerifySignPayload(cfg.codec, chain, signBytes, extBytes).Ok? && chain in s.current && (extended ==> uuid != extUuid)
      then
        && KeyOf(cfg.codec, signBytes).Some?
        && s' == s.(jobs := s.jobs
             + [Job(Request(chain, KeyOf(cfg.codec, signBytes).value, extended, signBytes, extBytes, uuid, extUuid),
                    s.current[chain], Gating)])
      else s' == s
  {
    if VerifySignPayload(cfg.codec, chain, signBytes, extBytes).Ok? {
      VerifiedByKey(cfg.codec, chain, signBytes, extBytes);
    }
  }

  lemma {:induction false} RunIsSafe(cfg: Config, events: seq<Event>)
    requires cfg.myID >= 1
    ensures Safe(cfg, RunEvents(cfg, events))
  {
    if |events| > 0 {
      RunIsSafe(cfg, events[..|events| - 1]);
      ApplyKeepsSafe(cfg, RunEvents(cfg, events[..|events| - 1]), events[|events| - 1]);
    }
  }

  /** In every run, an extension share is for an extension of the very chain, height and round it is released for. */
  lemma {:induction false} ExtensionsBelong(cfg: Config, events: seq<Event>, i: nat, r: Release)
    requires cfg.myID >= 1
    requires var s := RunEvents(cfg, events); i < |s.chains| && r in s.chains[i].released
    requires r.kind == Extension
    ensures ExtensionFor(cfg.codec, RunEvents(cfg, events).chains[i].name, r.key, r.bytes)
  {
    RunIsSafe(cfg, events);
    assert ChainSafe(cfg.codec, RunEvents(cfg, events).chains[i]);
  }

  /** Vote shares handed out under one stored state for one height, round and type of message agree. */
  lemma {:induction false} StateSharesAgree(codec: Codec, c: Chain, a: Release, b: Release)
    requires ChainSafe(codec, c) && a in c.released && b in c.released
    requires a.kind == Vote && b.kind == Vote && SameSlot(codec, a.bytes, b.bytes)
    ensures OnlyStampsDiffer(codec, a.bytes, b.bytes)
  {
    SlotIsKey(codec, a.bytes, b.bytes);
    assert ReleaseSafe(codec, c, a) && ReleaseSafe(codec, c, b);
    SameIsEquivalence(codec, a.key.step, c.saved[a.key], a.bytes, b.bytes);
    SameIsEquivalence(codec, a.key.step, a.bytes, c.saved[a.key], b.bytes);
  }

  // ---------------------------------------------------------------- one state per chain

  /** How many times a state was stored for the chain. */
  function Stores(chains: seq<Chain>, name: string): nat {
    if |chains| == 0 then 0
    else Stores(chains[..|chains| - 1], name) + if chains[|chains| - 1].name == name then 1 else 0
  }

  /** A share was handed out on this chain, under whichever state. */
  ghost predicate HandedOut(s: State, name: string, r: Release) {
    exists i :: 0 <= i < |s.chains| && s.chains[i].name == name && r in s.chains[i].released
  }

  /** All vote shares handed out on a chain for one height, round and type of message agree up to their timestamp. */
  ghost predicate Agreeing(codec: Codec, s: State, name: string) {
    forall a, b :: HandedOut(s, name, a) && HandedOut(s, name, b) && a.kind == Vote && b.kind == Vote
                   && SameSlot(codec, a.bytes, b.bytes) ==>
      OnlyStampsDiffer(codec, a.bytes, b.bytes)
  }

  lemma {:induction false} StoresAtLeast(chains: seq<Chain>, name: string, i: nat, j: nat)
    requires i < |chains| && j < |chains| && chains[i].name == name && chains[j].name == name
    ensures Stores(chains, name) >= 1
    ensures i != j ==> Stores(chains, name) >= 2
  {
    var n := |chains| - 1;
    if i < n && j < n {
      StoresAtLeast(chains[..n], name, i, j);
    } else if i < n {
      StoresAtLeast(chains[..n], name, i, i);
    } else if j < n {
      StoresAtLeast(chains[..n], name, j, j);
    }
  }

  /** Where a chain was stored at most once, everything handed out on it agrees. */
  lemma {:induction false} OnceAgrees(cfg: Config, s: State, name: string)
    requires Safe(cfg, s) && Stores(s.chains, name) <= 1
    ensures Agreeing(cfg.codec, s, name)
  {
    forall a, b | HandedOut(s, name, a) && HandedOut(s, name, b) && a.kind == Vote && b.kind == Vote
                  && SameSlot(cfg.codec, a.bytes, b.bytes)
      ensures OnlyStampsDiffer(cfg.codec, a.bytes, b.bytes)
    {
      var i :| 0 <= i < |s.chains| && s.chains[i].name == name && a in s.chains[i].released;
      var j :| 0 <= j < |s.chains| && s.chains[j].name == name && b in s.chains[j].released;
      StoresAtLeast(s.chains, name, i, j);
      StateSharesAgree(cfg.codec, s.chains[i], a, b);
    }
  }

  /**
   In every run in which a chain is stored at most once, all vote shares a cosigner ever hands
   out on it for one height, round and type of message agree up to their timestamp, those re-served
   by the fallback included.
   */
  lemma {:induction false} SharesAgree(cfg: Config, events: seq<Event>, name: string)
    requires cfg.myID >= 1 && Stores(RunEvents(cfg, events).chains, name) <= 1
    ensures Agreeing(cfg.codec, RunEvents(cfg, events), name)
  {
    RunIsSafe(cfg, events);
    OnceAgrees(cfg, RunEvents(cfg, events), name);
  }
}

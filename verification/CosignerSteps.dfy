/**
 A cosigner under concurrent requests (signer/local_cosigner.go sign, signer/raft_events.go).
 Gate, nonce take, save and re-gate are separate critical sections, so requests interleave
 between any two of them, with replicated saves and nonce traffic in between. Loading a chain
 is not locked either: reading the state from disk and storing it are two steps, and whoever
 finds no state stored may do both.
 */
module CosignerSteps {
  import opened Wrappers
  import opened Hrs
  import opened Payload
  import opened SigningState
  import opened NonceStore
  import opened ThresholdSigner

  datatype Config = Config(codec: Codec, myID: nat, threshold: nat, sign: (seq<Nonce>, Data) -> Data)

  datatype Kind = Vote | Extension

  /** A request whose payload was verified: its key comes from the bytes to sign. */
  datatype Request = Request(
    chain: string, key: HRSKey, hasExtension: bool, signBytes: Data, extBytes: Data, uuid: nat, extUuid: nat)

  /** A nonce set that was taken from the store, and the slots it draws on. */
  datatype Held = Held(serial: nat, nonces: seq<Nonce>, sources: seq<nat>)

  datatype Phase =
    | Gating
    | Looking
    | TakingVote
    | TakingExtension(vote: Held)
    | Signing(vote: Held, extension: Option<Held>)
    | Saving(share: Data, extShare: Option<Data>)
    | Regating(share: Data, extShare: Option<Data>)
    | Answering(share: Data, extShare: Option<Data>)
    | TakingExtensionOnly(share: Data)
    | SigningExtensionOnly(share: Data, held: Held)
    | Finished

  /** A request, and which of the states ever stored it fetched. */
  datatype Job = Job(request: Request, at: nat, phase: Phase)

  datatype Release = Release(chain: string, key: HRSKey, kind: Kind, bytes: Data)

  /** One signature made with the key shard. */
  datatype Operation = Operation(job: nat, kind: Kind, serial: nat, sources: seq<nat>)

  /** A stored chain state: the watermark, what was first saved under every key, and every share handed out. */
  datatype Chain = Chain(name: string, mark: Watermark, saved: map<HRSKey, Data>, released: seq<Release>)

  /** A state that was read from disk and is about to be stored. */
  datatype Pending = Pending(chain: string, mark: Watermark)

  /** Where a generated nonce set went. */
  datatype Fate = InStore(uuid: nat) | TakenBy(job: nat, kind: Kind)

  /** All states ever stored, and the one each chain has now; a request may still hold an older one. */
  datatype State = State(
    chains: seq<Chain>, current: map<string, nat>, pending: seq<Pending>, store: map<nat, Record>, made: nat, fates: map<nat, Fate>,
    jobs: seq<Job>, operations: seq<Operation>)

  datatype Event =
    | Read(chain: string, mark: Watermark)
    | Install(read: nat)
    | Receive(chain: string, signBytes: Data, extBytes: Data, uuid: nat, extUuid: nat)
    | Advance(job: nat)
    | Replicate(chain: string, ssc: Consensus)
    | Generate(uuid: nat, slots: seq<Slot>, expiration: int)
    | SetSlot(uuid: nat, record: Record)
    | Expire(now: int)
    | Discard(job: nat)

  // ---------------------------------------------------------------- one step of one request

  /** The request is there, with the state it fetched. */
  predicate Ready(s: State, j: nat) {
    j < |s.jobs| && s.jobs[j].at < |s.chains|
  }

  /** The chain state a request works on. */
  function ChainOf(s: State, j: nat): Chain
    requires Ready(s, j)
  {
    s.chains[s.jobs[j].at]
  }

  function SetChain(s: State, j: nat, c: Chain): State
    requires Ready(s, j)
  {
    s.(chains := s.chains[s.jobs[j].at := c])
  }

  function SetPhase(s: State, j: nat, p: Phase): State
    requires j < |s.jobs|
  {
    s.(jobs := s.jobs[j := s.jobs[j].(phase := p)])
  }

  /** A save on a chain: the bytes of a success are recorded under their key. */
  function SaveOn(c: Chain, ssc: Consensus): Chain {
    if Rejection(c.mark.latest.key, ssc.key).None?
    then c.(mark := Saved(c.mark, ssc), saved := c.saved[ssc.key := BytesOf(ssc.signBytes)])
    else c
  }

  /** Taking a UUID's nonces: it is deleted, and its record belongs to this job from here on. */
  function Take(cfg: Config, s: State, j: nat, kind: Kind, uuid: nat): (r: (State, Option<Held>))
    requires cfg.myID >= 1
    ensures r.0.jobs == s.jobs
  {
    if uuid !in s.store then (s, None)
    else
      var r := s.store[uuid];
      var s' := s.(store := s.store - {uuid}, fates := s.fates[r.serial := TakenBy(j, kind)]);
      match Combined(r, cfg.myID, cfg.threshold)
      case Err(_) => (s', None)
      case Ok(ns) => (s', Some(Held(r.serial, ns, Sources(r.slots, cfg.myID, |r.slots|))))
  }

  function StepGate(cfg: Config, s: State, j: nat): State
    requires Ready(s, j)
  {
    var q := s.jobs[j].request;
    match Gate(cfg.codec, ChainOf(s, j).mark.latest, q.key, q.signBytes)
    case None => SetPhase(s, j, TakingVote)
    case Some(e) => SetPhase(s, j, if q.hasExtension && e != Panicked then Looking else Finished)
  }

  /** The passed-round fallback: only the exact bytes that are cached, only at the current height. */
  function StepLook(cfg: Config, s: State, j: nat): State
    requires Ready(s, j)
  {
    var q := s.jobs[j].request;
    var w := ChainOf(s, j).mark;
    if q.key in w.cache && w.cache[q.key].signature.Some? && q.key.height == w.latest.key.height
       && BytesOf(w.cache[q.key].signBytes) == q.signBytes
    then SetPhase(s, j, TakingExtensionOnly(w.cache[q.key].signature.value))
    else SetPhase(s, j, Finished)
  }

  function AfterVote(q: Request, h: Option<Held>): Phase {
    match h
    case None => Finished
    case Some(v) => if q.hasExtension then TakingExtension(v) else Signing(v, None)
  }

  function StepTakeVote(cfg: Config, s: State, j: nat): State
    requires j < |s.jobs| && cfg.myID >= 1
  {
    var (s', h) := Take(cfg, s, j, Vote, s.jobs[j].request.uuid);
    SetPhase(s', j, AfterVote(s.jobs[j].request, h))
  }

  function AfterExtension(v: Held, h: Option<Held>): Phase {
    if h.Some? then Signing(v, h) else Finished
  }

  function StepTakeExtension(cfg: Config, s: State, j: nat, v: Held): State
    requires j < |s.jobs| && cfg.myID >= 1
  {
    var (s', h) := Take(cfg, s, j, Extension, s.jobs[j].request.extUuid);
    SetPhase(s', j, AfterExtension(v, h))
  }

  function AfterExtensionOnly(share: Data, h: Option<Held>): Phase {
    if h.Some? then SigningExtensionOnly(share, h.value) else Finished
  }

  function StepTakeExtensionOnly(cfg: Config, s: State, j: nat, share: Data): State
    requires j < |s.jobs| && cfg.myID >= 1
  {
    var (s', h) := Take(cfg, s, j, Extension, s.jobs[j].request.extUuid);
    SetPhase(s', j, AfterExtensionOnly(share, h))
  }

  function StepSign(cfg: Config, s: State, j: nat, v: Held, e: Option<Held>): State
    requires j < |s.jobs|
  {
    var q := s.jobs[j].request;
    var ops := [Operation(j, Vote, v.serial, v.sources)]
               + if e.Some? then [Operation(j, Extension, e.value.serial, e.value.sources)] else [];
    var extShare := if e.Some? then Some(cfg.sign(e.value.nonces, q.extBytes)) else None;
    SetPhase(s.(operations := s.operations + ops), j, Saving(cfg.sign(v.nonces, q.signBytes), extShare))
  }

  function StepSave(s: State, j: nat, share: Data, extShare: Option<Data>): State
    requires Ready(s, j)
  {
    var q := s.jobs[j].request;
    var c := ChainOf(s, j);
    var ssc := Consensus(q.key, Some(share), extShare, Some(q.signBytes));
    match Rejection(c.mark.latest.key, q.key)
    case None => SetPhase(SetChain(s, j, SaveOn(c, ssc)), j, Answering(share, extShare))
    case Some(SameHRS) => SetPhase(s, j, Regating(share, extShare))
    case Some(Regression) => SetPhase(s, j, Finished)
  }

  function StepRegate(cfg: Config, s: State, j: nat, share: Data, extShare: Option<Data>): State
    requires Ready(s, j)
  {
    var q := s.jobs[j].request;
    match Gate(cfg.codec, ChainOf(s, j).mark.latest, q.key, q.signBytes)
    case None => SetPhase(s, j, Answering(share, extShare))
    case Some(_) => SetPhase(s, j, Finished)
  }

  /** What an answered request hands out. */
  function Shares(q: Request, withExtension: bool): seq<Release> {
    [Release(q.chain, q.key, Vote, q.signBytes)]
    + if withExtension then [Release(q.chain, q.key, Extension, q.extBytes)] else []
  }

  /** The answer leaves the cosigner: both shares are out. */
  function Answer(s: State, j: nat, withExtension: bool): State
    requires Ready(s, j)
  {
    var q := s.jobs[j].request;
    var c := ChainOf(s, j);
    SetPhase(SetChain(s, j, c.(released := c.released + Shares(q, withExtension))), j, Finished)
  }

  function StepExtensionOnly(s: State, j: nat, held: Held): State
    requires Ready(s, j)
  {
    Answer(s.(operations := s.operations + [Operation(j, Extension, held.serial, held.sources)]), j, true)
  }

  function StepJob(cfg: Config, s: State, j: nat): State
    requires Ready(s, j) && cfg.myID >= 1
  {
    match s.jobs[j].phase
    case Gating => StepGate(cfg, s, j)
    case Looking => StepLook(cfg, s, j)
    case TakingVote => StepTakeVote(cfg, s, j)
    case TakingExtension(v) => StepTakeExtension(cfg, s, j, v)
    case TakingExtensionOnly(share) => StepTakeExtensionOnly(cfg, s, j, share)
    case Signing(v, e) => StepSign(cfg, s, j, v, e)
    case Saving(share, extShare) => StepSave(s, j, share, extShare)
    case Regating(share, extShare) => StepRegate(cfg, s, j, share, extShare)
    case Answering(_, extShare) => Answer(s, j, extShare.Some?)
    case SigningExtensionOnly(_, held) => StepExtensionOnly(s, j, held)
    case Finished => s
  }

  // ---------------------------------------------------------------- all events

  /** A chain's state as it is read: a new state, or the latest result from disk with a fresh cache. */
  predicate Loadable(w: Watermark) {
    w.cache == map[] || w.cache == map[w.latest.key := w.latest]
  }

  function Accept(cfg: Config, s: State, chain: string, signBytes: Data, extBytes: Data, uuid: nat, extUuid: nat): State {
    match VerifySignPayload(cfg.codec, chain, signBytes, extBytes)
    case Err(_) => s
    case Ok((hrst, hasExtension)) =>
      if chain !in s.current || (hasExtension && uuid == extUuid) then s
      else
        var q := Request(chain, hrst.key, hasExtension, signBytes, extBytes, uuid, extUuid);
        s.(jobs := s.jobs + [Job(q, s.current[chain], Gating)])
  }

  /** Whatever the chain had before, the state that was read is its state from here on. */
  function StepInstall(s: State, i: nat): State
    requires i < |s.pending|
  {
    var p := s.pending[i];
    var c := Chain(p.chain, p.mark, map[p.mark.latest.key := BytesOf(p.mark.latest.signBytes)], []);
    s.(chains := s.chains + [c], current := s.current[p.chain := |s.chains|],
       pending := s.pending[..i] + s.pending[i + 1..])
  }

  function StepReplicate(s: State, chain: string, ssc: Consensus): State {
    if chain in s.current && s.current[chain] < |s.chains|
    then s.(chains := s.chains[s.current[chain] := SaveOn(s.chains[s.current[chain]], ssc)]) else s
  }

  function Apply(cfg: Config, s: State, e: Event): State
    requires cfg.myID >= 1
  {
    match e
    case Read(chain, mark) =>
      if chain in s.current || !Loadable(mark) then s else s.(pending := s.pending + [Pending(chain, mark)])
    case Install(i) => if i < |s.pending| then StepInstall(s, i) else s
    case Receive(chain, signBytes, extBytes, uuid, extUuid) => Accept(cfg, s, chain, signBytes, extBytes, uuid, extUuid)
    case Advance(j) =>
      if Ready(s, j) then StepJob(cfg, s, j) else s
    case Replicate(chain, ssc) => StepReplicate(s, chain, ssc)
    case Generate(uuid, slots, expiration) =>
      s.(store := s.store[uuid := Record(s.made, slots, expiration)],
         made := s.made + 1, fates := s.fates[s.made := InStore(uuid)])
    case SetSlot(uuid, record) =>
      if uuid in s.store && record.serial == s.store[uuid].serial then s.(store := s.store[uuid := record]) else s
    case Expire(now) => s.(store := Unexpired(s.store, now))
    case Discard(j) =>
      if j < |s.jobs| && s.jobs[j].phase == Finished
      then s.(store := s.store - {s.jobs[j].request.uuid, s.jobs[j].request.extUuid}) else s
  }

  const Init := State([], map[], [], map[], 0, map[], [], [])

  function RunEvents(cfg: Config, events: seq<Event>): State
    requires cfg.myID >= 1
  {
    if |events| == 0 then Init else Apply(cfg, RunEvents(cfg, events[..|events| - 1]), events[|events| - 1])
  }
}

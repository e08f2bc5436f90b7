/**
 The leader's side of signing (signer/threshold_validator.go Sign): at most one attempt per
 height, round and step unless one failed, waiting for an attempt in progress, answering from
 the cache, and signing a changed extension again. Requests interleave at every lock.
 */
module LeaderSteps {
  import opened Wrappers
  import opened GoInt
  import opened Hrs
  import opened Payload
  import opened SigningState

  datatype Config = Config(codec: Codec, chainID: string, maxWait: nat, verify: (Data, Data) -> bool)

  datatype Block = Block(key: HRSKey, signBytes: Data, extBytes: Data, timestamp: int)

  // ---------------------------------------------------------------- comparing with what is cached

  datatype Compared =
    | Found(signature: Option<Data>, extSignature: Option<Data>, stamp: int)
    | BeyondBlock | SameBlock | StillWaiting | Refused

  /** signBytesTimestamp: the timestamp the bytes were signed over. */
  function StampOf(codec: Codec, step: int, data: Data): Option<int> {
    if step == STEP_PROPOSE then
      match codec.proposal(data)
      case None => None
      case Some(p) => Some(p.timestamp)
    else
      match codec.vote(data)
      case None => None
      case Some(v) => Some(v.timestamp)
  }

  /** A block as the chain node sends it: its timestamp is that of its bytes. */
  predicate Stamped(codec: Codec, block: Block) {
    StampOf(codec, block.key.step, block.signBytes) == Some(block.timestamp)
  }

  function CompareHRS(block: HRSKey, hrs: HRSKey): Compared {
    if hrs.GreaterThan(block) then BeyondBlock
    else if hrs == block then SameBlock
    else StillWaiting
  }

  function CompareSSC(codec: Codec, block: Block, entry: Consensus): Compared {
    if entry.key != block.key then CompareHRS(block.key, entry.key)
    else
      var data := BytesOf(entry.signBytes);
      match StampOf(codec, entry.key.step, data)
      case None => Refused
      case Some(stamp) =>
        if block.key.step == STEP_PROPOSE || block.signBytes == data then Found(entry.signature, entry.extSignature, stamp)
        else if block.key.step !in {STEP_PREVOTE, STEP_PRECOMMIT} then Refused
        else if OnlyDifferByTimestamp(codec, entry.key.step, data, block.signBytes).Some? then Refused
        else Found(entry.signature, entry.extSignature, stamp)
  }

  /** getExistingBlockSignature: against the cached entry, or else against the latest key. */
  function Existing(codec: Codec, w: Watermark, block: Block): Compared {
    if block.key in w.cache then CompareSSC(codec, block, w.cache[block.key])
    else CompareHRS(block.key, w.latest.key)
  }

  /** The same message as the block's, up to the timestamp, for a vote. */
  lemma {:induction false} FoundVote(codec: Codec, block: Block, entry: Consensus, v: CanonicalVote)
    requires block.key.step != STEP_PROPOSE && codec.vote(block.signBytes) == Some(v)
    requires CompareSSC(codec, block, entry).Found?
    ensures var f := CompareSSC(codec, block, entry);
      && f.signature == entry.signature && f.extSignature == entry.extSignature
      && codec.vote(BytesOf(entry.signBytes)) == Some(v.(timestamp := f.stamp))
  {
  }

  // ---------------------------------------------------------------- the state

  datatype Phase =
    | Starting
    | Checking(same: bool)
    | Waiting(tries: nat)
    | Attempting(hasExtension: bool)
    | Saving(signature: Data, extSignature: Option<Data>)
    | Marking
    | Reusing(signature: Data, extSignature: Option<Data>, stamp: int)
    | Resigning(signature: Data, stamp: int)
    | Finished

  /** Between the start of an attempt and its answer or its marker. */
  predicate UnderWay(p: Phase) {
    p.Attempting? || p.Saving? || p.Marking?
  }

  datatype Job = Job(block: Block, phase: Phase)

  datatype Answer = Answer(block: Block, signature: Data, extSignature: Option<Data>, stamp: int)

  datatype Attempt = Attempt(job: nat, key: HRSKey)

  /**
   The two watermarks, the requests, and the history: keys with a failure marker, keys saved
   from elsewhere, what this leader saved itself, attempts started, and answers given.
   */
  datatype State = State(
    initiated: HRSKey, last: Watermark, jobs: seq<Job>, markers: set<HRSKey>, foreign: set<HRSKey>,
    made: map<HRSKey, Consensus>, attempts: seq<Attempt>, answers: seq<Answer>)

  datatype Event =
    | Receive(block: Block)
    | Advance(job: nat)
    | Outcome(job: nat, signature: Data, extSignature: Option<Data>)
    | Fail(job: nat)
    | Replicate(ssc: Consensus)

  function SetPhase(s: State, j: nat, p: Phase): State
    requires j < |s.jobs|
  {
    s.(jobs := s.jobs[j := s.jobs[j].(phase := p)])
  }

  function Respond(s: State, j: nat, signature: Data, extSignature: Option<Data>, stamp: int): State
    requires j < |s.jobs|
  {
    SetPhase(s.(answers := s.answers + [Answer(s.jobs[j].block, signature, extSignature, stamp)]), j, Finished)
  }

  /** A fresh attempt begins; a payload that does not verify ends it with a marker. */
  function Begin(cfg: Config, s: State, j: nat): State
    requires j < |s.jobs|
  {
    var b := s.jobs[j].block;
    var s' := s.(attempts := s.attempts + [Attempt(j, b.key)]);
    match VerifySignPayload(cfg.codec, cfg.chainID, b.signBytes, b.extBytes)
    case Err(_) => SetPhase(s', j, Marking)
    case Ok((_, hasExtension)) => SetPhase(s', j, Attempting(hasExtension))
  }

  /** A comparison that found an entry: reuse its signature, or try anew if it is a failure marker. */
  function Use(cfg: Config, s: State, j: nat, c: Compared): State
    requires j < |s.jobs| && c.Found?
  {
    if c.signature.Some? then SetPhase(s, j, Reusing(c.signature.value, c.extSignature, c.stamp)) else Begin(cfg, s, j)
  }

  function StepStart(cfg: Config, s: State, j: nat): State
    requires j < |s.jobs|
  {
    match Rejection(s.initiated, s.jobs[j].block.key)
    case None => Begin(cfg, s.(initiated := s.jobs[j].block.key), j)
    case Some(e) => SetPhase(s, j, Checking(e == SameHRS))
  }

  function StepCheck(cfg: Config, s: State, j: nat, same: bool): State
    requires j < |s.jobs|
  {
    var c := Existing(cfg.codec, s.last, s.jobs[j].block);
    if c.Found? then Use(cfg, s, j, c)
    else if same && c.StillWaiting? then SetPhase(s, j, Waiting(0))
    else SetPhase(s, j, Finished)
  }

  function StepWait(cfg: Config, s: State, j: nat, tries: nat): State
    requires j < |s.jobs|
  {
    var b := s.jobs[j].block;
    if tries >= cfg.maxWait then SetPhase(s, j, Finished)
    else if b.key !in s.last.cache then SetPhase(s, j, Waiting(tries + 1))
    else
      var c := CompareSSC(cfg.codec, b, s.last.cache[b.key]);
      if c.Found? then Use(cfg, s, j, c)
      else if c.StillWaiting? then SetPhase(s, j, Waiting(tries + 1))
      else SetPhase(s, j, Finished)
  }

  /** The combined signatures are verified before anything is saved. */
  function StepOutcome(cfg: Config, s: State, j: nat, hasExtension: bool, sig: Data, ext: Option<Data>): State
    requires j < |s.jobs|
  {
    var b := s.jobs[j].block;
    if cfg.verify(b.signBytes, sig) && (hasExtension ==> ext.Some? && cfg.verify(b.extBytes, ext.value))
    then SetPhase(s, j, Saving(sig, if hasExtension then ext else None))
    else SetPhase(s, j, Marking)
  }

  function StepSave(s: State, j: nat, sig: Data, ext: Option<Data>): State
    requires j < |s.jobs|
  {
    var b := s.jobs[j].block;
    var ssc := Consensus(b.key, Some(sig), ext, Some(b.signBytes));
    match Rejection(s.last.latest.key, b.key)
    case None => Respond(s.(last := Saved(s.last, ssc), made := s.made[b.key := ssc]), j, sig, ext, b.timestamp)
    case Some(SameHRS) => Respond(s, j, sig, ext, b.timestamp)
    case Some(Regression) => SetPhase(s, j, Marking)
  }

  /** notifyBlockSignError: an entry without a signature, whatever was cached under the key. */
  function StepMark(s: State, j: nat): State
    requires j < |s.jobs|
  {
    var b := s.jobs[j].block;
    var marker := Consensus(b.key, None, None, Some(b.signBytes));
    SetPhase(s.(last := s.last.(cache := s.last.cache[b.key := marker]), markers := s.markers + {b.key}), j, Finished)
  }

  function StepReuse(cfg: Config, s: State, j: nat, sig: Data, ext: Option<Data>, stamp: int): State
    requires j < |s.jobs|
  {
    var b := s.jobs[j].block;
    match VerifySignPayload(cfg.codec, cfg.chainID, b.signBytes, b.extBytes)
    case Err(_) => SetPhase(s, j, Finished)
    case Ok((_, hasExtension)) =>
      if !hasExtension then Respond(s, j, sig, None, stamp)
      else if ext.Some? && cfg.verify(b.extBytes, ext.value) then Respond(s, j, sig, ext, stamp)
      else SetPhase(s, j, if b.key.height == s.last.latest.key.height then Resigning(sig, stamp) else Finished)
  }

  function StepResign(cfg: Config, s: State, j: nat, sig: Data, stamp: int, ext: Option<Data>): State
    requires j < |s.jobs|
  {
    if ext.Some? && cfg.verify(s.jobs[j].block.extBytes, ext.value) then Respond(s, j, sig, ext, stamp)
    else SetPhase(s, j, Finished)
  }

  function StepAdvance(cfg: Config, s: State, j: nat): State
    requires j < |s.jobs|
  {
    match s.jobs[j].phase
    case Starting => StepStart(cfg, s, j)
    case Checking(same) => StepCheck(cfg, s, j, same)
    case Waiting(tries) => StepWait(cfg, s, j, tries)
    case Saving(sig, ext) => StepSave(s, j, sig, ext)
    case Marking => StepMark(s, j)
    case Reusing(sig, ext, stamp) => StepReuse(cfg, s, j, sig, ext, stamp)
    case _ => s
  }

  function StepReplicate(s: State, ssc: Consensus): State {
    if Rejection(s.last.latest.key, ssc.key).None?
    then s.(last := Saved(s.last, ssc), foreign := s.foreign + {ssc.key})
    else s
  }

  function Apply(cfg: Config, s: State, e: Event): State {
    match e
    case Receive(block) => s.(jobs := s.jobs + [Job(block, Starting)])
    case Advance(j) => if j < |s.jobs| then StepAdvance(cfg, s, j) else s
    case Outcome(j, sig, ext) =>
      if j >= |s.jobs| then s
      else
        (match s.jobs[j].phase
         case Attempting(hasExtension) => StepOutcome(cfg, s, j, hasExtension, sig, ext)
         case Resigning(old_, stamp) => StepResign(cfg, s, j, old_, stamp, ext)
         case _ => s)
    case Fail(j) =>
      if j >= |s.jobs| then s
      else if s.jobs[j].phase.Attempting? then SetPhase(s, j, Marking)
      else if s.jobs[j].phase.Resigning? then SetPhase(s, j, Finished)
      else s
    case Replicate(ssc) => StepReplicate(s, ssc)
  }

  /** A leader as its sign state is loaded; what was loaded counts as coming from elsewhere. */
  function Loaded(w: Watermark): State {
    State(w.latest.key, w, [], {}, w.cache.Keys + {w.latest.key}, map[], [], [])
  }

  function RunLeader(cfg: Config, w: Watermark, events: seq<Event>): State {
    if |events| == 0 then Loaded(w) else Apply(cfg, RunLeader(cfg, w, events[..|events| - 1]), events[|events| - 1])
  }

  lemma {:induction false} Extend(cfg: Config, w: Watermark, events: seq<Event>, e: Event) returns (more: seq<Event>)
    ensures more == events + [e] && RunLeader(cfg, w, more) == Apply(cfg, RunLeader(cfg, w, events), e)
  {
    more := events + [e];
    assert more[..|more| - 1] == events;
  }
}

/** Whatever the leader answers verifies: over the request's vote, restamped as it says. */
module LeaderValidity {
  import opened Wrappers
  import opened Hrs
  import opened Payload
  import opened SigningState
  import opened LeaderSteps

  /** A cached signature verifies over the bytes cached with it, which came in at some point, under its own key. */
  ghost predicate EntryValid(cfg: Config, known: iset<Data>, k: HRSKey, entry: Consensus) {
    && entry.key == k
    && (entry.signature.Some? ==>
          cfg.verify(BytesOf(entry.signBytes), entry.signature.value) && BytesOf(entry.signBytes) in known)
  }

  ghost predicate CacheValid(cfg: Config, known: iset<Data>, w: Watermark) {
    forall k :: k in w.cache ==> EntryValid(cfg, known, k, w.cache[k])
  }

  /** These bytes carry the timestamp, and for a vote they are the block's vote restamped with it. */
  predicate Restamps(codec: Codec, block: Block, stamp: int, b: Data) {
    && StampOf(codec, block.key.step, b) == Some(stamp)
    && (block.key.step != STEP_PROPOSE ==>
          codec.vote(block.signBytes).Some? && codec.vote(b) == Some(codec.vote(block.signBytes).value.(timestamp := stamp)))
  }

  /** The signature verifies over bytes that came in and restamp the block. */
  ghost predicate Covers(cfg: Config, known: iset<Data>, block: Block, sig: Data, stamp: int) {
    exists b :: b in known && Restamps(cfg.codec, block, stamp, b) && cfg.verify(b, sig)
  }

  predicate WantsExtension(cfg: Config, block: Block) {
    var v := VerifySignPayload(cfg.codec, cfg.chainID, block.signBytes, block.extBytes);
    v.Ok? && v.value.1
  }

  ghost predicate AnswerValid(cfg: Config, known: iset<Data>, a: Answer) {
    && (Stamped(cfg.codec, a.block) ==> Covers(cfg, known, a.block, a.signature, a.stamp))
    && (WantsExtension(cfg, a.block) ==> a.extSignature.Some? && cfg.verify(a.block.extBytes, a.extSignature.value))
  }

  ghost predicate JobValid(cfg: Config, known: iset<Data>, job: Job) {
    job.block.signBytes in known &&
    match job.phase
    case Attempting(hasExtension) => WantsExtension(cfg, job.block) ==> hasExtension
    case Saving(sig, ext) =>
      && cfg.verify(job.block.signBytes, sig)
      && (WantsExtension(cfg, job.block) ==> ext.Some? && cfg.verify(job.block.extBytes, ext.value))
    case Reusing(sig, _, stamp) => Covers(cfg, known, job.block, sig, stamp)
    case Resigning(sig, stamp) => Covers(cfg, known, job.block, sig, stamp)
    case _ => true
  }

  ghost predicate Valid(cfg: Config, known: iset<Data>, s: State) {
    && CacheValid(cfg, known, s.last)
    && (forall j :: 0 <= j < |s.jobs| ==> JobValid(cfg, known, s.jobs[j]))
    && (forall i :: 0 <= i < |s.answers| ==> AnswerValid(cfg, known, s.answers[i]))
  }

  /** Moving one job on; the cache stays valid and the answers stay as they are. */
  lemma {:induction false} Move(cfg: Config, known: iset<Data>, s: State, s': State, j: nat, p: Phase)
    requires Valid(cfg, known, s) && j < |s.jobs| && s'.jobs == s.jobs && CacheValid(cfg, known, s'.last)
    requires s'.answers == s.answers && JobValid(cfg, known, Job(s.jobs[j].block, p))
    ensures Valid(cfg, known, SetPhase(s', j, p))
  {
  }

  lemma {:induction false} RespondKeeps(cfg: Config, known: iset<Data>, s: State, s': State, j: nat,
                                        sig: Data, ext: Option<Data>, stamp: int)
    requires Valid(cfg, known, s) && j < |s.jobs| && s'.jobs == s.jobs && CacheValid(cfg, known, s'.last)
    requires s'.answers == s.answers && AnswerValid(cfg, known, Answer(s.jobs[j].block, sig, ext, stamp))
    ensures Valid(cfg, known, Respond(s', j, sig, ext, stamp))
  {
  }

  lemma {:induction false} BeginKeeps(cfg: Config, known: iset<Data>, s: State, s': State, j: nat)
    requires Valid(cfg, known, s) && j < |s.jobs| && s'.jobs == s.jobs && CacheValid(cfg, known, s'.last) && s'.answers == s.answers
    ensures Valid(cfg, known, Begin(cfg, s', j))
  {
  }

  /** Reusing an entry: its signature covers the request's vote with the entry's timestamp. */
  lemma {:induction false} UseKeeps(cfg: Config, known: iset<Data>, s: State, j: nat)
    requires Valid(cfg, known, s) && j < |s.jobs| && s.jobs[j].block.key in s.last.cache
    requires CompareSSC(cfg.codec, s.jobs[j].block, s.last.cache[s.jobs[j].block.key]).Found?
    ensures Valid(cfg, known, Use(cfg, s, j, CompareSSC(cfg.codec, s.jobs[j].block, s.last.cache[s.jobs[j].block.key])))
  {
  }

  lemma {:induction false} CheckKeeps(cfg: Config, known: iset<Data>, s: State, j: nat, same: bool)
    requires Valid(cfg, known, s) && j < |s.jobs|
    ensures Valid(cfg, known, StepCheck(cfg, s, j, same))
  {
  }

  lemma {:induction false} WaitKeeps(cfg: Config, known: iset<Data>, s: State, j: nat, tries: nat)
    requires Valid(cfg, known, s) && j < |s.jobs|
    ensures Valid(cfg, known, StepWait(cfg, s, j, tries))
  {
  }

  lemma {:induction false} SavedValid(cfg: Config, known: iset<Data>, w: Watermark, ssc: Consensus)
    requires CacheValid(cfg, known, w) && EntryValid(cfg, known, ssc.key, ssc)
    ensures CacheValid(cfg, known, Saved(w, ssc))
  {
  }

  lemma {:induction false} SaveKeeps(cfg: Config, known: iset<Data>, s: State, j: nat, sig: Data, ext: Option<Data>)
    requires Valid(cfg, known, s) && j < |s.jobs| && s.jobs[j].phase == Saving(sig, ext)
    ensures Valid(cfg, known, StepSave(s, j, sig, ext))
  {
  }

  lemma {:induction false} MarkKeeps(cfg: Config, known: iset<Data>, s: State, j: nat)
    requires Valid(cfg, known, s) && j < |s.jobs|
    ensures Valid(cfg, known, StepMark(s, j))
  {
  }

  lemma {:induction false} ReuseKeeps(cfg: Config, known: iset<Data>, s: State, j: nat, sig: Data, ext: Option<Data>, stamp: int)
    requires Valid(cfg, known, s) && j < |s.jobs| && s.jobs[j].phase == Reusing(sig, ext, stamp)
    ensures Valid(cfg, known, StepReuse(cfg, s, j, sig, ext, stamp))
  {
  }

  lemma {:induction false} ResignKeeps(cfg: Config, known: iset<Data>, s: State, j: nat, sig: Data, stamp: int, ext: Option<Data>)
    requires Valid(cfg, known, s) && j < |s.jobs| && s.jobs[j].phase == Resigning(sig, stamp)
    ensures Valid(cfg, known, StepResign(cfg, s, j, sig, stamp, ext))
  {
  }

  lemma {:induction false} OutcomeKeeps(cfg: Config, known: iset<Data>, s: State, j: nat, hasExtension: bool, sig: Data, ext: Option<Data>)
    requires Valid(cfg, known, s) && j < |s.jobs| && s.jobs[j].phase == Attempting(hasExtension)
    ensures Valid(cfg, known, StepOutcome(cfg, s, j, hasExtension, sig, ext))
  {
  }

  lemma {:induction false} AdvanceKeeps(cfg: Config, known: iset<Data>, s: State, j: nat)
    requires Valid(cfg, known, s) && j < |s.jobs|
    ensures Valid(cfg, known, StepAdvance(cfg, s, j))
  {
    match s.jobs[j].phase
    case Starting =>
      match Rejection(s.initiated, s.jobs[j].block.key) {
        case None => BeginKeeps(cfg, known, s, s.(initiated := s.jobs[j].block.key), j);
        case Some(e) => Move(cfg, known, s, s, j, Checking(e == SameHRS));
      }
    case Checking(same) => CheckKeeps(cfg, known, s, j, same);
    case Waiting(tries) => WaitKeeps(cfg, known, s, j, tries);
    case Saving(sig, ext) => SaveKeeps(cfg, known, s, j, sig, ext);
    case Marking => MarkKeeps(cfg, known, s, j);
    case Reusing(sig, ext, stamp) => ReuseKeeps(cfg, known, s, j, sig, ext, stamp);
    case _ =>
  }

  /** What is asked for came in, and entries replicated from other leaders came in and were verified there. */
  ghost predicate Trusted(cfg: Config, known: iset<Data>, e: Event) {
    && (e.Receive? ==> e.block.signBytes in known)
    && (e.Replicate? ==> EntryValid(cfg, known, e.ssc.key, e.ssc))
  }

  lemma {:induction false} ApplyKeeps(cfg: Config, known: iset<Data>, s: State, e: Event)
    requires Valid(cfg, known, s) && Trusted(cfg, known, e)
    ensures Valid(cfg, known, Apply(cfg, s, e))
  {
    match e
    case Receive(block) =>
    case Advance(j) => if j < |s.jobs| { AdvanceKeeps(cfg, known, s, j); }
    case Outcome(j, sig, ext) =>
      if j < |s.jobs| {
        match s.jobs[j].phase
        case Attempting(hasExtension) => OutcomeKeeps(cfg, known, s, j, hasExtension, sig, ext);
        case Resigning(old_, stamp) => ResignKeeps(cfg, known, s, j, old_, stamp, ext);
        case _ =>
      }
    case Fail(j) =>
      if j < |s.jobs| {
        Move(cfg, known, s, s, j, Marking);
        Move(cfg, known, s, s, j, Finished);
      }
    case Replicate(ssc) => SavedValid(cfg, known, s.last, ssc);
  }

  lemma {:induction false} RunIsValid(cfg: Config, known: iset<Data>, w: Watermark, events: seq<Event>)
    requires CacheValid(cfg, known, w) && forall i :: 0 <= i < |events| ==> Trusted(cfg, known, events[i])
    ensures Valid(cfg, known, RunLeader(cfg, w, events))
  {
    if |events| > 0 {
      RunIsValid(cfg, known, w, events[..|events| - 1]);
      ApplyKeeps(cfg, known, RunLeader(cfg, w, events[..|events| - 1]), events[|events| - 1]);
    }
  }

  /** Bytes that are the encoding of the vote they parse as. */
  ghost predicate Encoded(codec: Codec, encode: CanonicalVote -> Data, d: Data) {
    codec.vote(d).Some? ==> d == encode(codec.vote(d).value)
  }

  /**
   Every successful answer to a stamped block, by whatever path, verifies over bytes that came in
   and carry the returned timestamp, and for a vote over that very vote restamped; if the bytes
   that come in are encoded as the chain encodes votes, over the encoding of the restamped vote.
   Whenever the request carries an extension, the extension signature verifies over it.
   */
  lemma {:induction false} AnswersVerify(cfg: Config, known: iset<Data>, w: Watermark, events: seq<Event>, a: Answer,
                                         encode: CanonicalVote -> Data)
    requires CacheValid(cfg, known, w) && forall i :: 0 <= i < |events| ==> Trusted(cfg, known, events[i])
    requires a in RunLeader(cfg, w, events).answers && Stamped(cfg.codec, a.block)
    ensures Covers(cfg, known, a.block, a.signature, a.stamp)
    ensures a.block.key.step != STEP_PROPOSE && (forall d :: d in known ==> Encoded(cfg.codec, encode, d)) ==>
      && cfg.codec.vote(a.block.signBytes).Some?
      && cfg.verify(encode(cfg.codec.vote(a.block.signBytes).value.(timestamp := a.stamp)), a.signature)
    ensures WantsExtension(cfg, a.block) ==>
      a.extSignature.Some? && cfg.verify(a.block.extBytes, a.extSignature.value)
  {
    RunIsValid(cfg, known, w, events);
    assert AnswerValid(cfg, known, a);
    var b :| b in known && Restamps(cfg.codec, a.block, a.stamp, b) && cfg.verify(b, a.signature);
    assert (forall d :: d in known ==> Encoded(cfg.codec, encode, d)) ==> Encoded(cfg.codec, encode, b);
  }
}

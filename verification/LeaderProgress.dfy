/**
 What the leader owes a request (signer/threshold_validator.go Sign): a signature that is there is
 handed out, one that is under way is waited for, a failed attempt is tried again, and no attempt
 ends without an answer or a marker.
 */
module LeaderProgress {
  import opened Wrappers
  import opened GoInt
  import opened Hrs
  import opened Payload
  import opened SigningState
  import opened LeaderSteps

  // ---------------------------------------------------------------- what may be reused

  /** The cached message, read as the step says. */
  predicate Parses(codec: Codec, step: int, d: Data) {
    if step == 1 then codec.proposal(d).Some? else codec.vote(d).Some?
  }

  /** The timestamp in the message. */
  function TimeOf(codec: Codec, step: int, d: Data): int
    requires Parses(codec, step, d)
  {
    if step == 1 then codec.proposal(d).value.timestamp else codec.vote(d).value.timestamp
  }

  /** The entry is for the block's key; a proposal's always serves, a vote's if it is the same vote up to the timestamp. */
  predicate Reusable(codec: Codec, b: Block, e: Consensus) {
    var d := BytesOf(e.signBytes);
    && e.key == b.key && Parses(codec, b.key.step, d)
    && (b.key.step != 1 ==>
          && codec.vote(b.signBytes).Some?
          && codec.vote(d).value == codec.vote(b.signBytes).value.(timestamp := codec.vote(d).value.timestamp))
  }

  lemma {:induction false} ComparedExactly(codec: Codec, b: Block, e: Consensus)
    requires b.key.step in {1, 2, 3} && e.key == b.key
    ensures CompareSSC(codec, b, e)
         == if Reusable(codec, b, e) then Found(e.signature, e.extSignature, TimeOf(codec, b.key.step, BytesOf(e.signBytes)))
            else Refused
  {
    var d := BytesOf(e.signBytes);
    if b.key.step != 1 {
      OnlyDifferMeansSame(codec, b.key.step, d, b.signBytes);
      if codec.vote(d).Some? && codec.vote(b.signBytes).Some? {
        var l, n := codec.vote(d).value, codec.vote(b.signBytes).value;
        assert l == n.(timestamp := l.timestamp) <==> l.(timestamp := 0) == n.(timestamp := 0);
      }
    }
  }

  /** Every entry is cached under its own key. */
  ghost predicate Keyed(w: Watermark) {
    forall k :: k in w.cache ==> w.cache[k].key == k
  }

  lemma {:induction false} ApplyKeepsKeyed(cfg: Config, s: State, e: Event)
    requires Keyed(s.last)
    ensures Keyed(Apply(cfg, s, e).last)
  {
  }

  lemma {:induction false} RunIsKeyed(cfg: Config, w: Watermark, events: seq<Event>)
    requires Keyed(w)
    ensures Keyed(RunLeader(cfg, w, events).last)
  {
    if |events| > 0 {
      RunIsKeyed(cfg, w, events[..|events| - 1]);
      ApplyKeepsKeyed(cfg, RunLeader(cfg, w, events[..|events| - 1]), events[|events| - 1]);
    }
  }

  // ---------------------------------------------------------------- one step

  /** The request asks for a vote or proposal, and the cache holds this for it. */
  ghost predicate Holds(cfg: Config, s: State, j: nat, e: Consensus) {
    && Keyed(s.last) && j < |s.jobs| && s.jobs[j].block.key.step in {1, 2, 3}
    && s.jobs[j].block.key in s.last.cache && s.last.cache[s.jobs[j].block.key] == e
  }

  /** A request that still looks for an answer: it compares with the cache in its next step. */
  predicate Looking(cfg: Config, p: Phase) {
    p.Checking? || (p.Waiting? && p.tries < cfg.maxWait)
  }

  /** A request that looks for an answer takes a signature that is there. */
  lemma {:induction false} TakesSignature(cfg: Config, s: State, j: nat, e: Consensus)
    requires Holds(cfg, s, j, e) && Looking(cfg, s.jobs[j].phase)
    requires Reusable(cfg.codec, s.jobs[j].block, e) && e.signature.Some?
    ensures Apply(cfg, s, Advance(j))
         == SetPhase(s, j, Reusing(e.signature.value, e.extSignature,
                                   TimeOf(cfg.codec, e.key.step, BytesOf(e.signBytes))))
  {
    ComparedExactly(cfg.codec, s.jobs[j].block, e);
  }

  /** Over an entry without a signature it begins an attempt of its own. */
  lemma {:induction false} TakesOver(cfg: Config, s: State, j: nat, e: Consensus)
    requires Holds(cfg, s, j, e) && Looking(cfg, s.jobs[j].phase)
    requires Reusable(cfg.codec, s.jobs[j].block, e) && e.signature.None?
    ensures var s', b := Apply(cfg, s, Advance(j)), s.jobs[j].block;
      && s'.attempts == s.attempts + [Attempt(j, b.key)]
      && (VerifySignPayload(cfg.codec, cfg.chainID, b.signBytes, b.extBytes).Ok? ==>
            s'.jobs[j].phase == Attempting(Extendable(cfg.codec, b.signBytes) && b.extBytes != []))
  {
    var b := s.jobs[j].block;
    ComparedExactly(cfg.codec, b, e);
    if VerifySignPayload(cfg.codec, cfg.chainID, b.signBytes, b.extBytes).Ok? {
      VerifiedByKey(cfg.codec, cfg.chainID, b.signBytes, b.extBytes);
    }
  }

  /** A request waits exactly as long as nothing is cached for its key and tries are left. */
  lemma {:induction false} WaitsExactly(cfg: Config, s: State, j: nat, tries: nat)
    requires Keyed(s.last) && j < |s.jobs| && s.jobs[j].block.key.step in {1, 2, 3} && s.jobs[j].phase == Waiting(tries)
    ensures var s', k := Apply(cfg, s, Advance(j)), s.jobs[j].block.key;
      && (s'.jobs[j].phase.Waiting? <==> tries < cfg.maxWait && k !in s.last.cache)
      && (s'.jobs[j].phase.Finished? <==>
            tries >= cfg.maxWait || (k in s.last.cache && !Reusable(cfg.codec, s.jobs[j].block, s.last.cache[k])))
  {
    var b := s.jobs[j].block;
    if b.key in s.last.cache {
      ComparedExactly(cfg.codec, b, s.last.cache[b.key]);
    }
  }

  /** A request for the key that is under way waits for it. */
  lemma {:induction false} SameKeyWaits(cfg: Config, s: State, j: nat)
    requires j < |s.jobs| && s.jobs[j].phase == Starting && s.jobs[j].block.key == s.initiated
    requires s.initiated !in s.last.cache && s.initiated.GreaterThan(s.last.latest.key)
    ensures Apply(cfg, Apply(cfg, s, Advance(j)), Advance(j)) == SetPhase(s, j, Waiting(0))
  {
    TotalOrder(s.initiated, s.initiated, s.last.latest.key);
    TotalOrder(s.initiated, s.last.latest.key, s.initiated);
    var s1 := Apply(cfg, s, Advance(j));
    assert s1 == SetPhase(s, j, Checking(true));
    assert Existing(cfg.codec, s1.last, s1.jobs[j].block) == StillWaiting;
  }

  /** A key behind the watermark that is not cached any more is turned away. */
  lemma {:induction false} BehindIsRefused(cfg: Config, s: State, j: nat, same: bool)
    requires j < |s.jobs| && s.jobs[j].phase == Checking(same)
    requires s.jobs[j].block.key !in s.last.cache && !s.jobs[j].block.key.GreaterThan(s.last.latest.key)
    ensures Apply(cfg, s, Advance(j)) == SetPhase(s, j, Finished)
  {
    TotalOrder(s.jobs[j].block.key, s.last.latest.key, s.jobs[j].block.key);
  }

  /** So is a key that a later one has overtaken, if nothing is cached for it. */
  lemma {:induction false} OvertakenIsRefused(cfg: Config, s: State, j: nat)
    requires j < |s.jobs| && s.jobs[j].phase == Starting && s.initiated.GreaterThan(s.jobs[j].block.key)
    requires s.jobs[j].block.key !in s.last.cache
    ensures Apply(cfg, Apply(cfg, s, Advance(j)), Advance(j)) == SetPhase(s, j, Finished)
  {
    var s1 := Apply(cfg, s, Advance(j));
    assert s1 == SetPhase(s, j, Checking(false));
  }

  /** A replicated result beyond the watermark is there for those who wait. */
  lemma {:induction false} ReplicatedIsThere(cfg: Config, s: State, ssc: Consensus)
    requires ssc.key.GreaterThan(s.last.latest.key) && !WrapsAround(ssc.key.height)
    ensures var s' := Apply(cfg, s, Replicate(ssc));
      s'.last.latest == ssc && ssc.key in s'.last.cache && s'.last.cache[ssc.key] == ssc && s'.jobs == s.jobs
  {
    TotalOrder(ssc.key, s.last.latest.key, ssc.key);
    WrapSmall(ssc.key.height - 3);
  }

  // ---------------------------------------------------------------- answers

  /** The block has an extension to sign. */
  predicate HasExtension(codec: Codec, b: Block) {
    Extendable(codec, b.signBytes) && b.extBytes != []
  }

  ghost predicate PayloadOk(cfg: Config, b: Block) {
    VerifySignPayload(cfg.codec, cfg.chainID, b.signBytes, b.extBytes).Ok?
  }

  /** The extension signature that goes out with a reused vote, if the cached one will do. */
  predicate ExtensionServed(cfg: Config, b: Block, ext: Option<Data>) {
    HasExtension(cfg.codec, b) ==> ext.Some? && cfg.verify(b.extBytes, ext.value)
  }

  lemma {:induction false} ReuseAnswers(cfg: Config, s: State, j: nat, sig: Data, ext: Option<Data>, stamp: int)
    requires j < |s.jobs| && s.jobs[j].phase == Reusing(sig, ext, stamp) && PayloadOk(cfg, s.jobs[j].block)
    requires ExtensionServed(cfg, s.jobs[j].block, ext)
    ensures var b := s.jobs[j].block;
      Apply(cfg, s, Advance(j)).answers
      == s.answers + [Answer(b, sig, if HasExtension(cfg.codec, b) then ext else None, stamp)]
  {
    var b := s.jobs[j].block;
    VerifiedByKey(cfg.codec, cfg.chainID, b.signBytes, b.extBytes);
  }

  /** A changed extension is signed again, at the current height only. */
  lemma {:induction false} ReuseResigns(cfg: Config, s: State, j: nat, sig: Data, ext: Option<Data>, stamp: int)
    requires j < |s.jobs| && s.jobs[j].phase == Reusing(sig, ext, stamp) && PayloadOk(cfg, s.jobs[j].block)
    requires !ExtensionServed(cfg, s.jobs[j].block, ext)
    ensures Apply(cfg, s, Advance(j))
         == SetPhase(s, j, if s.jobs[j].block.key.height == s.last.latest.key.height then Resigning(sig, stamp) else Finished)
  {
    var b := s.jobs[j].block;
    VerifiedByKey(cfg.codec, cfg.chainID, b.signBytes, b.extBytes);
  }

  /** A signature that is cached for the same message is the answer: two steps, with the cached timestamp. */
  lemma {:induction false} CachedIsAnswered(cfg: Config, s: State, j: nat, e: Consensus)
    requires Holds(cfg, s, j, e) && Looking(cfg, s.jobs[j].phase) && PayloadOk(cfg, s.jobs[j].block)
    requires Reusable(cfg.codec, s.jobs[j].block, e) && e.signature.Some?
    requires ExtensionServed(cfg, s.jobs[j].block, e.extSignature)
    ensures var b := s.jobs[j].block;
      Apply(cfg, Apply(cfg, s, Advance(j)), Advance(j)).answers
      == s.answers + [Answer(b, e.signature.value, if HasExtension(cfg.codec, b) then e.extSignature else None,
                             TimeOf(cfg.codec, e.key.step, BytesOf(e.signBytes)))]
  {
    TakesSignature(cfg, s, j, e);
    ReuseAnswers(cfg, Apply(cfg, s, Advance(j)), j, e.signature.value, e.extSignature,
                 TimeOf(cfg.codec, e.key.step, BytesOf(e.signBytes)));
  }

  /** Where only the extension is missing, at the current height, an extension signature that verifies completes the answer. */
  lemma {:induction false} ResignedIsAnswered(cfg: Config, s: State, j: nat, e: Consensus, any: Data, ext: Data)
    requires Holds(cfg, s, j, e) && Looking(cfg, s.jobs[j].phase) && PayloadOk(cfg, s.jobs[j].block)
    requires Reusable(cfg.codec, s.jobs[j].block, e) && e.signature.Some?
    requires !ExtensionServed(cfg, s.jobs[j].block, e.extSignature)
    requires e.key.height == s.last.latest.key.height && cfg.verify(s.jobs[j].block.extBytes, ext)
    ensures var s2 := Apply(cfg, Apply(cfg, s, Advance(j)), Advance(j));
      Apply(cfg, s2, Outcome(j, any, Some(ext))).answers
      == s.answers + [Answer(s.jobs[j].block, e.signature.value, Some(ext), TimeOf(cfg.codec, e.key.step, BytesOf(e.signBytes)))]
  {
    var stamp := TimeOf(cfg.codec, e.key.step, BytesOf(e.signBytes));
    TakesSignature(cfg, s, j, e);
    ReuseResigns(cfg, Apply(cfg, s, Advance(j)), j, e.signature.value, e.extSignature, stamp);
  }

  /** A key nobody has asked for yet is attempted, and signatures that verify are saved and answered. */
  lemma {:induction false} FreshIsAnswered(cfg: Config, s: State, j: nat, sig: Data, ext: Option<Data>)
    requires j < |s.jobs| && s.jobs[j].phase == Starting && PayloadOk(cfg, s.jobs[j].block)
    requires s.jobs[j].block.key.GreaterThan(s.initiated) && s.jobs[j].block.key.GreaterThan(s.last.latest.key)
    requires !WrapsAround(s.jobs[j].block.key.height)
    requires cfg.verify(s.jobs[j].block.signBytes, sig) && ExtensionServed(cfg, s.jobs[j].block, ext)
    ensures var b := s.jobs[j].block;
      var out := if HasExtension(cfg.codec, b) then ext else None;
      var s3 := Apply(cfg, Apply(cfg, Apply(cfg, s, Advance(j)), Outcome(j, sig, ext)), Advance(j));
      && s3.answers == s.answers + [Answer(b, sig, out, b.timestamp)] && s3.initiated == b.key
      && b.key in s3.last.cache && s3.last.cache[b.key] == Consensus(b.key, Some(sig), out, Some(b.signBytes))
  {
    var b := s.jobs[j].block;
    TotalOrder(b.key, s.initiated, b.key);
    TotalOrder(b.key, s.last.latest.key, b.key);
    WrapSmall(b.key.height - 3);
    VerifiedByKey(cfg.codec, cfg.chainID, b.signBytes, b.extBytes);
    var out := if HasExtension(cfg.codec, b) then ext else None;
    var s1 := Apply(cfg, s, Advance(j));
    assert s1.jobs[j] == Job(b, Attempting(HasExtension(cfg.codec, b)));
    var s2 := Apply(cfg, s1, Outcome(j, sig, ext));
    assert s2.jobs[j] == Job(b, Saving(sig, out)) && s2.last == s.last;
  }

  // ---------------------------------------------------------------- no attempt is lost

  ghost predicate AnswerFor(s: State, b: Block) {
    exists i :: 0 <= i < |s.answers| && s.answers[i].block == b
  }

  /** The attempt is under way, or its request got an answer, or its key carries a marker. */
  ghost predicate Accounted(s: State, a: Attempt) {
    && a.job < |s.jobs| && s.jobs[a.job].block.key == a.key
    && (UnderWay(s.jobs[a.job].phase)
        || (s.jobs[a.job].phase.Finished? && (a.key in s.markers || AnswerFor(s, s.jobs[a.job].block))))
  }

  ghost predicate AllAccounted(s: State) {
    forall i :: 0 <= i < |s.attempts| ==> Accounted(s, s.attempts[i])
  }

  /** Moving one request on, with its attempt under way or ended as it should. */
  lemma {:induction false} MoveKeeps(s: State, s': State, j: nat, p: Phase)
    requires AllAccounted(s) && j < |s.jobs| && s'.jobs == s.jobs && s'.attempts == s.attempts
    requires s.markers <= s'.markers && s.answers <= s'.answers
    requires UnderWay(s.jobs[j].phase) ==>
      UnderWay(p) || (p.Finished? && (s.jobs[j].block.key in s'.markers || AnswerFor(s', s.jobs[j].block)))
    requires s.jobs[j].phase.Finished? ==> p.Finished?
    ensures AllAccounted(SetPhase(s', j, p))
  {
    var t := SetPhase(s', j, p);
    forall i | 0 <= i < |t.attempts| ensures Accounted(t, t.attempts[i]) {
      var a := s.attempts[i];
      assert Accounted(s, a);
      if AnswerFor(s, s.jobs[a.job].block) {
        var k :| 0 <= k < |s.answers| && s.answers[k].block == s.jobs[a.job].block;
        assert t.answers[k] == s.answers[k];
      }
    }
  }

  lemma {:induction false} RespondKeeps(s: State, s': State, j: nat, sig: Data, ext: Option<Data>, stamp: int)
    requires AllAccounted(s) && j < |s.jobs| && s'.jobs == s.jobs && s'.attempts == s.attempts
    requires s.markers <= s'.markers && s'.answers == s.answers
    ensures AllAccounted(Respond(s', j, sig, ext, stamp))
  {
    var t := s'.(answers := s'.answers + [Answer(s.jobs[j].block, sig, ext, stamp)]);
    assert t.answers[|s.answers|].block == s.jobs[j].block;
    MoveKeeps(s, t, j, Finished);
  }

  lemma {:induction false} BeginKeeps(cfg: Config, s: State, s': State, j: nat)
    requires AllAccounted(s) && j < |s.jobs| && !s.jobs[j].phase.Finished?
    requires s'.jobs == s.jobs && s'.attempts == s.attempts && s'.markers == s.markers && s'.answers == s.answers
    ensures AllAccounted(Begin(cfg, s', j))
  {
    MoveKeeps(s, s', j, Begin(cfg, s', j).jobs[j].phase);
  }

  lemma {:induction false} UseKeeps(cfg: Config, s: State, j: nat, c: Compared)
    requires AllAccounted(s) && j < |s.jobs| && c.Found? && !s.jobs[j].phase.Finished? && !UnderWay(s.jobs[j].phase)
    ensures AllAccounted(Use(cfg, s, j, c))
  {
    if c.signature.Some? {
      MoveKeeps(s, s, j, Reusing(c.signature.value, c.extSignature, c.stamp));
    } else {
      BeginKeeps(cfg, s, s, j);
    }
  }

  lemma {:induction false} AdvanceKeeps(cfg: Config, s: State, j: nat)
    requires AllAccounted(s) && j < |s.jobs|
    ensures AllAccounted(StepAdvance(cfg, s, j))
  {
    var b := s.jobs[j].block;
    match s.jobs[j].phase
    case Starting =>
      match Rejection(s.initiated, b.key) {
        case None => BeginKeeps(cfg, s, s.(initiated := b.key), j);
        case Some(e) => MoveKeeps(s, s, j, Checking(e == SameHRS));
      }
    case Checking(same) =>
      var c := Existing(cfg.codec, s.last, b);
      if c.Found? {
        UseKeeps(cfg, s, j, c);
      } else {
        MoveKeeps(s, s, j, StepCheck(cfg, s, j, same).jobs[j].phase);
      }
    case Waiting(tries) => WaitKeeps(cfg, s, j, tries);
    case Saving(sig, ext) => SaveKeeps(s, j, sig, ext);
    case Marking => MarkKeeps(s, j);
    case Reusing(sig, ext, stamp) => ReuseKeeps(cfg, s, j, sig, ext, stamp);
    case _ =>
  }

  lemma {:induction false} WaitKeeps(cfg: Config, s: State, j: nat, tries: nat)
    requires AllAccounted(s) && j < |s.jobs| && s.jobs[j].phase == Waiting(tries)
    ensures AllAccounted(StepWait(cfg, s, j, tries))
  {
    var b := s.jobs[j].block;
    if tries < cfg.maxWait && b.key in s.last.cache && CompareSSC(cfg.codec, b, s.last.cache[b.key]).Found? {
      UseKeeps(cfg, s, j, CompareSSC(cfg.codec, b, s.last.cache[b.key]));
    } else {
      MoveKeeps(s, s, j, StepWait(cfg, s, j, tries).jobs[j].phase);
    }
  }

  lemma {:induction false} SaveKeeps(s: State, j: nat, sig: Data, ext: Option<Data>)
    requires AllAccounted(s) && j < |s.jobs| && s.jobs[j].phase == Saving(sig, ext)
    ensures AllAccounted(StepSave(s, j, sig, ext))
  {
    var b := s.jobs[j].block;
    var ssc := Consensus(b.key, Some(sig), ext, Some(b.signBytes));
    match Rejection(s.last.latest.key, b.key)
    case None => RespondKeeps(s, s.(last := Saved(s.last, ssc), made := s.made[b.key := ssc]), j, sig, ext, b.timestamp);
    case Some(SameHRS) => RespondKeeps(s, s, j, sig, ext, b.timestamp);
    case Some(Regression) => MoveKeeps(s, s, j, Marking);
  }

  lemma {:induction false} MarkKeeps(s: State, j: nat)
    requires AllAccounted(s) && j < |s.jobs| && s.jobs[j].phase == Marking
    ensures AllAccounted(StepMark(s, j))
  {
    var b := s.jobs[j].block;
    var marker := Consensus(b.key, None, None, Some(b.signBytes));
    MoveKeeps(s, s.(last := s.last.(cache := s.last.cache[b.key := marker]), markers := s.markers + {b.key}), j, Finished);
  }

  lemma {:induction false} ReuseKeeps(cfg: Config, s: State, j: nat, sig: Data, ext: Option<Data>, stamp: int)
    requires AllAccounted(s) && j < |s.jobs| && s.jobs[j].phase == Reusing(sig, ext, stamp)
    ensures AllAccounted(StepReuse(cfg, s, j, sig, ext, stamp))
  {
    RespondKeeps(s, s, j, sig, None, stamp);
    RespondKeeps(s, s, j, sig, ext, stamp);
    MoveKeeps(s, s, j, Resigning(sig, stamp));
    MoveKeeps(s, s, j, Finished);
  }

  lemma {:induction false} OutcomeKeeps(cfg: Config, s: State, j: nat, sig: Data, ext: Option<Data>)
    requires AllAccounted(s) && j < |s.jobs|
    ensures AllAccounted(Apply(cfg, s, Outcome(j, sig, ext)))
  {
    match s.jobs[j].phase
    case Attempting(hasExtension) => MoveKeeps(s, s, j, StepOutcome(cfg, s, j, hasExtension, sig, ext).jobs[j].phase);
    case Resigning(old_, stamp) =>
      RespondKeeps(s, s, j, old_, ext, stamp);
      MoveKeeps(s, s, j, Finished);
    case _ =>
  }

  lemma {:induction false} ReceiveKeeps(cfg: Config, s: State, b: Block)
    requires AllAccounted(s)
    ensures AllAccounted(Apply(cfg, s, Receive(b)))
  {
    var t := Apply(cfg, s, Receive(b));
    forall i | 0 <= i < |t.attempts| ensures Accounted(t, t.attempts[i]) {
      assert Accounted(s, s.attempts[i]);
      assert AnswerFor(s, s.jobs[s.attempts[i].job].block) ==> AnswerFor(t, s.jobs[s.attempts[i].job].block);
    }
  }

  lemma {:induction false} ApplyKeeps(cfg: Config, s: State, e: Event)
    requires AllAccounted(s)
    ensures AllAccounted(Apply(cfg, s, e))
  {
    match e
    case Receive(b) => ReceiveKeeps(cfg, s, b);
    case Advance(j) => if j < |s.jobs| { AdvanceKeeps(cfg, s, j); }
    case Outcome(j, sig, ext) => if j < |s.jobs| { OutcomeKeeps(cfg, s, j, sig, ext); }
    case Fail(j) =>
      if j < |s.jobs| {
        if s.jobs[j].phase.Attempting? {
          MoveKeeps(s, s, j, Marking);
        } else if s.jobs[j].phase.Resigning? {
          MoveKeeps(s, s, j, Finished);
        }
      }
    case Replicate(ssc) =>
      var t := Apply(cfg, s, e);
      forall i | 0 <= i < |t.attempts| ensures Accounted(t, t.attempts[i]) {
        assert Accounted(s, s.attempts[i]);
        assert AnswerFor(s, s.jobs[s.attempts[i].job].block) ==> AnswerFor(t, s.jobs[s.attempts[i].job].block);
      }
  }

  /**
   In every run, every attempt that was ever started is still under way, or its request was
   answered, or it left a marker under its key, so that whoever waits there can take over.
   */
  lemma {:induction false} NoAttemptLost(cfg: Config, w: Watermark, events: seq<Event>)
    ensures AllAccounted(RunLeader(cfg, w, events))
  {
    if |events| > 0 {
      NoAttemptLost(cfg, w, events[..|events| - 1]);
      ApplyKeeps(cfg, RunLeader(cfg, w, events[..|events| - 1]), events[|events| - 1]);
    }
  }

  // ---------------------------------------------------------------- two nodes

  /** The two ask for one vote, or for proposals of one height and round, without an extension. */
  ghost predicate AskAlike(cfg: Config, a: Block, b: Block) {
    && a.key == b.key && a.key.step in {1, 2, 3}
    && PayloadOk(cfg, a) && PayloadOk(cfg, b) && !HasExtension(cfg.codec, a) && !HasExtension(cfg.codec, b)
    && Reusable(cfg.codec, b, Consensus(a.key, None, None, Some(a.signBytes)))
  }

  /** While the first is being signed, the second waits. */
  ghost predicate OneSignsOneWaits(cfg: Config, w: Watermark, s: State, a: Block, b: Block) {
    && s.jobs == [Job(a, Attempting(false)), Job(b, Waiting(0))]
    && s.last == w && s.answers == [] && s.initiated == a.key
  }

  lemma {:induction false} SecondWaits(cfg: Config, w: Watermark, a: Block, b: Block) returns (events: seq<Event>)
    requires Keyed(w) && AskAlike(cfg, a, b) && a.key.GreaterThan(w.latest.key) && a.key !in w.cache
    ensures OneSignsOneWaits(cfg, w, RunLeader(cfg, w, events), a, b)
  {
    TotalOrder(a.key, w.latest.key, a.key);
    VerifiedByKey(cfg.codec, cfg.chainID, a.signBytes, a.extBytes);
    events := Extend(cfg, w, [], Receive(a));
    events := Extend(cfg, w, events, Advance(0));
    assert RunLeader(cfg, w, events).jobs == [Job(a, Attempting(false))];
    events := Extend(cfg, w, events, Receive(b));
    var s := RunLeader(cfg, w, events);
    assert s.jobs == [Job(a, Attempting(false)), Job(b, Starting)] && s.initiated == a.key && s.last == w;
    SameKeyWaits(cfg, s, 1);
    events := Extend(cfg, w, events, Advance(1));
    events := Extend(cfg, w, events, Advance(1));
  }

  lemma {:induction false} FirstSaves(cfg: Config, w: Watermark, s: State, a: Block, b: Block, sig: Data)
    requires Keyed(w) && a.key.GreaterThan(w.latest.key) && !WrapsAround(a.key.height)
    requires OneSignsOneWaits(cfg, w, s, a, b) && cfg.verify(a.signBytes, sig)
    ensures var s' := Apply(cfg, Apply(cfg, s, Outcome(0, sig, None)), Advance(0));
      && s'.jobs == [Job(a, Finished), Job(b, Waiting(0))] && s'.answers == [Answer(a, sig, None, a.timestamp)]
      && Keyed(s'.last) && a.key in s'.last.cache
      && s'.last.cache[a.key] == Consensus(a.key, Some(sig), None, Some(a.signBytes))
  {
    TotalOrder(a.key, w.latest.key, a.key);
    WrapSmall(a.key.height - 3);
    var s1 := Apply(cfg, s, Outcome(0, sig, None));
    assert s1.jobs == [Job(a, Saving(sig, None)), Job(b, Waiting(0))] && s1.last == w;
  }

  /** Two nodes ask for the same thing: the second waits for the first and gets its signature and timestamp. */
  lemma {:induction false} SecondNodeGetsTheSame(cfg: Config, w: Watermark, a: Block, b: Block, sig: Data) returns (events: seq<Event>)
    requires Keyed(w) && AskAlike(cfg, a, b) && a.key.GreaterThan(w.latest.key) && a.key !in w.cache
    requires !WrapsAround(a.key.height) && cfg.maxWait >= 1 && cfg.verify(a.signBytes, sig)
    ensures RunLeader(cfg, w, events).answers
         == [Answer(a, sig, None, a.timestamp), Answer(b, sig, None, TimeOf(cfg.codec, a.key.step, a.signBytes))]
  {
    events := SecondWaits(cfg, w, a, b);
    FirstSaves(cfg, w, RunLeader(cfg, w, events), a, b, sig);
    events := Extend(cfg, w, events, Outcome(0, sig, None));
    events := Extend(cfg, w, events, Advance(0));
    var s := RunLeader(cfg, w, events);
    CachedIsAnswered(cfg, s, 1, Consensus(a.key, Some(sig), None, Some(a.signBytes)));
    events := Extend(cfg, w, events, Advance(1));
    events := Extend(cfg, w, events, Advance(1));
  }
}

/**
 One signature per height, round and step: where no attempt left a failure marker and nothing
 was saved from elsewhere, one request signs and every answer carries its signature.
 */
module LeaderUniqueness {
  import opened Wrappers
  import opened Hrs
  import opened Payload
  import opened SigningState
  import opened LeaderSteps

  /** No marker, nothing from elsewhere, and only stamped requests at this key. */
  ghost predicate Clean(cfg: Config, s: State, k: HRSKey) {
    && k !in s.markers && k !in s.foreign
    && forall j :: 0 <= j < |s.jobs| && s.jobs[j].block.key == k ==> Stamped(cfg.codec, s.jobs[j].block)
  }

  /** The result this leader saved under the key is the one with this signature and timestamp. */
  ghost predicate OnRecord(cfg: Config, s: State, k: HRSKey, sig: Data, stamp: int) {
    && k in s.made && s.made[k].signature == Some(sig)
    && StampOf(cfg.codec, k.step, BytesOf(s.made[k].signBytes)) == Some(stamp)
  }

  /** One attempt at most, and only at keys that were initiated. */
  ghost predicate AttemptsUnique(cfg: Config, s: State) {
    && (forall i :: 0 <= i < |s.attempts| ==> !s.attempts[i].key.GreaterThan(s.initiated))
    && (forall i, k :: 0 <= i < k < |s.attempts| && s.attempts[i].key == s.attempts[k].key ==>
          !Clean(cfg, s, s.attempts[i].key))
  }

  /** What is cached at a clean key, or latest, this leader saved itself. */
  ghost predicate CacheMine(cfg: Config, s: State) {
    && (forall k :: k in s.last.cache && Clean(cfg, s, k) ==> k in s.made && s.last.cache[k] == s.made[k])
    && (Clean(cfg, s, s.last.latest.key) ==> s.last.latest.key in s.made)
  }

  ghost predicate MadeByAttempt(cfg: Config, s: State) {
    forall k :: k in s.made && Clean(cfg, s, k) ==>
      && s.made[k].key == k && s.made[k].signature.Some?
      && exists i :: 0 <= i < |s.attempts| && s.attempts[i].key == k
  }

  ghost predicate JobMine(cfg: Config, s: State, j: nat)
    requires j < |s.jobs|
  {
    var k := s.jobs[j].block.key;
    match s.jobs[j].phase
    case Reusing(sig, _, stamp) => OnRecord(cfg, s, k, sig, stamp)
    case Resigning(sig, stamp) => OnRecord(cfg, s, k, sig, stamp)
    case _ => UnderWay(s.jobs[j].phase) ==> k !in s.made && Attempt(j, k) in s.attempts
  }

  ghost predicate JobsMine(cfg: Config, s: State) {
    forall j :: 0 <= j < |s.jobs| && Clean(cfg, s, s.jobs[j].block.key) ==> JobMine(cfg, s, j)
  }

  /** A request that is past its first step asks for a key that was initiated. */
  ghost predicate JobsInitiated(s: State) {
    forall j :: 0 <= j < |s.jobs| && !s.jobs[j].phase.Starting? ==> !s.jobs[j].block.key.GreaterThan(s.initiated)
  }

  ghost predicate AnswersMine(cfg: Config, s: State) {
    forall i :: 0 <= i < |s.answers| && Clean(cfg, s, s.answers[i].block.key) ==>
      OnRecord(cfg, s, s.answers[i].block.key, s.answers[i].signature, s.answers[i].stamp)
  }

  ghost predicate Unique(cfg: Config, s: State) {
    && AttemptsUnique(cfg, s) && CacheMine(cfg, s) && MadeByAttempt(cfg, s)
    && JobsMine(cfg, s) && JobsInitiated(s) && AnswersMine(cfg, s)
  }

  /** Only the phase of one job changes: cleanliness does not depend on phases. */
  lemma {:induction false} SameClean(cfg: Config, s: State, s': State)
    requires s'.markers == s.markers && s'.foreign == s.foreign && |s'.jobs| == |s.jobs|
    requires forall j :: 0 <= j < |s.jobs| ==> s'.jobs[j].block == s.jobs[j].block
    ensures forall k :: Clean(cfg, s', k) <==> Clean(cfg, s, k)
  {
  }

  lemma {:induction false} Move(cfg: Config, s: State, j: nat, p: Phase)
    requires Unique(cfg, s) && j < |s.jobs| && !s.jobs[j].block.key.GreaterThan(s.initiated)
    requires Clean(cfg, s, s.jobs[j].block.key) ==> JobMine(cfg, SetPhase(s, j, p), j)
    ensures Unique(cfg, SetPhase(s, j, p))
  {
    var s' := SetPhase(s, j, p);
    SameClean(cfg, s, s');
    forall i | 0 <= i < |s'.jobs| && Clean(cfg, s', s'.jobs[i].block.key) ensures JobMine(cfg, s', i) {
      if i != j {
        assert JobMine(cfg, s, i);
      }
    }
  }

  /** An answer with the saved signature and timestamp. */
  lemma {:induction false} RespondKeeps(cfg: Config, s: State, j: nat, sig: Data, ext: Option<Data>, stamp: int)
    requires Unique(cfg, s) && j < |s.jobs| && !s.jobs[j].block.key.GreaterThan(s.initiated)
    requires Clean(cfg, s, s.jobs[j].block.key) ==> OnRecord(cfg, s, s.jobs[j].block.key, sig, stamp)
    ensures Unique(cfg, Respond(s, j, sig, ext, stamp))
  {
    var a := s.(answers := s.answers + [Answer(s.jobs[j].block, sig, ext, stamp)]);
    SameClean(cfg, s, a);
    forall i | 0 <= i < |a.jobs| && Clean(cfg, a, a.jobs[i].block.key) ensures JobMine(cfg, a, i) {
      assert JobMine(cfg, s, i);
    }
    Move(cfg, a, j, Finished);
  }

  /** Starting an attempt at a key that is not clean, or that was never initiated. */
  lemma {:induction false} BeginKeeps(cfg: Config, s: State, j: nat, initiated: HRSKey)
    requires Unique(cfg, s) && j < |s.jobs|
    requires initiated == s.initiated || (initiated == s.jobs[j].block.key && initiated.GreaterThan(s.initiated))
    requires !s.jobs[j].block.key.GreaterThan(initiated)
    requires initiated == s.initiated ==> !Clean(cfg, s, s.jobs[j].block.key)
    ensures Unique(cfg, Begin(cfg, s.(initiated := initiated), j))
  {
    var k := s.jobs[j].block.key;
    var s' := Begin(cfg, s.(initiated := initiated), j);
    SameClean(cfg, s, s');
    forall i | 0 <= i < |s.attempts| ensures !s.attempts[i].key.GreaterThan(initiated) {
      TotalOrder(s.attempts[i].key, initiated, s.initiated);
      TotalOrder(s.attempts[i].key, s.initiated, initiated);
    }
    forall i | 0 <= i < |s.jobs| && !s.jobs[i].phase.Starting? ensures !s.jobs[i].block.key.GreaterThan(initiated) {
      TotalOrder(s.jobs[i].block.key, initiated, s.initiated);
      TotalOrder(s.jobs[i].block.key, s.initiated, initiated);
    }
    if initiated.GreaterThan(s.initiated) {
      forall i | 0 <= i < |s.attempts| ensures s.attempts[i].key != k {
        TotalOrder(k, s.initiated, k);
      }
    }
    AttemptAdded(cfg, s, s', j, k);
  }

  lemma {:induction false} AttemptAdded(cfg: Config, s: State, s': State, j: nat, k: HRSKey)
    requires Unique(cfg, s) && j < |s.jobs| && k == s.jobs[j].block.key
    requires s'.attempts == s.attempts + [Attempt(j, k)]
    requires s'.last == s.last && s'.made == s.made && s'.answers == s.answers
    requires forall q :: Clean(cfg, s', q) <==> Clean(cfg, s, q)
    requires |s'.jobs| == |s.jobs| && (forall i :: 0 <= i < |s.jobs| && i != j ==> s'.jobs[i] == s.jobs[i])
    requires s'.jobs[j].block == s.jobs[j].block && UnderWay(s'.jobs[j].phase)
    requires forall i :: 0 <= i < |s.attempts| ==> !s.attempts[i].key.GreaterThan(s'.initiated)
    requires !k.GreaterThan(s'.initiated) && JobsInitiated(s')
    requires Clean(cfg, s, k) ==> forall i :: 0 <= i < |s.attempts| ==> s.attempts[i].key != k
    ensures Unique(cfg, s')
  {
    forall i | 0 <= i < |s'.jobs| && Clean(cfg, s', s'.jobs[i].block.key) ensures JobMine(cfg, s', i) {
      if i != j {
        assert JobMine(cfg, s, i);
      } else {
        assert s'.attempts[|s.attempts|] == Attempt(j, k);
      }
    }
    forall q | q in s'.made && Clean(cfg, s', q)
      ensures s'.made[q].key == q && s'.made[q].signature.Some?
      ensures exists i :: 0 <= i < |s'.attempts| && s'.attempts[i].key == q
    {
      var i :| 0 <= i < |s.attempts| && s.attempts[i].key == q;
      assert s'.attempts[i].key == q;
    }
  }

  /** A cached entry with no signature is a marker or came from elsewhere. */
  lemma {:induction false} UseKeeps(cfg: Config, s: State, j: nat)
    requires Unique(cfg, s) && j < |s.jobs| && s.jobs[j].block.key in s.last.cache
    requires !s.jobs[j].block.key.GreaterThan(s.initiated)
    requires CompareSSC(cfg.codec, s.jobs[j].block, s.last.cache[s.jobs[j].block.key]).Found?
    ensures Unique(cfg, Use(cfg, s, j, CompareSSC(cfg.codec, s.jobs[j].block, s.last.cache[s.jobs[j].block.key])))
  {
    var k := s.jobs[j].block.key;
    var c := CompareSSC(cfg.codec, s.jobs[j].block, s.last.cache[k]);
    if c.signature.Some? {
      Move(cfg, s, j, Reusing(c.signature.value, c.extSignature, c.stamp));
    } else {
      assert !Clean(cfg, s, k);
      BeginKeeps(cfg, s, j, s.initiated);
    }
  }

  lemma {:induction false} StartKeeps(cfg: Config, s: State, j: nat)
    requires Unique(cfg, s) && j < |s.jobs| && s.jobs[j].phase == Starting
    ensures Unique(cfg, StepStart(cfg, s, j))
  {
    var k := s.jobs[j].block.key;
    TotalOrder(k, s.initiated, k);
    match Rejection(s.initiated, k)
    case None => BeginKeeps(cfg, s, j, k);
    case Some(e) => Move(cfg, s, j, Checking(e == SameHRS));
  }

  lemma {:induction false} CheckKeeps(cfg: Config, s: State, j: nat, same: bool)
    requires Unique(cfg, s) && j < |s.jobs| && s.jobs[j].phase == Checking(same)
    ensures Unique(cfg, StepCheck(cfg, s, j, same))
  {
    var c := Existing(cfg.codec, s.last, s.jobs[j].block);
    if c.Found? {
      UseKeeps(cfg, s, j);
    } else {
      Move(cfg, s, j, if same && c.StillWaiting? then Waiting(0) else Finished);
    }
  }

  lemma {:induction false} WaitKeeps(cfg: Config, s: State, j: nat, tries: nat)
    requires Unique(cfg, s) && j < |s.jobs| && s.jobs[j].phase == Waiting(tries)
    ensures Unique(cfg, StepWait(cfg, s, j, tries))
  {
    var b := s.jobs[j].block;
    if tries < cfg.maxWait && b.key in s.last.cache && CompareSSC(cfg.codec, b, s.last.cache[b.key]).Found? {
      UseKeeps(cfg, s, j);
    } else {
      Move(cfg, s, j, StepWait(cfg, s, j, tries).jobs[j].phase);
    }
  }

  /** While a clean key's attempt runs, nobody else attempts it and nothing is saved or answered there. */
  lemma {:induction false} AttemptAlone(cfg: Config, s: State, j: nat, i: nat)
    requires Unique(cfg, s) && j < |s.jobs| && UnderWay(s.jobs[j].phase) && i < |s.jobs| && i != j
    requires Clean(cfg, s, s.jobs[j].block.key) && s.jobs[i].block.key == s.jobs[j].block.key
    ensures !UnderWay(s.jobs[i].phase) && !s.jobs[i].phase.Reusing? && !s.jobs[i].phase.Resigning?
  {
  }

  /** The attempt's own save: the key is recorded, and the answer carries what was recorded. */
  lemma {:induction false} OwnSaveKeeps(cfg: Config, s: State, j: nat, sig: Data, ext: Option<Data>)
    requires Unique(cfg, s) && j < |s.jobs| && s.jobs[j].phase == Saving(sig, ext)
    requires Rejection(s.last.latest.key, s.jobs[j].block.key).None?
    ensures Unique(cfg, StepSave(s, j, sig, ext))
  {
    var b := s.jobs[j].block;
    var k := b.key;
    var s' := StepSave(s, j, sig, ext);
    SameClean(cfg, s, s');
    assert Clean(cfg, s, k) ==> JobMine(cfg, s, j) && Stamped(cfg.codec, b);
    forall i | 0 <= i < |s'.jobs| && Clean(cfg, s', s'.jobs[i].block.key) ensures JobMine(cfg, s', i) {
      if i != j {
        assert JobMine(cfg, s, i);
        if s.jobs[i].block.key == k {
          AttemptAlone(cfg, s, j, i);
        }
      }
    }
    forall i | 0 <= i < |s'.answers| && Clean(cfg, s', s'.answers[i].block.key)
      ensures OnRecord(cfg, s', s'.answers[i].block.key, s'.answers[i].signature, s'.answers[i].stamp)
    {
      if i < |s.answers| {
        assert s'.answers[i] == s.answers[i];
        assert s.answers[i].block.key != k;
      }
    }
    MadeGrows(cfg, s, s', j, k);
  }

  lemma {:induction false} MadeGrows(cfg: Config, s: State, s': State, j: nat, k: HRSKey)
    requires Unique(cfg, s) && j < |s.jobs| && k == s.jobs[j].block.key && s'.attempts == s.attempts
    requires forall q :: Clean(cfg, s', q) <==> Clean(cfg, s, q)
    requires Clean(cfg, s, k) ==> Attempt(j, k) in s.attempts
    requires k in s'.made && s'.made == s.made[k := s'.made[k]] && s'.made[k].key == k && s'.made[k].signature.Some?
    ensures MadeByAttempt(cfg, s')
  {
  }

  lemma {:induction false} SaveKeeps(cfg: Config, s: State, j: nat, sig: Data, ext: Option<Data>)
    requires Unique(cfg, s) && j < |s.jobs| && s.jobs[j].phase == Saving(sig, ext)
    ensures Unique(cfg, StepSave(s, j, sig, ext))
  {
    var b := s.jobs[j].block;
    assert Clean(cfg, s, b.key) ==> JobMine(cfg, s, j);
    match Rejection(s.last.latest.key, b.key)
    case None => OwnSaveKeeps(cfg, s, j, sig, ext);
    case Some(SameHRS) => RespondKeeps(cfg, s, j, sig, ext, b.timestamp);
    case Some(Regression) => Move(cfg, s, j, Marking);
  }

  /** Fewer clean keys, and nothing new cached at those that remain. */
  lemma {:induction false} Dirtied(cfg: Config, s: State, s': State)
    requires Unique(cfg, s)
    requires s'.initiated == s.initiated && s'.made == s.made && s'.attempts == s.attempts && s'.answers == s.answers
    requires forall q :: Clean(cfg, s', q) ==> Clean(cfg, s, q)
    requires forall q :: q in s'.last.cache && Clean(cfg, s', q) ==> q in s.last.cache && s'.last.cache[q] == s.last.cache[q]
    requires Clean(cfg, s', s'.last.latest.key) ==> s'.last.latest.key in s.made
    requires |s.jobs| <= |s'.jobs|
    requires forall i :: 0 <= i < |s.jobs| ==> s'.jobs[i].block == s.jobs[i].block
    requires forall i :: 0 <= i < |s.jobs| ==> s'.jobs[i] == s.jobs[i] || s'.jobs[i].phase == Finished
    requires forall i :: 0 <= i < |s.jobs| && s.jobs[i].phase == Starting ==> s'.jobs[i] == s.jobs[i]
    requires forall i :: |s.jobs| <= i < |s'.jobs| ==> s'.jobs[i].phase == Starting
    ensures Unique(cfg, s')
  {
  }

  lemma {:induction false} MarkKeeps(cfg: Config, s: State, j: nat)
    requires Unique(cfg, s) && j < |s.jobs| && s.jobs[j].phase == Marking
    ensures Unique(cfg, StepMark(s, j))
  {
    var s' := StepMark(s, j);
    forall q | Clean(cfg, s', q) ensures Clean(cfg, s, q) && q != s.jobs[j].block.key {
      forall i | 0 <= i < |s.jobs| && s.jobs[i].block.key == q ensures Stamped(cfg.codec, s.jobs[i].block) {
        assert s'.jobs[i].block == s.jobs[i].block;
      }
    }
    Dirtied(cfg, s, s');
  }

  lemma {:induction false} ReplicateKeeps(cfg: Config, s: State, ssc: Consensus)
    requires Unique(cfg, s)
    ensures Unique(cfg, StepReplicate(s, ssc))
  {
  }

  lemma {:induction false} ReceiveKeeps(cfg: Config, s: State, block: Block)
    requires Unique(cfg, s)
    ensures Unique(cfg, Apply(cfg, s, Receive(block)))
  {
    var s' := Apply(cfg, s, Receive(block));
    forall q | Clean(cfg, s', q) ensures Clean(cfg, s, q) {
      forall i | 0 <= i < |s.jobs| && s.jobs[i].block.key == q ensures Stamped(cfg.codec, s.jobs[i].block) {
        assert s'.jobs[i] == s.jobs[i];
      }
    }
    Dirtied(cfg, s, s');
  }

  lemma {:induction false} ReuseKeeps(cfg: Config, s: State, j: nat, sig: Data, ext: Option<Data>, stamp: int)
    requires Unique(cfg, s) && j < |s.jobs| && s.jobs[j].phase == Reusing(sig, ext, stamp)
    ensures Unique(cfg, StepReuse(cfg, s, j, sig, ext, stamp))
  {
    var b := s.jobs[j].block;
    assert Clean(cfg, s, b.key) ==> JobMine(cfg, s, j);
    match VerifySignPayload(cfg.codec, cfg.chainID, b.signBytes, b.extBytes)
    case Err(_) => Move(cfg, s, j, Finished);
    case Ok((_, hasExtension)) =>
      if !hasExtension {
        RespondKeeps(cfg, s, j, sig, None, stamp);
      } else if ext.Some? && cfg.verify(b.extBytes, ext.value) {
        RespondKeeps(cfg, s, j, sig, ext, stamp);
      } else {
        Move(cfg, s, j, if b.key.height == s.last.latest.key.height then Resigning(sig, stamp) else Finished);
      }
  }

  lemma {:induction false} ResignKeeps(cfg: Config, s: State, j: nat, sig: Data, stamp: int, ext: Option<Data>)
    requires Unique(cfg, s) && j < |s.jobs| && s.jobs[j].phase == Resigning(sig, stamp)
    ensures Unique(cfg, StepResign(cfg, s, j, sig, stamp, ext))
  {
    assert Clean(cfg, s, s.jobs[j].block.key) ==> JobMine(cfg, s, j);
    if ext.Some? && cfg.verify(s.jobs[j].block.extBytes, ext.value) {
      RespondKeeps(cfg, s, j, sig, ext, stamp);
    } else {
      Move(cfg, s, j, Finished);
    }
  }

  /** An attempt that moves on is still the same attempt. */
  lemma {:induction false} AttemptMoves(cfg: Config, s: State, j: nat, p: Phase)
    requires Unique(cfg, s) && j < |s.jobs| && UnderWay(s.jobs[j].phase) && UnderWay(p)
    ensures Unique(cfg, SetPhase(s, j, p))
  {
    assert Clean(cfg, s, s.jobs[j].block.key) ==> JobMine(cfg, s, j);
    Move(cfg, s, j, p);
  }

  lemma {:induction false} AdvanceKeeps(cfg: Config, s: State, j: nat)
    requires Unique(cfg, s) && j < |s.jobs|
    ensures Unique(cfg, StepAdvance(cfg, s, j))
  {
    match s.jobs[j].phase
    case Starting => StartKeeps(cfg, s, j);
    case Checking(same) => CheckKeeps(cfg, s, j, same);
    case Waiting(tries) => WaitKeeps(cfg, s, j, tries);
    case Saving(sig, ext) => SaveKeeps(cfg, s, j, sig, ext);
    case Marking => MarkKeeps(cfg, s, j);
    case Reusing(sig, ext, stamp) => ReuseKeeps(cfg, s, j, sig, ext, stamp);
    case _ =>
  }

  lemma {:induction false} ApplyKeeps(cfg: Config, s: State, e: Event)
    requires Unique(cfg, s)
    ensures Unique(cfg, Apply(cfg, s, e))
  {
    match e
    case Receive(block) => ReceiveKeeps(cfg, s, block);
    case Advance(j) => if j < |s.jobs| { AdvanceKeeps(cfg, s, j); }
    case Outcome(j, sig, ext) =>
      if j < |s.jobs| {
        match s.jobs[j].phase
        case Attempting(hasExtension) =>
          AttemptMoves(cfg, s, j, StepOutcome(cfg, s, j, hasExtension, sig, ext).jobs[j].phase);
        case Resigning(old_, stamp) => ResignKeeps(cfg, s, j, old_, stamp, ext);
        case _ =>
      }
    case Fail(j) =>
      if j < |s.jobs| {
        if s.jobs[j].phase.Attempting? {
          AttemptMoves(cfg, s, j, Marking);
        } else if s.jobs[j].phase.Resigning? {
          Move(cfg, s, j, Finished);
        }
      }
    case Replicate(ssc) => ReplicateKeeps(cfg, s, ssc);
  }

  lemma {:induction false} RunIsUnique(cfg: Config, w: Watermark, events: seq<Event>)
    ensures Unique(cfg, RunLeader(cfg, w, events))
  {
    if |events| > 0 {
      RunIsUnique(cfg, w, events[..|events| - 1]);
      ApplyKeeps(cfg, RunLeader(cfg, w, events[..|events| - 1]), events[|events| - 1]);
    }
  }

  /**
   In any run, at a key with no failure marker, nothing saved from elsewhere and stamped
   requests: at most one request starts a signing attempt, and all answers carry the same
   signature and the same timestamp.
   */
  lemma {:induction false} OneSignature(cfg: Config, w: Watermark, events: seq<Event>, k: HRSKey)
    requires Clean(cfg, RunLeader(cfg, w, events), k)
    ensures var s := RunLeader(cfg, w, events);
      && (forall i, j :: 0 <= i < j < |s.attempts| ==> s.attempts[i].key != k || s.attempts[j].key != k)
      && (forall a, b :: a in s.answers && b in s.answers && a.block.key == k && b.block.key == k ==>
            a.signature == b.signature && a.stamp == b.stamp)
  {
    RunIsUnique(cfg, w, events);
  }
}

/**
 After a restart (signer/threshold_validator.go LoadSignStateIfNecessary): nothing at or behind the
 state that was loaded is ever signed anew by this leader.
 */
module LeaderRestart {
  import opened Wrappers
  import opened Hrs
  import opened Payload
  import opened SigningState
  import opened LeaderSteps

  /** What is on disk carries a signature: results are saved, markers are not. */
  ghost predicate AllSigned(w: Watermark) {
    forall k :: k in w.cache ==> w.cache[k].signature.Some?
  }

  /** Everything that is attempted, and everything cached without a signature, lies beyond the floor. */
  ghost predicate Beyond(floor: HRSKey, s: State) {
    && !floor.GreaterThan(s.initiated)
    && (forall k :: k in s.last.cache && s.last.cache[k].signature.None? ==> k.GreaterThan(floor))
    && (forall i :: 0 <= i < |s.attempts| ==> s.attempts[i].key.GreaterThan(floor))
    && (forall j :: 0 <= j < |s.jobs| && UnderWay(s.jobs[j].phase) ==> s.jobs[j].block.key.GreaterThan(floor))
    && !floor.GreaterThan(s.last.latest.key)
  }

  lemma {:induction false} BeginKeeps(cfg: Config, floor: HRSKey, s: State, s': State, j: nat)
    requires Beyond(floor, s) && j < |s.jobs| && s.jobs[j].block.key.GreaterThan(floor)
    requires s'.jobs == s.jobs && s'.attempts == s.attempts && s'.last == s.last && !floor.GreaterThan(s'.initiated)
    ensures Beyond(floor, Begin(cfg, s', j))
  {
  }

  lemma {:induction false} MoveKeeps(floor: HRSKey, s: State, j: nat, p: Phase)
    requires Beyond(floor, s) && j < |s.jobs| && (UnderWay(p) ==> UnderWay(s.jobs[j].phase))
    ensures Beyond(floor, SetPhase(s, j, p))
  {
  }

  lemma {:induction false} RespondKeeps(floor: HRSKey, s: State, j: nat, sig: Data, ext: Option<Data>, stamp: int)
    requires Beyond(floor, s) && j < |s.jobs|
    ensures Beyond(floor, Respond(s, j, sig, ext, stamp))
  {
  }

  lemma {:induction false} StartKeeps(cfg: Config, floor: HRSKey, s: State, j: nat)
    requires Beyond(floor, s) && j < |s.jobs| && s.jobs[j].phase == Starting
    ensures Beyond(floor, StepStart(cfg, s, j))
  {
    var k := s.jobs[j].block.key;
    TotalOrder(k, s.initiated, floor);
    TotalOrder(floor, k, floor);
    match Rejection(s.initiated, k)
    case None => BeginKeeps(cfg, floor, s, s.(initiated := k), j);
    case Some(e) => MoveKeeps(floor, s, j, Checking(e == SameHRS));
  }

  /** A signature that is found is reused; an entry without one lies beyond the floor. */
  lemma {:induction false} UseKeeps(cfg: Config, floor: HRSKey, s: State, j: nat)
    requires Beyond(floor, s) && j < |s.jobs| && s.jobs[j].block.key in s.last.cache
    requires CompareSSC(cfg.codec, s.jobs[j].block, s.last.cache[s.jobs[j].block.key]).Found?
    ensures Beyond(floor, Use(cfg, s, j, CompareSSC(cfg.codec, s.jobs[j].block, s.last.cache[s.jobs[j].block.key])))
  {
    var c := CompareSSC(cfg.codec, s.jobs[j].block, s.last.cache[s.jobs[j].block.key]);
    if c.signature.Some? {
      MoveKeeps(floor, s, j, Reusing(c.signature.value, c.extSignature, c.stamp));
    } else {
      BeginKeeps(cfg, floor, s, s, j);
    }
  }

  lemma {:induction false} LookKeeps(cfg: Config, floor: HRSKey, s: State, j: nat)
    requires Beyond(floor, s) && j < |s.jobs| && (s.jobs[j].phase.Checking? || s.jobs[j].phase.Waiting?)
    ensures Beyond(floor, StepAdvance(cfg, s, j))
  {
    var b := s.jobs[j].block;
    var s' := StepAdvance(cfg, s, j);
    if b.key in s.last.cache && CompareSSC(cfg.codec, b, s.last.cache[b.key]).Found? {
      UseKeeps(cfg, floor, s, j);
      MoveKeeps(floor, s, j, Finished);
    } else {
      MoveKeeps(floor, s, j, s'.jobs[j].phase);
    }
  }

  lemma {:induction false} SavedKeeps(floor: HRSKey, w: Watermark, ssc: Consensus)
    requires forall k :: k in w.cache && w.cache[k].signature.None? ==> k.GreaterThan(floor)
    requires !floor.GreaterThan(w.latest.key) && Rejection(w.latest.key, ssc.key).None?
    ensures forall k :: k in Saved(w, ssc).cache && Saved(w, ssc).cache[k].signature.None? ==> k.GreaterThan(floor)
    ensures !floor.GreaterThan(Saved(w, ssc).latest.key)
  {
    TotalOrder(ssc.key, w.latest.key, floor);
    TotalOrder(floor, ssc.key, floor);
  }

  lemma {:induction false} SaveKeeps(floor: HRSKey, s: State, j: nat, sig: Data, ext: Option<Data>)
    requires Beyond(floor, s) && j < |s.jobs| && s.jobs[j].phase == Saving(sig, ext)
    ensures Beyond(floor, StepSave(s, j, sig, ext))
  {
    var b := s.jobs[j].block;
    var ssc := Consensus(b.key, Some(sig), ext, Some(b.signBytes));
    match Rejection(s.last.latest.key, b.key)
    case None =>
      SavedKeeps(floor, s.last, ssc);
      RespondKeeps(floor, s.(last := Saved(s.last, ssc), made := s.made[b.key := ssc]), j, sig, ext, b.timestamp);
    case Some(SameHRS) => RespondKeeps(floor, s, j, sig, ext, b.timestamp);
    case Some(Regression) => MoveKeeps(floor, s, j, Marking);
  }

  lemma {:induction false} AdvanceKeeps(cfg: Config, floor: HRSKey, s: State, j: nat)
    requires Beyond(floor, s) && j < |s.jobs|
    ensures Beyond(floor, StepAdvance(cfg, s, j))
  {
    match s.jobs[j].phase
    case Starting => StartKeeps(cfg, floor, s, j);
    case Checking(_) => LookKeeps(cfg, floor, s, j);
    case Waiting(_) => LookKeeps(cfg, floor, s, j);
    case Saving(sig, ext) => SaveKeeps(floor, s, j, sig, ext);
    case Marking =>
    case Reusing(sig, ext, stamp) =>
      RespondKeeps(floor, s, j, sig, None, stamp);
      RespondKeeps(floor, s, j, sig, ext, stamp);
      MoveKeeps(floor, s, j, Resigning(sig, stamp));
      MoveKeeps(floor, s, j, Finished);
    case _ =>
  }

  lemma {:induction false} ApplyKeeps(cfg: Config, floor: HRSKey, s: State, e: Event)
    requires Beyond(floor, s)
    ensures Beyond(floor, Apply(cfg, s, e))
  {
    match e
    case Receive(_) =>
    case Advance(j) => if j < |s.jobs| { AdvanceKeeps(cfg, floor, s, j); }
    case Outcome(j, sig, ext) =>
      if j < |s.jobs| {
        match s.jobs[j].phase
        case Attempting(hasExtension) => MoveKeeps(floor, s, j, StepOutcome(cfg, s, j, hasExtension, sig, ext).jobs[j].phase);
        case Resigning(old_, stamp) =>
          RespondKeeps(floor, s, j, old_, ext, stamp);
          MoveKeeps(floor, s, j, Finished);
        case _ =>
      }
    case Fail(j) =>
      if j < |s.jobs| {
        if s.jobs[j].phase.Attempting? {
          MoveKeeps(floor, s, j, Marking);
        } else if s.jobs[j].phase.Resigning? {
          MoveKeeps(floor, s, j, Finished);
        }
      }
    case Replicate(ssc) =>
      if Rejection(s.last.latest.key, ssc.key).None? {
        ReplicateKeeps(floor, s, ssc);
      }
  }

  lemma {:induction false} ReplicateKeeps(floor: HRSKey, s: State, ssc: Consensus)
    requires Beyond(floor, s) && Rejection(s.last.latest.key, ssc.key).None?
    ensures Beyond(floor, StepReplicate(s, ssc))
  {
    SavedKeeps(floor, s.last, ssc);
  }

  lemma {:induction false} RunStaysBeyond(cfg: Config, w: Watermark, events: seq<Event>)
    requires AllSigned(w)
    ensures Beyond(w.latest.key, RunLeader(cfg, w, events))
  {
    if |events| == 0 {
      TotalOrder(w.latest.key, w.latest.key, w.latest.key);
    } else {
      RunStaysBeyond(cfg, w, events[..|events| - 1]);
      ApplyKeeps(cfg, w.latest.key, RunLeader(cfg, w, events[..|events| - 1]), events[|events| - 1]);
    }
  }

  /** In every run, all signing attempts are for keys beyond the watermark that was loaded. */
  lemma {:induction false} NothingLoadedIsSignedAgain(cfg: Config, w: Watermark, events: seq<Event>, i: nat)
    requires AllSigned(w) && i < |RunLeader(cfg, w, events).attempts|
    ensures RunLeader(cfg, w, events).attempts[i].key.GreaterThan(w.latest.key)
  {
    RunStaysBeyond(cfg, w, events);
  }
}

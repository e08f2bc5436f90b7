/**
 What a failure marker does to the leader's promise: a second attempt at a key needs an entry
 without a signature there, and one marker is enough for two different signatures.
 */
module LeaderRetries {
  import opened Wrappers
  import opened Hrs
  import opened Payload
  import opened SigningState
  import opened LeaderSteps
  import opened LeaderUniqueness

  ghost predicate AttemptedAt(s: State, k: HRSKey) {
    exists i :: 0 <= i < |s.attempts| && s.attempts[i].key == k
  }

  /** The cache holds an entry without a signature under the key. */
  predicate Unsigned(s: State, k: HRSKey) {
    k in s.last.cache && s.last.cache[k].signature.None?
  }

  lemma {:induction false} UnsignedIsDirty(cfg: Config, s: State, k: HRSKey)
    requires Unique(cfg, s) && Unsigned(s, k)
    ensures !Clean(cfg, s, k)
  {
  }

  lemma {:induction false} UseNeedsUnsigned(cfg: Config, s: State, j: nat)
    requires Unique(cfg, s) && j < |s.jobs| && s.jobs[j].block.key in s.last.cache
    requires CompareSSC(cfg.codec, s.jobs[j].block, s.last.cache[s.jobs[j].block.key]).Found?
    ensures var s' := Use(cfg, s, j, CompareSSC(cfg.codec, s.jobs[j].block, s.last.cache[s.jobs[j].block.key]));
      s'.attempts == s.attempts || (s'.attempts == s.attempts + [Attempt(j, s.jobs[j].block.key)] && Unsigned(s, s.jobs[j].block.key))
  {
  }

  /** A first step attempts a key only if nobody did before; the later ones only over an unsigned entry. */
  lemma {:induction false} AdvanceAttempts(cfg: Config, s: State, j: nat)
    requires Unique(cfg, s) && j < |s.jobs|
    ensures var s', k := StepAdvance(cfg, s, j), s.jobs[j].block.key;
      s'.attempts == s.attempts
      || (s'.attempts == s.attempts + [Attempt(j, k)] && (Unsigned(s, k) || !AttemptedAt(s, k)))
  {
    var b := s.jobs[j].block;
    match s.jobs[j].phase
    case Starting => TotalOrder(b.key, s.initiated, b.key);
    case Checking(same) =>
      if Existing(cfg.codec, s.last, b).Found? {
        UseNeedsUnsigned(cfg, s, j);
      }
    case Waiting(tries) =>
      if tries < cfg.maxWait && b.key in s.last.cache && CompareSSC(cfg.codec, b, s.last.cache[b.key]).Found? {
        UseNeedsUnsigned(cfg, s, j);
      }
    case _ =>
  }

  /**
   In every run, an attempt that begins at a key where there was one before finds an entry
   without a signature under it: a failure marker, or something saved from elsewhere, unless
   somebody asked with a timestamp that is not that of the bytes.
   */
  lemma {:induction false} SecondAttempt(cfg: Config, w: Watermark, events: seq<Event>, e: Event, k: HRSKey, i: nat)
    requires var s := RunLeader(cfg, w, events);
      && AttemptedAt(s, k) && |s.attempts| <= i < |Apply(cfg, s, e).attempts| && Apply(cfg, s, e).attempts[i].key == k
    ensures var s := RunLeader(cfg, w, events); Unsigned(s, k) && !Clean(cfg, s, k)
  {
    RunIsUnique(cfg, w, events);
    var s := RunLeader(cfg, w, events);
    match e {
      case Advance(j) => if j < |s.jobs| { AdvanceAttempts(cfg, s, j); }
      case _ =>
    }
    UnsignedIsDirty(cfg, s, k);
  }

  // ---------------------------------------------------------------- one marker is enough

  /** A vote or proposal without an extension that can be signed after w. */
  ghost predicate Signable(cfg: Config, w: Watermark, b: Block) {
    && b.extBytes == [] && VerifySignPayload(cfg.codec, cfg.chainID, b.signBytes, b.extBytes).Ok?
    && StampOf(cfg.codec, b.key.step, b.signBytes).Some?
    && b.key.GreaterThan(w.latest.key)
  }

  /** Nothing but the marker was ever saved, and requests for b are in these phases. */
  ghost predicate Marked(cfg: Config, w: Watermark, s: State, b: Block, phases: seq<Phase>) {
    && s.initiated == b.key && s.last.latest == w.latest
    && b.key in s.last.cache && s.last.cache[b.key] == Consensus(b.key, None, None, Some(b.signBytes))
    && s.answers == [] && s.foreign == Loaded(w).foreign
    && |s.jobs| == |phases| && forall j :: 0 <= j < |phases| ==> s.jobs[j] == Job(b, phases[j])
  }

  lemma {:induction false} NoExtension(cfg: Config, b: Block)
    requires b.extBytes == [] && VerifySignPayload(cfg.codec, cfg.chainID, b.signBytes, b.extBytes).Ok?
    ensures !VerifySignPayload(cfg.codec, cfg.chainID, b.signBytes, b.extBytes).value.1
  {
  }

  /** The first request begins and fails. */
  lemma {:induction false} FirstFails(cfg: Config, w: Watermark, b: Block) returns (events: seq<Event>)
    requires Signable(cfg, w, b)
    ensures Marked(cfg, w, RunLeader(cfg, w, events), b, [Finished])
  {
    TotalOrder(b.key, w.latest.key, b.key);
    NoExtension(cfg, b);
    events := Extend(cfg, w, [], Receive(b));
    events := Extend(cfg, w, events, Advance(0));
    assert RunLeader(cfg, w, events).jobs == [Job(b, Attempting(false))];
    events := Extend(cfg, w, events, Fail(0));
    assert RunLeader(cfg, w, events).jobs == [Job(b, Marking)];
    events := Extend(cfg, w, events, Advance(0));
  }

  lemma {:induction false} Arrives(cfg: Config, w: Watermark, s: State, b: Block, phases: seq<Phase>)
    requires Marked(cfg, w, s, b, phases)
    ensures Marked(cfg, w, Apply(cfg, s, Receive(b)), b, phases + [Starting])
  {
  }

  lemma {:induction false} Compares(cfg: Config, w: Watermark, s: State, b: Block, phases: seq<Phase>, j: nat)
    requires Marked(cfg, w, s, b, phases) && j < |phases| && phases[j] == Starting
    ensures Marked(cfg, w, Apply(cfg, s, Advance(j)), b, phases[j := Checking(true)])
  {
    TotalOrder(b.key, b.key, b.key);
  }

  lemma {:induction false} TriesAgain(cfg: Config, w: Watermark, s: State, b: Block, phases: seq<Phase>, j: nat)
    requires Signable(cfg, w, b) && Marked(cfg, w, s, b, phases) && j < |phases| && phases[j] == Checking(true)
    ensures Marked(cfg, w, Apply(cfg, s, Advance(j)), b, phases[j := Attempting(false)])
  {
    NoExtension(cfg, b);
  }

  lemma {:induction false} Succeeds(cfg: Config, w: Watermark, s: State, b: Block, phases: seq<Phase>, j: nat, sig: Data)
    requires Marked(cfg, w, s, b, phases) && j < |phases| && phases[j] == Attempting(false) && cfg.verify(b.signBytes, sig)
    ensures Marked(cfg, w, Apply(cfg, s, Outcome(j, sig, None)), b, phases[j := Saving(sig, None)])
  {
  }

  /** One more request that begins an attempt over the marker and succeeds. */
  lemma {:induction false} AnotherAttempt(cfg: Config, w: Watermark, b: Block, events: seq<Event>, phases: seq<Phase>, sig: Data)
    returns (more: seq<Event>)
    requires Signable(cfg, w, b) && Marked(cfg, w, RunLeader(cfg, w, events), b, phases) && cfg.verify(b.signBytes, sig)
    ensures Marked(cfg, w, RunLeader(cfg, w, more), b, phases + [Saving(sig, None)])
  {
    var j := |phases|;
    var ps := phases + [Starting];
    Arrives(cfg, w, RunLeader(cfg, w, events), b, phases);
    more := Extend(cfg, w, events, Receive(b));
    Compares(cfg, w, RunLeader(cfg, w, more), b, ps, j);
    more := Extend(cfg, w, more, Advance(j));
    TriesAgain(cfg, w, RunLeader(cfg, w, more), b, ps[j := Checking(true)], j);
    more := Extend(cfg, w, more, Advance(j));
    assert ps[j := Checking(true)][j := Attempting(false)] == ps[j := Attempting(false)];
    Succeeds(cfg, w, RunLeader(cfg, w, more), b, ps[j := Attempting(false)], j, sig);
    more := Extend(cfg, w, more, Outcome(j, sig, None));
    assert ps[j := Attempting(false)][j := Saving(sig, None)] == phases + [Saving(sig, None)];
  }

  /** Both save: the first moves the watermark, the second finds its own key there and answers all the same. */
  lemma {:induction false} BothAnswer(cfg: Config, w: Watermark, s: State, b: Block, x: Data, y: Data)
    requires Signable(cfg, w, b) && Marked(cfg, w, s, b, [Finished, Saving(x, None), Saving(y, None)])
    ensures Apply(cfg, Apply(cfg, s, Advance(1)), Advance(2)).answers
         == [Answer(b, x, None, b.timestamp), Answer(b, y, None, b.timestamp)]
    ensures Apply(cfg, Apply(cfg, s, Advance(1)), Advance(2)).foreign == s.foreign
  {
    TotalOrder(b.key, w.latest.key, b.key);
    TotalOrder(b.key, b.key, b.key);
    var s1 := Apply(cfg, s, Advance(1));
    assert s1.last.latest.key == b.key && s1.jobs[2] == Job(b, Saving(y, None));
  }

  /**
   A failed first attempt, and two more requests for the same block: whatever two signatures the
   cosigners come up with, both are answers for one height, round and step.
   */
  lemma {:induction false} MarkerAllowsTwoSignatures(cfg: Config, w: Watermark, b: Block, x: Data, y: Data)
    returns (events: seq<Event>)
    requires Signable(cfg, w, b) && b.key !in w.cache && cfg.verify(b.signBytes, x) && cfg.verify(b.signBytes, y)
    ensures var s := RunLeader(cfg, w, events);
      && s.answers == [Answer(b, x, None, b.timestamp), Answer(b, y, None, b.timestamp)]
      && b.key !in s.foreign
  {
    TotalOrder(b.key, w.latest.key, b.key);
    events := FirstFails(cfg, w, b);
    events := AnotherAttempt(cfg, w, b, events, [Finished], x);
    events := AnotherAttempt(cfg, w, b, events, [Finished] + [Saving(x, None)], y);
    assert [Finished] + [Saving(x, None)] + [Saving(y, None)] == [Finished, Saving(x, None), Saving(y, None)];
    BothAnswer(cfg, w, RunLeader(cfg, w, events), b, x, y);
    events := Extend(cfg, w, events, Advance(1));
    events := Extend(cfg, w, events, Advance(2));
  }
}

/**
 Proposals at one height and round: the leader compares votes with what it has cached, but hands
 out a cached proposal's signature whatever proposal is asked for.
 */
module LeaderProposals {
  import opened Wrappers
  import opened Hrs
  import opened Payload
  import opened SigningState
  import opened LeaderSteps

  /** A block that asks for a proposal of its own height and round. */
  predicate Proposes(codec: Codec, b: Block) {
    && b.key.step == STEP_PROPOSE && b.extBytes == []
    && KeyOf(codec, b.signBytes) == Some(b.key) && Stamped(codec, b)
  }

  /**
   A reused signature goes out with the cached proposal's timestamp, and covers the proposal that
   was asked for, restamped, if and only if the two are the same message up to the timestamp.
   */
  lemma {:induction false} ReusedProposal(codec: Codec, b: Block, entry: Consensus)
    requires b.key.step == STEP_PROPOSE && codec.proposal(b.signBytes).Some? && CompareSSC(codec, b, entry).Found?
    ensures var f := CompareSSC(codec, b, entry);
      && f.signature == entry.signature && StampOf(codec, STEP_PROPOSE, BytesOf(entry.signBytes)) == Some(f.stamp)
      && (codec.proposal(BytesOf(entry.signBytes)) == Some(codec.proposal(b.signBytes).value.(timestamp := f.stamp))
          <==> Same(codec, STEP_PROPOSE, BytesOf(entry.signBytes), b.signBytes))
  {
    var old_, new_ := codec.proposal(BytesOf(entry.signBytes)).value, codec.proposal(b.signBytes).value;
    assert old_ == new_.(timestamp := old_.timestamp) <==> old_.(timestamp := 0) == new_.(timestamp := 0);
  }

  // ---------------------------------------------------------------- two proposals

  lemma {:induction false} PayloadOf(cfg: Config, b: Block)
    requires Proposes(cfg.codec, b)
    ensures VerifySignPayload(cfg.codec, cfg.chainID, b.signBytes, b.extBytes).Ok?
    ensures !VerifySignPayload(cfg.codec, cfg.chainID, b.signBytes, b.extBytes).value.1
  {
    PayloadRefused(cfg.codec, cfg.chainID, b.signBytes, b.extBytes);
  }

  /** The first proposal was signed and is on record; the second one is in this phase. */
  ghost predicate Served(cfg: Config, s: State, a: Block, b: Block, sig: Data, phase: Phase) {
    && s.initiated == a.key && s.last.latest.key == a.key
    && a.key in s.last.cache && s.last.cache[a.key] == Consensus(a.key, Some(sig), None, Some(a.signBytes))
    && s.answers == [Answer(a, sig, None, a.timestamp)] && |s.jobs| == 2 && s.jobs[1] == Job(b, phase)
  }

  /** The key can be signed after w, and saving it does not run into the wrap-around of the pruning bound. */
  ghost predicate Fresh(w: Watermark, key: HRSKey) {
    key.GreaterThan(w.latest.key) && !WrapsAround(key.height)
  }

  lemma {:induction false} FirstServed(cfg: Config, w: Watermark, a: Block, b: Block, sig: Data) returns (events: seq<Event>)
    requires Proposes(cfg.codec, a) && Fresh(w, a.key) && cfg.verify(a.signBytes, sig)
    ensures Served(cfg, RunLeader(cfg, w, events), a, b, sig, Starting)
  {
    TotalOrder(a.key, w.latest.key, a.key);
    PayloadOf(cfg, a);
    events := Extend(cfg, w, [], Receive(a));
    events := Extend(cfg, w, events, Advance(0));
    assert RunLeader(cfg, w, events).jobs == [Job(a, Attempting(false))];
    events := Extend(cfg, w, events, Outcome(0, sig, None));
    assert RunLeader(cfg, w, events).jobs == [Job(a, Saving(sig, None))];
    events := Extend(cfg, w, events, Advance(0));
    events := Extend(cfg, w, events, Receive(b));
  }

  lemma {:induction false} Compared2(cfg: Config, s: State, a: Block, b: Block, sig: Data)
    requires Served(cfg, s, a, b, sig, Starting) && b.key == a.key
    ensures Served(cfg, Apply(cfg, s, Advance(1)), a, b, sig, Checking(true))
  {
    TotalOrder(a.key, a.key, a.key);
  }

  lemma {:induction false} Reused(cfg: Config, s: State, a: Block, b: Block, sig: Data)
    requires Proposes(cfg.codec, a) && Proposes(cfg.codec, b)
    requires Served(cfg, s, a, b, sig, Checking(true)) && b.key == a.key
    ensures Served(cfg, Apply(cfg, s, Advance(1)), a, b, sig, Reusing(sig, None, a.timestamp))
  {
  }

  /** Two different proposals for one height and round: the second is answered with the signature of the first. */
  lemma {:induction false} SecondProposalReuses(cfg: Config, w: Watermark, a: Block, b: Block, sig: Data) returns (events: seq<Event>)
    requires Proposes(cfg.codec, a) && Proposes(cfg.codec, b) && a.key == b.key && Fresh(w, a.key)
    requires cfg.verify(a.signBytes, sig)
    ensures RunLeader(cfg, w, events).answers == [Answer(a, sig, None, a.timestamp), Answer(b, sig, None, a.timestamp)]
  {
    events := FirstServed(cfg, w, a, b, sig);
    Compared2(cfg, RunLeader(cfg, w, events), a, b, sig);
    events := Extend(cfg, w, events, Advance(1));
    Reused(cfg, RunLeader(cfg, w, events), a, b, sig);
    events := Extend(cfg, w, events, Advance(1));
    PayloadOf(cfg, b);
    events := Extend(cfg, w, events, Advance(1));
  }
}

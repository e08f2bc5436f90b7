/**
 One request on a cosigner, run on its objects (signer/local_cosigner.go sign): every critical
 section it passes through is one step of the step system, in which other requests may come
 in between.
 */
module LocalCosigner {
  import opened Wrappers
  import opened Hrs
  import opened Payload
  import opened SigningState
  import NonceStore
  import opened CosignerSteps
  import CosignerSafety
  import ThresholdSigner

  datatype Response = Response(signature: Data, extSignature: Option<Data>)

  datatype SignError = Gated(gate: GateError) | NoNonces | Regressed

  /** One step of the only request. */
  ghost predicate StepsTo(cfg: Config, s: State, s': State) {
    cfg.myID >= 1 && |s.jobs| == 1 && Ready(s, 0) && s' == StepJob(cfg, s, 0)
  }

  /** The states the request goes through, one step at a time. */
  ghost predicate Trace(cfg: Config, t: seq<State>, from: State, to: State) {
    && |t| >= 1 && t[0] == from && t[|t| - 1] == to
    && forall k :: 0 <= k < |t| - 1 ==> StepsTo(cfg, t[k], t[k + 1])
  }

  lemma {:induction false} Longer(cfg: Config, t: seq<State>, from: State, mid: State, to: State)
    requires Trace(cfg, t, from, mid) && StepsTo(cfg, mid, to)
    ensures Trace(cfg, t + [to], from, to)
  {
  }

  /** The step system's picture of the request's chain state and of the nonces is what the objects hold. */
  ghost predicate Mirrors(s: State, state: SignState, store: NonceStore.Store)
    reads state, store
  {
    Ready(s, 0) && ChainOf(s, 0).mark == state.View() && s.store == store.nonces
  }

  /** The state of the step system when this request is all there is. */
  ghost predicate At(s: State, q: Request, p: Phase) {
    |s.jobs| == 1 && Ready(s, 0) && s.jobs[0].request == q && s.jobs[0].phase == p
  }

  /** The request is over: it was answered with both shares, or nothing was released. */
  ghost predicate Over(s: State, s': State, q: Request, answered: bool)
    requires Ready(s, 0)
  {
    && At(s', q, Finished)
    && ChainOf(s', 0).released == ChainOf(s, 0).released + if answered then Shares(q, q.hasExtension) else []
  }

  /** The nonces stored under a UUID, if enough sources have filled them in. */
  function NoncesOf(cfg: Config, records: map<nat, NonceStore.Record>, uuid: nat): Option<seq<ThresholdSigner.Nonce>>
    requires cfg.myID >= 1
  {
    if uuid !in records then None
    else
      match NonceStore.Combined(records[uuid], cfg.myID, cfg.threshold)
      case Ok(ns) => Some(ns)
      case Err(_) => None
  }

  /** The share was made with the nonces stored under the UUID. */
  ghost predicate MadeFrom(cfg: Config, records: map<nat, NonceStore.Record>, uuid: nat, bytes: Data, share: Data)
    requires cfg.myID >= 1
  {
    NoncesOf(cfg, records, uuid).Some? && share == cfg.sign(NoncesOf(cfg, records, uuid).value, bytes)
  }

  /** The extension of a request that has one is signed with the nonces of its own UUID. */
  ghost predicate ExtensionMade(cfg: Config, records: map<nat, NonceStore.Record>, q: Request, extShare: Option<Data>)
    requires cfg.myID >= 1
  {
    && (extShare.Some? <==> q.hasExtension)
    && (q.hasExtension ==> MadeFrom(cfg, records, q.extUuid, q.extBytes, extShare.value))
  }

  /** The passed-round fallback applies: exactly this vote is cached, at the current height. */
  predicate Cached(w: Watermark, q: Request) {
    && q.key in w.cache && w.cache[q.key].signature.Some? && q.key.height == w.latest.key.height
    && BytesOf(w.cache[q.key].signBytes) == q.signBytes
  }

  /** The gate turned the request away, and the fallback does not apply either. */
  predicate TurnedAway(codec: Codec, w: Watermark, q: Request) {
    var gate := Gate(codec, w.latest, q.key, q.signBytes);
    gate.Some? && !(q.hasExtension && gate.value != Panicked && Cached(w, q))
  }

  /** The gate lets the request in for this vote, fresh. */
  predicate LetIn(codec: Codec, w: Watermark, q: Request) {
    Gate(codec, w.latest, q.key, q.signBytes).None?
  }

  /** Every nonce set the request needs is there: the vote's, unless it is cached, and the extension's. */
  predicate NoncesReady(cfg: Config, w: Watermark, records: map<nat, NonceStore.Record>, q: Request)
    requires cfg.myID >= 1
  {
    && (LetIn(cfg.codec, w, q) ==> NoncesOf(cfg, records, q.uuid).Some?)
    && (q.hasExtension ==>
          NoncesOf(cfg, if LetIn(cfg.codec, w, q) then records - {q.uuid} else records, q.extUuid).Some?)
  }

  /** A save right behind a gate that was passed is never turned away. */
  lemma {:induction false} PassedIsSaved(codec: Codec, w: Watermark, q: Request)
    requires LetIn(codec, w, q)
    ensures Rejection(w.latest.key, q.key) != Some(Regression)
    ensures Rejection(w.latest.key, q.key).Some? ==> w.latest.key == q.key
  {
  }

  /** What an answer is made of: a fresh share of the vote, or the cached one behind the gate. */
  ghost predicate ResponseMade(cfg: Config, w: Watermark, records: map<nat, NonceStore.Record>, q: Request, r: Response)
    requires cfg.myID >= 1
  {
    && ExtensionMade(cfg, records, q, r.extSignature)
    && if Gate(cfg.codec, w.latest, q.key, q.signBytes).None? then MadeFrom(cfg, records, q.uuid, q.signBytes, r.signature)
       else Cached(w, q) && r.signature == w.cache[q.key].signature.value
  }

  lemma {:induction false} GateStepAt(cfg: Config, s: State, q: Request)
    requires cfg.myID >= 1 && At(s, q, Gating)
    ensures var s', gate := StepJob(cfg, s, 0), Gate(cfg.codec, ChainOf(s, 0).mark.latest, q.key, q.signBytes);
      && At(s', q, if gate.None? then TakingVote else if q.hasExtension && gate.value != Panicked then Looking else Finished)
      && s'.chains == s.chains && s'.store == s.store
  {
  }

  lemma {:induction false} LookStepAt(cfg: Config, s: State, q: Request)
    requires cfg.myID >= 1 && At(s, q, Looking)
    ensures var s', w := StepJob(cfg, s, 0), ChainOf(s, 0).mark;
      && At(s', q, if Cached(w, q) then TakingExtensionOnly(w.cache[q.key].signature.value) else Finished)
      && s'.chains == s.chains && s'.store == s.store
  {
  }

  lemma {:induction false} TakeVoteAt(cfg: Config, s: State, q: Request)
    requires cfg.myID >= 1 && At(s, q, TakingVote)
    ensures var s', (taken, h) := StepJob(cfg, s, 0), Take(cfg, s, 0, Vote, q.uuid);
      At(s', q, AfterVote(q, h)) && s'.chains == s.chains && s'.store == taken.store
  {
    CosignerSafety.TakeFrame(cfg, s, 0, Vote, q.uuid);
  }

  lemma {:induction false} TakeExtensionAt(cfg: Config, s: State, q: Request, v: Held)
    requires cfg.myID >= 1 && At(s, q, TakingExtension(v))
    ensures var s', (taken, h) := StepJob(cfg, s, 0), Take(cfg, s, 0, Extension, q.extUuid);
      At(s', q, AfterExtension(v, h)) && s'.chains == s.chains && s'.store == taken.store
  {
    CosignerSafety.TakeFrame(cfg, s, 0, Extension, q.extUuid);
  }

  lemma {:induction false} SignStepAt(cfg: Config, s: State, q: Request, v: Held, e: Option<Held>)
    requires cfg.myID >= 1 && At(s, q, Signing(v, e))
    ensures var s' := StepJob(cfg, s, 0);
      && At(s', q, Saving(cfg.sign(v.nonces, q.signBytes), if e.Some? then Some(cfg.sign(e.value.nonces, q.extBytes)) else None))
      && s'.chains == s.chains && s'.store == s.store
  {
  }

  lemma {:induction false} SaveStepAt(cfg: Config, s: State, q: Request, share: Data, extShare: Option<Data>)
    requires cfg.myID >= 1 && At(s, q, Saving(share, extShare))
    ensures var s', err := StepJob(cfg, s, 0), Rejection(ChainOf(s, 0).mark.latest.key, q.key);
      && At(s', q, if err.None? then Answering(share, extShare) else if err.value == SameHRS then Regating(share, extShare) else Finished)
      && ChainOf(s', 0).mark == AfterSave(ChainOf(s, 0).mark, Consensus(q.key, Some(share), extShare, Some(q.signBytes)))
      && ChainOf(s', 0).released == ChainOf(s, 0).released && s'.store == s.store
  {
  }

  lemma {:induction false} RegateStepAt(cfg: Config, s: State, q: Request, share: Data, extShare: Option<Data>)
    requires cfg.myID >= 1 && At(s, q, Regating(share, extShare))
    ensures var s' := StepJob(cfg, s, 0);
      && At(s', q, if Gate(cfg.codec, ChainOf(s, 0).mark.latest, q.key, q.signBytes).None? then Answering(share, extShare) else Finished)
      && ChainOf(s', 0) == ChainOf(s, 0) && s'.store == s.store
  {
  }

  lemma {:induction false} AnswerStepAt(cfg: Config, s: State, q: Request, share: Data, extShare: Option<Data>)
    requires cfg.myID >= 1 && At(s, q, Answering(share, extShare)) && (extShare.Some? <==> q.hasExtension)
    ensures var s' := StepJob(cfg, s, 0);
      && Over(s, s', q, true) && ChainOf(s', 0).mark == ChainOf(s, 0).mark && s'.store == s.store
  {
  }

  class Cosigner {
    const cfg: Config
    const state: SignState
    const store: NonceStore.Store

    constructor (cfg: Config, state: SignState, store: NonceStore.Store)
      ensures this.cfg == cfg && this.state == state && this.store == store
    {
      this.cfg, this.state, this.store := cfg, state, store;
    }

    ghost predicate Valid()
      reads this, state, store
    {
      store.Valid() && store.myID == cfg.myID && SigningState.Valid(state.View())
    }

    /** combinedNonces for one of the request's UUIDs is the step that takes it. */
    method TakeNonces(uuid: nat, ghost s: State, ghost kind: Kind)
      returns (held: Option<seq<ThresholdSigner.Nonce>>, ghost s': State)
      requires Valid() && Mirrors(s, state, store)
      modifies store
      ensures Valid() && s' == Take(cfg, s, 0, kind, uuid).0 && Mirrors(s', state, store)
      ensures s'.chains == s.chains && s'.jobs == s.jobs
      ensures held == NoncesOf(cfg, old(store.nonces), uuid) && store.nonces == old(store.nonces) - {uuid}
      ensures held.Some? <==> Take(cfg, s, 0, kind, uuid).1.Some?
      ensures held.Some? ==> held.value == Take(cfg, s, 0, kind, uuid).1.value.nonces && |held.value| >= cfg.threshold
    {
      var r := store.CombinedNonces(cfg.threshold, uuid);
      s' := Take(cfg, s, 0, kind, uuid).0;
      CosignerSafety.TakeFrame(cfg, s, 0, kind, uuid);
      assert uuid !in s.store ==> store.nonces == s.store;
      held := if r.Ok? then Some(r.value) else None;
    }

    /** Saving the shares, and the second look at the gate if somebody saved this key first. */
    method SaveAndAnswer(q: Request, share: Data, extShare: Option<Data>, ghost s0: State, ghost s: State, ghost t: seq<State>)
      returns (r: Result<Response, SignError>, ghost s': State, ghost t': seq<State>)
      requires Valid() && At(s, q, Saving(share, extShare)) && Mirrors(s, state, store)
      requires Trace(cfg, t, s0, s) && (extShare.Some? <==> q.hasExtension)
      modifies state
      ensures Valid() && Over(s, s', q, r.Ok?) && Mirrors(s', state, store) && Trace(cfg, t', s0, s')
      ensures r.Ok? ==> r.value == Response(share, extShare)
      ensures LetIn(cfg.codec, old(state.View()), q) ==> r.Ok?
    {
      if LetIn(cfg.codec, state.View(), q) {
        PassedIsSaved(cfg.codec, state.View(), q);
      }
      var err := state.Save(Consensus(q.key, Some(share), extShare, Some(q.signBytes)));
      SaveStepAt(cfg, s, q, share, extShare);
      s', t' := Advance1(s0, s, t);
      if err.Some? {
        if err.value != SameHRS {
          return Err(Regressed), s', t';
        }
        var checkErr := state.ErrorIfConflictOrRegression(cfg.codec, q.key, q.signBytes);
        RegateStepAt(cfg, s', q, share, extShare);
        s', t' := Advance1(s0, s', t');
        if checkErr.Some? {
          return Err(Gated(checkErr.value)), s', t';
        }
      }
      AnswerStepAt(cfg, s', q, share, extShare);
      s', t' := Advance1(s0, s', t');
      return Ok(Response(share, extShare)), s', t';
    }

    /** Signing with the nonces that were taken, and saving the shares. */
    method SignAndSave(q: Request, nonces: seq<ThresholdSigner.Nonce>, extNonces: Option<seq<ThresholdSigner.Nonce>>,
                       ghost v: Held, ghost e: Option<Held>, ghost s0: State, ghost s: State, ghost t: seq<State>)
      returns (r: Result<Response, SignError>, ghost s': State, ghost t': seq<State>)
      requires Valid() && At(s, q, Signing(v, e)) && Mirrors(s, state, store) && Trace(cfg, t, s0, s)
      requires v.nonces == nonces && (e.Some? <==> extNonces.Some?) && (e.Some? ==> e.value.nonces == extNonces.value)
      requires extNonces.Some? <==> q.hasExtension
      modifies state
      ensures Valid() && Over(s, s', q, r.Ok?) && Mirrors(s', state, store) && Trace(cfg, t', s0, s')
      ensures r.Ok? ==> r.value == Response(cfg.sign(nonces, q.signBytes),
        if extNonces.Some? then Some(cfg.sign(extNonces.value, q.extBytes)) else None)
      ensures LetIn(cfg.codec, old(state.View()), q) ==> r.Ok?
    {
      var sig := cfg.sign(nonces, q.signBytes);
      var extSig := if extNonces.Some? then Some(cfg.sign(extNonces.value, q.extBytes)) else None;
      SignStepAt(cfg, s, q, v, e);
      s', t' := Advance1(s0, s, t);
      r, s', t' := SaveAndAnswer(q, sig, extSig, s0, s', t');
    }

    /** A fresh vote: take the nonces, sign, save. */
    method SignFresh(q: Request, ghost s0: State, ghost s: State, ghost t: seq<State>)
      returns (r: Result<Response, SignError>, ghost s': State, ghost t': seq<State>)
      requires Valid() && At(s, q, TakingVote) && Mirrors(s, state, store) && Trace(cfg, t, s0, s)
      modifies state, store
      ensures Valid() && Over(s, s', q, r.Ok?) && Mirrors(s', state, store) && Trace(cfg, t', s0, s')
      ensures r.Ok? ==>
        && MadeFrom(cfg, old(store.nonces), q.uuid, q.signBytes, r.value.signature)
        && ExtensionMade(cfg, old(store.nonces), q, r.value.extSignature)
      ensures LetIn(cfg.codec, old(state.View()), q) ==>
        (r.Ok? <==> NoncesReady(cfg, old(state.View()), old(store.nonces), q))
    {
      ghost var taken;
      var nonces;
      nonces, taken := TakeNonces(q.uuid, s, Vote);
      TakeVoteAt(cfg, s, q);
      s', t' := Advance1(s0, s, t);
      if nonces.None? {
        return Err(NoNonces), s', t';
      }
      var extNonces := None;
      if q.hasExtension {
        ghost var before := s';
        extNonces, taken := TakeNonces(q.extUuid, before, Extension);
        TakeExtensionAt(cfg, before, q, before.jobs[0].phase.vote);
        s', t' := Advance1(s0, before, t');
        if extNonces.None? {
          return Err(NoNonces), s', t';
        }
      }
      ghost var p := s'.jobs[0].phase;
      r, s', t' := SignAndSave(q, nonces.value, extNonces, p.vote, p.extension, s0, s', t');
    }

    /** A vote that is cached already: only the extension is signed, and the cached share goes with it. */
    method SignExtension(q: Request, share: Data, ghost s0: State, ghost s: State, ghost t: seq<State>)
      returns (r: Result<Response, SignError>, ghost s': State, ghost t': seq<State>)
      requires Valid() && At(s, q, TakingExtensionOnly(share)) && Mirrors(s, state, store) && Trace(cfg, t, s0, s)
      requires q.hasExtension
      modifies store
      ensures Valid() && Over(s, s', q, r.Ok?) && Mirrors(s', state, store) && Trace(cfg, t', s0, s')
      ensures r.Ok? ==> r.value.signature == share && ExtensionMade(cfg, old(store.nonces), q, r.value.extSignature)
      ensures r.Ok? <==> NoncesOf(cfg, old(store.nonces), q.extUuid).Some?
    {
      ghost var taken;
      var nonces;
      nonces, taken := TakeNonces(q.extUuid, s, Extension);
      s', t' := Advance1(s0, s, t);
      if nonces.None? {
        return Err(NoNonces), s', t';
      }
      var extSig := cfg.sign(nonces.value, q.extBytes);
      s', t' := Advance1(s0, s', t');
      return Ok(Response(share, Some(extSig))), s', t';
    }

    /** The request from the gate to its answer. Whatever happens, its UUIDs are gone once the gate let it in. */
    method Sign(q: Request, ghost s: State)
      returns (r: Result<Response, SignError>, ghost s': State, ghost t: seq<State>)
      requires Valid() && At(s, q, Gating) && Mirrors(s, state, store)
      modifies state, store
      ensures Valid() && Over(s, s', q, r.Ok?) && Trace(cfg, t, s, s')
      ensures state.View() == ChainOf(s', 0).mark
      ensures TurnedAway(cfg.codec, old(state.View()), q) ==>
        r.Err? && r.error.Gated? && store.nonces == old(store.nonces) && state.View() == old(state.View())
      ensures !TurnedAway(cfg.codec, old(state.View()), q) ==> store.nonces == s'.store - {q.uuid, q.extUuid}
      ensures r.Ok? <==>
        !TurnedAway(cfg.codec, old(state.View()), q) && NoncesReady(cfg, old(state.View()), old(store.nonces), q)
      ensures r.Ok? ==> ResponseMade(cfg, old(state.View()), old(store.nonces), q, r.value)
    {
      var gate := state.ErrorIfConflictOrRegression(cfg.codec, q.key, q.signBytes);
      GateStepAt(cfg, s, q);
      s', t := Advance1(s, s, [s]);
      var existing: Option<Data> := None;
      if gate.Some? && q.hasExtension && gate.value != Panicked {
        var latest, cached := state.GetFromCache(q.key);
        LookStepAt(cfg, s', q);
        s', t := Advance1(s, s', t);
        if cached.Some? && cached.value.signature.Some? && q.key.height == latest.height
           && BytesOf(cached.value.signBytes) == q.signBytes {
          existing, gate := cached.value.signature, None;
        }
      }
      if gate.Some? {
        return Err(Gated(gate.value)), s', t;
      }
      if existing.Some? {
        r, s', t := SignExtension(q, existing.value, s, s', t);
      } else {
        r, s', t := SignFresh(q, s, s', t);
      }
      store.Forget({q.uuid, q.extUuid});
    }

    /** The next step of the picture. */
    ghost method Advance1(s0: State, s: State, t: seq<State>) returns (s': State, t': seq<State>)
      requires cfg.myID >= 1 && |s.jobs| == 1 && Ready(s, 0) && Trace(cfg, t, s0, s)
      ensures s' == StepJob(cfg, s, 0) && Trace(cfg, t', s0, s')
    {
      s' := StepJob(cfg, s, 0);
      Longer(cfg, t, s0, s, s');
      t' := t + [s'];
    }
  }
}

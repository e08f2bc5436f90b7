/**
 No nonce set is ever used twice: over any run of a cosigner, each generated set feeds at most
 one signing operation, and every operation draws on at least threshold distinct sources.
 */
module NonceSafety {
  import opened Wrappers
  import opened Payload
  import opened SigningState
  import opened NonceStore
  import opened CosignerSteps

  /** Phases after the job has used the nonces it took. */
  predicate PastSigning(p: Phase) {
    p.Saving? || p.Regating? || p.Answering? || p.Finished?
  }

  /** A held nonce set belongs to this job and draws on enough distinct slots. */
  ghost predicate Owned(cfg: Config, fates: map<nat, Fate>, j: nat, kind: Kind, h: Held) {
    && h.serial in fates && fates[h.serial] == TakenBy(j, kind)
    && Increasing(h.sources) && |h.sources| == |h.nonces| >= cfg.threshold
  }

  ghost predicate PhaseOwned(cfg: Config, fates: map<nat, Fate>, j: nat, p: Phase) {
    match p
    case TakingExtension(v) => Owned(cfg, fates, j, Vote, v)
    case Signing(v, e) => Owned(cfg, fates, j, Vote, v) && (e.Some? ==> Owned(cfg, fates, j, Extension, e.value))
    case SigningExtensionOnly(_, h) => Owned(cfg, fates, j, Extension, h)
    case _ => true
  }

  ghost predicate StoreOwned(s: State) {
    && (forall n :: n in s.fates ==> n < s.made)
    && (forall u :: u in s.store ==> s.store[u].serial in s.fates && s.fates[s.store[u].serial] == InStore(u))
  }

  ghost predicate JobsOwned(cfg: Config, s: State) {
    forall j :: 0 <= j < |s.jobs| ==> PhaseOwned(cfg, s.fates, j, s.jobs[j].phase)
  }

  ghost predicate OperationOwned(cfg: Config, s: State, o: Operation) {
    && o.serial in s.fates && s.fates[o.serial] == TakenBy(o.job, o.kind)
    && o.job < |s.jobs| && PastSigning(s.jobs[o.job].phase)
    && Increasing(o.sources) && |o.sources| >= cfg.threshold
  }

  ghost predicate OperationsOwned(cfg: Config, s: State) {
    && (forall i :: 0 <= i < |s.operations| ==> OperationOwned(cfg, s, s.operations[i]))
    && (forall i, k :: 0 <= i < k < |s.operations| ==> s.operations[i].serial != s.operations[k].serial)
  }

  ghost predicate NonceSafe(cfg: Config, s: State) {
    StoreOwned(s) && JobsOwned(cfg, s) && OperationsOwned(cfg, s)
  }

  /** Moving a job on without touching nonces: not back before signing, holding nothing new. */
  lemma {:induction false} MoveOn(cfg: Config, s: State, s': State, j: nat, p: Phase)
    requires NonceSafe(cfg, s) && j < |s.jobs|
    requires s'.store == s.store && s'.made == s.made && s'.fates == s.fates
    requires s'.jobs == s.jobs && s'.operations == s.operations
    requires PhaseOwned(cfg, s.fates, j, p) && (PastSigning(s.jobs[j].phase) ==> PastSigning(p))
    ensures NonceSafe(cfg, SetPhase(s', j, p))
  {
  }

  /** Taking a record: nobody else owned it, because it was still in the store. */
  lemma {:induction false} TakeOwns(cfg: Config, s: State, j: nat, kind: Kind, uuid: nat)
    requires NonceSafe(cfg, s) && cfg.myID >= 1
    ensures var (s', h) := Take(cfg, s, j, kind, uuid);
      && NonceSafe(cfg, s') && s'.jobs == s.jobs
      && (h.Some? ==> Owned(cfg, s'.fates, j, kind, h.value))
      && (forall n :: n in s.fates && s.fates[n].TakenBy? ==> n in s'.fates && s'.fates[n] == s.fates[n])
  {
    if uuid in s.store {
      var r := s.store[uuid];
      ContributionsPerSource(r.slots, cfg.myID, |r.slots|);
      var s' := Take(cfg, s, j, kind, uuid).0;
      assert s.fates[r.serial] == InStore(uuid);
      forall u | u in s'.store ensures s'.store[u].serial != r.serial {
        assert s.fates[s.store[u].serial] == InStore(u);
      }
      forall i | 0 <= i < |s.operations| ensures OperationOwned(cfg, s', s.operations[i]) {
        assert OperationOwned(cfg, s, s.operations[i]);
      }
    }
  }

  lemma {:induction false} TakeStepKeeps(cfg: Config, s: State, j: nat, kind: Kind, uuid: nat, p: Phase)
    requires NonceSafe(cfg, s) && cfg.myID >= 1 && j < |s.jobs| && !PastSigning(s.jobs[j].phase)
    requires PhaseOwned(cfg, Take(cfg, s, j, kind, uuid).0.fates, j, p)
    ensures NonceSafe(cfg, SetPhase(Take(cfg, s, j, kind, uuid).0, j, p))
  {
    TakeOwns(cfg, s, j, kind, uuid);
    var s' := Take(cfg, s, j, kind, uuid).0;
    MoveOn(cfg, s', s', j, p);
  }

  /** Recording the operations of a job that signs for the first time. */
  lemma {:induction false} SignKeeps(cfg: Config, s: State, j: nat, ops: seq<Operation>, p: Phase)
    requires NonceSafe(cfg, s) && j < |s.jobs| && !PastSigning(s.jobs[j].phase) && PastSigning(p)
    requires forall i :: 0 <= i < |ops| ==>
      ops[i].job == j && ops[i].serial in s.fates && s.fates[ops[i].serial] == TakenBy(j, ops[i].kind)
      && Increasing(ops[i].sources) && |ops[i].sources| >= cfg.threshold
    requires forall i, k :: 0 <= i < k < |ops| ==> ops[i].kind != ops[k].kind
    ensures NonceSafe(cfg, SetPhase(s.(operations := s.operations + ops), j, p))
  {
  }

  lemma {:induction false} EarlyStepKeeps(cfg: Config, s: State, j: nat)
    requires NonceSafe(cfg, s) && cfg.myID >= 1 && Ready(s, j)
    requires var p := s.jobs[j].phase;
      p.Gating? || p.Looking? || p.TakingVote? || p.TakingExtension? || p.TakingExtensionOnly?
    ensures NonceSafe(cfg, StepJob(cfg, s, j))
  {
    var q := s.jobs[j].request;
    match s.jobs[j].phase
    case Gating => MoveOn(cfg, s, s, j, StepGate(cfg, s, j).jobs[j].phase);
    case Looking => MoveOn(cfg, s, s, j, StepLook(cfg, s, j).jobs[j].phase);
    case TakingVote =>
      TakeOwns(cfg, s, j, Vote, q.uuid);
      TakeStepKeeps(cfg, s, j, Vote, q.uuid, AfterVote(q, Take(cfg, s, j, Vote, q.uuid).1));
    case TakingExtension(v) =>
      assert Owned(cfg, s.fates, j, Vote, v);
      TakeOwns(cfg, s, j, Extension, q.extUuid);
      TakeStepKeeps(cfg, s, j, Extension, q.extUuid, AfterExtension(v, Take(cfg, s, j, Extension, q.extUuid).1));
    case TakingExtensionOnly(share) =>
      TakeOwns(cfg, s, j, Extension, q.extUuid);
      TakeStepKeeps(cfg, s, j, Extension, q.extUuid,
                    AfterExtensionOnly(share, Take(cfg, s, j, Extension, q.extUuid).1));
  }

  lemma {:induction false} SignStepKeeps(cfg: Config, s: State, j: nat, v: Held, e: Option<Held>)
    requires NonceSafe(cfg, s) && j < |s.jobs| && s.jobs[j].phase == Signing(v, e)
    ensures NonceSafe(cfg, StepSign(cfg, s, j, v, e))
  {
  }

  lemma {:induction false} AnswerKeeps(cfg: Config, s: State, j: nat, withExtension: bool)
    requires Ready(s, j)
    requires NonceSafe(cfg, SetPhase(s, j, Finished))
    ensures NonceSafe(cfg, Answer(s, j, withExtension))
  {
  }

  lemma {:induction false} LateStepKeeps(cfg: Config, s: State, j: nat)
    requires NonceSafe(cfg, s) && cfg.myID >= 1 && Ready(s, j)
    requires var p := s.jobs[j].phase;
      !p.Gating? && !p.Looking? && !p.TakingVote? && !p.TakingExtension? && !p.TakingExtensionOnly?
    ensures NonceSafe(cfg, StepJob(cfg, s, j))
  {
    var q := s.jobs[j].request;
    match s.jobs[j].phase
    case Signing(v, e) => SignStepKeeps(cfg, s, j, v, e);
    case Saving(share, extShare) =>
      MoveOn(cfg, s, s.(chains := StepSave(s, j, share, extShare).chains), j,
             StepSave(s, j, share, extShare).jobs[j].phase);
    case Regating(share, extShare) => MoveOn(cfg, s, s, j, StepRegate(cfg, s, j, share, extShare).jobs[j].phase);
    case Answering(_, extShare) =>
      MoveOn(cfg, s, s, j, Finished);
      AnswerKeeps(cfg, s, j, extShare.Some?);
    case SigningExtensionOnly(_, h) =>
      assert PhaseOwned(cfg, s.fates, j, s.jobs[j].phase);
      var op := Operation(j, Extension, h.serial, h.sources);
      SignKeeps(cfg, s, j, [op], Finished);
      AnswerKeeps(cfg, s.(operations := s.operations + [op]), j, true);
    case Finished =>
  }

  lemma {:induction false} ApplyKeeps(cfg: Config, s: State, e: Event)
    requires NonceSafe(cfg, s) && cfg.myID >= 1
    ensures NonceSafe(cfg, Apply(cfg, s, e))
  {
    match e
    case Advance(j) =>
      if Ready(s, j) {
        var p := s.jobs[j].phase;
        if p.Gating? || p.Looking? || p.TakingVote? || p.TakingExtension? || p.TakingExtensionOnly? {
          EarlyStepKeeps(cfg, s, j);
        } else {
          LateStepKeeps(cfg, s, j);
        }
      }
    case _ => OtherKeeps(cfg, s, e);
  }

  /** Events other than a job's own steps only add jobs, add fresh records, or drop records. */
  lemma {:induction false} OtherKeeps(cfg: Config, s: State, e: Event)
    requires NonceSafe(cfg, s) && cfg.myID >= 1 && !e.Advance?
    ensures NonceSafe(cfg, Apply(cfg, s, e))
  {
    var s' := Apply(cfg, s, e);
    forall i | 0 <= i < |s'.operations| ensures OperationOwned(cfg, s', s'.operations[i]) {
      assert OperationOwned(cfg, s, s.operations[i]);
    }
    forall j | 0 <= j < |s'.jobs| ensures PhaseOwned(cfg, s'.fates, j, s'.jobs[j].phase) {
      if j < |s.jobs| {
        assert PhaseOwned(cfg, s.fates, j, s.jobs[j].phase);
      }
    }
  }

  lemma {:induction false} RunKeeps(cfg: Config, events: seq<Event>)
    requires cfg.myID >= 1
    ensures NonceSafe(cfg, RunEvents(cfg, events))
  {
    if |events| > 0 {
      RunKeeps(cfg, events[..|events| - 1]);
      ApplyKeeps(cfg, RunEvents(cfg, events[..|events| - 1]), events[|events| - 1]);
    }
  }

  /** A nonce that arrives goes into its source's slot of the record, which stays the same record. */
  lemma {:induction false} SlotArrives(cfg: Config, s: State, uuid: nat, source: nat, total: nat, pubKey: Data, share: Data)
    requires 1 <= cfg.myID <= total && uuid in s.store && 1 <= source <= |s.store[uuid].slots|
    ensures var r := WithSlot(s.store[uuid], source, cfg.myID, total, pubKey, share);
      Apply(cfg, s, SetSlot(uuid, r)) == s.(store := s.store[uuid := r])
  {
  }

  /** Nonces that have expired, and those of a request that is over, are gone; nothing else is. */
  lemma {:induction false} DroppedExactly(cfg: Config, s: State, now: int, j: nat, u: nat)
    requires cfg.myID >= 1
    ensures u in Apply(cfg, s, Expire(now)).store <==> u in s.store && s.store[u].expiration >= now
    ensures j < |s.jobs| && s.jobs[j].phase.Finished? ==>
      (u in Apply(cfg, s, Discard(j)).store <==>
        u in s.store && u != s.jobs[j].request.uuid && u != s.jobs[j].request.extUuid)
  {
  }

  /**
   In every run, two signing operations never use the same nonce set, even for one request's
   vote and extension, and each draws on at least threshold distinct source slots.
   */
  lemma {:induction false} NoncesUsedOnce(cfg: Config, events: seq<Event>, i: nat, k: nat)
    requires cfg.myID >= 1
    requires i < |RunEvents(cfg, events).operations| && k < |RunEvents(cfg, events).operations|
    ensures var ops := RunEvents(cfg, events).operations;
      && (ops[i].serial == ops[k].serial ==> i == k)
      && Increasing(ops[i].sources) && |ops[i].sources| >= cfg.threshold
  {
    RunKeeps(cfg, events);
    var s := RunEvents(cfg, events);
    assert OperationOwned(cfg, s, s.operations[i]);
    assert i < k ==> s.operations[i].serial != s.operations[k].serial;
    assert k < i ==> s.operations[k].serial != s.operations[i].serial;
  }
}

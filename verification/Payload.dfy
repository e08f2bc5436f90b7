/**
 The bytes a cosigner is asked to sign: which height, round and step they belong to, and when
 two of them differ in nothing but the timestamp (signer/cosigner.go verifySignPayload,
 signer/sign_state.go onlyDifferByTimestamp). Parsing itself is a parameter.
 */
module Payload {
  import opened Wrappers
  import opened GoInt
  import opened Bytes
  import opened Hrs

  type Data = seq<Byte>

  const STEP_PROPOSE := 1
  const STEP_PREVOTE := 2
  const STEP_PRECOMMIT := 3

  datatype VoteType = Prevote | Precommit | OtherType
  datatype BlockID = BlockID(hash: Data, parts: Data)

  datatype CanonicalVote = CanonicalVote(
    voteType: VoteType, height: Int64, round: Int64, blockID: Option<BlockID>, timestamp: int, chainID: string)

  datatype CanonicalProposal = CanonicalProposal(
    height: Int64, round: Int64, polRound: Int64, blockID: Option<BlockID>, timestamp: int, chainID: string)

  datatype CanonicalVoteExtension = CanonicalVoteExtension(
    extension: Data, height: Int64, round: Int64, chainID: string)

  /** The length-delimited protobuf parsers; None where they report an error. */
  datatype Codec = Codec(
    vote: Data -> Option<CanonicalVote>,
    proposal: Data -> Option<CanonicalProposal>,
    extension: Data -> Option<CanonicalVoteExtension>)

  datatype HRST = HRST(key: HRSKey, timestamp: int)

  datatype PayloadError = BadExtension | WrongChain | WrongHeight | WrongRound | Unparsable

  function VerifySignPayload(codec: Codec, chainID: string, signBytes: Data, extBytes: Data)
    : Result<(HRST, bool), PayloadError>
  {
    match codec.vote(signBytes)
    case Some(vote) =>
      if vote.voteType == OtherType then VerifyProposal(codec, signBytes)
      else
        var step := if vote.voteType == Prevote then STEP_PREVOTE else STEP_PRECOMMIT;
        var hrst := HRST(HRSKey(vote.height, vote.round, step), vote.timestamp);
        if step == STEP_PRECOMMIT && |extBytes| > 0 && vote.blockID.Some? then
          match codec.extension(extBytes)
          case None => Err(BadExtension)
          case Some(ext) =>
            if ext.chainID != chainID then Err(WrongChain)
            else if ext.height != vote.height then Err(WrongHeight)
            else if ext.round != vote.round then Err(WrongRound)
            else Ok((hrst, true))
        else Ok((hrst, false))
    case None => VerifyProposal(codec, signBytes)
  }

  function VerifyProposal(codec: Codec, signBytes: Data): Result<(HRST, bool), PayloadError> {
    match codec.proposal(signBytes)
    case None => Err(Unparsable)
    case Some(p) => Ok((HRST(HRSKey(p.height, p.round, STEP_PROPOSE), p.timestamp), false))
  }

  // ---------------------------------------------------------------- equal up to timestamp

  datatype ConflictError = LastUnparsable | NewUnparsable | AlreadySignedVote(nonFirst: bool) | DiffBlockIDs | ConflictingData

  function BlockHash(id: Option<BlockID>): Data {
    if id.Some? then id.value.hash else []
  }

  function CheckVoteOnlyDiffersByTimestamp(codec: Codec, last: Data, new_: Data): Option<ConflictError> {
    match (codec.vote(last), codec.vote(new_))
    case (None, _) => Some(LastUnparsable)
    case (Some(_), None) => Some(NewUnparsable)
    case (Some(l), Some(n)) =>
      if n.(timestamp := l.timestamp) == l then None
      else if n.blockID.None? && l.blockID.Some? then Some(AlreadySignedVote(true))
      else if n.blockID.Some? && l.blockID.None? then Some(AlreadySignedVote(false))
      else if BlockHash(l.blockID) != BlockHash(n.blockID) then Some(DiffBlockIDs)
      else Some(ConflictingData)
  }

  function CheckProposalOnlyDiffersByTimestamp(codec: Codec, last: Data, new_: Data): Option<ConflictError> {
    match (codec.proposal(last), codec.proposal(new_))
    case (None, _) => Some(LastUnparsable)
    case (Some(_), None) => Some(NewUnparsable)
    case (Some(l), Some(n)) => if n.(timestamp := l.timestamp) == l then None else Some(ConflictingData)
  }

  datatype Content = VoteContent(vote: CanonicalVote) | ProposalContent(proposal: CanonicalProposal)

  /** The message without its timestamp, read as the step says. */
  function Stripped(codec: Codec, step: int, data: Data): Option<Content> {
    if step == STEP_PROPOSE then
      match codec.proposal(data)
      case None => None
      case Some(p) => Some(ProposalContent(p.(timestamp := 0)))
    else
      match codec.vote(data)
      case None => None
      case Some(v) => Some(VoteContent(v.(timestamp := 0)))
  }

  /** Identical bytes, or the same message up to its timestamp. */
  predicate Same(codec: Codec, step: int, a: Data, b: Data) {
    a == b || (Stripped(codec, step, a).Some? && Stripped(codec, step, a) == Stripped(codec, step, b))
  }

  lemma {:induction false} SameIsEquivalence(codec: Codec, step: int, a: Data, b: Data, c: Data)
    ensures Same(codec, step, a, a)
    ensures Same(codec, step, a, b) ==> Same(codec, step, b, a)
    ensures Same(codec, step, a, b) && Same(codec, step, b, c) ==> Same(codec, step, a, c)
  {
  }

  /** The comparison of the code, step by step; any other step panics. */
  function OnlyDifferByTimestamp(codec: Codec, step: int, last: Data, new_: Data): Option<ConflictError>
    requires step in {STEP_PROPOSE, STEP_PREVOTE, STEP_PRECOMMIT}
  {
    if step == STEP_PROPOSE then CheckProposalOnlyDiffersByTimestamp(codec, last, new_)
    else CheckVoteOnlyDiffersByTimestamp(codec, last, new_)
  }

  /** The code accepts a pair exactly when the messages agree once both timestamps are dropped. */
  lemma {:induction false} OnlyDifferMeansSame(codec: Codec, step: int, last: Data, new_: Data)
    requires step in {STEP_PROPOSE, STEP_PREVOTE, STEP_PRECOMMIT}
    ensures OnlyDifferByTimestamp(codec, step, last, new_).None?
       <==> Stripped(codec, step, last).Some? && Stripped(codec, step, last) == Stripped(codec, step, new_)
  {
    if step == STEP_PROPOSE {
      if codec.proposal(last).Some? && codec.proposal(new_).Some? {
        var l, n := codec.proposal(last).value, codec.proposal(new_).value;
        assert n.(timestamp := l.timestamp) == l <==> n.(timestamp := 0) == l.(timestamp := 0);
      }
    } else {
      if codec.vote(last).Some? && codec.vote(new_).Some? {
        var l, n := codec.vote(last).value, codec.vote(new_).value;
        assert n.(timestamp := l.timestamp) == l <==> n.(timestamp := 0) == l.(timestamp := 0);
      }
    }
  }

  /** The step of a verified payload says how to read it, and messages that agree share their key. */
  lemma {:induction false} VerifiedKey(codec: Codec, chainID: string, a: Data, extA: Data, b: Data, extB: Data)
    requires VerifySignPayload(codec, chainID, a, extA).Ok? && VerifySignPayload(codec, chainID, b, extB).Ok?
    ensures var k := VerifySignPayload(codec, chainID, a, extA).value.0.key;
      k.step in {STEP_PROPOSE, STEP_PREVOTE, STEP_PRECOMMIT} && Stripped(codec, k.step, a).Some?
    ensures var ka := VerifySignPayload(codec, chainID, a, extA).value.0.key;
      var kb := VerifySignPayload(codec, chainID, b, extB).value.0.key;
      ka.step == kb.step && Same(codec, ka.step, a, b) ==> ka == kb
  {
  }

  /** The height, round and step the bytes to sign belong to, if they parse. */
  function KeyOf(codec: Codec, signBytes: Data): Option<HRSKey> {
    match VerifySignPayload(codec, "", signBytes, [])
    case Ok((hrst, _)) => Some(hrst.key)
    case Err(_) => None
  }

  // ---------------------------------------------------------------- read from the messages alone

  /** A prevote or a precommit; everything else is read as a proposal. */
  predicate IsVote(codec: Codec, d: Data) {
    codec.vote(d).Some? && codec.vote(d).value.voteType != OtherType
  }

  /**
   The key and the timestamp of a payload in terms of the parsed messages: the height and round of
   the vote with step 2 or 3, or those of the proposal with step 1.
   */
  lemma {:induction false} KeyFromMessage(codec: Codec, chainID: string, d: Data, extBytes: Data)
    ensures IsVote(codec, d) ==>
      var v := codec.vote(d).value;
      var key := HRSKey(v.height, v.round, if v.voteType == Prevote then 2 else 3);
      && KeyOf(codec, d) == Some(key)
      && (VerifySignPayload(codec, chainID, d, extBytes).Ok? ==>
            VerifySignPayload(codec, chainID, d, extBytes).value.0 == HRST(key, v.timestamp))
    ensures !IsVote(codec, d) && codec.proposal(d).Some? ==>
      var p := codec.proposal(d).value;
      && KeyOf(codec, d) == Some(HRSKey(p.height, p.round, 1))
      && VerifySignPayload(codec, chainID, d, extBytes) == Ok((HRST(HRSKey(p.height, p.round, 1), p.timestamp), false))
    ensures !IsVote(codec, d) && codec.proposal(d).None? ==>
      KeyOf(codec, d).None? && VerifySignPayload(codec, chainID, d, extBytes) == Err(Unparsable)
  {
  }

  /** At one height and round a proposal comes before the prevote, which comes before the precommit. */
  lemma {:induction false} StepsInOrder(codec: Codec, proposal: Data, prevote: Data, precommit: Data, height: Int64, round: Int64)
    requires !IsVote(codec, proposal) && codec.proposal(proposal).Some?
    requires IsVote(codec, prevote) && codec.vote(prevote).value.voteType == Prevote
    requires IsVote(codec, precommit) && codec.vote(precommit).value.voteType == Precommit
    requires codec.proposal(proposal).value.height == height && codec.proposal(proposal).value.round == round
    requires codec.vote(prevote).value.height == height && codec.vote(prevote).value.round == round
    requires codec.vote(precommit).value.height == height && codec.vote(precommit).value.round == round
    ensures KeyOf(codec, proposal).Some? && KeyOf(codec, prevote).Some? && KeyOf(codec, precommit).Some?
    ensures KeyOf(codec, prevote).value.GreaterThan(KeyOf(codec, proposal).value)
    ensures KeyOf(codec, precommit).value.GreaterThan(KeyOf(codec, prevote).value)
  {
  }

  /** Two votes of one type, or two proposals, for one height and round. */
  predicate SameSlot(codec: Codec, a: Data, b: Data) {
    if IsVote(codec, a) then
      && IsVote(codec, b) && codec.vote(a).value.voteType == codec.vote(b).value.voteType
      && codec.vote(a).value.height == codec.vote(b).value.height && codec.vote(a).value.round == codec.vote(b).value.round
    else
      && !IsVote(codec, b) && codec.proposal(a).Some? && codec.proposal(b).Some?
      && codec.proposal(a).value.height == codec.proposal(b).value.height
      && codec.proposal(a).value.round == codec.proposal(b).value.round
  }

  /** The two messages are equal once one has the other's timestamp. */
  predicate OnlyStampsDiffer(codec: Codec, a: Data, b: Data)
    requires SameSlot(codec, a, b)
  {
    if IsVote(codec, a) then
      codec.vote(a).value == codec.vote(b).value.(timestamp := codec.vote(a).value.timestamp)
    else
      codec.proposal(a).value == codec.proposal(b).value.(timestamp := codec.proposal(a).value.timestamp)
  }

  /** Sharing a slot is having the same key, and agreeing is being the same message there. */
  lemma {:induction false} SlotIsKey(codec: Codec, a: Data, b: Data)
    ensures SameSlot(codec, a, b) <==> KeyOf(codec, a).Some? && KeyOf(codec, a) == KeyOf(codec, b)
    ensures SameSlot(codec, a, b) ==>
      (OnlyStampsDiffer(codec, a, b) <==> Same(codec, KeyOf(codec, a).value.step, a, b))
  {
    if SameSlot(codec, a, b) {
      if IsVote(codec, a) {
        var l, n := codec.vote(a).value, codec.vote(b).value;
        assert l == n.(timestamp := l.timestamp) <==> l.(timestamp := 0) == n.(timestamp := 0);
      } else {
        var l, n := codec.proposal(a).value, codec.proposal(b).value;
        assert l == n.(timestamp := l.timestamp) <==> l.(timestamp := 0) == n.(timestamp := 0);
      }
    }
  }

  /** What is reported about two votes that are not the same: a nil vote against a block, other blocks, or other data. */
  lemma {:induction false} VoteConflictKind(codec: Codec, last: Data, new_: Data)
    requires codec.vote(last).Some? && codec.vote(new_).Some?
    ensures var l, n, r := codec.vote(last).value, codec.vote(new_).value, CheckVoteOnlyDiffersByTimestamp(codec, last, new_);
      if n.(timestamp := 0) == l.(timestamp := 0) then r == None
      else if l.blockID.Some? && n.blockID.None? then r == Some(AlreadySignedVote(true))
      else if l.blockID.None? && n.blockID.Some? then r == Some(AlreadySignedVote(false))
      else if l.blockID.Some? && l.blockID.value.hash != n.blockID.value.hash then r == Some(DiffBlockIDs)
      else r == Some(ConflictingData)
  {
    var l, n := codec.vote(last).value, codec.vote(new_).value;
    assert n.(timestamp := l.timestamp) == l <==> n.(timestamp := 0) == l.(timestamp := 0);
  }

  // ---------------------------------------------------------------- extensions

  /** The bytes are a vote extension for this chain, at the height and round of the key. */
  predicate ExtensionFor(codec: Codec, chainID: string, key: HRSKey, extBytes: Data) {
    codec.extension(extBytes).Some?
    && var ext := codec.extension(extBytes).value;
       ext.chainID == chainID && ext.height == key.height && ext.round == key.round
  }

  /** A precommit for a block: the votes that may carry an extension. */
  predicate Extendable(codec: Codec, signBytes: Data) {
    codec.vote(signBytes).Some?
    && codec.vote(signBytes).value.voteType == Precommit && codec.vote(signBytes).value.blockID.Some?
  }

  /**
   A verified payload's key is that of its bytes alone. An extension is reported exactly for a
   precommit for a block with extension bytes, which then belong to it; other bytes refuse the payload.
   */
  lemma {:induction false} VerifiedByKey(codec: Codec, chainID: string, signBytes: Data, extBytes: Data)
    requires VerifySignPayload(codec, chainID, signBytes, extBytes).Ok?
    ensures var (hrst, hasExtension) := VerifySignPayload(codec, chainID, signBytes, extBytes).value;
      && KeyOf(codec, signBytes) == Some(hrst.key)
      && (hasExtension <==> Extendable(codec, signBytes) && extBytes != [])
      && (hasExtension ==> ExtensionFor(codec, chainID, hrst.key, extBytes))
  {
  }

  /** Why an extension is refused: it does not parse, or it names another chain, height or round, in this order. */
  lemma {:induction false} ExtensionRefusal(codec: Codec, chainID: string, signBytes: Data, extBytes: Data)
    requires Extendable(codec, signBytes) && extBytes != []
    ensures var v, r := codec.vote(signBytes).value, VerifySignPayload(codec, chainID, signBytes, extBytes);
      match codec.extension(extBytes)
      case None => r == Err(BadExtension)
      case Some(ext) =>
        if ext.chainID != chainID then r == Err(WrongChain)
        else if ext.height != v.height then r == Err(WrongHeight)
        else if ext.round != v.round then r == Err(WrongRound)
        else r.Ok?
  {
  }

  /** A payload is refused exactly when it does not parse or carries somebody else's extension. */
  lemma {:induction false} PayloadRefused(codec: Codec, chainID: string, signBytes: Data, extBytes: Data)
    ensures VerifySignPayload(codec, chainID, signBytes, extBytes).Err? <==>
      match KeyOf(codec, signBytes)
      case None => true
      case Some(key) =>
        Extendable(codec, signBytes) && extBytes != [] && !ExtensionFor(codec, chainID, key, extBytes)
  {
  }
}

# Horcrux in Dafny

Horcrux is a threshold Ed25519 signer for validators: a key is split into shards, a leader
asks a threshold of cosigners for partial signatures, and the partials are combined into one
signature. What makes it trusted is that no two full signatures for one height, round and step
ever cover different payloads. This project models the parts that carry that promise and proves
them for all inputs, all runs and all interleavings:

- **Arithmetic** (`Residues`, `ScalarLimbs`, `ScalarOps`, `FieldLimbs`, `FieldBytes`, `Group`, `BaseMult`):
  scalars modulo L in radix 2^21, field elements modulo 2^255 - 19 in radix 2^25.5, and the
  fixed-base multiplication. Limbs are integers with explicit int32/int64 range assertions; `>>`
  is floor division.
- **Threshold algebra** (`DividedDifferences`, `Omega`, `Interpolation`, `Modular`, `Shares`,
  `CombineExact`, `CombineLarge`, `Secrecy`, `ThresholdSigner`, `SignatureEquation`, `SigningRun`):
  dealing, what shares tell, the int64 Lagrange coefficients, combining, and the verification
  equation of section 5.1.7 of RFC 8032.
- **One cosigner** (`Hrs`, `Payload`, `SigningState`, `NonceStore`, `LocalCosigner`,
  `CosignerSteps`, `CosignerSafety`, `ChainLoading`, `NonceSafety`): the watermark, the nonce store,
  loading a chain, and the signing request as separate critical sections that interleave with others.
- **The cluster and its leader** (`ClusterConfig`, `Cluster`, `ClusterLoading`, `NonceCache`,
  `NonceRouting`, `RoutedSigning`, `ReplacedRounds`, `Fallback`, `Replacement`, `LeaderSteps`,
  `LeaderValidity`, `LeaderUniqueness`, `LeaderProgress`, `LeaderRestart`, `LeaderRetries`,
  `LeaderProposals`): what the leader answers, that it answers, and that it answers once.
- **The wire format** (`Wire`, `WireParser`, `WireSkip`, `WireErrors`, `WireMessages`, `WireLayout`):
  the generated Protocol Buffers code, its bytes, its round trips and its errors.

`dafny verify dfyconfig.toml` checks everything.

## How it is modelled

Objects that are changed in place are classes (`SigningState.SignState`, `NonceStore.Store`,
`NonceCache.Cache`, `Fallback.Collector`, `LocalCosigner.Cosigner`); every method is proved against
a function of the old state. Concurrency is a step system: an event is one critical section of one
request, a run is any sequence of events, and a theorem about runs holds for every interleaving.
The steps are built from the same functions the class methods are proved against.

Parameters stand for what lies outside: the hash, random coefficients and UUIDs, clocks, the
CometBFT parsers of votes, proposals and extensions (`Payload.Codec`, any functions at all), the
encryption of nonces (`NonceRouting.Sealed`: opening undoes sealing), the curve group
(`ThresholdSigner.ValidCurve`: abelian group laws, a table of multiples, L times the base point is
zero, decoding undoes encoding) and signature verification (any predicate).

Results worth knowing:

- A chain's state is loaded without a lock: two requests that both find nothing stored both read it
  and both store it, and the second store brings the watermark back. Agreement therefore holds for
  runs in which a cosigner stores a chain at most once, and not for more:
  `ChainLoading.AgreesIffStoredOnce` for the shares of one cosigner, `ClusterLoading.SafeIffStoredOnce`
  for full signatures. Loading one at a time, or before requests are served, is enough
  (`ChainLoading.OneAtATimeStoresOnce`).
- A cosigner that replaces a failed one adds its own nonce, so the partial signatures fit together
  exactly if its nonce key is the zero of the group (`ReplacedRounds.ReplacedFaultlessIffZero`,
  `ReplacedRounds.TwoReplacedByThree`).
- `calcOmega` works in int64. `Omega.OmegaExact` gives the exact condition under which it returns
  the coefficient: total! times the other identifiers is below 2^63. Any total up to 12 meets it;
  13 of 13 and 8 of 15 are accepted configurations that do not (`Omega.ThirteenOverflow`,
  `CombineExact.EightOfFifteenFails`), and for every total combining recovers every secret if and
  only if the condition holds (`CombineLarge.RecoversExactlyIfFits`).
- A dealt share is not reduced when the threshold is 1 (`Shares.ShareValue`); it is still right modulo L.
- The pruning bound of the watermark cache is an int64 difference; a save leaves the watermark in the
  cache exactly unless that difference wraps (`SigningState.SaveSettles`), which needs a height within
  three of the smallest int64 (`SigningState.LowestHeightWraps`).
- `compareBlockSignatureAgainstHRS` is documented to return nil for an equal height, round and step; the
  code returns an error value for it, and the model follows the code.
- After a failure marker several requests may sign at one height, round and step, so
  `LeaderUniqueness.OneSignature` is stated for keys without a marker;
  `LeaderRetries.MarkerAllowsTwoSignatures` is a run with two signatures after one marker.
- A cached proposal's signature is handed out whatever proposal is asked for at that height and round
  (`LeaderProposals.SecondProposalReuses`); it covers the one asked for exactly if they are the same
  message up to the timestamp (`LeaderProposals.ReusedProposal`).

## Model

| member | source | states |
|---|---|---|
| `Bytes.Reverse` | signer/tsed25519/internal/util/reverse.go:4-13 | the in-place swap from the middle outwards returns the bytes in reverse order |
| `Bytes.ScalarBytesValue` | signer/tsed25519/ed25519.go:53-56 | reversing the shortest big-endian bytes into 32 bytes keeps every number below 256^32 |
| `ScalarLimbs.Carry` | signer/edwards25519/edwards25519.go:1550-1552 | one carry keeps the value of all 24 limbs and moves the exact quotient up |
| `ScalarLimbs.Fold` | signer/edwards25519/edwards25519.go:1500-1506 | folding a high limb subtracts a multiple of L, with stated limb bounds |
| `ScalarLimbs.FoldAway` | signer/edwards25519/edwards25519.go:1500-1506 | the six statements of a fold, every product and every sum inside int64 |
| `ScalarLimbs.FloorPass` | signer/edwards25519/edwards25519.go:1679-1714 | before the last fold the value is below 2^252 in magnitude, so the carry out of the top is 0 or -1 |
| `ScalarLimbs.Reduce` | signer/edwards25519/edwards25519.go:1500-1756 | the whole chain of folds and carries leaves exactly the value modulo L |
| `ScalarOps.ScReduce` | signer/edwards25519/edwards25519.go:1466-1790 | 64 bytes in, the 32 little-endian bytes of their value modulo L out, for every input |
| `ScalarOps.ScMulAdd` | signer/edwards25519/edwards25519.go:1029-1464 | the 32 little-endian bytes of (ab + c) modulo L, for all inputs |
| `ScalarOps.ColumnsValue` | signer/edwards25519/edwards25519.go:1080-1103 | the schoolbook columns add up to the product of the two 12-limb numbers |
| `ScalarOps.ScMinimal` | signer/edwards25519/edwards25519.go:1797-1810 | accepts 32 bytes if and only if they encode a number below L |
| `ScalarOps.ReducedIsCanonical` | signer/edwards25519/edwards25519.go:1466-1474 | a reduced output is the only 32-byte encoding of its residue that ScMinimal accepts |
| `FieldLimbs.FeCombine` | signer/edwards25519/edwards25519.go:264-351 | the carries keep the value modulo p and leave limbs within the documented bounds, without overflow |
| `FieldLimbs.FeMul` | signer/edwards25519/edwards25519.go:353-433 | the product modulo p for all inputs within the documented bounds, with int32/int64 ranges |
| `FieldLimbs.ColumnsValue` | signer/edwards25519/edwards25519.go:421-430 | the ten columns, with their factors 2 and 19, are the product modulo p |
| `FieldLimbs.CarriedIsMulInput` | signer/edwards25519/edwards25519.go:356-363 | sums and differences of carried elements may be multiplied again |
| `FieldBytes.EstimateExact` | signer/edwards25519/edwards25519.go:114-147 | the estimated quotient q is the exact floor of h / p |
| `FieldBytes.FeToBytes` | signer/edwards25519/edwards25519.go:134-221 | writes the 32 bytes of h modulo p |
| `FieldBytes.CanonicalUnique` | signer/edwards25519/edwards25519.go:109-221 | no other 32 bytes below p encode the same element |
| `FieldBytes.FeFromBytes` | signer/edwards25519/edwards25519.go:94-107 | reads the bytes without their top bit as a field element within bounds |
| `FieldBytes.RoundTrip` | signer/edwards25519/edwards25519.go:94-221 | FeFromBytes after FeToBytes returns the same element |
| `BaseMult.EqualBitCorrect` | signer/edwards25519/edwards25519.go:943-948 | the xor and borrow trick is 1 exactly for equal words |
| `BaseMult.FeCMove` | signer/edwards25519/edwards25519.go:57-75 | the masked xor of all ten limbs moves g over f exactly when b is 1 |
| `BaseMult.Recode` | signer/edwards25519/edwards25519.go:986-1003 | the signed radix-16 digits are between -8 and 8 and keep the value |
| `BaseMult.SelectPoint` | signer/edwards25519/edwards25519.go:960-974 | the scan over all eight entries picks b times the row's point, for either sign |
| `BaseMult.HalvesValue` | signer/edwards25519/edwards25519.go:1005-1026 | sixteen times the odd digits plus the even digits is the whole number |
| `BaseMult.GeScalarMultBase` | signer/edwards25519/edwards25519.go:976-1027 | a times the base point for every a with a[31] at most 127 |
| `DividedDifferences.Vanishes` | signer/tsed25519/ed25519.go:132-158 | over m distinct nodes the divided difference of x^k is zero for every k below m - 1 |
| `Omega.CalcOmega` | signer/tsed25519/ed25519.go:200-216 | the two loops, with int64 wrap-around and truncating division, compute CodeOmega |
| `Omega.DifferencesDivide` | signer/tsed25519/ed25519.go:209-213 | the differences from one identifier among any first k identifiers, in any order, divide total! |
| `Omega.ExactDivision` | signer/tsed25519/ed25519.go:209-213 | when the numerator fits, every one of the sequential divisions is exact |
| `Omega.OmegaExact` | signer/tsed25519/ed25519.go:200-216 | calcOmega returns the Lagrange coefficient if and only if total! times the other identifiers is below 2^63 |
| `Omega.TwelveFit` | signer/tsed25519/ed25519.go:132-140 | with at most twelve cosigners the numerator always fits |
| `Omega.ThirteenOverflow` | signer/tsed25519/ed25519.go:200-216 | thirteen of thirteen: a concrete coefficient that comes out wrong |
| `Omega.WrapsAndTruncates` | signer/tsed25519/ed25519.go:200-216 | a concrete numerator that wraps to -1 and is divided toward zero |
| `Interpolation.Moments` | signer/tsed25519/ed25519.go:138-149 | the weighted sum of k-th powers of the identifiers is total! for k = 0 and zero for every other k below their number, over the integers |
| `Interpolation.Recovers` | signer/tsed25519/ed25519.go:138-149 | over at least as many identifiers as coefficients, the weighted values are total! times the constant term |
| `Modular.ModInverseFound` | signer/tsed25519/ed25519.go:151 | if any inverse exists, ModInverse finds one |
| `Modular.SmallInverse` | signer/tsed25519/ed25519.go:151 | every k up to 255 has an inverse modulo L, without using that L is prime |
| `Shares.Horner` | signer/tsed25519/ed25519.go:113-122 | the loop that reduces after every step is the polynomial modulo L; one coefficient is left unreduced |
| `Shares.DealShares` | signer/tsed25519/ed25519.go:100-129 | share i encodes the polynomial at i + 1 |
| `Shares.ShareCongruent` | signer/tsed25519/ed25519.go:113-126 | a share is the polynomial at its identifier modulo L, whatever the threshold |
| `Shares.CombineShares` | signer/tsed25519/ed25519.go:132-158 | the loop over players computes CombinedValue, as 32 bytes |
| `Shares.DeltaInvertible` | signer/tsed25519/ed25519.go:134-152 | total! has an inverse modulo L for every total up to 255, and ModInverse returns it |
| `Shares.CombineInvertsDeal` | signer/tsed25519/ed25519.go:97-158 | any distinct cosigners, at least as many as the polynomial has coefficients, recover its constant term modulo L |
| `Shares.TwelveAlwaysFit` | signer/tsed25519/ed25519.go:200-216 | totals up to twelve need no further condition |
| `Secrecy.TooManyRoots` | signer/tsed25519/ed25519.go:97-129 | a polynomial modulo L with as many small roots as coefficients is zero |
| `Secrecy.FewerSharesTellNothing` | signer/tsed25519/ed25519.go:97-129 | for any threshold - 1 cosigners' shares and every other secret, exactly one choice of the coefficients deals the same shares |
| `CombineExact.RecoversIffOmegasRight` | signer/tsed25519/ed25519.go:132-158 | combining recovers every polynomial's secret if and only if every coefficient is right modulo L |
| `CombineExact.RecoversIffFitsTo33` | signer/tsed25519/ed25519.go:131-216 | up to 33 cosigners, combining is right on every polynomial if and only if no numerator overflows |
| `CombineLarge.OmegasSumToFactorial` | signer/tsed25519/ed25519.go:131-158 | where every secret is recovered, the int64 coefficients add up to total! modulo L |
| `CombineLarge.LostNumerator` | signer/tsed25519/ed25519.go:200-216 | a numerator that is a multiple of 2^64 loses some secret |
| `CombineLarge.RecoversExactlyIfFits` | signer/tsed25519/ed25519.go:131-216 | for every total up to 255, combining is right on every polynomial if and only if no numerator overflows |
| `CombineExact.EightOfFifteenFails` | signer/tsed25519/ed25519.go:132-216 | the last eight of fifteen cosigners do not recover every secret |
| `ThresholdSigner.AddScalars` | signer/tsed25519/ed25519.go:46-57 | the sum of the scalars modulo L, as 32 bytes |
| `ThresholdSigner.AddElements` | signer/tsed25519/ed25519.go:60-95 | the encoding of the sum of the non-empty elements' points |
| `ThresholdSigner.ScalarMultiplyBase` | signer/tsed25519/ed25519.go:29-43 | the scalar modulo L times the base point |
| `ThresholdSigner.SignWithShare` | signer/tsed25519/ed25519.go:160-185 | LE(H(R, A, M)) modulo L times the share plus the nonce share, modulo L |
| `ThresholdSigner.SumNonces` | signer/threshold_signer_soft.go:62-86 | the summed share and key; the bounds checks never fail |
| `ThresholdSigner.Sign` | signer/threshold_signer_soft.go:51-60 | the summed nonce key followed by the share of the response |
| `ThresholdSigner.GenerateNonces` | signer/threshold_signer_soft.go:88-106 | the key of the secret and a share of it for every cosigner |
| `ThresholdSigner.CombineSignatures` | signer/threshold_signer_soft.go:108-131 | the first fault, or the common key with the combined shares, exactly when there is no fault |
| `ThresholdSigner.FaultlessMeans` | signer/threshold_signer_soft.go:113-127 | no fault means exactly that all signatures exceed their nonce key and the nonce keys are equal |
| `SignatureEquation.CombinedResponse` | signer/tsed25519/ed25519.go:132-185 | partials of k a + r combine to k a + r modulo L for any large enough set of cosigners and any nonce dealers |
| `SignatureEquation.ResponseScalar` | signer/threshold_signer_soft.go:51-131 | the combined scalar is what the owner of the whole key would answer |
| `SignatureEquation.FullSignatureVerifies` | signer/threshold_signer_soft.go:51-131 | every threshold set's signature satisfies S B = R + k A with k the hash of R, A and the message, in this order |
| `SignatureEquation.SubsetIndependent` | signer/threshold_signer_soft.go:108-131 | two sets of cosigners that answer the same round produce the same 64 bytes |
| `SignatureEquation.GatheredIsFaultless` | signer/threshold_signer_soft.go:113-127 | partials of one round are never rejected for their nonce keys |
| `SigningRun.DealNonces` | signer/threshold_signer_soft.go:88-106 | every dealer's nonces: the key of its secret and a share of it for every cosigner |
| `SigningRun.HolderParticipates` | signer/tsed25519/ed25519.go:97-129 | a cosigner with its dealt shard and nonces holds points of the shared polynomials |
| `SigningRun.SignTogether` | signer/local_cosigner_test.go:102-233 | dealing, signing by any distinct cosigners, at least threshold of them, and combining never fails and ends in a signature that verifies |
| `Hrs.TotalOrder` | signer/hrs.go:15-34 | GreaterThan is a strict total order and LessThan is its converse |
| `Hrs.Lexicographic` | signer/hrs.go:15-34 | heights decide, then rounds, then steps |
| `Payload.OnlyDifferMeansSame` | signer/sign_state.go:552-662 | the comparison accepts two payloads exactly when they are the same message once timestamps are dropped |
| `Payload.SameIsEquivalence` | signer/sign_state.go:139-149 | identical or equal up to timestamp is an equivalence |
| `Payload.VoteConflictKind` | signer/sign_state.go:566-622 | what is reported about two votes that differ: nil against a block, other blocks, or other data |
| `Payload.VerifiedKey` | signer/cosigner.go:165-211 | a verified payload parses the way its step says, and payloads that agree belong to one key |
| `Payload.VerifiedByKey` | signer/cosigner.go:165-211 | the key comes from the bytes to sign alone; an extension is reported exactly for a precommit for a block with extension bytes, and then belongs to it |
| `Payload.PayloadRefused` | signer/cosigner.go:165-211 | a payload is refused exactly when it does not parse or carries an extension of another chain, height or round |
| `Payload.ExtensionRefusal` | signer/cosigner.go:177-197 | why an extension is refused: unparsable, another chain, another height, another round, in this order |
| `Payload.KeyFromMessage` | signer/cosigner.go:165-211 | in terms of the parsed messages alone: a vote's key is its height, its round and step 2 or 3, a proposal's its height, its round and step 1, each with the message's timestamp |
| `Payload.StepsInOrder` | signer/cosigner.go:165-211 | at one height and round a proposal's key is below a prevote's, which is below a precommit's |
| `Payload.SlotIsKey` | signer/sign_state.go:129-149 | two payloads have one key exactly if they are votes of one type, or proposals, of one height and round; there, being the same up to the timestamp is equality of the restamped messages |
| `SigningState.GateMeaning` | signer/sign_state.go:129-149 | the gate passes a key beyond the watermark, and at the watermark only the same message; never anything behind |
| `SigningState.CheckMeans` | signer/sign_state.go:412-437 | which of height, round and step goes back, or what is missing at the watermark, is exactly what is reported |
| `SigningState.SaveStep` | signer/sign_state.go:225-249 | a save succeeds exactly for greater keys, and no cached entry that stays ever changes |
| `SigningState.SaveSettles` | signer/sign_state.go:225-249 | after a success the fields are the watermark's cache entry and nothing is older than three heights, exactly unless the bound wraps |
| `SigningState.SaveRetains` | signer/sign_state.go:225-249 | after a success the cache holds its result and exactly the earlier entries within three heights, unchanged |
| `SigningState.LowestHeightWraps` | signer/sign_state.go:240-247 | at the smallest int64 the save prunes its own entry |
| `SigningState.RunKeeps` | signer/sign_state.go:225-249 | over any run of saves the watermark only rises, entries never change and pruned keys never return |
| `SigningState.RunSettles` | signer/sign_state.go:225-249 | from height zero on, the state is settled after the first success |
| `SigningState.RunRetains` | signer/sign_state.go:225-249 | over any run an entry stays cached, unchanged, while it is within three heights of the watermark |
| `SigningState.SavedIsFound` | signer/sign_state.go:211-249 | every save that succeeded is found while its height is within three of the watermark |
| `SigningState.SignState.constructor` | signer/sign_state.go:522-540 | a new state has nothing signed and nothing cached |
| `SigningState.SignState.FreshCache` | signer/sign_state.go:468-498 | the same fields with a cache of just the latest result |
| `SigningState.SignState.GetErrorIfLessOrEqual` | signer/sign_state.go:451-464 | regression, same key, or neither |
| `SigningState.SignState.Save` | signer/sign_state.go:225-279 | the checks, the cache update, the deletion loop and the field updates are one AfterSave, whose contents SaveRetains gives |
| `SigningState.SignState.GetFromCache` | signer/sign_state.go:211-219 | an entry that is found is stored under its own key, never beyond the watermark, and at the watermark it is the latest result |
| `SigningState.SignState.CheckHeightRoundStep` | signer/sign_state.go:412-437 | the nested comparisons are CheckHRS, the panic included |
| `SigningState.SignState.ErrorIfConflictOrRegression` | signer/sign_state.go:129-149 | the locked gate decides as Gate does |
| `NonceStore.ContributionsPerSource` | signer/local_cosigner.go:106-116 | every contribution comes from a slot of its own, and every usable slot contributes |
| `NonceStore.Store.GenerateIfNecessary` | signer/local_cosigner.go:496-520 | an existing record is kept |
| `NonceStore.Store.CombinedNonces` | signer/local_cosigner.go:88-125 | the UUID is gone whatever happens; a success draws on at least threshold distinct slots |
| `NonceStore.Store.SetNonce` | signer/local_cosigner.go:544-578 | succeeds exactly for an authentic nonce of a known UUID, and fills only its source's slot |
| `NonceStore.Store.Forget` | signer/local_cosigner.go:271-276 | the request's UUIDs are deleted |
| `NonceStore.Store.Prune` | signer/local_cosigner.go:77-86 | exactly the expired records are dropped |
| `LocalCosigner.Cosigner.TakeNonces` | signer/local_cosigner.go:88-125 | reading a UUID's nonces is the step that takes them |
| `LocalCosigner.Cosigner.SaveAndAnswer` | signer/local_cosigner.go:347-371 | save, and the second gate when the key was saved first, are steps of the step system |
| `LocalCosigner.Cosigner.SignFresh` | signer/local_cosigner.go:306-371 | a fresh vote goes through taking, signing and saving; each share is made with the nonces stored under its own UUID |
| `LocalCosigner.Cosigner.SignExtension` | signer/local_cosigner.go:284-304 | the fallback re-serves the cached share and signs only the extension, with the nonces of its UUID |
| `LocalCosigner.Cosigner.Sign` | signer/local_cosigner.go:221-376 | the whole request is a trace of the step system; it is answered if and only if the gate or the fallback lets it in and its nonce sets are complete, with shares made of the stored nonces or the cached one; turned away, nothing changes, and otherwise its UUIDs are gone |
| `CosignerSafety.SaveKeepsChain` | signer/sign_state.go:225-249 | what was first saved under a key is never overwritten |
| `CosignerSafety.RegateKeepsSafe` | signer/local_cosigner.go:357-371 | a request that lost the race answers only if the saved payload is the same message |
| `CosignerSafety.LookKeepsSafe` | signer/local_cosigner.go:248-266 | the passed-round fallback only re-serves the bytes on record |
| `CosignerSafety.ReplicateKeepsSafe` | signer/raft_events.go:22-42 | replicated saves, of anything at all, keep the invariant |
| `CosignerSafety.ReplicateRaises` | signer/raft_events.go:22-42 | a replicated result beyond the watermark becomes the watermark of the chain's current state, and of no other |
| `CosignerSafety.AcceptedExactly` | signer/local_cosigner.go:221-240 | a request is taken in exactly if its payload verifies, its chain is stored and its nonce sets differ |
| `CosignerSafety.InstallKeepsSafe` | signer/local_cosigner.go:395-421 | storing a state again leaves every older state and the requests on it consistent |
| `CosignerSafety.ApplyKeepsSafe` | signer/local_cosigner.go:221-421 | every event keeps the safety invariant, stores of a chain that is there already included |
| `CosignerSafety.StateSharesAgree` | signer/local_cosigner.go:221-376 | all vote shares released under one stored state for one height, round and type of message agree up to timestamp |
| `CosignerSafety.SharesAgree` | signer/local_cosigner.go:221-421 | in every run that stores a chain at most once, all vote shares released on it for one height, round and type of message agree up to timestamp |
| `CosignerSafety.ExtensionsBelong` | signer/cosigner.go:177-197 | in every run, an extension share is for an extension of the chain, height and round it is released for |
| `ChainLoading.OneAtATimeStoresOnce` | signer/local_cosigner.go:395-421 | loads of a chain that do not overlap store it at most once |
| `ChainLoading.OverlappingLoadsClash` | signer/local_cosigner.go:395-421 | for any two payloads of one key: a run with two overlapping loads in which one cosigner releases shares over both |
| `ChainLoading.AgreesIffStoredOnce` | signer/local_cosigner.go:221-421 | all runs with at most k stores of a chain have agreeing shares if and only if k is at most one |
| `NonceSafety.TakeOwns` | signer/local_cosigner.go:88-125 | a record that is taken belonged to nobody else |
| `NonceSafety.SignKeeps` | signer/local_cosigner.go:311-345 | a request signs once, with records nobody used before |
| `NonceSafety.NoncesUsedOnce` | signer/local_cosigner.go:88-345 | in every run, no nonce set feeds two signing operations, and each draws on threshold distinct slots |
| `NonceSafety.SlotArrives` | signer/local_cosigner.go:544-578 | a nonce that arrives goes into its source's slot of the same record |
| `NonceSafety.DroppedExactly` | signer/local_cosigner.go:77-276 | expired nonces and those of a request that is over are gone, and nothing else is |
| `ClusterConfig.DuplicateCosigners` | signer/config.go:369-390 | exactly the IDs given more than once, with all their addresses |
| `ClusterConfig.AddressesListed` | signer/config.go:369-390 | exactly the addresses given for an ID are listed for it |
| `ClusterConfig.ValidateCosigners` | signer/config.go:330-367 | accepts exactly distinct IDs in 1..n with reachable addresses |
| `ClusterConfig.ValidateThresholdMode` | signer/config.go:79-111 | accepts exactly valid chain nodes and a threshold section with a majority threshold up to n, valid cosigners and timeouts |
| `ClusterConfig.AcceptedIDs` | signer/config.go:79-367 | an accepted cluster has exactly the IDs 1..n and twice the threshold exceeds n |
| `Cluster.OneCosignerAgrees` | signer/local_cosigner.go:221-376 | a cosigner that stored the chain once and handed out shares over two payloads of one key saw them agree |
| `Cluster.NextKeeps` | signer/threshold_validator.go:1051-1088 | every full signature stays backed by a threshold of cosigners that remember their shares |
| `Cluster.NoDoubleSign` | signer/local_cosigner.go:221-421 | cluster safety: where no cosigner stores the chain twice, two full signatures over prevotes, precommits or proposals of one height and round never cover messages that differ beyond the timestamp |
| `ClusterLoading.StaleStoresDoubleSign` | signer/local_cosigner.go:395-421 | for any two payloads of one key: a run with two stores per cosigner that ends in full signatures over both |
| `ClusterLoading.SafeIffStoredOnce` | signer/local_cosigner.go:221-421 | an accepted cluster is safe in all runs with at most k stores per cosigner if and only if k is at most one |
| `NonceCache.Cache.Add` | signer/cosigner_nonce_cache.go:106-110 | a new entry that does not expire before the others keeps the cache ordered, which pruning relies on |
| `NonceCache.Cache.Delete` | signer/cosigner_nonce_cache.go:112-114 | splices one entry out |
| `NonceCache.Cache.PruneNonces` | signer/cosigner_nonce_cache.go:116-138 | drops everything before the first live entry and counts it |
| `NonceCache.PruneDropsExpired` | signer/cosigner_nonce_cache.go:116-138 | that is dropping exactly the expired if and only if they all stand in front |
| `NonceCache.OrderedMeansExpiredFirst` | signer/cosigner_nonce_cache.go:116-138 | non-decreasing expirations are enough |
| `NonceCache.Cache.LoadN` | signer/cosigner_nonce_cache.go:308-329 | the loop adds the entries that LoadedEntries describes |
| `NonceCache.LoadedEntries` | signer/cosigner_nonce_cache.go:308-329 | all or nothing: with enough answers, one entry per UUID in order, holding for every cosigner that answered exactly its answer for that UUID |
| `NonceCache.LoadedFits` | signer/cosigner_nonce_cache.go:308-329 | an entry of a load has threshold different cosigners |
| `NonceCache.Cache.Collect` | signer/cosigner_nonce_cache.go:358-372 | the nonces of all peers, exactly when the entry covers them |
| `NonceCache.Cache.GetNonces` | signer/cosigner_nonce_cache.go:354-399 | the first entry that covers all peers leaves the cache with its nonces |
| `NonceCache.GatheredCovers` | signer/cosigner_nonce_cache.go:358-387 | what is handed out holds every requested peer's nonces, uncut |
| `NonceCache.Cache.ClearNonces` | signer/cosigner_nonce_cache.go:401-425 | the in-place loop is the filter-map that thins or drops entries, in order |
| `NonceCache.ThinnedForgets` | signer/cosigner_nonce_cache.go:407-423 | an entry with distinct cosigners is dropped exactly if it would fall below threshold; otherwise it loses that cosigner and nobody else |
| `NonceCache.ClearedForgets` | signer/cosigner_nonce_cache.go:401-425 | after clearing a cache whose entries have distinct cosigners, no entry names the cosigner |
| `NonceCache.HandedOutOnce` | signer/cosigner_nonce_cache.go:106-425 | over any run of single additions, handing out, clearing and pruning, no UUID is handed out twice and every entry keeps threshold different cosigners |
| `NonceRouting.GetNonces` | signer/local_cosigner.go:441-486 | the shorter array ends up with one sealed nonce for every other cosigner, in order |
| `NonceRouting.For` | signer/cosigner.go:131-139 | the nonces for one destination, in order |
| `NonceRouting.ForIsFromOthers` | signer/cosigner.go:131-139 | a chosen cosigner is sent exactly the other chosen cosigners' nonces for it |
| `NonceRouting.AddressedInOrder` | signer/cosigner.go:131-139 | they keep the order in which they were listed |
| `NonceRouting.CacheHandsOutThePool` | signer/cosigner_nonce_cache.go:358-387 | the cache hands out exactly the chosen cosigners' nonces |
| `NonceRouting.LoadedEntryHandsOutThePool` | signer/cosigner_nonce_cache.go:308-387 | the entry loaded for a UUID hands out exactly the letters the peers made for that UUID |
| `NonceRouting.DeliveredFills` | signer/local_cosigner.go:544-615 | storing the sent nonces, in any order, fills exactly their sources' slots |
| `NonceRouting.EverySignerSumsTheChosen` | signer/local_cosigner.go:106-116 | every cosigner, chosen or replacement, sums exactly the chosen set's contributions and its own |
| `NonceRouting.PartialsNeverMismatch` | signer/threshold_signer_soft.go:113-127 | partials of chosen cosigners carry one ephemeral key, so combining never rejects them for a mismatch |
| `RoutedSigning.RoutedSignatureVerifies` | signer/threshold_validator.go:977-1088 | dealt, sealed, routed and opened nonces: the partials of at least threshold chosen cosigners combine to a signature that verifies |
| `ReplacedRounds.KeyAdded` | signer/tsed25519/ed25519.go:70-95 | a nonce key from outside the chosen set is added to their sum |
| `ReplacedRounds.FaultlessIffSameExtras` | signer/threshold_signer_soft.go:113-127 | combining accepts routed partials if and only if all signers put the same point on top of the chosen set's sum |
| `ReplacedRounds.ReplacedFaultlessIffZero` | signer/threshold_validator.go:1021-1029 | with a chosen signer left, a round survives its replacements if and only if their nonce keys are the zero of the group |
| `ReplacedRounds.TwoReplacedByThree` | signer/threshold_validator.go:1021-1029 | 1 and 2 chosen, 3 replaces 2: combining reports a mismatch for any nonce key but zero |
| `Fallback.Collector.Report` | signer/threshold_validator.go:610-631 | the locked section of a worker is one Arrive |
| `Fallback.FirstThresholdKept` | signer/threshold_validator.go:534-632 | for any order of arrival: the first threshold cosigners, under each UUID exactly what they said, one close, and nothing changes after it |
| `Fallback.KeptOnce` | signer/threshold_validator.go:534-632 | cosigners that answer once each are kept once each |
| `Replacement.ReplacementIsNew` | signer/threshold_validator.go:947-958 | a replacement was never asked before |
| `Replacement.FailureGoesOn` | signer/threshold_validator.go:996-1031 | a failed cosigner's worker goes on with the next one, as long as one remains and replacing is allowed |
| `Replacement.OwnFailureEnds` | signer/threshold_validator.go:1009-1011 | if the leader's own cosigner fails, nobody takes its place |
| `Replacement.NobodyLeftUnasked` | signer/threshold_validator.go:977-1042 | in every run no share is given up while a cosigner is left that was not asked |
| `Replacement.ExactlyThresholdSlots` | signer/threshold_validator.go:977-1042 | if no worker fails, exactly as many distinct share slots are filled as cosigners were chosen; whether they combine is ReplacedRounds.ReplacedFaultlessIffZero |
| `LeaderSteps.FoundVote` | signer/threshold_validator.go:453-511 | a cached entry that is reused holds the request's vote with the reported timestamp |
| `LeaderValidity.UseKeeps` | signer/threshold_validator.go:453-492 | a reused signature covers the request's vote restamped |
| `LeaderValidity.SaveKeeps` | signer/threshold_validator.go:1132-1157 | what is saved was verified over the bytes saved with it |
| `LeaderValidity.ApplyKeeps` | signer/threshold_validator.go:794-1177 | every step keeps the cache valid |
| `LeaderValidity.AnswersVerify` | signer/threshold_validator.go:794-1177 | every successful answer to a stamped block, by any path, verifies over bytes that came in with the returned timestamp, for a vote over that vote restamped and, if incoming votes are encoded as the chain does, over its encoding; and over the extension whenever there is one |
| `LeaderUniqueness.UseKeeps` | signer/threshold_validator.go:151-248 | a second attempt starts only from a failure marker or an entry from elsewhere |
| `LeaderUniqueness.AttemptAlone` | signer/threshold_validator.go:151-248 | while an attempt runs nobody else attempts, reuses or answers at its key |
| `LeaderUniqueness.OwnSaveKeeps` | signer/threshold_validator.go:1147-1157 | the attempt's save is what every later answer carries |
| `LeaderUniqueness.MarkKeeps` | signer/threshold_validator.go:252-265 | a failure marker affects its own key only |
| `LeaderUniqueness.OneSignature` | signer/threshold_validator.go:151-441 | with no marker and nothing from elsewhere at a key, one request at most starts an attempt and all answers carry the same signature and timestamp |
| `LeaderProgress.ComparedExactly` | signer/threshold_validator.go:453-511 | a cached entry serves exactly if it is a proposal or the same vote up to the timestamp, with its own signatures and timestamp |
| `LeaderProgress.WaitsExactly` | signer/threshold_validator.go:195-248 | a request waits exactly while nothing is cached for its key and tries are left, and gives up exactly when they run out or something else is cached |
| `LeaderProgress.SameKeyWaits` | signer/threshold_validator.go:151-193 | a request for the key under way waits for it |
| `LeaderProgress.CachedIsAnswered` | signer/threshold_validator.go:834-905 | a signature cached for the same message is the answer, with the cached timestamp and the extension signature if it verifies |
| `LeaderProgress.ResignedIsAnswered` | signer/threshold_validator.go:834-905 | where only the extension is missing at the current height, an extension signature that verifies completes the answer |
| `LeaderProgress.TakesOver` | signer/threshold_validator.go:151-248 | over an entry without a signature the request begins an attempt of its own |
| `LeaderProgress.FreshIsAnswered` | signer/threshold_validator.go:794-1177 | a key nobody asked for is attempted, and signatures that verify are saved and answered |
| `LeaderProgress.ReplicatedIsThere` | signer/raft_events.go:22-42 | a replicated result beyond the watermark is cached for those who wait |
| `LeaderProgress.BehindIsRefused` | signer/threshold_validator.go:426-441 | a key behind the watermark that is not cached any more is turned away |
| `LeaderProgress.OvertakenIsRefused` | signer/threshold_validator.go:151-193 | so is a key that a later one has overtaken, if nothing is cached for it |
| `LeaderProgress.NoAttemptLost` | signer/threshold_validator.go:151-1177 | in every run each attempt is under way, was answered, or left a marker under its key |
| `LeaderProgress.SecondNodeGetsTheSame` | signer/threshold_validator.go:195-248 | a run in which the second of two nodes waits and gets the first one's signature and timestamp |
| `LeaderRestart.NothingLoadedIsSignedAgain` | signer/threshold_validator.go:397-421 | in every run all signing attempts are for keys beyond the watermark that was loaded |
| `LeaderRetries.SecondAttempt` | signer/threshold_validator.go:151-265 | an attempt at a key that was attempted before finds an entry without a signature there, and the key is not clean |
| `LeaderRetries.MarkerAllowsTwoSignatures` | signer/threshold_validator.go:252-265 | a run with one failure marker whose two later answers carry any two signatures that verify |
| `LeaderProposals.ReusedProposal` | signer/threshold_validator.go:453-492 | a reused proposal signature covers the proposal asked for exactly if they are the same message up to the timestamp |
| `LeaderProposals.SecondProposalReuses` | signer/threshold_validator.go:453-492 | a run in which a second proposal is answered with the first one's signature |
| `Wire.SovIsLength` | signer/proto/cosigner.pb.go:2259-2261 | the size from the bit length is the number of bytes a varint takes |
| `Wire.EncodeVarint` | signer/proto/cosigner.pb.go:1943-1953 | writes the varint so that it ends at the offset and nothing else changes |
| `Wire.SizeIsLength` | signer/proto/cosigner.pb.go:1954-2131 | Size is exactly the length of the encoding |
| `Wire.PutField` | signer/proto/cosigner.pb.go:1289-1328 | one field written back to front, nested messages in place |
| `Wire.MarshalToSizedBuffer` | signer/proto/cosigner.pb.go:1571-1652 | fills exactly the last Size bytes with the encoding and touches no other byte |
| `Wire.Marshal` | signer/proto/cosigner.pb.go:1274-1287 | a buffer of Size bytes is filled to the first byte |
| `Wire.DecodeVarint` | signer/proto/cosigner.pb.go:2270-2284 | the accumulating loop reads the groups modulo 2^64, with its overflow and end-of-input errors |
| `WireErrors.NumberRefused` | signer/proto/cosigner.pb.go:2270-2284 | a number is refused exactly if it goes on to the end of the data or for ten bytes |
| `Wire.ReadBack` | signer/proto/cosigner.pb.go:1943-2284 | a varint that was written is read back, wherever it stands |
| `WireLayout.VarintLayout` | signer/proto/cosigner.pb.go:1943-1953 | seven bits a byte, least significant first, high bit on all but the last, none to spare |
| `WireParser.SkipCosigner` | signer/proto/cosigner.pb.go:4256-4333 | the skipping loop with nested groups is SkipAt |
| `WireParser.SkipsField` | signer/proto/cosigner.pb.go:4256-4333 | a whole field is skipped, whatever it is |
| `WireSkip.SkipItem` | signer/proto/cosigner.pb.go:4256-4333 | a field of any wire type, groups nested to any depth included, is passed over inside any number of open groups |
| `WireSkip.SkipsExactly` | signer/proto/cosigner.pb.go:4256-4333 | skipping from the start of any field ends exactly behind it |
| `WireParser.Int32Back` | signer/proto/cosigner.pb.go:2335-2352 | a negative int32 written as a 64-bit varint is read back |
| `WireParser.ReadField` | signer/proto/cosigner.pb.go:2268-2451 | tag, value or skipped field, with every error of the generated code |
| `WireErrors.TagRefused` | signer/proto/cosigner.pb.go:2268-2451 | an end of a group, field number zero and a known field of the wrong wire type are refused |
| `WireParser.ReadChunk` | signer/proto/cosigner.pb.go:2354-2387 | a length-delimited value with its length checks |
| `WireErrors.LengthRefused` | signer/proto/cosigner.pb.go:2354-2387 | a length is accepted exactly if it stays inside the data, with the error saying which bound it breaks |
| `WireParser.Unmarshal` | signer/proto/cosigner.pb.go:2265-2458 | the parsing loop stores field after field as Parse does |
| `WireParser.ParseStores` | signer/proto/cosigner.pb.go:2265-2458 | parsing an encoding stores every known field once, in order, and ignores unknown ones |
| `WireMessages.BlockRoundTrip` | signer/proto/cosigner.pb.go:1289-2458 | a Block survives the wire, negative numbers included |
| `WireMessages.HRSTRoundTrip` | signer/proto/cosigner.pb.go:1528-3147 | an HRST survives the wire |
| `WireMessages.NonceRoundTrip` | signer/proto/cosigner.pb.go:1430-2903 | a Nonce survives the wire |
| `WireMessages.UUIDNonceRoundTrip` | signer/proto/cosigner.pb.go:1484-3021 | a UUIDNonce survives the wire with its nonces in order |
| `WireMessages.RequestRoundTrip` | signer/proto/cosigner.pb.go:1571-3469 | a SetNoncesAndSignRequest survives the wire with both nonce lists and an absent or present HRST |
| `WireLayout.BlockLayout` | signer/proto/cosigner.pb.go:1289-1329 | the bytes of a Block, tag by tag |
| `WireLayout.NonceLayout` | signer/proto/cosigner.pb.go:1430-1468 | the bytes of a Nonce, tag by tag |
| `WireLayout.UUIDNonceLayout` | signer/proto/cosigner.pb.go:1484-1512 | the bytes of a UUIDNonce, tag by tag |
| `WireLayout.HRSTLayout` | signer/proto/cosigner.pb.go:1528-1555 | the bytes of an HRST, tag by tag |
| `WireLayout.RequestLayout` | signer/proto/cosigner.pb.go:1571-1652 | the bytes of a SetNoncesAndSignRequest, tag by tag |

## Left out

- Disk persistence and crash recovery: writes run in unordered background goroutines; runs here are in memory.
- Raft, gRPC, TLS, connection handling and leader gating: only the replicated save is a step.
- ECIES and RSA, SHA-512, randomness, UUID generation: parameters with the contracts named above.
- Unforgeability of Ed25519: a full signature is taken to need shares over the same bytes from a threshold of cosigners.
- The curve group law, the constant tables and point decompression: an abstract group with a table contract.
- GeDoubleScalarMultVartime, slide and the field inversion chain: not used by threshold signing.
- CometBFT parsing of canonical votes, proposals and extensions: arbitrary partial functions.
- The single-signer FilePV: the same gate without concurrency.
- Follower proxying, metrics, CLI commands, migration, floating-point demand estimation of the nonce cache.
- The remaining wire messages, whose fields are of the kinds covered here.
- The clusterKeyFile checks of the configuration: they concern TLS identities, not the threshold.
- Slices are values: writes through a shared backing array, such as append to a signature's first 32 bytes, are not modelled.
- SigningState.SignState.Save: does not model the disk write and the wake-up of waiting requests, which happen after the state has changed.
- NonceStore.Store.GenerateIfNecessary: states the call without another writer between its two locked sections; the race is an event of the step system, where a second record overwrites the first.
- ThresholdSigner.AddElements: an element whose decompression fails is whatever the decoding function makes of it.
- ThresholdSigner.ScalarMultiplyBase: says nothing about scalars longer than 64 bytes beyond the length of the result; they are cut.
- Cluster.NoDoubleSign: assumes that nothing parses both as a vote extension of the chain and as a vote or proposal, which holds of the CometBFT messages for every chain ID that ValidateChainID accepts (the proposal parser refuses a chain ID in field 4, the extension parser a vote type in field 1), and the unforgeability above.
- LeaderSteps.Loaded: the leader's own chain state is stored once per run; it is loaded without a lock too (signer/threshold_validator.go:397-421), and a second store would replace it as ChainLoading shows for the cosigner.
- LeaderValidity.AnswersVerify: assumes that entries replicated from other leaders, and the entry loaded at start, were verified there.
- NonceCache.HandedOutOnce: assumes that UUIDs drawn are new, that expirations of successive loads do not decrease and that peers have distinct IDs.
- WireMessages.RequestRoundTrip: for encodings shorter than 2^63 bytes, as are all Go slices; the other round trips likewise.

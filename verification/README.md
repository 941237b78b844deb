# Verified models of the BLOC protocol core

This project models the three parts of the system whose correctness is hard to see from the code, and proves
what they promise. `dafny verify dfyconfig.toml` checks all of it.

**The asynchronous common subset protocol** (`sbc/hbbft`). Every member runs one reliable broadcast and one
binary agreement per proposer inside a common subset instance. `BbaSpec`, `RbcSpec` and `AcsSpec` say, as
functions, what each handler call does to an instance's state: the code's own equality thresholds, its
re-entrant calls and its replay of queued messages. Next to the code's fields a state has history fields that no
branch reads: what was said and heard, and one record per epoch left. `Bba`, `Rbc` and `Acs` are the instances as
objects whose fields the handlers change in place, proved to follow those functions. `BbaInvariant`, `RbcInvariant`
and `AcsInvariant` hold what every call keeps, `BbaSafety`, `RbcSafety` and `AcsSafety` what holds between members,
and `AcsTheorems` and `AcsDelivery` what every run guarantees. `BbaReplay` says what becomes of messages that come
before their epoch, `RbcProgress` and `RbcDelivery` when a broadcast stops its member and when it delivers. A run is any
interleaving of events at correct members: own proposals, deliveries, and outputs taken. The network keeps whatever
correct members have said; faulty members, at most f of n >= 3f + 1 with f >= 1, say anything under their own ids;
delivery is in any order, late, repeated or never.

**Batched threshold encryption** (`bte/btd-impl-main`). Group elements are known by their exponents modulo the
group order (`Zq`, `Groups`). `Prf`, `ElGamal` and `Btd` are the puncturable function, threshold ElGamal and the
batched scheme with its proof check; `Shamir` proves Lagrange interpolation at zero; `BtdDecryption` proves that the
pads cancel. `Arrange` and `Planner` are the collision-free batch planner, `Subsets` and `Combine` the bounded search
for valid share subsets, `Wire` the canonical encodings, `Cluster` the operations of a cluster, and `RoundTrip` puts
them together: whatever other admissible shares are around, t right shares for every sub-batch bring back every
transaction at its place.

**The share store and reconstruction driver** (`bloc-node/internal/app`), with two small machines beside it.
`SlotSpec`, `SlotInvariant` and `SlotStore` are the slot state that the lock protects, as functions, invariants and
an object; `Driver` interleaves the threads that receive, plan and reconstruct, `DriverClaims` says which of its
claims repeat, and `DriverDelivery` joins it to the round trip. `Framing` and `PeerStream` are the
frame format and the persistent stream writer; `SendAccounting` is the account of scheduled and completed sends that
published traces are checked against, as `RbcTrace` is for READY triggers.

What the model takes as given:

- Members know each other, and the sender of a message is authenticated: a message handed to a member carries the
  id of the member that sent it, and a member is not handed messages of its own over the network.
- A Merkle root determines the shard vector it commits to, a valid proof carries a leaf, and encoding and
  reconstruction return vectors of the membership's size (`RbcSpec.Codec.Lawful`). When echoed proofs repeat an index,
  sorting leaves their order open; any leaf echoed for a position may be the one used (`RbcSpec.Picks`).
- What `RbcDelivery` says of decoding asks more of these libraries: a proposer's proofs are valid; a valid proof under a
  vector's root that names the true number of leaves carries the entry of its index; n - 2f entries restore an encoded
  vector, fewer restore nothing, and reconstruction keeps the entries it is given. Delivery is stated of members that
  got their own proof from the proposer; the network of the runs may hand anyone's proof to anyone.
- The group order is prime (`Shamir.IsField`), more than the number of operators; the drawn reference-string scalars
  are not zero, and come with their inverses.
- Element encodings are canonical (`Wire.Codec.Canonical`). The challenge and digest hashes are arbitrary functions.
- A sealed transaction opens with the secret that sealed it (`Cluster.Library.Lawful`), and of the secrets that the
  shares at hand lead to, no other opens it (`RoundTrip.Unforged`). Only the second is an idealization of
  authenticated encryption; it is asked for these secrets only.
- Lengths fit the platform's 63-bit integers; where bytes are parsed the bounds are written out.
- The operators of a slot are numbered 0 to N - 1, as the configuration generator numbers them.

Where comments and code disagree the model follows the code, and these promises do not hold as they are written:

- Messages of later epochs are to be processed later (`sbc/hbbft/bba.go:252`). The exact rule is
  `BbaReplay.HandleSettles` and `BbaReplay.EnterSettles`: on entering an epoch the queue as it then stands is replayed;
  its votes for that epoch are counted, in order, up to where the epoch is left again or the instance is done; and a
  call that leaves an epoch ends with an empty queue. So votes for the next epoch count, votes for the one after it
  count if the call ends there, and what is past the epoch reached is gone. `BbaReplayCases` runs an instance from its
  start into each case: a vote two epochs ahead that is lost, one that is counted because the replay itself goes on to
  its epoch, and one three ahead that is lost although the call does reach its epoch, since the replay nested in
  between has emptied the queue.
- A failed reconstruction is to be retried only with newly accepted shares (`bloc-node/internal/app/node.go:989`). That
  is so of the retry the failed attempt itself asks for. A claim in general has new shares if and only if the slot's
  share version is past the latest claim's (`DriverClaims.RunRepeats`); a repeated share, or one accepted before that
  claim, can wake a thread for a claim of the same shares (`DriverClaims.TwiceWithTheSameShares`).
- Up to f faulty members are to be tolerated, and a correct proposer's broadcast is to be delivered. The proof check
  takes index and number of leaves from the sender and bounds neither (`sbc/hbbft/rbc.go:449-455`); an index outside the
  shard vector ends the process (`sbc/hbbft/rbc.go:356`), and one inside it can put a leaf in a wrong place. So a faulty
  proposer can stop correct members (`AcsStops.OneProposerStopsAMember`), and in a correct proposer's broadcast one ECHO
  of a faulty member that misnames the number of leaves can stop a correct member (`AcsStops.OneEchoStopsAMember`) or
  keep it from ever decoding (`AcsStops.OneEchoBlocksAMember`). Exactly when a member stops is `AcsDelivery.RunStopsExactly`
  and `RunCorrectStops`; decoding can fail exactly if an untrue leaf is among the ECHOs held (`RbcDelivery.CanFailIff`);
  and a member that holds no ECHO with another number of leaves than n, which it could check, neither stops nor fails to
  decode (`AcsDelivery.RunTrueCountsStopNobody`, `RunDelivers`).
- What one correct member decodes all are to decode. All become ready to decode it (`AcsDelivery.RunSpreads`), but more
  than f ECHOs are enough to be ready, and their indices may repeat: with true leaf counts a member has decoded an encoded
  vector exactly if the ECHOs it holds fill n - 2f positions (`AcsDelivery.RunDecodesExactly`).

The largest-bound case in `AcsTheorems.RunTriggerAccepted` is the one the node configures
(`bloc-node/internal/app/node.go:137`); for any other bound the published-trace check rejects every recorded trigger.

## Model

| member | source | states |
|---|---|---|
| AcsTheorems.RunAgreement | sbc/hbbft/acs.go:435-464 | at any two points of any run, two correct members that have decided hold the same proposer-to-value map, with n - f entries at least |
| AcsTheorems.RunProgresses | sbc/hbbft/acs.go:290-304 | over a run a decided subset never changes, and what each child said, heard, decided or decoded is never taken back |
| AcsTheorems.RunBbaAgreement | sbc/hbbft/bba.go:269-376 | no two correct members' agreements on one proposer ever decide differently, at whatever points of the run they decide |
| AcsTheorems.RunDecisionLocks | sbc/hbbft/bba.go:315-376 | once a correct member has decided in epoch r, every correct member enters every later epoch with that value, which is the coin of r |
| AcsTheorems.RunDecisionAlone | sbc/hbbft/bba.go:269-292 | once a correct member has decided in epoch r, no other value enters any correct member's binValues in a later epoch, neither in one already left nor in the current one |
| AcsTheorems.RunBroadcastAgreement | sbc/hbbft/rbc.go:280-379 | all READYs of correct members for one proposer carry one root, and any two of their decoded outputs are the same, for every membership with n >= 3f + 1 |
| AcsTheorems.RunTrueIsBacked | sbc/hbbft/acs.go:369-377 | if a correct member has the result true for a proposer, some correct member has stored that proposer's broadcast output |
| AcsTheorems.RunEntryWasProposed | sbc/hbbft/acs.go:246-275 | a decided entry of a correct proposer is the value of the shards that proposer sent |
| AcsTheorems.RunInputRules | sbc/hbbft/acs.go:386-433 | an agreement has the input false only if n - f agreements of its member gave true, the input true only with the broadcast's output stored; with n - f true results, or the output, no input is accepted any more |
| AcsTheorems.RunCompletes | sbc/hbbft/acs.go:358-384 | in a run, a member whose results complete the subset has decided: completion is never missed |
| AcsTheorems.RunBbaPrompt | sbc/hbbft/bba.go:239-376 | after every event: a value is admitted exactly with 2f + 1 senders, relayed with f + 1, one own AUX exists exactly once something is admitted, a quorum of valid AUX never sits unused unless done, and done comes exactly two epochs after the decision |
| AcsTheorems.RunRbcPrompt | sbc/hbbft/rbc.go:280-379 | while READY is unsent every root has at most f READYs and fewer than n - f ECHOs; unless decoded, every root with enough of both has been tried with the ECHOs held; recorded trigger counts are exact |
| AcsTheorems.RunTriggerAccepted | bloc-node/internal/app/acs_trace_artifact.go:383-415 | every READY trigger a run records passes the check of published traces, if and only if f is the largest bound for the membership |
| AcsSafety.RunIsConsistent | sbc/hbbft/acs.go:290-304 | every reachable state satisfies the composed invariant of all members and of every proposer's broadcast and agreement nets |
| AcsSafety.EventKeeps | sbc/hbbft/acs.go:194-205 | one event at one member, fed with anything the network can hold, keeps the composed invariant and only moves that member forward |
| AcsCompletion.RunIsTidy | sbc/hbbft/acs.go:358-384 | at every point of a run a correct member with complete results has decided, and no child's output is left uncollected |
| AcsCompletion.ProposalStoresNothing | sbc/hbbft/acs.go:245-276 | in a run, taking the own proposal stores no result, so the missing completion attempt on that path costs nothing |
| AcsInvariant.HandleMessageKeeps | sbc/hbbft/acs.go:194-205 | a handled message, of any kind and for any proposer, keeps the instance's invariant; children only move forward and hear at most that message |
| AcsInvariant.InputValueKeeps | sbc/hbbft/acs.go:245-276 | so does the own proposal |
| AcsInvariant.InjectFalseKeeps | sbc/hbbft/acs.go:409-427 | giving false to every agreement that still accepts an input restores the invariant: none accepts an input after it |
| AcsInvariant.TakeResultKeeps | sbc/hbbft/acs.go:400-430 | storing a result keeps the invariant: the count of true results passes n - f only through it, with the injection made then |
| AcsInvariant.ProcessAgreementKeeps | sbc/hbbft/acs.go:386-433 | an action on one agreement keeps the invariant, and fails exactly if the agreement rejects the message |
| Acs.ACS.HandleMessage | sbc/hbbft/acs.go:194-205 | the object moves as the specified step does, for every payload, proposer and sender, errors included |
| Acs.ACS.InputValue | sbc/hbbft/acs.go:245-276 | the own proposal moves the object as specified, without an attempt to complete |
| Acs.ACS.HandleBroadcast | sbc/hbbft/acs.go:352-384 | the broadcast's output is stored, true is offered to the agreement, and completion is tried, unless a call failed before |
| Acs.ACS.ProcessAgreement | sbc/hbbft/acs.go:386-433 | the agreement is driven, collected, its first result stored with the injection at n - f, and completion tried |
| Acs.ACS.InjectFalseInputs | sbc/hbbft/acs.go:409-427 | the loop, in any order of the agreements, ends in the one state that giving false to all that accept defines |
| Acs.ACS.TryCompleteAgreement | sbc/hbbft/acs.go:435-464 | the subset is put out once: all results in, n - f true, every true proposer's value there |
| Acs.ACS.CountTruthyAgreements | sbc/hbbft/acs.go:523-531 | the number of true results |
| Acs.ACS.CollectResults | sbc/hbbft/acs.go:451-459 | the values of the true proposers, or nothing if one is missing |
| BbaInvariant.HandleKeeps | sbc/hbbft/bba.go:239-267 | one handler call, with all its re-entry and replay, keeps the instance's invariant (no missed trigger, sourced votes, decision two epochs before done) and puts a decision out in the call that takes it |
| BbaInvariant.InputKeeps | sbc/hbbft/bba.go:225-235 | taking an input keeps the invariant, makes it the estimate of the first epoch, and no input is accepted after it |
| BbaInvariant.EpochBound | sbc/hbbft/bba.go:239-376 | one handler call ends, and leaves the epoch as it is or at most one past the largest among the message and the queue |
| BbaReplay.HandleSettles | sbc/hbbft/bba.go:239-376 | a call that stays in its epoch queues exactly a message of a later one; one that leaves it ends with an empty queue, the next epoch having exactly the queued votes up to where it was left, the one after it all of them if the call ends there, and nothing past the epoch reached counted or queued |
| BbaReplay.InputSettles | sbc/hbbft/bba.go:225-235 | the same of taking an input |
| BbaReplay.EnterSettles | sbc/hbbft/bba.go:361-376 | on every entering of an epoch, nested ones too: its tallies are the own vote and the votes of a prefix of the queue as it stands, all of it unless the epoch is left or the instance done |
| BbaReplay.LostStaysLost | sbc/hbbft/bba.go:368-375 | a vote neither counted nor queued is not counted after any further messages unless it is among them |
| BbaReplayCases.TwoAheadIsLost | sbc/hbbft/bba.go:252-255 | a run of one instance in which a queued vote two epochs ahead is dropped, and stays lost |
| BbaReplayCases.TwoAheadIsCounted | sbc/hbbft/bba.go:368-375 | a run in which such a vote is counted, since the replay goes on to its epoch |
| BbaReplayCases.ReachedAndLost | sbc/hbbft/bba.go:368-375 | a run in which a vote of an epoch is lost although the same call enters that epoch |
| BbaSpec.TryOutput | sbc/hbbft/bba.go:315-376 | leaving an epoch and replaying the queue ends, never lowers the epoch, and never passes the queue's bound by more than one |
| BbaSafety.MoveKeeps | sbc/hbbft/bba.go:269-301 | any move of one correct member keeps: votes come from what members said, and every BVAL said is some correct member's estimate |
| BbaSafety.QuorumSeesValue | sbc/hbbft/bba.go:315-349 | if one member closed an epoch with v alone, every correct member that closed it accepted v |
| BbaSafety.DecisionLocks | sbc/hbbft/bba.go:315-376 | after a decision every correct member's later estimates are the decision |
| BbaSafety.DecisionAlone | sbc/hbbft/bba.go:269-292 | after a decision only the decided value is admitted to binValues, by any correct member in any later epoch |
| BbaSafety.Agreement | sbc/hbbft/bba.go:315-376 | no two correct members decide differently |
| BbaSafety.DecisionWasInput | sbc/hbbft/bba.go:225-376 | a decided value was some correct member's input |
| Bba.BBA.Handle | sbc/hbbft/bba.go:239-267 | the object ends in the specified state for every message, and errs exactly on an unknown payload of its own epoch |
| Bba.BBA.InputValue | sbc/hbbft/bba.go:225-235 | the input is taken in the first epoch, once |
| Bba.BBA.HandleBvalRequest | sbc/hbbft/bba.go:269-301 | the two equality thresholds, admission with the own AUX, relay with the own vote, recursion included |
| Bba.BBA.HandleAuxRequest | sbc/hbbft/bba.go:303-310 | the vote is kept and the epoch tried |
| Bba.BBA.TryOutputAgreement | sbc/hbbft/bba.go:315-376 | waits, finishes, or leaves the epoch, votes in the next and replays the queue |
| Bba.BBA.ReplayDelayed | sbc/hbbft/bba.go:368-375 | the queue as it stood is handled in order; what the handlers queue meanwhile is dropped |
| Bba.BBA.CountOutputs | sbc/hbbft/bba.go:391-412 | the number of senders of admitted AUX values, and those values, false first |
| RbcInvariant.HandleMessageKeeps | sbc/hbbft/rbc.go:202-215 | every handled message keeps: sourced votes, one ECHO and one READY at most, exact trigger, no threshold passed in silence, every eligible root tried |
| RbcInvariant.InputValueKeeps | sbc/hbbft/rbc.go:184-200 | so does the own proposal, whose proofs all carry one root |
| RbcProgress.HandleMessageAttends | sbc/hbbft/rbc.go:202-379 | every handled message keeps: the instance has stopped exactly if, before any decoding, a root was ready to be decoded with an index outside the vector; all valid votes handed in count, and held ECHOs are valid |
| RbcSafety.MoveKeeps | sbc/hbbft/rbc.go:316-332 | every READY a correct member sends rests on an ECHO quorum some correct member held |
| RbcSafety.OneRoot | sbc/hbbft/rbc.go:280-302 | at most one root ever has an ECHO quorum at a correct member |
| RbcSafety.ReadyAgreement | sbc/hbbft/rbc.go:304-332 | READYs of correct members carry the same root |
| RbcSafety.Agreement | sbc/hbbft/rbc.go:337-379 | two correct members decode the same shards |
| RbcSafety.Validity | sbc/hbbft/rbc.go:184-200 | what is decoded of a correct proposer is what it proposed |
| RbcDelivery.CanFailIff | sbc/hbbft/rbc.go:344-372 | under the root of an encoded vector, with indices in range and n - 2f positions filled, an attempt at decoding can fail if and only if an ECHO held under the root does not carry the entry of its index |
| RbcDelivery.AttemptIff | sbc/hbbft/rbc.go:344-372 | an attempt under the root of an encoded vector succeeds if and only if n - 2f positions are filled and the leaves picked for them are the true ones |
| RbcDelivery.CorrectProposerStops | sbc/hbbft/rbc.go:337-361 | in a correct proposer's broadcast a member has stopped if and only if, nothing decoded, the proposed root is ready to be decoded and an ECHO under it has an index outside the vector |
| RbcDelivery.TrueCountsStopNobody | sbc/hbbft/rbc.go:337-361 | a correct proposer's broadcast stops no member whose ECHOs under the proposed root all name n leaves |
| RbcDelivery.MiscountIsFaulty | sbc/hbbft/rbc.go:252-274 | in a correct proposer's broadcast, an ECHO that names another number of leaves came from a faulty member |
| RbcDelivery.Delivery | sbc/hbbft/rbc.go:252-379 | if the proposer is correct and has proposed, and all that correct members said has arrived at those that have not stopped, a correct member has decoded the proposed shards, unless it holds a faulty member's ECHO under their root that names another number of leaves |
| RbcDelivery.DecodedSpreads | sbc/hbbft/rbc.go:280-379 | for any proposer, when all that correct members said has arrived, every correct member is ready to decode what one of them decoded: it has stopped exactly if it had not decoded and an ECHO is misplaced, has decoded the same, or holds ECHOs with which decoding can fail |
| RbcDelivery.DecodedExactly | sbc/hbbft/rbc.go:337-379 | then, under the root of an encoded vector and with true leaf counts, a member has not stopped, and has decoded if and only if the ECHOs it holds fill n - 2f positions |
| AcsDelivery.RunStopsExactly | sbc/hbbft/rbc.go:337-361 | in a run, a broadcast has stopped its member if and only if, nothing decoded, some root has more than 2f READYs and more than f ECHOs and an ECHO under it has an index outside 0 to n - 1 |
| AcsDelivery.RunCorrectStops | sbc/hbbft/rbc.go:337-361 | in a run, a correct proposer's broadcast has stopped a member if and only if, nothing decoded, the proposed root is ready to be decoded and an ECHO under it has an index outside the vector |
| AcsDelivery.RunTrueCountsStopNobody | sbc/hbbft/rbc.go:337-361 | in a run, a member stopped by a correct proposer's broadcast holds a faulty member's ECHO under the proposed root that names another number of leaves than n |
| AcsDelivery.RunDelivers | sbc/hbbft/rbc.go:252-379 | in a run, once all that correct members said in a correct proposer's broadcast has arrived, a correct member has decoded it, unless it holds a faulty member's ECHO under its root that names another number of leaves |
| AcsDelivery.RunSpreads | sbc/hbbft/rbc.go:280-379 | totality in a run, for any proposer: what one correct member decoded every other one is ready to decode, and whether it has stopped, decoded the same or can fail is exact |
| AcsDelivery.RunDecodesExactly | sbc/hbbft/rbc.go:337-379 | in a run, with true leaf counts and an encoded vector, every correct member has decoded what one of them decoded if and only if the ECHOs it holds fill n - 2f positions |
| AcsDelivery.RunNeverDecodes | sbc/hbbft/rbc.go:280-314 | in a run, a member that holds an ECHO and a READY of every member and has not decoded never will |
| AcsStops.OneProposerStopsAMember | sbc/hbbft/rbc.go:337-361 | a run of four members in which a valid proof with an index outside the vector, from the one faulty proposer, stops a correct member |
| AcsStops.OneEchoStopsAMember | sbc/hbbft/rbc.go:337-361 | a run of four members in which one faulty ECHO with an index outside the vector, in a correct proposer's broadcast, stops a correct member |
| AcsStops.OneEchoBlocksAMember | sbc/hbbft/rbc.go:344-372 | a run of four members in which one faulty ECHO with the leaf of another position, in a correct proposer's broadcast, leaves a correct member that holds all ECHOs and READYs without the value for good |
| RbcTrace.RecordedTriggerAccepted | bloc-node/internal/app/acs_trace_artifact.go:383-415 | a recorded trigger is accepted if and only if f == (n - 1) / 3 |
| Rbc.RBC.HandleMessage | sbc/hbbft/rbc.go:202-215 | the object and the error are as specified for every message |
| Rbc.RBC.HandleProofRequest | sbc/hbbft/rbc.go:252-277 | only the proposer's first valid proof is echoed |
| Rbc.RBC.HandleEchoRequest | sbc/hbbft/rbc.go:280-302 | one valid ECHO a sender; READY at n - f |
| Rbc.RBC.HandleReadyRequest | sbc/hbbft/rbc.go:304-314 | one READY a sender; relay at f + 1 |
| Rbc.RBC.EmitReady | sbc/hbbft/rbc.go:316-332 | one READY, recorded with the counts that triggered it, then a decoding attempt |
| Rbc.RBC.TryDecodeValue | sbc/hbbft/rbc.go:337-379 | decodes once, with more than 2f READYs and f ECHOs, and only shards the root commits to; a shard index outside the vector stops the process |
| Rbc.RBC.AssembleShards | sbc/hbbft/rbc.go:341-355 | every position gets a leaf echoed for it under the root, if there is one, and an index outside is noticed |
| Rbc.RBC.InputValue | sbc/hbbft/rbc.go:184-200 | encodes, handles the first proof, returns the others in order |
| Rbc.RBC.CountEchos | sbc/hbbft/rbc.go:382-390 | the number of ECHOs for a root |
| Rbc.RBC.CountReadys | sbc/hbbft/rbc.go:393-401 | the number of READYs for a root |
| Prf.PRFSetup | bte/btd-impl-main/prf/prf.go:36-65 | the reference string is the powers of the drawn scalars, with z_i / x_j at every pair of indices |
| Prf.EvaluationsAgree | bte/btd-impl-main/prf/prf.go:312-353 | evaluation with the key, with its power, and away from the punctured index with the punctured key all agree |
| Shamir.WeightsSumToOne | bte/btd-impl-main/elgamal/elgamal.go:91-99 | the interpolation weights at zero of any distinct nonzero points sum to one |
| Shamir.InterpolatesUpTo | bte/btd-impl-main/elgamal/elgamal.go:91-99 | interpolation at zero through distinct nonzero points recovers any polynomial with no more coefficients than points |
| ElGamal.RecoverGivesMask | bte/btd-impl-main/elgamal/elgamal.go:84-99 | exactly t correct shares of distinct operators recover the secret multiple of the ciphertext's first part |
| ElGamal.CombineUndoesEnc | bte/btd-impl-main/elgamal/elgamal.go:68-99 | decryption with t correct shares undoes encryption under the shared key |
| ElGamal.EncAdds | bte/btd-impl-main/elgamal/elgamal.go:37-42 | the sum of two encryptions encrypts the sum of the messages |
| Btd.EncVerifies | bte/btd-impl-main/be/btd.go:126-172 | every encryption with an index in the domain is accepted by the proof check and hides its message |
| Btd.TwoAnswersReveal | bte/btd-impl-main/be/btd.go:42-66 | the proof is one of knowledge: two accepted answers to different challenges on the same commitments yield the key and randomness of the ciphertext |
| Btd.ValidateDistinctIndices | bte/btd-impl-main/be/btd.go:253-262 | errs exactly if an index repeats |
| Btd.SumEGCt | bte/btd-impl-main/be/btd.go:379-396 | the sum of all ciphertexts, or an error if one is to be verified and fails |
| Btd.BatchDecWithShare | bte/btd-impl-main/be/btd.go:189-201 | the share of the sum, exactly for batches that fit, have distinct indices and verify |
| Btd.BatchCombineMessages | bte/btd-impl-main/be/btd.go:203-251 | the messages of the batch by unpadding, or an error, for every batch and every list of shares |
| BtdDecryption.UnpadsTo | bte/btd-impl-main/be/btd.go:219-250 | the pads cancel: each ciphertext of a well-formed batch yields exactly its message |
| BtdDecryption.BatchDecrypts | bte/btd-impl-main/be/btd.go:203-251 | with t correct shares of distinct operators the whole batch decrypts to its messages, in order |
| Subsets.CombinationsComplete | bte/btd-impl-main/be/cluster.go:578-602 | every increasing k-tuple below n is in the list of tuples |
| Subsets.CombinationsOrdered | bte/btd-impl-main/be/cluster.go:578-602 | the list is strictly increasing in lexicographic order, so no tuple comes twice |
| Subsets.CombinationsCount | bte/btd-impl-main/be/cluster.go:578-602 | the list has binomial length |
| Subsets.StepFollowsList | bte/btd-impl-main/be/cluster.go:591-600 | the loop's step goes from each tuple to the next of the list, and stops exactly at the last |
| Subsets.RaiseInPlace | bte/btd-impl-main/be/cluster.go:597-600 | the in-place step: one element raised, those after it counted up from it |
| Subsets.ForEachShareCombination | bte/btd-impl-main/be/cluster.go:578-602 | the function is fed with exactly that list, in order, until it says stop |
| Combine.SearchFindsFirst | bte/btd-impl-main/be/cluster.go:520-562 | the search returns the first valid subset whenever it lies within the attempt limit, after that many attempts |
| Combine.SearchFindsNothing | bte/btd-impl-main/be/cluster.go:550-560 | without one it gives nothing, after as many attempts as it may make |
| Combine.SearchIsBounded | bte/btd-impl-main/be/cluster.go:524-528 | attempts never exceed the limit, and a result is one some subset gave |
| Combine.CombineSubBatch | bte/btd-impl-main/be/cluster.go:520-562 | result and attempts of the search over all threshold subsets |
| Combine.Admit | bte/btd-impl-main/be/cluster.go:470-497 | shares are grouped by sub-batch exactly if all belong to the plan and no operator gives two |
| Combine.CombineSharesBounded | bte/btd-impl-main/be/cluster.go:459-518 | results by position and attempts per sub-batch, for every plan, list of shares and options |
| Combine.SortAscends | bte/btd-impl-main/be/cluster.go:500 | the shares of a sub-batch are searched in the order of their operators |
| Combine.OneOrder | bte/btd-impl-main/be/cluster.go:500 | shares of different operators have one such order |
| Combine.WorkIsBounded | bte/btd-impl-main/be/cluster.go:503-513 | no sub-batch is given more attempts than its limit, whether or not the combination succeeds |
| Arrange.ArrangedIsPartition | bte/btd-impl-main/be/cluster.go:339-393 | for every non-empty batch the arrangement exists and splits it into alpha non-empty sub-batches: every ciphertext in exactly one, under its position, no index twice in any |
| Arrange.AlphaBounds | bte/btd-impl-main/be/cluster.go:353-365 | alpha is between one and the batch size, and no index occurs more often |
| Arrange.PlacedKeeps | bte/btd-impl-main/be/cluster.go:395-419 | the greedy placement never runs out of sub-batches if no index occurs more often than there are any, and fills all of them |
| Arrange.SortedIsOrdered | bte/btd-impl-main/be/cluster.go:370-377 | the stable sort puts the items in the one order by frequency and position |
| Arrange.SortedAdds | bte/btd-impl-main/be/cluster.go:370-377 | and only permutes them |
| Arrange.SelectIsShortest | bte/btd-impl-main/be/cluster.go:404-412 | the chosen sub-batch is a shortest one without the index, or there is none |
| Planner.PlanSucceeds | bte/btd-impl-main/be/cluster.go:339-352 | planning fails exactly for an empty or oversized batch or one with a malformed ciphertext |
| Planner.ArrangeBatch | bte/btd-impl-main/be/cluster.go:339-393 | the planner's loops compute that arrangement; the final check never fails |
| Planner.CountIndices | bte/btd-impl-main/be/cluster.go:346-352 | the occurrences of every index, unless a ciphertext is malformed |
| Planner.ChooseAlpha | bte/btd-impl-main/be/cluster.go:353-365 | alpha for these counts |
| Planner.Deal | bte/btd-impl-main/be/cluster.go:378-381 | round robin over alpha sub-batches |
| Planner.ArrangeCollisionFree | bte/btd-impl-main/be/cluster.go:395-419 | the greedy loops place every item as specified, or report the first that has no place |
| Planner.ValidateSubBatchIndices | bte/btd-impl-main/be/cluster.go:421-433 | errs exactly if some sub-batch holds an index twice |
| Wire.CapsuleRoundTrip | bte/btd-impl-main/be/cluster.go:764-844 | parsing a capsule's bytes gives the capsule |
| Wire.CapsuleIsCanonical | bte/btd-impl-main/be/cluster.go:788-844 | bytes that parse as a capsule are the capsule's encoding |
| Wire.CiphertextRoundTrip | bte/btd-impl-main/be/cluster.go:714-762 | parsing a ciphertext's bytes gives it back exactly if its shape is valid |
| Wire.CiphertextIsCanonical | bte/btd-impl-main/be/cluster.go:730-762 | only bytes that re-encode to themselves are accepted |
| Wire.ReadsField | bte/btd-impl-main/be/cluster.go:846-866 | a length-prefixed field is read back, and what follows it is left |
| Wire.FieldIsCanonical | bte/btd-impl-main/be/cluster.go:854-866 | bytes read as a field are that field's encoding |
| Wire.PreimageInjective | bte/btd-impl-main/be/cluster.go:675-697 | different lists of ciphertexts have different batch id preimages |
| Cluster.PlanBatch | bte/btd-impl-main/be/cluster.go:280-290 | plan and batch id of a list of ciphertexts |
| Cluster.DecodeBatch | bte/btd-impl-main/be/cluster.go:293-310 | the parsed list with the id of the bytes, or an error if it is too long or one does not parse |
| Cluster.PlanDecodedBatch | bte/btd-impl-main/be/cluster.go:313-324 | the plan of a parsed batch, under the id it was parsed with |
| Cluster.ParseOncePlansTheSame | bte/btd-impl-main/be/cluster.go:293-324 | parsing once and planning gives the same plan and id as planning the parsed list |
| Cluster.EncodedParses | bte/btd-impl-main/be/cluster.go:293-310 | every list of well-shaped ciphertexts is the parse of its encoding |
| Cluster.MakeShare | bte/btd-impl-main/be/cluster.go:435-449 | the operator's share of the sum of a sub-batch, if and only if the plan has the sub-batch and it can be decrypted |
| RoundTrip.SharesAreRight | bte/btd-impl-main/be/cluster.go:435-449 | for a sub-batch that carries the transactions an operator makes a share, which is the only right one of that operator |
| RoundTrip.EndToEnd | bte/btd-impl-main/be/cluster.go:457-576 | for any batch of encrypted transactions, with t right shares for every sub-batch, any further admissible shares and limits of at least C(s, t), the combination succeeds and result i is transaction i |
| RoundTrip.OperatorsSuffice | bte/btd-impl-main/be/cluster.go:435-449 | shares made by t operators are enough right shares |
| RoundTrip.PlanIsFaithful | bte/btd-impl-main/be/cluster.go:280-290 | encrypted transactions can always be planned, and the plan carries each under its position |
| RoundTrip.SearchDelivers | bte/btd-impl-main/be/cluster.go:520-562 | among any shares with t right ones the search finds a valid subset within C(s, t) attempts, and what it returns is right |
| RoundTrip.SuccessIsRight | bte/btd-impl-main/be/cluster.go:564-576 | whatever subset succeeds, good shares or bad, the plaintexts are the transactions |
| SlotInvariant.AddShareKeeps | bloc-node/internal/app/node.go:1086-1154 | adding keeps the store in order, loses nothing, never exceeds its capacity, and an accepted or duplicate share is then retained |
| SlotInvariant.PruneKeeps | bloc-node/internal/app/node.go:1195-1207 | planning drops exactly the shares that are not for the plan |
| SlotInvariant.ClaimKeeps | bloc-node/internal/app/node.go:992-1019 | a claim takes all that is retained and passes every admission check of the combination |
| SlotInvariant.RecordKeeps | bloc-node/internal/app/node.go:1021-1038 | booking takes the attempts off what is left, exactly unless more were made than were left |
| Driver.RunKeeps | bloc-node/internal/app/node.go:903-1047 | every interleaving of receiving, planning and reconstructing threads keeps the slot's invariant |
| Driver.RunIsFrugal | bloc-node/internal/app/node.go:992-1038 | at most one reconstruction is in flight, and the attempts for a sub-batch over all of them stay within the limit |
| Driver.RunBooksExactly | bloc-node/internal/app/node.go:1021-1038 | the cut at zero is never used: what is left drops by exactly the attempts made |
| Driver.RunHasRoom | bloc-node/internal/app/node.go:1135-1140 | no share is ever turned away for lack of room |
| Driver.RunClaimsSuffice | bloc-node/internal/app/node.go:992-1019 | every claim in a run passes the combination's admission checks, has t shares for every sub-batch and attempts left |
| Driver.RunStrandsNothing | bloc-node/internal/app/node.go:903-1047 | if a reconstruction can start and a retained share was not in the latest claim, a thread is about to ask for one, and its claim will have the share |
| Driver.RunKeepsShares | bloc-node/internal/app/node.go:1086-1154 | what is retained after planning is retained for good |
| Driver.RunClaimsAccepted | bloc-node/internal/app/node.go:591-600 | a share accepted after planning is in every claim taken from then on |
| DriverClaims.RunRepeats | bloc-node/internal/app/node.go:989-1047 | a claim in a run has the same shares as the latest one before it if and only if no share was accepted in between |
| DriverClaims.TwiceWithTheSameShares | bloc-node/internal/app/node.go:591-600 | a run on a batch that verifies, with the own share made and no share received twice, in which two claims in a row have the same shares |
| DriverDelivery.RunDelivers | bloc-node/internal/app/node.go:903-1047 | in a run that planned the encrypted transactions and holds t operators' shares for every sub-batch, whatever else it holds: the next request with nothing in flight and budget for the subsets gets a claim, and when its search is finished the slot has the transactions in order, unless it ended before |
| DriverDelivery.BackedClaimDelivers | bloc-node/internal/app/node.go:992-1019 | a store with t operators' shares for every sub-batch can be claimed, and the search of that claim gives the encrypted transactions in order |
| DriverDelivery.RunFinishes | bloc-node/internal/app/node.go:903-922 | a finished search ends the slot with what the combination of the latest claim gave |
| SlotStore.SlotState.AddShare | bloc-node/internal/app/node.go:1086-1154 | every check in its order, one entry per operator and sub-batch, one batch per operator; the capacity rejection is unreachable |
| SlotStore.SlotState.PruneShareCandidates | bloc-node/internal/app/node.go:1195-1207 | the loop leaves exactly the shares of the planned batch and its sub-batches |
| SlotStore.SlotState.RetainedShares | bloc-node/internal/app/node.go:1176-1193 | all retained shares by operator and sub-batch |
| SlotStore.SlotState.BatchPlanned | bloc-node/internal/app/node.go:725-764 | the first plan arms the slot with the full budget |
| SlotStore.SlotState.ClaimCombine | bloc-node/internal/app/node.go:992-1019 | the guard, and the snapshot of what is retained with the budget left |
| SlotStore.SlotState.RecordCombineStats | bloc-node/internal/app/node.go:1021-1038 | the budget after booking, never below zero |
| SlotStore.SlotState.FinishFailedCombine | bloc-node/internal/app/node.go:1042-1047 | the claim is released, and a newer share set without an end of the slot calls for another try |
| SlotStore.SlotState.FinishCombine | bloc-node/internal/app/node.go:956-979 | the result is stored unless the slot has ended |
| SlotStore.SlotState.MarkSlotFailed | bloc-node/internal/app/node.go:1298-1314 | a failure is stored unless the slot has ended |
| SlotStore.HasThresholdPerSubBatch | bloc-node/internal/app/node.go:1426-1440 | whether every sub-batch has shares of t different operators |
| Framing.ReadsFrame | bloc-node/internal/app/transport_libp2p_frame.go:18-56 | a frame is read back, and what follows it is left |
| Framing.CutFrame | bloc-node/internal/app/transport_libp2p_frame.go:30-56 | the start of a frame is never taken for one: it is the end, truncated, or refused as too large |
| Framing.ReadsThrough | bloc-node/internal/app/transport_libp2p_frame.go:30-56 | a stream that begins with whole frames gives their payloads in order, then whatever follows them |
| Framing.PutUvarint | bloc-node/internal/app/transport_libp2p_frame.go:22-25 | the length as a base 128 varint in the ten-byte buffer |
| Framing.Reader.ReadUvarint | bloc-node/internal/app/transport_libp2p_frame.go:34-44 | the varint, nothing, a cut one or one past 64 bits, for every input |
| Framing.Reader.ReadEnvelopeFrame | bloc-node/internal/app/transport_libp2p_frame.go:30-56 | the payload or the reason there is none, for every input and maximum |
| PeerStream.PeerStreamWriter.WriteEnvelopeFrame | bloc-node/internal/app/transport_libp2p_frame.go:18-28 | an acknowledged write puts the whole frame on the stream, a failed one a start of it |
| PeerStream.PeerStreamWriter.WriteRequest | bloc-node/internal/app/transport_libp2p_persistent.go:210-267 | a send is acknowledged only with its whole frame on the stream, after those before it; a failed one leaves nothing, or the start of its own frame as the last thing on its stream, which is not used again |
| PeerStream.PeerStreamWriter.OpenPrewarmedStream | bloc-node/internal/app/transport_libp2p_persistent.go:153-184 | errs exactly if it is too late, or no stream is open and none can be; opens one stream at most, which stays empty, and changes no other |
| PeerStream.PeerStreamWriter.Run | bloc-node/internal/app/transport_libp2p_persistent.go:124-151 | over any requests, failures and stops, what is added to the streams, stream by stream, are the sends asked for in queue order: all acknowledged ones, whole, and of the failed ones some, each last on its stream and maybe cut short |
| PeerStream.PeerReads | bloc-node/internal/app/transport_libp2p_persistent.go:124-267 | the peer reads the acknowledged payloads of a stream in order, then the failed send's payload if its frame went out whole, then the end or a frame it refuses |
| PeerStream.PeerGetsWhatWasAsked | bloc-node/internal/app/transport_libp2p_persistent.go:124-267 | over all streams the peer reads payloads that were asked to be sent, in the order of the requests, with all acknowledged ones among them |
| PeerStream.PeerIsUpToDate | bloc-node/internal/app/transport_libp2p_persistent.go:210-267 | of a stream whose last send was acknowledged the peer reads every payload and nothing else |
| SendAccounting.RunBalances | sbc/hbbft/trace_outbound.go:12-86 | under any interleaving of begins, repeated completions and seals: terminal is successes plus failures, scheduled is terminal plus outstanding, and final is exactly sealed with nothing outstanding |
| SendAccounting.FinalIsPublishable | bloc-node/internal/app/acs_trace_artifact.go:489-518 | final accounts of every subtype pass the phase check and the lifecycle check of published traces |
| SendAccounting.FinalStays | sbc/hbbft/trace_outbound.go:45-76 | final accounts stay final and unchanged whatever happens after |
| SendAccounting.ReportKeeps | sbc/hbbft/trace_outbound.go:45-58 | a first completion is always accounted for: the guard against more terminal than scheduled sends never drops one |
| SendAccounting.CompletedFits | sbc/hbbft/trace.go:445-485 | recording one completed send keeps all counters, totals and maxima of an entry consistent |
| SendAccounting.TraceRecorder.BeginMessageOutbound | sbc/hbbft/trace_outbound.go:23-43 | schedules and hands out a token, unless disabled, sealed or unknown |
| SendAccounting.TraceRecorder.CompleteToken | sbc/hbbft/trace_outbound.go:12-21 | a token completes once; nothing happens without one |
| SendAccounting.TraceRecorder.CompleteMessageOutbound | sbc/hbbft/trace_outbound.go:45-58 | one more terminal send, and final accounts if it was the last after sealing |
| SendAccounting.TraceRecorder.SealMessageOutbound | sbc/hbbft/trace_outbound.go:60-76 | pending counts are fixed once, and the accounts are final if nothing is under way |
| SendAccounting.TraceRecorder.AllMessagesTerminal | sbc/hbbft/trace_outbound.go:78-86 | whether every subtype has as many terminal as scheduled sends |

## Left out

- Liveness of the agreement and of the common subset: the coin is the parity of the epoch, which an adversarial schedule can defeat; only safety and that no trigger is missed are stated.
- Bba.BBA.ReplayDelayed: not every queued message is handled in its epoch, since the code does not do that; `BbaReplay` has the exact rule.
- The 32-bit epoch counter's wrap-around and the 64-bit counters of the trace: all are unbounded numbers here.
- The order and the copies of messages in the outgoing queue of the common subset: the model keeps the set of what was said, from which the network may deliver anything at any time.
- Rbc.RBC.TryDecodeValue: where the code's process ends on a shard index outside the vector, the model stops the member for good (`halted`), and runs have no further events at it; a restart is not modelled.
- Acs.ACS.InputValue: the check that n - 1 proofs come back is not modelled, since the coding library's contract implies it.
- Metrics, logs and the trace points other than the READY trigger and the send accounts.
- The channels and goroutines around the handlers of the common subset, which only serialise them, and the locks other than the slot's.
- Planner.ChooseAlpha: the square root is taken in floating point in the code; the model takes the exact ceiling, which it equals for every batch size that occurs.
- Arrange.SortedIsOrdered and Combine.SortAscends: the library's sorts are functions here; their orders have no ties, so the result is the only one.
- Combine.CombineSubBatch: errors are not told apart by their text; which subset failed first and why is not kept.
- ElGamal.RecoverGivesMask: the share library's recovery is modelled as interpolation through all shares given, which is what it does with exactly t shares; its errors for fewer are not modelled.
- The serialization of the reference string and of the public configuration, the deterministic setup from a seed, and the outdated optimised batch operations: no property above reads them, as every operation is stated over the parsed values.
- Secrecy of the encryption and zero knowledge of its proof.
- SlotStore.SlotState.AddShare: two shares are the same if their points are, instead of their encodings, which are canonical; the hexadecimal transport form before it is not modelled.
- The order of the retained shares comes from counting through operators and sub-batches instead of sorting the keys; the list is the same.
- Driver.RunStrandsNothing: says that a claim will be asked for, not that the scheduler runs the thread that asks.
- The decoding of accepted inclusion lists, their merge, and the transactions' own format; the plan and the shares reach the slot as given. inclusion.Merge and NewAgreedSet are not part of this model.
- Deadlines, network opening and negotiation of streams beyond whether they succeed; the inbound side beyond the frame reader.
- The epoch driver and transaction buffer of the original protocol library, HTTP handlers, command line, configuration, evaluation and report code.

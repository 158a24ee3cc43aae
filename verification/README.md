# Unbonding pipeline and input source

A Dafny model of the part of cli-tools that turns queued unbonding transactions into broadcast ones, with
proofs about it, and of the coin selection used to fund transactions.

- `Witness.dfy` and `CovenantScript.dfy`: the order of covenant keys, the list of signature slots, and a
  stack evaluator for the k-of-n covenant script (BIP 342, "Rules for signature opcodes").
- `Collection.dfy`: signature collection as a step relation over workers, a buffered channel and one
  collector, so that a lemma about every schedule covers every interleaving.
- `PipelineModel.dfy`: the queue, the decision for one transaction, batches with critical exits, and the two
  kinds of run, as functions of an environment. `answers(t)` is everything the outside world says during the
  t-th attempt: chain, parameters, signer, scheduling, spendability, broadcast, and transactions added
  meanwhile. Lemmas for every `World` therefore hold for every environment. `BatchLaws.dfy`, `RunLaws.dfy`,
  `BroadcastLaws.dfy` and `MetricsLaws.dfy` are the laws.
- `Requirements.dfy`: what an attempt has to establish, in terms of the transaction and of the questions put to the
  outside world alone. The functions of `PipelineModel.dfy` use nothing of it; the laws measure them against it.
- `Store.dfy` and `Pipeline.dfy`: the in-memory store and the pipeline as heap classes. The store hands out
  references to its own records and the pipeline replaces witnesses through them; each method is tied to the
  functions of `PipelineModel.dfy`.
- `InputSource.dfy`, `PersistentStore.dfy`, `RemoteSigner.dfy`: the input source with its 64-bit totals, the
  document codec, and the remote signer with its configuration.

What is taken from libraries whose code is not part of this model, and so enters as a parameter or a stated
form: signature verification (an arbitrary predicate of x-only key, signature and message, where the message
does not include the witness); the transaction hash (an arbitrary function of the transaction without its
witnesses; no lemma needs it to be injective); the covenant script (keys in ascending x-only order, first
`OP_CHECKSIG`, then `OP_CHECKSIGADD`, then `OP_NUMEQUAL`); output and script building; transaction
serialisation (reading what was written gives it back, assumed only of the two transactions at hand); the
text form of hashes; URL and key parsing.

Where the code and its comments differ, the model follows the code: the comment on `ErrCriticalError`
(internal/services/unbonding_pipeline.go:25-29) says a critical error changes no status, but the transactions
of the batch before it keep their new states: `BatchLaws.CriticalErrorChangesStates` is a run where this happens,
and `BatchLaws.StoppedRunUnchangedIff` says exactly when a stopped run changes nothing. The code also indexes the
first input and the staking output without checking; the resulting panic is the reason `Malformed`, which ends a
batch like a critical error.

Two laws hold only under a condition. The covenant part of a witness is accepted on every schedule exactly when the
signer's answers are credible: the code verifies a signature under the requested key but keeps the pair under the key
the signer named (`Collection.AcceptedOnEveryScheduleIff`, `BroadcastLaws.GateIsExact`; `Collection.PairingIsNeeded`
is a round that goes wrong). Lost store writes are harmless exactly when the spendability check asks for an output the
transaction spends: it asks for the staking output index as stored, cut to 32 bits, and not for the index the first
input names (`BroadcastLaws.LostWritesHarmlessIff`).

A queue position stands for a record. The in-memory store refuses a hash it has; a database does so only if it keeps
the unique index that internal/db/model/unbonding.go:28 names, so both kinds are modelled, and the lost-write laws
count sends per transaction, whichever records hold it.

## Model

| member | source | states |
|---|---|---|
| `Bytes.CompareMeaning` | internal/services/witness_gen.go:23 | The byte comparison is above zero exactly when the first differing byte is larger or the second string is a proper prefix |
| `Types.KeyTexts` | internal/services/unbonding_pipeline.go:51-57 | The text forms of a key are the lower-case hexadecimal of its x coordinate, and of the parity byte 2 or 3 followed by it |
| `WitnessGen.OrdersAreTotal` | internal/services/witness_gen.go:20-24 | Both key orders are strict, transitive in their negation, and tie only on equal x-only keys |
| `StableSort.SortByCorrect` | internal/services/witness_gen.go:20-24 | The sort is a permutation of its input in order of the keys |
| `StableSort.SortByStable` | internal/services/witness_gen.go:20 | Elements with equal keys keep their original order |
| `StableSort.Sort` | internal/services/in_mem_store.go:99-101 | The in-place insertion sort leaves the stable order of the old contents |
| `WitnessGen.SortPubKeysForWitness` | internal/services/witness_gen.go:17-27 | A fresh array holds the keys in witness order; the input array is unchanged |
| `WitnessGen.WitnessOrder` | internal/services/witness_gen.go:15-27 | For distinct x-only keys the result is the one strictly descending permutation of the input |
| `WitnessGen.WitnessOrderReversesScriptOrder` | internal/services/witness_gen.go:15-16 | The witness order is the exact reverse of the ascending script order |
| `WitnessGen.CreateWitnessSignaturesForPubKeys` | internal/services/witness_gen.go:29-53 | One slot per key in witness order, holding the signature of the last received pair for that x-only key, or empty |
| `WitnessGen.LastSignatureIsMember` | internal/services/witness_gen.go:36-38 | A slot is filled exactly when some received pair has its x-only key, with the signature of such a pair |
| `WitnessGen.LastSignatureIsLast` | internal/services/witness_gen.go:36-49 | If several received pairs name a key, its slot holds the signature of the last; it is empty exactly when none does |
| `WitnessGen.WitnessIgnoresOrder` | internal/services/witness_gen.go:29-53 | The slots do not change under any permutation of the pairs or of the committee list |
| `CovenantScript.MultisigAcceptsIff` | internal/services/witness_gen.go:15-16 | The ascending k-of-n script accepts the slots exactly when every filled slot verifies under its own key and exactly k are filled |
| `CovenantScript.WitnessAcceptedIff` | internal/services/witness_gen.go:29-53 | For any received pairs: the covenant part satisfies the script exactly when the kept pair of each member verifies and the number of members with a pair is the quorum |
| `CovenantScript.GoodPairsAcceptedIff` | internal/services/unbonding_pipeline.go:203-205 | Verifying pairs of distinct members satisfy the script exactly when they are as many as the quorum |
| `CovenantScript.QuorumAcceptedIff` | internal/services/witness_gen.go:29-53 | Quorum many pairs, whoever returned them, satisfy the script exactly when they name distinct members and each verifies under the key it names |
| `CovenantScript.EmptyCommitteeRejects` | internal/services/witness_gen.go:29-53 | With no keys the script fails whatever the quorum |
| `Collection.RunInv` | internal/services/unbonding_pipeline.go:163-254 | Every schedule keeps the invariant of workers, channel, collector and counters |
| `Collection.Conservation` | internal/services/unbonding_pipeline.go:171-199 | Workers still to send, buffered and received messages always add up to the number of covenant keys |
| `Collection.SendNeverBlocks` | internal/services/unbonding_pipeline.go:171 | In every reachable state a worker with a result can send it |
| `Collection.Progress` | internal/services/unbonding_pipeline.go:193-199 | Until the collector has all results some action is enabled, and only signer calls can be what it waits for |
| `Collection.ScheduleLength` | internal/services/unbonding_pipeline.go:171-199 | No schedule exceeds 4n actions, and the collector is finished exactly at that length |
| `Collection.OutcomeIndependentOfSchedule` | internal/services/unbonding_pipeline.go:189-205 | Whatever the schedule, one result per key is received, success means at least quorum verifying answers, exactly quorum pairs are kept, and successes plus failures are n |
| `Collection.ReceivedInArrivalOrder` | internal/services/unbonding_pipeline.go:193-199 | A finished collector received the judged answers in some order of all workers |
| `Collection.EveryArrivalOrderOccurs` | internal/services/unbonding_pipeline.go:171-199 | Every order of the workers is the arrival order of some schedule |
| `Collection.JudgeMeaning` | internal/services/unbonding_pipeline.go:219-253 | A result is the signer's own pair exactly when its signature verifies under the key that was asked, and otherwise a failure |
| `Collection.FirstInFirstOut` | internal/services/unbonding_pipeline.go:171-199 | In every schedule, what is received and buffered stands in the order of sending |
| `Collection.ReturnedAreTheFirst` | internal/services/unbonding_pipeline.go:191-205 | Every finished schedule returns nothing if fewer answers verify than the quorum, and otherwise the answers of the first quorum many workers, in the order of sending, that verify |
| `Collection.CollectQuorum` | internal/services/unbonding_pipeline.go:191-205 | The collector's loop drops failures, reports too few, and otherwise cuts to the quorum in order of arrival |
| `Collection.CollectedWitnessSatisfiesScript` | internal/services/unbonding_pipeline.go:189-205 | For distinct keys, any answers, quorum and schedule: collection succeeds exactly with enough kept answers, the slots then satisfy the script exactly when the returned pairs are good, and credible answers make them so |
| `Collection.AcceptedOnEveryScheduleIff` | internal/services/unbonding_pipeline.go:189-254 | Exactly for which signer answers every successful collection satisfies the script: too few are kept, or each kept one names a member under whose own key it verifies and, for a quorum of two or more, no two name the same |
| `Collection.PairedIsCredible` | internal/services/unbonding_pipeline.go:233-253 | A signer that answers with the requested key meets that condition for every quorum |
| `Collection.TruncationIsNeeded` | internal/services/unbonding_pipeline.go:203-205 | Without the cut to the quorum, vouched answers of different members satisfy the script exactly when quorum members signed, no more and no fewer |
| `Collection.PairingIsNeeded` | internal/services/unbonding_pipeline.go:233-253 | A concrete round in which a member answers with another member's key: collection succeeds and the script rejects |
| `BatchLaws.FetchMeaning` | internal/services/in_mem_store.go:84-111 | A fetch is exactly the positions in the state, in insertion order |
| `BatchLaws.StepLaw` | internal/services/unbonding_pipeline.go:293-458 | One attempt decides for its entry under the answers of its moment, records that, moves the state as the verdict says if the write is taken, and reports why the batch stops otherwise |
| `BatchLaws.AddAllMeaning` | internal/services/in_mem_store.go:60-82 | Transactions handed over by others all arrive as new, in their order, but for repeated hashes in a store that refuses those |
| `BatchLaws.BatchLaw` | internal/services/unbonding_pipeline.go:289-460 | A batch attempts its transactions from the front, and each attempted entry has the state of its attempt or, if that was not settled, its old one |
| `BatchLaws.PrefixLaw` | internal/services/unbonding_pipeline.go:293-459 | A stop at index k leaves everything before k in an outcome state and everything from k on as it was; on a nil return all are settled |
| `BatchLaws.RunShapes` | internal/services/unbonding_pipeline.go:468-533 | A failed fetch ends a run and changes nothing; a new-transactions run is one batch; a failed-transactions run starts its second batch, on what the first left, only if the first finished; a stopped batch names the cause |
| `BatchLaws.PerformRuns` | internal/services/unbonding_pipeline.go:468-533 | Each run in a sequence of operations is the run over what the operations before it left, with its own fetch results |
| `BatchLaws.CriticalErrorChangesStates` | internal/services/unbonding_pipeline.go:25-29 | A run of two new transactions that stops with a critical error at the second and leaves the first in another state |
| `BatchLaws.StoppedRunUnchangedIff` | internal/services/unbonding_pipeline.go:289-460 | A stopped new-transactions run changes no state exactly when it stopped at its first transaction, and that exactly when the attempt for it is critical or its write fails |
| `BatchLaws.NextFetchIsTheRest` | internal/services/unbonding_pipeline.go:468-496 | The next new-transaction fetch is exactly the unsettled suffix, followed by what was added meanwhile |
| `BatchLaws.TwoPhaseRetry` | internal/services/unbonding_pipeline.go:498-533 | In a finished failed-transactions run a `failed` transaction is attempted once, one without quorum twice exactly when its first attempt ended in a failed send, and no other |
| `RunLaws.ExecuteForward` | internal/services/unbonding_pipeline.go:289-533 | From any point of any run on: `send` and `input_already_spent` are never left, nothing returns to `inserted`, nothing is removed |
| `RunLaws.HeadBlocksForever` | internal/services/unbonding_pipeline.go:468-496 | If every attempt for the first new transaction is critical, then after any operations no other new transaction has been attempted and all are still new |
| `RunLaws.NeverStoredTwice` | internal/services/in_mem_store.go:69-75 | In a store that refuses known hashes no two entries share one after any run |
| `RunLaws.NothingIsLost` | internal/services/in_mem_store.go:60-82 | After any operations the store holds everything handed over, between runs or during an attempt, and nothing else |
| `RunLaws.ExecuteChronicle` | internal/services/unbonding_pipeline.go:289-460 | Every attempt in the history of a run is the decision for its transaction under the answers of that moment |
| `RunLaws.BroadcastAtMostOnce` | internal/services/unbonding_pipeline.go:289-533 | On the in-memory store a transaction has been broadcast successfully exactly once if it is in `send`, and otherwise never |
| `BroadcastLaws.PrepareMeaning` | internal/services/unbonding_pipeline.go:293-350 | The checks before signing succeed exactly when the output rebuilt under the parameters in force is the stored one at the staking output index; otherwise the first thing missing decides the error |
| `BroadcastLaws.CollectedMeaning` | internal/services/unbonding_pipeline.go:189-205 | What an attempt collects: nothing if fewer replies verify than the quorum, otherwise the first quorum many verifying replies in order of arrival |
| `BroadcastLaws.CollectedIff` | internal/services/unbonding_pipeline.go:200-205 | Collection yields a quorum exactly when enough requests return a verifying signature |
| `BroadcastLaws.VerdictMeaning` | internal/services/unbonding_pipeline.go:293-458 | Each verdict in terms of the answers: critical for the first thing missing or a witness that cannot be built, no quorum exactly when fewer than quorum replies verify under the key asked, already spent exactly when the chain says so of the first input's transaction at the staking output index cut to 32 bits, sent otherwise |
| `BroadcastLaws.WitnessMeaning` | internal/services/unbonding_pipeline.go:395-409 | The witness is replaced exactly when the attempt gets that far, by the staker's signature and slots filled from the first quorum many verifying replies in order of arrival |
| `BroadcastLaws.AlwaysCriticalIff` | internal/services/unbonding_pipeline.go:293-411 | Every attempt for a transaction is critical exactly when at any time a check fails, or a quorum signs and the witness cannot be built |
| `BroadcastLaws.BroadcastGate` | internal/services/unbonding_pipeline.go:326-431 | Every `SendTx` of any run is for a rebuilt output equal to the stored one and an input not reported spent; with credible answers the witness has exactly quorum verified member signatures and satisfies the script |
| `BroadcastLaws.SentSignaturesVerify` | internal/services/unbonding_pipeline.go:232-253 | In every run each filled slot of a sent witness holds a reply that verifies for this transaction and rebuilt output under the key its sender was asked for; with credible answers it verifies under the slot's own key |
| `BroadcastLaws.SchedulesCovered` | internal/services/unbonding_pipeline.go:171-205 | What the sequential model collects is exactly what the concurrent collector can return under some schedule |
| `BroadcastLaws.GateIsExact` | internal/services/unbonding_pipeline.go:352-431 | An attempt that reaches the witness builds an accepted one on every schedule exactly when the signer's answers are credible |
| `BroadcastLaws.SpentInputIsNotSent` | internal/services/unbonding_pipeline.go:413-431 | Once its inputs are reported spent a decision sends nothing, and finds it already spent exactly when it gets as far as the check |
| `BroadcastLaws.LaterAttemptMarksSpent` | internal/services/unbonding_pipeline.go:413-431 | In any run over an honest chain, an attempt after a successful send of the same transaction sends nothing, marks it already spent exactly when it reaches the check, and once recorded that state stays |
| `BroadcastLaws.AtMostOnceDespiteLostWrites` | internal/services/unbonding_pipeline.go:413-455 | Over an honest chain, any lost writes and duplicate records, a transaction whose checks ask for its own input is never sent successfully twice |
| `BroadcastLaws.LostWritesHarmlessIff` | internal/services/unbonding_pipeline.go:413-455 | Exactly when that holds, for every hash function and with or without a unique index: the checked output must be one the transaction spends; otherwise a run that sends it twice exists |
| `MetricsLaws.CountersAgree` | internal/services/unbonding_pipeline.go:219-253 | After any run the counters equal the recorded sends, failed sends and missing quorums, the replies that verified, and the requests whose reply did not |
| `MetricsLaws.BatchConservation` | internal/services/unbonding_pipeline.go:364-455 | On a nil return the batch size is the increase of the sent, failed-send and no-quorum counters plus the transactions found spent |
| `InMemStore.InMemoryUnbondingStore.constructor` | internal/services/in_mem_store.go:54-58 | A new store is valid and stands for the empty queue |
| `InMemStore.InMemoryUnbondingStore.AddTxWithSignature` | internal/services/in_mem_store.go:60-82 | A known hash is an error that changes nothing; any other transaction is appended to the queue |
| `InMemStore.InMemoryUnbondingStore.CountersArePermutation` | internal/services/in_mem_store.go:77-79 | The counters in the map are 1 to size, each once |
| `InMemStore.InMemoryUnbondingStore.NoSharing` | internal/services/in_mem_store.go:79 | Records, their transactions and their hashes are pairwise different |
| `InMemStore.InMemoryUnbondingStore.KnownIffMapped` | internal/services/in_mem_store.go:71-75 | A hash is a key of the map exactly when some entry of the queue has it |
| `InMemStore.InMemoryUnbondingStore.Select` | internal/services/in_mem_store.go:88-96 | Whatever the iteration order, exactly the records in the state, each once |
| `InMemStore.InMemoryUnbondingStore.GetNotProcessedUnbondingTransactions` | internal/services/in_mem_store.go:84-111 | The data of the `inserted` entries in insertion order |
| `InMemStore.InMemoryUnbondingStore.GetFailedUnbondingTransactions` | internal/services/in_mem_store.go:113-140 | The data of the `failed` entries in insertion order |
| `InMemStore.InMemoryUnbondingStore.GetUnbondingTransactionsWithNoQuorum` | internal/services/in_mem_store.go:142-169 | The data of the entries without quorum in insertion order |
| `InMemStore.InMemoryUnbondingStore.SetUnbondingTransactionProcessed` | internal/services/in_mem_store.go:171-184 | The entry with this hash moves to `send` and nothing else changes; an unknown hash is an error |
| `InMemStore.InMemoryUnbondingStore.SetUnbondingTransactionProcessingFailed` | internal/services/in_mem_store.go:186-199 | The same for `failed` |
| `InMemStore.InMemoryUnbondingStore.SetUnbondingTransactionInputAlreadySpent` | internal/services/in_mem_store.go:201-214 | The same for `input_already_spent` |
| `InMemStore.InMemoryUnbondingStore.SetUnbondingTransactionFailedToGetCovenantSignatures` | internal/services/in_mem_store.go:216-229 | The same for `failed_to_get_covenant_signatures` |
| `Pipeline.UnbondingPipeline.RequestSigFromCovenant` | internal/services/unbonding_pipeline.go:210-254 | The returned pair if its signature verifies under the requested key, and exactly one counter raised |
| `Pipeline.UnbondingPipeline.SignUnbondingTransaction` | internal/services/unbonding_pipeline.go:163-206 | What the model collects, with successes and failures counted for the whole committee |
| `Pipeline.UnbondingPipeline.CreateUnbondingTxWitness` | internal/services/witness_gen.go:87-110 | The sorted slots and the staker signature, unless the library fails |
| `Pipeline.UnbondingPipeline.PrepareSigning` | internal/services/unbonding_pipeline.go:296-350 | The checks before signing, each error as in the model |
| `Pipeline.UnbondingPipeline.AttachWitness` | internal/services/unbonding_pipeline.go:409 | Replacing the witness through the store's own reference keeps every key equal to its record's hash and txid and changes one entry only |
| `Pipeline.UnbondingPipeline.Attempt` | internal/services/unbonding_pipeline.go:293-431 | The verdict, the entry and the counters are those of the model's decision |
| `Pipeline.UnbondingPipeline.Settle` | internal/services/unbonding_pipeline.go:364-455 | The setter for a fetched record always succeeds; state and counters follow the verdict |
| `Pipeline.UnbondingPipeline.ProcessOne` | internal/services/unbonding_pipeline.go:293-458 | One loop iteration is one step of the model, concurrent additions included |
| `Pipeline.UnbondingPipeline.ProcessUnbondingTransactions` | internal/services/unbonding_pipeline.go:289-460 | The batch loop over the store's references is the model's batch, early exits included |
| `Pipeline.UnbondingPipeline.ProcessNewTransactions` | internal/services/unbonding_pipeline.go:468-496 | Store, history, counters and outcome are those of the model's new-transactions run |
| `Pipeline.UnbondingPipeline.ProcessFailedTransactions` | internal/services/unbonding_pipeline.go:498-533 | The same for the two-phase run; the second fetch sees the store the first phase left |
| `Pipeline.UnbondingPipeline.RunOps` | internal/services/unbonding_pipeline.go:468-533 | After any sequence of additions and runs, store, attempts and counters are those of the model |
| `Pipeline.UnbondingPipeline.RunFromEmpty` | internal/services/unbonding_pipeline.go:289-533 | From an empty store: exactly the transactions in `send` were sent, once each, every `SendTx` passed the gate, no hash is stored twice and the counters agree |
| `InputSource.Source.Provide` | internal/btcclient/client.go:160-173 | Inputs, values and scripts are the same prefix of the list, extend the earlier result, and stop at the first stage that meets the target or at the end |
| `InputSource.TotalIsSum` | internal/btcclient/client.go:167 | The 64-bit running total is the wrapped sum, and the sum itself while that fits |
| `InputSource.ReachIsFirst` | internal/btcclient/client.go:163 | The number of inputs is the first stage that meets the target, or all |
| `InputSource.CallsTakeForLargest` | internal/btcclient/client.go:154-174 | Any sequence of calls takes what one call with the largest target takes, and every input was needed for that target |
| `InputSource.PrefixIsLargest` | internal/btcclient/client.go:244-246 | No choice of k outputs sums to more than the first k of the descending list |
| `InputSource.FewestInputs` | internal/btcclient/client.go:154-174 | If some choice of outputs reaches the target and the sum of as many of the largest is in the 64-bit range, one call reaches it with no more inputs |
| `InputSource.OptimalIff` | internal/btcclient/client.go:154-174 | For non-negative amounts, exactly when that holds for every target in 64-bit arithmetic |
| `InputSource.SortByAmountDescending` | internal/btcclient/client.go:102-106 | The list becomes a descending permutation of itself, in place |
| `PersistentStore.HashRoundTrip` | internal/services/persistent_store.go:97 | Parsing a printed transaction hash gives it back |
| `PersistentStore.HashFromStringMeaning` | internal/services/persistent_store.go:97 | A text is read as a hash exactly when, padded to 64 digits, it is the hexadecimal of the hash with its bytes reversed |
| `PersistentStore.CastRoundTrip` | internal/services/persistent_store.go:126-129 | The unsigned casts of timelock and amount lose nothing, negative amounts included |
| `PersistentStore.DocumentFields` | internal/services/persistent_store.go:152-198 | Each field of a written document as what it is read as: both transaction hashes, both transactions, signature, keys, index, timelock and amount; nothing is written exactly when a transaction cannot be serialised |
| `PersistentStore.ReadMeaning` | internal/services/persistent_store.go:91-145 | Exactly when a document is read as given data, whoever wrote it |
| `PersistentStore.ReadErrors` | internal/services/persistent_store.go:91-145 | The first unreadable field, in the order of reading, decides the error |
| `PersistentStore.RoundTrip` | internal/services/persistent_store.go:91-198 | Reading the written document gives back transaction, txid, signature and staking data, with keys lifted to even y |
| `PersistentStore.ReEncode` | internal/services/persistent_store.go:91-198 | Writing what was read gives the same document |
| `PersistentStore.TransformDocuments` | internal/services/persistent_store.go:200-218 | Order-preserving and all-or-nothing, with the error of the first bad document |
| `RemoteSigner.Parse` | internal/config/remote_signer.go:36-74 | Succeeds exactly when there is a URL, all entries parse and the timeout is positive; otherwise the first error in that order |
| `RemoteSigner.GetPubKeyToUrlMap` | internal/config/remote_signer.go:76-98 | Exactly the listed keys have a URL, that of their last occurrence; the three error cases |
| `RemoteSigner.RemoteAnswer` | internal/services/remote_signer.go:30-55 | The answer for a key is the signature that the service at the URL of its last listing returns for it, with the key; none exactly when it is not listed or that request fails |
| `RemoteSigner.RemoteSigners` | internal/services/remote_signer.go:30-55 | Exactly the members whose configured service returns a signature verifying for this transaction and the rebuilt output count towards the quorum |
| `RemoteSigner.RemoteSignerPairs` | internal/services/remote_signer.go:30-55 | Each answer carries the key it was asked for, so the answers are credible for every quorum of distinct keys, and only configured members contribute |
| `RemoteSigner.TooFewConfigured` | internal/services/remote_signer.go:30-35 | With fewer configured members than the quorum a transaction whose checks pass ends, and is recorded, without quorum |
| `RemoteSigner.RemoteBroadcastGate` | internal/services/remote_signer.go:51-54 | With the remote signer every broadcast of a committee with distinct keys satisfies the covenant script |

## Left out

- The script builder, taproot spending data and the staker part of the witness: library code; only the covenant slots are evaluated.
- A committee of one key or with repeated x-only keys gets whatever script the library builds; the model uses the k-of-n form throughout, and the script theorems ask for distinct x-only keys.
- BroadcastLaws.BroadcastGate: the witness part is stated for committees with distinct x-only keys and credible answers; `BroadcastLaws.GateIsExact` shows that the second is also necessary, and `RemoteSigner.RemoteBroadcastGate` discharges it.
- InputSource.FewestInputs: asks that the sum of as many of the largest outputs as were chosen is in the 64-bit range, because the running total wraps; `InputSource.OptimalIff` gives the exact condition for non-negative amounts.
- Store mutex and memory model: each store call is one atomic action, and transactions added by others enter before the decision of an attempt.
- Changes an adder makes to a transaction after handing it over, and the aliasing of the slices the input source returns: the model has values there.
- Two pipelines on one store: the code makes no claim about it.
- MongoDB access: a store whose writes may fail and then leave the record as it was, and which returns records in order of insertion. It does not keep the attached witness, which the model's queue does; no law about such a store reads it.
- What is put into the questions to chain, parameters and signers, other than the output of the spendability check: their answers enter per attempt, whatever was asked.
- RPC, HTTP, logging, pushing metrics, command line and configuration files: oracles or omitted.
- Metrics are counted in total, not per covenant key.
- Fee estimation: library code; the input source is modelled under arbitrary sequences of targets.
- `resultsToUtxos`, the transaction-building commands and parameter version selection: they would add only easy members.
- `sort.Sort` is not stable; only order and permutation are stated of the sort by amount.
- The remote signer's timeout in nanoseconds and the text of error messages.

# Verification of the sequencer's transaction lifecycle

The sequencer takes raw transactions over JSON-RPC, encrypts them, bids for their inclusion,
collects commitments, publishes identity prefixes, receives decryption keys and finally checks the
chain. Four actors that do not coordinate share one store of mutable records: concurrent
submissions, one bid loop, key handlers and one verifier. Every getter of the store returns a
pointer into it, every actor scans first and writes later, and a status update writes whatever it is
told. So the lifecycle of a transaction is nowhere in one function; it follows from what the actors
do together. This project models that and proves it.

## How the project is laid out

- `Types.dfy`, `Hex.dfy`: machine integers with their wrap-around, hashes, hexadecimal text, and the
  conversions of go-ethereum's `common` package.
- `StoreModel.dfy`: the store's contents as a value, each critical section as a function on it, and
  laws of whole sequences of operations (module `StoreLaws`).
- `TxStore.dfy`: the store as a class over shared record objects. Each method is tied to the function
  of the same critical section. Map iteration order is arbitrary: the order a call happened to take
  is a ghost result.
- `Bids.dfy`, `Bidder.dfy`, `Sequencer.dfy`: bids, commitments, the bid manager, one tick of the loop.
- `CommitmentStream.dfy`: the goroutine, the channels and the select of a submission.
- `Shutter.dfy`, `Rpc.dfy`, `Rest.dfy`, `KeyMessages.dfy`, `Verifier.dfy`: encryption and identities,
  submission, the REST answer, key messages, the verifier.
- `Protocol.dfy`: all actors as interleaved steps on one store, and runs of them.
- `Safety.dfy`, `Outcomes.dfy` and `Progress.dfy` (any surroundings), `Echoing.dfy` (echoing providers),
  `Lifecycle.dfy` (honest surroundings), `History.dfy`, `Rebidding.dfy`, `EndToEnd.dfy` and
  `Disclosure.dfy`: the theorems about whole runs.
  `Freshness.dfy` derives distinct identities from distinct draws. `Edges.dfy` shows that the lifecycle
  is exact and that honest runs exist, `Witnesses.dfy` that two further bounds are met;
  `Refinement.dfy` and `Undisturbed.dfy` that what the methods of each actor do, undisturbed, is one of
  the runs, made of that actor's own steps.

Keccak, the Shutter scheme and the eon keys are uninterpreted parameters (`Shutter.Crypto`). What is
assumed of them is always a hypothesis: `DecryptsWhatItEncrypts` (and `SchemeExists` shows that it
can be met), or that a freshly drawn prefix gives an identity not in use (`FreshIdentity`). The latter
follows from two more basic facts, that no prefix is drawn twice and that Keccak does not collide on
the preimages of the run (`Freshness.DistinctDrawsSuffice`).

Honest surroundings (`Lifecycle.Honest`) means: a commitment echoes the hashes, block and options of
the bid it answers; the key of an identity is released only after a prefix leading to it was
published; fresh identities do not collide. Nothing is assumed there about order, timing, repetition
or loss. The theorems of `Safety`, `Outcomes` and `Progress` need none of this, those of `Echoing` only the first.

Where the code and its documentation disagree the model follows the code: the verifier has no retry
logic and never writes `blocked`; the endpoint is `/decrypted_tx/`; `blocked` means that the deadline
passed before a bid.

## What the code does not guarantee

- `Finalised` is not terminal: a repeated key message writes `Decrypted` again. The exact condition
  is `Lifecycle.FinalisedIsLeftIff`.
- A stream error that is not EOF need not be reported: for every broken stream both outcomes stay
  possible as long as the loop runs (`CommitmentStream.BrokenStreamMayLookClean`). Without a
  cancellation the report is right under every schedule exactly if the stream does not break
  (`CommitmentStream.ReportIsRightIff`), and the commitments are complete in any case
  (`CommitmentStream.UncancelledIsWhole`).
- A stream that falls silent keeps the submission waiting until its timeout
  (`CommitmentStream.NoDeadlock`). That the timeout comes is assumed where it is said that the
  submission returns.
- After a cancellation one received commitment may be lost and its goroutine left blocked for good
  (`CommitmentStream.LeftBehind`); it can be any commitment of any stream
  (`CommitmentStream.AnyCommitmentMayBeLost`).
- Keys released too early make a transaction `Decrypted` that was never committed
  (`Edges.DecryptedNeedNotBeCommitted`). Over all runs this happens exactly when, as the key handler
  writes, the block on record is 0 and no commitment for block 0 has reached the record
  (`History.DecryptedUncommittedIff`). Where no commitment is for block 0 the block on record alone
  decides, a check the handler does not make. That is so wherever commitments echo and no head wraps
  around (`Echoing.EchoedBlocksAreNonzero`); a provider that does not echo may well answer with block
  0, the default of the message format. `History.DecryptedWasCommitted` rules the whole thing out for
  honest runs.
- Resubmitting a transaction is not always accepted: a submission that has passed its lookup is answered
  "Submission failed" exactly if another stored the hash meanwhile (`Safety.RefusedIff`).
- Near the end of the 64-bit range deadlines wrap around: `Shutter.DeadlineIff`.

## Model

| member | source | states |
|---|---|---|
| `Types.Add64` | sequencer/main.go:182 | block sums are the true sums exactly while they stay below 2^64, and less by 2^64 otherwise |
| `Types.ToInt64` | sequencer/bidder/bidder.go:138 | the block number a bid carries differs from the block by a multiple of 2^64 and converts back without loss |
| `Hex.DecodeEncode` | sequencer/bidder/bidder.go:121 | hexadecimal decoding undoes encoding for every byte string |
| `Hex.HashRoundTrip` | sequencer/bidder/bidder.go:222 | a hash written to a bid, with or without 0x, parses back to itself |
| `Hex.EncodedHasNoPrefix` | sequencer/main.go:283 | trimming 0x never alters an encoded prefix |
| `Hex.DigitIs` | sequencer/bidder/bidder.go:127 | digits are written in lower case |
| `Hex.DigitReads` | sequencer/rpc/server.go:167 | exactly the digits of either case are read, each with its value |
| `Hex.EncodeAt` | sequencer/bidder/bidder.go:127 | byte k becomes the two digits at 2k, the high half first |
| `Hex.DecodeAt` | sequencer/rpc/server.go:167 | each two digits are read as one byte |
| `Hex.DecodeFailsIff` | sequencer/rpc/server.go:167-174 | decoding fails exactly for an odd length or a character that is no digit |
| `Hex.FromHexOdd` | sequencer/bidder/bidder.go:236 | an odd number of digits is read with a zero in front |
| `Hex.StopsAtFault` | sequencer/bidder/bidder.go:236 | a hash text is read up to its first fault, without an error |
| `StoreModel.StatusOpsEffect` | sequencer/bidder/bidder.go:156-177 | a list of status updates reaches exactly the known listed records and changes only their status |
| `StoreModel.CommitOpsEffect` | sequencer/bidder/bidder.go:236-245 | the hashes of a commitment that are known become committed for its block, nothing else changes |
| `StoreLaws.ScannedCountsAreMaintainedCounts` | sequencer/txstore/store.go:188-198 | over any sequence of store operations the scanned count of each status is the count kept up to date incrementally |
| `StoreLaws.CountsSumToSize` | sequencer/txstore/store.go:181-198 | the status counts always sum to the transaction count |
| `StoreLaws.RetryBound` | sequencer/txstore/store.go:84-102 | over any sequence of operations retries put a transaction back to init at most twice, and every later one leaves it blocked |
| `StoreModel.RetryOnFields` | sequencer/txstore/store.go:84-102 | a retry replaces ciphertext, identity and prefix, counts itself and sets the status, and leaves every other field and record |
| `TxStore.TransactionStore.StoreTransaction` | sequencer/txstore/store.go:56-82 | a new hash gets a fresh init record that points to the very transaction handed in, a known hash is refused and nothing changes |
| `TxStore.TransactionStore.UpdateRetriedTx` | sequencer/txstore/store.go:84-102 | the whole store after a retry, in place, and the error for an unknown hash |
| `TxStore.TransactionStore.UpdateTransactionStatus` | sequencer/txstore/store.go:104-123 | any status is written unconditionally to a known hash and to nothing else |
| `TxStore.TransactionStore.UpdateCommittedTransaction` | sequencer/txstore/store.go:125-137 | status and block of a known hash are written, and nothing else |
| `TxStore.TransactionStore.GetTransaction` | sequencer/txstore/store.go:139-149 | the shared record itself is returned, or none |
| `TxStore.TransactionStore.GetTransactionsByStatus` | sequencer/txstore/store.go:151-163 | exactly the records with the status, each once, in some iteration order |
| `TxStore.TransactionStore.GetTransactionsByCommitedBlock` | sequencer/txstore/store.go:228-240 | a record is returned exactly if it is decrypted and its committed block lies between 1 and the given one, each once |
| `TxStore.TransactionStore.GetTransactionsByIdentity` | sequencer/txstore/store.go:201-212 | some record with the identity, and none only if there is none |
| `TxStore.TransactionStore.GetTransactionCount` | sequencer/txstore/store.go:181-186 | the number of records |
| `TxStore.TransactionStore.GetStatusCounts` | sequencer/txstore/store.go:188-198 | the exact count of every status that occurs, and no entry for the others |
| `Bids.BidConstruction` | sequencer/bidder/bidder.go:45-105 | for every store and iteration order the init transactions split exactly into the bid and the newly blocked, none stays init also when no bid results, and hashes, options and returned hashes line up without repetition |
| `Bids.CreationOnFields` | sequencer/bidder/bidder.go:60-94 | an init record is blocked if its deadline lies before the block, else submitted; other records and fields stay |
| `Bids.BidContains` | sequencer/bidder/bidder.go:60-64 | the bid has exactly the init records whose deadline the block meets, and there is a bid if there is such a record |
| `Bids.BidOnFields` | sequencer/bidder/bidder.go:107-151 | hash, identity prefix, ciphertext and eon of each option decode to those of the record at the same position; block, amounts and empty lists are as given |
| `Bids.IterationOrderOnlyPermutes` | sequencer/bidder/bidder.go:46-72 | another map iteration order permutes the bid and the blocked list and leaves the same store |
| `Bids.BidHashesParse` | sequencer/bidder/bidder.go:221-224 | the texts in a bid parse back to exactly its hashes |
| `Bids.ReceivedEffect` | sequencer/bidder/bidder.go:234-245 | received commitments reach exactly what they name, and the last one naming a record decides its block |
| `Bids.LastNamingIff` | sequencer/bidder/bidder.go:234-245 | the block a record takes is that of a commitment naming it after which no other does |
| `Bids.SessionOnFields` | sequencer/bidder/bidder.go:181-248 | what a submission makes of each record: the received commitments, and init again for those of the bid if the stream broke |
| `Bids.ErrorIff` | sequencer/bidder/bidder.go:181-248 | the submission reports no error exactly if it left by the closed channel or an EOF, and which error otherwise |
| `Bids.SessionThenReset` | sequencer/bidder/bidder.go:220-229 | the reset inside the submission changes nothing that the caller's reset does not also do |
| `Bids.Rollback` | sequencer/main.go:200-212 | after any failing submission each record is as before, except that expired init ones are blocked and records named by an early commitment outside the bid are committed; a block changes only where a commitment named the record |
| `Bids.FailedTickResets` | sequencer/main.go:200-212 | a tick whose submission is not sent, times out, breaks or brings no commitment leaves every transaction of its bid init |
| `Bids.SuccessfulTickKeeps` | sequencer/main.go:200-215 | otherwise each is committed if a commitment names it and submitted if not |
| `Bids.PrefixesOnFields` | sequencer/main.go:278-289 | each prefix is published without a leading 0x, and a foreign option spoils them all |
| `Bids.MessageOnFields` | sequencer/main.go:216-239 | hashes, block and prefixes of the message for one commitment, or none for unusable options |
| `Bids.MessagesConcat` | sequencer/main.go:216-239 | the messages of several commitments are those of each, in order |
| `Bidder.BidManager.CreateBidFromInitTransactions` | sequencer/bidder/bidder.go:45-105 | bid, returned hashes and store are those specified for the scan order of the call |
| `Bidder.BidManager.CreateBidForBlock` | sequencer/bidder/bidder.go:107-154 | no bid without transactions or for lists of different length, otherwise the bid of the records pointed to, each option carrying prefix, ciphertext and eon of its record |
| `Bidder.BidManager.UpdateTransactionStatuses` | sequencer/bidder/bidder.go:156-177 | all updates are made, and the first unknown hash is the error |
| `Bidder.FirstMissingIff` | sequencer/bidder/bidder.go:156-177 | nothing is reported exactly if all hashes are known, else the first unknown one |
| `Bidder.BidManager.SubmitBidGRPC` | sequencer/bidder/bidder.go:181-248 | commitments, error and store for every way the submission can go, including the reset on a broken stream; which ways there are is `EverySessionArises` |
| `Sequencer.GetIdentityPrefixes` | sequencer/main.go:278-289 | the trimmed prefixes in order, or none if any option is foreign |
| `Sequencer.BidTick` | sequencer/main.go:176-251 | the store and the messages after an undisturbed tick; spelled out for every kind of submission: nothing sent and all init again, or the messages of its commitments and none init |
| `Sequencer.TickOnFields` | sequencer/main.go:176-251 | the same for the values: which of the two happens, for the block after the head |
| `CommitmentStream.CollectedIsPrefix` | sequencer/bidder/bidder.go:194-247 | under every schedule the collected list is a prefix of what was received, missing at most one, and missing none unless the context was done |
| `CommitmentStream.ErrorSlotIsFree` | sequencer/bidder/bidder.go:195-203 | the producer never blocks on the error channel |
| `CommitmentStream.NoDeadlock` | sequencer/bidder/bidder.go:199-247 | while the consumer is in its loop some step other than a cancellation is possible, unless a silent stream has handed out everything: exactly then only the timeout helps |
| `CommitmentStream.ScheduleIsBounded` | sequencer/bidder/bidder.go:199-247 | every schedule for a stream of n commitments has at most 4n + 5 steps, so the submission returns |
| `CommitmentStream.LeftBehind` | sequencer/bidder/bidder.go:199-216 | at rest the consumer has left, and the goroutine is blocked for good exactly if a received commitment was not collected, which only a done context allows |
| `CommitmentStream.AnyCommitmentMayBeLost` | sequencer/bidder/bidder.go:199-216 | for every stream and every commitment of it some schedule loses just that one and leaves the goroutine blocked |
| `CommitmentStream.CleanExitIff` | sequencer/bidder/bidder.go:213-233 | a finished submission is free of error exactly if it left by the closed channel or read an EOF; by the closed channel it has all that was received, and a broken stream has left its error unread |
| `CommitmentStream.UncancelledIsWhole` | sequencer/bidder/bidder.go:199-247 | finished without a cancellation, a submission has every commitment of a stream that has ended, and reports no error if it ended in EOF |
| `CommitmentStream.ReportIsRightIff` | sequencer/bidder/bidder.go:199-247 | the error report is right under every schedule without a cancellation exactly if the stream does not break |
| `CommitmentStream.BrokenStreamMayLookClean` | sequencer/bidder/bidder.go:203-204 | for every broken stream and after every schedule that has not ended the loop, one continuation without cancellation reports the error and another loses it |
| `CommitmentStream.EverySessionArises` | sequencer/bidder/bidder.go:199-247 | every list of commitments with every exit is the outcome of some stream and schedule |
| `Shutter.EncryptTransaction` | sequencer/shutter/encryptor.go:39-99 | a fresh record with deadline, ciphertext, identity and prefix for the given inputs, or an error exactly if the text is not hexadecimal or an input is missing |
| `Shutter.EncryptedOnFields` | sequencer/shutter/encryptor.go:62-89 | every field of a new record; the identity is the hash of the prefix followed by the 20 bytes of the address |
| `Shutter.DeadlineIff` | sequencer/shutter/encryptor.go:45 | the deadline is 30 blocks ahead, and a new transaction is in time for the next bid, exactly while nothing wraps around |
| `Shutter.IdentityCollision` | sequencer/utils/utils.go:10-16 | two prefixes that share an identity give a collision of Keccak, on the two preimages named |
| `Shutter.IdentityIsHashed` | sequencer/utils/utils.go:10-16 | for an address written with or without 0x the identity is the hash of prefix, then address |
| `Freshness.DistinctDrawsSuffice` | sequencer/shutter/encryptor.go:62-67 | a run in which no prefix is drawn twice and Keccak does not collide on the drawn preimages has distinct identities throughout and is honest if commitments echo and keys wait for publication |
| `Shutter.PrefixLeadsToIdentity` | sequencer/main.go:283 | the published prefix of a record leads to the identity in it |
| `Shutter.RightKeyDecrypts` | sequencer/api/rest.go:103-158 | the key of the identity decrypts the stored ciphertext to the payload of the raw transaction |
| `Shutter.KeyRouting` | sequencer/main.go:278-289 | the prefixes published for a bid line up with its hashes, and the identity derived from each finds exactly that transaction |
| `Shutter.KeyRoutingOnFields` | sequencer/main.go:278-289 | the prefix bytes in an option, hashed with the address, find exactly the transaction at its position |
| `Shutter.OptionDecrypts` | sequencer/bidder/bidder.go:121-133 | the key for prefix, address and eon of an option decrypts its ciphertext to the submitted payload |
| `Rpc.RpcServer.HandleSendRawTransaction` | sequencer/rpc/server.go:146-226 | reply and store for every request: each malformed one, a known transaction, and an unknown one with and without all that encryption needs |
| `Rpc.RequestOnFields` | sequencer/rpc/server.go:146-226 | the same for the values, every field of the stored record included |
| `Safety.RefusedIff` | sequencer/rpc/server.go:185-216 | in every run a submission that passed its lookup and was encrypted is refused exactly if some submission stored its hash in between |
| `Witnesses.RefusalOccursIff` | sequencer/rpc/server.go:208-216 | such a refusal occurs in some run if and only if some eon key is valid, so that anything can be encrypted |
| `Rest.RestAPI.GetDecryptedTx` | sequencer/api/rest.go:49-176 | the answer is the specified one for every request and store |
| `Rest.AnswerOnFields` | sequencer/api/rest.go:49-176 | the answer to every request, with each of its fields |
| `Rest.AnswerIsTheSubmittedTransaction` | sequencer/api/rest.go:103-175 | with the right key on record the request succeeds with bytes that hash to the requested hash and are those of the raw transaction |
| `Disclosure.ServedHadKey` | sequencer/api/rest.go:84-101 | in every run a transaction that is served had a key for its identity delivered |
| `Disclosure.ServedOnlyOnceSettled` | sequencer/api/rest.go:84-101 | in every honest run a transaction that is served was committed before and is settled: no plaintext before a successful bid, and no bid with it afterwards |
| `KeyMessages.ValidateMessage` | sequencer/p2p/msg_handler.go:30-44 | accepted are exactly key messages with keys whose eon fits 63 bits, and which reason rejects the others |
| `KeyMessages.PicksDoNotMatter` | sequencer/p2p/msg_handler.go:52-71 | with distinct identities every map iteration order leaves the same store: matching records take the last matching key and become decrypted, all others stay |
| `KeyMessages.LastKeyWins` | sequencer/p2p/msg_handler.go:52-58 | a key takes effect exactly if no later key of the message is for the same identity |
| `KeyMessages.MessageOnFields` | sequencer/p2p/msg_handler.go:52-71 | a record takes the last key of the message for its identity and becomes decrypted, its other fields staying; one without a key in it stays whole |
| `KeyMessages.KeyOrderIsIrrelevant` | sequencer/p2p/msg_handler.go:52-71 | permuting a message without repeated identities leaves its effect unchanged |
| `KeyMessages.DecryptionKeysMsgHandler.HandleMessage` | sequencer/p2p/msg_handler.go:46-74 | the store after all keys of a message, for whatever records the lookups found |
| `Verifier.TransactionVerifier.VerifyDecryptedTransactions` | sequencer/transaction_verifier/verifier.go:88-131 | undisturbed, a record becomes final exactly if it is decrypted, committed for a block between 1 and the head, and has a receipt; all others stay as they were |
| `Verifier.VerificationOnFields` | sequencer/transaction_verifier/verifier.go:88-131 | the same for the values |
| `Safety.StepKeepsInv` | sequencer/main.go:176-251 | every step of every actor keeps the invariant, whatever the surroundings do |
| `Safety.ClosedForever` | sequencer/bidder/bidder.go:60-77 | a transaction neither init nor in the bid in flight never becomes init again and enters no later scan or bid |
| `Safety.BlockedStaysOut` | sequencer/bidder/bidder.go:60-77 | one blocked for expiry is never init again and in no later scan or bid, whatever commitments and keys arrive |
| `Safety.AtMostOneSuccess` | sequencer/main.go:200-215 | once a bid reaches the publish branch its transactions are never init again and in no later bid |
| `Safety.RebidMeansReset` | sequencer/main.go:200-212 | between two bids with the same transaction it was reset, so the earlier one failed |
| `Outcomes.PublishingEnteredIff` | sequencer/bidder/bidder.go:213-247 | in every run the bid loop comes to publish exactly by leaving through the closed channel or an EOF with commitments received |
| `Outcomes.FailureIsReset` | sequencer/main.go:202-212 | in every run each transaction of a bid that was not sent, timed out, broke or got no commitment is put back to init before the loop goes on |
| `Outcomes.BidScanIsComplete` | sequencer/txstore/store.go:151-163 | in every run a scan of the bid loop takes exactly the init records |
| `Outcomes.VerifierScanIsComplete` | sequencer/txstore/store.go:228-240 | in every run a scan of the verifier takes exactly the decrypted records with a block from 1 to its head |
| `Outcomes.BuiltBidCarries` | sequencer/bidder/bidder.go:107-151 | in every run each position of a bid carries hash, prefix, ciphertext and eon of one record |
| `Outcomes.BuiltBidDecrypts` | sequencer/bidder/bidder.go:121-133 | in every run the key for an option of a bid decrypts it to the payload submitted |
| `Outcomes.TickBidsForNextBlock` | sequencer/main.go:177-183 | in every run a tick bids for the block after the head it reads |
| `Outcomes.PublicationIsComplete` | sequencer/main.go:216-244 | in every run a publication that reaches the keypers tells them exactly the prefixes in its options |
| `Safety.RecordsAreForever` | sequencer/txstore/store.go:60-72 | records are never removed, and all but the key of their transaction stays what it was |
| `Safety.FirstWriterWins` | sequencer/rpc/server.go:185-216 | what the storing submission stored is on record in every later state |
| `Safety.OneStorePerHash` | sequencer/rpc/server.go:185-216 | of any number of concurrent submissions at most one stores a hash |
| `Safety.OwnUpdatesLand` | sequencer/bidder/bidder.go:121 | no update by the bid loop, a reset, a key handler or the verifier misses its record |
| `Progress.NobodyIsStuck` | sequencer/main.go:176-251 | in every state of every run the bid loop, the verifier, each key handler and each submission can go on |
| `Lifecycle.StepKeepsHonestInv` | sequencer/main.go:176-251 | every step keeps the invariant linking bid phase, statuses, published prefixes and stale scans |
| `Lifecycle.LifecycleHolds` | sequencer/main.go:176-251 | in every honest interleaved run each status change is one of eight edges |
| `Lifecycle.FinalisedIsLeftIff` | sequencer/p2p/msg_handler.go:58-59 | a final transaction loses that status exactly by a repeated key |
| `Echoing.AllUpdatesLand` | sequencer/bidder/bidder.go:236-244 | with echoing commitments, and nothing else assumed, no update at all misses its record |
| `Edges.EdgesAreExactlyWhatOccurs` | sequencer/main.go:176-251 | a status change occurs in some honest run if and only if it is one of the eight edges and some eon key is valid |
| `Edges.DecryptedNeedNotBeCommitted` | sequencer/p2p/msg_handler.go:52-59 | without honest keypers some run decrypts a transaction that was never committed, wherever anything can be encrypted |
| `History.BlockIsLastCommit` | sequencer/txstore/store.go:125-137 | the committed block on record is that of the last commitment processed for the hash since it was stored, in every run |
| `Echoing.CommittedInTime` | sequencer/bidder/bidder.go:234-244 | with echoing commitments, and nothing else assumed, the committed block never exceeds the deadline |
| `Echoing.EchoedBlocksAreNonzero` | sequencer/main.go:182 | with echoing commitments and heads below the last 64-bit number no commitment is for block 0 |
| `History.FinalisedProvenance` | sequencer/transaction_verifier/verifier.go:88-131 | whenever final is written, one round of the verifier has read the head, scanned the transaction and seen its receipt, in this order, and before that scan came a commitment with a nonzero block up to that head and a key for the identity |
| `History.DecryptedWasCommitted` | sequencer/p2p/msg_handler.go:46-74 | in honest runs no transaction is decrypted or final without a commitment before |
| `History.NeverCommittedIff` | sequencer/txstore/store.go:125-137 | in every run no commitment has reached a record exactly if its block is 0 and none for block 0 has |
| `History.DecryptedUncommittedIff` | sequencer/p2p/msg_handler.go:58-59 | in every run a key mark decrypts a never committed transaction exactly if its block is 0 and no commitment for block 0 has reached it; the block alone decides where no commitment is for block 0 |
| `Rebidding.AtMost31Blocks` | sequencer/main.go:177-183 | with a head that never moves back a transaction is bid for at most 31 different blocks, all within its deadline, 30 blocks after the head of its encryption, and only the first possibly not after that head |
| `Witnesses.All31BlocksOccur` | sequencer/main.go:177-183 | some run does bid for one transaction for 31 different blocks, since it was stored between head and scan of a tick |
| `EndToEnd.DecryptedIsServed` | sequencer/api/rest.go:49-176 | in every run with right keys every decrypted or final transaction is served, and what is served is the submitted transaction |
| `EndToEnd.ServedIsSubmitted` | sequencer/api/rest.go:49-176 | for every request of such a run, what is served hashes to the requested hash and is the submitted payload |
| `EndToEnd.BidIsRouted` | sequencer/main.go:278-289 | in every honest run the prefixes of a bid find exactly its transactions, index by index, in every later state of the store |
| `EndToEnd.BidIsRoutedOnFields` | sequencer/main.go:278-289 | the same for the prefix bytes and the address |
| `Disclosure.PublishedIsRouted` | sequencer/p2p/msg_handler.go:53 | in every state of every honest run each prefix the keypers know finds exactly one transaction, which was in a bid that succeeded |
| `Disclosure.PublishedIsRoutedOnFields` | sequencer/p2p/msg_handler.go:53 | the same for the prefix bytes and the address |
| `Refinement.TickAlone` | sequencer/main.go:176-251 | an uninterrupted tick, made of steps of the bid loop only, ends at rest with the store of the sequential tick, and the keypers know the prefixes of those of its messages that reached them |
| `Refinement.PlayIsARun` | sequencer/main.go:176-251 | what one actor plays on its own extends any run that has come to its starting state, by its own steps only |
| `Bids.ArrivingWereSent` | sequencer/main.go:216-244 | messages that reach the keypers are among those the tick sends, and are all of them if none is lost |
| `Bids.ArrivesIff` | sequencer/main.go:216-244 | a message arrives exactly if it is that of a commitment whose message reaches the keypers |
| `Undisturbed.SubmissionAlone` | sequencer/rpc/server.go:185-216 | an uninterrupted submission is a play of its own steps that leaves the store of the method, whether it stores, fails or finds the hash known |
| `Undisturbed.MessageAlone` | sequencer/p2p/msg_handler.go:46-74 | so is a whole key message, by the steps of its handler, for whatever records its lookups find |
| `Undisturbed.VerificationAlone` | sequencer/transaction_verifier/verifier.go:88-131 | so is a verification, by the steps of the verifier, whatever the scan order and the receipts; which records become final is spelled out |

## Left out

- HTTP, JSON-RPC parsing, upstream proxying, gRPC dialing, libp2p and contract calls: their results are parameters (head, receipts, eon, keys, stream events).
- Cryptography itself and randomness: uninterpreted functions and drawn values.
- Configuration, logging, command line, containers and the test client.
- `GetAllTransactions`, `GetTransactionsByIdentityAndStatus`, `CommitmentMsgHandler`, `GetVerificationStats`: no actor that changes a status reads them, and no property here depends on them.
- Wall-clock values (submission time, decay timestamps) and the 2-minute timeout: a cancellation may come at any time.
- `UpdateRetriedTx` in the interleaved system: no actor calls it; it is covered as a store method and in `RetryBound`.
- Weak-memory effects of the key written outside the lock: that write is one atomic step.
- A bid or commitment whose option list is missing altogether: options are always a list.
- The fields of a commitment and of the message to the keypers that are only copied (digests, signatures, amounts, addresses, timestamps).
- `SubmitBidGRPC` as a class method takes what the select made of the stream as a parameter; `CommitmentStream` models how that comes about, and `EverySessionArises` shows that the parameter ranges over exactly what can.
- No source function of their own have the methods split off to keep proofs small: `BidForScan`, `SplitByDeadline`, `BlockAndBid`, `BlockAndMake`, `Collect`, `MarkCommitted` (bid manager), `WriteKey`, `MarkDecrypted` (key handler), `FinaliseFound`, `CheckOne`, `HashOf`, `TakeReceipt` (verifier), `Add`, `TakeRetry` (store).
- A slice out of range on a raw transaction shorter than two characters is the reply `Panicked`; that the HTTP server survives it is not modelled.
- The keys of one message are handled in order by one handler in `KeyMessages`, and by independent concurrent handlers in `Protocol`, which allows more interleavings than the code has.

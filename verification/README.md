# Custody, codec and fee proofs

A Dafny model of the deployment tooling's hard cores, kept beside the sources it describes. Every
operation takes the branches of the code it models; what its file system, processes, clocks and
peers do is nondeterministic, and any process may die between two steps.

`dafny verify dfyconfig.toml` checks all of it. Automatic induction is off on every lemma it would apply to;
every inductive proof is written out.

## What is modelled

**Startup custody and run deletion (local Solana).** `StartupRecord` and `StartupCustody` are the
owner, its supervisors, their validators, the marker and the pending guard as one state machine over
single awaits; `CustodyEvidence` follows the recorded failure, `CustodySafety` draws the conclusions over whole
runs, `CustodyProgress` shows that a start and a stop go through. `MarkerWrites` is the per-directory write queue and the in-place rewrite of the
marker.
`ValidatorTermination` is the authenticated escalation against a stale validator, and `SolanaReclaim`
puts the owner's cleanup and any number of reclaimers on top of the custody machine.

**Lease reclamation (local EVM).** `EvmLease` has runners that create, publish and remove run
directories, supervisors that spawn one Anvil each, and reclaimers that follow stale directories
through their claims. Directories are inodes under names, and every path is looked up again at every
step. It also keeps the invariant through each step; `EvmLeaseSafety` draws the conclusions and
`EvmLeaseProgress` shows that reclamation gets done. `ClaimNames` is the text of the claim names.

**Publication.** `PublicationDisk` is a disk with a present and a set of states a crash may leave;
`Publication` is the claimed output directory as a class whose every disk is remembered.

**JSON.** `JsonText`, `JsonValue`, `CodePointOrder`, `JsonParser`, `JsonCanonical`, `JsonRoundTrip`
and `JsonAccepted`: the cursor-based bounded parser proved against a recursive specification on
suffixes, the key-sorting printer, and the round trip between them. Texts are sequences of UTF-16
units, as in the source.

**Codecs.** `Digits`, `Bytes`, `Hex`, `Base58`, `AccountKeys`, `TokenTransaction`, `SignedTransaction`
and `Rlp`. The RLP
items follow Appendix B of the Ethereum Yellow Paper.

**Fees and quotes.** `Decimal`, `Costs`, `Quote`, `Budget` and `Readiness`.

**Runtime templates.** `Runtime` patches immutables into a template and masks them out again.

**Supervision.** `Subreaper` is the reaping loop against a nondeterministic kernel, `Fixture` the
fixture run's retries, cleanup and publication.

`Wrappers` and `Sequences` are shared helpers.

## Where the steps come from

The state machines are step functions; the lemmas in the table below are about their runs.

- `StartupCustody.OwnerStep` tooling/local-solana/src/adapters/startup-custody.ts:65-88, `WriterStep` 91-172, `CoroutineStep` tooling/local-solana/src/adapters/validator-supervisor.ts:40-155, `Admitted` startup-custody.ts:91-133.
- `SolanaReclaim.ActorStep` and `HolderStep` tooling/local-solana/src/adapters/filesystem.ts:45-64 and 210-260.
- `EvmLease.RunnerStep` tooling/local-evm/run-initialization.ts:12-47 and run-lease.ts:37-56, 374-394; `SupervisorStep` tooling/local-evm/process.ts:184-244 and run-lease.ts:67-110; `FrameStep` run-lease.ts:122-190, 232-249, 332-372.
- `PublicationDisk.Created` to `ParentSynced` tooling/deployment-plan/src/adapters/safe-output.ts:136-296.
- `JsonParser.ParseValue` and its siblings tooling/deployment-plan/src/adapters/bounded-json.ts:80-228; `JsonCanonical.Print` tooling/deployment-plan/src/domain/identity.ts:5-27.
- `Quote.BuildFrom` and `ValidateFrom` builder.ts:118-158 and verifier.ts:300-379; `Budget.Executed` local-execution-proof.ts:422-459.

## What does not hold as one might expect

Each of these is a lemma with the exact condition or a concrete run.

- The provisional route of the lease protocol (`createProvisionalRunDirectory`, which no production code calls) is unsafe: `ProvisionalRouteIsUnsafe`. A reclaimer that saw no lease never looks again after its claim. All other lemmas about leases are about runs without that one event.
- The guards of the marker do not latch `failed` by themselves: `LatchFailsExactlyOnUnacquiredRecord`. The protocol never reaches the exception.
- The empty byte string is encoded like one zero byte: `DecodeUndoesEncode`.
- A transaction always carries two signatures; when its payer is its authority one is required, and the second belongs to no signing key: `SignaturesMatchKeys`.
- `validateQuote` taken alone accepts quotes with malformed block hashes that the builder would refuse: `AcceptedIsBuilt`, `UnhashedQuotePasses`. Stored quotes pass `parseFeeQuote` first, which checks them, so what is then accepted is the builder's output: `StoredIsBuilt`.
- An operation with value can pass the first reservation of its turn and fail the second: `ReservationSurvivesExactly`, `ValueBreaksReservation`.
- A template of odd length loses its last digit: `LengthKeptExactly`.
- A failure report with an ill-formed diagnostic code is refused by the store: `FailureAcceptedExactly`.

## Model

| member | source | states |
|---|---|---|
| `StartupCustody.StepKeepsInv` | tooling/local-solana/src/adapters/startup-custody.ts:65-172 | one step of the owner, a supervisor or a validator, with any write or sync failing or any process dying, keeps the custody invariant |
| `CustodySafety.PendingOutlivesEveryChild` | tooling/local-solana/src/adapters/startup-custody.ts:65-108 | in every run, while the pending file is gone no validator is alive and no supervisor can still spawn one |
| `CustodySafety.SettledMeansNoValidator` | tooling/local-solana/src/adapters/startup-custody.ts:185-198 | when the record read was settled and the pending file, looked for any number of steps later, was gone, no validator spawned for the run is alive |
| `CustodySafety.SettledStaysSettled` | tooling/local-solana/src/adapters/startup-custody.ts:185-205 | owner dead and settled stays so over every continuation, and no validator is alive in any of them |
| `CustodySafety.NothingSpawnsOnceClosing` | tooling/local-solana/src/adapters/validator-supervisor.ts:40-55 | a step that spawns a validator finds its supervisor alive and not closing, and closing never resets |
| `CustodySafety.MarkerHistory` | tooling/local-solana/src/adapters/startup-custody.ts:91-133 | in every run a record is replaced only as allowed: nothing but a new reservation after settlement, no progress after stopping or failed, and the very failure and supervisor that were recorded until a new reservation |
| `CustodySafety.HistoryUntilReservation` | tooling/local-solana/src/adapters/startup-custody.ts:91-133 | the same over any continuation: until the next reservation every later record has the failure and the supervisor of the first one, and a settled record is never rewritten |
| `CustodyEvidence.EvidenceInRuns` | tooling/local-solana/src/adapters/validator-supervisor.ts:102-110 | in every run at most one write of a supervisor carries a failure, and none once the record it acquired holds one |
| `CustodySafety.LatchFailsExactlyOnUnacquiredRecord` | tooling/local-solana/src/adapters/startup-custody.ts:94-99 | the guards alone let a stopping or failed record go back to a progress stage exactly for an acquisition of a record nobody acquired |
| `CustodyProgress.CustodyComesFullCircle` | tooling/local-solana/src/adapters/startup-custody.ts:65-172 | from every settled run directory a validator can be started, and an undisturbed stop settles custody again |
| `MarkerWrites.MarkerWriteQueue.Enter` | tooling/local-solana/src/adapters/startup-custody.ts:14-18 | a call queues behind the latest promise of its directory and becomes the latest |
| `MarkerWrites.MarkerWriteQueue.Finish` | tooling/local-solana/src/adapters/startup-custody.ts:19-25 | a finished call is done, and the queue invariant survives its forgetting of the map entry only while it is the latest |
| `MarkerWrites.NeverOverlapped` | tooling/local-solana/src/adapters/startup-custody.ts:14-25 | two actions on one directory never run at once and start in call order |
| `MarkerWrites.RunEvents` | tooling/local-solana/src/adapters/startup-custody.ts:14-25 | any calls, starts and ends of actions, in any order the promises allow, keep the queue that way |
| `MarkerWrites.FirstWaitingMayStart` | tooling/local-solana/src/adapters/startup-custody.ts:14-25 | the first unfinished call on a directory is never blocked |
| `MarkerWrites.MarkerFile.WriteAll` | tooling/local-solana/src/adapters/startup-custody.ts:136-142 | the write loop has put exactly the written prefix over the old content, and the whole text when it succeeds |
| `MarkerWrites.MarkerFile.PublishRecord` | tooling/local-solana/src/adapters/startup-custody.ts:135-145 | success leaves exactly the record, synced; failure leaves a prefix of it over the old text, or all of it |
| `MarkerWrites.WritesCompose` | tooling/local-solana/src/adapters/startup-custody.ts:136-142 | consecutive partial writes are one write |
| `ValidatorTermination.AwaitExit` | tooling/local-solana/src/adapters/filesystem.ts:304-313 | true only after an observed exit of the validator, false only after the whole timeout by the clock, and it sends nothing |
| `ValidatorTermination.AuthenticateBeforeSignal` | tooling/local-solana/src/adapters/filesystem.ts:284-290 | true only directly after a clean authentication, false only after an observed exit |
| `ValidatorTermination.TerminateAuthenticatedValidator` | tooling/local-solana/src/adapters/filesystem.ts:270-282 | returns normally only after an observed exit; every signal directly follows a clean authentication, SIGKILL only after SIGTERM, the grace period and a second authentication, and nothing is sent after an observed exit |
| `SolanaReclaim.StepKeepsInv` | tooling/local-solana/src/adapters/filesystem.ts:45-64 | one step of the owner cleanup, a reclaimer or custody keeps the deletion invariant |
| `SolanaReclaim.MovesKeepHolders` | tooling/local-solana/src/adapters/filesystem.ts:210-221 | at most one caller is between its rename to quarantine and its report, and at most one report exists |
| `SolanaReclaim.RemovalIsSafe` | tooling/local-solana/src/adapters/filesystem.ts:45-64 | in every interleaving a run is removed only with custody settled, no validator of it alive and the registered one gone; a reclaimer removes only the run of a dead owner |
| `SolanaReclaim.RemovalReportedOnce` | tooling/local-solana/src/adapters/filesystem.ts:59-63 | at most one caller ever reports the removal, and only of a removed run |
| `SolanaReclaim.QuarantinedRunsAreSilent` | tooling/local-solana/src/adapters/filesystem.ts:224-260 | while a run is in quarantine or removed, none of its validators is alive |
| `SolanaReclaim.StaleRunIsRemoved` | tooling/local-solana/src/adapters/filesystem.ts:54-64 | an undisturbed reclaimer that finds a settled run of a dead owner removes it and reports it |
| `EvmLeaseSafety.StepKeepsInv` | tooling/local-evm/run-lease.ts:91-190 | one step of a runner, a supervisor, a reclaimer or a remover, or a death, keeps the lease invariant and takes back nothing that others rely on |
| `EvmLeaseSafety.DeletionIsSafe` | tooling/local-evm/run-lease.ts:332-394 | in every interleaving a step deletes at most one directory, never twice, and only an empty reservation by its own runner or a directory without a living Anvil whose owner is dead or is the remover |
| `EvmLeaseSafety.EmptyingIsSafe` | tooling/local-evm/run-lease.ts:366-372 | the step that empties a directory finds no living Anvil of it, its owner dead or the remover, and touches no other directory |
| `EvmLeaseSafety.LeaseEndsByEmptying` | tooling/local-evm/run-lease.ts:366-372 | nothing but that step ever takes a lease away |
| `EvmLeaseSafety.DeletedOnceAndSilent` | tooling/local-evm/run-lease.ts:366-372 | no directory is deleted twice or keeps a name, and no Anvil of a deleted one is alive in any later state |
| `EvmLeaseSafety.LivingRunnerKeepsDirectory` | tooling/local-evm/run-initialization.ts:26-47 | a living runner that is not removing finds its published directory under its name, with its own lease |
| `EvmLeaseSafety.ClaimsChangeHandsAfterDeath` | tooling/local-evm/run-lease.ts:136-143 | a claim is renamed or removed only by its claimant or after its claimant died |
| `EvmLeaseSafety.LeaseHistory` | tooling/local-evm/run-lease.ts:91-110 | over every continuation the runner of a lease never changes and its Anvil is set at most once |
| `EvmLeaseSafety.ProvisionalRouteIsUnsafe` | tooling/local-evm/run-lease.ts:232-249 | with a directory that had its final name before its lease, a run exists in which it is deleted while its Anvil is alive |
| `EvmLeaseProgress.AbandonedRunIsDeleted` | tooling/local-evm/run-lease.ts:168-190 | an undisturbed reclaimer deletes a published directory whose runner and registered Anvil are dead |
| `EvmLease.RenameKeepsInv` | tooling/local-evm/run-initialization.ts:34-46 | promoting the initialized directory over its reservation keeps the invariant |
| `EvmLease.ClaimedKeepsInv` | tooling/local-evm/run-lease.ts:344-350 | renaming a directory one may delete to a claim keeps the invariant, whatever inode was moved |
| `ClaimNames.CutJoined` | tooling/local-evm/run-lease.ts:422-422 | the dashes of a claim separate its parts in one way only |
| `ClaimNames.OwnerReads` | tooling/local-evm/run-lease.ts:316-330 | the initializer written into a run name is read back from it |
| `ClaimNames.ClaimRecovers` | tooling/local-evm/run-lease.ts:332-364 | the name a claimant builds reads back as the inode identity, the claimant, the deleting flag, and the phase and initializer of the name before |
| `ClaimNames.ReclaimIgnoresClaim` | tooling/local-evm/run-lease.ts:357-364 | claiming a claim gives the name that claiming the original would have given |
| `ClaimNames.ClaimsInTurnAreTheLast` | tooling/local-evm/run-lease.ts:332-364 | after any number of claims the name is the one the last claimant would give the original: nothing is lost and nothing grows |
| `PublicationDisk.ReadyMeansComplete` | tooling/deployment-plan/src/adapters/safe-output.ts:230-296 | on a crash-safe disk, whoever finds READY finds every leaf and READY itself with exactly the bytes written |
| `Publication.CrashAtAnyStep` | tooling/deployment-plan/src/adapters/safe-output.ts:179-296 | a crash at any step of any sequence of calls that shows READY shows every tracked leaf with its bytes, and the target was certain |
| `Publication.CommitKeepsInv` | tooling/deployment-plan/src/adapters/safe-output.ts:261-287 | renaming the synced marker to READY in a published directory keeps every disk crash-safe |
| `Publication.DirectorySyncKeepsInv` | tooling/deployment-plan/src/adapters/safe-output.ts:285-285 | syncing the directory makes every leaf certain |
| `Publication.ClaimedOutputDirectory.WriteExclusive` | tooling/deployment-plan/src/adapters/safe-output.ts:136-177 | refuses after publication, for a bad name and for READY; success tracks exactly these bytes and nothing else changes |
| `Publication.ClaimedOutputDirectory.Publish` | tooling/deployment-plan/src/adapters/safe-output.ts:179-228 | success makes the target and every leaf certain; it happens once, and a failure publishes nothing |
| `Publication.ClaimedOutputDirectory.FinalizeReady` | tooling/deployment-plan/src/adapters/safe-output.ts:230-296 | success leaves READY durable with its bytes; once durable or uncertain every later call fails and changes neither state nor leaves |
| `Publication.ClaimedOutputDirectory.Close` | tooling/deployment-plan/src/adapters/safe-output.ts:315-364 | what was renamed is left as it is; an unpublished staging directory is moved away |
| `Publication.ClaimedOutputDirectory.ReadCommitted` | tooling/deployment-plan/src/adapters/safe-output.ts:366-393 | gives bytes only of a durable leaf after durable finalization, and the error of the state otherwise |
| `Publication.RunCalls` | tooling/deployment-plan/src/adapters/safe-output.ts:136-372 | behind every sequence of calls every disk there ever was is crash-safe, and durable finalization has a durable READY |
| `JsonParser.BoundedJsonParser.Parse` | tooling/deployment-plan/src/adapters/bounded-json.ts:80-87 | the class parses exactly what the recursive specification on suffixes parses |
| `JsonParser.BoundedJsonParser.Value` | tooling/deployment-plan/src/adapters/bounded-json.ts:89-108 | one value, with the cursor behind exactly the text it consumed |
| `JsonParser.BoundedJsonParser.Number` | tooling/deployment-plan/src/adapters/bounded-json.ts:110-121 | the number of the specification, or an error |
| `JsonParser.BoundedJsonParser.Members` | tooling/deployment-plan/src/adapters/bounded-json.ts:123-162 | the members of an object, each key new, up to the member limit |
| `JsonParser.BoundedJsonParser.Items` | tooling/deployment-plan/src/adapters/bounded-json.ts:164-184 | the items of an array up to the item limit |
| `JsonParser.BoundedJsonParser.SkipContent` | tooling/deployment-plan/src/adapters/bounded-json.ts:188-208 | stops behind the closing quote the specification finds, or passes the end by at most one |
| `JsonParser.BoundedJsonParser.StringLiteral` | tooling/deployment-plan/src/adapters/bounded-json.ts:186-209 | the decoded literal, with the size limit on its encoding |
| `JsonParser.ParseJson` | tooling/deployment-plan/src/adapters/bounded-json.ts:54-68 | the whole function with its byte limit, on decoded text |
| `JsonAccepted.AcceptedIsBounded` | tooling/deployment-plan/src/adapters/bounded-json.ts:80-228 | every accepted text gives a value within all limits, with unique keys |
| `JsonRoundTrip.RoundTrip` | tooling/deployment-plan/src/adapters/bounded-json.ts:80-228 | parsing the canonical text of a value gives the value in canonical order exactly when text and value respect the limits |
| `JsonRoundTrip.ValueReads` | tooling/deployment-plan/src/adapters/bounded-json.ts:89-108 | a printed value is read back in front of any text that does not go on with a digit |
| `JsonRoundTrip.LargestSuffices` | tooling/deployment-plan/src/adapters/bounded-json.ts:89-196 | limits as large as the largest part of a value never refuse it |
| `JsonRoundTrip.CanonicalTextIsIdentity` | tooling/deployment-plan/src/domain/identity.ts:5-36 | two values have the same canonical text exactly when they denote the same thing |
| `JsonCanonical.PrintDependsOnMeaning` | tooling/deployment-plan/src/domain/identity.ts:5-27 | the canonical text does not depend on the order of insertion |
| `JsonCanonical.SortAscends` | tooling/deployment-plan/src/domain/identity.ts:19-20 | sorting unique keys gives a strictly ascending order |
| `JsonCanonical.AscendingDetermined` | tooling/deployment-plan/src/domain/identity.ts:19-20 | only one ascending order of given members exists |
| `CodePointOrder.CompareCodePoints` | tooling/deployment-plan/src/domain/identity.ts:29-36 | the loop compares the sequences of code points |
| `CodePointOrder.CodePointsInjective` | tooling/deployment-plan/src/domain/identity.ts:29-36 | different strings, unpaired surrogates included, have different code points |
| `CodePointOrder.BeforeIsTotal` | tooling/deployment-plan/src/domain/identity.ts:29-36 | the order is total and strict |
| `CodePointOrder.BeforeTransitive` | tooling/deployment-plan/src/domain/identity.ts:29-36 | the order is transitive |
| `JsonText.DecodeUndoesEncode` | tooling/deployment-plan/src/domain/identity.ts:6-8 | an escaped string literal decodes to the string it was written from |
| `JsonText.ScanFindsClosingQuote` | tooling/deployment-plan/src/adapters/bounded-json.ts:188-208 | the scan stops at the quote that closes a written literal |
| `JsonText.DecodedIsNoLonger` | tooling/deployment-plan/src/adapters/bounded-json.ts:192-197 | a decoded string is never longer in UTF-8 than its encoding, so the limit on one bounds the other |
| `JsonText.IntegerRoundTrip` | tooling/deployment-plan/src/adapters/bounded-json.ts:110-121 | a printed safe integer is read back whatever follows, unless it is a digit |
| `Base58.Decode` | tooling/local-solana/src/adapters/transaction.ts:127-135 | the loops compute the decoding function |
| `Base58.Encode` | tooling/local-solana/src/adapters/transaction.ts:137-144 | the loops compute the encoding function |
| `Base58.DecodeUndoesEncode` | tooling/local-solana/src/adapters/transaction.ts:127-144 | decoding undoes encoding exactly for the non-empty byte strings |
| `Base58.EncodeUndoesDecode` | tooling/local-solana/src/adapters/transaction.ts:127-144 | encoding undoes decoding for every accepted text, leading ones included |
| `Base58.LettersSpellAlphabet` | tooling/local-solana/src/adapters/transaction.ts:6-6 | the digits are spelled with the 58 letters of the alphabet |
| `AccountKeys.CompileAccountKeys` | tooling/local-solana/src/adapters/transaction.ts:72-106 | the merging loop, the sort and the counters compute the compiled message header |
| `AccountKeys.MergeUnites` | tooling/local-solana/src/adapters/transaction.ts:73-84 | merged keys are distinct, cover exactly the requests and unite their flags |
| `AccountKeys.SortSorts` | tooling/local-solana/src/adapters/transaction.ts:89-93 | sorting distinct accounts puts them in order of category and then of first request, and keeps them distinct |
| `AccountKeys.CountIsPrefix` | tooling/local-solana/src/adapters/transaction.ts:97-99 | in ascending categories the counters are the lengths of prefixes |
| `AccountKeys.CompiledLayout` | tooling/local-solana/src/adapters/transaction.ts:72-106 | keys are distinct and exactly those requested, the payer first; the counters tell which sign and which are written |
| `AccountKeys.CompilesExactly` | tooling/local-solana/src/adapters/transaction.ts:85-88 | compilation succeeds exactly when one key and only one is asked for as payer, and it signs and is written |
| `AccountKeys.IndexOfInverts` | tooling/local-solana/src/adapters/transaction.ts:94-104 | indexOf finds exactly the place of every compiled key |
| `TokenTransaction.EncodeShortVec` | tooling/local-solana/src/adapters/transaction.ts:146-151 | the loop writes the compact length of the value cut to 32 bits |
| `TokenTransaction.ShortVecRoundTrip` | tooling/local-solana/src/adapters/transaction.ts:146-151 | a compact length is read back in front of any text |
| `TokenTransaction.ConcatParts` | tooling/local-solana/src/adapters/transaction.ts:152-152 | the buffer holds the parts one behind the other |
| `TokenTransaction.MessageRoundTrip` | tooling/local-solana/src/adapters/transaction.ts:27-57 | a serialized message reads back as the message |
| `TokenTransaction.TransactionLayout` | tooling/local-solana/src/adapters/transaction.ts:27-57 | instruction indexes name the right keys, the payer is the first signing key and the authority the second; two signatures are required exactly when they differ |
| `SignedTransaction.SignedReads` | tooling/local-solana/src/adapters/transaction.ts:47-55 | the transaction carries two signatures in front of the message, and reads back as these |
| `SignedTransaction.SignaturesMatchKeys` | tooling/local-solana/src/adapters/transaction.ts:47-55 | signature 0 is by key 0; signature 1 is by key 1, and there are as many signatures as required, each exactly when payer and authority differ |
| `Rlp.NonceBytesAreMinimal` | tooling/local-evm/create-address.ts:43-50 | the nonce is written in its minimal big-endian bytes |
| `Rlp.ScalarsAgree` | tooling/deployment-plan/src/domain/identity.ts:141-153 | both encoders write the same scalar |
| `Rlp.ScalarRoundTrip` | tooling/local-evm/create-address.ts:43-50 | the scalar decodes to the nonce |
| `Rlp.PreimageRoundTrip` | tooling/local-evm/create-address.ts:21-37 | both encoders accept the same inputs and write the same bytes, at most 54 of payload, from which sender and nonce are read back |
| `Rlp.PreimageInjective` | tooling/deployment-plan/src/domain/identity.ts:126-139 | different senders or nonces never share a preimage |
| `Hex.HexRouteIsMinimalBytes` | tooling/deployment-plan/src/domain/identity.ts:141-153 | the route through hexadecimal text gives the minimal bytes of the nonce |
| `Decimal.ParseInvertsPrint` | tooling/deployment-plan/src/domain/model.ts:36-48 | parsing accepts exactly the printed uint256 values and gives them back |
| `Decimal.Uint256FitsLength` | tooling/deployment-plan/src/domain/model.ts:36-48 | the length limit refuses nothing the range accepts |
| `Costs.CheckedAdd` | tooling/deployment-plan/src/domain/model.ts:50-56 | the sum exactly when both are non-negative and it fits |
| `Costs.CheckedMul` | tooling/deployment-plan/src/domain/model.ts:58-64 | the product exactly when both are non-negative and it fits |
| `Costs.CeilDiv` | tooling/deployment-plan/src/domain/model.ts:66-71 | the least number whose product with the denominator reaches the numerator |
| `Costs.CostsMeaning` | tooling/deployment-plan/src/domain/model.ts:73-118 | what accepted costs mean: rounded buffer, capped effective fee, estimate below worst case below cap |
| `Costs.GasLimitCoversEstimate` | tooling/deployment-plan/src/domain/model.ts:93-105 | the buffered limit never falls below the estimate, so that refusal cannot occur |
| `Quote.FreshExactly` | tooling/deployment-plan/src/application/verifier.ts:319-357 | freshness is exactly the bindings, the implied expiry and a clock in the interval |
| `Quote.BuiltFromReadings` | tooling/deployment-plan/src/application/builder.ts:118-158 | a quote is built exactly when its observation is bound, well-formed and affordable |
| `Quote.ValidatedReadings` | tooling/deployment-plan/src/application/verifier.ts:300-379 | a quote is accepted exactly when it is the recomputed one and the clock is in its interval |
| `Quote.BuiltIsAccepted` | tooling/deployment-plan/src/application/builder.ts:118-158 | a built quote is accepted exactly from its observation until just before its expiry |
| `Quote.AcceptedIsBuilt` | tooling/deployment-plan/src/application/verifier.ts:300-379 | an accepted quote equals the builder output for its own observation exactly when its block hashes are well-formed |
| `Quote.StoredIsBuilt` | tooling/deployment-plan/src/adapters/strict-json.ts:112-125 | a quote that the parser admits and the verifier accepts is the builder output for its own observation |
| `Quote.BuiltIsReadable` | tooling/deployment-plan/src/adapters/strict-json.ts:112-125 | the builder output passes the parser when plan identifiers and addresses have their form |
| `Quote.UnhashedQuotePasses` | tooling/deployment-plan/src/application/verifier.ts:319-357 | a quote with empty block hashes that the verifier accepts and both the builder and the parser refuse |
| `Quote.AcceptanceInterval` | tooling/deployment-plan/src/application/verifier.ts:319-357 | acceptance depends on the clock only through the interval the quote names |
| `Budget.ReservesExactly` | tooling/deployment-plan/src/domain/production-guards.ts:235-241 | a reservation passes exactly when committed plus the remaining maxima fit the total and the balance |
| `Budget.AdmittedCost` | tooling/deployment-plan/src/domain/production-guards.ts:226-233 | an admitted operation costs limit times fee plus value, at most its maximum plus its value |
| `Budget.ReservationSurvivesExactly` | scripts/deployment/local-execution-proof.ts:422-459 | a cost survives the second reservation everywhere exactly when it is at most the reserved maximum |
| `Budget.ValueBreaksReservation` | tooling/deployment-plan/src/domain/production-guards.ts:226-241 | under a policy of one gas at one wei, one wei of value makes the second reservation fail |
| `Budget.AssemblyRun.Execute` | scripts/deployment/local-execution-proof.ts:422-459 | one turn moves the books as the specification of a turn says |
| `Budget.AssemblyRun.Run` | scripts/deployment/local-execution-proof.ts:422-459 | the loop moves the books as the whole specification says |
| `Budget.BooksStayTrue` | scripts/deployment/local-execution-proof.ts:422-459 | in every run observed cost never exceeds what was committed, and the journal is successes with at most one other entry at the end |
| `Budget.NoLaterReservationFails` | scripts/deployment/local-execution-proof.ts:422-459 | for operations without value whose balance falls by no more than was committed, a passed first reservation means no later one fails and the total is never exceeded |
| `Readiness.EvaluateReadiness` | tooling/deployment-plan/src/domain/readiness.ts:28-77 | accepts exactly the acceptable evidence, and the report says of every reason whether it applies, in order |
| `Readiness.EvaluatedIsAccepted` | tooling/deployment-plan/src/application/readiness.ts:14-48 | every evaluated report is accepted for its own manifest digest and no other, and is never qualified |
| `Readiness.AcceptedNeverQualifies` | tooling/deployment-plan/src/application/readiness.ts:14-48 | no accepted report is qualified; its reasons ascend and decide the inconsistent status, and the accounts it names add up to no negative supply |
| `Readiness.SupplyIsConserved` | tooling/deployment-plan/src/domain/readiness.ts:68-70 | what a report prints of known accounts reads back as adjusted supply and surplus that add up to the fixed supply; unknown accounts are not printed |
| `Runtime.ReconstructRuntime` | tooling/local-evm/verifier.ts:282-313 | succeeds exactly for a non-empty hexadecimal template with valid references, and gives the patched bytes |
| `Runtime.PatchedHoldsWords` | tooling/local-evm/verifier.ts:297-313 | every reference holds its word, every other byte is the template |
| `Runtime.PatchedIgnoresOrder` | tooling/local-evm/verifier.ts:297-313 | the order of references does not matter |
| `Runtime.LengthKeptExactly` | tooling/local-evm/verifier.ts:297-313 | the length is kept exactly for templates of even length |
| `Runtime.MaskRuntime` | tooling/deployment-plan/src/application/production-preflight.ts:140-145 | the loops compute the mask, empty for texts that cannot be compared |
| `Runtime.MasksAgreeExactly` | tooling/deployment-plan/src/application/production-preflight.ts:140-145 | masks agree exactly when the runtimes agree outside the ranges |
| `Runtime.MaskUndoesPatch` | tooling/deployment-plan/src/application/production-preflight.ts:140-145 | masking a reconstructed runtime over its references gives the template back |
| `Subreaper.Supervisor.FindTracked` | scripts/rollback/runtime/subreaper.c:78-83 | an entry it finds has the number and is not gone; it misses only entries that are gone |
| `Subreaper.Supervisor.SendOnce` | scripts/rollback/runtime/subreaper.c:91-98 | raises exactly the flag of the signal, unless sending failed |
| `Subreaper.Supervisor.SignalChildren` | scripts/rollback/runtime/subreaper.c:60-101 | on success every child there was when the list was read has the flag of the signal in its own entry, or is gone, whatever numbers were used again; only that signal is sent |
| `Subreaper.Supervisor.ReapAll` | scripts/rollback/runtime/subreaper.c:202-208 | says that no child remains only when none does, and keeps root and uncertainty latched |
| `Subreaper.Supervisor.WaitOnce` | scripts/rollback/runtime/subreaper.c:202-208 | the root counts as reaped exactly when a wait returned it |
| `Subreaper.Supervisor.ReportSettled` | scripts/rollback/runtime/subreaper.c:215-228 | reports the latched root and uncertainty as they are, claims custody exactly with nothing uncertain, completed only without a reason |
| `Subreaper.Supervisor.Drain` | scripts/rollback/runtime/subreaper.c:239-247 | signals TERM or KILL by the time since draining began, and ends uncertain exactly when the drain time is over |
| `Subreaper.Supervisor.Turn` | scripts/rollback/runtime/subreaper.c:201-249 | reason, drain start, root and uncertainty latch; custody is claimed only with the root reaped and nothing uncertain; a turn that goes on got closer to the end or counted a failed clock |
| `Subreaper.Supervisor.Run` | scripts/rollback/runtime/subreaper.c:196-250 | the loop ends; it claims custody only with no child left, the root reaped and no uncertainty ever recorded, completion only without a reason; no process got a signal twice, and the count is the number of flags |
| `Subreaper.FlagKeepsTracking` | scripts/rollback/runtime/subreaper.c:91-98 | raising a flag keeps the count equal to the flags and every sent signal on record |
| `Fixture.FixtureRun.StartValidatorWithPortRetry` | tooling/local-solana/src/application/runner.ts:245-272 | at most three attempts, each after a port collision; success holds one lease and a validator, failure keeps a lease only if its release failed |
| `Fixture.FixtureRun.RetryCleanup` | tooling/local-solana/src/application/runner.ts:193-197 | a second attempt exactly when the first failed |
| `Fixture.FixtureRun.CloseTools` | tooling/local-solana/src/application/runner.ts:173-175 | snapshots close only when no tool user is left |
| `Fixture.FixtureRun.FinalizeCleanup` | tooling/local-solana/src/application/runner.ts:169-191 | every cleanup is tried once or twice, the directory only when tools and users are settled, and what the truth says is so |
| `Fixture.FixtureRun.Run` | tooling/local-solana/src/application/runner.ts:141-166 | success is published only if no step failed, verification was reached and cleanup was complete; a failure after the first mutation is reported once and truthfully |
| `Fixture.FailureAcceptedExactly` | tooling/local-solana/src/adapters/filesystem.ts:363-374 | a failure report is refused only for the form of a coded primary diagnostic |
| `Fixture.PrimaryIsLeaf` | tooling/local-solana/src/application/runner.ts:204-204 | the primary failure is never a non-empty aggregate |

## Left out

- Hash functions and signatures: SHA-256, Keccak-256 and Ed25519 are parameters or missing; a digest check is an equality.
- Network and process discovery: RPC clients, procfs, `lsof` and `ps` parsing, spawning details; only their outcomes are modelled.
- `tooling/local-solana/src/adapters/ports.ts` and the substitution checks of `safe-fs.ts`: no outsider edits the directories, and the race at the last system call of the same user is excluded, as the code itself does.
- Schema and shape validators, toolchain pins, message texts, Markdown and diagnostics.
- `keccakPermutation`: part of the hash.
- UTF-8 decoding in front of the parser, a byte-order mark included: the model starts from the decoded text and its UTF-8 length.
- JavaScript's order of integer-like keys: objects are sequences of members in insertion order. Values `canonicalJson` refuses for their type do not exist in the model; unsafe numbers do.
- StartupCustody.StepKeepsInv: a torn marker is the old text, unparsable text or the new text; the three timeouts of the supervisor are choices.
- MarkerWrites.MarkerFile.PublishRecord: the bytes of a write reach the file in order; what the disk keeps after a power loss is not modelled.
- Publication.RunCalls: calls of one object do not overlap.
- Publication.ClaimedOutputDirectory.Publish: identity and mode checks of parent, staging and target are one outcome that may fail.
- EvmLeaseSafety.DeletionIsSafe: legacy run names without an initializer, claims without a claimant and the bounded second read of a lease replaced during the scan are left out; an ambiguous process identity is a reclaimer that gives up; supervisors of one run start one Anvil.
- EvmLeaseSafety.LeaseHistory: the replacement of the lease file is one atomic step.
- SolanaReclaim.RemovalIsSafe: the repeated identity checks around the rename are one step each; a foreign directory under the quarantine name is not modelled; the token of a run is its identity.
- ValidatorTermination.AwaitExit: the clock never steps back, and a sleep advances it.
- ClaimNames.ClaimRecovers: device, inode and birth time are any digits; the random nonce is an argument.
- TokenTransaction.MessageRoundTrip: keys of 32 bytes and fewer than 256 accounts, which is what the wire format has room for; larger messages are compiled but not read back.
- AccountKeys.CompiledLayout: an instruction that names a missing account throws in the source; here `IndexOf` is `None`.
- Quote.BuiltIsAccepted: the plan and its trust roots are opaque apart from the fields a quote is bound to.
- Budget.AssemblyRun.Run: RPC answers, receipts and block checks of a turn are outcomes; purposes, deadlines and nonces only decide whether a turn fails.
- Readiness.EvaluateReadiness: the mainnet genesis comparison and the well-formedness of identifiers are Booleans, and the order of reason names is a table of ranks.
- Runtime.ReconstructRuntime: finding the immutables in the build information and the exact set of reference names are left out; words have 32 bytes.
- Subreaper.Supervisor.ReapAll: each round of waiting finds finitely many dead children. Argument checks and set-up before the fork are left out, as is formatting the report.
- Fixture.FixtureRun.Run: the commands between start and verification are one outcome with the phase they reached; errors are counted, not combined.
- `packages/domain/src/supply.ts` on its own: one identity, contained in `Readiness.SupplyIsConserved`.

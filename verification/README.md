# A Dafny model of the vault's signing policy and spend builder

Tesaurus guards a Bitcoin vault with two pieces of code that decide about money.

* The **agent policy** (`tesaurus-policy`) judges each request for a co-signature: a staged evaluation of a
  PSBT against a pinned vault, the facts of an independent node, a velocity window and a durable store of what
  was already signed. Fee bumps of an earlier spend are let through at no velocity charge.
* The **spend builder** (`src/spend.rs`) selects coins, builds and signs a transaction, and re-derives
  everything from the transaction before it is broadcast.

The model follows the program function by function and proves what holds over all inputs and all runs.

## Layout

| file | what it models |
|---|---|
| `Basics`, `Bitcoin`, `Encoding` | machine integers, results, sums; transactions and PSBTs; consensus and base16 encodings |
| `Pin`, `Csv`, `Structure`, `Velocity`, `Confirm` | the pin and chain facts, and the small policy stages |
| `Replay`, `Persistence`, `ReplayStore` | replay records and verdicts, their stored form, the store object and its runs |
| `Evaluate`, `EvaluateProofs`, `EvaluateExact` | the staged evaluation, the two fee-bump checks, the exact set of accepted requests |
| `EvaluateRefusals` | the ordered conditions of an evaluation, and the code that each refused request gets |
| `Agent`, `AgentExposure`, `AgentRetries` | the agent as a state machine, its invariant, exposure and samples, retries |
| `AgentVelocity`, `AgentBumps`, `AgentFees` | the window cap, fee bumps and their number over whole runs |
| `ExampleSpend`, `FeeBumpScenario` | the program's own example spend, and its fee bump as an instance of the honest-bump theorem |
| `FailureScenarios`, `OverlapScenario` | runs that show why the theorems about runs ask for what they ask |
| `CoinSelection`, `SpendBuilder`, `SpendProofs` | largest-first selection, building, checking |
| `SpendRefusals` | flags and sequences of the spending path, and the error that each refused request or transaction gets |

Machine integers are ranges of `int`, so checked arithmetic is written out where the program checks, and every
other result must be proved to fit. Libraries the program calls (SHA256, txids, ECDSA, PSBT parsing, dust limits,
weights, address and outpoint text, signing) are function values in `Library` and `SpendLibrary`. What is assumed
of them stands in `requires` clauses: that outpoint text parses back, that transaction hex decodes back, that a
satisfied script has a witness, that signing does not depend on the witnesses already in place. SHA256 is never assumed injective; where a statement needs it, it names the pairs
of preimages that must not collide.

Loops and updates of the program are methods and a class, each proved equal to a specification function; the
theorems are about those functions. The sort inside coin selection is a library call and is a function here.
Every induction is written out, so lemmas carry `{:induction false}`.
`Agent` is a state machine on values, because the program documents the caller sequence (evaluate, sign, attach,
commit, record a sample) but has no object for it. When the caller records the sample is a parameter: as soon as
the record is in the store's memory (`WhenStored`), or when the commit reports success (`WhenReported`).

## Main results

* **What two signatures can share.** On every run of commits, failed writes, crashes and reopenings, two stored
  records with a common coin spend the same coins to the same external output, and the later has strictly less
  change (`Store.ReachableStoreIsConsistent`, `Replay.ConflictMeansSameSpend`).
* **Exposure.** Any set of signatures that entered the store and that one chain can confirm together moves at most
  what was charged, over every run and interleaving, counting also those that a crash made the store forget
  (`AgentExposure.ExposureIsCharged`). Every such set is covered by the samples of its own spends exactly when each
  spend that pays something out was sampled in full at least once (`AgentExposure.ExposureIsCoveredExactly`).
* **Velocity.** On every run, all windows of 144 heights are within the cap exactly when each charge, at its commit,
  fits beside those recorded before (`AgentVelocity.CapIsKeptExactly`); if no tip is later than the commit's, that is
  one sum (`Velocity.LastWindowDecides`). The evaluation makes this check, the commit does not repeat it: it is enough
  when no signature enters the store between a ticket's evaluation and its commit and tips do not go back
  (`AgentVelocity.EveryWindowIsWithinCap`).
* **Fee bumps.** The two fee-bump checks agree (`EvaluateProofs.TwoFeeBumpChecksAgree`). After any run an honest bump,
  with its own input maps and input order, is refused by nothing but a window that is already over the cap
  (`AgentBumps.HonestBumpIsDecided`), and so never after a run as above (`AgentBumps.HonestBumpIsAccepted`, with an
  instance in `FeeBumpScenario.BumpIsAccepted`).
* **At most a million signatures for one coin set**, more only by those that crashes made the store forget: on every
  run the signatures ever stored are those in memory and those dropped (`AgentFees.SignaturesAreConserved`), and of
  those for one coin set at most a million are in memory (`AgentFees.AllBumpsAreBounded`).
  Of those reported as committed there are at most a million, whatever was dropped
  (`AgentFees.ReportedBumpsAreBounded`).
* **Evaluation.** The pipeline accepts exactly the requests of a flat predicate over PSBT, chain facts and
  unbounded sums (`EvaluateExact.EvaluationIsExact`). Every other request gets the code of the first condition that
  does not hold, in one list of conditions over the same data (`EvaluateRefusals.RefusalIsExact`), and a cached
  signature goes exactly to an authenticated retry (`EvaluateRefusals.CachedIsExact`).
* **Opening the store.** A records file opens exactly when it is JSON of version 1 in which every field is well
  formed, and as exactly the records its fields say (`Persistence.FileIsExact`).
* **Retries.** A committed signature answers its request for ever (`AgentRetries.CommittedRequestIsAnsweredForEver`).
* **Spending.** Selection is optimal; the builder succeeds exactly on the requests that limits, coins, keys and
  fee rate allow; the check accepts exactly the proper spends; everything built passes the check
  (`CoinSelection.SelectionIsOptimal`, `SpendProofs.SpendSucceedsExactly`, `SpendProofs.ValidatorIsExact`,
  `SpendProofs.BuilderSatisfiesValidator`). Built and accepted inputs carry the flag of their path and a sequence
  that satisfies its script (`SpendRefusals.AcceptedInputFitsPath`, `SpendRefusals.BuiltInputFitsPath`), and every
  refusal has its exact error (`SpendRefusals.VerdictIsExact`, `SpendRefusals.BuildRefusalIsExact`).

## Where the code does not do what one might expect

Each with the exact condition or number, and an input or run that shows it.

* Maturity does not match the documented bounds when tip minus confirmation height is 2^32 - 1
  (`Csv.MaturityExact`; `Csv.MaturityCornerIsRefused`).
* Coin selection can refuse a spend that 100 coins could pay: exactly when the largest coins that reach the need
  are together worth more than a u64 (`CoinSelection.SelectionSucceedsExactly`; `CoinSelection.LargestCoinsOverflow`).
* A commit that reports an error is not always closed. The store is as before exactly when the record could not
  have been stored anyway: it was refused, or unsigned. Otherwise it is in memory, and the next request with its
  ids is answered with the signature (`Store.ErrorIsClosedExactly`; `Store.FirstWriteFails`). Section 6.1, item 7,
  of `docs/PSBT_AGENT_PROTOCOL.md` asks to fail closed.
* So a caller that samples on reported success can miss exposure: the samples of its own spends fail to cover some
  set that can confirm together exactly when some spend that pays something out never had its full charge sampled
  (`AgentExposure.ExposureIsCoveredExactly`). One failed write is enough
  (`FailureScenarios.ReportedSamplesMissExposure`); a reported retry of the same spend makes up for it
  (`FailureScenarios.RetryMakesUpForTheSample`).
* The window cap can be passed by requests that are all evaluated before the first is committed
  (`AgentVelocity.CapIsKeptExactly`; `OverlapScenario.OverlappedRequestsExceedCap`). Velocity then also refuses fee
  bumps, although they are charged nothing: exactly while the window of the tip is over the cap
  (`AgentBumps.ProperBumpIsDecided`; `OverlapScenario.OverlappedBumpIsRefused`).
* All signatures ever made for one coin set are not bounded by a million if crashes drop records: an unwritten commit
  and a crash leave an empty store, and the same coins can be signed again, any number of times
  (`AgentFees.AllBumpsAreBounded`; `FailureScenarios.ForgottenBumpsAreUnbounded`). The example sends nothing to a
  script without a dust limit, so that the window cap does not end the run.

Where code and documentation disagree, the model follows the code: a fee of zero is refused although section 6.2 of
`docs/PSBT_AGENT_PROTOCOL.md` asks for a non-negative fee; depth must reach `csv_blocks + safety_margin` although
section 6.4 asks for `csv_blocks`; the PSBT is parsed before the replay lookup although section 6.1 comes first.

## Model

| member | source | states |
|---|---|---|
| Basics.FirstFailure | tesaurus-policy/src/evaluate.rs:340-388 | early-returning input loops pass iff every input passes, and otherwise give the first failing input's error |
| Bitcoin.OutputsSplit | tesaurus-policy/src/replay.rs:396-413 | every output is exactly one of external and change |
| Pin.Provision | tesaurus-policy/src/pin.rs:48-101 | provisioning succeeds iff the network is regtest, testnet or signet, csv is in 1..=65535 and the descriptor compiles, with the error for each refusal, and fixes the locked constants |
| Csv.MaturityExact | tesaurus-policy/src/csv.rs:71-95 | the checked arithmetic equals the unbounded depth and wall-clock bounds but for the depth 2^32, with the exact error code |
| Csv.MaturityCornerIsRefused | tesaurus-policy/src/csv.rs:14-24 | a coin that meets both bounds and is refused because its depth overflows |
| Csv.MaturityPersists | tesaurus-policy/src/csv.rs:71-95 | a mature coin stays mature as tip and clock advance below the last height |
| Structure.ParsePsbtV0 | tesaurus-policy/src/structure.rs:15-46 | succeeds with the parsed PSBT iff it parses as version 0 with equal, nonzero input and output counts in its two halves; every failure is PSBT_PARSE |
| Structure.SequenceCheckIsConsensusCheck | tesaurus-policy/src/structure.rs:175-185 | the recovery sequence test is OP_CHECKSEQUENCEVERIFY (BIP 112) for version 2 and csv in 1..=65535 |
| Structure.OtherDelaysAreNeverSatisfied | tesaurus-policy/src/structure.rs:175-178 | a delay of 0 or above 65535 is satisfied by no sequence |
| Velocity.CheckVelocityWindowCapped | tesaurus-policy/src/velocity.rs:47-76 | the checked u64 loop accepts iff the charge is within the per-signature cap and the unbounded window sum within the window cap |
| Velocity.SampleOrderIsIrrelevant | tesaurus-policy/src/velocity.rs:58-67 | the window verdict depends on the multiset of samples only |
| Velocity.RecordingKeepsCap | tesaurus-policy/src/velocity.rs:34-76 | recording an accepted charge at a tip no lower than before keeps every window, at any height, within the cap |
| Confirm.TxidDisplayBytes | tesaurus-policy/src/confirm.rs:45-49 | the in-place reversal yields the txid bytes back to front |
| Confirm.ConfirmPreimageLayout | tesaurus-policy/src/confirm.rs:55-64 | every field of the confirm preimage is at its documented offset |
| Confirm.ConfirmPreimageInjective | tesaurus-policy/src/confirm.rs:55-64 | the preimage has 108 bytes and two bindings share one iff they are equal |
| Encoding.OutputsRoundTrip | tesaurus-policy/src/replay.rs:54-65 | decoding the uncounted concatenation of encoded outputs gives the outputs back |
| Encoding.EncodeOutputsInjective | tesaurus-policy/src/replay.rs:54-65 | different output lists have different commitment preimages |
| Encoding.HexRoundTrip | tesaurus-policy/src/replay.rs:504-517 | decoding encoded hex gives the bytes back |
| Encoding.HexDecodeIsExact | tesaurus-policy/src/replay.rs:504-517 | decoding gives exactly the bytes whose digit pairs, in either case, the text is |
| Encoding.DecodesHex | tesaurus-policy/src/replay.rs:504-517 | decoding succeeds iff the length is even and every character is a digit; otherwise the error is Internal |
| Encoding.HexEncodeIsLower | tesaurus-policy/src/replay.rs:519-537 | encoding writes two lower-case digits a byte, the high one first |
| Replay.ReplayIdPreimageInjective | tesaurus-policy/src/replay.rs:43-52 | the replay id preimage determines request id, txid and content hash |
| Replay.ReplayIdPreimageLayout | tesaurus-policy/src/replay.rs:43-52 | request id, txid and content hash stand at 0, 16 and 48 of 80 bytes |
| Replay.ComputeOutputsCommitment | tesaurus-policy/src/replay.rs:54-65 | the buffer-filling loop hashes the concatenated encodings of all outputs in order |
| Replay.SortOutputs | tesaurus-policy/src/replay.rs:396-413 | the two-vector loop classifies: one external, at most one change, else none |
| Replay.FindRequest | tesaurus-policy/src/replay.rs:294-298 | the lookup finds the first record with the request id, or there is none |
| Replay.AppendKeepsConsistent | tesaurus-policy/src/replay.rs:293-340 | appending a signed record judged Fresh or FeeBump keeps request ids unique and every conflict a change-only replacement |
| Replay.ConflictIsEquivalence | tesaurus-policy/src/replay.rs:380-389 | sharing a coin is reflexive (with inputs), symmetric and transitive on stored records |
| Replay.ConflictMeansSameSpend | tesaurus-policy/src/replay.rs:415-438 | records sharing a coin have the same coin set, vault and external output; position order is the reverse of change order |
| Replay.VerdictsAreMonotone | tesaurus-policy/src/replay.rs:293-340 | as the store grows FeeBump never becomes Fresh, REPLAY never becomes Fresh or FeeBump, Idempotent and REPLAY_CONFLICT stay |
| Replay.CommittedRecordAnswers | tesaurus-policy/src/replay.rs:294-314 | a stored request id answers its own replay id with its bytes and any other with REPLAY_CONFLICT |
| Persistence.RecordRoundTrip | tesaurus-policy/src/replay.rs:519-586 | a stored record reads back unchanged iff its payload is not an empty signature, which reads back as unsigned |
| Persistence.FileRoundTrip | tesaurus-policy/src/replay.rs:440-456 | a persisted list of constructible records opens as exactly that list |
| Persistence.ConstructorsNeverSignEmpty | tesaurus-policy/src/replay.rs:113-172 | neither attaching a signature nor reading a stored record yields an empty signature |
| Persistence.RecordIsExact | tesaurus-policy/src/replay.rs:540-586 | a stored record reads as exactly the record that its fields say, field by field |
| Persistence.RecordIsReadable | tesaurus-policy/src/replay.rs:540-586 | it is refused, with Internal, iff some field is malformed: base16 of the wrong width or with another character, or an outpoint that does not parse |
| Persistence.FileIsExact | tesaurus-policy/src/replay.rs:265-283 | a file opens iff it is JSON of version 1 with every field well formed, as exactly the records it says |
| Persistence.DamagedFileIsRefused | tesaurus-policy/src/replay.rs:265-283 | contents that are not JSON, another version, or one malformed field refuse the file |
| Store.ReplayStore.Init | tesaurus-policy/src/replay.rs:226-247 | for every outcome of its file operations: what the directory holds afterwards, and that it succeeds, with an empty store, iff there was no version file, readable or not, and nothing failed |
| Store.ReplayStore.Open | tesaurus-policy/src/replay.rs:249-287 | opening succeeds iff the version tag is right and the file is there, is JSON of version 1 and has only well-formed fields; the records are those its fields say; every refusal is Internal |
| Store.ReplayStore.Preflight | tesaurus-policy/src/replay.rs:293-340 | the two loops compute the verdict of the declarative specification |
| Store.ReplayStore.Commit | tesaurus-policy/src/replay.rs:342-367 | memory, disk and result after a commit are those of one specified step, for every outcome of the file operations |
| Store.CommitIsExact | tesaurus-policy/src/replay.rs:342-376 | what a commit answers for every verdict and outcome of the file operations, and which contents a reader then finds and a crash can bring back |
| Store.CommitKeepsSound | tesaurus-policy/src/replay.rs:342-367 | every outcome of a commit keeps disk a prefix of consistent memory; it reports Fresh or FeeBump iff so judged, signed and fully written, and the record is then durable |
| Store.ReopenKeepsSound | tesaurus-policy/src/replay.rs:249-287 | whatever file contents survive a crash, the store opens with exactly those records, no fewer than were durable |
| Store.ReopenIsExact | tesaurus-policy/src/replay.rs:249-287 | a restart succeeds iff the surviving contents are readable, with the records their fields say |
| Store.RunKeepsSound | tesaurus-policy/src/replay.rs:225-368 | any interleaving of commits, failed writes and crashes keeps the store sound and openable and loses nothing durable |
| Store.ReachableStoreIsConsistent | tesaurus-policy/src/replay.rs:9-18 | every store reachable from an empty one is consistent |
| Store.CommitIsAnsweredForEver | tesaurus-policy/src/replay.rs:342-367 | after a successful commit every later state answers its ids with its bytes and other replay ids with REPLAY_CONFLICT |
| Store.ErrorIsClosedExactly | tesaurus-policy/src/replay.rs:342-376 | a storable record whose write fails gets an error; after any error the store is unchanged, and does not answer with the signature, iff preflight refused the record or it is unsigned |
| Store.FirstWriteFails | tesaurus-policy/src/replay.rs:352-358 | in an empty store, any failed write leaves the record in memory and its ids answered |
| Evaluate.CollectPrevouts | tesaurus-policy/src/evaluate.rs:207-259 | the loop collects each input's claimed prevout or stops with the first error |
| Evaluate.ClassifyAmounts | tesaurus-policy/src/evaluate.rs:261-312 | the checked u64 loops decide by the unbounded sums and give external, change and fee |
| Evaluate.EnforceFeeBumpPolicy | tesaurus-policy/src/evaluate.rs:511-559 | the loop over the records gives the specified fee-bump verdict, first error first |
| Evaluate.Evaluate | tesaurus-policy/src/evaluate.rs:79-205 | the staged method computes the specified outcome from the store's records |
| EvaluateRefusals.RefusalIsExact | tesaurus-policy/src/evaluate.rs:79-205 | an evaluation is refused iff some condition of the ordered list does not hold, with the code of the first such; the conditions are on token, PSBT, records, chain facts, sums and limits |
| EvaluateRefusals.AuthComesFirst | tesaurus-policy/src/evaluate.rs:87-93 | without authentication every request is refused with AUTH |
| EvaluateRefusals.CachedIsExact | tesaurus-policy/src/evaluate.rs:99-109 | a cached signature is returned iff the request is authenticated, parses, has no unknown fields, and the first record with its id has the replay id of its bytes and that signature |
| EvaluateRefusals.PreflightIsExact | tesaurus-policy/src/replay.rs:293-340 | the store's verdict on any records, also unsigned ones: which refusal, the stored signature, FeeBump or Fresh |
| EvaluateRefusals.ClassificationIsExact | tesaurus-policy/src/replay.rs:396-413 | outputs classify iff there are one or two of which exactly one is off the vault, into that one and the value of the other |
| EvaluateRefusals.CandidateIsExact | tesaurus-policy/src/replay.rs:137-158 | what each field of a candidate is, with the replay id spelled out |
| EvaluateRefusals.BumpPolicyIsExact | tesaurus-policy/src/evaluate.rs:511-559 | the explicit policy refuses with the first failing condition over the records in order, and if none shares a coin |
| EvaluateRefusals.PrevoutsAreExact | tesaurus-policy/src/evaluate.rs:207-259 | the claimed coins, or the code of the first input whose claim is missing or inconsistent |
| EvaluateRefusals.AmountsAreExact | tesaurus-policy/src/evaluate.rs:261-312 | sums beyond u64 give FEE, then the wrong shape of outputs CHANGE, then outputs above inputs, a fee above 1,000,000 or of zero FEE; otherwise the amounts |
| EvaluateRefusals.InputStagesAreExact | tesaurus-policy/src/evaluate.rs:152-164 | the input stages give the code of the first failing condition: pin, chain, recovery path, genesis, maturity, each over all inputs |
| EvaluateRefusals.LimitsAreExact | tesaurus-policy/src/evaluate.rs:165-199 | the limits give the code of the first that fails: claim, dust, velocity, token |
| EvaluateProofs.InputsVerdictMeans | tesaurus-policy/src/evaluate.rs:152-164 | the input stages pass iff the genesis matches and every input passes its own stages |
| EvaluateProofs.ClassificationsAgree | tesaurus-policy/src/evaluate.rs:274-311 | the amount stage and the replay store find the same external and change, and external + change + fee is the input sum |
| EvaluateProofs.InputValuesAreChainValues | tesaurus-policy/src/evaluate.rs:390-433 | past the input stages the values the PSBT claims sum to the chain's own |
| EvaluateProofs.StoreBumpPassesPolicy | tesaurus-policy/src/evaluate.rs:177-180 | after the store has judged FeeBump the explicit policy stage cannot fail, whatever the store holds |
| EvaluateProofs.TwoFeeBumpChecksAgree | tesaurus-policy/src/evaluate.rs:511-559 | for an unused request id and classifiable outputs the store says FeeBump iff the policy function accepts |
| EvaluateProofs.RetryIsAnswered | tesaurus-policy/src/evaluate.rs:99-109 | a stored request id decides the evaluation before chain, samples and token are looked at |
| EvaluateProofs.ReplayIdIdentifiesBytes | tesaurus-policy/src/replay.rs:137-158 | under one request id, records from two PSBTs have equal replay ids iff the PSBT bytes are equal |
| EvaluateExact.EvaluationIsExact | tesaurus-policy/src/evaluate.rs:79-205 | the pipeline accepts with a verdict, record and amounts iff a flat condition on PSBT, facts, sums, limits and token holds |
| EvaluateExact.InputStagesMean | tesaurus-policy/src/evaluate.rs:340-484 | one input passes all its stages iff its map, its coin and its claimed prevout are proper |
| EvaluateExact.AmountStagesMean | tesaurus-policy/src/evaluate.rs:134-150 | the amount, fee and dust stages pass iff the outputs and the chain's input values balance within the limits |
| EvaluateExact.AcceptedSpendBalances | tesaurus-policy/src/evaluate.rs:133-175 | the chain values of an accepted spend's inputs are exactly external + change + fee, with fee in 1..=1,000,000 |
| Agent.RunKeepsInv | tesaurus-policy/src/evaluate.rs:8-11 | every run keeps stored records pin-made and on the ledger, and for every ledger entry a fully charged one for the same spend |
| AgentExposure.ExposureIsCharged | tesaurus-policy/src/evaluate.rs:182-195 | signatures that can confirm together move at most the total charged, on every run |
| AgentExposure.ExposureIsCoveredExactly | tesaurus-policy/src/velocity.rs:7-14 | on every run, each set that can confirm together is covered by the samples of its own spends iff every spend that pays out was sampled in full at least once |
| AgentExposure.ExposureIsSampled | tesaurus-policy/src/velocity.rs:7-14 | and then it moves at most the total sampled |
| AgentExposure.CarefulCallerMissesNothing | tesaurus-policy/src/evaluate.rs:182-195 | so it does for a caller that samples when the record is stored, and for one that samples on reports when no write fails |
| FailureScenarios.ReportedSamplesMissExposure | tesaurus-policy/src/replay.rs:352-358 | a run with one failed write after which exposure is the whole external amount, the samples are nothing, and the request is answered with the signature |
| FailureScenarios.RetryMakesUpForTheSample | tesaurus-policy/src/replay.rs:352-358 | that run, a crash, and the same spend committed with success: a charged entry is unsampled and every spend is sampled in full |
| AgentRetries.CommittedRequestIsAnsweredForEver | tesaurus-policy/src/evaluate.rs:97-109 | on a run that starts with a successful commit of a request, the same request then gets the same bytes; other bytes under its id get REPLAY_CONFLICT |
| Velocity.RecordingKeepsCapExactly | tesaurus-policy/src/velocity.rs:47-76 | a recorded charge keeps every window within the cap iff they were and it fits into each window that holds its height, whatever the tips before |
| Velocity.LastWindowDecides | tesaurus-policy/src/velocity.rs:47-76 | if no sample is later, the window the check looks at decides for all of them |
| AgentVelocity.StepKeepsCapExactly | tesaurus-policy/src/evaluate.rs:182-195 | a step keeps every window within the cap iff they were and the charge it records, if any, fits |
| AgentVelocity.CapIsKeptExactly | tesaurus-policy/src/evaluate.rs:182-195 | on every run, all windows of counted charges are within the cap iff each charge fitted at its commit |
| AgentVelocity.EveryWindowIsWithinCap | tesaurus-policy/src/velocity.rs:28-76 | so they are on every run in which no signature is stored between an evaluation and its commit, tips do not go back, and no stored signature is left unsampled |
| AgentVelocity.EverySampledWindowIsWithinCap | tesaurus-policy/src/velocity.rs:28-76 | on such a run, however the caller samples, the recorded samples of any 144 heights are within the cap |
| AgentVelocity.CarefulCallerIsWithinCap | tesaurus-policy/src/velocity.rs:28-76 | on such a run the charges are, if the caller samples when the record is stored or no write fails |
| OverlapScenario.OverlappedRequestsExceedCap | tesaurus-policy/src/velocity.rs:28-76 | a run that evaluates eleven requests before it commits them, after which one window holds 53,900,000 sats |
| OverlapScenario.OverlappedBumpIsRefused | tesaurus-policy/src/evaluate.rs:182-195 | after that run a proper bump of its first spend is refused by velocity |
| EvaluateExact.SamplesDecideTheWindow | tesaurus-policy/src/evaluate.rs:182-195 | an accepted request, judged with other samples, is accepted if its charge fits beside them and otherwise refused by velocity |
| AgentBumps.StoreAllowsBump | tesaurus-policy/src/replay.rs:316-339 | a candidate over stored coins with the same external and less change than all before is judged FeeBump |
| AgentBumps.ProperPsbtPersists | tesaurus-policy/src/evaluate.rs:152-164 | a PSBT that passed all input stages passes them again while the facts hold and tip and clock advance |
| AgentBumps.ProperBumpIsDecided | tesaurus-policy/src/evaluate.rs:177-205 | after any run a proper bump of any stored record is validated as a fee bump if the window of its tip is within the cap, and otherwise refused by velocity |
| AgentBumps.ProperBumpIsAccepted | tesaurus-policy/src/evaluate.rs:177-205 | so after a run in order it is validated |
| AgentBumps.HonestBumpIsDecided | tesaurus-policy/src/evaluate.rs:177-205 | after any run an honest bump of a stored, once accepted spend, in any input order and with its own input maps, is validated with the fee raised by the drop in change, or refused by velocity because the window is over the cap |
| AgentBumps.HonestBumpIsAccepted | tesaurus-policy/src/evaluate.rs:177-205 | after a run in order it is validated |
| FeeBumpScenario.BumpIsAccepted | tesaurus-policy/src/evaluate.rs:1113-1175 | for any pin and destination, the spend of 20,000,000 sats is stored and its bump by 500 sats is validated as a fee bump with fee 1,500 |
| AgentFees.FeeRisesByDropInChange | tesaurus-policy/src/replay.rs:415-438 | for duplicate-free inputs and stable values, fees rise along a coin set by exactly the drop in change |
| AgentFees.ReportedBumpsAreBounded | tesaurus-policy/src/evaluate.rs:135-149 | on every run at most 1,000,000 signatures for one coin set are ever reported as committed |
| AgentFees.SignaturesAreConserved | tesaurus-policy/src/replay.rs:249-367 | on every run the signatures ever stored are, with multiplicity, those in memory and those that crashes dropped |
| AgentFees.AllBumpsAreBounded | tesaurus-policy/src/evaluate.rs:135-149 | on every run the signatures for one coin set number at most 1,000,000, those in memory, plus exactly those of them that crashes dropped |
| AgentFees.BumpsAreBounded | tesaurus-policy/src/evaluate.rs:135-149 | when nothing is dropped, at most 1,000,000 of all signatures share a coin with any one of them |
| AgentFees.StoredBumpsAreBounded | tesaurus-policy/src/evaluate.rs:135-149 | on every run the store never holds more than 1,000,000 records for one coin set |
| FailureScenarios.ForgottenBumpsAreUnbounded | tesaurus-policy/src/replay.rs:352-358 | runs of failed writes and crashes, of any length, that sign the same coins again and again |
| CoinSelection.SortDescending | src/spend.rs:259 | the sort by value is a descending permutation |
| CoinSelection.SortIsStable | src/spend.rs:259 | coins of one value keep their order |
| CoinSelection.SelectCoins | src/spend.rs:250-280 | filter, sort and loop give the specified selection or error |
| CoinSelection.SelectedCoinsAreFlagged | src/spend.rs:250-258 | every selected coin is listed and has the flag of the path, primary or recovery |
| CoinSelection.UnflaggedCoinIsIgnored | src/spend.rs:250-258 | a coin without the flag of the path changes no selection, wherever it is listed |
| CoinSelection.SelectionRefusalIsExact | src/spend.rs:261-280 | which of the three errors: leading coins pass u64 before they reach the need, more than 100 are needed, or they run out |
| CoinSelection.LeadingCoinsAreBest | src/spend.rs:259-276 | no choice of as many coins is worth more than the leading sorted ones |
| CoinSelection.SelectionIsOptimal | src/spend.rs:250-280 | a selection reaches the need with the fewest spendable coins, none of them superfluous, so change is below each |
| CoinSelection.SelectionSucceedsExactly | src/spend.rs:250-280 | selection succeeds iff at most 100 spendable coins can reach the need and the leading sum that does fits in u64 |
| CoinSelection.LargestCoinsOverflow | src/spend.rs:263-276 | coins of 2^64 - 2, 2 and 1 sats are refused for a need of 2^64 - 1, which the first and the last pay exactly |
| CoinSelection.SelectionSucceedsWithoutOverflow | src/spend.rs:250-280 | when all spendable coins fit in u64 it succeeds iff at most 100 can reach the need |
| SpendBuilder.SignInputs | src/spend.rs:185-225 | the loop writes each input's witness in turn or stops with the first error |
| SpendBuilder.BuildAndSign | src/spend.rs:81-247 | the method computes the specified built spend or error |
| SpendBuilder.MapByOutpoint | src/spend.rs:345-348 | the map holds the last listed coin of each outpoint |
| SpendBuilder.FindUtxoIsLast | src/spend.rs:345-348 | of coins listed under one outpoint the last counts |
| SpendBuilder.SumInputs | src/spend.rs:353-387 | the input loop gives the specified total or the first error |
| SpendBuilder.ValidateBuiltSpend | src/spend.rs:295-447 | the method computes the specified verdict |
| SpendProofs.InputTotalMeans | src/spend.rs:353-387 | the input loop succeeds iff inputs are distinct, known, vault-owned, spendable, rightly sequenced and witnessed and their unbounded sum fits u64, which it returns |
| SpendProofs.ChangeTestIsImplied | src/spend.rs:434-444 | after the output and fee tests the reported-change test cannot fail, and inputs are exactly amount + fee + change |
| SpendProofs.ValidatorIsExact | src/spend.rs:295-447 | the check accepts iff the transaction is a proper spend, stated over unbounded sums |
| SpendProofs.SelectionIsDistinct | src/spend.rs:250-276 | coins listed once are selected at most once, and only spendable ones |
| SpendProofs.SigningIsIndependent | src/spend.rs:185-225 | signing input after input succeeds iff every input signs on its own, and gives each its own witness |
| SpendProofs.PlanIsSound | src/spend.rs:81-183 | a plan takes 1 to 100 distinct, spendable coins that sum to amount + fee + change, the change being zero or not dust |
| SpendProofs.SpendSucceedsExactly | src/spend.rs:81-247 | the builder succeeds iff the request is within limits to a known destination above dust, at most 100 coins cover it without passing u64, and the largest that do leave no dust, are signed by the keys at hand and keep the fee rate |
| SpendProofs.BuilderSatisfiesValidator | src/spend.rs:81-447 | every spend built from distinct vault coins passes the check for its request, and its change is below every coin spent |
| SpendRefusals.ExpectedSequenceFits | src/spend.rs:142-145 | the primary sequence is 0xFFFFFFFD, which turns the relative lock off and signals replacement; the recovery sequence is the delay and satisfies OP_CHECKSEQUENCEVERIFY |
| SpendRefusals.AcceptedInputFitsPath | src/spend.rs:352-380 | every input of an accepted transaction has such a sequence and spends a listed coin with the flag of the path |
| SpendRefusals.BuiltInputFitsPath | src/spend.rs:142-183 | so has every input that the builder signs |
| SpendRefusals.VerdictIsExact | src/spend.rs:295-447 | the check refuses with the error of the first of its ordered conditions that does not hold, and accepts when all hold |
| SpendRefusals.BuildRefusalIsExact | src/spend.rs:81-247 | the builder refuses with the error of the first of its ordered conditions that does not hold |

## Left out

- RPC, configuration, key files, descriptor compilation and the command line: inputs of the model are what they deliver.
- SHA256, secp256k1, sighash computation, PSBT and transaction parsing, address and outpoint text: function values.
- The JSON text of the records file: when it parses it is an exact copy of the stored records; which texts parse is not part of this model.
- Crashes during initialisation, and making the directory: whether the version file survives a crash before the first directory sync is not modelled.
- File modes, symbolic links, and the temporary file's contents: a write, rename or directory sync fails as a whole or takes effect as a whole.
- Error messages: error codes are kept for the policy; for the spend builder each message is one enumerated error.
- CoinSelection.SortDescending: the standard library's sort is a function on sequences; its working in place is not modelled.
- Structure.SequenceCheckIsConsensusCheck: says that the script's operand is satisfied, not that the input's own, possibly longer, BIP 68 lock has already expired.
- Broadcasting, mempool acceptance and wallet listing in the coordinator.
- The per-signature wrappers and the fixed-cap window function, which only pass the locked constants on.

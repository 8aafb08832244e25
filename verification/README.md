# QCoin in Dafny

QCoin is a small multi-asset UTXO blockchain: a ledger of outputs locked by scripts, blocks proposed in
turn by a fixed list of validators, a node that keeps a pool of pending transactions and two files, and
two ways of catching up with peers. This project models that logic and proves what it keeps over whole
runs. `dafny verify dfyconfig.toml` checks everything.

How the modules stack up:

| modules | what they hold |
|---|---|
| Types, LittleEndian, Codec, Layout, Encoder, Keys | values, byte encodings, the proof that they can be read back in one way only and readers that do, tagged keys and signatures |
| StackMachine, Operations, Vm | the script machine: its meaning, metered and unmetered; exactly when each operation and each script succeeds; the loop with gas meter and stack |
| LedgerRules, Spending, LedgerObjects, Aging, Supply, Issuing, Repeats, Limits, ReleaseBuild | one transaction on a ledger, exactly what it must show and leaves, the in-place method, what waiting preserves, supply over whole runs, how it comes about, what can happen twice, what is not promised, what wrapping sums change |
| Sorting, Listings, Roots, RootCollision, StateRoots, Snapshots | sorted listings of maps, the state root and what it determines, the persisted form |
| Counterexamples | single inputs at which something fails |
| Consensus, Validation, ConsensusObjects | proposer schedule, validation, exactly which blocks are valid, histories, what a tip hash determines |
| NodeRules, Pool, Reconciling, NodeRuns, NodeOutcomes, StateFiles, NodeObjects | one node with failing writes and restarts at any point, exactly what its pool keeps and each operation returns, and its state file |
| Agreement, HttpSync | several nodes over a bad network; catching up over HTTP |
| PeerRules, PeerRuns, PeerAnswers, PeerObjects | the UDP peer table, its rate limits, exactly what goes out for each frame |

What changes state in the source is a class or a loop here (`Buffer`, `GasMeter`, `Stack`, `LedgerState`,
`ChainState`, `Storage`, `NodeRuntime`, `SyncState`), each method proved equal to a function on values; the
theorems are about those functions. The functions follow the code's branches; Operations, Spending, Validation,
Reconciling, NodeOutcomes, PeerAnswers and Layout say without them, in terms of hashes, the signature library,
stack items, sums and entries sent, exactly when each operation succeeds, which error it gives otherwise, and
what it leaves.

What is assumed, and where:

- Hashing, signature verification and signing, and witness decoding are functions in the record `Types.Env`,
  of which nothing is assumed. Collision freeness is a hypothesis about the finite set of strings hashed in
  the histories a theorem is about, never about all strings. That signing and verifying fit together
  (`Keys.KeyPair`) is a hypothesis of the theorems on proposing; unforgeability (`Agreement.Deliverable`) is
  one of the theorems on agreement, where the network may otherwise do as it likes.
- A write of a file completes, fails with the old contents in place, or fails with the new contents in place.
  A process stopped at any point is a write that failed in one of these ways, or none, followed by a stop.
- The build is part of `Types.Env`. In a checked (debug) build an addition on u64 or u128 that leaves its type
  stops the program, which is the error `Overflow`; in a wrapping one it wraps. The repository's README.md
  (line 181) builds with `cargo build --release`, and no Cargo profile there turns overflow checks on, so that
  build wraps. Everything here is proved for both builds. Only what is said of amounts needs, where sums wrap,
  that the outputs of each transaction fit (`Supply.SumsFit`), and `ReleaseBuild.SupplyFixedExactly` shows that
  supply is fixed exactly then; `ReleaseBuild.BuildsAgreeExactly` shows exactly when the two builds come to the
  same ledger.

Where the code does not keep what one might expect of it, the exact condition is stated, and an input at which
it fails:

- a failed transaction may change the registry (`Limits.FailureChangesLedgerExactly`,
  `Counterexamples.FailureRegisters`);
- a transaction may succeed more than once, but only a transfer that spends only what other such transfers made,
  and these carry nothing; issues, and whatever spends their outputs, succeed once (`Repeats.RepeatsExactly`,
  `Repeats.RepeatableCarriesNothing`, `Repeats.IssuesAndTheirSpendersAreFinal`);
- where sums wrap, supply is not fixed if outputs do not fit (`ReleaseBuild.SupplyFixedExactly`,
  `ReleaseBuild.OutputsMustFit`), and a relative lock whose sum does not fit opens early
  (`Operations.RelativeTimeLockMet`, `ReleaseBuild.LocksMustFit`);
- docs/PERSISTENCE_MODEL.md (line 34) has a state file that does not match the history rewritten at startup; the
  code compares four fields and not the ledger (`StateFiles.AgreesExactly`, `StateFiles.StaleLedgerKept`), which is
  enough for files it wrote itself (`StateFiles.OwnFilesAgree`);
- the preimage of a state root does not fix where the UTXOs end (`RootCollision.PreimageNotInjective`,
  `Roots.PreimageDeterminesLedgerIffSameCount`), but in ledgers of histories it does
  (`StateRoots.StateRootDeterminesLedger`);
- a proposal may be dead on arrival because its timestamp is not forced past its parent's, as at any clock that
  still shows the parent's (`Consensus.ProposalValidIffClockAdvanced`);
- a multi-signature is not any m of n (`StackMachine.MultiSigPairsInOrder`, `Counterexamples.TwoOfThreeRefused`);
- a lost block answer is not asked for again (`PeerRuns.LostAnswerNotRetried`, `PeerRuns.WaitingHappens`);
- the repository's README.md (line 51) promises at most one direct `NodeInfo` response per source in 42 seconds;
  the code keeps that for known peers (`PeerRuns.RatesEveryRun`), and for others as `PeerRuns.TooSoonExactly` says
  (`PeerRuns.TwoResponsesAtOnce`).

## Model

| member | source | states |
|---|---|---|
| Supply.FixedSupply | qcoin-ledger/src/lib.rs:145-322 | In the ledger of any run of successful transactions from the empty one, with tx ids that do not collide and, where sums wrap, outputs that fit: a registered asset was created by exactly one step and its total over all UTXOs is the supply declared there, within the declared maximum; nothing exists of any other asset, and QCOIN is never registered |
| Supply.RunInvariant | qcoin-ledger/src/lib.rs:165-313 | Every such run keeps: each UTXO was made by some step, inputs were made before they were spent, a spent key is there again only if made again, value-bearing cores succeed once, the registry is the set of created assets, and totals are what was minted |
| Supply.ValueSucceedsOnce | qcoin-ledger/src/lib.rs:165-190 | No resurrection: two successes of one core in a run mean that the core carries no value |
| Repeats.RepeatsExactly | qcoin-ledger/src/lib.rs:145-317 | Which successes can be repeated, in either build: after any run, some continuation, at heights from any given floor on that leaves room in u64, makes the core of step i succeed again if and only if step i is a transfer whose every input was made by an earlier such step |
| Repeats.RepeatableCarriesNothing | qcoin-ledger/src/lib.rs:145-317 | Such steps carry nothing of any asset (where sums wrap: in runs whose outputs fit) |
| Repeats.TwiceMeansRepeatable | qcoin-ledger/src/lib.rs:165-190 | Two successes of one core in a run mean that it is a transfer and spends only what transactions made that also succeeded twice, and so on back |
| Repeats.RerunReplays | qcoin-ledger/src/lib.rs:165-313 | All repeatable steps of a run succeed once more after it, in order, with their own witnesses and any delay later, and their outputs are there again |
| Repeats.SpentReturnsExactly | qcoin-ledger/src/lib.rs:296-313 | A spent output can be there again, after some continuation, if and only if the step that made it is repeatable |
| Repeats.IssuesAndTheirSpendersAreFinal | qcoin-ledger/src/lib.rs:165-174 | An issue of any amount, zero included, succeeds at most once in a run, and so does every transfer that spends an output made by an issue |
| Supply.NoSecondSuccess | qcoin-ledger/src/lib.rs:165-190 | The step of that induction: after a core has succeeded, it can succeed again only if it carries no value |
| Supply.NoValueOverwritten | qcoin-ledger/src/lib.rs:296-313 | The insert of a step's outputs never overwrites a UTXO that holds anything of any asset |
| Supply.NoValueSpentTwice | qcoin-ledger/src/lib.rs:165-190 | An input key spent by two steps of a run holds nothing of any asset at the second one |
| Supply.InputsNeverOverflow | qcoin-ledger/src/lib.rs:244-248 | On the ledger of such a run, the running totals over any distinct existing inputs never leave u128 |
| Supply.TotalAfterConsume | qcoin-ledger/src/lib.rs:296-298 | Removing distinct existing inputs lowers an asset's total by exactly their sum |
| Supply.TotalAfterCreate | qcoin-ledger/src/lib.rs:300-313 | Inserting outputs over keys that carry nothing raises an asset's total by exactly their sum |
| ReleaseBuild.SupplyFixedExactly | qcoin-ledger/src/lib.rs:319-322 | In either build: at every point of a run each asset exists in exactly the amount its issue declared if and only if the outputs of each transaction of the run add up to at most 2^128 - 1 per asset; in a checked build they do |
| ReleaseBuild.BuildsAgreeExactly | qcoin-ledger/src/lib.rs:145-322 | A run that succeeds where sums wrap succeeds in a checked build, with the same ledger, if and only if at each step the outputs fit a u128 per asset and each relative lock checked fits a u64 |
| ReleaseBuild.SuccessesAlike | qcoin-ledger/src/lib.rs:145-317 | The same for one transaction, on a ledger whose inputs fit |
| ReleaseBuild.EvalsAlike | qcoin-script/src/lib.rs:358-401 | A script that succeeds where sums wrap succeeds in a checked build if and only if creation height plus lock fits a u64 at every relative lock it checks |
| ReleaseBuild.OutputsMustFit | qcoin-ledger/src/lib.rs:319-322 | An input where they part: a transfer without inputs and with two entries of 2^127 fails with checked additions; with wrapping ones it succeeds, and 2^128 units exist |
| ReleaseBuild.LocksMustFit | qcoin-script/src/lib.rs:358-401 | Another, whose outputs fit: spending at height 1 an output made at height 1 under a relative lock of 2^64 - 1 succeeds if and only if sums wrap |
| ReleaseBuild.LockMustFit | qcoin-script/src/lib.rs:358-401 | The script of it: the checked machine stops, the wrapping one succeeds |
| Spending.OutcomeExactly | qcoin-ledger/src/lib.rs:145-317 | Of any transaction on any ledger: it succeeds if and only if a new asset's id is neither QCOIN's nor registered, each input exists, comes up once and is unlocked by the witness in its place, sums fit in a checked build, the declared supply comes out within the maximum with none going in and an input of the issuer's or listing the asset, and every other asset comes out as it went in; it fails with error e if and only if e is the source's error for the first of these that fails, the inputs taken in order |
| Spending.SpentByOwner | qcoin-ledger/src/lib.rs:176-248 | Of each input of a successful transaction: the witness in its place decodes to a script whose encoding hashes to the owner of the spent output, metadata is absent on both sides or hashes to the expected hash, and the script succeeds on every machine with the source's limits that has this transaction, input index, chain id, height, owner and spent output |
| Spending.OpensExactly | qcoin-ledger/src/lib.rs:91-114 | It comes to the same on all such machines, whatever else their hosts know, and the ledger's own is one of them |
| Spending.SpendIsSigned | qcoin-ledger/src/lib.rs:238-242 | Where the owner's script checks a signature, the library accepted one for the sighash of this chain, core, output, input index and script hash; it is written in that script itself |
| Spending.SuccessLeaves | qcoin-ledger/src/lib.rs:256-317 | After a success: the inputs are gone, the outputs stand under the hash of the core and their places at this height, every other output is as before, and the registry has gained exactly the issued asset |
| Spending.FailureLeaves | qcoin-ledger/src/lib.rs:256-294 | After a failure: the outputs are as before, and so is the registry, but for an issue with only the balance of other assets left to fail |
| Spending.EntriesAddUp | qcoin-ledger/src/lib.rs:319-322 | A sum over entries counts each with its amount for its own asset, and sums over joined lists add up |
| Spending.OutputsAddUp | qcoin-ledger/src/lib.rs:250-254 | The same for outputs |
| Spending.InputsAreSpentOutputs | qcoin-ledger/src/lib.rs:244-248 | What goes in is what the spent outputs hold |
| LedgerRules.AppliesMeans | qcoin-ledger/src/lib.rs:145-317 | Success in terms of the checks by name, as other proofs use it; the effect is a function of the core alone |
| LedgerRules.ConsumeLeaves | qcoin-ledger/src/lib.rs:296-298 | Consuming removes exactly the spent keys and leaves every other entry as it was |
| LedgerRules.CreateAdds | qcoin-ledger/src/lib.rs:300-313 | Creating adds exactly the keys of the transaction id and output indices, with those outputs at this height, and touches no other key |
| LedgerObjects.LedgerState.ApplyTransaction | qcoin-ledger/src/lib.rs:145-317 | The in-place method, with its running totals, sets and early returns, leaves the state and result that the rules define, on success and on every failure |
| LedgerObjects.LedgerState.GatherInputs | qcoin-ledger/src/lib.rs:176-248 | The input loop stops at the first input error; at its end it has the inputs in order, the exact sum per asset and whether the issue is authorised |
| LedgerObjects.LedgerState.CheckWitness | qcoin-ledger/src/lib.rs:200-242 | The witness checks of one input, in order: present, decodable, script hash, metadata hash, script |
| LedgerObjects.Accumulate | qcoin-ledger/src/lib.rs:319-322 | Adding an output's entries to the totals adds its exact holding of every asset, or reports the overflow of some asset |
| LedgerObjects.SameTotals | qcoin-ledger/src/lib.rs:283-294 | The two comparison loops succeed if and only if the two tables of totals agree on every asset, absent ones counting as zero |
| LedgerObjects.SumOutputs | qcoin-ledger/src/lib.rs:250-254 | The output totals are the exact sums per asset, or some sum leaves u128 |
| LedgerObjects.LedgerState.StateRoot | qcoin-ledger/src/lib.rs:116-143 | The sorted, entry by entry hashing computes the root of the ledger's preimage |
| Issuing.AnyoneCanIssue | qcoin-ledger/src/lib.rs:145-317 | The run behind the supply theorem exists: from genesis, an anchor owned by the empty script and an issue that spends it succeed at any heights, after which exactly the declared supply exists |
| Limits.FailureChangesLedgerExactly | qcoin-ledger/src/lib.rs:256-294 | Not atomic, and exactly when: a failed transaction leaves the UTXOs alone and changes the ledger if and only if it is a new issue with distinct, existing, unlocked inputs, fitting sums, the declared amount within the maximum and an authorised issuer, so that only the conservation of other assets is left to fail; on that ledger no issue of its definition succeeds any more, at any height and in any amount |
| Counterexamples.FailureRegisters | qcoin-ledger/src/lib.rs:256-294 | Such failures exist in every environment: after genesis and one anchor of the issuer's, an issue that also pays out one unit of another asset fails on conservation and leaves its own asset registered |
| Limits.InputlessTransferApplies | qcoin-ledger/src/lib.rs:165-313 | A transfer without inputs succeeds on any given ledger if and only if the running totals of its outputs come to zero for every asset: with outputs that fit, if and only if they carry nothing |
| Aging.StillApplies | qcoin-ledger/src/lib.rs:145-317 | A transaction that applies also applies to the same outputs seen later, none of them younger, under a registry with no further names; and the results are again such a pair |
| Aging.AllStillApply | qcoin-ledger/src/lib.rs:145-317 | The same for any list of transactions applied in order |
| StackMachine.StaticGas | qcoin-script/src/lib.rs:198-448 | A script succeeds if and only if its length fits, the prices of its operations add up to at most max_gas and the unmetered machine succeeds; the gas consumed is that sum |
| StackMachine.GasBoundsResources | qcoin-script/src/lib.rs:146-448 | At every point that a run reaches, whether or not it then succeeds, stack bytes plus 10 per item, and 5000 per signature verified, are at most the gas used so far, which is at most max_gas |
| StackMachine.GasBoundsSignatureWork | qcoin-script/src/lib.rs:227-327 | For any script at all, 5000 per signature checked, including those of the operation that fails, is at most max_gas |
| StackMachine.MultiSigPairsInOrder | qcoin-script/src/lib.rs:264-327 | CheckMultiSig succeeds if and only if the i-th signature from the top is that of the i-th key below the signatures, for every i below the threshold; it is not any m of n |
| Counterexamples.TwoOfThreeRefused | qcoin-script/src/lib.rs:264-327 | On any machine: of three keys the first and third have signed, the third signature is not the second key's, and two of three is refused; with the second and third keys exchanged the same signatures are accepted |
| StackMachine.EvalSeenLater | qcoin-script/src/lib.rs:328-401 | A script that succeeds gives the same result, at the same gas, at any later height with the spent output at least as old |
| Operations.CheckTimeLockExactly | qcoin-script/src/lib.rs:328-357 | On any stack: an absolute lock succeeds if and only if the top has eight bytes and the height, the host's or else the context's, is at least their little-endian value; it takes the top off; an empty stack is an underflow and all else an evaluation error |
| Operations.CheckRelativeTimeLockExactly | qcoin-script/src/lib.rs:358-401 | A relative lock succeeds if and only if the top has eight bytes, the spent output is known with its height, and that height plus the value has been reached, or, where sums wrap, has passed 2^64 and the rest has; it takes the top off; the errors are underflow, overflow in a checked build, evaluation |
| Operations.CheckHashLockExactly | qcoin-script/src/lib.rs:402-418 | A hash lock succeeds if and only if the item below the top is the hash of the top; it takes both off; the errors are underflow below two items, else evaluation |
| Operations.CheckSigExactly | qcoin-script/src/lib.rs:227-263 | CheckSig succeeds if and only if the item below the top and the top are a key and a signature of one of the two schemes, byte by byte, and the library of that scheme accepts them for the sighash of this chain, core, spent output, input and script; it takes both off; the errors are underflow below two items, else evaluation |
| Operations.CheckMultiSigExactly | qcoin-script/src/lib.rs:264-327 | CheckMultiSig succeeds if and only if 0 < threshold <= total, that many items are signatures and below them keys, and the library accepts the i-th signature for the i-th key; it takes all off; it underflows if and only if the numbers are in order and every item of a stack too short decodes, and all else is an evaluation error |
| Operations.PushAndNopExactly | qcoin-script/src/lib.rs:217-226 | A push succeeds if and only if the bytes and the stack are within their limits, and adds the bytes on top; a no-operation leaves the stack |
| Operations.FailsExactly | qcoin-script/src/lib.rs:198-226 | A script fails with error e if and only if it is too long and e says so, or the operations up to some place run and are paid for and the next stops with e: an oversized push, too little gas left, or the error of its step, in this order |
| Operations.GasByKind | qcoin-script/src/lib.rs:428-448 | The price of a script: one for each no-operation, ten for each push or time lock and one for each byte pushed, 250 for each hash lock, 5000 for each CheckSig and for each signature of a multi-signature, at least one |
| Operations.TimeLockMet | qcoin-script/src/lib.rs:328-357 | Wherever a successful script checks an absolute lock, the height then on top of the stack has been reached |
| Operations.RelativeTimeLockMet | qcoin-script/src/lib.rs:358-401 | Wherever it checks a relative lock, the spent output is at least as old as what is then on top if and only if creation height plus lock fits a u64; in a checked build it always does, and in a wrapping one the wrapped sum has been reached |
| Operations.HashLockMet | qcoin-script/src/lib.rs:402-420 | Wherever it checks a hash lock, the value below the top is the hash of the top |
| Operations.SignatureMet | qcoin-script/src/lib.rs:227-263 | Wherever it checks a signature, the library of the key's scheme accepts the top for the key below it and the sighash of this input |
| Operations.MultiSigMet | qcoin-script/src/lib.rs:264-327 | Wherever it checks several, the library accepts each for the key in the same place and that sighash |
| Operations.SignatureSignsItself | qcoin-script/src/lib.rs:250-263 | A key and a signature that CheckSig accepts are literals of the script, as is all that is ever on the stack; in a spend that script is the one whose hash is signed |
| Vm.Evaluate | qcoin-script/src/lib.rs:198-426 | The loop over the operations, with its gas meter and stack objects, returns the gas or the first error that the functional machine defines |
| Vm.GasMeter.Consume | qcoin-script/src/lib.rs:159-165 | Gas is taken if there is enough; otherwise nothing changes and the error is OutOfGas |
| Vm.Stack.Push | qcoin-script/src/lib.rs:185-191 | A push on a full stack fails and changes nothing; otherwise it appends |
| Vm.Stack.Pop | qcoin-script/src/lib.rs:193-195 | A pop on an empty stack fails; otherwise it removes and returns the last item |
| Codec.OutputPrefixFree | qcoin-types/src/lib.rs:253-273 | An output's encoding can be read off the front of any longer string in one way only |
| Codec.AssetDefinitionPrefixFree | qcoin-types/src/lib.rs:229-251 | The same for asset definitions |
| Codec.TxCorePrefixFree | qcoin-types/src/lib.rs:275-305 | The same for transaction cores |
| Codec.HeaderPrefixFree | qcoin-types/src/lib.rs:307-315 | The same for block headers |
| Codec.ScriptPrefixFree | qcoin-script/src/lib.rs:108-144 | The same for scripts |
| Codec.SighashPreimageInjective | qcoin-types/src/lib.rs:127-147 | The string under a sighash determines chain id, core, spent output, input index, script hash and flags |
| Codec.AssetIdPreimageInjective | qcoin-types/src/lib.rs:64-73 | The string under an asset id determines chain id and definition |
| Codec.TxCoreInjective | qcoin-types/src/lib.rs:150-155 | The string under a transaction id determines the core |
| Layout.TxCoreLayout | qcoin-types/src/lib.rs:275-305 | A reader written field by field (kind byte, inputs, outputs, then definition and supply of an issue) takes back exactly the core from the front of any string that starts with its encoding |
| Layout.OutputLayout | qcoin-types/src/lib.rs:253-273 | The same for outputs: owner, count, asset ids with 16-byte amounts, metadata tag and hash |
| Layout.AssetDefinitionLayout | qcoin-types/src/lib.rs:229-251 | For definitions: issuer, kind, metadata root, maximum, decimals |
| Layout.HeaderLayout | qcoin-types/src/lib.rs:307-315 | For headers: parent, state root and transaction root at bytes 0, 32 and 64, height at 96, timestamp at 104 |
| Layout.ScriptLayout | qcoin-script/src/lib.rs:110-144 | For scripts: count, then each operation by its tag 0 to 6 |
| Layout.SighashLayout | qcoin-types/src/lib.rs:127-149 | For the sighash preimage: the text QCOIN_SIGHASH_V1, chain id, core, spent output, input index, script hash, flags |
| Layout.AssetIdLayout | qcoin-types/src/lib.rs:64-75 | For the asset id preimage: the text QCOIN_ASSET_ID_V1, chain id, definition |
| Layout.DomainsAreText | qcoin-types/src/lib.rs:33-53 | The domain separators and the native asset's id are these characters in ASCII, the id padded with zeros |
| Layout.UtxoEntryLayout | qcoin-ledger/src/lib.rs:122-131 | For the entries of the state root: transaction id, index, output, height |
| Layout.AssetEntryLayout | qcoin-ledger/src/lib.rs:136-141 | And for its assets: id, definition |
| LittleEndian.LEDigit | qcoin-types/src/lib.rs:208-213 | Byte k of a written number is its digit of weight 256^k |
| LittleEndian.FromLEWeighs | qcoin-crypto/src/lib.rs:398-416 | A number read is the sum of its bytes, byte k weighing 256^k |
| Encoder.ComputeTxId | qcoin-types/src/lib.rs:275-305 | Encoding into a growing buffer and hashing gives the transaction id |
| Encoder.ComputeSighash | qcoin-types/src/lib.rs:127-147 | The buffer built for a sighash is its preimage |
| Encoder.ComputeScriptHash | qcoin-script/src/lib.rs:108-144 | The buffer loop over the operations encodes the script |
| Encoder.Buffer.EncodeOutput | qcoin-types/src/lib.rs:259-273 | The encoder appends exactly the output's encoding to what the buffer held |
| Roots.PreimageIgnoresIterationOrder | qcoin-ledger/src/lib.rs:116-143 | In whatever order the maps yield their keys, and however these are then sorted, what is hashed is the same |
| Layout.RootExactly | qcoin-ledger/src/lib.rs:116-143 | The state root is the hash of the entries of all outputs, by the bytes of their transaction ids and then by index, followed by those of all assets by the bytes of their ids |
| Sorting.BytesBeforeExactly | qcoin-ledger/src/lib.rs:117-119 | One id comes before another if and only if it has the smaller byte at the first place where they differ |
| Roots.PreimageDeterminesLedger | qcoin-ledger/src/lib.rs:116-143 | Two ledgers with equally many UTXOs and equal preimages have equal UTXO and asset maps |
| Roots.PreimageDeterminesLedgerIffSameCount | qcoin-ledger/src/lib.rs:116-143 | Given equal preimages, two ledgers are equal if and only if they have equally many UTXOs |
| RootCollision.PreimageNotInjective | qcoin-ledger/src/lib.rs:116-143 | The count is needed: a concrete ledger of six assets and one of two UTXOs hash the same 594 bytes |
| StateRoots.PreimageDeterminesApart | qcoin-ledger/src/lib.rs:116-143 | Without the count: two ledgers, neither with an output made under an id that is an asset of either, are equal if their preimages are |
| StateRoots.StateRootDeterminesLedger | qcoin-ledger/src/lib.rs:116-143 | Two validated histories, of any chain ids and lengths, that end with equal state roots end with equal ledgers, if the strings they hash into ids and those two roots do not collide |
| Consensus.ProposalsBalanced | qcoin-consensus/src/lib.rs:130-142 | Over heights 1 to h, the proposal counts of any two list positions differ by at most one |
| Consensus.EachPositionOnce | qcoin-consensus/src/lib.rs:130-142 | Among any n consecutive heights from 1 on, each of the n list positions comes up exactly once |
| Validation.ValidExactly | qcoin-consensus/src/lib.rs:144-193 | Of any block on any chain: it is valid if and only if it is at the next height on the tip, later than it, by the validator at place height modulo their number if there are any, names the hash of the 32-byte ids of its transactions, these succeed one after the other to a ledger with the state root it names, and key and signature are of one registered scheme whose library accepts them for the header's bytes; it fails with error e if and only if e is the source's error for the first of these that fails, the signature last |
| Validation.AcceptedLeaves | qcoin-ledger/src/lib.rs:324-345 | After a valid block: the ledger its transactions leave, its height, the hash of its header's bytes, its state root and its timestamp |
| Validation.RebuildExactly | qcoin-node/src/main.rs:1550-1575 | A history can be rebuilt if and only if each block is valid on the chain that those before it lead to, from the empty ledger, height 0 and a tip of zeros on; and that gives the last of these chains |
| Validation.ProposalExactly | qcoin-consensus/src/lib.rs:195-247 | A proposal is the block on the tip, at the given time, with the hash of its transaction ids and the root they lead to, signed by the proposer's key under its own scheme; it fails for want of validators, out of turn, on the ledger's error, or in signing, in this order |
| Consensus.ValidationImpliesApplication | qcoin-consensus/src/lib.rs:144-193 | A validated block always applies, and yields the next height, the header's hash as tip, the header's state root as the root of the new ledger, and a later timestamp |
| Consensus.ProposalValidIffClockAdvanced | qcoin-consensus/src/lib.rs:230-274 | In turn, with a list that applies, proposing succeeds with exactly that list, and the block is valid on the same chain if and only if the clock is past the chain's last timestamp |
| Consensus.HistoryShape | qcoin-node/src/main.rs:1550-1575 | A history that replays has heights 1 to n, each header naming the hash of the one before, and ends in a chain of height n whose state root is that of its ledger and of the last header |
| Consensus.TimeMoves | qcoin-consensus/src/lib.rs:164-166 | Timestamps of such a history increase strictly, between any two blocks |
| Consensus.HeadersDetermineLedger | qcoin-consensus/src/lib.rs:195-221 | Two histories of one chain id with equal headers have equal transaction cores and equal chain states at the end |
| Consensus.TipDeterminesHistory | qcoin-consensus/src/lib.rs:144-221 | Two non-empty validated histories of one chain id with equal tip hashes have equal lengths, headers, cores and final chain states, whatever their witnesses and validator lists |
| Consensus.SameCoresSameLedger | qcoin-ledger/src/lib.rs:145-317 | Two lists with the same cores and possibly different witnesses, both successful, leave the same ledger |
| Consensus.HistoryIsRun | qcoin-ledger/src/lib.rs:324-344 | The ledger of a validated history is that of the run of its transactions from the empty ledger |
| Consensus.SupplyOfHistory | qcoin-node/src/main.rs:1396-1410 | Fixed supply for the ledger of any validated history from genesis |
| ConsensusObjects.ChainState.ApplyBlock | qcoin-ledger/src/lib.rs:324-344 | The in-place block application, also when it stops half-way at a failing transaction |
| ConsensusObjects.ValidateReplayedBlock | qcoin-consensus/src/lib.rs:144-193 | The checks in source order, with a cloned ledger for the state root, decide validity with the first failing check's error |
| ConsensusObjects.ProposeBlock | qcoin-consensus/src/lib.rs:230-269 | Proposing computes both roots by looping over the pool and signs the header |
| ConsensusObjects.ComputeTxRoot | qcoin-consensus/src/lib.rs:195-204 | The hasher loop computes the root of the transaction ids in order |
| ConsensusObjects.ComputeStateRoot | qcoin-consensus/src/lib.rs:206-221 | Applying a list to a clone gives the root of the resulting ledger or the first ledger error, and leaves the chain alone |
| Keys.DecodeAfterEncode | qcoin-crypto/src/lib.rs:381-416 | Whatever is encoded with its scheme decodes to itself |
| Keys.EncodeAfterDecode | qcoin-crypto/src/lib.rs:381-416 | Whatever decodes encodes back to the same bytes |
| Keys.DecodeAcceptsExactlyEncodings | qcoin-crypto/src/lib.rs:363-416 | A byte string decodes if and only if it is the encoding of something |
| Keys.EncodeWithScheme | qcoin-crypto/src/lib.rs:381-396 | Filling the vector in place gives the tagged encoding, or the size error |
| Keys.KeyBytesExactly | qcoin-crypto/src/lib.rs:398-424 | A string is a public key if and only if it has the number 1 or 2, the length of that scheme's keys, and as many bytes more, which are the key |
| Keys.SignatureBytesExactly | qcoin-crypto/src/lib.rs:398-440 | A string is a signature if and only if it has the number 1 or 2, its own length, at most that scheme's, and as many bytes more |
| Keys.VerifiesExactly | qcoin-crypto/src/lib.rs:509-525 | Verifying asks that key and signature are of the scheme asked for, that this is one of the two registered, and that its library accepts key, message and signature |
| Snapshots.RestoreAfterSnapshot | qcoin-node/src/main.rs:1412-1490 | Saving a chain and restoring the snapshot gives the chain back, for any maps |
| Snapshots.SnapshotAfterRestore | qcoin-node/src/main.rs:1412-1490 | A snapshot restores and saves to itself if and only if its entries are in strict key order |
| Snapshots.IntoChainState | qcoin-node/src/main.rs:1452-1490 | Inserting entry by entry gives the chain, or an error if and only if a key is repeated, UTXOs first |
| Reconciling.ReconcileExactly | qcoin-node/src/main.rs:878-912 | For every pool and history there is exactly one way to decide the pending transactions in order, each staying if and only if no block holds its id and it applies to the simulated ledger, on which every earlier attempt was made; what stays, in order and as often as it was there, is the pool afterwards |
| Reconciling.DroppedExactly | qcoin-node/src/main.rs:894-909 | An uncommitted transaction is dropped if and only if it does not apply to the chain's ledger with the kept ones before it applied, or issues an asset whose name a dropped issue before it has left in the simulation |
| Reconciling.RetainPrefix | qcoin-node/src/main.rs:894-912 | What stays of the first m stays however many follow: the results are prefixes of one another |
| Reconciling.IndependentSurvives | qcoin-node/src/main.rs:878-912 | A pending transaction that applies by itself, is in no block, and shares no input, no created output and no issued asset with the new block's transactions or with those before it in the pool, is still pending after the block |
| Reconciling.StayingAreFree | qcoin-node/src/main.rs:894-912 | Whatever stays was pending, and no block holds its id |
| Pool.RetainCertified | qcoin-node/src/main.rs:878-912 | Whatever the pool was, what reconciling keeps can be replayed on the clean chain ledger at the next height, although the simulated ledger it was checked on may carry names left by failed issues |
| Pool.RetainSelects | qcoin-node/src/main.rs:878-912 | What reconciling keeps comes from the pool, has distinct ids, and none of them is committed |
| Pool.NoSpuriousEviction | qcoin-node/src/main.rs:878-912 | When the next block's cores are a prefix of a valid pool (the empty one included), reconciling leaves exactly the rest, in order |
| Pool.AcceptKeepsPool | qcoin-node/src/main.rs:834-876 | Admission keeps the pool replayable, with distinct and uncommitted ids, and never reports that the pool became invalid |
| Pool.AdmittedExactly | qcoin-node/src/main.rs:834-876 | A transaction is newly admitted if and only if its id is neither committed nor pending and the pool followed by it replays; otherwise the runtime is unchanged |
| NodeOutcomes.AcceptExactly | qcoin-node/src/main.rs:834-876 | Each answer of admission, if and only if: some block holds the id; some pending transaction has it; the pool no longer applies, with its error; the transaction after it fails, with the error of its failure; it is acceptable and is appended. Nothing else changes |
| NodeRuns.EveryRunKeepsInv | qcoin-node/src/main.rs:777-919 | Every run of blocks, submissions, proposals, failed writes, stops and starts keeps the node invariant |
| NodeRuns.CrashRecovery | qcoin-node/src/main.rs:1509-1575 | After any run, the disk history is the one in memory or that and one validated block; starting again, beside any readable state file of this chain, succeeds with the replay of the disk history, after which a further start writes nothing |
| StateFiles.AgreesExactly | qcoin-node/src/main.rs:1521-1547 | A start leaves a state file that loads to exactly the rebuilt chain if and only if it rewrote the file, because one of four fields differed or it was missing beside a history, or the file's ledger was right |
| StateFiles.StaleLedgerKept | qcoin-node/src/main.rs:1521-1547 | An input where it does not: a file with the right height, tip, root and timestamp and a wrong ledger is left in place by every start |
| StateFiles.OwnFilesAgree | qcoin-node/src/main.rs:1509-1548 | The state file of any run of this node's own, with failing writes and restarts, is none or the snapshot of some history's chain; from it a start leaves the rebuilt chain's, barring collisions between the two histories, or none beside no history |
| NodeOutcomes.LoadExactly | qcoin-node/src/main.rs:1509-1548 | Each outcome of a start, if and only if: the state is unreadable or repeats a key, the history is damaged, it has an invalid block, the state is of another chain, it is outdated and the rewrite fails; otherwise the chain of the history with nothing pending. The state is rewritten if and only if its height, tip, root or time are not the chain's, or it is missing beside a history; the history file is never touched |
| NodeOutcomes.ApplyExactly | qcoin-node/src/main.rs:810-832 | A block is taken over if and only if it is valid and both writes complete; the error of an invalid one is passed on and nothing changes; the state file is written only if the write of the history completed, and the runtime changes only after both, by the block and the reconciled pool |
| NodeOutcomes.IdleExactly | qcoin-node/src/main.rs:777-803 | Producing does nothing if and only if it is not this node's turn, always its turn without a list, or nothing is pending and empty blocks are not wanted |
| NodeOutcomes.ProducedExactly | qcoin-node/src/main.rs:777-803 | What it makes is its own block of the whole pool on its tip at the time on the clock, valid, and held in memory and on disk |
| NodeOutcomes.ServesItsHeights | qcoin-node/src/node.rs:888-895 | A reachable runtime serves for each height up to its own the block of that height, for a greater one none, and for height 0 the first block |
| NodeRuns.ApplyKeepsInv | qcoin-node/src/main.rs:810-832 | Applying a block reports success exactly with the new history in memory and on disk, changes no memory otherwise, keeps every invariant whichever write fails, and never fails on the ledger after validation |
| NodeRuns.HistoryAppendOnly | qcoin-node/src/main.rs:810-832 | What a running node held at one point is a prefix of what it holds, and has on disk, at any later point, across restarts |
| NodeRuns.ReachableShape | qcoin-node/src/main.rs:810-832 | In every reachable runtime the chain is the replay of the blocks, the height counts them, headers are linked, the state root is that of the ledger, and the pool replays on top with fresh ids |
| NodeRuns.DeadBranches | qcoin-node/src/main.rs:834-876 | In every reachable runtime the errors for a pool that became invalid and for a validated block that does not apply are never returned |
| NodeRuns.ProposalTotal | qcoin-node/src/main.rs:777-832 | In turn and with something to mine, a proposal of the whole pool goes through if and only if the clock is past the last timestamp and both writes complete; the pool is then empty, and a late clock changes nothing |
| NodeRuns.ReachableSupply | qcoin-node/src/main.rs:810-832 | Fixed supply in every reachable runtime |
| NodeObjects.NodeRuntime.ReconcilePending | qcoin-node/src/main.rs:878-912 | The in-place loop leaves the pool that the rules define, which is the one `Reconciling.ReconcileExactly` determines |
| NodeObjects.NodeRuntime.BlockAtHeight | qcoin-node/src/node.rs:888-895 | Serves the block in the place before the height, and for height 0 the first |
| NodeObjects.NodeRuntime.AcceptTransaction | qcoin-node/src/main.rs:834-876 | The in-place method gives the runtime and result that the rules define |
| NodeObjects.NodeRuntime.ApplyBlock | qcoin-node/src/main.rs:810-832 | Validate, apply to a clone, write, write, replace, reconcile: runtime, files and result are those the rules define, for each outcome of each write |
| NodeObjects.NodeRuntime.ProduceOneBlock | qcoin-node/src/main.rs:777-803 | Likewise for producing a block |
| NodeObjects.LoadOrRepairStorage | qcoin-node/src/main.rs:1509-1548 | Loading gives the runtime or the first error, and rewrites the state file only when it disagrees with the history |
| NodeObjects.RebuildChainState | qcoin-node/src/main.rs:1550-1575 | The replay loop succeeds if and only if every block validates on the chain before it, and ends in that chain |
| NodeObjects.CommittedIds | qcoin-node/src/main.rs:883-887 | The collected set is the set of ids of all transactions in all blocks |
| NodeObjects.IsCommitted | qcoin-node/src/main.rs:914-919 | True if and only if some block holds a transaction with that id |
| Agreement.EveryWorldInv | qcoin-node/src/main.rs:777-832 | In every run of several nodes under loss, repetition, reordering and alteration, each node stands by every header it let out under its key, and every other block it holds was let out by its proposer |
| Agreement.NoTwoHeaders | qcoin-node/src/node.rs:842-877 | No validator ever lets out two headers of one height |
| Agreement.NodesAgree | qcoin-consensus/src/lib.rs:144-193 | Up to any height both have reached, two nodes hold the same headers and cores and had the same chain state |
| Agreement.StandingGrows | qcoin-node/src/main.rs:810-832 | No step, failed write or restart makes a node take back a block it stands by |
| HttpSync.SyncFromPeer | qcoin-node/src/main.rs:713-775 | Asks who the peer is, checks that it is compatible, asks for its tip, and fetches until there; the loop terminates, by tip minus height |
| HttpSync.SyncSound | qcoin-node/src/main.rs:713-775 | With any peer: the node invariant holds after it, history is only added to, each added block is the one served for its height, none is beyond the tip, and success means exactly that the peer is compatible, named a tip, and the tip is reached |
| HttpSync.SyncCatchesUp | qcoin-node/src/main.rs:713-775 | With a compatible peer serving a valid extension of our history, and writes that complete, it succeeds with exactly the peer's first `tip` blocks and their chain state |
| HttpSync.SyncFailsAt | qcoin-node/src/main.rs:713-775 | Nothing is fetched, and nothing changes, if and only if the peer does not say who it is, is incompatible, or names no tip, each with its error; a block that does not come, or is refused, is the one after the height reached |
| PeerAnswers.CatchesUp | qcoin-node/src/node.rs:724-807 | After any run: a known peer with nothing in flight that announces its tip and serves the blocks up to it in order is asked for each height exactly once, right after its answer for the height before, until the height is that tip, and then for nothing more |
| PeerAnswers.BlockExactly | qcoin-node/src/node.rs:735-807 | After a known peer's block response exactly one request goes to it, for the height after the new one, if the block applied or was already held and the peer's recorded tip is above; none otherwise, nor after an absent or inapplicable block; the height rises by one if and only if a new block applied |
| PeerAnswers.TipExactly | qcoin-node/src/node.rs:724-733 | A known peer's tip is recorded, and the next height asked for if and only if the tip is ahead and that height is not in flight from it |
| PeerAnswers.CompatibilityExactly | qcoin-node/src/wire.rs:81-106 | A peer is compatible if and only if its wire version is at least 1, its least compatible one at most 2, and its chain id ours; the reason is the first that fails |
| PeerAnswers.InfoExactly | qcoin-node/src/node.rs:948-1001 | Compatible info makes its sender known under that info and no longer rejected; any other makes it unknown and rejected, and nothing is sent |
| PeerAnswers.OthersExactly | qcoin-node/src/node.rs:629-722 | Frames of our own and of rejected peers change nothing; a stranger that asks, answers or pushes is probed and told who we are, in this order, if and only if it was not probed in the last 5 s |
| PeerAnswers.RequestsExactly | qcoin-node/src/node.rs:649-666 | A known peer's request for the tip, a block or a transaction is answered with just that, once, and changes nothing else |
| PeerAnswers.SubmittedBlockExactly | qcoin-node/src/node.rs:670-690 | A known peer's pushed block raises the height if it applies, and is answered with the verdict at the height then reached |
| PeerAnswers.PresenceExactly | qcoin-node/src/node.rs:930-946 | Presence is answered with our info if and only if the sender is unknown or was not sent it in the last 42 s |
| PeerAnswers.TransactionsExactly | qcoin-node/src/node.rs:1052-1128 | A submission is answered whoever made it; what was accepted from it or from a known peer's response is announced once to each target in order |
| PeerAnswers.AnnouncementExactly | qcoin-node/src/node.rs:1003-1039 | An announced transaction that is here, or announced by a rejected peer, changes nothing; a known peer is asked for it at once; of a stranger it is noted, and the stranger asked who it is |
| PeerRuns.TableEveryRun | qcoin-node/src/node.rs:930-1039 | In every run, known, rejected and waiting addresses are pairwise disjoint, and the known ones are those with stored node info, all of it compatible |
| PeerRuns.RatesEveryRun | qcoin-node/src/node.rs:1234-1253 | In every run, probes go only to addresses neither known nor rejected, at least 5 s apart for each, and node info to a known peer follows the one before it by at least 42 s |
| PeerRuns.TooSoonExactly | qcoin-node/src/node.rs:905-1143 | The documented limit, exactly, for every frame in any run: our node info goes out to its sender less than 42 s after the last time if and only if there was such a time and either the frame announces presence and the sender is not known, or it makes us ask who the sender is, which is neither known nor rejected and was not probed in the last 5 s |
| PeerRuns.TwoResponsesAtOnce | qcoin-node/src/node.rs:930-946 | It fails at two announcements of a stranger in a row, which are both answered at the same instant |
| PeerRuns.RequestsEveryRun | qcoin-node/src/node.rs:724-807 | In every run, a block request is for the local height plus one, nothing in flight is beyond that, and no height is asked of one peer twice without an answer from it in between |
| PeerRuns.SettledForGood | qcoin-node/src/node.rs:948-1001 | An address that was known or rejected is known or rejected ever after |
| PeerRuns.LostAnswerNotRetried | qcoin-node/src/node.rs:782-807 | No retry: with the next block asked of a peer, nothing more is asked of it while the height stays and it sends no block response |
| PeerRuns.WaitingHappens | qcoin-node/src/node.rs:724-807 | Such a wait comes about after one compatible info and one tip, and another tip from the peer then sends nothing |
| PeerRuns.InfoAsksForAnnounced | qcoin-node/src/node.rs:948-1001 | Compatible info makes its sender known and asks it for exactly the transactions it has announced that are not here |
| PeerObjects.SyncState.HandleFrame | qcoin-node/src/node.rs:629-722 | The in-place handlers leave the table, and send what, the functions define, for every kind of frame |
| PeerObjects.SyncState.HandleNodeInfo | qcoin-node/src/node.rs:948-1001 | Compatible info moves an address to the known ones and asks for each announced transaction that is missing, one message each; incompatible info moves it to the rejected ones |
| PeerObjects.SyncState.HandleTransactionAnnounce | qcoin-node/src/node.rs:1003-1039 | An announcement is asked for, ignored or kept waiting by what is known of its sender |
| PeerObjects.SyncState.HandleTransactionResponse | qcoin-node/src/node.rs:1052-1081 | From a compatible peer, a body that was new to the pool is announced to every target |
| PeerObjects.SyncState.HandleSubmittedTransaction | qcoin-node/src/node.rs:1083-1128 | A submission is answered whoever sent it, and announced to every target if it was new |
| PeerObjects.SyncState.HandleBlockResponse | qcoin-node/src/node.rs:735-768 | The in-place handler leaves the table and sends what the rules define, which `PeerAnswers.BlockExactly` determines |
| PeerObjects.SyncState.HandlePresenceAnnounce | qcoin-node/src/node.rs:930-946 | A presence announcement is answered unless the peer is known and was answered in the last 42 s |
| PeerObjects.SyncState.EnsureCompatiblePeer | qcoin-node/src/node.rs:1130-1143 | True for a known peer; the stored reason for a rejected one; for a stranger false, after a probe if none went out in the last 5 s |
| PeerObjects.SyncState.RequestNextMissingBlock | qcoin-node/src/node.rs:782-807 | Asks for the next height if the peer is ahead and it is not in flight already |

## Left out

- blake3, Dilithium2 and Falcon512, bincode and JSON: foreign code. Decoding a witness is an arbitrary partial function; a file this node wrote reads back as what was written. The key and signature lengths are parameters.
- Temporary files, renames and directory syncs: a write is atomic here, with the three outcomes above.
- Key generation, private-key files, hex, command line, configuration, logging, HTTP routing, sockets, the proactor and multicast: plumbing.
- Wall clock: a parameter of proposing; in the peer table a clock in milliseconds that never runs backwards.
- Locks: each handler and each runtime operation is one step. `NodeRuntime.chain_id` never changes, so it is read from the configuration.
- Vectors of 2^32 elements or more: the encoders panic on them, and the types here exclude them.
- Consensus.ValidateBlock: after 2^64 - 1 blocks `height + 1` panics in a checked build and is zero in a wrapping one; here, in both, no block is valid there and proposing fails with Overflow.
- Over UDP: presence and tip broadcasts on a timer, and the order of peers by reliability, add messages of no bearing on the table's invariants. Whether a block applies and whether a transaction is accepted are inputs of the peer table; what decides them is in NodeRules. A handler's error ends the draining of the socket until it is readable again, which is not modelled.
- Failing sends: a message counts as sent when it is handed to the socket. A handler that returns early on a failing send then sends less than the model, and has changed its table in the same way.
- `is_reliable_peer_key`, `known_peers`, tip snapshots and the remaining read-only queries: easy members.
- Liveness of UDP sync, fork choice, and fees: the code has none.
- Whether a signature can be found that is written in the script whose hash it signs (`Spending.SpendIsSigned`) is a question about the hash function, of which nothing is assumed; the strength of issuer authorisation is not needed by any theorem here.

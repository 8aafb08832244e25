/** What one transaction does to the ledger (qcoin-ledger `apply_transaction`), stated with sums
    over outputs instead of running totals. */
module LedgerRules {
  import opened Types
  import opened Codec
  import StackMachine

  // `Overflow` stands for the panic of a u128 addition that leaves its type, in a checked build.
  datatype LedgerError =
    | MissingInput
    | MissingWitness
    | DoubleSpend
    | ScriptHashMismatch
    | MetadataHashMismatch
    | InvalidWitness
    | ScriptFailed
    | AssetConservationViolation
    | AssetAlreadyExists
    | ReservedNativeAssetId
    | MissingIssuerAuthorization
    | MaxSupplyExceeded
    | Overflow

  type Utxos = map<UtxoKey, TrackedOutput>

  // ----- sums -----

  /** How much of `id` the first `n` entries hold. */
  function AssetSum(assets: seq<AssetAmount>, n: nat, id: AssetId): nat
    requires n <= |assets|
  {
    if n == 0 then 0
    else AssetSum(assets, n - 1, id) + (if assets[n - 1].assetId == id then assets[n - 1].amount else 0)
  }

  function Holds(output: Output, id: AssetId): nat {
    AssetSum(output.assets, |output.assets|, id)
  }

  function OutputSum(outputs: seq<Output>, n: nat, id: AssetId): nat
    requires n <= |outputs|
  {
    if n == 0 then 0 else OutputSum(outputs, n - 1, id) + Holds(outputs[n - 1], id)
  }

  function InputSum(utxos: Utxos, inputs: seq<UtxoKey>, n: nat, id: AssetId): nat
    requires n <= |inputs|
  {
    if n == 0 then 0
    else InputSum(utxos, inputs, n - 1, id)
         + (if inputs[n - 1] in utxos then Holds(utxos[inputs[n - 1]].output, id) else 0)
  }

  /** What the build's running total of amounts that add up to `n` comes to. */
  function Added(env: Env, n: nat): nat {
    if env.build.Wrapping? then n % (U128_MAX + 1) else n
  }

  lemma AddedSmall(env: Env, n: nat)
    requires n <= U128_MAX
    ensures Added(env, n) == n
  {
  }

  lemma AddedTwice(env: Env, m: nat, n: nat)
    ensures Added(env, Added(env, m) + n) == Added(env, m + n)
  {
  }

  // ----- consuming and creating -----

  function Consume(utxos: Utxos, inputs: seq<UtxoKey>, n: nat): Utxos
    requires n <= |inputs|
  {
    if n == 0 then utxos else Consume(utxos, inputs, n - 1) - {inputs[n - 1]}
  }

  /** Inserting the first `n` outputs; a key that is already there is overwritten. */
  function Create(utxos: Utxos, txId: Hash256, outputs: Vec<Output>, n: nat, height: u64): Utxos
    requires n <= |outputs|
  {
    if n == 0 then utxos
    else Create(utxos, txId, outputs, n - 1, height)[UtxoKey(txId, n - 1) := TrackedOutput(outputs[n - 1], height)]
  }

  // ----- one input -----

  /** The host of a script: the UTXO set before anything is consumed, at the given height. */
  function LedgerHost(utxos: Utxos, height: u64): StackMachine.ScriptHost {
    StackMachine.ScriptHost(
      Some(height),
      (input: TransactionInput) =>
        if input in utxos
        then Some(StackMachine.ResolvedInput(utxos[input].output, Some(utxos[input].createdHeight)))
        else None)
  }

  function InputMachine(env: Env, utxos: Utxos, tx: Transaction, height: u64, chainId: u32, i: u32, owner: Hash256):
    StackMachine.Machine
  {
    StackMachine.Machine(
      env,
      StackMachine.DEFAULT_CONFIG,
      StackMachine.ScriptContext(tx, i, Some(height), chainId, owner),
      LedgerHost(utxos, height))
  }

  predicate MetadataMatches(env: Env, expected: Option<Hash256>, given: Option<Bytes>) {
    match (expected, given)
    case (Some(hash), Some(bytes)) => hash == Blake3(env, bytes)
    case (None, None) => true
    case (_, _) => false
  }

  /** The decoded witness of one input against the output it spends. */
  function SpendError(env: Env, utxos: Utxos, tx: Transaction, height: u64, chainId: u32, i: u32, spent: Output,
                      proof: InputWitness): Option<LedgerError>
  {
    if ScriptHash(env, proof.script) != spent.ownerScriptHash then Some(ScriptHashMismatch)
    else if !MetadataMatches(env, spent.metadataHash, proof.metadata) then Some(MetadataHashMismatch)
    else if StackMachine.Eval(InputMachine(env, utxos, tx, height, chainId, i, spent.ownerScriptHash),
                              proof.script).Err?
      then Some(ScriptFailed)
    else None
  }

  function WitnessError(env: Env, utxos: Utxos, tx: Transaction, height: u64, chainId: u32, i: u32, spent: Output):
    Option<LedgerError>
  {
    if i >= |tx.witnesses| then Some(MissingWitness)
    else if DecodeWitness(env, tx.witnesses[i]).None? then Some(InvalidWitness)
    else SpendError(env, utxos, tx, height, chainId, i, spent, DecodeWitness(env, tx.witnesses[i]).value)
  }

  ghost predicate InputsFit(utxos: Utxos, inputs: seq<UtxoKey>, n: nat)
    requires n <= |inputs|
  {
    forall id :: InputSum(utxos, inputs, n, id) <= U128_MAX
  }

  ghost function InputError(env: Env, utxos: Utxos, tx: Transaction, height: u64, chainId: u32,
                            i: nat): Option<LedgerError>
    requires i < |tx.core.inputs|
  {
    var key := tx.core.inputs[i];
    if key in tx.core.inputs[..i] then Some(DoubleSpend)
    else if key !in utxos then Some(MissingInput)
    else
      var e := WitnessError(env, utxos, tx, height, chainId, i, utxos[key].output);
      if e.Some? then e
      else if env.build.Checked? && !InputsFit(utxos, tx.core.inputs, i + 1) then Some(Overflow)
      else None
  }

  /** The first error of the inputs from `i` on. */
  ghost function InputsError(env: Env, utxos: Utxos, tx: Transaction, height: u64, chainId: u32,
                             i: nat): Option<LedgerError>
    requires i <= |tx.core.inputs|
    decreases |tx.core.inputs| - i
  {
    if i == |tx.core.inputs| then None
    else
      var e := InputError(env, utxos, tx, height, chainId, i);
      if e.Some? then e else InputsError(env, utxos, tx, height, chainId, i + 1)
  }

  // ----- asset creation -----

  function CreatedId(env: Env, core: TransactionCore, chainId: u32): Option<AssetId> {
    match core.kind
    case Transfer => None
    case CreateAsset(definition, _) => Some(DeriveAssetId(env, definition, chainId))
  }

  predicate HoldsEntry(output: Output, id: AssetId) {
    exists j :: 0 <= j < |output.assets| && output.assets[j].assetId == id
  }

  /** An input authorises the issue if the issuer's script owns it or it lists the new asset. */
  predicate AuthorizesIssue(utxos: Utxos, key: UtxoKey, definition: AssetDefinition, id: AssetId) {
    && key in utxos
    && (utxos[key].output.ownerScriptHash == definition.issuerScriptHash || HoldsEntry(utxos[key].output, id))
  }

  predicate IssueAuthorized(utxos: Utxos, inputs: seq<UtxoKey>, n: nat, definition: AssetDefinition, id: AssetId)
    requires n <= |inputs|
  {
    exists i :: 0 <= i < n && AuthorizesIssue(utxos, inputs[i], definition, id)
  }

  function ReservedError(env: Env, assets: map<AssetId, AssetDefinition>, core: TransactionCore,
                         chainId: u32): Option<LedgerError> {
    match CreatedId(env, core, chainId)
    case None => None
    case Some(id) =>
      if id == QCOIN_ASSET_ID then Some(ReservedNativeAssetId)
      else if id in assets then Some(AssetAlreadyExists)
      else None
  }

  /** The checks on an issue of `id`, once all inputs and outputs have been added up. */
  function IssueErrorFor(env: Env, utxos: Utxos, core: TransactionCore, id: AssetId, definition: AssetDefinition,
                         supply: u128): Option<LedgerError> {
    if Added(env, OutputSum(core.outputs, |core.outputs|, id)) != supply then Some(AssetConservationViolation)
    else if definition.maxSupply.Some? && supply > definition.maxSupply.value then Some(MaxSupplyExceeded)
    else if Added(env, InputSum(utxos, core.inputs, |core.inputs|, id)) != 0 then Some(AssetConservationViolation)
    else if !IssueAuthorized(utxos, core.inputs, |core.inputs|, definition, id) then Some(MissingIssuerAuthorization)
    else None
  }

  /** Only a CreateAsset can fail here. */
  function IssueError(env: Env, utxos: Utxos, core: TransactionCore, chainId: u32): Option<LedgerError> {
    match core.kind
    case Transfer => None
    case CreateAsset(definition, supply) =>
      IssueErrorFor(env, utxos, core, DeriveAssetId(env, definition, chainId), definition, supply)
  }

  // ----- the whole transaction -----

  ghost predicate OutputsFit(outputs: seq<Output>) {
    forall id :: OutputSum(outputs, |outputs|, id) <= U128_MAX
  }

  /** Every asset but the one being created comes out in the amount it went in. */
  ghost predicate Conserves(env: Env, utxos: Utxos, core: TransactionCore, chainId: u32) {
    forall id :: Some(id) != CreatedId(env, core, chainId) ==>
      Added(env, InputSum(utxos, core.inputs, |core.inputs|, id))
        == Added(env, OutputSum(core.outputs, |core.outputs|, id))
  }

  /** The first error before the new asset, if any, is registered. */
  ghost function EarlyError(env: Env, ledger: Ledger, tx: Transaction, height: u64, chainId: u32): Option<LedgerError> {
    var reserved := ReservedError(env, ledger.assets, tx.core, chainId);
    if reserved.Some? then reserved
    else
      var inputs := InputsError(env, ledger.utxos, tx, height, chainId, 0);
      if inputs.Some? then inputs
      else if env.build.Checked? && !OutputsFit(tx.core.outputs) then Some(Overflow)
      else IssueError(env, ledger.utxos, tx.core, chainId)
  }

  function Register(env: Env, assets: map<AssetId, AssetDefinition>, core: TransactionCore,
                    chainId: u32): map<AssetId, AssetDefinition> {
    match core.kind
    case Transfer => assets
    case CreateAsset(definition, _) => assets[DeriveAssetId(env, definition, chainId) := definition]
  }

  /** What a successful transaction leaves behind. The witnesses play no part in it. */
  function Effect(env: Env, ledger: Ledger, core: TransactionCore, height: u64, chainId: u32): Ledger {
    Ledger(
      Create(Consume(ledger.utxos, core.inputs, |core.inputs|), TxId(env, core), core.outputs, |core.outputs|, height),
      Register(env, ledger.assets, core, chainId))
  }

  /** The ledger after an attempt and its outcome. A failed attempt leaves the UTXOs alone, but a
      CreateAsset that only fails to conserve some other asset has already been registered. */
  ghost function ApplyTx(env: Env, ledger: Ledger, tx: Transaction, height: u64, chainId: u32): (Ledger,
                         Outcome<LedgerError>) {
    var early := EarlyError(env, ledger, tx, height, chainId);
    if early.Some? then (ledger, Fail(early.value))
    else if !Conserves(env, ledger.utxos, tx.core, chainId) then
      (Ledger(ledger.utxos, Register(env, ledger.assets, tx.core, chainId)), Fail(AssetConservationViolation))
    else (Effect(env, ledger, tx.core, height, chainId), Pass)
  }

  ghost predicate Applies(env: Env, ledger: Ledger, tx: Transaction, height: u64, chainId: u32) {
    ApplyTx(env, ledger, tx, height, chainId).1.Pass?
  }

  /** The first `n` of a list, in order, stopping at the first failure. */
  ghost function ApplyTxs(env: Env, ledger: Ledger, txs: seq<Transaction>, n: nat, height: u64, chainId: u32):
    (Ledger, Outcome<LedgerError>)
    requires n <= |txs|
  {
    if n == 0 then (ledger, Pass)
    else
      var (before, r) := ApplyTxs(env, ledger, txs, n - 1, height, chainId);
      if r.Fail? then (before, r) else ApplyTx(env, before, txs[n - 1], height, chainId)
  }

  // ----- what success means -----

  lemma {:induction false} NoInputsErrorFrom(env: Env, utxos: Utxos, tx: Transaction, height: u64, chainId: u32, i: nat)
    requires i <= |tx.core.inputs|
    ensures InputsError(env, utxos, tx, height, chainId, i).None?
       <==> forall j :: i <= j < |tx.core.inputs| ==> InputError(env, utxos, tx, height, chainId, j).None?
    decreases |tx.core.inputs| - i
  {
    hide InputError;
    if i < |tx.core.inputs| {
      NoInputsErrorFrom(env, utxos, tx, height, chainId, i + 1);
    }
  }

  ghost predicate DistinctInputs(inputs: seq<UtxoKey>) {
    forall i, j :: 0 <= i < j < |inputs| ==> inputs[i] != inputs[j]
  }

  lemma NoInputsFit(utxos: Utxos, inputs: seq<UtxoKey>)
    requires inputs == []
    ensures InputsFit(utxos, inputs, 0)
  {
  }

  lemma FewerInputsFit(utxos: Utxos, inputs: seq<UtxoKey>, m: nat, n: nat)
    requires m <= n <= |inputs| && InputsFit(utxos, inputs, n)
    ensures InputsFit(utxos, inputs, m)
  {
    forall id
      ensures InputSum(utxos, inputs, m, id) <= U128_MAX
    {
      InputSumMonotone(utxos, inputs, m, n, id);
    }
  }

  /** The checks before the registration of a new asset, one by one. */
  lemma EarlyMeans(env: Env, ledger: Ledger, tx: Transaction, height: u64, chainId: u32)
    ensures EarlyError(env, ledger, tx, height, chainId).None?
       <==> && ReservedError(env, ledger.assets, tx.core, chainId).None?
            && DistinctInputs(tx.core.inputs)
            && (forall i :: 0 <= i < |tx.core.inputs| ==>
                 && tx.core.inputs[i] in ledger.utxos
                 && WitnessError(env, ledger.utxos, tx, height, chainId, i,
                                 ledger.utxos[tx.core.inputs[i]].output).None?)
            && (env.build.Checked? ==>
              InputsFit(ledger.utxos, tx.core.inputs, |tx.core.inputs|) && OutputsFit(tx.core.outputs))
            && IssueError(env, ledger.utxos, tx.core, chainId).None?
  {
    hide ReservedError, WitnessError, IssueError, OutputsFit, InputsFit;
    var inputs, utxos := tx.core.inputs, ledger.utxos;
    NoInputsErrorFrom(env, utxos, tx, height, chainId, 0);
    if InputsError(env, utxos, tx, height, chainId, 0).None? {
      forall i, j | 0 <= i < j < |inputs|
        ensures inputs[i] != inputs[j]
      {
        assert InputError(env, utxos, tx, height, chainId, j).None?;
        assert inputs[..j][i] == inputs[i];
      }
      forall i | 0 <= i < |inputs|
        ensures inputs[i] in utxos && WitnessError(env, utxos, tx, height, chainId, i, utxos[inputs[i]].output).None?
      {
        assert InputError(env, utxos, tx, height, chainId, i).None?;
      }
      if inputs != [] {
        assert InputError(env, utxos, tx, height, chainId, |inputs| - 1).None?;
      } else {
        NoInputsFit(utxos, inputs);
      }
    } else {
      var j :| 0 <= j < |inputs| && InputError(env, utxos, tx, height, chainId, j).Some?;
      if inputs[j] in inputs[..j] {
        var i :| 0 <= i < j && inputs[..j][i] == inputs[j];
        assert !DistinctInputs(inputs);
      } else if inputs[j] in utxos && WitnessError(env, utxos, tx, height, chainId, j, utxos[inputs[j]].output).None? {
        if InputsFit(utxos, inputs, |inputs|) {
          FewerInputsFit(utxos, inputs, j + 1, |inputs|);
        }
      }
    }
  }

  /** A transaction succeeds exactly when all its inputs exist, differ and are unlocked, nothing
      overflows, every asset is conserved, and what it creates (if anything) is new, authorised
      and within its maximum. Its effect is then a function of its core. */
  lemma AppliesMeans(env: Env, ledger: Ledger, tx: Transaction, height: u64, chainId: u32)
    ensures Applies(env, ledger, tx, height, chainId)
       <==> && ReservedError(env, ledger.assets, tx.core, chainId).None?
            && DistinctInputs(tx.core.inputs)
            && (forall i :: 0 <= i < |tx.core.inputs| ==>
                 && tx.core.inputs[i] in ledger.utxos
                 && WitnessError(env, ledger.utxos, tx, height, chainId, i,
                                 ledger.utxos[tx.core.inputs[i]].output).None?)
            && (env.build.Checked? ==>
              InputsFit(ledger.utxos, tx.core.inputs, |tx.core.inputs|) && OutputsFit(tx.core.outputs))
            && IssueError(env, ledger.utxos, tx.core, chainId).None?
            && Conserves(env, ledger.utxos, tx.core, chainId)
    ensures Applies(env, ledger, tx, height, chainId) ==>
      ApplyTx(env, ledger, tx, height, chainId).0 == Effect(env, ledger, tx.core, height, chainId)
  {
    hide EarlyError, ReservedError, WitnessError, IssueError, Conserves, Effect, Register, InputsFit, OutputsFit;
    EarlyMeans(env, ledger, tx, height, chainId);
  }

  lemma {:induction false} ConsumeLeaves(utxos: Utxos, inputs: seq<UtxoKey>, n: nat)
    requires n <= |inputs|
    ensures forall k :: k in Consume(utxos, inputs, n) <==> k in utxos && k !in inputs[..n]
    ensures forall k :: k in Consume(utxos, inputs, n) ==> Consume(utxos, inputs, n)[k] == utxos[k]
  {
    if n > 0 {
      ConsumeLeaves(utxos, inputs, n - 1);
      assert inputs[..n] == inputs[..n - 1] + [inputs[n - 1]];
    }
  }

  /** A created key is one of the transaction's own, with that output; any other key is untouched. */
  lemma {:induction false} CreateAdds(utxos: Utxos, txId: Hash256, outputs: Vec<Output>, n: nat, height: u64)
    requires n <= |outputs|
    ensures forall k :: k in Create(utxos, txId, outputs, n, height)
                   <==> k in utxos || (k.txId == txId && k.index < n)
    ensures forall k :: k in Create(utxos, txId, outputs, n, height) ==>
      Create(utxos, txId, outputs, n, height)[k]
      == if k.txId == txId && k.index < n then TrackedOutput(outputs[k.index], height) else utxos[k]
  {
    if n > 0 {
      CreateAdds(utxos, txId, outputs, n - 1, height);
    }
  }

  lemma InputSumMonotone(utxos: Utxos, inputs: seq<UtxoKey>, m: nat, n: nat, id: AssetId)
    requires m <= n <= |inputs|
    ensures InputSum(utxos, inputs, m, id) <= InputSum(utxos, inputs, n, id)
  {
  }

  lemma OutputSumMonotone(outputs: seq<Output>, m: nat, n: nat, id: AssetId)
    requires m <= n <= |outputs|
    ensures OutputSum(outputs, m, id) <= OutputSum(outputs, n, id)
  {
  }

  lemma AssetSumMonotone(assets: seq<AssetAmount>, m: nat, n: nat, id: AssetId)
    requires m <= n <= |assets|
    ensures AssetSum(assets, m, id) <= AssetSum(assets, n, id)
  {
  }
}

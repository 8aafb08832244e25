/** What a transaction has to show, input by input and asset by asset, and which error it gets for what
    it does not show; stated of the decoded witnesses, the hashes and the sums alone. */
module Spending {
  import opened Types
  import opened LedgerRules
  import opened Operations
  import Codec
  import Keys
  import StackMachine

  // ----- one input -----

  /** A machine that sees this input: its transaction, index and owner, the chain, the height and the
      output it spends. What else its host may know does not matter. */
  ghost predicate Sees(m: StackMachine.Machine, env: Env, utxos: Utxos, tx: Transaction, height: u64, chainId: u32,
                       i: nat)
    requires i < |tx.core.inputs| && tx.core.inputs[i] in utxos
  {
    var spent := utxos[tx.core.inputs[i]];
    && m.env == env
    && m.config == StackMachine.VmConfig(50_000, 1_024, 4_096, 2_048)
    && m.ctx.tx == tx && m.ctx.inputIndex == i && m.ctx.chainId == chainId
    && m.ctx.scriptHash == spent.output.ownerScriptHash
    && AtHeight(m, height)
    && SpentOutput(m) == Some(StackMachine.ResolvedInput(spent.output, Some(spent.createdHeight)))
  }

  ghost predicate Opens(env: Env, utxos: Utxos, tx: Transaction, height: u64, chainId: u32, i: nat, script: Script)
    requires i < |tx.core.inputs| && tx.core.inputs[i] in utxos
  {
    forall m :: Sees(m, env, utxos, tx, height, chainId, i) ==> StackMachine.Eval(m, script).Ok?
  }

  /** One such machine decides for all. */
  lemma OpensExactly(env: Env, utxos: Utxos, tx: Transaction, height: u64, chainId: u32, i: u32, script: Script)
    requires i < |tx.core.inputs| && tx.core.inputs[i] in utxos
    ensures var owner := utxos[tx.core.inputs[i]].output.ownerScriptHash;
      Opens(env, utxos, tx, height, chainId, i, script)
      <==> StackMachine.Eval(InputMachine(env, utxos, tx, height, chainId, i, owner), script).Ok?
  {
    hide StackMachine.Eval;
    var own := InputMachine(env, utxos, tx, height, chainId, i, utxos[tx.core.inputs[i]].output.ownerScriptHash);
    assert Sees(own, env, utxos, tx, height, chainId, i);
    if StackMachine.Eval(own, script).Ok? {
      forall m | Sees(m, env, utxos, tx, height, chainId, i)
        ensures StackMachine.Eval(m, script).Ok?
      {
        assert StackMachine.SeenLater(own, m);
        StackMachine.EvalSeenLater(own, m, script);
      }
    }
  }

  /** Nothing is promised of the metadata where none is expected, and then none may come. */
  predicate Reveals(env: Env, expected: Option<Hash256>, given: Option<Bytes>) {
    || (expected == None && given == None)
    || (expected.Some? && given.Some? && env.blake3(given.value) == expected.value)
  }

  function Proof(env: Env, tx: Transaction, i: nat): Option<InputWitness> {
    if i < |tx.witnesses| then env.decodeWitness(tx.witnesses[i]) else None
  }

  /** The witness of input `i` presents the script that owns the output, reveals the metadata, and its
      script succeeds on every machine that sees this input. */
  ghost predicate Unlocked(env: Env, utxos: Utxos, tx: Transaction, height: u64, chainId: u32, i: nat)
    requires i < |tx.core.inputs| && tx.core.inputs[i] in utxos
  {
    var spent := utxos[tx.core.inputs[i]].output;
    && Proof(env, tx, i).Some?
    && var proof := Proof(env, tx, i).value;
       && env.blake3(Codec.ScriptBytes(proof.script)) == spent.ownerScriptHash
       && Reveals(env, spent.metadataHash, proof.metadata)
       && Opens(env, utxos, tx, height, chainId, i, proof.script)
  }

  ghost predicate Repeated(inputs: seq<UtxoKey>, i: nat)
    requires i < |inputs|
  {
    exists j :: 0 <= j < i && inputs[j] == inputs[i]
  }

  ghost predicate InputPasses(env: Env, utxos: Utxos, tx: Transaction, height: u64, chainId: u32, i: nat)
    requires i < |tx.core.inputs|
  {
    && !Repeated(tx.core.inputs, i)
    && tx.core.inputs[i] in utxos
    && Unlocked(env, utxos, tx, height, chainId, i)
    && (env.build.Checked? ==> InputsFit(utxos, tx.core.inputs, i + 1))
  }

  /** Input `i` is at fault, and `e` is the error for it. */
  ghost predicate InputFails(env: Env, utxos: Utxos, tx: Transaction, height: u64, chainId: u32, i: nat, e: LedgerError)
    requires i < |tx.core.inputs|
  {
    var key := tx.core.inputs[i];
    if Repeated(tx.core.inputs, i) then e == DoubleSpend
    else if key !in utxos then e == MissingInput
    else
      var spent, proof := utxos[key].output, Proof(env, tx, i);
      match e
      case MissingWitness => i >= |tx.witnesses|
      case InvalidWitness => i < |tx.witnesses| && proof.None?
      case ScriptHashMismatch =>
        proof.Some? && env.blake3(Codec.ScriptBytes(proof.value.script)) != spent.ownerScriptHash
      case MetadataHashMismatch =>
        && proof.Some? && env.blake3(Codec.ScriptBytes(proof.value.script)) == spent.ownerScriptHash
        && !Reveals(env, spent.metadataHash, proof.value.metadata)
      case ScriptFailed =>
        && proof.Some? && env.blake3(Codec.ScriptBytes(proof.value.script)) == spent.ownerScriptHash
        && Reveals(env, spent.metadataHash, proof.value.metadata)
        && !Opens(env, utxos, tx, height, chainId, i, proof.value.script)
      case Overflow =>
        && Unlocked(env, utxos, tx, height, chainId, i)
        && env.build.Checked? && !InputsFit(utxos, tx.core.inputs, i + 1)
      case _ => false
  }

  lemma RepeatedExactly(inputs: seq<UtxoKey>, i: nat)
    requires i < |inputs|
    ensures Repeated(inputs, i) <==> inputs[i] in inputs[..i]
  {
    if Repeated(inputs, i) {
      var j :| 0 <= j < i && inputs[j] == inputs[i];
      assert inputs[..i][j] == inputs[i];
    }
  }

  lemma InputExactly(env: Env, utxos: Utxos, tx: Transaction, height: u64, chainId: u32, i: nat, e: LedgerError)
    requires i < |tx.core.inputs|
    ensures InputError(env, utxos, tx, height, chainId, i).None? <==> InputPasses(env, utxos, tx, height, chainId, i)
    ensures InputError(env, utxos, tx, height, chainId, i) == Some(e)
       <==> InputFails(env, utxos, tx, height, chainId, i, e)
  {
    hide InputsFit, Opens, StackMachine.Eval, Repeated;
    var key := tx.core.inputs[i];
    RepeatedExactly(tx.core.inputs, i);
    if key in utxos && Proof(env, tx, i).Some? {
      OpensExactly(env, utxos, tx, height, chainId, i, Proof(env, tx, i).value.script);
    }
  }

  /** Every input before `i` passes and `i` fails with `e`. */
  ghost predicate FirstFault(env: Env, utxos: Utxos, tx: Transaction, height: u64, chainId: u32, i: nat, e: LedgerError)
    requires i < |tx.core.inputs|
  {
    && (forall j :: 0 <= j < i ==> InputPasses(env, utxos, tx, height, chainId, j))
    && InputFails(env, utxos, tx, height, chainId, i, e)
  }

  lemma {:induction false} FirstFaultFrom(env: Env, utxos: Utxos, tx: Transaction, height: u64, chainId: u32, from: nat,
                                          e: LedgerError)
    requires from <= |tx.core.inputs|
    requires forall j :: 0 <= j < from ==> InputPasses(env, utxos, tx, height, chainId, j)
    ensures InputsError(env, utxos, tx, height, chainId, from).None?
       <==> forall j :: 0 <= j < |tx.core.inputs| ==> InputPasses(env, utxos, tx, height, chainId, j)
    ensures InputsError(env, utxos, tx, height, chainId, from) == Some(e)
       <==> exists i :: 0 <= i < |tx.core.inputs| && FirstFault(env, utxos, tx, height, chainId, i, e)
    decreases |tx.core.inputs| - from
  {
    hide InputError, InputPasses, InputFails;
    if from < |tx.core.inputs| {
      InputExactly(env, utxos, tx, height, chainId, from, e);
      if InputPasses(env, utxos, tx, height, chainId, from) {
        FirstFaultFrom(env, utxos, tx, height, chainId, from + 1, e);
      } else {
        forall i | 0 <= i < |tx.core.inputs| && FirstFault(env, utxos, tx, height, chainId, i, e)
          ensures i == from
        {
          if i < from {
            InputExactly(env, utxos, tx, height, chainId, i, e);
          }
        }
        assert InputFails(env, utxos, tx, height, chainId, from, e)
           ==> FirstFault(env, utxos, tx, height, chainId, from, e);
      }
    } else {
      forall i | 0 <= i < |tx.core.inputs|
        ensures !FirstFault(env, utxos, tx, height, chainId, i, e)
      {
        InputExactly(env, utxos, tx, height, chainId, i, e);
      }
    }
  }

  // ----- the asset being issued -----

  function IssuedId(env: Env, definition: AssetDefinition, chainId: u32): AssetId {
    env.blake3(Codec.AssetIdPreimage(definition, chainId))
  }

  predicate Issues(env: Env, core: TransactionCore, chainId: u32, id: AssetId) {
    core.kind.CreateAsset? && id == IssuedId(env, core.kind.definition, chainId)
  }

  /** The name of what is issued is neither the native asset's nor taken. */
  predicate NameFree(env: Env, ledger: Ledger, core: TransactionCore, chainId: u32) {
    core.kind.CreateAsset? ==>
      var id := IssuedId(env, core.kind.definition, chainId);
      id != QCOIN_ASSET_ID && id !in ledger.assets
  }

  /** What the inputs, or the outputs, hold of an asset, as the build adds it up. */
  function In(env: Env, utxos: Utxos, core: TransactionCore, id: AssetId): nat {
    Added(env, InputSum(utxos, core.inputs, |core.inputs|, id))
  }

  function Out(env: Env, core: TransactionCore, id: AssetId): nat {
    Added(env, OutputSum(core.outputs, |core.outputs|, id))
  }

  /** Some input belongs to the issuer's script or mentions the asset. */
  ghost predicate HasAuthority(env: Env, utxos: Utxos, core: TransactionCore, chainId: u32)
    requires core.kind.CreateAsset?
  {
    exists i, spent: TrackedOutput ::
      && 0 <= i < |core.inputs| && core.inputs[i] in utxos && spent == utxos[core.inputs[i]]
      && (|| spent.output.ownerScriptHash == core.kind.definition.issuerScriptHash
          || exists j :: 0 <= j < |spent.output.assets|
               && spent.output.assets[j].assetId == IssuedId(env, core.kind.definition, chainId))
  }

  predicate WithinMaximum(core: TransactionCore)
    requires core.kind.CreateAsset?
  {
    core.kind.definition.maxSupply.Some? ==> core.kind.initialSupply <= core.kind.definition.maxSupply.value
  }

  /** The declared supply comes out, within the maximum, nothing of it goes in, and an input has the
      authority. */
  ghost predicate IssuePasses(env: Env, utxos: Utxos, core: TransactionCore, chainId: u32) {
    core.kind.CreateAsset? ==>
      var id := IssuedId(env, core.kind.definition, chainId);
      && Out(env, core, id) == core.kind.initialSupply
      && WithinMaximum(core)
      && In(env, utxos, core, id) == 0
      && HasAuthority(env, utxos, core, chainId)
  }

  ghost predicate IssueFails(env: Env, utxos: Utxos, core: TransactionCore, chainId: u32, e: LedgerError) {
    && core.kind.CreateAsset?
    && var id := IssuedId(env, core.kind.definition, chainId);
       var whole := Out(env, core, id) == core.kind.initialSupply;
       match e
       case AssetConservationViolation => !whole || (WithinMaximum(core) && In(env, utxos, core, id) != 0)
       case MaxSupplyExceeded => whole && !WithinMaximum(core)
       case MissingIssuerAuthorization =>
         whole && WithinMaximum(core) && In(env, utxos, core, id) == 0 && !HasAuthority(env, utxos, core, chainId)
       case _ => false
  }

  lemma AuthorityExactly(env: Env, utxos: Utxos, core: TransactionCore, chainId: u32)
    requires core.kind.CreateAsset?
    ensures HasAuthority(env, utxos, core, chainId)
       <==> IssueAuthorized(utxos, core.inputs, |core.inputs|, core.kind.definition,
                            IssuedId(env, core.kind.definition, chainId))
  {
    hide IssuedId;
    var definition, id := core.kind.definition, IssuedId(env, core.kind.definition, chainId);
    if i :| 0 <= i < |core.inputs| && AuthorizesIssue(utxos, core.inputs[i], definition, id) {
      var spent := utxos[core.inputs[i]];
      assert spent.output.ownerScriptHash == definition.issuerScriptHash || HoldsEntry(spent.output, id);
    }
    if HasAuthority(env, utxos, core, chainId) {
      var i, spent: TrackedOutput :|
        && 0 <= i < |core.inputs| && core.inputs[i] in utxos && spent == utxos[core.inputs[i]]
        && (spent.output.ownerScriptHash == definition.issuerScriptHash
            || exists j :: 0 <= j < |spent.output.assets| && spent.output.assets[j].assetId == id);
      assert AuthorizesIssue(utxos, core.inputs[i], definition, id);
    }
  }

  lemma IssueExactly(env: Env, utxos: Utxos, core: TransactionCore, chainId: u32, e: LedgerError)
    ensures IssueError(env, utxos, core, chainId).None? <==> IssuePasses(env, utxos, core, chainId)
    ensures IssueError(env, utxos, core, chainId) == Some(e) <==> IssueFails(env, utxos, core, chainId, e)
  {
    hide IssueAuthorized, HasAuthority;
    if core.kind.CreateAsset? {
      AuthorityExactly(env, utxos, core, chainId);
    }
  }

  // ----- the whole transaction -----

  /** Of every asset but the one issued, as much comes out as goes in. */
  ghost predicate Balanced(env: Env, utxos: Utxos, core: TransactionCore, chainId: u32) {
    forall id :: !Issues(env, core, chainId, id) ==> In(env, utxos, core, id) == Out(env, core, id)
  }

  ghost predicate AllInputsPass(env: Env, utxos: Utxos, tx: Transaction, height: u64, chainId: u32) {
    forall i :: 0 <= i < |tx.core.inputs| ==> InputPasses(env, utxos, tx, height, chainId, i)
  }

  /** All that is checked before the issued asset is registered. */
  ghost predicate Registrable(env: Env, ledger: Ledger, tx: Transaction, height: u64, chainId: u32) {
    && NameFree(env, ledger, tx.core, chainId)
    && AllInputsPass(env, ledger.utxos, tx, height, chainId)
    && (env.build.Checked? ==> OutputsFit(tx.core.outputs))
    && IssuePasses(env, ledger.utxos, tx.core, chainId)
  }

  /** What a transaction has to show. */
  ghost predicate Acceptable(env: Env, ledger: Ledger, tx: Transaction, height: u64, chainId: u32) {
    Registrable(env, ledger, tx, height, chainId) && Balanced(env, ledger.utxos, tx.core, chainId)
  }

  /** `e` is the error for the first thing it does not show: its name, an input from the first on, its
      output sums, its issue, the balance of the other assets. */
  ghost predicate FailsWith(env: Env, ledger: Ledger, tx: Transaction, height: u64, chainId: u32, e: LedgerError) {
    var core, utxos := tx.core, ledger.utxos;
    if !NameFree(env, ledger, core, chainId) then
      e == if IssuedId(env, core.kind.definition, chainId) == QCOIN_ASSET_ID then ReservedNativeAssetId
           else AssetAlreadyExists
    else if !AllInputsPass(env, utxos, tx, height, chainId) then
      exists i :: 0 <= i < |core.inputs| && FirstFault(env, utxos, tx, height, chainId, i, e)
    else if env.build.Checked? && !OutputsFit(core.outputs) then e == LedgerError.Overflow
    else if !IssuePasses(env, utxos, core, chainId) then IssueFails(env, utxos, core, chainId, e)
    else !Balanced(env, utxos, core, chainId) && e == AssetConservationViolation
  }

  /** A transaction succeeds exactly when it is acceptable, and fails with exactly this error. */
  lemma OutcomeExactly(env: Env, ledger: Ledger, tx: Transaction, height: u64, chainId: u32, e: LedgerError)
    ensures var r := ApplyTx(env, ledger, tx, height, chainId).1;
      && (r == Pass <==> Acceptable(env, ledger, tx, height, chainId))
      && (r == Fail(e) <==> FailsWith(env, ledger, tx, height, chainId, e))
  {
    hide EarlyError, AllInputsPass, FirstFault, OutputsFit, NameFree, IssuePasses, IssueFails, Balanced, Conserves,
         Register, Effect;
    EarlyExactly(env, ledger, tx, height, chainId, e);
    BalancedExactly(env, ledger.utxos, tx.core, chainId);
  }

  lemma EarlyExactly(env: Env, ledger: Ledger, tx: Transaction, height: u64, chainId: u32, e: LedgerError)
    ensures var early := EarlyError(env, ledger, tx, height, chainId);
      && (early.None? <==> Registrable(env, ledger, tx, height, chainId))
      && (early == Some(e) <==>
            !Registrable(env, ledger, tx, height, chainId) && FailsWith(env, ledger, tx, height, chainId, e))
  {
    hide InputsError, InputPasses, FirstFault, OutputsFit, IssueError, IssuePasses, IssueFails, Balanced,
         Codec.AssetIdPreimage;
    FirstFaultFrom(env, ledger.utxos, tx, height, chainId, 0, e);
    IssueExactly(env, ledger.utxos, tx.core, chainId, e);
  }

  lemma BalancedExactly(env: Env, utxos: Utxos, core: TransactionCore, chainId: u32)
    ensures Balanced(env, utxos, core, chainId) <==> Conserves(env, utxos, core, chainId)
  {
    hide Added, InputSum, OutputSum;
    if Balanced(env, utxos, core, chainId) {
      forall id | Some(id) != CreatedId(env, core, chainId)
        ensures Added(env, InputSum(utxos, core.inputs, |core.inputs|, id))
             == Added(env, OutputSum(core.outputs, |core.outputs|, id))
      {
        assert !Issues(env, core, chainId, id);
        assert In(env, utxos, core, id) == Out(env, core, id);
      }
    }
  }

  /** What a success leaves: the inputs are gone, the outputs stand under the transaction's id and their
      place, made at this height, everything else is as before, and the issued asset is registered. */
  lemma SuccessLeaves(env: Env, ledger: Ledger, tx: Transaction, height: u64, chainId: u32)
    requires ApplyTx(env, ledger, tx, height, chainId).1 == Pass
    ensures var after, id := ApplyTx(env, ledger, tx, height, chainId).0, env.blake3(Codec.TxCoreBytes(tx.core));
      && (forall k :: k in after.utxos
            <==> (k.txId == id && k.index < |tx.core.outputs|) || (k in ledger.utxos && k !in tx.core.inputs))
      && (forall k :: k in after.utxos ==>
            after.utxos[k] == if k.txId == id && k.index < |tx.core.outputs|
                              then TrackedOutput(tx.core.outputs[k.index], height) else ledger.utxos[k])
      && (forall a :: a in after.assets <==> a in ledger.assets || Issues(env, tx.core, chainId, a))
      && (forall a :: a in after.assets ==>
            after.assets[a] == if Issues(env, tx.core, chainId, a) then tx.core.kind.definition else ledger.assets[a])
  {
    hide EarlyError, Conserves, Consume, Create;
    var inputs := tx.core.inputs;
    ConsumeLeaves(ledger.utxos, inputs, |inputs|);
    CreateAdds(Consume(ledger.utxos, inputs, |inputs|), Codec.TxId(env, tx.core), tx.core.outputs,
               |tx.core.outputs|, height);
    assert inputs[..|inputs|] == inputs;
  }

  /** What a failure leaves: the outputs as they were, and the name of an issue that was only out of
      balance. */
  lemma FailureLeaves(env: Env, ledger: Ledger, tx: Transaction, height: u64, chainId: u32)
    requires ApplyTx(env, ledger, tx, height, chainId).1.Fail?
    ensures var after := ApplyTx(env, ledger, tx, height, chainId).0;
      && after.utxos == ledger.utxos
      && after.assets == if Registrable(env, ledger, tx, height, chainId) && tx.core.kind.CreateAsset?
                         then ledger.assets[IssuedId(env, tx.core.kind.definition, chainId) := tx.core.kind.definition]
                         else ledger.assets
  {
    hide EarlyError, Conserves, Registrable, Codec.AssetIdPreimage;
    EarlyExactly(env, ledger, tx, height, chainId, ApplyTx(env, ledger, tx, height, chainId).1.error);
  }

  /** Every output that a successful transaction spends was there, is spent once, and is unlocked by the
      witness in its place: the owner's script, the metadata, and success of that script. */
  lemma SpentByOwner(env: Env, ledger: Ledger, tx: Transaction, height: u64, chainId: u32, i: nat)
    requires ApplyTx(env, ledger, tx, height, chainId).1 == Pass && i < |tx.core.inputs|
    ensures tx.core.inputs[i] in ledger.utxos && forall j :: 0 <= j < i ==> tx.core.inputs[j] != tx.core.inputs[i]
    ensures i < |tx.witnesses| && env.decodeWitness(tx.witnesses[i]).Some?
    ensures var spent, proof := ledger.utxos[tx.core.inputs[i]].output, env.decodeWitness(tx.witnesses[i]).value;
      && env.blake3(Codec.ScriptBytes(proof.script)) == spent.ownerScriptHash
      && (spent.metadataHash.Some? <==> proof.metadata.Some?)
      && (proof.metadata.Some? ==> env.blake3(proof.metadata.value) == spent.metadataHash.value)
      && forall m :: Sees(m, env, ledger.utxos, tx, height, chainId, i) ==> StackMachine.Eval(m, proof.script).Ok?
  {
    hide ApplyTx, Sees, StackMachine.Eval, IssuePasses, Balanced;
    OutcomeExactly(env, ledger, tx, height, chainId, DoubleSpend);
    assert InputPasses(env, ledger.utxos, tx, height, chainId, i);
  }

  /** Where the owner's script checks a signature, the library has accepted one that is written in that
      script, for the sighash of this chain, core, output, input and script. */
  lemma SpendIsSigned(env: Env, ledger: Ledger, tx: Transaction, height: u64, chainId: u32, i: u32, n: nat)
    requires ApplyTx(env, ledger, tx, height, chainId).1 == Pass && i < |tx.core.inputs|
    requires Proof(env, tx, i).Some? ==>
      n < |Proof(env, tx, i).value.script| && Proof(env, tx, i).value.script[n].CheckSig?
    ensures Proof(env, tx, i).Some? && tx.core.inputs[i] in ledger.utxos
    ensures var spent, script := ledger.utxos[tx.core.inputs[i]].output, Proof(env, tx, i).value.script;
      var parts := Codec.SighashParts(chainId, tx.core, spent, i, env.blake3(Codec.ScriptBytes(script)), 0);
      exists key, sig :: Literal(script, key) && Literal(script, sig)
        && Keys.GenuineBytes(env, key, env.blake3(Codec.SighashPreimage(parts)), sig)
  {
    hide ApplyTx, StackMachine.Eval, Literal, Keys.GenuineBytes;
    SpentByOwner(env, ledger, tx, height, chainId, i);
    var owner := ledger.utxos[tx.core.inputs[i]].output.ownerScriptHash;
    var m := InputMachine(env, ledger.utxos, tx, height, chainId, i, owner);
    assert Sees(m, env, ledger.utxos, tx, height, chainId, i);
    SignatureSignsItself(m, Proof(env, tx, i).value.script, n);
    var key, sig :| Literal(Proof(env, tx, i).value.script, key) && Literal(Proof(env, tx, i).value.script, sig)
      && Signed(m, key, sig);
  }

  // ----- what the sums are -----

  lemma {:induction false} FirstEntries(a: seq<AssetAmount>, b: seq<AssetAmount>, n: nat, id: AssetId)
    requires n <= |a|
    ensures AssetSum(a + b, n, id) == AssetSum(a, n, id)
  {
    if n > 0 {
      FirstEntries(a, b, n - 1, id);
    }
  }

  /** One entry counts with its amount, for its asset alone, and lists of entries add up. */
  lemma {:induction false} EntriesAddUp(a: seq<AssetAmount>, b: seq<AssetAmount>, id: AssetId)
    ensures AssetSum(a + b, |a + b|, id) == AssetSum(a, |a|, id) + AssetSum(b, |b|, id)
    ensures forall x: AssetAmount :: AssetSum([x], 1, id) == if x.assetId == id then x.amount else 0
  {
    if b == [] {
      assert a + b == a;
    } else {
      var front, last := b[..|b| - 1], b[|b| - 1];
      EntriesAddUp(a, front, id);
      assert a + b == (a + front) + [last] && b == front + [last];
      FirstEntries(a + front, [last], |a + front|, id);
      FirstEntries(front, [last], |front|, id);
    }
  }

  lemma {:induction false} FirstOutputs(a: seq<Output>, b: seq<Output>, n: nat, id: AssetId)
    requires n <= |a|
    ensures OutputSum(a + b, n, id) == OutputSum(a, n, id)
  {
    if n > 0 {
      FirstOutputs(a, b, n - 1, id);
    }
  }

  /** The same for the entries of an output and for lists of outputs. */
  lemma {:induction false} OutputsAddUp(a: seq<Output>, b: seq<Output>, id: AssetId)
    ensures OutputSum(a + b, |a + b|, id) == OutputSum(a, |a|, id) + OutputSum(b, |b|, id)
    ensures forall o: Output :: OutputSum([o], 1, id) == AssetSum(o.assets, |o.assets|, id)
  {
    if b == [] {
      assert a + b == a;
    } else {
      var front, last := b[..|b| - 1], b[|b| - 1];
      OutputsAddUp(a, front, id);
      assert a + b == (a + front) + [last] && b == front + [last];
      FirstOutputs(a + front, [last], |a + front|, id);
      FirstOutputs(front, [last], |front|, id);
    }
  }

  function SpentOutputs(utxos: Utxos, inputs: seq<UtxoKey>): seq<Output>
    requires forall i :: 0 <= i < |inputs| ==> inputs[i] in utxos
  {
    seq(|inputs|, i requires 0 <= i < |inputs| => utxos[inputs[i]].output)
  }

  /** What goes in is what the spent outputs hold. */
  lemma {:induction false} InputsAreSpentOutputs(utxos: Utxos, inputs: seq<UtxoKey>, n: nat, id: AssetId)
    requires n <= |inputs| && forall i :: 0 <= i < |inputs| ==> inputs[i] in utxos
    ensures InputSum(utxos, inputs, n, id) == OutputSum(SpentOutputs(utxos, inputs), n, id)
  {
    if n > 0 {
      InputsAreSpentOutputs(utxos, inputs, n - 1, id);
    }
  }
}

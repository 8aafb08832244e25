/** Supply can come into being: two transactions from the empty ledger are enough to issue any asset
    whose issuer script is the empty one, in any amount within its maximum. */
module Issuing {
  import opened Types
  import opened Codec
  import opened LedgerRules
  import opened Supply

  /** An output of no value, locked by the issuer's script. */
  function Anchor(definition: AssetDefinition): Transaction {
    Transaction(TransactionCore(Transfer, [], [Output(definition.issuerScriptHash, [], None)]), [])
  }

  /** Spends that output and issues the asset to `owner`. */
  function Issue(env: Env, chainId: u32, definition: AssetDefinition, supply: u128, owner: Hash256,
                 spend: Bytes): Transaction {
    Transaction(
      TransactionCore(
        CreateAsset(definition, supply),
        [UtxoKey(TxId(env, Anchor(definition).core), 0)],
        [Output(owner, [AssetAmount(DeriveAssetId(env, definition, chainId), supply)], None)]),
      [spend])
  }

  lemma AnchorApplies(env: Env, chainId: u32, definition: AssetDefinition, height: u64)
    ensures Applies(env, EMPTY_LEDGER, Anchor(definition), height, chainId)
    ensures ApplyTx(env, EMPTY_LEDGER, Anchor(definition), height, chainId).0
         == Ledger(map[UtxoKey(TxId(env, Anchor(definition).core), 0) :=
                     TrackedOutput(Output(definition.issuerScriptHash, [], None), height)], map[])
  {
    hide TxId, Applies, ApplyTx;
    var core := Anchor(definition).core;
    assert forall id :: OutputSum(core.outputs, 1, id) == OutputSum(core.outputs, 0, id) + Holds(core.outputs[0], id);
    AppliesMeans(env, EMPTY_LEDGER, Anchor(definition), height, chainId);
    assert Create(map[], TxId(env, core), core.outputs, 0, height) == map[];
  }

  lemma IssueWitness(env: Env, chainId: u32, utxos: Utxos, tx: Transaction, spent: Output, height: u64)
    requires tx.witnesses != [] && DecodeWitness(env, tx.witnesses[0]) == Some(InputWitness([], None))
    requires spent.ownerScriptHash == ScriptHash(env, []) && spent.metadataHash.None?
    ensures WitnessError(env, utxos, tx, height, chainId, 0, spent).None?
  {
    hide ScriptHash;
  }

  lemma IssueSums(env: Env, chainId: u32, utxos: Utxos, core: TransactionCore, id: AssetId, other: AssetId,
                  supply: u128)
    requires |core.inputs| == 1 && core.inputs[0] in utxos && utxos[core.inputs[0]].output.assets == []
    requires |core.outputs| == 1 && core.outputs[0].assets == [AssetAmount(id, supply)]
    ensures InputSum(utxos, core.inputs, 1, other) == 0
    ensures OutputSum(core.outputs, 1, other) == if other == id then supply else 0
  {
    var held: seq<AssetAmount> := core.outputs[0].assets;
    assert AssetSum(held, 1, other) == AssetSum(held, 0, other) + (if id == other then supply else 0);
    assert OutputSum(core.outputs, 1, other) == OutputSum(core.outputs, 0, other) + Holds(core.outputs[0], other);
    assert InputSum(utxos, core.inputs, 1, other)
        == InputSum(utxos, core.inputs, 0, other) + Holds(utxos[core.inputs[0]].output, other);
  }

  lemma IssueApplies(env: Env, chainId: u32, ledger: Ledger, definition: AssetDefinition, supply: u128, owner: Hash256,
                     spend: Bytes, height: u64)
    requires var tx := Issue(env, chainId, definition, supply, owner, spend);
      && tx.core.inputs[0] in ledger.utxos
      && ledger.utxos[tx.core.inputs[0]].output == Output(definition.issuerScriptHash, [], None)
    requires ledger.assets == map[]
    requires DecodeWitness(env, spend) == Some(InputWitness([], None))
    requires definition.issuerScriptHash == ScriptHash(env, [])
    requires DeriveAssetId(env, definition, chainId) != QCOIN_ASSET_ID
    requires definition.maxSupply.Some? ==> supply <= definition.maxSupply.value
    ensures Applies(env, ledger, Issue(env, chainId, definition, supply, owner, spend), height, chainId)
  {
    hide TxId, DeriveAssetId, Applies, WitnessError, InputSum, OutputSum, ScriptHash;
    var tx := Issue(env, chainId, definition, supply, owner, spend);
    var id := DeriveAssetId(env, definition, chainId);
    IssueWitness(env, chainId, ledger.utxos, tx, ledger.utxos[tx.core.inputs[0]].output, height);
    forall other
      ensures InputSum(ledger.utxos, tx.core.inputs, 1, other) == 0
      ensures OutputSum(tx.core.outputs, 1, other) == if other == id then supply else 0
    {
      IssueSums(env, chainId, ledger.utxos, tx.core, id, other, supply);
    }
    assert AuthorizesIssue(ledger.utxos, tx.core.inputs[0], definition, id);
    AppliesMeans(env, ledger, tx, height, chainId);
  }

  lemma AnchorFits(env: Env, definition: AssetDefinition)
    ensures CoreFits(env, Anchor(definition).core)
  {
    var outputs := Anchor(definition).core.outputs;
    assert forall id :: OutputSum(outputs, 1, id) == OutputSum(outputs, 0, id) + Holds(outputs[0], id);
  }

  lemma IssueFits(env: Env, chainId: u32, definition: AssetDefinition, supply: u128, owner: Hash256, spend: Bytes)
    ensures CoreFits(env, Issue(env, chainId, definition, supply, owner, spend).core)
  {
    hide TxId, DeriveAssetId, InputSum, OutputSum;
    var core, id := Issue(env, chainId, definition, supply, owner, spend).core, DeriveAssetId(env, definition, chainId);
    var utxos := map[core.inputs[0] := TrackedOutput(Output(owner, [], None), 0)];
    forall other
      ensures OutputSum(core.outputs, 1, other) <= U128_MAX
    {
      IssueSums(env, chainId, utxos, core, id, other, supply);
    }
  }

  /** From genesis, the two transactions succeed one after the other, at any heights, and all of the
      declared supply then exists. */
  lemma AnyoneCanIssue(env: Env, chainId: u32, definition: AssetDefinition, supply: u128, owner: Hash256, spend: Bytes,
                       h0: u64, h1: u64)
    requires DecodeWitness(env, spend) == Some(InputWitness([], None))
    requires definition.issuerScriptHash == ScriptHash(env, [])
    requires DeriveAssetId(env, definition, chainId) != QCOIN_ASSET_ID
    requires definition.maxSupply.Some? ==> supply <= definition.maxSupply.value
    requires TxId(env, Anchor(definition).core) != TxId(env, Issue(env, chainId, definition, supply, owner, spend).core)
    ensures var run := [Applied(Anchor(definition), h0),
                        Applied(Issue(env, chainId, definition, supply, owner, spend), h1)];
      var id := DeriveAssetId(env, definition, chainId);
      && Replay(env, chainId, run).Some? && DistinctIds(env, run)
      && id in Replay(env, chainId, run).value.assets
      && Total(Replay(env, chainId, run).value.utxos, id) == supply
  {
    hide TxId, DeriveAssetId, Applies, Total, ScriptHash, DistinctIds, CoreFits;
    var anchor, issue := Applied(Anchor(definition), h0),
      Applied(Issue(env, chainId, definition, supply, owner, spend), h1);
    var run, id := [anchor, issue], DeriveAssetId(env, definition, chainId);
    AnchorApplies(env, chainId, definition, h0);
    assert [anchor][..0] == [];
    assert Replay(env, chainId, []) == Some(EMPTY_LEDGER);
    var ledger := ApplyTx(env, EMPTY_LEDGER, anchor.tx, h0, chainId).0;
    assert Replay(env, chainId, [anchor]) == Some(ledger);
    IssueApplies(env, chainId, ledger, definition, supply, owner, spend, h1);
    assert run[..1] == [anchor];
    AppliesMeans(env, ledger, issue.tx, h1, chainId);
    TwoDistinctIds(env, anchor, issue);
    AnchorFits(env, definition);
    IssueFits(env, chainId, definition, supply, owner, spend);
    FixedSupply(env, chainId, run, id);
    assert Creates(env, chainId, run, 1, id);
  }

  lemma TwoDistinctIds(env: Env, a: Applied, b: Applied)
    requires TxId(env, a.tx.core) != TxId(env, b.tx.core)
    ensures DistinctIds(env, [a, b])
  {
    hide TxCoreBytes;
    var run := [a, b];
    forall x, y | x in CorePreimages(run) && y in CorePreimages(run) && Blake3(env, x) == Blake3(env, y)
      ensures x == y
    {
      var i :| 0 <= i < 2 && x == TxCoreBytes(run[i].tx.core);
      var j :| 0 <= j < 2 && y == TxCoreBytes(run[j].tx.core);
    }
  }
}

/** Inputs at which the ledger and the script machine do not do what one might expect, in any
    environment and either build. */
module Counterexamples {
  import opened Types
  import opened Codec
  import opened LedgerRules
  import Issuing
  import Keys
  import StackMachine

  // ----- a failed transaction that changes the ledger -----

  /** The ledger after genesis and one anchor owned by the issuer's script. */
  ghost function Anchored(env: Env, chainId: u32, definition: AssetDefinition, height: u64): Ledger {
    ApplyTx(env, EMPTY_LEDGER, Issuing.Anchor(definition), height, chainId).0
  }

  /** Spends the anchor, issues `supply` of the new asset, and one unit of another that it does not have. */
  function Overreaching(env: Env, chainId: u32, definition: AssetDefinition, supply: u128, other: AssetId,
                        spend: Bytes): Transaction {
    var id := DeriveAssetId(env, definition, chainId);
    Transaction(
      TransactionCore(
        CreateAsset(definition, supply),
        [UtxoKey(TxId(env, Issuing.Anchor(definition).core), 0)],
        [Output(definition.issuerScriptHash, [AssetAmount(id, supply), AssetAmount(other, 1)], None)]),
      [spend])
  }

  lemma TwoEntries(owner: Hash256, a: AssetAmount, b: AssetAmount, id: AssetId)
    requires a.assetId != b.assetId
    ensures OutputSum([Output(owner, [a, b], None)], 1, id)
         == if id == a.assetId then a.amount else if id == b.assetId then b.amount else 0
  {
    var outputs, held: seq<AssetAmount> := [Output(owner, [a, b], None)], [a, b];
    assert OutputSum(outputs, 1, id) == OutputSum(outputs, 0, id) + Holds(outputs[0], id);
    assert AssetSum(held, 2, id) == AssetSum(held, 1, id) + (if id == b.assetId then b.amount else 0);
    assert AssetSum(held, 1, id) == AssetSum(held, 0, id) + (if id == a.assetId then a.amount else 0);
  }

  lemma NothingSpent(utxos: Utxos, core: TransactionCore, id: AssetId)
    requires |core.inputs| == 1 && core.inputs[0] in utxos && utxos[core.inputs[0]].output.assets == []
    ensures InputSum(utxos, core.inputs, 1, id) == 0
  {
    assert InputSum(utxos, core.inputs, 1, id)
        == InputSum(utxos, core.inputs, 0, id) + Holds(utxos[core.inputs[0]].output, id);
  }

  /** The attempt fails on conservation, and yet its asset is registered afterwards. */
  lemma FailureRegisters(env: Env, chainId: u32, definition: AssetDefinition, supply: u128, other: AssetId,
                         spend: Bytes,
                         h0: u64, h1: u64)
    requires DecodeWitness(env, spend) == Some(InputWitness([], None))
    requires definition.issuerScriptHash == ScriptHash(env, [])
    requires DeriveAssetId(env, definition, chainId) !in {QCOIN_ASSET_ID, other}
    requires definition.maxSupply.Some? ==> supply <= definition.maxSupply.value
    ensures var ledger := Anchored(env, chainId, definition, h0);
      ApplyTx(env, ledger, Overreaching(env, chainId, definition, supply, other, spend), h1, chainId)
      == (Ledger(ledger.utxos, map[DeriveAssetId(env, definition, chainId) := definition]),
          Fail(AssetConservationViolation))
  {
    hide TxId, DeriveAssetId, ScriptHash, WitnessError, Added;
    var tx, ledger := Overreaching(env, chainId, definition, supply, other, spend),
      Anchored(env, chainId, definition, h0);
    var id, outputs := DeriveAssetId(env, definition, chainId), tx.core.outputs;
    Issuing.AnchorApplies(env, chainId, definition, h0);
    Issuing.IssueWitness(env, chainId, ledger.utxos, tx, ledger.utxos[tx.core.inputs[0]].output, h1);
    forall x
      ensures Added(env, InputSum(ledger.utxos, tx.core.inputs, 1, x)) == 0
      ensures InputSum(ledger.utxos, tx.core.inputs, 1, x) == 0
      ensures Added(env, OutputSum(outputs, 1, x)) == OutputSum(outputs, 1, x)
      ensures OutputSum(outputs, 1, x) == if x == id then supply else if x == other then 1 else 0
    {
      NothingSpent(ledger.utxos, tx.core, x);
      TwoEntries(definition.issuerScriptHash, AssetAmount(id, supply), AssetAmount(other, 1), x);
      AddedSmall(env, 0);
      AddedSmall(env, OutputSum(outputs, 1, x));
    }
    hide OutputSum, InputSum;
    assert AuthorizesIssue(ledger.utxos, tx.core.inputs[0], definition, id);
    EarlyMeans(env, ledger, tx, h1, chainId);
    assert Added(env, InputSum(ledger.utxos, tx.core.inputs, 1, other)) != Added(env, OutputSum(outputs, 1, other));
  }

  // ----- two of three signed, and refused -----

  /** Of three keys `a`, `b` and `c` in this order the first and the third have signed. That is two of
      three, and it is refused, unless the third signature happens to be the second key's too; with
      the second and third keys exchanged the same two signatures are enough. */
  lemma TwoOfThreeRefused(m: StackMachine.Machine, below: StackMachine.Items, a: Bytes, b: Bytes, c: Bytes, byA: Bytes,
                          byC: Bytes)
    requires Keys.PublicKeyFromBytes(m.env, a).Ok? && Keys.PublicKeyFromBytes(m.env, b).Ok?
    requires Keys.PublicKeyFromBytes(m.env, c).Ok?
    requires Keys.SignatureFromBytes(m.env, byA).Ok? && Keys.SignatureFromBytes(m.env, byC).Ok?
    requires var first, third := Keys.SignatureFromBytes(m.env, byA).value, Keys.SignatureFromBytes(m.env, byC).value;
      && StackMachine.SignatureHolds(m, Keys.PublicKeyFromBytes(m.env, a).value, first)
      && StackMachine.SignatureHolds(m, Keys.PublicKeyFromBytes(m.env, c).value, third)
      && !StackMachine.SignatureHolds(m, Keys.PublicKeyFromBytes(m.env, b).value, third)
    ensures StackMachine.StepCheckMultiSig(m, 2, 3, below + [c, b, a, byC, byA]).Err?
    ensures StackMachine.StepCheckMultiSig(m, 2, 3, below + [b, c, a, byC, byA]) == Ok(below)
  {
    hide Keys.PublicKeyFromBytes, Keys.SignatureFromBytes, StackMachine.StepCheckMultiSig, StackMachine.SignatureHolds;
    var refused, accepted := below + [c, b, a, byC, byA], below + [b, c, a, byC, byA];
    StackMachine.MultiSigPairsInOrder(m, 2, 3, refused);
    assert !StackMachine.PairHolds(m, refused, 2, 1);
    StackMachine.MultiSigPairsInOrder(m, 2, 3, accepted);
    assert StackMachine.PairHolds(m, accepted, 2, 0) && StackMachine.PairHolds(m, accepted, 2, 1);
    assert accepted[..|below|] == below;
  }
}

/** What the ledger does not promise, and exactly when it keeps the promise anyway. */
module Limits {
  import opened Types
  import opened Codec
  import opened LedgerRules
  import opened Supply

  /** A failed transaction is not atomic. Its UTXOs are untouched, but the ledger has changed exactly
      when an issue passed every check but the conservation of the other assets: its id is then
      registered, and on that ledger the asset can no longer be issued by anyone. */
  lemma FailureChangesLedgerExactly(env: Env, ledger: Ledger, tx: Transaction, height: u64, chainId: u32)
    requires !Applies(env, ledger, tx, height, chainId)
    ensures var after := ApplyTx(env, ledger, tx, height, chainId).0;
      && after.utxos == ledger.utxos
      && (after != ledger <==>
            && tx.core.kind.CreateAsset?
            && ReservedError(env, ledger.assets, tx.core, chainId).None?
            && DistinctInputs(tx.core.inputs)
            && (forall i :: 0 <= i < |tx.core.inputs| ==>
                 && tx.core.inputs[i] in ledger.utxos
                 && WitnessError(env, ledger.utxos, tx, height, chainId, i,
                                 ledger.utxos[tx.core.inputs[i]].output).None?)
            && (env.build.Checked? ==>
              InputsFit(ledger.utxos, tx.core.inputs, |tx.core.inputs|) && OutputsFit(tx.core.outputs))
            && IssueError(env, ledger.utxos, tx.core, chainId).None?)
      && (after != ledger ==>
            forall other: Transaction, h: u64 ::
              other.core.kind.CreateAsset? && other.core.kind.definition == tx.core.kind.definition
              ==> !Applies(env, after, other, h, chainId))
  {
    hide InputsError, InputsFit, OutputsFit, Conserves, IssueError, DeriveAssetId, WitnessError, DistinctInputs;
    EarlyMeans(env, ledger, tx, height, chainId);
  }

  lemma {:induction false} NothingOut(outputs: seq<Output>, n: nat, id: AssetId)
    requires n <= |outputs| && forall j :: 0 <= j < |outputs| ==> Holds(outputs[j], id) == 0
    ensures OutputSum(outputs, n, id) == 0
  {
    if n > 0 {
      NothingOut(outputs, n - 1, id);
    }
  }

  /** A transfer without inputs applies exactly when its outputs carry nothing, or, where sums wrap,
      when what they carry of each asset wraps to nothing; and then on every ledger. Which other
      transactions can succeed more than once is the subject of Repeats. */
  lemma InputlessTransferApplies(env: Env, ledger: Ledger, tx: Transaction, height: u64, chainId: u32)
    requires tx.core.kind.Transfer? && tx.core.inputs == []
    ensures Applies(env, ledger, tx, height, chainId)
       <==> forall id :: Added(env, OutputSum(tx.core.outputs, |tx.core.outputs|, id)) == 0
    ensures CoreFits(env, tx.core) ==> (Applies(env, ledger, tx, height, chainId) <==> !ValueBearing(tx.core))
  {
    hide Applies, Holds, ValueBearing, OutputSum, Added;
    var outputs := tx.core.outputs;
    AppliesMeans(env, ledger, tx, height, chainId);
    AddedSmall(env, 0);
    NothingIn(ledger.utxos, tx.core.inputs);
    ConservesNothing(env, ledger.utxos, tx.core, chainId);
    if env.build.Checked? && forall id :: Added(env, OutputSum(outputs, |outputs|, id)) == 0 {
      CheckedZeroFits(env, outputs);
    }
    if CoreFits(env, tx.core) {
      ZeroIsNoValue(env, tx.core);
    }
  }

  lemma NothingIn(utxos: Utxos, inputs: seq<UtxoKey>)
    requires inputs == []
    ensures InputsFit(utxos, inputs, 0) && DistinctInputs(inputs)
  {
  }

  lemma ConservesNothing(env: Env, utxos: Utxos, core: TransactionCore, chainId: u32)
    requires core.kind.Transfer? && core.inputs == []
    ensures Conserves(env, utxos, core, chainId)
      <==> forall id :: Added(env, OutputSum(core.outputs, |core.outputs|, id)) == 0
  {
    forall id
      ensures Added(env, InputSum(utxos, core.inputs, |core.inputs|, id)) == 0
    {
      AddedSmall(env, 0);
    }
    hide Added;
    if forall id :: Added(env, OutputSum(core.outputs, |core.outputs|, id)) == 0 {
      forall id
        ensures Added(env, InputSum(utxos, core.inputs, |core.inputs|, id))
             == Added(env, OutputSum(core.outputs, |core.outputs|, id))
      {
        assert Added(env, OutputSum(core.outputs, |core.outputs|, id)) == 0;
      }
    } else {
      var id :| Added(env, OutputSum(core.outputs, |core.outputs|, id)) != 0;
      assert Added(env, InputSum(utxos, core.inputs, |core.inputs|, id)) == 0;
      assert Added(env, InputSum(utxos, core.inputs, |core.inputs|, id)) != Added(env,
        OutputSum(core.outputs, |core.outputs|, id));
      assert CreatedId(env, core, chainId) == None;
      assert !Conserves(env, utxos, core, chainId);
    }
  }

  lemma CheckedZeroFits(env: Env, outputs: seq<Output>)
    requires env.build.Checked? && forall id :: Added(env, OutputSum(outputs, |outputs|, id)) == 0
    ensures OutputsFit(outputs)
  {
    hide OutputSum;
    forall id
      ensures OutputSum(outputs, |outputs|, id) <= U128_MAX
    {
      assert Added(env, OutputSum(outputs, |outputs|, id)) == 0;
    }
  }

  lemma ZeroIsNoValue(env: Env, core: TransactionCore)
    requires CoreFits(env, core)
    ensures (forall id :: Added(env, OutputSum(core.outputs, |core.outputs|, id)) == 0) <==> !ValueBearing(core)
  {
    hide Holds;
    var outputs := core.outputs;
    if ValueBearing(core) {
      var j, id :| 0 <= j < |outputs| && Holds(outputs[j], id) > 0;
      OutputSumFinds(outputs, |outputs|, j, id);
      assert Added(env, OutputSum(outputs, |outputs|, id)) == OutputSum(outputs, |outputs|, id);
    } else {
      forall id
        ensures Added(env, OutputSum(outputs, |outputs|, id)) == 0
      {
        NothingOut(outputs, |outputs|, id);
      }
    }
  }
}

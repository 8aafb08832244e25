/** A transaction that applies keeps applying while the chain ages: to the same outputs seen at a
    greater height, none of them younger or made earlier, under a registry that has lost names or
    kept them. */
module Aging {
  import opened Types
  import opened Codec
  import opened LedgerRules
  import StackMachine

  ghost predicate AgedUtxos(utxos: Utxos, h: u64, later: Utxos, h': u64) {
    && later.Keys == utxos.Keys
    && forall k :: k in utxos ==>
         && later[k].output == utxos[k].output
         && h - utxos[k].createdHeight <= h' - later[k].createdHeight
         && utxos[k].createdHeight <= later[k].createdHeight
  }

  /** `later` at height `h'` is `ledger` at height `h`, aged. */
  ghost predicate Aged(ledger: Ledger, h: u64, later: Ledger, h': u64) {
    && h <= h'
    && later.assets.Keys <= ledger.assets.Keys
    && AgedUtxos(ledger.utxos, h, later.utxos, h')
  }

  lemma AgedByWaiting(ledger: Ledger, h: u64, h': u64)
    requires h <= h'
    ensures Aged(ledger, h, ledger, h')
  {
  }

  lemma {:induction false} AgedSums(utxos: Utxos, later: Utxos, inputs: seq<UtxoKey>, n: nat, id: AssetId)
    requires n <= |inputs|
    requires later.Keys == utxos.Keys && forall k :: k in utxos ==> later[k].output == utxos[k].output
    ensures InputSum(later, inputs, n, id) == InputSum(utxos, inputs, n, id)
  {
    if n > 0 {
      AgedSums(utxos, later, inputs, n - 1, id);
    }
  }

  /** What unlocks an output unlocks it later, when it is no younger, whatever else is there. */
  lemma SpendStillUnlocks(env: Env, utxos: Utxos, h: u64, later: Utxos, h': u64, tx: Transaction, chainId: u32, i: u32)
    requires i < |tx.core.inputs| && tx.core.inputs[i] in utxos && tx.core.inputs[i] in later && h <= h'
    requires var key := tx.core.inputs[i];
      && later[key].output == utxos[key].output
      && h - utxos[key].createdHeight <= h' - later[key].createdHeight
      && (env.build.Wrapping? ==> utxos[key].createdHeight <= later[key].createdHeight)
      && WitnessError(env, utxos, tx, h, chainId, i, utxos[key].output).None?
    ensures WitnessError(env, later, tx, h', chainId, i, later[tx.core.inputs[i]].output).None?
  {
    hide ScriptHash, StackMachine.Eval, MetadataMatches;
    var owner := utxos[tx.core.inputs[i]].output.ownerScriptHash;
    var m := InputMachine(env, utxos, tx, h, chainId, i, owner);
    var m' := InputMachine(env, later, tx, h', chainId, i, owner);
    assert StackMachine.SeenLater(m, m');
    StackMachine.EvalSeenLater(m, m', DecodeWitness(env, tx.witnesses[i]).value.script);
  }

  lemma AgedIssue(env: Env, ledger: Ledger, h: u64, later: Ledger, h': u64, core: TransactionCore, chainId: u32)
    requires Aged(ledger, h, later, h')
    requires ReservedError(env, ledger.assets, core, chainId).None?
    requires IssueError(env, ledger.utxos, core, chainId).None?
    ensures ReservedError(env, later.assets, core, chainId).None?
    ensures IssueError(env, later.utxos, core, chainId).None?
  {
    hide DeriveAssetId;
    match core.kind {
      case Transfer =>
      case CreateAsset(definition, _) =>
        var id := DeriveAssetId(env, definition, chainId);
        AgedSums(ledger.utxos, later.utxos, core.inputs, |core.inputs|, id);
        var i :| 0 <= i < |core.inputs| && AuthorizesIssue(ledger.utxos, core.inputs[i], definition, id);
        assert AuthorizesIssue(later.utxos, core.inputs[i], definition, id);
    }
  }

  lemma AgedConsume(utxos: Utxos, h: u64, later: Utxos, h': u64, inputs: seq<UtxoKey>)
    requires AgedUtxos(utxos, h, later, h')
    ensures AgedUtxos(Consume(utxos, inputs, |inputs|), h, Consume(later, inputs, |inputs|), h')
  {
    ConsumeLeaves(utxos, inputs, |inputs|);
    ConsumeLeaves(later, inputs, |inputs|);
  }

  lemma AgedCreate(utxos: Utxos, h: u64, later: Utxos, h': u64, txId: Hash256, outputs: Vec<Output>)
    requires h <= h' && AgedUtxos(utxos, h, later, h')
    ensures AgedUtxos(Create(utxos, txId, outputs, |outputs|, h), h, Create(later, txId, outputs, |outputs|, h'), h')
  {
    hide Create;
    CreateAdds(utxos, txId, outputs, |outputs|, h);
    CreateAdds(later, txId, outputs, |outputs|, h');
  }

  lemma AgedEffect(env: Env, ledger: Ledger, h: u64, later: Ledger, h': u64, core: TransactionCore, chainId: u32)
    requires Aged(ledger, h, later, h')
    ensures Aged(Effect(env, ledger, core, h, chainId), h, Effect(env, later, core, h', chainId), h')
  {
    hide TxId, DeriveAssetId, Consume, Create;
    var n := |core.inputs|;
    AgedConsume(ledger.utxos, h, later.utxos, h', core.inputs);
    AgedCreate(Consume(ledger.utxos, core.inputs, n), h, Consume(later.utxos, core.inputs, n), h',
               TxId(env, core), core.outputs);
  }

  lemma StillApplies(env: Env, ledger: Ledger, h: u64, later: Ledger, h': u64, tx: Transaction, chainId: u32)
    requires Aged(ledger, h, later, h')
    requires Applies(env, ledger, tx, h, chainId)
    ensures Applies(env, later, tx, h', chainId)
    ensures Aged(ApplyTx(env, ledger, tx, h, chainId).0, h, ApplyTx(env, later, tx, h', chainId).0, h')
  {
    hide Applies, ApplyTx, ReservedError, IssueError, WitnessError, OutputsFit, Effect;
    AppliesMeans(env, ledger, tx, h, chainId);
    forall i | 0 <= i < |tx.core.inputs|
      ensures tx.core.inputs[i] in later.utxos
      ensures WitnessError(env, later.utxos, tx, h', chainId, i, later.utxos[tx.core.inputs[i]].output).None?
    {
      SpendStillUnlocks(env, ledger.utxos, h, later.utxos, h', tx, chainId, i);
    }
    forall id
      ensures InputSum(later.utxos, tx.core.inputs, |tx.core.inputs|, id)
           == InputSum(ledger.utxos, tx.core.inputs, |tx.core.inputs|, id)
    {
      AgedSums(ledger.utxos, later.utxos, tx.core.inputs, |tx.core.inputs|, id);
    }
    AgedIssue(env, ledger, h, later, h', tx.core, chainId);
    AppliesMeans(env, later, tx, h', chainId);
    AgedEffect(env, ledger, h, later, h', tx.core, chainId);
  }

  /** The same for a list applied in order: a valid pool stays valid while nothing is mined. */
  lemma {:induction false} AllStillApply(env: Env, ledger: Ledger, h: u64, later: Ledger, h': u64,
                                         txs: seq<Transaction>, n: nat, chainId: u32)
    requires Aged(ledger, h, later, h') && n <= |txs|
    requires ApplyTxs(env, ledger, txs, n, h, chainId).1.Pass?
    ensures ApplyTxs(env, later, txs, n, h', chainId).1.Pass?
    ensures Aged(ApplyTxs(env, ledger, txs, n, h, chainId).0, h, ApplyTxs(env, later, txs, n, h', chainId).0, h')
  {
    hide ApplyTx, Aged;
    if n > 0 {
      AllStillApply(env, ledger, h, later, h', txs, n - 1, chainId);
      StillApplies(env, ApplyTxs(env, ledger, txs, n - 1, h, chainId).0, h,
                   ApplyTxs(env, later, txs, n - 1, h', chainId).0, h', txs[n - 1], chainId);
    }
  }

  /** A failed attempt can only add a name to the registry, so it leaves a ledger that the one
      before it is an aged version of. */
  lemma FailureOnlyRegisters(env: Env, ledger: Ledger, clean: Ledger, h: u64, tx: Transaction, chainId: u32)
    requires Aged(ledger, h, clean, h) && !Applies(env, ledger, tx, h, chainId)
    ensures ApplyTx(env, ledger, tx, h, chainId).0.utxos == ledger.utxos
    ensures Aged(ApplyTx(env, ledger, tx, h, chainId).0, h, clean, h)
  {
    hide EarlyError, Conserves, DeriveAssetId;
  }
}

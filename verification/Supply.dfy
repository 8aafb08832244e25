/** Fixed supply: over any whole run from the empty ledger, the total of every asset is what its
    one creation minted, and no output that carries value is ever created or spent twice. */
module Supply {
  import opened Types
  import opened Codec
  import opened LedgerRules

  // ----- the total of an asset over a UTXO set -----

  ghost function Total(utxos: Utxos, id: AssetId): nat {
    if utxos == map[] then 0
    else
      var k :| k in utxos;
      Holds(utxos[k].output, id) + Total(utxos - {k}, id)
  }

  lemma {:induction false} TotalWithout(utxos: Utxos, k: UtxoKey, id: AssetId)
    requires k in utxos
    ensures Total(utxos, id) == Holds(utxos[k].output, id) + Total(utxos - {k}, id)
    decreases |utxos|
  {
    var j :| j in utxos && Total(utxos, id) == Holds(utxos[j].output, id) + Total(utxos - {j}, id);
    if j != k {
      TotalWithout(utxos - {j}, k, id);
      TotalWithout(utxos - {k}, j, id);
      assert utxos - {j} - {k} == utxos - {k} - {j};
    }
  }

  lemma TotalWith(utxos: Utxos, k: UtxoKey, t: TrackedOutput, id: AssetId)
    requires k in utxos ==> Holds(utxos[k].output, id) == 0
    ensures Total(utxos[k := t], id) == Total(utxos, id) + Holds(t.output, id)
  {
    TotalWithout(utxos[k := t], k, id);
    assert utxos[k := t] - {k} == utxos - {k};
    if k in utxos {
      TotalWithout(utxos, k, id);
    } else {
      assert utxos - {k} == utxos;
    }
  }

  lemma {:induction false} TotalAfterConsume(utxos: Utxos, inputs: seq<UtxoKey>, n: nat, id: AssetId)
    requires n <= |inputs| && DistinctInputs(inputs)
    requires forall i :: 0 <= i < n ==> inputs[i] in utxos
    ensures Total(Consume(utxos, inputs, n), id) + InputSum(utxos, inputs, n, id) == Total(utxos, id)
  {
    hide Holds, Total;
    if n > 0 {
      TotalAfterConsume(utxos, inputs, n - 1, id);
      ConsumeLeaves(utxos, inputs, n - 1);
      assert inputs[n - 1] !in inputs[..n - 1];
      TotalWithout(Consume(utxos, inputs, n - 1), inputs[n - 1], id);
    }
  }

  lemma {:induction false} TotalAfterCreate(utxos: Utxos, txId: Hash256, outputs: Vec<Output>, n: nat, height: u64,
                                            id: AssetId)
    requires n <= |outputs|
    requires forall k :: k in utxos && k.txId == txId && k.index < n ==> Holds(utxos[k].output, id) == 0
    ensures Total(Create(utxos, txId, outputs, n, height), id) == Total(utxos, id) + OutputSum(outputs, n, id)
  {
    if n > 0 {
      TotalAfterCreate(utxos, txId, outputs, n - 1, height, id);
      CreateAdds(utxos, txId, outputs, n - 1, height);
      TotalWith(Create(utxos, txId, outputs, n - 1, height), UtxoKey(txId, n - 1),
                TrackedOutput(outputs[n - 1], height), id);
    }
  }

  // ----- whole runs -----

  /** One attempt that succeeded: the transaction and the height it was applied at. */
  datatype Applied = Applied(tx: Transaction, height: u64)

  /** The ledger after a run from the empty one, if every transaction of the run succeeds. */
  ghost function Replay(env: Env, chainId: u32, run: seq<Applied>): Option<Ledger> {
    if run == [] then Some(EMPTY_LEDGER)
    else
      var last := run[|run| - 1];
      match Replay(env, chainId, run[..|run| - 1])
      case None => None
      case Some(before) =>
        if Applies(env, before, last.tx, last.height, chainId)
        then Some(ApplyTx(env, before, last.tx, last.height, chainId).0) else None
  }

  /** The strings hashed into transaction ids by a run. */
  ghost function CorePreimages(run: seq<Applied>): set<Bytes> {
    set i | 0 <= i < |run| :: TxCoreBytes(run[i].tx.core)
  }

  ghost predicate DistinctIds(env: Env, run: seq<Applied>) {
    CollisionFree(env, CorePreimages(run))
  }

  lemma SameIdSameCore(env: Env, run: seq<Applied>, i: nat, j: nat)
    requires DistinctIds(env, run) && i < |run| && j < |run|
    requires TxId(env, run[i].tx.core) == TxId(env, run[j].tx.core)
    ensures run[i].tx.core == run[j].tx.core
  {
    assert TxCoreBytes(run[i].tx.core) in CorePreimages(run);
    assert TxCoreBytes(run[j].tx.core) in CorePreimages(run);
    TxCoreInjective(run[i].tx.core, run[j].tx.core);
  }

  lemma DistinctIdsOfPrefix(env: Env, run: seq<Applied>)
    requires DistinctIds(env, run) && run != []
    ensures DistinctIds(env, run[..|run| - 1])
  {
    var prefix := run[..|run| - 1];
    forall b | b in CorePreimages(prefix)
      ensures b in CorePreimages(run)
    {
      var i :| 0 <= i < |prefix| && b == TxCoreBytes(prefix[i].tx.core);
      assert run[i] == prefix[i];
    }
  }

  /** Where sums wrap, what is proved of amounts needs the outputs of each transaction to add up to no
      more than a u128. A checked build sees to that itself. */
  ghost predicate CoreFits(env: Env, core: TransactionCore) {
    env.build.Wrapping? ==> OutputsFit(core.outputs)
  }

  ghost predicate SumsFit(env: Env, run: seq<Applied>) {
    forall i :: 0 <= i < |run| ==> CoreFits(env, run[i].tx.core)
  }

  ghost predicate ValueBearing(core: TransactionCore) {
    exists j, id :: 0 <= j < |core.outputs| && Holds(core.outputs[j], id) > 0
  }

  /** Step `i` of the run made the output found at `k`. */
  ghost predicate MadeBy(env: Env, run: seq<Applied>, i: nat, k: UtxoKey) {
    i < |run| && TxId(env, run[i].tx.core) == k.txId
  }

  ghost predicate MadeExactly(env: Env, run: seq<Applied>, i: nat, k: UtxoKey, output: Output) {
    && MadeBy(env, run, i, k)
    && k.index < |run[i].tx.core.outputs|
    && run[i].tx.core.outputs[k.index] == output
  }

  // Every UTXO was made by some step.
  ghost predicate OriginsKnown(env: Env, run: seq<Applied>, utxos: Utxos) {
    forall k :: k in utxos ==> exists i: nat :: MadeExactly(env, run, i, k, utxos[k].output)
  }

  // Every input was made before it was spent.
  ghost predicate InputsMadeBefore(env: Env, run: seq<Applied>) {
    forall i, k :: 0 <= i < |run| && k in run[i].tx.core.inputs ==> exists m: nat :: m < i && MadeBy(env, run, m, k)
  }

  // A spent output is only there again if some later step (or the spender) made it again.
  ghost predicate SpentOrRemade(env: Env, run: seq<Applied>, utxos: Utxos) {
    forall i, k :: 0 <= i < |run| && k in run[i].tx.core.inputs && k in utxos ==>
      exists m: nat :: i <= m && MadeBy(env, run, m, k)
  }

  ghost predicate ValueOnce(run: seq<Applied>) {
    forall i, j :: 0 <= i < j < |run| && run[i].tx.core == run[j].tx.core ==> !ValueBearing(run[i].tx.core)
  }

  /** Step `i` created asset `id`. */
  ghost predicate Creates(env: Env, chainId: u32, run: seq<Applied>, i: nat, id: AssetId) {
    i < |run| && CreatedId(env, run[i].tx.core, chainId) == Some(id)
  }

  // The registry holds exactly the created assets, each created by one step.
  ghost predicate RegistryExact(env: Env, chainId: u32, run: seq<Applied>, assets: map<AssetId, AssetDefinition>) {
    && QCOIN_ASSET_ID !in assets
    && (forall id :: id in assets ==>
          exists i: nat :: Creates(env, chainId, run, i, id) && run[i].tx.core.kind.definition == assets[id])
    && (forall i: nat, id :: Creates(env, chainId, run, i, id) ==> id in assets)
    && (forall i: nat, j: nat, id :: Creates(env, chainId, run, i, id) && Creates(env, chainId, run, j, id) ==> i == j)
  }

  /** What the run has minted of `id`. */
  ghost function Minted(env: Env, chainId: u32, run: seq<Applied>, id: AssetId): nat {
    if run == [] then 0
    else
      Minted(env, chainId, run[..|run| - 1], id)
      + (if Creates(env, chainId, run, |run| - 1, id) then run[|run| - 1].tx.core.kind.initialSupply else 0)
  }

  ghost predicate SupplyExact(env: Env, chainId: u32, run: seq<Applied>, utxos: Utxos) {
    forall id :: Total(utxos, id) == Minted(env, chainId, run, id)
  }

  /** Where everything in a ledger comes from. */
  ghost predicate Traced(env: Env, chainId: u32, run: seq<Applied>, ledger: Ledger) {
    && OriginsKnown(env, run, ledger.utxos)
    && InputsMadeBefore(env, run)
    && SpentOrRemade(env, run, ledger.utxos)
    && RegistryExact(env, chainId, run, ledger.assets)
  }

  ghost predicate Inv(env: Env, chainId: u32, run: seq<Applied>, ledger: Ledger) {
    && Traced(env, chainId, run, ledger)
    && ValueOnce(run)
    && SupplyExact(env, chainId, run, ledger.utxos)
  }

  // ----- one step -----

  lemma {:induction false} OutputSumFinds(outputs: seq<Output>, n: nat, j: nat, id: AssetId)
    requires j < n <= |outputs|
    ensures Holds(outputs[j], id) <= OutputSum(outputs, n, id)
  {
    if j < n - 1 {
      OutputSumFinds(outputs, n - 1, j, id);
    }
  }

  lemma {:induction false} InputSumFound(utxos: Utxos, inputs: seq<UtxoKey>, n: nat, id: AssetId) returns (i: nat)
    requires n <= |inputs| && InputSum(utxos, inputs, n, id) > 0
    ensures i < n && inputs[i] in utxos && Holds(utxos[inputs[i]].output, id) > 0
  {
    if InputSum(utxos, inputs, n - 1, id) > 0 {
      i := InputSumFound(utxos, inputs, n - 1, id);
    } else {
      i := n - 1;
    }
  }

  /** No build's running total is involved here: amounts as they are. */
  ghost predicate Balances(env: Env, utxos: Utxos, core: TransactionCore, chainId: u32) {
    && (forall id :: Some(id) != CreatedId(env, core, chainId) ==>
         InputSum(utxos, core.inputs, |core.inputs|, id) == OutputSum(core.outputs, |core.outputs|, id))
    && (core.kind.CreateAsset? ==>
         var id := DeriveAssetId(env, core.kind.definition, chainId);
         && InputSum(utxos, core.inputs, |core.inputs|, id) == 0
         && OutputSum(core.outputs, |core.outputs|, id) == core.kind.initialSupply)
  }

  /** With sums that fit, a success balances exactly. */
  lemma FittingSuccessBalances(env: Env, ledger: Ledger, tx: Transaction, height: u64, chainId: u32)
    requires Applies(env, ledger, tx, height, chainId)
    requires InputsFit(ledger.utxos, tx.core.inputs, |tx.core.inputs|) && OutputsFit(tx.core.outputs)
    ensures Balances(env, ledger.utxos, tx.core, chainId)
  {
    hide Applies, InputSum, OutputSum, DeriveAssetId, Added, ReservedError, WitnessError, IssueAuthorized;
    AppliesMeans(env, ledger, tx, height, chainId);
    forall id
      ensures Added(env, InputSum(ledger.utxos, tx.core.inputs, |tx.core.inputs|, id))
           == InputSum(ledger.utxos, tx.core.inputs, |tx.core.inputs|, id)
      ensures Added(env, OutputSum(tx.core.outputs, |tx.core.outputs|, id))
        == OutputSum(tx.core.outputs, |tx.core.outputs|, id)
    {
      AddedSmall(env, InputSum(ledger.utxos, tx.core.inputs, |tx.core.inputs|, id));
      AddedSmall(env, OutputSum(tx.core.outputs, |tx.core.outputs|, id));
    }
  }

  lemma MintedFits(env: Env, chainId: u32, run: seq<Applied>, assets: map<AssetId, AssetDefinition>, id: AssetId)
    requires RegistryExact(env, chainId, run, assets)
    ensures Minted(env, chainId, run, id) <= U128_MAX
    ensures id !in assets ==> Minted(env, chainId, run, id) == 0
  {
    hide Minted;
    if i: nat :| Creates(env, chainId, run, i, id) {
      MintedOnce(env, chainId, run, i, id);
    } else {
      MintedNever(env, chainId, run, id);
    }
  }

  /** The inputs of any transaction fit, because they are part of what was minted. */
  lemma InputsFitAfter(env: Env, chainId: u32, run: seq<Applied>, ledger: Ledger, inputs: seq<UtxoKey>, n: nat)
    requires RegistryExact(env, chainId, run, ledger.assets) && SupplyExact(env, chainId, run, ledger.utxos)
    requires DistinctInputs(inputs) && n <= |inputs| && forall i :: 0 <= i < n ==> inputs[i] in ledger.utxos
    ensures InputsFit(ledger.utxos, inputs, n)
  {
    hide Holds, Total, RegistryExact, InputSum;
    forall id
      ensures InputSum(ledger.utxos, inputs, n, id) <= U128_MAX
    {
      TotalAfterConsume(ledger.utxos, inputs, n, id);
      MintedFits(env, chainId, run, ledger.assets, id);
    }
  }

  lemma SuccessBalances(env: Env, chainId: u32, run: seq<Applied>, ledger: Ledger, next: Applied)
    requires Inv(env, chainId, run, ledger) && CoreFits(env, next.tx.core)
    requires Applies(env, ledger, next.tx, next.height, chainId)
    ensures Balances(env, ledger.utxos, next.tx.core, chainId)
  {
    hide Applies, OriginsKnown, InputsMadeBefore, SpentOrRemade, ValueOnce, RegistryExact, SupplyExact, InputsFit,
         OutputsFit,
         Balances, WitnessError;
    AppliesMeans(env, ledger, next.tx, next.height, chainId);
    InputsFitAfter(env, chainId, run, ledger, next.tx.core.inputs, |next.tx.core.inputs|);
    FittingSuccessBalances(env, ledger, next.tx, next.height, chainId);
  }

  /** A transaction whose outputs carry value spends value, unless all of it is newly minted. */
  lemma ValueComesFromSomewhere(env: Env, utxos: Utxos, core: TransactionCore, chainId: u32)
    returns (id: AssetId, i: nat)
    requires Balances(env, utxos, core, chainId) && ValueBearing(core)
    ensures CreatedId(env, core, chainId) == Some(id)
         || (i < |core.inputs| && core.inputs[i] in utxos && Holds(utxos[core.inputs[i]].output, id) > 0)
  {
    var j: nat, a :| j < |core.outputs| && Holds(core.outputs[j], a) > 0;
    id, i := a, 0;
    OutputSumFinds(core.outputs, |core.outputs|, j, a);
    if CreatedId(env, core, chainId) != Some(a) {
      i := InputSumFound(utxos, core.inputs, |core.inputs|, a);
    }
  }

  /** An asset that the run has created cannot be created again. */
  lemma NoSecondCreation(env: Env, chainId: u32, run: seq<Applied>, ledger: Ledger, next: Applied, first: nat,
                         id: AssetId)
    requires RegistryExact(env, chainId, run, ledger.assets)
    requires Applies(env, ledger, next.tx, next.height, chainId)
    requires first < |run| && run[first].tx.core == next.tx.core
    ensures CreatedId(env, next.tx.core, chainId) != Some(id)
  {
    hide Applies, DeriveAssetId, IssueError, WitnessError, Conserves, InputsFit, OutputsFit;
    AppliesMeans(env, ledger, next.tx, next.height, chainId);
    assert Creates(env, chainId, run, first, id) <==> CreatedId(env, next.tx.core, chainId) == Some(id);
  }

  /** The heart of the matter: a core that has already succeeded cannot succeed again if it
      carries value, because it would have to spend value that its first success consumed. */
  lemma NoSecondSuccess(env: Env, chainId: u32, run: seq<Applied>, ledger: Ledger, next: Applied, first: nat)
    requires Inv(env, chainId, run, ledger) && DistinctIds(env, run) && CoreFits(env, next.tx.core)
    requires Applies(env, ledger, next.tx, next.height, chainId)
    requires first < |run| && run[first].tx.core == next.tx.core
    ensures !ValueBearing(next.tx.core)
  {
    hide Applies, TxId, SupplyExact, RegistryExact, Holds, CoreFits, Balances;
    SuccessBalances(env, chainId, run, ledger, next);
    if ValueBearing(next.tx.core) {
      var id, i := ValueComesFromSomewhere(env, ledger.utxos, next.tx.core, chainId);
      NoSecondCreation(env, chainId, run, ledger, next, first, id);
      var k := next.tx.core.inputs[i];
      assert k in run[first].tx.core.inputs;
      var before: nat :| before < first && MadeBy(env, run, before, k);
      var after: nat :| first <= after && MadeBy(env, run, after, k);
      var maker: nat :| MadeExactly(env, run, maker, k, ledger.utxos[k].output);
      SameIdSameCore(env, run, before, after);
      SameIdSameCore(env, run, before, maker);
      assert false;
    }
  }

  /** So an output that the insert would overwrite carries nothing. */
  lemma OverwrittenCarriesNothing(env: Env, chainId: u32, run: seq<Applied>, ledger: Ledger, next: Applied,
                                  k: UtxoKey, id: AssetId)
    requires Inv(env, chainId, run, ledger) && DistinctIds(env, run + [next]) && CoreFits(env, next.tx.core)
    requires Applies(env, ledger, next.tx, next.height, chainId)
    requires k in ledger.utxos && k.txId == TxId(env, next.tx.core)
    ensures Holds(ledger.utxos[k].output, id) == 0
  {
    hide TxId, Holds, InputsMadeBefore, SpentOrRemade, ValueOnce, RegistryExact, SupplyExact, Applies;
    var whole := run + [next];
    var maker: nat :| MadeExactly(env, run, maker, k, ledger.utxos[k].output);
    assert whole[maker] == run[maker] && whole[|run|] == next;
    SameIdSameCore(env, whole, maker, |run|);
    DistinctIdsOfPrefix(env, whole);
    assert whole[..|whole| - 1] == run;
    NoSecondSuccess(env, chainId, run, ledger, next, maker);
    if Holds(ledger.utxos[k].output, id) > 0 {
      assert false;
    }
  }

  lemma StepKeepsOrigins(env: Env, chainId: u32, run: seq<Applied>, ledger: Ledger, next: Applied)
    requires Traced(env, chainId, run, ledger)
    requires Applies(env, ledger, next.tx, next.height, chainId)
    ensures var after := ApplyTx(env, ledger, next.tx, next.height, chainId).0;
      && OriginsKnown(env, run + [next], after.utxos)
      && InputsMadeBefore(env, run + [next])
      && SpentOrRemade(env, run + [next], after.utxos)
  {
    hide TxId, Applies, ApplyTx, RegistryExact, Register;
    hide WitnessError, ReservedError, IssueError, Conserves, InputsFit, OutputsFit;
    var whole, core := run + [next], next.tx.core;
    var after := ApplyTx(env, ledger, next.tx, next.height, chainId).0;
    var id := TxId(env, core);
    ConsumeLeaves(ledger.utxos, core.inputs, |core.inputs|);
    CreateAdds(Consume(ledger.utxos, core.inputs, |core.inputs|), id, core.outputs, |core.outputs|, next.height);
    AppliesMeans(env, ledger, next.tx, next.height, chainId);
    assert core.inputs[..|core.inputs|] == core.inputs;
    assert MadeBy(env, whole, |run|, UtxoKey(id, 0));
    forall i: nat, k | MadeBy(env, run, i, k)
      ensures MadeBy(env, whole, i, k)
    {
    }
    forall k | k in after.utxos
      ensures exists i: nat :: MadeExactly(env, whole, i, k, after.utxos[k].output)
    {
      if k.txId == id && k.index < |core.outputs| {
        assert MadeExactly(env, whole, |run|, k, after.utxos[k].output);
      } else {
        var i: nat :| MadeExactly(env, run, i, k, ledger.utxos[k].output);
        assert MadeExactly(env, whole, i, k, after.utxos[k].output);
      }
    }
    forall i, k | 0 <= i < |whole| && k in whole[i].tx.core.inputs
      ensures exists m: nat :: m < i && MadeBy(env, whole, m, k)
    {
      if i < |run| {
        var m: nat :| m < i && MadeBy(env, run, m, k);
        assert MadeBy(env, whole, m, k);
      } else {
        var m: nat :| MadeExactly(env, run, m, k, ledger.utxos[k].output);
        assert MadeBy(env, whole, m, k);
      }
    }
    forall i, k | 0 <= i < |whole| && k in whole[i].tx.core.inputs && k in after.utxos
      ensures exists m: nat :: i <= m && MadeBy(env, whole, m, k)
    {
      if k.txId == id {
        assert MadeBy(env, whole, |run|, k);
      } else {
        var m: nat :| i <= m && MadeBy(env, run, m, k);
        assert MadeBy(env, whole, m, k);
      }
    }
  }

  lemma StepKeepsValueOnce(env: Env, chainId: u32, run: seq<Applied>, ledger: Ledger, next: Applied)
    requires Inv(env, chainId, run, ledger) && DistinctIds(env, run) && CoreFits(env, next.tx.core)
    requires Applies(env, ledger, next.tx, next.height, chainId)
    ensures ValueOnce(run + [next])
  {
    var whole := run + [next];
    forall i, j | 0 <= i < j < |whole| && whole[i].tx.core == whole[j].tx.core
      ensures !ValueBearing(whole[i].tx.core)
    {
      if j == |run| {
        NoSecondSuccess(env, chainId, run, ledger, next, i);
      }
    }
  }

  lemma StepKeepsRegistry(env: Env, chainId: u32, run: seq<Applied>, ledger: Ledger, next: Applied)
    requires RegistryExact(env, chainId, run, ledger.assets)
    requires Applies(env, ledger, next.tx, next.height, chainId)
    ensures RegistryExact(env, chainId, run + [next], ApplyTx(env, ledger, next.tx, next.height, chainId).0.assets)
  {
    hide TxId, Applies, ApplyTx, DeriveAssetId;
    hide WitnessError, IssueError, Conserves, InputsFit, OutputsFit, Consume, Create;
    AppliesMeans(env, ledger, next.tx, next.height, chainId);
    var whole := run + [next];
    var assets := ApplyTx(env, ledger, next.tx, next.height, chainId).0.assets;
    forall i: nat, id
      ensures Creates(env, chainId, run, i, id) ==> Creates(env, chainId, whole, i, id)
      ensures Creates(env, chainId, whole, i, id) && i < |run| ==> Creates(env, chainId, run, i, id)
    {
    }
    forall id | id in assets
      ensures exists i: nat :: Creates(env, chainId, whole, i, id) && whole[i].tx.core.kind.definition == assets[id]
    {
      if CreatedId(env, next.tx.core, chainId) == Some(id) {
        assert Creates(env, chainId, whole, |run|, id);
      } else {
        var i: nat :| Creates(env, chainId, run, i, id) && run[i].tx.core.kind.definition == ledger.assets[id];
        assert Creates(env, chainId, whole, i, id);
      }
    }
  }

  lemma StepKeepsSupply(env: Env, chainId: u32, run: seq<Applied>, ledger: Ledger, next: Applied)
    requires Inv(env, chainId, run, ledger) && DistinctIds(env, run + [next]) && CoreFits(env, next.tx.core)
    requires Applies(env, ledger, next.tx, next.height, chainId)
    ensures SupplyExact(env, chainId, run + [next], ApplyTx(env, ledger, next.tx, next.height, chainId).0.utxos)
  {
    hide TxId, Applies, ApplyTx, DeriveAssetId, OriginsKnown, InputsMadeBefore, SpentOrRemade, ValueOnce,
         RegistryExact, Holds, InputsFit, OutputsFit, Register;
    var whole, core := run + [next], next.tx.core;
    assert whole[..|whole| - 1] == run;
    assert SupplyExact(env, chainId, run, ledger.utxos);
    AppliesMeans(env, ledger, next.tx, next.height, chainId);
    SuccessBalances(env, chainId, run, ledger, next);
    hide CoreFits, ReservedError, WitnessError, IssueError, Conserves, Consume, Create;
    var kept := Consume(ledger.utxos, core.inputs, |core.inputs|);
    ConsumeLeaves(ledger.utxos, core.inputs, |core.inputs|);
    forall id
      ensures Total(Create(kept, TxId(env, core), core.outputs, |core.outputs|, next.height), id)
           == Minted(env, chainId, whole, id)
    {
      TotalAfterConsume(ledger.utxos, core.inputs, |core.inputs|, id);
      forall k | k in kept && k.txId == TxId(env, core)
        ensures Holds(kept[k].output, id) == 0
      {
        OverwrittenCarriesNothing(env, chainId, run, ledger, next, k, id);
      }
      TotalAfterCreate(kept, TxId(env, core), core.outputs, |core.outputs|, next.height, id);
      assert Creates(env, chainId, whole, |run|, id) <==> CreatedId(env, core, chainId) == Some(id);
    }
  }

  // ----- every run -----

  lemma EmptyRunInvariant(env: Env, chainId: u32)
    ensures Inv(env, chainId, [], EMPTY_LEDGER)
  {
  }

  lemma {:induction false} RunTraced(env: Env, chainId: u32, run: seq<Applied>)
    requires Replay(env, chainId, run).Some?
    ensures Traced(env, chainId, run, Replay(env, chainId, run).value)
  {
    hide Applies, ApplyTx, OriginsKnown, InputsMadeBefore, SpentOrRemade, RegistryExact;
    if run == [] {
      EmptyRunInvariant(env, chainId);
    } else {
      var prefix, last := run[..|run| - 1], run[|run| - 1];
      var before := Replay(env, chainId, prefix).value;
      assert run == prefix + [last];
      RunTraced(env, chainId, prefix);
      StepKeepsOrigins(env, chainId, prefix, before, last);
      StepKeepsRegistry(env, chainId, prefix, before, last);
    }
  }

  lemma {:induction false} RunInvariant(env: Env, chainId: u32, run: seq<Applied>)
    requires Replay(env, chainId, run).Some? && DistinctIds(env, run) && SumsFit(env, run)
    ensures Inv(env, chainId, run, Replay(env, chainId, run).value)
  {
    hide Applies, ApplyTx, Traced, ValueOnce, SupplyExact, CoreFits, DistinctIds;
    RunTraced(env, chainId, run);
    if run == [] {
      EmptyRunInvariant(env, chainId);
    } else {
      var prefix, last := run[..|run| - 1], run[|run| - 1];
      var before := Replay(env, chainId, prefix).value;
      assert run == prefix + [last];
      DistinctIdsOfPrefix(env, run);
      RunInvariant(env, chainId, prefix);
      StepKeepsValueOnce(env, chainId, prefix, before, last);
      StepKeepsSupply(env, chainId, prefix, before, last);
    }
  }

  lemma {:induction false} MintedOnce(env: Env, chainId: u32, run: seq<Applied>, i: nat, id: AssetId)
    requires Creates(env, chainId, run, i, id)
    requires forall j: nat :: Creates(env, chainId, run, j, id) ==> j == i
    ensures Minted(env, chainId, run, id) == run[i].tx.core.kind.initialSupply
  {
    var prefix := run[..|run| - 1];
    forall j: nat
      ensures Creates(env, chainId, prefix, j, id) <==> Creates(env, chainId, run, j, id) && j < |prefix|
    {
    }
    if i == |run| - 1 {
      MintedNever(env, chainId, prefix, id);
    } else {
      MintedOnce(env, chainId, prefix, i, id);
      assert !Creates(env, chainId, run, |run| - 1, id);
    }
  }

  lemma {:induction false} MintedNever(env: Env, chainId: u32, run: seq<Applied>, id: AssetId)
    requires forall j: nat :: !Creates(env, chainId, run, j, id)
    ensures Minted(env, chainId, run, id) == 0
  {
    if run != [] {
      var prefix := run[..|run| - 1];
      forall j: nat
        ensures Creates(env, chainId, prefix, j, id) ==> Creates(env, chainId, run, j, id)
      {
      }
      MintedNever(env, chainId, prefix, id);
    }
  }

  /** Fixed supply. A registered asset was created by exactly one step of the run, and its total
      over all UTXOs is the initial supply declared there, which is within the declared maximum.
      Nothing exists of any other asset; in particular nothing exists of the reserved QCOIN id. */
  lemma FixedSupply(env: Env, chainId: u32, run: seq<Applied>, id: AssetId)
    requires Replay(env, chainId, run).Some? && DistinctIds(env, run) && SumsFit(env, run)
    ensures var ledger := Replay(env, chainId, run).value;
      && (id !in ledger.assets ==> Total(ledger.utxos, id) == 0)
      && QCOIN_ASSET_ID !in ledger.assets
      && (id in ledger.assets ==>
          exists i: nat ::
            && Creates(env, chainId, run, i, id)
            && (forall j: nat :: Creates(env, chainId, run, j, id) ==> j == i)
            && Total(ledger.utxos, id) == run[i].tx.core.kind.initialSupply
            && run[i].tx.core.kind.definition == ledger.assets[id]
            && (ledger.assets[id].maxSupply.Some? ==> Total(ledger.utxos, id) <= ledger.assets[id].maxSupply.value))
  {
    var ledger := Replay(env, chainId, run).value;
    RunInvariant(env, chainId, run);
    if id !in ledger.assets {
      MintedNever(env, chainId, run, id);
    } else {
      var i: nat :| Creates(env, chainId, run, i, id) && run[i].tx.core.kind.definition == ledger.assets[id];
      MintedOnce(env, chainId, run, i, id);
      CreationWithinMaximum(env, chainId, run, i);
    }
  }

  lemma {:induction false} ReplayPrefix(env: Env, chainId: u32, run: seq<Applied>, n: nat)
    requires Replay(env, chainId, run).Some? && n <= |run|
    ensures Replay(env, chainId, run[..n]).Some?
    ensures n < |run| ==> Applies(env, Replay(env, chainId, run[..n]).value, run[n].tx, run[n].height, chainId)
    ensures n < |run| ==>
      Replay(env, chainId, run[..n + 1])
      == Some(ApplyTx(env, Replay(env, chainId, run[..n]).value, run[n].tx, run[n].height, chainId).0)
  {
    hide Applies, ApplyTx;
    if n == |run| {
      assert run[..n] == run;
    } else if n == |run| - 1 {
      assert run[..n + 1] == run;
    } else {
      var prefix := run[..|run| - 1];
      ReplayPrefix(env, chainId, prefix, n);
      assert prefix[..n] == run[..n] && prefix[..n + 1] == run[..n + 1];
    }
  }

  lemma CreationWithinMaximum(env: Env, chainId: u32, run: seq<Applied>, i: nat)
    requires Replay(env, chainId, run).Some? && i < |run| && run[i].tx.core.kind.CreateAsset?
    ensures var kind := run[i].tx.core.kind;
      kind.definition.maxSupply.Some? ==> kind.initialSupply <= kind.definition.maxSupply.value
  {
    ReplayPrefix(env, chainId, run, i);
  }

  /** No resurrection: a core that carries value succeeds at most once in a run. */
  lemma ValueSucceedsOnce(env: Env, chainId: u32, run: seq<Applied>, i: nat, j: nat)
    requires Replay(env, chainId, run).Some? && DistinctIds(env, run) && SumsFit(env, run)
    requires i < j < |run| && run[i].tx.core == run[j].tx.core
    ensures !ValueBearing(run[i].tx.core)
  {
    RunInvariant(env, chainId, run);
  }

  lemma DistinctIdsOfTake(env: Env, run: seq<Applied>, n: nat)
    requires DistinctIds(env, run) && n <= |run|
    ensures DistinctIds(env, run[..n])
  {
    forall b | b in CorePreimages(run[..n])
      ensures b in CorePreimages(run)
    {
      var i :| 0 <= i < n && b == TxCoreBytes(run[..n][i].tx.core);
      assert run[i] == run[..n][i];
    }
  }

  /** No output that carries value is overwritten when the outputs of a later step are inserted. */
  lemma NoValueOverwritten(env: Env, chainId: u32, run: seq<Applied>, n: nat, k: UtxoKey, id: AssetId)
    requires Replay(env, chainId, run).Some? && DistinctIds(env, run) && SumsFit(env, run) && n < |run|
    requires Replay(env, chainId, run[..n]).Some?
    requires k in Replay(env, chainId, run[..n]).value.utxos && k.txId == TxId(env, run[n].tx.core)
    ensures Holds(Replay(env, chainId, run[..n]).value.utxos[k].output, id) == 0
  {
    hide Applies, ApplyTx, Inv, TxId, Holds;
    ReplayPrefix(env, chainId, run, n);
    DistinctIdsOfTake(env, run, n);
    DistinctIdsOfTake(env, run, n + 1);
    RunInvariant(env, chainId, run[..n]);
    assert run[..n + 1] == run[..n] + [run[n]];
    OverwrittenCarriesNothing(env, chainId, run[..n], Replay(env, chainId, run[..n]).value, run[n], k, id);
  }

  /** No output that carries value is spent twice. */
  lemma NoValueSpentTwice(env: Env, chainId: u32, run: seq<Applied>, i: nat, j: nat, k: UtxoKey, id: AssetId)
    requires Replay(env, chainId, run).Some? && DistinctIds(env, run) && SumsFit(env, run) && i < j < |run|
    requires k in run[i].tx.core.inputs && k in run[j].tx.core.inputs
    requires Replay(env, chainId, run[..j]).Some? && k in Replay(env, chainId, run[..j]).value.utxos
    ensures Holds(Replay(env, chainId, run[..j]).value.utxos[k].output, id) == 0
  {
    hide TxId, SupplyExact, RegistryExact, Holds, Replay;
    var prefix := run[..j];
    var utxos := Replay(env, chainId, prefix).value.utxos;
    DistinctIdsOfTake(env, run, j);
    RunInvariant(env, chainId, prefix);
    assert k in prefix[i].tx.core.inputs;
    var before: nat :| before < i && MadeBy(env, prefix, before, k);
    var after: nat :| i <= after && MadeBy(env, prefix, after, k);
    var maker: nat :| MadeExactly(env, prefix, maker, k, utxos[k].output);
    SameIdSameCore(env, prefix, before, after);
    SameIdSameCore(env, prefix, before, maker);
    if Holds(utxos[k].output, id) > 0 {
      assert false;
    }
  }

  /** The additions over the inputs of any further transaction stay within u128. */
  lemma InputsNeverOverflow(env: Env, chainId: u32, run: seq<Applied>, inputs: seq<UtxoKey>, n: nat)
    requires Replay(env, chainId, run).Some? && DistinctIds(env, run) && SumsFit(env, run)
    requires DistinctInputs(inputs) && n <= |inputs|
    requires forall i :: 0 <= i < n ==> inputs[i] in Replay(env, chainId, run).value.utxos
    ensures InputsFit(Replay(env, chainId, run).value.utxos, inputs, n)
  {
    hide Replay, RegistryExact, SupplyExact, InputsFit;
    RunInvariant(env, chainId, run);
    InputsFitAfter(env, chainId, run, Replay(env, chainId, run).value, inputs, n);
  }
}

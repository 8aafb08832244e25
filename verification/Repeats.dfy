/** Which transactions can succeed again. Success may repeat, but only for transfers that spend
    nothing but the outputs of other such transfers: exactly those, and they carry nothing. */
module Repeats {
  import opened Types
  import opened Codec
  import opened LedgerRules
  import opened Supply
  import opened Aging

  /** Step `i` is a transfer, and whatever it spends was made by such a step before it. */
  ghost predicate Repeatable(env: Env, run: seq<Applied>, i: nat)
    requires i < |run|
    decreases i
  {
    && run[i].tx.core.kind.Transfer?
    && forall k :: k in run[i].tx.core.inputs ==>
      exists m: nat :: m < i && MadeBy(env, run, m, k) && Repeatable(env, run, m)
  }

  lemma {:induction false} RepeatableInLonger(env: Env, run: seq<Applied>, longer: seq<Applied>, i: nat)
    requires run <= longer && i < |run|
    ensures Repeatable(env, run, i) <==> Repeatable(env, longer, i)
    decreases i
  {
    forall m: nat | m < i
      ensures Repeatable(env, run, m) <==> Repeatable(env, longer, m)
    {
      RepeatableInLonger(env, run, longer, m);
    }
    assert forall m: nat, k :: m < i ==> (MadeBy(env, run, m, k) <==> MadeBy(env, longer, m, k));
  }

  lemma RepeatableForCore(env: Env, run: seq<Applied>, i: nat, j: nat)
    requires i < j < |run| && run[i].tx.core == run[j].tx.core && Repeatable(env, run, i)
    ensures Repeatable(env, run, j)
  {
  }

  // ----- only these -----

  lemma InputMadeTwice(env: Env, chainId: u32, run: seq<Applied>, i: nat, j: nat, k: UtxoKey) returns (m: nat, n: nat)
    requires Replay(env, chainId, run).Some? && DistinctIds(env, run)
    requires i < j < |run| && run[i].tx.core == run[j].tx.core && k in run[i].tx.core.inputs
    ensures m < i <= n < j && MadeBy(env, run, m, k) && run[m].tx.core == run[n].tx.core
  {
    hide TxId, Replay, Applies, RegistryExact, DistinctIds;
    var prefix := run[..j];
    ReplayPrefix(env, chainId, run, j);
    DistinctIdsOfTake(env, run, j);
    RunTraced(env, chainId, prefix);
    var utxos := Replay(env, chainId, prefix).value.utxos;
    assert k in utxos by {
      AppliesMeans(env, Replay(env, chainId, prefix).value, run[j].tx, run[j].height, chainId);
    }
    assert k in prefix[i].tx.core.inputs;
    m :| m < i && MadeBy(env, prefix, m, k);
    n :| i <= n && MadeBy(env, prefix, n, k);
    SameIdSameCore(env, prefix, m, n);
  }

  /** If a core succeeds twice in a run, it is a transfer, and whatever it spends was made by a
      transaction that succeeded twice itself. */
  lemma {:induction false} TwiceMeansRepeatable(env: Env, chainId: u32, run: seq<Applied>, i: nat, j: nat)
    requires Replay(env, chainId, run).Some? && DistinctIds(env, run)
    requires i < j < |run| && run[i].tx.core == run[j].tx.core
    ensures Repeatable(env, run, i)
    decreases i
  {
    hide Replay, DistinctIds, OriginsKnown, InputsMadeBefore, SpentOrRemade, DeriveAssetId;
    RunTraced(env, chainId, run);
    var core := run[i].tx.core;
    assert forall id :: Creates(env, chainId, run, i, id) ==> Creates(env, chainId, run, j, id);
    assert core.kind.Transfer? || Creates(env, chainId, run, i, CreatedId(env, core, chainId).value);
    forall k | k in core.inputs
      ensures exists m: nat :: m < i && MadeBy(env, run, m, k) && Repeatable(env, run, m)
    {
      var m, n := InputMadeTwice(env, chainId, run, i, j, k);
      TwiceMeansRepeatable(env, chainId, run, m, n);
    }
  }

  // ----- all of these -----

  /** Everything repeatable among the first `n` steps, in order, each `delay` later than it was. */
  ghost function Rerun(env: Env, run: seq<Applied>, n: nat, delay: u64): seq<Applied>
    requires n <= |run| && Fits(run, delay)
  {
    if n == 0 then []
    else if Repeatable(env, run, n - 1)
      then Rerun(env, run, n - 1, delay) + [Applied(run[n - 1].tx, run[n - 1].height + delay)]
      else Rerun(env, run, n - 1, delay)
  }

  ghost predicate Fits(run: seq<Applied>, delay: u64) {
    forall i :: 0 <= i < |run| ==> run[i].height + delay <= U64_MAX
  }

  /** An output is there again: the same output, made `delay` later. */
  ghost predicate Again(utxos: Utxos, later: Utxos, k: UtxoKey, delay: nat) {
    && k in utxos && k in later
    && later[k].output == utxos[k].output
    && later[k].createdHeight == utxos[k].createdHeight + delay
  }

  /** All outputs of repeatable steps among the first `n` are there again. */
  ghost predicate Restored(env: Env, run: seq<Applied>, n: nat, utxos: Utxos, later: Utxos, delay: nat)
    requires n <= |run|
  {
    forall k, m: nat :: k in utxos && m < n && MadeBy(env, run, m, k) && Repeatable(env, run, m) ==>
      Again(utxos, later, k, delay)
  }

  lemma {:induction false} SameSums(utxos: Utxos, later: Utxos, inputs: seq<UtxoKey>, n: nat, id: AssetId, delay: nat)
    requires n <= |inputs| && forall k :: k in inputs ==> Again(utxos, later, k, delay)
    ensures InputSum(later, inputs, n, id) == InputSum(utxos, inputs, n, id)
  {
    if n > 0 {
      SameSums(utxos, later, inputs, n - 1, id, delay);
      assert Again(utxos, later, inputs[n - 1], delay);
    }
  }

  /** A transfer applies wherever its inputs are there again, whatever else has changed. */
  lemma TransferAppliesAgain(env: Env, ledger: Ledger, later: Ledger, tx: Transaction, height: u64, delay: u64,
                             chainId: u32)
    requires Applies(env, ledger, tx, height, chainId) && tx.core.kind.Transfer? && height + delay <= U64_MAX
    requires forall k :: k in tx.core.inputs ==> Again(ledger.utxos, later.utxos, k, delay)
    ensures Applies(env, later, tx, height + delay, chainId)
  {
    hide Applies, WitnessError, InputSum, OutputSum, Added;
    AppliesMeans(env, ledger, tx, height, chainId);
    forall i | 0 <= i < |tx.core.inputs|
      ensures tx.core.inputs[i] in later.utxos
      ensures var spent := later.utxos[tx.core.inputs[i]].output;
        WitnessError(env, later.utxos, tx, height + delay, chainId, i, spent).None?
    {
      assert Again(ledger.utxos, later.utxos, tx.core.inputs[i], delay);
      SpendStillUnlocks(env, ledger.utxos, height, later.utxos, height + delay, tx, chainId, i);
    }
    forall id
      ensures InputSum(later.utxos, tx.core.inputs, |tx.core.inputs|, id)
           == InputSum(ledger.utxos, tx.core.inputs, |tx.core.inputs|, id)
    {
      SameSums(ledger.utxos, later.utxos, tx.core.inputs, |tx.core.inputs|, id, delay);
    }
    AppliesMeans(env, later, tx, height + delay, chainId);
  }

  ghost predicate Own(env: Env, core: TransactionCore, k: UtxoKey) {
    k.txId == TxId(env, core) && k.index < |core.outputs|
  }

  /** What a success leaves: its own outputs, and what was there and is not spent by it. */
  lemma Leaves(env: Env, ledger: Ledger, tx: Transaction, height: u64, chainId: u32)
    requires Applies(env, ledger, tx, height, chainId)
    ensures var utxos := ApplyTx(env, ledger, tx, height, chainId).0.utxos;
      && (forall k :: k in utxos <==> Own(env, tx.core, k) || (k in ledger.utxos && k !in tx.core.inputs))
      && forall k :: k in utxos ==>
        utxos[k] == if Own(env, tx.core, k) then TrackedOutput(tx.core.outputs[k.index], height)
                                                else ledger.utxos[k]
  {
    hide TxId, Applies, ApplyTx, Register, Consume, Create;
    var core := tx.core;
    AppliesMeans(env, ledger, tx, height, chainId);
    ConsumeLeaves(ledger.utxos, core.inputs, |core.inputs|);
    CreateAdds(Consume(ledger.utxos, core.inputs, |core.inputs|), TxId(env, core), core.outputs, |core.outputs|,
               height);
    assert core.inputs[..|core.inputs|] == core.inputs;
  }

  /** A step that is not repeatable leaves the outputs of the repeatable ones alone or spends them. */
  lemma SkipKeepsRestored(env: Env, chainId: u32, run: seq<Applied>, n: nat, ledger: Ledger, later: Utxos, delay: nat)
    requires n < |run| && DistinctIds(env, run) && !Repeatable(env, run, n)
    requires Restored(env, run, n, ledger.utxos, later, delay)
    requires Applies(env, ledger, run[n].tx, run[n].height, chainId)
    ensures Restored(env, run, n + 1, ApplyTx(env, ledger, run[n].tx, run[n].height, chainId).0.utxos, later, delay)
  {
    hide TxId, Applies, ApplyTx, DistinctIds, Repeatable;
    var core := run[n].tx.core;
    Leaves(env, ledger, run[n].tx, run[n].height, chainId);
    var utxos := ApplyTx(env, ledger, run[n].tx, run[n].height, chainId).0.utxos;
    forall k, m: nat | k in utxos && m < n + 1 && MadeBy(env, run, m, k) && Repeatable(env, run, m)
      ensures Again(utxos, later, k, delay)
    {
      if k.txId == TxId(env, core) {
        SameIdSameCore(env, run, m, n);
        RepeatableForCore(env, run, m, n);
      }
      assert Again(ledger.utxos, later, k, delay);
    }
  }

  lemma RerunApplies(env: Env, chainId: u32, run: seq<Applied>, n: nat, ledger: Ledger, later: Ledger, delay: u64)
    requires n < |run| && Repeatable(env, run, n) && run[n].height + delay <= U64_MAX
    requires Restored(env, run, n, ledger.utxos, later.utxos, delay)
    requires Applies(env, ledger, run[n].tx, run[n].height, chainId)
    ensures Applies(env, later, run[n].tx, run[n].height + delay, chainId)
  {
    hide TxId, Applies, WitnessError, Conserves, InputsFit, OutputsFit;
    AppliesMeans(env, ledger, run[n].tx, run[n].height, chainId);
    forall k | k in run[n].tx.core.inputs
      ensures Again(ledger.utxos, later.utxos, k, delay)
    {
      var m: nat :| m < n && MadeBy(env, run, m, k) && Repeatable(env, run, m);
    }
    TransferAppliesAgain(env, ledger, later, run[n].tx, run[n].height, delay, chainId);
  }

  lemma RerunKeepsRestored(env: Env, chainId: u32, run: seq<Applied>, n: nat, ledger: Ledger, later: Ledger, delay: u64)
    requires n < |run| && DistinctIds(env, run) && run[n].height + delay <= U64_MAX
    requires Restored(env, run, n, ledger.utxos, later.utxos, delay) && OriginsKnown(env, run[..n], ledger.utxos)
    requires Applies(env, ledger, run[n].tx, run[n].height, chainId)
    requires Applies(env, later, run[n].tx, run[n].height + delay, chainId)
    ensures Restored(env, run, n + 1, ApplyTx(env, ledger, run[n].tx, run[n].height, chainId).0.utxos,
                     ApplyTx(env, later, run[n].tx, run[n].height + delay, chainId).0.utxos, delay)
  {
    hide TxId, Applies, ApplyTx, DistinctIds, Repeatable, OriginsKnown;
    var core := run[n].tx.core;
    Leaves(env, ledger, run[n].tx, run[n].height, chainId);
    Leaves(env, later, run[n].tx, run[n].height + delay, chainId);
    var utxos := ApplyTx(env, ledger, run[n].tx, run[n].height, chainId).0.utxos;
    var utxos' := ApplyTx(env, later, run[n].tx, run[n].height + delay, chainId).0.utxos;
    forall k, m: nat | k in utxos && m < n + 1 && MadeBy(env, run, m, k) && Repeatable(env, run, m)
      ensures Again(utxos, utxos', k, delay)
    {
      if !Own(env, core, k) {
        if k.txId == TxId(env, core) {
          NoFurtherOutputs(env, run, n, ledger.utxos, k);
        }
        assert Again(ledger.utxos, later.utxos, k, delay);
      }
    }
  }

  lemma NoFurtherOutputs(env: Env, run: seq<Applied>, n: nat, utxos: Utxos, k: UtxoKey)
    requires n < |run| && DistinctIds(env, run) && OriginsKnown(env, run[..n], utxos)
    requires k in utxos && k.txId == TxId(env, run[n].tx.core)
    ensures k.index < |run[n].tx.core.outputs|
  {
    hide TxId, DistinctIds;
    var m: nat :| MadeExactly(env, run[..n], m, k, utxos[k].output);
    SameIdSameCore(env, run, m, n);
  }

  /** After any run, the repeatable steps among its first `n` succeed once more, in order and any
      `delay` later than they did, and their outputs are then there again. */
  lemma {:induction false} RerunReplays(env: Env, chainId: u32, run: seq<Applied>, n: nat, delay: u64)
    requires Replay(env, chainId, run).Some? && DistinctIds(env, run) && n <= |run| && Fits(run, delay)
    ensures Replay(env, chainId, run[..n]).Some? && Replay(env, chainId, run + Rerun(env, run, n, delay)).Some?
    ensures Restored(env, run, n, Replay(env, chainId, run[..n]).value.utxos,
                     Replay(env, chainId, run + Rerun(env, run, n, delay)).value.utxos, delay)
  {
    hide Applies, ApplyTx, DistinctIds, Restored, Repeatable, OriginsKnown, InputsMadeBefore, SpentOrRemade;
    hide RegistryExact;
    if n == 0 {
      assert run + [] == run && run[..0] == [];
      assert Restored(env, run, 0, map[], Replay(env, chainId, run).value.utxos, delay) by {
        NothingRestored(env, run, Replay(env, chainId, run).value.utxos, delay);
      }
    } else {
      var last := run[n - 1];
      RerunReplays(env, chainId, run, n - 1, delay);
      ReplayPrefix(env, chainId, run, n - 1);
      var before, rerun := Replay(env, chainId, run[..n - 1]).value, run + Rerun(env, run, n - 1, delay);
      var later := Replay(env, chainId, rerun).value;
      if Repeatable(env, run, n - 1) {
        DistinctIdsOfTake(env, run, n - 1);
        RunTraced(env, chainId, run[..n - 1]);
        RerunApplies(env, chainId, run, n - 1, before, later, delay);
        RerunKeepsRestored(env, chainId, run, n - 1, before, later, delay);
        var longer := run + Rerun(env, run, n, delay);
        assert longer == rerun + [Applied(last.tx, last.height + delay)];
        assert longer[..|longer| - 1] == rerun;
      } else {
        SkipKeepsRestored(env, chainId, run, n - 1, before, later.utxos, delay);
      }
    }
  }

  lemma NothingRestored(env: Env, run: seq<Applied>, later: Utxos, delay: nat)
    ensures Restored(env, run, 0, map[], later, delay)
  {
  }

  ghost predicate Among(run: seq<Applied>, n: nat, tx: Transaction)
    requires n <= |run|
  {
    exists m :: 0 <= m < n && run[m].tx == tx
  }

  lemma {:induction false} RerunSteps(env: Env, run: seq<Applied>, n: nat, delay: u64)
    requires n <= |run| && Fits(run, delay)
    ensures forall e :: e in Rerun(env, run, n, delay) ==> e.height >= delay && Among(run, n, e.tx)
    ensures n > 0 && Repeatable(env, run, n - 1) ==>
      Rerun(env, run, n, delay) != [] && Rerun(env, run, n, delay)[|Rerun(env, run, n, delay)| - 1].tx == run[n - 1].tx
  {
    hide Repeatable;
    if n > 0 {
      RerunSteps(env, run, n - 1, delay);
      assert Among(run, n, run[n - 1].tx);
      forall e | e in Rerun(env, run, n - 1, delay)
        ensures Among(run, n, e.tx)
      {
        assert Among(run, n - 1, e.tx);
      }
    }
  }

  lemma RerunKeepsIds(env: Env, run: seq<Applied>, n: nat, delay: u64)
    requires n <= |run| && Fits(run, delay) && DistinctIds(env, run)
    ensures DistinctIds(env, run + Rerun(env, run, n, delay))
  {
    hide TxCoreBytes, Rerun, Fits;
    var rerun := Rerun(env, run, n, delay);
    RerunSteps(env, run, n, delay);
    forall b | b in CorePreimages(run + rerun)
      ensures b in CorePreimages(run)
    {
      var i :| 0 <= i < |run + rerun| && b == TxCoreBytes((run + rerun)[i].tx.core);
      if i >= |run| {
        assert rerun[i - |run|] in rerun;
        assert Among(run, n, rerun[i - |run|].tx);
      }
    }
  }

  // ----- exactly these -----

  /** A way for the run to go on, at heights from `floor` on. */
  ghost predicate Continues(env: Env, chainId: u32, run: seq<Applied>, more: seq<Applied>, floor: u64) {
    && Replay(env, chainId, run + more).Some?
    && DistinctIds(env, run + more)
    && forall e :: e in more ==> e.height >= floor
  }

  ghost predicate EndsWith(more: seq<Applied>, core: TransactionCore) {
    more != [] && more[|more| - 1].tx.core == core
  }

  /** A core that has succeeded can succeed again, after some continuation at heights from `floor`
      on, if and only if it is repeatable. */
  lemma RepeatsExactly(env: Env, chainId: u32, run: seq<Applied>, i: nat, floor: u64)
    requires Replay(env, chainId, run).Some? && DistinctIds(env, run) && i < |run| && Fits(run, floor)
    ensures (exists more :: Continues(env, chainId, run, more, floor) && EndsWith(more, run[i].tx.core))
       <==> Repeatable(env, run, i)
  {
    hide Replay, DistinctIds, Repeatable, Restored, Rerun, Fits;
    if Repeatable(env, run, i) {
      var more := Rerun(env, run, i + 1, floor);
      RerunReplays(env, chainId, run, i + 1, floor);
      RerunSteps(env, run, i + 1, floor);
      RerunKeepsIds(env, run, i + 1, floor);
      assert Continues(env, chainId, run, more, floor) && EndsWith(more, run[i].tx.core);
    }
    if more :| Continues(env, chainId, run, more, floor) && EndsWith(more, run[i].tx.core) {
      var whole := run + more;
      assert whole[|whole| - 1] == more[|more| - 1];
      TwiceMeansRepeatable(env, chainId, whole, i, |whole| - 1);
      RepeatableInLonger(env, run, whole, i);
    }
  }

  /** An output that has been spent can be there again if and only if the step that made it is
      repeatable. */
  lemma SpentReturnsExactly(env: Env, chainId: u32, run: seq<Applied>, m: nat, i: nat, k: UtxoKey, floor: u64)
    requires Replay(env, chainId, run).Some? && DistinctIds(env, run) && Fits(run, floor)
    requires m < i < |run| && k in run[i].tx.core.inputs
    requires MadeBy(env, run, m, k) && k.index < |run[m].tx.core.outputs|
    ensures (exists more ::
      Continues(env, chainId, run, more, floor) && k in Replay(env, chainId, run + more).value.utxos)
       <==> Repeatable(env, run, m)
  {
    hide Replay, DistinctIds, Repeatable, Rerun, Fits, TxId, ApplyTx, Applies;
    if Repeatable(env, run, m) {
      var more := Rerun(env, run, m + 1, floor);
      RerunReplays(env, chainId, run, m + 1, floor);
      RerunSteps(env, run, m + 1, floor);
      RerunKeepsIds(env, run, m + 1, floor);
      StepMakes(env, chainId, run, m, k);
      assert Again(Replay(env, chainId, run[..m + 1]).value.utxos, Replay(env, chainId, run + more).value.utxos, k,
                   floor);
    }
    if more :| Continues(env, chainId, run, more, floor) && k in Replay(env, chainId, run + more).value.utxos {
      var whole := run + more;
      RunTraced(env, chainId, whole);
      assert k in whole[i].tx.core.inputs;
      var n: nat :| i <= n && MadeBy(env, whole, n, k);
      assert MadeBy(env, whole, m, k);
      SameIdSameCore(env, whole, m, n);
      TwiceMeansRepeatable(env, chainId, whole, m, n);
      RepeatableInLonger(env, run, whole, m);
    }
  }

  lemma StepMakes(env: Env, chainId: u32, run: seq<Applied>, m: nat, k: UtxoKey)
    requires Replay(env, chainId, run).Some? && m < |run|
    requires MadeBy(env, run, m, k) && k.index < |run[m].tx.core.outputs|
    ensures Replay(env, chainId, run[..m + 1]).Some? && k in Replay(env, chainId, run[..m + 1]).value.utxos
  {
    hide TxId, Applies, ApplyTx;
    ReplayPrefix(env, chainId, run, m);
    Leaves(env, Replay(env, chainId, run[..m]).value, run[m].tx, run[m].height, chainId);
  }

  // ----- what follows -----

  /** What can succeed again carries nothing, as far as amounts add up. */
  lemma RepeatableCarriesNothing(env: Env, chainId: u32, run: seq<Applied>, i: nat)
    requires Replay(env, chainId, run).Some? && DistinctIds(env, run) && SumsFit(env, run)
    requires i < |run| && Repeatable(env, run, i)
    ensures !ValueBearing(run[i].tx.core)
  {
    hide Replay, DistinctIds, Repeatable, Restored, Rerun, CoreFits, ValueBearing;
    RerunReplays(env, chainId, run, i + 1, 0);
    RerunSteps(env, run, i + 1, 0);
    RerunKeepsIds(env, run, i + 1, 0);
    var more := Rerun(env, run, i + 1, 0);
    var whole := run + more;
    forall r | 0 <= r < |whole|
      ensures CoreFits(env, whole[r].tx.core)
    {
      if r >= |run| {
        assert more[r - |run|] in more;
        assert Among(run, i + 1, more[r - |run|].tx);
      }
    }
    assert whole[|whole| - 1] == more[|more| - 1];
    ValueSucceedsOnce(env, chainId, whole, i, |whole| - 1);
  }

  /** An issue, of whatever amount, succeeds once; so does a transfer that spends an issue's output. */
  lemma IssuesAndTheirSpendersAreFinal(env: Env, chainId: u32, run: seq<Applied>, i: nat, j: nat)
    requires Replay(env, chainId, run).Some? && DistinctIds(env, run)
    requires i < j < |run| && run[i].tx.core == run[j].tx.core
    ensures run[i].tx.core.kind.Transfer?
    ensures forall k, m: nat :: k in run[i].tx.core.inputs && MadeBy(env, run, m, k) ==> run[m].tx.core.kind.Transfer?
  {
    hide Replay, DistinctIds, TxId;
    TwiceMeansRepeatable(env, chainId, run, i, j);
    forall k, m: nat | k in run[i].tx.core.inputs && MadeBy(env, run, m, k)
      ensures run[m].tx.core.kind.Transfer?
    {
      var n: nat :| n < i && MadeBy(env, run, n, k) && Repeatable(env, run, n);
      SameIdSameCore(env, run, m, n);
    }
  }
}

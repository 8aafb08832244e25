/** Exactly which pending transactions reconciling drops: which stay, in what order, and that what has
    nothing to do with a new block or with the rest of the pool survives it. */
module Reconciling {
  import opened Types
  import opened Codec
  import opened LedgerRules
  import opened Consensus
  import opened NodeRules
  import opened Aging
  import opened Pool
  import Spending
  import Roots

  // ----- the choice, one transaction at a time -----

  /** The height that pending transactions are tried at: the next one, or the last there is. */
  function TrialHeight(chain: Chain): u64 {
    if chain.height < U64_MAX then chain.height + 1 else U64_MAX
  }

  /** Some block holds a transaction with this one's id. */
  ghost predicate InSomeBlock(env: Env, blocks: seq<Block>, tx: Transaction) {
    exists b, j :: 0 <= b < |blocks| && 0 <= j < |blocks[b].transactions|
      && env.blake3(TxCoreBytes(blocks[b].transactions[j].core)) == env.blake3(TxCoreBytes(tx.core))
  }

  /** It stays if no block holds it and it applies to `before`; only if no block holds it is it tried, and
      then `after` is what the attempt leaves, whether or not it succeeds. */
  ghost predicate Decided(env: Env, chain: Chain, blocks: seq<Block>, tx: Transaction, before: Ledger, after: Ledger,
                          stays: bool) {
    var (ledger, r) := ApplyTx(env, before, tx, TrialHeight(chain), chain.chainId);
    && (stays <==> !InSomeBlock(env, blocks, tx) && r.Pass?)
    && after == if InSomeBlock(env, blocks, tx) then before else ledger
  }

  /** Every pending transaction is decided in order, from the ledger of the chain on. */
  ghost predicate Selection(env: Env, chain: Chain, blocks: seq<Block>, pool: seq<Transaction>, stays: seq<bool>,
                            ledgers: seq<Ledger>) {
    && |stays| == |pool| && |ledgers| == |pool| + 1
    && ledgers[0] == chain.ledger
    && forall i :: 0 <= i < |pool| ==> Decided(env, chain, blocks, pool[i], ledgers[i], ledgers[i + 1], stays[i])
  }

  /** Those that stay, in the order of the pool and as often as they are in it. */
  function Staying(pool: seq<Transaction>, stays: seq<bool>): seq<Transaction>
    requires |stays| == |pool|
  {
    if pool == [] then []
    else Staying(pool[..|pool| - 1], stays[..|pool| - 1]) + (if stays[|pool| - 1] then [pool[|pool| - 1]] else [])
  }

  lemma StepDecides(env: Env, chain: Chain, blocks: seq<Block>, pool: seq<Transaction>, i: nat)
    requires i < |pool|
    ensures var before, after := Retain(env, chain, blocks, pool, i), Retain(env, chain, blocks, pool, i + 1);
      || (after.0 == before.0 && Decided(env, chain, blocks, pool[i], before.1, after.1, false))
      || (after.0 == before.0 + [pool[i]] && Decided(env, chain, blocks, pool[i], before.1, after.1, true))
  {
    hide ApplyTx, TxCoreBytes;
    assert Committed(env, blocks, TxId(env, pool[i].core)) <==> InSomeBlock(env, blocks, pool[i]);
  }

  lemma {:induction false} RetainSelectsExactly(env: Env, chain: Chain, blocks: seq<Block>, pool: seq<Transaction>,
                                                n: nat) returns (stays: seq<bool>, ledgers: seq<Ledger>)
    requires n <= |pool|
    ensures Selection(env, chain, blocks, pool[..n], stays, ledgers)
    ensures Retain(env, chain, blocks, pool, n) == (Staying(pool[..n], stays), ledgers[n])
  {
    hide Decided, Retain;
    if n == 0 {
      assert Retain(env, chain, blocks, pool, 0) == ([], chain.ledger) by { RetainNone(env, chain, blocks, pool); }
      stays, ledgers := [], [chain.ledger];
    } else {
      var stays', ledgers' := RetainSelectsExactly(env, chain, blocks, pool, n - 1);
      StepDecides(env, chain, blocks, pool, n - 1);
      var before, after := Retain(env, chain, blocks, pool, n - 1), Retain(env, chain, blocks, pool, n);
      stays := stays' + [|after.0| > |before.0|];
      ledgers := ledgers' + [after.1];
      assert pool[..n][..n - 1] == pool[..n - 1] && stays[..n - 1] == stays';
      assert Staying(pool[..n], stays) == after.0;
      forall i | 0 <= i < n
        ensures Decided(env, chain, blocks, pool[..n][i], ledgers[i], ledgers[i + 1], stays[i])
      {
        if i < n - 1 {
          assert Decided(env, chain, blocks, pool[..n - 1][i], ledgers'[i], ledgers'[i + 1], stays'[i]);
        }
      }
    }
  }

  lemma RetainNone(env: Env, chain: Chain, blocks: seq<Block>, pool: seq<Transaction>)
    ensures Retain(env, chain, blocks, pool, 0) == ([], chain.ledger)
  {
  }

  lemma {:induction false} SelectionUnique(env: Env, chain: Chain, blocks: seq<Block>, pool: seq<Transaction>,
                                           stays: seq<bool>, ledgers: seq<Ledger>, stays': seq<bool>,
                                           ledgers': seq<Ledger>, n: nat)
    requires Selection(env, chain, blocks, pool, stays, ledgers) && n <= |pool|
    requires Selection(env, chain, blocks, pool, stays', ledgers')
    ensures stays[..n] == stays'[..n] && ledgers[..n + 1] == ledgers'[..n + 1]
  {
    hide ApplyTx, InSomeBlock;
    if n > 0 {
      SelectionUnique(env, chain, blocks, pool, stays, ledgers, stays', ledgers', n - 1);
      assert ledgers[n - 1] == ledgers[..n][n - 1] == ledgers'[..n][n - 1];
      assert Decided(env, chain, blocks, pool[n - 1], ledgers[n - 1], ledgers[n], stays[n - 1]);
      assert Decided(env, chain, blocks, pool[n - 1], ledgers'[n - 1], ledgers'[n], stays'[n - 1]);
      assert stays[..n] == stays[..n - 1] + [stays[n - 1]] && stays'[..n] == stays'[..n - 1] + [stays'[n - 1]];
      assert ledgers[..n + 1] == ledgers[..n] + [ledgers[n]] && ledgers'[..n + 1] == ledgers'[..n] + [ledgers'[n]];
    }
  }

  /** For every pool and history: there is one selection, and reconciling keeps what stays by it. */
  lemma ReconcileExactly(env: Env, rt: Runtime) returns (stays: seq<bool>, ledgers: seq<Ledger>)
    ensures Selection(env, rt.chain, rt.blocks, rt.pending, stays, ledgers)
    ensures Reconcile(env, rt) == rt.(pending := Staying(rt.pending, stays))
    ensures forall s, l :: Selection(env, rt.chain, rt.blocks, rt.pending, s, l) ==> s == stays && l == ledgers
  {
    hide Retain, Selection;
    stays, ledgers := RetainSelectsExactly(env, rt.chain, rt.blocks, rt.pending, |rt.pending|);
    assert rt.pending[..|rt.pending|] == rt.pending;
    forall s, l | Selection(env, rt.chain, rt.blocks, rt.pending, s, l)
      ensures s == stays && l == ledgers
    {
      OneSelection(env, rt.chain, rt.blocks, rt.pending, stays, ledgers, s, l);
    }
  }

  lemma OneSelection(env: Env, chain: Chain, blocks: seq<Block>, pool: seq<Transaction>,
                     stays: seq<bool>, ledgers: seq<Ledger>, stays': seq<bool>, ledgers': seq<Ledger>)
    requires Selection(env, chain, blocks, pool, stays, ledgers)
    requires Selection(env, chain, blocks, pool, stays', ledgers')
    ensures stays == stays' && ledgers == ledgers'
  {
    hide Decided;
    SelectionUnique(env, chain, blocks, pool, stays, ledgers, stays', ledgers', |pool|);
    assert stays[..|pool|] == stays && stays'[..|pool|] == stays';
    assert ledgers[..|pool| + 1] == ledgers && ledgers'[..|pool| + 1] == ledgers';
  }

  /** What stays pending was pending and is in no block. */
  lemma {:induction false} StayingAreFree(env: Env, chain: Chain, blocks: seq<Block>, pool: seq<Transaction>, n: nat)
    requires n <= |pool|
    ensures forall tx :: tx in Retain(env, chain, blocks, pool, n).0 ==>
      tx in pool[..n] && !InSomeBlock(env, blocks, tx)
  {
    hide ApplyTx, InSomeBlock, Committed, TxId;
    if n > 0 {
      StayingAreFree(env, chain, blocks, pool, n - 1);
      StepDecides(env, chain, blocks, pool, n - 1);
      assert pool[..n] == pool[..n - 1] + [pool[n - 1]];
    }
  }

  // ----- against the clean ledger -----

  /** On a ledger with the same outputs and fewer names a transaction does what it does on the other, if
      the name it issues is on neither or on both. */
  lemma FewerNames(env: Env, ledger: Ledger, clean: Ledger, tx: Transaction, h: u64, chainId: u32)
    requires clean.utxos == ledger.utxos && forall a :: a in clean.assets ==> a in ledger.assets
    ensures Applies(env, ledger, tx, h, chainId)
       <==> && Applies(env, clean, tx, h, chainId)
            && forall a :: Spending.Issues(env, tx.core, chainId, a) ==> a !in ledger.assets
    ensures Applies(env, ledger, tx, h, chainId) ==>
      ApplyTx(env, ledger, tx, h, chainId).0.utxos == ApplyTx(env, clean, tx, h, chainId).0.utxos
  {
    hide ApplyTx, Applies, WitnessError, IssueError, Conserves, DistinctInputs, OutputsFit, InputsFit, AssetIdPreimage;
    AppliesMeans(env, ledger, tx, h, chainId);
    AppliesMeans(env, clean, tx, h, chainId);
    assert tx.core.kind.CreateAsset? ==>
      Spending.Issues(env, tx.core, chainId, DeriveAssetId(env, tx.core.kind.definition, chainId));
  }

  lemma NamesAfter(env: Env, ledger: Ledger, tx: Transaction, h: u64, chainId: u32)
    ensures var (after, r) := ApplyTx(env, ledger, tx, h, chainId);
      && (forall a :: a in after.assets ==> a in ledger.assets || Spending.Issues(env, tx.core, chainId, a))
      && (forall a :: a in ledger.assets ==> a in after.assets)
      && (r.Pass? ==> forall a :: Spending.Issues(env, tx.core, chainId, a) ==> a in after.assets)
      && (r.Fail? ==> after.utxos == ledger.utxos)
  {
    hide EarlyError, Conserves, Consume, Create, AssetIdPreimage;
  }

  /** The simulated ledger holds the outputs of the kept transactions alone, and more names at most: those
      of earlier issues. */
  lemma {:induction false} SimulatedIsCleanButNames(env: Env, chain: Chain, blocks: seq<Block>, pool: seq<Transaction>,
                                                    n: nat)
    requires n <= |pool|
    ensures var (kept, simulated) := Retain(env, chain, blocks, pool, n);
      var (clean, r) := PoolResult(env, chain, kept);
      && r.Pass?
      && simulated.utxos == clean.utxos
      && (forall a :: a in clean.assets ==> a in simulated.assets)
      && (forall a :: a in simulated.assets && a !in clean.assets ==>
            exists j :: 0 <= j < n && Spending.Issues(env, pool[j].core, chain.chainId, a))
  {
    hide ApplyTx, Committed, TxId, Spending.Issues;
    var h := NextHeight(chain);
    if n > 0 {
      SimulatedIsCleanButNames(env, chain, blocks, pool, n - 1);
      var (kept, simulated) := Retain(env, chain, blocks, pool, n - 1);
      var tx := pool[n - 1];
      var clean := PoolResult(env, chain, kept).0;
      if !Committed(env, blocks, TxId(env, tx.core)) {
        FewerNames(env, simulated, clean, tx, h, chain.chainId);
        NamesAfter(env, simulated, tx, h, chain.chainId);
        NamesAfter(env, clean, tx, h, chain.chainId);
        if Applies(env, simulated, tx, h, chain.chainId) {
          ApplyTxsPrefix(env, chain.ledger, kept, kept + [tx], |kept|, h, chain.chainId);
        }
      }
    }
  }

  /** The name it issues is taken on the simulated ledger only. */
  ghost predicate NameLeft(env: Env, chainId: u32, tx: Transaction, simulated: Ledger, clean: Ledger) {
    exists a :: Spending.Issues(env, tx.core, chainId, a) && a in simulated.assets && a !in clean.assets
  }

  /** An uncommitted transaction is dropped exactly when it does not apply after the transactions kept
      before it, or issues an asset whose name an earlier dropped issue has left in the simulation. */
  lemma DroppedExactly(env: Env, chain: Chain, blocks: seq<Block>, pool: seq<Transaction>, i: nat)
    requires i < |pool| && !InSomeBlock(env, blocks, pool[i])
    ensures var (kept, simulated) := Retain(env, chain, blocks, pool, i);
      var (clean, r) := PoolResult(env, chain, kept);
      var burnt := NameLeft(env, chain.chainId, pool[i], simulated, clean);
      && r.Pass?
      && Retain(env, chain, blocks, pool, i + 1).0
         == (if Applies(env, clean, pool[i], TrialHeight(chain), chain.chainId) && !burnt
             then kept + [pool[i]] else kept)
      && (burnt ==> exists j, a :: 0 <= j < i && Spending.Issues(env, pool[j].core, chain.chainId, a)
                      && Spending.Issues(env, pool[i].core, chain.chainId, a) && a !in clean.assets)
  {
    hide ApplyTx, TxCoreBytes, InSomeBlock, Spending.Issues, Retain;
    SimulatedIsCleanButNames(env, chain, blocks, pool, i);
    StepDecides(env, chain, blocks, pool, i);
    var (kept, simulated) := Retain(env, chain, blocks, pool, i);
    FewerNames(env, simulated, PoolResult(env, chain, kept).0, pool[i], TrialHeight(chain), chain.chainId);
    if Applies(env, PoolResult(env, chain, kept).0, pool[i], TrialHeight(chain), chain.chainId) {
      NameTaken(env, PoolResult(env, chain, kept).0, pool[i], TrialHeight(chain), chain.chainId);
    }
  }

  lemma NameTaken(env: Env, ledger: Ledger, tx: Transaction, h: u64, chainId: u32)
    requires Applies(env, ledger, tx, h, chainId)
    ensures forall a :: Spending.Issues(env, tx.core, chainId, a) ==> a !in ledger.assets
  {
    hide Conserves, InputsError, IssueError, AssetIdPreimage;
  }

  // ----- transactions that have nothing to do with each other -----

  /** `other` spends no output that `tx` spends, has none of their ids, and issues no asset that it issues. */
  ghost predicate Apart(env: Env, chainId: u32, tx: Transaction, other: Transaction) {
    && (forall i :: 0 <= i < |tx.core.inputs| ==>
         tx.core.inputs[i] !in other.core.inputs && tx.core.inputs[i].txId != env.blake3(TxCoreBytes(other.core)))
    && forall a :: Spending.Issues(env, tx.core, chainId, a) ==> !Spending.Issues(env, other.core, chainId, a)
  }

  /** Of what `tx` needs, nothing has been taken away. */
  ghost predicate StillThere(env: Env, chainId: u32, tx: Transaction, ledger: Ledger, later: Ledger) {
    && (forall i :: 0 <= i < |tx.core.inputs| && tx.core.inputs[i] in ledger.utxos ==>
         tx.core.inputs[i] in later.utxos && later.utxos[tx.core.inputs[i]] == ledger.utxos[tx.core.inputs[i]])
    && forall a :: Spending.Issues(env, tx.core, chainId, a) && a !in ledger.assets ==> a !in later.assets
  }

  lemma OneApart(env: Env, ledger: Ledger, tx: Transaction, other: Transaction, h: u64, chainId: u32)
    requires Apart(env, chainId, tx, other)
    ensures StillThere(env, chainId, tx, ledger, ApplyTx(env, ledger, other, h, chainId).0)
  {
    hide ApplyTx, TxCoreBytes, Spending.Issues;
    NamesAfter(env, ledger, other, h, chainId);
    if ApplyTx(env, ledger, other, h, chainId).1 == Pass {
      Spending.SuccessLeaves(env, ledger, other, h, chainId);
    }
  }

  lemma StillThereTwice(env: Env, chainId: u32, tx: Transaction, a: Ledger, b: Ledger, c: Ledger)
    requires StillThere(env, chainId, tx, a, b) && StillThere(env, chainId, tx, b, c)
    ensures StillThere(env, chainId, tx, a, c)
  {
  }

  lemma {:induction false} ListApart(env: Env, ledger: Ledger, tx: Transaction, txs: seq<Transaction>, n: nat, h: u64,
                                     chainId: u32)
    requires n <= |txs| && forall j :: 0 <= j < n ==> Apart(env, chainId, tx, txs[j])
    ensures StillThere(env, chainId, tx, ledger, ApplyTxs(env, ledger, txs, n, h, chainId).0)
  {
    hide ApplyTx, Apart, StillThere;
    if n == 0 {
      assert StillThere(env, chainId, tx, ledger, ledger) by { StillThereAtOnce(env, chainId, tx, ledger); }
    } else {
      ListApart(env, ledger, tx, txs, n - 1, h, chainId);
      var (before, r) := ApplyTxs(env, ledger, txs, n - 1, h, chainId);
      OneApart(env, before, tx, txs[n - 1], h, chainId);
      StillThereTwice(env, chainId, tx, ledger, before, ApplyTx(env, before, txs[n - 1], h, chainId).0);
    }
  }

  lemma StillThereAtOnce(env: Env, chainId: u32, tx: Transaction, ledger: Ledger)
    ensures StillThere(env, chainId, tx, ledger, ledger)
  {
  }

  lemma {:induction false} PoolApart(env: Env, chain: Chain, blocks: seq<Block>, pool: seq<Transaction>,
                                     tx: Transaction, n: nat)
    requires n <= |pool| && forall j :: 0 <= j < n ==> Apart(env, chain.chainId, tx, pool[j])
    ensures StillThere(env, chain.chainId, tx, chain.ledger, Retain(env, chain, blocks, pool, n).1)
  {
    hide ApplyTx, Apart, StillThere, Committed, TxId;
    if n == 0 {
      StillThereAtOnce(env, chain.chainId, tx, chain.ledger);
    } else {
      PoolApart(env, chain, blocks, pool, tx, n - 1);
      var before := Retain(env, chain, blocks, pool, n - 1).1;
      OneApart(env, before, tx, pool[n - 1], NextHeight(chain), chain.chainId);
      StillThereTwice(env, chain.chainId, tx, chain.ledger, before,
                      ApplyTx(env, before, pool[n - 1], NextHeight(chain), chain.chainId).0);
    }
  }

  lemma {:induction false} SameSums(utxos: Utxos, later: Utxos, inputs: seq<UtxoKey>, n: nat, id: AssetId)
    requires n <= |inputs|
    requires forall i :: 0 <= i < |inputs| ==> inputs[i] in utxos && inputs[i] in later
    requires forall i :: 0 <= i < |inputs| ==> later[inputs[i]].output == utxos[inputs[i]].output
    ensures InputSum(later, inputs, n, id) == InputSum(utxos, inputs, n, id)
  {
    if n > 0 {
      SameSums(utxos, later, inputs, n - 1, id);
    }
  }

  /** A transaction depends on its own inputs and its own name alone. */
  lemma StillThereApplies(env: Env, ledger: Ledger, h: u64, later: Ledger, h': u64, tx: Transaction, chainId: u32)
    requires Applies(env, ledger, tx, h, chainId) && h <= h' && StillThere(env, chainId, tx, ledger, later)
    ensures Applies(env, later, tx, h', chainId)
  {
    hide Applies, ApplyTx, WitnessError, OutputsFit, Effect, AssetIdPreimage;
    AppliesMeans(env, ledger, tx, h, chainId);
    forall i | 0 <= i < |tx.core.inputs|
      ensures tx.core.inputs[i] in later.utxos && later.utxos[tx.core.inputs[i]] == ledger.utxos[tx.core.inputs[i]]
      ensures WitnessError(env, later.utxos, tx, h', chainId, i, later.utxos[tx.core.inputs[i]].output).None?
    {
      SpendStillUnlocks(env, ledger.utxos, h, later.utxos, h', tx, chainId, i);
    }
    forall id
      ensures InputSum(later.utxos, tx.core.inputs, |tx.core.inputs|, id)
           == InputSum(ledger.utxos, tx.core.inputs, |tx.core.inputs|, id)
    {
      SameSums(ledger.utxos, later.utxos, tx.core.inputs, |tx.core.inputs|, id);
    }
    if tx.core.kind.CreateAsset? {
      var definition := tx.core.kind.definition;
      var id := DeriveAssetId(env, definition, chainId);
      assert Spending.Issues(env, tx.core, chainId, id);
      var i :| 0 <= i < |tx.core.inputs| && AuthorizesIssue(ledger.utxos, tx.core.inputs[i], definition, id);
      assert AuthorizesIssue(later.utxos, tx.core.inputs[i], definition, id);
    }
    AppliesMeans(env, later, tx, h', chainId);
  }

  /** A pending transaction that applies by itself, is in no block, and has nothing to do with the
      transactions of the new block or with those before it in the pool is still pending after it. */
  lemma IndependentSurvives(env: Env, rt: Runtime, block: Block, validators: seq<PublicKey>, i: nat)
    requires Valid(env, rt.chain, block, validators) && i < |rt.pending|
    requires Applies(env, rt.chain.ledger, rt.pending[i], TrialHeight(rt.chain), rt.chain.chainId)
    requires !InSomeBlock(env, rt.blocks + [block], rt.pending[i])
    requires forall j :: 0 <= j < |block.transactions| ==>
      Apart(env, rt.chain.chainId, rt.pending[i], block.transactions[j])
    requires forall j :: 0 <= j < i ==> Apart(env, rt.chain.chainId, rt.pending[i], rt.pending[j])
    ensures rt.pending[i] in Extended(env, rt, block).pending
  {
    hide Valid, ApplyTxs, Applies, Apart, StillThere, InSomeBlock, Selection, Retain, Roots.Root, HeaderHash;
    var tx, next := rt.pending[i], Next(env, rt.chain, block);
    var after := Extended(env, rt, block);
    ValidationImpliesApplication(env, rt.chain, block, validators);
    ListApart(env, rt.chain.ledger, tx, block.transactions, |block.transactions|, block.header.height,
              rt.chain.chainId);
    PoolApart(env, next, rt.blocks + [block], rt.pending, tx, i);
    var before := Retain(env, next, rt.blocks + [block], rt.pending, i).1;
    StillThereTwice(env, rt.chain.chainId, tx, rt.chain.ledger, next.ledger, before);
    StillThereApplies(env, rt.chain.ledger, TrialHeight(rt.chain), before, TrialHeight(next), tx, rt.chain.chainId);
    StaysIfDecided(env, Runtime(next, rt.blocks + [block], rt.pending), i);
  }

  lemma StaysIfDecided(env: Env, rt: Runtime, i: nat)
    requires i < |rt.pending| && !InSomeBlock(env, rt.blocks, rt.pending[i])
    requires Applies(env, Retain(env, rt.chain, rt.blocks, rt.pending, i).1, rt.pending[i], TrialHeight(rt.chain),
                     rt.chain.chainId)
    ensures rt.pending[i] in Reconcile(env, rt).pending
  {
    hide ApplyTx, InSomeBlock, Retain;
    StepDecides(env, rt.chain, rt.blocks, rt.pending, i);
    RetainPrefix(env, rt.chain, rt.blocks, rt.pending, i + 1, |rt.pending|);
    var kept := Retain(env, rt.chain, rt.blocks, rt.pending, i + 1).0;
    assert kept[|kept| - 1] == rt.pending[i];
    assert Reconcile(env, rt).pending[|kept| - 1] == rt.pending[i];
  }

  /** Whatever stays among the first `m` stays however long the pool is. */
  lemma {:induction false} RetainPrefix(env: Env, chain: Chain, blocks: seq<Block>, pool: seq<Transaction>, m: nat,
                                        n: nat)
    requires m <= n <= |pool|
    ensures Retain(env, chain, blocks, pool, m).0 <= Retain(env, chain, blocks, pool, n).0
  {
    hide ApplyTx, Committed, TxId;
    if m < n {
      RetainPrefix(env, chain, blocks, pool, m, n - 1);
    }
  }
}

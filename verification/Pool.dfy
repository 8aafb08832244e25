/** The pool of pending transactions: it can always be replayed on the chain, and reconciling it
    with a new block drops nothing that could still be mined. */
module Pool {
  import opened Types
  import opened Codec
  import opened LedgerRules
  import opened Consensus
  import opened NodeRules
  import opened Aging
  import Keys
  import Roots

  // ----- lists of transactions -----

  lemma {:induction false} ApplyTxsPrefix(env: Env, ledger: Ledger, a: seq<Transaction>, b: seq<Transaction>, n: nat,
                                          height: u64, chainId: u32)
    requires n <= |a| && n <= |b| && a[..n] == b[..n]
    ensures ApplyTxs(env, ledger, a, n, height, chainId) == ApplyTxs(env, ledger, b, n, height, chainId)
  {
    hide ApplyTx;
    if n > 0 {
      assert a[..n - 1] == a[..n][..n - 1] && b[..n - 1] == b[..n][..n - 1];
      ApplyTxsPrefix(env, ledger, a, b, n - 1, height, chainId);
      assert a[n - 1] == a[..n][n - 1] && b[n - 1] == b[..n][n - 1];
    }
  }

  lemma {:induction false} ApplyTxsSplit(env: Env, ledger: Ledger, txs: seq<Transaction>, m: nat, n: nat, height: u64,
                                         chainId: u32)
    requires m <= n <= |txs|
    requires ApplyTxs(env, ledger, txs, n, height, chainId).1.Pass?
    ensures ApplyTxs(env, ledger, txs, m, height, chainId).1.Pass?
    ensures ApplyTxs(env, ApplyTxs(env, ledger, txs, m, height, chainId).0, txs[m..], n - m, height, chainId)
         == ApplyTxs(env, ledger, txs, n, height, chainId)
  {
    hide ApplyTx;
    if m < n {
      ApplyTxsSplit(env, ledger, txs, m, n - 1, height, chainId);
      assert txs[m..][n - m - 1] == txs[n - 1];
    }
  }

  // ----- what reconciling keeps -----

  /** Failed attempts leave names in the simulated ledger, so the clean ledger with only the kept
      transactions applied is an aged version of it. That is enough: what passed there passes here. */
  lemma {:induction false} RetainCertified(env: Env, chain: Chain, blocks: seq<Block>, pool: seq<Transaction>, n: nat)
    requires n <= |pool|
    ensures var (kept, simulated) := Retain(env, chain, blocks, pool, n);
      var (clean, r) := PoolResult(env, chain, kept);
      r.Pass? && Aged(simulated, NextHeight(chain), clean, NextHeight(chain))
  {
    hide ApplyTx, Committed, TxId, Aged;
    var h := NextHeight(chain);
    if n == 0 {
      AgedByWaiting(chain.ledger, h, h);
    } else {
      var (kept, simulated) := Retain(env, chain, blocks, pool, n - 1);
      var tx := pool[n - 1];
      RetainCertified(env, chain, blocks, pool, n - 1);
      var clean := PoolResult(env, chain, kept).0;
      if !Committed(env, blocks, TxId(env, tx.core)) {
        if Applies(env, simulated, tx, h, chain.chainId) {
          StillApplies(env, simulated, h, clean, h, tx, chain.chainId);
          ApplyTxsPrefix(env, chain.ledger, kept, kept + [tx], |kept|, h, chain.chainId);
        } else {
          FailureOnlyRegisters(env, simulated, clean, h, tx, chain.chainId);
        }
      }
    }
  }

  ghost predicate DistinctPool(env: Env, pool: seq<Transaction>) {
    forall i, j :: 0 <= i < j < |pool| ==> TxId(env, pool[i].core) != TxId(env, pool[j].core)
  }

  /** No id is pending twice, and none is pending and committed. */
  ghost predicate PoolFresh(env: Env, blocks: seq<Block>, pool: seq<Transaction>) {
    && DistinctPool(env, pool)
    && forall i :: 0 <= i < |pool| ==> !Committed(env, blocks, TxId(env, pool[i].core))
  }

  lemma {:induction false} RetainSelects(env: Env, chain: Chain, blocks: seq<Block>, pool: seq<Transaction>, n: nat)
    requires n <= |pool| && DistinctPool(env, pool)
    ensures var kept := Retain(env, chain, blocks, pool, n).0;
      && PoolFresh(env, blocks, kept)
      && forall k :: 0 <= k < |kept| ==> kept[k] in pool[..n]
  {
    hide ApplyTx, Committed, TxId;
    if n > 0 {
      RetainSelects(env, chain, blocks, pool, n - 1);
      var kept := Retain(env, chain, blocks, pool, n - 1).0;
      assert pool[..n] == pool[..n - 1] + [pool[n - 1]];
      forall k | 0 <= k < |kept|
        ensures TxId(env, kept[k].core) != TxId(env, pool[n - 1].core)
      {
        assert kept[k] in pool[..n - 1];
        var i :| 0 <= i < n - 1 && pool[..n - 1][i] == kept[k];
        assert pool[i] == kept[k];
      }
    }
  }

  // ----- what reconciling does not drop -----

  lemma {:induction false} CommittedDropped(env: Env, chain: Chain, blocks: seq<Block>, pool: seq<Transaction>, n: nat)
    requires n <= |pool|
    requires forall i :: 0 <= i < n ==> Committed(env, blocks, TxId(env, pool[i].core))
    ensures Retain(env, chain, blocks, pool, n) == ([], chain.ledger)
  {
    hide ApplyTx, Committed, TxId;
    if n > 0 {
      CommittedDropped(env, chain, blocks, pool, n - 1);
    }
  }

  lemma {:induction false} RestKept(env: Env, chain: Chain, blocks: seq<Block>, pool: seq<Transaction>, m: nat, n: nat)
    requires m <= n <= |pool|
    requires forall i :: 0 <= i < m ==> Committed(env, blocks, TxId(env, pool[i].core))
    requires forall i :: m <= i < n ==> !Committed(env, blocks, TxId(env, pool[i].core))
    requires ApplyTxs(env, chain.ledger, pool[m..], n - m, NextHeight(chain), chain.chainId).1.Pass?
    ensures Retain(env, chain, blocks, pool, n)
         == (pool[m..n], ApplyTxs(env, chain.ledger, pool[m..], n - m, NextHeight(chain), chain.chainId).0)
  {
    hide ApplyTx, Committed, TxId;
    if m == n {
      CommittedDropped(env, chain, blocks, pool, n);
    } else {
      RestKept(env, chain, blocks, pool, m, n - 1);
      assert pool[m..][n - m - 1] == pool[n - 1];
      assert pool[m..n] == pool[m..n - 1] + [pool[n - 1]];
    }
  }

  /** Mining a prefix of the pool leaves exactly the rest committed to nothing. */
  lemma CommittedAfterPrefix(env: Env, blocks: seq<Block>, block: Block, pool: seq<Transaction>, n: nat)
    requires PoolFresh(env, blocks, pool) && n <= |pool| && SameCores(block.transactions, pool[..n])
    ensures forall i :: 0 <= i < n ==> Committed(env, blocks + [block], TxId(env, pool[i].core))
    ensures forall i :: n <= i < |pool| ==> !Committed(env, blocks + [block], TxId(env, pool[i].core))
  {
    hide TxId;
    var whole := blocks + [block];
    forall i | 0 <= i < n
      ensures Committed(env, whole, TxId(env, pool[i].core))
    {
      assert pool[..n][i] == pool[i];
      assert TxId(env, whole[|blocks|].transactions[i].core) == TxId(env, pool[i].core);
    }
    forall i | n <= i < |pool|
      ensures !Committed(env, whole, TxId(env, pool[i].core))
    {
      forall b, j | 0 <= b < |whole| && 0 <= j < |whole[b].transactions|
        ensures TxId(env, whole[b].transactions[j].core) != TxId(env, pool[i].core)
      {
        assert b == |blocks| ==> pool[..n][j] == pool[j];
      }
    }
  }

  lemma BlockLedger(env: Env, chain: Chain, block: Block, validators: seq<PublicKey>, pool: seq<Transaction>, n: nat)
    requires Valid(env, chain, block, validators) && n <= |pool| && SameCores(block.transactions, pool[..n])
    requires PoolResult(env, chain, pool).1.Pass?
    ensures Next(env, chain, block).ledger
         == ApplyTxs(env, chain.ledger, pool, n, NextHeight(chain), chain.chainId).0
  {
    hide ApplyTxs, HeaderHash, Roots.Root, Keys.Verifies, TxRoot, ExpectedProposer;
    var h := block.header.height;
    assert h == NextHeight(chain);
    ApplyTxsSplit(env, chain.ledger, pool, n, |pool|, h, chain.chainId);
    ApplyTxsPrefix(env, chain.ledger, pool, pool[..n], n, h, chain.chainId);
    SameCoresSameLedger(env, chain.ledger, block.transactions, pool[..n], n, h, chain.chainId);
  }

  /** No spurious eviction: when the next block is a prefix of the pool, up to witnesses, or is
      empty, the pool loses that prefix and nothing else. */
  lemma NoSpuriousEviction(env: Env, rt: Runtime, block: Block, validators: seq<PublicKey>, n: nat)
    requires PoolResult(env, rt.chain, rt.pending).1.Pass? && PoolFresh(env, rt.blocks, rt.pending)
    requires Valid(env, rt.chain, block, validators)
    requires n <= |rt.pending| && SameCores(block.transactions, rt.pending[..n])
    ensures Extended(env, rt, block).pending == rt.pending[n..]
  {
    hide ApplyTxs, Valid, ApplyBlock, SameCores, TxId, Committed;
    var pool, h := rt.pending, NextHeight(rt.chain);
    var next := Next(env, rt.chain, block);
    ValidationImpliesApplication(env, rt.chain, block, validators);
    BlockLedger(env, rt.chain, block, validators, pool, n);
    ApplyTxsSplit(env, rt.chain.ledger, pool, n, |pool|, h, rt.chain.chainId);
    AgedByWaiting(next.ledger, h, NextHeight(next));
    AllStillApply(env, next.ledger, h, next.ledger, NextHeight(next), pool[n..], |pool| - n, next.chainId);
    CommittedAfterPrefix(env, rt.blocks, block, pool, n);
    RestKept(env, next, rt.blocks + [block], pool, n, |pool|);
    assert pool[n..|pool|] == pool[n..];
  }

  // ----- admission -----

  lemma AcceptKeepsPool(env: Env, rt: Runtime, tx: Transaction)
    requires PoolResult(env, rt.chain, rt.pending).1.Pass? && PoolFresh(env, rt.blocks, rt.pending)
    ensures var (after, r) := Accept(env, rt, tx);
      && PoolResult(env, after.chain, after.pending).1.Pass?
      && PoolFresh(env, after.blocks, after.pending)
      && !(r.Err? && r.error.PoolBecameInvalid?)
  {
    hide ApplyTx, Committed, TxId;
    ApplyTxsPrefix(env, rt.chain.ledger, rt.pending, rt.pending + [tx], |rt.pending|, NextHeight(rt.chain),
                   rt.chain.chainId);
  }

  /** A transaction is newly admitted exactly when its id is neither committed nor pending and the
      pool with it at the end can still be replayed on the chain. */
  lemma AdmittedExactly(env: Env, rt: Runtime, tx: Transaction)
    requires PoolResult(env, rt.chain, rt.pending).1.Pass?
    ensures var (after, r) := Accept(env, rt, tx);
      && (r.Ok? && r.value.New? <==>
            && !Committed(env, rt.blocks, TxId(env, tx.core))
            && !Pending(env, rt.pending, TxId(env, tx.core))
            && PoolResult(env, rt.chain, rt.pending + [tx]).1.Pass?)
      && after == (if r.Ok? && r.value.New? then rt.(pending := rt.pending + [tx]) else rt)
  {
    hide ApplyTx, Committed, Pending, TxId;
    ApplyTxsPrefix(env, rt.chain.ledger, rt.pending, rt.pending + [tx], |rt.pending|, NextHeight(rt.chain),
                   rt.chain.chainId);
  }
}

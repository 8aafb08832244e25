/** The node as the source keeps it: a runtime whose fields are replaced step by step, and two
    files. Every method is proved against NodeRules. */
module NodeObjects {
  import opened Types
  import opened Codec
  import Consensus
  import ConsensusObjects
  import Encoder
  import LedgerObjects
  import LedgerRules
  import NodeRules
  import Roots
  import Snapshots

  /** The state file and the block history. A write is told how it ends. */
  class Storage {
    var state: NodeRules.StateFile
    var blocks: NodeRules.BlocksFile

    constructor ()
      ensures Files() == NodeRules.Disk(NodeRules.NoState, NodeRules.NoBlocks)
    {
      state := NodeRules.NoState;
      blocks := NodeRules.NoBlocks;
    }

    function Files(): NodeRules.Disk
      reads this
    {
      NodeRules.Disk(state, blocks)
    }

    /** `save_block_history`: the new contents go to a file beside the old one, which is then renamed. */
    method SaveBlockHistory(history: seq<Block>, w: NodeRules.WriteOutcome) returns (saved: bool)
      modifies this
      ensures saved == w.Done?
      ensures Files() == old(Files()).(blocks := NodeRules.AfterWrite(w, old(blocks), NodeRules.Stored(history)))
    {
      if !w.FailedBefore? {
        blocks := NodeRules.Stored(history);
      }
      return w.Done?;
    }

    /** `save_chain_state`. */
    method SaveChainState(chain: ConsensusObjects.ChainState, w: NodeRules.WriteOutcome) returns (saved: bool)
      modifies this
      ensures saved == w.Done?
      ensures Files() == old(Files()).(state := NodeRules.AfterWrite(w, old(state),
        NodeRules.Saved(Snapshots.SnapshotOf(chain.Value()))))
    {
      if !w.FailedBefore? {
        state := NodeRules.Saved(Snapshots.Snapshot(
          Roots.SortedUtxos(chain.ledger.utxos), Roots.SortedAssets(chain.ledger.assets),
          chain.height, chain.tipHash, chain.stateRoot, chain.lastTimestamp, chain.chainId));
      }
      return w.Done?;
    }
  }

  ghost predicate InBlock(env: Env, txs: seq<Transaction>, n: nat, id: Hash256)
    requires n <= |txs|
  {
    exists j :: 0 <= j < n && TxId(env, txs[j].core) == id
  }

  lemma CommittedExtend(env: Env, blocks: seq<Block>, i: nat, id: Hash256)
    requires i < |blocks|
    ensures var txs := blocks[i].transactions;
      var before, here := NodeRules.Committed(env, blocks[..i], id), InBlock(env, txs, |txs|, id);
      NodeRules.Committed(env, blocks[..i + 1], id) <==> before || here
  {
    hide TxId;
    var front, longer := blocks[..i], blocks[..i + 1];
    assert forall b :: 0 <= b < i ==> longer[b] == front[b];
    if NodeRules.Committed(env, front, id) {
      var b, j :| 0 <= b < i && 0 <= j < |front[b].transactions| && TxId(env, front[b].transactions[j].core) == id;
      assert TxId(env, longer[b].transactions[j].core) == id;
    }
    if j :| 0 <= j < |blocks[i].transactions| && TxId(env, blocks[i].transactions[j].core) == id {
      assert TxId(env, longer[i].transactions[j].core) == id;
    }
    if NodeRules.Committed(env, longer, id) {
      var b, j :| 0 <= b < i + 1 && 0 <= j < |longer[b].transactions|
        && TxId(env, longer[b].transactions[j].core) == id;
      assert b < i ==> TxId(env, front[b].transactions[j].core) == id;
    }
  }

  lemma NothingCommitted(env: Env, blocks: seq<Block>, id: Hash256)
    requires blocks == []
    ensures !NodeRules.Committed(env, blocks, id)
  {
  }

  lemma CommittedFurther(env: Env, blocks: seq<Block>, i: nat, id: Hash256)
    requires i <= |blocks| && NodeRules.Committed(env, blocks[..i], id)
    ensures NodeRules.Committed(env, blocks, id)
  {
    hide TxId;
    var b, j :| 0 <= b < i && 0 <= j < |blocks[..i][b].transactions|
      && TxId(env, blocks[..i][b].transactions[j].core) == id;
    assert TxId(env, blocks[b].transactions[j].core) == id;
  }

  /** `transaction_is_committed`. */
  method IsCommitted(env: Env, blocks: seq<Block>, id: Hash256) returns (found: bool)
    ensures found == NodeRules.Committed(env, blocks, id)
  {
    hide TxId, NodeRules.Committed;
    NothingCommitted(env, blocks[..0], id);
    for i := 0 to |blocks|
      invariant !NodeRules.Committed(env, blocks[..i], id)
    {
      CommittedExtend(env, blocks, i, id);
      for j := 0 to |blocks[i].transactions|
        invariant !InBlock(env, blocks[i].transactions, j, id)
      {
        var txId := Encoder.ComputeTxId(env, blocks[i].transactions[j].core);
        if txId == id {
          CommittedFurther(env, blocks, i + 1, id);
          return true;
        }
      }
    }
    assert blocks[..|blocks|] == blocks;
    return false;
  }

  method IsPending(env: Env, pool: seq<Transaction>, id: Hash256) returns (found: bool)
    ensures found == NodeRules.Pending(env, pool, id)
  {
    hide TxId;
    for i := 0 to |pool|
      invariant forall k :: 0 <= k < i ==> TxId(env, pool[k].core) != id
    {
      var txId := Encoder.ComputeTxId(env, pool[i].core);
      if txId == id { return true; }
    }
    return false;
  }

  /** The ids of all transactions in a history. */
  method CommittedIds(env: Env, blocks: seq<Block>) returns (ids: set<Hash256>)
    ensures forall id :: id in ids <==> NodeRules.Committed(env, blocks, id)
  {
    hide TxId, NodeRules.Committed;
    ids := {};
    forall id ensures !NodeRules.Committed(env, blocks[..0], id) { NothingCommitted(env, blocks[..0], id); }
    for i := 0 to |blocks|
      invariant forall id :: id in ids <==> NodeRules.Committed(env, blocks[..i], id)
    {
      ghost var before := ids;
      var txs := blocks[i].transactions;
      for j := 0 to |txs|
        invariant forall id :: id in ids <==> id in before || InBlock(env, txs, j, id)
      {
        var txId := Encoder.ComputeTxId(env, txs[j].core);
        ids := ids + {txId};
      }
      forall id
        ensures id in ids <==> NodeRules.Committed(env, blocks[..i + 1], id)
      {
        CommittedExtend(env, blocks, i, id);
      }
    }
    assert blocks[..|blocks|] == blocks;
  }

  /** `rebuild_chain_state_from_blocks`. */
  method RebuildChainState(env: Env, chainId: u32, validators: seq<PublicKey>, blocks: seq<Block>)
    returns (chain: ConsensusObjects.ChainState, complete: bool)
    ensures fresh(chain) && fresh(chain.ledger)
    ensures complete == Consensus.Rebuild(env, chainId, validators, blocks).Some?
    ensures complete ==> chain.Value() == Consensus.Rebuild(env, chainId, validators, blocks).value
  {
    hide Consensus.ApplyBlock, Consensus.ValidateBlock, Roots.Root;
    chain := new ConsensusObjects.ChainState.Default(env, chainId);
    for i := 0 to |blocks|
      invariant fresh(chain) && fresh(chain.ledger)
      invariant Consensus.Rebuild(env, chainId, validators, blocks[..i]) == Some(chain.Value())
    {
      assert blocks[..i + 1][..i] == blocks[..i];
      var verdict := ConsensusObjects.ValidateReplayedBlock(env, chain, blocks[i], validators);
      if verdict.Fail? {
        if Consensus.Rebuild(env, chainId, validators, blocks).Some? {
          Consensus.RebuildPrefix(env, chainId, validators, blocks, i);
        }
        return chain, false;
      }
      Consensus.ValidationImpliesApplication(env, chain.Value(), blocks[i], validators);
      var applied := chain.ApplyBlock(env, blocks[i]);
    }
    assert blocks[..|blocks|] == blocks;
    return chain, true;
  }

  class NodeRuntime {
    const config: NodeRules.Config
    const storage: Storage
    var chain: ConsensusObjects.ChainState
    var blocks: seq<Block>
    var pending: seq<Transaction>

    constructor (config: NodeRules.Config, storage: Storage, chain: ConsensusObjects.ChainState, blocks: seq<Block>)
      ensures this.config == config && this.storage == storage && this.chain == chain
      ensures Value() == NodeRules.Runtime(chain.Value(), blocks, [])
    {
      this.config := config;
      this.storage := storage;
      this.chain := chain;
      this.blocks := blocks;
      this.pending := [];
    }

    ghost function Value(): NodeRules.Runtime
      reads this, chain, chain.ledger
    {
      NodeRules.Runtime(chain.Value(), blocks, pending)
    }

    /** `block_at_height`. */
    method BlockAtHeight(height: u64) returns (block: Option<Block>)
      ensures block == NodeRules.BlockAt(blocks, height)
    {
      var index := if height == 0 then 0 else height - 1;
      if index < |blocks| { return Some(blocks[index]); }
      return None;
    }

    /** A ledger of its own with the chain's contents, and the height a next block would have. */
    method CopyLedger() returns (ledger: LedgerObjects.LedgerState)
      ensures fresh(ledger) && ledger.State() == chain.Value().ledger
    {
      ledger := new LedgerObjects.LedgerState(Ledger(chain.ledger.utxos, chain.ledger.assets));
    }

    /** `reconcile_pending_transactions`. */
    method ReconcilePending()
      modifies this`pending
      ensures Value() == NodeRules.Reconcile(config.env, old(Value()))
    {
      hide LedgerRules.ApplyTx, TxId, NodeRules.Committed;
      if pending == [] { return; }
      var pool := pending;
      var height := if chain.height == U64_MAX then U64_MAX else chain.height + 1;
      var committed := CommittedIds(config.env, blocks);
      var simulated := CopyLedger();
      var retained: seq<Transaction> := [];
      for i := 0 to |pool|
        invariant pending == pool
        invariant fresh(simulated)
        invariant (retained, simulated.State()) == NodeRules.Retain(config.env, chain.Value(), blocks, pool, i)
      {
        var txId := Encoder.ComputeTxId(config.env, pool[i].core);
        if txId !in committed {
          var applied := simulated.ApplyTransaction(config.env, pool[i], height, chain.chainId);
          if applied.Pass? {
            retained := retained + [pool[i]];
          }
        }
      }
      pending := retained;
    }

    /** `accept_transaction`. */
    method AcceptTransaction(tx: Transaction) returns (r: Result<NodeRules.Accepted, NodeRules.NodeError>)
      modifies this`pending
      ensures (Value(), r) == NodeRules.Accept(config.env, old(Value()), tx)
    {
      hide LedgerRules.ApplyTxs, LedgerRules.ApplyTx, TxId, NodeRules.Committed, NodeRules.Pending;
      var txId := Encoder.ComputeTxId(config.env, tx.core);
      var committed := IsCommitted(config.env, blocks, txId);
      if committed { return Err(NodeRules.AlreadyCommitted); }
      var known := IsPending(config.env, pending, txId);
      if known { return Ok(NodeRules.Known(txId)); }
      var ledger := CopyLedger();
      var height := if chain.height == U64_MAX then U64_MAX else chain.height + 1;
      var replayed := ConsensusObjects.ApplyAll(config.env, ledger, pending, height, chain.chainId);
      if replayed.Fail? { return Err(NodeRules.PoolBecameInvalid(replayed.error)); }
      var admitted := ledger.ApplyTransaction(config.env, tx, height, chain.chainId);
      if admitted.Fail? { return Err(NodeRules.NotAdmitted(admitted.error)); }
      pending := pending + [tx];
      return Ok(NodeRules.New(txId));
    }

    /** `apply_block`. */
    method ApplyBlock(block: Block, w1: NodeRules.WriteOutcome, w2: NodeRules.WriteOutcome)
      returns (r: Result<u64, NodeRules.NodeError>)
      modifies this, storage
      ensures (Value(), storage.Files(), r)
           == NodeRules.Apply(config, old(Value()), old(storage.Files()), block, w1, w2)
    {
      hide Consensus.ValidateBlock, Consensus.ApplyBlock, NodeRules.Retain, Snapshots.SnapshotOf;
      var verdict := ConsensusObjects.ValidateReplayedBlock(config.env, chain, block, config.Validators());
      if verdict.Fail? { return Err(NodeRules.BlockRejected(verdict.error)); }
      var nextChain := new ConsensusObjects.ChainState.Copy(chain);
      var applied := nextChain.ApplyBlock(config.env, block);
      if applied.Fail? { return Err(NodeRules.ApplyFailed(applied.error)); }
      var nextBlocks := blocks + [block];
      var saved := storage.SaveBlockHistory(nextBlocks, w1);
      if !saved { return Err(NodeRules.WriteFailed); }
      saved := storage.SaveChainState(nextChain, w2);
      if !saved { return Err(NodeRules.WriteFailed); }
      Consensus.ValidationImpliesApplication(config.env, old(Value()).chain, block, config.Validators());
      Consensus.HeightFollows(config.env, old(Value()).chain, block, config.Validators());
      chain := nextChain;
      blocks := nextBlocks;
      ReconcilePending();
      return Ok(chain.height);
    }

    /** `produce_one_block`, with the clock reading as a parameter. */
    method ProduceOneBlock(clock: u64, w1: NodeRules.WriteOutcome, w2: NodeRules.WriteOutcome)
      returns (r: Result<Option<Block>, NodeRules.NodeError>)
      modifies this, storage
      ensures (Value(), storage.Files(), r)
           == NodeRules.Produce(config, old(Value()), old(storage.Files()), clock, w1, w2)
    {
      hide Consensus.ProposeBlock, NodeRules.Apply;
      if chain.height == U64_MAX { return Err(NodeRules.NoProposal(Consensus.ConsensusError.Overflow)); }
      if Consensus.ExpectedProposer(config.Validators(), chain.height + 1) != Ok(config.publicKey) { return Ok(None); }
      if pending == [] && !config.produceEmpty { return Ok(None); }
      var block := ConsensusObjects.ProposeBlock(config.env, chain, pending, config.Validators(),
                                                 config.publicKey, config.privateKey, clock);
      if block.Err? { return Err(NodeRules.NoProposal(block.error)); }
      var applied := ApplyBlock(block.value, w1, w2);
      if applied.Err? { return Err(applied.error); }
      return Ok(Some(block.value));
    }
  }

  /** `load_chain_state`. */
  method LoadChainState(file: NodeRules.StateFile) returns (r: Result<Option<Consensus.Chain>, NodeRules.NodeError>)
    ensures r == NodeRules.LoadState(file)
  {
    hide Snapshots.Restore;
    match file {
      case NoState => return Ok(None);
      case Garbled => return Err(NodeRules.StateUnreadable);
      case Older(chain) => return Ok(Some(chain));
      case Saved(snapshot) =>
        var restored := Snapshots.IntoChainState(snapshot);
        if restored.Err? { return Err(NodeRules.StateUnreadable); }
        return Ok(Some(restored.value));
    }
  }

  /** `load_or_repair_storage`, and the runtime that starts from it. */
  method LoadOrRepairStorage(config: NodeRules.Config, storage: Storage, w: NodeRules.WriteOutcome)
    returns (r: Result<NodeRuntime, NodeRules.NodeError>)
    modifies storage
    ensures var (disk, loaded) := NodeRules.Load(config, old(storage.Files()), w);
      && storage.Files() == disk
      && (r.Ok? <==> loaded.Ok?)
      && (r.Err? ==> r.error == loaded.error)
      && (r.Ok? ==> fresh(r.value) && r.value.Value() == loaded.value)
      && (r.Ok? ==> r.value.config == config && r.value.storage == storage)
  {
    hide NodeRules.LoadState, Consensus.Rebuild, Snapshots.SnapshotOf;
    var stored := LoadChainState(storage.state);
    if stored.Err? { return Err(stored.error); }
    if storage.blocks.Damaged? { return Err(NodeRules.BlocksUnreadable); }
    var blocks := NodeRules.HistoryOf(storage.blocks);
    var rebuilt, complete := RebuildChainState(config.env, config.chainId, config.configured, blocks);
    if !complete { return Err(NodeRules.HistoryInvalid); }
    var differs := blocks != [];
    if stored.value.Some? {
      var chain := stored.value.value;
      if chain.chainId != config.chainId { return Err(NodeRules.WrongChain); }
      differs := chain.height != rebuilt.height || chain.tipHash != rebuilt.tipHash
        || chain.stateRoot != rebuilt.stateRoot || chain.lastTimestamp != rebuilt.lastTimestamp;
    }
    if differs {
      var saved := storage.SaveChainState(rebuilt, w);
      if !saved { return Err(NodeRules.WriteFailed); }
    }
    var runtime := new NodeRuntime(config, storage, rebuilt, blocks);
    return Ok(runtime);
  }
}

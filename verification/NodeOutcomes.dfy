/** What each operation of a node returns, and what it does to the runtime and to each of the two files. */
module NodeOutcomes {
  import opened Types
  import opened Codec
  import opened LedgerRules
  import opened Consensus
  import opened NodeRules
  import Keys
  import NodeRuns
  import Pool
  import Reconciling
  import Roots
  import Snapshots
  import Spending

  // ----- serving blocks -----

  /** In a reachable runtime a height up to its own is served with the block of that height, a greater one
      with none; and height 0 is taken for 1. */
  lemma ServesItsHeights(c: Config, events: seq<Event>, height: u64)
    requires Exec(c, NodeRuns.FRESH, events).running.Some?
    ensures var rt := Exec(c, NodeRuns.FRESH, events).running.value;
      && (0 < height <= rt.chain.height ==>
            BlockAt(rt.blocks, height).Some? && BlockAt(rt.blocks, height).value.header.height == height)
      && (height > rt.chain.height ==> BlockAt(rt.blocks, height) == None)
      && BlockAt(rt.blocks, 0) == BlockAt(rt.blocks, 1)
  {
    hide Exec, Rebuild, Pool.PoolFresh, PoolResult, Roots.Root, LinkedAt;
    NodeRuns.ReachableShape(c, events);
    var rt := Exec(c, NodeRuns.FRESH, events).running.value;
    if 0 < height <= rt.chain.height {
      LinkedHeight(c.env, rt.blocks, height - 1);
    }
  }

  lemma LinkedHeight(env: Env, blocks: seq<Block>, i: nat)
    requires Linked(env, blocks) && i < |blocks|
    ensures blocks[i].header.height == i + 1
  {
    assert LinkedAt(env, blocks, i);
  }

  // ----- admitting a transaction -----

  /** Some pending transaction has this one's id. */
  predicate InPool(env: Env, pool: seq<Transaction>, tx: Transaction) {
    exists i :: 0 <= i < |pool| && env.blake3(TxCoreBytes(pool[i].core)) == env.blake3(TxCoreBytes(tx.core))
  }

  /** Committed, pending, tried after a pool that no longer applies, tried and refused with the error of its
      failure, or appended; and only the last changes anything. */
  lemma AcceptExactly(env: Env, rt: Runtime, tx: Transaction, e: LedgerError)
    ensures var (after, r) := Accept(env, rt, tx);
      var id, height := env.blake3(TxCoreBytes(tx.core)), Reconciling.TrialHeight(rt.chain);
      var committed, pending := Reconciling.InSomeBlock(env, rt.blocks, tx), InPool(env, rt.pending, tx);
      var (ledger, pool) := ApplyTxs(env, rt.chain.ledger, rt.pending, |rt.pending|, height, rt.chain.chainId);
      var tried := !committed && !pending && pool.Pass?;
      && (r == Err(AlreadyCommitted) <==> committed)
      && (r == Ok(Known(id)) <==> !committed && pending)
      && (r == Err(PoolBecameInvalid(e)) <==> !committed && !pending && pool == Fail(e))
      && (r == Err(NotAdmitted(e)) <==> tried && Spending.FailsWith(env, ledger, tx, height, rt.chain.chainId, e))
      && (r == Ok(New(id)) <==> tried && Spending.Acceptable(env, ledger, tx, height, rt.chain.chainId))
      && after == rt.(pending := if r == Ok(New(id)) then rt.pending + [tx] else rt.pending)
  {
    hide ApplyTxs, ApplyTx, TxCoreBytes, Spending.FailsWith, Spending.Acceptable;
    var (ledger, pool) := PoolResult(env, rt.chain, rt.pending);
    Spending.OutcomeExactly(env, ledger, tx, NextHeight(rt.chain), rt.chain.chainId, e);
  }

  // ----- applying a block -----

  /** A block is taken over exactly when it is valid and both writes complete. An invalid one is refused
      with its error and touches nothing; the history is written before the state, the state only if that
      write completed, and the runtime changes only after both. */
  lemma ApplyExactly(c: Config, rt: Runtime, disk: Disk, block: Block, w1: WriteOutcome, w2: WriteOutcome,
                     e: ConsensusError)
    ensures var (rt', disk', r) := Apply(c, rt, disk, block, w1, w2);
      var verdict, next := ValidateBlock(c.env, rt.chain, block, c.Validators()), Next(c.env, rt.chain, block);
      && (r == Ok(block.header.height) <==> verdict.Pass? && w1.Done? && w2.Done?)
      && (r == Err(BlockRejected(e)) <==> verdict == Fail(e))
      && (r == Err(WriteFailed) <==> verdict.Pass? && !(w1.Done? && w2.Done?))
      && disk'.blocks == (if verdict.Pass? && !w1.FailedBefore? then Stored(rt.blocks + [block]) else disk.blocks)
      && disk'.state == (if verdict.Pass? && w1.Done? && !w2.FailedBefore? then Saved(Snapshots.SnapshotOf(next))
                         else disk.state)
      && (r.Err? ==> rt' == rt)
      && (r.Ok? ==> rt' == Reconcile(c.env, Runtime(next, rt.blocks + [block], rt.pending)))
  {
    hide ValidateBlock, ApplyBlock, Retain, Snapshots.SnapshotOf;
    if Valid(c.env, rt.chain, block, c.Validators()) {
      ValidationImpliesApplication(c.env, rt.chain, block, c.Validators());
    }
  }

  // ----- producing one -----

  /** It is this node's turn, always so for a node without a list of validators, and there is something to
      mine or empty blocks are wanted. */
  predicate Due(c: Config, rt: Runtime) {
    && (c.configured == [] || c.configured[rt.chain.height % |c.configured|] == c.publicKey)
    && (rt.pending != [] || c.produceEmpty)
  }

  /** A node does nothing exactly when no block is due. */
  lemma IdleExactly(c: Config, rt: Runtime, disk: Disk, clock: u64, w1: WriteOutcome, w2: WriteOutcome)
    ensures var (rt', disk', r) := Produce(c, rt, disk, clock, w1, w2);
      && (r == Ok(None) <==> rt.chain.height < U64_MAX && !Due(c, rt))
      && (r == Ok(None) || rt.chain.height == U64_MAX ==> rt' == rt && disk' == disk)
      && (rt.chain.height == U64_MAX ==> r.Err?)
  {
    hide ProposeBlock, Apply, Snapshots.SnapshotOf;
  }

  /** What it makes is its own block of the whole pool on its tip, at the time on the clock; it is valid,
      and held in memory and on disk. */
  lemma ProducedExactly(c: Config, rt: Runtime, disk: Disk, clock: u64, w1: WriteOutcome, w2: WriteOutcome)
    ensures var (rt', disk', r) := Produce(c, rt, disk, clock, w1, w2);
      && (r.Ok? && r.value.Some? ==>
            var block := r.value.value;
            && IsProposal(c, rt, clock, block)
            && Valid(c.env, rt.chain, block, c.Validators())
            && w1.Done? && w2.Done?
            && rt'.blocks == rt.blocks + [block] && disk'.blocks == Stored(rt'.blocks))
      && (r.Err? ==> rt' == rt)
  {
    hide ProposeBlock, Apply, Valid, IsProposal, Snapshots.SnapshotOf;
    var proposal := ProposeBlock(c.env, rt.chain, rt.pending, c.Validators(), c.publicKey, c.privateKey, clock);
    if proposal.Ok? {
      ProposalIs(c, rt, clock);
      ApplyKept(c, rt, disk, proposal.value, w1, w2);
      var (kept, _, r) := Apply(c, rt, disk, proposal.value, w1, w2);
      assert r.Err? ==> kept == rt;
      assert r.Ok? ==> Produce(c, rt, disk, clock, w1, w2).2.Ok? || rt.chain.height == U64_MAX;
    }
  }

  predicate IsProposal(c: Config, rt: Runtime, clock: u64, block: Block) {
    && block.transactions == rt.pending && block.proposerPublicKey == c.publicKey
    && block.header.timestamp == clock && block.header.parentHash == rt.chain.tipHash
  }

  lemma ProposalIs(c: Config, rt: Runtime, clock: u64)
    ensures var r := ProposeBlock(c.env, rt.chain, rt.pending, c.Validators(), c.publicKey, c.privateKey, clock);
      r.Ok? ==> IsProposal(c, rt, clock, r.value)
  {
    hide ApplyTxs, Roots.Root, Keys.Sign, TxRoot, HeaderBytes;
  }

  lemma ApplyKept(c: Config, rt: Runtime, disk: Disk, block: Block, w1: WriteOutcome, w2: WriteOutcome)
    ensures var (rt', disk', r) := Apply(c, rt, disk, block, w1, w2);
      && (r.Ok? ==>
            && Valid(c.env, rt.chain, block, c.Validators()) && w1.Done? && w2.Done?
            && rt'.blocks == rt.blocks + [block] && disk'.blocks == Stored(rt'.blocks))
      && (r.Err? ==> rt' == rt)
  {
    hide ValidateBlock, ApplyBlock, Retain, Snapshots.SnapshotOf;
  }

  // ----- starting up -----

  ghost predicate RepeatsKey(s: Snapshots.Snapshot) {
    || (exists i, j :: 0 <= i < j < |s.utxos| && s.utxos[i].key == s.utxos[j].key)
    || (exists i, j :: 0 <= i < j < |s.assets| && s.assets[i].key == s.assets[j].key)
  }

  /** Neither format, or a snapshot in which a key is repeated. */
  ghost predicate Unreadable(file: StateFile) {
    file.Garbled? || (file.Saved? && RepeatsKey(file.snapshot))
  }

  /** The chain id that a state file is for. */
  function StoredChainId(file: StateFile): Option<u32> {
    match file
    case Saved(snapshot) => Some(snapshot.chainId)
    case Older(chain) => Some(chain.chainId)
    case _ => None
  }

  /** The state file shows this chain's height, tip, root and time; whether its ledger is the chain's, it
      does not say. */
  predicate Shows(file: StateFile, chain: Chain) {
    match file
    case Saved(s) =>
      && s.height == chain.height && s.tipHash == chain.tipHash
      && s.stateRoot == chain.stateRoot && s.lastTimestamp == chain.lastTimestamp
    case Older(s) =>
      && s.height == chain.height && s.tipHash == chain.tipHash
      && s.stateRoot == chain.stateRoot && s.lastTimestamp == chain.lastTimestamp
    case _ => false
  }

  /** The state file has to be written again: it shows something else, or is missing beside a history. */
  predicate Outdated(file: StateFile, blocks: seq<Block>, chain: Chain) {
    if file.NoState? then blocks != [] else !Shows(file, chain)
  }

  /** A start fails, in this order, on an unreadable state, an unreadable history, a history with an invalid
      block, or a state of another chain. Otherwise it rewrites an outdated state, fails if that write does,
      and gives the chain of the history with nothing pending. The history file is never touched. */
  lemma LoadExactly(c: Config, disk: Disk, w: WriteOutcome)
    ensures var (disk', r) := Load(c, disk, w);
      var blocks := if disk.blocks.Stored? then disk.blocks.blocks else [];
      var rebuilt := Rebuild(c.env, c.chainId, c.configured, blocks);
      var readable := !Unreadable(disk.state) && !disk.blocks.Damaged?;
      var other := StoredChainId(disk.state).Some? && StoredChainId(disk.state).value != c.chainId;
      && (r == Err(StateUnreadable) <==> Unreadable(disk.state))
      && (r == Err(BlocksUnreadable) <==> !Unreadable(disk.state) && disk.blocks.Damaged?)
      && (r == Err(HistoryInvalid) <==> readable && rebuilt.None?)
      && (r == Err(WrongChain) <==> readable && rebuilt.Some? && other)
      && (!(readable && rebuilt.Some? && !other) ==> disk' == disk)
      && (readable && rebuilt.Some? && !other ==>
            var outdated := Outdated(disk.state, blocks, rebuilt.value);
            && disk' == disk.(state := if outdated && !w.FailedBefore? then Saved(Snapshots.SnapshotOf(rebuilt.value))
                                       else disk.state)
            && r == if outdated && !w.Done? then Err(WriteFailed) else Ok(Runtime(rebuilt.value, blocks, [])))
  {
    hide Rebuild, Snapshots.SnapshotOf, Outdated, Unreadable, LoadState, StateDiffers;
    ReadableExactly(disk.state);
    var blocks := HistoryOf(disk.blocks);
    var rebuilt := Rebuild(c.env, c.chainId, c.configured, blocks);
    if rebuilt.Some? && LoadState(disk.state).Ok? {
      OutdatedExactly(disk.state, blocks, rebuilt.value);
    }
  }

  lemma OutdatedExactly(file: StateFile, blocks: seq<Block>, chain: Chain)
    requires LoadState(file).Ok?
    ensures StateDiffers(LoadState(file).value, blocks, chain) <==> Outdated(file, blocks, chain)
  {
  }

  lemma ReadableExactly(file: StateFile)
    ensures LoadState(file) == Err(StateUnreadable) <==> Unreadable(file)
    ensures LoadState(file).Err? ==> LoadState(file).error == StateUnreadable
    ensures LoadState(file).Ok? ==> (LoadState(file).value.Some? <==> StoredChainId(file).Some?)
    ensures LoadState(file).Ok? && LoadState(file).value.Some? ==>
      StoredChainId(file) == Some(LoadState(file).value.value.chainId)
  {
  }
}

/** Whole runs of one node, with writes that fail and restarts at any point. */
module NodeRuns {
  import opened Types
  import opened Codec
  import opened LedgerRules
  import opened Consensus
  import opened NodeRules
  import opened Pool
  import Keys
  import Roots
  import Snapshots
  import Supply

  // ----- invariants -----

  ghost predicate RuntimeInv(c: Config, rt: Runtime) {
    && Rebuild(c.env, c.chainId, c.configured, rt.blocks) == Some(rt.chain)
    && PoolResult(c.env, rt.chain, rt.pending).1.Pass?
    && PoolFresh(c.env, rt.blocks, rt.pending)
  }

  /** Files that load: a history that validates, and no state file or a readable one of this chain. */
  ghost predicate Sound(c: Config, disk: Disk) {
    && !disk.blocks.Damaged?
    && Rebuild(c.env, c.chainId, c.configured, HistoryOf(disk.blocks)).Some?
    && LoadState(disk.state).Ok?
    && (LoadState(disk.state).value.Some? ==> LoadState(disk.state).value.value.chainId == c.chainId)
  }

  /** The history on disk is the one in memory, or has one more block that is valid on top of it. */
  ghost predicate AtMostOneAhead(c: Config, rt: Runtime, history: seq<Block>) {
    || history == rt.blocks
    || (|history| == |rt.blocks| + 1
        && history[..|rt.blocks|] == rt.blocks
        && Valid(c.env, rt.chain, history[|rt.blocks|], c.configured))
  }

  ghost predicate NodeInv(c: Config, node: Node) {
    && Sound(c, node.disk)
    && (node.running.Some? ==>
          RuntimeInv(c, node.running.value) && AtMostOneAhead(c, node.running.value, HistoryOf(node.disk.blocks)))
  }

  // ----- one step -----

  /** A block the running engine accepts would be accepted while rebuilding too: without a
      configured list, rebuilding does not ask who proposed. */
  lemma EngineStricter(c: Config, chain: Chain, block: Block)
    requires Valid(c.env, chain, block, c.Validators())
    ensures Valid(c.env, chain, block, c.configured)
  {
    hide ApplyTxs, Roots.Root, Keys.Verifies, TxRoot, HeaderBytes;
  }

  lemma ExtendedKeepsInv(c: Config, rt: Runtime, block: Block)
    requires RuntimeInv(c, rt) && Valid(c.env, rt.chain, block, c.configured)
    ensures RuntimeInv(c, Extended(c.env, rt, block))
  {
    hide Valid, ApplyBlock, ApplyTxs, Retain, PoolFresh;
    RebuildExtend(c.env, c.chainId, c.configured, rt.blocks, block);
    var next, blocks := Next(c.env, rt.chain, block), rt.blocks + [block];
    RetainCertified(c.env, next, blocks, rt.pending, |rt.pending|);
    assert DistinctPool(c.env, rt.pending) by { FreshIsDistinct(c.env, rt.blocks, rt.pending); }
    RetainSelects(c.env, next, blocks, rt.pending, |rt.pending|);
  }

  lemma FreshIsDistinct(env: Env, blocks: seq<Block>, pool: seq<Transaction>)
    requires PoolFresh(env, blocks, pool)
    ensures DistinctPool(env, pool)
  {
  }

  lemma SavedLoads(chain: Chain)
    ensures LoadState(Saved(Snapshots.SnapshotOf(chain))) == Ok(Some(chain))
  {
    hide Snapshots.Restore, Snapshots.SnapshotOf;
    Snapshots.RestoreAfterSnapshot(chain);
  }

  /** Applying a block keeps every invariant, whichever write fails; never fails on the ledger once
      the block is validated; and changes the runtime only if it reports success. */
  lemma ApplyKeepsInv(c: Config, rt: Runtime, disk: Disk, block: Block, w1: WriteOutcome, w2: WriteOutcome)
    requires NodeInv(c, Node(disk, Some(rt)))
    ensures var (rt', disk', r) := Apply(c, rt, disk, block, w1, w2);
      && NodeInv(c, Node(disk', Some(rt')))
      && !(r.Err? && r.error.ApplyFailed?)
      && (r.Err? ==> rt' == rt)
      && (r.Ok? ==> rt'.blocks == HistoryOf(disk'.blocks) == rt.blocks + [block])
      && (r.Ok? ==> rt'.chain == Next(c.env, rt.chain, block))
  {
    hide RuntimeInv, ValidateBlock, ApplyBlock, Snapshots.SnapshotOf, LoadState, Retain, Rebuild;
    if Valid(c.env, rt.chain, block, c.Validators()) {
      ValidationImpliesApplication(c.env, rt.chain, block, c.Validators());
      EngineStricter(c, rt.chain, block);
      assert Rebuild(c.env, c.chainId, c.configured, rt.blocks) == Some(rt.chain) by { InvRebuilds(c, rt); }
      RebuildExtend(c.env, c.chainId, c.configured, rt.blocks, block);
      ExtendedKeepsInv(c, rt, block);
      var next := Next(c.env, rt.chain, block);
      SavedLoads(next);
      assert rt.chain.chainId == c.chainId by { HistoryShape(c.env, c.chainId, c.configured, rt.blocks); }
      assert (rt.blocks + [block])[..|rt.blocks|] == rt.blocks;
    }
  }

  lemma InvRebuilds(c: Config, rt: Runtime)
    requires RuntimeInv(c, rt)
    ensures Rebuild(c.env, c.chainId, c.configured, rt.blocks) == Some(rt.chain)
  {
  }

  lemma ProduceKeepsInv(c: Config, rt: Runtime, disk: Disk, clock: u64, w1: WriteOutcome, w2: WriteOutcome)
    requires NodeInv(c, Node(disk, Some(rt)))
    ensures var (rt', disk', r) := Produce(c, rt, disk, clock, w1, w2);
      && NodeInv(c, Node(disk', Some(rt')))
      && (!(r.Ok? && r.value.Some?) ==> rt' == rt)
      && (r.Ok? && r.value.Some? ==> rt'.blocks == rt.blocks + [r.value.value])
  {
    hide NodeInv, Apply, ExpectedProposer, ProposeBlock;
    var proposal := ProposeBlock(c.env, rt.chain, rt.pending, c.Validators(), c.publicKey, c.privateKey, clock);
    if proposal.Ok? {
      ApplyKeepsInv(c, rt, disk, proposal.value, w1, w2);
      var (rt', disk', r) := Apply(c, rt, disk, proposal.value, w1, w2);
      assert r.Err? ==> rt' == rt;
    }
  }

  lemma LoadedInv(c: Config, blocks: seq<Block>)
    requires Rebuild(c.env, c.chainId, c.configured, blocks).Some?
    ensures RuntimeInv(c, Runtime(Rebuild(c.env, c.chainId, c.configured, blocks).value, blocks, []))
  {
    hide Rebuild;
  }

  /** Starting from sound files fails only if the repair cannot be written, and even then leaves
      sound files with the same history. */
  lemma LoadKeepsInv(c: Config, disk: Disk, w: WriteOutcome)
    requires Sound(c, disk)
    ensures var (disk', r) := Load(c, disk, w);
      && NodeInv(c, Node(disk', if r.Ok? then Some(r.value) else None))
      && disk'.blocks == disk.blocks
      && (w.Done? ==> r.Ok?)
      && (r.Ok? ==> r.value.blocks == HistoryOf(disk.blocks) && r.value.pending == [])
      && (r.Ok? ==> Rebuild(c.env, c.chainId, c.configured, HistoryOf(disk.blocks)) == Some(r.value.chain))
  {
    hide Rebuild, RuntimeInv, Snapshots.SnapshotOf, LoadState;
    var history := HistoryOf(disk.blocks);
    var rebuilt := Rebuild(c.env, c.chainId, c.configured, history).value;
    HistoryShape(c.env, c.chainId, c.configured, history);
    SavedLoads(rebuilt);
    LoadedInv(c, history);
  }

  lemma AcceptKeepsInv(c: Config, node: Node, tx: Transaction)
    requires NodeInv(c, node) && node.running.Some?
    ensures NodeInv(c, node.(running := Some(Accept(c.env, node.running.value, tx).0)))
  {
    hide PoolResult, PoolFresh, Rebuild, Sound, Valid;
    AcceptKeepsPool(c.env, node.running.value, tx);
    AcceptKeepsChain(c.env, node.running.value, tx);
  }

  lemma AcceptKeepsChain(env: Env, rt: Runtime, tx: Transaction)
    ensures Accept(env, rt, tx).0.chain == rt.chain && Accept(env, rt, tx).0.blocks == rt.blocks
  {
  }

  lemma StepKeepsInv(c: Config, node: Node, event: Event)
    requires NodeInv(c, node)
    ensures NodeInv(c, Step(c, node, event))
  {
    hide Sound, RuntimeInv, AtMostOneAhead, Apply, Produce, Accept, Load;
    match event {
      case Stop =>
      case Start(w) => LoadKeepsInv(c, node.disk, w);
      case Submit(tx) => if node.running.Some? { AcceptKeepsInv(c, node, tx); }
      case Receive(block, w1,
                   w2) => if node.running.Some? { ApplyKeepsInv(c, node.running.value, node.disk, block, w1, w2); }
      case Mine(clock, w1, w2) =>
        if node.running.Some? { ProduceKeepsInv(c, node.running.value, node.disk, clock, w1, w2); }
    }
  }

  // ----- whole runs -----

  lemma {:induction false} EveryRunKeepsInv(c: Config, node: Node, events: seq<Event>)
    requires NodeInv(c, node)
    ensures NodeInv(c, Exec(c, node, events))
  {
    hide NodeInv, Step;
    if events != [] {
      EveryRunKeepsInv(c, node, events[..|events| - 1]);
      StepKeepsInv(c, Exec(c, node, events[..|events| - 1]), events[|events| - 1]);
    }
  }

  /** A node that has never run. */
  const FRESH := Node(Disk(NoState, NoBlocks), None)

  lemma FreshInv(c: Config)
    ensures NodeInv(c, FRESH)
  {
  }

  /** Crash recovery: after any run with failing writes and restarts, the history on disk is the one
      in memory or that and one validated block; and starting again never fails and yields the
      replay of the disk history, whatever readable state file of this chain lies beside it; a
      further start then writes nothing and yields the same. */
  lemma CrashRecovery(c: Config, events: seq<Event>, state: StateFile)
    requires LoadState(state).Ok?
    requires LoadState(state).value.Some? ==> LoadState(state).value.value.chainId == c.chainId
    ensures var node := Exec(c, FRESH, events);
      var history := HistoryOf(node.disk.blocks);
      var (disk', r) := Load(c, node.disk.(state := state), Done);
      && (node.running.Some? ==> AtMostOneAhead(c, node.running.value, history))
      && r.Ok? && r.value.blocks == history
      && Rebuild(c.env, c.chainId, c.configured, history) == Some(r.value.chain)
      && forall w :: Load(c, disk', w) == (disk', r)
  {
    hide Exec, Rebuild, LoadState, Snapshots.SnapshotOf, AtMostOneAhead, RuntimeInv;
    FreshInv(c);
    EveryRunKeepsInv(c, FRESH, events);
    var node := Exec(c, FRESH, events);
    LoadKeepsInv(c, node.disk.(state := state), Done);
    SavedLoads(Rebuild(c.env, c.chainId, c.configured, HistoryOf(node.disk.blocks)).value);
  }

  // ----- history only grows -----

  ghost predicate Includes(base: seq<Block>, node: Node) {
    && base <= HistoryOf(node.disk.blocks)
    && (node.running.Some? ==> base <= node.running.value.blocks)
  }

  lemma StepKeepsHistory(c: Config, node: Node, event: Event, base: seq<Block>)
    requires NodeInv(c, node) && Includes(base, node)
    ensures Includes(base, Step(c, node, event))
  {
    hide Sound, RuntimeInv, Valid, Accept, Load, Rebuild, ValidateBlock, ApplyBlock, ProposeBlock,
         Snapshots.SnapshotOf, ExpectedProposer, Reconcile;
    match event {
      case Stop =>
      case Start(w) => LoadKeepsInv(c, node.disk, w);
      case Submit(tx) => if node.running.Some? { AcceptKeepsChain(c.env, node.running.value, tx); }
      case Receive(block, w1,
                   w2) => if node.running.Some? { ApplyKeepsInv(c, node.running.value, node.disk, block, w1, w2); }
      case Mine(clock, w1, w2) =>
        if node.running.Some? { ProduceKeepsInv(c, node.running.value, node.disk, clock, w1, w2); }
    }
  }

  lemma {:induction false} RunKeepsHistory(c: Config, node: Node, events: seq<Event>, base: seq<Block>)
    requires NodeInv(c, node) && Includes(base, node)
    ensures Includes(base, Exec(c, node, events))
  {
    hide NodeInv, Includes, Step;
    if events != [] {
      var before := events[..|events| - 1];
      RunKeepsHistory(c, node, before, base);
      EveryRunKeepsInv(c, node, before);
      StepKeepsHistory(c, Exec(c, node, before), events[|events| - 1], base);
    }
  }

  /** Append-only: what a running node holds at one point is the beginning of what it holds at any
      later point, across restarts, and never leaves its disk. */
  lemma HistoryAppendOnly(c: Config, early: seq<Event>, late: seq<Event>)
    requires Exec(c, FRESH, early).running.Some?
    ensures var base := Exec(c, FRESH, early).running.value.blocks;
      var later := Exec(c, Exec(c, FRESH, early), late);
      && base <= HistoryOf(later.disk.blocks)
      && (later.running.Some? ==> base <= later.running.value.blocks)
  {
    hide Exec, Rebuild, Valid, PoolFresh, PoolResult, Sound;
    FreshInv(c);
    EveryRunKeepsInv(c, FRESH, early);
    var node := Exec(c, FRESH, early);
    RunKeepsHistory(c, node, late, node.running.value.blocks);
  }

  /** Every reachable runtime: linked headers, a height that counts them, a chain that is their
      replay with the root of its own ledger, and a pool that can be replayed on top. */
  lemma ReachableShape(c: Config, events: seq<Event>)
    requires Exec(c, FRESH, events).running.Some?
    ensures var rt := Exec(c, FRESH, events).running.value;
      && Rebuild(c.env, c.chainId, c.configured, rt.blocks) == Some(rt.chain)
      && Linked(c.env, rt.blocks)
      && rt.chain.height == |rt.blocks|
      && rt.chain.stateRoot == Roots.Root(c.env, rt.chain.ledger)
      && PoolResult(c.env, rt.chain, rt.pending).1.Pass?
      && PoolFresh(c.env, rt.blocks, rt.pending)
  {
    hide Exec, Rebuild, Linked, PoolFresh, PoolResult, Roots.Root, Sound, AtMostOneAhead;
    FreshInv(c);
    EveryRunKeepsInv(c, FRESH, events);
    HistoryShape(c.env, c.chainId, c.configured, Exec(c, FRESH, events).running.value.blocks);
  }

  /** In a reachable node the pool never becomes invalid, so admission never fails on it; and a
      validated block never fails to apply. Both error branches are dead. */
  lemma DeadBranches(c: Config, events: seq<Event>, tx: Transaction, block: Block, w1: WriteOutcome, w2: WriteOutcome)
    requires Exec(c, FRESH, events).running.Some?
    ensures var node := Exec(c, FRESH, events);
      var rt := node.running.value;
      var accepted, applied := Accept(c.env, rt, tx).1, Apply(c, rt, node.disk, block, w1, w2).2;
      && !(accepted.Err? && accepted.error.PoolBecameInvalid?)
      && !(applied.Err? && applied.error.ApplyFailed?)
  {
    hide Exec, Accept, Apply, Rebuild, PoolFresh, PoolResult, Sound, AtMostOneAhead;
    FreshInv(c);
    EveryRunKeepsInv(c, FRESH, events);
    var node := Exec(c, FRESH, events);
    AcceptKeepsPool(c.env, node.running.value, tx);
    assert node == Node(node.disk, Some(node.running.value));
    ApplyKeepsInv(c, node.running.value, node.disk, block, w1, w2);
  }

  // ----- proposing -----

  lemma {:induction false} SameCoresRefl(txs: seq<Transaction>)
    ensures SameCores(txs, txs)
  {
  }

  /** Proposal totality: in its turn, with something to mine, a node proposes its whole pool and the
      proposal is refused exactly when the clock has not moved past the chain's last timestamp;
      once the writes go through, the pool is empty. */
  lemma ProposalTotal(c: Config, rt: Runtime, disk: Disk, clock: u64, w1: WriteOutcome, w2: WriteOutcome)
    requires RuntimeInv(c, rt) && Keys.KeyPair(c.env, c.publicKey, c.privateKey)
    requires rt.chain.height < U64_MAX && ExpectedProposer(c.Validators(), rt.chain.height + 1) == Ok(c.publicKey)
    requires rt.pending != [] || c.produceEmpty
    ensures var (rt', disk', r) := Produce(c, rt, disk, clock, w1, w2);
      && (r.Ok? <==> clock > rt.chain.lastTimestamp && w1.Done? && w2.Done?)
      && (r.Ok? ==> r.value.Some? && r.value.value.transactions == rt.pending)
      && (r.Ok? ==> rt'.blocks == rt.blocks + [r.value.value] && rt'.pending == [])
      && (clock <= rt.chain.lastTimestamp ==> (rt', disk') == (rt, disk) && r.error.BlockRejected?)
      && (clock > rt.chain.lastTimestamp && r.Err? ==> r.error.WriteFailed?)
  {
    hide ProposeBlock, ValidateBlock, ApplyBlock, ApplyTxs, Retain, Snapshots.SnapshotOf, ExpectedProposer, PoolFresh,
         Rebuild, Keys.KeyPair, SameCores;
    assert PoolResult(c.env, rt.chain, rt.pending) == After(c.env, rt.chain, rt.pending, rt.chain.height + 1);
    ProposalValidIffClockAdvanced(c.env, rt.chain, rt.pending, c.Validators(), c.publicKey, c.privateKey, clock);
    var block := ProposeBlock(c.env, rt.chain, rt.pending, c.Validators(), c.publicKey, c.privateKey, clock).value;
    if clock > rt.chain.lastTimestamp {
      ValidationImpliesApplication(c.env, rt.chain, block, c.Validators());
      WholePoolMined(c, rt, block);
    }
  }

  lemma WholePoolMined(c: Config, rt: Runtime, block: Block)
    requires RuntimeInv(c, rt) && Valid(c.env, rt.chain, block, c.Validators()) && block.transactions == rt.pending
    ensures Extended(c.env, rt, block).pending == []
  {
    hide Valid, PoolResult, PoolFresh, Rebuild, SameCores, Reconcile, ApplyBlock;
    assert rt.pending[..|rt.pending|] == rt.pending;
    SameCoresRefl(rt.pending);
    NoSpuriousEviction(c.env, rt, block, c.Validators(), |rt.pending|);
  }

  // ----- supply -----

  /** Fixed supply in every reachable runtime: no QCOIN and no unregistered asset exists, and any
      registered asset exists in exactly the amount its one CreateAsset issued. */
  lemma ReachableSupply(c: Config, events: seq<Event>, id: AssetId)
    requires Exec(c, FRESH, events).running.Some?
    requires Supply.DistinctIds(c.env, HistoryRun(Exec(c, FRESH, events).running.value.blocks))
    requires Supply.SumsFit(c.env, HistoryRun(Exec(c, FRESH, events).running.value.blocks))
    ensures var rt := Exec(c, FRESH, events).running.value;
      var ledger := rt.chain.ledger;
      && Supply.Total(ledger.utxos, QCOIN_ASSET_ID) == 0
      && (id !in ledger.assets ==> Supply.Total(ledger.utxos, id) == 0)
      && (id in ledger.assets ==>
            exists i: nat ::
              && Supply.Creates(c.env, c.chainId, HistoryRun(rt.blocks), i, id)
              && Supply.Total(ledger.utxos, id) == HistoryRun(rt.blocks)[i].tx.core.kind.initialSupply
              && (ledger.assets[id].maxSupply.Some? ==>
                Supply.Total(ledger.utxos, id) <= ledger.assets[id].maxSupply.value))
  {
    hide Exec, Rebuild, Supply.Total, Supply.DistinctIds, Supply.SumsFit, HistoryRun, PoolFresh, PoolResult, Sound,
         AtMostOneAhead;
    FreshInv(c);
    EveryRunKeepsInv(c, FRESH, events);
    var rt := Exec(c, FRESH, events).running.value;
    SupplyOfHistory(c.env, c.chainId, c.configured, rt.blocks, id);
  }
}

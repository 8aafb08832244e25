/** One node (qcoin-node): its runtime, its two files, and what each operation does to them. A
    write either completes, fails with the old file in place, or fails with the new file already in
    place; stopping the process at any point and starting it again is such a failure and a restart. */
module NodeRules {
  import opened Types
  import opened Codec
  import opened LedgerRules
  import opened Consensus
  import Snapshots

  datatype WriteOutcome = Done | FailedBefore | FailedAfter

  // What the chain state file holds: a snapshot, the older format, or neither.
  datatype StateFile = NoState | Saved(snapshot: Snapshots.Snapshot) | Older(chain: Chain) | Garbled
  datatype BlocksFile = NoBlocks | Stored(blocks: seq<Block>) | Damaged
  datatype Disk = Disk(state: StateFile, blocks: BlocksFile)

  datatype Config = Config(
    env: Env,
    chainId: u32,
    configured: seq<PublicKey>,
    publicKey: PublicKey,
    privateKey: PrivateKey,
    produceEmpty: bool)
  {
    /** The consensus engine of a node without a validator list has itself for a list. */
    function Validators(): seq<PublicKey> {
      if configured == [] then [publicKey] else configured
    }
  }

  datatype Runtime = Runtime(chain: Chain, blocks: seq<Block>, pending: seq<Transaction>)

  datatype NodeError =
    | BlockRejected(reason: ConsensusError)
    | ApplyFailed(failure: LedgerError)
    | WriteFailed
    | AlreadyCommitted
    | PoolBecameInvalid(failure: LedgerError)
    | NotAdmitted(failure: LedgerError)
    | NoProposal(reason: ConsensusError)
    | StateUnreadable
    | BlocksUnreadable
    | HistoryInvalid
    | WrongChain

  datatype Accepted = New(id: Hash256) | Known(id: Hash256)

  function NextHeight(chain: Chain): u64 {
    if chain.height == U64_MAX then U64_MAX else chain.height + 1
  }

  function AfterWrite<T>(w: WriteOutcome, before: T, written: T): T {
    if w.FailedBefore? then before else written
  }

  // ----- the pool -----

  ghost predicate Committed(env: Env, blocks: seq<Block>, id: Hash256) {
    exists i, j :: 0 <= i < |blocks| && 0 <= j < |blocks[i].transactions|
      && TxId(env, blocks[i].transactions[j].core) == id
  }

  predicate Pending(env: Env, pool: seq<Transaction>, id: Hash256) {
    exists i :: 0 <= i < |pool| && TxId(env, pool[i].core) == id
  }

  /** The loop of `reconcile_pending_transactions` over the first `n`: what it keeps, and its
      simulated ledger, on which failed attempts leave their mark. */
  ghost function Retain(env: Env, chain: Chain, blocks: seq<Block>, pool: seq<Transaction>,
                        n: nat): (seq<Transaction>, Ledger)
    requires n <= |pool|
  {
    if n == 0 then ([], chain.ledger)
    else
      var (kept, simulated) := Retain(env, chain, blocks, pool, n - 1);
      var tx := pool[n - 1];
      if Committed(env, blocks, TxId(env, tx.core)) then (kept, simulated)
      else
        var (ledger, r) := ApplyTx(env, simulated, tx, NextHeight(chain), chain.chainId);
        (if r.Pass? then kept + [tx] else kept, ledger)
  }

  /** `block_at_height`. */
  function BlockAt(blocks: seq<Block>, height: u64): Option<Block> {
    var index := if height == 0 then 0 else height - 1;
    if index < |blocks| then Some(blocks[index]) else None
  }

  ghost function Reconcile(env: Env, rt: Runtime): Runtime {
    rt.(pending := Retain(env, rt.chain, rt.blocks, rt.pending, |rt.pending|).0)
  }

  ghost function PoolResult(env: Env, chain: Chain, pool: seq<Transaction>): (Ledger, Outcome<LedgerError>) {
    ApplyTxs(env, chain.ledger, pool, |pool|, NextHeight(chain), chain.chainId)
  }

  /** `accept_transaction`. */
  ghost function Accept(env: Env, rt: Runtime, tx: Transaction): (Runtime, Result<Accepted, NodeError>) {
    var id := TxId(env, tx.core);
    var (ledger, r) := PoolResult(env, rt.chain, rt.pending);
    if Committed(env, rt.blocks, id) then (rt, Err(AlreadyCommitted))
    else if Pending(env, rt.pending, id) then (rt, Ok(Known(id)))
    else if r.Fail? then (rt, Err(PoolBecameInvalid(r.error)))
    else
      var admitted := ApplyTx(env, ledger, tx, NextHeight(rt.chain), rt.chain.chainId).1;
      if admitted.Fail? then (rt, Err(NotAdmitted(admitted.error)))
      else (rt.(pending := rt.pending + [tx]), Ok(New(id)))
  }

  // ----- blocks -----

  ghost function Extended(env: Env, rt: Runtime, block: Block): Runtime {
    Reconcile(env, Runtime(Next(env, rt.chain, block), rt.blocks + [block], rt.pending))
  }

  /** `apply_block`: validate, apply to a copy, write the history, write the state, and only then
      touch the runtime. */
  ghost function Apply(c: Config, rt: Runtime, disk: Disk, block: Block, w1: WriteOutcome, w2: WriteOutcome):
    (Runtime, Disk, Result<u64, NodeError>)
  {
    var verdict := ValidateBlock(c.env, rt.chain, block, c.Validators());
    var applied := ApplyBlock(c.env, rt.chain, block).1;
    if verdict.Fail? then (rt, disk, Err(BlockRejected(verdict.error)))
    else if applied.Fail? then (rt, disk, Err(ApplyFailed(applied.error)))
    else
      var disk1 := disk.(blocks := AfterWrite(w1, disk.blocks, Stored(rt.blocks + [block])));
      if !w1.Done? then (rt, disk1, Err(WriteFailed))
      else
        var disk2 := disk1.(state := AfterWrite(w2, disk1.state,
                                                Saved(Snapshots.SnapshotOf(Next(c.env, rt.chain, block)))));
        if !w2.Done? then (rt, disk2, Err(WriteFailed))
        else (Extended(c.env, rt, block), disk2, Ok(block.header.height))
  }

  /** `produce_one_block`, with the clock reading as a parameter. */
  ghost function Produce(c: Config, rt: Runtime, disk: Disk, clock: u64, w1: WriteOutcome, w2: WriteOutcome):
    (Runtime, Disk, Result<Option<Block>, NodeError>)
  {
    if rt.chain.height == U64_MAX then (rt, disk, Err(NoProposal(ConsensusError.Overflow)))
    else if ExpectedProposer(c.Validators(), rt.chain.height + 1) != Ok(c.publicKey) then (rt, disk, Ok(None))
    else if rt.pending == [] && !c.produceEmpty then (rt, disk, Ok(None))
    else
      match ProposeBlock(c.env, rt.chain, rt.pending, c.Validators(), c.publicKey, c.privateKey, clock)
      case Err(e) => (rt, disk, Err(NoProposal(e)))
      case Ok(block) =>
        var (rt', disk', r) := Apply(c, rt, disk, block, w1, w2);
        match r
        case Err(e) => (rt', disk', Err(e))
        case Ok(_) => (rt', disk', Ok(Some(block)))
  }

  // ----- starting up -----

  function LoadState(file: StateFile): Result<Option<Chain>, NodeError> {
    match file
    case NoState => Ok(None)
    case Garbled => Err(StateUnreadable)
    case Older(chain) => Ok(Some(chain))
    case Saved(snapshot) =>
      match Snapshots.Restore(snapshot)
      case Ok(chain) => Ok(Some(chain))
      case Err(_) => Err(StateUnreadable)
  }

  function HistoryOf(file: BlocksFile): seq<Block> {
    if file.Stored? then file.blocks else []
  }

  predicate StateDiffers(stored: Option<Chain>, blocks: seq<Block>, rebuilt: Chain) {
    match stored
    case None => blocks != []
    case Some(chain) =>
      || chain.height != rebuilt.height
      || chain.tipHash != rebuilt.tipHash
      || chain.stateRoot != rebuilt.stateRoot
      || chain.lastTimestamp != rebuilt.lastTimestamp
  }

  /** `load_or_repair_storage`: the history decides; a state file that disagrees is rewritten. */
  ghost function Load(c: Config, disk: Disk, w: WriteOutcome): (Disk, Result<Runtime, NodeError>) {
    var stored := LoadState(disk.state);
    var blocks := HistoryOf(disk.blocks);
    var rebuilt := Rebuild(c.env, c.chainId, c.configured, blocks);
    if stored.Err? then (disk, Err(stored.error))
    else if disk.blocks.Damaged? then (disk, Err(BlocksUnreadable))
    else if rebuilt.None? then (disk, Err(HistoryInvalid))
    else if stored.value.Some? && stored.value.value.chainId != c.chainId then (disk, Err(WrongChain))
    else if StateDiffers(stored.value, blocks, rebuilt.value) then
      var disk' := disk.(state := AfterWrite(w, disk.state, Saved(Snapshots.SnapshotOf(rebuilt.value))));
      (disk', if w.Done? then Ok(Runtime(rebuilt.value, blocks, [])) else Err(WriteFailed))
    else (disk, Ok(Runtime(rebuilt.value, blocks, [])))
  }

  // ----- runs -----

  datatype Event =
    | Receive(block: Block, w1: WriteOutcome, w2: WriteOutcome)
    | Submit(tx: Transaction)
    | Mine(clock: u64, w1: WriteOutcome, w2: WriteOutcome)
    | Stop
    | Start(w: WriteOutcome)

  /** A node is its files and, while it runs, a runtime. */
  datatype Node = Node(disk: Disk, running: Option<Runtime>)

  ghost function Step(c: Config, node: Node, event: Event): Node {
    match event
    case Stop => node.(running := None)
    case Start(w) =>
      var (disk, r) := Load(c, node.disk, w);
      Node(disk, if r.Ok? then Some(r.value) else None)
    case Submit(tx) =>
      if node.running.None? then node
      else node.(running := Some(Accept(c.env, node.running.value, tx).0))
    case Receive(block, w1, w2) =>
      if node.running.None? then node
      else
        var (rt, disk, _) := Apply(c, node.running.value, node.disk, block, w1, w2);
        Node(disk, Some(rt))
    case Mine(clock, w1, w2) =>
      if node.running.None? then node
      else
        var (rt, disk, _) := Produce(c, node.running.value, node.disk, clock, w1, w2);
        Node(disk, Some(rt))
  }

  ghost function Exec(c: Config, node: Node, events: seq<Event>): Node {
    if events == [] then node
    else Step(c, Exec(c, node, events[..|events| - 1]), events[|events| - 1])
  }
}

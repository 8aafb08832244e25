/** Whether the state file agrees with the history after a start. Starting compares height, tip hash,
    state root and last timestamp, never the ledger: a file with these four right is left as it is. */
module StateFiles {
  import opened Types
  import opened Consensus
  import opened NodeRules
  import opened NodeRuns
  import Snapshots

  /** A start leaves a state file of exactly the rebuilt chain if and only if it found one that differs
      in one of the four fields, which it rewrites, or one with the right ledger, or none beside a
      history, for which it writes one. */
  lemma AgreesExactly(c: Config, disk: Disk, w: WriteOutcome)
    requires Load(c, disk, w).1.Ok?
    ensures var (disk', r) := Load(c, disk, w);
      var found := LoadState(disk.state).value;
      var rewritten := StateDiffers(found, HistoryOf(disk.blocks), r.value.chain);
      var right := found.Some? && found.value.ledger == r.value.chain.ledger;
      LoadState(disk'.state) == Ok(Some(r.value.chain)) <==> rewritten || right
  {
    hide Rebuild, LoadState, Snapshots.SnapshotOf;
    HistoryShape(c.env, c.chainId, c.configured, HistoryOf(disk.blocks));
    SavedLoads(Rebuild(c.env, c.chainId, c.configured, HistoryOf(disk.blocks)).value);
  }

  /** The state of an empty chain, but for an asset that does not exist. */
  function Stale(c: Config, definition: AssetDefinition): StateFile {
    Older(Genesis(c.env, c.chainId).(ledger := Ledger(map[], map[ZERO_HASH := definition])))
  }

  /** Such a file is left in place, and still says so after any number of starts. */
  lemma StaleLedgerKept(c: Config, definition: AssetDefinition, w: WriteOutcome)
    ensures var disk := Disk(Stale(c, definition), NoBlocks);
      && Load(c, disk, w) == (disk, Ok(Runtime(Genesis(c.env, c.chainId), [], [])))
      && LoadState(disk.state) != Ok(Some(Genesis(c.env, c.chainId)))
  {
    assert ZERO_HASH in Stale(c, definition).chain.ledger.assets;
  }

  // ----- files that the node wrote itself -----

  /** The snapshot of the chain that a history leads to. */
  ghost predicate SnapshotOfHistory(c: Config, state: StateFile, history: seq<Block>) {
    && Rebuild(c.env, c.chainId, c.configured, history).Some?
    && state == Saved(Snapshots.SnapshotOf(Rebuild(c.env, c.chainId, c.configured, history).value))
  }

  ghost predicate OwnState(c: Config, state: StateFile) {
    state.NoState? || exists history :: SnapshotOfHistory(c, state, history)
  }

  lemma ApplyWritesOwn(c: Config, rt: Runtime, disk: Disk, block: Block, w1: WriteOutcome, w2: WriteOutcome)
    requires NodeInv(c, Node(disk, Some(rt))) && OwnState(c, disk.state)
    ensures OwnState(c, Apply(c, rt, disk, block, w1, w2).1.state)
  {
    hide ValidateBlock, ApplyBlock, Rebuild, Snapshots.SnapshotOf, Retain, Sound, AtMostOneAhead;
    if Valid(c.env, rt.chain, block, c.Validators()) {
      EngineStricter(c, rt.chain, block);
      InvRebuilds(c, rt);
      RebuildExtend(c.env, c.chainId, c.configured, rt.blocks, block);
      assert SnapshotOfHistory(c, Saved(Snapshots.SnapshotOf(Next(c.env, rt.chain, block))), rt.blocks + [block]);
    }
  }

  lemma StepWritesOwn(c: Config, node: Node, event: Event)
    requires NodeInv(c, node) && OwnState(c, node.disk.state)
    ensures OwnState(c, Step(c, node, event).disk.state)
  {
    hide NodeInv, Apply, Accept, ProposeBlock, ExpectedProposer, Rebuild, Snapshots.SnapshotOf, LoadState, OwnState;
    if node.running.Some? {
      assert node == Node(node.disk, Some(node.running.value));
    }
    match event {
      case Start(w) => LoadWritesOwn(c, node.disk, w);
      case Receive(block, w1, w2) =>
        if node.running.Some? {
          ApplyWritesOwn(c, node.running.value, node.disk, block, w1, w2);
        }
      case Mine(clock, w1, w2) =>
        if node.running.Some? {
          var rt := node.running.value;
          var proposal := ProposeBlock(c.env, rt.chain, rt.pending, c.Validators(), c.publicKey, c.privateKey, clock);
          if proposal.Ok? {
            ApplyWritesOwn(c, rt, node.disk, proposal.value, w1, w2);
          }
        }
      case _ =>
    }
  }

  lemma LoadWritesOwn(c: Config, disk: Disk, w: WriteOutcome)
    requires OwnState(c, disk.state)
    ensures OwnState(c, Load(c, disk, w).0.state)
  {
    hide Rebuild, Snapshots.SnapshotOf, LoadState, StateDiffers;
    var history := HistoryOf(disk.blocks);
    if Rebuild(c.env, c.chainId, c.configured, history).Some? {
      assert SnapshotOfHistory(
        c, Saved(Snapshots.SnapshotOf(Rebuild(c.env, c.chainId, c.configured, history).value)), history);
    }
  }

  lemma {:induction false} EveryRunWritesOwn(c: Config, events: seq<Event>)
    ensures OwnState(c, Exec(c, FRESH, events).disk.state)
  {
    hide NodeInv, OwnState, Step;
    if events == [] {
      assert OwnState(c, FRESH.disk.state) by { FreshIsOwn(c); }
    } else {
      var before := events[..|events| - 1];
      EveryRunWritesOwn(c, before);
      FreshInv(c);
      EveryRunKeepsInv(c, FRESH, before);
      StepWritesOwn(c, Exec(c, FRESH, before), events[|events| - 1]);
    }
  }

  lemma FreshIsOwn(c: Config)
    ensures OwnState(c, FRESH.disk.state)
  {
  }

  /** The snapshot of one history beside another: if the four fields agree, so does the rest. */
  lemma SnapshotAgrees(c: Config, disk: Disk, history: seq<Block>)
    requires Sound(c, disk) && SnapshotOfHistory(c, disk.state, history)
    requires CollisionFree(c.env, HistoryPreimages(c.env, history) + HistoryPreimages(c.env, HistoryOf(disk.blocks)))
    ensures var (disk', r) := Load(c, disk, Done);
      r.Ok? && LoadState(disk'.state) == Ok(Some(r.value.chain))
  {
    hide Rebuild, LoadState, Snapshots.SnapshotOf, CollisionFree, HistoryPreimages, Linked, SameHistory, Sound;
    var blocks := HistoryOf(disk.blocks);
    assert Rebuild(c.env, c.chainId, c.configured, blocks).Some? by { SoundRebuilds(c, disk); }
    var found := Rebuild(c.env, c.chainId, c.configured, history).value;
    var rebuilt := Rebuild(c.env, c.chainId, c.configured, blocks).value;
    SavedLoads(found);
    LoadKeepsInv(c, disk, Done);
    AgreesExactly(c, disk, Done);
    HistoryShape(c.env, c.chainId, c.configured, history);
    HistoryShape(c.env, c.chainId, c.configured, blocks);
    if !StateDiffers(Some(found), blocks, rebuilt) && blocks != [] {
      TipDeterminesHistory(c.env, c.chainId, c.configured, history, c.configured, blocks);
    }
  }

  lemma SoundRebuilds(c: Config, disk: Disk)
    requires Sound(c, disk)
    ensures Rebuild(c.env, c.chainId, c.configured, HistoryOf(disk.blocks)).Some?
  {
  }

  /** Of the files that a node can have written itself in any run, every start leaves one of exactly the
      rebuilt chain, or none beside no history, as long as the headers and cores behind them do not
      collide. */
  lemma OwnFilesAgree(c: Config, events: seq<Event>)
    ensures var disk := Exec(c, FRESH, events).disk;
      var (disk', r) := Load(c, disk, Done);
      || (&& disk.state.NoState? && r.Ok?
          && (HistoryOf(disk.blocks) == [] || LoadState(disk'.state) == Ok(Some(r.value.chain))))
      || exists history ::
           && SnapshotOfHistory(c, disk.state, history)
           && (CollisionFree(c.env, HistoryPreimages(c.env, history) + HistoryPreimages(c.env, HistoryOf(disk.blocks)))
               ==> r.Ok? && LoadState(disk'.state) == Ok(Some(r.value.chain)))
  {
    hide Exec, Load, Rebuild, CollisionFree, HistoryPreimages, SnapshotOfHistory, RuntimeInv, AtMostOneAhead, LoadState;
    FreshInv(c);
    EveryRunKeepsInv(c, FRESH, events);
    EveryRunWritesOwn(c, events);
    var disk := Exec(c, FRESH, events).disk;
    if disk.state.NoState? {
      assert LoadState(disk.state) == Ok(None) by { NothingLoaded(); }
      LoadKeepsInv(c, disk, Done);
      AgreesExactly(c, disk, Done);
    } else {
      var history :| SnapshotOfHistory(c, disk.state, history);
      if CollisionFree(c.env, HistoryPreimages(c.env, history) + HistoryPreimages(c.env, HistoryOf(disk.blocks))) {
        SnapshotAgrees(c, disk, history);
      }
    }
  }

  lemma NothingLoaded()
    ensures LoadState(NoState) == Ok(None)
  {
  }
}

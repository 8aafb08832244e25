/** Catching up with one peer over HTTP (`sync_from_peer_http`): once it has said that it is
    compatible and what its tip is, blocks are fetched and applied one height at a time until that
    tip is reached. */
module HttpSync {
  import opened Types
  import opened Consensus
  import opened NodeRules
  import opened NodeRuns
  import NodeObjects
  import PeerRules
  import Snapshots

  /** What a peer answers, or fails to: who it is, its tip, and the block at each height. No height is
      asked for twice, so one answer per height is all there is. */
  datatype Peer = Peer(info: Option<PeerRules.NodeInfo>, tip: Option<u64>, blocks: nat -> Option<Block>)

  /** How the two writes for each height end. */
  type Writes = nat -> (WriteOutcome, WriteOutcome)

  datatype SyncError =
    | InfoFailed
    | Incompatible(reason: PeerRules.Incompatibility)
    | TipFailed
    | FetchFailed(height: nat)
    | BlockFailed(error: NodeError)

  lemma ApplyMovesOn(c: Config, rt: Runtime, disk: Disk, block: Block, w1: WriteOutcome, w2: WriteOutcome)
    requires Apply(c, rt, disk, block, w1, w2).2.Ok?
    ensures Apply(c, rt, disk, block, w1, w2).0.chain.height == rt.chain.height + 1
  {
    hide ValidateBlock, ApplyBlock, Retain;
    ValidationImpliesApplication(c.env, rt.chain, block, c.Validators());
  }

  /** The loop from a given state on. */
  ghost function Fetch(c: Config, rt: Runtime, disk: Disk, peer: Peer, tip: u64, writes: Writes):
    (Runtime, Disk, Outcome<SyncError>)
    decreases tip - rt.chain.height
  {
    var height := rt.chain.height + 1;
    if rt.chain.height >= tip then (rt, disk, Pass)
    else
      match peer.blocks(height)
      case None => (rt, disk, Fail(FetchFailed(height)))
      case Some(block) =>
        var (rt', disk', r) := Apply(c, rt, disk, block, writes(height).0, writes(height).1);
        match r
        case Err(e) => (rt', disk', Fail(BlockFailed(e)))
        case Ok(_) =>
          ApplyMovesOn(c, rt, disk, block, writes(height).0, writes(height).1);
          Fetch(c, rt', disk', peer, tip, writes)
  }

  /** Why nothing is fetched from a peer. */
  function Refusal(chainId: u32, peer: Peer): Outcome<SyncError> {
    if peer.info.None? then Fail(InfoFailed)
    else
      match PeerRules.Compatibility(chainId, peer.info.value)
      case Fail(reason) => Fail(Incompatible(reason))
      case Pass => if peer.tip.None? then Fail(TipFailed) else Pass
  }

  ghost function Sync(c: Config, rt: Runtime, disk: Disk, peer: Peer, writes: Writes): (Runtime, Disk,
                      Outcome<SyncError>) {
    var refusal := Refusal(rt.chain.chainId, peer);
    if refusal.Fail? then (rt, disk, refusal) else Fetch(c, rt, disk, peer, peer.tip.value, writes)
  }

  /** The requests in order, and the loop, which ends because every round raises the height. */
  method SyncFromPeer(runtime: NodeObjects.NodeRuntime, peer: Peer, writes: Writes) returns (r: Outcome<SyncError>)
    modifies runtime, runtime.storage
    ensures (runtime.Value(), runtime.storage.Files(), r)
         == Sync(runtime.config, old(runtime.Value()), old(runtime.storage.Files()), peer, writes)
  {
    hide Apply;
    if peer.info.None? { return Fail(InfoFailed); }
    var compatible := PeerRules.Compatibility(runtime.chain.chainId, peer.info.value);
    if compatible.Fail? { return Fail(Incompatible(compatible.error)); }
    if peer.tip.None? { return Fail(TipFailed); }
    var tip := peer.tip.value;
    while runtime.chain.height < tip
      invariant Fetch(runtime.config, runtime.Value(), runtime.storage.Files(), peer, tip, writes)
             == Fetch(runtime.config, old(runtime.Value()), old(runtime.storage.Files()), peer, tip, writes)
      decreases tip - runtime.chain.height
    {
      var height := runtime.chain.height + 1;
      var fetched := peer.blocks(height);
      if fetched.None? { return Fail(FetchFailed(height)); }
      ghost var rt, disk := runtime.Value(), runtime.storage.Files();
      var applied := runtime.ApplyBlock(fetched.value, writes(height).0, writes(height).1);
      if applied.Err? { return Fail(BlockFailed(applied.error)); }
      ApplyMovesOn(runtime.config, rt, disk, fetched.value, writes(height).0, writes(height).1);
    }
    return Pass;
  }

  /** Every block from `from` on is the one the peer served for its height. */
  ghost predicate Served(peer: Peer, blocks: seq<Block>, from: nat) {
    forall k: nat :: from <= k < |blocks| ==> peer.blocks(k + 1) == Some(blocks[k])
  }

  lemma NothingServed(peer: Peer, blocks: seq<Block>)
    ensures Served(peer, blocks, |blocks|)
  {
  }

  lemma OneMoreServed(peer: Peer, blocks: seq<Block>, before: seq<Block>, block: Block)
    requires before + [block] <= blocks && Served(peer, blocks, |before| + 1)
    requires peer.blocks(|before| + 1) == Some(block)
    ensures before <= blocks && Served(peer, blocks, |before|)
  {
    assert blocks[|before|] == (before + [block])[|before|];
  }

  lemma {:induction false} FetchSound(c: Config, rt: Runtime, disk: Disk, peer: Peer, tip: u64, writes: Writes)
    requires NodeInv(c, Node(disk, Some(rt)))
    ensures var (rt', disk', r) := Fetch(c, rt, disk, peer, tip, writes);
      && NodeInv(c, Node(disk', Some(rt')))
      && rt.blocks <= rt'.blocks
      && Served(peer, rt'.blocks, |rt.blocks|)
      && (rt' == rt || |rt'.blocks| <= tip)
      && (r.Pass? <==> |rt'.blocks| >= tip)
    decreases tip - rt.chain.height
  {
    hide Apply, NodeInv, ApplyBlock, Served, Rebuild;
    InvHeight(c, rt, disk);
    NothingServed(peer, rt.blocks);
    var height := rt.chain.height + 1;
    if rt.chain.height < tip && peer.blocks(height).Some? {
      var block := peer.blocks(height).value;
      var (rt', disk', r) := Apply(c, rt, disk, block, writes(height).0, writes(height).1);
      ApplyKeepsInv(c, rt, disk, block, writes(height).0, writes(height).1);
      if r.Ok? {
        ApplyMovesOn(c, rt, disk, block, writes(height).0, writes(height).1);
        FetchSound(c, rt', disk', peer, tip, writes);
        InvHeight(c, rt', disk');
        OneMoreServed(peer, Fetch(c, rt', disk', peer, tip, writes).0.blocks, rt.blocks, block);
      }
    }
  }

  /** With any peer at all: invariants hold after it, history is only added to, what is added is what
      the peer served, never beyond its tip, and success means that the peer is compatible, has named
      a tip, and the tip was reached. */
  lemma SyncSound(c: Config, rt: Runtime, disk: Disk, peer: Peer, writes: Writes)
    requires NodeInv(c, Node(disk, Some(rt)))
    ensures var (rt', disk', r) := Sync(c, rt, disk, peer, writes);
      && NodeInv(c, Node(disk', Some(rt')))
      && rt.blocks <= rt'.blocks
      && Served(peer, rt'.blocks, |rt.blocks|)
      && (rt' == rt || (peer.tip.Some? && |rt'.blocks| <= peer.tip.value))
      && (r.Pass? <==>
            && peer.info.Some? && PeerRules.Compatibility(c.chainId, peer.info.value).Pass?
            && peer.tip.Some? && |rt'.blocks| >= peer.tip.value)
  {
    hide NodeInv, Fetch, PeerRules.Compatibility, Rebuild, Linked;
    InvHeight(c, rt, disk);
    HistoryShape(c.env, c.chainId, c.configured, rt.blocks);
    if peer.tip.Some? {
      FetchSound(c, rt, disk, peer, peer.tip.value, writes);
    }
  }

  lemma InvHeight(c: Config, rt: Runtime, disk: Disk)
    requires NodeInv(c, Node(disk, Some(rt)))
    ensures rt.chain.height == |rt.blocks| && Rebuild(c.env, c.chainId, c.configured, rt.blocks) == Some(rt.chain)
  {
    hide Rebuild;
    HistoryShape(c.env, c.chainId, c.configured, rt.blocks);
  }

  /** Validators decide whether a history is accepted, not what it amounts to. */
  lemma {:induction false} SameChainWhoeverValidates(env: Env, chainId: u32, va: seq<PublicKey>, vb: seq<PublicKey>,
                                                     blocks: seq<Block>)
    requires Rebuild(env, chainId, va, blocks).Some? && Rebuild(env, chainId, vb, blocks).Some?
    ensures Rebuild(env, chainId, va, blocks) == Rebuild(env, chainId, vb, blocks)
  {
    hide Valid, ApplyBlock;
    if blocks != [] {
      SameChainWhoeverValidates(env, chainId, va, vb, blocks[..|blocks| - 1]);
    }
  }

  /** The next block of a longer valid history is valid here. */
  lemma NextIsValid(c: Config, rt: Runtime, disk: Disk, theirs: seq<Block>)
    requires NodeInv(c, Node(disk, Some(rt))) && rt.blocks < theirs
    requires Rebuild(c.env, c.chainId, c.Validators(), theirs).Some?
    ensures Valid(c.env, rt.chain, theirs[|rt.blocks|], c.Validators())
  {
    hide Rebuild, Valid, NodeInv;
    InvHeight(c, rt, disk);
    RebuildPrefix(c.env, c.chainId, c.Validators(), theirs, |rt.blocks|);
    assert theirs[..|rt.blocks|] == rt.blocks;
    SameChainWhoeverValidates(c.env, c.chainId, c.Validators(), c.configured, rt.blocks);
  }

  lemma ValidApplies(c: Config, rt: Runtime, disk: Disk, block: Block)
    requires Valid(c.env, rt.chain, block, c.Validators())
    ensures Apply(c, rt, disk, block, Done, Done).2.Ok?
  {
    hide ValidateBlock, ApplyBlock, Retain, Snapshots.SnapshotOf;
    ValidationImpliesApplication(c.env, rt.chain, block, c.Validators());
  }

  lemma {:induction false} FetchCatchesUp(c: Config, rt: Runtime, disk: Disk, peer: Peer, tip: u64, writes: Writes,
                                          theirs: seq<Block>)
    requires NodeInv(c, Node(disk, Some(rt)))
    requires Rebuild(c.env, c.chainId, c.Validators(), theirs).Some?
    requires rt.blocks <= theirs && |rt.blocks| <= tip <= |theirs|
    requires forall h: nat :: |rt.blocks| < h <= tip ==> peer.blocks(h) == Some(theirs[h - 1])
    requires forall h: nat :: |rt.blocks| < h <= tip ==> writes(h) == (Done, Done)
    ensures var (rt', disk', r) := Fetch(c, rt, disk, peer, tip, writes);
      && r.Pass?
      && rt'.blocks == theirs[..tip]
      && Rebuild(c.env, c.chainId, c.Validators(), theirs[..tip]) == Some(rt'.chain)
    decreases tip - rt.chain.height
  {
    hide Apply, NodeInv, ApplyBlock, Rebuild, Valid;
    InvHeight(c, rt, disk);
    var height := rt.chain.height + 1;
    if rt.chain.height < tip {
      var block := theirs[|rt.blocks|];
      assert peer.blocks(height) == Some(theirs[height - 1]) && writes(height) == (Done, Done);
      NextIsValid(c, rt, disk, theirs);
      ValidApplies(c, rt, disk, block);
      var (rt', disk', r) := Apply(c, rt, disk, block, Done, Done);
      ApplyKeepsInv(c, rt, disk, block, Done, Done);
      ApplyMovesOn(c, rt, disk, block, Done, Done);
      assert rt'.blocks == theirs[..|rt.blocks| + 1];
      FetchCatchesUp(c, rt', disk', peer, tip, writes, theirs);
    } else {
      assert theirs[..tip] == rt.blocks;
      RebuildPrefix(c.env, c.chainId, c.Validators(), theirs, tip);
      SameChainWhoeverValidates(c.env, c.chainId, c.Validators(), c.configured, rt.blocks);
    }
  }

  /** With an honest peer: when it is compatible, its valid history extends ours, it serves it up to
      its tip, and the writes go through, syncing succeeds and our history is exactly its first `tip`
      blocks. */
  lemma SyncCatchesUp(c: Config, rt: Runtime, disk: Disk, peer: Peer, writes: Writes, theirs: seq<Block>)
    requires NodeInv(c, Node(disk, Some(rt)))
    requires peer.info.Some? && PeerRules.Compatibility(c.chainId, peer.info.value).Pass?
    requires Rebuild(c.env, c.chainId, c.Validators(), theirs).Some?
    requires rt.blocks <= theirs && peer.tip.Some? && |rt.blocks| <= peer.tip.value <= |theirs|
    requires forall h: nat :: |rt.blocks| < h <= peer.tip.value ==> peer.blocks(h) == Some(theirs[h - 1])
    requires forall h: nat :: |rt.blocks| < h <= peer.tip.value ==> writes(h) == (Done, Done)
    ensures var (rt', disk', r) := Sync(c, rt, disk, peer, writes);
      && r.Pass?
      && rt'.blocks == theirs[..peer.tip.value]
      && Rebuild(c.env, c.chainId, c.Validators(), theirs[..peer.tip.value]) == Some(rt'.chain)
  {
    hide *;
    var tip := peer.tip.value;
    FetchCatchesUp(c, rt, disk, peer, tip, writes, theirs);
    NotRefused(c, rt, disk, peer, writes);
  }

  lemma NotRefused(c: Config, rt: Runtime, disk: Disk, peer: Peer, writes: Writes)
    requires NodeInv(c, Node(disk, Some(rt)))
    requires peer.info.Some? && PeerRules.Compatibility(c.chainId, peer.info.value).Pass? && peer.tip.Some?
    ensures Sync(c, rt, disk, peer, writes) == Fetch(c, rt, disk, peer, peer.tip.value, writes)
  {
    hide NodeInv, Fetch, PeerRules.Compatibility, Rebuild, Linked;
    InvHeight(c, rt, disk);
    HistoryShape(c.env, c.chainId, c.configured, rt.blocks);
  }

  lemma {:induction false} FetchFailsAt(c: Config, rt: Runtime, disk: Disk, peer: Peer, tip: u64, writes: Writes)
    ensures var (rt', disk', r) := Fetch(c, rt, disk, peer, tip, writes);
      var next := rt'.chain.height + 1;
      && (r.Fail? ==> rt'.chain.height < tip && (r.error.FetchFailed? || r.error.BlockFailed?))
      && (r.Fail? && r.error.FetchFailed? ==> r.error.height == next && peer.blocks(next) == None)
      && (r.Fail? && r.error.BlockFailed? ==> peer.blocks(next).Some?)
    decreases tip - rt.chain.height
  {
    hide Apply;
    var height := rt.chain.height + 1;
    if rt.chain.height < tip && peer.blocks(height).Some? {
      var block := peer.blocks(height).value;
      var (rt', disk', r) := Apply(c, rt, disk, block, writes(height).0, writes(height).1);
      if r.Ok? {
        ApplyMovesOn(c, rt, disk, block, writes(height).0, writes(height).1);
        FetchFailsAt(c, rt', disk', peer, tip, writes);
      } else {
        FailedKeeps(c, rt, disk, block, writes(height).0, writes(height).1);
      }
    }
  }

  lemma FailedKeeps(c: Config, rt: Runtime, disk: Disk, block: Block, w1: WriteOutcome, w2: WriteOutcome)
    requires Apply(c, rt, disk, block, w1, w2).2.Err?
    ensures Apply(c, rt, disk, block, w1, w2).0 == rt
  {
    hide ValidateBlock, ApplyBlock, Retain, Snapshots.SnapshotOf;
  }

  /** Nothing is fetched from a peer that does not say who it is, is incompatible, or names no tip; a block
      that does not come, or is not accepted, is the one after the height reached. */
  lemma SyncFailsAt(c: Config, rt: Runtime, disk: Disk, peer: Peer, writes: Writes)
    ensures var (rt', disk', r) := Sync(c, rt, disk, peer, writes);
      var known := peer.info.Some?;
      var compatible := known
        && 1 <= peer.info.value.wireVersion && peer.info.value.minCompatibleWireVersion <= 2
        && peer.info.value.chainId == rt.chain.chainId;
      var next := rt'.chain.height + 1;
      && (r == Fail(InfoFailed) <==> !known)
      && (r.Fail? && r.error.Incompatible? <==> known && !compatible)
      && (r == Fail(TipFailed) <==> compatible && peer.tip.None?)
      && (!compatible || peer.tip.None? ==> rt' == rt && disk' == disk)
      && (r.Fail? && r.error.FetchFailed? ==> r.error.height == next && peer.blocks(next) == None)
      && (r.Fail? && r.error.BlockFailed? ==> peer.blocks(next).Some?)
  {
    hide Fetch;
    if peer.tip.Some? {
      FetchFailsAt(c, rt, disk, peer, peer.tip.value, writes);
    }
  }
}

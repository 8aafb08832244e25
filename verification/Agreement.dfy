/** Several nodes under one validator list, one key each, over a network that may lose, repeat,
    reorder and alter what is sent but cannot sign: no node ever lets two headers of one height out,
    and all histories agree as far as they go. */
module Agreement {
  import opened Types
  import opened Codec
  import opened LedgerRules
  import opened Consensus
  import opened NodeRules
  import opened NodeRuns
  import Keys
  import Roots

  /** One environment, chain id and non-empty validator list; every validator key is the key of
      exactly one node. */
  ghost predicate Cluster(cs: seq<Config>) {
    && cs != []
    && (forall i :: 0 <= i < |cs| ==> cs[i].env == cs[0].env && cs[i].chainId == cs[0].chainId)
    && (forall i :: 0 <= i < |cs| ==> cs[i].configured == cs[0].configured)
    && cs[0].configured != []
    && (forall i, j :: 0 <= i < j < |cs| ==> cs[i].publicKey != cs[j].publicKey)
    && (forall v :: v in cs[0].configured ==> exists i :: 0 <= i < |cs| && cs[i].publicKey == v)
  }

  datatype Signed = Signed(key: PublicKey, header: BlockHeader)

  /** The nodes, and every signed header that has ever left one. */
  datatype World = World(nodes: seq<Node>, released: set<Signed>)

  datatype Action =
    | Local(i: nat, event: Event)   // anything a node does by itself, or a block reaching it
    | Release(i: nat, k: nat)       // a running node broadcasts or serves a block it holds

  /** Unforgeability: a header with a signature that the library accepts under a validator's key was
      signed and let out by the node that has the key. The rest of the block may be anything. */
  ghost predicate Deliverable(cs: seq<Config>, w: World, block: Block)
    requires cs != []
  {
    block.proposerPublicKey in cs[0].configured
    && Keys.Genuine(cs[0].env, block.proposerPublicKey, HeaderBytes(block.header), block.signature)
    ==> Signed(block.proposerPublicKey, block.header) in w.released
  }

  ghost predicate Enabled(cs: seq<Config>, w: World, action: Action)
    requires cs != []
  {
    && |w.nodes| == |cs|
    && match action
       case Local(i, event) => i < |cs| && (event.Receive? ==> Deliverable(cs, w, event.block))
       case Release(i, k) => i < |cs| && w.nodes[i].running.Some? && k < |w.nodes[i].running.value.blocks|
  }

  ghost function Act(cs: seq<Config>, w: World, action: Action): World
    requires cs != [] && Enabled(cs, w, action)
  {
    match action
    case Local(i, event) => w.(nodes := w.nodes[i := Step(cs[i], w.nodes[i], event)])
    case Release(i, k) =>
      var block := w.nodes[i].running.value.blocks[k];
      w.(released := w.released + {Signed(block.proposerPublicKey, block.header)})
  }

  ghost function Initially(cs: seq<Config>): World {
    World(seq(|cs|, _ => FRESH), {})
  }

  /** The world after a run of enabled actions from the start; nothing if one was not enabled. */
  ghost function Reached(cs: seq<Config>, actions: seq<Action>): Option<World>
    requires cs != []
  {
    if actions == [] then Some(Initially(cs))
    else
      match Reached(cs, actions[..|actions| - 1])
      case None => None
      case Some(w) =>
        if Enabled(cs, w, actions[|actions| - 1]) then Some(Act(cs, w, actions[|actions| - 1])) else None
  }

  /** What a node will not take back: its memory while it runs, its disk otherwise. */
  function Standing(node: Node): seq<Block> {
    if node.running.Some? then node.running.value.blocks else HistoryOf(node.disk.blocks)
  }

  ghost predicate Accounted(c: Config, released: set<Signed>, blocks: seq<Block>) {
    forall k :: 0 <= k < |blocks| ==>
      blocks[k].proposerPublicKey == c.publicKey || Signed(blocks[k].proposerPublicKey, blocks[k].header) in released
  }

  /** Every block a node holds, in memory or on disk, is its own or was let out by its proposer. */
  ghost predicate NodeAccounted(c: Config, released: set<Signed>, node: Node) {
    && Accounted(c, released, HistoryOf(node.disk.blocks))
    && Accounted(c, released, Standing(node))
  }

  ghost predicate HasHeader(blocks: seq<Block>, header: BlockHeader) {
    1 <= header.height <= |blocks| && blocks[header.height - 1].header == header
  }

  /** What a node let out under its own key, it stands by. */
  ghost predicate StandsBy(c: Config, released: set<Signed>, node: Node) {
    forall s :: s in released && s.key == c.publicKey ==> HasHeader(Standing(node), s.header)
  }

  ghost predicate WorldInv(cs: seq<Config>, w: World) {
    && |w.nodes| == |cs|
    && (forall i :: 0 <= i < |cs| ==> NodeInv(cs[i], w.nodes[i]))
    && (forall i :: 0 <= i < |cs| ==> NodeAccounted(cs[i], w.released, w.nodes[i]))
    && (forall i :: 0 <= i < |cs| ==> StandsBy(cs[i], w.released, w.nodes[i]))
  }

  // ----- one node -----

  /** A node never takes back a block it stands by. */
  lemma StandingGrows(c: Config, node: Node, event: Event)
    requires NodeInv(c, node)
    ensures Standing(node) <= Standing(Step(c, node, event))
  {
    hide Step, Sound, RuntimeInv, Valid;
    StepKeepsInv(c, node, event);
    StepKeepsHistory(c, node, event, Standing(node));
  }

  ghost predicate NewOrOwn(c: Config, node: Node, event: Event, block: Block) {
    || block in HistoryOf(node.disk.blocks)
    || block in Standing(node)
    || block.proposerPublicKey == c.publicKey
    || (event.Receive? && block == event.block && exists chain :: Valid(c.env, chain, block, c.configured))
  }

  ghost predicate AllNewOrOwn(c: Config, node: Node, event: Event, blocks: seq<Block>) {
    forall k :: 0 <= k < |blocks| ==> NewOrOwn(c, node, event, blocks[k])
  }

  lemma ApplyWhere(c: Config, rt: Runtime, disk: Disk, block: Block, w1: WriteOutcome, w2: WriteOutcome)
    requires NodeInv(c, Node(disk, Some(rt)))
    ensures var (rt', disk', r) := Apply(c, rt, disk, block, w1, w2);
      && (rt'.blocks == rt.blocks || rt'.blocks == rt.blocks + [block])
      && (HistoryOf(disk'.blocks) == HistoryOf(disk.blocks) || HistoryOf(disk'.blocks) == rt.blocks + [block])
      && (!Valid(c.env, rt.chain, block, c.Validators()) ==> rt'.blocks == rt.blocks && disk'.blocks == disk.blocks)
  {
    hide ValidateBlock, ApplyBlock, Snapshots.SnapshotOf, Retain;
  }

  /** Where the blocks a node holds after a step come from. */
  lemma StepBlocks(c: Config, node: Node, event: Event)
    requires NodeInv(c, node)
    ensures AllNewOrOwn(c, node, event, HistoryOf(Step(c, node, event).disk.blocks))
    ensures AllNewOrOwn(c, node, event, Standing(Step(c, node, event)))
  {
    hide NodeInv, Apply, ProposeBlock, Accept, Load, Rebuild, Valid, ExpectedProposer;
    match event {
      case Stop =>
      case Start(w) =>
        assert Sound(c, node.disk) by { InvSound(c, node); }
        LoadKeepsInv(c, node.disk, w);
      case Submit(tx) => if node.running.Some? { AcceptKeepsChain(c.env, node.running.value, tx); }
      case Receive(block, w1, w2) =>
        if node.running.Some? {
          assert node == Node(node.disk, Some(node.running.value));
          ApplyWhere(c, node.running.value, node.disk, block, w1, w2);
          if Valid(c.env, node.running.value.chain, block, c.Validators()) {
            EngineStricter(c, node.running.value.chain, block);
          }
        }
      case Mine(clock, w1, w2) =>
        if node.running.Some? {
          assert node == Node(node.disk, Some(node.running.value));
          var rt := node.running.value;
          var proposal := ProposeBlock(c.env, rt.chain, rt.pending, c.Validators(), c.publicKey, c.privateKey, clock);
          if proposal.Ok? {
            ProposalIsOwn(c, rt, clock);
            ApplyWhere(c, rt, node.disk, proposal.value, w1, w2);
          }
        }
    }
  }

  lemma InvSound(c: Config, node: Node)
    requires NodeInv(c, node)
    ensures Sound(c, node.disk)
  {
  }

  lemma ProposalIsOwn(c: Config, rt: Runtime, clock: u64)
    ensures var proposal := ProposeBlock(c.env, rt.chain, rt.pending, c.Validators(), c.publicKey, c.privateKey, clock);
      proposal.Ok? ==> proposal.value.proposerPublicKey == c.publicKey
  {
    hide ApplyTxs, Roots.Root, Keys.Sign, TxRoot, HeaderBytes;
  }

  /** A valid block was signed by the validator whose turn it was. */
  lemma ValidProposer(env: Env, chain: Chain, block: Block, validators: seq<PublicKey>)
    requires Valid(env, chain, block, validators) && validators != []
    ensures block.header.height == chain.height + 1
    ensures block.proposerPublicKey == validators[Turn(|validators|, block.header.height)]
    ensures block.proposerPublicKey in validators
    ensures Keys.Genuine(env, block.proposerPublicKey, HeaderBytes(block.header), block.signature)
  {
    hide ApplyTxs, Roots.Root, TxRoot, HeaderBytes;
  }

  lemma ProposerAt(env: Env, chainId: u32, validators: seq<PublicKey>, blocks: seq<Block>, k: nat)
    requires Rebuild(env, chainId, validators, blocks).Some? && validators != [] && k < |blocks|
    ensures blocks[k].header.height == k + 1
    ensures blocks[k].proposerPublicKey == validators[Turn(|validators|, k + 1)]
  {
    hide Rebuild, Valid, Linked;
    RebuildPrefix(env, chainId, validators, blocks, k);
    HistoryShape(env, chainId, validators, blocks[..k]);
    ValidProposer(env, Rebuild(env, chainId, validators, blocks[..k]).value, blocks[k], validators);
  }

  lemma InvStanding(c: Config, node: Node)
    requires NodeInv(c, node)
    ensures Rebuild(c.env, c.chainId, c.configured, Standing(node)).Some?
  {
    hide Rebuild;
  }

  // ----- the whole world -----

  lemma LocalKeepsAccount(cs: seq<Config>, w: World, i: nat, event: Event)
    requires Cluster(cs) && WorldInv(cs, w) && Enabled(cs, w, Local(i, event))
    ensures NodeAccounted(cs[i], w.released, Step(cs[i], w.nodes[i], event))
  {
    hide NodeInv, Step, StandsBy, Valid, Keys.Genuine;
    StepBlocks(cs[i], w.nodes[i], event);
    var node, node' := w.nodes[i], Step(cs[i], w.nodes[i], event);
    forall block: Block | NewOrOwn(cs[i], node, event, block)
      ensures block.proposerPublicKey == cs[i].publicKey || Signed(block.proposerPublicKey, block.header) in w.released
    {
      if event.Receive? && block == event.block && exists chain :: Valid(cs[i].env, chain, block, cs[i].configured) {
        var chain :| Valid(cs[i].env, chain, block, cs[i].configured);
        ValidProposer(cs[i].env, chain, block, cs[i].configured);
      }
    }
  }

  lemma LocalKeepsInv(cs: seq<Config>, w: World, i: nat, event: Event)
    requires Cluster(cs) && WorldInv(cs, w) && Enabled(cs, w, Local(i, event))
    ensures WorldInv(cs, Act(cs, w, Local(i, event)))
  {
    hide NodeInv, Step, NodeAccounted, Standing;
    LocalKeepsAccount(cs, w, i, event);
    StepKeepsInv(cs[i], w.nodes[i], event);
    StandingGrows(cs[i], w.nodes[i], event);
  }

  lemma ReleaseKeepsInv(cs: seq<Config>, w: World, i: nat, k: nat)
    requires Cluster(cs) && WorldInv(cs, w) && Enabled(cs, w, Release(i, k))
    ensures WorldInv(cs, Act(cs, w, Release(i, k)))
  {
    hide NodeInv;
    var w' := Act(cs, w, Release(i, k));
    var block := w.nodes[i].running.value.blocks[k];
    InvStanding(cs[i], w.nodes[i]);
    ProposerAt(cs[i].env, cs[i].chainId, cs[i].configured, Standing(w.nodes[i]), k);
    forall j | 0 <= j < |cs|
      ensures StandsBy(cs[j], w'.released, w'.nodes[j])
    {
      assert StandsBy(cs[j], w.released, w.nodes[j]);
      if block.proposerPublicKey == cs[j].publicKey && j != i {
        assert Accounted(cs[i], w.released, Standing(w.nodes[i]));
      }
    }
    forall j | 0 <= j < |cs|
      ensures NodeAccounted(cs[j], w'.released, w'.nodes[j])
    {
      assert NodeAccounted(cs[j], w.released, w.nodes[j]);
    }
  }

  lemma {:induction false} EveryWorldInv(cs: seq<Config>, actions: seq<Action>)
    requires Cluster(cs) && Reached(cs, actions).Some?
    ensures WorldInv(cs, Reached(cs, actions).value)
  {
    hide WorldInv, Act, Enabled;
    if actions == [] {
      InitiallyInv(cs);
    } else {
      var before, last := actions[..|actions| - 1], actions[|actions| - 1];
      EveryWorldInv(cs, before);
      match last {
        case Local(i, event) => LocalKeepsInv(cs, Reached(cs, before).value, i, event);
        case Release(i, k) => ReleaseKeepsInv(cs, Reached(cs, before).value, i, k);
      }
    }
  }

  lemma InitiallyInv(cs: seq<Config>)
    requires Cluster(cs)
    ensures WorldInv(cs, Initially(cs))
  {
    hide NodeInv;
    forall i | 0 <= i < |cs|
      ensures NodeInv(cs[i], Initially(cs).nodes[i])
    {
      FreshInv(cs[i]);
    }
  }

  // ----- agreement -----

  /** No validator ever lets out two headers of one height. */
  lemma NoTwoHeaders(cs: seq<Config>, actions: seq<Action>, a: Signed, b: Signed)
    requires Cluster(cs) && Reached(cs, actions).Some?
    requires a in Reached(cs, actions).value.released && b in Reached(cs, actions).value.released
    requires a.key == b.key && a.key in cs[0].configured && a.header.height == b.header.height
    ensures a == b
  {
    hide Reached, NodeInv, NodeAccounted;
    EveryWorldInv(cs, actions);
    var w := Reached(cs, actions).value;
    var p :| 0 <= p < |cs| && cs[p].publicKey == a.key;
    assert StandsBy(cs[p], w.released, w.nodes[p]);
    assert HasHeader(Standing(w.nodes[p]), a.header) && HasHeader(Standing(w.nodes[p]), b.header);
  }

  /** Whatever a node holds at a height, the proposer of that height stands by. */
  lemma ProposerStandsBy(cs: seq<Config>, w: World, i: nat, k: nat, p: nat)
    requires Cluster(cs) && WorldInv(cs, w) && i < |cs| && p < |cs| && k < |Standing(w.nodes[i])|
    requires cs[p].publicKey == cs[0].configured[Turn(|cs[0].configured|, k + 1)]
    ensures k < |Standing(w.nodes[p])| && Standing(w.nodes[p])[k].header == Standing(w.nodes[i])[k].header
  {
    hide NodeInv;
    var block := Standing(w.nodes[i])[k];
    InvStanding(cs[i], w.nodes[i]);
    ProposerAt(cs[i].env, cs[i].chainId, cs[i].configured, Standing(w.nodes[i]), k);
    assert NodeAccounted(cs[i], w.released, w.nodes[i]) && StandsBy(cs[p], w.released, w.nodes[p]);
    if i != p {
      assert cs[i].publicKey != cs[p].publicKey;
      assert Signed(block.proposerPublicKey, block.header) in w.released;
      assert HasHeader(Standing(w.nodes[p]), block.header);
    }
  }

  lemma HeadersAgree(cs: seq<Config>, w: World, i: nat, j: nat, n: nat)
    requires Cluster(cs) && WorldInv(cs, w) && i < |cs| && j < |cs|
    requires n <= |Standing(w.nodes[i])| && n <= |Standing(w.nodes[j])|
    ensures SameHeaders(Standing(w.nodes[i])[..n], Standing(w.nodes[j])[..n])
  {
    hide NodeInv, NodeAccounted, StandsBy, Standing;
    forall k | 0 <= k < n
      ensures Standing(w.nodes[i])[k].header == Standing(w.nodes[j])[k].header
    {
      var v := cs[0].configured[Turn(|cs[0].configured|, k + 1)];
      assert v in cs[0].configured;
      var p :| 0 <= p < |cs| && cs[p].publicKey == v;
      ProposerStandsBy(cs, w, i, k, p);
      ProposerStandsBy(cs, w, j, k, p);
    }
  }

  /** Agreement: in every run, up to any height that both have reached, two nodes hold the same
      headers and the same transaction cores, and had the same chain state there. */
  lemma NodesAgree(cs: seq<Config>, actions: seq<Action>, i: nat, j: nat, n: nat)
    requires Cluster(cs) && Reached(cs, actions).Some? && i < |cs| && j < |cs|
    requires var w := Reached(cs, actions).value;
      && |w.nodes| == |cs|
      && n <= |Standing(w.nodes[i])| && n <= |Standing(w.nodes[j])|
      && CollisionFree(cs[0].env, HistoryPreimages(cs[0].env, Standing(w.nodes[i])[..n])
                                  + HistoryPreimages(cs[0].env, Standing(w.nodes[j])[..n]))
    ensures var w := Reached(cs, actions).value;
      var a, b := Standing(w.nodes[i])[..n], Standing(w.nodes[j])[..n];
      && SameHistory(a, b)
      && Rebuild(cs[0].env, cs[0].chainId, cs[0].configured, a).Some?
      && Rebuild(cs[0].env, cs[0].chainId, cs[0].configured, a)
        == Rebuild(cs[0].env, cs[0].chainId, cs[0].configured, b)
  {
    hide Reached, Standing, Rebuild, NodeInv, NodeAccounted, StandsBy, HistoryPreimages, CollisionFree, SameHistory,
         SameHeaders, Valid;
    EveryWorldInv(cs, actions);
    var w := Reached(cs, actions).value;
    var a, b := Standing(w.nodes[i])[..n], Standing(w.nodes[j])[..n];
    HeadersAgree(cs, w, i, j, n);
    InvStanding(cs[i], w.nodes[i]);
    InvStanding(cs[j], w.nodes[j]);
    var env, chainId, vs := cs[0].env, cs[0].chainId, cs[0].configured;
    RebuildPrefix(env, chainId, vs, Standing(w.nodes[i]), n);
    RebuildPrefix(env, chainId, vs, Standing(w.nodes[j]), n);
    HeadersDetermineLedger(env, chainId, vs, a, vs, b, HistoryPreimages(env, a) + HistoryPreimages(env, b));
  }
}

/** Exactly which blocks a chain accepts, and which error any other block gets; stated of the header, the
    hashes, the transactions one by one and the signature library alone. */
module Validation {
  import opened Types
  import opened LedgerRules
  import opened Consensus
  import Codec
  import LittleEndian
  import Keys
  import Roots

  // ----- the transaction root -----

  /** 32 bytes for each transaction, in order: its id. */
  predicate IdsInOrder(env: Env, txs: seq<Transaction>, bytes: Bytes) {
    && |bytes| == 32 * |txs|
    && forall i :: 0 <= i < |txs| ==> bytes[32 * i..32 * i + 32] == env.blake3(Codec.TxCoreBytes(txs[i].core))
  }

  lemma {:induction false} IdsInOrderExactly(env: Env, txs: seq<Transaction>, bytes: Bytes)
    ensures IdsInOrder(env, txs, bytes) <==> bytes == TxRootPreimage(env, txs)
  {
    hide Codec.TxCoreBytes;
    TxRootPreimageLength(env, txs);
    if txs != [] && |bytes| == 32 * |txs| {
      var n := |txs| - 1;
      var front, last := bytes[..32 * n], bytes[32 * n..];
      assert bytes == front + last;
      IdsInOrderExactly(env, txs[..n], front);
      TxRootPreimageLength(env, txs[..n]);
      forall i | 0 <= i < n
        ensures bytes[32 * i..32 * i + 32] == front[32 * i..32 * i + 32]
      {
      }
      assert last == bytes[32 * n..32 * n + 32];
      if bytes == TxRootPreimage(env, txs) {
        LittleEndian.Cut(front, last, TxRootPreimage(env, txs[..n]), Codec.TxId(env, txs[n].core));
      }
    }
  }

  // ----- the transactions one by one -----

  /** The ledgers before and after each of the first `n` transactions, all of which succeed. */
  ghost predicate AppliedThrough(env: Env, chain: Chain, block: Block, n: nat, ledgers: seq<Ledger>) {
    && n <= |block.transactions| && |ledgers| == n + 1
    && ledgers[0] == chain.ledger
    && forall i :: 0 <= i < n ==>
         ApplyTx(env, ledgers[i], block.transactions[i], block.header.height, chain.chainId) == (ledgers[i + 1], Pass)
  }

  /** All before the `i`-th succeed, and that one fails with `e`. */
  ghost predicate StopsAt(env: Env, chain: Chain, block: Block, i: nat, ledgers: seq<Ledger>, e: LedgerError) {
    && i < |block.transactions|
    && AppliedThrough(env, chain, block, i, ledgers)
    && ApplyTx(env, ledgers[i], block.transactions[i], block.header.height, chain.chainId).1 == Fail(e)
  }

  ghost function Applying(env: Env, chain: Chain, block: Block, n: nat): (Ledger, Outcome<LedgerError>)
    requires n <= |block.transactions|
  {
    ApplyTxs(env, chain.ledger, block.transactions, n, block.header.height, chain.chainId)
  }

  lemma {:induction false} AppliedThroughIs(env: Env, chain: Chain, block: Block, n: nat, ledgers: seq<Ledger>)
    requires AppliedThrough(env, chain, block, n, ledgers)
    ensures Applying(env, chain, block, n) == (ledgers[n], Pass)
  {
    hide ApplyTx;
    if n > 0 {
      AppliedThroughIs(env, chain, block, n - 1, ledgers[..n]);
    }
  }

  lemma {:induction false} ApplyingGives(env: Env, chain: Chain, block: Block, n: nat) returns (ledgers: seq<Ledger>)
    requires n <= |block.transactions| && Applying(env, chain, block, n).1.Pass?
    ensures AppliedThrough(env, chain, block, n, ledgers)
  {
    hide ApplyTx;
    if n == 0 {
      ledgers := [chain.ledger];
    } else {
      var before := ApplyingGives(env, chain, block, n - 1);
      AppliedThroughIs(env, chain, block, n - 1, before);
      ledgers := before + [Applying(env, chain, block, n).0];
    }
  }

  lemma {:induction false} ApplyingStops(env: Env, chain: Chain, block: Block, n: nat)
    returns (i: nat, ledgers: seq<Ledger>)
    requires n <= |block.transactions| && Applying(env, chain, block, n).1.Fail?
    ensures StopsAt(env, chain, block, i, ledgers, Applying(env, chain, block, n).1.error) && i < n
  {
    hide ApplyTx, AppliedThrough;
    if Applying(env, chain, block, n - 1).1.Fail? {
      i, ledgers := ApplyingStops(env, chain, block, n - 1);
    } else {
      i := n - 1;
      ledgers := ApplyingGives(env, chain, block, n - 1);
      AppliedThroughIs(env, chain, block, n - 1, ledgers);
    }
  }

  lemma {:induction false} StoppedStays(env: Env, chain: Chain, block: Block, i: nat, ledgers: seq<Ledger>,
                                        e: LedgerError, n: nat)
    requires StopsAt(env, chain, block, i, ledgers, e) && i < n <= |block.transactions|
    ensures Applying(env, chain, block, n).1 == Fail(e)
  {
    hide ApplyTx, AppliedThrough;
    if n == i + 1 {
      AppliedThroughIs(env, chain, block, i, ledgers);
    } else {
      StoppedStays(env, chain, block, i, ledgers, e, n - 1);
    }
  }

  // ----- the whole block -----

  /** Next in height, on the tip, later than the tip, by the validator whose turn it is if there are any,
      and with the ids of its transactions hashed. */
  ghost predicate Placed(env: Env, chain: Chain, block: Block, validators: seq<PublicKey>) {
    var header := block.header;
    && header.height == chain.height + 1
    && header.parentHash == chain.tipHash
    && header.timestamp > chain.lastTimestamp
    && (validators != [] ==> block.proposerPublicKey == validators[chain.height % |validators|])
    && exists ids :: IdsInOrder(env, block.transactions, ids) && header.txRoot == env.blake3(ids)
  }

  /** All transactions succeed in order, and the header has the root of the ledger they leave. */
  ghost predicate Committing(env: Env, chain: Chain, block: Block, ledgers: seq<Ledger>) {
    && AppliedThrough(env, chain, block, |block.transactions|, ledgers)
    && block.header.stateRoot == Roots.Root(env, ledgers[|block.transactions|])
  }

  /** The library of the key's scheme accepts the signature for the header. */
  predicate SignedByProposer(env: Env, block: Block) {
    Keys.Genuine(env, block.proposerPublicKey, Codec.HeaderBytes(block.header), block.signature)
  }

  ghost predicate Refused(env: Env, chain: Chain, block: Block, validators: seq<PublicKey>, e: ConsensusError) {
    if !Placed(env, chain, block, validators) then e == InvalidBlock
    else
      match e
      case LedgerFailure(f) => exists i, ledgers :: StopsAt(env, chain, block, i, ledgers, f)
      case InvalidBlock =>
        exists ledgers :: AppliedThrough(env, chain, block, |block.transactions|, ledgers)
          && !Committing(env, chain, block, ledgers)
      case SignatureError => (exists ledgers :: Committing(env, chain, block, ledgers)) && !SignedByProposer(env, block)
      case _ => false
  }

  lemma PlacedExactly(env: Env, chain: Chain, block: Block, validators: seq<PublicKey>)
    ensures Placed(env, chain, block, validators)
       <==> && block.header.height == chain.height + 1
            && block.header.parentHash == chain.tipHash
            && block.header.timestamp > chain.lastTimestamp
            && (validators != [] ==> Ok(block.proposerPublicKey) == ExpectedProposer(validators, block.header.height))
            && block.header.txRoot == TxRoot(env, block.transactions)
  {
    hide IdsInOrder, TxRootPreimage;
    IdsInOrderExactly(env, block.transactions, TxRootPreimage(env, block.transactions));
    forall ids | IdsInOrder(env, block.transactions, ids)
      ensures ids == TxRootPreimage(env, block.transactions)
    {
      IdsInOrderExactly(env, block.transactions, ids);
    }
  }

  /** A block is valid exactly when it is placed, its transactions succeed to the state it names, and its
      proposer signed it; and these are the errors of all other blocks. */
  lemma ValidExactly(env: Env, chain: Chain, block: Block, validators: seq<PublicKey>, e: ConsensusError)
    ensures ValidateBlock(env, chain, block, validators) == Pass
       <==> && Placed(env, chain, block, validators)
            && (exists ledgers :: Committing(env, chain, block, ledgers))
            && SignedByProposer(env, block)
    ensures ValidateBlock(env, chain, block, validators) == Fail(e) <==> Refused(env, chain, block, validators, e)
  {
    hide Placed, Roots.Root, ApplyTxs, Keys.Verifies, Codec.HeaderBytes, TxRoot, ExpectedProposer, AppliedThrough,
         StopsAt, Committing, Keys.Genuine;
    PlacedExactly(env, chain, block, validators);
    Keys.VerifiesExactly(env, block.signature.scheme, block.proposerPublicKey, Codec.HeaderBytes(block.header),
                         block.signature);
    SignatureSchemeOfProposer(env, block);
    TransactionsExactly(env, chain, block);
    CommittingExactly(env, chain, block);
    if e.LedgerFailure? {
      assert Applying(env, chain, block, |block.transactions|).1 == Fail(e.error)
        <==> exists i: nat, ledgers :: StopsAt(env, chain, block, i, ledgers, e.error);
    }
  }

  lemma CommittingExactly(env: Env, chain: Chain, block: Block)
    ensures var (ledger, r) := Applying(env, chain, block, |block.transactions|);
      && ((exists ledgers :: Committing(env, chain, block, ledgers))
          <==> r.Pass? && block.header.stateRoot == Roots.Root(env, ledger))
      && ((exists ledgers :: AppliedThrough(env, chain, block, |block.transactions|, ledgers)
             && !Committing(env, chain, block, ledgers))
          <==> r.Pass? && block.header.stateRoot != Roots.Root(env, ledger))
  {
    hide AppliedThrough, StopsAt, Roots.Root, ApplyTxs;
    TransactionsExactly(env, chain, block);
    if Applying(env, chain, block, |block.transactions|).1.Pass? {
      var ledgers :| AppliedThrough(env, chain, block, |block.transactions|, ledgers);
      assert Committing(env, chain, block, ledgers)
        <==> block.header.stateRoot == Roots.Root(env, ledgers[|block.transactions|]);
    }
  }

  lemma SignatureSchemeOfProposer(env: Env, block: Block)
    ensures SignedByProposer(env, block) ==> block.proposerPublicKey.scheme == block.signature.scheme
  {
  }

  /** The list succeeds with one sequence of ledgers, or stops at one place with one error. */
  lemma TransactionsExactly(env: Env, chain: Chain, block: Block)
    ensures var n, (ledger, r) := |block.transactions|, Applying(env, chain, block, |block.transactions|);
      && (r.Pass? <==> exists ledgers :: AppliedThrough(env, chain, block, n, ledgers))
      && (forall ledgers :: AppliedThrough(env, chain, block, n, ledgers) ==>
            |ledgers| == n + 1 && ledgers[n] == ledger)
      && (forall e :: r == Fail(e) <==> exists i, ledgers :: StopsAt(env, chain, block, i, ledgers, e))
  {
    hide ApplyTxs, StopsAt;
    var n := |block.transactions|;
    if Applying(env, chain, block, n).1.Pass? {
      var ledgers := ApplyingGives(env, chain, block, n);
    } else {
      var i, ledgers := ApplyingStops(env, chain, block, n);
    }
    forall ledgers | AppliedThrough(env, chain, block, n, ledgers)
      ensures |ledgers| == n + 1 && Applying(env, chain, block, n) == (ledgers[n], Pass)
    {
      AppliedThroughIs(env, chain, block, n, ledgers);
    }
    forall i: nat, ledgers, e | StopsAt(env, chain, block, i, ledgers, e)
      ensures Applying(env, chain, block, n).1 == Fail(e)
    {
      assert i < n by { StopsWithin(env, chain, block, i, ledgers, e); }
      StoppedStays(env, chain, block, i, ledgers, e, n);
    }
  }

  lemma StopsWithin(env: Env, chain: Chain, block: Block, i: nat, ledgers: seq<Ledger>, e: LedgerError)
    requires StopsAt(env, chain, block, i, ledgers, e)
    ensures i < |block.transactions|
  {
  }

  /** What a proposal is: the block on the tip, at the time given, with the roots of what it holds and leaves,
      signed with the proposer's key; and in which order it fails. */
  lemma ProposalExactly(env: Env, chain: Chain, txs: seq<Transaction>, validators: seq<PublicKey>, key: PublicKey,
                        privateKey: PrivateKey, timestamp: u64, e: LedgerError)
    requires chain.height < U64_MAX
    ensures var r := ProposeBlock(env, chain, txs, validators, key, privateKey, timestamp);
      var turn := validators != [] && key == validators[chain.height % |validators|];
      var (ledger, applied) := ApplyTxs(env, chain.ledger, txs, |txs|, chain.height + 1, chain.chainId);
      && (r == Err(NoValidators) <==> validators == [])
      && (r == Err(InvalidBlock) <==> validators != [] && !turn)
      && (r == Err(LedgerFailure(e)) <==> turn && applied == Fail(e))
      && (r == Err(SignatureError) ==> turn && applied.Pass?)
      && (r.Ok? ==>
            var block, header := r.value, r.value.header;
            && turn && applied.Pass? && block.transactions == txs && block.proposerPublicKey == key
            && header.height == chain.height + 1 && header.parentHash == chain.tipHash && header.timestamp == timestamp
            && header.stateRoot == Roots.Root(env, ledger)
            && (exists ids :: IdsInOrder(env, txs, ids) && header.txRoot == env.blake3(ids))
            && (key.scheme == Dilithium2 || key.scheme == Falcon512)
            && privateKey.scheme == key.scheme && block.signature.scheme == key.scheme
            && env.signDetached(key.scheme, privateKey.bytes, Codec.HeaderBytes(header)) == Some(block.signature.bytes))
  {
    hide ApplyTxs, Roots.Root, Codec.HeaderBytes, TxRootPreimage, IdsInOrder;
    IdsInOrderExactly(env, txs, TxRootPreimage(env, txs));
  }

  // ----- what a block and a history leave -----

  /** A valid block moves the chain to its height, hash, root and time, and to the ledger its transactions
      leave one after the other. */
  lemma AcceptedLeaves(env: Env, chain: Chain, block: Block, validators: seq<PublicKey>) returns (ledgers: seq<Ledger>)
    requires ValidateBlock(env, chain, block, validators) == Pass
    ensures AppliedThrough(env, chain, block, |block.transactions|, ledgers)
    ensures Next(env, chain, block)
         == Chain(ledgers[|block.transactions|], chain.height + 1, env.blake3(Codec.HeaderBytes(block.header)),
                  block.header.stateRoot, block.header.timestamp, chain.chainId)
  {
    hide Roots.Root, ApplyTxs, Keys.Verifies, Codec.HeaderBytes, TxRoot, ExpectedProposer, AppliedThrough;
    ledgers := ApplyingGives(env, chain, block, |block.transactions|);
    AppliedThroughIs(env, chain, block, |block.transactions|, ledgers);
  }

  /** The chains before and after each block, from the empty ledger, height 0 and a tip of zeros on; every
      block is valid on the chain before it. */
  ghost predicate Replays(env: Env, chainId: u32, validators: seq<PublicKey>, blocks: seq<Block>, chains: seq<Chain>) {
    && |chains| == |blocks| + 1
    && chains[0] == Chain(Ledger(map[], map[]), 0, seq(32, _ => 0), env.blake3([]), 0, chainId)
    && forall i :: 0 <= i < |blocks| ==>
         && ValidateBlock(env, chains[i], blocks[i], validators) == Pass
         && chains[i + 1] == Next(env, chains[i], blocks[i])
  }

  lemma GenesisIs(env: Env, chainId: u32)
    ensures Genesis(env, chainId) == Chain(Ledger(map[], map[]), 0, seq(32, _ => 0), env.blake3([]), 0, chainId)
  {
    assert seq(32, _ => 0) == ZERO_HASH;
    assert Roots.Preimage(Ledger(map[], map[])) == [];
  }

  lemma {:induction false} ReplaysIs(env: Env, chainId: u32, validators: seq<PublicKey>, blocks: seq<Block>,
                                     chains: seq<Chain>)
    requires Replays(env, chainId, validators, blocks, chains)
    ensures Rebuild(env, chainId, validators, blocks) == Some(chains[|blocks|])
  {
    hide ValidateBlock, ApplyBlock, Genesis;
    GenesisIs(env, chainId);
    if blocks != [] {
      ReplaysIs(env, chainId, validators, blocks[..|blocks| - 1], chains[..|blocks|]);
    }
  }

  lemma {:induction false} RebuildReplays(env: Env, chainId: u32, validators: seq<PublicKey>, blocks: seq<Block>)
    returns (chains: seq<Chain>)
    requires Rebuild(env, chainId, validators, blocks).Some?
    ensures Replays(env, chainId, validators, blocks, chains)
  {
    hide ValidateBlock, ApplyBlock, Genesis;
    GenesisIs(env, chainId);
    if blocks == [] {
      chains := [Genesis(env, chainId)];
    } else {
      var before := RebuildReplays(env, chainId, validators, blocks[..|blocks| - 1]);
      ReplaysIs(env, chainId, validators, blocks[..|blocks| - 1], before);
      chains := before + [Rebuild(env, chainId, validators, blocks).value];
    }
  }

  /** A history can be rebuilt exactly when every block is valid on the chain that those before it lead to,
      and rebuilding gives the last of these chains. */
  lemma RebuildExactly(env: Env, chainId: u32, validators: seq<PublicKey>, blocks: seq<Block>, chain: Chain)
    ensures Rebuild(env, chainId, validators, blocks) == Some(chain)
       <==> exists chains :: Replays(env, chainId, validators, blocks, chains) && chains[|blocks|] == chain
  {
    hide Rebuild, ValidateBlock, ApplyBlock, Genesis;
    if Rebuild(env, chainId, validators, blocks) == Some(chain) {
      var chains := RebuildReplays(env, chainId, validators, blocks);
      ReplaysIs(env, chainId, validators, blocks, chains);
    }
    if chains :| Replays(env, chainId, validators, blocks, chains) && chains[|blocks|] == chain {
      ReplaysIs(env, chainId, validators, blocks, chains);
    }
  }
}

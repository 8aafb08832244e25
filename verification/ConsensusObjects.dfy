/** The chain as the source keeps it: a ledger object and five fields, moved on block by block.
    Every method is proved against Consensus. */
module ConsensusObjects {
  import opened Types
  import opened Codec
  import LedgerRules
  import LedgerObjects
  import Consensus
  import Encoder
  import Keys
  import Roots

  lemma {:induction false} FailureSticks(env: Env, ledger: Ledger, txs: seq<Transaction>, m: nat, n: nat, height: u64,
                                         chainId: u32)
    requires m <= n <= |txs|
    requires LedgerRules.ApplyTxs(env, ledger, txs, m, height, chainId).1.Fail?
    ensures LedgerRules.ApplyTxs(env, ledger, txs, n, height, chainId)
      == LedgerRules.ApplyTxs(env, ledger, txs, m, height, chainId)
  {
    hide LedgerRules.ApplyTx;
    if m < n {
      FailureSticks(env, ledger, txs, m, n - 1, height, chainId);
    }
  }

  /** The transactions of a list applied to a ledger in place, up to the first failure. */
  method ApplyAll(env: Env, ledger: LedgerObjects.LedgerState, txs: seq<Transaction>, height: u64, chainId: u32)
    returns (r: Outcome<LedgerRules.LedgerError>)
    modifies ledger
    ensures (ledger.State(), r) == LedgerRules.ApplyTxs(env, old(ledger.State()), txs, |txs|, height, chainId)
  {
    hide LedgerRules.ApplyTx;
    for i := 0 to |txs|
      invariant (ledger.State(), Pass) == LedgerRules.ApplyTxs(env, old(ledger.State()), txs, i, height, chainId)
    {
      var applied := ledger.ApplyTransaction(env, txs[i], height, chainId);
      if applied.Fail? {
        FailureSticks(env, old(ledger.State()), txs, i + 1, |txs|, height, chainId);
        return applied;
      }
    }
    return Pass;
  }

  class ChainState {
    var ledger: LedgerObjects.LedgerState
    var height: u64
    var tipHash: Hash256
    var stateRoot: Hash256
    var lastTimestamp: u64
    var chainId: u32

    ghost function Value(): Consensus.Chain
      reads this, ledger
    {
      Consensus.Chain(ledger.State(), height, tipHash, stateRoot, lastTimestamp, chainId)
    }

    /** `default_chain_state_with_id`. */
    constructor Default(env: Env, id: u32)
      ensures Value() == Consensus.Genesis(env, id) && fresh(ledger)
    {
      ledger := new LedgerObjects.LedgerState(EMPTY_LEDGER);
      height := 0;
      tipHash := ZERO_HASH;
      stateRoot := ZERO_HASH;
      lastTimestamp := 0;
      chainId := id;
      new;
      stateRoot := ledger.StateRoot(env);
    }

    constructor Copy(other: ChainState)
      ensures Value() == other.Value() && fresh(ledger)
    {
      ledger := new LedgerObjects.LedgerState(Ledger(other.ledger.utxos, other.ledger.assets));
      height := other.height;
      tipHash := other.tipHash;
      stateRoot := other.stateRoot;
      lastTimestamp := other.lastTimestamp;
      chainId := other.chainId;
    }

    /** `ChainState::apply_block`. */
    method ApplyBlock(env: Env, block: Block) returns (r: Outcome<LedgerRules.LedgerError>)
      modifies this, ledger
      ensures ledger == old(ledger)
      ensures (Value(), r) == Consensus.ApplyBlock(env, old(Value()), block)
    {
      hide LedgerRules.ApplyTxs, HeaderBytes, Roots.Root;
      r := ApplyAll(env, ledger, block.transactions, block.header.height, chainId);
      if r.Fail? { return; }
      height := block.header.height;
      tipHash := Encoder.ComputeHeaderHash(env, block.header);
      stateRoot := ledger.StateRoot(env);
      lastTimestamp := block.header.timestamp;
    }
  }

  method ComputeTxRoot(env: Env, txs: seq<Transaction>) returns (root: Hash256)
    ensures root == Consensus.TxRoot(env, txs)
  {
    hide TxId;
    var hashed: Bytes := [];
    for i := 0 to |txs|
      invariant hashed == Consensus.TxRootPreimage(env, txs[..i])
    {
      var txId := Encoder.ComputeTxId(env, txs[i].core);
      hashed := hashed + txId;
      assert txs[..i + 1][..i] == txs[..i];
    }
    assert txs[..|txs|] == txs;
    return Blake3(env, hashed);
  }

  method ComputeStateRoot(env: Env, chain: ChainState, txs: seq<Transaction>, height: u64)
    returns (r: Result<Hash256, LedgerRules.LedgerError>)
    ensures var (ledger, outcome) := Consensus.After(env, chain.Value(), txs, height);
      r == if outcome.Pass? then Ok(Roots.Root(env, ledger)) else Err(outcome.error)
  {
    hide LedgerRules.ApplyTxs, Roots.Root;
    var ledger := new LedgerObjects.LedgerState(Ledger(chain.ledger.utxos, chain.ledger.assets));
    var applied := ApplyAll(env, ledger, txs, height, chain.chainId);
    if applied.Fail? { return Err(applied.error); }
    var root := ledger.StateRoot(env);
    return Ok(root);
  }

  /** `validate_replayed_block`. */
  method ValidateReplayedBlock(env: Env, chain: ChainState, block: Block, validators: seq<PublicKey>)
    returns (r: Outcome<Consensus.ConsensusError>)
    ensures r == Consensus.ValidateBlock(env, chain.Value(), block, validators)
  {
    hide LedgerRules.ApplyTxs, Roots.Root, Consensus.TxRoot, HeaderBytes, Keys.Verifies;
    var header := block.header;
    if header.height != chain.height + 1 { return Fail(Consensus.InvalidBlock); }
    if header.parentHash != chain.tipHash { return Fail(Consensus.InvalidBlock); }
    if header.timestamp <= chain.lastTimestamp { return Fail(Consensus.InvalidBlock); }
    if validators != [] {
      var expected := Consensus.ExpectedProposer(validators, header.height);
      if expected != Ok(block.proposerPublicKey) { return Fail(Consensus.InvalidBlock); }
    }
    var txRoot := ComputeTxRoot(env, block.transactions);
    if header.txRoot != txRoot { return Fail(Consensus.InvalidBlock); }
    var stateRoot := ComputeStateRoot(env, chain, block.transactions, header.height);
    if stateRoot.Err? { return Fail(Consensus.LedgerFailure(stateRoot.error)); }
    if header.stateRoot != stateRoot.value { return Fail(Consensus.InvalidBlock); }
    if !Keys.Verifies(env, block.signature.scheme, block.proposerPublicKey, HeaderBytes(header), block.signature) {
      return Fail(Consensus.SignatureError);
    }
    return Pass;
  }

  /** `propose_block`, with the clock reading as a parameter. */
  method ProposeBlock(env: Env, chain: ChainState, txs: seq<Transaction>, validators: seq<PublicKey>,
                      publicKey: PublicKey, privateKey: PrivateKey, timestamp: u64)
    returns (r: Result<Block, Consensus.ConsensusError>)
    ensures r == Consensus.ProposeBlock(env, chain.Value(), txs, validators, publicKey, privateKey, timestamp)
  {
    hide LedgerRules.ApplyTxs, Roots.Root, Consensus.TxRoot, HeaderBytes, Keys.Sign;
    if chain.height == U64_MAX { return Err(Consensus.ConsensusError.Overflow); }
    var nextHeight := chain.height + 1;
    var expected := Consensus.ExpectedProposer(validators, nextHeight);
    if expected.Err? { return Err(expected.error); }
    if expected.value != publicKey { return Err(Consensus.InvalidBlock); }
    var stateRoot := ComputeStateRoot(env, chain, txs, nextHeight);
    if stateRoot.Err? { return Err(Consensus.LedgerFailure(stateRoot.error)); }
    var txRoot := ComputeTxRoot(env, txs);
    var header := BlockHeader(chain.tipHash, stateRoot.value, txRoot, nextHeight, timestamp);
    var signature := Keys.Sign(env, publicKey.scheme, privateKey, HeaderBytes(header));
    if signature.None? { return Err(Consensus.SignatureError); }
    return Ok(Block(header, txs, publicKey, signature.value));
  }
}

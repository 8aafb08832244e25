/** Blocks and histories (qcoin-consensus, and `apply_block` of qcoin-ledger): what a validated
    block does to a chain, and what the hash of a tip says about everything before it. */
module Consensus {
  import opened Types
  import opened LittleEndian
  import opened Codec
  import opened LedgerRules
  import Keys
  import Roots
  import Supply

  datatype Chain = Chain(
    ledger: Ledger,
    height: u64,
    tipHash: Hash256,
    stateRoot: Hash256,
    lastTimestamp: u64,
    chainId: u32)

  // `Overflow` stands for the panic of `height + 1` at the end of u64.
  datatype ConsensusError = InvalidBlock | SignatureError | LedgerFailure(error: LedgerError) | NoValidators | Overflow

  function Genesis(env: Env, chainId: u32): Chain {
    Chain(EMPTY_LEDGER, 0, ZERO_HASH, Roots.Root(env, EMPTY_LEDGER), 0, chainId)
  }

  // ----- roots -----

  /** The transaction ids, one after the other. Witnesses are not part of it. */
  function TxRootPreimage(env: Env, txs: seq<Transaction>): Bytes {
    if txs == [] then [] else TxRootPreimage(env, txs[..|txs| - 1]) + TxId(env, txs[|txs| - 1].core)
  }

  function TxRoot(env: Env, txs: seq<Transaction>): Hash256 {
    Blake3(env, TxRootPreimage(env, txs))
  }

  /** The whole list applied to the chain's ledger. */
  ghost function After(env: Env, chain: Chain, txs: seq<Transaction>, height: u64): (Ledger, Outcome<LedgerError>) {
    ApplyTxs(env, chain.ledger, txs, |txs|, height, chain.chainId)
  }

  // ----- the proposer schedule -----

  function Turn(n: nat, height: nat): nat
    requires n > 0 && height > 0
  {
    (height - 1) % n
  }

  function ExpectedProposer(validators: seq<PublicKey>, height: nat): Result<PublicKey, ConsensusError>
    requires height > 0
  {
    if validators == [] then Err(NoValidators) else Ok(validators[Turn(|validators|, height)])
  }

  /** How many of the heights 1 to `h` fall to position `p` of `n`. */
  function Turns(n: nat, p: nat, h: nat): nat
    requires n > 0
  {
    if h == 0 then 0 else Turns(n, p, h - 1) + (if Turn(n, h) == p then 1 else 0)
  }

  lemma DivModStep(h: nat, n: nat)
    requires n > 0 && h > 0
    ensures (h - 1) % n == n - 1 ==> h / n == (h - 1) / n + 1 && h % n == 0
    ensures (h - 1) % n < n - 1 ==> h / n == (h - 1) / n && h % n == (h - 1) % n + 1
  {
    var q, r := (h - 1) / n, (h - 1) % n;
    assert h - 1 == q * n + r;
    if r == n - 1 {
      DivModUnique(h, n, q + 1, 0);
    } else {
      DivModUnique(h, n, q, r + 1);
    }
  }

  lemma {:induction false} TurnsClosedForm(n: nat, p: nat, h: nat)
    requires n > 0 && p < n
    ensures Turns(n, p, h) == h / n + (if p < h % n then 1 else 0)
  {
    if h == 0 {
      DivModUnique(0, n, 0, 0);
    } else {
      TurnsClosedForm(n, p, h - 1);
      DivModStep(h, n);
    }
  }

  /** At any height, no list position has proposed more than one block more than another. */
  lemma ProposalsBalanced(n: nat, p: nat, q: nat, h: nat)
    requires n > 0 && p < n && q < n
    ensures -1 <= Turns(n, p, h) - Turns(n, q, h) <= 1
  {
    TurnsClosedForm(n, p, h);
    TurnsClosedForm(n, q, h);
  }

  /** Among any `n` consecutive heights every list position comes up, and comes up once. */
  lemma EachPositionOnce(n: nat, p: nat, start: nat) returns (height: nat)
    requires n > 0 && p < n && start > 0
    ensures start <= height < start + n && Turn(n, height) == p
    ensures forall h :: start <= h < start + n && Turn(n, h) == p ==> h == height
  {
    var q, r := (start - 1) / n, (start - 1) % n;
    assert start - 1 == q * n + r;
    if r <= p {
      height := start + (p - r);
      DivModUnique(height - 1, n, q, p);
    } else {
      height := start + (n - r + p);
      assert (q + 1) * n == q * n + n;
      DivModUnique(height - 1, n, q + 1, p);
    }
    forall h | start <= h < start + n && Turn(n, h) == p
      ensures h == height
    {
      SameRemainder(h - 1, height - 1, n);
    }
  }

  lemma SameRemainder(a: nat, b: nat, n: nat)
    requires n > 0 && a % n == b % n && a - b < n && b - a < n
    ensures a == b
  {
    var d: int := a / n - b / n;
    assert a == (a / n) * n + a % n && b == (b / n) * n + b % n;
    assert a - b == d * n by {
      assert (a / n - b / n) * n == (a / n) * n - (b / n) * n;
    }
    MultiplesApart(d, n);
  }

  // ----- validating, applying, proposing -----

  ghost function ValidateBlock(env: Env, chain: Chain, block: Block,
                               validators: seq<PublicKey>): Outcome<ConsensusError> {
    var header := block.header;
    if header.height != chain.height + 1 then Fail(InvalidBlock)
    else if header.parentHash != chain.tipHash then Fail(InvalidBlock)
    else if header.timestamp <= chain.lastTimestamp then Fail(InvalidBlock)
    else if validators != []
      && Ok(block.proposerPublicKey) != ExpectedProposer(validators, header.height) then Fail(InvalidBlock)
    else if header.txRoot != TxRoot(env, block.transactions) then Fail(InvalidBlock)
    else if After(env, chain, block.transactions, header.height).1.Fail? then
      Fail(LedgerFailure(After(env, chain, block.transactions, header.height).1.error))
    else if header.stateRoot != Roots.Root(env, After(env, chain, block.transactions, header.height).0) then
      Fail(InvalidBlock)
    else if !Keys.Verifies(env, block.signature.scheme, block.proposerPublicKey, HeaderBytes(header),
                           block.signature) then
      Fail(SignatureError)
    else Pass
  }

  ghost predicate Valid(env: Env, chain: Chain, block: Block, validators: seq<PublicKey>) {
    ValidateBlock(env, chain, block, validators).Pass?
  }

  /** `ChainState::apply_block`. A failure half-way leaves the ledger half-way. */
  ghost function ApplyBlock(env: Env, chain: Chain, block: Block): (Chain, Outcome<LedgerError>) {
    var (ledger, r) := After(env, chain, block.transactions, block.header.height);
    if r.Fail? then (chain.(ledger := ledger), r)
    else
      (Chain(ledger, block.header.height, HeaderHash(env, block.header), Roots.Root(env, ledger),
             block.header.timestamp, chain.chainId), Pass)
  }

  ghost function Next(env: Env, chain: Chain, block: Block): Chain {
    ApplyBlock(env, chain, block).0
  }

  /** A validated block always applies, moves the chain one height on to the header it names, and
      yields the state root that the header declares. */
  lemma ValidationImpliesApplication(env: Env, chain: Chain, block: Block, validators: seq<PublicKey>)
    requires Valid(env, chain, block, validators)
    ensures ApplyBlock(env, chain, block).1 == Pass
    ensures var next := Next(env, chain, block);
      && next.height == chain.height + 1
      && next.tipHash == HeaderHash(env, block.header)
      && next.stateRoot == block.header.stateRoot == Roots.Root(env, next.ledger)
      && next.lastTimestamp == block.header.timestamp > chain.lastTimestamp
      && next.chainId == chain.chainId
      && block.header.parentHash == chain.tipHash
  {
    hide ApplyTxs, Roots.Root, HeaderHash, TxRoot, ExpectedProposer, HeaderBytes, Keys.Verifies;
  }

  function UnsignedHeader(env: Env, chain: Chain, txs: seq<Transaction>, stateRoot: Hash256,
                          timestamp: u64): BlockHeader
    requires chain.height < U64_MAX
  {
    BlockHeader(chain.tipHash, stateRoot, TxRoot(env, txs), chain.height + 1, timestamp)
  }

  /** `propose_block`, with the clock reading as a parameter. */
  ghost function ProposeBlock(env: Env, chain: Chain, txs: seq<Transaction>, validators: seq<PublicKey>,
                              publicKey: PublicKey, privateKey: PrivateKey, timestamp: u64):
    Result<Block, ConsensusError>
  {
    if chain.height == U64_MAX then Err(ConsensusError.Overflow)
    else
      match ExpectedProposer(validators, chain.height + 1)
      case Err(e) => Err(e)
      case Ok(expected) =>
        if expected != publicKey then Err(InvalidBlock)
        else if After(env, chain, txs, chain.height + 1).1.Fail? then
          Err(LedgerFailure(After(env, chain, txs, chain.height + 1).1.error))
        else
          var root := Roots.Root(env, After(env, chain, txs, chain.height + 1).0);
          SignedBlock(env, txs, UnsignedHeader(env, chain, txs, root, timestamp), publicKey, privateKey)
  }

  function SignedBlock(env: Env, txs: seq<Transaction>, header: BlockHeader, publicKey: PublicKey,
                       privateKey: PrivateKey):
    Result<Block, ConsensusError>
  {
    match Keys.Sign(env, publicKey.scheme, privateKey, HeaderBytes(header))
    case None => Err(SignatureError)
    case Some(signature) => Ok(Block(header, txs, publicKey, signature))
  }

  /** In turn, with a list that applies, proposing succeeds; and the block it makes is valid on the
      same chain exactly when the clock has moved past the chain's last timestamp. */
  lemma ProposalValidIffClockAdvanced(env: Env, chain: Chain, txs: seq<Transaction>, validators: seq<PublicKey>,
                                      publicKey: PublicKey, privateKey: PrivateKey, timestamp: u64)
    requires chain.height < U64_MAX && Keys.KeyPair(env, publicKey, privateKey)
    requires ExpectedProposer(validators, chain.height + 1) == Ok(publicKey)
    requires After(env, chain, txs, chain.height + 1).1.Pass?
    ensures var proposal := ProposeBlock(env, chain, txs, validators, publicKey, privateKey, timestamp);
      && proposal.Ok? && proposal.value.transactions == txs
      && (Valid(env, chain, proposal.value, validators) <==> timestamp > chain.lastTimestamp)
  {
    hide ApplyTxs, Roots.Root, TxRoot, ExpectedProposer, HeaderBytes, Keys.Sign, Keys.Verifies, Keys.KeyPair;
    var root := Roots.Root(env, After(env, chain, txs, chain.height + 1).0);
    var header := UnsignedHeader(env, chain, txs, root, timestamp);
    Keys.PairSigns(env, publicKey, privateKey, HeaderBytes(header));
  }

  // ----- histories -----

  /** `rebuild_chain_state_from_blocks`: every block validated on the chain before it, then applied. */
  ghost function Rebuild(env: Env, chainId: u32, validators: seq<PublicKey>, blocks: seq<Block>): Option<Chain> {
    if blocks == [] then Some(Genesis(env, chainId))
    else
      match Rebuild(env, chainId, validators, blocks[..|blocks| - 1])
      case None => None
      case Some(chain) =>
        if Valid(env, chain, blocks[|blocks| - 1], validators)
        then Some(Next(env, chain, blocks[|blocks| - 1])) else None
  }

  /** Block `i` has height `i + 1`, names the hash of the block before it and is later than it. */
  ghost predicate LinkedAt(env: Env, blocks: seq<Block>, i: nat)
    requires i < |blocks|
  {
    && blocks[i].header.height == i + 1
    && (i == 0 ==> blocks[i].header.parentHash == ZERO_HASH)
    && (i > 0 ==> blocks[i].header.parentHash == HeaderHash(env, blocks[i - 1].header))
    && (i > 0 ==> blocks[i].header.timestamp > blocks[i - 1].header.timestamp)
  }

  ghost predicate Linked(env: Env, blocks: seq<Block>) {
    forall i: nat {:trigger LinkedAt(env, blocks, i)} :: i < |blocks| ==> LinkedAt(env, blocks, i)
  }

  lemma {:induction false} TimeMoves(env: Env, blocks: seq<Block>, i: nat, j: nat)
    requires Linked(env, blocks) && i < j < |blocks|
    ensures blocks[i].header.timestamp < blocks[j].header.timestamp
  {
    hide HeaderHash;
    assert LinkedAt(env, blocks, j);
    if i < j - 1 {
      TimeMoves(env, blocks, i, j - 1);
    }
  }

  lemma LinkedExtend(env: Env, blocks: seq<Block>, block: Block)
    requires Linked(env, blocks) && LinkedAt(env, blocks + [block], |blocks|)
    ensures Linked(env, blocks + [block])
  {
    hide HeaderHash;
    forall i: nat | i < |blocks|
      ensures LinkedAt(env, blocks + [block], i)
    {
      assert LinkedAt(env, blocks, i);
    }
  }

  lemma {:induction false} HistoryShape(env: Env, chainId: u32, validators: seq<PublicKey>, blocks: seq<Block>)
    requires Rebuild(env, chainId, validators, blocks).Some?
    ensures var chain := Rebuild(env, chainId, validators, blocks).value;
      && Linked(env, blocks)
      && chain.height == |blocks|
      && chain.chainId == chainId
      && chain.stateRoot == Roots.Root(env, chain.ledger)
      && (blocks != [] ==>
            var last := blocks[|blocks| - 1].header;
            && chain.tipHash == HeaderHash(env, last)
            && chain.stateRoot == last.stateRoot
            && chain.lastTimestamp == last.timestamp)
      && (blocks == [] ==> chain == Genesis(env, chainId))
  {
    hide HeaderHash, Roots.Root, Valid, ApplyBlock, Linked;
    if blocks == [] {
      assert Linked(env, blocks) by { EmptyLinked(env); }
    } else {
      var prefix, last := blocks[..|blocks| - 1], blocks[|blocks| - 1];
      HistoryShape(env, chainId, validators, prefix);
      var before := Rebuild(env, chainId, validators, prefix).value;
      ValidationImpliesApplication(env, before, last, validators);
      HeightFollows(env, before, last, validators);
      assert blocks == prefix + [last];
      LinkedExtend(env, prefix, last);
    }
  }

  lemma EmptyLinked(env: Env)
    ensures Linked(env, [])
  {
  }

  lemma HeightFollows(env: Env, chain: Chain, block: Block, validators: seq<PublicKey>)
    requires Valid(env, chain, block, validators)
    ensures block.header.height == chain.height + 1
  {
  }

  lemma {:induction false} RebuildPrefix(env: Env, chainId: u32, validators: seq<PublicKey>, blocks: seq<Block>, n: nat)
    requires Rebuild(env, chainId, validators, blocks).Some? && n <= |blocks|
    ensures Rebuild(env, chainId, validators, blocks[..n]).Some?
    ensures n < |blocks| ==> Valid(env, Rebuild(env, chainId, validators, blocks[..n]).value, blocks[n], validators)
  {
    hide Valid, ApplyBlock;
    if n == |blocks| {
      assert blocks[..n] == blocks;
    } else if n < |blocks| - 1 {
      var prefix := blocks[..|blocks| - 1];
      RebuildPrefix(env, chainId, validators, prefix, n);
      assert prefix[..n] == blocks[..n];
    }
  }

  lemma RebuildExtend(env: Env, chainId: u32, validators: seq<PublicKey>, blocks: seq<Block>, block: Block)
    requires Rebuild(env, chainId, validators, blocks).Some?
    requires Valid(env, Rebuild(env, chainId, validators, blocks).value, block, validators)
    ensures Rebuild(env, chainId, validators, blocks + [block])
         == Some(Next(env, Rebuild(env, chainId, validators, blocks).value, block))
  {
    hide Valid, ApplyBlock;
    assert (blocks + [block])[..|blocks|] == blocks;
  }

  // ----- the tip determines everything but the witnesses -----

  /** Every string that validating a history hashes into a link, a transaction root or an id. */
  ghost function HistoryPreimages(env: Env, blocks: seq<Block>): set<Bytes> {
    (set i | 0 <= i < |blocks| :: HeaderBytes(blocks[i].header))
    + (set i | 0 <= i < |blocks| :: TxRootPreimage(env, blocks[i].transactions))
    + (set i, j | 0 <= i < |blocks| && 0 <= j < |blocks[i].transactions| :: TxCoreBytes(blocks[i].transactions[j].core))
  }

  ghost predicate SameCores(a: seq<Transaction>, b: seq<Transaction>) {
    |a| == |b| && forall i :: 0 <= i < |a| ==> a[i].core == b[i].core
  }

  /** Equal but for witnesses, proposer keys and signatures. */
  ghost predicate SameHistory(a: seq<Block>, b: seq<Block>) {
    && |a| == |b|
    && (forall i :: 0 <= i < |a| ==> a[i].header == b[i].header)
    && (forall i :: 0 <= i < |a| ==> SameCores(a[i].transactions, b[i].transactions))
  }

  lemma {:induction false} TxRootPreimageLength(env: Env, txs: seq<Transaction>)
    ensures |TxRootPreimage(env, txs)| == 32 * |txs|
  {
    if txs != [] {
      TxRootPreimageLength(env, txs[..|txs| - 1]);
    }
  }

  lemma {:induction false} SamePreimageSameIds(env: Env, a: seq<Transaction>, b: seq<Transaction>)
    requires TxRootPreimage(env, a) == TxRootPreimage(env, b)
    ensures |a| == |b| && forall i :: 0 <= i < |a| ==> TxId(env, a[i].core) == TxId(env, b[i].core)
  {
    hide TxId;
    TxRootPreimageLength(env, a);
    TxRootPreimageLength(env, b);
    if a != [] {
      var p, q := a[..|a| - 1], b[..|b| - 1];
      TxRootPreimageLength(env, p);
      TxRootPreimageLength(env, q);
      Cut(TxRootPreimage(env, p), TxId(env, a[|a| - 1].core), TxRootPreimage(env, q), TxId(env, b[|b| - 1].core));
      SamePreimageSameIds(env, p, q);
    }
  }

  /** A successful transaction's effect depends on its core alone, and so does a list's. */
  lemma {:induction false} SameCoresSameLedger(env: Env, ledger: Ledger, a: seq<Transaction>, b: seq<Transaction>,
                                               n: nat,
                                               height: u64, chainId: u32)
    requires SameCores(a, b) && n <= |a|
    requires ApplyTxs(env, ledger, a, n, height, chainId).1.Pass?
    requires ApplyTxs(env, ledger, b, n, height, chainId).1.Pass?
    ensures ApplyTxs(env, ledger, a, n, height, chainId).0 == ApplyTxs(env, ledger, b, n, height, chainId).0
  {
    hide EarlyError, Conserves, Effect;
    if n > 0 {
      SameCoresSameLedger(env, ledger, a, b, n - 1, height, chainId);
    }
  }

  lemma RootDeterminesCores(env: Env, a: Block, b: Block, hashed: set<Bytes>)
    requires CollisionFree(env, hashed)
    requires TxRootPreimage(env, a.transactions) in hashed && TxRootPreimage(env, b.transactions) in hashed
    requires forall j :: 0 <= j < |a.transactions| ==> TxCoreBytes(a.transactions[j].core) in hashed
    requires forall j :: 0 <= j < |b.transactions| ==> TxCoreBytes(b.transactions[j].core) in hashed
    requires TxRoot(env, a.transactions) == TxRoot(env, b.transactions)
    ensures SameCores(a.transactions, b.transactions)
  {
    hide TxCoreBytes, TxRootPreimage;
    SamePreimageSameIds(env, a.transactions, b.transactions);
    forall j | 0 <= j < |a.transactions|
      ensures a.transactions[j].core == b.transactions[j].core
    {
      TxCoreInjective(a.transactions[j].core, b.transactions[j].core);
    }
  }

  lemma PreimagesOfPrefix(env: Env, blocks: seq<Block>)
    requires blocks != []
    ensures HistoryPreimages(env, blocks[..|blocks| - 1]) <= HistoryPreimages(env, blocks)
  {
    hide TxCoreBytes, TxRootPreimage, HeaderBytes;
    var prefix := blocks[..|blocks| - 1];
    forall x | x in HistoryPreimages(env, prefix)
      ensures x in HistoryPreimages(env, blocks)
    {
      if i :| 0 <= i < |prefix| && x == HeaderBytes(prefix[i].header) {
        assert x == HeaderBytes(blocks[i].header);
      } else if i :| 0 <= i < |prefix| && x == TxRootPreimage(env, prefix[i].transactions) {
        assert x == TxRootPreimage(env, blocks[i].transactions);
      } else {
        var i, j :| 0 <= i < |prefix| && 0 <= j < |prefix[i].transactions|
          && x == TxCoreBytes(prefix[i].transactions[j].core);
        assert x == TxCoreBytes(blocks[i].transactions[j].core);
      }
    }
  }

  lemma PreimagesOfLast(env: Env, blocks: seq<Block>)
    requires blocks != []
    ensures var last := blocks[|blocks| - 1];
      && HeaderBytes(last.header) in HistoryPreimages(env, blocks)
      && TxRootPreimage(env, last.transactions) in HistoryPreimages(env, blocks)
      && forall j :: 0 <= j < |last.transactions| ==>
        TxCoreBytes(last.transactions[j].core) in HistoryPreimages(env, blocks)
  {
    hide TxCoreBytes, TxRootPreimage, HeaderBytes;
  }

  /** Two blocks valid on one chain, with one header and the same cores, do the same to it. */
  lemma SameCoresSameNext(env: Env, chain: Chain, va: seq<PublicKey>, a: Block, vb: seq<PublicKey>, b: Block)
    requires Valid(env, chain, a, va) && Valid(env, chain, b, vb)
    requires a.header == b.header && SameCores(a.transactions, b.transactions)
    ensures Next(env, chain, a) == Next(env, chain, b)
  {
    hide Roots.Root, ApplyTxs, HeaderHash, HeaderBytes, Keys.Verifies, TxRoot, ExpectedProposer;
    SameCoresSameLedger(env, chain.ledger, a.transactions, b.transactions, |a.transactions|, a.header.height,
                        chain.chainId);
  }

  lemma ValidRoot(env: Env, chain: Chain, block: Block, validators: seq<PublicKey>)
    requires Valid(env, chain, block, validators)
    ensures block.header.txRoot == TxRoot(env, block.transactions)
  {
    hide Roots.Root, ApplyTxs, HeaderHash, HeaderBytes, Keys.Verifies, TxRoot, ExpectedProposer;
  }

  lemma RebuildStep(env: Env, chainId: u32, validators: seq<PublicKey>, blocks: seq<Block>)
    requires Rebuild(env, chainId, validators, blocks).Some? && blocks != []
    ensures var prefix, last := blocks[..|blocks| - 1], blocks[|blocks| - 1];
      && Rebuild(env, chainId, validators, prefix).Some?
      && Valid(env, Rebuild(env, chainId, validators, prefix).value, last, validators)
      && Rebuild(env, chainId, validators, blocks)
        == Some(Next(env, Rebuild(env, chainId, validators, prefix).value, last))
  {
    hide Valid, ApplyBlock;
  }

  ghost predicate SameHeaders(a: seq<Block>, b: seq<Block>) {
    |a| == |b| && forall i :: 0 <= i < |a| ==> a[i].header == b[i].header
  }

  lemma SameHeadersFront(a: seq<Block>, b: seq<Block>)
    requires |a| == |b| && a != []
    ensures SameHeaders(a, b)
       <==> SameHeaders(a[..|a| - 1], b[..|b| - 1]) && a[|a| - 1].header == b[|b| - 1].header
  {
    assert forall i :: 0 <= i < |a| - 1 ==> a[..|a| - 1][i] == a[i] && b[..|b| - 1][i] == b[i];
  }

  lemma SameHistoryExtend(a: seq<Block>, b: seq<Block>)
    requires |a| == |b| && a != [] && SameHistory(a[..|a| - 1], b[..|b| - 1])
    requires a[|a| - 1].header == b[|b| - 1].header && SameCores(a[|a| - 1].transactions, b[|b| - 1].transactions)
    ensures SameHistory(a, b)
  {
    hide SameCores;
    var p, q := a[..|a| - 1], b[..|b| - 1];
    assert forall i :: 0 <= i < |p| ==> p[i] == a[i] && q[i] == b[i];
  }

  /** Two histories on the same chain whose headers agree agree on cores and on the ledger. */
  lemma {:induction false} HeadersDetermineLedger(
    env: Env, chainId: u32, va: seq<PublicKey>, a: seq<Block>, vb: seq<PublicKey>, b: seq<Block>, hashed: set<Bytes>)
    requires Rebuild(env, chainId, va, a).Some? && Rebuild(env, chainId, vb, b).Some?
    requires SameHeaders(a, b)
    requires CollisionFree(env, hashed)
    requires HistoryPreimages(env, a) <= hashed && HistoryPreimages(env, b) <= hashed
    ensures SameHistory(a, b)
    ensures Rebuild(env, chainId, va, a) == Rebuild(env, chainId, vb, b)
  {
    hide HistoryPreimages, TxCoreBytes, TxRoot, CollisionFree, SameCores, Valid, ApplyBlock, Rebuild, SameHistory;
    if a == [] {
      BothGenesis(env, chainId, va, vb);
      assert b == [];
    } else {
      var p, q := a[..|a| - 1], b[..|b| - 1];
      var last, last' := a[|a| - 1], b[|b| - 1];
      RebuildStep(env, chainId, va, a);
      RebuildStep(env, chainId, vb, b);
      PreimagesOfPrefix(env, a);
      PreimagesOfPrefix(env, b);
      SameHeadersFront(a, b);
      HeadersDetermineLedger(env, chainId, va, p, vb, q, hashed);
      var chain := Rebuild(env, chainId, va, p).value;
      ValidRoot(env, chain, last, va);
      ValidRoot(env, chain, last', vb);
      PreimagesOfLast(env, a);
      PreimagesOfLast(env, b);
      RootDeterminesCores(env, last, last', hashed);
      SameCoresSameNext(env, chain, va, last, vb, last');
      SameHistoryExtend(a, b);
    }
  }

  lemma BothGenesis(env: Env, chainId: u32, va: seq<PublicKey>, vb: seq<PublicKey>)
    ensures Rebuild(env, chainId, va, []) == Rebuild(env, chainId, vb, []) == Some(Genesis(env, chainId))
    ensures SameHistory([], [])
  {
  }

  lemma {:induction false} TipDeterminesHeaders(
    env: Env, chainId: u32, va: seq<PublicKey>, a: seq<Block>, vb: seq<PublicKey>, b: seq<Block>, hashed: set<Bytes>)
    requires Rebuild(env, chainId, va, a).Some? && Rebuild(env, chainId, vb, b).Some?
    requires a != [] && b != []
    requires Rebuild(env, chainId, va, a).value.tipHash == Rebuild(env, chainId, vb, b).value.tipHash
    requires CollisionFree(env, hashed)
    requires HistoryPreimages(env, a) <= hashed && HistoryPreimages(env, b) <= hashed
    ensures SameHeaders(a, b)
    decreases |a|
  {
    hide TxRootPreimage, HeaderBytes, Rebuild, Valid, HistoryPreimages, ApplyBlock, Linked, Roots.Root, SameHeaders;
    var p, q := a[..|a| - 1], b[..|b| - 1];
    var last, last' := a[|a| - 1].header, b[|b| - 1].header;
    HistoryShape(env, chainId, va, a);
    HistoryShape(env, chainId, vb, b);
    PreimagesOfLast(env, a);
    PreimagesOfLast(env, b);
    HeaderInjective(last, last');
    SameTipSameLength(env, chainId, va, a, vb, b);
    if p != [] {
      RebuildStep(env, chainId, va, a);
      RebuildStep(env, chainId, vb, b);
      ValidationImpliesApplication(env, Rebuild(env, chainId, va, p).value, a[|a| - 1], va);
      ValidationImpliesApplication(env, Rebuild(env, chainId, vb, q).value, b[|b| - 1], vb);
      PreimagesOfPrefix(env, a);
      PreimagesOfPrefix(env, b);
      TipDeterminesHeaders(env, chainId, va, p, vb, q, hashed);
    } else {
      assert SameHeaders(p, q) by { EmptySameHeaders(q); }
    }
    SameHeadersFront(a, b);
  }

  lemma EmptySameHeaders(q: seq<Block>)
    requires q == []
    ensures SameHeaders([], q)
  {
  }

  lemma SameTipSameLength(env: Env, chainId: u32, va: seq<PublicKey>, a: seq<Block>, vb: seq<PublicKey>, b: seq<Block>)
    requires Rebuild(env, chainId, va, a).Some? && Rebuild(env, chainId, vb, b).Some?
    requires a != [] && b != [] && a[|a| - 1].header == b[|b| - 1].header
    ensures |a| == |b|
  {
    hide Rebuild, HeaderHash;
    HistoryShape(env, chainId, va, a);
    HistoryShape(env, chainId, vb, b);
    assert LinkedAt(env, a, |a| - 1) && LinkedAt(env, b, |b| - 1);
  }

  /** Two non-empty validated histories of one chain id with the same tip hash have the same
      length, the same headers, the same transaction cores and the same final chain state, whatever
      their witnesses and whoever their validators. */
  lemma TipDeterminesHistory(
    env: Env, chainId: u32, va: seq<PublicKey>, a: seq<Block>, vb: seq<PublicKey>, b: seq<Block>)
    requires Rebuild(env, chainId, va, a).Some? && Rebuild(env, chainId, vb, b).Some?
    requires a != [] && b != []
    requires Rebuild(env, chainId, va, a).value.tipHash == Rebuild(env, chainId, vb, b).value.tipHash
    requires CollisionFree(env, HistoryPreimages(env, a) + HistoryPreimages(env, b))
    ensures SameHistory(a, b)
    ensures Rebuild(env, chainId, va, a) == Rebuild(env, chainId, vb, b)
  {
    hide Rebuild, HistoryPreimages, CollisionFree;
    var hashed := HistoryPreimages(env, a) + HistoryPreimages(env, b);
    TipDeterminesHeaders(env, chainId, va, a, vb, b, hashed);
    HeadersDetermineLedger(env, chainId, va, a, vb, b, hashed);
  }

  // ----- a validated history is a run, so supply is fixed in it -----

  function BlockRun(block: Block): seq<Supply.Applied> {
    seq(|block.transactions|, i requires 0 <= i < |block.transactions| =>
      Supply.Applied(block.transactions[i], block.header.height))
  }

  function HistoryRun(blocks: seq<Block>): seq<Supply.Applied> {
    if blocks == [] then [] else HistoryRun(blocks[..|blocks| - 1]) + BlockRun(blocks[|blocks| - 1])
  }

  lemma {:induction false} BlockExtendsRun(env: Env, chainId: u32, run: seq<Supply.Applied>, block: Block, n: nat)
    requires Supply.Replay(env, chainId, run).Some? && n <= |block.transactions|
    requires ApplyTxs(env, Supply.Replay(env, chainId, run).value, block.transactions, n, block.header.height,
                      chainId).1.Pass?
    ensures Supply.Replay(env, chainId, run + BlockRun(block)[..n])
      == Some(ApplyTxs(env, Supply.Replay(env, chainId, run).value, block.transactions, n, block.header.height,
                       chainId).0)
  {
    hide ApplyTx;
    if n == 0 {
      assert run + BlockRun(block)[..0] == run;
    } else {
      BlockExtendsRun(env, chainId, run, block, n - 1);
      var longer := run + BlockRun(block)[..n];
      assert longer[..|longer| - 1] == run + BlockRun(block)[..n - 1];
    }
  }

  lemma {:induction false} HistoryIsRun(env: Env, chainId: u32, validators: seq<PublicKey>, blocks: seq<Block>)
    requires Rebuild(env, chainId, validators, blocks).Some?
    ensures Supply.Replay(env, chainId, HistoryRun(blocks))
      == Some(Rebuild(env, chainId, validators, blocks).value.ledger)
  {
    hide ApplyTxs, Roots.Root, HeaderHash;
    if blocks != [] {
      var prefix, last := blocks[..|blocks| - 1], blocks[|blocks| - 1];
      HistoryIsRun(env, chainId, validators, prefix);
      HistoryShape(env, chainId, validators, prefix);
      BlockExtendsRun(env, chainId, HistoryRun(prefix), last, |last.transactions|);
      assert BlockRun(last)[..|last.transactions|] == BlockRun(last);
    }
  }

  /** Fixed supply, for the ledger of any validated history. */
  lemma SupplyOfHistory(env: Env, chainId: u32, validators: seq<PublicKey>, blocks: seq<Block>, id: AssetId)
    requires Rebuild(env, chainId, validators, blocks).Some?
    requires Supply.DistinctIds(env, HistoryRun(blocks)) && Supply.SumsFit(env, HistoryRun(blocks))
    ensures var ledger := Rebuild(env, chainId, validators, blocks).value.ledger;
      && Supply.Total(ledger.utxos, QCOIN_ASSET_ID) == 0
      && (id !in ledger.assets ==> Supply.Total(ledger.utxos, id) == 0)
      && (id in ledger.assets ==>
          exists i: nat ::
            && Supply.Creates(env, chainId, HistoryRun(blocks), i, id)
            && (forall j: nat :: Supply.Creates(env, chainId, HistoryRun(blocks), j, id) ==> j == i)
            && Supply.Total(ledger.utxos, id) == HistoryRun(blocks)[i].tx.core.kind.initialSupply
            && (ledger.assets[id].maxSupply.Some? ==>
              Supply.Total(ledger.utxos, id) <= ledger.assets[id].maxSupply.value))
  {
    hide Supply.Total, Supply.Replay, Supply.DistinctIds, Supply.SumsFit, Rebuild, HistoryRun;
    HistoryIsRun(env, chainId, validators, blocks);
    Supply.FixedSupply(env, chainId, HistoryRun(blocks), id);
    Supply.FixedSupply(env, chainId, HistoryRun(blocks), QCOIN_ASSET_ID);
  }
}

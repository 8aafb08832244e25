/** The build without overflow checks, in which sums wrap. Everything else here is proved for both
    builds alike; this module says exactly when supply is fixed where sums wrap, and exactly when the two
    builds come to the same ledger. */
module ReleaseBuild {
  import opened Types
  import opened LittleEndian
  import opened Codec
  import opened LedgerRules
  import opened Supply
  import opened StackMachine
  import Keys

  function InBuild(env: Env, build: Build): Env {
    env.(build := build)
  }

  // ----- supply where sums may wrap -----

  /** After the first `n` steps every asset exists in exactly the amount minted. */
  ghost predicate ExactAfter(env: Env, chainId: u32, run: seq<Applied>, n: nat)
    requires n <= |run|
  {
    && Replay(env, chainId, run[..n]).Some?
    && SupplyExact(env, chainId, run[..n], Replay(env, chainId, run[..n]).value.utxos)
  }

  /** A transaction whose outputs do not fit makes more of some asset than the inputs and a declared
      supply account for. */
  lemma MisfitBreaksSupply(env: Env, chainId: u32, run: seq<Applied>, ledger: Ledger, next: Applied)
    requires Inv(env, chainId, run, ledger) && DistinctIds(env, run + [next])
    requires forall i :: 0 <= i < |run| ==> OutputsFit(run[i].tx.core.outputs)
    requires Applies(env, ledger, next.tx, next.height, chainId) && !OutputsFit(next.tx.core.outputs)
    ensures !SupplyExact(env, chainId, run + [next], ApplyTx(env, ledger, next.tx, next.height, chainId).0.utxos)
  {
    hide TxId, DeriveAssetId, Applies, ApplyTx, Holds, Total, RegistryExact, InputsMadeBefore, SpentOrRemade, ValueOnce;
    hide InputSum, Register, ReservedError, WitnessError, IssueError, Conserves, DistinctIds;
    var core, whole := next.tx.core, run + [next];
    var id :| OutputSum(core.outputs, |core.outputs|, id) > U128_MAX;
    hide OutputSum;
    AppliesMeans(env, ledger, next.tx, next.height, chainId);
    var kept := Consume(ledger.utxos, core.inputs, |core.inputs|);
    ConsumeLeaves(ledger.utxos, core.inputs, |core.inputs|);
    forall k
      ensures k in ledger.utxos ==> k.txId != TxId(env, core)
    {
      MisfitIsNew(env, run, ledger.utxos, next, k);
    }
    hide Consume;
    TotalAfterConsume(ledger.utxos, core.inputs, |core.inputs|, id);
    TotalAfterCreate(kept, TxId(env, core), core.outputs, |core.outputs|, next.height, id);
    hide Create;
    assert Total(ledger.utxos, id) == Minted(env, chainId, run, id);
    MintedFits(env, chainId, run, ledger.assets, id);
    assert whole[..|whole| - 1] == run;
    if CreatedId(env, core, chainId) == Some(id) {
      NewAssetNotMinted(env, chainId, run, ledger, next, id);
    }
    var minted := if CreatedId(env, core, chainId) == Some(id) then core.kind.initialSupply else 0;
    assert Minted(env, chainId, whole, id) == Minted(env, chainId, run, id) + minted;
  }

  lemma MisfitIsNew(env: Env, run: seq<Applied>, utxos: Utxos, next: Applied, k: UtxoKey)
    requires OriginsKnown(env, run, utxos) && DistinctIds(env, run + [next])
    requires forall i :: 0 <= i < |run| ==> OutputsFit(run[i].tx.core.outputs)
    requires !OutputsFit(next.tx.core.outputs)
    ensures k in utxos ==> k.txId != TxId(env, next.tx.core)
  {
    hide TxId, DistinctIds, OutputsFit;
    var whole := run + [next];
    if k in utxos && k.txId == TxId(env, next.tx.core) {
      var m: nat :| MadeExactly(env, run, m, k, utxos[k].output);
      assert whole[m] == run[m] && whole[|run|] == next;
      SameIdSameCore(env, whole, m, |run|);
      assert false;
    }
  }

  lemma NewAssetNotMinted(env: Env, chainId: u32, run: seq<Applied>, ledger: Ledger, next: Applied, id: AssetId)
    requires RegistryExact(env, chainId, run, ledger.assets)
    requires ReservedError(env, ledger.assets, next.tx.core, chainId).None?
    requires CreatedId(env, next.tx.core, chainId) == Some(id)
    ensures Minted(env, chainId, run, id) == 0
  {
    hide DeriveAssetId, Minted;
    MintedFits(env, chainId, run, ledger.assets, id);
  }

  lemma {:induction false} ExactMeansFits(env: Env, chainId: u32, run: seq<Applied>)
    requires Replay(env, chainId, run).Some? && DistinctIds(env, run)
    requires forall n: nat :: n <= |run| ==> ExactAfter(env, chainId, run, n)
    ensures forall i :: 0 <= i < |run| ==> OutputsFit(run[i].tx.core.outputs)
  {
    hide Applies, ApplyTx, DistinctIds, SupplyExact, Traced, ValueOnce, OutputsFit;
    if run != [] {
      var before, last := run[..|run| - 1], run[|run| - 1];
      forall n: nat | n <= |before|
        ensures ExactAfter(env, chainId, before, n)
      {
        assert ExactAfter(env, chainId, run, n);
        assert before[..n] == run[..n];
      }
      DistinctIdsOfPrefix(env, run);
      ExactMeansFits(env, chainId, before);
      RunInvariant(env, chainId, before);
      assert run == before + [last] && run[..|run|] == run;
      assert ExactAfter(env, chainId, run, |run|);
      if !OutputsFit(last.tx.core.outputs) {
        MisfitBreaksSupply(env, chainId, before, Replay(env, chainId, before).value, last);
      }
    }
  }

  /** In either build: at every point of a run each asset exists in exactly the amount minted if and
      only if the outputs of each of its transactions add up to no more than a u128 of each asset. In a
      checked build they do. */
  lemma SupplyFixedExactly(env: Env, chainId: u32, run: seq<Applied>)
    requires Replay(env, chainId, run).Some? && DistinctIds(env, run)
    ensures (forall n: nat :: n <= |run| ==> ExactAfter(env, chainId, run, n))
       <==> forall i :: 0 <= i < |run| ==> OutputsFit(run[i].tx.core.outputs)
    ensures env.build.Checked? ==> forall i :: 0 <= i < |run| ==> OutputsFit(run[i].tx.core.outputs)
  {
    hide Replay, Applies, ApplyTx, DistinctIds, SupplyExact, Traced, ValueOnce, OutputsFit;
    if forall i :: 0 <= i < |run| ==> OutputsFit(run[i].tx.core.outputs) {
      forall n: nat | n <= |run|
        ensures ExactAfter(env, chainId, run, n)
      {
        ReplayPrefix(env, chainId, run, n);
        DistinctIdsOfTake(env, run, n);
        RunInvariant(env, chainId, run[..n]);
      }
    }
    if forall n: nat :: n <= |run| ==> ExactAfter(env, chainId, run, n) {
      ExactMeansFits(env, chainId, run);
    }
    if env.build.Checked? {
      forall i | 0 <= i < |run|
        ensures OutputsFit(run[i].tx.core.outputs)
      {
        ReplayPrefix(env, chainId, run, i);
        AppliesMeans(env, Replay(env, chainId, run[..i]).value, run[i].tx, run[i].height, chainId);
      }
    }
  }

  // ----- scripts in the two builds -----

  function MachineInBuild(m: Machine, build: Build): Machine {
    m.(env := InBuild(m.env, build))
  }

  /** A relative lock on this stack, if it gets so far, adds up to no more than a u64. */
  predicate LockFits(m: Machine, stack: Items) {
    stack != [] && |Top(stack)| == 8 && Spent(m).Some? && Spent(m).value.createdHeight.Some? ==>
      Spent(m).value.createdHeight.value + U64FromBytes(Top(stack)) <= U64_MAX
  }

  predicate LocksFitFrom(m: Machine, ops: seq<OpCode>, stack: Items) {
    ops == [] || (
      && (ops[0].CheckRelativeTimeLock? ==> LockFits(m, stack))
      && (Step(m, ops[0], stack).Ok? ==> LocksFitFrom(m, ops[1..], Step(m, ops[0], stack).value)))
  }

  lemma DecodesAlike(env: Env, build: Build, bytes: Bytes)
    ensures Keys.SignatureFromBytes(InBuild(env, build), bytes) == Keys.SignatureFromBytes(env, bytes)
    ensures Keys.PublicKeyFromBytes(InBuild(env, build), bytes) == Keys.PublicKeyFromBytes(env, bytes)
  {
  }

  lemma {:induction false} PopsAlike(env: Env, build: Build, stack: Items, n: nat)
    ensures PopSignatures(InBuild(env, build), stack, n) == PopSignatures(env, stack, n)
    ensures PopKeys(InBuild(env, build), stack, n) == PopKeys(env, stack, n)
  {
    hide Keys.SignatureFromBytes, Keys.PublicKeyFromBytes, InBuild;
    if n > 0 && stack != [] {
      DecodesAlike(env, build, Top(stack));
      PopsAlike(env, build, Rest(stack), n - 1);
    }
  }

  /** Where a step of the wrapping machine succeeds, so does that of the checked one, with the same
      stack, unless it is a relative lock that does not fit. */
  lemma StepsAlike(m: Machine, op: OpCode, stack: Items)
    requires m.env.build.Wrapping? && Step(m, op, stack).Ok?
    ensures Step(MachineInBuild(m, Checked), op, stack).Ok? <==> (op.CheckRelativeTimeLock? ==> LockFits(m, stack))
    ensures Step(MachineInBuild(m, Checked), op, stack).Ok? ==>
      Step(MachineInBuild(m, Checked), op, stack) == Step(m, op, stack)
  {
    hide Keys.SignatureFromBytes, Keys.PublicKeyFromBytes;
    var c := MachineInBuild(m, Checked);
    match op {
      case CheckMultiSig(threshold, total) =>
        PopsAlike(m.env, Checked, stack, threshold);
        if PopSignatures(m.env, stack, threshold).Ok? {
          PopsAlike(m.env, Checked, PopSignatures(m.env, stack, threshold).value.1, total);
        }
        assert forall key, sig :: SignatureHolds(c, key, sig) <==> SignatureHolds(m, key, sig);
      case CheckSig =>
        DecodesAlike(m.env, Checked, Top(stack));
        DecodesAlike(m.env, Checked, Top(Rest(stack)));
        assert forall key, sig :: SignatureHolds(c, key, sig) <==> SignatureHolds(m, key, sig);
      case _ =>
    }
  }

  lemma {:induction false} RunsAlike(m: Machine, ops: seq<OpCode>, stack: Items)
    requires m.env.build.Wrapping? && Run(m, ops, stack).Ok?
    ensures Run(MachineInBuild(m, Checked), ops, stack).Ok? <==> LocksFitFrom(m, ops, stack)
  {
    hide Step, LockFits;
    if ops != [] {
      StepsAlike(m, ops[0], stack);
      RunsAlike(m, ops[1..], Step(m, ops[0], stack).value);
    }
  }

  /** A script that succeeds where sums wrap succeeds in a checked build if and only if every relative
      lock it checks fits. */
  lemma EvalsAlike(m: Machine, script: Script)
    requires m.env.build.Wrapping? && Eval(m, script).Ok?
    ensures Eval(MachineInBuild(m, Checked), script).Ok? <==> LocksFitFrom(m, script, [])
  {
    hide Eval, Run, LocksFitFrom;
    StaticGas(m, script);
    StaticGas(MachineInBuild(m, Checked), script);
    RunsAlike(m, script, []);
  }

  // ----- ledgers in the two builds -----

  function ScriptOf(env: Env, tx: Transaction, i: u32): Script {
    if i < |tx.witnesses|
      && DecodeWitness(env, tx.witnesses[i]).Some? then DecodeWitness(env, tx.witnesses[i]).value.script
    else []
  }

  /** Every relative lock that the scripts of a transaction check fits. */
  predicate TxLocksFit(env: Env, utxos: Utxos, tx: Transaction, height: u64, chainId: u32) {
    forall i :: 0 <= i < |tx.core.inputs| && tx.core.inputs[i] in utxos ==>
      LocksFitFrom(InputMachine(env, utxos, tx, height, chainId, i, utxos[tx.core.inputs[i]].output.ownerScriptHash),
                   ScriptOf(env, tx, i), [])
  }

  lemma WitnessesAlike(env: Env, utxos: Utxos, tx: Transaction, height: u64, chainId: u32, i: u32, spent: Output)
    requires env.build.Wrapping? && WitnessError(env, utxos, tx, height, chainId, i, spent).None?
    ensures WitnessError(InBuild(env, Checked), utxos, tx, height, chainId, i, spent).None?
       <==> LocksFitFrom(InputMachine(env, utxos, tx, height, chainId, i, spent.ownerScriptHash), ScriptOf(env, tx, i),
                         [])
  {
    hide Eval, LocksFitFrom, ScriptBytes;
    var m := InputMachine(env, utxos, tx, height, chainId, i, spent.ownerScriptHash);
    EvalsAlike(m, ScriptOf(env, tx, i));
    assert MachineInBuild(m, Checked)
      == InputMachine(InBuild(env, Checked), utxos, tx, height, chainId, i, spent.ownerScriptHash);
  }

  lemma ChecksAlike(env: Env, ledger: Ledger, core: TransactionCore, chainId: u32)
    requires InputsFit(ledger.utxos, core.inputs, |core.inputs|) && OutputsFit(core.outputs)
    ensures var c := InBuild(env, Checked);
      && ReservedError(c, ledger.assets, core, chainId) == ReservedError(env, ledger.assets, core, chainId)
      && IssueError(c, ledger.utxos, core, chainId) == IssueError(env, ledger.utxos, core, chainId)
      && (Conserves(c, ledger.utxos, core, chainId) <==> Conserves(env, ledger.utxos, core, chainId))
  {
    hide InputSum, OutputSum, IssueAuthorized, AssetIdPreimage;
    forall id
      ensures Added(env, InputSum(ledger.utxos, core.inputs, |core.inputs|, id))
           == InputSum(ledger.utxos, core.inputs, |core.inputs|, id)
      ensures Added(env, OutputSum(core.outputs, |core.outputs|, id)) == OutputSum(core.outputs, |core.outputs|, id)
    {
      AddedSmall(env, InputSum(ledger.utxos, core.inputs, |core.inputs|, id));
      AddedSmall(env, OutputSum(core.outputs, |core.outputs|, id));
    }
  }

  /** A success where sums wrap is one in a checked build if and only if its outputs and its relative
      locks fit. */
  lemma SuccessesAlike(env: Env, ledger: Ledger, tx: Transaction, height: u64, chainId: u32)
    requires env.build.Wrapping? && Applies(env, ledger, tx, height, chainId)
    requires InputsFit(ledger.utxos, tx.core.inputs, |tx.core.inputs|)
    ensures Applies(InBuild(env, Checked), ledger, tx, height, chainId)
       <==> OutputsFit(tx.core.outputs) && TxLocksFit(env, ledger.utxos, tx, height, chainId)
  {
    hide Applies, InputsFit, OutputsFit, WitnessError, ReservedError, IssueError, Conserves, LocksFitFrom, ScriptOf,
         InputMachine;
    var c := InBuild(env, Checked);
    AppliesMeans(env, ledger, tx, height, chainId);
    AppliesMeans(c, ledger, tx, height, chainId);
    forall i | 0 <= i < |tx.core.inputs|
      ensures var spent := ledger.utxos[tx.core.inputs[i]].output;
        var m := InputMachine(env, ledger.utxos, tx, height, chainId, i, spent.ownerScriptHash);
        WitnessError(c, ledger.utxos, tx, height, chainId, i, spent).None? <==> LocksFitFrom(m, ScriptOf(env, tx, i),
                                                                                             [])
    {
      WitnessesAlike(env, ledger.utxos, tx, height, chainId, i, ledger.utxos[tx.core.inputs[i]].output);
    }
    if OutputsFit(tx.core.outputs) {
      ChecksAlike(env, ledger, tx.core, chainId);
    }
  }

  lemma EffectsAlike(env: Env, build: Build, ledger: Ledger, core: TransactionCore, height: u64, chainId: u32)
    ensures Effect(InBuild(env, build), ledger, core, height, chainId) == Effect(env, ledger, core, height, chainId)
  {
    hide TxCoreBytes, AssetIdPreimage, Create, Consume;
  }

  lemma {:induction false} SameLedgerIfBoth(env: Env, chainId: u32, run: seq<Applied>)
    requires Replay(env, chainId, run).Some? && Replay(InBuild(env, Checked), chainId, run).Some?
    ensures Replay(env, chainId, run) == Replay(InBuild(env, Checked), chainId, run)
  {
    hide Applies, ApplyTx, Effect;
    if run != [] {
      var before, last := run[..|run| - 1], run[|run| - 1];
      SameLedgerIfBoth(env, chainId, before);
      var ledger := Replay(env, chainId, before).value;
      AppliesMeans(env, ledger, last.tx, last.height, chainId);
      AppliesMeans(InBuild(env, Checked), ledger, last.tx, last.height, chainId);
      EffectsAlike(env, Checked, ledger, last.tx.core, last.height, chainId);
    }
  }

  /** Outputs and relative locks fit at step `i`. */
  ghost predicate StepFits(env: Env, chainId: u32, run: seq<Applied>, i: nat)
    requires i < |run|
  {
    && OutputsFit(run[i].tx.core.outputs)
    && Replay(env, chainId, run[..i]).Some?
    && TxLocksFit(env, Replay(env, chainId, run[..i]).value.utxos, run[i].tx, run[i].height, chainId)
  }

  ghost predicate AllFit(env: Env, chainId: u32, run: seq<Applied>) {
    forall i: nat :: i < |run| ==> StepFits(env, chainId, run, i)
  }

  lemma AllFitFront(env: Env, chainId: u32, run: seq<Applied>)
    requires run != []
    ensures AllFit(env, chainId, run)
       <==> AllFit(env, chainId, run[..|run| - 1]) && StepFits(env, chainId, run, |run| - 1)
  {
    hide Replay, OutputsFit, TxLocksFit;
    var before := run[..|run| - 1];
    forall i: nat | i < |before|
      ensures StepFits(env, chainId, before, i) <==> StepFits(env, chainId, run, i)
    {
      assert before[..i] == run[..i];
    }
  }

  /** A run that succeeds where sums wrap succeeds in a checked build, with the same ledger, if and only
      if the outputs and the relative locks of each step fit. */
  lemma {:induction false} BuildsAgreeExactly(env: Env, chainId: u32, run: seq<Applied>)
    requires env.build.Wrapping? && Replay(env, chainId, run).Some? && DistinctIds(env, run)
    ensures Replay(InBuild(env, Checked), chainId, run) == Replay(env, chainId, run) <==> AllFit(env, chainId, run)
  {
    hide Applies, ApplyTx, DistinctIds, OutputsFit, InputsFit, TxLocksFit, AllFit, WitnessError;
    if run == [] {
      assert AllFit(env, chainId, run) by { NothingMisfits(env, chainId); }
    } else {
      var before, last := run[..|run| - 1], run[|run| - 1];
      DistinctIdsOfPrefix(env, run);
      BuildsAgreeExactly(env, chainId, before);
      AllFitFront(env, chainId, run);
      if Replay(InBuild(env, Checked), chainId, run).Some? {
        SameLedgerIfBoth(env, chainId, run);
        SameLedgerIfBoth(env, chainId, before);
      }
      if AllFit(env, chainId, before) {
        var ledger := Replay(env, chainId, before).value;
        AllFitMeansSumsFit(env, chainId, before);
        AppliesMeans(env, ledger, last.tx, last.height, chainId);
        InputsNeverOverflow(env, chainId, before, last.tx.core.inputs, |last.tx.core.inputs|);
        SuccessesAlike(env, ledger, last.tx, last.height, chainId);
        if Applies(InBuild(env, Checked), ledger, last.tx, last.height, chainId) {
          AppliesMeans(InBuild(env, Checked), ledger, last.tx, last.height, chainId);
          EffectsAlike(env, Checked, ledger, last.tx.core, last.height, chainId);
        }
      }
    }
  }

  lemma NothingMisfits(env: Env, chainId: u32)
    ensures AllFit(env, chainId, [])
  {
  }

  lemma AllFitMeansSumsFit(env: Env, chainId: u32, run: seq<Applied>)
    requires AllFit(env, chainId, run)
    ensures SumsFit(env, run)
  {
    hide OutputsFit, Replay, TxLocksFit;
    forall i | 0 <= i < |run|
      ensures CoreFits(env, run[i].tx.core)
    {
      assert StepFits(env, chainId, run, i);
    }
  }

  // ----- inputs at which they part -----

  const HALF: u128 := 0x8000_0000_0000_0000_0000_0000_0000_0000

  /** Spends nothing, and makes one output with twice 2^127 of an asset. */
  function Doubled(id: AssetId): Transaction {
    Transaction(
      TransactionCore(Transfer, [], [Output(ZERO_HASH, [AssetAmount(id, HALF), AssetAmount(id, HALF)], None)]), [])
  }

  lemma DoubledSums(id: AssetId, other: AssetId)
    ensures Holds(Doubled(id).core.outputs[0], other) == if other == id then U128_MAX + 1 else 0
    ensures OutputSum(Doubled(id).core.outputs, 1, other) == if other == id then U128_MAX + 1 else 0
  {
    var outputs := Doubled(id).core.outputs;
    var held: seq<AssetAmount> := outputs[0].assets;
    assert AssetSum(held, 1, other) == AssetSum(held, 0, other) + (if id == other then HALF else 0);
    assert AssetSum(held, 2, other) == AssetSum(held, 1, other) + (if id == other then HALF else 0);
    assert OutputSum(outputs, 1, other) == OutputSum(outputs, 0, other) + Holds(outputs[0], other);
  }

  /** This one is refused by the checked build, and taken by the wrapping one, in which 2^128 units then
      exist that were never issued. */
  lemma OutputsMustFit(env: Env, chainId: u32, id: AssetId, height: u64)
    ensures var tx := Doubled(id);
      && !Applies(InBuild(env, Checked), EMPTY_LEDGER, tx, height, chainId)
      && Applies(InBuild(env, Wrapping), EMPTY_LEDGER, tx, height, chainId)
      && Total(ApplyTx(InBuild(env, Wrapping), EMPTY_LEDGER, tx, height, chainId).0.utxos, id) == U128_MAX + 1
  {
    hide Applies, ApplyTx, Holds, TxId;
    var core := Doubled(id).core;
    forall other
      ensures OutputSum(core.outputs, 1, other) == if other == id then U128_MAX + 1 else 0
    {
      DoubledSums(id, other);
    }
    hide OutputSum;
    AppliesMeans(InBuild(env, Checked), EMPTY_LEDGER, Doubled(id), height, chainId);
    AppliesMeans(InBuild(env, Wrapping), EMPTY_LEDGER, Doubled(id), height, chainId);
    assert OutputSum(core.outputs, 1, id) > U128_MAX;
    assert Consume(map[], core.inputs, 0) == map[];
    TotalAfterCreate(map[], TxId(InBuild(env, Wrapping), core), core.outputs, 1, height, id);
    assert Total(map[], id) == 0;
  }

  /** A lock of 2^64 - 1 blocks. */
  function LongLock(): Script {
    [PushBytes(U64Bytes(U64_MAX)), CheckRelativeTimeLock]
  }

  lemma LongLockSteps(m: Machine)
    requires Height(m) == Some(1) && Spent(m).Some? && Spent(m).value.createdHeight == Some(1)
    ensures Step(m, CheckRelativeTimeLock, [U64Bytes(U64_MAX)])
         == if m.env.build.Wrapping? then Ok([]) else Err(ScriptError.Overflow)
  {
    hide U64Bytes, U64FromBytes, Height, Spent;
    U64RoundTrip(U64_MAX);
    var stack := [U64Bytes(U64_MAX)];
    assert Top(stack) == U64Bytes(U64_MAX) && Rest(stack) == [];
    hide Top, Rest;
  }

  lemma LongLockRuns(m: Machine)
    requires m.config == DEFAULT_CONFIG && Height(m) == Some(1)
    requires Spent(m).Some? && Spent(m).value.createdHeight == Some(1)
    ensures Eval(m, LongLock()) == if m.env.build.Wrapping? then Ok(28) else Err(ScriptError.Overflow)
  {
    LongLockSteps(m);
    hide U64Bytes, Height, Spent, StepCheckRelativeTimeLock;
    var ops, top := LongLock(), U64Bytes(U64_MAX);
    assert ops[1..] == [CheckRelativeTimeLock] && [CheckRelativeTimeLock][1..] == [];
    assert [] + [top] == [top];
    assert Step(m, ops[0], []) == Ok([top]);
    hide Step;
    assert RunMetered(m, [], 50_000 - 28, []) == Ok(50_000 - 28);
    assert RunMetered(m, [CheckRelativeTimeLock], 50_000 - 18, [top])
        == if m.env.build.Wrapping? then Ok(50_000 - 28) else Err(ScriptError.Overflow);
  }

  /** On an output made at height 1 and spent at height 1 it holds where sums wrap, since the sum is then
      zero; the checked build stops. */
  lemma LockMustFit(m: Machine)
    requires m.config == DEFAULT_CONFIG && Height(m) == Some(1)
    requires Spent(m).Some? && Spent(m).value.createdHeight == Some(1)
    ensures Eval(MachineInBuild(m, Wrapping), LongLock()) == Ok(28)
    ensures Eval(MachineInBuild(m, Checked), LongLock()) == Err(ScriptError.Overflow)
  {
    LongLockRuns(MachineInBuild(m, Wrapping));
    LongLockRuns(MachineInBuild(m, Checked));
  }

  /** A transfer that spends one such output, and makes nothing. */
  function Spending(key: UtxoKey, spend: Bytes): Transaction {
    Transaction(TransactionCore(Transfer, [key], []), [spend])
  }

  function Locked(env: Env, key: UtxoKey): Ledger {
    Ledger(map[key := TrackedOutput(Output(ScriptHash(env, LongLock()), [], None), 1)], map[])
  }

  lemma SpendingWitness(env: Env, key: UtxoKey, spend: Bytes, chainId: u32)
    requires DecodeWitness(env, spend) == Some(InputWitness(LongLock(), None))
    ensures WitnessError(env, Locked(env, key).utxos, Spending(key, spend), 1, chainId, 0,
                         Locked(env, key).utxos[key].output).None?
       <==> env.build.Wrapping?
  {
    hide Eval, ScriptBytes, LongLock;
    var utxos := Locked(env, key).utxos;
    LongLockRuns(InputMachine(env, utxos, Spending(key, spend), 1, chainId, 0, ScriptHash(env, LongLock())));
  }

  lemma NothingHeld(utxos: Utxos, inputs: seq<UtxoKey>)
    requires |inputs| == 1 && inputs[0] in utxos && utxos[inputs[0]].output.assets == []
    ensures forall id :: InputSum(utxos, inputs, 1, id) == 0
  {
    forall id
      ensures InputSum(utxos, inputs, 1, id) == 0
    {
      assert InputSum(utxos, inputs, 1, id) == InputSum(utxos, inputs, 0, id) + Holds(utxos[inputs[0]].output, id);
    }
  }

  /** So the builds part on a transaction all of whose outputs fit. */
  lemma LocksMustFit(env: Env, key: UtxoKey, spend: Bytes, chainId: u32)
    requires DecodeWitness(env, spend) == Some(InputWitness(LongLock(), None))
    ensures OutputsFit(Spending(key, spend).core.outputs)
    ensures Applies(env, Locked(env, key), Spending(key, spend), 1, chainId) <==> env.build.Wrapping?
  {
    hide Applies, WitnessError, ScriptHash, LongLock;
    var ledger, tx := Locked(env, key), Spending(key, spend);
    SpendingWitness(env, key, spend, chainId);
    NothingHeld(ledger.utxos, tx.core.inputs);
    AppliesMeans(env, ledger, tx, 1, chainId);
  }
}

/** The gas-metered stack machine (qcoin-script): its meaning as functions. */
module StackMachine {
  import opened Types
  import opened LittleEndian
  import Codec
  import Keys

  datatype VmConfig = VmConfig(maxGas: u64, maxStackItems: nat, maxPushBytes: u32, maxScriptLen: nat)

  const DEFAULT_CONFIG := VmConfig(50_000, 1_024, 4 * 1024, 2_048)

  // `Overflow` stands for the panic of an addition that leaves its machine type.
  datatype ScriptError = Evaluation | OutOfGas | StackUnderflow | StackOverflow | ScriptTooLarge | Overflow

  datatype ScriptContext = ScriptContext(
    tx: Transaction,
    inputIndex: u64,
    currentHeight: Option<u64>,
    chainId: u32,
    scriptHash: Hash256)

  datatype ResolvedInput = ResolvedInput(output: Output, createdHeight: Option<u64>)

  /** What a script may ask of its surroundings. */
  datatype ScriptHost = ScriptHost(
    currentHeight: Option<u64>,
    inputUtxo: TransactionInput -> Option<ResolvedInput>)

  /** Everything fixed during one evaluation. */
  datatype Machine = Machine(env: Env, config: VmConfig, ctx: ScriptContext, host: ScriptHost)

  type Items = seq<Bytes>

  // ----- questions to the host -----

  function Spent(m: Machine): Option<ResolvedInput> {
    if m.ctx.inputIndex < |m.ctx.tx.core.inputs|
    then m.host.inputUtxo(m.ctx.tx.core.inputs[m.ctx.inputIndex])
    else None
  }

  function Height(m: Machine): Option<u64> {
    if m.host.currentHeight.Some? then m.host.currentHeight else m.ctx.currentHeight
  }

  function SpendParts(m: Machine, prev: Output): Codec.SighashParts {
    Codec.SighashParts(m.ctx.chainId, m.ctx.tx.core, prev, m.ctx.inputIndex, m.ctx.scriptHash, 0)
  }

  /** One signature check: the spent output must be known, and the signature must be the key's on
      the sighash that names this input of this core. */
  predicate SignatureHolds(m: Machine, key: PublicKey, sig: Signature) {
    && Spent(m).Some?
    && Keys.Verifies(m.env, key.scheme, key, Codec.Sighash(m.env, SpendParts(m, Spent(m).value.output)), sig)
  }

  // ----- popping -----

  function Top(stack: Items): Bytes
    requires stack != []
  {
    stack[|stack| - 1]
  }

  function Rest(stack: Items): Items
    requires stack != []
  {
    stack[..|stack| - 1]
  }

  /** Pops and decodes `n` signatures; the first popped is first in the result. */
  function PopSignatures(env: Env, stack: Items, n: nat): Result<(seq<Signature>, Items), ScriptError> {
    if n == 0 then Ok(([], stack))
    else if stack == [] then Err(StackUnderflow)
    else
      match Keys.SignatureFromBytes(env, Top(stack))
      case Err(_) => Err(Evaluation)
      case Ok(sig) =>
        match PopSignatures(env, Rest(stack), n - 1)
        case Err(e) => Err(e)
        case Ok((sigs, rest)) => Ok(([sig] + sigs, rest))
  }

  function PopKeys(env: Env, stack: Items, n: nat): Result<(seq<PublicKey>, Items), ScriptError> {
    if n == 0 then Ok(([], stack))
    else if stack == [] then Err(StackUnderflow)
    else
      match Keys.PublicKeyFromBytes(env, Top(stack))
      case Err(_) => Err(Evaluation)
      case Ok(key) =>
        match PopKeys(env, Rest(stack), n - 1)
        case Err(e) => Err(e)
        case Ok((keys, rest)) => Ok(([key] + keys, rest))
  }

  // ----- the effect of one operation on the stack, without gas -----

  function StepPush(m: Machine, data: Bytes, stack: Items): Result<Items, ScriptError> {
    if |data| > m.config.maxPushBytes then Err(Evaluation)
    else if |stack| >= m.config.maxStackItems then Err(StackOverflow)
    else Ok(stack + [data])
  }

  function StepCheckSig(m: Machine, stack: Items): Result<Items, ScriptError> {
    if |stack| < 2 then Err(StackUnderflow)
    else
      match (Keys.PublicKeyFromBytes(m.env, Top(Rest(stack))), Keys.SignatureFromBytes(m.env, Top(stack)))
      case (Ok(key), Ok(sig)) => if SignatureHolds(m, key, sig) then Ok(Rest(Rest(stack))) else Err(Evaluation)
      case (_, _) => Err(Evaluation)
  }

  /** Every signature is that of the key at the same place. */
  predicate AllHold(m: Machine, keys: seq<PublicKey>, sigs: seq<Signature>) {
    |sigs| <= |keys| && forall i :: 0 <= i < |sigs| ==> SignatureHolds(m, keys[i], sigs[i])
  }

  function StepCheckMultiSig(m: Machine, threshold: byte, total: byte, stack: Items): Result<Items, ScriptError> {
    if threshold == 0 || total == 0 || threshold > total then Err(Evaluation)
    else
      match PopSignatures(m.env, stack, threshold)
      case Err(e) => Err(e)
      case Ok((sigs, afterSigs)) =>
        match PopKeys(m.env, afterSigs, total)
        case Err(e) => Err(e)
        case Ok((keys, rest)) =>
          if AllHold(m, keys, sigs) then Ok(rest) else Err(Evaluation)
  }

  function StepCheckTimeLock(m: Machine, stack: Items): Result<Items, ScriptError> {
    if stack == [] then Err(StackUnderflow)
    else if |Top(stack)| != 8 then Err(Evaluation)
    else if Height(m).None? || Height(m).value < U64FromBytes(Top(stack)) then Err(Evaluation)
    else Ok(Rest(stack))
  }

  // The sum of two u64 values, wrapped.
  function Wrapped(sum: nat): nat {
    if sum > U64_MAX then sum - (U64_MAX + 1) else sum
  }

  function StepCheckRelativeTimeLock(m: Machine, stack: Items): Result<Items, ScriptError> {
    if stack == [] then Err(StackUnderflow)
    else if |Top(stack)| != 8 then Err(Evaluation)
    else if Spent(m).None? || Spent(m).value.createdHeight.None? || Height(m).None? then Err(Evaluation)
    else
      var unlock := Spent(m).value.createdHeight.value + U64FromBytes(Top(stack));
      if unlock > U64_MAX && m.env.build.Checked? then Err(Overflow)
      else if Height(m).value < Wrapped(unlock) then Err(Evaluation)
      else Ok(Rest(stack))
  }

  function StepCheckHashLock(m: Machine, stack: Items): Result<Items, ScriptError> {
    if |stack| < 2 then Err(StackUnderflow)
    else if |Top(Rest(stack))| != 32 then Err(Evaluation)
    else if Top(Rest(stack)) != Blake3(m.env, Top(stack)) then Err(Evaluation)
    else Ok(Rest(Rest(stack)))
  }

  function Step(m: Machine, op: OpCode, stack: Items): Result<Items, ScriptError> {
    match op
    case PushBytes(data) => StepPush(m, data, stack)
    case Nop => Ok(stack)
    case CheckSig => StepCheckSig(m, stack)
    case CheckMultiSig(threshold, total) => StepCheckMultiSig(m, threshold, total, stack)
    case CheckTimeLock => StepCheckTimeLock(m, stack)
    case CheckRelativeTimeLock => StepCheckRelativeTimeLock(m, stack)
    case CheckHashLock => StepCheckHashLock(m, stack)
  }

  /** The unmetered machine: run the operations from the left until one fails. */
  function Run(m: Machine, ops: seq<OpCode>, stack: Items): Result<Items, ScriptError> {
    if ops == [] then Ok(stack)
    else
      match Step(m, ops[0], stack)
      case Err(e) => Err(e)
      case Ok(next) => Run(m, ops[1..], next)
  }

  // ----- gas -----

  /** The price of an operation, known before it runs. */
  function Price(op: OpCode): (gas: u64)
    ensures gas > 0
  {
    match op
    case Nop => 1
    case PushBytes(data) => 10 + |data|
    case CheckSig => 5_000
    case CheckMultiSig(threshold, _) => 5_000 * (if threshold < 1 then 1 else threshold)
    case CheckTimeLock => 10
    case CheckRelativeTimeLock => 10
    case CheckHashLock => 250
  }

  /** `gas_cost`, which refuses an oversized push instead of pricing it. */
  function GasCost(op: OpCode, maxPushBytes: u32): Result<u64, ScriptError> {
    if op.PushBytes? && |op.data| > maxPushBytes then Err(Evaluation) else Ok(Price(op))
  }

  function TotalPrice(ops: seq<OpCode>): nat {
    if ops == [] then 0 else Price(ops[0]) + TotalPrice(ops[1..])
  }

  /** The machine as it runs: every operation pays first, out of what is left. The result is the
      gas left over. */
  function RunMetered(m: Machine, ops: seq<OpCode>, remaining: u64, stack: Items): (r: Result<u64, ScriptError>)
    ensures r.Ok? ==> r.value <= remaining
  {
    if ops == [] then Ok(remaining)
    else
      match GasCost(ops[0], m.config.maxPushBytes)
      case Err(e) => Err(e)
      case Ok(cost) =>
        if cost > remaining then Err(OutOfGas)
        else
          match Step(m, ops[0], stack)
          case Err(e) => Err(e)
          case Ok(next) => RunMetered(m, ops[1..], remaining - cost, next)
  }

  /** `eval`: the gas consumed, or the first error. */
  function Eval(m: Machine, script: Script): Result<u64, ScriptError> {
    if |script| > m.config.maxScriptLen then Err(ScriptTooLarge)
    else
      match RunMetered(m, script, m.config.maxGas, [])
      case Err(e) => Err(e)
      case Ok(left) => Ok(m.config.maxGas - left)
  }

  // ----- gas can be computed ahead of the run -----

  lemma {:induction false} MeteredIsUnmetered(m: Machine, ops: seq<OpCode>, remaining: u64, stack: Items)
    ensures RunMetered(m, ops, remaining, stack).Ok?
       <==> TotalPrice(ops) <= remaining && Run(m, ops, stack).Ok?
    ensures RunMetered(m, ops, remaining, stack).Ok?
        ==> RunMetered(m, ops, remaining, stack).value == remaining - TotalPrice(ops)
  {
    if ops != [] {
      var cost := Price(ops[0]);
      match Step(m, ops[0], stack) {
        case Err(_) =>
        case Ok(next) =>
          if cost <= remaining {
            MeteredIsUnmetered(m, ops[1..], remaining - cost, next);
          }
      }
    }
  }

  /** A script succeeds exactly when it is short enough, its prices add up to no more than the
      limit, and the unmetered machine succeeds; what it consumes is the sum of the prices. */
  lemma StaticGas(m: Machine, script: Script)
    ensures Eval(m, script).Ok?
       <==> |script| <= m.config.maxScriptLen && TotalPrice(script) <= m.config.maxGas && Run(m, script, []).Ok?
    ensures Eval(m, script).Ok? ==> Eval(m, script).value == TotalPrice(script)
  {
    MeteredIsUnmetered(m, script, m.config.maxGas, []);
  }

  // ----- gas bounds the stack and the signature work -----

  function StackBytes(stack: Items): nat {
    if stack == [] then 0 else |Top(stack)| + StackBytes(Rest(stack))
  }

  /** How many signatures an operation verifies when it succeeds. */
  function Verifications(op: OpCode): nat {
    match op
    case CheckSig => 1
    case CheckMultiSig(threshold, _) => threshold
    case _ => 0
  }

  function TotalVerifications(ops: seq<OpCode>): nat {
    if ops == [] then 0 else Verifications(ops[0]) + TotalVerifications(ops[1..])
  }

  lemma {:induction false} PoppedSignaturesShrink(env: Env, stack: Items, n: nat)
    requires PopSignatures(env, stack, n).Ok?
    ensures var (sigs, rest) := PopSignatures(env, stack, n).value;
      |sigs| == n && n <= |stack| && rest == stack[..|stack| - n] && StackBytes(rest) <= StackBytes(stack)
  {
    if n > 0 {
      PoppedSignaturesShrink(env, Rest(stack), n - 1);
    }
  }

  lemma {:induction false} PoppedKeysShrink(env: Env, stack: Items, n: nat)
    requires PopKeys(env, stack, n).Ok?
    ensures var (keys, rest) := PopKeys(env, stack, n).value;
      |keys| == n && n <= |stack| && rest == stack[..|stack| - n] && StackBytes(rest) <= StackBytes(stack)
  {
    if n > 0 {
      PoppedKeysShrink(env, Rest(stack), n - 1);
    }
  }

  lemma StepGrowsByAtMostItsPrice(m: Machine, op: OpCode, stack: Items)
    requires Step(m, op, stack).Ok?
    ensures var next := Step(m, op, stack).value;
      StackBytes(next) + 10 * |next| <= StackBytes(stack) + 10 * |stack| + Price(op)
  {
    match op {
      case PushBytes(data) =>
        assert Rest(stack + [data]) == stack;
      case CheckMultiSig(threshold, total) =>
        PoppedSignaturesShrink(m.env, stack, threshold);
        PoppedKeysShrink(m.env, PopSignatures(m.env, stack, threshold).value.1, total);
      case _ =>
    }
  }

  lemma {:induction false} StackStaysBelowGas(m: Machine, ops: seq<OpCode>, stack: Items)
    requires Run(m, ops, stack).Ok?
    ensures var end := Run(m, ops, stack).value;
      StackBytes(end) + 10 * |end| <= StackBytes(stack) + 10 * |stack| + TotalPrice(ops)
  {
    if ops != [] {
      StepGrowsByAtMostItsPrice(m, ops[0], stack);
      StackStaysBelowGas(m, ops[1..], Step(m, ops[0], stack).value);
    }
  }

  lemma {:induction false} VerificationsArePaid(ops: seq<OpCode>)
    ensures 5_000 * TotalVerifications(ops) <= TotalPrice(ops)
  {
    if ops != [] {
      VerificationsArePaid(ops[1..]);
    }
  }

  /** Wherever a run gets to, whether or not it goes on to succeed, the bytes held, ten units for
      each item held and five thousand for each signature verified have all been paid for. */
  lemma GasBoundsResources(m: Machine, script: Script, n: nat)
    requires n <= |script| && RunMetered(m, script[..n], m.config.maxGas, []).Ok?
    ensures Run(m, script[..n], []).Ok?
    ensures var stack := Run(m, script[..n], []).value;
      StackBytes(stack) + 10 * |stack| <= TotalPrice(script[..n]) <= m.config.maxGas
    ensures 5_000 * TotalVerifications(script[..n]) <= TotalPrice(script[..n])
  {
    MeteredIsUnmetered(m, script[..n], m.config.maxGas, []);
    StackStaysBelowGas(m, script[..n], []);
    VerificationsArePaid(script[..n]);
  }

  // ----- and the signature work of a run that fails -----

  /** How many signatures are checked before the first that does not hold, and with it. */
  function TriedFrom(m: Machine, keys: seq<PublicKey>, sigs: seq<Signature>, i: nat): nat
    decreases |sigs| - i
  {
    if i >= |sigs| || i >= |keys| || !Keys.Registered(keys[i].scheme) || Spent(m).None? then 0
    else if SignatureHolds(m, keys[i], sigs[i]) then 1 + TriedFrom(m, keys, sigs, i + 1)
    else 1
  }

  /** How many signatures an operation checks on a given stack, whether or not it succeeds. */
  function Tried(m: Machine, op: OpCode, stack: Items): nat {
    match op
    case CheckSig =>
      if |stack| < 2 then 0
      else
        (match (Keys.PublicKeyFromBytes(m.env, Top(Rest(stack))), Keys.SignatureFromBytes(m.env, Top(stack)))
         case (Ok(key), Ok(sig)) => TriedFrom(m, [key], [sig], 0)
         case (_, _) => 0)
    case CheckMultiSig(threshold, total) =>
      if threshold == 0 || total == 0 || threshold > total then 0
      else
        (match PopSignatures(m.env, stack, threshold)
         case Err(_) => 0
         case Ok((sigs, afterSigs)) =>
           match PopKeys(m.env, afterSigs, total)
           case Err(_) => 0
           case Ok((keys, _)) => TriedFrom(m, keys, sigs, 0))
    case _ => 0
  }

  /** All signatures that a run checks, up to its end or its first error. */
  function TotalTried(m: Machine, ops: seq<OpCode>, remaining: u64, stack: Items): nat {
    if ops == [] then 0
    else
      match GasCost(ops[0], m.config.maxPushBytes)
      case Err(_) => 0
      case Ok(cost) =>
        if cost > remaining then 0
        else
          Tried(m, ops[0], stack)
          + (match Step(m, ops[0], stack)
             case Err(_) => 0
             case Ok(next) => TotalTried(m, ops[1..], remaining - cost, next))
  }

  lemma {:induction false} TriedAtMostAll(m: Machine, keys: seq<PublicKey>, sigs: seq<Signature>, i: nat)
    requires i <= |sigs|
    ensures TriedFrom(m, keys, sigs, i) <= |sigs| - i
    decreases |sigs| - i
  {
    if i < |sigs| {
      TriedAtMostAll(m, keys, sigs, i + 1);
    }
  }

  lemma TriedIsPaid(m: Machine, op: OpCode, stack: Items)
    ensures 5_000 * Tried(m, op, stack) <= Price(op)
  {
    match op {
      case CheckSig =>
        if |stack| >= 2 {
          match (Keys.PublicKeyFromBytes(m.env, Top(Rest(stack))), Keys.SignatureFromBytes(m.env, Top(stack))) {
            case (Ok(key), Ok(sig)) => TriedAtMostAll(m, [key], [sig], 0);
            case (_, _) =>
          }
        }
      case CheckMultiSig(threshold, total) =>
        if PopSignatures(m.env, stack, threshold).Ok? {
          PoppedSignaturesShrink(m.env, stack, threshold);
          var (sigs, rest) := PopSignatures(m.env, stack, threshold).value;
          if PopKeys(m.env, rest, total).Ok? {
            TriedAtMostAll(m, PopKeys(m.env, rest, total).value.0, sigs, 0);
          }
        }
      case _ =>
    }
  }

  lemma {:induction false} TotalTriedIsPaid(m: Machine, ops: seq<OpCode>, remaining: u64, stack: Items)
    ensures 5_000 * TotalTried(m, ops, remaining, stack) <= remaining
  {
    hide Tried, Step;
    if ops != [] && GasCost(ops[0], m.config.maxPushBytes).Ok? && Price(ops[0]) <= remaining {
      TriedIsPaid(m, ops[0], stack);
      match Step(m, ops[0], stack) {
        case Err(_) =>
        case Ok(next) => TotalTriedIsPaid(m, ops[1..], remaining - Price(ops[0]), next);
      }
    }
  }

  /** Gas bounds the signatures checked by any script, those of a failing operation included. */
  lemma GasBoundsSignatureWork(m: Machine, script: Script)
    ensures 5_000 * TotalTried(m, script, m.config.maxGas, []) <= m.config.maxGas
  {
    TotalTriedIsPaid(m, script, m.config.maxGas, []);
  }

  // ----- what CheckMultiSig checks -----

  // The signature, or the key, encoded `i` places below the top of the stack.
  function SignatureAt(env: Env, stack: Items, i: nat): Result<Signature, Keys.CryptoError> {
    if i < |stack| then Keys.SignatureFromBytes(env, stack[|stack| - 1 - i]) else Err(Keys.InvalidSignature)
  }

  function KeyAt(env: Env, stack: Items, i: nat): Result<PublicKey, Keys.CryptoError> {
    if i < |stack| then Keys.PublicKeyFromBytes(env, stack[|stack| - 1 - i]) else Err(Keys.InvalidPublicKey)
  }

  lemma {:induction false} PoppedSignaturesAre(env: Env, stack: Items, n: nat)
    ensures PopSignatures(env, stack, n).Ok? <==> forall i :: 0 <= i < n ==> SignatureAt(env, stack, i).Ok?
    ensures PopSignatures(env, stack, n).Ok? ==>
      var sigs := PopSignatures(env, stack, n).value.0;
      |sigs| == n && forall i :: 0 <= i < n ==> SignatureAt(env, stack, i) == Ok(sigs[i])
  {
    if n > 0 {
      if stack == [] {
        assert SignatureAt(env, stack, 0).Err?;
      } else {
        PoppedSignaturesAre(env, Rest(stack), n - 1);
        forall i | 0 <= i < n - 1
          ensures SignatureAt(env, Rest(stack), i) == SignatureAt(env, stack, i + 1)
        {
        }
        assert forall i :: 0 < i < n ==> SignatureAt(env, stack, i) == SignatureAt(env, Rest(stack), i - 1);
        assert SignatureAt(env, stack, 0) == Keys.SignatureFromBytes(env, Top(stack));
      }
    }
  }

  lemma {:induction false} PoppedKeysAre(env: Env, stack: Items, n: nat)
    ensures PopKeys(env, stack, n).Ok? <==> forall i :: 0 <= i < n ==> KeyAt(env, stack, i).Ok?
    ensures PopKeys(env, stack, n).Ok? ==>
      var keys := PopKeys(env, stack, n).value.0;
      |keys| == n && forall i :: 0 <= i < n ==> KeyAt(env, stack, i) == Ok(keys[i])
  {
    if n > 0 {
      if stack == [] {
        assert KeyAt(env, stack, 0).Err?;
      } else {
        PoppedKeysAre(env, Rest(stack), n - 1);
        forall i | 0 <= i < n - 1
          ensures KeyAt(env, Rest(stack), i) == KeyAt(env, stack, i + 1)
        {
        }
        assert forall i :: 0 < i < n ==> KeyAt(env, stack, i) == KeyAt(env, Rest(stack), i - 1);
        assert KeyAt(env, stack, 0) == Keys.PublicKeyFromBytes(env, Top(stack));
      }
    }
  }

  /** The i-th signature from the top and the i-th key below the signatures belong together. */
  predicate PairHolds(m: Machine, stack: Items, threshold: nat, i: nat) {
    var sig, key := SignatureAt(m.env, stack, i), KeyAt(m.env, stack, threshold + i);
    sig.Ok? && key.Ok? && SignatureHolds(m, key.value, sig.value)
  }

  /** The keys popped after `threshold` signatures are the keys found below them. */
  lemma KeysBelowSignatures(env: Env, stack: Items, threshold: nat, total: nat)
    requires PopSignatures(env, stack, threshold).Ok?
    ensures var rest := PopSignatures(env, stack, threshold).value.1;
      && (PopKeys(env, rest, total).Ok? <==>
            forall j :: threshold <= j < threshold + total ==> KeyAt(env, stack, j).Ok?)
      && (PopKeys(env, rest, total).Ok? ==>
            var (keys, left) := PopKeys(env, rest, total).value;
            && |keys| == total && threshold + total <= |stack| && left == stack[..|stack| - threshold - total]
            && forall i :: 0 <= i < total ==> KeyAt(env, stack, threshold + i) == Ok(keys[i]))
  {
    PoppedSignaturesShrink(env, stack, threshold);
    var rest := PopSignatures(env, stack, threshold).value.1;
    PoppedKeysAre(env, rest, total);
    forall i: nat
      ensures KeyAt(env, rest, i) == KeyAt(env, stack, threshold + i)
    {
    }
    assert forall j :: threshold <= j < threshold + total
                   ==> KeyAt(env, stack, j) == KeyAt(env, rest, j - threshold);
    if PopKeys(env, rest, total).Ok? {
      PoppedKeysShrink(env, rest, total);
    }
  }

  /** CheckMultiSig is not "any `threshold` of `total`": the i-th signature from the top must be
      that of the i-th key from the top, and the other keys only have to decode. */
  lemma MultiSigPairsInOrder(m: Machine, threshold: byte, total: byte, stack: Items)
    ensures StepCheckMultiSig(m, threshold, total, stack).Ok?
       <==> && 0 < threshold <= total
            && (forall i :: 0 <= i < threshold ==> PairHolds(m, stack, threshold, i))
            && (forall j :: threshold <= j < threshold + total ==> KeyAt(m.env, stack, j).Ok?)
    ensures StepCheckMultiSig(m, threshold, total, stack).Ok? ==>
      && threshold + total <= |stack|
      && StepCheckMultiSig(m, threshold, total, stack).value == stack[..|stack| - threshold - total]
  {
    PoppedSignaturesAre(m.env, stack, threshold);
    if PopSignatures(m.env, stack, threshold).Err? {
      if 0 < threshold {
        var i :| 0 <= i < threshold && SignatureAt(m.env, stack, i).Err?;
        assert !PairHolds(m, stack, threshold, i);
      }
    } else {
      var (sigs, rest) := PopSignatures(m.env, stack, threshold).value;
      KeysBelowSignatures(m.env, stack, threshold, total);
      if PopKeys(m.env, rest, total).Ok? && threshold <= total {
        var keys := PopKeys(m.env, rest, total).value.0;
        forall i | 0 <= i < threshold
          ensures PairHolds(m, stack, threshold, i) <==> SignatureHolds(m, keys[i], sigs[i])
        {
          assert KeyAt(m.env, stack, threshold + i) == Ok(keys[i]);
        }
      }
    }
  }

  // ----- waiting never invalidates a spend -----

  /** The same spend seen later: the same transaction, input, script and output, at a height no
      lower and with the spent output no younger; and, where sums wrap, made no earlier either. */
  ghost predicate SeenLater(m: Machine, later: Machine) {
    && later.env == m.env && later.config == m.config
    && later.ctx.tx == m.ctx.tx && later.ctx.inputIndex == m.ctx.inputIndex
    && later.ctx.chainId == m.ctx.chainId && later.ctx.scriptHash == m.ctx.scriptHash
    && (Height(m).Some? ==> Height(later).Some? && Height(m).value <= Height(later).value)
    && (Spent(m).Some? ==>
        && Spent(later).Some?
        && Spent(later).value.output == Spent(m).value.output
        && (Spent(m).value.createdHeight.Some? ==>
            && Spent(later).value.createdHeight.Some?
            && (Height(m).Some? ==>
                Height(m).value - Spent(m).value.createdHeight.value
                <= Height(later).value - Spent(later).value.createdHeight.value)
            && (m.env.build.Wrapping? ==>
                Spent(m).value.createdHeight.value <= Spent(later).value.createdHeight.value)))
  }

  lemma StepSeenLater(m: Machine, later: Machine, op: OpCode, stack: Items)
    requires SeenLater(m, later) && Step(m, op, stack).Ok?
    ensures Step(later, op, stack) == Step(m, op, stack)
  {
    assert forall key, sig :: SignatureHolds(m, key, sig) ==> SignatureHolds(later, key, sig);
  }

  lemma {:induction false} RunSeenLater(m: Machine, later: Machine, ops: seq<OpCode>, stack: Items)
    requires SeenLater(m, later) && Run(m, ops, stack).Ok?
    ensures Run(later, ops, stack) == Run(m, ops, stack)
  {
    if ops != [] {
      StepSeenLater(m, later, ops[0], stack);
      RunSeenLater(m, later, ops[1..], Step(m, ops[0], stack).value);
    }
  }

  /** A script that succeeds keeps succeeding, at the same price, as the chain grows. */
  lemma EvalSeenLater(m: Machine, later: Machine, script: Script)
    requires SeenLater(m, later) && Eval(m, script).Ok?
    ensures Eval(later, script) == Eval(m, script)
  {
    StaticGas(m, script);
    StaticGas(later, script);
    RunSeenLater(m, later, script, []);
  }
}

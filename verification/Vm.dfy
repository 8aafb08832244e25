/** The stack machine as the source runs it: a gas meter and a stack updated in place. */
module Vm {
  import opened Types
  import opened LittleEndian
  import opened StackMachine
  import Encoder
  import Keys

  class GasMeter {
    var remaining: u64
    const limit: u64

    constructor (limit: u64)
      ensures this.limit == limit && remaining == limit
    {
      this.limit := limit;
      remaining := limit;
    }

    method Consume(amount: u64) returns (r: Outcome<ScriptError>)
      modifies this
      ensures amount <= old(remaining) ==> r == Pass && remaining == old(remaining) - amount
      ensures amount > old(remaining) ==> r == Fail(OutOfGas) && remaining == old(remaining)
    {
      if amount > remaining {
        return Fail(OutOfGas);
      }
      remaining := remaining - amount;
      return Pass;
    }

    function Used(): u64
      requires remaining <= limit
      reads this
    {
      limit - remaining
    }
  }

  class Stack {
    var items: Items
    const maxItems: nat

    constructor (maxItems: nat)
      ensures items == [] && this.maxItems == maxItems
    {
      items := [];
      this.maxItems := maxItems;
    }

    method Push(value: Bytes) returns (r: Outcome<ScriptError>)
      modifies this
      ensures |old(items)| >= maxItems ==> r == Fail(StackOverflow) && items == old(items)
      ensures |old(items)| < maxItems ==> r == Pass && items == old(items) + [value]
    {
      if |items| >= maxItems {
        return Fail(StackOverflow);
      }
      items := items + [value];
      return Pass;
    }

    method Pop() returns (r: Result<Bytes, ScriptError>)
      modifies this
      ensures old(items) == [] ==> r == Err(StackUnderflow) && items == []
      ensures old(items) != [] ==> r == Ok(Top(old(items))) && items == Rest(old(items))
    {
      if items == [] {
        return Err(StackUnderflow);
      }
      r := Ok(items[|items| - 1]);
      items := items[..|items| - 1];
    }
  }

  /** Resolves the spent output, hashes the core and asks the scheme. */
  method VerifyOne(m: Machine, key: PublicKey, sig: Signature) returns (r: Outcome<ScriptError>)
    ensures r == if SignatureHolds(m, key, sig) then Pass else Fail(Evaluation)
  {
    match Spent(m) {
      case None => return Fail(Evaluation);
      case Some(prev) =>
        var sighash := Encoder.ComputeSighash(m.env, SpendParts(m, prev.output));
        if Keys.Verifies(m.env, key.scheme, key, sighash, sig) {
          return Pass;
        }
        return Fail(Evaluation);
    }
  }

  method CheckSig(m: Machine, stack: Stack) returns (r: Outcome<ScriptError>)
    modifies stack
    ensures r == AsOutcome(StepCheckSig(m, old(stack.items)))
    ensures r.Pass? ==> StepCheckSig(m, old(stack.items)) == Ok(stack.items)
  {
    var signatureBytes := stack.Pop();
    if signatureBytes.Err? { return Fail(signatureBytes.error); }
    var publicKeyBytes := stack.Pop();
    if publicKeyBytes.Err? { return Fail(publicKeyBytes.error); }
    var key := Keys.PublicKeyFromBytes(m.env, publicKeyBytes.value);
    var sig := Keys.SignatureFromBytes(m.env, signatureBytes.value);
    if key.Err? || sig.Err? { return Fail(Evaluation); }
    r := VerifyOne(m, key.value, sig.value);
  }

  method PopAllSignatures(m: Machine, stack: Stack, n: nat) returns (r: Result<seq<Signature>, ScriptError>)
    modifies stack
    ensures match PopSignatures(m.env, old(stack.items), n)
      case Err(e) => r == Err(e)
      case Ok((sigs, rest)) => r == Ok(sigs) && stack.items == rest
  {
    var signatures: seq<Signature> := [];
    ghost var all := PopSignatures(m.env, stack.items, n);
    assert all.Ok? ==> signatures + all.value.0 == all.value.0;
    for i := 0 to n
      invariant |signatures| == i
      invariant all
             == match PopSignatures(m.env, stack.items, n - i)
                case Err(e) => Err(e)
                case Ok((sigs, rest)) => Ok((signatures + sigs, rest))
    {
      var bytes := stack.Pop();
      if bytes.Err? { return Err(bytes.error); }
      var signature := Keys.SignatureFromBytes(m.env, bytes.value);
      if signature.Err? { return Err(Evaluation); }
      assert forall sigs: seq<Signature> :: signatures + ([signature.value] + sigs)
               == signatures + [signature.value] + sigs;
      signatures := signatures + [signature.value];
    }
    assert signatures + [] == signatures;
    return Ok(signatures);
  }

  method PopAllKeys(m: Machine, stack: Stack, n: nat) returns (r: Result<seq<PublicKey>, ScriptError>)
    modifies stack
    ensures match PopKeys(m.env, old(stack.items), n)
      case Err(e) => r == Err(e)
      case Ok((keys, rest)) => r == Ok(keys) && stack.items == rest
  {
    var pubkeys: seq<PublicKey> := [];
    ghost var all := PopKeys(m.env, stack.items, n);
    assert all.Ok? ==> pubkeys + all.value.0 == all.value.0;
    for i := 0 to n
      invariant |pubkeys| == i
      invariant all
             == match PopKeys(m.env, stack.items, n - i)
                case Err(e) => Err(e)
                case Ok((keys, rest)) => Ok((pubkeys + keys, rest))
    {
      var bytes := stack.Pop();
      if bytes.Err? { return Err(bytes.error); }
      var key := Keys.PublicKeyFromBytes(m.env, bytes.value);
      if key.Err? { return Err(Evaluation); }
      assert forall keys: seq<PublicKey> :: pubkeys + ([key.value] + keys) == pubkeys + [key.value] + keys;
      pubkeys := pubkeys + [key.value];
    }
    assert pubkeys + [] == pubkeys;
    return Ok(pubkeys);
  }

  method VerifyAll(m: Machine, pubkeys: seq<PublicKey>, signatures: seq<Signature>) returns (r: Outcome<ScriptError>)
    ensures r == if AllHold(m, pubkeys, signatures) then Pass else Fail(Evaluation)
  {
    hide SignatureHolds;
    for i := 0 to |signatures|
      invariant i <= |pubkeys|
      invariant forall j :: 0 <= j < i ==> SignatureHolds(m, pubkeys[j], signatures[j])
    {
      if i >= |pubkeys| { return Fail(Evaluation); }
      r := VerifyOne(m, pubkeys[i], signatures[i]);
      if r.Fail? { return; }
    }
    return Pass;
  }

  method CheckMultiSig(m: Machine, threshold: byte, total: byte, stack: Stack) returns (r: Outcome<ScriptError>)
    modifies stack
    ensures r == AsOutcome(StepCheckMultiSig(m, threshold, total, old(stack.items)))
    ensures r.Pass? ==> StepCheckMultiSig(m, threshold, total, old(stack.items)) == Ok(stack.items)
  {
    if threshold == 0 || total == 0 || threshold > total {
      return Fail(Evaluation);
    }
    var signatures := PopAllSignatures(m, stack, threshold);
    if signatures.Err? { return Fail(signatures.error); }
    var pubkeys := PopAllKeys(m, stack, total);
    if pubkeys.Err? { return Fail(pubkeys.error); }
    r := VerifyAll(m, pubkeys.value, signatures.value);
  }

  method CheckTimeLock(m: Machine, stack: Stack) returns (r: Outcome<ScriptError>)
    modifies stack
    ensures r == AsOutcome(StepCheckTimeLock(m, old(stack.items)))
    ensures r.Pass? ==> StepCheckTimeLock(m, old(stack.items)) == Ok(stack.items)
  {
    var bytes := stack.Pop();
    if bytes.Err? { return Fail(bytes.error); }
    if |bytes.value| != 8 { return Fail(Evaluation); }
    var requiredHeight := U64FromBytes(bytes.value);
    match Height(m) {
      case None => return Fail(Evaluation);
      case Some(currentHeight) =>
        return if currentHeight < requiredHeight then Fail(Evaluation) else Pass;
    }
  }

  method CheckRelativeTimeLock(m: Machine, stack: Stack) returns (r: Outcome<ScriptError>)
    modifies stack
    ensures r == AsOutcome(StepCheckRelativeTimeLock(m, old(stack.items)))
    ensures r.Pass? ==> StepCheckRelativeTimeLock(m, old(stack.items)) == Ok(stack.items)
  {
    var bytes := stack.Pop();
    if bytes.Err? { return Fail(bytes.error); }
    if |bytes.value| != 8 { return Fail(Evaluation); }
    var relativeHeight := U64FromBytes(bytes.value);
    var resolved := Spent(m);
    if resolved.None? || resolved.value.createdHeight.None? || Height(m).None? { return Fail(Evaluation); }
    var unlockHeight := resolved.value.createdHeight.value + relativeHeight;
    if unlockHeight > U64_MAX && m.env.build.Checked? { return Fail(Overflow); }
    return if Height(m).value < Wrapped(unlockHeight) then Fail(Evaluation) else Pass;
  }

  method CheckHashLock(m: Machine, stack: Stack) returns (r: Outcome<ScriptError>)
    modifies stack
    ensures r == AsOutcome(StepCheckHashLock(m, old(stack.items)))
    ensures r.Pass? ==> StepCheckHashLock(m, old(stack.items)) == Ok(stack.items)
  {
    var preimage := stack.Pop();
    if preimage.Err? { return Fail(preimage.error); }
    var expectedHash := stack.Pop();
    if expectedHash.Err? { return Fail(expectedHash.error); }
    if |expectedHash.value| != 32 { return Fail(Evaluation); }
    var actual := Blake3(m.env, preimage.value);
    return if expectedHash.value != actual then Fail(Evaluation) else Pass;
  }

  function AsOutcome<T>(r: Result<T, ScriptError>): Outcome<ScriptError> {
    match r
    case Ok(_) => Pass
    case Err(e) => Fail(e)
  }

  method Execute(m: Machine, op: OpCode, stack: Stack) returns (r: Outcome<ScriptError>)
    requires stack.maxItems == m.config.maxStackItems
    modifies stack
    ensures r == AsOutcome(Step(m, op, old(stack.items)))
    ensures r.Pass? ==> Step(m, op, old(stack.items)) == Ok(stack.items)
  {
    match op {
      case PushBytes(data) =>
        if |data| > m.config.maxPushBytes { return Fail(Evaluation); }
        r := stack.Push(data);
      case Nop => r := Pass;
      case CheckSig => r := CheckSig(m, stack);
      case CheckMultiSig(threshold, total) => r := CheckMultiSig(m, threshold, total, stack);
      case CheckTimeLock => r := CheckTimeLock(m, stack);
      case CheckRelativeTimeLock => r := CheckRelativeTimeLock(m, stack);
      case CheckHashLock => r := CheckHashLock(m, stack);
    }
  }

  /** `DeterministicScriptEngine::eval`. */
  method Evaluate(m: Machine, script: Script) returns (r: Result<u64, ScriptError>)
    ensures r == Eval(m, script)
  {
    if |script| > m.config.maxScriptLen {
      return Err(ScriptTooLarge);
    }
    var gas := new GasMeter(m.config.maxGas);
    var stack := new Stack(m.config.maxStackItems);
    for i := 0 to |script|
      invariant gas.remaining <= gas.limit
      invariant RunMetered(m, script, m.config.maxGas, []) == RunMetered(m, script[i..], gas.remaining, stack.items)
    {
      var cost := GasCost(script[i], m.config.maxPushBytes);
      if cost.Err? { return Err(cost.error); }
      assert script[i..][0] == script[i] && script[i..][1..] == script[i + 1..];
      var paid := gas.Consume(cost.value);
      if paid.Fail? { return Err(paid.error); }
      var step := Execute(m, script[i], stack);
      if step.Fail? { return Err(step.error); }
    }
    return Ok(gas.Used());
  }
}

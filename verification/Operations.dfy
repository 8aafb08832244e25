/** What each operation of a script needs and leaves, stated of the items on the stack, the height and
    the spent output alone; and what follows for whole scripts. */
module Operations {
  import opened Types
  import opened LittleEndian
  import opened StackMachine
  import Codec
  import Keys

  /** The output that the input under evaluation spends, if the host knows it. */
  function SpentOutput(m: Machine): Option<ResolvedInput> {
    if |m.ctx.tx.core.inputs| <= m.ctx.inputIndex then None
    else m.host.inputUtxo(m.ctx.tx.core.inputs[m.ctx.inputIndex])
  }

  /** The height a lock is compared with: the host's, or the context's if the host has none. */
  predicate AtHeight(m: Machine, h: u64) {
    m.host.currentHeight == Some(h) || (m.host.currentHeight == None && m.ctx.currentHeight == Some(h))
  }

  /** Two items are a key and a signature that its library accepts for the sighash of this input of
      this core, of the output it spends and of the script that owns it. */
  predicate Signed(m: Machine, key: Bytes, sig: Bytes) {
    && SpentOutput(m).Some?
    && var parts := Codec.SighashParts(m.ctx.chainId, m.ctx.tx.core, SpentOutput(m).value.output,
                                       m.ctx.inputIndex, m.ctx.scriptHash, 0);
       Keys.GenuineBytes(m.env, key, m.env.blake3(Codec.SighashPreimage(parts)), sig)
  }

  lemma SignedExactly(m: Machine, key: Bytes, sig: Bytes)
    ensures Signed(m, key, sig)
       <==> var k, s := Keys.PublicKeyFromBytes(m.env, key), Keys.SignatureFromBytes(m.env, sig);
            k.Ok? && s.Ok? && SignatureHolds(m, k.value, s.value)
  {
    hide Keys.GenuineBytes, Keys.PublicKeyFromBytes, Keys.SignatureFromBytes, Keys.Verifies;
    if Spent(m).Some? {
      Keys.GenuineBytesExactly(m.env, key, Codec.Sighash(m.env, SpendParts(m, Spent(m).value.output)), sig);
    }
  }

  // ----- one operation on any stack -----

  /** The item `i` places below the top. */
  function Item(stack: Items, i: nat): Bytes
    requires i < |stack|
  {
    stack[|stack| - 1 - i]
  }

  function Below(stack: Items, n: nat): Items
    requires n <= |stack|
  {
    stack[..|stack| - n]
  }

  /** An absolute lock opens from the very height it names on. */
  lemma CheckTimeLockExactly(m: Machine, stack: Items)
    ensures var r := Step(m, CheckTimeLock, stack);
      && (r.Ok? <==> && stack != [] && |Item(stack, 0)| == 8
                     && exists h: u64 :: AtHeight(m, h) && Weight(Item(stack, 0), 8) <= h)
      && (r.Ok? ==> r.value == Below(stack, 1))
      && (r.Err? ==> r.error == if stack == [] then StackUnderflow else Evaluation)
  {
    if stack != [] && |Item(stack, 0)| == 8 {
      FromLEWeighs(Item(stack, 0));
      if Height(m).Some? {
        assert AtHeight(m, Height(m).value);
      }
    }
  }

  /** A relative one from that many blocks after the output was made on; a sum beyond u64 stops a
      checked build and wraps in the other. */
  lemma CheckRelativeTimeLockExactly(m: Machine, stack: Items)
    ensures var r := Step(m, CheckRelativeTimeLock, stack);
      && (r.Ok? <==> && stack != [] && |Item(stack, 0)| == 8
                     && exists made: u64, h: u64 :: Made(m, made) && AtHeight(m, h) && Aged(m, stack, made, h))
      && (r.Ok? ==> r.value == Below(stack, 1))
      && (r.Err? ==>
            r.error == if stack == [] then StackUnderflow
                       else if TooFar(m, stack) then ScriptError.Overflow else Evaluation)
  {
    if stack != [] && |Item(stack, 0)| == 8 {
      FromLEWeighs(Item(stack, 0));
      if Spent(m).Some? && Spent(m).value.createdHeight.Some? && Height(m).Some? {
        var made, h := Spent(m).value.createdHeight.value, Height(m).value;
        assert Made(m, made) && AtHeight(m, h);
      }
    }
  }

  predicate Made(m: Machine, made: u64) {
    SpentOutput(m).Some? && SpentOutput(m).value.createdHeight == Some(made)
  }

  predicate Aged(m: Machine, stack: Items, made: u64, h: u64)
    requires stack != [] && |Item(stack, 0)| == 8
  {
    var lock := Weight(Item(stack, 0), 8);
    made + lock <= h || (m.env.build.Wrapping? && U64_MAX < made + lock <= h + U64_MAX + 1)
  }

  ghost predicate TooFar(m: Machine, stack: Items)
    requires stack != []
  {
    && |Item(stack, 0)| == 8 && m.env.build.Checked?
    && exists made: u64, h: u64 :: Made(m, made) && AtHeight(m, h) && made + Weight(Item(stack, 0), 8) > U64_MAX
  }

  /** A hash lock opens for the preimage on top of its hash. */
  lemma CheckHashLockExactly(m: Machine, stack: Items)
    ensures var r := Step(m, CheckHashLock, stack);
      && (r.Ok? <==> |stack| >= 2 && Item(stack, 1) == m.env.blake3(Item(stack, 0)))
      && (r.Ok? ==> r.value == Below(stack, 2))
      && (r.Err? ==> r.error == if |stack| < 2 then StackUnderflow else Evaluation)
  {
  }

  /** One signature on top of its key. */
  lemma CheckSigExactly(m: Machine, stack: Items)
    ensures var r := Step(m, CheckSig, stack);
      && (r.Ok? <==> |stack| >= 2 && Signed(m, Item(stack, 1), Item(stack, 0)))
      && (r.Ok? ==> r.value == Below(stack, 2))
      && (r.Err? ==> r.error == if |stack| < 2 then StackUnderflow else Evaluation)
  {
    hide Signed, SignatureHolds, Keys.PublicKeyFromBytes, Keys.SignatureFromBytes;
    if |stack| >= 2 {
      SignedExactly(m, Item(stack, 1), Item(stack, 0));
    }
  }

  /** A push adds its bytes, unless they or the stack are too long; a no-operation does nothing. */
  lemma PushAndNopExactly(m: Machine, data: Vec<byte>, stack: Items)
    ensures var r := Step(m, OpCode.PushBytes(data), stack);
      && (r.Ok? <==> |data| <= m.config.maxPushBytes && |stack| + 1 <= m.config.maxStackItems)
      && (r.Ok? ==> |r.value| == |stack| + 1 && Item(r.value, 0) == data && Below(r.value, 1) == stack)
      && (r.Err? ==> r.error == if |data| > m.config.maxPushBytes then Evaluation else StackOverflow)
    ensures Step(m, Nop, stack) == Ok(stack)
  {
  }

  // Which items decode as what a multi-signature pops, from the top.
  predicate PopsDecode(env: Env, stack: Items, threshold: nat, n: nat)
    requires n <= |stack|
  {
    forall i :: 0 <= i < n ==>
      if i < threshold then Keys.SignatureBytes(env, Item(stack, i)) else Keys.KeyBytes(env, Item(stack, i))
  }

  /** The signature `i` places below the top belongs to the key `i` places below the first key. */
  predicate SignedPair(m: Machine, stack: Items, threshold: nat, i: nat)
    requires threshold + i < |stack|
  {
    Signed(m, Item(stack, threshold + i), Item(stack, i))
  }

  lemma {:induction false} SignaturesUnderflowExactly(env: Env, stack: Items, n: nat)
    ensures PopSignatures(env, stack, n) == Err(StackUnderflow)
       <==> |stack| < n && forall i :: 0 <= i < |stack| ==> SignatureAt(env, stack, i).Ok?
    ensures PopSignatures(env, stack, n).Err? ==> PopSignatures(env, stack, n).error in {StackUnderflow, Evaluation}
  {
    if n > 0 && stack != [] {
      SignaturesUnderflowExactly(env, Rest(stack), n - 1);
      assert SignatureAt(env, stack, 0) == Keys.SignatureFromBytes(env, Top(stack));
      assert forall i :: 0 < i < |stack| ==> SignatureAt(env, stack, i) == SignatureAt(env, Rest(stack), i - 1);
      assert forall i :: 0 <= i < |Rest(stack)| ==> SignatureAt(env, Rest(stack), i) == SignatureAt(env, stack, i + 1);
    }
  }

  lemma {:induction false} KeysUnderflowExactly(env: Env, stack: Items, n: nat)
    ensures PopKeys(env, stack, n) == Err(StackUnderflow)
       <==> |stack| < n && forall i :: 0 <= i < |stack| ==> KeyAt(env, stack, i).Ok?
    ensures PopKeys(env, stack, n).Err? ==> PopKeys(env, stack, n).error in {StackUnderflow, Evaluation}
  {
    if n > 0 && stack != [] {
      KeysUnderflowExactly(env, Rest(stack), n - 1);
      assert KeyAt(env, stack, 0) == Keys.PublicKeyFromBytes(env, Top(stack));
      assert forall i :: 0 < i < |stack| ==> KeyAt(env, stack, i) == KeyAt(env, Rest(stack), i - 1);
      assert forall i :: 0 <= i < |Rest(stack)| ==> KeyAt(env, Rest(stack), i) == KeyAt(env, stack, i + 1);
    }
  }

  lemma ItemsDecode(env: Env, stack: Items)
    ensures forall i :: 0 <= i < |stack| ==>
      && (SignatureAt(env, stack, i).Ok? <==> Keys.SignatureBytes(env, Item(stack, i)))
      && (KeyAt(env, stack, i).Ok? <==> Keys.KeyBytes(env, Item(stack, i)))
  {
    hide Keys.SignatureBytes, Keys.KeyBytes, Keys.PublicKeyFromBytes, Keys.SignatureFromBytes;
    forall i | 0 <= i < |stack|
      ensures SignatureAt(env, stack, i).Ok? <==> Keys.SignatureBytes(env, Item(stack, i))
      ensures KeyAt(env, stack, i).Ok? <==> Keys.KeyBytes(env, Item(stack, i))
    {
      Keys.SignatureBytesExactly(env, Item(stack, i));
      Keys.KeyBytesExactly(env, Item(stack, i));
    }
  }

  lemma PastTheEnd(env: Env, stack: Items, i: nat)
    requires |stack| <= i
    ensures KeyAt(env, stack, i).Err?
  {
  }

  lemma PairIsSigned(m: Machine, stack: Items, threshold: nat, i: nat)
    requires threshold + i < |stack|
    ensures PairHolds(m, stack, threshold, i) <==>
      && SignatureAt(m.env, stack, i).Ok? && KeyAt(m.env, stack, threshold + i).Ok?
      && SignedPair(m, stack, threshold, i)
  {
    hide Signed, SignatureHolds, Keys.PublicKeyFromBytes, Keys.SignatureFromBytes;
    SignedExactly(m, Item(stack, threshold + i), Item(stack, i));
  }

  lemma MultiSigUnderflowExactly(m: Machine, threshold: byte, total: byte, stack: Items)
    ensures var r, n := StepCheckMultiSig(m, threshold, total, stack), threshold as int + total as int;
      && (r.Err? ==> r.error in {StackUnderflow, Evaluation})
      && (r == Err(StackUnderflow) <==>
            0 < threshold <= total && |stack| < n && PopsDecode(m.env, stack, threshold, |stack|))
  {
    hide AllHold, SignatureAt, KeyAt, Keys.SignatureBytes, Keys.KeyBytes, PopSignatures, PopKeys;
    SignaturesUnderflowExactly(m.env, stack, threshold);
    ItemsDecode(m.env, stack);
    PoppedSignaturesAre(m.env, stack, threshold);
    if PopSignatures(m.env, stack, threshold).Ok? {
      PoppedSignaturesShrink(m.env, stack, threshold);
      var rest := PopSignatures(m.env, stack, threshold).value.1;
      KeysUnderflowExactly(m.env, rest, total);
      ItemsDecode(m.env, rest);
      assert forall i :: 0 <= i < |rest| ==> Item(rest, i) == Item(stack, threshold + i);
      assert forall i :: threshold <= i < |stack| ==> Item(stack, i) == Item(rest, i - threshold);
    }
  }

  /** Several signatures on top of at least as many keys, paired in order; the other keys only have to
      be keys. A stack that ends early is reported as such only if all that is on it decodes. */
  lemma CheckMultiSigExactly(m: Machine, threshold: byte, total: byte, stack: Items)
    ensures var r, n := Step(m, CheckMultiSig(threshold, total), stack), threshold as int + total as int;
      && (r.Ok? <==> && 0 < threshold <= total && n <= |stack|
                     && PopsDecode(m.env, stack, threshold, n)
                     && forall i :: 0 <= i < threshold ==> SignedPair(m, stack, threshold, i))
      && (r.Ok? ==> r.value == Below(stack, n))
      && (r.Err? ==> r.error in {StackUnderflow, Evaluation})
      && (r == Err(StackUnderflow) <==>
            0 < threshold <= total && |stack| < n && PopsDecode(m.env, stack, threshold, |stack|))
  {
    hide Signed, StepCheckMultiSig, PairHolds, SignatureAt, KeyAt, Keys.SignatureBytes, Keys.KeyBytes;
    MultiSigPairsInOrder(m, threshold, total, stack);
    MultiSigUnderflowExactly(m, threshold, total, stack);
    var n := threshold as int + total as int;
    if threshold <= total && n <= |stack| {
      forall i | 0 <= i < threshold
        ensures PairHolds(m, stack, threshold, i) <==>
          && SignatureAt(m.env, stack, i).Ok? && KeyAt(m.env, stack, threshold + i).Ok?
          && SignedPair(m, stack, threshold, i)
      {
        PairIsSigned(m, stack, threshold, i);
      }
      ItemsDecode(m.env, stack);
    } else if 0 < threshold <= total {
      assert KeyAt(m.env, stack, n - 1).Err? by { PastTheEnd(m.env, stack, n - 1); }
    }
  }

  // ----- what a lock in a script guarantees -----

  lemma {:induction false} RunStepwise(m: Machine, ops: seq<OpCode>, n: nat, stack: Items)
    requires n < |ops| && Run(m, ops, stack).Ok?
    ensures Run(m, ops[..n], stack).Ok? && Run(m, ops[..n + 1], stack).Ok?
    ensures Step(m, ops[n], Run(m, ops[..n], stack).value) == Run(m, ops[..n + 1], stack)
  {
    hide Step;
    var next := Step(m, ops[0], stack).value;
    if n == 0 {
      assert ops[..1] == [ops[0]];
      assert Run(m, [ops[0]][1..], next) == Ok(next);
    } else {
      RunStepwise(m, ops[1..], n - 1, next);
      assert ops[..n][1..] == ops[1..][..n - 1] && ops[..n + 1][1..] == ops[1..][..n];
    }
  }

  /** The stack that a successful script has before its operation `n`, on which that succeeds. */
  lemma StackBefore(m: Machine, script: Script, n: nat) returns (stack: Items)
    requires Eval(m, script).Ok? && n < |script|
    ensures Run(m, script[..n], []) == Ok(stack) && Step(m, script[n], stack).Ok?
  {
    hide Step;
    StaticGas(m, script);
    RunStepwise(m, script, n, []);
    stack := Run(m, script[..n], []).value;
  }

  /** Wherever a successful script checks an absolute time lock, the height on top of the stack has
      been reached. */
  lemma TimeLockMet(m: Machine, script: Script, n: nat)
    requires Eval(m, script).Ok? && n < |script| && script[n].CheckTimeLock?
    ensures Run(m, script[..n], []).Ok?
    ensures var stack := Run(m, script[..n], []).value;
      && stack != [] && |Item(stack, 0)| == 8
      && exists h: u64 :: AtHeight(m, h) && Weight(Item(stack, 0), 8) <= h
  {
    hide Step;
    var stack := StackBefore(m, script, n);
    CheckTimeLockExactly(m, stack);
  }

  /** Wherever it checks a relative one, the wrapped sum of creation height and lock has been reached.
      So the spent output is as old as what is on top if and only if that sum does not wrap, and in a
      checked build it does not. */
  lemma RelativeTimeLockMet(m: Machine, script: Script, n: nat)
    requires Eval(m, script).Ok? && n < |script| && script[n].CheckRelativeTimeLock?
    ensures Run(m, script[..n], []).Ok?
    ensures var stack := Run(m, script[..n], []).value;
      && stack != [] && |Item(stack, 0)| == 8
      && exists made: u64, h: u64 :: Made(m, made) && AtHeight(m, h) && Aged(m, stack, made, h)
           && (made + Weight(Item(stack, 0), 8) <= h <==> made + Weight(Item(stack, 0), 8) <= U64_MAX)
           && (m.env.build.Checked? ==> made + Weight(Item(stack, 0), 8) <= h)
  {
    hide Step;
    var stack := StackBefore(m, script, n);
    CheckRelativeTimeLockExactly(m, stack);
    var made: u64, h: u64 :| Made(m, made) && AtHeight(m, h) && Aged(m, stack, made, h);
    assert Aged(m, stack, made, h);
  }

  /** Wherever it checks a hash lock, the value below the top is the hash of the top. */
  lemma HashLockMet(m: Machine, script: Script, n: nat)
    requires Eval(m, script).Ok? && n < |script| && script[n].CheckHashLock?
    ensures Run(m, script[..n], []).Ok?
    ensures var stack := Run(m, script[..n], []).value;
      |stack| >= 2 && Item(stack, 1) == m.env.blake3(Item(stack, 0))
  {
    hide Step;
    var stack := StackBefore(m, script, n);
    CheckHashLockExactly(m, stack);
  }

  /** Wherever it checks a signature, the library accepts the top for the key below it and the sighash
      of this input. */
  lemma SignatureMet(m: Machine, script: Script, n: nat)
    requires Eval(m, script).Ok? && n < |script| && script[n].CheckSig?
    ensures Run(m, script[..n], []).Ok?
    ensures var stack := Run(m, script[..n], []).value;
      |stack| >= 2 && Signed(m, Item(stack, 1), Item(stack, 0))
  {
    hide Step, Signed;
    var stack := StackBefore(m, script, n);
    CheckSigExactly(m, stack);
  }

  /** Wherever it checks several, the same holds of each and the key in the same place. */
  lemma MultiSigMet(m: Machine, script: Script, n: nat)
    requires Eval(m, script).Ok? && n < |script| && script[n].CheckMultiSig?
    ensures Run(m, script[..n], []).Ok?
    ensures var stack := Run(m, script[..n], []).value;
      && 0 < script[n].threshold <= script[n].total
      && script[n].threshold as int + script[n].total as int <= |stack|
      && forall i :: 0 <= i < script[n].threshold ==> SignedPair(m, stack, script[n].threshold, i)
  {
    hide Step, Signed;
    var stack := StackBefore(m, script, n);
    CheckMultiSigExactly(m, script[n].threshold, script[n].total, stack);
  }

  // ----- signatures are literals of the script they are checked by -----

  predicate Literal(script: seq<OpCode>, item: Bytes) {
    exists k :: 0 <= k < |script| && script[k].PushBytes? && script[k].data == item
  }

  lemma {:induction false} ItemsAreLiterals(m: Machine, script: seq<OpCode>, n: nat)
    requires n <= |script| && Run(m, script[..n], []).Ok?
    ensures forall item :: item in Run(m, script[..n], []).value ==> Literal(script, item)
  {
    hide Step;
    if n > 0 {
      assert script[..n][..n - 1] == script[..n - 1] && script[..n][..n] == script[..n];
      RunStepwise(m, script[..n], n - 1, []);
      ItemsAreLiterals(m, script, n - 1);
      StepKeepsLiterals(m, script, n - 1, Run(m, script[..n - 1], []).value);
    }
  }

  lemma StepKeepsLiterals(m: Machine, script: seq<OpCode>, n: nat, stack: Items)
    requires n < |script| && Step(m, script[n], stack).Ok?
    requires forall item :: item in stack ==> Literal(script, item)
    ensures forall item :: item in Step(m, script[n], stack).value ==> Literal(script, item)
  {
    hide Literal, StepCheckMultiSig, Keys.PublicKeyFromBytes, Keys.SignatureFromBytes;
    match script[n] {
      case PushBytes(data) =>
        assert Literal(script, data) by { PushIsLiteral(script, n); }
      case CheckMultiSig(threshold, total) =>
        MultiSigPairsInOrder(m, threshold, total, stack);
      case _ =>
    }
  }

  lemma PushIsLiteral(script: seq<OpCode>, n: nat)
    requires n < |script| && script[n].PushBytes?
    ensures Literal(script, script[n].data)
  {
  }

  /** A spender brings nothing but the script, so key and signature are written in it; and where the
      context names the script by its hash, as it does in a spend, the signature signs that hash. */
  lemma SignatureSignsItself(m: Machine, script: Script, n: nat)
    requires Eval(m, script).Ok? && n < |script| && script[n].CheckSig?
    ensures exists key, sig :: Literal(script, key) && Literal(script, sig) && Signed(m, key, sig)
  {
    hide Step, Literal, Signed;
    SignatureMet(m, script, n);
    ItemsAreLiterals(m, script, n);
    var stack := Run(m, script[..n], []).value;
    assert Item(stack, 0) in stack && Item(stack, 1) in stack;
  }

  // ----- the price of a script, and where it stops -----

  function Count(script: seq<OpCode>, counts: OpCode -> nat): nat {
    if script == [] then 0 else counts(script[0]) + Count(script[1..], counts)
  }

  /** Gas consumed, by kind: one for a no-operation, ten for a push or a time lock and one for each byte
      pushed, 250 for a hash lock, and 5000 for each signature asked for. */
  lemma {:induction false} GasByKind(script: seq<OpCode>)
    ensures TotalPrice(script)
      == Count(script, (op: OpCode) => if op.Nop? then 1 else 0)
       + 10 * Count(script, (op: OpCode) => if op.PushBytes? then 1 else 0)
       + Count(script, (op: OpCode) => if op.PushBytes? then |op.data| else 0)
       + 10 * Count(script, (op: OpCode) => if op.CheckTimeLock? || op.CheckRelativeTimeLock? then 1 else 0)
       + 250 * Count(script, (op: OpCode) => if op.CheckHashLock? then 1 else 0)
       + 5_000 * Count(script, (op: OpCode) => if op.CheckSig? then 1 else 0)
       + 5_000 * Count(script, (op: OpCode) =>
           if op.CheckMultiSig? then (if op.threshold == 0 then 1 else op.threshold) else 0)
  {
    if script != [] {
      GasByKind(script[1..]);
    }
  }

  /** What stops a script at an operation that it reaches with `left` gas. */
  function StopsWith(m: Machine, op: OpCode, left: nat, stack: Items): Option<ScriptError> {
    if op.PushBytes? && |op.data| > m.config.maxPushBytes then Some(Evaluation)
    else if Price(op) > left then Some(OutOfGas)
    else if Step(m, op, stack).Err? then Some(Step(m, op, stack).error)
    else None
  }

  /** Everything before operation `n` runs and is paid for, and `n` stops it. */
  predicate StopsAt(m: Machine, ops: seq<OpCode>, gas: nat, stack: Items, n: nat, e: ScriptError) {
    && n < |ops|
    && Run(m, ops[..n], stack).Ok?
    && TotalPrice(ops[..n]) <= gas
    && StopsWith(m, ops[n], gas - TotalPrice(ops[..n]), Run(m, ops[..n], stack).value) == Some(e)
  }

  lemma StopsLater(m: Machine, ops: seq<OpCode>, gas: nat, stack: Items, n: nat, e: ScriptError)
    requires 0 < n < |ops| && Price(ops[0]) <= gas && Step(m, ops[0], stack).Ok?
    ensures StopsAt(m, ops, gas, stack, n, e)
       <==> StopsAt(m, ops[1..], gas - Price(ops[0]), Step(m, ops[0], stack).value, n - 1, e)
  {
    hide Step, StopsWith;
    assert ops[..n][0] == ops[0] && ops[..n][1..] == ops[1..][..n - 1];
  }

  lemma StopsFirst(m: Machine, ops: seq<OpCode>, gas: nat, stack: Items, n: nat, e: ScriptError)
    requires n < |ops|
    ensures n == 0 ==> (StopsAt(m, ops, gas, stack, n, e) <==> StopsWith(m, ops[0], gas, stack) == Some(e))
    ensures n > 0 && StopsAt(m, ops, gas, stack, n, e) ==> StopsWith(m, ops[0], gas, stack).None?
  {
    hide Step;
    if ops[0].PushBytes? {
      PushAndNopExactly(m, ops[0].data, stack);
    }
    if n > 0 && StopsAt(m, ops, gas, stack, n, e) {
      assert ops[..n][0] == ops[0];
    }
  }

  lemma {:induction false} MeteredStopsExactly(m: Machine, ops: seq<OpCode>, gas: u64, stack: Items, e: ScriptError)
    ensures RunMetered(m, ops, gas, stack) == Err(e)
       <==> exists n :: 0 <= n < |ops| && StopsAt(m, ops, gas, stack, n, e)
  {
    hide Step, StopsAt;
    if ops != [] {
      StopsFirst(m, ops, gas, stack, 0, e);
      if StopsWith(m, ops[0], gas, stack).None? {
        var rest, left, next := ops[1..], gas - Price(ops[0]), Step(m, ops[0], stack).value;
        MeteredStopsExactly(m, rest, left, next, e);
        if n :| 0 <= n < |rest| && StopsAt(m, rest, left, next, n, e) {
          StopsLater(m, ops, gas, stack, n + 1, e);
        }
        if n :| 0 <= n < |ops| && StopsAt(m, ops, gas, stack, n, e) {
          StopsLater(m, ops, gas, stack, n, e);
        }
      } else if n :| 0 <= n < |ops| && StopsAt(m, ops, gas, stack, n, e) {
        StopsFirst(m, ops, gas, stack, n, e);
      }
    }
  }

  /** A script fails with an error exactly when it is too long and the error says so, or its operations
      run and are paid for up to one that this error stops. */
  lemma FailsExactly(m: Machine, script: Script, e: ScriptError)
    ensures Eval(m, script) == Err(e)
       <==> if |script| > m.config.maxScriptLen then e == ScriptTooLarge
            else exists n :: 0 <= n < |script| && StopsAt(m, script, m.config.maxGas, [], n, e)
  {
    hide StopsAt, RunMetered;
    MeteredStopsExactly(m, script, m.config.maxGas, [], e);
  }
}

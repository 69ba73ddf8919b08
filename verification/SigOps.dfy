/**
 * The static signature-operation counter and what it guarantees about runs of
 * the interpreter, with and without pay-to-script-hash (BIP 16).
 * Source: src/script.cpp, GetSigOpCount (both forms) and VerifyScript.
 */
module SigOps {
  import opened Bytes
  import opened BigNum
  import opened ScriptCodec
  import opened Interpreter

  predicate IsSmallInt(opcode: Byte) { OP_1 <= opcode <= OP_16 }

  predicate IsCheckSig(opcode: Byte) { opcode == OP_CHECKSIG || opcode == OP_CHECKSIGVERIFY }

  predicate IsCheckMultiSig(opcode: Byte) { opcode == OP_CHECKMULTISIG || opcode == OP_CHECKMULTISIGVERIFY }

  /** What one opcode adds, given the opcode before it. */
  function Cost(opcode: Byte, last: Byte, accurate: bool): nat {
    if IsCheckSig(opcode) then 1
    else if IsCheckMultiSig(opcode) then
      if accurate && IsSmallInt(last) then DecodeOpN(last) else MAX_MULTISIG_KEYS
    else 0
  }

  function CountFrom(s: Script, last: Byte, accurate: bool): nat
    decreases |s|
  {
    var op := ReadOp(s);
    if op.NoOp? then 0 else Cost(op.opcode, last, accurate) + CountFrom(s[op.size..], op.opcode, accurate)
  }

  function SigOpCount(s: Script, accurate: bool): nat { CountFrom(s, OP_INVALIDOPCODE, accurate) }

  lemma CountStep(script: Script, pc: nat, last: Byte, accurate: bool)
    requires pc <= |script| && ReadOp(script[pc..]).Op?
    ensures var op := ReadOp(script[pc..]);
            CountFrom(script[pc..], last, accurate)
            == Cost(op.opcode, last, accurate) + CountFrom(script[pc + op.size..], op.opcode, accurate)
  {
    assert script[pc..][ReadOp(script[pc..]).size..] == script[pc + ReadOp(script[pc..]).size..];
  }

  method GetSigOpCount(script: Script, accurate: bool) returns (n: nat)
    ensures n == SigOpCount(script, accurate)
  {
    hide ReadOp, CountFrom;
    n := 0;
    var pc, last := 0, OP_INVALIDOPCODE;
    assert script[0..] == script;
    while pc < |script|
      invariant pc <= |script|
      invariant SigOpCount(script, accurate) == n + CountFrom(script[pc..], last, accurate)
    {
      var op := ReadOp(script[pc..]);
      if op.NoOp? { break; }
      ghost var before := n;
      CountStep(script, pc, last, accurate);
      if IsCheckSig(op.opcode) {
        n := n + 1;
      } else if IsCheckMultiSig(op.opcode) {
        if accurate && IsSmallInt(last) {
          n := n + DecodeOpN(last);
        } else {
          n := n + MAX_MULTISIG_KEYS;
        }
      }
      assert n == before + Cost(op.opcode, last, accurate);
      last := op.opcode;
      pc := pc + op.size;
    }
    CountEnd(script[pc..], last, accurate);
  }

  lemma CountEnd(s: Script, last: Byte, accurate: bool)
    ensures ReadOp(s).NoOp? || s == [] ==> CountFrom(s, last, accurate) == 0
  {
  }

  /** The accurate count never exceeds the historical one. */
  lemma {:induction false} AccurateIsFewer(s: Script, last: Byte)
    ensures CountFrom(s, last, true) <= CountFrom(s, last, false)
    decreases |s|
  {
    var op := ReadOp(s);
    if op.Op? {
      AccurateIsFewer(s[op.size..], op.opcode);
    }
  }

  // ----- The count bounds every run -----

  /** In an executing branch, OP_1..OP_16 leaves its own number on top of the stack. */
  predicate LastPushed(m: Machine, last: Byte) {
    Executing(m) && IsSmallInt(last) ==> m.stack != [] && Top(m.stack, 1) == ToVch(DecodeOpN(last))
  }

  function CallsOf(r: Outcome): nat { if r.Reject? then r.calls else r.m.calls }

  lemma NumberOnTop(s: Stack, n: nat, opCount: nat)
    requires s != [] && n <= 16 && Top(s, 1) == ToVch(n)
    ensures ReadMultiSigArgs(s, opCount).MultiSigArgs? ==> |ReadMultiSigArgs(s, opCount).keys| == n
  {
    VchRoundTrip(n);
  }

  lemma ExecuteCost(c: Crypto, script: Script, m: Machine, op: Op, last: Byte)
    requires op.Op? && m.codeStart <= |script| && LastPushed(m, last)
    ensures CallsOf(Execute(c, script, m, op)) <= m.calls + Cost(op.opcode, last, true)
  {
    if Executing(m) && IsCheckMultiSig(op.opcode) && IsSmallInt(last) {
      NumberOnTop(m.stack, DecodeOpN(last), m.opCount);
    }
  }

  lemma ExecutePushes(c: Crypto, script: Script, m: Machine, op: Op)
    requires op.Op? && m.codeStart <= |script|
    requires Execute(c, script, m, op).Continue?
    ensures LastPushed(Execute(c, script, m, op).m, op.opcode)
  {
  }

  lemma StepCost(c: Crypto, script: Script, m: Machine, last: Byte)
    requires InScript(script, m) && m.pc < |script| && LastPushed(m, last)
    requires ReadOp(script[m.pc..]).Op?
    ensures CallsOf(Step(c, script, m)) <= m.calls + Cost(ReadOp(script[m.pc..]).opcode, last, true)
    ensures Step(c, script, m).Continue? ==> LastPushed(Step(c, script, m).m, ReadOp(script[m.pc..]).opcode)
  {
    var op := ReadOp(script[m.pc..]);
    if !Refused(m, op) {
      var m' := Advance(m, op);
      ExecuteCost(c, script, m', op, last);
      var r := Execute(c, script, m', op);
      if r.Continue? { ExecutePushes(c, script, m', op); }
    }
  }

  lemma StepAdvances(c: Crypto, script: Script, m: Machine)
    requires InScript(script, m) && m.pc < |script| && Step(c, script, m).Continue?
    ensures ReadOp(script[m.pc..]).Op?
    ensures Step(c, script, m).m.pc == m.pc + ReadOp(script[m.pc..]).size
  {
  }

  lemma {:induction false} RunCost(c: Crypto, script: Script, m: Machine, last: Byte)
    requires InScript(script, m) && LastPushed(m, last)
    ensures Run(c, script, m).calls <= m.calls + CountFrom(script[m.pc..], last, true)
    decreases |script| - m.pc
  {
    if m.pc < |script| {
      var op := ReadOp(script[m.pc..]);
      var r := Step(c, script, m);
      if op.Op? {
        StepCost(c, script, m, last);
        if r.Continue? {
          StepAdvances(c, script, m);
          RunCost(c, script, r.m, op.opcode);
          assert script[m.pc..][op.size..] == script[r.m.pc..];
        }
      }
    }
  }

  lemma ExecuteOps(c: Crypto, script: Script, m: Machine, op: Op)
    requires op.Op? && m.codeStart <= |script|
    requires m.opCount <= MAX_OPS
    requires m.calls <= if op.opcode > OP_16 then m.opCount - 1 else m.opCount
    ensures CallsOf(Execute(c, script, m, op)) <= MAX_OPS
    ensures var r := Execute(c, script, m, op);
            r.Continue? ==> r.m.calls <= r.m.opCount <= MAX_OPS
  {
  }

  lemma {:induction false} RunOps(c: Crypto, script: Script, m: Machine)
    requires InScript(script, m) && m.calls <= m.opCount <= MAX_OPS
    ensures Run(c, script, m).calls <= MAX_OPS
    decreases |script| - m.pc
  {
    if m.pc < |script| {
      var op := ReadOp(script[m.pc..]);
      if !Refused(m, op) {
        ExecuteOps(c, script, Advance(m, op), op);
        var r := Step(c, script, m);
        if r.Continue? { RunOps(c, script, r.m); }
      }
    }
  }

  /** Every run, on any script and any stack, makes at most as many signature checks as counted. */
  lemma SigOpCountBoundsEveryRun(c: Crypto, script: Script, stack: Stack)
    ensures Eval(c, script, stack).calls <= SigOpCount(script, true) <= SigOpCount(script, false)
    ensures Eval(c, script, stack).calls <= MAX_OPS
  {
    AccurateIsFewer(script, OP_INVALIDOPCODE);
    if |script| <= MAX_SCRIPT_SIZE {
      var m := Start(stack);
      RunCost(c, script, m, OP_INVALIDOPCODE);
      assert script[0..] == script;
      RunOps(c, script, m);
    }
  }

  // ----- Pay-to-script-hash -----

  predicate IsPayToScriptHash(s: Script) {
    |s| == 23 && s[0] == OP_HASH160 && s[1] == 0x14 && s[22] == OP_EQUAL
  }

  /** Only readable operations up to OP_16. */
  predicate PushOnly(s: Script)
    decreases |s|
  {
    s == [] ||
    (ReadOp(s).Op? && ReadOp(s).opcode <= OP_16 && PushOnly(s[ReadOp(s).size..]))
  }

  method IsPushOnly(s: Script) returns (b: bool)
    ensures b == PushOnly(s)
  {
    var pc := 0;
    while pc < |s|
      invariant pc <= |s|
      invariant PushOnly(s) == PushOnly(s[pc..])
    {
      var op := ReadOp(s[pc..]);
      if op.NoOp? || op.opcode > OP_16 { return false; }
      assert s[pc..][op.size..] == s[pc + op.size..];
      pc := pc + op.size;
    }
    return true;
  }

  /** Operand of the last operation; data is the operand of the one before. */
  function LastData(s: Script, data: Value): Value
    requires PushOnly(s)
    decreases |s|
  {
    if s == [] then data else LastData(s[ReadOp(s).size..], ReadOp(s).data)
  }

  function P2shSigOpCount(scriptPubKey: Script, scriptSig: Script): nat {
    if !IsPayToScriptHash(scriptPubKey) then SigOpCount(scriptPubKey, true)
    else if !PushOnly(scriptSig) then 0
    else SigOpCount(LastData(scriptSig, []), true)
  }

  method GetSigOpCountP2sh(scriptPubKey: Script, scriptSig: Script) returns (n: nat)
    ensures n == P2shSigOpCount(scriptPubKey, scriptSig)
  {
    if !IsPayToScriptHash(scriptPubKey) {
      n := GetSigOpCount(scriptPubKey, true);
      return;
    }
    var pc, data: Value := 0, [];
    while pc < |scriptSig|
      invariant pc <= |scriptSig|
      invariant PushOnly(scriptSig) == PushOnly(scriptSig[pc..])
      invariant PushOnly(scriptSig) ==> LastData(scriptSig, []) == LastData(scriptSig[pc..], data)
    {
      var op := ReadOp(scriptSig[pc..]);
      if op.NoOp? || op.opcode > OP_16 { return 0; }
      assert scriptSig[pc..][op.size..] == scriptSig[pc + op.size..];
      data := op.data;
      pc := pc + op.size;
    }
    n := GetSigOpCount(data, true);
  }

  /** Result of VerifyScript with the signature checks made by each of its runs. */
  datatype Verification = Verification(ok: bool, sigCalls: nat, keyCalls: nat, redeemCalls: nat)

  predicate Accepts(r: Evaluation) { r.ok && r.stack != [] && Truthy(r.stack[|r.stack| - 1]) }

  function VerifyScript(c: Crypto, scriptSig: Script, scriptPubKey: Script, p2sh: bool): Verification {
    var first := Eval(c, scriptSig, []);
    if !first.ok then Verification(false, first.calls, 0, 0)
    else
      var second := Eval(c, scriptPubKey, first.stack);
      if !Accepts(second) then Verification(false, first.calls, second.calls, 0)
      else if !(p2sh && IsPayToScriptHash(scriptPubKey)) then Verification(true, first.calls, second.calls, 0)
      else if !PushOnly(scriptSig) then Verification(false, first.calls, second.calls, 0)
      else
        HashNeedsOperand(c, scriptPubKey, first.stack);
        var n := |first.stack|;
        var third := Eval(c, first.stack[n - 1], first.stack[..n - 1]);
        Verification(Accepts(third), first.calls, second.calls, third.calls)
  }

  /** A pay-to-script-hash output cannot succeed on an empty stack, so the copy has a top item. */
  lemma HashNeedsOperand(c: Crypto, scriptPubKey: Script, stack: Stack)
    requires IsPayToScriptHash(scriptPubKey) && Eval(c, scriptPubKey, stack).ok
    ensures stack != []
  {
    var m := Start(stack);
    assert scriptPubKey[0..] == scriptPubKey;
    assert ReadOp(scriptPubKey) == Op(OP_HASH160, [], 1);
    assert Run(c, scriptPubKey, m).ok ==> Step(c, scriptPubKey, m).Continue?;
  }

  /** After a push-only run the top item is the last operand, or a small number pushed by opcode. */
  predicate TopIs(stack: Stack, data: Value) {
    stack != [] ==>
      (Top(stack, 1) == data || (data == [] && exists n :: -1 <= n <= 16 && n != 0 && Top(stack, 1) == ToVch(n)))
  }

  lemma PushStep(c: Crypto, script: Script, m: Machine)
    requires InScript(script, m) && m.pc < |script| && m.exec == []
    requires ReadOp(script[m.pc..]).Op? && ReadOp(script[m.pc..]).opcode <= OP_16
    requires Step(c, script, m).Continue?
    ensures var m' := Step(c, script, m).m;
            m'.exec == [] && m'.pc == m.pc + ReadOp(script[m.pc..]).size && TopIs(m'.stack, ReadOp(script[m.pc..]).data)
  {
    var op := ReadOp(script[m.pc..]);
    if op.opcode > OP_PUSHDATA4 {
      var n := op.opcode - (OP_1 - 1);
      assert -1 <= n <= 16;
      assert n != 0 ==> Step(c, script, m).m.stack == m.stack + [ToVch(n)];
    }
  }

  lemma {:induction false} PushOnlyTop(c: Crypto, script: Script, m: Machine, data: Value)
    requires InScript(script, m) && m.exec == [] && PushOnly(script[m.pc..]) && TopIs(m.stack, data)
    requires Run(c, script, m).ok
    ensures TopIs(Run(c, script, m).stack, LastData(script[m.pc..], data))
    decreases |script| - m.pc
  {
    if m.pc < |script| {
      var r := Step(c, script, m);
      if r.Continue? {
        PushStep(c, script, m);
        assert script[m.pc..][ReadOp(script[m.pc..]).size..] == script[r.m.pc..];
        PushOnlyTop(c, script, r.m, ReadOp(script[m.pc..]).data);
      }
    }
  }

  lemma PushOnlyResult(c: Crypto, script: Script)
    requires PushOnly(script) && Eval(c, script, []).ok
    ensures TopIs(Eval(c, script, []).stack, LastData(script, []))
  {
    hide Step;
    assert script[0..] == script;
    PushOnlyTop(c, script, Start([]), []);
  }

  /** A redeem script that is the encoding of a small number fails before any signature check. */
  lemma SmallNumberScript(c: Crypto, n: int, stack: Stack)
    requires -1 <= n <= 16 && n != 0
    ensures Eval(c, ToVch(n), stack).calls == 0
  {
    var s := ToVch(n);
    assert s == if n > 0 then [n] else [0x81];
    assert s[0..] == s;
    var m := Start(stack);
    assert Refused(m, ReadOp(s));
    assert Run(c, s, m).calls == 0;
  }

  /** The redeem-script run of VerifyScript stays within the count made from the two outer scripts. */
  lemma RedeemRunIsCounted(c: Crypto, scriptSig: Script, scriptPubKey: Script, p2sh: bool)
    ensures VerifyScript(c, scriptSig, scriptPubKey, p2sh).redeemCalls <= P2shSigOpCount(scriptPubKey, scriptSig)
  {
    hide Eval, SigOpCount, ToVch, Truthy;
    var first := Eval(c, scriptSig, []);
    if first.ok {
      var second := Eval(c, scriptPubKey, first.stack);
      if Accepts(second) && p2sh && IsPayToScriptHash(scriptPubKey) && PushOnly(scriptSig) {
        HashNeedsOperand(c, scriptPubKey, first.stack);
        var n := |first.stack|;
        var redeem, rest := first.stack[n - 1], first.stack[..n - 1];
        PushOnlyResult(c, scriptSig);
        if redeem == LastData(scriptSig, []) {
          SigOpCountBoundsEveryRun(c, redeem, rest);
        } else {
          var k :| -1 <= k <= 16 && k != 0 && redeem == ToVch(k);
          SmallNumberScript(c, k, rest);
        }
      }
    }
  }

  /** All three runs together stay within what can be counted without running anything. */
  lemma VerifyScriptIsCounted(c: Crypto, scriptSig: Script, scriptPubKey: Script, p2sh: bool)
    ensures var v := VerifyScript(c, scriptSig, scriptPubKey, p2sh);
            v.sigCalls + v.keyCalls + v.redeemCalls
            <= SigOpCount(scriptSig, true) + P2shSigOpCount(scriptPubKey, scriptSig)
  {
    RedeemRunIsCounted(c, scriptSig, scriptPubKey, p2sh);
    var first := Eval(c, scriptSig, []);
    SigOpCountBoundsEveryRun(c, scriptSig, []);
    SigOpCountBoundsEveryRun(c, scriptPubKey, first.stack);
    if IsPayToScriptHash(scriptPubKey) {
      NoSigOpsInP2sh(scriptPubKey);
    }
  }

  lemma NoSigOpsInP2sh(s: Script)
    requires IsPayToScriptHash(s)
    ensures SigOpCount(s, true) == 0
  {
    var a := s[1..];
    var b := a[21..];
    assert ReadOp(s).size == 1 && ReadOp(a).size == 21;
    assert b == [OP_EQUAL];
    assert CountFrom(b, 0x14, true) == CountFrom(b[1..], OP_EQUAL, true);
    assert CountFrom(a, OP_HASH160, true) == CountFrom(b, 0x14, true);
  }

  /** Turning the pay-to-script-hash rule off accepts no less. */
  lemma StrictImpliesLoose(c: Crypto, scriptSig: Script, scriptPubKey: Script)
    requires VerifyScript(c, scriptSig, scriptPubKey, true).ok
    ensures VerifyScript(c, scriptSig, scriptPubKey, false).ok
  {
  }
}

/**
 * The script stack machine.  Hashing and signature checking are parameters.
 * Source: src/script.cpp, EvalScript and VerifyScript.
 */
module Interpreter {
  import opened Bytes
  import opened BigNum
  import opened ScriptCodec

  type Value = seq<Byte>
  type Stack = seq<Value>

  /** checkSig answers for one fixed transaction, input and hash type. */
  datatype Crypto = Crypto(
    hash: (Byte, Value) -> Value,
    checkSig: (Value, Value, Script) -> bool)

  const OP_NOP: Byte := 0x61
  const OP_IF: Byte := 0x63
  const OP_NOTIF: Byte := 0x64
  const OP_ELSE: Byte := 0x67
  const OP_ENDIF: Byte := 0x68
  const OP_VERIFY: Byte := 0x69
  const OP_TOALTSTACK: Byte := 0x6b
  const OP_FROMALTSTACK: Byte := 0x6c
  const OP_2DROP: Byte := 0x6d
  const OP_2DUP: Byte := 0x6e
  const OP_3DUP: Byte := 0x6f
  const OP_2OVER: Byte := 0x70
  const OP_2ROT: Byte := 0x71
  const OP_2SWAP: Byte := 0x72
  const OP_IFDUP: Byte := 0x73
  const OP_DEPTH: Byte := 0x74
  const OP_DROP: Byte := 0x75
  const OP_DUP: Byte := 0x76
  const OP_NIP: Byte := 0x77
  const OP_OVER: Byte := 0x78
  const OP_PICK: Byte := 0x79
  const OP_ROLL: Byte := 0x7a
  const OP_ROT: Byte := 0x7b
  const OP_SWAP: Byte := 0x7c
  const OP_TUCK: Byte := 0x7d
  const OP_SIZE: Byte := 0x82
  const OP_EQUAL: Byte := 0x87
  const OP_EQUALVERIFY: Byte := 0x88
  const OP_1ADD: Byte := 0x8b
  const OP_1SUB: Byte := 0x8c
  const OP_NEGATE: Byte := 0x8f
  const OP_ABS: Byte := 0x90
  const OP_NOT: Byte := 0x91
  const OP_0NOTEQUAL: Byte := 0x92
  const OP_ADD: Byte := 0x93
  const OP_SUB: Byte := 0x94
  const OP_BOOLAND: Byte := 0x9a
  const OP_BOOLOR: Byte := 0x9b
  const OP_NUMEQUAL: Byte := 0x9c
  const OP_NUMEQUALVERIFY: Byte := 0x9d
  const OP_NUMNOTEQUAL: Byte := 0x9e
  const OP_LESSTHAN: Byte := 0x9f
  const OP_GREATERTHAN: Byte := 0xa0
  const OP_LESSTHANOREQUAL: Byte := 0xa1
  const OP_GREATERTHANOREQUAL: Byte := 0xa2
  const OP_MIN: Byte := 0xa3
  const OP_MAX: Byte := 0xa4
  const OP_WITHIN: Byte := 0xa5
  const OP_RIPEMD160: Byte := 0xa6
  const OP_HASH160: Byte := 0xa9
  const OP_HASH256: Byte := 0xaa
  const OP_CODESEPARATOR: Byte := 0xab
  const OP_CHECKSIG: Byte := 0xac
  const OP_CHECKSIGVERIFY: Byte := 0xad
  const OP_CHECKMULTISIG: Byte := 0xae
  const OP_CHECKMULTISIGVERIFY: Byte := 0xaf
  const OP_NOP1: Byte := 0xb0
  const OP_NOP10: Byte := 0xb9

  const MAX_SCRIPT_SIZE := 10000
  const MAX_ELEMENT_SIZE := 520
  const MAX_OPS := 201
  const MAX_STACK_SIZE := 1000
  const MAX_MULTISIG_KEYS := 20

  /** CAT, SUBSTR, LEFT, RIGHT, INVERT, AND, OR, XOR, 2MUL, 2DIV, MUL, DIV, MOD, LSHIFT, RSHIFT. */
  predicate Disabled(opcode: Byte) {
    0x7e <= opcode <= 0x81 || 0x83 <= opcode <= 0x86 || 0x8d <= opcode <= 0x8e || 0x95 <= opcode <= 0x99
  }

  // ----- Operations that only rearrange or compute on the stacks -----

  datatype Stacks = BadStack | Stacks(main: Stack, alt: Stack)

  function Top(s: Stack, i: nat): Value
    requires 1 <= i <= |s|
  {
    s[|s| - i]
  }

  function Drop(s: Stack, n: nat): Stack
    requires n <= |s|
  {
    s[..|s| - n]
  }

  const TRUE_VALUE: Value := [1]
  const FALSE_VALUE: Value := []

  function BoolValue(b: bool): Value { if b then TRUE_VALUE else FALSE_VALUE }
  function BoolNum(b: bool): int { if b then 1 else 0 }

  predicate IsPushNumber(opcode: Byte) { opcode == OP_1NEGATE || OP_1 <= opcode <= OP_16 }

  /** The stack-only operations that shuffle items: NOP, VERIFY and the 0x6b-0x7d, SIZE, EQUAL family. */
  function ShuffleOp(opcode: Byte, s: Stack, alt: Stack): Stacks {
    var n := |s|;
    if IsPushNumber(opcode) then Stacks(s + [ToVch(opcode - (OP_1 - 1))], alt)
    else if opcode == OP_NOP || OP_NOP1 <= opcode <= OP_NOP10 then Stacks(s, alt)
    else if opcode == OP_VERIFY then
      if n >= 1 && Truthy(Top(s, 1)) then Stacks(Drop(s, 1), alt) else BadStack
    else if opcode == OP_TOALTSTACK then
      if n >= 1 then Stacks(Drop(s, 1), alt + [Top(s, 1)]) else BadStack
    else if opcode == OP_FROMALTSTACK then
      if |alt| >= 1 then Stacks(s + [Top(alt, 1)], Drop(alt, 1)) else BadStack
    else if opcode == OP_2DROP then
      if n >= 2 then Stacks(Drop(s, 2), alt) else BadStack
    else if opcode == OP_2DUP then
      if n >= 2 then Stacks(s + [Top(s, 2), Top(s, 1)], alt) else BadStack
    else if opcode == OP_3DUP then
      if n >= 3 then Stacks(s + [Top(s, 3), Top(s, 2), Top(s, 1)], alt) else BadStack
    else if opcode == OP_2OVER then
      if n >= 4 then Stacks(s + [Top(s, 4), Top(s, 3)], alt) else BadStack
    else if opcode == OP_2ROT then
      if n >= 6 then Stacks(Drop(s, 6) + s[n - 4..] + [Top(s, 6), Top(s, 5)], alt) else BadStack
    else if opcode == OP_2SWAP then
      if n >= 4 then Stacks(Drop(s, 4) + [Top(s, 2), Top(s, 1), Top(s, 4), Top(s, 3)], alt) else BadStack
    else if opcode == OP_IFDUP then
      if n < 1 then BadStack else Stacks(if Truthy(Top(s, 1)) then s + [Top(s, 1)] else s, alt)
    else if opcode == OP_DEPTH then Stacks(s + [ToVch(n)], alt)
    else if opcode == OP_DROP then
      if n >= 1 then Stacks(Drop(s, 1), alt) else BadStack
    else if opcode == OP_DUP then
      if n >= 1 then Stacks(s + [Top(s, 1)], alt) else BadStack
    else if opcode == OP_NIP then
      if n >= 2 then Stacks(Drop(s, 2) + [Top(s, 1)], alt) else BadStack
    else if opcode == OP_OVER then
      if n >= 2 then Stacks(s + [Top(s, 2)], alt) else BadStack
    else if opcode == OP_PICK || opcode == OP_ROLL then
      if n < 2 then BadStack else PickOp(opcode == OP_ROLL, CastToBigNum(Top(s, 1)), Drop(s, 1), alt)
    else if opcode == OP_ROT then
      if n >= 3 then Stacks(Drop(s, 3) + [Top(s, 2), Top(s, 1), Top(s, 3)], alt) else BadStack
    else if opcode == OP_SWAP then
      if n >= 2 then Stacks(Drop(s, 2) + [Top(s, 1), Top(s, 2)], alt) else BadStack
    else if opcode == OP_TUCK then
      if n >= 2 then Stacks(Drop(s, 2) + [Top(s, 1), Top(s, 2), Top(s, 1)], alt) else BadStack
    else if opcode == OP_SIZE then
      if n >= 1 then Stacks(s + [ToVch(|Top(s, 1)|)], alt) else BadStack
    else if opcode == OP_EQUAL then
      if n >= 2 then Stacks(Drop(s, 2) + [BoolValue(Top(s, 2) == Top(s, 1))], alt) else BadStack
    else if opcode == OP_EQUALVERIFY then
      if n >= 2 && Top(s, 2) == Top(s, 1) then Stacks(Drop(s, 2), alt) else BadStack
    else BadStack
  }

  function PickOp(roll: bool, which: Option<int>, s: Stack, alt: Stack): Stacks {
    if which.None? then BadStack
    else
      var k := GetInt(which.value);
      if k < 0 || k >= |s| then BadStack
      else
        var v := Top(s, k + 1);
        Stacks((if roll then s[..|s| - k - 1] + s[|s| - k..] else s) + [v], alt)
  }

  function UnaryNumber(opcode: Byte, a: int): int {
    if opcode == OP_1ADD then a + 1
    else if opcode == OP_1SUB then a - 1
    else if opcode == OP_NEGATE then -a
    else if opcode == OP_ABS then Abs(a)
    else if opcode == OP_NOT then BoolNum(a == 0)
    else BoolNum(a != 0)
  }

  function BinaryNumber(opcode: Byte, a: int, b: int): int {
    if opcode == OP_ADD then a + b
    else if opcode == OP_SUB then a - b
    else if opcode == OP_BOOLAND then BoolNum(a != 0 && b != 0)
    else if opcode == OP_BOOLOR then BoolNum(a != 0 || b != 0)
    else if opcode == OP_NUMEQUAL || opcode == OP_NUMEQUALVERIFY then BoolNum(a == b)
    else if opcode == OP_NUMNOTEQUAL then BoolNum(a != b)
    else if opcode == OP_LESSTHAN then BoolNum(a < b)
    else if opcode == OP_GREATERTHAN then BoolNum(a > b)
    else if opcode == OP_LESSTHANOREQUAL then BoolNum(a <= b)
    else if opcode == OP_GREATERTHANOREQUAL then BoolNum(a >= b)
    else if opcode == OP_MIN then (if a < b then a else b)
    else (if a > b then a else b)
  }

  /** Numeric and hash operations. */
  function ComputeOp(c: Crypto, opcode: Byte, s: Stack, alt: Stack): Stacks {
    var n := |s|;
    if opcode == OP_1ADD || opcode == OP_1SUB || OP_NEGATE <= opcode <= OP_0NOTEQUAL then
      if n < 1 then BadStack
      else
        var a := CastToBigNum(Top(s, 1));
        if a.None? then BadStack else Stacks(Drop(s, 1) + [ToVch(UnaryNumber(opcode, a.value))], alt)
    else if opcode == OP_ADD || opcode == OP_SUB || OP_BOOLAND <= opcode <= OP_MAX then
      if n < 2 then BadStack
      else
        var a, b := CastToBigNum(Top(s, 2)), CastToBigNum(Top(s, 1));
        if a.None? || b.None? then BadStack
        else
          var v := ToVch(BinaryNumber(opcode, a.value, b.value));
          if opcode != OP_NUMEQUALVERIFY then Stacks(Drop(s, 2) + [v], alt)
          else if Truthy(v) then Stacks(Drop(s, 2), alt)
          else BadStack
    else if opcode == OP_WITHIN then
      if n < 3 then BadStack
      else
        var x, lo, hi := CastToBigNum(Top(s, 3)), CastToBigNum(Top(s, 2)), CastToBigNum(Top(s, 1));
        if x.None? || lo.None? || hi.None? then BadStack
        else Stacks(Drop(s, 3) + [BoolValue(lo.value <= x.value < hi.value)], alt)
    else if OP_RIPEMD160 <= opcode <= OP_HASH256 then
      if n < 1 then BadStack else Stacks(Drop(s, 1) + [c.hash(opcode, Top(s, 1))], alt)
    else BadStack
  }

  function StackOp(c: Crypto, opcode: Byte, s: Stack, alt: Stack): Stacks {
    if opcode <= OP_EQUALVERIFY || opcode >= OP_NOP1 then ShuffleOp(opcode, s, alt)
    else ComputeOp(c, opcode, s, alt)
  }

  // ----- Multi-signature checking -----

  /** What OP_CHECKMULTISIG finds on the stack; keys and sigs are listed from the top down. */
  datatype MultiSigArgs = BadArgs | MultiSigArgs(keys: seq<Value>, sigs: seq<Value>, consumed: nat)

  function FromTop(s: Stack, first: nat, count: nat): (r: seq<Value>)
    requires first >= 1 && first + count <= |s| + 1
    ensures |r| == count
    ensures forall i :: 0 <= i < count ==> r[i] == Top(s, first + i)
  {
    seq(count, i requires 0 <= i < count => Top(s, first + i))
  }

  /** One item more than the documented arguments is required and consumed. */
  function ReadMultiSigArgs(s: Stack, opCount: nat): (r: MultiSigArgs)
    ensures r.MultiSigArgs? ==> |r.sigs| <= |r.keys| <= MAX_MULTISIG_KEYS
    ensures r.MultiSigArgs? ==> r.consumed == |r.keys| + |r.sigs| + 3 <= |s|
    ensures r.MultiSigArgs? ==> opCount + |r.keys| <= MAX_OPS
    ensures r.MultiSigArgs? ==> r.keys == FromTop(s, 2, |r.keys|) && r.sigs == FromTop(s, |r.keys| + 3, |r.sigs|)
  {
    hide CastToBigNum, GetInt;
    if |s| < 1 then BadArgs
    else
      var k := CastToBigNum(Top(s, 1));
      if k.None? then BadArgs
      else
        var nKeys := GetInt(k.value);
        if nKeys < 0 || nKeys > MAX_MULTISIG_KEYS || opCount + nKeys > MAX_OPS || |s| < nKeys + 2 then BadArgs
        else
          var g := CastToBigNum(Top(s, nKeys + 2));
          if g.None? then BadArgs
          else
            var nSigs := GetInt(g.value);
            if nSigs < 0 || nSigs > nKeys || |s| < nKeys + nSigs + 3 then BadArgs else SplitArgs(s, nKeys, nSigs)
  }

  function SplitArgs(s: Stack, nKeys: nat, nSigs: nat): (r: MultiSigArgs)
    requires nKeys + nSigs + 3 <= |s|
    ensures r.MultiSigArgs? && |r.keys| == nKeys && |r.sigs| == nSigs && r.consumed == nKeys + nSigs + 3
    ensures r.keys == FromTop(s, 2, nKeys) && r.sigs == FromTop(s, nKeys + 3, nSigs)
  {
    MultiSigArgs(FromTop(s, 2, nKeys), FromTop(s, nKeys + 3, nSigs), nKeys + nSigs + 3)
  }

  datatype ScanResult = ScanResult(ok: bool, calls: nat)

  /** The greedy scan: each key is tried once, against the first signature not yet matched. */
  function Scan(verify: (Value, Value) -> bool, sigs: seq<Value>, keys: seq<Value>): (r: ScanResult)
    requires |sigs| <= |keys|
    ensures r.calls <= |keys|
    decreases |keys|
  {
    if sigs == [] then ScanResult(true, 0)
    else
      var sigs' := if verify(sigs[0], keys[0]) then sigs[1..] else sigs;
      if |sigs'| > |keys| - 1 then ScanResult(false, 1)
      else
        var r := Scan(verify, sigs', keys[1..]);
        ScanResult(r.ok, r.calls + 1)
  }

  /** The signed script with every one of the signatures deleted from it. */
  function DeleteAll(code: Script, sigs: seq<Value>): Script
    decreases |sigs|
  {
    if sigs == [] then code else DeleteAll(Deleted(code, PushData(sigs[0])), sigs[1..])
  }

  function Verifier(c: Crypto, code: Script): (Value, Value) -> bool {
    (sig, key) => c.checkSig(sig, key, code)
  }

  // ----- One instruction -----

  /** calls counts the signature checks made so far. */
  datatype Machine = Machine(
    stack: Stack, alt: Stack, exec: seq<bool>, opCount: nat, codeStart: nat, pc: nat, calls: nat)

  datatype Outcome = Continue(m: Machine) | Reject(calls: nat)

  predicate Executing(m: Machine) { false !in m.exec }

  function AfterSigCheck(m: Machine, rest: Stack, success: bool, verify: bool): Outcome {
    if !verify then Continue(m.(stack := rest + [BoolValue(success)]))
    else if success then Continue(m.(stack := rest))
    else Reject(m.calls)
  }

  function CheckSigOp(c: Crypto, script: Script, m: Machine, opcode: Byte): Outcome
    requires m.codeStart <= |script|
  {
    if |m.stack| < 2 then Reject(m.calls)
    else
      var sig, key := Top(m.stack, 2), Top(m.stack, 1);
      var success := c.checkSig(sig, key, Deleted(script[m.codeStart..], PushData(sig)));
      AfterSigCheck(m.(calls := m.calls + 1), Drop(m.stack, 2), success, opcode == OP_CHECKSIGVERIFY)
  }

  function CheckMultiSigOp(c: Crypto, script: Script, m: Machine, opcode: Byte): Outcome
    requires m.codeStart <= |script|
  {
    var args := ReadMultiSigArgs(m.stack, m.opCount);
    if args.BadArgs? then Reject(m.calls)
    else
      var code := DeleteAll(script[m.codeStart..], args.sigs);
      var r := Scan(Verifier(c, code), args.sigs, args.keys);
      AfterSigCheck(m.(calls := m.calls + r.calls, opCount := m.opCount + |args.keys|),
                    Drop(m.stack, args.consumed), r.ok, opcode == OP_CHECKMULTISIGVERIFY)
  }

  function IfOp(m: Machine, opcode: Byte): Outcome {
    if !Executing(m) then Continue(m.(exec := m.exec + [false]))
    else if |m.stack| < 1 then Reject(m.calls)
    else
      var value := Truthy(Top(m.stack, 1));
      Continue(m.(stack := Drop(m.stack, 1), exec := m.exec + [if opcode == OP_NOTIF then !value else value]))
  }

  /** The switch over opcodes; m has the instruction already read and counted. */
  function Execute(c: Crypto, script: Script, m: Machine, op: Op): Outcome
    requires op.Op? && m.codeStart <= |script|
  {
    var opcode := op.opcode;
    if Executing(m) && opcode <= OP_PUSHDATA4 then Continue(m.(stack := m.stack + [op.data]))
    else if !Executing(m) && !(OP_IF <= opcode <= OP_ENDIF) then Continue(m)
    else if opcode == OP_IF || opcode == OP_NOTIF then IfOp(m, opcode)
    else if opcode == OP_ELSE then
      if m.exec == [] then Reject(m.calls)
      else Continue(m.(exec := m.exec[..|m.exec| - 1] + [!m.exec[|m.exec| - 1]]))
    else if opcode == OP_ENDIF then
      if m.exec == [] then Reject(m.calls) else Continue(m.(exec := m.exec[..|m.exec| - 1]))
    else if opcode == OP_CODESEPARATOR then Continue(m.(codeStart := m.pc))
    else if opcode == OP_CHECKSIG || opcode == OP_CHECKSIGVERIFY then CheckSigOp(c, script, m, opcode)
    else if opcode == OP_CHECKMULTISIG || opcode == OP_CHECKMULTISIGVERIFY then CheckMultiSigOp(c, script, m, opcode)
    else
      var s := StackOp(c, opcode, m.stack, m.alt);
      if s.BadStack? then Reject(m.calls) else Continue(m.(stack := s.main, alt := s.alt))
  }

  ghost predicate InScript(script: Script, m: Machine) {
    m.codeStart <= m.pc <= |script|
  }

  /** The instruction is unreadable, too big, over the operation limit or disabled. */
  predicate Refused(m: Machine, op: Op) {
    op.NoOp? || |op.data| > MAX_ELEMENT_SIZE || (op.opcode > OP_16 && m.opCount + 1 > MAX_OPS) || Disabled(op.opcode)
  }

  /** m with the instruction read and, unless it is a push, counted. */
  function Advance(m: Machine, op: Op): Machine
    requires op.Op?
  {
    m.(pc := m.pc + op.size, opCount := if op.opcode > OP_16 then m.opCount + 1 else m.opCount)
  }

  /** The stack size limit, checked after every instruction. */
  function Limited(r: Outcome): Outcome {
    if r.Continue? && |r.m.stack| + |r.m.alt| > MAX_STACK_SIZE then Reject(r.m.calls) else r
  }

  /** One turn of the interpreter loop. */
  function Step(c: Crypto, script: Script, m: Machine): (r: Outcome)
    requires InScript(script, m) && m.pc < |script|
    ensures r.Continue? ==> InScript(script, r.m) && r.m.pc > m.pc
  {
    var op := ReadOp(script[m.pc..]);
    if Refused(m, op) then Reject(m.calls) else Limited(Execute(c, script, Advance(m, op), op))
  }

  /** Outcome of a whole run; the stack is only meaningful when ok. */
  datatype Evaluation = Evaluation(ok: bool, stack: Stack, calls: nat)

  function Run(c: Crypto, script: Script, m: Machine): Evaluation
    requires InScript(script, m)
    decreases |script| - m.pc
  {
    if m.pc == |script| then Evaluation(m.exec == [], if m.exec == [] then m.stack else [], m.calls)
    else
      var r := Step(c, script, m);
      if r.Reject? then Evaluation(false, [], r.calls) else Run(c, script, r.m)
  }

  function Start(stack: Stack): Machine { Machine(stack, [], [], 0, 0, 0, 0) }

  function Eval(c: Crypto, script: Script, stack: Stack): Evaluation {
    if |script| > MAX_SCRIPT_SIZE then Evaluation(false, [], 0) else Run(c, script, Start(stack))
  }

  // ----- The loops of the implementation -----

  /** The scan loop of OP_CHECKMULTISIG, indexing the stack from the top. */
  method MultiSigLoop(c: Crypto, code: Script, stack: Stack, firstKey: nat, keyCount: nat, firstSig: nat, sigCount: nat)
    returns (success: bool, calls: nat)
    requires firstKey >= 1 && firstKey + keyCount <= |stack| + 1
    requires firstSig >= 1 && firstSig + sigCount <= |stack| + 1
    requires sigCount <= keyCount
    ensures ScanResult(success, calls)
         == Scan(Verifier(c, code), FromTop(stack, firstSig, sigCount), FromTop(stack, firstKey, keyCount))
  {
    var ikey: nat, isig: nat, nKeys: int, nSigs: nat := firstKey, firstSig, keyCount, sigCount;
    success, calls := true, 0;
    ghost var whole := Scan(Verifier(c, code), FromTop(stack, firstSig, sigCount), FromTop(stack, firstKey, keyCount));
    while success && nSigs > 0
      invariant ikey >= 1 && 0 <= nKeys && ikey + nKeys <= |stack| + 1
      invariant isig >= 1 && isig + nSigs <= |stack| + 1
      invariant success ==> nSigs <= nKeys
      invariant success ==>
        var r := Scan(Verifier(c, code), FromTop(stack, isig, nSigs), FromTop(stack, ikey, nKeys));
        whole == ScanResult(r.ok, r.calls + calls)
      invariant !success ==> whole == ScanResult(false, calls)
      decreases success, nKeys
    {
      ghost var sigs, keys := FromTop(stack, isig, nSigs), FromTop(stack, ikey, nKeys);
      assert FromTop(stack, ikey + 1, nKeys - 1) == keys[1..];
      assert FromTop(stack, isig + 1, nSigs - 1) == sigs[1..];
      calls := calls + 1;
      if c.checkSig(Top(stack, isig), Top(stack, ikey), code) {
        isig, nSigs := isig + 1, nSigs - 1;
      }
      ikey, nKeys := ikey + 1, nKeys - 1;
      if nSigs > nKeys { success := false; }
    }
  }

  method DropSignatures(signed: Script, sigs: seq<Value>) returns (code: Script)
    ensures code == DeleteAll(signed, sigs)
  {
    code := signed;
    for k := 0 to |sigs|
      invariant DeleteAll(signed, sigs) == DeleteAll(code, sigs[k..])
    {
      code := Deleted(code, PushData(sigs[k]));
      assert sigs[k..][1..] == sigs[k + 1..];
    }
  }

  /** OP_CHECKMULTISIG: drop the signatures from the signed script, then scan. */
  method CheckMultiSig(c: Crypto, script: Script, m: Machine, opcode: Byte) returns (r: Outcome)
    requires m.codeStart <= |script|
    ensures r == CheckMultiSigOp(c, script, m, opcode)
  {
    hide ReadMultiSigArgs, Scan, DeleteAll, AfterSigCheck;
    var args := ReadMultiSigArgs(m.stack, m.opCount);
    if args.BadArgs? { return Reject(m.calls); }
    var code := DropSignatures(script[m.codeStart..], args.sigs);
    var nKeys, nSigs := |args.keys|, |args.sigs|;
    var success, calls := MultiSigLoop(c, code, m.stack, 2, nKeys, nKeys + 3, nSigs);
    r := AfterSigCheck(m.(calls := m.calls + calls, opCount := m.opCount + nKeys),
                       Drop(m.stack, args.consumed), success, opcode == OP_CHECKMULTISIGVERIFY);
  }

  method Dispatch(c: Crypto, script: Script, m: Machine, op: Op, executing: bool) returns (r: Outcome)
    requires op.Op? && m.codeStart <= |script| && executing == Executing(m)
    ensures r == Execute(c, script, m, op)
    ensures r.Continue? ==> r.m.pc == m.pc
  {
    if executing && (op.opcode == OP_CHECKMULTISIG || op.opcode == OP_CHECKMULTISIGVERIFY) {
      r := CheckMultiSig(c, script, m, op.opcode);
    } else {
      r := Execute(c, script, m, op);
    }
  }

  /** The interpreter loop. */
  method EvalScript(c: Crypto, script: Script, stack0: Stack) returns (ok: bool, stack: Stack, calls: nat)
    ensures ok == Eval(c, script, stack0).ok
    ensures calls == Eval(c, script, stack0).calls
    ensures ok ==> stack == Eval(c, script, stack0).stack
  {
    ok, stack, calls := false, stack0, 0;
    if |script| > MAX_SCRIPT_SIZE { return; }
    var alt: Stack, exec: seq<bool>, opCount: nat, codeStart: nat, pc: nat := [], [], 0, 0, 0;
    while pc < |script|
      invariant codeStart <= pc <= |script|
      invariant Eval(c, script, stack0) == Run(c, script, Machine(stack, alt, exec, opCount, codeStart, pc, calls))
    {
      var executing := false !in exec;
      ghost var before := Machine(stack, alt, exec, opCount, codeStart, pc, calls);
      var op := ReadOp(script[pc..]);
      if op.NoOp? || |op.data| > MAX_ELEMENT_SIZE { return; }
      pc := pc + op.size;
      if op.opcode > OP_16 {
        opCount := opCount + 1;
        if opCount > MAX_OPS { return; }
      }
      if Disabled(op.opcode) { return; }
      assert !Refused(before, op);
      var m := Machine(stack, alt, exec, opCount, codeStart, pc, calls);
      assert m == Advance(before, op);
      var r := Dispatch(c, script, m, op, executing);
      assert Step(c, script, before) == Limited(r);
      match r
      case Reject(n) =>
        calls := n;
        return;
      case Continue(m') =>
        stack, alt, exec, opCount, codeStart, calls := m'.stack, m'.alt, m'.exec, m'.opCount, m'.codeStart, m'.calls;
        if |stack| + |alt| > MAX_STACK_SIZE { return; }
        assert Run(c, script, before) == Run(c, script, m');
        assert m' == Machine(stack, alt, exec, opCount, codeStart, pc, calls);
    }
    ok := exec == [];
  }
}

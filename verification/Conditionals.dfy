/**
 * Conditional execution: what every accepted script looks like, and which
 * branch of an IF runs.
 * Source: src/script.cpp, EvalScript (OP_IF to OP_ENDIF and the checks before the switch).
 */
module Conditionals {
  import opened Bytes
  import opened BigNum
  import opened ScriptCodec
  import opened Interpreter
  import opened ScriptLaws

  // ----- The shape of a script that can succeed -----

  /** The depth of conditionals after one operation; None if there is no conditional to end. */
  function DepthAfter(opcode: Byte, depth: nat): Option<nat> {
    if opcode in [OP_IF, OP_NOTIF] then Some(depth + 1)
    else if opcode in [OP_ELSE, OP_ENDIF] && depth == 0 then None
    else if opcode == OP_ENDIF then Some(depth - 1)
    else Some(depth)
  }

  /** OP_VERIF, OP_VERNOTIF and the disabled operations fail even in a branch that is not executed. */
  predicate Forbidden(opcode: Byte) { opcode in [0x65, 0x66] || SwitchedOff(opcode) }

  predicate Acceptable(op: Op) {
    op.Op? && |op.data| <= MAX_ELEMENT_SIZE && !Forbidden(op.opcode)
  }

  /** Readable operations within the size limit, closing exactly `depth` conditionals they did not open. */
  predicate Block(s: Script, depth: nat)
    decreases |s|
  {
    if s == [] then depth == 0
    else
      var op := ReadOp(s);
      Acceptable(op) && DepthAfter(op.opcode, depth).Some? && Block(s[op.size..], DepthAfter(op.opcode, depth).value)
  }

  /** The number of operations that count against the limit. */
  function Counted(s: Script): nat
    decreases |s|
  {
    var op := ReadOp(s);
    if op.NoOp? then 0 else (if op.opcode > OP_16 then 1 else 0) + Counted(s[op.size..])
  }

  predicate IsSigOp(opcode: Byte) { OP_CODESEPARATOR <= opcode <= OP_CHECKMULTISIGVERIFY }

  predicate NoSigOps(s: Script)
    decreases |s|
  {
    var op := ReadOp(s);
    op.NoOp? || (!IsSigOp(op.opcode) && NoSigOps(s[op.size..]))
  }

  lemma ExecuteDepth(c: Crypto, script: Script, m: Machine, op: Op)
    requires op.Op? && m.codeStart <= |script| && Execute(c, script, m, op).Continue?
    ensures DepthAfter(op.opcode, |m.exec|) == Some(|Execute(c, script, m, op).m.exec|)
    ensures op.opcode !in [0x65, 0x66]
  {
    hide StackOp, CheckSigOp, CheckMultiSigOp;
    if op.opcode in [0x65, 0x66] {
      ReservedIsBad(c, op.opcode, m.stack, m.alt);
    }
    SigOpKeepsDepth(c, script, m, op);
  }

  predicate SameBranch(m: Machine, after: Machine) {
    && after.exec == m.exec && after.pc == m.pc
    && m.opCount <= after.opCount && (m.opCount <= MAX_OPS ==> after.opCount <= MAX_OPS)
  }

  lemma SigOpKeepsDepth(c: Crypto, script: Script, m: Machine, op: Op)
    requires op.Op? && m.codeStart <= |script|
    ensures var r := CheckSigOp(c, script, m, op.opcode); r.Continue? ==> SameBranch(m, r.m)
    ensures var r := CheckMultiSigOp(c, script, m, op.opcode);
            r.Continue? ==> SameBranch(m, r.m)
  {
    hide ReadMultiSigArgs, Scan, DeleteAll, Deleted;
  }

  lemma ExecuteCounts(c: Crypto, script: Script, m: Machine, op: Op)
    requires op.Op? && m.codeStart <= |script| && Execute(c, script, m, op).Continue?
    ensures var after := Execute(c, script, m, op).m;
            && after.pc == m.pc && m.opCount <= after.opCount
            && (m.opCount <= MAX_OPS ==> after.opCount <= MAX_OPS)
  {
    hide StackOp, CheckSigOp, CheckMultiSigOp;
    SigOpKeepsDepth(c, script, m, op);
  }

  lemma StepIsAcceptable(c: Crypto, script: Script, m: Machine)
    requires InScript(script, m) && m.pc < |script| && Step(c, script, m).Continue? && m.opCount <= MAX_OPS
    ensures var op, after := ReadOp(script[m.pc..]), Step(c, script, m).m;
            && Acceptable(op) && after.pc == m.pc + op.size
            && DepthAfter(op.opcode, |m.exec|) == Some(|after.exec|)
            && m.opCount + (if op.opcode > OP_16 then 1 else 0) <= after.opCount <= MAX_OPS
  {
    hide Execute;
    var op := ReadOp(script[m.pc..]);
    ExecuteDepth(c, script, Advance(m, op), op);
    ExecuteCounts(c, script, Advance(m, op), op);
  }

  lemma {:induction false} OkRunIsBlock(c: Crypto, script: Script, m: Machine)
    requires InScript(script, m) && Run(c, script, m).ok && m.opCount <= MAX_OPS
    ensures Block(script[m.pc..], |m.exec|)
    ensures m.opCount + Counted(script[m.pc..]) <= MAX_OPS
    decreases |script| - m.pc
  {
    hide Step, DepthAfter;
    if m.pc < |script| {
      var r := Step(c, script, m);
      StepIsAcceptable(c, script, m);
      assert script[m.pc..][ReadOp(script[m.pc..]).size..] == script[r.m.pc..];
      OkRunIsBlock(c, script, r.m);
    }
  }

  /** A run that succeeds, on any stack, is of a script whose operations all respect the limits and nest. */
  lemma OkIsBlock(c: Crypto, script: Script, stack: Stack)
    requires Eval(c, script, stack).ok
    ensures |script| <= MAX_SCRIPT_SIZE && Block(script, 0) && Counted(script) <= MAX_OPS
  {
    hide Run;
    assert script[0..] == script;
    OkRunIsBlock(c, script, Start(stack));
  }

  // ----- Reading a block inside a larger script -----

  /** The first operation of a block that is followed by other code. */
  lemma BlockStep(b: Script, rest: Script, depth: nat)
    requires b != [] && Block(b, depth)
    ensures var op := ReadOp(b);
            && op.Op? && ReadOp(b + rest) == op && op.size <= |b|
            && (b + rest)[op.size..] == b[op.size..] + rest
            && Counted(b) == (if op.opcode > OP_16 then 1 else 0) + Counted(b[op.size..])
            && Acceptable(op) && DepthAfter(op.opcode, depth).Some?
            && Block(b[op.size..], DepthAfter(op.opcode, depth).value)
            && (NoSigOps(b) ==> !IsSigOp(op.opcode) && NoSigOps(b[op.size..]))
  {
    hide ReadOp, DepthAfter;
    ReadsSame(b, rest);
  }

  lemma ReadsSame(b: Script, rest: Script)
    requires ReadOp(b).Op?
    ensures ReadOp(b + rest) == ReadOp(b) && (b + rest)[ReadOp(b).size..] == b[ReadOp(b).size..] + rest
  {
    var n := ReadOp(b).size;
    assert n <= |b|;
    hide ReadOp;
    var s := b + rest;
    assert s[..n] == b[..n];
    ReadIsLocal(b, s);
  }

  lemma AcceptableIsNotRefused(m: Machine, op: Op)
    requires Acceptable(op) && m.opCount + (if op.opcode > OP_16 then 1 else 0) <= MAX_OPS
    ensures !Refused(m, op)
  {
  }

  // ----- A branch that is not executed -----

  /** m after the block b has run, with the stacks it leaves. */
  function Past(m: Machine, b: Script, s: Stack, a: Stack, exec: seq<bool>): Machine {
    m.(stack := s, alt := a, exec := exec, pc := m.pc + |b|, opCount := m.opCount + Counted(b))
  }

  /** The conditionals after an operation that is not executed. */
  function ExecAfter(opcode: Byte, e: seq<bool>): (r: seq<bool>)
    requires DepthAfter(opcode, |e|).Some?
    ensures DepthAfter(opcode, |e|) == Some(|r|)
  {
    if opcode in [OP_IF, OP_NOTIF] then e + [false]
    else if opcode == OP_ELSE then e[..|e| - 1] + [!e[|e| - 1]]
    else if opcode == OP_ENDIF then e[..|e| - 1]
    else e
  }

  lemma ExecAfterInner(opcode: Byte, outer: seq<bool>, inner: seq<bool>)
    requires DepthAfter(opcode, |inner|).Some?
    ensures DepthAfter(opcode, |outer + inner|).Some?
    ensures ExecAfter(opcode, outer + inner) == outer + ExecAfter(opcode, inner)
  {
  }

  lemma SkipOne(c: Crypto, script: Script, m: Machine, op: Op)
    requires InScript(script, m) && m.pc < |script| && ReadOp(script[m.pc..]) == op
    requires !Executing(m) && Acceptable(op) && m.opCount + (if op.opcode > OP_16 then 1 else 0) <= MAX_OPS
    requires |m.stack| + |m.alt| <= MAX_STACK_SIZE && DepthAfter(op.opcode, |m.exec|).Some?
    ensures Step(c, script, m) == Continue(Advance(m, op).(exec := ExecAfter(op.opcode, m.exec)))
  {
    hide StackOp, CheckSigOp, CheckMultiSigOp;
    AcceptableIsNotRefused(m, op);
  }

  /** An operation that is not executed is passed over. */
  lemma SkipFirst(c: Crypto, script: Script, m: Machine, op: Op, outer: seq<bool>, inner: seq<bool>)
    returns (m': Machine)
    requires InScript(script, m) && m.pc < |script| && ReadOp(script[m.pc..]) == op && Acceptable(op)
    requires m.exec == outer + inner && false in outer && DepthAfter(op.opcode, |inner|).Some?
    requires m.opCount + (if op.opcode > OP_16 then 1 else 0) <= MAX_OPS && |m.stack| + |m.alt| <= MAX_STACK_SIZE
    ensures m' == Advance(m, op).(exec := outer + ExecAfter(op.opcode, inner))
    ensures InScript(script, m') && Run(c, script, m) == Run(c, script, m')
  {
    hide Step, Run, ReadOp;
    ExecAfterInner(op.opcode, outer, inner);
    assert !Executing(m);
    hide DepthAfter, ExecAfter;
    SkipOne(c, script, m, op);
    m' := Advance(m, op).(exec := outer + ExecAfter(op.opcode, inner));
    RunNext(c, script, m, m');
  }

  lemma EmptyBlock(depth: nat)
    ensures Counted([]) == 0 && (Block([], depth) ==> depth == 0)
  {
  }

  lemma RunNext(c: Crypto, script: Script, m: Machine, m': Machine)
    requires InScript(script, m) && m.pc < |script| && Step(c, script, m) == Continue(m')
    ensures InScript(script, m') && Run(c, script, m) == Run(c, script, m')
  {
    hide Execute;
  }

  lemma SuffixStep(script: Script, pc: nat, s: Script, n: nat)
    requires pc <= |script| && script[pc..] == s && n <= |s|
    ensures pc + n <= |script| && script[pc + n..] == s[n..] && (s != [] ==> pc < |script|)
  {
    assert script[pc..][n..] == script[pc + n..];
  }

  /** Code that is not executed changes nothing but the count of operations, whatever it nests. */
  lemma {:induction false} SkipBlock(c: Crypto, script: Script, m: Machine, b: Script, rest: Script,
                                     outer: seq<bool>, inner: seq<bool>)
    requires InScript(script, m) && script[m.pc..] == b + rest && Block(b, |inner|)
    requires m.exec == outer + inner && false in outer
    requires m.opCount + Counted(b) <= MAX_OPS && |m.stack| + |m.alt| <= MAX_STACK_SIZE
    ensures m.pc + |b| <= |script|
    ensures Run(c, script, m) == Run(c, script, Past(m, b, m.stack, m.alt, outer))
    decreases |b|
  {
    hide Run, DepthAfter, ExecAfter, ReadOp, Acceptable, Block, Counted, NoSigOps;
    SuffixStep(script, m.pc, b + rest, |b|);
    if b == [] {
      EmptyBlock(|inner|);
      assert outer + inner == outer;
      assert Past(m, b, m.stack, m.alt, outer) == m;
    } else {
      var op := ReadOp(b);
      BlockStep(b, rest, |inner|);
      var m' := SkipFirst(c, script, m, op, outer, inner);
      var more := b[op.size..];
      SuffixStep(script, m.pc, b + rest, op.size);
      SkipBlock(c, script, m', more, rest, outer, ExecAfter(op.opcode, inner));
      assert Past(m', more, m.stack, m.alt, outer) == Past(m, b, m.stack, m.alt, outer);
    }
  }

  // ----- A branch that is executed -----

  /** machine runs inside a larger script what alone runs by itself. */
  ghost predicate Mirrors(machine: Machine, alone: Machine, outer: seq<bool>) {
    && machine.stack == alone.stack && machine.alt == alone.alt && machine.calls == alone.calls
    && machine.exec == outer + alone.exec
  }

  predicate SameCode(m: Machine, after: Machine) { after.calls == m.calls && after.codeStart == m.codeStart }

  lemma ExecuteMirrors(c: Crypto, script: Script, m: Machine, b: Script, n: Machine, op: Op, outer: seq<bool>)
    requires m.codeStart <= |script| && n.codeStart <= |b|
    requires Mirrors(m, n, outer) && false !in outer && op.Op? && !IsSigOp(op.opcode)
    requires DepthAfter(op.opcode, |n.exec|).Some?
    ensures var r, q := Execute(c, script, m, op), Execute(c, b, n, op);
            if q.Reject? then r == q
            else r.Continue? && Mirrors(r.m, q.m, outer) && SameCode(m, r.m)
                 && r.m.pc == m.pc && r.m.opCount == m.opCount
                 && q.m.pc == n.pc && q.m.opCount == n.opCount
                 && DepthAfter(op.opcode, |n.exec|) == Some(|q.m.exec|)
  {
    hide StackOp, Truthy;
    assert Executing(m) <==> Executing(n);
    var q := Execute(c, b, n, op);
    if q.Continue? {
      ExecuteDepth(c, b, n, op);
      var r := Execute(c, script, m, op);
      assert r.m.exec == outer + q.m.exec;
    }
  }

  lemma StepMirrors(c: Crypto, script: Script, m: Machine, b: Script, n: Machine, op: Op, outer: seq<bool>)
    requires InScript(script, m) && m.pc < |script| && ReadOp(script[m.pc..]) == op
    requires InScript(b, n) && n.pc < |b| && ReadOp(b[n.pc..]) == op
    requires Mirrors(m, n, outer) && false !in outer && Acceptable(op) && !IsSigOp(op.opcode)
    requires DepthAfter(op.opcode, |n.exec|).Some?
    requires n.opCount <= m.opCount && m.opCount + (if op.opcode > OP_16 then 1 else 0) <= MAX_OPS
    ensures var r, q := Step(c, script, m), Step(c, b, n);
            if q.Reject? then r == q && q.calls == n.calls
            else r.Continue? && Mirrors(r.m, q.m, outer) && SameCode(m, r.m)
                 && r.m.pc == m.pc + op.size && q.m.pc == n.pc + op.size
                 && r.m.opCount - m.opCount == q.m.opCount - n.opCount == (if op.opcode > OP_16 then 1 else 0)
                 && |q.m.stack| + |q.m.alt| <= MAX_STACK_SIZE
                 && DepthAfter(op.opcode, |n.exec|) == Some(|q.m.exec|)
  {
    hide Execute;
    AcceptableIsNotRefused(m, op);
    AcceptableIsNotRefused(n, op);
    ExecuteMirrors(c, script, Advance(m, op), b, Advance(n, op), op, outer);
    ExecuteKeepsCalls(c, b, Advance(n, op), op);
  }

  lemma ExecuteKeepsCalls(c: Crypto, script: Script, m: Machine, op: Op)
    requires m.codeStart <= |script| && op.Op? && !IsSigOp(op.opcode)
    ensures var r := Execute(c, script, m, op); if r.Reject? then r.calls == m.calls else SameCode(m, r.m)
  {
    hide StackOp, Truthy;
  }

  /** A block without signature operations does inside a larger script what it does alone. */
  lemma {:induction false} RunInside(c: Crypto, script: Script, m: Machine, b: Script, n: Machine,
                                     rest: Script, outer: seq<bool>) returns (alt: Stack)
    requires InScript(script, m) && InScript(b, n) && script[m.pc..] == b[n.pc..] + rest
    requires Mirrors(m, n, outer) && false !in outer && n.opCount <= m.opCount
    requires Block(b[n.pc..], |n.exec|) && NoSigOps(b[n.pc..])
    requires m.opCount + Counted(b[n.pc..]) <= MAX_OPS && |m.stack| + |m.alt| <= MAX_STACK_SIZE
    ensures m.pc + |b[n.pc..]| <= |script|
    ensures var q := Run(c, b, n);
            q.calls == m.calls &&
            if q.ok then |q.stack| + |alt| <= MAX_STACK_SIZE
                         && Run(c, script, m) == Run(c, script, Past(m, b[n.pc..], q.stack, alt, outer))
            else Run(c, script, m) == q
    decreases |b| - n.pc
  {
    hide Step, DepthAfter, NoSigOps, ReadOp, Acceptable, Block, Counted;
    assert |script[m.pc..]| == |script| - m.pc;
    if n.pc == |b| {
      EmptyBlock(|n.exec|);
      alt := m.alt;
      assert m.exec == outer;
      assert Past(m, b[n.pc..], m.stack, alt, outer) == m;
    } else {
      var op := ReadOp(b[n.pc..]);
      BlockStep(b[n.pc..], rest, |n.exec|);
      StepMirrors(c, script, m, b, n, op, outer);
      var q := Step(c, b, n);
      alt := [];
      if q.Continue? {
        var r := Step(c, script, m);
        assert b[q.m.pc..] == b[n.pc..][op.size..];
        assert script[r.m.pc..] == script[m.pc..][op.size..];
        alt := RunInside(c, script, r.m, b, q.m, rest, outer);
        var s := Run(c, b, n).stack;
        assert Past(r.m, b[q.m.pc..], s, alt, outer) == Past(m, b[n.pc..], s, alt, outer);
      }
    }
  }

  // ----- IF and NOTIF -----

  function IfElse(opcode: Byte, a: Script, b: Script): Script {
    [opcode] + a + [OP_ELSE] + b + [OP_ENDIF]
  }

  lemma IfStep(c: Crypto, script: Script, m: Machine, s: Stack, v: Value)
    requires Before(script, m) && script[m.pc] in [OP_IF, OP_NOTIF] && m.stack == s + [v] && m.opCount < MAX_OPS
    requires |s| + |m.alt| <= MAX_STACK_SIZE
    ensures var taken := (FromVch(v) != 0) == (script[m.pc] == OP_IF);
            Step(c, script, m) == Continue(After(m, s, m.alt).(exec := m.exec + [taken]))
  {
    hide StackOp, CheckSigOp, CheckMultiSigOp, Truthy, FromVch;
    var op := Op(script[m.pc], [], 1);
    assert ReadOp(script[m.pc..]) == op;
    TruthIsNonZero(v);
    assert Top(m.stack, 1) == v && Drop(m.stack, 1) == s;
  }

  lemma IfOnEmptyFails(c: Crypto, script: Script, m: Machine)
    requires Before(script, m) && script[m.pc] in [OP_IF, OP_NOTIF] && m.stack == []
    ensures Fails(c, script, m)
  {
    hide StackOp, CheckSigOp, CheckMultiSigOp;
    assert ReadOp(script[m.pc..]) == Op(script[m.pc], [], 1);
  }

  /** ELSE turns the innermost conditional over, ENDIF ends it. */
  lemma ElseStep(c: Crypto, script: Script, m: Machine, outer: seq<bool>, taken: bool)
    requires InScript(script, m) && m.pc < |script| && script[m.pc] in [OP_ELSE, OP_ENDIF]
    requires m.exec == outer + [taken] && m.opCount < MAX_OPS && |m.stack| + |m.alt| <= MAX_STACK_SIZE
    ensures var exec := if script[m.pc] == OP_ELSE then outer + [!taken] else outer;
            Step(c, script, m) == Continue(After(m, m.stack, m.alt).(exec := exec))
  {
    hide StackOp, CheckSigOp, CheckMultiSigOp;
    assert ReadOp(script[m.pc..]) == Op(script[m.pc], [], 1);
    assert m.exec[..|outer|] == outer;
  }

  /** The chosen branch alone, on the stacks it finds. */
  function Alone(c: Crypto, branch: Script, s: Stack, alt: Stack, calls: nat): Evaluation {
    Run(c, branch, Machine(s, alt, [], 0, 0, 0, calls))
  }

  lemma RunBranch(c: Crypto, script: Script, m: Machine, branch: Script, rest: Script, outer: seq<bool>)
    returns (alt: Stack)
    requires InScript(script, m) && script[m.pc..] == branch + rest && m.exec == outer && false !in outer
    requires Block(branch, 0) && NoSigOps(branch)
    requires m.opCount + Counted(branch) <= MAX_OPS && |m.stack| + |m.alt| <= MAX_STACK_SIZE
    ensures m.pc + |branch| <= |script|
    ensures var q := Alone(c, branch, m.stack, m.alt, m.calls);
            q.calls == m.calls &&
            if q.ok then |q.stack| + |alt| <= MAX_STACK_SIZE
                         && Run(c, script, m) == Run(c, script, Past(m, branch, q.stack, alt, outer))
            else Run(c, script, m) == q
  {
    hide Run;
    var n := Machine(m.stack, m.alt, [], 0, 0, 0, m.calls);
    assert branch[0..] == branch && outer + [] == outer;
    alt := RunInside(c, script, m, branch, n, rest, outer);
  }

  lemma IfEnters(c: Crypto, script: Script, m: Machine, s: Stack, v: Value, body: Script) returns (m': Machine)
    requires Before(script, m) && script[m.pc..] == [script[m.pc]] + body && script[m.pc] in [OP_IF, OP_NOTIF]
    requires m.stack == s + [v] && m.opCount < MAX_OPS && |s| + |m.alt| <= MAX_STACK_SIZE
    ensures m' == After(m, s, m.alt).(exec := m.exec + [(FromVch(v) != 0) == (script[m.pc] == OP_IF)])
    ensures InScript(script, m') && script[m'.pc..] == body && Run(c, script, m) == Run(c, script, m')
  {
    hide FromVch, Step;
    IfStep(c, script, m, s, v);
    m' := After(m, s, m.alt).(exec := m.exec + [(FromVch(v) != 0) == (script[m.pc] == OP_IF)]);
    assert script[m.pc..][1..] == script[m'.pc..];
  }

  lemma ElseTurns(c: Crypto, script: Script, m: Machine, outer: seq<bool>, taken: bool, opcode: Byte, body: Script)
    returns (m': Machine)
    requires InScript(script, m) && script[m.pc..] == [opcode] + body && opcode in [OP_ELSE, OP_ENDIF]
    requires m.exec == outer + [taken] && m.opCount < MAX_OPS && |m.stack| + |m.alt| <= MAX_STACK_SIZE
    ensures m' == After(m, m.stack, m.alt).(exec := if opcode == OP_ELSE then outer + [!taken] else outer)
    ensures InScript(script, m') && script[m'.pc..] == body && Run(c, script, m) == Run(c, script, m')
  {
    hide Step;
    assert |script[m.pc..]| == |script| - m.pc && script[m.pc..][0] == opcode;
    ElseStep(c, script, m, outer, taken);
    m' := After(m, m.stack, m.alt).(exec := if opcode == OP_ELSE then outer + [!taken] else outer);
    assert script[m.pc..][1..] == script[m'.pc..];
  }

  lemma SkipCode(c: Crypto, script: Script, m: Machine, b: Script, rest: Script) returns (m': Machine)
    requires InScript(script, m) && script[m.pc..] == b + rest && Block(b, 0) && false in m.exec
    requires m.opCount + Counted(b) <= MAX_OPS && |m.stack| + |m.alt| <= MAX_STACK_SIZE
    ensures m' == Past(m, b, m.stack, m.alt, m.exec)
    ensures InScript(script, m') && script[m'.pc..] == rest && Run(c, script, m) == Run(c, script, m')
  {
    hide Run, Counted;
    assert m.exec + [] == m.exec;
    SkipBlock(c, script, m, b, rest, m.exec, []);
    m' := Past(m, b, m.stack, m.alt, m.exec);
    assert script[m.pc..][|b|..] == script[m'.pc..];
  }

  /** What follows the operand of a conditional. */
  function Branches(a: Script, b: Script, rest: Script): Script {
    a + ([OP_ELSE] + (b + ([OP_ENDIF] + rest)))
  }

  /** From the first operation of the first branch to the operation after ENDIF. */
  function AfterEndif(m: Machine, a: Script, b: Script, s: Stack, alt: Stack, outer: seq<bool>): Machine {
    m.(stack := s, alt := alt, exec := outer, pc := m.pc + |a| + |b| + 2,
       opCount := m.opCount + Counted(a) + Counted(b) + 2)
  }

  lemma FirstBranchRuns(c: Crypto, script: Script, m: Machine, a: Script, b: Script, rest: Script, outer: seq<bool>)
    returns (alt: Stack)
    requires InScript(script, m) && script[m.pc..] == Branches(a, b, rest)
    requires m.exec == outer + [true] && false !in outer && |m.stack| + |m.alt| <= MAX_STACK_SIZE
    requires Block(a, 0) && Block(b, 0) && NoSigOps(a) && m.opCount + Counted(a) + Counted(b) + 2 <= MAX_OPS
    ensures m.pc + |a| + |b| + 2 <= |script|
    ensures var q := Alone(c, a, m.stack, m.alt, m.calls);
            q.calls == m.calls &&
            if q.ok then |q.stack| + |alt| <= MAX_STACK_SIZE
                         && Run(c, script, m) == Run(c, script, AfterEndif(m, a, b, q.stack, alt, outer))
            else Run(c, script, m) == q
  {
    hide Run, Alone, Block, NoSigOps, Counted;
    assert |script[m.pc..]| == |script| - m.pc;
    var afterB := [OP_ENDIF] + rest;
    var afterA := [OP_ELSE] + (b + afterB);
    alt := RunBranch(c, script, m, a, afterA, m.exec);
    var q := Alone(c, a, m.stack, m.alt, m.calls);
    if q.ok {
      var m2 := Past(m, a, q.stack, alt, m.exec);
      assert script[m.pc..][|a|..] == script[m2.pc..];
      var m3 := ElseTurns(c, script, m2, outer, true, OP_ELSE, b + afterB);
      var m4 := SkipCode(c, script, m3, b, afterB);
      var m5 := ElseTurns(c, script, m4, outer, false, OP_ENDIF, rest);
      assert m5 == AfterEndif(m, a, b, q.stack, alt, outer);
    }
  }

  lemma SecondBranchRuns(c: Crypto, script: Script, m: Machine, a: Script, b: Script, rest: Script, outer: seq<bool>)
    returns (alt: Stack)
    requires InScript(script, m) && script[m.pc..] == Branches(a, b, rest)
    requires m.exec == outer + [false] && false !in outer && |m.stack| + |m.alt| <= MAX_STACK_SIZE
    requires Block(a, 0) && Block(b, 0) && NoSigOps(b) && m.opCount + Counted(a) + Counted(b) + 2 <= MAX_OPS
    ensures m.pc + |a| + |b| + 2 <= |script|
    ensures var q := Alone(c, b, m.stack, m.alt, m.calls);
            q.calls == m.calls &&
            if q.ok then |q.stack| + |alt| <= MAX_STACK_SIZE
                         && Run(c, script, m) == Run(c, script, AfterEndif(m, a, b, q.stack, alt, outer))
            else Run(c, script, m) == q
  {
    hide Run, Alone, Block, NoSigOps, Counted;
    assert |script[m.pc..]| == |script| - m.pc;
    var afterB := [OP_ENDIF] + rest;
    var m2 := SkipCode(c, script, m, a, [OP_ELSE] + (b + afterB));
    var m3 := ElseTurns(c, script, m2, outer, false, OP_ELSE, b + afterB);
    alt := RunBranch(c, script, m3, b, afterB, m3.exec);
    var q := Alone(c, b, m.stack, m.alt, m.calls);
    if q.ok {
      var m4 := Past(m3, b, q.stack, alt, m3.exec);
      assert script[m3.pc..][|b|..] == script[m4.pc..];
      var m5 := ElseTurns(c, script, m4, outer, true, OP_ENDIF, rest);
      assert m5 == AfterEndif(m, a, b, q.stack, alt, outer);
    }
  }

  /** An IF inside any script runs exactly the branch its operand chooses, and then what follows. */
  lemma IfElseRuns(c: Crypto, script: Script, m: Machine, a: Script, b: Script, rest: Script, s: Stack, v: Value)
    returns (alt: Stack)
    requires Before(script, m) && m.stack == s + [v] && |s| + |m.alt| <= MAX_STACK_SIZE
    requires script[m.pc] in [OP_IF, OP_NOTIF] && script[m.pc..] == [script[m.pc]] + Branches(a, b, rest)
    requires Block(a, 0) && Block(b, 0) && m.opCount + Counted(a) + Counted(b) + 3 <= MAX_OPS
    requires NoSigOps(if (FromVch(v) != 0) == (script[m.pc] == OP_IF) then a else b)
    ensures m.pc + |a| + |b| + 3 <= |script|
    ensures var taken := (FromVch(v) != 0) == (script[m.pc] == OP_IF);
            var q := Alone(c, if taken then a else b, s, m.alt, m.calls);
            q.calls == m.calls &&
            if q.ok then Run(c, script, m) == Run(c, script, AfterEndif(After(m, s, m.alt), a, b, q.stack, alt, m.exec))
            else Run(c, script, m) == q
  {
    hide Run, Alone, Block, NoSigOps, Counted, FromVch, Branches;
    var m1 := IfEnters(c, script, m, s, v, Branches(a, b, rest));
    if (FromVch(v) != 0) == (script[m.pc] == OP_IF) {
      alt := FirstBranchRuns(c, script, m1, a, b, rest, m.exec);
    } else {
      alt := SecondBranchRuns(c, script, m1, a, b, rest, m.exec);
    }
  }

  /** A whole script that is one conditional evaluates to the chosen branch, and skips the other. */
  lemma ChosenBranchRuns(c: Crypto, opcode: Byte, a: Script, b: Script, s: Stack, v: Value)
    requires opcode in [OP_IF, OP_NOTIF] && |s| <= MAX_STACK_SIZE
    requires Block(a, 0) && Block(b, 0) && Counted(a) + Counted(b) + 3 <= MAX_OPS
    requires |IfElse(opcode, a, b)| <= MAX_SCRIPT_SIZE
    requires NoSigOps(if (FromVch(v) != 0) == (opcode == OP_IF) then a else b)
    ensures Eval(c, IfElse(opcode, a, b), s + [v])
         == Eval(c, if (FromVch(v) != 0) == (opcode == OP_IF) then a else b, s)
  {
    hide Run, Block, NoSigOps, Counted, FromVch;
    var script := IfElse(opcode, a, b);
    var m := Start(s + [v]);
    assert script[0..] == script == [opcode] + Branches(a, b, []) && script[0] == opcode;
    var alt := IfElseRuns(c, script, m, a, b, [], s, v);
    AtEnd(c, script);
  }

  lemma AtEnd(c: Crypto, script: Script)
    ensures forall m: Machine :: InScript(script, m) && m.pc == |script| && m.exec == [] ==>
              Run(c, script, m) == Evaluation(true, m.stack, m.calls)
  {
  }
}

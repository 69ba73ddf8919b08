/**
 * What scripts do: one law for every operation, wherever it stands in a
 * script, and the runs of whole scripts that follow from them.
 * Source: src/script.cpp, EvalScript and VerifyScript.
 */
module ScriptLaws {
  import opened Bytes
  import opened BigNum
  import opened ScriptCodec
  import opened Interpreter

  // ----- What it means for an operation to leave a stack -----

  /** m stands before an operation of script, in a branch that is executed. */
  ghost predicate Before(script: Script, m: Machine) {
    InScript(script, m) && m.pc < |script| && Executing(m)
  }

  /** m after a counted operation of one byte that leaves the stacks s and a. */
  function After(m: Machine, s: Stack, a: Stack): Machine {
    m.(stack := s, alt := a, pc := m.pc + 1, opCount := m.opCount + 1)
  }

  ghost predicate Fails(c: Crypto, script: Script, m: Machine)
    requires InScript(script, m)
  {
    Run(c, script, m) == Evaluation(false, [], m.calls)
  }

  /** The operation at m.pc leaves s and a, unless that breaks one of the two limits. */
  ghost predicate LeavesBoth(c: Crypto, script: Script, m: Machine, s: Stack, a: Stack)
    requires Before(script, m)
  {
    if m.opCount < MAX_OPS && |s| + |a| <= MAX_STACK_SIZE then Run(c, script, m) == Run(c, script, After(m, s, a))
    else Fails(c, script, m)
  }

  ghost predicate Leaves(c: Crypto, script: Script, m: Machine, s: Stack)
    requires Before(script, m)
  {
    LeavesBoth(c, script, m, s, m.alt)
  }

  /** Leaves s if the condition holds, and fails otherwise. */
  ghost predicate LeavesIf(c: Crypto, script: Script, m: Machine, condition: bool, s: Stack)
    requires Before(script, m)
  {
    if condition then Leaves(c, script, m, s) else Fails(c, script, m)
  }

  predicate Plain(opcode: Byte) {
    opcode > OP_16 && !(OP_IF <= opcode <= OP_ENDIF) && !(OP_CODESEPARATOR <= opcode <= OP_CHECKMULTISIGVERIFY)
  }

  lemma PlainRuns(c: Crypto, script: Script, m: Machine)
    requires Before(script, m) && Plain(script[m.pc])
    ensures var t := StackOp(c, script[m.pc], m.stack, m.alt);
            if Disabled(script[m.pc]) || t.BadStack? then Fails(c, script, m)
            else LeavesBoth(c, script, m, t.main, t.alt)
  {
    hide StackOp;
    var op := Op(script[m.pc], [], 1);
    assert ReadOp(script[m.pc..]) == op;
  }

  // ----- Rearranging operations, drawn as (taken -- left) -----

  /** Takes that many items off the stack and leaves the taken items with these numbers, bottom first. */
  datatype Picture = Picture(take: nat, leave: seq<nat>)

    predicate Within(leave: seq<nat>, take: nat) {
    forall k :: 0 <= k < |leave| ==> leave[k] < take
  }

  function PictureOf(opcode: Byte): (r: Option<Picture>)
    ensures r.Some? ==> Within(r.value.leave, r.value.take)
    ensures r.Some? ==> Plain(opcode) && !Disabled(opcode)
  {
    if opcode == OP_2DROP then Some(Picture(2, []))
    else if opcode == OP_2DUP then Some(Picture(2, [0, 1, 0, 1]))
    else if opcode == OP_3DUP then Some(Picture(3, [0, 1, 2, 0, 1, 2]))
    else if opcode == OP_2OVER then Some(Picture(4, [0, 1, 2, 3, 0, 1]))
    else if opcode == OP_2ROT then Some(Picture(6, [2, 3, 4, 5, 0, 1]))
    else if opcode == OP_2SWAP then Some(Picture(4, [2, 3, 0, 1]))
    else if opcode == OP_DROP then Some(Picture(1, []))
    else if opcode == OP_DUP then Some(Picture(1, [0, 0]))
    else if opcode == OP_NIP then Some(Picture(2, [1]))
    else if opcode == OP_OVER then Some(Picture(2, [0, 1, 0]))
    else if opcode == OP_ROT then Some(Picture(3, [1, 2, 0]))
    else if opcode == OP_SWAP then Some(Picture(2, [1, 0]))
    else if opcode == OP_TUCK then Some(Picture(2, [1, 0, 1]))
    else None
  }

  function Arranged(taken: Stack, leave: seq<nat>): (s: Stack)
    requires Within(leave, |taken|)
    ensures |s| == |leave| && forall k :: 0 <= k < |s| ==> s[k] == taken[leave[k]]
  {
    seq(|leave|, k requires 0 <= k < |leave| => taken[leave[k]])
  }

  function Applied(p: Picture, s: Stack): (t: Stack)
    requires Within(p.leave, p.take) && p.take <= |s|
    ensures |t| == |s| - p.take + |p.leave|
  {
    s[..|s| - p.take] + Arranged(s[|s| - p.take..], p.leave)
  }

  /** The stack a picture leaves; None when too few items are there. */
  function Drawn(opcode: Byte, s: Stack): Option<Stack>
    requires PictureOf(opcode).Some?
  {
    var p := PictureOf(opcode).value;
    if |s| < p.take then None else Some(Applied(p, s))
  }

  lemma SmallPictures(opcode: Byte, s: Stack, a: Stack)
    requires opcode in [OP_2DROP, OP_2DUP, OP_DROP, OP_DUP, OP_NIP, OP_OVER, OP_SWAP, OP_TUCK]
    requires PictureOf(opcode).Some? && |s| >= PictureOf(opcode).value.take
    ensures ShuffleOp(opcode, s, a) == Stacks(Drawn(opcode, s).value, a)
  {
    hide PickOp, Truthy, CastToBigNum, ToVch, BoolValue;
    var r, d := ShuffleOp(opcode, s, a).main, Drawn(opcode, s).value;
    assert |r| == |d|;
    assert forall k :: 0 <= k < |d| ==> r[k] == d[k];
  }

  lemma TriplePictures(opcode: Byte, s: Stack, a: Stack)
    requires opcode in [OP_3DUP, OP_ROT]
    requires PictureOf(opcode).Some? && |s| >= PictureOf(opcode).value.take
    ensures ShuffleOp(opcode, s, a) == Stacks(Drawn(opcode, s).value, a)
  {
    hide PickOp, Truthy, CastToBigNum, ToVch, BoolValue;
    var r, d := ShuffleOp(opcode, s, a).main, Drawn(opcode, s).value;
    assert |r| == |d|;
    assert forall k :: 0 <= k < |d| ==> r[k] == d[k];
  }

  lemma PairPictures(opcode: Byte, s: Stack, a: Stack)
    requires opcode in [OP_2OVER, OP_2ROT, OP_2SWAP]
    requires PictureOf(opcode).Some? && |s| >= PictureOf(opcode).value.take
    ensures ShuffleOp(opcode, s, a) == Stacks(Drawn(opcode, s).value, a)
  {
    hide PickOp, Truthy, CastToBigNum, ToVch, BoolValue;
    var r, d := ShuffleOp(opcode, s, a).main, Drawn(opcode, s).value;
    assert |r| == |d|;
    assert forall k :: 0 <= k < |d| ==> r[k] == d[k];
  }

  lemma StackOpDraws(c: Crypto, opcode: Byte, s: Stack, a: Stack)
    requires PictureOf(opcode).Some?
    ensures StackOp(c, opcode, s, a) ==
            if Drawn(opcode, s).None? then BadStack else Stacks(Drawn(opcode, s).value, a)
  {
    hide PickOp, Truthy, CastToBigNum, ToVch, BoolValue;
    if |s| >= PictureOf(opcode).value.take {
      hide ShuffleOp;
      if opcode in [OP_2OVER, OP_2ROT, OP_2SWAP] {
        PairPictures(opcode, s, a);
      } else if opcode in [OP_3DUP, OP_ROT] {
        TriplePictures(opcode, s, a);
      } else {
        SmallPictures(opcode, s, a);
      }
    }
  }

  /** Every rearranging operation does what its picture says, and fails exactly on too few items. */
  lemma PictureLaw(c: Crypto, script: Script, m: Machine)
    requires Before(script, m) && PictureOf(script[m.pc]).Some?
    ensures var t := Drawn(script[m.pc], m.stack);
            if t.None? then Fails(c, script, m) else Leaves(c, script, m, t.value)
  {
    hide StackOp, Run;
    PlainRuns(c, script, m);
    StackOpDraws(c, script[m.pc], m.stack, m.alt);
  }

  // ----- Runs of rearranging operations -----

  predicate Pictured(ops: Script) {
    forall k :: 0 <= k < |ops| ==> PictureOf(ops[k]).Some?
  }

  /** The pictures drawn one after the other; None as soon as items are missing or the stack overflows. */
  function DrawnAll(ops: Script, s: Stack): Option<Stack>
    requires Pictured(ops)
  {
    if ops == [] then Some(s)
    else
      var t := Drawn(ops[0], s);
      if t.None? || |t.value| > MAX_STACK_SIZE then None else DrawnAll(ops[1..], t.value)
  }

  lemma {:induction false} PicturesRun(c: Crypto, script: Script, m: Machine)
    requires InScript(script, m) && m.exec == [] && m.alt == []
    requires Pictured(script[m.pc..]) && m.opCount + (|script| - m.pc) <= MAX_OPS
    ensures Run(c, script, m) ==
            var t := DrawnAll(script[m.pc..], m.stack);
            if t.None? then Evaluation(false, [], m.calls) else Evaluation(true, t.value, m.calls)
    decreases |script| - m.pc
  {
    hide Step, PictureOf, Drawn;
    if m.pc < |script| {
      var rest := script[m.pc..];
      assert rest[0] == script[m.pc] && rest[1..] == script[m.pc + 1..];
      PictureLaw(c, script, m);
      var t := Drawn(script[m.pc], m.stack);
      if t.Some? && |t.value| <= MAX_STACK_SIZE {
        PicturesRun(c, script, After(m, t.value, []));
      }
    }
  }

  /** A script of rearranging operations computes the composition of their pictures, on any stack. */
  lemma PicturesCompose(c: Crypto, ops: Script, s: Stack)
    requires Pictured(ops) && |ops| <= MAX_OPS
    ensures Eval(c, ops, s) ==
            var t := DrawnAll(ops, s);
            if t.None? then Evaluation(false, [], 0) else Evaluation(true, t.value, 0)
  {
    hide Run;
    assert ops[0..] == ops;
    PicturesRun(c, ops, Start(s));
  }

  /** The run changes nothing. */
  ghost predicate Identity(c: Crypto, ops: Script, s: Stack) {
    Eval(c, ops, s) == Evaluation(true, s, 0)
  }

  lemma DrawTwo(a: Byte, b: Byte, s: Stack)
    requires PictureOf(a).Some? && PictureOf(b).Some?
    ensures Pictured([a, b])
    ensures DrawnAll([a, b], s) ==
            var t := Drawn(a, s);
            if t.None? || |t.value| > MAX_STACK_SIZE then None
            else
              var u := Drawn(b, t.value);
              if u.None? || |u.value| > MAX_STACK_SIZE then None else u
  {
    hide PictureOf, Drawn;
    assert [a, b][1..] == [b] && [b][1..] == [] && [a, b][0] == a && [a, b][1] == b;
    var t := Drawn(a, s);
    if t.Some? && |t.value| <= MAX_STACK_SIZE {
      assert DrawnAll([b], t.value) ==
        var u := Drawn(b, t.value); if u.None? || |u.value| > MAX_STACK_SIZE then None else u;
    }
  }

  /** Drawing q after p, when p leaves all that q takes. */
  function Composed(p: Picture, q: Picture): (r: Picture)
    requires Within(p.leave, p.take) && Within(q.leave, q.take) && q.take <= |p.leave|
    ensures r.take == p.take && Within(r.leave, r.take)
  {
    var kept := |p.leave| - q.take;
    Picture(p.take, seq(kept + |q.leave|, k requires 0 <= k < kept + |q.leave| =>
      if k < kept then p.leave[k] else p.leave[kept + q.leave[k - kept]]))
  }

  lemma ComposedAt(p: Picture, q: Picture)
    requires Within(p.leave, p.take) && Within(q.leave, q.take) && q.take <= |p.leave|
    ensures var kept, r := |p.leave| - q.take, Composed(p, q).leave;
            && |r| == kept + |q.leave| && (forall k :: 0 <= k < kept ==> r[k] == p.leave[k])
            && (forall k :: kept <= k < |r| ==> r[k] == p.leave[kept + q.leave[k - kept]])
  {
  }

  lemma AppliedAt(p: Picture, s: Stack, k: nat)
    requires Within(p.leave, p.take) && p.take <= |s| && k < |s| - p.take + |p.leave|
    ensures var base := |s| - p.take; Applied(p, s)[k] == if k < base then s[k] else s[base + p.leave[k - base]]
  {
  }

  lemma AppliedTwiceAt(p: Picture, q: Picture, s: Stack, k: nat)
    requires Within(p.leave, p.take) && Within(q.leave, q.take) && q.take <= |p.leave| && p.take <= |s|
    requires k < |s| - p.take + |p.leave| - q.take + |q.leave|
    ensures |Composed(p, q).leave| == |p.leave| - q.take + |q.leave|
    ensures Applied(q, Applied(p, s))[k] == Applied(Composed(p, q), s)[k]
  {
    hide Applied, Composed;
    var base, kept := |s| - p.take, |p.leave| - q.take;
    ComposedAt(p, q);
    AppliedAt(q, Applied(p, s), k);
    AppliedAt(Composed(p, q), s, k);
    AppliedAt(p, s, if k < base + kept then k else base + kept + q.leave[k - base - kept]);
  }

  lemma AppliedTwice(p: Picture, q: Picture, s: Stack)
    requires Within(p.leave, p.take) && Within(q.leave, q.take) && q.take <= |p.leave| && p.take <= |s|
    ensures Applied(q, Applied(p, s)) == Applied(Composed(p, q), s)
  {
    hide Applied, Composed;
    ComposedAt(p, q);
    var u, v := Applied(q, Applied(p, s)), Applied(Composed(p, q), s);
    assert |u| == |v|;
    forall k: nat | k < |u| ensures u[k] == v[k] {
      AppliedTwiceAt(p, q, s, k);
    }
  }

  /** Leaves the taken items as they were. */
  predicate Unmoved(p: Picture) {
    |p.leave| == p.take && forall k :: 0 <= k < p.take ==> p.leave[k] == k
  }

  lemma UnmovedApplied(p: Picture, s: Stack)
    requires Unmoved(p) && p.take <= |s|
    ensures Applied(p, s) == s
  {
    var t := Applied(p, s);
    forall k | 0 <= k < |s| ensures t[k] == s[k] {
      if k >= |s| - p.take { assert p.leave[k - (|s| - p.take)] == k - (|s| - p.take); }
    }
  }

  lemma TwoCancel(c: Crypto, a: Byte, b: Byte, s: Stack)
    requires PictureOf(a).Some? && PictureOf(b).Some?
    requires var p, q := PictureOf(a).value, PictureOf(b).value;
             p.take <= |s| && q.take <= |p.leave| && Unmoved(Composed(p, q)) && |Applied(p, s)| <= MAX_STACK_SIZE
    requires |s| <= MAX_STACK_SIZE
    ensures Identity(c, [a, b], s)
  {
    hide PictureOf, Eval, Composed;
    var p, q := PictureOf(a).value, PictureOf(b).value;
    AppliedTwice(p, q, s);
    UnmovedApplied(Composed(p, q), s);
    DrawTwo(a, b, s);
    PicturesCompose(c, [a, b], s);
  }

  lemma ExchangesCancel(c: Crypto, s: Stack)
    requires |s| <= MAX_STACK_SIZE
    ensures |s| >= 2 ==> Identity(c, [OP_SWAP, OP_SWAP], s)
    ensures |s| >= 4 ==> Identity(c, [OP_2SWAP, OP_2SWAP], s)
  {
    hide Identity, Applied;
    if |s| >= 2 { TwoCancel(c, OP_SWAP, OP_SWAP, s); }
    if |s| >= 4 { TwoCancel(c, OP_2SWAP, OP_2SWAP, s); }
  }

  lemma CopiesCancel(c: Crypto, s: Stack)
    ensures 1 <= |s| < MAX_STACK_SIZE ==> Identity(c, [OP_DUP, OP_DROP], s) && Identity(c, [OP_DUP, OP_NIP], s)
    ensures 2 <= |s| < MAX_STACK_SIZE ==> Identity(c, [OP_OVER, OP_DROP], s)
  {
    hide Identity, Applied;
    if 1 <= |s| < MAX_STACK_SIZE { TwoCancel(c, OP_DUP, OP_DROP, s); }
    if 1 <= |s| < MAX_STACK_SIZE { TwoCancel(c, OP_DUP, OP_NIP, s); }
    if 2 <= |s| < MAX_STACK_SIZE { TwoCancel(c, OP_OVER, OP_DROP, s); }
  }

  /** Exchanging twice changes nothing, and neither does undoing a copy. */
  lemma PairsThatCancel(c: Crypto, s: Stack)
    requires |s| <= MAX_STACK_SIZE
    ensures |s| >= 2 ==> Identity(c, [OP_SWAP, OP_SWAP], s)
    ensures |s| >= 4 ==> Identity(c, [OP_2SWAP, OP_2SWAP], s)
    ensures 1 <= |s| <= MAX_STACK_SIZE - 1 ==> Identity(c, [OP_DUP, OP_DROP], s) && Identity(c, [OP_DUP, OP_NIP], s)
    ensures 2 <= |s| <= MAX_STACK_SIZE - 1 ==> Identity(c, [OP_OVER, OP_DROP], s)
    ensures 2 <= |s| <= MAX_STACK_SIZE - 2 ==> Identity(c, [OP_2DUP, OP_2DROP], s)
    ensures 4 <= |s| <= MAX_STACK_SIZE - 2 ==> Identity(c, [OP_2OVER, OP_2DROP], s)
  {
    hide Identity, Applied;
    ExchangesCancel(c, s);
    CopiesCancel(c, s);
    if 2 <= |s| <= MAX_STACK_SIZE - 2 { TwoCancel(c, OP_2DUP, OP_2DROP, s); }
    if 4 <= |s| <= MAX_STACK_SIZE - 2 { TwoCancel(c, OP_2OVER, OP_2DROP, s); }
  }

  lemma RotationPictures()
    ensures var p := PictureOf(OP_ROT).value; Unmoved(Composed(Composed(p, p), p))
  {
    var p := Picture(3, [1, 2, 0]);
    assert PictureOf(OP_ROT) == Some(p);
    hide Composed, PictureOf;
    var pp := Composed(p, p);
    ComposedAt(p, p);
    assert pp.leave == [2, 0, 1];
    ComposedAt(pp, p);
  }

  lemma PairRotationPictures()
    ensures var p := PictureOf(OP_2ROT).value; Unmoved(Composed(Composed(p, p), p))
  {
    var p := Picture(6, [2, 3, 4, 5, 0, 1]);
    assert PictureOf(OP_2ROT) == Some(p);
    hide Composed, PictureOf;
    var pp := Composed(p, p);
    ComposedAt(p, p);
    assert pp.leave == [4, 5, 0, 1, 2, 3];
    ComposedAt(pp, p);
  }

  /** Rotating three items, or three pairs, three times changes nothing. */
  lemma RotationsCancel(c: Crypto, s: Stack)
    requires |s| <= MAX_STACK_SIZE
    ensures |s| >= 3 ==> Identity(c, [OP_ROT, OP_ROT, OP_ROT], s)
    ensures |s| >= 6 ==> Identity(c, [OP_2ROT, OP_2ROT, OP_2ROT], s)
  {
    hide Identity, Applied, Composed, Unmoved;
    RotationPictures();
    PairRotationPictures();
    if |s| >= 3 { ThreeCancel(c, OP_ROT, s); }
    if |s| >= 6 { ThreeCancel(c, OP_2ROT, s); }
  }

  lemma ThreeCancel(c: Crypto, a: Byte, s: Stack)
    requires PictureOf(a).Some?
    requires var p := PictureOf(a).value;
             p.take <= |s| && p.take == |p.leave| && Unmoved(Composed(Composed(p, p), p))
    requires |s| <= MAX_STACK_SIZE
    ensures Identity(c, [a, a, a], s)
  {
    hide PictureOf, Eval, Composed;
    var p := PictureOf(a).value;
    var pp := Composed(p, p);
    AppliedTwice(p, p, s);
    AppliedTwice(pp, p, s);
    UnmovedApplied(Composed(pp, p), s);
    assert [a, a, a][1..] == [a, a] && [a, a, a][0] == a;
    var t := Applied(p, s);
    assert DrawnAll([a, a, a], s) == DrawnAll([a, a], t);
    DrawTwo(a, a, t);
    PicturesCompose(c, [a, a, a], s);
  }

  /** Two runs that agree on every stack within the limit, also when both fail. */
  ghost predicate SameRuns(c: Crypto, a: Script, b: Script) {
    forall s: Stack :: |s| <= MAX_STACK_SIZE ==> Eval(c, a, s) == Eval(c, b, s)
  }

  /** The operations that are short for two others. */
  lemma Abbreviations(c: Crypto)
    ensures SameRuns(c, [OP_NIP], [OP_SWAP, OP_DROP])
    ensures SameRuns(c, [OP_TUCK], [OP_SWAP, OP_OVER])
    ensures SameRuns(c, [OP_2DUP], [OP_OVER, OP_OVER])
  {
    hide SameRuns;
    Abbreviates(c, OP_NIP, OP_SWAP, OP_DROP);
    Abbreviates(c, OP_TUCK, OP_SWAP, OP_OVER);
    Abbreviates(c, OP_2DUP, OP_OVER, OP_OVER);
  }

  lemma Abbreviates(c: Crypto, short: Byte, a: Byte, b: Byte)
    requires PictureOf(short).Some? && PictureOf(a).Some? && PictureOf(b).Some?
    requires var p, q := PictureOf(a).value, PictureOf(b).value;
             q.take <= |p.leave| && PictureOf(short).value == Composed(p, q)
    requires var p := PictureOf(a).value;
             |p.leave| <= p.take || |p.leave| <= |PictureOf(short).value.leave|
    ensures SameRuns(c, [short], [a, b])
  {
    hide PictureOf, Eval, Composed;
    var p, q := PictureOf(a).value, PictureOf(b).value;
    assert [short][1..] == [];
    forall s: Stack | |s| <= MAX_STACK_SIZE ensures Eval(c, [short], s) == Eval(c, [a, b], s) {
      DrawTwo(a, b, s);
      PicturesCompose(c, [short], s);
      PicturesCompose(c, [a, b], s);
      if p.take <= |s| {
        AppliedTwice(p, q, s);
      }
      assert DrawnAll([short], s) == DrawnAll([a, b], s);
    }
  }

  // ----- Operations on values -----

  /** VERIFY, IFDUP, SIZE, TOALTSTACK and the hashes, on a stack with x on top. */
  lemma TopItemLaw(c: Crypto, script: Script, m: Machine, base: Stack, x: Value)
    requires Before(script, m) && m.stack == base + [x]
    ensures var op := script[m.pc];
            && (op == OP_VERIFY ==> LeavesIf(c, script, m, FromVch(x) != 0, base))
            && (op == OP_IFDUP ==> Leaves(c, script, m, if FromVch(x) != 0 then base + [x, x] else base + [x]))
            && (op == OP_SIZE ==> Leaves(c, script, m, base + [x, ToVch(|x|)]))
            && (op == OP_TOALTSTACK ==> LeavesBoth(c, script, m, base, m.alt + [x]))
            && (OP_RIPEMD160 <= op <= OP_HASH256 ==> Leaves(c, script, m, base + [c.hash(op, x)]))
  {
    hide LeavesBoth, Fails, Truthy, FromVch, ToVch, CastToBigNum;
    var op := script[m.pc];
    if op in [OP_VERIFY, OP_IFDUP, OP_SIZE, OP_TOALTSTACK] || OP_RIPEMD160 <= op <= OP_HASH256 {
      PlainRuns(c, script, m);
      TruthIsNonZero(x);
      assert Top(m.stack, 1) == x && Drop(m.stack, 1) == base;
      assert base + [x] + [x] == base + [x, x];
      assert base + [x] + [ToVch(|x|)] == base + [x, ToVch(|x|)];
    }
  }

  /** NOP, DEPTH and FROMALTSTACK. */
  lemma NoOperandLaw(c: Crypto, script: Script, m: Machine)
    requires Before(script, m)
    ensures var op, n := script[m.pc], |m.alt|;
            && (op == OP_NOP || OP_NOP1 <= op <= OP_NOP10 ==> Leaves(c, script, m, m.stack))
            && (op == OP_DEPTH ==> Leaves(c, script, m, m.stack + [ToVch(|m.stack|)]))
            && (op == OP_FROMALTSTACK ==>
                  if n == 0 then Fails(c, script, m)
                  else LeavesBoth(c, script, m, m.stack + [m.alt[n - 1]], m.alt[..n - 1]))
  {
    hide LeavesBoth, Fails, ToVch, PickOp;
    var op := script[m.pc];
    if op in [OP_NOP, OP_DEPTH, OP_FROMALTSTACK] || OP_NOP1 <= op <= OP_NOP10 {
      PlainRuns(c, script, m);
    }
  }

  /** EQUAL and EQUALVERIFY compare the two top items byte by byte. */
  lemma EqualLaw(c: Crypto, script: Script, m: Machine, base: Stack, x: Value, y: Value)
    requires Before(script, m) && m.stack == base + [x, y]
    ensures var op := script[m.pc];
            && (op == OP_EQUAL ==> Leaves(c, script, m, base + [if x == y then [1] else []]))
            && (op == OP_EQUALVERIFY ==> LeavesIf(c, script, m, x == y, base))
  {
    hide LeavesBoth, Fails, PickOp;
    var op := script[m.pc];
    if op in [OP_EQUAL, OP_EQUALVERIFY] {
      PlainRuns(c, script, m);
      assert Top(m.stack, 1) == y && Top(m.stack, 2) == x && Drop(m.stack, 2) == base;
    }
  }

  /** Arithmetic on one number; operands longer than four bytes fail. */
  lemma UnaryLaw(c: Crypto, script: Script, m: Machine, base: Stack, x: Value)
    requires Before(script, m) && m.stack == base + [x]
    ensures var op, fits, a := script[m.pc], |x| <= 4, FromVch(x);
            && (op == OP_1ADD ==> LeavesIf(c, script, m, fits, base + [ToVch(a + 1)]))
            && (op == OP_1SUB ==> LeavesIf(c, script, m, fits, base + [ToVch(a - 1)]))
            && (op == OP_NEGATE ==> LeavesIf(c, script, m, fits, base + [ToVch(-a)]))
            && (op == OP_ABS ==> LeavesIf(c, script, m, fits, base + [ToVch(if a < 0 then -a else a)]))
            && (op == OP_NOT ==> LeavesIf(c, script, m, fits, base + [Flag(a == 0)]))
            && (op == OP_0NOTEQUAL ==> LeavesIf(c, script, m, fits, base + [Flag(a != 0)]))
  {
    hide LeavesBoth, Fails, FromVch, ToVch, CastToBigNum;
    var op := script[m.pc];
    if op in [OP_1ADD, OP_1SUB, OP_NEGATE, OP_ABS, OP_NOT, OP_0NOTEQUAL] {
      PlainRuns(c, script, m);
      FlagBytes();
      assert Top(m.stack, 1) == x && Drop(m.stack, 1) == base;
      if |x| <= 4 { CastIsValue(x); } else { CastFails(x); }
    }
  }

  function Flag(b: bool): Value { if b then [1] else [] }

  lemma FlagBytes()
    ensures ToVch(0) == Flag(false) && ToVch(1) == Flag(true)
    ensures Truthy(Flag(true)) && !Truthy(Flag(false))
  {
    var t: Value := [1];
    assert t[0] == 1;
  }

  lemma CastFails(x: Value)
    requires |x| > 4
    ensures CastToBigNum(x).None?
  {
  }

  /** The numeric answer of a binary operation. */
  ghost predicate Gives(c: Crypto, script: Script, m: Machine, opcode: Byte, base: Stack, x: Value, y: Value, v: Value)
    requires Before(script, m)
  {
    script[m.pc] == opcode ==> LeavesIf(c, script, m, |x| <= 4 && |y| <= 4, base + [v])
  }

  /** Arithmetic and comparison of two numbers, the right one on top. */
  lemma BinaryLaw(c: Crypto, script: Script, m: Machine, base: Stack, x: Value, y: Value)
    requires Before(script, m) && m.stack == base + [x, y]
    ensures var a, b := FromVch(x), FromVch(y);
            && Gives(c, script, m, OP_ADD, base, x, y, ToVch(a + b))
            && Gives(c, script, m, OP_SUB, base, x, y, ToVch(a - b))
            && Gives(c, script, m, OP_BOOLAND, base, x, y, Flag(a != 0 && b != 0))
            && Gives(c, script, m, OP_BOOLOR, base, x, y, Flag(a != 0 || b != 0))
            && Gives(c, script, m, OP_NUMEQUAL, base, x, y, Flag(a == b))
            && Gives(c, script, m, OP_NUMNOTEQUAL, base, x, y, Flag(a != b))
            && Gives(c, script, m, OP_LESSTHAN, base, x, y, Flag(a < b))
            && Gives(c, script, m, OP_GREATERTHAN, base, x, y, Flag(a > b))
            && Gives(c, script, m, OP_LESSTHANOREQUAL, base, x, y, Flag(a <= b))
            && Gives(c, script, m, OP_GREATERTHANOREQUAL, base, x, y, Flag(a >= b))
            && Gives(c, script, m, OP_MIN, base, x, y, ToVch(if a <= b then a else b))
            && Gives(c, script, m, OP_MAX, base, x, y, ToVch(if a <= b then b else a))
            && (script[m.pc] == OP_NUMEQUALVERIFY ==>
                  LeavesIf(c, script, m, |x| <= 4 && |y| <= 4 && a == b, base))
  {
    hide LeavesBoth, Fails, FromVch, ToVch, CastToBigNum, Truthy;
    var op := script[m.pc];
    if op in [OP_ADD, OP_SUB] || OP_BOOLAND <= op <= OP_MAX {
      PlainRuns(c, script, m);
      FlagBytes();
      assert Top(m.stack, 1) == y && Top(m.stack, 2) == x && Drop(m.stack, 2) == base;
      if |x| <= 4 { CastIsValue(x); } else { CastFails(x); }
      if |y| <= 4 { CastIsValue(y); } else { CastFails(y); }
    }
  }

  /** WITHIN: at least the lower and less than the upper bound. */
  lemma WithinLaw(c: Crypto, script: Script, m: Machine, base: Stack, x: Value, lo: Value, hi: Value)
    requires Before(script, m) && m.stack == base + [x, lo, hi] && script[m.pc] == OP_WITHIN
    ensures LeavesIf(c, script, m, |x| <= 4 && |lo| <= 4 && |hi| <= 4,
                     base + [Flag(FromVch(lo) <= FromVch(x) < FromVch(hi))])
  {
    hide LeavesBoth, Fails, FromVch, ToVch, CastToBigNum;
    PlainRuns(c, script, m);
    assert Top(m.stack, 1) == hi && Top(m.stack, 2) == lo && Top(m.stack, 3) == x && Drop(m.stack, 3) == base;
    if |x| <= 4 { CastIsValue(x); } else { CastFails(x); }
    if |lo| <= 4 { CastIsValue(lo); } else { CastFails(lo); }
    if |hi| <= 4 { CastIsValue(hi); } else { CastFails(hi); }
  }

  lemma NumberRange(v: Value)
    requires |v| <= 4
    ensures -INT_MAX <= FromVch(v) <= INT_MAX
  {
    if v != [] {
      var n := |v| - 1;
      var init, last := v[..n], v[n] % 128;
      LeValueAppend(init, [last]);
      LeValueBound(init);
      assert LeValue([last]) == last by { assert [last][1..] == []; }
      PowersOf256();
      assert Pow256(n) * last <= Pow256(n) * 127;
    }
  }

  lemma PowersOf256()
    ensures Pow256(0) == 1 && Pow256(1) == 256 && Pow256(2) == 65536 && Pow256(3) == 16777216
  {
  }

  /** PICK copies the item with that many items above it, ROLL moves it; all others stay in place. */
  lemma PickRollLaw(c: Crypto, script: Script, m: Machine, base: Stack, x: Value, above: Stack, k: Value)
    requires Before(script, m) && m.stack == base + [x] + above + [k]
    requires |k| <= 4 && FromVch(k) == |above|
    ensures script[m.pc] == OP_PICK ==> Leaves(c, script, m, base + [x] + above + [x])
    ensures script[m.pc] == OP_ROLL ==> Leaves(c, script, m, base + above + [x])
  {
    hide LeavesBoth, Fails, FromVch, ToVch, CastToBigNum;
    if script[m.pc] in [OP_PICK, OP_ROLL] {
      PlainRuns(c, script, m);
      CastIsValue(k);
      NumberRange(k);
      var s, n := base + [x] + above, |above|;
      assert Top(m.stack, 1) == k && Drop(m.stack, 1) == s;
      assert Top(s, n + 1) == x && s[..|s| - n - 1] == base && s[|s| - n..] == above;
    }
  }

  /** Both fail on a depth that is no number, negative, or at least the number of items below it. */
  lemma PickRollFails(c: Crypto, script: Script, m: Machine, below: Stack, k: Value)
    requires Before(script, m) && m.stack == below + [k] && script[m.pc] in [OP_PICK, OP_ROLL]
    requires |k| > 4 || FromVch(k) < 0 || FromVch(k) >= |below|
    ensures Fails(c, script, m)
  {
    hide LeavesBoth, Fails, FromVch, ToVch, CastToBigNum;
    PlainRuns(c, script, m);
    assert Top(m.stack, 1) == k && Drop(m.stack, 1) == below;
    if |k| <= 4 {
      CastIsValue(k);
      NumberRange(k);
    } else {
      CastFails(k);
    }
  }

  /** The number of items an operation with operands takes. */
  function Operands(opcode: Byte): nat {
    if PictureOf(opcode).Some? then PictureOf(opcode).value.take
    else if opcode in [OP_VERIFY, OP_IFDUP, OP_SIZE, OP_TOALTSTACK] || OP_RIPEMD160 <= opcode <= OP_HASH256 then 1
    else if opcode in [OP_1ADD, OP_1SUB, OP_NEGATE, OP_ABS, OP_NOT, OP_0NOTEQUAL] then 1
    else if opcode in [OP_PICK, OP_ROLL, OP_EQUAL, OP_EQUALVERIFY, OP_ADD, OP_SUB] then 2
    else if OP_BOOLAND <= opcode <= OP_MAX then 2
    else if opcode == OP_WITHIN then 3
    else 0
  }

  lemma TooFewItemsFails(c: Crypto, script: Script, m: Machine)
    requires Before(script, m) && |m.stack| < Operands(script[m.pc])
    ensures Fails(c, script, m)
  {
    hide LeavesBoth, Fails, FromVch, ToVch, CastToBigNum, PickOp, Truthy;
    PlainRuns(c, script, m);
  }

  predicate Reserved(opcode: Byte) {
    opcode in [0x50, 0x62, 0x65, 0x66, 0x6a, 0x89, 0x8a] || opcode > 0xb9
  }

  /** CAT to RIGHT, INVERT to XOR, 2MUL and 2DIV, MUL to RSHIFT. */
  predicate SwitchedOff(opcode: Byte) {
    opcode in [0x7e, 0x7f, 0x80, 0x81, 0x83, 0x84, 0x85, 0x86, 0x8d, 0x8e, 0x95, 0x96, 0x97, 0x98, 0x99]
  }

  lemma ReservedIsBad(c: Crypto, opcode: Byte, s: Stack, a: Stack)
    requires Reserved(opcode)
    ensures StackOp(c, opcode, s, a).BadStack?
  {
    hide PickOp, CastToBigNum, Truthy, ToVch;
  }

  /** Reserved, disabled and unknown operations fail wherever they are executed. */
  lemma UnknownFails(c: Crypto, script: Script, m: Machine)
    requires Before(script, m) && (Reserved(script[m.pc]) || SwitchedOff(script[m.pc]))
    ensures Fails(c, script, m)
  {
    hide StackOp;
    var op := Op(script[m.pc], [], 1);
    assert ReadOp(script[m.pc..]) == op;
    if Reserved(script[m.pc]) {
      ReservedIsBad(c, script[m.pc], m.stack, m.alt);
    }
  }

  /** OP_1NEGATE and OP_1 to OP_16 push their number and are not counted. */
  lemma SmallNumberLaw(c: Crypto, script: Script, m: Machine, n: int)
    requires Before(script, m) && |m.stack| + |m.alt| < MAX_STACK_SIZE
    requires n == -1 || 1 <= n <= 16
    requires script[m.pc] == (if n == -1 then 0x4f else 0x50 + n)
    ensures Run(c, script, m) == Run(c, script, m.(stack := m.stack + [ToVch(n)], pc := m.pc + 1))
  {
    hide ToVch;
    assert ReadOp(script[m.pc..]) == Op(script[m.pc], [], 1);
  }
}

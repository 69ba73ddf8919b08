/**
 * Whole scripts that push values and then operate on them.
 * Source: src/script.cpp, EvalScript; src/script.h, CScript's operator<<.
 */
module ShortScripts {
  import opened Bytes
  import opened BigNum
  import opened ScriptCodec
  import opened Interpreter
  import opened MultiSig
  import opened ScriptLaws

  // ----- The numbers that fit an operand -----

  lemma MagnitudeFits(n: nat)
    requires 0 < n <= INT_MAX
    ensures |MagnitudeBytes(n)| <= 4
  {
    var a, b := n / 256, n / 256 / 256;
    assert b < 32768 && b / 256 < 128;
    assert a >= 256 ==> |MagnitudeBytes(a)| == 1 + |MagnitudeBytes(b)|;
    assert n >= 256 ==> |MagnitudeBytes(n)| == 1 + |MagnitudeBytes(a)|;
    assert b >= 256 ==> |MagnitudeBytes(b)| == 1 + |MagnitudeBytes(b / 256)|;
  }

  /** Four bytes hold exactly the numbers of at most 31 bits and a sign. */
  lemma NumberFits(n: int)
    ensures |ToVch(n)| <= 4 <==> -INT_MAX <= n <= INT_MAX
  {
    if n != 0 && Abs(n) <= INT_MAX {
      MagnitudeFits(Abs(n));
    }
    if |ToVch(n)| <= 4 {
      VchRoundTrip(n);
      NumberRange(ToVch(n));
    }
  }

  // ----- Pushes, then operations -----

  /** The machine after the pushes. */
  function Pushed(values: seq<Value>): Machine {
    Machine(values, [], [], 0, 0, |PushAll(values)|, 0)
  }

  lemma PushedThen(c: Crypto, values: seq<Value>, ops: Script)
    requires Pushable(values) && |values| <= MAX_STACK_SIZE && |PushAll(values) + ops| <= MAX_SCRIPT_SIZE
    ensures var script := PushAll(values) + ops;
            && InScript(script, Pushed(values)) && script[|PushAll(values)|..] == ops
            && Eval(c, script, []) == Run(c, script, Pushed(values))
  {
    hide Run, PushAll;
    var script := PushAll(values) + ops;
    assert script[0..] == script;
    RunPushes(c, script, Start([]), values, ops);
    assert [] + values == values;
  }

  /** A script that is one operation on pushed values, which leaves t and no alternative stack. */
  lemma OneOperation(c: Crypto, values: seq<Value>, opcode: Byte, t: Stack)
    requires Pushable(values) && |values| <= MAX_STACK_SIZE && |PushAll(values)| < MAX_SCRIPT_SIZE
    requires |t| <= MAX_STACK_SIZE
    requires InScript(PushAll(values) + [opcode], Pushed(values))
    requires Leaves(c, PushAll(values) + [opcode], Pushed(values), t)
    ensures Eval(c, PushAll(values) + [opcode], []) == Evaluation(true, t, 0)
  {
    hide PushAll, Step;
    PushedThen(c, values, [opcode]);
  }

  function NumberScript(a: int, b: int, opcode: Byte): Script {
    PushAll([ToVch(a), ToVch(b)]) + [opcode]
  }

  ghost predicate Computes(c: Crypto, a: int, b: int, opcode: Byte, v: Value) {
    Eval(c, NumberScript(a, b, opcode), []) == Evaluation(true, [v], 0)
  }

  lemma NumberScriptRuns(c: Crypto, a: int, b: int, opcode: Byte) returns (m: Machine)
    requires -INT_MAX <= a <= INT_MAX && -INT_MAX <= b <= INT_MAX
    ensures m.stack == [] + [ToVch(a), ToVch(b)] && |ToVch(a)| <= 4 && |ToVch(b)| <= 4
    ensures Before(NumberScript(a, b, opcode), m) && NumberScript(a, b, opcode)[m.pc] == opcode
    ensures FromVch(ToVch(a)) == a && FromVch(ToVch(b)) == b
    ensures forall v: Value :: Leaves(c, NumberScript(a, b, opcode), m, [] + [v]) ==> Computes(c, a, b, opcode, v)
  {
    hide PushAll, Run, ToVch, FromVch, Leaves;
    NumberFits(a);
    NumberFits(b);
    VchRoundTrip(a);
    VchRoundTrip(b);
    var values := [ToVch(a), ToVch(b)];
    assert Pushable(values);
    PushAllSize(values);
    PushedThen(c, values, [opcode]);
    m := Pushed(values);
    var script := NumberScript(a, b, opcode);
    assert script[m.pc..][0] == opcode;
    forall v: Value | Leaves(c, script, m, [] + [v]) ensures Computes(c, a, b, opcode, v) {
      OneOperation(c, values, opcode, [] + [v]);
    }
  }

  /** Scripts that push two numbers and combine them leave the number or truth value one expects. */
  lemma ArithmeticScripts(c: Crypto, a: int, b: int)
    requires -INT_MAX <= a <= INT_MAX && -INT_MAX <= b <= INT_MAX
    ensures Computes(c, a, b, OP_ADD, ToVch(a + b)) && Computes(c, a, b, OP_SUB, ToVch(a - b))
    ensures Computes(c, a, b, OP_MIN, ToVch(if a <= b then a else b))
    ensures Computes(c, a, b, OP_MAX, ToVch(if a <= b then b else a))
    ensures Computes(c, a, b, OP_NUMEQUAL, Flag(a == b)) && Computes(c, a, b, OP_NUMNOTEQUAL, Flag(a != b))
    ensures Computes(c, a, b, OP_LESSTHAN, Flag(a < b)) && Computes(c, a, b, OP_GREATERTHAN, Flag(a > b))
    ensures Computes(c, a, b, OP_LESSTHANOREQUAL, Flag(a <= b))
    ensures Computes(c, a, b, OP_GREATERTHANOREQUAL, Flag(a >= b))
    ensures Computes(c, a, b, OP_BOOLAND, Flag(a != 0 && b != 0))
    ensures Computes(c, a, b, OP_BOOLOR, Flag(a != 0 || b != 0))
  {
    hide Computes, NumberScript, LeavesBoth, Fails, FromVch, ToVch;
    Arithmetic(c, a, b, OP_ADD);
    Arithmetic(c, a, b, OP_SUB);
    Arithmetic(c, a, b, OP_MIN);
    Arithmetic(c, a, b, OP_MAX);
    Comparison(c, a, b, OP_NUMEQUAL);
    Comparison(c, a, b, OP_NUMNOTEQUAL);
    Comparison(c, a, b, OP_LESSTHAN);
    Comparison(c, a, b, OP_GREATERTHAN);
    Comparison(c, a, b, OP_LESSTHANOREQUAL);
    Comparison(c, a, b, OP_GREATERTHANOREQUAL);
    Comparison(c, a, b, OP_BOOLAND);
    Comparison(c, a, b, OP_BOOLOR);
  }

  lemma Arithmetic(c: Crypto, a: int, b: int, opcode: Byte)
    requires -INT_MAX <= a <= INT_MAX && -INT_MAX <= b <= INT_MAX
    ensures opcode == OP_ADD ==> Computes(c, a, b, opcode, ToVch(a + b))
    ensures opcode == OP_SUB ==> Computes(c, a, b, opcode, ToVch(a - b))
    ensures opcode == OP_MIN ==> Computes(c, a, b, opcode, ToVch(if a <= b then a else b))
    ensures opcode == OP_MAX ==> Computes(c, a, b, opcode, ToVch(if a <= b then b else a))
  {
    hide Computes, NumberScript, LeavesBoth, Fails, FromVch, ToVch;
    var m := NumberScriptRuns(c, a, b, opcode);
    BinaryLaw(c, NumberScript(a, b, opcode), m, [], ToVch(a), ToVch(b));
  }

  lemma Comparison(c: Crypto, a: int, b: int, opcode: Byte)
    requires -INT_MAX <= a <= INT_MAX && -INT_MAX <= b <= INT_MAX
    ensures opcode == OP_NUMEQUAL ==> Computes(c, a, b, opcode, Flag(a == b))
    ensures opcode == OP_NUMNOTEQUAL ==> Computes(c, a, b, opcode, Flag(a != b))
    ensures opcode == OP_LESSTHAN ==> Computes(c, a, b, opcode, Flag(a < b))
    ensures opcode == OP_GREATERTHAN ==> Computes(c, a, b, opcode, Flag(a > b))
    ensures opcode == OP_LESSTHANOREQUAL ==> Computes(c, a, b, opcode, Flag(a <= b))
    ensures opcode == OP_GREATERTHANOREQUAL ==> Computes(c, a, b, opcode, Flag(a >= b))
    ensures opcode == OP_BOOLAND ==> Computes(c, a, b, opcode, Flag(a != 0 && b != 0))
    ensures opcode == OP_BOOLOR ==> Computes(c, a, b, opcode, Flag(a != 0 || b != 0))
  {
    hide Computes, NumberScript, LeavesBoth, Fails, FromVch, ToVch, Flag;
    var m := NumberScriptRuns(c, a, b, opcode);
    BinaryLaw(c, NumberScript(a, b, opcode), m, [], ToVch(a), ToVch(b));
  }

  // ----- Moving and copying items -----

  /** Pushing items and a depth, then ROLL, moves exactly the item at that depth to the top; PICK copies it. */
  lemma RollAndPickScripts(c: Crypto, base: seq<Value>, x: Value, above: seq<Value>)
    requires Pushable(base + [x] + above) && |base| + |above| + 2 <= MAX_STACK_SIZE
    requires |PushAll(base + [x] + above + [ToVch(|above|)])| < MAX_SCRIPT_SIZE
    ensures var script := PushAll(base + [x] + above + [ToVch(|above|)]);
            && Eval(c, script + [OP_ROLL], []) == Evaluation(true, base + above + [x], 0)
            && Eval(c, script + [OP_PICK], []) == Evaluation(true, base + [x] + above + [x], 0)
  {
    hide PushAll, ToVch, FromVch, LeavesBoth, Fails, Eval;
    var k := |above|;
    var values := base + [x] + above + [ToVch(k)];
    NumberFits(k);
    VchRoundTrip(k);
    assert Pushable(values) by {
      forall i | 0 <= i < |values| ensures |values[i]| <= MAX_ELEMENT_SIZE {
        if i < |values| - 1 { assert values[i] == (base + [x] + above)[i]; }
      }
    }
    AtOperation(c, values, OP_ROLL);
    AtOperation(c, values, OP_PICK);
    PickRollLaw(c, PushAll(values) + [OP_ROLL], Pushed(values), base, x, above, ToVch(k));
    PickRollLaw(c, PushAll(values) + [OP_PICK], Pushed(values), base, x, above, ToVch(k));
    OneOperation(c, values, OP_ROLL, base + above + [x]);
    OneOperation(c, values, OP_PICK, base + [x] + above + [x]);
  }

  lemma AtOperation(c: Crypto, values: seq<Value>, opcode: Byte)
    ensures Before(PushAll(values) + [opcode], Pushed(values))
    ensures (PushAll(values) + [opcode])[Pushed(values).pc] == opcode
  {
  }

  /** What goes to the alternative stack comes back. */
  lemma AltStackRoundTrip(c: Crypto, s: Stack)
    requires 1 <= |s| <= MAX_STACK_SIZE
    ensures Identity(c, [OP_TOALTSTACK, OP_FROMALTSTACK], s)
  {
    hide FromVch, ToVch, Step;
    var script: Script := [OP_TOALTSTACK, OP_FROMALTSTACK];
    var base, x := s[..|s| - 1], s[|s| - 1];
    assert s == base + [x];
    TopItemLaw(c, script, Start(s), base, x);
    var alt: Stack := [x];
    assert [] + alt == alt && alt[..0] == [];
    var m1 := After(Start(s), base, [x]);
    NoOperandLaw(c, script, m1);
    assert Run(c, script, After(m1, s, [])) == Evaluation(true, s, 0);
  }

  /** Negating twice gives back the number, in its shortest form. */
  lemma NegateTwice(c: Crypto, base: Stack, x: Value)
    requires |x| <= 4 && |base| + 1 <= MAX_STACK_SIZE
    ensures Eval(c, [OP_NEGATE, OP_NEGATE], base + [x]) == Evaluation(true, base + [ToVch(FromVch(x))], 0)
  {
    hide FromVch, ToVch, Step;
    var script: Script := [OP_NEGATE, OP_NEGATE];
    var m0, n := Start(base + [x]), FromVch(x);
    NumberRange(x);
    NumberFits(-n);
    VchRoundTrip(-n);
    UnaryLaw(c, script, m0, base, x);
    var m1 := After(m0, base + [ToVch(-n)], []);
    UnaryLaw(c, script, m1, base, ToVch(-n));
    assert Run(c, script, After(m1, base + [ToVch(n)], [])) == Evaluation(true, base + [ToVch(n)], 0);
  }

  /** Adding one and taking it away again gives back the number, except at the largest one. */
  lemma AddAndTakeOne(c: Crypto, base: Stack, x: Value)
    requires |x| <= 4 && |base| + 1 <= MAX_STACK_SIZE
    ensures Eval(c, [OP_1ADD, OP_1SUB], base + [x])
         == if FromVch(x) == INT_MAX then Evaluation(false, [], 0)
            else Evaluation(true, base + [ToVch(FromVch(x))], 0)
  {
    hide FromVch, ToVch, Step;
    var script: Script := [OP_1ADD, OP_1SUB];
    var m0, n := Start(base + [x]), FromVch(x);
    NumberRange(x);
    NumberFits(n + 1);
    VchRoundTrip(n + 1);
    UnaryLaw(c, script, m0, base, x);
    var m1 := After(m0, base + [ToVch(n + 1)], []);
    UnaryLaw(c, script, m1, base, ToVch(n + 1));
    if n < INT_MAX {
      assert Run(c, script, After(m1, base + [ToVch(n)], [])) == Evaluation(true, base + [ToVch(n)], 0);
    }
  }
}

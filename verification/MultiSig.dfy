/**
 * m-of-n signatures (BIP 11): what the greedy scan decides, and why combined
 * signature scripts are accepted.
 * Source: src/script.cpp, OP_CHECKMULTISIG, PushAll, CombineMultisig, SetMultisig.
 */
module MultiSig {
  import opened Bytes
  import opened BigNum
  import opened ScriptCodec
  import opened Interpreter
  import opened SigOps

  // ----- The scan decides whether an order-preserving assignment exists -----

  /** f sends every signature to a key that verifies it, keeping the order. */
  ghost predicate Assignment(verify: (Value, Value) -> bool, sigs: seq<Value>, keys: seq<Value>, f: seq<nat>) {
    && |f| == |sigs|
    && (forall i :: 0 <= i < |f| ==> f[i] < |keys| && verify(sigs[i], keys[f[i]]))
    && (forall i, j :: 0 <= i < j < |f| ==> f[i] < f[j])
  }

  function Shift(f: seq<nat>): (r: seq<nat>)
    ensures |r| == |f| && forall i :: 0 <= i < |f| ==> r[i] == f[i] + 1
  {
    seq(|f|, i requires 0 <= i < |f| => f[i] + 1)
  }

  function Unshift(f: seq<nat>): (r: seq<nat>)
    requires forall i :: 0 <= i < |f| ==> f[i] >= 1
    ensures |r| == |f| && forall i :: 0 <= i < |f| ==> r[i] == f[i] - 1
  {
    seq(|f|, i requires 0 <= i < |f| => f[i] - 1)
  }

  /** The assignment a successful scan finds. */
  lemma {:induction false} ScanFinds(verify: (Value, Value) -> bool, sigs: seq<Value>,
                                     keys: seq<Value>) returns (f: seq<nat>)
    requires |sigs| <= |keys| && Scan(verify, sigs, keys).ok
    ensures Assignment(verify, sigs, keys, f)
    decreases |keys|
  {
    if sigs == [] {
      f := [];
    } else if verify(sigs[0], keys[0]) {
      var g := ScanFinds(verify, sigs[1..], keys[1..]);
      f := [0] + Shift(g);
      forall i | 0 <= i < |f| ensures f[i] < |keys| && verify(sigs[i], keys[f[i]]) {
        if i > 0 { assert verify(sigs[1..][i - 1], keys[1..][g[i - 1]]); }
      }
    } else {
      var g := ScanFinds(verify, sigs, keys[1..]);
      f := Shift(g);
      forall i | 0 <= i < |f| ensures f[i] < |keys| && verify(sigs[i], keys[f[i]]) {
        assert verify(sigs[i], keys[1..][g[i]]);
      }
    }
  }

  lemma {:induction false} AssignmentFits(verify: (Value, Value) -> bool, sigs: seq<Value>, keys: seq<Value>,
                                          f: seq<nat>)
    requires Assignment(verify, sigs, keys, f)
    ensures |sigs| <= |keys|
    decreases |sigs|
  {
    var n := |sigs|;
    if n > 0 {
      var last := f[n - 1];
      forall i | 0 <= i < n - 1 ensures f[..n - 1][i] < |keys[..last]| && verify(sigs[..n - 1][i], keys[..last][f[i]]) {
        assert f[i] < f[n - 1];
      }
      AssignmentFits(verify, sigs[..n - 1], keys[..last], f[..n - 1]);
    }
  }

  lemma {:induction false} ScanSucceeds(verify: (Value, Value) -> bool, sigs: seq<Value>, keys: seq<Value>, f: seq<nat>)
    requires |sigs| <= |keys| && Assignment(verify, sigs, keys, f)
    ensures Scan(verify, sigs, keys).ok
    decreases |keys|
  {
    if sigs != [] {
      if verify(sigs[0], keys[0]) {
        assert forall i :: 1 <= i < |f| ==> f[0] < f[i];
        var g := Unshift(f[1..]);
        forall i | 0 <= i < |g| ensures g[i] < |keys[1..]| && verify(sigs[1..][i], keys[1..][g[i]]) {
          assert verify(sigs[i + 1], keys[f[i + 1]]);
        }
        ScanSucceeds(verify, sigs[1..], keys[1..], g);
      } else {
        assert f[0] >= 1 && forall i :: 1 <= i < |f| ==> f[0] < f[i];
        var g := Unshift(f);
        forall i | 0 <= i < |g| ensures g[i] < |keys[1..]| && verify(sigs[i], keys[1..][g[i]]) {
          assert verify(sigs[i], keys[f[i]]);
        }
        AssignmentFits(verify, sigs, keys[1..], g);
        ScanSucceeds(verify, sigs, keys[1..], g);
      }
    }
  }

  /** The loop succeeds exactly when a strictly order-preserving assignment exists. */
  lemma ScanDecidesAssignment(verify: (Value, Value) -> bool, sigs: seq<Value>, keys: seq<Value>)
    requires |sigs| <= |keys|
    ensures Scan(verify, sigs, keys).ok <==> exists f: seq<nat> :: Assignment(verify, sigs, keys, f)
  {
    if Scan(verify, sigs, keys).ok {
      var f := ScanFinds(verify, sigs, keys);
    }
    if f: seq<nat> :| Assignment(verify, sigs, keys, f) {
      ScanSucceeds(verify, sigs, keys, f);
    }
  }

  /** Reading both lists from the other end reverses an assignment. */
  lemma AssignmentReversed(verify: (Value, Value) -> bool, sigs: seq<Value>, keys: seq<Value>,
                           f: seq<nat>) returns (g: seq<nat>)
    requires Assignment(verify, sigs, keys, f)
    ensures Assignment(verify, Reverse(sigs), Reverse(keys), g)
  {
    var n, k := |f|, |keys|;
    g := seq(n, i requires 0 <= i < n => k - 1 - f[n - 1 - i]);
    forall i | 0 <= i < n ensures g[i] < k && verify(Reverse(sigs)[i], Reverse(keys)[g[i]]) {
      assert verify(sigs[n - 1 - i], keys[f[n - 1 - i]]);
    }
  }

  // ----- Pushing values and running the pushes -----

  function PushAll(values: seq<Value>): Script {
    if values == [] then [] else PushData(values[0]) + PushAll(values[1..])
  }

  lemma {:induction false} PushAllAppend(a: seq<Value>, b: seq<Value>)
    ensures PushAll(a + b) == PushAll(a) + PushAll(b)
  {
    hide PushData;
    if a == [] {
      assert a + b == b;
    } else {
      PushAllAppend(a[1..], b);
      assert (a + b)[1..] == a[1..] + b && (a + b)[0] == a[0];
      var x, y, z := PushData(a[0]), PushAll(a[1..]), PushAll(b);
      assert (x + y) + z == x + (y + z);
    }
  }

  lemma PushAllSnoc(a: seq<Value>, v: Value)
    ensures PushAll(a + [v]) == PushAll(a) + PushData(v)
  {
    PushAllAppend(a, [v]);
    assert [v][1..] == [] && PushAll([v]) == PushData(v) + [];
  }

  method PushValues(values: seq<Value>) returns (script: Script)
    ensures script == PushAll(values)
  {
    var result := new CScript([]);
    for i := 0 to |values|
      invariant result.bytes == PushAll(values[..i])
    {
      result.Push(values[i]);
      assert values[..i + 1] == values[..i] + [values[i]];
      PushAllSnoc(values[..i], values[i]);
    }
    assert values[..|values|] == values;
    script := result.bytes;
  }

  predicate Pushable(values: seq<Value>) {
    forall i :: 0 <= i < |values| ==> |values[i]| <= MAX_ELEMENT_SIZE
  }

  lemma PushValueStep(c: Crypto, script: Script, m: Machine, v: Value, rest: Script)
    requires InScript(script, m) && Executing(m) && script[m.pc..] == PushData(v) + rest
    requires |v| < 0x1_0000_0000
    ensures m.pc < |script| && m.pc + |PushData(v)| <= |script|
    ensures Step(c, script, m) ==
            if |v| > MAX_ELEMENT_SIZE || |m.stack| + 1 + |m.alt| > MAX_STACK_SIZE then Reject(m.calls)
            else Continue(m.(stack := m.stack + [v], pc := m.pc + |PushData(v)|))
  {
    PushReadsBack(v, rest);
    assert |PushData(v)| >= 1;
    assert |script[m.pc..]| == |script| - m.pc;
  }

  lemma {:induction false} RunPushes(c: Crypto, script: Script, m: Machine, values: seq<Value>, rest: Script)
    requires InScript(script, m) && Executing(m) && script[m.pc..] == PushAll(values) + rest
    requires Pushable(values) && |m.stack| + |values| + |m.alt| <= MAX_STACK_SIZE
    ensures m.pc + |PushAll(values)| <= |script|
    ensures Run(c, script, m) == Run(c, script, m.(stack := m.stack + values, pc := m.pc + |PushAll(values)|))
    decreases |values|
  {
    hide Step;
    assert |script[m.pc..]| == |script| - m.pc;
    if values == [] {
      assert m.(stack := m.stack + values, pc := m.pc + |PushAll(values)|) == m;
    } else {
      var v, more := values[0], PushAll(values[1..]) + rest;
      var m' := PushOne(c, script, m, v, more);
      RunPushes(c, script, m', values[1..], rest);
      assert m'.stack + values[1..] == m.stack + values;
      assert |PushAll(values)| == |PushData(v)| + |PushAll(values[1..])|;
      assert m'.(stack := m'.stack + values[1..], pc := m'.pc + |PushAll(values[1..])|)
          == m.(stack := m.stack + values, pc := m.pc + |PushAll(values)|);
    }
  }

  lemma PushOne(c: Crypto, script: Script, m: Machine, v: Value, more: Script) returns (m': Machine)
    requires InScript(script, m) && Executing(m) && script[m.pc..] == PushData(v) + more
    requires |v| <= MAX_ELEMENT_SIZE && |m.stack| + 1 + |m.alt| <= MAX_STACK_SIZE
    ensures m' == m.(stack := m.stack + [v], pc := m.pc + |PushData(v)|)
    ensures InScript(script, m') && script[m'.pc..] == more
    ensures Run(c, script, m) == Run(c, script, m')
  {
    PushValueStep(c, script, m, v, more);
    m' := m.(stack := m.stack + [v], pc := m.pc + |PushData(v)|);
    assert script[m'.pc..] == script[m.pc..][|PushData(v)|..] == more;
  }

    lemma {:induction false} RunPushesFails(c: Crypto, script: Script, m: Machine, values: seq<Value>, rest: Script)
    requires InScript(script, m) && m.exec == [] && |script| <= MAX_SCRIPT_SIZE
    requires script[m.pc..] == PushAll(values) + rest

    requires !Pushable(values) || |m.stack| + |values| + |m.alt| > MAX_STACK_SIZE
    requires |m.stack| + |m.alt| <= MAX_STACK_SIZE
    ensures !Run(c, script, m).ok
    decreases |values|
  {
        var v, more := values[0], PushAll(values[1..]) + rest;
    assert |script[m.pc..]| == |script| - m.pc;
    assert script[m.pc..] == PushData(v) + more;
    PushValueStep(c, script, m, v, more);
    if |v| <= MAX_ELEMENT_SIZE && |m.stack| + 1 + |m.alt| <= MAX_STACK_SIZE {
      var m' := m.(stack := m.stack + [v], pc := m.pc + |PushData(v)|);
      assert script[m'.pc..] == script[m.pc..][|PushData(v)|..] == more;
      assert !Pushable(values) ==> !Pushable(values[1..]) by {
        if Pushable(values[1..]) {
          assert forall i :: 1 <= i < |values| ==> values[i] == values[1..][i - 1];
        }
      }
      RunPushesFails(c, script, m', values[1..], rest);
    }
  }

  /** Running PushAll leaves exactly the values, and succeeds exactly within the limits. */
  lemma PushAllRuns(c: Crypto, values: seq<Value>)
    ensures Eval(c, PushAll(values), []).ok
       <==> |PushAll(values)| <= MAX_SCRIPT_SIZE && Pushable(values) && |values| <= MAX_STACK_SIZE
    ensures Eval(c, PushAll(values), []).ok ==> Eval(c, PushAll(values), []).stack == values
  {
    hide Step;
    var script, m := PushAll(values), Start([]);
    assert script[0..] == script + [] == script;
    if |script| <= MAX_SCRIPT_SIZE {
      if Pushable(values) && |values| <= MAX_STACK_SIZE {
        RunPushes(c, script, m, values, []);
        assert m.stack + values == values;
      } else {
        RunPushesFails(c, script, m, values, []);
      }
    }
  }

  // ----- Multi-signature outputs -----

  /** SetMultisig: required, the keys, their number, OP_CHECKMULTISIG. */
  function MultisigScript(required: nat, keys: seq<Value>): Script
    requires required <= 16 && |keys| <= 16
  {
    [EncodeOpN(required)] + PushAll(keys) + [EncodeOpN(|keys|), OP_CHECKMULTISIG]
  }

  /** The layout CombineMultisig builds: a placeholder, the signatures, then more placeholders. */
  function CombinedScript(picked: seq<Value>, required: nat): Script {
    [OP_0] + PushAll(picked) + Zeros(if required > |picked| then required - |picked| else 0)
  }

  lemma SmallIntStep(c: Crypto, script: Script, m: Machine, n: nat)
    requires InScript(script, m) && Executing(m) && m.pc < |script|
    requires 1 <= n <= 16 && script[m.pc] == EncodeOpN(n) && |m.stack| + |m.alt| < MAX_STACK_SIZE
    ensures Step(c, script, m) == Continue(m.(stack := m.stack + [ToVch(n)], pc := m.pc + 1))
  {
    assert script[m.pc..][0] == EncodeOpN(n);
    assert ReadOp(script[m.pc..]) == Op(EncodeOpN(n), [], 1);
  }

  /** The arguments laid out by a signature script followed by a multisig output. */
  function MultisigStack(picked: seq<Value>, keys: seq<Value>): Stack {
    [[]] + picked + [ToVch(|picked|)] + keys + [ToVch(|keys|)]
  }

  lemma SmallNumber(n: nat)
    requires n <= 16
    ensures CastToBigNum(ToVch(n)) == Some(n)
  {
    VchRoundTrip(n);
    assert |ToVch(n)| <= 1;
    CastIsValue(ToVch(n));
  }

  lemma MultisigArgsRead(picked: seq<Value>, keys: seq<Value>, opCount: nat)
    requires |picked| <= |keys| <= 16 && opCount <= 100
    ensures ReadMultiSigArgs(MultisigStack(picked, keys), opCount)
         == MultiSigArgs(Reverse(keys), Reverse(picked), |keys| + |picked| + 3)
  {
    hide ToVch, CastToBigNum;
    var s := MultisigStack(picked, keys);
    var k, n := |keys|, |picked|;
    assert Top(s, 1) == ToVch(k) && Top(s, k + 2) == ToVch(n);
    SmallNumber(k);
    SmallNumber(n);
    var a := ReadMultiSigArgs(s, opCount);
    assert a.MultiSigArgs? && |a.keys| == k && |a.sigs| == n;
    assert a.keys == Reverse(keys);
    assert a.sigs == Reverse(picked);
  }

  lemma {:induction false} DeleteNothing(code: Script, sigs: seq<Value>)
    requires forall s :: s in sigs ==> Deleted(code, PushData(s)) == code
    ensures DeleteAll(code, sigs) == code
    decreases |sigs|
  {
    if sigs != [] {
      assert sigs[0] in sigs;
      DeleteNothing(code, sigs[1..]);
    }
  }

  lemma CheckSucceeds(c: Crypto, script: Script, m: Machine, picked: seq<Value>, keys: seq<Value>, f: seq<nat>)
    returns (calls: nat)
    requires m.codeStart == 0 && m.opCount == 1
    requires |picked| <= |keys| <= 16 && m.stack == MultisigStack(picked, keys)
    requires Assignment(Verifier(c, script), picked, keys, f)
    requires forall s :: s in picked ==> Deleted(script, PushData(s)) == script
    ensures CheckMultiSigOp(c, script, m, OP_CHECKMULTISIG)
         == Continue(m.(stack := [TRUE_VALUE], opCount := 1 + |keys|, calls := calls))
  {
    hide ReadMultiSigArgs, Scan, Deleted, DeleteAll, ToVch, PushData;
    MultisigArgsRead(picked, keys, 1);
    var sigs := Reverse(picked);
    assert forall s :: s in sigs ==> s in picked;
    assert script[0..] == script;
    DeleteNothing(script, sigs);
    var g := AssignmentReversed(Verifier(c, script), picked, keys, f);
    ScanSucceeds(Verifier(c, script), sigs, Reverse(keys), g);
    assert Drop(m.stack, |keys| + |picked| + 3) == [];
    assert [] + [TRUE_VALUE] == [TRUE_VALUE];
    calls := m.calls + Scan(Verifier(c, script), sigs, Reverse(keys)).calls;
  }

  lemma CheckStep(c: Crypto, script: Script, m: Machine, picked: seq<Value>, keys: seq<Value>, f: seq<nat>)
    requires InScript(script, m) && m.pc + 1 == |script| && script[m.pc] == OP_CHECKMULTISIG
    requires m.codeStart == 0 && m.exec == [] && m.alt == [] && m.opCount == 0
    requires |picked| <= |keys| <= 16 && m.stack == MultisigStack(picked, keys)
    requires Assignment(Verifier(c, script), picked, keys, f)
    requires forall s :: s in picked ==> Deleted(script, PushData(s)) == script
    ensures Run(c, script, m).ok && Run(c, script, m).stack == [TRUE_VALUE]
  {
    hide Run, StackOp, CheckMultiSigOp;
    var op := Op(OP_CHECKMULTISIG, [], 1);
    assert ReadOp(script[m.pc..]) == op;
    var m1 := Advance(m, op);
    var calls := CheckSucceeds(c, script, m1, picked, keys, f);
    var m2 := m1.(stack := [TRUE_VALUE], opCount := 1 + |keys|, calls := calls);
    assert Execute(c, script, m1, op) == Continue(m2);
    assert Step(c, script, m) == Continue(m2);
    CheckEnds(c, script, m, m2);
  }

  lemma CheckEnds(c: Crypto, script: Script, m: Machine, m2: Machine)
    requires InScript(script, m) && m.pc + 1 == |script| && Step(c, script, m) == Continue(m2)
    requires m2.pc == |script| && m2.exec == []
    ensures Run(c, script, m).ok && Run(c, script, m).stack == m2.stack
  {
    hide Step;
  }

  lemma RunStep(c: Crypto, script: Script, m: Machine)
    requires InScript(script, m) && m.pc < |script| && Step(c, script, m).Continue?
    ensures Run(c, script, m) == Run(c, script, Step(c, script, m).m)
  {
  }

  lemma MultisigOutputAccepts(c: Crypto, picked: seq<Value>, keys: seq<Value>, f: seq<nat>)
    requires 1 <= |picked| <= |keys| <= 16 && Pushable(keys)
    requires |MultisigScript(|picked|, keys)| <= MAX_SCRIPT_SIZE
    requires Assignment(Verifier(c, MultisigScript(|picked|, keys)), picked, keys, f)
    requires forall s :: s in picked ==>
              Deleted(MultisigScript(|picked|, keys), PushData(s)) == MultisigScript(|picked|, keys)
    ensures Eval(c, MultisigScript(|picked|, keys), [[]] + picked).ok
    ensures Eval(c, MultisigScript(|picked|, keys), [[]] + picked).stack == [TRUE_VALUE]
  {
    hide Step;
    var k, script := |keys|, MultisigScript(|picked|, keys);
    var rest := [EncodeOpN(k), OP_CHECKMULTISIG];
    var body := 1 + |PushAll(keys)|;
    assert script[1..] == PushAll(keys) + rest;
    assert script[body] == EncodeOpN(k) && script[body + 1] == OP_CHECKMULTISIG && |script| == body + 2;
    var m0 := Start([[]] + picked);
    SmallIntStep(c, script, m0, |picked|);
    RunStep(c, script, m0);
    var m1 := m0.(stack := m0.stack + [ToVch(|picked|)], pc := 1);
    RunPushes(c, script, m1, keys, rest);
    var m2 := m1.(stack := m1.stack + keys, pc := body);
    SmallIntStep(c, script, m2, k);
    RunStep(c, script, m2);
    var m3 := m2.(stack := m2.stack + [ToVch(k)], pc := body + 1);
    assert m3.stack == MultisigStack(picked, keys);
    CheckStep(c, script, m3, picked, keys, f);
  }

  lemma CombinedRuns(c: Crypto, picked: seq<Value>)
    requires Pushable(picked) && |picked| <= 16 && |CombinedScript(picked, |picked|)| <= MAX_SCRIPT_SIZE
    ensures Eval(c, CombinedScript(picked, |picked|), []).ok
    ensures Eval(c, CombinedScript(picked, |picked|), []).stack == [[]] + picked
  {
    var values: seq<Value> := [[]] + picked;
    assert values[1..] == picked && values[0] == [];
    assert PushData([]) == [OP_0];
    assert CombinedScript(picked, |picked|) == PushAll(values);
    PushAllRuns(c, values);
  }

  /** Sixteen pushes of allowed size fit in a script. */
  lemma {:induction false} PushAllSize(values: seq<Value>)
    requires Pushable(values)
    ensures |PushAll(values)| <= 523 * |values|
    decreases |values|
  {
    if values != [] {
      assert Pushable(values[1..]);
      PushAllSize(values[1..]);
    }
  }

  /** A combined script that holds the required number of signatures is accepted. */
  lemma CombinedIsAccepted(c: Crypto, picked: seq<Value>, keys: seq<Value>, f: seq<nat>, p2sh: bool)
    requires 1 <= |picked| <= |keys| <= 16 && Pushable(keys) && Pushable(picked)
    requires Assignment(Verifier(c, MultisigScript(|picked|, keys)), picked, keys, f)
    requires forall s :: s in picked ==>
              Deleted(MultisigScript(|picked|, keys), PushData(s)) == MultisigScript(|picked|, keys)
    ensures VerifyScript(c, CombinedScript(picked, |picked|), MultisigScript(|picked|, keys), p2sh).ok
  {
    PushAllSize(picked);
    PushAllSize(keys);
    CombinedRuns(c, picked);
    MultisigOutputAccepts(c, picked, keys, f);
    assert !IsPayToScriptHash(MultisigScript(|picked|, keys));
    assert Truthy(TRUE_VALUE) by { assert TRUE_VALUE[0] == 1; }
  }

  // ----- CombineMultisig -----

  ghost predicate Matched(c: Crypto, code: Script, matches: map<Value, Value>) {
    forall k :: k in matches ==> c.checkSig(matches[k], k, code)
  }

  /** The first key from position i on without a signature that sig verifies for. */
  function FirstKey(c: Crypto, code: Script, keys: seq<Value>, sig: Value, matches: map<Value, Value>,
                    i: nat): (r: Option<nat>)
    requires i <= |keys|
    ensures r.Some? ==> i <= r.value < |keys| && keys[r.value] !in matches && c.checkSig(sig, keys[r.value], code)
    ensures r.None? ==> forall j :: i <= j < |keys| && keys[j] !in matches ==> !c.checkSig(sig, keys[j], code)
    decreases |keys| - i
  {
    if i == |keys| then None
    else if keys[i] !in matches && c.checkSig(sig, keys[i], code) then Some(i)
    else FirstKey(c, code, keys, sig, matches, i + 1)
  }

  function MatchOne(c: Crypto, code: Script, keys: seq<Value>, sig: Value,
                    matches: map<Value, Value>): map<Value, Value> {
    var k := FirstKey(c, code, keys, sig, matches, 0);
    if k.Some? then matches[keys[k.value] := sig] else matches
  }

  /** Gives one signature to the first key without one that it verifies for. */
  method MatchSignature(c: Crypto, code: Script, keys: seq<Value>, sig: Value, matches: map<Value, Value>)
    returns (r: map<Value, Value>)
    ensures r == MatchOne(c, code, keys, sig, matches)
  {
    r := matches;
    for i := 0 to |keys|
      invariant r == matches
      invariant FirstKey(c, code, keys, sig, matches, i) == FirstKey(c, code, keys, sig, matches, 0)
    {
      if keys[i] in r { continue; }
      if c.checkSig(sig, keys[i], code) {
        r := r[keys[i] := sig];
        return;
      }
    }
  }

  /** A signature tried and not used verifies for no key that has none; no signature is used twice. */
  ghost predicate Maximal(c: Crypto, code: Script, keys: seq<Value>, tried: set<Value>, matches: map<Value, Value>) {
    && Matched(c, code, matches) && (forall k :: k in matches ==> k in keys && matches[k] in tried)
    && (forall k, l :: k in matches && l in matches && matches[k] == matches[l] ==> k == l)
    && (forall s, k :: s in tried && k in keys && k !in matches && c.checkSig(s, k, code) ==> s in matches.Values)
  }

  lemma MatchOneMaximal(c: Crypto, code: Script, keys: seq<Value>, tried: set<Value>, sig: Value,
                        matches: map<Value, Value>)
    requires Maximal(c, code, keys, tried, matches) && sig !in tried
    ensures Maximal(c, code, keys, tried + {sig}, MatchOne(c, code, keys, sig, matches))
  {
    hide FirstKey;
    var k := FirstKey(c, code, keys, sig, matches, 0);
    var r := MatchOne(c, code, keys, sig, matches);
    if k.Some? { assert r[keys[k.value]] == sig; }
    forall s, x | s in tried + {sig} && x in keys && x !in r && c.checkSig(s, x, code) ensures s in r.Values {
      if s == sig {
        var j :| 0 <= j < |keys| && keys[j] == x;
        assert k.Some?;
      } else {
        assert s in matches.Values;
        var y :| y in matches && matches[y] == s;
        assert r[y] == s;
      }
    }
  }

  /** Builds the key-to-signature map; the set of signatures may be visited in any order. */
  method MatchSignatures(c: Crypto, code: Script, keys: seq<Value>,
                         all: set<Value>) returns (matches: map<Value, Value>)
    ensures Maximal(c, code, keys, all, matches)
  {
    hide Maximal, MatchOne;
    matches := map[];
    var left := all;
    assert all - left == {};
    assert Maximal(c, code, keys, {}, map[]) by { NoneMatched(c, code, keys); }
    while left != {}
      invariant left <= all && Maximal(c, code, keys, all - left, matches)
      decreases |left|
    {
      var sig :| sig in left;
      MatchOneMaximal(c, code, keys, all - left, sig, matches);
      matches := MatchSignature(c, code, keys, sig, matches);
      assert all - left + {sig} == all - (left - {sig});
      left := left - {sig};
    }
    assert all - left == all;
  }

  lemma NoneMatched(c: Crypto, code: Script, keys: seq<Value>)
    ensures Maximal(c, code, keys, {}, map[])
  {
  }

  /** Some given signature verifies for the key. */
  ghost predicate Verifiable(c: Crypto, code: Script, all: set<Value>, k: Value) {
    exists s :: s in all && c.checkSig(s, k, code)
  }

  /** No signature verifies for two of the keys. */
  ghost predicate OneKeyEach(c: Crypto, code: Script, keys: seq<Value>, all: set<Value>) {
    forall s, k, l :: s in all && k in keys && l in keys && c.checkSig(s, k, code) && c.checkSig(s, l, code) ==> k == l
  }

  /** Then every key that some signature verifies for gets one. */
  lemma AllMatched(c: Crypto, code: Script, keys: seq<Value>, all: set<Value>, matches: map<Value, Value>, k: Value)
    requires Maximal(c, code, keys, all, matches) && OneKeyEach(c, code, keys, all) && k in keys
    ensures k in matches <==> Verifiable(c, code, all, k)
  {
    if k in matches {
      assert matches[k] in all && c.checkSig(matches[k], k, code);
    }
  }

  /** How many of the first n keys have a signature. */
  function CountMatched(keys: seq<Value>, matches: map<Value, Value>, n: nat): (r: nat)
    requires n <= |keys|
    ensures r <= n
  {
    if n == 0 then 0 else CountMatched(keys, matches, n - 1) + if keys[n - 1] in matches then 1 else 0
  }

  /** How many of the first n keys some given signature verifies for. */
  ghost function CountVerifiable(c: Crypto, code: Script, keys: seq<Value>, all: set<Value>, n: nat): nat
    requires n <= |keys|
  {
    if n == 0 then 0
    else CountVerifiable(c, code, keys, all, n - 1) + if Verifiable(c, code, all, keys[n - 1]) then 1 else 0
  }

  lemma {:induction false} CountsAgree(c: Crypto, code: Script, keys: seq<Value>, all: set<Value>,
                                       matches: map<Value, Value>, n: nat)
    requires Maximal(c, code, keys, all, matches) && OneKeyEach(c, code, keys, all) && n <= |keys|
    ensures CountMatched(keys, matches, n) == CountVerifiable(c, code, keys, all, n)
    decreases n
  {
    hide Maximal, OneKeyEach, Verifiable;
    if n > 0 {
      CountsAgree(c, code, keys, all, matches, n - 1);
      AllMatched(c, code, keys, all, matches, keys[n - 1]);
    }
  }

  function Min(a: nat, b: nat): nat { if a <= b then a else b }

  lemma NothingAssigned(verify: (Value, Value) -> bool, keys: seq<Value>)
    ensures Assignment(verify, [], keys, []) && PushAll([]) == []
  {
  }

  lemma AssignmentSnoc(verify: (Value, Value) -> bool, sigs: seq<Value>, keys: seq<Value>, f: seq<nat>, sig: Value,
                       i: nat)
    requires Assignment(verify, sigs, keys, f) && i < |keys| && verify(sig, keys[i])
    requires forall j :: 0 <= j < |f| ==> f[j] < i
    ensures Assignment(verify, sigs + [sig], keys, f + [i])
  {
  }

  /** Writes the matched signatures in key order, then fills up with OP_0. */
  method WriteSignatures(c: Crypto, code: Script, required: nat, keys: seq<Value>, matches: map<Value, Value>)
    returns (script: Script, picked: seq<Value>, ghost f: seq<nat>)
    requires Matched(c, code, matches)
    ensures script == CombinedScript(picked, required)
    ensures |picked| == Min(required, CountMatched(keys, matches, |keys|))
    ensures Assignment(Verifier(c, code), picked, keys, f)
    ensures forall j :: 0 <= j < |picked| ==> keys[f[j]] in matches && picked[j] == matches[keys[f[j]]]
  {
    hide PushData, PushAll, Assignment;
    picked, f := [], [];
    var out := new CScript([]);
    out.PushOpcode(OP_0);
    NothingAssigned(Verifier(c, code), keys);
    for i := 0 to |keys|
      invariant |picked| == |f| == Min(required, CountMatched(keys, matches, i))
      invariant Assignment(Verifier(c, code), picked, keys, f)
      invariant forall j :: 0 <= j < |f| ==> f[j] < i && keys[f[j]] in matches && picked[j] == matches[keys[f[j]]]
      invariant out.bytes == [OP_0] + PushAll(picked)
    {
      if |picked| < required && keys[i] in matches {
        PushAllSnoc(picked, matches[keys[i]]);
        AssignmentSnoc(Verifier(c, code), picked, keys, f, matches[keys[i]], i);
        out.Push(matches[keys[i]]);
        picked := picked + [matches[keys[i]]];
        f := f + [i];
      }
    }
    for j := |picked| to required
      invariant out.bytes == [OP_0] + PushAll(picked) + Zeros(j - |picked|)
    {
      out.PushOpcode(OP_0);
      assert Zeros(j - |picked|) + [0] == Zeros(j + 1 - |picked|);
    }
    script := out.bytes;
  }

  /** A standard multisignature output whose script is unchanged by deleting the signatures. */
  ghost predicate Standard(scriptPubKey: Script, required: nat, keys: seq<Value>, sigs: set<Value>) {
    && 1 <= required <= |keys| <= 16 && scriptPubKey == MultisigScript(required, keys) && Pushable(keys)
    && (forall s :: s in sigs ==> |s| <= MAX_ELEMENT_SIZE)
    && (forall s :: s in sigs ==> Deleted(scriptPubKey, PushData(s)) == scriptPubKey)
  }

  function NonEmpty(sigs1: seq<Value>, sigs2: seq<Value>): set<Value> {
    (set s | s in sigs1 && s != []) + (set s | s in sigs2 && s != [])
  }

  /**
   * Merges two partial signature lists; picked are the signatures put in the
   * script.  If no signature verifies for two keys, every key that can have a
   * signature counts toward the required number, so enough valid signatures give
   * an accepted script.
   */
  method CombineMultisig(c: Crypto, scriptPubKey: Script, required: nat, keys: seq<Value>,
                         sigs1: seq<Value>, sigs2: seq<Value>)
    returns (script: Script, picked: seq<Value>)
    ensures script == CombinedScript(picked, required) && |picked| <= required
    ensures forall s :: s in picked ==> s in NonEmpty(sigs1, sigs2)
    ensures exists f: seq<nat> :: Assignment(Verifier(c, scriptPubKey), picked, keys, f)
    ensures OneKeyEach(c, scriptPubKey, keys, NonEmpty(sigs1, sigs2)) ==>
              |picked| == Min(required, CountVerifiable(c, scriptPubKey, keys, NonEmpty(sigs1, sigs2), |keys|))
    ensures Standard(scriptPubKey, required, keys, NonEmpty(sigs1, sigs2)) && |picked| == required ==>
              forall p2sh :: VerifyScript(c, script, scriptPubKey, p2sh).ok
    ensures Standard(scriptPubKey, required, keys, NonEmpty(sigs1, sigs2))
            && OneKeyEach(c, scriptPubKey, keys, NonEmpty(sigs1, sigs2))
            && CountVerifiable(c, scriptPubKey, keys, NonEmpty(sigs1, sigs2), |keys|) >= required ==>
              forall p2sh :: VerifyScript(c, script, scriptPubKey, p2sh).ok
  {
    hide VerifyScript, CombinedScript, Maximal, OneKeyEach, CountVerifiable, CountMatched;
    var all := NonEmpty(sigs1, sigs2);
    var matches := MatchSignatures(c, scriptPubKey, keys, all);
    MaximalFacts(c, scriptPubKey, keys, all, matches);
    ghost var f;
    script, picked, f := WriteSignatures(c, scriptPubKey, required, keys, matches);
    forall s | s in picked ensures s in all {
      var j :| 0 <= j < |picked| && picked[j] == s;
    }
    if OneKeyEach(c, scriptPubKey, keys, all) { CountsAgree(c, scriptPubKey, keys, all, matches, |keys|); }
    forall p2sh | Standard(scriptPubKey, required, keys, all) && |picked| == required
      ensures VerifyScript(c, script, scriptPubKey, p2sh).ok
    {
      AllPushable(picked, all);
      CombinedIsAccepted(c, picked, keys, f, p2sh);
    }
  }

  lemma MaximalFacts(c: Crypto, code: Script, keys: seq<Value>, all: set<Value>, matches: map<Value, Value>)
    requires Maximal(c, code, keys, all, matches)
    ensures Matched(c, code, matches) && forall k :: k in matches ==> matches[k] in all
  {
  }

  lemma AllPushable(picked: seq<Value>, all: set<Value>)
    requires (forall s :: s in picked ==> s in all) && forall s :: s in all ==> |s| <= MAX_ELEMENT_SIZE
    ensures Pushable(picked)
  {
    forall j | 0 <= j < |picked| ensures |picked[j]| <= MAX_ELEMENT_SIZE {
      var s := picked[j];
      assert s in picked;
    }
  }
}

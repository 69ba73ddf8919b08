/**
 * Who can spend an output: the runs of the standard scripts, stated by the
 * hashes and signatures they ask for.
 * Source: src/script.cpp, EvalScript, VerifyScript and Solver's templates.
 */
module Payments {
  import opened Bytes
  import opened BigNum
  import opened ScriptCodec
  import opened Interpreter
  import opened SigOps
  import opened MultiSig
  import opened ScriptLaws

  // ----- Signature operations, anywhere in a script -----

  /** The part of the script a signature covers: from the last separator on, without the signature. */
  function Signed(script: Script, m: Machine, sig: Value): Script
    requires InScript(script, m)
  {
    Deleted(script[m.codeStart..], PushData(sig))
  }

  /** CHECKSIG leaves the answer, CHECKSIGVERIFY goes on only if it is yes. */
  lemma CheckSigLaw(c: Crypto, script: Script, m: Machine, base: Stack, sig: Value, key: Value)
    requires Before(script, m) && m.stack == base + [sig, key]
    requires script[m.pc] in [OP_CHECKSIG, OP_CHECKSIGVERIFY] && m.opCount < MAX_OPS
    requires |base| + 1 + |m.alt| <= MAX_STACK_SIZE
    ensures var yes := c.checkSig(sig, key, Signed(script, m, sig));
            if script[m.pc] == OP_CHECKSIG then
              Run(c, script, m) == Run(c, script, After(m, base + [Flag(yes)], m.alt).(calls := m.calls + 1))
            else if yes then Run(c, script, m) == Run(c, script, After(m, base, m.alt).(calls := m.calls + 1))
            else Run(c, script, m) == Evaluation(false, [], m.calls + 1)
  {
        hide Deleted, PushData, StackOp, CheckMultiSigOp, IfOp;
    assert ReadOp(script[m.pc..]) == Op(script[m.pc], [], 1);
    assert Top(m.stack, 1) == key && Top(m.stack, 2) == sig && Drop(m.stack, 2) == base;
  }

  lemma CheckSigNeedsTwo(c: Crypto, script: Script, m: Machine)
    requires Before(script, m) && script[m.pc] in [OP_CHECKSIG, OP_CHECKSIGVERIFY] && |m.stack| < 2
    ensures Fails(c, script, m)
  {
    hide Deleted, PushData, StackOp;
    assert ReadOp(script[m.pc..]) == Op(script[m.pc], [], 1);
  }

  /** After CODESEPARATOR signatures cover what follows it. */
  lemma SeparatorLaw(c: Crypto, script: Script, m: Machine)
    requires Before(script, m) && script[m.pc] == OP_CODESEPARATOR && m.opCount < MAX_OPS
    requires |m.stack| + |m.alt| <= MAX_STACK_SIZE
    ensures Run(c, script, m) == Run(c, script, After(m, m.stack, m.alt).(codeStart := m.pc + 1))
  {
    hide StackOp;
    assert ReadOp(script[m.pc..]) == Op(script[m.pc], [], 1);
  }

  // ----- Pay to public key hash -----

  function PayToKeyHash(h: Value): Script {
    [OP_DUP, OP_HASH160] + PushData(h) + [OP_EQUALVERIFY, OP_CHECKSIG]
  }

  lemma PushedAt(c: Crypto, script: Script, m: Machine, v: Value, rest: Script)
    requires Before(script, m) && script[m.pc..] == PushData(v) + rest
    requires |v| <= MAX_ELEMENT_SIZE
    ensures m.pc + |PushData(v)| <= |script|
    ensures if |m.stack| + 1 + |m.alt| > MAX_STACK_SIZE then Fails(c, script, m)
            else Run(c, script, m)
                 == Run(c, script, m.(stack := m.stack + [v], pc := m.pc + |PushData(v)|))
  {
    hide Step;
    PushValueStep(c, script, m, v, rest);
  }

  lemma PushSize(v: Value)
    ensures |v| < |PushData(v)| <= |v| + 5
  {
  }

  /** The operations of the output script and where they stand. */
  lemma KeyHashPositions(h: Value)
    requires |h| <= MAX_ELEMENT_SIZE
    ensures var s, n := PayToKeyHash(h), |PushData(h)|;
            && |s| == n + 4 <= MAX_SCRIPT_SIZE && s[0] == OP_DUP && s[1] == OP_HASH160
            && s[n + 2] == OP_EQUALVERIFY && s[n + 3] == OP_CHECKSIG
            && s[2..] == PushData(h) + [OP_EQUALVERIFY, OP_CHECKSIG] && s[0..] == s
  {
    hide PushData;
    PushSize(h);
    var n := |PushData(h)|;
    var s := PayToKeyHash(h);
    var front: Script, back: Script := [OP_DUP, OP_HASH160], [OP_EQUALVERIFY, OP_CHECKSIG];
    AppendAssociative(front, PushData(h), back);
    assert s == front + (PushData(h) + back) && |front| == 2;
    assert s[n + 2] == back[0] && s[n + 3] == back[1];
  }

  lemma DupLaw(c: Crypto, script: Script, m: Machine, base: Stack, x: Value)
    requires Before(script, m) && script[m.pc] == OP_DUP && m.stack == base + [x]
    ensures Leaves(c, script, m, base + [x, x])
  {
    hide LeavesBoth, Fails;
    PictureLaw(c, script, m);
    assert Applied(PictureOf(OP_DUP).value, m.stack) == base + [x, x];
  }

  /** From the pushed hash on, with the hash of the key below it. */
  lemma KeyHashEnds(c: Crypto, h: Value, m: Machine, base: Stack, sig: Value, key: Value, hash: Value)
    requires |h| <= MAX_ELEMENT_SIZE && |base| + 4 <= MAX_STACK_SIZE
    requires m == Machine(base + [sig, key, hash], [], [], 2, 0, 2, 0)
    ensures InScript(PayToKeyHash(h), m)
    ensures var script, r := PayToKeyHash(h), Run(c, PayToKeyHash(h), m);
            && r.ok == (hash == h)
            && (r.ok ==> r.stack == base + [Flag(c.checkSig(sig, key, Deleted(script, PushData(sig))))])
  {
    hide Run, PushData, Deleted, PayToKeyHash;
    var script, n := PayToKeyHash(h), |PushData(h)|;
    KeyHashPositions(h);
    PushedAt(c, script, m, h, [OP_EQUALVERIFY, OP_CHECKSIG]);
    var m1 := m.(stack := m.stack + [h], pc := n + 2);
    assert m1.stack == base + [sig, key] + [hash, h];
    EqualLaw(c, script, m1, base + [sig, key], hash, h);
    if hash == h {
      var m2 := After(m1, base + [sig, key], []);
      CheckSigLaw(c, script, m2, base, sig, key);
      var yes := c.checkSig(sig, key, Signed(script, m2, sig));
      RunAtEnd(c, script, After(m2, base + [Flag(yes)], []).(calls := 1));
    }
  }

  lemma RunAtEnd(c: Crypto, script: Script, m: Machine)
    requires InScript(script, m) && m.pc == |script| && m.exec == []
    ensures Run(c, script, m) == Evaluation(true, m.stack, m.calls)
  {
  }

  /** DUP and HASH160 put the hash of the top item on the stack. */
  lemma KeyHashBegins(c: Crypto, h: Value, s: Stack)
    requires |h| <= MAX_ELEMENT_SIZE && s != []
    ensures var script, hash := PayToKeyHash(h), c.hash(OP_HASH160, s[|s| - 1]);
            var m := Machine(s + [hash], [], [], 2, 0, 2, 0);
            InScript(script, m) &&
            Eval(c, script, s) == if |s| < MAX_STACK_SIZE then Run(c, script, m) else Evaluation(false, [], 0)
  {
    hide Run, PushData, PayToKeyHash, FromVch, ToVch;
    var script := PayToKeyHash(h);
    KeyHashPositions(h);
    var m0, base, key := Start(s), s[..|s| - 1], s[|s| - 1];
    assert s == base + [key];
    DupLaw(c, script, m0, base, key);
    if |s| < MAX_STACK_SIZE {
      assert base + [key, key] == s + [key];
      TopItemLaw(c, script, After(m0, s + [key], []), s, key);
    }
  }

  /** The output script checks the hash of the top item and the signature below it. */
  lemma KeyHashRuns(c: Crypto, h: Value, base: Stack, sig: Value, key: Value)
    requires |h| <= MAX_ELEMENT_SIZE && |base| + 4 <= MAX_STACK_SIZE
    ensures var script, r := PayToKeyHash(h), Eval(c, PayToKeyHash(h), base + [sig, key]);
            && r.ok == (c.hash(OP_HASH160, key) == h)
            && (r.ok ==> r.stack == base + [Flag(c.checkSig(sig, key, Deleted(script, PushData(sig))))])
  {
    hide Run, PushData, Deleted, PayToKeyHash, Eval;
    var s, hash := base + [sig, key], c.hash(OP_HASH160, key);
    KeyHashBegins(c, h, s);
    assert s + [hash] == base + [sig, key, hash];
    KeyHashEnds(c, h, Machine(s + [hash], [], [], 2, 0, 2, 0), base, sig, key, hash);
  }

  lemma KeyHashWithoutSignature(c: Crypto, h: Value, m: Machine, s: Stack, hash: Value)
    requires |h| <= MAX_ELEMENT_SIZE && |s| == 1 && m == Machine(s + [hash], [], [], 2, 0, 2, 0)
    ensures InScript(PayToKeyHash(h), m) && !Run(c, PayToKeyHash(h), m).ok
  {
    hide Run, PushData, PayToKeyHash;
    var script, n := PayToKeyHash(h), |PushData(h)|;
    KeyHashPositions(h);
    PushedAt(c, script, m, h, [OP_EQUALVERIFY, OP_CHECKSIG]);
    var m3 := m.(stack := m.stack + [h], pc := n + 2);
    assert m3.stack == s + [hash, h];
    EqualLaw(c, script, m3, s, hash, h);
    if hash == h {
      CheckSigNeedsTwo(c, script, After(m3, s, []));
    }
  }

  /** With fewer items, or so many that the pushes overflow, the output script fails. */
  lemma KeyHashNeedsTwo(c: Crypto, h: Value, s: Stack)
    requires |h| <= MAX_ELEMENT_SIZE && (|s| < 2 || |s| + 2 > MAX_STACK_SIZE)
    ensures !Eval(c, PayToKeyHash(h), s).ok
  {
    hide Run, PushData, PayToKeyHash;
    var script := PayToKeyHash(h);
    KeyHashPositions(h);
    if s == [] {
      TooFewItemsFails(c, script, Start(s));
    } else {
      hide Eval;
      KeyHashBegins(c, h, s);
      var hash := c.hash(OP_HASH160, s[|s| - 1]);
      var m := Machine(s + [hash], [], [], 2, 0, 2, 0);
      if |s| == 1 {
        KeyHashWithoutSignature(c, h, m, s, hash);
      } else if |s| < MAX_STACK_SIZE {
        PushedAt(c, script, m, h, [OP_EQUALVERIFY, OP_CHECKSIG]);
      }
    }
  }

  /** Whatever the spending script does, the output is spent exactly with a key of that hash and its signature. */
  lemma PayToKeyHashLaw(c: Crypto, scriptSig: Script, h: Value, p2sh: bool)
    requires |h| <= MAX_ELEMENT_SIZE
    ensures var out, first := PayToKeyHash(h), Eval(c, scriptSig, []);
            var s := first.stack;
            VerifyScript(c, scriptSig, out, p2sh).ok
            <==> first.ok && 2 <= |s| <= MAX_STACK_SIZE - 2
                 && c.hash(OP_HASH160, s[|s| - 1]) == h
                 && c.checkSig(s[|s| - 2], s[|s| - 1], Deleted(out, PushData(s[|s| - 2])))
  {
    hide Eval, PushData, Deleted;
    var out, first := PayToKeyHash(h), Eval(c, scriptSig, []);
    var s := first.stack;
    assert out[0] == OP_DUP;
    FlagBytes();
    if 2 <= |s| <= MAX_STACK_SIZE - 2 {
      var base := s[..|s| - 2];
      assert s == base + [s[|s| - 2], s[|s| - 1]];
      KeyHashRuns(c, h, base, s[|s| - 2], s[|s| - 1]);
    } else {
      KeyHashNeedsTwo(c, h, s);
    }
  }

  /** The usual spending script: a signature and a key. */
  lemma SignatureAndKeySpend(c: Crypto, sig: Value, key: Value, h: Value, p2sh: bool)
    requires |h| <= MAX_ELEMENT_SIZE
    ensures VerifyScript(c, PushData(sig) + PushData(key), PayToKeyHash(h), p2sh).ok
       <==> |sig| <= MAX_ELEMENT_SIZE && |key| <= MAX_ELEMENT_SIZE
            && c.hash(OP_HASH160, key) == h
            && c.checkSig(sig, key, Deleted(PayToKeyHash(h), PushData(sig)))
  {
    hide Eval, PushData, Deleted, VerifyScript, PayToKeyHash;
    var values := [sig, key];
    assert PushAll(values) == PushData(sig) + PushData(key) by {
      assert values[1..] == [key] && [key][1..] == [];
      assert PushAll([key]) == PushData(key) + [];
    }
    assert Pushable(values) <==> |sig| <= MAX_ELEMENT_SIZE && |key| <= MAX_ELEMENT_SIZE by {
      assert values[0] == sig && values[1] == key;
    }
        PushSize(sig);
    PushSize(key);
    PushAllRuns(c, values);
    PayToKeyHashLaw(c, PushAll(values), h, p2sh);
  }

  // ----- Pay to public key -----

  /** An output that names the key itself is spent exactly with a signature of that key on top. */
  lemma PayToKeyLaw(c: Crypto, scriptSig: Script, key: Value, p2sh: bool)
    requires |key| <= MAX_ELEMENT_SIZE
    ensures var out, first := PushData(key) + [OP_CHECKSIG], Eval(c, scriptSig, []);
            var s := first.stack;
            VerifyScript(c, scriptSig, out, p2sh).ok
            <==> first.ok && 1 <= |s| < MAX_STACK_SIZE
                 && c.checkSig(s[|s| - 1], key, Deleted(out, PushData(s[|s| - 1])))
  {
    hide Eval, PushData, Deleted;
    var out, first := PushData(key) + [OP_CHECKSIG], Eval(c, scriptSig, []);
    FlagBytes();
    NotScriptHash(key);
    KeyRuns(c, key, first.stack);
  }

  lemma NotScriptHash(key: Value)
    requires |key| <= MAX_ELEMENT_SIZE
    ensures !IsPayToScriptHash(PushData(key) + [OP_CHECKSIG])
  {
  }

  lemma KeyRuns(c: Crypto, key: Value, s: Stack)
    requires |key| <= MAX_ELEMENT_SIZE
    ensures var out := PushData(key) + [OP_CHECKSIG];
            var r := Eval(c, out, s);
            && r.ok == (1 <= |s| < MAX_STACK_SIZE)
            && (r.ok ==> r.stack == s[..|s| - 1] + [Flag(c.checkSig(s[|s| - 1], key,
                                                                  Deleted(out, PushData(s[|s| - 1]))))])
  {
    hide Run, PushData, Deleted;
    var out, n := PushData(key) + [OP_CHECKSIG], |PushData(key)|;
    PushSize(key);
    var m0 := Start(s);
    assert out[0..] == out;
    PushedAt(c, out, m0, key, [OP_CHECKSIG]);
    if |s| < MAX_STACK_SIZE {
      var m1 := m0.(stack := s + [key], pc := n);
      if s == [] {
        CheckSigNeedsTwo(c, out, m1);
      } else {
        var base, sig := s[..|s| - 1], s[|s| - 1];
        assert m1.stack == base + [sig, key];
        CheckSigLaw(c, out, m1, base, sig, key);
        var yes := c.checkSig(sig, key, Signed(out, m1, sig));
        RunAtEnd(c, out, After(m1, base + [Flag(yes)], []).(calls := 1));
      }
    }
  }

  // ----- Pay to script hash -----

  lemma ScriptHashPositions(out: Script)
    requires IsPayToScriptHash(out)
    ensures var h: Value := out[2..22];
            out[1..] == PushData(h) + [OP_EQUAL] && |PushData(h)| == 21 && out[0..] == out
  {
    var h: Value := out[2..22];
    assert PushData(h) == [20] + h;
  }

  /** The output script compares the hash of the top item with its own 20 bytes, and runs nothing of it. */
  lemma ScriptHashRuns(c: Crypto, out: Script, s: Stack)
    requires IsPayToScriptHash(out)
    ensures var r := Eval(c, out, s);
            && r.ok == (1 <= |s| < MAX_STACK_SIZE)
            && (r.ok ==> r.stack == s[..|s| - 1] + [Flag(c.hash(OP_HASH160, s[|s| - 1]) == out[2..22])])
  {
    hide Run, PushData, FromVch, ToVch;
    var h: Value := out[2..22];
    ScriptHashPositions(out);
    var m0 := Start(s);
    if s == [] {
      TooFewItemsFails(c, out, m0);
    } else {
      var base, top := s[..|s| - 1], s[|s| - 1];
      assert s == base + [top];
      var hash := c.hash(OP_HASH160, top);
      TopItemLaw(c, out, m0, base, top);
      if |s| <= MAX_STACK_SIZE {
        var m1 := After(m0, base + [hash], []);
        PushedAt(c, out, m1, h, [OP_EQUAL]);
        if |s| < MAX_STACK_SIZE {
          var m2 := m1.(stack := m1.stack + [h], pc := 22);
          assert m2.stack == base + [hash, h];
          EqualLaw(c, out, m2, base, hash, h);
          RunAtEnd(c, out, After(m2, base + [Flag(hash == h)], []));
        }
      }
    }
  }

  /**
   * A script-hash output is spent exactly by pushes whose last item hashes to it and, run as a
   * script on the items below, is accepted.
   */
  lemma PayToScriptHashLaw(c: Crypto, scriptSig: Script, out: Script)
    requires IsPayToScriptHash(out)
    ensures var first := Eval(c, scriptSig, []);
            var s, n := first.stack, |first.stack|;
            VerifyScript(c, scriptSig, out, true).ok
            <==> first.ok && PushOnly(scriptSig) && 1 <= n < MAX_STACK_SIZE
                 && c.hash(OP_HASH160, s[n - 1]) == out[2..22]
                 && Accepts(Eval(c, s[n - 1], s[..n - 1]))
  {
    hide Eval;
    FlagBytes();
    ScriptHashRuns(c, out, Eval(c, scriptSig, []).stack);
  }

  /** The redeem script runs only after its hash has been found in the output. */
  lemma RedeemRunsOnlyOnMatch(c: Crypto, scriptSig: Script, out: Script, p2sh: bool)
    requires IsPayToScriptHash(out)
    ensures var v, s := VerifyScript(c, scriptSig, out, p2sh), Eval(c, scriptSig, []).stack;
            v.ok || v.redeemCalls > 0 ==>
              s != [] && c.hash(OP_HASH160, s[|s| - 1]) == out[2..22]
  {
    hide Eval;
    FlagBytes();
    ScriptHashRuns(c, out, Eval(c, scriptSig, []).stack);
  }

  lemma {:induction false} PushesArePushOnly(values: seq<Value>)
    requires Pushable(values)
    ensures PushOnly(PushAll(values))
    decreases |values|
  {
    hide PushData;
    if values != [] {
      var rest := PushAll(values[1..]);
      PushReadsBack(values[0], rest);
      assert (PushData(values[0]) + rest)[|PushData(values[0])|..] == rest;
      PushesArePushOnly(values[1..]);
    }
  }

  /** The usual spending script: arguments, then the redeem script. */
  lemma RedeemScriptSpends(c: Crypto, args: seq<Value>, redeem: Value, out: Script)
    requires IsPayToScriptHash(out)
    ensures VerifyScript(c, PushAll(args + [redeem]), out, true).ok
       <==> |PushAll(args + [redeem])| <= MAX_SCRIPT_SIZE && Pushable(args + [redeem]) && |args| + 1 < MAX_STACK_SIZE
            && c.hash(OP_HASH160, redeem) == out[2..22] && Accepts(Eval(c, redeem, args))
  {
    hide Eval, PushAll, VerifyScript, PushOnly, Accepts, IsPayToScriptHash;
    var values := args + [redeem];
    PushAllRuns(c, values);
    PayToScriptHashLaw(c, PushAll(values), out);
    assert values[|args|] == redeem && values[..|args|] == args;
    if Pushable(values) { PushesArePushOnly(values); }
  }

  // ----- Several signatures -----

  /** The operands of CHECKMULTISIG above base; the extra item is required and consumed. */
  function MultiSigOperands(base: Stack, extra: Value, sigs: seq<Value>, keys: seq<Value>): Stack {
    base + [extra] + sigs + [ToVch(|sigs|)] + keys + [ToVch(|keys|)]
  }

  /** The signatures can be given to different keys that verify them, in the same order. */
  ghost predicate Satisfied(c: Crypto, code: Script, sigs: seq<Value>, keys: seq<Value>) {
    exists f: seq<nat> :: Assignment(Verifier(c, DeleteAll(code, Reverse(sigs))), sigs, keys, f)
  }

  lemma SmallCount(n: nat)
    requires n <= 20
    ensures CastToBigNum(ToVch(n)) == Some(n) && GetInt(n) == n
  {
    VchRoundTrip(n);
    CastIsValue(ToVch(n));
  }

  lemma OperandsRead(base: Stack, extra: Value, sigs: seq<Value>, keys: seq<Value>, opCount: nat)
    requires |sigs| <= |keys| <= MAX_MULTISIG_KEYS && opCount + |keys| <= MAX_OPS
    ensures ReadMultiSigArgs(MultiSigOperands(base, extra, sigs, keys), opCount)
         == MultiSigArgs(Reverse(keys), Reverse(sigs), |keys| + |sigs| + 3)
  {
    hide ToVch, CastToBigNum, GetInt;
    var s, k, n := MultiSigOperands(base, extra, sigs, keys), |keys|, |sigs|;
    assert Top(s, 1) == ToVch(k) && Top(s, k + 2) == ToVch(n);
    SmallCount(k);
    SmallCount(n);
    var a := ReadMultiSigArgs(s, opCount);
    assert a.MultiSigArgs? && |a.keys| == k && |a.sigs| == n;
    assert a.keys == Reverse(keys);
    assert a.sigs == Reverse(sigs);
  }

  lemma ScanIsSatisfied(c: Crypto, code: Script, sigs: seq<Value>, keys: seq<Value>)
    requires |sigs| <= |keys|
    ensures Scan(Verifier(c, DeleteAll(code, Reverse(sigs))), Reverse(sigs), Reverse(keys)).ok
       <==> Satisfied(c, code, sigs, keys)
  {
    var v, rs, rk := Verifier(c, DeleteAll(code, Reverse(sigs))), Reverse(sigs), Reverse(keys);
    hide Scan, DeleteAll, Assignment, Verifier;
    ScanDecidesAssignment(v, rs, rk);
    assert Reverse(rs) == sigs && Reverse(rk) == keys;
    if Scan(v, rs, rk).ok {
      var f: seq<nat> :| Assignment(v, rs, rk, f);
      var g := AssignmentReversed(v, rs, rk, f);
    }
    if Satisfied(c, code, sigs, keys) {
      var f: seq<nat> :| Assignment(v, sigs, keys, f);
      var g := AssignmentReversed(v, sigs, keys, f);
    }
  }

  /** The instruction read and counted. */
  function Counting(m: Machine): Machine { m.(pc := m.pc + 1, opCount := m.opCount + 1) }

  lemma MultiSigOpIs(c: Crypto, script: Script, m: Machine, opcode: Byte, base: Stack, extra: Value,
                     sigs: seq<Value>, keys: seq<Value>) returns (calls: nat)
    requires m.codeStart <= |script| && m.stack == MultiSigOperands(base, extra, sigs, keys)
    requires |sigs| <= |keys| <= MAX_MULTISIG_KEYS && m.opCount + |keys| <= MAX_OPS
    ensures CheckMultiSigOp(c, script, m, opcode)
         == AfterSigCheck(m.(calls := calls, opCount := m.opCount + |keys|), base,
                          Satisfied(c, script[m.codeStart..], sigs, keys), opcode == OP_CHECKMULTISIGVERIFY)
  {
    hide ReadMultiSigArgs, Scan, DeleteAll, Satisfied, ToVch, Verifier, AfterSigCheck;
    OperandsRead(base, extra, sigs, keys, m.opCount);
    var code := script[m.codeStart..];
    ScanIsSatisfied(c, code, sigs, keys);
    assert Drop(m.stack, |keys| + |sigs| + 3) == base;
    calls := m.calls + Scan(Verifier(c, DeleteAll(code, Reverse(sigs))), Reverse(sigs), Reverse(keys)).calls;
  }

  lemma MultiSigStep(c: Crypto, script: Script, m: Machine)
    requires Before(script, m) && script[m.pc] in [OP_CHECKMULTISIG, OP_CHECKMULTISIGVERIFY] && m.opCount < MAX_OPS
    ensures Step(c, script, m) == Limited(CheckMultiSigOp(c, script, Counting(m), script[m.pc]))
  {
    hide CheckMultiSigOp, StackOp, CheckSigOp, IfOp;
    assert ReadOp(script[m.pc..]) == Op(script[m.pc], [], 1);
  }

  /** CHECKMULTISIG answers whether an assignment exists; the VERIFY form goes on only if one does. */
  lemma CheckMultiSigLaw(c: Crypto, script: Script, m: Machine, base: Stack, extra: Value,
                         sigs: seq<Value>, keys: seq<Value>) returns (calls: nat)
    requires Before(script, m) && script[m.pc] in [OP_CHECKMULTISIG, OP_CHECKMULTISIGVERIFY]
    requires m.stack == MultiSigOperands(base, extra, sigs, keys) && |base| + 1 + |m.alt| <= MAX_STACK_SIZE
    requires |sigs| <= |keys| <= MAX_MULTISIG_KEYS && m.opCount + 1 + |keys| <= MAX_OPS
    ensures var yes := Satisfied(c, script[m.codeStart..], sigs, keys);
            var m' := After(m, base, m.alt).(opCount := m.opCount + 1 + |keys|, calls := calls);
            if script[m.pc] == OP_CHECKMULTISIG then
              Run(c, script, m) == Run(c, script, m'.(stack := base + [Flag(yes)]))
            else if yes then Run(c, script, m) == Run(c, script, m')
            else Run(c, script, m) == Evaluation(false, [], calls)
  {
    hide CheckMultiSigOp, Satisfied, MultiSigOperands, Step;
    MultiSigStep(c, script, m);
    calls := MultiSigOpIs(c, script, Counting(m), script[m.pc], base, extra, sigs, keys);
  }

  /** The number of keys must be 0 to 20, within the operation limit, and the keys must be there. */
  lemma KeyCountFails(c: Crypto, script: Script, m: Machine, below: Stack, k: Value)
    requires Before(script, m) && script[m.pc] in [OP_CHECKMULTISIG, OP_CHECKMULTISIGVERIFY]
    requires m.stack == below + [k]
    requires |k| > 4 || FromVch(k) < 0 || FromVch(k) > MAX_MULTISIG_KEYS
             || m.opCount + 1 + FromVch(k) > MAX_OPS || |below| < FromVch(k) + 1
    ensures Fails(c, script, m)
  {
    hide StackOp, CheckSigOp, IfOp, FromVch, ToVch, CastToBigNum, Scan, DeleteAll, SplitArgs;
    assert ReadOp(script[m.pc..]) == Op(script[m.pc], [], 1);
    assert Top(m.stack, 1) == k;
    if |k| <= 4 {
      CastIsValue(k);
      NumberRange(k);
    } else {
      CastFails(k);
    }
  }

  /** The number of signatures must be 0 to the number of keys, and one item more must be below them. */
  lemma SignatureCountFails(c: Crypto, script: Script, m: Machine, below: Stack, g: Value, keys: seq<Value>)
    requires Before(script, m) && script[m.pc] in [OP_CHECKMULTISIG, OP_CHECKMULTISIGVERIFY]
    requires m.stack == below + [g] + keys + [ToVch(|keys|)] && |keys| <= MAX_MULTISIG_KEYS
    requires |g| > 4 || FromVch(g) < 0 || FromVch(g) > |keys| || |below| < FromVch(g) + 1
    ensures Fails(c, script, m)
  {
    hide StackOp, CheckSigOp, IfOp, FromVch, ToVch, CastToBigNum, Scan, DeleteAll, SplitArgs, GetInt;
    assert ReadOp(script[m.pc..]) == Op(script[m.pc], [], 1);
    SmallCount(|keys|);
    assert Top(m.stack, 1) == ToVch(|keys|) && Top(m.stack, |keys| + 2) == g;
    if |g| <= 4 {
      CastIsValue(g);
      IntOf(g);
    } else {
      CastFails(g);
    }
  }

  lemma IntOf(v: Value)
    requires |v| <= 4
    ensures GetInt(FromVch(v)) == FromVch(v)
  {
    NumberRange(v);
  }

  lemma CountPushed(c: Crypto, script: Script, m: Machine, n: nat)
    requires Before(script, m) && n <= 16 && script[m.pc] == EncodeOpN(n)
    ensures if |m.stack| + 1 + |m.alt| > MAX_STACK_SIZE then Fails(c, script, m)
            else Run(c, script, m) == Run(c, script, m.(stack := m.stack + [ToVch(n)], pc := m.pc + 1))
  {
    hide ToVch;
    if n == 0 {
      assert PushData([]) == [OP_0];
      assert script[m.pc..] == PushData([]) + script[m.pc + 1..];
      PushedAt(c, script, m, [], script[m.pc + 1..]);
    } else {
      assert ReadOp(script[m.pc..]) == Op(script[m.pc], [], 1);
    }
  }

  lemma MultisigPositions(required: nat, keys: seq<Value>)
    requires required <= 16 && |keys| <= 16
    ensures var out, rest := MultisigScript(required, keys), [EncodeOpN(|keys|), OP_CHECKMULTISIG];
            var body := 1 + |PushAll(keys)|;
            && |out| == body + 2 && out[0] == EncodeOpN(required) && out[1..] == PushAll(keys) + rest
            && out[body] == EncodeOpN(|keys|) && out[body + 1] == OP_CHECKMULTISIG && out[0..] == out
  {
    hide PushAll;
  }

  /** Up to the check, the output only pushes. */
  lemma MultisigBegins(c: Crypto, required: nat, keys: seq<Value>, s: Stack)
    requires required <= 16 && |keys| <= 16 && Pushable(keys)
    ensures var out, t := MultisigScript(required, keys), s + [ToVch(required)] + keys + [ToVch(|keys|)];
            var m := Machine(t, [], [], 0, 0, |out| - 1, 0);
            && InScript(out, m) && out[m.pc] == OP_CHECKMULTISIG && out[0..] == out
            && (if |t| <= MAX_STACK_SIZE then Eval(c, out, s) == Run(c, out, m) else !Eval(c, out, s).ok)
  {
    hide Run, PushAll, ToVch, MultisigScript;
    PushAllSize(keys);
    MultisigPositions(required, keys);
    var out, rest := MultisigScript(required, keys), [EncodeOpN(|keys|), OP_CHECKMULTISIG];
    var m0 := Start(s);
    CountPushed(c, out, m0, required);
    if |s| < MAX_STACK_SIZE {
      var m1 := m0.(stack := s + [ToVch(required)], pc := 1);
      if |s| + 1 + |keys| > MAX_STACK_SIZE {
        RunPushesFails(c, out, m1, keys, rest);
      } else {
        RunPushes(c, out, m1, keys, rest);
        CountPushed(c, out, m1.(stack := m1.stack + keys, pc := 1 + |PushAll(keys)|), |keys|);
      }
    }
  }

  /** The output script answers whether the top items below the counts are signatures in order. */
  lemma MultisigRuns(c: Crypto, required: nat, keys: seq<Value>, s: Stack)
    requires required <= |keys| <= 16 && Pushable(keys)
    ensures var out, r, n := MultisigScript(required, keys), Eval(c, MultisigScript(required, keys), s), |s|;
            && r.ok == (required < n <= MAX_STACK_SIZE - 2 - |keys|)
            && (r.ok ==> r.stack == s[..n - required - 1] + [Flag(Satisfied(c, out, s[n - required..], keys))])
  {
    hide Run, MultisigScript, ToVch, FromVch, Eval, Satisfied;
    var out, n := MultisigScript(required, keys), |s|;
    MultisigBegins(c, required, keys, s);
    if n + 2 + |keys| <= MAX_STACK_SIZE {
      var t := s + [ToVch(required)] + keys + [ToVch(|keys|)];
      var m := Machine(t, [], [], 0, 0, |out| - 1, 0);
      if n <= required {
        VchRoundTrip(required);
        SignatureCountFails(c, out, m, s, ToVch(required), keys);
      } else {
        var base, extra, sigs := s[..n - required - 1], s[n - required - 1], s[n - required..];
        assert s == base + [extra] + sigs;
        var calls := CheckMultiSigLaw(c, out, m, base, extra, sigs, keys);
        var yes := Satisfied(c, out, sigs, keys);
        RunAtEnd(c, out, After(m, base + [Flag(yes)], []).(opCount := 1 + |keys|, calls := calls));
      }
    }
  }

  /** A multi-signature output is spent exactly with the required number of signatures in key order. */
  lemma MultisigLaw(c: Crypto, scriptSig: Script, required: nat, keys: seq<Value>, p2sh: bool)
    requires required <= |keys| <= 16 && Pushable(keys)
    ensures var out, first := MultisigScript(required, keys), Eval(c, scriptSig, []);
            var s, n := first.stack, |first.stack|;
            VerifyScript(c, scriptSig, out, p2sh).ok
            <==> first.ok && required < n <= MAX_STACK_SIZE - 2 - |keys|
                 && Satisfied(c, out, s[n - required..], keys)
  {
    hide Eval, Satisfied, PushAll;
    FlagBytes();
    var out := MultisigScript(required, keys);
    assert out[0] == EncodeOpN(required);
    MultisigRuns(c, required, keys, Eval(c, scriptSig, []).stack);
  }

  // ----- What the standard outputs cost -----

  lemma {:induction false} PushesCostNothing(values: seq<Value>, rest: Script, last: Byte, accurate: bool)
    returns (last': Byte)
    requires Pushable(values)
    ensures CountFrom(PushAll(values) + rest, last, accurate) == CountFrom(rest, last', accurate)
    decreases |values|
  {
    hide PushData, CountFrom;
    if values == [] {
      last' := last;
      assert PushAll(values) + rest == rest;
    } else {
      var v, more := values[0], PushAll(values[1..]) + rest;
      var s := PushData(v) + more;
      assert PushAll(values) + rest == s;
      PushReadsBack(v, more);
      assert s[|PushData(v)|..] == more && s[0..] == s;
      CountStep(s, 0, last, accurate);
      last' := PushesCostNothing(values[1..], rest, ReadOp(s).opcode, accurate);
    }
  }

  lemma CountOne(opcode: Byte, rest: Script, last: Byte, accurate: bool)
    requires opcode > OP_PUSHDATA4 || opcode == OP_0
    ensures CountFrom([opcode] + rest, last, accurate)
         == Cost(opcode, last, accurate) + CountFrom(rest, opcode, accurate)
  {
    var s := [opcode] + rest;
    assert s[1..1] == [];
    assert ReadOp(s) == Op(opcode, [], 1) && s[1..] == rest;
  }

  /** A multi-signature output costs the number of its keys, or 20 by the historical count. */
  lemma MultisigCosts(required: nat, keys: seq<Value>)
    requires required <= 16 && |keys| <= 16 && Pushable(keys)
    ensures SigOpCount(MultisigScript(required, keys), true) == if keys == [] then 20 else |keys|
    ensures SigOpCount(MultisigScript(required, keys), false) == 20
  {
    hide PushAll, ReadOp;
    var n := EncodeOpN(|keys|);
    var end: Script, check: Script := [n, OP_CHECKMULTISIG], [OP_CHECKMULTISIG];
    var none: Script := [];
    assert MultisigScript(required, keys) == [EncodeOpN(required)] + (PushAll(keys) + end);
    assert end == [n] + check && check == [OP_CHECKMULTISIG] + none;
    forall accurate: bool
      ensures SigOpCount(MultisigScript(required, keys), accurate)
           == if accurate && keys != [] then |keys| else 20
    {
      CountOne(EncodeOpN(required), PushAll(keys) + end, OP_INVALIDOPCODE, accurate);
      var last := PushesCostNothing(keys, end, EncodeOpN(required), accurate);
      CountOne(n, check, last, accurate);
      CountOne(OP_CHECKMULTISIG, none, n, accurate);
      CountEnd(none, OP_CHECKMULTISIG, accurate);
    }
  }

  /** A key-hash output costs one. */
  lemma KeyHashCosts(h: Value, accurate: bool)
    requires |h| <= MAX_ELEMENT_SIZE
    ensures SigOpCount(PayToKeyHash(h), accurate) == 1
  {
    hide PushData, ReadOp;
    var back: Script, none: Script := [OP_EQUALVERIFY, OP_CHECKSIG], [];
    var hash: Script, check: Script := PushData(h) + back, [OP_CHECKSIG];
    var front: Script := [OP_DUP, OP_HASH160];
    AppendAssociative(front, PushData(h), back);
    assert PayToKeyHash(h) == [OP_DUP] + ([OP_HASH160] + hash);
    CountOne(OP_DUP, [OP_HASH160] + hash, OP_INVALIDOPCODE, accurate);
    CountOne(OP_HASH160, hash, OP_DUP, accurate);
    var values := [h];
    assert PushAll(values) == PushData(h) by { assert values[1..] == []; assert PushAll([]) == []; }
    var last := PushesCostNothing(values, back, OP_HASH160, accurate);
    assert back == [OP_EQUALVERIFY] + check && check == [OP_CHECKSIG] + none;
    CountOne(OP_EQUALVERIFY, check, last, accurate);
    CountOne(OP_CHECKSIG, none, OP_EQUALVERIFY, accurate);
    CountEnd(none, OP_CHECKSIG, accurate);
  }

  lemma {:induction false} LastPushIs(values: seq<Value>, last: Value, data: Value)
    requires Pushable(values) && |last| <= MAX_ELEMENT_SIZE
    ensures PushOnly(PushAll(values + [last])) && LastData(PushAll(values + [last]), data) == last
    decreases |values|
  {
    hide PushData;
    var all := values + [last];
    assert Pushable(all) by {
      forall i | 0 <= i < |all| ensures |all[i]| <= MAX_ELEMENT_SIZE {
        assert i < |values| ==> all[i] == values[i];
      }
    }
    PushesArePushOnly(all);
    var v, rest := all[0], PushAll(all[1..]);
    PushReadsBack(v, rest);
    assert (PushData(v) + rest)[|PushData(v)|..] == rest;
    if values == [] {
      assert all[1..] == [] && rest == [];
    } else {
      assert all[1..] == values[1..] + [last];
      LastPushIs(values[1..], last, v);
    }
  }

  /** Spending a script-hash output costs what the redeem script costs. */
  lemma RedeemCosts(args: seq<Value>, redeem: Value, out: Script)
    requires IsPayToScriptHash(out) && Pushable(args) && |redeem| <= MAX_ELEMENT_SIZE
    ensures P2shSigOpCount(out, PushAll(args + [redeem])) == SigOpCount(redeem, true)
  {
    LastPushIs(args, redeem, []);
  }
}

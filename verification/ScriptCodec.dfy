/**
 * Serialised scripts: reading one operation, pushing data, deleting an
 * operation.  Source: src/script.h.
 */
module ScriptCodec {
  import opened Bytes

  type Script = seq<Byte>

  const OP_0: Byte := 0x00
  const OP_PUSHDATA1: Byte := 0x4c
  const OP_PUSHDATA2: Byte := 0x4d
  const OP_PUSHDATA4: Byte := 0x4e
  const OP_1NEGATE: Byte := 0x4f
  const OP_1: Byte := 0x51
  const OP_16: Byte := 0x60
  const OP_INVALIDOPCODE: Byte := 0xff

  /** One parsed operation; size is the number of script bytes it takes. */
  datatype Op = NoOp | Op(opcode: Byte, data: seq<Byte>, size: nat)

  /** The operand of `count` bytes that follows `header` bytes of opcode and length. */
  function ReadOperand(s: Script, header: nat, count: nat): (r: Op)
    requires 1 <= header <= |s|
    ensures r.Op? ==> r.size == header + count <= |s|
  {
    if |s| - header < count then NoOp
    else Op(s[0], s[header..header + count], header + count)
  }

  /** Opcode byte plus the length field of the three PUSHDATA forms. */
  function HeaderSize(opcode: Byte): (n: nat)
    requires opcode <= OP_PUSHDATA4
    ensures n >= 1
  {
    if opcode < OP_PUSHDATA1 then 1
    else if opcode == OP_PUSHDATA1 then 2
    else if opcode == OP_PUSHDATA2 then 3
    else 5
  }

  function OperandSize(s: Script): nat
    requires s != [] && s[0] <= OP_PUSHDATA4 && HeaderSize(s[0]) <= |s|
  {
    if s[0] < OP_PUSHDATA1 then s[0] else LeValue(s[1..HeaderSize(s[0])])
  }

  /** The operation at the front of s; NoOp when the bytes run out. */
  function ReadOp(s: Script): (r: Op)
    ensures r.Op? ==> 1 <= r.size <= |s| && r.opcode == s[0]
  {
    if |s| < 1 then NoOp
    else if s[0] > OP_PUSHDATA4 then Op(s[0], [], 1)
    else if |s| < HeaderSize(s[0]) then NoOp
    else ReadOperand(s, HeaderSize(s[0]), OperandSize(s))
  }

  /** Encoding of a data push: the shortest of the four length forms, lengths cut to 32 bits. */
  function PushData(b: seq<Byte>): Script
  {
    (if |b| < OP_PUSHDATA1 then [|b|]
     else if |b| <= 0xff then [OP_PUSHDATA1, |b|]
     else if |b| <= 0xffff then [OP_PUSHDATA2] + LeBytes(|b|, 2)
     else [OP_PUSHDATA4] + LeBytes(|b|, 4)) + b
  }

  function DecodeOpN(opcode: Byte): (n: nat)
    requires opcode == OP_0 || OP_1 <= opcode <= OP_16
    ensures n <= 16
  {
    if opcode == OP_0 then 0 else opcode - (OP_1 - 1)
  }

  function EncodeOpN(n: nat): (opcode: Byte)
    requires n <= 16
    ensures (opcode == OP_0 || OP_1 <= opcode <= OP_16) && DecodeOpN(opcode) == n
  {
    if n == 0 then OP_0 else OP_1 + n - 1
  }

  // ----- Reading back what was pushed -----

  /** GetOp2 after operator<<: the pushed data is read back whole, whatever follows. */
  lemma PushReadsBack(b: seq<Byte>, rest: Script)
    requires |b| < 0x1_0000_0000
    ensures ReadOp(PushData(b) + rest).Op?
    ensures ReadOp(PushData(b) + rest).data == b
    ensures ReadOp(PushData(b) + rest).size == |PushData(b)|
    ensures ReadOp(PushData(b) + rest).opcode <= OP_PUSHDATA4
  {
    var s := PushData(b) + rest;
    var h := HeaderSize(s[0]);
    assert s[h..h + |b|] == b;
    if OP_PUSHDATA1 <= |b| <= 0xff {
      assert s[1..2] == [|b|] && LeValue([|b|][1..]) == 0;
    } else if 0xff < |b| <= 0xffff {
      assert Pow256(2) == 65536;
      LeValueOfBytes(|b|, 2);
      assert s[1..3] == LeBytes(|b|, 2);
    } else if 0xffff < |b| {
      assert Pow256(4) == 0x1_0000_0000 by { assert Pow256(2) == 65536; }
      LeValueOfBytes(|b|, 4);
      assert PushData(b)[1..5] == LeBytes(|b|, 4);
      assert s[1..5] == LeBytes(|b|, 4);
    }
  }

  /** Reading looks only at the bytes of the operation it returns. */
  lemma ReadIsLocal(s: Script, t: Script)
    requires ReadOp(s).Op?
    requires ReadOp(s).size <= |t| && s[..ReadOp(s).size] == t[..ReadOp(s).size]
    ensures ReadOp(t) == ReadOp(s)
  {
    var n := ReadOp(s).size;
    assert forall i :: 0 <= i < n ==> s[i] == s[..n][i] == t[..n][i] == t[i];
    if s[0] <= OP_PUSHDATA4 {
      var h := HeaderSize(s[0]);
      assert s[1..h] == t[1..h] && s[h..n] == t[h..n];
    }
  }

  // ----- Scripts as operation lists -----

  /** The encodings of the operations of s, in order, up to the first unreadable byte. */
  function Ops(s: Script): (ops: seq<Script>)
  {
    var op := ReadOp(s);
    if op.NoOp? then [] else [s[..op.size]] + Ops(s[op.size..])
  }

  /** What is left of s after its readable operations. */
  function Tail(s: Script): Script
  {
    var op := ReadOp(s);
    if op.NoOp? then s else Tail(s[op.size..])
  }

  function Concat(parts: seq<Script>): Script {
    if parts == [] then [] else parts[0] + Concat(parts[1..])
  }

  function Without(parts: seq<Script>, b: Script): (r: seq<Script>)
    ensures b !in r
    ensures forall p :: p in r ==> p in parts
    ensures |r| <= |parts|
  {
    if parts == [] then []
    else if parts[0] == b then Without(parts[1..], b)
    else [parts[0]] + Without(parts[1..], b)
  }

  predicate SingleOp(b: Script) {
    ReadOp(b).Op? && ReadOp(b).size == |b|
  }

  predicate StartsWith(s: Script, b: Script) {
    |b| <= |s| && s[..|b|] == b
  }

  /** What FindAndDelete leaves of the script from the read position on. */
  function Deleted(s: Script, b: Script): Script
    decreases |s|
  {
    if b == [] then s
    else if StartsWith(s, b) then Deleted(s[|b|..], b)
    else
      var op := ReadOp(s);
      if op.NoOp? then s else s[..op.size] + Deleted(s[op.size..], b)
  }

  lemma AppendAssociative(a: Script, b: Script, c: Script)
    ensures (a + b) + c == a + (b + c)
  {
  }

  /** A script is its operations followed by the unreadable tail. */
  lemma {:induction false} OpsRebuild(s: Script)
    ensures Concat(Ops(s)) + Tail(s) == s
  {
    hide ReadOp;
    var op := ReadOp(s);
    if op.Op? {
      var n := op.size;
      OpsRebuild(s[n..]);
      assert Ops(s)[1..] == Ops(s[n..]) && Ops(s)[0] == s[..n];
      var a, b, c := s[..n], Concat(Ops(s[n..])), Tail(s[n..]);
      assert Concat(Ops(s)) == a + b && Tail(s) == c && b + c == s[n..];
      AppendAssociative(a, b, c);
      assert a + s[n..] == s;
    }
  }

  /** For a one-operation pattern, deletion is exactly filtering the operation list. */
  lemma {:induction false} DeleteIsFilter(s: Script, b: Script)
    requires SingleOp(b)
    ensures Deleted(s, b) == Concat(Without(Ops(s), b)) + Tail(s)
    decreases |s|
  {
    hide ReadOp;
    var op := ReadOp(s);
    if StartsWith(s, b) {
      ReadIsLocal(b, s);
      DeleteIsFilter(s[|b|..], b);
      assert Ops(s)[0] == b && Ops(s)[1..] == Ops(s[|b|..]);
    } else if op.Op? {
      var n, rest := op.size, s[op.size..];
      assert s[..n] != b;
      DeleteIsFilter(rest, b);
      assert Ops(s)[0] == s[..n] && Ops(s)[1..] == Ops(rest);
      var kept := Without(Ops(rest), b);
      assert Without(Ops(s), b) == [s[..n]] + kept;
      assert ([s[..n]] + kept)[1..] == kept;
      assert s[..n] + (Concat(kept) + Tail(rest)) == (s[..n] + Concat(kept)) + Tail(rest);
    }
  }

  /** The operations of the result are the remaining ones, so deleting twice deletes once. */
  lemma {:induction false} DeletedOps(s: Script, b: Script)
    requires SingleOp(b)
    ensures Ops(Deleted(s, b)) == Without(Ops(s), b)
    ensures Tail(Deleted(s, b)) == Tail(s)
    decreases |s|
  {
    hide ReadOp;
    var op := ReadOp(s);
    if StartsWith(s, b) {
      ReadIsLocal(b, s);
      DeletedOps(s[|b|..], b);
    } else if op.Op? {
      var n := op.size;
      DeletedOps(s[n..], b);
      var d := Deleted(s, b);
      assert d[..n] == s[..n] && d[n..] == Deleted(s[n..], b);
      ReadIsLocal(s, d);
    }
  }

  lemma {:induction false} WithoutAgain(parts: seq<Script>, b: Script)
    requires b !in parts
    ensures Without(parts, b) == parts
  {
    if parts != [] {
      assert parts[0] in parts;
      assert forall p :: p in parts[1..] ==> p in parts;
      WithoutAgain(parts[1..], b);
    }
  }

  lemma DeleteIdempotent(s: Script, b: Script)
    requires SingleOp(b)
    ensures Deleted(Deleted(s, b), b) == Deleted(s, b)
  {
    var d := Deleted(s, b);
    DeletedOps(s, b);
    DeleteIsFilter(d, b);
    WithoutAgain(Ops(d), b);
    OpsRebuild(d);
  }

  lemma EraseStep(s: Script, pc: nat, b: Script)
    requires b != [] && pc + |b| <= |s| && s[pc..pc + |b|] == b
    ensures var t := s[..pc] + s[pc + |b|..];
            s[..pc] + Deleted(s[pc..], b) == t[..pc] + Deleted(t[pc..], b)
  {
    assert StartsWith(s[pc..], b);
    assert s[pc..][|b|..] == s[pc + |b|..];
    var t := s[..pc] + s[pc + |b|..];
    assert t[pc..] == s[pc + |b|..] && t[..pc] == s[..pc];
  }

  lemma SkipStep(s: Script, pc: nat, next: nat, b: Script)
    requires b != [] && pc <= next <= |s| && !StartsWith(s[pc..], b)
    requires ReadOp(s[pc..]).Op? && ReadOp(s[pc..]).size == next - pc
    ensures s[..pc] + Deleted(s[pc..], b) == s[..next] + Deleted(s[next..], b)
  {
    assert s[pc..][..next - pc] == s[pc..next];
    assert s[pc..][next - pc..] == s[next..];
    var d := Deleted(s[next..], b);
    assert Deleted(s[pc..], b) == s[pc..next] + d;
    assert s[..next] + d == s[..pc] + (s[pc..next] + d);
  }

  lemma StopStep(s: Script, pc: nat, b: Script)
    requires pc <= |s|
    ensures b == [] ==> Deleted(s, b) == s
    ensures s[..0] + Deleted(s[0..], b) == Deleted(s, b)
    ensures !StartsWith(s[pc..], b) && ReadOp(s[pc..]).NoOp? ==> s[..pc] + Deleted(s[pc..], b) == s
  {
    assert s[0..] == s && s[..0] == [];
    assert s[..pc] + s[pc..] == s;
  }

  lemma PushIsSingleOp(b: seq<Byte>)
    requires |b| < 0x1_0000_0000
    ensures SingleOp(PushData(b))
  {
    PushReadsBack(b, []);
    assert PushData(b) + [] == PushData(b);
  }

  lemma SliceOfSuffix(s: Script, pc: nat, i: nat, n: nat)
    requires pc + i + n <= |s|
    ensures s[pc..][i..i + n] == s[pc + i..pc + i + n]
  {
  }

  // ----- The mutable script object -----

  class CScript {
    var bytes: Script

    constructor (b: Script)
      ensures bytes == b
    {
      bytes := b;
    }

    /** operator<< for a byte vector. */
    method Push(b: seq<Byte>)
      modifies this
      ensures bytes == old(bytes) + PushData(b)
    {
      if |b| < OP_PUSHDATA1 {
        bytes := bytes + [|b|];
      } else if |b| <= 0xff {
        bytes := bytes + [OP_PUSHDATA1];
        bytes := bytes + [|b|];
      } else if |b| <= 0xffff {
        bytes := bytes + [OP_PUSHDATA2];
        bytes := bytes + LeBytes(|b|, 2);
      } else {
        bytes := bytes + [OP_PUSHDATA4];
        bytes := bytes + LeBytes(|b|, 4);
      }
      bytes := bytes + b;
    }

    /** operator<< for an opcode. */
    method PushOpcode(opcode: Byte)
      modifies this
      ensures bytes == old(bytes) + [opcode]
    {
      bytes := bytes + [opcode];
    }

    /** GetOp2: reads at pc and advances it past the operation. */
    method GetOp(pc: nat) returns (ok: bool, opcode: Byte, data: seq<Byte>, next: nat)
      requires pc <= |bytes|
      ensures pc <= next <= |bytes|
      ensures ok == ReadOp(bytes[pc..]).Op?
      ensures ok ==> ReadOp(bytes[pc..]) == Op(opcode, data, next - pc)
      ensures !ok ==> opcode == OP_INVALIDOPCODE && data == []
    {
      ok, opcode, data, next := false, OP_INVALIDOPCODE, [], pc;
      ghost var s := bytes[pc..];
      if pc >= |bytes| { return; }
      var code := bytes[next];
      assert s[0] == code;
      next := next + 1;
      if code <= OP_PUSHDATA4 {
        var size: nat := code;
        if code >= OP_PUSHDATA1 {
          var width := if code == OP_PUSHDATA1 then 1 else if code == OP_PUSHDATA2 then 2 else 4;
          if |bytes| - next < width { return; }
          size := LeValue(bytes[next..next + width]);
          SliceOfSuffix(bytes, pc, 1, width);
          next := next + width;
        }
        assert size == OperandSize(s) && next == pc + HeaderSize(code);
        if |bytes| - next < size { return; }
        data := bytes[next..next + size];
        SliceOfSuffix(bytes, pc, next - pc, size);
        next := next + size;
      }
      ok, opcode := true, code;
    }

    /** Erases every occurrence of b that starts at an operation boundary. */
    method FindAndDelete(b: Script) returns (found: nat)
      modifies this
      ensures bytes == Deleted(old(bytes), b)
      ensures |old(bytes)| == |bytes| + found * |b|
    {
      hide Deleted, ReadOp;
      found := 0;
      StopStep(bytes, 0, b);
      if b == [] { return; }
      var pc := 0;
      var more := true;
      while more
        invariant pc <= |bytes|
        invariant more ==> Deleted(old(bytes), b) == bytes[..pc] + Deleted(bytes[pc..], b)
        invariant !more ==> Deleted(old(bytes), b) == bytes
        invariant |old(bytes)| == |bytes| + found * |b|
        decreases more, |bytes| - pc
      {
        ghost var before := |bytes|;
        while |bytes| - pc >= |b| && bytes[pc..pc + |b|] == b
          invariant pc <= |bytes|
          invariant Deleted(old(bytes), b) == bytes[..pc] + Deleted(bytes[pc..], b)
          invariant |old(bytes)| == |bytes| + found * |b|
          invariant |bytes| <= before
          decreases |bytes|
        {
          EraseStep(bytes, pc, b);
          bytes := bytes[..pc] + bytes[pc + |b|..];
          assert (found + 1) * |b| == found * |b| + |b|;
          found := found + 1;
        }
        if |b| <= |bytes| - pc { SliceOfSuffix(bytes, pc, 0, |b|); }
        assert !StartsWith(bytes[pc..], b);
        var ok, _, _, next := GetOp(pc);
        if ok {
          SkipStep(bytes, pc, next, b);
          pc := next;
        } else {
          StopStep(bytes, pc, b);
        }
        more := ok;
      }
    }
  }
}

/**
 * Arbitrary-precision integers as byte strings: the sign-magnitude encoding of
 * script numbers.
 * Source: src/bignum.h, src/script.cpp (CastToBool, CastToBigNum).
 */
module BigNum {
  import opened Bytes

  // ----- Sign-magnitude byte strings (setvch / getvch) -----

  /** Magnitude with the sign bit of the last byte cleared. */
  function Magnitude(v: seq<Byte>): nat
    requires v != []
  {
    LeValue(v[..|v| - 1] + [v[|v| - 1] % 128])
  }

  predicate Negative(v: seq<Byte>)
    requires v != []
  {
    v[|v| - 1] >= 128
  }

  function FromVch(v: seq<Byte>): int {
    if v == [] then 0
    else
      var m: int := Magnitude(v);
      if Negative(v) then -m else m
  }

  function Abs(n: int): nat { if n < 0 then -n else n }

  /** Bytes of a positive magnitude, with room for a clear top bit in the last one. */
  function MagnitudeBytes(n: nat): (v: seq<Byte>)
    requires n > 0
    ensures v != [] && v[|v| - 1] < 128
    ensures |v| >= 2 && v[|v| - 1] == 0 ==> v[|v| - 2] >= 128
    ensures LeValue(v) == n
  {
    if n < 128 then [n]
    else if n < 256 then
      assert LeValue([n, 0][1..]) == 0;
      [n, 0]
    else
      var rest := MagnitudeBytes(n / 256);
      var v := [n % 256] + rest;
      assert v[1..] == rest;
      v
  }

  function ToVch(n: int): (v: seq<Byte>)
    ensures n == 0 <==> v == []
  {
    if n == 0 then []
    else
      var m := MagnitudeBytes(Abs(n));
      if n > 0 then m else m[..|m| - 1] + [m[|m| - 1] + 128]
  }

  /** No shorter encoding of the same number exists. */
  predicate Minimal(v: seq<Byte>) {
    v == [] ||
    (v[|v| - 1] % 128 != 0 || (|v| >= 2 && v[|v| - 2] >= 128))
  }

  /** A loop over the bytes: false for every encoding of zero, also negative zero. */
  method CastToBool(v: seq<Byte>) returns (b: bool)
    ensures b == (FromVch(v) != 0)
  {
    for i := 0 to |v|
      invariant forall j :: 0 <= j < i ==> v[j] == 0
    {
      if v[i] != 0 {
        b := !(i == |v| - 1 && v[i] == 0x80);
        TruthIsNonZero(v);
        assert b == Truthy(v);
        return;
      }
    }
    TruthIsNonZero(v);
    b := false;
  }

  /** The answer CastToBool computes, as a function for use in specifications. */
  predicate Truthy(v: seq<Byte>) {
    exists i :: 0 <= i < |v| && v[i] != 0 && !(i == |v| - 1 && v[i] == 0x80)
  }

  lemma {:induction false} ZeroValue(s: seq<Byte>)
    ensures LeValue(s) == 0 <==> forall i :: 0 <= i < |s| ==> s[i] == 0
  {
    if s != [] {
      ZeroValue(s[1..]);
      assert forall i :: 0 < i < |s| ==> s[i] == s[1..][i - 1];
      if forall i :: 0 <= i < |s| ==> s[i] == 0 {
        assert forall i :: 0 <= i < |s| - 1 ==> s[1..][i] == s[i + 1];
      }
    }
  }

  lemma TruthIsNonZero(v: seq<Byte>)
    ensures Truthy(v) <==> FromVch(v) != 0
  {
    if v != [] {
      var n := |v| - 1;
      var m := v[..n] + [v[n] % 128];
      ZeroValue(m);
      assert forall i :: 0 <= i < n ==> m[i] == v[i];
      if LeValue(m) != 0 {
        var i :| 0 <= i < |m| && m[i] != 0;
        assert v[i] != 0 && !(i == n && v[i] == 0x80);
      } else {
        assert m[n] == 0;
        assert forall i :: 0 <= i < |m| ==> m[i] == 0;
      }
    }
  }

  /** getvch then setvch is the identity on numbers. */
  lemma VchRoundTrip(n: int)
    ensures FromVch(ToVch(n)) == n
    ensures Minimal(ToVch(n))
  {
    if n != 0 {
      var m, v := MagnitudeBytes(Abs(n)), ToVch(n);
      var k := |m| - 1;
      assert |v| == |m| && v[..k] == m[..k] && v[k] % 128 == m[k] && (v[k] >= 128 <==> n < 0);
      assert m == m[..k] + [m[k]];
      OneByte(m);
      hide ToVch, MagnitudeBytes, LeValue;
      assert v[..k] + [v[k] % 128] == m;
    }
  }

  lemma OneByte(m: seq<Byte>)
    ensures |m| == 1 ==> LeValue(m) == m[0]
  {
  }

  lemma {:induction false} MagnitudeUnique(m: seq<Byte>)
    requires m != [] && m[|m| - 1] < 128 && Minimal(m)
    ensures LeValue(m) > 0 && MagnitudeBytes(LeValue(m)) == m
  {
    var t := m[1..];
    assert m == [m[0]] + t;
    if |m| == 1 {
      assert LeValue(m) == m[0];
    } else if |m| == 2 {
      assert t == [m[1]] && LeValue(t) == m[1];
    } else {
      assert t[|t| - 1] == m[|m| - 1] && t[|t| - 2] == m[|m| - 2];
      MagnitudeUnique(t);
      assert LeValue(m) / 256 == LeValue(t);
    }
  }

  lemma SignedBytes(n: int, m: seq<Byte>)
    requires n != 0 && MagnitudeBytes(Abs(n)) == m
    ensures n > 0 ==> ToVch(n) == m
    ensures n < 0 ==> ToVch(n) == m[..|m| - 1] + [m[|m| - 1] + 128]
  {
  }

  lemma MinimalMagnitude(v: seq<Byte>)
    requires v != [] && Minimal(v)
    ensures Magnitude(v) > 0
    ensures MagnitudeBytes(Magnitude(v)) == v[..|v| - 1] + [v[|v| - 1] % 128]
  {
    var m := v[..|v| - 1] + [v[|v| - 1] % 128];
    assert |v| >= 2 ==> m[|v| - 2] == v[|v| - 2];
    MagnitudeUnique(m);
  }

  /** The minimal encoding of a number is unique: it is the one getvch writes. */
  lemma MinimalIsUnique(v: seq<Byte>)
    requires Minimal(v)
    ensures ToVch(FromVch(v)) == v
  {
    hide MagnitudeBytes, ToVch, LeValue, Magnitude;
    if v != [] {
      MinimalMagnitude(v);
      var init, last := v[..|v| - 1], v[|v| - 1];
      var m := init + [last % 128];
      SignedBytes(FromVch(v), m);
      assert m[..|m| - 1] == init;
      assert v == init + [last];
    }
  }

  // ----- Script numbers -----

  const MAX_NUM_SIZE := 4

  /** None is the "overflow" exception; otherwise leading zero bytes are dropped. */
  function CastToBigNum(v: seq<Byte>): Option<int> {
    if |v| > MAX_NUM_SIZE then None else Some(FromVch(ToVch(FromVch(v))))
  }

  const INT_MAX := 0x7fffffff
  const INT_MIN := -0x80000000

  function GetInt(n: int): int {
    if n > INT_MAX then INT_MAX else if n < -INT_MAX then INT_MIN else n
  }

  lemma CastIsValue(v: seq<Byte>)
    requires |v| <= MAX_NUM_SIZE
    ensures CastToBigNum(v) == Some(FromVch(v))
  {
    VchRoundTrip(FromVch(v));
  }
}

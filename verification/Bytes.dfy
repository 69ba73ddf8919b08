/** Bytes and little-endian naturals, shared by every wire and script format. */
module Bytes {

  type Byte = b: int | 0 <= b < 256

  datatype Option<+T> = None | Some(value: T)

  /** Value of a little-endian byte string. */
  function LeValue(s: seq<Byte>): nat {
    if s == [] then 0 else s[0] + 256 * LeValue(s[1..])
  }

  /** The n low-order bytes of v, least significant first. */
  function LeBytes(v: nat, n: nat): (s: seq<Byte>)
    ensures |s| == n
    decreases n
  {
    if n == 0 then [] else [v % 256] + LeBytes(v / 256, n - 1)
  }

  function Pow256(n: nat): (r: nat)
    ensures r >= 1
  {
    if n == 0 then 1 else 256 * Pow256(n - 1)
  }

  function Pow2(n: nat): (r: nat)
    ensures r >= 1
  {
    if n == 0 then 1 else 2 * Pow2(n - 1)
  }

  function Zeros(n: nat): (s: seq<Byte>)
    ensures |s| == n
    ensures forall i :: 0 <= i < n ==> s[i] == 0
  {
    seq(n, _ => 0)
  }

  function Reverse<T>(s: seq<T>): (r: seq<T>)
    ensures |r| == |s|
    ensures forall i :: 0 <= i < |s| ==> r[i] == s[|s| - 1 - i]
  {
    seq(|s|, i requires 0 <= i < |s| => s[|s| - 1 - i])
  }

  lemma {:induction false} LeValueOfBytes(v: nat, n: nat)
    requires v < Pow256(n)
    ensures LeValue(LeBytes(v, n)) == v
    decreases n
  {
    if n > 0 {
      LeValueOfBytes(v / 256, n - 1);
      assert LeBytes(v, n)[1..] == LeBytes(v / 256, n - 1);
    }
  }

  lemma {:induction false} LeBytesOfValue(s: seq<Byte>)
    ensures LeBytes(LeValue(s), |s|) == s
  {
    if s != [] {
      LeBytesOfValue(s[1..]);
      assert LeValue(s) / 256 == LeValue(s[1..]);
    }
  }

  lemma {:induction false} LeValueBound(s: seq<Byte>)
    ensures LeValue(s) < Pow256(|s|)
  {
    if s != [] {
      LeValueBound(s[1..]);
    }
  }

  lemma {:induction false} LeValueAppend(a: seq<Byte>, b: seq<Byte>)
    ensures LeValue(a + b) == LeValue(a) + Pow256(|a|) * LeValue(b)
  {
    if a == [] {
      assert a + b == b;
    } else {
      LeValueAppend(a[1..], b);
      assert (a + b)[1..] == a[1..] + b;
      assert LeValue(a + b) == a[0] + 256 * LeValue(a[1..] + b);
      Regroup(256, Pow256(|a| - 1), LeValue(b));
    }
  }

  lemma Regroup(x: nat, y: nat, z: nat)
    ensures x * (y * z) == x * y * z
  {
  }

  lemma {:induction false} LeValueZeros(n: nat)
    ensures LeValue(Zeros(n)) == 0
  {
    if n > 0 {
      LeValueZeros(n - 1);
      assert Zeros(n)[1..] == Zeros(n - 1);
    }
  }

  // ----- Products and quotients -----

  lemma MulLe(p: nat, a: nat, b: nat)
    requires a <= b
    ensures p * a <= p * b
  {
  }

  lemma MulStep(a: int, b: int, d: nat)
    requires a < b
    ensures a * d + d <= b * d
  {
    var k := b - a;
    MulLe(d, 1, k);
    assert (a + k) * d == a * d + d * k;
  }

  lemma AtLeastDiv(q: nat, x: nat, d: nat)
    requires d > 0 && q * d <= x
    ensures q <= x / d
  {
    var p := x / d;
    assert x == d * p + x % d;
    if p < q { MulStep(p, q, d); }
  }

  lemma QuotientGrows(x: nat, d: nat, e: nat)
    requires 0 < d <= e
    ensures x / e <= x / d
  {
    var q := x / e;
    assert x == e * q + x % e;
    MulLe(q, d, e);
    AtLeastDiv(q, x, d);
  }
}

/**
 * The 32-bit "compact" encoding of targets: a byte count and the three most
 * significant bytes.  Source: src/bignum.h, CBigNum::SetCompact and GetCompact.
 */
module Compact {
  import opened Bytes
  import opened BigNum

  // ----- The encoding, byte for byte -----

  /** Big-endian bytes of a number after the four size bytes that BN_bn2mpi writes. */
  function MpiBody(x: int): seq<Byte> { Reverse(ToVch(x)) }

  /** The number BN_mpi2bn reads from such bytes. */
  function FromMpiBody(body: seq<Byte>): int { FromVch(Reverse(body)) }

  function At(s: seq<Byte>, i: nat): Byte { if i < |s| then s[i] else 0 }

  /** Size in the top byte (wrapping), then the first three bytes. */
  function GetCompact(x: int): (c: nat)
    ensures c < 0x1_0000_0000
  {
    var body := MpiBody(x);
    |body| % 256 * 0x100_0000 + At(body, 0) * 0x1_0000 + At(body, 1) * 0x100 + At(body, 2)
  }

  function CompactBody(c: nat): (body: seq<Byte>)
    requires c < 0x1_0000_0000
    ensures |body| == c / 0x100_0000
  {
    var size := c / 0x100_0000;
    var head: seq<Byte> := [c / 0x1_0000 % 256, c / 0x100 % 256, c % 256];
    if size <= 3 then head[..size] else head + Zeros(size - 3)
  }

  function SetCompact(c: nat): int
    requires c < 0x1_0000_0000
  {
    FromMpiBody(CompactBody(c))
  }

  /** What is left of a number after one round through the encoding. */
  function Rounded(x: int): int { SetCompact(GetCompact(x)) }

  function Size(x: int): nat { |ToVch(x)| }

  /** The unit of the last byte kept. */
  function Unit(size: nat): nat { if size <= 3 then 1 else Pow256(size - 3) }

  // ----- Size and magnitude -----

  /** n has the range of numbers of s bytes. */
  ghost predicate InRange(n: int, s: nat) {
    && 0 < n && s >= 1 && n < 128 * Pow256(s - 1)
    && (s >= 2 ==> 128 * Pow256(s - 2) <= n)
  }

  lemma RangeUp(n: nat, s: nat)
    requires InRange(n / 256, s)
    ensures InRange(n, s + 1)
  {
    assert Pow256(s) == 256 * Pow256(s - 1);
    if s >= 2 { assert Pow256(s - 1) == 256 * Pow256(s - 2); }
    hide Pow256;
  }

  lemma {:induction false} MagnitudeRange(n: nat)
    requires n > 0
    ensures InRange(n, |MagnitudeBytes(n)|)
  {
    hide MagnitudeBytes;
    MagnitudeSize(n);
    if n >= 256 {
      hide InRange;
      MagnitudeRange(n / 256);
      RangeUp(n, |MagnitudeBytes(n / 256)|);
    } else if n >= 128 {
      assert Pow256(1) == 256 && Pow256(0) == 1;
    }
  }

  lemma MagnitudeSize(n: nat)
    requires n > 0
    ensures |MagnitudeBytes(n)|
         == if n < 128 then 1 else if n < 256 then 2 else 1 + |MagnitudeBytes(n / 256)|
  {
    hide LeValue;
  }

  lemma SizeFacts(x: nat)
    ensures x == 0 ==> Size(x) == 0
    ensures x > 0 ==> InRange(x, Size(x))
  {
    hide InRange;
    if x > 0 { MagnitudeRange(x); }
  }

  lemma {:induction false} PowGrows(a: nat, b: nat)
    requires a <= b
    ensures Pow256(a) <= Pow256(b)
    decreases b
  {
    if a < b { PowGrows(a, b - 1); }
  }

  /** The range decides the size. */
  lemma SizeByRange(n: nat, s: nat)
    requires InRange(n, s)
    ensures Size(n) == s
  {
    hide Pow256, Size;
    SizeFacts(n);
    var t := Size(n);
    if t < s { PowGrows(t - 1, s - 2); }
    if s < t { PowGrows(s - 1, t - 2); }
  }

  // ----- The encoding keeps the top bytes -----

  /** Three bytes as a number, least significant first. */
  function Three(a: int, b: int, c: int): int { a + 256 * b + 65536 * c }

  lemma LeThree(s: seq<Byte>)
    requires |s| == 3
    ensures LeValue(s) == Three(s[0], s[1], s[2])
  {
    var t := s[1..];
    var u := t[1..];
    assert u[1..] == [] && LeValue(u) == s[2];
    var a, b: int := s[1], s[2];
    assert LeValue(t) == a + 256 * b;
  }

  lemma DivUnique(x: nat, p: nat, q: nat, r: nat)
    requires p > 0 && x == r + p * q && r < p
    ensures x / p == q && x / p * p == x - r
  {
    var q' := x / p;
    assert x == p * q' + x % p;
    if q' < q { MulLe(p, q' + 1, q); }
    if q < q' { MulLe(p, q + 1, q'); }
  }

  /** Bytes of a non-negative number: its top three, and the rest below one unit. */
  lemma TopBytes(x: nat)
    requires Size(x) > 3
    ensures var v := ToVch(x); var s := |v|;
            var top := Three(v[s - 3], v[s - 2], v[s - 1]);
            v[s - 1] < 128 && x / Unit(s) == top && x / Unit(s) * Unit(s) == top * Unit(s)
  {
    var v := ToVch(x);
    var s := |v|;
    var low, high := v[..s - 3], v[s - 3..];
    assert v == low + high && x == LeValue(v);
    hide ToVch, LeValue;
    LeValueAppend(low, high);
    LeValueBound(low);
    LeThree(high);
    DivUnique(x, Pow256(s - 3), LeValue(high), LeValue(low));
  }

  /** Reading three bytes and zeros back. */
  lemma ReadTop(size: nat, b0: Byte, b1: Byte, b2: Byte)
    requires size > 3 && b0 < 128
    ensures FromMpiBody([b0, b1, b2] + Zeros(size - 3)) == Three(b2, b1, b0) * Pow256(size - 3)
  {
    var body := [b0, b1, b2] + Zeros(size - 3);
    var low, high := Zeros(size - 3), [b2, b1, b0];
    var v := Reverse(body);
    assert v == low + high;
    assert v[..|v| - 1] + [v[|v| - 1] % 128] == v;
    hide LeValue;
    LeValueAppend(low, high);
    LeValueZeros(size - 3);
    LeThree(high);
  }

  lemma CompactFields(size: nat, b0: Byte, b1: Byte, b2: Byte)
    requires size < 256
    ensures var c := size * 0x100_0000 + b0 * 0x1_0000 + b1 * 0x100 + b2;
            c < 0x1_0000_0000 && c / 0x100_0000 == size
            && c / 0x1_0000 % 256 == b0 && c / 0x100 % 256 == b1 && c % 256 == b2
  {
    var c0: int := size * 256 + b0;
    var c1: int := c0 * 256 + b1;
    var c: int := c1 * 256 + b2;
    assert c0 / 256 == size && c0 % 256 == b0;
    assert c1 / 256 == c0 && c1 % 256 == b1;
    assert c / 256 == c1 && c % 256 == b2;
    assert c / 0x1_0000 == c1 / 256;
    assert c / 0x100_0000 == c0 / 256;
  }

  /** Small numbers survive unchanged. */
  lemma RoundedSmall(x: nat)
    requires Size(x) <= 3
    ensures Rounded(x) == x
  {
    hide MagnitudeBytes, FromVch, ToVch;
    var body, v := MpiBody(x), ToVch(x);
    CompactFields(|body|, At(body, 0), At(body, 1), At(body, 2));
    assert CompactBody(GetCompact(x)) == body;
    assert Reverse(body) == v;
    VchRoundTrip(x);
  }

  /** One round through the encoding clears everything below the unit. */
  lemma RoundedIs(x: nat)
    requires Size(x) <= 255
    ensures Rounded(x) == x / Unit(Size(x)) * Unit(Size(x))
  {
    hide Rounded, Size;
    if Size(x) <= 3 { RoundedSmall(x); } else { RoundedLarge(x); }
  }

  lemma RoundedLarge(x: nat)
    requires 3 < Size(x) <= 255
    ensures Rounded(x) == x / Unit(Size(x)) * Unit(Size(x))
  {
    hide ToVch, FromMpiBody, Reverse, CompactBody, Three, Pow256;
    var s, body := Size(x), MpiBody(x);
    assert |body| == s;
    var b0: int, b1: int, b2: int := body[0], body[1], body[2];
    var c := s * 0x100_0000 + b0 * 0x1_0000 + b1 * 0x100 + b2;
    assert GetCompact(x) == c;
    TopBytes(x);
    ReadTop(s, b0, b1, b2);
    CompactBodyIs(s, b0, b1, b2);
    assert Rounded(x) == Three(b2, b1, b0) * Pow256(s - 3);
  }

  lemma CompactBodyIs(size: nat, b0: Byte, b1: Byte, b2: Byte)
    requires 3 < size < 256
    ensures var c := size * 0x100_0000 + b0 * 0x1_0000 + b1 * 0x100 + b2;
            c < 0x1_0000_0000 && CompactBody(c) == [b0, b1, b2] + Zeros(size - 3)
  {
    CompactFields(size, b0, b1, b2);
  }

  lemma DivMod(x: nat, u: nat)
    requires u > 0
    ensures 0 <= x / u * u <= x < x / u * u + u
  {
    assert x == u * (x / u) + x % u;
  }

  /** A number of more than three bytes is at least 2^15 units. */
  lemma ManyUnits(x: nat)
    requires Size(x) > 3
    ensures 0x8000 * Unit(Size(x)) <= x && 128 * Pow256(Size(x) - 2) == 0x8000 * Unit(Size(x))
  {
    SizeFacts(x);
    var s := Size(x);
    hide Size;
    assert Pow256(s - 2) == 256 * Pow256(s - 3);
  }

  /** Never above the number, and below it by less than one part in 2^15. */
  lemma RoundingError(x: nat)
    requires Size(x) <= 255
    ensures 0 <= Rounded(x) <= x && (x > 0 ==> 0x8000 * (x - Rounded(x)) < x)
    ensures Size(x) <= 3 ==> Rounded(x) == x
  {
    hide Size, Rounded;
    RoundedIs(x);
    DivMod(x, Unit(Size(x)));
    if Size(x) > 3 { ManyUnits(x); }
  }

  /** The rounded number has the same size. */
  lemma RoundedSize(x: nat)
    requires Size(x) <= 255
    ensures Rounded(x) >= 0 && Size(Rounded(x)) == Size(x)
    ensures Size(x) >= 2 ==> 128 * Pow256(Size(x) - 2) <= Rounded(x)
  {
    hide Size, Rounded, Pow256;
    RoundedIs(x);
    SizeFacts(x);
    var s, u := Size(x), Unit(Size(x));
    if s > 3 {
      DivMod(x, u);
      ManyUnits(x);
      DivAtLeast(x, u, 0x8000);
      SizeByRange(x / u * u, s);
    }
  }

  lemma DivAtLeast(x: nat, u: nat, k: nat)
    requires u > 0 && k * u <= x
    ensures k * u <= x / u * u
  {
    DivMod(x, u);
    var q := x / u;
    if q < k { MulLe(u, q + 1, k); }
  }

  /** Encoding what was decoded changes nothing more. */
  lemma RoundingIsIdempotent(x: nat)
    requires Size(x) <= 255
    ensures Rounded(Rounded(x)) == Rounded(x)
  {
    hide Rounded, Size, Unit;
    RoundedSize(x);
    RoundedIs(x);
    RoundedIs(Rounded(x));
    var u := Unit(Size(x));
    UnitPositive(Size(x));
    RoundTwice(x, u);
  }

  lemma UnitPositive(s: nat)
    ensures Unit(s) > 0
  {
  }

  lemma RoundTwice(x: nat, u: nat)
    requires u > 0
    ensures x / u * u / u * u == x / u * u
  {
    var q := x / u;
    assert x / u * u == 0 + u * q;
    DivUnique(x / u * u, u, q, 0);
  }

  /** A larger target never has a smaller encoded value. */
  lemma RoundingIsMonotone(x: nat, y: nat)
    requires x <= y && Size(x) <= 255 && Size(y) <= 255
    ensures Rounded(x) <= Rounded(y)
  {
    hide Rounded, Unit, Size, Pow256;
    RoundedIs(x);
    RoundedIs(y);
    RoundingError(x);
    RoundedSize(y);
    SizeFacts(x);
    SizeFacts(y);
    if x > 0 {
      var s, t := Size(x), Size(y);
      if s == t {
        UnitPositive(s);
        DivMonotone(x, y, Unit(s));
      } else if s < t {
        PowGrows(s - 1, t - 2);
      } else {
        PowGrows(t - 1, s - 2);
      }
    }
  }

  lemma DivMonotone(x: nat, y: nat, u: nat)
    requires x <= y && u > 0
    ensures x / u * u <= y / u * u
  {
    DivMod(x, u);
    DivAtLeast(y, u, x / u);
  }

  /** More than three bytes: the encoding is the size and the number of units. */
  lemma CompactIs(x: nat)
    requires 3 < Size(x) <= 255
    ensures GetCompact(x) == Size(x) * 0x100_0000 + x / Unit(Size(x))
  {
    hide ToVch, Reverse, Unit;
    var s, body := Size(x), MpiBody(x);
    assert |body| == s;
    TopBytes(x);
  }

  /** The decoded target has the encoding it came from. */
  lemma RoundingKeepsBits(x: nat)
    requires Size(x) <= 255
    ensures Rounded(x) >= 0 && GetCompact(Rounded(x)) == GetCompact(x)
  {
    hide Rounded, Size, Unit, GetCompact;
    RoundedSize(x);
    RoundingError(x);
    if Size(x) > 3 {
      RoundedIs(x);
      CompactIs(x);
      CompactIs(Rounded(x));
      var u := Unit(Size(x));
      UnitPositive(Size(x));
      UnitsKept(x, u);
    }
  }

  lemma UnitsKept(x: nat, u: nat)
    requires u > 0
    ensures x / u * u / u == x / u
  {
    var q := x / u;
    assert x / u * u == 0 + u * q;
    DivUnique(x / u * u, u, q, 0);
  }
}

/**
 * Base58 text for byte strings, with checksum and address layers.
 * Source: src/base58.h.  The checksum hash is a parameter; a C string is the
 * sequence of its characters before the terminating zero.
 */
module Base58 {
  import opened Bytes
  import opened BigNum

  // ----- Positional numerals in any base, least significant digit first -----

  function Value(ds: seq<int>, b: nat): int {
    if ds == [] then 0 else ds[0] + b * Value(ds[1..], b)
  }

  function Digits(n: nat, b: nat): seq<int>
    requires b >= 2
  {
    if n == 0 then [] else [n % b] + Digits(n / b, b)
  }

  ghost predicate InBase(ds: seq<int>, b: nat) { forall i :: 0 <= i < |ds| ==> 0 <= ds[i] < b }

  /** No most significant zero. */
  ghost predicate Trimmed(ds: seq<int>) { ds != [] ==> ds[|ds| - 1] != 0 }

  function ZeroDigits(n: nat): (s: seq<int>)
    ensures |s| == n && forall i :: 0 <= i < n ==> s[i] == 0
  {
    seq(n, _ => 0)
  }

  lemma {:induction false} ValueOfDigits(n: nat, b: nat)
    requires b >= 2
    ensures Value(Digits(n, b), b) == n && InBase(Digits(n, b), b) && Trimmed(Digits(n, b))
    decreases n
  {
    if n > 0 {
      DigitsStep(n, b);
      hide Digits;
      var q, r := n / b, n % b;
      ValueOfDigits(q, b);
      var rest := Digits(q, b);
      assert ([r] + rest)[1..] == rest;
      if rest == [] { assert Value(rest, b) == 0; }
    }
  }

  lemma DigitsStep(n: nat, b: nat)
    requires b >= 2 && n > 0
    ensures n / b < n && 0 <= n % b < b && n == n % b + b * (n / b)
    ensures Digits(n, b) == [n % b] + Digits(n / b, b)
    ensures n / b == 0 ==> n % b != 0
  {
    assert Digits(n, b) == [n % b] + Digits(n / b, b);
    hide Digits;
    DivParts(n, b);
  }

  lemma DivParts(n: nat, b: nat)
    requires b >= 2 && n > 0
    ensures n / b < n && 0 <= n % b < b && n == n % b + b * (n / b)
    ensures n / b == 0 ==> n % b != 0
  {
    var q, r := n / b, n % b;
    assert n == b * q + r;
    assert (b - 2) * q >= 0;
    assert b * q == 2 * q + (b - 2) * q;
  }

  lemma {:induction false} ValueNatural(ds: seq<int>, b: nat)
    requires InBase(ds, b)
    ensures Value(ds, b) >= 0
    decreases |ds|
  {
    if ds != [] {
      ValueNatural(ds[1..], b);
      assert b * Value(ds[1..], b) >= 0;
    }
  }

  lemma DivStep(d: int, b: nat, v: nat)
    requires 0 <= d < b
    ensures (d + b * v) / b == v && (d + b * v) % b == d
  {
    var n := d + b * v;
    var q, r := n / b, n % b;
    assert b * q + r == d + b * v;
    if q < v { MulGap(q, v, b); }
    if v < q { MulGap(v, q, b); }
  }

  lemma MulGap(x: int, y: int, b: nat)
    requires x < y
    ensures b * x + b <= b * y
  {
    var k := y - x - 1;
    assert b * y == b * x + b + b * k;
    assert b * k >= 0;
  }

  /** Digits without a most significant zero are determined by their value. */
  lemma {:induction false} DigitsOfValue(ds: seq<int>, b: nat)
    requires b >= 2 && InBase(ds, b) && Trimmed(ds)
    ensures Value(ds, b) >= 0 && Digits(Value(ds, b), b) == ds
    decreases |ds|
  {
    ValueNatural(ds, b);
    if ds != [] {
      var rest := ds[1..];
      ValueNatural(rest, b);
      assert rest != [] ==> rest[|rest| - 1] == ds[|ds| - 1];
      DigitsOfValue(rest, b);
      DivStep(ds[0], b, Value(rest, b));
      NonZeroValue(ds, b);
      assert ds == [ds[0]] + rest;
    }
  }

  lemma NonZeroValue(ds: seq<int>, b: nat)
    requires b >= 2 && InBase(ds, b) && ds != []
    requires Trimmed(ds)
    requires Value(ds[1..], b) >= 0 && Digits(Value(ds[1..], b), b) == ds[1..]
    ensures Value(ds, b) > 0
  {
    var v := Value(ds[1..], b);
    if |ds| == 1 {
      assert ds[0] != 0;
    } else {
      assert v > 0;
      assert b * v > 0;
    }
  }

  lemma {:induction false} ValuePadded(ds: seq<int>, n: nat, b: nat)
    ensures Value(ds + ZeroDigits(n), b) == Value(ds, b)
    decreases |ds|, n
  {
    if ds != [] {
      ValuePadded(ds[1..], n, b);
      assert (ds + ZeroDigits(n))[1..] == ds[1..] + ZeroDigits(n);
    } else if n > 0 {
      ValuePadded([], n - 1, b);
      assert ([] + ZeroDigits(n))[1..] == [] + ZeroDigits(n - 1);
    }
  }

  // ----- Changing the base, keeping leading zeros -----

  function LeadingZeros(s: seq<int>): (z: nat)
    ensures z <= |s| && (forall i :: 0 <= i < z ==> s[i] == 0) && (z < |s| ==> s[z] != 0)
  {
    if s == [] || s[0] != 0 then 0 else 1 + LeadingZeros(s[1..])
  }

  lemma LeadingZerosIs(s: seq<int>, z: nat)
    requires z <= |s| && (forall i :: 0 <= i < z ==> s[i] == 0) && (z < |s| ==> s[z] != 0)
    ensures LeadingZeros(s) == z
  {
    var y := LeadingZeros(s);
    assert y < |s| ==> s[y] != 0;
  }

  /** Big-endian digits s of base b, as big-endian digits of base c with as many leading zeros. */
  function Convert(s: seq<int>, b: nat, c: nat): seq<int>
    requires c >= 2
  {
    var n := Value(Reverse(s), b);
    ZeroDigits(LeadingZeros(s)) + Reverse(Digits(if n >= 0 then n else 0, c))
  }

  /** Its leading zeros and its value determine a big-endian numeral. */
  lemma Restore(s: seq<int>, b: nat)
    requires b >= 2 && InBase(s, b)
    ensures var n := Value(Reverse(s), b); n >= 0 && s == ZeroDigits(LeadingZeros(s)) + Reverse(Digits(n, b))
  {
    hide Value, Digits, LeadingZeros, Reverse;
    var z := LeadingZeros(s);
    var ds := Reverse(s[z..]);
    ZerosApart(s, z);
    DigitsOfValue(ds, b);
    ValuePadded(ds, z, b);
  }

  lemma ZerosApart(s: seq<int>, z: nat)
    requires z <= |s| && (forall i :: 0 <= i < z ==> s[i] == 0) && (z < |s| ==> s[z] != 0)
    ensures var rest := s[z..];
            && s == ZeroDigits(z) + rest && Reverse(s) == Reverse(rest) + ZeroDigits(z)
            && Reverse(Reverse(rest)) == rest && Trimmed(Reverse(rest))
            && forall b: nat :: InBase(s, b) ==> InBase(Reverse(rest), b)
  {
  }

  lemma ConvertFacts(s: seq<int>, b: nat, c: nat)
    requires b >= 2 && c >= 2 && InBase(s, b)
    ensures var t := Convert(s, b, c);
            InBase(t, c) && LeadingZeros(t) == LeadingZeros(s) && Value(Reverse(t), c) == Value(Reverse(s), b) >= 0
  {
    hide Value, Digits, LeadingZeros;
    Restore(s, b);
    var n, z, t := Value(Reverse(s), b), LeadingZeros(s), Convert(s, b, c);
    var ds := Digits(n, c);
    ValueOfDigits(n, c);
    assert Reverse(t) == ds + ZeroDigits(z);
    ValuePadded(ds, z, c);
    if ds != [] { assert t[z] == ds[|ds| - 1]; }
    LeadingZerosIs(t, z);
  }

  /** Changing the base back restores every numeral, leading zeros included. */
  lemma ConvertBack(s: seq<int>, b: nat, c: nat)
    requires b >= 2 && c >= 2 && InBase(s, b)
    ensures Convert(Convert(s, b, c), c, b) == s
  {
    ConvertFacts(s, b, c);
    Restore(s, b);
    hide Value, Digits, Reverse;
  }

  // ----- The alphabet -----

  const ALPHABET: string := "123456789" + "ABCDEFGH" + "JKLMN" + "PQRSTUVWXYZ" + "abcdefghijk" + "mnopqrstuvwxyz"

  const BASE: nat := 58

  /** The alphabet as runs of consecutive characters. */
  function Symbol(d: int): char
    requires 0 <= d < BASE
  {
    if d < 9 then '1' + d as char
    else if d < 17 then 'A' + (d - 9) as char
    else if d < 22 then 'J' + (d - 17) as char
    else if d < 33 then 'P' + (d - 22) as char
    else if d < 44 then 'a' + (d - 33) as char
    else 'm' + (d - 44) as char
  }

  lemma AlphabetIs(d: int)
    requires 0 <= d < BASE
    ensures |ALPHABET| == BASE && ALPHABET[d] == Symbol(d)
  {
  }

  /** Characters increase along the alphabet, so none occurs twice. */
  lemma SymbolsIncrease(d: int, e: int)
    requires 0 <= d < e < BASE
    ensures Symbol(d) < Symbol(e)
  {
  }

  predicate IsSpace(c: char) { c == ' ' || '\t' <= c <= '\r' }

  /** strchr in the alphabet, from position k. */
  function Find(c: char, k: nat): (r: Option<nat>)
    requires k <= BASE
    ensures r.Some? ==> r.value < BASE && Symbol(r.value) == c && !IsSpace(c)
    ensures r.None? ==> forall i :: k <= i < BASE ==> Symbol(i) != c
    decreases BASE - k
  {
    if k == BASE then None else if Symbol(k) == c then Some(k) else Find(c, k + 1)
  }

  predicate InAlphabet(c: char) { Find(c, 0).Some? }

  function DigitOf(c: char): (d: int)
    requires InAlphabet(c)
    ensures 0 <= d < BASE && Symbol(d) == c
  {
    Find(c, 0).value
  }

  /** Symbols and digits correspond one to one. */
  lemma DigitOfSymbol(d: int)
    requires 0 <= d < BASE
    ensures InAlphabet(Symbol(d)) && DigitOf(Symbol(d)) == d
  {
    hide Find, Symbol;
    var r := Find(Symbol(d), 0);
    assert r.Some?;
    var e := r.value;
    if e < d { SymbolsIncrease(e, d); }
    if d < e { SymbolsIncrease(d, e); }
  }

  // ----- What the coder computes -----

  ghost predicate AllSymbols(s: string) { forall i :: 0 <= i < |s| ==> InAlphabet(s[i]) }

  ghost function Text(ds: seq<int>): (s: string)
    requires InBase(ds, BASE)
    ensures |s| == |ds| && forall i :: 0 <= i < |ds| ==> s[i] == Symbol(ds[i])
  {
    seq(|ds|, i requires 0 <= i < |ds| => Symbol(ds[i]))
  }

  ghost function Numeral(s: string): (ds: seq<int>)
    requires AllSymbols(s)
    ensures |ds| == |s| && forall i :: 0 <= i < |s| ==> ds[i] == DigitOf(s[i])
    ensures InBase(ds, BASE)
  {
    seq(|s|, i requires 0 <= i < |s| => DigitOf(s[i]))
  }

  lemma NumeralOfText(ds: seq<int>)
    requires InBase(ds, BASE)
    ensures AllSymbols(Text(ds)) && Numeral(Text(ds)) == ds
  {
    hide InAlphabet, DigitOf, Symbol;
    forall i | 0 <= i < |ds| ensures InAlphabet(Symbol(ds[i])) && DigitOf(Symbol(ds[i])) == ds[i] {
      DigitOfSymbol(ds[i]);
    }
  }

  lemma TextOfNumeral(s: string)
    requires AllSymbols(s)
    ensures Text(Numeral(s)) == s
  {
    hide InAlphabet, DigitOf, Symbol;
  }

  ghost function AsBytes(ds: seq<int>): (v: seq<Byte>)
    requires InBase(ds, 256)
    ensures v == ds
  {
    seq(|ds|, i requires 0 <= i < |ds| => ds[i])
  }

  ghost function Encoded(v: seq<Byte>): string {
    ConvertFacts(v, 256, BASE);
    Text(Convert(v, 256, BASE))
  }

  /** Bytes of a string of symbols. */
  ghost function Decoded(s: string): seq<Byte>
    requires AllSymbols(s)
  {
    ConvertFacts(Numeral(s), BASE, 256);
    AsBytes(Convert(Numeral(s), BASE, 256))
  }

  function Spaces(s: string): (k: nat)
    ensures k <= |s| && (forall i :: 0 <= i < k ==> IsSpace(s[i])) && (k < |s| ==> !IsSpace(s[k]))
  {
    if s == "" || !IsSpace(s[0]) then 0 else 1 + Spaces(s[1..])
  }

  function Symbols(s: string): (k: nat)
    ensures k <= |s| && (forall i :: 0 <= i < k ==> InAlphabet(s[i])) && (k < |s| ==> !InAlphabet(s[k]))
  {
    if s == "" || !InAlphabet(s[0]) then 0 else 1 + Symbols(s[1..])
  }

  /** Symbols between optional spaces, or nothing. */
  ghost function Parse(psz: string): Option<seq<Byte>> {
    var t := psz[Spaces(psz)..];
    var k := Symbols(t);
    if Spaces(t[k..]) == |t| - k then Some(Decoded(t[..k])) else None
  }

  /** Decoding undoes encoding, for every byte string. */
  lemma DecodeEncode(v: seq<Byte>)
    ensures AllSymbols(Encoded(v)) && Decoded(Encoded(v)) == v && Parse(Encoded(v)) == Some(v)
  {
    hide Convert, Text, Numeral, AllSymbols, InAlphabet, Symbol;
    var t := Convert(v, 256, BASE);
    ConvertFacts(v, 256, BASE);
    NumeralOfText(t);
    ConvertBack(v, 256, BASE);
    ParseSymbols(Encoded(v));
  }

  /** Encoding undoes decoding, for every string of symbols. */
  lemma EncodeDecode(s: string)
    requires AllSymbols(s)
    ensures Parse(s) == Some(Decoded(s)) && Encoded(Decoded(s)) == s
  {
    hide Convert, Text, Numeral, AllSymbols, InAlphabet, Symbol;
    var ds := Numeral(s);
    ConvertFacts(ds, BASE, 256);
    ConvertBack(ds, BASE, 256);
    ConvertFacts(Decoded(s), 256, BASE);
    TextOfNumeral(s);
    ParseSymbols(s);
  }

  lemma ParseSymbols(s: string)
    requires AllSymbols(s)
    ensures Parse(s) == Some(Decoded(s))
  {
    hide Decoded, Find;
    var k := Spaces(s);
    if k > 0 { SymbolIsNoSpace(s[0]); }
    assert k == 0 && s[0..] == s;
    var n := Symbols(s);
    assert n == |s|;
    assert s[..n] == s;
  }

  lemma SymbolIsNoSpace(c: char)
    requires InAlphabet(c)
    ensures !IsSpace(c)
  {
  }

  // ----- Byte strings as numbers -----

  lemma {:induction false} LeIsValue(v: seq<Byte>)
    ensures LeValue(v) == Value(v, 256)
  {
    if v != [] { LeIsValue(v[1..]); }
  }

  /** setvch with an extra zero byte reads an unsigned number. */
  lemma SetUnsigned(v: seq<Byte>)
    ensures FromVch(v + [0]) == Value(v, 256)
  {
    var w := v + [0];
    assert w[..|w| - 1] + [w[|w| - 1] % 128] == w;
    LeValueAppend(v, [0]);
    assert LeValue([0]) == 0;
    LeIsValue(v);
  }

  /** getvch without its sign byte. */
  function Unsigned(v: seq<Byte>): seq<Byte> {
    if |v| >= 2 && v[|v| - 1] == 0 && v[|v| - 2] >= 0x80 then v[..|v| - 1] else v
  }

  lemma UnsignedIs(n: nat)
    ensures Unsigned(ToVch(n)) == Digits(n, 256)
  {
    if n > 0 { TrimSign(ToVch(n), n); }
  }

  lemma TrimSign(v: seq<Byte>, n: nat)
    requires v != [] && LeValue(v) == n > 0 && v[|v| - 1] < 128
    requires |v| >= 2 && v[|v| - 1] == 0 ==> v[|v| - 2] >= 128
    ensures Unsigned(v) == Digits(n, 256)
  {
    hide Digits;
    var u := Unsigned(v);
    assert LeValue([0]) == 0;
    if u != v {
      assert v == u + [0];
      LeValueAppend(u, [0]);
    }
    assert |u| == 1 ==> LeValue(u) == u[0];
    hide LeValue;
    LeIsValue(u);
    DigitsOfValue(u, 256);
  }

  // ----- The loops -----

  method EncodeBase58(v: seq<Byte>) returns (str: string)
    ensures str == Encoded(v)
  {
    hide Symbol, Value, Digits, FromVch, LeadingZeros, Reverse, ALPHABET, Encoded, Convert;
    var bn := FromVch(Reverse(v) + [0]);
    SetUnsigned(Reverse(v));
    assert Reverse<int>(v) == Reverse<Byte>(v);
    ConvertFacts(v, 256, BASE);
    ghost var n: nat := bn;
    ghost var ds := [];
    str := "";
    while bn > 0
      invariant bn >= 0 && ds + Digits(bn, BASE) == Digits(n, BASE) && InBase(ds, BASE)
      invariant str == Text(ds)
    {
      DigitsStep(bn, BASE);
      AlphabetIs(bn % BASE);
      str := str + [ALPHABET[bn % BASE]];
      ds := ds + [bn % BASE];
      bn := bn / BASE;
    }
    assert Digits(0, BASE) == [] by { NoDigits(); }
    assert ds == Digits(n, BASE);
    ghost var body := ds;
    var p := 0;
    while p < |v| && v[p] == 0
      invariant 0 <= p <= |v| && (forall i :: 0 <= i < p ==> v[i] == 0)
      invariant ds == body + ZeroDigits(p) && InBase(ds, BASE) && str == Text(ds)
    {
      AlphabetIs(0);
      str := str + [ALPHABET[0]];
      ds := ds + [0];
      p := p + 1;
    }
    LeadingZerosIs(v, p);
    ReverseText(body, p);
    EncodedIs(v);
    str := Reverse(str);
  }

  lemma EncodedIs(v: seq<Byte>)
    ensures Value(Reverse(v), 256) >= 0
    ensures var ds := ZeroDigits(LeadingZeros(v)) + Reverse(Digits(Value(Reverse(v), 256), BASE));
            InBase(ds, BASE) && Encoded(v) == Text(ds)
  {
    hide Value, Digits, LeadingZeros;
    assert Reverse<int>(v) == Reverse<Byte>(v);
    ConvertFacts(v, 256, BASE);
  }

  lemma NoDigits()
    ensures Digits(0, BASE) == []
  {
  }

  lemma ReverseText(ds: seq<int>, z: nat)
    requires InBase(ds, BASE)
    ensures InBase(ds + ZeroDigits(z), BASE) && InBase(ZeroDigits(z) + Reverse(ds), BASE)
    ensures Reverse(Text(ds + ZeroDigits(z))) == Text(ZeroDigits(z) + Reverse(ds))
  {
    hide Symbol;
  }

  /** Skips spaces from position k. */
  method SkipSpaces(s: string, k: nat) returns (p: nat)
    requires k <= |s|
    ensures p == k + Spaces(s[k..]) <= |s|
  {
    p := k;
    while p < |s| && IsSpace(s[p])
      invariant k <= p <= |s| && p + Spaces(s[p..]) == k + Spaces(s[k..])
    {
      assert s[p..][1..] == s[p + 1..];
      p := p + 1;
    }
  }

  method DecodeBase58(psz: string) returns (r: Option<seq<Byte>>)
    ensures r == Parse(psz)
  {
    hide Find, Value, Symbols, Spaces, Digits, ToVch, LeadingZeros, Convert;
    var start := SkipSpaces(psz, 0);
    assert psz[0..] == psz;
    var t := psz[start..];
    var bn, p := 0, 0;
    assert Value(Reverse<int>([]), BASE) == 0 by { EmptyValue(); }
    while p < |t|
      invariant 0 <= p <= |t| && AllSymbols(t[..p])
      invariant bn == Value(Reverse(Numeral(t[..p])), BASE) && bn >= 0
    {
      var p1 := Find(t[p], 0);
      if p1.None? {
        SymbolsIs(t, p);
        var q := SkipSpaces(t, p);
        if q < |t| { return None; }
        break;
      }
      AppendDigit(t, p);
      bn := bn * BASE + p1.value;
      p := p + 1;
    }
    SymbolsIs(t, p);
    if p == |t| { NoSpaces(t); }
    var vchTmp := Unsigned(ToVch(bn));
    UnsignedIs(bn);
    var zeros := 0;
    while zeros < |t| && t[zeros] == '1'
      invariant 0 <= zeros <= |t| && forall i :: 0 <= i < zeros ==> t[i] == '1'
    {
      zeros := zeros + 1;
    }
    LeadingOnes(t, p, zeros);
    r := Some(Zeros(zeros) + Reverse(vchTmp));
    ConvertIs(t[..p], zeros, vchTmp);
  }

  lemma EmptyValue()
    ensures Value(Reverse<int>([]), BASE) == 0
  {
  }

  lemma SymbolsIs(t: string, p: nat)
    requires p <= |t| && AllSymbols(t[..p]) && (p < |t| ==> !InAlphabet(t[p]))
    ensures Symbols(t) == p
  {
    hide InAlphabet;
    var k := Symbols(t);
    forall i | 0 <= i < p ensures InAlphabet(t[i]) { assert t[..p][i] == t[i]; }
  }

  lemma NoSpaces(t: string)
    ensures Spaces(t[|t|..]) == 0
  {
  }

  /** One more symbol multiplies by 58 and adds its digit. */
  lemma AppendDigit(t: string, p: nat)
    requires p < |t| && AllSymbols(t[..p]) && InAlphabet(t[p])
    ensures AllSymbols(t[..p + 1])
    ensures Value(Reverse(Numeral(t[..p + 1])), BASE) == Value(Reverse(Numeral(t[..p])), BASE) * BASE + DigitOf(t[p])
  {
    hide InAlphabet, DigitOf;
    var a, b := Numeral(t[..p]), Numeral(t[..p + 1]);
    assert b == a + [DigitOf(t[p])];
    var r := Reverse(b);
    assert r == [DigitOf(t[p])] + Reverse(a);
    assert r[1..] == Reverse(a);
  }

  /** The first symbol stands for zero, no other does. */
  lemma LeadingOnes(t: string, p: nat, z: nat)
    requires p <= |t| && AllSymbols(t[..p]) && (p < |t| ==> !InAlphabet(t[p]))
    requires z <= |t| && (forall i :: 0 <= i < z ==> t[i] == '1') && (z < |t| ==> t[z] != '1')
    ensures z <= p && LeadingZeros(Numeral(t[..p])) == z
  {
    hide InAlphabet, DigitOf;
    DigitOfSymbol(0);
    assert Symbol(0) == '1';
    var ds := Numeral(t[..p]);
    forall i | 0 <= i < z ensures ds[i] == 0 { assert t[..p][i] == Symbol(0); }
    if z < p { assert Symbol(ds[z]) == t[z]; }
    LeadingZerosIs(ds, z);
  }

  lemma ConvertIs(s: string, z: nat, v: seq<Byte>)
    requires AllSymbols(s) && LeadingZeros(Numeral(s)) == z
    requires var n := Value(Reverse(Numeral(s)), BASE); n >= 0 && v == Digits(n, 256)
    ensures Zeros(z) + Reverse(v) == Decoded(s)
  {
    hide Value, Digits, LeadingZeros;
    ConvertFacts(Numeral(s), BASE, 256);
  }

  // ----- Checksums -----

  type Sum4 = s: seq<Byte> | |s| == 4 witness [0, 0, 0, 0]

  /** First four bytes of the hash of a byte string. */
  type Checksum = seq<Byte> -> Sum4

  ghost function CheckEncoded(h: Checksum, v: seq<Byte>): string { Encoded(v + h(v)) }

  ghost function CheckParse(h: Checksum, psz: string): Option<seq<Byte>> {
    var r := Parse(psz);
    if r.None? || |r.value| < 4 then None
    else
      var k := |r.value| - 4;
      if h(r.value[..k]) == r.value[k..] then Some(r.value[..k]) else None
  }

  method EncodeBase58Check(h: Checksum, v: seq<Byte>) returns (str: string)
    ensures str == CheckEncoded(h, v)
  {
    str := EncodeBase58(v + h(v));
  }

  method DecodeBase58Check(h: Checksum, psz: string) returns (r: Option<seq<Byte>>)
    ensures r == CheckParse(h, psz)
  {
    r := DecodeBase58(psz);
    if r.None? { return; }
    if |r.value| < 4 { return None; }
    var k := |r.value| - 4;
    if h(r.value[..k]) != r.value[k..] { return None; }
    r := Some(r.value[..k]);
  }

  lemma CheckRoundTrip(h: Checksum, v: seq<Byte>)
    ensures CheckParse(h, CheckEncoded(h, v)) == Some(v)
  {
    hide Parse, Encoded;
    DecodeEncode(v + h(v));
    assert (v + h(v))[..|v|] == v && (v + h(v))[|v|..] == h(v);
  }

  /** A string of symbols that checks is the one that encoding produces. */
  lemma CheckCanonical(h: Checksum, s: string)
    requires AllSymbols(s) && CheckParse(h, s).Some?
    ensures CheckEncoded(h, CheckParse(h, s).value) == s
  {
    hide Parse, Encoded, Decoded, AllSymbols;
    EncodeDecode(s);
    var v := Parse(s).value;
    assert v == v[..|v| - 4] + v[|v| - 4..];
  }

  // ----- Versioned data and addresses -----

  datatype Data = Data(version: Byte, bytes: seq<Byte>)

  /** What SetString stores: an empty or undecodable string clears the object. */
  ghost function ParseData(h: Checksum, psz: string): Option<Data> {
    var r := CheckParse(h, psz);
    if r.None? || r.value == [] then None else Some(Data(r.value[0], r.value[1..]))
  }

  ghost function PrintData(h: Checksum, d: Data): string { CheckEncoded(h, [d.version] + d.bytes) }

  lemma DataRoundTrip(h: Checksum, d: Data)
    ensures ParseData(h, PrintData(h, d)) == Some(d)
  {
    hide CheckParse, CheckEncoded;
    var v := [d.version] + d.bytes;
    CheckRoundTrip(h, v);
    assert v[1..] == d.bytes;
  }

  lemma DataCanonical(h: Checksum, s: string)
    requires AllSymbols(s) && ParseData(h, s).Some?
    ensures PrintData(h, ParseData(h, s).value) == s
  {
    hide CheckParse, CheckEncoded, AllSymbols;
    CheckCanonical(h, s);
    var v := CheckParse(h, s).value;
    assert v == [v[0]] + v[1..];
  }

  const PUBKEY_ADDRESS := 0
  const SCRIPT_ADDRESS := 5
  const PUBKEY_ADDRESS_TEST := 111
  const SCRIPT_ADDRESS_TEST := 196

  type Id160 = s: seq<Byte> | |s| == 20 witness Zeros(20)

  datatype Destination = KeyId(id: Id160) | ScriptId(id: Id160) | NoDestination

  function AddressVersion(d: Destination, testNet: bool): Byte
    requires !d.NoDestination?
  {
    if d.KeyId? then if testNet then PUBKEY_ADDRESS_TEST else PUBKEY_ADDRESS
    else if testNet then SCRIPT_ADDRESS_TEST else SCRIPT_ADDRESS
  }

  /** Get: a destination only for a known version of this network and 20 bytes. */
  function Get(d: Data, testNet: bool): Destination {
    if |d.bytes| != 20 then NoDestination
    else if d.version == (if testNet then PUBKEY_ADDRESS_TEST else PUBKEY_ADDRESS) then KeyId(d.bytes)
    else if d.version == (if testNet then SCRIPT_ADDRESS_TEST else SCRIPT_ADDRESS) then ScriptId(d.bytes)
    else NoDestination
  }

  /** An address names one destination on one network, in text and back. */
  lemma AddressRoundTrip(h: Checksum, dest: Destination, testNet: bool)
    requires !dest.NoDestination?
    ensures var d := Data(AddressVersion(dest, testNet), dest.id);
            Get(d, testNet) == dest && Get(d, !testNet) == NoDestination && ParseData(h, PrintData(h, d)) == Some(d)
  {
    DataRoundTrip(h, Data(AddressVersion(dest, testNet), dest.id));
  }

  lemma AddressCanonical(h: Checksum, s: string, testNet: bool)
    requires AllSymbols(s) && ParseData(h, s).Some? && !Get(ParseData(h, s).value, testNet).NoDestination?
    ensures var dest := Get(ParseData(h, s).value, testNet);
            PrintData(h, Data(AddressVersion(dest, testNet), dest.id)) == s
  {
    hide ParseData, PrintData, AllSymbols;
    DataCanonical(h, s);
  }

  /** CBase58Data and CBitcoinAddress. */
  class CBitcoinAddress {
    const h: Checksum
    const testNet: bool
    var nVersion: Byte
    var vchData: seq<Byte>

    ghost function View(): Data
      reads this
    {
      Data(nVersion, vchData)
    }

    constructor (h: Checksum, testNet: bool)
      ensures View() == Data(0, []) && this.h == h && this.testNet == testNet
    {
      this.h, this.testNet, nVersion, vchData := h, testNet, 0, [];
    }

    /** The version is truncated to a byte. */
    method SetData(version: int, data: seq<Byte>)
      modifies this
      ensures View() == Data(version % 256, data)
    {
      nVersion, vchData := version % 256, data;
    }

    method Set(dest: Destination) returns (ok: bool)
      modifies this
      ensures ok == !dest.NoDestination?
      ensures ok ==> View() == Data(AddressVersion(dest, testNet), dest.id)
      ensures !ok ==> View() == old(View())
      ensures ok ==> Get(View(), testNet) == dest
    {
      match dest
      case KeyId(id) => SetData(if testNet then PUBKEY_ADDRESS_TEST else PUBKEY_ADDRESS, id); ok := true;
      case ScriptId(id) => SetData(if testNet then SCRIPT_ADDRESS_TEST else SCRIPT_ADDRESS, id); ok := true;
      case NoDestination => ok := false;
    }

    method SetString(psz: string) returns (ok: bool)
      modifies this
      ensures ok == ParseData(h, psz).Some?
      ensures View() == if ok then ParseData(h, psz).value else Data(0, [])
    {
      hide CheckParse;
      var v := DecodeBase58Check(h, psz);
      if v.None? || v.value == [] {
        vchData, nVersion := [], 0;
        return false;
      }
      nVersion, vchData := v.value[0], v.value[1..];
      ok := true;
    }

    method ToString() returns (s: string)
      ensures s == PrintData(h, View()) && ParseData(h, s) == Some(View())
    {
      hide CheckEncoded, ParseData;
      s := EncodeBase58Check(h, [nVersion] + vchData);
      DataRoundTrip(h, View());
    }
  }
}

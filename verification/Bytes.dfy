/** Octets and the little-endian fixed-width fields of packed structs. */
module Bytes {

  type byte = b: int | 0 <= b < 256
  type bytes = seq<byte>

  function Zeros(n: nat): (z: bytes)
    ensures |z| == n
    ensures forall i :: 0 <= i < n ==> z[i] == 0
  {
    seq(n, _ => 0)
  }

  function U16(v: int): (b: bytes)
    requires 0 <= v < 0x1_0000
    ensures |b| == 2
  {
    [v % 256, v / 256]
  }

  function FromU16(b: bytes): (v: int)
    requires |b| == 2
    ensures 0 <= v < 0x1_0000
  {
    b[0] as int + 256 * (b[1] as int)
  }

  function U32(v: int): (b: bytes)
    requires 0 <= v < 0x1_0000_0000
    ensures |b| == 4
  {
    U16(v % 0x1_0000) + U16(v / 0x1_0000)
  }

  function FromU32(b: bytes): (v: int)
    requires |b| == 4
    ensures 0 <= v < 0x1_0000_0000
  {
    FromU16(b[..2]) + 0x1_0000 * FromU16(b[2..])
  }

  predicate Int32(v: int) {
    -0x8000_0000 <= v < 0x8000_0000
  }

  /** A C `int` in two's complement. */
  function I32(v: int): (b: bytes)
    requires Int32(v)
    ensures |b| == 4
  {
    U32(if v < 0 then v + 0x1_0000_0000 else v)
  }

  function FromI32(b: bytes): (v: int)
    requires |b| == 4
    ensures Int32(v)
  {
    var u := FromU32(b);
    if u >= 0x8000_0000 then u - 0x1_0000_0000 else u
  }

  lemma U16RoundTrip(v: int)
    requires 0 <= v < 0x1_0000
    ensures FromU16(U16(v)) == v
  {
  }

  lemma U32RoundTrip(v: int)
    requires 0 <= v < 0x1_0000_0000
    ensures FromU32(U32(v)) == v
  {
    U16RoundTrip(v % 0x1_0000);
    U16RoundTrip(v / 0x1_0000);
    hide U16, FromU16;
    var low, high := U16(v % 0x1_0000), U16(v / 0x1_0000);
    assert (low + high)[..2] == low && (low + high)[2..] == high;
  }

  /** The bytes of a word, the lowest first. */
  lemma U32Bytes(v: int)
    requires 0 <= v < 0x1_0000_0000
    ensures U32(v) == [v % 0x100, v / 0x100 % 0x100, v / 0x1_0000 % 0x100, v / 0x100_0000]
  {
    ByteOfWord(v);
  }

  lemma ByteOfWord(v: int)
    requires 0 <= v < 0x1_0000_0000
    ensures v % 0x1_0000 % 0x100 == v % 0x100 && v % 0x1_0000 / 0x100 == v / 0x100 % 0x100
    ensures v / 0x1_0000 / 0x100 == v / 0x100_0000
  {
  }

  lemma U32OfBytes(b: bytes)
    requires |b| == 4
    ensures U32(FromU32(b)) == b
  {
    U16OfBytes(b[..2]);
    U16OfBytes(b[2..]);
    hide U16, FromU16;
    var low, high := FromU16(b[..2]), FromU16(b[2..]);
    assert (low + 0x1_0000 * high) % 0x1_0000 == low && (low + 0x1_0000 * high) / 0x1_0000 == high;
    assert b[..2] + b[2..] == b;
  }

  lemma U16OfBytes(b: bytes)
    requires |b| == 2
    ensures U16(FromU16(b)) == b
  {
  }

  lemma I32RoundTrip(v: int)
    requires Int32(v)
    ensures FromI32(I32(v)) == v
  {
    U32RoundTrip(if v < 0 then v + 0x1_0000_0000 else v);
  }

  /** What `strncpy(dst, src, n)` leaves in an n-byte field. */
  function Field(s: bytes, n: nat): (f: bytes)
    ensures |f| == n
  {
    if |s| >= n then s[..n] else s + Zeros(n - |s|)
  }

  /** The C string that starts at b: everything before the first NUL. */
  function CString(b: bytes): (s: bytes)
    ensures |s| <= |b|
    ensures 0 !in s
    ensures s == b[..|s|]
    ensures |s| < |b| ==> b[|s|] == 0
  {
    if b == [] || b[0] == 0 then [] else [b[0]] + CString(b[1..])
  }

  lemma {:induction false} CStringOfTerminated(s: bytes, rest: bytes)
    requires 0 !in s
    ensures CString(s + [0] + rest) == s
  {
    var b := s + [0] + rest;
    if s != [] {
      CStringOfTerminated(s[1..], rest);
      assert b[1..] == s[1..] + [0] + rest;
    }
  }

  /** A string that leaves room for its terminator survives a fixed-size field. */
  lemma CStringOfField(s: bytes, n: nat)
    requires 0 !in s && |s| < n
    ensures CString(Field(s, n)) == s
  {
    CStringOfTerminated(s, Zeros(n - |s| - 1));
    assert Field(s, n) == s + [0] + Zeros(n - |s| - 1);
  }

  /** A string all of whose characters are single octets. */
  predicate Octets(s: string) {
    forall i :: 0 <= i < |s| ==> s[i] as int < 256
  }

  function Encode(s: string): (b: bytes)
    requires Octets(s)
    ensures |b| == |s|
  {
    seq(|s|, i requires 0 <= i < |s| => s[i] as int)
  }

  function Decode(b: bytes): (s: string)
    ensures |s| == |b| && Octets(s)
  {
    seq(|b|, i requires 0 <= i < |b| => b[i] as char)
  }

  lemma DecodeEncode(s: string)
    requires Octets(s)
    ensures Decode(Encode(s)) == s
  {
  }

  // ---- bitwise or on unsigned words ----

  function Pow2(k: nat): (p: nat)
    ensures p > 0
  {
    if k == 0 then 1 else 2 * Pow2(k - 1)
  }

  function BitOr(a: nat, b: nat): nat
    decreases a + b
  {
    if a == 0 && b == 0 then 0
    else 2 * BitOr(a / 2, b / 2) + (if a % 2 == 1 || b % 2 == 1 then 1 else 0)
  }

  lemma {:induction false} BitOrCommutes(a: nat, b: nat)
    ensures BitOr(a, b) == BitOr(b, a)
    decreases a + b
  {
    if a != 0 || b != 0 {
      BitOrCommutes(a / 2, b / 2);
    }
  }

  lemma {:induction false} BitOrIdentity(a: nat)
    ensures BitOr(0, a) == a && BitOr(a, a) == a
  {
    if a != 0 {
      BitOrIdentity(a / 2);
    }
  }

  /** Or-ing a k-bit value below the bits of a multiple of 2^k adds it, and or-ing it again changes nothing. */
  lemma {:induction false} BitOrLow(x: nat, high: nat, k: nat)
    requires x < Pow2(k)
    ensures BitOr(x, high * Pow2(k)) == x + high * Pow2(k)
    ensures BitOr(x, x + high * Pow2(k)) == x + high * Pow2(k)
    decreases k
  {
    if k == 0 {
      BitOrIdentity(high);
    } else {
      var shifted := high * Pow2(k - 1);
      assert high * Pow2(k) == 2 * shifted;
      BitOrLow(x / 2, high, k - 1);
      assert (2 * shifted) / 2 == shifted && (2 * shifted) % 2 == 0;
      assert (x + 2 * shifted) / 2 == x / 2 + shifted && (x + 2 * shifted) % 2 == x % 2;
    }
  }

  lemma BitOrByte(x: byte, high: nat)
    ensures BitOr(x, 256 * high) == x + 256 * high && BitOr(x, x + 256 * high) == x + 256 * high
  {
    assert Pow2(8) == 256 by { assert Pow2(4) == 16; }
    BitOrLow(x, high, 8);
  }

  lemma BitOrHalf(x: nat, high: nat)
    requires x < 0x1_0000
    ensures BitOr(x, 0x1_0000 * high) == x + 0x1_0000 * high
  {
    assert Pow2(16) == 0x1_0000 by { assert Pow2(12) == 4096; }
    BitOrLow(x, high, 16);
  }
}

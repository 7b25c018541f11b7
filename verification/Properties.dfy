/**
 * Decoders of device-tree properties (src/bus/hwio_bus_devicetree.cpp): the
 * big-endian `reg` cells and the NUL-separated `compatible` list (sections
 * 2.3.6 and 2.3.1 of the Devicetree Specification v0.4).
 */
module Properties {
  import opened Bytes

  const WORD: int := 0x1_0000_0000

  // ---- reg ----

  /** The value of a big-endian cell. */
  function BigEndian(b: bytes): nat {
    if b == [] then 0 else 256 * BigEndian(b[..|b| - 1]) + b[|b| - 1] as int
  }

  function Mirrored(b: bytes): (m: bytes)
    ensures |m| == |b| && forall i :: 0 <= i < |b| ==> m[i] == b[|b| - 1 - i]
  {
    if b == [] then [] else Mirrored(b[1..]) + [b[0]]
  }

  /** The word with its bytes in the opposite order. */
  function Reversed(v: int): (r: int)
    requires 0 <= v < WORD
    ensures 0 <= r < WORD
  {
    FromU32(Mirrored(U32(v)))
  }

  lemma MirroredTwice(b: bytes)
    ensures Mirrored(Mirrored(b)) == b
  {
  }

  lemma ReversedTwice(v: int)
    requires 0 <= v < WORD
    ensures Reversed(Reversed(v)) == v
  {
    hide U32, FromU32, Mirrored;
    U32OfBytes(Mirrored(U32(v)));
    MirroredTwice(U32(v));
    U32RoundTrip(v);
  }

  /** The word with these bytes, lowest first. */
  function Word(a: byte, b: byte, c: byte, d: byte): (v: int)
    ensures 0 <= v < WORD
  {
    a as int + 256 * b as int + 0x1_0000 * c as int + 0x100_0000 * d as int
  }

  lemma BigEndianOfFour(b: bytes)
    requires |b| == 4
    ensures BigEndian(b) == Word(b[3], b[2], b[1], b[0])
  {
    assert b[..3][..2] == b[..2] && b[..2][..1] == b[..1] && b[..1][..0] == [];
    assert BigEndian(b[..1]) == b[0] as int;
    assert BigEndian(b[..2]) == 256 * b[0] as int + b[1] as int;
    assert BigEndian(b[..3]) == 256 * (256 * b[0] as int + b[1] as int) + b[2] as int;
  }

  lemma LittleEndianOfFour(b: bytes)
    requires |b| == 4
    ensures FromU32(b) == Word(b[0], b[1], b[2], b[3])
  {
  }

  /** A little-endian load followed by the reversal gives the big-endian value. */
  lemma ReversedLoad(b: bytes)
    requires |b| == 4
    ensures Reversed(FromU32(b)) == BigEndian(b)
  {
    U32OfBytes(b);
    BigEndianOfFour(b);
    var m := Mirrored(b);
    LittleEndianOfFour(m);
    hide FromU32, U32, BigEndian, Mirrored, Word;
  }

  /** Shifting a word down by a byte. */
  lemma ShiftDown(a: byte, b: byte, c: byte, d: byte)
    ensures Word(a, b, c, d) % 256 == a && Word(a, b, c, d) / 256 == Word(b, c, d, 0)
  {
  }

  /** Shifting a word up by a byte and or-ing a byte in. */
  lemma ShiftUp(a: byte, b: byte, c: byte, d: byte, low: byte)
    ensures (256 * Word(a, b, c, d)) % WORD == Word(0, a, b, c)
    ensures BitOr(low, Word(0, a, b, c)) == Word(low, a, b, c)
  {
    hide BitOr;
    UpBits(a, b, c, d, low);
    hide Word;
    DropOverflow(Word(0, a, b, c), d);
    BitOrByte(low, Word(a, b, c, 0));
  }

  lemma UpBits(a: byte, b: byte, c: byte, d: byte, low: byte)
    ensures 256 * Word(a, b, c, d) == Word(0, a, b, c) + WORD * d as int
    ensures Word(0, a, b, c) == 256 * Word(a, b, c, 0) && Word(low, a, b, c) == low as int + 256 * Word(a, b, c, 0)
  {
  }

  lemma DropOverflow(v: int, d: int)
    requires 0 <= v < WORD && 0 <= d
    ensures (v + WORD * d) % WORD == v
  {
  }

  /** What is left of a word after i of its bytes have been shifted out. */
  function Shifted(b: bytes, i: int): int
    requires |b| == 4
  {
    if i == 0 then Word(b[0], b[1], b[2], b[3])
    else if i == 1 then Word(b[1], b[2], b[3], 0)
    else if i == 2 then Word(b[2], b[3], 0, 0)
    else if i == 3 then Word(b[3], 0, 0, 0)
    else Word(0, 0, 0, 0)
  }

  /** What has been gathered by then. */
  function Gathered(b: bytes, i: int): int
    requires |b| == 4
  {
    if i == 0 then Word(0, 0, 0, 0)
    else if i == 1 then Word(b[0], 0, 0, 0)
    else if i == 2 then Word(b[1], b[0], 0, 0)
    else if i == 3 then Word(b[2], b[1], b[0], 0)
    else Word(b[3], b[2], b[1], b[0])
  }

  lemma LaneStep(b: bytes, i: int)
    requires |b| == 4 && 0 <= i < 4
    ensures Shifted(b, i) % 256 == b[i] && Shifted(b, i) / 256 == Shifted(b, i + 1)
    ensures BitOr(b[i], (256 * Gathered(b, i)) % WORD) == Gathered(b, i + 1)
    ensures Shifted(b, i + 1) >= 0 && Gathered(b, i + 1) >= 0
  {
    hide Word, BitOr;
    if i == 0 {
      ShiftDown(b[0], b[1], b[2], b[3]);
      ShiftUp(0, 0, 0, 0, b[0]);
    } else if i == 1 {
      ShiftDown(b[1], b[2], b[3], 0);
      ShiftUp(b[0], 0, 0, 0, b[1]);
    } else if i == 2 {
      ShiftDown(b[2], b[3], 0, 0);
      ShiftUp(b[1], b[0], 0, 0, b[2]);
    } else {
      ShiftDown(b[3], 0, 0, 0);
      ShiftUp(b[2], b[1], b[0], 0, b[3]);
    }
  }

  /** reverse_endianity on a 32-bit value. */
  method ReverseEndianity(val: int) returns (tmp: int)
    requires 0 <= val < WORD
    ensures tmp == Reversed(val)
  {
    hide BitOr, FromU32, U32, Mirrored, Word, Shifted, Gathered;
    ghost var b := U32(val);
    Lanes(val, b);
    tmp := 0;
    var v := val;
    for i := 0 to 4
      invariant v == Shifted(b, i) >= 0 && tmp == Gathered(b, i) >= 0
    {
      LaneStep(b, i);
      tmp := (256 * tmp) % WORD;
      tmp := BitOr(v % 256, tmp);
      v := v / 256;
    }
  }

  /** Where the loop starts and ends. */
  lemma Lanes(val: int, b: bytes)
    requires 0 <= val < WORD && b == U32(val)
    ensures Shifted(b, 0) == val && Gathered(b, 0) == 0 && Gathered(b, 4) == Reversed(val)
  {
    U32RoundTrip(val);
    LittleEndianOfFour(b);
    LittleEndianOfFour(Mirrored(b));
    hide FromU32, U32, Mirrored;
  }

  /** Base and size of a device. */
  datatype Reg = Reg(base: int, size: int)

  /** dev_parse_reg; an exception unless both cells have 32 bits. */
  datatype ParsedReg = Good(reg: Reg) | WrongSize

  /** The two cells of a property of eight bytes. */
  function RegOf(content: bytes): ParsedReg {
    if |content| != 8 then WrongSize
    else Good(Reg(BigEndian(content[..4]), BigEndian(content[4..])))
  }

  method DevParseReg(content: bytes) returns (r: ParsedReg)
    ensures r == RegOf(content)
  {
    hide BigEndian, FromU32, Reversed;
    if |content| != 2 * 4 {
      return WrongSize;
    }
    var base, size := FromU32(content[..4]), FromU32(content[4..]);
    base := ReverseEndianity(base);
    size := ReverseEndianity(size);
    ReversedLoad(content[..4]);
    ReversedLoad(content[4..]);
    r := Good(Reg(base, size));
  }

  // ---- compatible ----

  /** A list of strings, each followed by a NUL. */
  function Joined(strings: seq<bytes>): bytes {
    if strings == [] then [] else strings[0] + [0] + Joined(strings[1..])
  }

  predicate NulFree(strings: seq<bytes>) {
    forall i :: 0 <= i < |strings| ==> 0 !in strings[i]
  }

  /** The strings of a property; file_read has put a NUL behind its content. */
  function Split(content: bytes): seq<bytes>
    decreases |content|
  {
    if content == [] then []
    else
      var s := CString(content);
      [s] + if |s| + 1 >= |content| then [] else Split(content[|s| + 1..])
  }

  /** Every list of NUL-free strings is split back into itself. */
  lemma {:induction false} SplitJoined(strings: seq<bytes>)
    requires NulFree(strings)
    ensures Split(Joined(strings)) == strings
  {
    if strings != [] {
      var s, rest := strings[0], Joined(strings[1..]);
      var content := Joined(strings);
      SplitJoined(strings[1..]);
      CStringOfTerminated(s, rest);
      assert content == s + [0] + rest;
      assert content[|s| + 1..] == rest;
      if rest == [] {
        assert strings[1..] == [];
      }
    }
  }

  /** The first string of a property and the rest. */
  lemma SplitStep(content: bytes)
    requires content != []
    ensures var s := CString(content);
      Split(content) == [s] + if |s| + 1 < |content| then Split(content[|s| + 1..]) else []
  {
    hide CString;
  }

  /** No string of a property contains a NUL. */
  lemma {:induction false} SplitIsNulFree(content: bytes)
    ensures NulFree(Split(content))
    decreases |content|
  {
    if content != [] {
      SplitStep(content);
      hide Split;
      var s := CString(content);
      if |s| + 1 < |content| {
        SplitIsNulFree(content[|s| + 1..]);
      }
    }
  }

  /** A string that ends at its NUL or at the end of the property. */
  lemma FirstString(content: bytes)
    requires content != []
    ensures var s := CString(content);
      if |s| + 1 < |content| then content == s + [0] + content[|s| + 1..]
      else if |s| < |content| then content == s + [0] && content[|content| - 1] == 0
      else content == s && content[|content| - 1] != 0
  {
  }

  lemma JoinedOne(s: bytes, rest: seq<bytes>)
    ensures Joined([s] + rest) == s + [0] + Joined(rest)
  {
    assert ([s] + rest)[1..] == rest;
  }

  /** And every property is what its strings join to, up to a NUL that its last string may lack. */
  lemma {:induction false} JoinedSplit(content: bytes)
    ensures Joined(Split(content)) ==
      if content == [] || content[|content| - 1] == 0 then content else content + [0]
    decreases |content|
  {
    hide Split, CString, Joined;
    NothingJoined();
    if content != [] {
      var s := CString(content);
      SplitStep(content);
      FirstString(content);
      if |s| + 1 < |content| {
        var rest := content[|s| + 1..];
        JoinedSplit(rest);
        JoinedOne(s, Split(rest));
        assert s + [0] + (rest + [0]) == content + [0];
        assert rest[|rest| - 1] == content[|content| - 1];
      } else {
        JoinedOne(s, []);
        assert [s] + [] == [s] && s + [0] + [] == s + [0];
      }
    }
  }

  lemma NothingJoined()
    ensures Joined([]) == [] && Split([]) == []
  {
  }

  /** The strings from a position on. */
  function SplitFrom(content: bytes, at: nat): seq<bytes> {
    if at < |content| then Split(content[at..]) else []
  }

  lemma SplitFromStep(content: bytes, at: nat)
    requires at < |content|
    ensures var s := CString(content[at..]);
      SplitFrom(content, at) == [s] + SplitFrom(content, at + |s| + 1)
  {
    hide CString, Split;
    var rest := content[at..];
    SplitStep(rest);
    var s := CString(rest);
    assert |s| + 1 < |rest| ==> rest[|s| + 1..] == content[at + |s| + 1..];
  }

  lemma SplitFromStart(content: bytes)
    ensures SplitFrom(content, 0) == Split(content)
  {
    assert content[0..] == content;
  }

  /** The loop of dev_parse_compat. */
  method DevParseCompat(content: bytes) returns (strings: seq<bytes>)
    ensures strings == Split(content)
  {
    hide CString, Split, SplitFrom;
    strings := [];
    var actual := 0;
    SplitFromStart(content);
    while actual < |content|
      invariant Split(content) == strings + SplitFrom(content, actual)
      decreases |content| - actual
    {
      var s := CString(content[actual..]);
      SplitFromStep(content, actual);
      strings := strings + [s];
      actual := actual + |s| + 1;
    }
    NothingFrom(content, actual);
  }

  lemma NothingFrom(content: bytes, at: nat)
    requires |content| <= at
    ensures SplitFrom(content, at) == []
  {
  }
}

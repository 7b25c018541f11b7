/**
 * Block transfers over word accesses (src/device/ihwio_dev.h) on a memory
 * mapped device (src/device/hwio_device_mmap.cpp).
 *
 * A device is its memory plus the ordered trace of bus accesses made to it:
 * for hardware registers the width and the order of accesses are part of the
 * behaviour, so both are specified.
 */
module BlockTransfer {
  import opened Bytes

  const ADDRESS_SPACE: int := 0x1_0000_0000

  datatype Access =
    | R8(addr: int)
    | R32(addr: int)
    | W8(addr: int, octet: byte)
    | W32(addr: int, word: int)

  datatype DevState = DevState(mem: bytes, trace: seq<Access>, attaches: nat)
  {
    predicate InRange(off: int, n: int) {
      0 <= off && 0 <= n && off + n <= |mem|
    }

    /** The device after a local block read, and the data it returns. */
    function Read(off: int, n: int): (DevState, bytes)
      requires InRange(off, n)
    {
      (this.(trace := trace + ReadTrace(off, n)), mem[off..off + n])
    }

    /** The device after a local block write. */
    function Write(off: int, data: bytes): DevState
      requires InRange(off, |data|)
    {
      this.(mem := Overlay(mem, off, data), trace := trace + WriteTrace(off, data))
    }
  }

  /** The loads of a block read: 32-bit ones first, then the 8-bit tail. */
  function ReadTrace(off: int, n: nat): seq<Access>
    decreases n
  {
    if n >= 4 then [R32(off)] + ReadTrace(off + 4, n - 4)
    else seq(n, i requires 0 <= i < n => R8(off + i))
  }

  /** The stores of a block write. */
  function WriteTrace(off: int, data: bytes): seq<Access>
    decreases |data|
  {
    if |data| >= 4 then [W32(off, FromU32(data[..4]))] + WriteTrace(off + 4, data[4..])
    else OctetStores(off, data)
  }

  function OctetStores(off: int, data: bytes): (t: seq<Access>)
    ensures |t| == |data|
  {
    seq(|data|, i requires 0 <= i < |data| => W8(off + i, data[i]))
  }

  function Overlay(mem: bytes, off: int, data: bytes): (m: bytes)
    requires 0 <= off && off + |data| <= |mem|
    ensures |m| == |mem|
  {
    mem[..off] + data + mem[off + |data|..]
  }

  function Fill(c: byte, n: nat): (b: bytes)
    ensures |b| == n
  {
    seq(n, _ => c)
  }

  // ---- independent byte-level readings of a trace ----

  /** The byte addresses a trace touches, in order. */
  function Touched(trace: seq<Access>): seq<int> {
    if trace == [] then []
    else (match trace[0]
          case R8(a) => [a]
          case W8(a, _) => [a]
          case R32(a) => [a, a + 1, a + 2, a + 3]
          case W32(a, _) => [a, a + 1, a + 2, a + 3])
         + Touched(trace[1..])
  }

  function Range(off: int, n: nat): (r: seq<int>)
    ensures |r| == n
  {
    seq(n, i requires 0 <= i < n => off + i)
  }

  /** Writing one byte after the other, lowest address first. */
  function Bytewise(mem: bytes, off: int, data: bytes): (m: bytes)
    requires 0 <= off && off + |data| <= |mem|
    decreases |data|
  {
    if data == [] then mem else Bytewise(mem[off := data[0]], off + 1, data[1..])
  }

  predicate Stores(trace: seq<Access>, size: nat) {
    forall i :: 0 <= i < |trace| ==>
      match trace[i]
      case W8(a, _) => 0 <= a < size
      case W32(a, w) => 0 <= a && a + 4 <= size && 0 <= w < ADDRESS_SPACE
      case _ => true
  }

  /** Memory after the stores of a trace, replayed byte by byte. */
  function Replay(mem: bytes, trace: seq<Access>): bytes
    requires Stores(trace, |mem|)
    decreases |trace|
  {
    if trace == [] then mem
    else
      var m := match trace[0]
        case W8(a, v) => mem[a := v]
        case W32(a, w) =>
          var b := U32(w);
          mem[a := b[0]][a + 1 := b[1]][a + 2 := b[2]][a + 3 := b[3]]
        case _ => mem;
      Replay(m, trace[1..])
  }

  lemma {:induction false} TailTouches(trace: seq<Access>, off: int)
    requires forall i :: 0 <= i < |trace| ==> trace[i] == R8(off + i) || (trace[i].W8? && trace[i].addr == off + i)
    ensures Touched(trace) == Range(off, |trace|)
    decreases |trace|
  {
    if trace != [] {
      TailTouches(trace[1..], off + 1);
      assert Range(off, |trace|) == [off] + Range(off + 1, |trace| - 1);
    }
  }

  /** A block read touches every byte of the range exactly once, ascending. */
  lemma {:induction false} ReadTouchesRange(off: int, n: nat)
    ensures Touched(ReadTrace(off, n)) == Range(off, n)
    decreases n
  {
    if n >= 4 {
      ReadTouchesRange(off + 4, n - 4);
      assert ReadTrace(off, n)[1..] == ReadTrace(off + 4, n - 4);
      assert Range(off, n) == [off, off + 1, off + 2, off + 3] + Range(off + 4, n - 4);
    } else {
      TailTouches(ReadTrace(off, n), off);
    }
  }

  /** So does a block write. */
  lemma {:induction false} WriteTouchesRange(off: int, data: bytes)
    ensures Touched(WriteTrace(off, data)) == Range(off, |data|)
    decreases |data|
  {
    if |data| >= 4 {
      WriteTouchesRange(off + 4, data[4..]);
      assert WriteTrace(off, data)[1..] == WriteTrace(off + 4, data[4..]);
      assert Range(off, |data|) == [off, off + 1, off + 2, off + 3] + Range(off + 4, |data| - 4);
    } else {
      TailTouches(WriteTrace(off, data), off);
    }
  }

  /** floor(n / 4) word loads at ascending addresses, then n mod 4 octet loads. */
  lemma {:induction false} ReadTraceShape(off: int, n: nat)
    ensures ReadTrace(off, n) ==
      seq(n / 4, i requires 0 <= i < n / 4 => R32(off + 4 * i)) +
      seq(n % 4, i requires 0 <= i < n % 4 => R8(off + 4 * (n / 4) + i))
    decreases n
  {
    if n >= 4 {
      ReadTraceShape(off + 4, n - 4);
      assert (n - 4) / 4 == n / 4 - 1 && (n - 4) % 4 == n % 4;
    }
  }

  /** floor(n / 4) word stores, then n mod 4 octet stores. */
  lemma {:induction false} WriteTraceShape(off: int, data: bytes)
    ensures var n := |data|; var t := WriteTrace(off, data);
      && |t| == n / 4 + n % 4
      && (forall i :: 0 <= i < n / 4 ==> t[i].W32?)
      && (forall i :: n / 4 <= i < |t| ==> t[i].W8?)
    decreases |data|
  {
    var n := |data|;
    if n >= 4 {
      WriteTraceShape(off + 4, data[4..]);
      assert (n - 4) / 4 == n / 4 - 1 && (n - 4) % 4 == n % 4;
    }
  }

  /** Replaying the stores of a block write gives exactly the overlaid memory. */
  lemma {:induction false} WriteReplays(mem: bytes, off: int, data: bytes)
    requires 0 <= off && off + |data| <= |mem|
    ensures Stores(WriteTrace(off, data), |mem|)
    ensures Replay(mem, WriteTrace(off, data)) == Overlay(mem, off, data)
    decreases |data|
  {
    var t := WriteTrace(off, data);
    if |data| >= 4 {
      var m := Overlay(mem, off, data[..4]);
      U32OfBytes(data[..4]);
      WriteReplays(m, off + 4, data[4..]);
      assert t[1..] == WriteTrace(off + 4, data[4..]);
      assert mem[off := data[0]][off + 1 := data[1]][off + 2 := data[2]][off + 3 := data[3]] == m;
      assert Overlay(m, off + 4, data[4..]) == Overlay(mem, off, data);
    } else {
      OctetStoresReplay(mem, off, data);
    }
  }

  lemma {:induction false} OctetStoresReplay(mem: bytes, off: int, data: bytes)
    requires 0 <= off && off + |data| <= |mem| && |data| < 4
    ensures Stores(WriteTrace(off, data), |mem|)
    ensures Replay(mem, WriteTrace(off, data)) == Overlay(mem, off, data)
    decreases |data|
  {
    hide WriteTrace, Overlay, Replay, Stores;
    if data == [] {
      NoStores(mem, off);
    } else {
      var rest := WriteTrace(off + 1, data[1..]);
      OctetStoresReplay(mem[off := data[0]], off + 1, data[1..]);
      FirstOctet(off, data);
      FirstStore(mem, off, data[0], rest);
      FirstByte(mem, off, data);
    }
  }

  lemma NoStores(mem: bytes, off: int)
    requires 0 <= off <= |mem|
    ensures WriteTrace(off, []) == [] && Stores([], |mem|) && Replay(mem, []) == mem && Overlay(mem, off, []) == mem
  {
  }

  lemma FirstOctet(off: int, data: bytes)
    requires 0 < |data| < 4
    ensures WriteTrace(off, data) == [W8(off, data[0])] + WriteTrace(off + 1, data[1..])
  {
  }

  lemma FirstStore(mem: bytes, off: int, v: byte, rest: seq<Access>)
    requires 0 <= off < |mem| && Stores(rest, |mem|)
    ensures Stores([W8(off, v)] + rest, |mem|)
    ensures Replay(mem, [W8(off, v)] + rest) == Replay(mem[off := v], rest)
  {
    assert ([W8(off, v)] + rest)[1..] == rest;
  }

  lemma FirstByte(mem: bytes, off: int, data: bytes)
    requires 0 <= off && off + |data| <= |mem| && data != []
    ensures Overlay(mem[off := data[0]], off + 1, data[1..]) == Overlay(mem, off, data)
  {
  }

  /** The block definition agrees with writing byte after byte. */
  lemma {:induction false} OverlayIsBytewise(mem: bytes, off: int, data: bytes)
    requires 0 <= off && off + |data| <= |mem|
    ensures Overlay(mem, off, data) == Bytewise(mem, off, data)
    decreases |data|
  {
    if data == [] {
      assert Overlay(mem, off, data) == mem;
    } else {
      OverlayIsBytewise(mem[off := data[0]], off + 1, data[1..]);
      FirstByte(mem, off, data);
    }
  }

  /** A read returns the last bytes written, and disjoint bytes are left alone. */
  lemma ReadAfterWrite(st: DevState, off: int, data: bytes, at: int, n: nat)
    requires st.InRange(off, |data|) && st.InRange(at, n)
    ensures st.Write(off, data).Read(off, |data|).1 == data
    ensures at + n <= off || off + |data| <= at ==> st.Write(off, data).Read(at, n).1 == st.Read(at, n).1
  {
    var m := Overlay(st.mem, off, data);
    assert m[off..off + |data|] == data;
    if at + n <= off || off + |data| <= at {
      assert m[at..at + n] == st.mem[at..at + n];
    }
  }

  /**
   * The fill word of memset as the C expression computes it:
   * c, or-ed with (c << 8 | c), or-ed with itself << 16, in 32 bits.
   */
  function FillWord(c: byte): nat {
    var fill16 := BitOr(c, BitOr(c * 256, c));
    BitOr(fill16, fill16 * 0x1_0000 % ADDRESS_SPACE)
  }

  /** A memset leaves the octet everywhere in its range and nothing else changed. */
  lemma MemsetFills(dev: DevState, off: int, c: byte, n: nat, i: int)
    requires dev.InRange(off, n) && 0 <= i < |dev.mem|
    ensures dev.Write(off, Fill(c, n)).mem[i] == if off <= i < off + n then c else dev.mem[i]
  {
    hide WriteTrace;
  }

  /** All four octets of the fill word are c. */
  lemma FillWordLanes(c: byte)
    ensures FillWord(c) == FromU32([c, c, c, c])
  {
    FillWordValue(c);
    assert [c, c, c, c][..2] == [c, c] && [c, c, c, c][2..] == [c, c];
  }

  lemma FillWordValue(c: byte)
    ensures FillWord(c) == 0x0101_0101 * c
  {
    hide BitOr;
    BitOrCommutes(256 * c, c);
    BitOrByte(c, c);
    BitOrHalf(257 * c, 257 * c);
    var fill16 := 257 * c;
    assert fill16 * 0x1_0000 % ADDRESS_SPACE == 0x1_0000 * fill16;
  }

  /** A read of at least a word starts with one. */
  lemma ReadHead(off: int, n: nat)
    requires n >= 4
    ensures ReadTrace(off, n) == [R32(off)] + ReadTrace(off + 4, n - 4)
  {
  }

  /** One iteration of the word loop of a block read. */
  lemma {:induction false} ReadWord(off: int, done: nat)
    requires done % 4 == 0
    ensures ReadTrace(off, done + 4) == ReadTrace(off, done) + [R32(off + done)]
    decreases done
  {
    hide ReadTrace;
    ReadHead(off, done + 4);
    if done >= 4 {
      ReadWord(off + 4, done - 4);
      ReadHead(off, done);
      assert [R32(off)] + (ReadTrace(off + 4, done - 4) + [R32(off + done)]) ==
        ReadTrace(off, done) + [R32(off + done)];
    } else {
      ReadNothing(off);
      ReadNothing(off + 4);
    }
  }

  /** One iteration of the octet loop after the words. */
  lemma {:induction false} ReadOctet(off: int, done: nat, i: nat)
    requires done % 4 == 0 && i < 3
    ensures ReadTrace(off, done + i + 1) == ReadTrace(off, done + i) + [R8(off + done + i)]
    decreases done
  {
    hide ReadTrace;
    if done >= 4 {
      ReadOctet(off + 4, done - 4, i);
      ReadHead(off, done + i);
      ReadHead(off, done + i + 1);
    } else {
      ReadTail(off, i);
    }
  }

  lemma ReadTail(off: int, i: nat)
    requires i < 3
    ensures ReadTrace(off, i + 1) == ReadTrace(off, i) + [R8(off + i)]
  {
  }

  lemma WriteTraceHead(off: int, data: bytes)
    requires |data| >= 4
    ensures WriteTrace(off, data) == [W32(off, FromU32(data[..4]))] + WriteTrace(off + 4, data[4..])
  {
  }

  lemma WriteTraceStep(off: int, a: bytes, b: bytes)
    requires |a| >= 4
    requires WriteTrace(off + 4, a[4..] + b) == WriteTrace(off + 4, a[4..]) + WriteTrace(off + |a|, b)
    ensures WriteTrace(off, a + b) == WriteTrace(off, a) + WriteTrace(off + |a|, b)
  {
    hide WriteTrace, FromU32;
    assert (a + b)[..4] == a[..4] && (a + b)[4..] == a[4..] + b;
    WriteTraceHead(off, a);
    WriteTraceHead(off, a + b);
  }

  /** Block writes compose at word boundaries. */
  lemma {:induction false} WriteTraceSplit(off: int, a: bytes, b: bytes)
    requires |a| % 4 == 0
    ensures WriteTrace(off, a + b) == WriteTrace(off, a) + WriteTrace(off + |a|, b)
    decreases |a|
  {
    if a == [] {
      assert a + b == b;
    } else {
      WriteTraceSplit(off + 4, a[4..], b);
      WriteTraceStep(off, a, b);
    }
  }

  lemma WordStore(off: int, word: bytes)
    requires |word| == 4
    ensures WriteTrace(off, word) == [W32(off, FromU32(word))]
  {
    assert word[..4] == word && word[4..] == [];
  }

  /** One iteration of the word loop of a block write. */
  lemma WriteWord(mem: bytes, off: int, done: bytes, word: bytes)
    requires 0 <= off && off + |done| + 4 <= |mem|
    requires |done| % 4 == 0 && |word| == 4
    ensures Overlay(Overlay(mem, off, done), off + |done|, word) == Overlay(mem, off, done + word)
    ensures WriteTrace(off, done + word) == WriteTrace(off, done) + [W32(off + |done|, FromU32(word))]
    ensures U32(FromU32(word)) == word
  {
    WriteTraceSplit(off, done, word);
    WordStore(off + |done|, word);
    U32OfBytes(word);
  }

  /** One iteration of the octet loop after the words. */
  lemma WriteOctet(mem: bytes, off: int, done: bytes, tail: bytes, v: byte)
    requires 0 <= off && off + |done| + |tail| + 1 <= |mem|
    requires |done| % 4 == 0 && |tail| < 3
    ensures Overlay(mem, off, done + tail)[off + |done| + |tail| := v] == Overlay(mem, off, done + (tail + [v]))
    ensures WriteTrace(off, done + (tail + [v])) == WriteTrace(off, done + tail) + [W8(off + |done| + |tail|, v)]
  {
    WriteTraceSplit(off, done, tail);
    WriteTraceSplit(off, done, tail + [v]);
    var at := off + |done|;
    assert WriteTrace(at, tail + [v]) == WriteTrace(at, tail) + [W8(at + |tail|, v)];
  }

  /**
   * ihwio_dev over a memory mapped window. Offsets are 32-bit and wrap; the
   * mapped memory is the device's address range.
   */
  class Device {
    var mem: bytes
    var trace: seq<Access>
    var attaches: nat

    constructor (size: nat)
      ensures State() == DevState(Zeros(size), [], 0)
    {
      mem, trace, attaches := Zeros(size), [], 0;
    }

    function State(): DevState
      reads this
    {
      DevState(mem, trace, attaches)
    }

    method Attach()
      modifies this
      ensures State() == old(State()).(attaches := old(attaches) + 1)
    {
      attaches := attaches + 1;
    }

    method Read8(offset: int) returns (v: byte)
      requires State().InRange(offset, 1)
      modifies this`trace
      ensures v == mem[offset] && trace == old(trace) + [R8(offset)]
    {
      v := mem[offset];
      trace := trace + [R8(offset)];
    }

    method Read32(offset: int) returns (v: int)
      requires State().InRange(offset, 4)
      modifies this`trace
      ensures v == FromU32(mem[offset..offset + 4]) && trace == old(trace) + [R32(offset)]
    {
      v := FromU32(mem[offset..offset + 4]);
      trace := trace + [R32(offset)];
    }

    /** Two 32-bit loads, low word first. */
    method Read64(offset: int) returns (v: int)
      requires State().InRange(offset, 8)
      modifies this`trace
      ensures State() == old(State()).Read(offset, 8).0
      ensures v == FromU32(mem[offset..offset + 4]) + ADDRESS_SPACE * FromU32(mem[offset + 4..offset + 8])
    {
      var low := Read32(offset);
      var high := Read32(offset + 4);
      v := low + high * ADDRESS_SPACE;
      assert ReadTrace(offset + 8, 0) == [];
      assert ReadTrace(offset + 4, 4) == [R32(offset + 4)];
      assert ReadTrace(offset, 8) == [R32(offset), R32(offset + 4)];
    }

    method Write8(offset: int, v: byte)
      requires State().InRange(offset, 1)
      modifies this`mem, this`trace
      ensures mem == old(mem)[offset := v] && trace == old(trace) + [W8(offset, v)]
    {
      mem := mem[offset := v];
      trace := trace + [W8(offset, v)];
    }

    method Write32(offset: int, v: int)
      requires State().InRange(offset, 4) && 0 <= v < ADDRESS_SPACE
      modifies this`mem, this`trace
      ensures mem == Overlay(old(mem), offset, U32(v)) && trace == old(trace) + [W32(offset, v)]
    {
      mem := Overlay(mem, offset, U32(v));
      trace := trace + [W32(offset, v)];
    }

    /** Two 32-bit stores, low word first; a read64 then gives the value back. */
    method Write64(offset: int, v: int)
      requires State().InRange(offset, 8) && 0 <= v < ADDRESS_SPACE * ADDRESS_SPACE
      modifies this`mem, this`trace
      ensures State() == old(State()).Write(offset, U32(v % ADDRESS_SPACE) + U32(v / ADDRESS_SPACE))
      ensures FromU32(mem[offset..offset + 4]) + ADDRESS_SPACE * FromU32(mem[offset + 4..offset + 8]) == v
    {
      var low, high := v % ADDRESS_SPACE, v / ADDRESS_SPACE;
      Write32(offset, low);
      Write32(offset + 4, high);
      U32RoundTrip(low);
      U32RoundTrip(high);
      ghost var data := U32(low) + U32(high);
      assert data[..4] == U32(low) && data[4..] == U32(high);
      assert mem == Overlay(old(mem), offset, data);
      assert mem[offset..offset + 4] == U32(low) && mem[offset + 4..offset + 8] == U32(high);
      assert WriteTrace(offset + 8, []) == [];
      assert U32(high)[..4] == U32(high) && U32(high)[4..] == [];
      assert WriteTrace(offset + 4, U32(high)) == [W32(offset + 4, high)];
      assert WriteTrace(offset, data) == [W32(offset, low), W32(offset + 4, high)];
    }

    // Each block operation is two loops in one function in the original; they
    // are two methods here, with `Words` for the first one.

    method ReadWords(offset: int, n: nat) returns (dst: bytes, off: int)
      requires State().InRange(offset, n) && |mem| <= ADDRESS_SPACE
      modifies this`trace
      ensures |dst| == n - n % 4 && dst == mem[offset..offset + |dst|]
      ensures n % 4 > 0 ==> off == offset + |dst|
      ensures trace == old(trace) + ReadTrace(offset, |dst|)
    {
      hide U32, FromU32, ReadTrace;
      var left := n;
      off, dst := offset, [];
      assert ReadTrace(offset, 0) == [] by { ReadNothing(offset); }
      while left >= 4
        invariant |dst| + left == n && |dst| % 4 == 0
        invariant left > 0 ==> off == offset + |dst|
        invariant dst == mem[offset..offset + |dst|]
        invariant trace == old(trace) + ReadTrace(offset, |dst|)
      {
        var word := Read32(off);
        U32OfBytes(mem[off..off + 4]);
        ReadWord(offset, |dst|);
        dst := dst + U32(word);
        left := left - 4;
        off := (off + 4) % ADDRESS_SPACE;
      }
    }

    method Read(offset: int, n: nat) returns (dst: bytes)
      requires State().InRange(offset, n) && |mem| <= ADDRESS_SPACE
      modifies this`trace
      ensures State() == old(State()).Read(offset, n).0
      ensures dst == old(State()).Read(offset, n).1
    {
      hide ReadTrace;
      var off: int;
      dst, off := ReadWords(offset, n);
      ghost var done := |dst|;
      for i := 0 to n % 4
        invariant |dst| == done + i && dst == mem[offset..offset + done + i]
        invariant trace == old(trace) + ReadTrace(offset, done + i)
      {
        var at := (off + i) % ADDRESS_SPACE;
        assert at == offset + done + i;
        var octet := Read8(at);
        dst := dst + [octet];
        ReadOctet(offset, done, i);
      }
    }

    method WriteWords(offset: int, data: bytes) returns (left: bytes, off: int)
      requires State().InRange(offset, |data|) && |mem| <= ADDRESS_SPACE
      modifies this`mem, this`trace
      ensures |left| == |data| % 4 && left == data[|data| - |left|..]
      ensures left != [] ==> off == offset + |data| - |left|
      ensures State() == old(State()).Write(offset, data[..|data| - |left|])
    {
      hide U32, FromU32, WriteTrace, Overlay;
      ghost var done := [];
      off, left := offset, data;
      WriteNothing(old(mem), offset);
      while |left| >= 4
        invariant data == done + left && |done| % 4 == 0
        invariant left != [] ==> off == offset + |done|
        invariant mem == Overlay(old(mem), offset, done)
        invariant trace == old(trace) + WriteTrace(offset, done)
      {
        var word := left[..4];
        Write32(off, FromU32(word));
        WriteWord(old(mem), offset, done, word);
        left := left[4..];
        off := (off + 4) % ADDRESS_SPACE;
        done := done + word;
      }
    }

    method Write(offset: int, data: bytes)
      requires State().InRange(offset, |data|) && |mem| <= ADDRESS_SPACE
      modifies this`mem, this`trace
      ensures State() == old(State()).Write(offset, data)
    {
      hide WriteTrace, Overlay;
      var left, off := WriteWords(offset, data);
      ghost var done := data[..|data| - |left|];
      assert done + left[..0] == done;
      for i := 0 to |left|
        invariant mem == Overlay(old(mem), offset, done + left[..i])
        invariant trace == old(trace) + WriteTrace(offset, done + left[..i])
      {
        var at := (off + i) % ADDRESS_SPACE;
        assert at == offset + |done| + i;
        Write8(at, left[i]);
        WriteOctet(old(mem), offset, done, left[..i], left[i]);
        assert left[..i] + [left[i]] == left[..i + 1];
      }
      assert done + left[..|left|] == data;
    }

    method FillWords(offset: int, c: byte, n: nat) returns (off: int)
      requires State().InRange(offset, n) && |mem| <= ADDRESS_SPACE
      modifies this`mem, this`trace
      ensures n % 4 > 0 ==> off == offset + n - n % 4
      ensures State() == old(State()).Write(offset, Fill(c, n - n % 4))
    {
      hide U32, FromU32, WriteTrace, FillWord, Overlay, Fill;
      var fill := FillWord(c);
      FillNothing(mem, offset, c);
      FillWordLanes(c);
      var left := n;
      ghost var done := 0;
      off := offset;
      while left >= 4
        invariant done + left == n && done % 4 == 0
        invariant left > 0 ==> off == offset + done
        invariant mem == Overlay(old(mem), offset, Fill(c, done))
        invariant trace == old(trace) + WriteTrace(offset, Fill(c, done))
      {
        Write32(off, fill);
        FillStep(old(mem), offset, c, done);
        left := left - 4;
        off := (off + 4) % ADDRESS_SPACE;
        done := done + 4;
      }
    }

    /** Filling is writing n copies of c: same memory, same accesses. */
    method Memset(offset: int, c: byte, n: nat)
      requires State().InRange(offset, n) && |mem| <= ADDRESS_SPACE
      modifies this`mem, this`trace
      ensures State() == old(State()).Write(offset, Fill(c, n))
    {
      hide WriteTrace, Overlay, Fill;
      var off := FillWords(offset, c, n);
      ghost var done := n - n % 4;
      for i := 0 to n % 4
        invariant mem == Overlay(old(mem), offset, Fill(c, done + i))
        invariant trace == old(trace) + WriteTrace(offset, Fill(c, done + i))
      {
        var at := (off + i) % ADDRESS_SPACE;
        assert at == offset + done + i;
        Write8(at, c);
        FillOctet(old(mem), offset, c, done, i);
      }
    }
  }

  lemma ReadNothing(off: int)
    ensures ReadTrace(off, 0) == []
  {
  }

  lemma WriteNothing(mem: bytes, off: int)
    requires 0 <= off <= |mem|
    ensures Overlay(mem, off, []) == mem && WriteTrace(off, []) == []
  {
  }

  lemma FillNothing(mem: bytes, off: int, c: byte)
    requires 0 <= off <= |mem|
    ensures Overlay(mem, off, Fill(c, 0)) == mem && WriteTrace(off, Fill(c, 0)) == []
  {
  }

  lemma FillStep(mem: bytes, off: int, c: byte, done: nat)
    requires 0 <= off && off + done + 4 <= |mem| && done % 4 == 0
    ensures Overlay(Overlay(mem, off, Fill(c, done)), off + done, U32(FromU32([c, c, c, c]))) ==
      Overlay(mem, off, Fill(c, done + 4))
    ensures WriteTrace(off, Fill(c, done + 4)) ==
      WriteTrace(off, Fill(c, done)) + [W32(off + done, FromU32([c, c, c, c]))]
  {
    hide WriteTrace, FromU32, U32;
    WriteWord(mem, off, Fill(c, done), [c, c, c, c]);
    assert Fill(c, done) + [c, c, c, c] == Fill(c, done + 4);
  }

  lemma FillOctet(mem: bytes, off: int, c: byte, done: nat, i: nat)
    requires 0 <= off && off + done + i + 1 <= |mem| && done % 4 == 0 && i < 3
    ensures Overlay(mem, off, Fill(c, done + i))[off + done + i := c] == Overlay(mem, off, Fill(c, done + i + 1))
    ensures WriteTrace(off, Fill(c, done + i + 1)) == WriteTrace(off, Fill(c, done + i)) + [W8(off + done + i, c)]
  {
    assert Fill(c, done + i) == Fill(c, done) + Fill(c, i);
    assert Fill(c, done + i + 1) == Fill(c, done) + (Fill(c, i) + [c]);
    WriteOctet(mem, off, Fill(c, done), Fill(c, i), c);
  }
}

/**
 * The messages byte by byte, as src/hwio_remote.h lays them out: command
 * numbers, field order, widths and byte order.
 */
module Layout {
  import opened Bytes
  import opened CompSpec
  import opened Wire

  /** The two bytes of a 16-bit field. */
  function Two(v: int): (b: bytes)
    requires 0 <= v < 0x1_0000
  {
    [v % 0x100, v / 0x100]
  }

  /** The four bytes of a 32-bit field. */
  function Four(v: int): (b: bytes)
    requires 0 <= v < 0x1_0000_0000
    ensures |b| == 4
  {
    [v % 0x100, v / 0x100 % 0x100, v / 0x1_0000 % 0x100, v / 0x100_0000]
  }

  /** A signed field holds negative numbers in two's complement. */
  function Signed(v: int): (b: bytes)
    requires Int32(v)
    ensures |b| == 4
  {
    Four(if v < 0 then 0x1_0000_0000 + v else v)
  }

  lemma SignedBytes(v: int)
    requires Int32(v)
    ensures I32(v) == Signed(v)
  {
    hide U32;
    U32Bytes(if v < 0 then v + 0x1_0000_0000 else v);
  }

  /** Every frame starts with its command and the length of its body. */
  lemma FrameBytes(cmd: byte, body: bytes)
    requires |body| < 0x1_0000
    ensures Frame(cmd, body) == [cmd] + Two(|body|) + body
  {
  }

  // ---- requests ----

  lemma PingBytes()
    ensures EncodeRequest(Ping) == [4, 0, 0] && EncodeRequest(Bye) == [8, 0, 0]
  {
  }

  /** Device, address and size. */
  lemma ReadBytes(id: int, addr: int, n: int)
    requires Encodable(Read(id, addr, n))
    ensures EncodeRequest(Read(id, addr, n)) == [1] + Two(8) + (Two(id) + Four(addr) + Two(n))
  {
    hide U32, U16, Two, Four;
    TwoIsU16(id);
    TwoIsU16(n);
    TwoIsU16(8);
    FourIsU32(addr);
  }

  lemma TwoIsU16(v: int)
    requires 0 <= v < 0x1_0000
    ensures U16(v) == Two(v)
  {
  }

  lemma FourIsU32(v: int)
    requires 0 <= v < 0x1_0000_0000
    ensures U32(v) == Four(v)
  {
    hide U32;
    U32Bytes(v);
  }

  /** The same fields, and then the data. */
  lemma WriteBytes(id: int, addr: int, data: bytes)
    requires Encodable(Write(id, addr, data))
    ensures EncodeRequest(Write(id, addr, data)) ==
      [3] + Two(8 + |data|) + (Two(id) + Four(addr) + Two(|data|) + data)
  {
    hide U32, U16, Two, Four;
    TwoIsU16(id);
    TwoIsU16(|data|);
    TwoIsU16(8 + |data|);
    FourIsU32(addr);
  }

  /** Device and function, and then the arguments. */
  lemma CallBytes(id: int, fn: int, args: bytes, ret: nat)
    requires Encodable(Call(id, fn, args, ret))
    ensures EncodeRequest(Call(id, fn, args, ret)) == [16] + Two(6 + |args|) + (Two(id) + Four(fn) + args)
  {
    hide U32, U16, Two, Four;
    TwoIsU16(id);
    TwoIsU16(6 + |args|);
    FourIsU32(fn);
  }

  /** The character of a name in its field, zeros behind it. */
  function CharAt(s: string, i: nat): int {
    if i < |s| then s[i] as int else 0
  }

  lemma NameBytes(s: string, i: nat)
    requires FitsName(s) && i < 128
    ensures NameField(s)[i] == CharAt(s, i)
  {
  }

  /** Device and name. */
  lemma FindBytes(id: int, name: string, i: nat)
    requires Encodable(FindFunction(id, name)) && i < 128
    ensures var f := EncodeRequest(FindFunction(id, name));
      |f| == 133 && f[..5] == [17, 130, 0] + Two(id) && f[5 + i] == CharAt(name, i)
  {
    NameBytes(name, i);
    hide NameField;
  }

  /** Name, vendor and type in 128 bytes each, then major, minor and subminor. */
  lemma ItemBytes(s: Spec, i: nat)
    requires FitsItem(s) && i < 128
    ensures var b := EncodeItem(s);
      && |b| == 396
      && b[i] == CharAt(s.name, i) && b[128 + i] == CharAt(s.vendor, i) && b[256 + i] == CharAt(s.typ, i)
      && b[384..388] == Signed(s.version.major) && b[388..392] == Signed(s.version.minor)
      && b[392..396] == Signed(s.version.subminor)
  {
    NameBytes(s.name, i);
    NameBytes(s.vendor, i);
    NameBytes(s.typ, i);
    SignedBytes(s.version.major);
    SignedBytes(s.version.minor);
    SignedBytes(s.version.subminor);
    hide NameField, I32, Signed, CharAt;
  }

  /** A query is its items, one after the other. */
  lemma {:induction false} QueryItems(specs: seq<Spec>, k: nat)
    requires FitsItems(specs) && k < |specs|
    ensures EncodeItems(specs)[396 * k..396 * k + 396] == EncodeItem(specs[k])
  {
    hide EncodeItem;
    var n := |specs| - 1;
    if k < n {
      QueryItems(specs[..n], k);
    }
  }

  lemma QueryBytes(specs: seq<Spec>)
    requires Encodable(Query(specs))
    ensures EncodeRequest(Query(specs)) == [6] + Two(396 * |specs|) + EncodeItems(specs)
  {
    hide EncodeItems;
  }

  // ---- replies ----

  lemma ReplyBytes(data: bytes, found: bool, fn: int)
    requires |data| <= 2045 && 0 <= fn < 0x1_0000_0000
    ensures EncodeReply(Pong) == [5, 0, 0]
    ensures EncodeReply(Data(data)) == [2] + Two(|data|) + data
    ensures EncodeReply(Returned(data)) == [11] + Two(|data|) + data
    ensures EncodeReply(FunctionId(found, fn)) == [17, 5, 0, if found then 1 else 0] + Four(fn)
  {
    hide U32, Four;
    FourIsU32(fn);
  }

  /** Sixteen bits for each id. */
  lemma {:induction false} IdBytes(ids: seq<int>, i: nat)
    requires ReplyFits(Ids(ids)) && i < |ids|
    ensures EncodeReply(Ids(ids)) == [7] + Two(2 * |ids|) + EncodeIds(ids)
    ensures EncodeIds(ids)[2 * i..2 * i + 2] == Two(ids[i])
  {
    EachId(ids, i);
    hide EncodeIds;
  }

  lemma {:induction false} EachId(ids: seq<int>, i: nat)
    requires i < |ids| && forall k :: 0 <= k < |ids| ==> 0 <= ids[k] < 0x1_0000
    ensures EncodeIds(ids)[2 * i..2 * i + 2] == Two(ids[i])
  {
    var n := |ids| - 1;
    if i < n {
      EachId(ids[..n], i);
    }
  }
}

/**
 * Frames and messages of the remote protocol (src/hwio_remote.h). All structs
 * are packed; integers are little-endian.
 */
module Wire {
  import opened Bytes
  import opened CompSpec
  import opened Version

  const BUFFER_SIZE: int := 2048
  const RX_BUFFER_SIZE: int := 65536  // the server's receive buffer of a client
  const HEADER_SIZE: int := 3
  const MAX_NAME_LEN: int := 128
  const MAX_ITEMS_PER_QUERY: int := 5
  const MAX_ERR_MSG_LEN: int := 1024
  const MAX_DEVICES: int := 256

  const READ_REQ_SIZE: int := 8      // RdReq, and WrReq without its data
  const CALL_SIZE: int := 130        // RemoteCall and GetRemoteCallId
  const CALL_FAST_SIZE: int := 6     // RemoteCallFast
  const QUERY_ITEM_SIZE: int := 396  // Dev_query_item
  const ERR_MSG_SIZE: int := 1028    // ErrMsg

  const CMD_READ: byte := 1
  const CMD_READ_RESP: byte := 2
  const CMD_WRITE: byte := 3
  const CMD_PING_REQUEST: byte := 4
  const CMD_PING_REPLY: byte := 5
  const CMD_QUERY: byte := 6
  const CMD_QUERY_RESP: byte := 7
  const CMD_BYE: byte := 8
  const CMD_MSG: byte := 9
  const CMD_CALL: byte := 10
  const CMD_CALL_RET: byte := 11
  const CMD_CALL_FAST: byte := 16
  const CMD_GET_CALL_ID: byte := 17  // also the code of its response

  const UNKNOWN_COMMAND: int := 1
  const MALFORMED_PACKET: int := 2
  const ACCESS_DENIED: int := 4
  const IO_ERROR: int := 5

  const NO_FUNCTION: int := 0xffff_ffff  // -1 in an unsigned field

  function Frame(cmd: byte, body: bytes): (f: bytes)
    requires |body| < 0x1_0000
    ensures |f| == HEADER_SIZE + |body|
  {
    [cmd] + U16(|body|) + body
  }

  /** The declared length of the frame whose header starts the stream. */
  function FrameLength(stream: bytes): (n: nat)
    requires |stream| >= HEADER_SIZE
    ensures HEADER_SIZE <= n <= HEADER_SIZE + 0xffff
  {
    HEADER_SIZE + FromU16(stream[1..3])
  }

  /** A frame at the head of a stream is read back, whatever follows it. */
  lemma FrameReadsBack(cmd: byte, body: bytes, rest: bytes)
    requires |body| < 0x1_0000
    ensures var s := Frame(cmd, body) + rest;
      && FrameLength(s) == HEADER_SIZE + |body|
      && s[0] == cmd && s[HEADER_SIZE..FrameLength(s)] == body && s[FrameLength(s)..] == rest
  {
    U16RoundTrip(|body|);
    hide U16, FromU16;
    var s := Frame(cmd, body) + rest;
    assert s[1..3] == U16(|body|);
  }

  // ---- requests ----

  datatype Request =
    | Ping
    | Bye
    | Query(specs: seq<Spec>)
    | Read(id: int, addr: int, n: int)
    | Write(id: int, addr: int, data: bytes)
    | FindFunction(id: int, name: string)
    | Call(id: int, fn: int, args: bytes, ret: nat)

  /** A string the client can put into a name field: shorter than the field, no NUL. */
  predicate FitsName(s: string) {
    |s| < MAX_NAME_LEN && Octets(s) && forall i :: 0 <= i < |s| ==> s[i] != '\0'
  }

  predicate FitsItem(s: Spec) {
    && FitsName(s.name) && FitsName(s.vendor) && FitsName(s.typ)
    && Int32(s.version.major) && Int32(s.version.minor) && Int32(s.version.subminor)
  }

  predicate FitsItems(specs: seq<Spec>) {
    forall i :: 0 <= i < |specs| ==> FitsItem(specs[i])
  }

  /** The values of a request fit their fields and the frame fits the 2048-byte buffer. */
  predicate Encodable(r: Request) {
    match r
    case Ping => true
    case Bye => true
    case Query(specs) => |specs| <= MAX_ITEMS_PER_QUERY && FitsItems(specs)
    case Read(id, addr, n) => 0 <= id < 0x1_0000 && 0 <= addr < 0x1_0000_0000 && 0 <= n < 0x1_0000
    case Write(id, addr, data) =>
      && 0 <= id < 0x1_0000 && 0 <= addr < 0x1_0000_0000
      && HEADER_SIZE + READ_REQ_SIZE + |data| <= BUFFER_SIZE
    case FindFunction(id, name) => 0 <= id < 0x1_0000 && FitsName(name)
    case Call(id, fn, args, _) =>
      && 0 <= id < 0x1_0000 && 0 <= fn < 0x1_0000_0000
      && HEADER_SIZE + CALL_FAST_SIZE + |args| <= BUFFER_SIZE
  }

  function Command(r: Request): byte {
    match r
    case Ping => CMD_PING_REQUEST
    case Bye => CMD_BYE
    case Query(_) => CMD_QUERY
    case Read(_, _, _) => CMD_READ
    case Write(_, _, _) => CMD_WRITE
    case FindFunction(_, _) => CMD_GET_CALL_ID
    case Call(_, _, _, _) => CMD_CALL_FAST
  }

  /** copy_str_to_resp */
  function NameField(s: string): (f: bytes)
    requires FitsName(s)
    ensures |f| == MAX_NAME_LEN
  {
    Field(Encode(s), MAX_NAME_LEN)
  }

  function EncodeVersion(v: Version): (b: bytes)
    requires Int32(v.major) && Int32(v.minor) && Int32(v.subminor)
    ensures |b| == 12
  {
    I32(v.major) + I32(v.minor) + I32(v.subminor)
  }

  function EncodeItem(s: Spec): (b: bytes)
    requires FitsItem(s)
    ensures |b| == QUERY_ITEM_SIZE
  {
    NameField(s.name) + NameField(s.vendor) + NameField(s.typ) + EncodeVersion(s.version)
  }

  function EncodeItems(specs: seq<Spec>): (b: bytes)
    requires FitsItems(specs)
    ensures |b| == QUERY_ITEM_SIZE * |specs|
  {
    if specs == [] then [] else EncodeItems(specs[..|specs| - 1]) + EncodeItem(specs[|specs| - 1])
  }

  /** RemoteCallFast with its arguments. */
  function CallBody(id: int, fn: int, args: bytes): (b: bytes)
    requires 0 <= id < 0x1_0000 && 0 <= fn < 0x1_0000_0000
    ensures |b| == CALL_FAST_SIZE + |args|
  {
    U16(id) + U32(fn) + args
  }

  function Body(r: Request): (b: bytes)
    requires Encodable(r)
    ensures HEADER_SIZE + |b| <= BUFFER_SIZE
  {
    match r
    case Ping => []
    case Bye => []
    case Query(specs) => EncodeItems(specs)
    case Read(id, addr, n) => U16(id) + U32(addr) + U16(n)
    case Write(id, addr, data) => U16(id) + U32(addr) + U16(|data|) + data
    case FindFunction(id, name) => U16(id) + NameField(name)
    case Call(id, fn, args, _) => CallBody(id, fn, args)
  }

  function EncodeRequest(r: Request): bytes
    requires Encodable(r)
  {
    Frame(Command(r), Body(r))
  }

  // ---- replies ----

  datatype Reply =
    | Pong
    | Ids(ids: seq<int>)
    | Data(data: bytes)
    | FunctionId(found: bool, fn: int)
    | Returned(ret: bytes)

  predicate ReplyFits(r: Reply) {
    match r
    case Pong => true
    case Ids(ids) => HEADER_SIZE + 2 * |ids| <= BUFFER_SIZE && forall i :: 0 <= i < |ids| ==> 0 <= ids[i] < 0x1_0000
    case Data(data) => HEADER_SIZE + |data| <= BUFFER_SIZE
    case FunctionId(_, fn) => 0 <= fn < 0x1_0000_0000
    case Returned(ret) => HEADER_SIZE + |ret| <= BUFFER_SIZE
  }

  function EncodeIds(ids: seq<int>): (b: bytes)
    requires forall i :: 0 <= i < |ids| ==> 0 <= ids[i] < 0x1_0000
    ensures |b| == 2 * |ids|
  {
    if ids == [] then [] else EncodeIds(ids[..|ids| - 1]) + U16(ids[|ids| - 1])
  }

  function DecodeIds(b: bytes): (ids: seq<int>)
    requires |b| % 2 == 0
    ensures |ids| == |b| / 2
  {
    if b == [] then [] else DecodeIds(b[..|b| - 2]) + [FromU16(b[|b| - 2..])]
  }

  lemma {:induction false} IdsReadBack(ids: seq<int>)
    requires forall i :: 0 <= i < |ids| ==> 0 <= ids[i] < 0x1_0000
    ensures DecodeIds(EncodeIds(ids)) == ids
  {
    hide EncodeIds, DecodeIds;
    if ids == [] {
      NoIds();
    } else {
      var init, last := ids[..|ids| - 1], ids[|ids| - 1];
      IdsReadBack(init);
      EncodeLastId(ids);
      DecodeLastId(EncodeIds(init), last);
      assert ids == init + [last];
    }
  }

  lemma NoIds()
    ensures EncodeIds([]) == [] && DecodeIds([]) == []
  {
  }

  lemma EncodeLastId(ids: seq<int>)
    requires ids != [] && forall i :: 0 <= i < |ids| ==> 0 <= ids[i] < 0x1_0000
    ensures EncodeIds(ids) == EncodeIds(ids[..|ids| - 1]) + U16(ids[|ids| - 1])
  {
  }

  lemma DecodeLastId(b: bytes, id: int)
    requires |b| % 2 == 0 && 0 <= id < 0x1_0000
    ensures DecodeIds(b + U16(id)) == DecodeIds(b) + [id]
  {
    hide U16, FromU16;
    U16RoundTrip(id);
    var longer := b + U16(id);
    assert longer[..|longer| - 2] == b && longer[|longer| - 2..] == U16(id);
  }

  function ReplyCommand(r: Reply): byte {
    match r
    case Pong => CMD_PING_REPLY
    case Ids(_) => CMD_QUERY_RESP
    case Data(_) => CMD_READ_RESP
    case FunctionId(_, _) => CMD_GET_CALL_ID
    case Returned(_) => CMD_CALL_RET
  }

  function ReplyBody(r: Reply): (b: bytes)
    requires ReplyFits(r)
    ensures HEADER_SIZE + |b| <= BUFFER_SIZE
  {
    match r
    case Pong => []
    case Ids(ids) => EncodeIds(ids)
    case Data(data) => data
    case FunctionId(found, fn) => [if found then 1 else 0] + U32(fn)
    case Returned(ret) => ret
  }

  function EncodeReply(r: Reply): bytes
    requires ReplyFits(r)
  {
    Frame(ReplyCommand(r), ReplyBody(r))
  }

  datatype Option<T> = None | Some(value: T)

  /** The client's reading of a reply frame. */
  function DecodeReply(cmd: byte, body: bytes): Option<Reply> {
    if cmd == CMD_PING_REPLY && body == [] then Some(Pong)
    else if cmd == CMD_QUERY_RESP && |body| % 2 == 0 then Some(Ids(DecodeIds(body)))
    else if cmd == CMD_READ_RESP then Some(Data(body))
    else if cmd == CMD_GET_CALL_ID && |body| == 5 then Some(FunctionId(body[0] != 0, FromU32(body[1..])))
    else if cmd == CMD_CALL_RET then Some(Returned(body))
    else None
  }

  lemma ReplyReadsBack(r: Reply)
    requires ReplyFits(r)
    ensures DecodeReply(ReplyCommand(r), ReplyBody(r)) == Some(r)
  {
    match r
    case Ids(ids) => IdsReadBack(ids);
    case FunctionId(found, fn) =>
      U32RoundTrip(fn);
      assert ([if found then 1 else 0] + U32(fn))[1..] == U32(fn);
    case _ =>
  }

  /** send_err: the whole ErrMsg struct is sent, whatever the header declares. */
  function ErrorText(text: string): (b: bytes)
    ensures |b| == |text|
  {
    seq(|text|, i requires 0 <= i < |text| => text[i] as int % 256)
  }

  function EncodeError(code: int, text: string): (b: bytes)
    requires Int32(code)
    ensures |b| == ERR_MSG_SIZE
  {
    var msg := Field(ErrorText(text), MAX_ERR_MSG_LEN);
    ([CMD_MSG] + U16(4 + |CString(msg)|) + I32(code) + msg)[..ERR_MSG_SIZE]
  }

  /** A message of under 1022 characters arrives as one whole frame, followed by zeros only. */
  lemma ErrorIsOneFrame(code: int, text: string)
    requires Int32(code) && 0 !in ErrorText(text) && |text| < 1022
    ensures EncodeError(code, text) == Frame(CMD_MSG, I32(code) + ErrorText(text)) + Zeros(1021 - |text|)
  {
    var t := ErrorText(text);
    var msg := Field(t, MAX_ERR_MSG_LEN);
    CStringOfField(t, MAX_ERR_MSG_LEN);
    hide I32, U16, CString;
    var head := [CMD_MSG] + U16(4 + |t|) + I32(code);
    assert head + msg == head + t + Zeros(1024 - |t|);
    assert Frame(CMD_MSG, I32(code) + t) == head + t;
    assert Zeros(1024 - |t|)[..1021 - |t|] == Zeros(1021 - |t|);
  }

  // ---- building frames in a buffer ----

  /** Storing the fields of a packed struct. */
  method Put(buffer: array<byte>, at: nat, data: bytes)
    requires at + |data| <= buffer.Length
    modifies buffer
    ensures forall i :: 0 <= i < buffer.Length ==>
      buffer[i] == if at <= i < at + |data| then data[i - at] else old(buffer[i])
  {
    for i := 0 to |data|
      invariant buffer[..at + i] == old(buffer[..at]) + data[..i]
      invariant buffer[at + i..] == old(buffer[at + i..])
    {
      buffer[at + i] := data[i];
    }
  }

  method PutHeader(buffer: array<byte>, cmd: byte, length: nat)
    requires HEADER_SIZE <= buffer.Length && length < 0x1_0000
    modifies buffer
    ensures buffer[..HEADER_SIZE] == [cmd] + U16(length) && buffer[HEADER_SIZE..] == old(buffer[HEADER_SIZE..])
  {
    hide U16;
    Put(buffer, 1, U16(length));
    Put(buffer, 0, [cmd]);
  }
}

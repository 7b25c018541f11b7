/**
 * The meaning of client requests: what the server's local devices, buses and
 * plugins do for them. The message handlers, given the client's encoding of a
 * request, do exactly that and answer with the encoding of the result.
 */
module Service {
  import opened Bytes
  import opened BlockTransfer
  import opened CompSpec
  import opened Handlers
  import opened Version
  import opened Wire

  datatype Served = Served(world: World, table: Table, reply: Option<Reply>)

  /** A fast call the server carries out; what the stub takes its result to be does not matter for that. */
  ghost predicate Callable(cfg: Config, w: World, t: Table, id: int, fn: int, args: bytes)
    requires ValidConfig(cfg) && ValidWorld(cfg, w) && ValidTable(cfg, t)
  {
    && 0 <= id < |t| && 0 <= fn < |cfg.fast|
    && |args| == cfg.fast[fn].argsSize && cfg.fast[fn].fn(w[t[id].dev], args).Done?
  }

  /**
   * The requests a connection may make: ids it was given, ranges inside the
   * device, data that fits the buffers, at most 1022 hits, and calls whose
   * stub expects the result the plugin has.
   */
  ghost predicate Acceptable(cfg: Config, w: World, t: Table, r: Request)
    requires ValidConfig(cfg) && ValidWorld(cfg, w) && ValidTable(cfg, t)
  {
    Encodable(r) &&
    match r
    case Ping => true
    case Bye => true
    case Query(specs) => specs != [] && IdsFit(SearchBuses(cfg, cfg.buses, specs))
    case Read(id, addr, n) => id < |t| && CanRead(w[t[id].dev], addr, n)
    case Write(id, addr, data) => id < |t| && id < MAX_DEVICES && w[t[id].dev].InRange(addr, |data|)
    case FindFunction(id, _) => id < |t|
    case Call(id, fn, args, ret) => Callable(cfg, w, t, id, fn, args) && ret == cfg.fast[fn].retSize
  }

  /** The request performed locally. */
  ghost function Serve(cfg: Config, w: World, t: Table, r: Request): Served
    requires ValidConfig(cfg) && ValidWorld(cfg, w) && ValidTable(cfg, t) && Acceptable(cfg, w, t, r)
  {
    match r
    case Ping => Served(w, t, Some(Pong))
    case Bye => Served(w, t, None)
    case Query(specs) =>
      var g := Register(w, t, SearchBuses(cfg, cfg.buses, specs));
      Served(g.world, g.table, Some(Ids(g.ids)))
    case Read(id, addr, n) =>
      var d := t[id].dev;
      var (dev, data) := w[d].Read(addr, n);
      Served(w[d := dev], t, Some(Data(data)))
    case Write(id, addr, data) =>
      var d := t[id].dev;
      Served(w[d := w[d].Write(addr, data)], t, None)
    case FindFunction(_, name) => Served(w, t, Some(FunctionReply(cfg.fastNames, name)))
    case Call(id, fn, args, _) =>
      var d := t[id].dev;
      var result := cfg.fast[fn].fn(w[d], args);
      Served(w[d := result.dev], t, if cfg.fast[fn].retSize == 0 then None else Some(Returned(result.ret)))
  }

  /** Whether the client stub waits for an answer. A fast call does if its own result type is not void. */
  predicate Awaits(r: Request) {
    match r
    case Bye => false
    case Write(_, _, _) => false
    case Call(_, _, _, ret) => ret != 0
    case _ => true
  }

  /** The command assert_response expects in the reply to a request that awaits one. */
  function AnswerCommand(r: Request): byte {
    match r
    case Ping => CMD_PING_REPLY
    case Bye => CMD_MSG
    case Query(_) => CMD_QUERY_RESP
    case Read(_, _, _) => CMD_READ_RESP
    case Write(_, _, _) => CMD_MSG
    case FindFunction(_, _) => CMD_GET_CALL_ID
    case Call(_, _, _, _) => CMD_CALL_RET
  }

  /** The reply is of the kind the stub asked for, with as many bytes as the stub copies out of it. */
  predicate Answers(reply: Reply, r: Request) {
    && Awaits(r) && ReplyCommand(reply) == AnswerCommand(r)
    && (r.Read? ==> reply.Data? && |reply.data| == r.n)
    && (r.Call? ==> reply.Returned? && |reply.ret| == r.ret)
  }

  function EncodeAnswer(reply: Option<Reply>): bytes
    requires reply.Some? ==> ReplyFits(reply.value)
  {
    if reply.Some? then EncodeReply(reply.value) else []
  }

  /** A request is answered by one reply, of the kind its stub expects, if the stub awaits one, and else by none. */
  lemma ServedAsAwaited(cfg: Config, w: World, t: Table, r: Request)
    requires ValidConfig(cfg) && ValidWorld(cfg, w) && ValidTable(cfg, t) && Acceptable(cfg, w, t, r)
    ensures var s := Serve(cfg, w, t, r);
      && (s.reply.Some? <==> Awaits(r))
      && (s.reply.Some? ==> ReplyFits(s.reply.value) && Answers(s.reply.value, r))
  {
    if r.Query? {
      RegisterIsValid(cfg, w, t, SearchBuses(cfg, cfg.buses, r.specs));
    }
  }

  // ---- decoding queries ----

  lemma NameFieldReadsBack(name: string, rest: bytes)
    requires FitsName(name)
    ensures Decode(CString(NameField(name) + rest)) == name
  {
    var s := Encode(name);
    var field := NameField(name);
    CStringOfTerminated(s, Zeros(MAX_NAME_LEN - |s| - 1) + rest);
    assert field + rest == s + [0] + (Zeros(MAX_NAME_LEN - |s| - 1) + rest);
    DecodeEncode(name);
  }

  lemma VersionReadsBack(v: Version)
    requires Int32(v.major) && Int32(v.minor) && Int32(v.subminor)
    ensures var b := EncodeVersion(v);
      Version(FromI32(b[..4]), FromI32(b[4..8]), FromI32(b[8..])) == v
  {
    I32RoundTrip(v.major);
    I32RoundTrip(v.minor);
    I32RoundTrip(v.subminor);
    hide I32, FromI32;
    var b := EncodeVersion(v);
    assert b[..4] == I32(v.major) && b[4..8] == I32(v.minor) && b[8..] == I32(v.subminor);
  }

  lemma ItemReadsBack(before: bytes, s: Spec, rest: bytes)
    requires FitsItem(s)
    ensures DecodeItem(before + (EncodeItem(s) + rest), |before|) == s
  {
    hide CString, NameField, EncodeVersion, FromI32;
    var body := before + (EncodeItem(s) + rest);
    var off := |before|;
    var name, vendor, typ, v := NameField(s.name), NameField(s.vendor), NameField(s.typ), EncodeVersion(s.version);
    NameFieldReadsBack(s.name, vendor + typ + v + rest);
    NameFieldReadsBack(s.vendor, typ + v + rest);
    NameFieldReadsBack(s.typ, v + rest);
    VersionReadsBack(s.version);
    assert body[off..] == name + (vendor + typ + v + rest);
    assert body[off + 128..] == vendor + (typ + v + rest);
    assert body[off + 256..] == typ + (v + rest);
    assert body[off + 384..off + 396] == v;
    assert v[..4] ==
      body[off + 384..off + 388] && v[4..8] == body[off + 388..off + 392] && v[8..] == body[off + 392..off + 396];
  }

  /** The server reads the specs the client wrote. */
  lemma {:induction false} ItemsReadBack(specs: seq<Spec>, rest: bytes)
    requires FitsItems(specs)
    ensures DecodeItems(EncodeItems(specs) + rest, |specs|) == specs
    decreases |specs|
  {
    hide EncodeItem, DecodeItem, EncodeItems, DecodeItems, FitsItem;
    if specs == [] {
      NoItems(EncodeItems(specs) + rest);
    } else {
      var init, last := specs[..|specs| - 1], specs[|specs| - 1];
      var tail := EncodeItem(last) + rest;
      LastItem(specs);
      ItemsReadBack(init, tail);
      ItemReadsBack(EncodeItems(init), last, rest);
      assert EncodeItems(specs) + rest == EncodeItems(init) + tail;
      OneMoreItem(EncodeItems(specs) + rest, |specs|);
      assert specs == init + [last];
    }
  }

  lemma NoItems(body: bytes)
    ensures DecodeItems(body, 0) == []
  {
  }

  lemma OneMoreItem(body: bytes, cnt: nat)
    requires 0 < cnt && QUERY_ITEM_SIZE * cnt <= |body|
    ensures DecodeItems(body, cnt) == DecodeItems(body, cnt - 1) + [DecodeItem(body, QUERY_ITEM_SIZE * (cnt - 1))]
  {
  }

  lemma LastItem(specs: seq<Spec>)
    requires FitsItems(specs) && specs != []
    ensures EncodeItems(specs) == EncodeItems(specs[..|specs| - 1]) + EncodeItem(specs[|specs| - 1])
  {
  }

  // ---- the handlers serve the requests ----

  /** What the handlers have to produce for a request. */
  ghost function Expected(cfg: Config, w: World, t: Table, r: Request): Handled
    requires ValidConfig(cfg) && ValidWorld(cfg, w) && ValidTable(cfg, t) && Acceptable(cfg, w, t, r)
  {
    ServedAsAwaited(cfg, w, t, r);
    var s := Serve(cfg, w, t, r);
    Handled(s.world, s.table, EncodeAnswer(s.reply), r.Bye?)
  }

  lemma ReadServes(cfg: Config, w: World, t: Table, r: Request)
    requires ValidConfig(cfg) && ValidWorld(cfg, w) && ValidTable(cfg, t) && Acceptable(cfg, w, t, r) && r.Read?
    ensures HandleRead(cfg, w, t, Body(r)) == Expected(cfg, w, t, r)
  {
    hide U16, U32, FromU16, FromU32, ReadTrace, ValidConfig;
    U16RoundTrip(r.id);
    U32RoundTrip(r.addr);
    U16RoundTrip(r.n);
    var body := Body(r);
    assert body[..2] == U16(r.id) && body[2..6] == U32(r.addr) && body[6..8] == U16(r.n);
  }

  lemma WriteServes(cfg: Config, w: World, t: Table, r: Request)
    requires ValidConfig(cfg) && ValidWorld(cfg, w) && ValidTable(cfg, t) && Acceptable(cfg, w, t, r) && r.Write?
    ensures HandleWrite(cfg, w, t, Body(r)) == Expected(cfg, w, t, r)
  {
    hide U16, U32, FromU16, FromU32, WriteTrace, Overlay, ValidConfig;
    U16RoundTrip(r.id);
    U32RoundTrip(r.addr);
    U16RoundTrip(|r.data|);
    var body := Body(r);
    assert body[..2] == U16(r.id) && body[2..6] == U32(r.addr) && body[6..8] == U16(|r.data|);
    assert body[8..8 + |r.data|] == r.data;
  }

  /** The server reads the id, the function and the arguments the client wrote. */
  lemma ReadCall(id: int, fn: int, args: bytes)
    requires 0 <= id < 0x1_0000 && 0 <= fn < 0x1_0000_0000
    ensures var b := CallBody(id, fn, args);
      FromU16(b[..2]) == id && FromU32(Sub(b, 2, 4)) == fn && Sub(b, CALL_FAST_SIZE, |args|) == args
  {
    hide U16, FromU16, U32, FromU32;
    U16RoundTrip(id);
    U32RoundTrip(fn);
    var b := CallBody(id, fn, args);
    assert b[..2] == U16(id) && b[2..6] == U32(fn);
    assert b[CALL_FAST_SIZE..CALL_FAST_SIZE + |args|] == args;
  }

  lemma CallServes(cfg: Config, w: World, t: Table, r: Request)
    requires ValidConfig(cfg) && ValidWorld(cfg, w) && ValidTable(cfg, t) && Acceptable(cfg, w, t, r) && r.Call?
    ensures HandleFastCall(cfg, w, t, Body(r)) == Expected(cfg, w, t, r)
  {
    hide CallBody, Sub, FromU16, FromU32;
    ReadCall(r.id, r.fn, r.args);
  }

  lemma FindServes(cfg: Config, w: World, t: Table, r: Request)
    requires ValidConfig(cfg) && ValidWorld(cfg, w) && ValidTable(cfg, t) && Acceptable(cfg, w, t, r) && r.FindFunction?
    ensures HandleFindFunction(cfg, w, t, Body(r)) == Expected(cfg, w, t, r)
  {
    hide U16, FromU16, CString, NameField;
    U16RoundTrip(r.id);
    NameFieldReadsBack(r.name, []);
    var body := Body(r);
    assert body[..2] == U16(r.id) && body[2..] == NameField(r.name) + [];
  }

  lemma QueryServes(cfg: Config, w: World, t: Table, r: Request)
    requires ValidConfig(cfg) && ValidWorld(cfg, w) && ValidTable(cfg, t) && Acceptable(cfg, w, t, r) && r.Query?
    ensures HandleQuery(cfg, w, t, Body(r)) == Expected(cfg, w, t, r)
  {
    hide EncodeItems, DecodeItems, Register, SearchBuses, EncodeIds;
    var body := Body(r);
    ItemsReadBack(r.specs, []);
    assert body + [] == body;
    assert |body| / QUERY_ITEM_SIZE == |r.specs|;
    RegisterIsValid(cfg, w, t, SearchBuses(cfg, cfg.buses, r.specs));
  }

  /**
   * The remote protocol implements the local meaning: handling the encoding of
   * an acceptable request does to devices and table what the request means,
   * answers with the encoding of its result, and ends the connection only for Bye.
   */
  lemma HandleServes(cfg: Config, w: World, t: Table, r: Request)
    requires ValidConfig(cfg) && ValidWorld(cfg, w) && ValidTable(cfg, t) && Acceptable(cfg, w, t, r)
    ensures Handle(cfg, w, t, Command(r), Body(r)) == Expected(cfg, w, t, r)
  {
    hide HandleFastCall, HandleRead, HandleWrite, HandleNamedCall, HandleQuery, HandleFindFunction, HandlePing;
    hide Expected, Acceptable, ValidConfig, ValidWorld, ValidTable, Body;
    match r
    case Ping => PingServes(cfg, w, t, r);
    case Bye => PingServes(cfg, w, t, r);
    case Query(_) => QueryServes(cfg, w, t, r);
    case Read(_, _, _) => ReadServes(cfg, w, t, r);
    case Write(_, _, _) => WriteServes(cfg, w, t, r);
    case FindFunction(_, _) => FindServes(cfg, w, t, r);
    case Call(_, _, _, _) => CallServes(cfg, w, t, r);
  }

  lemma PingServes(cfg: Config, w: World, t: Table, r: Request)
    requires ValidConfig(cfg) && ValidWorld(cfg, w) && ValidTable(cfg, t) && Acceptable(cfg, w, t, r)
    requires r.Ping? || r.Bye?
    ensures Handle(cfg, w, t, Command(r), Body(r)) == Expected(cfg, w, t, r)
  {
    hide HandleFastCall, HandleRead, HandleWrite, HandleNamedCall, HandleQuery, HandleFindFunction;
    hide ValidConfig, ValidWorld, ValidTable;
  }

  /** What a fast call does on the server does not depend on what its stub takes the result to be. */
  lemma CallHandled(cfg: Config, w: World, t: Table, id: int, fn: int, args: bytes, ret: nat)
    requires ValidConfig(cfg) && ValidWorld(cfg, w) && ValidTable(cfg, t)
    requires Encodable(Call(id, fn, args, ret)) && Callable(cfg, w, t, id, fn, args)
    ensures var h := Handle(cfg, w, t, CMD_CALL_FAST, Body(Call(id, fn, args, ret)));
      var d := t[id].dev; var result := cfg.fast[fn].fn(w[d], args);
      && h.world == w[d := result.dev] && h.table == t && !h.disconnect && |result.ret| == cfg.fast[fn].retSize
      && ReplyFits(Returned(result.ret))
      && h.reply == (if cfg.fast[fn].retSize == 0 then [] else EncodeReply(Returned(result.ret)))
  {
    hide Handle, CallBody, EncodeReply;
    var r := Call(id, fn, args, cfg.fast[fn].retSize);
    HandleServes(cfg, w, t, r);
  }

  /**
   * Nothing compares the stub's result type with the plugin's. A call that the
   * server carries out is answered exactly as its stub expects, by one reply
   * or by none, exactly if both have a result or both have none.
   */
  lemma CallStaysInStep(cfg: Config, w: World, t: Table, id: int, fn: int, args: bytes, ret: nat)
    requires ValidConfig(cfg) && ValidWorld(cfg, w) && ValidTable(cfg, t)
    requires Encodable(Call(id, fn, args, ret)) && Callable(cfg, w, t, id, fn, args)
    ensures var r := Call(id, fn, args, ret); var h := Handle(cfg, w, t, Command(r), Body(r));
      (h.reply != [] <==> Awaits(r)) <==> (ret != 0 <==> cfg.fast[fn].retSize != 0)
  {
    hide Handle, Body, ValidConfig, ValidWorld, ValidTable, Callable;
    CallHandled(cfg, w, t, id, fn, args, ret);
  }

  /**
   * A device whose id is 256 or more can be read but not written: the write
   * ends the connection. For an allocated device and a range inside it, a
   * remote write succeeds exactly when the id is below 256.
   */
  lemma WritableExactlyBelow256(cfg: Config, w: World, t: Table, id: nat, addr: int, data: bytes)
    requires ValidConfig(cfg) && ValidWorld(cfg, w) && ValidTable(cfg, t)
    requires Encodable(Write(id, addr, data)) && id < |t| && w[t[id].dev].InRange(addr, |data|)
    ensures var h := Handle(cfg, w, t, CMD_WRITE, Body(Write(id, addr, data)));
      && (!h.disconnect <==> id < MAX_DEVICES)
      && h.world == (if id < MAX_DEVICES then w[t[id].dev := w[t[id].dev].Write(addr, data)] else w)
  {
    var r := Write(id, addr, data);
    if id < MAX_DEVICES {
      HandleServes(cfg, w, t, r);
      hide Handle;
    } else {
      hide U16, U32, FromU16, FromU32, HandleFastCall, HandleRead, HandleNamedCall, HandleQuery;
      hide HandleFindFunction, Refuse;
      U16RoundTrip(id);
      assert Body(r)[..2] == U16(id);
    }
  }
}

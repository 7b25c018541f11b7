/**
 * The requests that are not carried out: each is answered by one error frame
 * with its code and text, the connection ends, and no device changes, except
 * by a plugin that has begun before it throws.
 */
module Refusals {
  import opened Bytes
  import opened BlockTransfer
  import opened CompSpec
  import opened Handlers
  import opened Plugins
  import opened Search
  import opened Service
  import opened Version
  import opened Wire

  // ---- error frames ----

  /** A text that is sent as it is: single octets, no NUL, and short enough to leave room for one behind it. */
  predicate Plain(text: string) {
    |text| < 1022 && forall i :: 0 <= i < |text| ==> 0 < text[i] as int < 256
  }

  /** The bytes of an error: command 9, the length, the code in four bytes, the text, and zeros up to 1028. */
  predicate IsErrorFrame(reply: bytes, code: byte, text: string) {
    && |reply| == 1028 && |text| < 1022
    && reply[0] == 9 && reply[1] as int + 256 * reply[2] as int == 4 + |text|
    && reply[3] == code && reply[4] == 0 && reply[5] == 0 && reply[6] == 0
    && (forall i :: 0 <= i < |text| ==> reply[7 + i] == text[i] as int)
    && forall i :: 7 + |text| <= i < 1028 ==> reply[i] == 0
  }

  /** The request has been refused: nothing has changed, and the error is the last thing the client gets. */
  predicate Refused(h: Handled, w: World, t: Table, code: byte, text: string) {
    h.world == w && h.table == t && h.disconnect && IsErrorFrame(h.reply, code, text)
  }

  lemma ErrorFrame(code: byte, text: string)
    requires Plain(text)
    ensures IsErrorFrame(EncodeError(code as int, text), code, text)
  {
    hide EncodeError;
    var t := ErrorText(text);
    assert forall i :: 0 <= i < |t| ==> t[i] == text[i] as int;
    ErrorIsOneFrame(code, text);
    SmallCode(code);
    U16RoundTrip(4 + |text|);
    hide I32, U16, FromU16;
    ErrorBytes(code, t);
    assert FromU16(U16(4 + |text|)) == 4 + |text|;
    TwoBytes(U16(4 + |text|));
  }

  lemma SmallCode(code: byte)
    ensures I32(code) == [code, 0, 0, 0]
  {
    U32Bytes(code);
  }

  lemma TwoBytes(b: bytes)
    requires |b| == 2
    ensures FromU16(b) == b[0] as int + 256 * b[1] as int
  {
  }

  /** The frame and the zeros, byte by byte. */
  lemma ErrorBytes(code: byte, text: bytes)
    requires |text| < 1022
    ensures var f := Frame(CMD_MSG, I32(code) + text) + Zeros(1021 - |text|); var n := U16(4 + |text|);
      && |f| == 1028 && f[0] == 9 && f[1] == n[0] && f[2] == n[1]
      && f[3] == I32(code)[0] && f[4] == I32(code)[1] && f[5] == I32(code)[2] && f[6] == I32(code)[3]
      && (forall i :: 0 <= i < |text| ==> f[7 + i] == text[i])
      && forall i :: 7 + |text| <= i < 1028 ==> f[i] == 0
  {
    hide I32, U16;
  }

  lemma RefuseMeans(w: World, t: Table, reason: Reason, code: byte)
    requires Plain(Text(reason)) && Code(reason) == code as int
    ensures Refused(Refuse(w, t, reason), w, t, code, Text(reason))
  {
    hide Text, Code, EncodeError, IsErrorFrame;
    ErrorFrame(code, Text(reason));
  }

  // ---- requests for devices the client does not have ----

  /** Ids that the client has not been given. */
  predicate NotAllocated(t: Table, id: int) {
    id >= |t|
  }

  lemma DeviceOfId(cfg: Config, t: Table, id: int)
    requires ValidTable(cfg, t) && 0 <= id
    ensures DeviceOf(t, id) == if NotAllocated(t, id) then -1 else t[id].dev
    ensures !NotAllocated(t, id) ==> t[id].Used?
  {
  }

  lemma UnallocatedRead(cfg: Config, w: World, t: Table, id: int, addr: int, n: int)
    requires ValidConfig(cfg) && ValidWorld(cfg, w) && ValidTable(cfg, t)
    requires Encodable(Read(id, addr, n)) && NotAllocated(t, id)
    ensures Refused(Handle(cfg, w, t, 1, Body(Read(id, addr, n))), w, t, 4, "READ: device is not allocated")
  {
    hide U16, U32, FromU16, FromU32, Refuse, Refused, ValidConfig, ValidTable;
    hide HandleFastCall, HandleWrite, HandleNamedCall, HandleQuery, HandleFindFunction, HandlePing;
    RefuseMeans(w, t, ReadAccess, 4);
    U16RoundTrip(id);
    var body := Body(Read(id, addr, n));
    assert body[..2] == U16(id);
    DeviceOfId(cfg, t, id);
  }

  lemma UnallocatedWrite(cfg: Config, w: World, t: Table, id: int, addr: int, data: bytes)
    requires ValidConfig(cfg) && ValidWorld(cfg, w) && ValidTable(cfg, t)
    requires Encodable(Write(id, addr, data)) && (NotAllocated(t, id) || id >= 256)
    ensures var h := Handle(cfg, w, t, 3, Body(Write(id, addr, data)));
      if id >= 256 then Refused(h, w, t, 2, "WRITE: wrong device id")
      else Refused(h, w, t, 4, "WRITE: device is not allocated")
  {
    hide Handle, U16, U32, FromU16, FromU32, Refuse, Refused, ValidConfig, ValidTable, WriteIfInside;
    WriteIdRefusal(w, t);
    WriteAccessRefusal(w, t);
    U16RoundTrip(id);
    var body := Body(Write(id, addr, data));
    Dispatch(cfg, w, t, body);
    assert body[..2] == U16(id);
    DeviceOfId(cfg, t, id);
  }

  lemma WriteIdRefusal(w: World, t: Table)
    ensures Refused(Refuse(w, t, WriteId), w, t, 2, "WRITE: wrong device id")
  {
    hide Refuse, Refused;
    RefuseMeans(w, t, WriteId, 2);
  }

  lemma WriteAccessRefusal(w: World, t: Table)
    ensures Refused(Refuse(w, t, WriteAccess), w, t, 4, "WRITE: device is not allocated")
  {
    hide Refuse, Refused;
    RefuseMeans(w, t, WriteAccess, 4);
  }

  lemma UnallocatedFind(cfg: Config, w: World, t: Table, id: int, name: string)
    requires ValidConfig(cfg) && ValidWorld(cfg, w) && ValidTable(cfg, t)
    requires Encodable(FindFunction(id, name)) && NotAllocated(t, id)
    ensures Refused(Handle(cfg, w, t, 17, Body(FindFunction(id, name))), w, t, 4,
                    "GET REMOTE CALL ID: device is not allocated")
  {
    hide Handle, U16, FromU16, NameField, CString, Decode, Refuse, Refused, ValidConfig, ValidTable, FunctionReply;
    FindRefusal(w, t);
    U16RoundTrip(id);
    var body := Body(FindFunction(id, name));
    Dispatch(cfg, w, t, body);
    assert body[..2] == U16(id);
    DeviceOfId(cfg, t, id);
  }

  lemma FindRefusal(w: World, t: Table)
    ensures Refused(Refuse(w, t, FindAccess), w, t, 4, "GET REMOTE CALL ID: device is not allocated")
  {
    hide Refuse, Refused;
    RefuseMeans(w, t, FindAccess, 4);
  }

  /** A read that is not inside the device, or whose answer does not fit the buffer. */
  lemma FailingRead(cfg: Config, w: World, t: Table, id: int, addr: int, n: int)
    requires ValidConfig(cfg) && ValidWorld(cfg, w) && ValidTable(cfg, t)
    requires Encodable(Read(id, addr, n)) && !NotAllocated(t, id)
    requires addr + n > |w[t[id].dev].mem| || n > 2045
    ensures Refused(Handle(cfg, w, t, 1, Body(Read(id, addr, n))), w, t, 5, "Can not read from device")
  {
    hide U16, U32, FromU16, FromU32, Refuse, Refused, ValidConfig, ReadTrace;
    hide HandleFastCall, HandleWrite, HandleNamedCall, HandleQuery, HandleFindFunction, HandlePing;
    RefuseMeans(w, t, ReadFailed, 5);
    U16RoundTrip(id);
    U32RoundTrip(addr);
    U16RoundTrip(n);
    var body := Body(Read(id, addr, n));
    assert body[..2] == U16(id) && body[2..6] == U32(addr) && body[6..8] == U16(n);
    DeviceOfId(cfg, t, id);
  }

  // ---- malformed messages ----

  /** Which handler a command goes to. */
  lemma Dispatch(cfg: Config, w: World, t: Table, body: bytes)
    requires ValidConfig(cfg) && ValidWorld(cfg, w) && ValidTable(cfg, t)
    ensures Handle(cfg, w, t, 1, body) == HandleRead(cfg, w, t, body)
    ensures Handle(cfg, w, t, 3, body) == HandleWrite(cfg, w, t, body)
    ensures Handle(cfg, w, t, 4, body) == HandlePing(w, t, body)
    ensures Handle(cfg, w, t, 6, body) == HandleQuery(cfg, w, t, body)
    ensures Handle(cfg, w, t, 10, body) == HandleNamedCall(cfg, w, t, body)
    ensures Handle(cfg, w, t, 16, body) == HandleFastCall(cfg, w, t, body)
    ensures Handle(cfg, w, t, 17, body) == HandleFindFunction(cfg, w, t, body)
  {
    hide HandleFastCall, HandleRead, HandleWrite, HandleNamedCall, HandleQuery, HandleFindFunction, HandlePing;
    hide ValidConfig, ValidTable, ValidWorld;
  }

  lemma ReadSizes(cfg: Config, w: World, t: Table, body: bytes)
    requires ValidConfig(cfg) && ValidWorld(cfg, w) && ValidTable(cfg, t)
    ensures |body| != 8 ==> Refused(HandleRead(cfg, w, t, body), w, t, 2, "READ: size too small")
  {
    hide Refuse, Refused, ValidConfig, ValidTable, ValidWorld;
    RefuseMeans(w, t, ReadSize, 2);
  }

  lemma WriteSizes(cfg: Config, w: World, t: Table, body: bytes)
    requires ValidConfig(cfg) && ValidWorld(cfg, w) && ValidTable(cfg, t)
    ensures |body| < 8 ==> Refused(HandleWrite(cfg, w, t, body), w, t, 2, "WRITE: size too small")
  {
    hide Refuse, Refused, ValidConfig, ValidTable, ValidWorld;
    RefuseMeans(w, t, WriteSize, 2);
  }

  lemma FastCallSizes(cfg: Config, w: World, t: Table, body: bytes)
    requires ValidConfig(cfg) && ValidWorld(cfg, w) && ValidTable(cfg, t)
    ensures |body| < 5 ==> Refused(HandleFastCall(cfg, w, t, body), w, t, 2, "REMOTE CALL: size too small")
  {
    hide Refuse, Refused, ValidConfig, ValidTable, ValidWorld;
    RefuseMeans(w, t, CallSize, 2);
  }

  lemma NamedCallSizes(cfg: Config, w: World, t: Table, body: bytes)
    requires ValidConfig(cfg) && ValidWorld(cfg, w) && ValidTable(cfg, t)
    ensures |body| < 129 ==> Refused(HandleNamedCall(cfg, w, t, body), w, t, 2, "REMOTE CALL: size too small")
  {
    hide Refuse, Refused, ValidConfig, ValidTable, ValidWorld;
    RefuseMeans(w, t, CallSize, 2);
  }

  lemma FindSizes(cfg: Config, w: World, t: Table, body: bytes)
    requires ValidConfig(cfg) && ValidWorld(cfg, w) && ValidTable(cfg, t)
    ensures |body| < 130 ==> Refused(HandleFindFunction(cfg, w, t, body), w, t, 2, "GET REMOTE CALL ID: size too small")
  {
    hide Refuse, Refused, ValidConfig, ValidTable, ValidWorld;
    RefuseMeans(w, t, FindSize, 2);
  }

  lemma PingSizes(w: World, t: Table, body: bytes)
    ensures |body| > 0 ==> Refused(HandlePing(w, t, body), w, t, 2, "ECHO_REQUEST: size has to be 0")
  {
    hide Refuse, Refused;
    RefuseMeans(w, t, PingSize, 2);
  }

  /** Bodies that are too short or too long for their command. */
  lemma WrongSizes(cfg: Config, w: World, t: Table, body: bytes)
    requires ValidConfig(cfg) && ValidWorld(cfg, w) && ValidTable(cfg, t)
    ensures |body| != 8 ==> Refused(Handle(cfg, w, t, 1, body), w, t, 2, "READ: size too small")
    ensures |body| < 8 ==> Refused(Handle(cfg, w, t, 3, body), w, t, 2, "WRITE: size too small")
    ensures |body| < 5 ==> Refused(Handle(cfg, w, t, 16, body), w, t, 2, "REMOTE CALL: size too small")
    ensures |body| < 129 ==> Refused(Handle(cfg, w, t, 10, body), w, t, 2, "REMOTE CALL: size too small")
    ensures |body| < 130 ==> Refused(Handle(cfg, w, t, 17, body), w, t, 2, "GET REMOTE CALL ID: size too small")
    ensures |body| > 0 ==> Refused(Handle(cfg, w, t, 4, body), w, t, 2, "ECHO_REQUEST: size has to be 0")
  {
    hide Handle, Refused, ValidConfig, ValidTable, ValidWorld;
    hide HandleFastCall, HandleRead, HandleWrite, HandleNamedCall, HandleQuery, HandleFindFunction, HandlePing;
    Dispatch(cfg, w, t, body);
    ReadSizes(cfg, w, t, body);
    WriteSizes(cfg, w, t, body);
    FastCallSizes(cfg, w, t, body);
    NamedCallSizes(cfg, w, t, body);
    FindSizes(cfg, w, t, body);
    PingSizes(w, t, body);
  }

  /** A query must be one to five whole items. */
  lemma WrongQueries(cfg: Config, w: World, t: Table, body: bytes)
    requires ValidConfig(cfg) && ValidWorld(cfg, w) && ValidTable(cfg, t)
    ensures var h := Handle(cfg, w, t, 6, body); var n := |body|;
      && (n % 396 != 0 ==>
          h == Handled(w, t,
            EncodeError(2, "QUERY: wrong size of packet " + Decimal(n) + "(not divisible by 396)"), true))
      && (n % 396 == 0 && (n == 0 || n > 1980) ==>
          h == Handled(w, t, EncodeError(1, "Unsupported number of queries (" + Decimal(n / 396) + ")\n"), true))
  {
    hide Handle, ValidConfig, ValidTable, ValidWorld, EncodeError, Decimal, LookupDevices, DecodeItems;
    hide HandleFastCall, HandleRead, HandleWrite, HandleNamedCall, HandleFindFunction, HandlePing;
    Dispatch(cfg, w, t, body);
  }

  /** An encoded query is looked up as it is. */
  lemma QueryDecodes(cfg: Config, w: World, t: Table, specs: seq<Spec>)
    requires ValidConfig(cfg) && ValidWorld(cfg, w) && ValidTable(cfg, t)
    requires Encodable(Query(specs)) && specs != []
    ensures HandleQuery(cfg, w, t, Body(Query(specs))) == LookupDevices(cfg, w, t, specs)
  {
    hide ValidConfig, ValidTable, ValidWorld, DecodeItems, EncodeItems, FitsItems, LookupDevices, Refuse;
    var body := Body(Query(specs));
    ItemsReadBack(specs, []);
    assert body + [] == body;
    assert |body| / QUERY_ITEM_SIZE == |specs|;
  }

  /** With more hits than the buffer has room for. */
  lemma TooManyHits(cfg: Config, w: World, t: Table, specs: seq<Spec>)
    requires ValidConfig(cfg) && ValidWorld(cfg, w) && ValidTable(cfg, t)
    requires Encodable(Query(specs)) && specs != [] && |SearchBuses(cfg, cfg.buses, specs)| > 1022
    ensures Refused(Handle(cfg, w, t, 6, Body(Query(specs))), w, t, 5, "QUERY: too many devices")
  {
    hide Handle, ValidConfig, ValidTable, ValidWorld, SearchBuses, Refuse, Refused, Body, Encodable, Register;
    hide HandleFastCall, HandleRead, HandleWrite, HandleNamedCall, HandleFindFunction, HandlePing, HandleQuery;
    Dispatch(cfg, w, t, Body(Query(specs)));
    RefuseMeans(w, t, QueryHits, 5);
    QueryDecodes(cfg, w, t, specs);
  }

  /** The commands of requests are 1, 3, 4, 6, 8, 9, 10, 16 and 17; all others are unknown. */
  lemma UnknownCommands(cfg: Config, w: World, t: Table, cmd: byte, body: bytes)
    requires ValidConfig(cfg) && ValidWorld(cfg, w) && ValidTable(cfg, t)
    requires cmd !in {1, 3, 4, 6, 8, 9, 10, 16, 17}
    ensures Refused(Handle(cfg, w, t, cmd, body), w, t, 1, "")
  {
    hide Refuse, Refused, ValidConfig, ValidTable, ValidWorld;
    RefuseMeans(w, t, Reason.UnknownCommand, 1);
  }

  /** Error messages from a client are ignored, whatever they hold; bye ends the connection without an answer. */
  lemma MessagesAndBye(cfg: Config, w: World, t: Table, body: bytes)
    requires ValidConfig(cfg) && ValidWorld(cfg, w) && ValidTable(cfg, t)
    ensures Handle(cfg, w, t, 9, body) == Handled(w, t, [], false)
    ensures Handle(cfg, w, t, 8, body) == Handled(w, t, [], true)
  {
    hide ValidConfig, ValidTable, ValidWorld;
  }

  // ---- remote calls ----

  /** The arguments a plugin sees: as many bytes as it declares, zeros where the client has sent fewer. */
  function Padded(args: bytes, size: nat): (b: bytes)
    ensures |b| == size
  {
    if size <= |args| then args[..size] else args + Zeros(size - |args|)
  }

  lemma ArgsSeen(head: bytes, args: bytes, size: nat)
    ensures Sub(head + args, |head|, size) == Padded(args, size)
  {
  }

  /**
   * What a call by id does, whichever way the plugin ends. A device that the
   * client does not have and a function that the server does not have are
   * refused. A plugin that throws leaves its device as it is at that moment,
   * and the client gets the error with the exception's text.
   */
  lemma CallOutcome(cfg: Config, w: World, t: Table, id: int, fn: int, args: bytes, ret: nat)
    requires ValidConfig(cfg) && ValidWorld(cfg, w) && ValidTable(cfg, t)
    requires Encodable(Call(id, fn, args, ret))
    ensures var h := Handle(cfg, w, t, 16, Body(Call(id, fn, args, ret)));
      if NotAllocated(t, id) then Refused(h, w, t, 4, "REMOTE CALL: device is not allocated")
      else if fn >= |cfg.fast| then
        h == Handled(w, t,
          EncodeError(2, "REMOTE CALL: RPC function with id " + Decimal(fn) + " is not registered on server"), true)
      else PluginOutcome(h, w, t, t[id].dev, cfg.fast[fn], args)
  {
    hide Handle, ValidConfig, ValidTable, ValidWorld, EncodeError, Decimal, Refuse, Refused, U16, U32;
    hide HandleRead, HandleWrite, HandleNamedCall, HandleFindFunction, HandlePing, HandleQuery, CallBody, FromU16;
    hide FromU32, CallPlugin, PluginOutcome, Sub;
    var body := Body(Call(id, fn, args, ret));
    Dispatch(cfg, w, t, body);
    RefuseMeans(w, t, CallAccess, 4);
    ReadCall(id, fn, args);
    DeviceOfId(cfg, t, id);
    RefusedCallId(w, t, fn);
    if !NotAllocated(t, id) && fn < |cfg.fast| {
      KnownDevice(cfg, w, t, id);
      KnownFast(cfg, fn);
      CallArgs(id, fn, args, cfg.fast[fn].argsSize);
      PluginMeans(w, t, t[id].dev, cfg.fast[fn], args);
    }
  }

  lemma RefusedCallId(w: World, t: Table, fn: nat)
    ensures Refuse(w, t, CallId(fn)) == Handled(w, t,
      EncodeError(2, "REMOTE CALL: RPC function with id " + Decimal(fn) + " is not registered on server"), true)
  {
    hide EncodeError, Decimal;
  }

  lemma KnownDevice(cfg: Config, w: World, t: Table, id: nat)
    requires ValidWorld(cfg, w) && ValidTable(cfg, t) && id < |t|
    ensures t[id].Used? && t[id].dev < |w|
  {
  }

  lemma KnownFast(cfg: Config, fn: nat)
    requires ValidConfig(cfg) && fn < |cfg.fast|
    ensures PluginOk(cfg.fast[fn])
  {
  }

  lemma CallArgs(id: int, fn: int, args: bytes, size: nat)
    requires 0 <= id < 0x1_0000 && 0 <= fn < 0x1_0000_0000
    ensures Sub(CallBody(id, fn, args), CALL_FAST_SIZE, size) == Padded(args, size)
  {
    hide U16, U32, Sub;
    ArgsSeen(U16(id) + U32(fn), args, size);
  }

  /** The result is sent if the plugin declares one; an exception is an error and the end of the connection. */
  predicate PluginOutcome(h: Handled, w: World, t: Table, d: nat, p: Plugin, args: bytes)
    requires d < |w|
  {
    var result := p.fn(w[d], Padded(args, p.argsSize));
    && h.world == w[d := result.dev] && h.table == t
    && match result
       case Raised(_, what) =>
         && h.disconnect && h.reply == EncodeError(5, RAISED + what)
         && (Plain(RAISED + what) ==> IsErrorFrame(h.reply, 5, RAISED + what))
       case Done(_, ret) =>
         && !h.disconnect && |ret| == p.retSize && |ret| < 0x1_0000
         && h.reply == if p.retSize == 0 then [] else [11] + U16(|ret|) + ret
  }

  lemma PluginMeans(w: World, t: Table, d: nat, p: Plugin, args: bytes)
    requires d < |w| && PluginOk(p)
    ensures PluginOutcome(CallPlugin(w, t, d, p, Padded(args, p.argsSize)), w, t, d, p, args)
  {
    hide EncodeError, IsErrorFrame, U16, Plain;
    var result := p.fn(w[d], Padded(args, p.argsSize));
    if result.Raised? {
      RefusedRaise(w[d := result.dev], t, result.what);
      if Plain(RAISED + result.what) {
        ErrorFrame(5, RAISED + result.what);
      }
    }
  }

  lemma RefusedRaise(w: World, t: Table, what: string)
    ensures Refuse(w, t, CallRaised(what)) == Handled(w, t, EncodeError(5, RAISED + what), true)
  {
    hide EncodeError;
  }

  /** The same for a call by name. */
  lemma NamedCallOutcome(cfg: Config, w: World, t: Table, id: int, name: string, args: bytes)
    requires ValidConfig(cfg) && ValidWorld(cfg, w) && ValidTable(cfg, t)
    requires 0 <= id < 0x1_0000 && FitsName(name)
    ensures var h := Handle(cfg, w, t, 10, NamedBody(id, name, args));
      if NotAllocated(t, id) then Refused(h, w, t, 4, "REMOTE CALL: device is not allocated")
      else if name !in cfg.plugins then
        h == Handled(w, t,
          EncodeError(2, "REMOTE CALL: RPC function " + name + " not registered on server"), true)
      else PluginOutcome(h, w, t, t[id].dev, cfg.plugins[name], args)
  {
    hide Handle, ValidConfig, ValidTable, ValidWorld, EncodeError, Refuse, Refused, NamedBody, Decode, CString;
    hide HandleRead, HandleWrite, HandleFastCall, HandleFindFunction, HandlePing, HandleQuery, FromU16;
    hide CallPlugin, PluginOutcome, Sub, FitsName;
    var body := NamedBody(id, name, args);
    Dispatch(cfg, w, t, body);
    RefuseMeans(w, t, CallAccess, 4);
    ReadNamed(id, name, args);
    DeviceOfId(cfg, t, id);
    RefusedCallName(w, t, name);
    if !NotAllocated(t, id) && name in cfg.plugins {
      KnownDevice(cfg, w, t, id);
      KnownPlugin(cfg, name);
      NamedArgs(id, name, args, cfg.plugins[name].argsSize);
      PluginMeans(w, t, t[id].dev, cfg.plugins[name], args);
    }
  }

  lemma RefusedCallName(w: World, t: Table, name: string)
    ensures Refuse(w, t, CallName(name)) ==
      Handled(w, t, EncodeError(2, "REMOTE CALL: RPC function " + name + " not registered on server"), true)
  {
    hide EncodeError;
  }

  lemma KnownPlugin(cfg: Config, name: string)
    requires ValidConfig(cfg) && name in cfg.plugins
    ensures PluginOk(cfg.plugins[name])
  {
  }

  lemma NamedArgs(id: int, name: string, args: bytes, size: nat)
    requires 0 <= id < 0x1_0000 && FitsName(name)
    ensures Sub(NamedBody(id, name, args), CALL_SIZE, size) == Padded(args, size)
  {
    hide U16, NameField, Sub, FitsName;
    ArgsSeen(U16(id) + NameField(name), args, size);
  }

  lemma PlainRaised()
    ensures Plain(RAISED) && |RAISED| < 50
  {
    hide Plain;
    var a, b := "Call of plugin function ", "raised and exception ";
    PlainFirst(a);
    PlainSecond(b);
    PlainConcat(a, b);
  }

  lemma PlainFirst(a: string)
    requires a == "Call of plugin function "
    ensures Plain(a)
  {
  }

  lemma PlainSecond(b: string)
    requires b == "raised and exception "
    ensures Plain(b)
  {
  }

  lemma PlainConcat(a: string, b: string)
    requires Plain(a) && Plain(b) && |a| + |b| < 1022
    ensures Plain(a + b)
  {
  }

  /** For example a plugin that always throws, on the client's only device. */
  lemma ThrowingPlugin()
    ensures var p := Plugin((d: DevState, a: bytes) => Raised(d, "no"), 0, 4);
      var cfg, w := Config([DeviceInfo("d", [])], [[0]], map[], [p], ["f"]), [DevState([0], [], 0)];
      && ValidConfig(cfg) && ValidWorld(cfg, w) && ValidTable(cfg, [Used(0)])
      && Refused(Handle(cfg, w, [Used(0)], 16, Body(Call(0, 0, [], 4))), w, [Used(0)], 5, RAISED + "no")
  {
    hide Handle, Body, IsErrorFrame, EncodeError;
    var p := Plugin((d: DevState, a: bytes) => Raised(d, "no"), 0, 4);
    var cfg, w := Config([DeviceInfo("d", [])], [[0]], map[], [p], ["f"]), [DevState([0], [], 0)];
    assert PluginOk(p);
    assert ValidConfig(cfg) && ValidWorld(cfg, w) && ValidTable(cfg, [Used(0)]);
    CallOutcome(cfg, w, [Used(0)], 0, 0, [], 4);
    assert w[0 := w[0]] == w;
    PlainRaised();
    PlainConcat(RAISED, "no");
  }

  // ---- which requests are refused ----

  /**
   * What a client may ask: devices it has been given, ranges and answers that
   * fit, functions that exist and do not throw.
   */
  ghost predicate Permitted(cfg: Config, w: World, t: Table, r: Request)
    requires ValidConfig(cfg) && ValidWorld(cfg, w) && ValidTable(cfg, t)
  {
    match r
    case Ping => true
    case Bye => true
    case Query(specs) => specs != [] && |SearchBuses(cfg, cfg.buses, specs)| <= 1022
    case Read(id, addr, n) => 0 <= id < |t| && addr + n <= |w[t[id].dev].mem| && n <= 2045
    case Write(id, _, _) => id < |t| && id < 256
    case FindFunction(id, _) => id < |t|
    case Call(id, fn, args, _) =>
      0 <= id < |t| && 0 <= fn < |cfg.fast| && cfg.fast[fn].fn(w[t[id].dev], Padded(args, cfg.fast[fn].argsSize)).Done?
  }

  /** A request ends the connection with an error exactly if the client may not ask it. */
  lemma RefusedExactly(cfg: Config, w: World, t: Table, r: Request)
    requires ValidConfig(cfg) && ValidWorld(cfg, w) && ValidTable(cfg, t) && Encodable(r)
    ensures IsError(Handle(cfg, w, t, Command(r), Body(r)).reply) <==> !Permitted(cfg, w, t, r)
  {
    hide Handle, ValidConfig, ValidTable, ValidWorld, IsError, Body, Permitted, Encodable;
    match r
    case Ping => PingPermitted(cfg, w, t, r);
    case Bye => PingPermitted(cfg, w, t, r);
    case Query(_) => QueryPermitted(cfg, w, t, r);
    case Read(_, _, _) => ReadPermitted(cfg, w, t, r);
    case Write(_, _, _) => WritePermitted(cfg, w, t, r);
    case FindFunction(_, _) => FindPermitted(cfg, w, t, r);
    case Call(_, _, _, _) => CallPermitted(cfg, w, t, r);
  }

  lemma ErrorFrameIsError(h: Handled, w: World, t: Table, code: byte, text: string)
    requires Refused(h, w, t, code, text)
    ensures IsError(h.reply)
  {
  }

  lemma PingPermitted(cfg: Config, w: World, t: Table, r: Request)
    requires ValidConfig(cfg) && ValidWorld(cfg, w) && ValidTable(cfg, t) && (r.Ping? || r.Bye?)
    ensures IsError(Handle(cfg, w, t, Command(r), Body(r)).reply) <==> !Permitted(cfg, w, t, r)
  {
    hide Handle, ValidConfig, ValidTable, ValidWorld;
    HandleServes(cfg, w, t, r);
  }

  lemma QueryPermitted(cfg: Config, w: World, t: Table, r: Request)
    requires ValidConfig(cfg) && ValidWorld(cfg, w) && ValidTable(cfg, t) && Encodable(r) && r.Query?
    ensures IsError(Handle(cfg, w, t, Command(r), Body(r)).reply) <==> !Permitted(cfg, w, t, r)
  {
    hide Handle, ValidConfig, ValidTable, ValidWorld, SearchBuses, Refused, FitsItems, EncodeItems, EncodeError;
    hide Register, EncodeIds;
    if Permitted(cfg, w, t, r) {
      HandleServes(cfg, w, t, r);
      ServedAsAwaited(cfg, w, t, r);
    } else if r.specs == [] {
      WrongQueries(cfg, w, t, Body(r));
      IsErrorOf(1, "Unsupported number of queries (" + Decimal(0) + ")\n");
    } else {
      TooManyHits(cfg, w, t, r.specs);
      ErrorFrameIsError(Handle(cfg, w, t, 6, Body(r)), w, t, 5, "QUERY: too many devices");
    }
  }

  lemma IsErrorOf(code: byte, text: string)
    ensures IsError(EncodeError(code as int, text))
  {
    hide I32, U16, ErrorText;
  }

  lemma ReadPermitted(cfg: Config, w: World, t: Table, r: Request)
    requires ValidConfig(cfg) && ValidWorld(cfg, w) && ValidTable(cfg, t) && Encodable(r) && r.Read?
    ensures IsError(Handle(cfg, w, t, Command(r), Body(r)).reply) <==> !Permitted(cfg, w, t, r)
  {
    hide Handle, ValidConfig, Refused, Body, ReadTrace;
    var h := Handle(cfg, w, t, 1, Body(r));
    if NotAllocated(t, r.id) {
      UnallocatedRead(cfg, w, t, r.id, r.addr, r.n);
      ErrorFrameIsError(h, w, t, 4, "READ: device is not allocated");
    } else if !Permitted(cfg, w, t, r) {
      FailingRead(cfg, w, t, r.id, r.addr, r.n);
      ErrorFrameIsError(h, w, t, 5, "Can not read from device");
    } else {
      HandleServes(cfg, w, t, r);
    }
  }

  lemma WritePermitted(cfg: Config, w: World, t: Table, r: Request)
    requires ValidConfig(cfg) && ValidWorld(cfg, w) && ValidTable(cfg, t) && Encodable(r) && r.Write?
    ensures IsError(Handle(cfg, w, t, Command(r), Body(r)).reply) <==> !Permitted(cfg, w, t, r)
  {
    hide Handle, ValidConfig, Refused, Body;
    var h := Handle(cfg, w, t, 3, Body(r));
    if NotAllocated(t, r.id) || r.id >= 256 {
      UnallocatedWrite(cfg, w, t, r.id, r.addr, r.data);
      ErrorFrameIsError(h, w, t, if r.id >= 256 then 2 else 4,
        if r.id >= 256 then "WRITE: wrong device id" else "WRITE: device is not allocated");
    } else {
      WriteAnswered(cfg, w, t, r);
    }
  }

  /** A write to a device of the client is not answered; outside the device it does nothing. */
  lemma WriteAnswered(cfg: Config, w: World, t: Table, r: Request)
    requires ValidConfig(cfg) && ValidWorld(cfg, w) && ValidTable(cfg, t) && Encodable(r) && r.Write?
    requires r.id < |t| && r.id < 256
    ensures var h := Handle(cfg, w, t, 3, Body(r));
      && h.reply == [] && !h.disconnect && h.table == t
      && (r.addr + |r.data| > |w[t[r.id].dev].mem| ==> h.world == w)
  {
    hide Handle, ValidConfig, U16, U32, FromU16, FromU32, ValidTable, WriteIfInside, Refuse, Sub;
    U16RoundTrip(r.id);
    U32RoundTrip(r.addr);
    U16RoundTrip(|r.data|);
    var body := Body(r);
    Dispatch(cfg, w, t, body);
    assert body[..2] == U16(r.id) && body[2..6] == U32(r.addr) && body[6..8] == U16(|r.data|);
    DeviceOfId(cfg, t, r.id);
    KnownDevice(cfg, w, t, r.id);
    OutsideIsNothing(w, t[r.id].dev, r.addr, Sub(body, READ_REQ_SIZE, |r.data|));
  }

  lemma OutsideIsNothing(w: World, d: nat, addr: int, data: bytes)
    requires d < |w|
    ensures addr + |data| > |w[d].mem| ==> w[d := WriteIfInside(w[d], addr, data)] == w
  {
    hide DevState.Write;
  }

  lemma FindPermitted(cfg: Config, w: World, t: Table, r: Request)
    requires ValidConfig(cfg) && ValidWorld(cfg, w) && ValidTable(cfg, t) && Encodable(r) && r.FindFunction?
    ensures IsError(Handle(cfg, w, t, Command(r), Body(r)).reply) <==> !Permitted(cfg, w, t, r)
  {
    hide Handle, ValidConfig, Refused, Body;
    if NotAllocated(t, r.id) {
      UnallocatedFind(cfg, w, t, r.id, r.name);
      ErrorFrameIsError(Handle(cfg, w, t, 17, Body(r)), w, t, 4, "GET REMOTE CALL ID: device is not allocated");
    } else {
      HandleServes(cfg, w, t, r);
    }
  }

  lemma CallPermitted(cfg: Config, w: World, t: Table, r: Request)
    requires ValidConfig(cfg) && ValidWorld(cfg, w) && ValidTable(cfg, t) && Encodable(r) && r.Call?
    ensures IsError(Handle(cfg, w, t, Command(r), Body(r)).reply) <==> !Permitted(cfg, w, t, r)
  {
    hide Handle, ValidConfig, Refused, Body, EncodeError, Decimal, Padded;
    var h := Handle(cfg, w, t, 16, Body(r));
    CallOutcome(cfg, w, t, r.id, r.fn, r.args, r.ret);
    if NotAllocated(t, r.id) {
      ErrorFrameIsError(h, w, t, 4, "REMOTE CALL: device is not allocated");
    } else if r.fn >= |cfg.fast| {
      IsErrorOf(2, "REMOTE CALL: RPC function with id " + Decimal(r.fn) + " is not registered on server");
    } else {
      var result := cfg.fast[r.fn].fn(w[t[r.id].dev], Padded(r.args, cfg.fast[r.fn].argsSize));
      if result.Raised? {
        IsErrorOf(5, RAISED + result.what);
      }
    }
  }
}

/**
 * What the server does with one message (handle_msg and the functions it
 * dispatches to), as a function of the device states, the connection's device
 * table and the frame.
 *
 * Where a handler would read past its frame, the missing bytes are zeros here.
 */
module Handlers {
  import opened Bytes
  import opened BlockTransfer
  import opened CompSpec
  import opened Search
  import opened Version
  import opened Wire

  type World = seq<DevState>

  /** A slot of ClientInfo::devices; Free is a null pointer. */
  datatype Slot = Free | Used(dev: nat)
  type Table = seq<Slot>

  datatype CallResult =
    | Done(dev: DevState, ret: bytes)
    | Raised(dev: DevState, what: string)

  /** A plugin is an opaque function of the device and args_size bytes of arguments. */
  datatype Plugin = Plugin(fn: (DevState, bytes) -> CallResult, argsSize: nat, retSize: nat)

  datatype Config = Config(
    infos: seq<DeviceInfo>,
    buses: seq<seq<nat>>,
    plugins: map<string, Plugin>,
    fast: seq<Plugin>,
    fastNames: seq<string>)

  /** A plugin keeps the size of the device's memory and returns ret_size bytes, which fit a reply. */
  ghost predicate PluginOk(p: Plugin) {
    && HEADER_SIZE + p.retSize <= BUFFER_SIZE
    && forall d: DevState, a: bytes :: var r := p.fn(d, a);
      |r.dev.mem| == |d.mem| && (r.Done? ==> |r.ret| == p.retSize)
  }

  ghost predicate ValidConfig(cfg: Config) {
    && |cfg.infos| < 0x1_0000
    && (forall b :: 0 <= b < |cfg.buses| ==> Known(cfg.buses[b], cfg.infos))
    && (forall name :: name in cfg.plugins ==> PluginOk(cfg.plugins[name]))
    && (forall i :: 0 <= i < |cfg.fast| ==> PluginOk(cfg.fast[i]))
    && |cfg.fast| == |cfg.fastNames| < 0x1_0000_0000
  }

  /** One device state per device; a device's address range has 32 bits. */
  predicate ValidWorld(cfg: Config, w: World) {
    |w| == |cfg.infos| && forall d :: 0 <= d < |w| ==> |w[d].mem| <= ADDRESS_SPACE
  }

  /** No device twice, no device that does not exist, no slot given up. */
  predicate ValidTable(cfg: Config, t: Table) {
    && (forall i :: 0 <= i < |t| ==> t[i].Used? && t[i].dev < |cfg.infos|)
    && (forall i, j :: 0 <= i < j < |t| ==> t[i] != t[j])
  }

  datatype Handled = Handled(world: World, table: Table, reply: bytes, disconnect: bool)

  predicate SameShape(a: World, b: World) {
    |a| == |b| && forall d :: 0 <= d < |a| ==> |a[d].mem| == |b[d].mem|
  }

  // ---- pieces of the handlers ----

  /** n bytes of a body from an offset, zeros where the frame has ended. */
  function Sub(body: bytes, off: nat, n: nat): (b: bytes)
    ensures |b| == n
    ensures off + n <= |body| ==> b == body[off..off + n]
  {
    seq(n, i requires 0 <= i < n => if off + i < |body| then body[off + i] else 0)
  }

  /** The ways a message can be refused. */
  datatype Reason =
    | ReadSize | ReadAccess | ReadFailed
    | WriteSize | WriteId | WriteAccess
    | CallSize | CallAccess | CallId(fn: nat) | CallName(name: string) | CallRaised(what: string)
    | FindSize | FindAccess
    | PingSize
    | QuerySize(length: nat) | QueryCount(count: nat) | QueryHits
    | UnknownCommand

  function Code(reason: Reason): (code: int)
    ensures Int32(code)
  {
    match reason
    case ReadAccess => ACCESS_DENIED
    case WriteAccess => ACCESS_DENIED
    case CallAccess => ACCESS_DENIED
    case FindAccess => ACCESS_DENIED
    case ReadFailed => IO_ERROR
    case QueryHits => IO_ERROR
    case CallRaised(_) => IO_ERROR
    case QueryCount(_) => UNKNOWN_COMMAND
    case UnknownCommand => UNKNOWN_COMMAND
    case _ => MALFORMED_PACKET
  }

  const RAISED: string := "Call of plugin function " + "raised and exception "

  function Text(reason: Reason): string {
    match reason
    case ReadSize => "READ: size too small"
    case ReadAccess => "READ: device is not allocated"
    case ReadFailed => "Can not read from device"
    case WriteSize => "WRITE: size too small"
    case WriteId => "WRITE: wrong device id"
    case WriteAccess => "WRITE: device is not allocated"
    case CallSize => "REMOTE CALL: size too small"
    case CallAccess => "REMOTE CALL: device is not allocated"
    case CallId(fn) => "REMOTE CALL: RPC function with id " + Decimal(fn) + " is not registered on server"
    case CallName(name) => "REMOTE CALL: RPC function " + name + " not registered on server"
    case CallRaised(what) => RAISED + what
    case FindSize => "GET REMOTE CALL ID: size too small"
    case FindAccess => "GET REMOTE CALL ID: device is not allocated"
    case PingSize => "ECHO_REQUEST: size has to be 0"
    case QuerySize(n) => "QUERY: wrong size of packet " + Decimal(n) + "(not divisible by 396)"
    case QueryCount(n) => "Unsupported number of queries (" + Decimal(n) + ")\n"
    case QueryHits => "QUERY: too many devices"
    case UnknownCommand => ""
  }

  /** send_err: the error message, and the connection ends. */
  function Refuse(w: World, t: Table, reason: Reason): (h: Handled)
    ensures h.world == w && h.table == t && h.disconnect && |h.reply| == ERR_MSG_SIZE
  {
    Handled(w, t, EncodeError(Code(reason), Text(reason)), true)
  }

  /** client_get_dev; -1 is a null pointer. */
  function DeviceOf(t: Table, id: int): (d: int)
    requires id >= 0
    ensures d == -1 || (0 <= d && id < |t| && t[id] == Used(d))
  {
    if id < |t| && t[id].Used? then t[id].dev else -1
  }

  /**
   * Reading raises an error when the range is not inside the device or the
   * data does not fit the transmit buffer.
   */
  predicate CanRead(dev: DevState, addr: int, n: int) {
    dev.InRange(addr, n) && HEADER_SIZE + n <= BUFFER_SIZE
  }

  /** Writes outside the device have no effect. */
  function WriteIfInside(dev: DevState, addr: int, data: bytes): (r: DevState)
    ensures |r.mem| == |dev.mem|
  {
    if dev.InRange(addr, |data|) then dev.Write(addr, data) else dev
  }

  function HandleRead(cfg: Config, w: World, t: Table, body: bytes): Handled
    requires ValidWorld(cfg, w) && ValidTable(cfg, t)
  {
    if |body| != READ_REQ_SIZE then Refuse(w, t, ReadSize) else
    var addr, size := FromU32(body[2..6]), FromU16(body[6..8]);
    var d := DeviceOf(t, FromU16(body[..2]));
    if d < 0 then Refuse(w, t, ReadAccess) else
    if !CanRead(w[d], addr, size) then Refuse(w, t, ReadFailed) else
    var (dev, data) := w[d].Read(addr, size);
    Handled(w[d := dev], t, Frame(CMD_READ_RESP, data), false)
  }

  /** Unlike a read, a write refuses ids from MAX_DEVICES on. */
  function HandleWrite(cfg: Config, w: World, t: Table, body: bytes): Handled
    requires ValidWorld(cfg, w) && ValidTable(cfg, t)
  {
    if |body| < READ_REQ_SIZE then Refuse(w, t, WriteSize) else
    var id, addr, size := FromU16(body[..2]), FromU32(body[2..6]), FromU16(body[6..8]);
    if id >= MAX_DEVICES then Refuse(w, t, WriteId) else
    var d := DeviceOf(t, id);
    if d < 0 then Refuse(w, t, WriteAccess) else
    Handled(w[d := WriteIfInside(w[d], addr, Sub(body, READ_REQ_SIZE, size))], t, [], false)
  }

  /** The common end of both kinds of remote call. */
  function CallPlugin(w: World, t: Table, d: nat, p: Plugin, args: bytes): Handled
    requires d < |w| && PluginOk(p)
  {
    match p.fn(w[d], args)
    case Raised(dev, what) => Refuse(w[d := dev], t, CallRaised(what))
    case Done(dev, ret) => Handled(w[d := dev], t, if p.retSize == 0 then [] else Frame(CMD_CALL_RET, ret), false)
  }

  function HandleFastCall(cfg: Config, w: World, t: Table, body: bytes): Handled
    requires ValidConfig(cfg) && ValidWorld(cfg, w) && ValidTable(cfg, t)
  {
    if |body| < CALL_FAST_SIZE - 1 then Refuse(w, t, CallSize) else
    var d := DeviceOf(t, FromU16(body[..2]));
    if d < 0 then Refuse(w, t, CallAccess) else
    var fn := FromU32(Sub(body, 2, 4));
    if fn >= |cfg.fast| then
      Refuse(w, t, CallId(fn))
    else CallPlugin(w, t, d, cfg.fast[fn], Sub(body, CALL_FAST_SIZE, cfg.fast[fn].argsSize))
  }

  function HandleNamedCall(cfg: Config, w: World, t: Table, body: bytes): Handled
    requires ValidConfig(cfg) && ValidWorld(cfg, w) && ValidTable(cfg, t)
  {
    if |body| < CALL_SIZE - 1 then Refuse(w, t, CallSize) else
    var d := DeviceOf(t, FromU16(body[..2]));
    if d < 0 then Refuse(w, t, CallAccess) else
    var name := Decode(CString(body[2..]));
    if name !in cfg.plugins then
      Refuse(w, t, CallName(name))
    else CallPlugin(w, t, d, cfg.plugins[name], Sub(body, CALL_SIZE, cfg.plugins[name].argsSize))
  }

  predicate Distinct(s: seq<int>) {
    forall i, j :: 0 <= i < j < |s| ==> s[i] != s[j]
  }

  /** Index of the first occurrence, or the length. */
  function IndexOf<T(==)>(s: seq<T>, x: T): (i: nat)
    ensures i <= |s| && (i < |s| ==> s[i] == x)
    ensures forall j :: 0 <= j < i ==> s[j] != x
  {
    if s == [] || s[0] == x then 0 else IndexOf(s[1..], x) + 1
  }

  lemma IndexIs<T>(s: seq<T>, x: T, i: nat)
    requires i <= |s| && (i < |s| ==> s[i] == x) && forall j :: 0 <= j < i ==> s[j] != x
    ensures IndexOf(s, x) == i
  {
  }

  function FunctionReply(names: seq<string>, name: string): Reply {
    var i := IndexOf(names, name);
    if i < |names| then FunctionId(true, i) else FunctionId(false, NO_FUNCTION)
  }

  function HandleFindFunction(cfg: Config, w: World, t: Table, body: bytes): Handled
    requires ValidConfig(cfg) && ValidWorld(cfg, w) && ValidTable(cfg, t)
  {
    if |body| < CALL_SIZE then Refuse(w, t, FindSize) else
    var d := DeviceOf(t, FromU16(body[..2]));
    if d < 0 then Refuse(w, t, FindAccess) else
    Handled(w, t, EncodeReply(FunctionReply(cfg.fastNames, Decode(CString(body[2..])))), false)
  }

  // ---- queries ----

  /** The strings of an item are read up to their first NUL. */
  function DecodeItem(body: bytes, off: nat): Spec
    requires off + QUERY_ITEM_SIZE <= |body|
  {
    Spec(
      Decode(CString(body[off..])),
      Decode(CString(body[off + MAX_NAME_LEN..])),
      Decode(CString(body[off + 2 * MAX_NAME_LEN..])),
      Version(
        FromI32(body[off + 384..off + 388]), FromI32(body[off + 388..off + 392]), FromI32(body[off + 392..off + 396])))
  }

  /** extractSpecFromClientQuery */
  function DecodeItems(body: bytes, cnt: nat): (specs: seq<Spec>)
    requires QUERY_ITEM_SIZE * cnt <= |body|
    ensures |specs| == cnt
  {
    if cnt == 0 then [] else DecodeItems(body, cnt - 1) + [DecodeItem(body, QUERY_ITEM_SIZE * (cnt - 1))]
  }

  /** The hits of all buses, one bus after the other. */
  function SearchBuses(cfg: Config, buses: seq<seq<nat>>, query: seq<Spec>): (hits: seq<nat>)
    requires forall b :: 0 <= b < |buses| ==> Known(buses[b], cfg.infos)
    ensures Known(hits, cfg.infos)
  {
    if buses == [] then []
    else SearchBuses(cfg, buses[..|buses| - 1], query) + Filter(buses[|buses| - 1], cfg.infos, query)
  }

  datatype Registered = Registered(world: World, table: Table, ids: seq<int>)

  /** One iteration of the id allocation loop. */
  function RegisterOne(r: Registered, dev: nat): Registered
    requires dev < |r.world|
  {
    var known := IndexOf(r.table, Used(dev));
    if known < |r.table| then r.(ids := r.ids + [known])
    else
      var empty := IndexOf(r.table, Free);
      var table := if empty < |r.table| then r.table[empty := Used(dev)] else r.table + [Used(dev)];
      var state := r.world[dev];
      Registered(r.world[dev := state.(attaches := state.attaches + 1)], table, r.ids + [empty])
  }

  function Register(w: World, t: Table, hits: seq<nat>): (r: Registered)
    requires forall i :: 0 <= i < |hits| ==> hits[i] < |w|
    ensures |r.ids| == |hits| && SameShape(r.world, w)
  {
    if hits == [] then Registered(w, t, [])
    else RegisterOne(Register(w, t, hits[..|hits| - 1]), hits[|hits| - 1])
  }

  /** A reply with more ids than the transmit buffer holds is an error. */
  predicate IdsFit(hits: seq<nat>) {
    HEADER_SIZE + 2 * |hits| <= BUFFER_SIZE
  }

  function LookupDevices(cfg: Config, w: World, t: Table, query: seq<Spec>): Handled
    requires ValidConfig(cfg) && ValidWorld(cfg, w) && ValidTable(cfg, t)
  {
    var hits := SearchBuses(cfg, cfg.buses, query);
    if !IdsFit(hits) then Refuse(w, t, QueryHits) else
    var r := Register(w, t, hits);
    RegisterIsValid(cfg, w, t, hits);
    Handled(r.world, r.table, Frame(CMD_QUERY_RESP, EncodeIds(r.ids)), false)
  }

  function HandleQuery(cfg: Config, w: World, t: Table, body: bytes): Handled
    requires ValidConfig(cfg) && ValidWorld(cfg, w) && ValidTable(cfg, t)
  {
    var cnt := |body| / QUERY_ITEM_SIZE;
    if |body| != cnt * QUERY_ITEM_SIZE then
      Refuse(w, t, QuerySize(|body|))
    else if cnt == 0 || cnt > MAX_ITEMS_PER_QUERY then
      Refuse(w, t, QueryCount(cnt))
    else LookupDevices(cfg, w, t, DecodeItems(body, cnt))
  }

  function HandlePing(w: World, t: Table, body: bytes): Handled {
    if body != [] then Refuse(w, t, PingSize)
    else Handled(w, t, Frame(CMD_PING_REPLY, []), false)
  }

  /** handle_msg */
  function Handle(cfg: Config, w: World, t: Table, cmd: byte, body: bytes): Handled
    requires ValidConfig(cfg) && ValidWorld(cfg, w) && ValidTable(cfg, t)
  {
    if cmd == CMD_CALL_FAST then HandleFastCall(cfg, w, t, body)
    else if cmd == CMD_READ then HandleRead(cfg, w, t, body)
    else if cmd == CMD_WRITE then HandleWrite(cfg, w, t, body)
    else if cmd == CMD_CALL then HandleNamedCall(cfg, w, t, body)
    else if cmd == CMD_PING_REQUEST then HandlePing(w, t, body)
    else if cmd == CMD_QUERY then HandleQuery(cfg, w, t, body)
    else if cmd == CMD_GET_CALL_ID then HandleFindFunction(cfg, w, t, body)
    else if cmd == CMD_BYE then Handled(w, t, [], true)
    else if cmd == CMD_MSG then Handled(w, t, [], false)
    else Refuse(w, t, UnknownCommand)
  }

  // ---- the device table ----

  /** Distinct devices below n fill at most n slots. */
  lemma {:induction false} Pigeonhole(t: Table, n: nat)
    requires forall i :: 0 <= i < |t| ==> t[i].Used? && t[i].dev < n
    requires forall i, j :: 0 <= i < j < |t| ==> t[i] != t[j]
    ensures |t| <= n
    decreases n
  {
    if t != [] {
      assert t[0].dev < n;
      var i := IndexOf(t, Used(n - 1));
      if i < |t| {
        Pigeonhole(t[..i] + t[i + 1..], n - 1);
      } else {
        Pigeonhole(t, n - 1);
      }
    }
  }

  /** What one allocation does to a good table. */
  lemma RegisterOneKeeps(cfg: Config, r: Registered, dev: nat)
    requires ValidTable(cfg, r.table) && |r.world| == |cfg.infos| && dev < |r.world|
    ensures var n := RegisterOne(r, dev);
      && ValidTable(cfg, n.table) && r.table <= n.table
      && n.ids == r.ids + [n.ids[|r.ids|]]
      && 0 <= n.ids[|r.ids|] < |n.table| && n.table[n.ids[|r.ids|]] == Used(dev)
      && n.table == (if Used(dev) in r.table then r.table else r.table + [Used(dev)])
      && n.world == (if Used(dev) in r.table then r.world
                     else r.world[dev := r.world[dev].(attaches := r.world[dev].attaches + 1)])
  {
    var known := IndexOf(r.table, Used(dev));
    var empty := IndexOf(r.table, Free);
    assert empty == |r.table|;
    hide IndexOf;
    if known < |r.table| {
      assert Used(dev) in r.table;
    } else {
      assert Used(dev) !in r.table;
    }
  }

  function Attach(s: DevState): DevState {
    s.(attaches := s.attaches + 1)
  }

  predicate IdsDenote(r: Registered, hits: seq<nat>)
    requires |r.ids| == |hits|
  {
    forall i :: 0 <= i < |hits| ==> 0 <= r.ids[i] < |r.table| && r.table[r.ids[i]] == Used(hits[i])
  }

  lemma RegisterNone(w: World, t: Table)
    ensures Register(w, t, []) == Registered(w, t, [])
  {
  }

  lemma RegisterStep(w: World, t: Table, hits: seq<nat>)
    requires hits != [] && forall i :: 0 <= i < |hits| ==> hits[i] < |w|
    ensures Register(w, t, hits) == RegisterOne(Register(w, t, hits[..|hits| - 1]), hits[|hits| - 1])
  {
    hide RegisterOne;
  }

  /** Allocation over a whole query: the table grows at its end only, and each id denotes its hit. */
  lemma {:induction false} RegisterIsStable(cfg: Config, w: World, t: Table, hits: seq<nat>)
    requires |w| == |cfg.infos| && ValidTable(cfg, t) && Known(hits, cfg.infos)
    ensures var r := Register(w, t, hits); ValidTable(cfg, r.table) && t <= r.table && IdsDenote(r, hits)
  {
    hide Register, RegisterOne, ValidTable;
    RegisterNone(w, t);
    if hits != [] {
      var before, dev := hits[..|hits| - 1], hits[|hits| - 1];
      RegisterStep(w, t, hits);
      RegisterIsStable(cfg, w, t, before);
      RegisterOneKeeps(cfg, Register(w, t, before), dev);
    }
  }

  /** Compared with w and t, exactly the devices that are new to the table have been attached, once each. */
  predicate AttachedOnce(w: World, t: Table, hits: seq<nat>, world: World, table: Table)
    requires |world| == |w|
  {
    forall d :: 0 <= d < |w| ==>
      && (Used(d) in table <==> Used(d) in t || d in hits)
      && world[d] == if Used(d) in table && Used(d) !in t then Attach(w[d]) else w[d]
  }

  lemma {:induction false} RegisterAttachesOnce(cfg: Config, w: World, t: Table, hits: seq<nat>)
    requires |w| == |cfg.infos| && ValidTable(cfg, t) && Known(hits, cfg.infos)
    ensures var r := Register(w, t, hits); AttachedOnce(w, t, hits, r.world, r.table)
  {
    hide Register, RegisterOne, ValidTable, AttachedOnce;
    RegisterNone(w, t);
    if hits == [] {
      AttachedNothing(w, t);
    } else {
      var before, dev := hits[..|hits| - 1], hits[|hits| - 1];
      assert hits == before + [dev];
      RegisterStep(w, t, hits);
      RegisterIsStable(cfg, w, t, before);
      RegisterAttachesOnce(cfg, w, t, before);
      RegisterOneKeeps(cfg, Register(w, t, before), dev);
      AttachStep(w, t, Register(w, t, before), Register(w, t, hits), before, dev);
    }
  }

  lemma AttachedNothing(w: World, t: Table)
    ensures AttachedOnce(w, t, [], w, t)
  {
  }

  lemma AttachStep(w: World, t: Table, r: Registered, n: Registered, before: seq<nat>, dev: nat)
    requires |r.world| == |w| && dev < |w| && t <= r.table
    requires AttachedOnce(w, t, before, r.world, r.table)
    requires n.table == if Used(dev) in r.table then r.table else r.table + [Used(dev)]
    requires n.world == if Used(dev) in r.table then r.world else r.world[dev := Attach(r.world[dev])]
    ensures AttachedOnce(w, t, before + [dev], n.world, n.table)
  {
    forall d | 0 <= d < |w|
      ensures Used(d) in n.table <==> Used(d) in t || d in before + [dev]
      ensures n.world[d] == if Used(d) in n.table && Used(d) !in t then Attach(w[d]) else w[d]
    {
      assert Used(d) in n.table <==> Used(d) in r.table || d == dev;
    }
  }

  /** The table after a query is good and its ids fit 16 bits. */
  lemma RegisterIsValid(cfg: Config, w: World, t: Table, hits: seq<nat>)
    requires |w| == |cfg.infos| && ValidTable(cfg, t) && Known(hits, cfg.infos)
    ensures var r := Register(w, t, hits);
      ValidTable(cfg, r.table) && forall i :: 0 <= i < |r.ids| ==> 0 <= r.ids[i] < |cfg.infos|
  {
    RegisterIsStable(cfg, w, t, hits);
    hide Register;
    var r := Register(w, t, hits);
    Pigeonhole(r.table, |cfg.infos|);
  }

  // ---- what every message keeps ----

  /**
   * The invariant part of a step: shapes are kept, the table only grows, and
   * devices outside the connection's table are untouched.
   */
  ghost predicate Kept(cfg: Config, w: World, t: Table, h: Handled) {
    && SameShape(h.world, w)
    && ValidTable(cfg, h.table) && t <= h.table
    && (forall d :: 0 <= d < |w| && Used(d) !in h.table ==> h.world[d] == w[d])
    && |h.reply| <= BUFFER_SIZE
  }

  /** Errors keep everything. */
  lemma RefusalKeeps(cfg: Config, w: World, t: Table)
    requires ValidTable(cfg, t)
    ensures forall reason :: Kept(cfg, w, t, Refuse(w, t, reason))
  {
  }

  /** So does a change to a device of the table. */
  lemma DeviceKeeps(cfg: Config, w: World, t: Table, d: nat, dev: DevState, reply: bytes, disconnect: bool)
    requires ValidTable(cfg, t) && d < |w| && Used(d) in t && |dev.mem| == |w[d].mem| && |reply| <= BUFFER_SIZE
    ensures Kept(cfg, w, t, Handled(w[d := dev], t, reply, disconnect))
  {
  }

  lemma LookupKeeps(cfg: Config, w: World, t: Table, query: seq<Spec>)
    requires ValidConfig(cfg) && ValidWorld(cfg, w) && ValidTable(cfg, t)
    ensures Kept(cfg, w, t, LookupDevices(cfg, w, t, query))
  {
    var hits := SearchBuses(cfg, cfg.buses, query);
    RegisterIsStable(cfg, w, t, hits);
    RegisterIsValid(cfg, w, t, hits);
    RegisterAttachesOnce(cfg, w, t, hits);
    hide Register, SearchBuses, ValidTable;
  }

  lemma QueryKeeps(cfg: Config, w: World, t: Table, body: bytes)
    requires ValidConfig(cfg) && ValidWorld(cfg, w) && ValidTable(cfg, t)
    ensures Kept(cfg, w, t, HandleQuery(cfg, w, t, body))
  {
    var cnt := |body| / QUERY_ITEM_SIZE;
    RefusalKeeps(cfg, w, t);
    if |body| == cnt * QUERY_ITEM_SIZE {
      LookupKeeps(cfg, w, t, DecodeItems(body, cnt));
    }
    hide LookupDevices, DecodeItems, Kept, Refuse;
  }

  lemma CallKeeps(cfg: Config, w: World, t: Table, d: nat, p: Plugin, args: bytes)
    requires ValidWorld(cfg, w) && ValidTable(cfg, t) && d < |w| && PluginOk(p) && Used(d) in t
    ensures Kept(cfg, w, t, CallPlugin(w, t, d, p, args)) && CallPlugin(w, t, d, p, args).table == t
  {
    var r := p.fn(w[d], args);
    DeviceKeeps(cfg, w, t, d, r.dev, CallPlugin(w, t, d, p, args).reply, r.Raised?);
    hide Kept;
  }

  lemma FastCallKeeps(cfg: Config, w: World, t: Table, body: bytes)
    requires ValidConfig(cfg) && ValidWorld(cfg, w) && ValidTable(cfg, t)
    ensures var h := HandleFastCall(cfg, w, t, body); Kept(cfg, w, t, h) && h.table == t
  {
    hide CallPlugin, Kept, Refuse;
    RefusalKeeps(cfg, w, t);
    if |body| >= CALL_FAST_SIZE - 1 {
      var d, fn := DeviceOf(t, FromU16(body[..2])), FromU32(Sub(body, 2, 4));
      if d >= 0 && fn < |cfg.fast| {
        CallKeeps(cfg, w, t, d, cfg.fast[fn], Sub(body, CALL_FAST_SIZE, cfg.fast[fn].argsSize));
      }
    }
  }

  lemma NamedCallKeeps(cfg: Config, w: World, t: Table, body: bytes)
    requires ValidConfig(cfg) && ValidWorld(cfg, w) && ValidTable(cfg, t)
    ensures var h := HandleNamedCall(cfg, w, t, body); Kept(cfg, w, t, h) && h.table == t
  {
    hide CallPlugin, CString, Kept, Refuse;
    RefusalKeeps(cfg, w, t);
    if |body| >= CALL_SIZE - 1 {
      var d, name := DeviceOf(t, FromU16(body[..2])), Decode(CString(body[2..]));
      if d >= 0 && name in cfg.plugins {
        CallKeeps(cfg, w, t, d, cfg.plugins[name], Sub(body, CALL_SIZE, cfg.plugins[name].argsSize));
      }
    }
  }

  lemma ReadKeeps(cfg: Config, w: World, t: Table, body: bytes)
    requires ValidWorld(cfg, w) && ValidTable(cfg, t)
    ensures var h := HandleRead(cfg, w, t, body); Kept(cfg, w, t, h) && h.table == t
  {
    hide Refuse, ReadTrace, Kept;
    RefusalKeeps(cfg, w, t);
    if |body| == READ_REQ_SIZE {
      var d, addr, size := DeviceOf(t, FromU16(body[..2])), FromU32(body[2..6]), FromU16(body[6..8]);
      if d >= 0 && CanRead(w[d], addr, size) {
        var (dev, data) := w[d].Read(addr, size);
        DeviceKeeps(cfg, w, t, d, dev, Frame(CMD_READ_RESP, data), false);
      }
    }
  }

  lemma WriteKeeps(cfg: Config, w: World, t: Table, body: bytes)
    requires ValidWorld(cfg, w) && ValidTable(cfg, t)
    ensures var h := HandleWrite(cfg, w, t, body); Kept(cfg, w, t, h) && h.table == t
  {
    hide Refuse, WriteIfInside, Kept;
    RefusalKeeps(cfg, w, t);
    if |body| >= READ_REQ_SIZE {
      var d, addr, size := DeviceOf(t, FromU16(body[..2])), FromU32(body[2..6]), FromU16(body[6..8]);
      if d >= 0 {
        DeviceKeeps(cfg, w, t, d, WriteIfInside(w[d], addr, Sub(body, READ_REQ_SIZE, size)), [], false);
      }
    }
  }

  lemma FindKeeps(cfg: Config, w: World, t: Table, body: bytes)
    requires ValidConfig(cfg) && ValidWorld(cfg, w) && ValidTable(cfg, t)
    ensures var h := HandleFindFunction(cfg, w, t, body); Kept(cfg, w, t, h) && h.table == t
  {
    hide Refuse, FunctionReply, CString;
    RefusalKeeps(cfg, w, t);
  }

  lemma PingKeeps(cfg: Config, w: World, t: Table, body: bytes)
    requires ValidTable(cfg, t)
    ensures var h := HandlePing(w, t, body); Kept(cfg, w, t, h) && h.table == t
    ensures Kept(cfg, w, t, Handled(w, t, [], true)) && Kept(cfg, w, t, Handled(w, t, [], false))
  {
  }

  /** Every message keeps the invariants; only a query changes the table. */
  lemma HandleKeeps(cfg: Config, w: World, t: Table, cmd: byte, body: bytes)
    requires ValidConfig(cfg) && ValidWorld(cfg, w) && ValidTable(cfg, t)
    ensures var h := Handle(cfg, w, t, cmd, body);
      Kept(cfg, w, t, h) && ValidWorld(cfg, h.world) && (cmd != CMD_QUERY ==> h.table == t)
  {
    HandleKept(cfg, w, t, cmd, body);
    hide Handle, ValidTable;
  }

  lemma HandleKept(cfg: Config, w: World, t: Table, cmd: byte, body: bytes)
    requires ValidConfig(cfg) && ValidWorld(cfg, w) && ValidTable(cfg, t)
    ensures var h := Handle(cfg, w, t, cmd, body); Kept(cfg, w, t, h) && (cmd != CMD_QUERY ==> h.table == t)
  {
    hide HandleFastCall, HandleRead, HandleWrite, HandleNamedCall, HandleQuery, HandleFindFunction, HandlePing;
    hide Kept, Refuse, ValidTable, ValidConfig, ValidWorld;
    RefusalKeeps(cfg, w, t);
    PingKeeps(cfg, w, t, body);
    QueryKeeps(cfg, w, t, body);
    FastCallKeeps(cfg, w, t, body);
    NamedCallKeeps(cfg, w, t, body);
    ReadKeeps(cfg, w, t, body);
    WriteKeeps(cfg, w, t, body);
    FindKeeps(cfg, w, t, body);
  }

  // ---- errors end the connection ----

  predicate IsError(reply: bytes) {
    reply != [] && reply[0] == CMD_MSG
  }

  lemma RefusalIsError(w: World, t: Table)
    ensures forall reason :: IsError(Refuse(w, t, reason).reply)
  {
    hide Text, Code, I32, U16, ErrorText;
  }

  lemma CallAnswers(w: World, t: Table, d: nat, p: Plugin, args: bytes)
    requires d < |w| && PluginOk(p)
    ensures var h := CallPlugin(w, t, d, p, args); IsError(h.reply) <==> h.disconnect
  {
    hide Refuse;
    var r := p.fn(w[d], args);
    RefusalIsError(w[d := r.dev], t);
  }

  lemma QueryAnswers(cfg: Config, w: World, t: Table, body: bytes)
    requires ValidConfig(cfg) && ValidWorld(cfg, w) && ValidTable(cfg, t)
    ensures var h := HandleQuery(cfg, w, t, body); IsError(h.reply) <==> h.disconnect
  {
    hide Refuse, SearchBuses, Register, DecodeItems, EncodeIds;
    RefusalIsError(w, t);
    var cnt := |body| / QUERY_ITEM_SIZE;
    if |body| == cnt * QUERY_ITEM_SIZE {
      RegisterIsValid(cfg, w, t, SearchBuses(cfg, cfg.buses, DecodeItems(body, cnt)));
    }
  }

  lemma FastCallAnswers(cfg: Config, w: World, t: Table, body: bytes)
    requires ValidConfig(cfg) && ValidWorld(cfg, w) && ValidTable(cfg, t)
    ensures var h := HandleFastCall(cfg, w, t, body); IsError(h.reply) <==> h.disconnect
  {
    hide Refuse, CallPlugin, IsError, FromU16, FromU32;
    RefusalIsError(w, t);
    if |body| >= CALL_FAST_SIZE - 1 {
      var d, fn := DeviceOf(t, FromU16(body[..2])), FromU32(Sub(body, 2, 4));
      if d >= 0 && fn < |cfg.fast| {
        CallAnswers(w, t, d, cfg.fast[fn], Sub(body, CALL_FAST_SIZE, cfg.fast[fn].argsSize));
      }
    }
  }

  lemma NamedCallAnswers(cfg: Config, w: World, t: Table, body: bytes)
    requires ValidConfig(cfg) && ValidWorld(cfg, w) && ValidTable(cfg, t)
    ensures var h := HandleNamedCall(cfg, w, t, body); IsError(h.reply) <==> h.disconnect
  {
    hide Refuse, CallPlugin, IsError, FromU16, CString, Decode;
    RefusalIsError(w, t);
    if |body| >= CALL_SIZE - 1 {
      var d, name := DeviceOf(t, FromU16(body[..2])), Decode(CString(body[2..]));
      if d >= 0 && name in cfg.plugins {
        CallAnswers(w, t, d, cfg.plugins[name], Sub(body, CALL_SIZE, cfg.plugins[name].argsSize));
      }
    }
  }

  lemma SimpleAnswers(cfg: Config, w: World, t: Table, body: bytes)
    requires ValidConfig(cfg) && ValidWorld(cfg, w) && ValidTable(cfg, t)
    ensures var h := HandleRead(cfg, w, t, body); IsError(h.reply) <==> h.disconnect
    ensures var h := HandleWrite(cfg, w, t, body); IsError(h.reply) <==> h.disconnect
    ensures var h := HandleFindFunction(cfg, w, t, body); IsError(h.reply) <==> h.disconnect
    ensures var h := HandlePing(w, t, body); IsError(h.reply) <==> h.disconnect
  {
    hide Refuse, FromU16, FromU32, ReadTrace, WriteIfInside, CString, Decode, FunctionReply;
    RefusalIsError(w, t);
  }

  /**
   * Only Bye and errors end a connection: an error message is the last frame a
   * client gets, and without one the connection goes on until it says Bye.
   */
  lemma ErrorsAreLast(cfg: Config, w: World, t: Table, cmd: byte, body: bytes)
    requires ValidConfig(cfg) && ValidWorld(cfg, w) && ValidTable(cfg, t)
    ensures var h := Handle(cfg, w, t, cmd, body);
      && (h.disconnect <==> cmd == CMD_BYE || IsError(h.reply))
      && (cmd == CMD_BYE ==> h.reply == [])
  {
    hide HandleFastCall, HandleRead, HandleWrite, HandleNamedCall, HandleQuery, HandleFindFunction, HandlePing;
    hide Refuse, ValidTable, ValidConfig, ValidWorld;
    RefusalIsError(w, t);
    QueryAnswers(cfg, w, t, body);
    FastCallAnswers(cfg, w, t, body);
    NamedCallAnswers(cfg, w, t, body);
    SimpleAnswers(cfg, w, t, body);
  }

  // ---- attaching ----

  /** Plugins that do not attach devices themselves. */
  ghost predicate PluginsOnlyUse(cfg: Config) {
    && (forall name, d: DevState, a: bytes :: name in cfg.plugins ==>
        cfg.plugins[name].fn(d, a).dev.attaches == d.attaches)
    && (forall i, d: DevState, a: bytes :: 0 <= i < |cfg.fast| ==> cfg.fast[i].fn(d, a).dev.attaches == d.attaches)
  }

  /** Going from one world and table to another has attached exactly the devices that are new to the table, once. */
  predicate AttachesNew(w: World, t: Table, w': World, t': Table) {
    |w'| == |w| && forall d :: 0 <= d < |w| ==>
      w'[d].attaches == w[d].attaches + if Used(d) in t' && Used(d) !in t then 1 else 0
  }

  lemma AttachesNewTwice(w: World, t: Table, w': World, t': Table, w'': World, t'': Table)
    requires AttachesNew(w, t, w', t') && AttachesNew(w', t', w'', t'') && t <= t' && t' <= t''
    ensures AttachesNew(w, t, w'', t'')
  {
    forall d | 0 <= d < |w|
      ensures w''[d].attaches == w[d].attaches + if Used(d) in t'' && Used(d) !in t then 1 else 0
    {
      assert Used(d) in t ==> Used(d) in t';
      assert Used(d) in t' ==> Used(d) in t'';
    }
  }

  lemma QueryAttaches(cfg: Config, w: World, t: Table, body: bytes)
    requires ValidConfig(cfg) && ValidWorld(cfg, w) && ValidTable(cfg, t)
    ensures var h := HandleQuery(cfg, w, t, body); AttachesNew(w, t, h.world, h.table)
  {
    hide Refuse, SearchBuses, Register, DecodeItems, ValidTable, EncodeIds;
    var cnt := |body| / QUERY_ITEM_SIZE;
    if |body| == cnt * QUERY_ITEM_SIZE {
      var hits := SearchBuses(cfg, cfg.buses, DecodeItems(body, cnt));
      RegisterIsValid(cfg, w, t, hits);
      RegisterAttachesOnce(cfg, w, t, hits);
    }
  }

  lemma SameAttaches(w: World, t: Table, d: nat, dev: DevState)
    requires d < |w| && dev.attaches == w[d].attaches
    ensures AttachesNew(w, t, w, t) && AttachesNew(w, t, w[d := dev], t)
  {
  }

  lemma NoAttaches(w: World, t: Table)
    ensures AttachesNew(w, t, w, t)
  {
  }

  lemma FastCallAttaches(cfg: Config, w: World, t: Table, body: bytes)
    requires ValidConfig(cfg) && ValidWorld(cfg, w) && ValidTable(cfg, t) && PluginsOnlyUse(cfg)
    ensures var h := HandleFastCall(cfg, w, t, body); AttachesNew(w, t, h.world, t)
  {
    hide AttachesNew, Refuse, FromU16, FromU32, Sub;
    NoAttaches(w, t);
    if |body| >= CALL_FAST_SIZE - 1 {
      var d, fn := DeviceOf(t, FromU16(body[..2])), FromU32(Sub(body, 2, 4));
      if d >= 0 && fn < |cfg.fast| {
        SameAttaches(w, t, d, cfg.fast[fn].fn(w[d], Sub(body, CALL_FAST_SIZE, cfg.fast[fn].argsSize)).dev);
      }
    }
  }

  lemma NamedCallAttaches(cfg: Config, w: World, t: Table, body: bytes)
    requires ValidConfig(cfg) && ValidWorld(cfg, w) && ValidTable(cfg, t) && PluginsOnlyUse(cfg)
    ensures var h := HandleNamedCall(cfg, w, t, body); AttachesNew(w, t, h.world, t)
  {
    hide AttachesNew, Refuse, FromU16, Sub, CString, Decode;
    NoAttaches(w, t);
    if |body| >= CALL_SIZE - 1 {
      var d, name := DeviceOf(t, FromU16(body[..2])), Decode(CString(body[2..]));
      if d >= 0 && name in cfg.plugins {
        SameAttaches(w, t, d, cfg.plugins[name].fn(w[d], Sub(body, CALL_SIZE, cfg.plugins[name].argsSize)).dev);
      }
    }
  }

  lemma TransferAttaches(cfg: Config, w: World, t: Table, body: bytes)
    requires ValidConfig(cfg) && ValidWorld(cfg, w) && ValidTable(cfg, t)
    ensures var h := HandleRead(cfg, w, t, body); AttachesNew(w, t, h.world, t)
    ensures var h := HandleWrite(cfg, w, t, body); AttachesNew(w, t, h.world, t)
  {
    hide AttachesNew, Refuse, FromU16, FromU32, ReadTrace, WriteTrace, Overlay, Sub;
    NoAttaches(w, t);
    if |body| >= READ_REQ_SIZE {
      var d, addr, size := DeviceOf(t, FromU16(body[..2])), FromU32(body[2..6]), FromU16(body[6..8]);
      if d >= 0 {
        SameAttaches(w, t, d, WriteIfInside(w[d], addr, Sub(body, READ_REQ_SIZE, size)));
        if CanRead(w[d], addr, size) {
          SameAttaches(w, t, d, w[d].Read(addr, size).0);
        }
      }
    }
  }

  lemma OthersAttachNothing(cfg: Config, w: World, t: Table, cmd: byte, body: bytes)
    requires ValidConfig(cfg) && ValidWorld(cfg, w) && ValidTable(cfg, t) && PluginsOnlyUse(cfg) && cmd != CMD_QUERY
    ensures var h := Handle(cfg, w, t, cmd, body); AttachesNew(w, t, h.world, t)
  {
    hide HandleFastCall, HandleNamedCall, HandleRead, HandleWrite, Refuse, FromU16, CString, Decode;
    hide FunctionReply, ValidTable, AttachesNew, PluginsOnlyUse;
    NoAttaches(w, t);
    TransferAttaches(cfg, w, t, body);
    FastCallAttaches(cfg, w, t, body);
    NamedCallAttaches(cfg, w, t, body);
  }

  /** A message attaches exactly the devices it puts into the connection's table, once each. */
  lemma HandleAttaches(cfg: Config, w: World, t: Table, cmd: byte, body: bytes)
    requires ValidConfig(cfg) && ValidWorld(cfg, w) && ValidTable(cfg, t) && PluginsOnlyUse(cfg)
    ensures var h := Handle(cfg, w, t, cmd, body); AttachesNew(w, t, h.world, h.table)
  {
    hide HandleFastCall, HandleRead, HandleWrite, HandleNamedCall, HandleQuery, HandleFindFunction, HandlePing;
    hide Refuse, ValidTable, ValidConfig, ValidWorld, PluginsOnlyUse, AttachesNew, Kept;
    if cmd == CMD_QUERY {
      QueryAttaches(cfg, w, t, body);
    } else {
      OthersAttachNothing(cfg, w, t, cmd, body);
      HandleKept(cfg, w, t, cmd, body);
    }
  }
}

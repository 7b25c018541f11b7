/**
 * The server's message handling on its buffers (src/server): requests are read
 * in place from a client's receive buffer, replies are built in the transmit
 * buffer, the device table grows in place. Each method is proved against the
 * function of Handlers it stands for. HandleWrite, HandleFastRemoteCall and
 * HandleRemoteCall have the case tree of that function; what it means for a
 * client is proved in Service and Plugins.
 */
module Server {
  import opened Bytes
  import opened BlockTransfer
  import opened CompSpec
  import opened Framing
  import opened Handlers
  import opened Search
  import opened Wire

  /** What a handler tells its caller: whether to disconnect, and how much of the transmit buffer to send. */
  datatype PProcRes = PProcRes(disconnect: bool, txSize: nat)

  /** Three fields at the start of a buffer. */
  lemma ThreeParts(buffer: bytes, a: bytes, b: bytes, c: bytes, rest: bytes)
    requires |a| + |b| + |c| <= |buffer| && buffer[..|a|] == a && buffer[|a|..] == rest
    requires rest[..|b|] == b && rest[|b|..|b| + |c|] == c
    ensures buffer[..|a| + |b| + |c|] == a + b + c
    ensures forall n :: 0 <= n <= |a| + |b| + |c| ==> buffer[..n] == (a + b + c)[..n]
  {
    assert buffer == a + rest;
  }

  /** A header in front of a body that is already there. */
  lemma FrameBuilt(buffer: bytes, cmd: byte, body: bytes, rest: bytes)
    requires |body| < 0x1_0000 && HEADER_SIZE + |body| <= |buffer|
    requires buffer[..HEADER_SIZE] == [cmd] + U16(|body|) && buffer[HEADER_SIZE..] == rest && rest[..|body|] == body
    ensures buffer[..HEADER_SIZE + |body|] == Frame(cmd, body)
  {
    hide U16;
    assert buffer == buffer[..HEADER_SIZE] + rest;
  }

  predicate SmallIds(ids: seq<int>) {
    forall j :: 0 <= j < |ids| ==> 0 <= ids[j] < 0x1_0000
  }

  lemma SmallerIds(ids: seq<int>, id: int)
    requires SmallIds(ids + [id])
    ensures SmallIds(ids)
  {
    assert forall j :: 0 <= j < |ids| ==> (ids + [id])[j] == ids[j];
  }

  lemma RegisterOneMore(cfg: Config, w: World, t: Table, hits: seq<nat>, i: nat)
    requires |w| == |cfg.infos| < 0x1_0000 && ValidTable(cfg, t) && Known(hits, cfg.infos) && i < |hits|
    ensures Register(w, t, hits[..i + 1]) == RegisterOne(Register(w, t, hits[..i]), hits[i])
    ensures SmallIds(Register(w, t, hits[..i + 1]).ids) && hits[i] < |w|
  {
    RegisterIsValid(cfg, w, t, hits[..i + 1]);
    assert hits[..i + 1][..i] == hits[..i];
    hide RegisterOne;
  }

  lemma SliceOfSlice(b: bytes, from: nat, to: nat, i: nat, j: nat)
    requires from <= to <= |b| && i <= j <= to - from
    ensures b[from..to][i..j] == b[from + i..from + j]
  {
    forall k | 0 <= k < j - i
      ensures b[from..to][i..j][k] == b[from + i..from + j][k]
    {
    }
  }

  /** A frame in a buffer. */
  lemma FrameAt(buffer: bytes, at: nat, size: nat, length: nat)
    requires at + size <= |buffer| && Complete(buffer[at..at + size]) && length == FrameLength(buffer[at..at + size])
    ensures HEADER_SIZE <= length <= size
    ensures Head(buffer[at..at + size]) == Message(buffer[at], buffer[at + HEADER_SIZE..at + length])
    ensures Tail(buffer[at..at + size]) == buffer[at..at + size][length..]
  {
    hide FrameLength;
    SliceOfSlice(buffer, at, at + size, HEADER_SIZE, length);
  }

  lemma KeptTable(cfg: Config, w: World, t: Table, h: Handled)
    requires Kept(cfg, w, t, h)
    ensures ValidTable(cfg, h.table)
  {
  }

  /** What follows the frame. */
  lemma RestAt(before: bytes, after: bytes, at: nat, size: nat, length: nat)
    requires length <= size && at + size <= |before| == |after|
    requires before[at + length..] == after[at + length..]
    ensures after[at + length..at + size] == before[at..at + size][length..]
  {
    assert after[at + length..at + size] == after[at + length..][..size - length];
    assert before[at..at + size][length..] == before[at + length..][..size - length];
  }

  /** ClientInfo with its RxBuffer and its socket. */
  class ClientInfo {
    const id: nat
    const fd: int
    const buffer: array<byte>
    var currPtr: nat
    var currLen: nat
    var devices: Table
    var sent: bytes
    var room: int

    constructor (id: nat, fd: int, room: int)
      ensures this.id == id && this.fd == fd && fresh(buffer)
      ensures Valid() && State() == NEW_CONN.(room := room)
    {
      this.id, this.fd, this.room := id, fd, room;
      buffer := new byte[RX_BUFFER_SIZE](_ => 0);
      currPtr, currLen, devices, sent := 0, 0, [], [];
    }

    predicate Valid()
      reads this
    {
      buffer.Length == RX_BUFFER_SIZE && currPtr + currLen <= RX_BUFFER_SIZE
    }

    function State(): (c: Conn)
      reads this, buffer
      requires Valid()
    {
      Conn(devices, buffer[currPtr..currPtr + currLen], sent, room)
    }

    /** The overlapping memcpy, as a loop in ascending order. */
    method Compact()
      requires Valid()
      modifies this`currPtr, buffer
      ensures Valid() && currPtr == 0 && State() == old(State())
    {
      if currLen > 0 && currPtr != 0 {
        for i := 0 to currLen
          modifies buffer
          invariant forall k :: 0 <= k < i ==> buffer[k] == old(buffer[currPtr + k])
          invariant forall k :: currPtr + i <= k < currPtr + currLen ==> buffer[k] == old(buffer[k])
        {
          buffer[i] := buffer[currPtr + i];
        }
        assert buffer[..currLen] == old(buffer[currPtr..currPtr + currLen]);
      }
      currPtr := 0;
    }

    /** recv: the received bytes are stored behind the pending ones. */
    method Receive(data: bytes)
      requires Valid() && currPtr == 0 && |data| <= RX_BUFFER_SIZE - currLen
      modifies this`currLen, buffer
      ensures Valid() && State() == Arrived(old(State()), data)
    {
      ghost var pending := buffer[..currLen];
      assert old(State()).pending == pending;
      for i := 0 to |data|
        modifies buffer
        invariant forall k :: 0 <= k < currLen ==> buffer[k] == pending[k]
        invariant forall k :: 0 <= k < i ==> buffer[currLen + k] == data[k]
      {
        buffer[currLen + i] := data[i];
      }
      ghost var received := buffer[..currLen + |data|];
      assert received == pending + data;
      currLen := currLen + |data|;
      assert State().pending == received;
    }

    /** send takes part of what it is given, as far as there is room; without room it fails. */
    method Send(data: bytes) returns (result: int)
      requires data != []
      modifies this`sent, this`room
      ensures old(room) == 0 ==> result < 0 && sent == old(sent) && room == 0
      ensures old(room) != 0 ==>
        && 0 < result <= |data| && (old(room) > 0 ==> result <= old(room))
        && sent == old(sent) + data[..result] && room == if old(room) < 0 then old(room) else old(room) - result
    {
      if room == 0 {
        result := -1;
      } else {
        result :| 0 < result <= |data| && (room > 0 ==> result <= room);
        sent := sent + data[..result];
        room := if room < 0 then room else room - result;
      }
    }
  }

  /** The part of the server that handles messages. */
  class MessageHandler {
    var cfg: Config
    var world: World
    const txBuffer: array<byte>

    constructor (cfg: Config, world: World)
      ensures this.cfg == cfg && this.world == world && fresh(txBuffer) && Ready()
    {
      this.cfg, this.world := cfg, world;
      txBuffer := new byte[BUFFER_SIZE](_ => 0);
    }

    predicate Ready() {
      txBuffer.Length == BUFFER_SIZE
    }

    ghost predicate Serves(client: ClientInfo)
      reads this, client
    {
      Ready() && ValidConfig(cfg) && ValidWorld(cfg, world) && ValidTable(cfg, client.devices)
    }

    /** The handler has done what h says, with the reply in the transmit buffer. */
    ghost predicate Did(client: ClientInfo, r: PProcRes, h: Handled)
      reads this, client, txBuffer
    {
      && world == h.world && client.devices == h.table && r.disconnect == h.disconnect
      && r.txSize == |h.reply| <= txBuffer.Length && txBuffer[..r.txSize] == h.reply
    }

    /** A frame whose header and body have been put into the buffer. */
    method PutFrame(cmd: byte, body: bytes) returns (txSize: nat)
      requires Ready() && HEADER_SIZE + |body| <= BUFFER_SIZE
      modifies txBuffer
      ensures txSize == |Frame(cmd, body)| <= txBuffer.Length && txBuffer[..txSize] == Frame(cmd, body)
    {
      hide U16;
      PutHeader(txBuffer, cmd, |body|);
      Put(txBuffer, HEADER_SIZE, body);
      txSize := HEADER_SIZE + |body|;
    }

    method SendErr(client: ClientInfo, reason: Reason) returns (r: PProcRes)
      requires Ready()
      modifies txBuffer
      ensures Did(client, r, Refuse(world, client.devices, reason))
    {
      hide Text, Code, I32, U16, ErrorText;
      var msg := Field(ErrorText(Text(reason)), MAX_ERR_MSG_LEN);
      Put(txBuffer, HEADER_SIZE + 4, msg);
      Put(txBuffer, HEADER_SIZE, I32(Code(reason)));
      assert txBuffer[HEADER_SIZE..HEADER_SIZE + 4] ==
        I32(Code(reason)) && txBuffer[HEADER_SIZE + 4..HEADER_SIZE + 4 + |msg|] == msg;
      ghost var rest := txBuffer[HEADER_SIZE..];
      PutHeader(txBuffer, CMD_MSG, 4 + |CString(msg)|);
      r := PProcRes(true, ERR_MSG_SIZE);
      ThreeParts(txBuffer[..], [CMD_MSG] + U16(4 + |CString(msg)|), I32(Code(reason)), msg, rest);
    }

    method HandleRead(client: ClientInfo, body: bytes) returns (r: PProcRes)
      requires Serves(client)
      modifies this`world, txBuffer
      ensures Did(client, r, Handlers.HandleRead(cfg, old(world), client.devices, body))
    {
      hide Refuse, U16, FromU16, FromU32, ReadTrace, ValidConfig;
      if |body| != READ_REQ_SIZE {
        r := SendErr(client, ReadSize);
        return;
      }
      var dev := DeviceOf(client.devices, FromU16(body[..2]));
      if dev < 0 {
        r := SendErr(client, ReadAccess);
        return;
      }
      var addr, size := FromU32(body[2..6]), FromU16(body[6..8]);
      PutHeader(txBuffer, CMD_READ_RESP, size);
      if !CanRead(world[dev], addr, size) {
        r := SendErr(client, ReadFailed);
        return;
      }
      var (state, data) := world[dev].Read(addr, size);
      world := world[dev := state];
      Put(txBuffer, HEADER_SIZE, data);
      r := PProcRes(false, HEADER_SIZE + size);
      assert txBuffer[..r.txSize] == Frame(CMD_READ_RESP, data);
    }

    method HandleWrite(client: ClientInfo, body: bytes) returns (r: PProcRes)
      requires Serves(client)
      modifies this`world, txBuffer
      ensures Did(client, r, Handlers.HandleWrite(cfg, old(world), client.devices, body))
    {
      hide Refuse, FromU16, FromU32, WriteIfInside, ValidConfig;
      if |body| < READ_REQ_SIZE {
        r := SendErr(client, WriteSize);
        return;
      }
      if FromU16(body[..2]) >= MAX_DEVICES {
        r := SendErr(client, WriteId);
        return;
      }
      var dev := DeviceOf(client.devices, FromU16(body[..2]));
      if dev < 0 {
        r := SendErr(client, WriteAccess);
        return;
      }
      var addr, size := FromU32(body[2..6]), FromU16(body[6..8]);
      world := world[dev := WriteIfInside(world[dev], addr, Sub(body, READ_REQ_SIZE, size))];
      r := PProcRes(false, 0);
    }

    /** The plugin writes its result behind the reply header, which is sent only if there is a result. */
    method Call(client: ClientInfo, dev: nat, plugin: Plugin, args: bytes) returns (r: PProcRes)
      requires Ready() && dev < |world| && PluginOk(plugin)
      modifies this`world, txBuffer
      ensures Did(client, r, CallPlugin(old(world), client.devices, dev, plugin, args))
    {
      hide Refuse, U16;
      PutHeader(txBuffer, CMD_CALL_RET, plugin.retSize);
      var result := plugin.fn(world[dev], args);
      world := world[dev := result.dev];
      if result.Raised? {
        r := SendErr(client, CallRaised(result.what));
        return;
      }
      Put(txBuffer, HEADER_SIZE, result.ret);
      r := PProcRes(false, if plugin.retSize != 0 then HEADER_SIZE + plugin.retSize else 0);
      assert txBuffer[..HEADER_SIZE + plugin.retSize] == Frame(CMD_CALL_RET, result.ret);
    }

    method HandleFastRemoteCall(client: ClientInfo, body: bytes) returns (r: PProcRes)
      requires Serves(client)
      modifies this`world, txBuffer
      ensures Did(client, r, HandleFastCall(cfg, old(world), client.devices, body))
    {
      hide Refuse, FromU16, FromU32, CallPlugin, Did;
      if |body| < CALL_FAST_SIZE - 1 {
        r := SendErr(client, CallSize);
        return;
      }
      var dev := DeviceOf(client.devices, FromU16(body[..2]));
      if dev < 0 {
        r := SendErr(client, CallAccess);
        return;
      }
      var fn := FromU32(Sub(body, 2, 4));
      if fn >= |cfg.fast| {
        r := SendErr(client, CallId(fn));
        return;
      }
      var plugin := cfg.fast[fn];
      r := Call(client, dev, plugin, Sub(body, CALL_FAST_SIZE, plugin.argsSize));
    }

    method HandleRemoteCall(client: ClientInfo, body: bytes) returns (r: PProcRes)
      requires Serves(client)
      modifies this`world, txBuffer
      ensures Did(client, r, HandleNamedCall(cfg, old(world), client.devices, body))
    {
      hide Refuse, FromU16, CallPlugin, CString, Decode, Did;
      if |body| < CALL_SIZE - 1 {
        r := SendErr(client, CallSize);
        return;
      }
      var dev := DeviceOf(client.devices, FromU16(body[..2]));
      if dev < 0 {
        r := SendErr(client, CallAccess);
        return;
      }
      var name := Decode(CString(body[2..]));
      if name !in cfg.plugins {
        r := SendErr(client, CallName(name));
        return;
      }
      var plugin := cfg.plugins[name];
      r := Call(client, dev, plugin, Sub(body, CALL_SIZE, plugin.argsSize));
    }

    /** The loop over plugins_fast_names. */
    method FindFunction(name: string) returns (found: bool, id: int)
      requires |cfg.fastNames| < 0x1_0000_0000
      ensures FunctionReply(cfg.fastNames, name) == FunctionId(found, id) && 0 <= id <= NO_FUNCTION
    {
      found, id := false, NO_FUNCTION;
      for i := 0 to |cfg.fastNames|
        invariant !found && id == NO_FUNCTION
        invariant forall j :: 0 <= j < i ==> cfg.fastNames[j] != name
      {
        if name == cfg.fastNames[i] {
          IndexIs(cfg.fastNames, name, i);
          found, id := true, i;
          return;
        }
      }
      IndexIs(cfg.fastNames, name, |cfg.fastNames|);
    }

    method HandleGetRpcFnId(client: ClientInfo, body: bytes) returns (r: PProcRes)
      requires Serves(client)
      modifies txBuffer
      ensures Did(client, r, HandleFindFunction(cfg, world, client.devices, body))
    {
      hide Refuse, FromU16, CString, Decode, U32, Frame, FunctionReply;
      if |body| < CALL_SIZE {
        r := SendErr(client, FindSize);
        return;
      }
      var dev := DeviceOf(client.devices, FromU16(body[..2]));
      if dev < 0 {
        r := SendErr(client, FindAccess);
        return;
      }
      var found, id := FindFunction(Decode(CString(body[2..])));
      var size := PutFrame(CMD_GET_CALL_ID, [if found then 1 else 0] + U32(id));
      r := PProcRes(false, size);
    }

    // ---- queries ----

    method ExtractSpecs(body: bytes, cnt: nat) returns (specs: seq<Spec>)
      requires QUERY_ITEM_SIZE * cnt <= |body|
      ensures specs == DecodeItems(body, cnt)
    {
      hide DecodeItem;
      specs := [];
      for i := 0 to cnt
        invariant specs == DecodeItems(body, i)
      {
        specs := specs + [DecodeItem(body, QUERY_ITEM_SIZE * i)];
      }
    }

    /** The devices of all buses that the query finds. */
    method FindDevices(query: seq<Spec>) returns (hits: seq<nat>)
      requires forall b :: 0 <= b < |cfg.buses| ==> Known(cfg.buses[b], cfg.infos)
      ensures hits == SearchBuses(cfg, cfg.buses, query)
    {
      hide Filter, Known;
      hits := [];
      for b := 0 to |cfg.buses|
        invariant hits == SearchBuses(cfg, cfg.buses[..b], query)
      {
        var found := FilterDevices(cfg.buses[b], cfg.infos, query);
        for i := 0 to |found|
          invariant hits == SearchBuses(cfg, cfg.buses[..b], query) + found[..i]
        {
          hits := hits + [found[i]];
        }
        assert found[..|found|] == found;
        assert cfg.buses[..b + 1][..b] == cfg.buses[..b];
      }
      assert cfg.buses[..|cfg.buses|] == cfg.buses;
    }

    /** The loop over the client's devices: the device's id, or the first free one, or the next one. */
    method LookupId(client: ClientInfo, dev: nat) returns (id: nat, registered: bool)
      ensures registered ==> id == IndexOf(client.devices, Used(dev)) < |client.devices|
      ensures !registered ==>
        IndexOf(client.devices, Used(dev)) == |client.devices| && id == IndexOf(client.devices, Free)
    {
      var firstEmpty := -1;
      for i := 0 to |client.devices|
        invariant forall j :: 0 <= j < i ==> client.devices[j] != Used(dev)
        invariant firstEmpty < 0 ==> forall j :: 0 <= j < i ==> client.devices[j] != Free
        invariant firstEmpty >= 0 ==> firstEmpty < i && client.devices[firstEmpty] == Free
        invariant firstEmpty >= 0 ==> forall j :: 0 <= j < firstEmpty ==> client.devices[j] != Free
      {
        if client.devices[i] == Used(dev) {
          IndexIs(client.devices, Used(dev), i);
          id, registered := i, true;
          return;
        }
        if client.devices[i] == Free && firstEmpty < 0 {
          firstEmpty := i;
        }
      }
      id, registered := if firstEmpty < 0 then |client.devices| else firstEmpty, false;
      IndexIs(client.devices, Used(dev), |client.devices|);
      IndexIs(client.devices, Free, id);
    }

    method RegisterDevice(client: ClientInfo, dev: nat, ghost ids: seq<int>) returns (id: nat)
      requires dev < |world|
      modifies this`world, client`devices
      ensures Registered(world, client.devices, ids + [id]) ==
        RegisterOne(Registered(old(world), old(client.devices), ids), dev)
    {
      hide IndexOf;
      var registered: bool;
      id, registered := LookupId(client, dev);
      if !registered {
        if id == |client.devices| {
          client.devices := client.devices + [Used(dev)];
        } else {
          client.devices := client.devices[id := Used(dev)];
        }
        world := world[dev := world[dev].(attaches := world[dev].attaches + 1)];
      }
    }

    /** The ids in the buffer are those of r, the world and the client's devices too. */
    ghost predicate Allocated(client: ClientInfo, r: Registered)
      reads this, client, txBuffer
    {
      && Ready() && world == r.world && client.devices == r.table
      && SmallIds(r.ids) && HEADER_SIZE + 2 * |r.ids| <= BUFFER_SIZE
      && txBuffer[HEADER_SIZE..HEADER_SIZE + 2 * |r.ids|] == EncodeIds(r.ids)
    }

    lemma NothingAllocated(client: ClientInfo)
      requires Ready()
      ensures Register(world, client.devices, []) == Registered(world, client.devices, [])
      ensures Allocated(client, Registered(world, client.devices, []))
    {
    }

    method PutId(cnt: nat, id: nat, ghost ids: seq<int>)
      requires Ready() && |ids| == cnt && HEADER_SIZE + 2 * cnt + 2 <= BUFFER_SIZE
      requires SmallIds(ids + [id])
      requires txBuffer[HEADER_SIZE..HEADER_SIZE + 2 * cnt] == (SmallerIds(ids, id); EncodeIds(ids))
      modifies txBuffer
      ensures txBuffer[HEADER_SIZE..HEADER_SIZE + 2 * |ids + [id]|] == EncodeIds(ids + [id])
    {
      hide U16;
      SmallerIds(ids, id);
      var at := HEADER_SIZE + 2 * cnt;
      assert id == (ids + [id])[cnt];
      Put(txBuffer, at, U16(id));
      assert (ids + [id])[..|ids|] == ids;
      assert txBuffer[HEADER_SIZE..at + 2] == old(txBuffer[HEADER_SIZE..at]) + U16(id);
    }

    /** The body of the loop over the found devices. */
    method AllocateId(client: ClientInfo, cnt: nat, dev: nat, ghost r: Registered)
      requires Allocated(client, r) && |r.ids| == cnt && HEADER_SIZE + 2 * cnt + 2 <= BUFFER_SIZE
      requires dev < |r.world| && SmallIds(RegisterOne(r, dev).ids)
      modifies this`world, client`devices, txBuffer
      ensures Allocated(client, RegisterOne(r, dev))
    {
      hide RegisterOne, EncodeIds, SmallIds;
      var id := RegisterDevice(client, dev, r.ids);
      PutId(cnt, id, r.ids);
    }

    /** The loop that gives every found device its id and puts the ids behind the header. */
    method AllocateIds(client: ClientInfo, result: seq<nat>)
      requires Ready() && |world| == |cfg.infos| < 0x1_0000 && ValidTable(cfg, client.devices)
      requires Known(result, cfg.infos) && IdsFit(result)
      modifies this`world, client`devices, txBuffer
      ensures Allocated(client, Register(old(world), old(client.devices), result))
    {
      hide RegisterOne, Register, ValidTable, EncodeIds, Allocated;
      ghost var w, t := world, client.devices;
      NothingAllocated(client);
      assert result[..0] == [];
      for i := 0 to |result|
        invariant |w| == |cfg.infos| && Allocated(client, Register(w, t, result[..i]))
      {
        RegisterOneMore(cfg, w, t, result, i);
        AllocateId(client, i, result[i], Register(w, t, result[..i]));
      }
      assert result[..|result|] == result;
    }

    method DeviceLookupResp(client: ClientInfo, query: seq<Spec>) returns (r: PProcRes)
      requires Serves(client)
      modifies this`world, client`devices, txBuffer
      ensures Did(client, r, LookupDevices(cfg, old(world), old(client.devices), query))
    {
      hide Refuse, U16, SearchBuses, Register, EncodeIds;
      var result := FindDevices(query);
      // The original does not check this; the ids would run over the buffer.
      if !IdsFit(result) {
        r := SendErr(client, QueryHits);
        return;
      }
      AllocateIds(client, result);
      ghost var body := EncodeIds(Register(old(world), old(client.devices), result).ids);
      ghost var rest := txBuffer[HEADER_SIZE..];
      assert rest[..|body|] == body;
      PutHeader(txBuffer, CMD_QUERY_RESP, 2 * |result|);
      FrameBuilt(txBuffer[..], CMD_QUERY_RESP, body, rest);
      r := PProcRes(false, HEADER_SIZE + 2 * |result|);
    }

    method HandleQueryMsg(client: ClientInfo, body: bytes) returns (r: PProcRes)
      requires Serves(client)
      modifies this`world, client`devices, txBuffer
      ensures Did(client, r, HandleQuery(cfg, old(world), old(client.devices), body))
    {
      hide Refuse, LookupDevices, DecodeItems, Did;
      var cnt := |body| / QUERY_ITEM_SIZE;
      if |body| != cnt * QUERY_ITEM_SIZE {
        r := SendErr(client, QuerySize(|body|));
      } else if cnt == 0 || cnt > MAX_ITEMS_PER_QUERY {
        r := SendErr(client, QueryCount(cnt));
      } else {
        var specs := ExtractSpecs(body, cnt);
        r := DeviceLookupResp(client, specs);
      }
    }

    // ---- any message ----

    /** handle_msg. The body is `length` bytes of the client's receive buffer from `at`. */
    method HandleMsg(client: ClientInfo, cmd: byte, at: nat, length: nat) returns (r: PProcRes)
      requires Serves(client) && at + length <= client.buffer.Length && client.buffer != txBuffer
      modifies this`world, client`devices, client.buffer, txBuffer
      ensures Did(client, r, Handle(cfg, old(world), old(client.devices), cmd, old(client.buffer[at..at + length])))
      ensures client.buffer[at + length..] == old(client.buffer[at + length..])
    {
      hide HandleFastCall, HandleNamedCall, HandleQuery, HandleFindFunction, Refuse, Did;
      var body := client.buffer[at..at + length];
      if cmd == CMD_CALL_FAST {
        r := HandleFastRemoteCall(client, body);
      } else if cmd == CMD_READ {
        r := HandleRead(client, body);
      } else if cmd == CMD_WRITE {
        r := HandleWrite(client, body);
      } else if cmd == CMD_CALL {
        r := HandleRemoteCall(client, body);
      } else if cmd == CMD_PING_REQUEST {
        r := HandlePingMsg(client, body);
      } else if cmd == CMD_QUERY {
        r := HandleQueryMsg(client, body);
      } else if cmd == CMD_GET_CALL_ID {
        r := HandleGetRpcFnId(client, body);
      } else if cmd == CMD_BYE {
        r := Silent(client, true);
      } else if cmd == CMD_MSG {
        // The text is cut off inside the message, as far as the frame reaches.
        if 4 + MAX_NAME_LEN - 1 < length {
          client.buffer[at + 4 + MAX_NAME_LEN - 1] := 0;
        }
        r := Silent(client, false);
      } else {
        r := SendErr(client, UnknownCommand);
      }
    }

    method HandlePingMsg(client: ClientInfo, body: bytes) returns (r: PProcRes)
      requires Ready()
      modifies txBuffer
      ensures Did(client, r, HandlePing(world, client.devices, body))
    {
      hide Refuse, U16;
      if body != [] {
        r := SendErr(client, PingSize);
      } else {
        PutHeader(txBuffer, CMD_PING_REPLY, 0);
        r := PProcRes(false, HEADER_SIZE);
        assert txBuffer[..HEADER_SIZE] == Frame(CMD_PING_REPLY, []);
      }
    }

    method Silent(client: ClientInfo, disconnect: bool) returns (r: PProcRes)
      requires Ready()
      ensures Did(client, r, Handled(world, client.devices, [], disconnect))
    {
      r := PProcRes(disconnect, 0);
    }

    // ---- the parse loop ----

    /** The send loop: however little each send takes, the reply goes out as far as the socket takes it. */
    method SendReply(client: ClientInfo, size: nat) returns (ok: bool)
      requires 0 < size <= txBuffer.Length
      modifies client`sent, client`room
      ensures ok == TakesAll(old(client.room), txBuffer[..size])
      ensures client.sent == old(client.sent) + Accepted(old(client.room), txBuffer[..size])
      ensures client.room == RoomAfter(old(client.room), txBuffer[..size])
    {
      ok := true;
      var bytesWr := 0;
      while bytesWr < size && ok
        invariant bytesWr <= size && (old(client.room) >= 0 ==> bytesWr <= old(client.room))
        invariant client.sent == old(client.sent) + txBuffer[..bytesWr]
        invariant client.room == if old(client.room) < 0 then old(client.room) else old(client.room) - bytesWr
        invariant !ok ==> client.room == 0 && bytesWr < size
        decreases ok, size - bytesWr
      {
        var result := client.Send(txBuffer[bytesWr..size]);
        if result < 0 {
          ok := false;
        } else {
          bytesWr := bytesWr + result;
        }
      }
      assert txBuffer[..size][..bytesWr] == txBuffer[..bytesWr];
    }

    /** Everything a client's messages need to be handled. */
    ghost predicate Attends(client: ClientInfo)
      reads this, client
    {
      Serves(client) && client.Valid() && client.buffer != txBuffer
    }

    /** The complete frame at the head of the pending bytes: handle it, send the reply, move on. */
    method HandleFrame(client: ClientInfo, length: nat) returns (closed: bool)
      requires Attends(client) && Complete(client.State().pending) && length == FrameLength(client.State().pending)
      modifies this`world, client, client.buffer, txBuffer
      ensures Attends(client)
      ensures var s := Step(cfg, old(world), old(client.State()));
        world == s.world && client.State() == s.conn && closed == s.closed
    {
      hide Handle, FrameLength, Complete, Head, Tail, ValidConfig, ValidWorld, ValidTable, Kept, Did;
      hide Accepted, RoomAfter, TakesAll;
      ghost var w, c, before := world, client.State(), client.buffer[..];
      FrameAt(before, client.currPtr, client.currLen, length);
      ghost var m := Head(c.pending);
      HandleKeeps(cfg, w, c.table, m.cmd, m.body);
      var cmd := client.buffer[client.currPtr];
      var r := HandleMsg(client, cmd, client.currPtr + HEADER_SIZE, length - HEADER_SIZE);
      ghost var h := Handle(cfg, w, c.table, m.cmd, m.body);
      KeptTable(cfg, w, c.table, h);
      DidMeans(client, r, h);
      closed := Answer(client, r, h);
      RestAt(before, client.buffer[..], client.currPtr, client.currLen, length);
      Consume(client, length, c.pending);
    }

    lemma DidMeans(client: ClientInfo, r: PProcRes, h: Handled)
      requires Did(client, r, h)
      ensures world == h.world && client.devices == h.table
    {
    }

    /** The reply is sent if there is one; if that fails, the connection ends. */
    method Answer(client: ClientInfo, r: PProcRes, ghost h: Handled) returns (closed: bool)
      requires Did(client, r, h)
      modifies client`sent, client`room
      ensures closed == (h.disconnect || !TakesAll(old(client.room), h.reply))
      ensures client.sent == old(client.sent) + Accepted(old(client.room), h.reply)
      ensures client.room == RoomAfter(old(client.room), h.reply)
    {
      closed := r.disconnect;
      if r.txSize > 0 {
        var ok := SendReply(client, r.txSize);
        if !ok {
          closed := true;
        }
      }
    }

    method Consume(client: ClientInfo, length: nat, ghost pending: bytes)
      requires client.Valid() && HEADER_SIZE <= length <= client.currLen == |pending|
      requires client.buffer[client.currPtr + length..client.currPtr + client.currLen] == pending[length..]
      modifies client`currPtr, client`currLen
      ensures client.Valid() && client.State() == old(client.State()).(pending := pending[length..])
    {
      client.currPtr := client.currPtr + length;
      client.currLen := client.currLen - length;
    }

    /** The loop of parse_msgs; closed tells that the client has to be removed. */
    method ParseFrames(client: ClientInfo) returns (closed: bool)
      requires Attends(client)
      modifies this`world, client, client.buffer, txBuffer
      ensures Attends(client)
      ensures var d := Drain(cfg, old(world), old(client.State()));
        world == d.world && client.State() == d.conn && closed == d.closed
    {
      hide Drain, Step;
      ghost var w, c := world, client.State();
      ghost var handled := [];
      closed := false;
      while client.currLen >= HEADER_SIZE
        invariant Attends(client)
        invariant Drain(cfg, w, c) == Prefixed(handled, Drain(cfg, world, client.State()))
        decreases client.currLen
      {
        ghost var before := client.State();
        var length := HEADER_SIZE + FromU16(client.buffer[client.currPtr + 1..client.currPtr + 3]);
        assert before.pending[1..3] == client.buffer[client.currPtr + 1..client.currPtr + 3];
        if length > client.currLen {
          break;
        }
        DrainComplete(cfg, world, before);
        ghost var s := Step(cfg, world, before);
        closed := HandleFrame(client, length);
        if closed {
          return;
        }
        PrefixedTwice(handled, s.handled, Drain(cfg, s.world, s.conn));
        handled := handled + s.handled;
      }
      DrainOfIncomplete(cfg, world, client.State());
    }
  }
}

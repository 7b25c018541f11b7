/**
 * The client's objects: the connection with its two buffers
 * (src/bus/hwio_client_to_server_con.cpp), the remote device
 * (src/device/hwio_device_remote.cpp) and the remote bus
 * (src/bus/hwio_bus_remote.cpp).
 */
module Client {
  import opened Bytes
  import opened CompSpec
  import opened Framing
  import opened Handlers
  import opened RemoteSearch
  import opened Wire

  import Device = RemoteDevice
  import RemoteRun

  /** What a stub gives its caller; Failed stands for an exception. */
  datatype Answer<T> = Got(value: T) | Failed

  datatype PingResult = Alive | NotAvailable | Busy

  /**
   * hwio_client_to_server_con. `incoming` are the bytes the socket will
   * deliver, `sent` those it has taken; when there is nothing left to deliver,
   * recv fails by its time-out. `room` counts the bytes the socket will take
   * before a send fails (negative: it never fails).
   */
  class Connection {
    const rxBuffer: array<byte>
    const txBuffer: array<byte>
    var incoming: bytes
    var sent: bytes
    var room: int

    constructor (incoming: bytes, room: int)
      ensures Ready() && fresh(rxBuffer) && fresh(txBuffer)
      ensures this.incoming == incoming && sent == [] && this.room == room
    {
      rxBuffer := new byte[BUFFER_SIZE](_ => 0);
      txBuffer := new byte[BUFFER_SIZE](_ => 0);
      this.incoming, sent, this.room := incoming, [], room;
    }

    predicate Ready() {
      rxBuffer.Length == BUFFER_SIZE && txBuffer.Length == BUFFER_SIZE && rxBuffer != txBuffer
    }

    predicate Takes(data: bytes)
      reads this`room
    {
      TakesAll(room, data)
    }

    /** The socket has been given data, and has taken what it takes of it. */
    twostate predicate Sent(data: bytes)
      reads this`sent, this`room
    {
      sent == old(sent) + Accepted(old(room), data) && room == RoomAfter(old(room), data)
    }

    /** recv gives any part of what there is. */
    method Recv(at: nat, size: nat) returns (result: int)
      requires size > 0 && at + size <= rxBuffer.Length
      modifies this`incoming, rxBuffer
      ensures if old(incoming) == [] then result < 0 && incoming == []
              else 0 < result <= size && result <= |old(incoming)| && incoming == old(incoming)[result..]
      ensures result >= 0 ==> rxBuffer[..at + result] == old(rxBuffer[..at]) + old(incoming)[..result]
    {
      if incoming == [] {
        result := -1;
        return;
      }
      result :| 0 < result <= size && result <= |incoming|;
      for i := 0 to result
        modifies rxBuffer
        invariant rxBuffer[..at + i] == old(rxBuffer[..at]) + incoming[..i]
      {
        rxBuffer[at + i] := incoming[i];
      }
      incoming := incoming[result..];
    }

    method RxBytes(size: nat) returns (ok: bool)
      requires size <= rxBuffer.Length
      modifies this`incoming, rxBuffer
      ensures ok <==> size <= |old(incoming)|
      ensures ok ==> rxBuffer[..size] == old(incoming)[..size] && incoming == old(incoming)[size..]
      ensures !ok ==> incoming == []
    {
      var bytesRead := 0;
      while bytesRead < size
        invariant bytesRead <= size && bytesRead <= |old(incoming)|
        invariant rxBuffer[..bytesRead] == old(incoming)[..bytesRead] && incoming == old(incoming)[bytesRead..]
      {
        var result := Recv(bytesRead, size - bytesRead);
        if result < 0 {
          return false;
        }
        bytesRead := bytesRead + result;
      }
      ok := true;
    }

    /** A frame is received whole, or an exception is thrown; a body larger than the buffer fails an assertion. */
    method RxPckt() returns (r: Answer<(byte, nat)>)
      requires Ready()
      modifies this`incoming, rxBuffer
      ensures r.Got? <==> Whole(old(incoming))
      ensures r.Got? ==> var m := Head(old(incoming));
        && r.value == (m.cmd, |m.body|) && |m.body| <= rxBuffer.Length
        && rxBuffer[..|m.body|] == m.body && incoming == Tail(old(incoming))
    {
      hide FromU16;
      var ok := RxBytes(HEADER_SIZE);
      if !ok {
        return Failed;
      }
      var cmd, length := rxBuffer[0], FromU16(rxBuffer[1..3]);
      assert rxBuffer[1..3] == rxBuffer[..HEADER_SIZE][1..3] == old(incoming)[1..3];
      if length > BUFFER_SIZE {
        return Failed;
      }
      if length > 0 {
        ok := RxBytes(length);
        if !ok {
          return Failed;
        }
      }
      r := Got((cmd, length));
      assert old(incoming)[HEADER_SIZE..HEADER_SIZE + length] == old(incoming)[HEADER_SIZE..][..length];
    }

    /** send takes part of what it is given, as far as there is room; without room it fails. */
    method Send(from: nat, size: nat) returns (result: int)
      requires size > 0 && from + size <= txBuffer.Length
      modifies this`sent, this`room
      ensures old(room) == 0 ==> result < 0 && sent == old(sent) && room == 0
      ensures old(room) != 0 ==>
        && 0 < result <= size && (old(room) > 0 ==> result <= old(room))
        && sent == old(sent) + txBuffer[from..from + result]
        && room == if old(room) < 0 then old(room) else old(room) - result
    {
      if room == 0 {
        result := -1;
      } else {
        result :| 0 < result <= size && (room > 0 ==> result <= room);
        sent := sent + txBuffer[from..from + result];
        room := if room < 0 then room else room - result;
      }
    }

    /** However little each send takes, the frame in the transmit buffer goes out as far as the socket takes it. */
    method TxPckt() returns (ok: bool)
      requires Ready() && FrameLength(txBuffer[..]) <= BUFFER_SIZE
      modifies this`sent, this`room
      ensures var frame := txBuffer[..FrameLength(txBuffer[..])];
        ok == old(Takes(frame)) && Sent(frame)
    {
      var size := HEADER_SIZE + FromU16(txBuffer[1..3]);
      assert txBuffer[..][1..3] == txBuffer[1..3];
      hide FrameLength, FromU16;
      var bytesWr := 0;
      ok := true;
      while bytesWr < size && ok
        invariant bytesWr <= size && (old(room) >= 0 ==> bytesWr <= old(room))
        invariant sent == old(sent) + txBuffer[..bytesWr]
        invariant room == if old(room) < 0 then old(room) else old(room) - bytesWr
        invariant !ok ==> room == 0 && bytesWr < size
        decreases ok, size - bytesWr
      {
        var result := Send(bytesWr, size - bytesWr);
        if result < 0 {
          ok := false;
        } else {
          bytesWr := bytesWr + result;
        }
      }
      assert txBuffer[..size][..bytesWr] == txBuffer[..bytesWr];
    }

    // ---- building and exchanging frames ----

    /** A request has been built at the start of the transmit buffer. */
    ghost predicate Built(r: Request)
      reads txBuffer
    {
      Ready() && Encodable(r) && txBuffer[..HEADER_SIZE + |Body(r)|] == EncodeRequest(r)
    }

    /** The request is sent; an exception is thrown if the socket does not take all of it. */
    method Ask(ghost r: Request) returns (ok: bool)
      requires Built(r)
      modifies this`sent, this`room
      ensures ok == old(Takes(EncodeRequest(r))) && Sent(EncodeRequest(r))
    {
      hide Body, Encodable, Frame, FrameLength;
      ghost var n := HEADER_SIZE + |Body(r)|;
      assert txBuffer[..] == EncodeRequest(r) + txBuffer[n..];
      FrameReadsBack(Command(r), Body(r), txBuffer[n..]);
      ok := TxPckt();
    }

    /** The next frame the server has sent; an exception unless it has the expected command. */
    method Expect(cmd: byte) returns (r: Answer<nat>)
      requires Ready()
      modifies this`incoming, rxBuffer
      ensures r.Got? <==> Arriving(old(incoming), cmd)
      ensures r.Got? ==> var m := Head(old(incoming));
        r.value == |m.body| <= rxBuffer.Length && rxBuffer[..r.value] == m.body && incoming == Tail(old(incoming))
    {
      hide Complete, FrameLength, Head, Tail;
      var header := RxPckt();
      if header.Got? && header.value.0 == cmd {
        r := Got(header.value.1);
      } else {
        r := Failed;
      }
    }

    /** Both directions: a request and the frame that answers it. */
    method Exchange(ghost r: Request, cmd: byte) returns (a: Answer<nat>)
      requires Built(r)
      modifies this`incoming, this`sent, this`room, rxBuffer
      ensures Sent(EncodeRequest(r))
      ensures a.Got? <==> old(Takes(EncodeRequest(r))) && Arriving(old(incoming), cmd)
      ensures a.Got? ==> var m := Head(old(incoming));
        a.value == |m.body| <= rxBuffer.Length && rxBuffer[..a.value] == m.body && incoming == Tail(old(incoming))
    {
      hide Arriving, Head, Tail, EncodeRequest;
      a := Failed;
      var ok := Ask(r);
      if ok {
        a := Expect(cmd);
      }
    }

    // ---- ping and bye ----

    method Ping() returns (r: PingResult)
      requires Ready()
      modifies this`incoming, this`sent, this`room, rxBuffer, txBuffer
      ensures Sent(EncodeRequest(Request.Ping))
      ensures r ==
        if !old(Takes(EncodeRequest(Request.Ping))) || !Whole(old(incoming)) then Busy
        else if Head(old(incoming)) == Message(CMD_PING_REPLY, []) then Alive
        else NotAvailable
      ensures !r.Busy? ==> incoming == Tail(old(incoming))
    {
      hide U16, Head, Tail, Complete, FrameLength;
      PutHeader(txBuffer, CMD_PING_REQUEST, 0);
      assert txBuffer[..HEADER_SIZE] == EncodeRequest(Request.Ping);
      var ok := Ask(Request.Ping);
      if !ok {
        return Busy;
      }
      var header := RxPckt();
      if header.Failed? {
        return Busy;
      }
      r := if header.value != (CMD_PING_REPLY, 0) then NotAvailable else Alive;
    }

    method Bye() returns (ok: bool)
      requires Ready()
      modifies this`sent, this`room, txBuffer
      ensures Sent(EncodeRequest(Request.Bye))
      ensures ok == old(Takes(EncodeRequest(Request.Bye)))
    {
      hide U16;
      PutHeader(txBuffer, CMD_BYE, 0);
      assert txBuffer[..HEADER_SIZE] == EncodeRequest(Request.Bye);
      ok := Ask(Request.Bye);
    }
  }

  /** hwio_device_remote: an id on the server, reached over the shared connection. */
  class RemoteDevice {
    const server: Connection
    const id: int

    constructor (server: Connection, id: int)
      ensures this.server == server && this.id == id
    {
      this.server, this.id := server, id;
    }

    /** The fields of a read request, in the order in which they are written. */
    method BuildRead(offset: int, n: nat)
      requires server.Ready() && Encodable(Request.Read(id, offset, n))
      modifies server.txBuffer
      ensures server.Built(Request.Read(id, offset, n))
    {
      hide U16, U32;
      PutHeader(server.txBuffer, CMD_READ, READ_REQ_SIZE);
      Put(server.txBuffer, HEADER_SIZE + 2, U32(offset));
      Put(server.txBuffer, HEADER_SIZE, U16(id));
      Put(server.txBuffer, HEADER_SIZE + 6, U16(n));
      assert server.txBuffer[..HEADER_SIZE + READ_REQ_SIZE] ==
        [CMD_READ] + U16(READ_REQ_SIZE) + U16(id) + U32(offset) + U16(n);
    }

    /** read: n bytes are copied out of the receive buffer. */
    method Read(offset: int, n: nat) returns (r: Answer<bytes>)
      requires server.Ready() && Encodable(Request.Read(id, offset, n)) && HEADER_SIZE + n <= BUFFER_SIZE
      modifies server`incoming, server`sent, server`room, server.rxBuffer, server.txBuffer
      ensures server.Sent(EncodeRequest(Request.Read(id, offset, n)))
      ensures r.Got? <==>
        old(server.Takes(EncodeRequest(Request.Read(id, offset, n)))) && Arriving(old(server.incoming), CMD_READ_RESP)
      ensures r.Got? ==> var m := Head(old(server.incoming));
        |r.value| == n && server.incoming == Tail(old(server.incoming)) && (|m.body| >= n ==> r.value == m.body[..n])
    {
      hide Arriving, Head, Tail, EncodeRequest, Encodable;
      BuildRead(offset, n);
      var a := server.Exchange(Request.Read(id, offset, n), CMD_READ_RESP);
      if a.Failed? {
        return Failed;
      }
      r := Got(server.rxBuffer[..n]);
      assert a.value >= n ==> server.rxBuffer[..a.value][..n] == server.rxBuffer[..n];
    }

    method BuildWrite(offset: int, data: bytes)
      requires server.Ready() && Encodable(Request.Write(id, offset, data))
      modifies server.txBuffer
      ensures server.Built(Request.Write(id, offset, data))
    {
      hide U16, U32;
      PutHeader(server.txBuffer, CMD_WRITE, READ_REQ_SIZE + |data|);
      Put(server.txBuffer, HEADER_SIZE + 2, U32(offset));
      Put(server.txBuffer, HEADER_SIZE, U16(id));
      Put(server.txBuffer, HEADER_SIZE + 6, U16(|data|));
      Put(server.txBuffer, HEADER_SIZE + READ_REQ_SIZE, data);
      assert server.txBuffer[..HEADER_SIZE + READ_REQ_SIZE + |data|]
          == [CMD_WRITE] + U16(READ_REQ_SIZE + |data|) + U16(id) + U32(offset) + U16(|data|) + data;
    }

    /** write: nothing is awaited. */
    method Write(offset: int, data: bytes) returns (ok: bool)
      requires server.Ready() && Encodable(Request.Write(id, offset, data))
      modifies server`sent, server`room, server.txBuffer
      ensures ok == old(server.Takes(EncodeRequest(Request.Write(id, offset, data))))
      ensures server.Sent(EncodeRequest(Request.Write(id, offset, data)))
    {
      hide EncodeRequest, Encodable;
      BuildWrite(offset, data);
      ok := server.Ask(Request.Write(id, offset, data));
    }

    /** read8, read32 and read64 read into an integer of the host. */
    method ReadInteger(call: Device.ApiCall) returns (r: Answer<int>)
      requires server.Ready() && Device.CanSend(id, call) && (call.Read8? || call.Read32? || call.Read64?)
      modifies server`incoming, server`sent, server`room, server.rxBuffer, server.txBuffer
      ensures server.Sent(Device.CallBytes(id, call))
      ensures r.Got? <==> old(server.Takes(Device.CallBytes(id, call))) && Arriving(old(server.incoming), CMD_READ_RESP)
      ensures r.Got? && |Head(old(server.incoming)).body| == Device.Width(call) ==>
        r.value == LittleEndian(Head(old(server.incoming)).body)
      ensures r.Got? ==> server.incoming == Tail(old(server.incoming))
    {
      hide Complete, FrameLength, Head, Tail, EncodeRequest, Encodable, LittleEndian, Device.CallBytes;
      var n := Device.Width(call);
      Device.CallBytesOfOne(id, call, Request.Read(id, call.off, n));
      var a := Read(call.off, n);
      if a.Failed? {
        return Failed;
      }
      ghost var m := Head(old(server.incoming));
      assert |m.body| == n ==> m.body[..n] == m.body;
      r := Got(LittleEndian(a.value));
    }

    method Read8(offset: int) returns (r: Answer<int>)
      requires server.Ready() && Device.CanSend(id, Device.Read8(offset))
      modifies server`incoming, server`sent, server`room, server.rxBuffer, server.txBuffer
      ensures server.Sent(Device.CallBytes(id, Device.Read8(offset)))
      ensures r.Got? <==>
        old(server.Takes(Device.CallBytes(id, Device.Read8(offset)))) && Arriving(old(server.incoming), CMD_READ_RESP)
      ensures r.Got? ==> server.incoming == Tail(old(server.incoming))
      ensures r.Got? ==> var b := Head(old(server.incoming)).body;
        |b| == 1 ==> r.value == b[0]
    {
      hide Head, Tail, Complete, LittleEndian, FromU32, Device.CallBytes;
      ghost var came := old(server.incoming);
      r := ReadInteger(Device.Read8(offset));
      if r.Got? && |Head(came).body| == 1 {
        LittleEndianOfOne(Head(came).body);
      }
    }

    method Read32(offset: int) returns (r: Answer<int>)
      requires server.Ready() && Device.CanSend(id, Device.Read32(offset))
      modifies server`incoming, server`sent, server`room, server.rxBuffer, server.txBuffer
      ensures server.Sent(Device.CallBytes(id, Device.Read32(offset)))
      ensures r.Got? <==>
        old(server.Takes(Device.CallBytes(id, Device.Read32(offset)))) && Arriving(old(server.incoming), CMD_READ_RESP)
      ensures r.Got? ==> server.incoming == Tail(old(server.incoming))
      ensures r.Got? ==> var b := Head(old(server.incoming)).body;
        |b| == 4 ==> r.value == FromU32(b)
    {
      hide Head, Tail, Complete, LittleEndian, FromU32, Device.CallBytes;
      ghost var came := old(server.incoming);
      r := ReadInteger(Device.Read32(offset));
      if r.Got? && |Head(came).body| == 4 {
        LittleEndianOfFour(Head(came).body);
      }
    }

    method Read64(offset: int) returns (r: Answer<int>)
      requires server.Ready() && Device.CanSend(id, Device.Read64(offset))
      modifies server`incoming, server`sent, server`room, server.rxBuffer, server.txBuffer
      ensures server.Sent(Device.CallBytes(id, Device.Read64(offset)))
      ensures r.Got? <==>
        old(server.Takes(Device.CallBytes(id, Device.Read64(offset)))) && Arriving(old(server.incoming), CMD_READ_RESP)
      ensures r.Got? ==> server.incoming == Tail(old(server.incoming))
      ensures r.Got? ==> var b := Head(old(server.incoming)).body;
        |b| == 8 ==> r.value == FromU32(b[..4]) + 0x1_0000_0000 * FromU32(b[4..])
    {
      hide Head, Tail, Complete, LittleEndian, FromU32, Device.CallBytes;
      ghost var came := old(server.incoming);
      r := ReadInteger(Device.Read64(offset));
      if r.Got? && |Head(came).body| == 8 {
        LittleEndianOfEight(Head(came).body);
      }
    }

    method Write8(offset: int, val: byte) returns (ok: bool)
      requires server.Ready() && Device.CanSend(id, Device.Write8(offset, val))
      modifies server`sent, server`room, server.txBuffer
      ensures ok == old(server.Takes(Device.CallBytes(id, Device.Write8(offset, val))))
      ensures server.Sent(Device.CallBytes(id, Device.Write8(offset, val)))
    {
      hide EncodeRequest, Device.CallBytes;
      Device.CallBytesOfOne(id, Device.Write8(offset, val), Request.Write(id, offset, [val]));
      ok := Write(offset, [val]);
    }

    method Write32(offset: int, val: int) returns (ok: bool)
      requires server.Ready() && Device.CanSend(id, Device.Write32(offset, val))
      modifies server`sent, server`room, server.txBuffer
      ensures ok == old(server.Takes(Device.CallBytes(id, Device.Write32(offset, val))))
      ensures server.Sent(Device.CallBytes(id, Device.Write32(offset, val)))
    {
      hide EncodeRequest, Device.CallBytes;
      Device.CallBytesOfOne(id, Device.Write32(offset, val), Request.Write(id, offset, U32(val)));
      ok := Write(offset, U32(val));
    }

    method Write64(offset: int, val: int) returns (ok: bool)
      requires server.Ready() && Device.CanSend(id, Device.Write64(offset, val))
      modifies server`sent, server`room, server.txBuffer
      ensures ok == old(server.Takes(Device.CallBytes(id, Device.Write64(offset, val))))
      ensures server.Sent(Device.CallBytes(id, Device.Write64(offset, val)))
    {
      hide EncodeRequest, Device.CallBytes;
      Device.CallBytesOfOne(id, Device.Write64(offset, val), Request.Write(id, offset, Device.Qword(val)));
      ok := Write(offset, Device.Qword(val));
    }

    /** The inherited memset: a loop over write32, then one over write8, up to the first exception. */
    method Memset(offset: int, c: byte, n: nat) returns (ok: bool)
      requires server.Ready() && Device.CanSend(id, Device.Memset(offset, c, n))
      modifies server`sent, server`room, server.txBuffer
      ensures ok == old(server.Takes(Device.CallBytes(id, Device.Memset(offset, c, n))))
      ensures server.Sent(Device.CallBytes(id, Device.Memset(offset, c, n)))
    {
      hide EncodeRequest, Device.CallBytes, Device.MemsetRequests, Accepted, RoomAfter, TakesAll, U32, FromU32;
      hide FillBytes, BlockTransfer.FillWord;
      ghost var all, sent, room := Device.CallBytes(id, Device.Memset(offset, c, n)), server.sent, server.room;
      ghost var done := [];
      var off, left := offset, n;
      var fill := BlockTransfer.FillWord(c);
      NothingSent(sent, room);
      AllOfFill(id, offset, c, n);
      while left >= 4
        invariant 0 <= left <= n && (left > 0 ==> off == offset + (n - left))
        invariant all == done + FillBytes(id, offset + (n - left), c, left)
        invariant TakesAll(room, done)
        invariant server.sent == sent + Accepted(room, done) && server.room == RoomAfter(room, done)
      {
        FillWordFirst(id, off, c, left);
        ghost var piece := Device.CallBytes(id, Device.Write32(off, fill));
        SentMore(sent, room, done, piece);
        ok := Write32(off, fill);
        if !ok {
          SentRest(sent, room, done, piece, all);
          return;
        }
        done := done + piece;
        left := left - 4;
        off := (off + 4) % BlockTransfer.ADDRESS_SPACE;
      }
      for i := 0 to left
        invariant all == done + FillBytes(id, offset + (n - left) + i, c, left - i)
        invariant TakesAll(room, done)
        invariant server.sent == sent + Accepted(room, done) && server.room == RoomAfter(room, done)
      {
        var at := (off + i) % BlockTransfer.ADDRESS_SPACE;
        FillOctetFirst(id, at, c, left - i);
        ghost var piece := Device.CallBytes(id, Device.Write8(at, c));
        SentMore(sent, room, done, piece);
        ok := Write8(at, c);
        if !ok {
          SentRest(sent, room, done, piece, all);
          return;
        }
        done := done + piece;
      }
      FillNothing(id, offset + n, c);
      assert done == all;
      ok := true;
    }

    method BuildFind(name: string)
      requires server.Ready() && Encodable(Request.FindFunction(id, name))
      modifies server.txBuffer
      ensures server.Built(Request.FindFunction(id, name))
    {
      hide U16, NameField;
      Put(server.txBuffer, 0, [CMD_GET_CALL_ID]);
      Put(server.txBuffer, HEADER_SIZE + 2, NameField(name));
      Put(server.txBuffer, HEADER_SIZE, U16(id));
      Put(server.txBuffer, 1, U16(CALL_SIZE));
      FieldsInOrder(server.txBuffer[..], CMD_GET_CALL_ID, U16(CALL_SIZE), U16(id), NameField(name));
    }

    /** Four fields, one after the other, are their concatenation. */
    lemma FieldsInOrder(b: bytes, cmd: byte, size: bytes, field: bytes, rest: bytes)
      requires |size| == 2 && |field| == 2 && 5 + |rest| <= |b|
      requires b[0] == cmd && b[1..3] == size && b[3..5] == field && b[5..5 + |rest|] == rest
      ensures b[..5 + |rest|] == [cmd] + size + (field + rest)
    {
      assert b[..5 + |rest|] == b[..1] + b[1..3] + (b[3..5] + b[5..5 + |rest|]);
    }

    /** get_rpc_fn_id and is_rpc_available read the same reply. */
    method FindFunction(name: string) returns (r: Answer<Reply>)
      requires server.Ready() && Encodable(Request.FindFunction(id, name))
      modifies server`incoming, server`sent, server`room, server.rxBuffer, server.txBuffer
      ensures server.Sent(EncodeRequest(Request.FindFunction(id, name)))
      ensures r.Got? <==>
        && old(server.Takes(EncodeRequest(Request.FindFunction(id, name))))
        && Arriving(old(server.incoming), CMD_GET_CALL_ID)
      ensures r.Got? ==> server.incoming == Tail(old(server.incoming))
      ensures r.Got? && |Head(old(server.incoming)).body| == 5 ==>
        DecodeReply(CMD_GET_CALL_ID, Head(old(server.incoming)).body) == Some(r.value)
    {
      hide Arriving, Head, Tail, EncodeRequest, Encodable, FromU32;
      BuildFind(name);
      var a := server.Exchange(Request.FindFunction(id, name), CMD_GET_CALL_ID);
      if a.Failed? {
        return Failed;
      }
      r := Got(FunctionId(server.rxBuffer[0] != 0, FromU32(server.rxBuffer[1..5])));
      assert a.value == 5 ==> server.rxBuffer[..5][1..] == server.rxBuffer[1..5];
    }

    /** The result type of the stub is not part of the message. */
    method BuildCall(fn: int, args: bytes, ghost ret: nat)
      requires server.Ready() && Encodable(Request.Call(id, fn, args, ret))
      modifies server.txBuffer
      ensures server.Built(Request.Call(id, fn, args, ret))
    {
      hide U16, U32;
      Put(server.txBuffer, 0, [CMD_CALL_FAST]);
      Put(server.txBuffer, HEADER_SIZE + 2, U32(fn));
      Put(server.txBuffer, HEADER_SIZE, U16(id));
      Put(server.txBuffer, HEADER_SIZE + CALL_FAST_SIZE, args);
      Put(server.txBuffer, 1, U16(CALL_FAST_SIZE + |args|));
      assert server.txBuffer[..HEADER_SIZE + CALL_FAST_SIZE + |args|]
          == [CMD_CALL_FAST] + U16(CALL_FAST_SIZE + |args|) + (U16(id) + U32(fn) + args);
    }

    /** The fast remote_call whose result type has ret bytes. */
    method RemoteCall(fn: int, args: bytes, ret: nat) returns (r: Answer<bytes>)
      requires server.Ready() && Encodable(Request.Call(id, fn, args, ret)) && 0 < ret <= BUFFER_SIZE
      modifies server`incoming, server`sent, server`room, server.rxBuffer, server.txBuffer
      ensures server.Sent(EncodeRequest(Request.Call(id, fn, args, ret)))
      ensures r.Got? <==>
        && old(server.Takes(EncodeRequest(Request.Call(id, fn, args, ret))))
        && Arriving(old(server.incoming), CMD_CALL_RET)
      ensures r.Got? ==> var m := Head(old(server.incoming));
        && |r.value| == ret && server.incoming == Tail(old(server.incoming))
        && (|m.body| >= ret ==> r.value == m.body[..ret])
    {
      hide Arriving, Head, Tail, EncodeRequest, Encodable;
      BuildCall(fn, args, ret);
      var a := server.Exchange(Request.Call(id, fn, args, ret), CMD_CALL_RET);
      if a.Failed? {
        return Failed;
      }
      r := Got(server.rxBuffer[..ret]);
      assert a.value >= ret ==> server.rxBuffer[..a.value][..ret] == server.rxBuffer[..ret];
    }

    /** The fast remote_call whose result type is void: no reply is awaited. */
    method RemoteCallVoid(fn: int, args: bytes) returns (ok: bool)
      requires server.Ready() && Encodable(Request.Call(id, fn, args, 0))
      modifies server`sent, server`room, server.txBuffer
      ensures ok == old(server.Takes(EncodeRequest(Request.Call(id, fn, args, 0))))
      ensures server.Sent(EncodeRequest(Request.Call(id, fn, args, 0)))
    {
      hide EncodeRequest, Encodable;
      BuildCall(fn, args, 0);
      ok := server.Ask(Request.Call(id, fn, args, 0));
    }
  }

  // ---- the bytes of a remote memset ----

  /** What is still to be sent of a memset. */
  function FillBytes(id: int, off: int, c: byte, n: nat): bytes
    requires 0 <= id < 0x1_0000 && 0 <= off && off + n <= BlockTransfer.ADDRESS_SPACE
  {
    Device.MemsetEncodable(id, off, c, n);
    RemoteRun.EncodeRequests(Device.MemsetRequests(id, off, c, n))
  }

  lemma AllOfFill(id: int, off: int, c: byte, n: nat)
    requires Device.CanSend(id, Device.Memset(off, c, n))
    ensures Device.CallBytes(id, Device.Memset(off, c, n)) == [] + FillBytes(id, off, c, n)
  {
  }

  lemma FillNothing(id: int, off: int, c: byte)
    requires 0 <= id < 0x1_0000 && 0 <= off <= BlockTransfer.ADDRESS_SPACE
    ensures FillBytes(id, off, c, 0) == []
  {
  }

  lemma FillWordFirst(id: int, off: int, c: byte, n: nat)
    requires 0 <= id < 0x1_0000 && 0 <= off && off + n <= BlockTransfer.ADDRESS_SPACE && n >= 4
    ensures var call := Device.Write32(off, BlockTransfer.FillWord(c));
      && Device.CanSend(id, call)
      && FillBytes(id, off, c, n) == Device.CallBytes(id, call) + FillBytes(id, off + 4, c, n - 4)
  {
    hide EncodeRequest, BlockTransfer.FillWord, U32, FromU32, Device.CallBytes;
    BlockTransfer.FillWordLanes(c);
    U32OfBytes([c, c, c, c]);
    Device.CallBytesOfOne(id, Device.Write32(off, BlockTransfer.FillWord(c)), Request.Write(id, off, [c, c, c, c]));
    var r, rest := Request.Write(id, off, [c, c, c, c]), Device.MemsetRequests(id, off + 4, c, n - 4);
    assert ([r] + rest)[1..] == rest;
  }

  lemma FillOctetFirst(id: int, off: int, c: byte, n: nat)
    requires 0 <= id < 0x1_0000 && 0 <= off && off + n <= BlockTransfer.ADDRESS_SPACE && 0 < n < 4
    ensures Device.CanSend(id, Device.Write8(off, c))
    ensures FillBytes(id, off, c, n) == Device.CallBytes(id, Device.Write8(off, c)) + FillBytes(id, off + 1, c, n - 1)
  {
    hide EncodeRequest, Device.CallBytes;
    Device.CallBytesOfOne(id, Device.Write8(off, c), Request.Write(id, off, [c]));
    var r, rest := Request.Write(id, off, [c]), Device.MemsetRequests(id, off + 1, c, n - 1);
    assert ([r] + rest)[1..] == rest;
  }

  lemma NothingSent(sent: bytes, room: int)
    ensures TakesAll(room, []) && sent + Accepted(room, []) == sent && RoomAfter(room, []) == room
  {
  }

  /** Sending b after all of a is sending a + b. */
  lemma SentMore(sent: bytes, room: int, a: bytes, b: bytes)
    requires TakesAll(room, a)
    ensures var r := RoomAfter(room, a);
      && (TakesAll(r, b) <==> TakesAll(room, a + b))
      && sent + Accepted(room, a) + Accepted(r, b) == sent + Accepted(room, a + b)
      && RoomAfter(r, b) == RoomAfter(room, a + b)
  {
    if room >= 0 && |a + b| > room {
      assert (a + b)[..room] == a + b[..room - |a|];
    }
  }

  /** What would have come after a failed send is not sent. */
  lemma SentRest(sent: bytes, room: int, a: bytes, b: bytes, all: bytes)
    requires !TakesAll(room, a + b) && a + b <= all
    ensures !TakesAll(room, all)
    ensures Accepted(room, all) == Accepted(room, a + b) && RoomAfter(room, all) == RoomAfter(room, a + b)
  {
  }

  /** hwio_bus_remote: the connection and the devices seen on it, each by its id. */
  class RemoteBus {
    const server: Connection
    var seenDevices: seq<RemoteDevice>

    constructor (server: Connection)
      ensures this.server == server && seenDevices == []
    {
      this.server, seenDevices := server, [];
    }

    /** The ids of the seen devices; a handle is a position in this list. */
    function Seen(): (ids: seq<int>)
      reads this
      ensures |ids| == |seenDevices|
    {
      seq(|seenDevices|, i requires 0 <= i < |seenDevices| reads this => seenDevices[i].id)
    }

    method PutItem(i: nat, s: Spec)
      requires server.Ready() && FitsItem(s) && i < MAX_ITEMS_PER_QUERY
      modifies server.txBuffer
      ensures server.txBuffer[..HEADER_SIZE + QUERY_ITEM_SIZE * (i + 1)] ==
        old(server.txBuffer[..HEADER_SIZE + QUERY_ITEM_SIZE * i]) + EncodeItem(s)
    {
      hide NameField, EncodeVersion, FitsName;
      var at := HEADER_SIZE + QUERY_ITEM_SIZE * i;
      Put(server.txBuffer, at, NameField(s.name));
      Put(server.txBuffer, at + MAX_NAME_LEN, NameField(s.vendor));
      Put(server.txBuffer, at + 2 * MAX_NAME_LEN, NameField(s.typ));
      Put(server.txBuffer, at + 3 * MAX_NAME_LEN, EncodeVersion(s.version));
    }

    method SpecListToQuery(specs: seq<Spec>)
      requires server.Ready() && Encodable(Request.Query(specs))
      modifies server.txBuffer
      ensures server.Built(Request.Query(specs))
    {
      hide U16, EncodeItem, FitsItem;
      PutHeader(server.txBuffer, CMD_QUERY, QUERY_ITEM_SIZE * |specs|);
      ghost var header := [CMD_QUERY] + U16(QUERY_ITEM_SIZE * |specs|);
      for i := 0 to |specs|
        invariant server.txBuffer[..HEADER_SIZE + QUERY_ITEM_SIZE * i] == header + EncodeItems(specs[..i])
      {
        PutItem(i, specs[i]);
        assert specs[..i + 1][..i] == specs[..i];
      }
      assert specs[..|specs|] == specs;
    }

    /** The known device with this id, or a new one. */
    method HwioDevFromId(id: int) returns (handle: nat)
      modifies this`seenDevices
      ensures (Seen(), handle) == HandleOf(old(Seen()), id)
      ensures old(seenDevices) <= seenDevices
    {
      for i := 0 to |seenDevices|
        invariant forall j :: 0 <= j < i ==> seenDevices[j].id != id
      {
        if seenDevices[i].id == id {
          IndexIs(Seen(), id, i);
          return i;
        }
      }
      IndexIs(Seen(), id, |Seen()|);
      var d := new RemoteDevice(server, id);
      handle := |seenDevices|;
      seenDevices := seenDevices + [d];
      assert Seen() == old(Seen()) + [id];
    }

    /** find_devices: the query goes out, and each id of the answer becomes a handle. */
    method FindDevices(specs: seq<Spec>) returns (r: Answer<seq<nat>>)
      requires server.Ready() && Encodable(Request.Query(specs))
      modifies this`seenDevices, server`incoming, server`sent, server`room, server.rxBuffer, server.txBuffer
      ensures server.Sent(EncodeRequest(Request.Query(specs)))
      ensures r.Got? <==>
        old(server.Takes(EncodeRequest(Request.Query(specs)))) && Arriving(old(server.incoming), CMD_QUERY_RESP)
      ensures r.Failed? ==> Seen() == old(Seen())
      ensures r.Got? ==> server.incoming == Tail(old(server.incoming)) && old(seenDevices) <= seenDevices
      ensures r.Got? ==> Handles(Seen(), r.value) == HandlesOf(old(Seen()), IdsOf(Head(old(server.incoming)).body))
    {
      hide Arriving, Head, Tail, EncodeRequest, Encodable, HandleOf, FromU16;
      SpecListToQuery(specs);
      var a := server.Exchange(Request.Query(specs), CMD_QUERY_RESP);
      if a.Failed? {
        return Failed;
      }
      var handles := HandleAll(a.value / 2);
      r := Got(handles);
      assert server.rxBuffer[..a.value][..2 * (a.value / 2)] == server.rxBuffer[..2 * (a.value / 2)];
    }

    /** The loop over the ids in the receive buffer. */
    method HandleAll(cnt: nat) returns (handles: seq<nat>)
      requires server.Ready() && 2 * cnt <= BUFFER_SIZE
      modifies this`seenDevices
      ensures old(seenDevices) <= seenDevices
      ensures Handles(Seen(), handles) == HandlesOf(old(Seen()), DecodeIds(server.rxBuffer[..2 * cnt]))
    {
      hide HandleOf, FromU16, HandlesOf, DecodeIds;
      handles := [];
      NoHandles(Seen());
      assert server.rxBuffer[..0] == [];
      for i := 0 to cnt
        invariant old(seenDevices) <= seenDevices
        invariant Handles(Seen(), handles) == HandlesOf(old(Seen()), DecodeIds(server.rxBuffer[..2 * i]))
      {
        var handle := HwioDevFromId(FromU16(server.rxBuffer[2 * i..2 * i + 2]));
        HandlesOneMore(old(Seen()), server.rxBuffer[..], i);
        handles := handles + [handle];
      }
    }
  }

  /** The value of the bytes copied into an integer: the first byte counts least. */
  function LittleEndian(b: bytes): nat {
    if b == [] then 0 else b[0] as int + 256 * LittleEndian(b[1..])
  }

  lemma LittleEndianOfOne(b: bytes)
    requires |b| == 1
    ensures LittleEndian(b) == b[0]
  {
    assert b[1..] == [];
  }

  lemma LittleEndianOfTwo(b: bytes)
    requires |b| == 2
    ensures LittleEndian(b) == FromU16(b)
  {
    LittleEndianOfOne(b[1..]);
  }

  lemma {:induction false} LittleEndianOfConcat(low: bytes, high: bytes)
    requires |low| == 2 || |low| == 4
    ensures LittleEndian(low + high) ==
      LittleEndian(low) + (if |low| == 2 then 0x1_0000 else 0x1_0000_0000) * LittleEndian(high)
  {
    var all := low + high;
    if |low| == 2 {
      assert all[1..] == [low[1]] + high && all[1..][1..] == high;
      LittleEndianOfOne(low[1..]);
      assert LittleEndian(all) == low[0] as int + 256 * (low[1] as int + 256 * LittleEndian(high));
    } else {
      LittleEndianOfConcat(low[..2], low[2..] + high);
      LittleEndianOfConcat(low[2..], high);
      LittleEndianOfConcat(low[..2], low[2..]);
      assert low == low[..2] + low[2..] && all == low[..2] + (low[2..] + high);
      hide LittleEndian;
    }
  }

  lemma LittleEndianOfFour(b: bytes)
    requires |b| == 4
    ensures LittleEndian(b) == FromU32(b)
  {
    hide LittleEndian, FromU16;
    LittleEndianOfConcat(b[..2], b[2..]);
    assert b == b[..2] + b[2..];
    LittleEndianOfTwo(b[..2]);
    LittleEndianOfTwo(b[2..]);
  }

  lemma LittleEndianOfEight(b: bytes)
    requires |b| == 8
    ensures LittleEndian(b) == FromU32(b[..4]) + 0x1_0000_0000 * FromU32(b[4..])
  {
    hide LittleEndian, FromU32;
    LittleEndianOfConcat(b[..4], b[4..]);
    assert b == b[..4] + b[4..];
    LittleEndianOfFour(b[..4]);
    LittleEndianOfFour(b[4..]);
  }

  /** The ids of an answer; an odd byte at its end is not looked at. */
  function IdsOf(body: bytes): seq<int> {
    DecodeIds(body[..2 * (|body| / 2)])
  }

  lemma NoHandles(seen: seq<int>)
    ensures HandlesOf(seen, DecodeIds([])) == Handles(seen, [])
  {
  }

  lemma HandlesOneMore(seen: seq<int>, b: bytes, i: nat)
    requires 2 * i + 2 <= |b|
    ensures var h := HandlesOf(seen, DecodeIds(b[..2 * i]));
      var n := HandleOf(h.seen, FromU16(b[2 * i..2 * i + 2]));
      HandlesOf(seen, DecodeIds(b[..2 * i + 2])) == Handles(n.0, h.handles + [n.1])
  {
    hide HandleOf, FromU16;
    var ids, all := DecodeIds(b[..2 * i]), DecodeIds(b[..2 * i + 2]);
    assert b[..2 * i + 2][..2 * i] == b[..2 * i] && b[..2 * i + 2][2 * i..] == b[2 * i..2 * i + 2];
    assert all == ids + [FromU16(b[2 * i..2 * i + 2])];
    assert all[..i] == ids;
  }

  /** A whole frame is coming, and its body fits the client's buffer. */
  ghost predicate Whole(incoming: bytes) {
    Complete(incoming) && FrameLength(incoming) <= HEADER_SIZE + BUFFER_SIZE
  }

  ghost predicate Arriving(incoming: bytes, cmd: byte) {
    Whole(incoming) && Head(incoming).cmd == cmd
  }

  /** A reply of the server at the head of the stream is what the client receives. */
  lemma ReplyArrives(reply: Reply, rest: bytes)
    requires ReplyFits(reply)
    ensures var s := EncodeReply(reply) + rest;
      && Arriving(s, ReplyCommand(reply)) && Head(s).body == ReplyBody(reply) && Tail(s) == rest
      && DecodeReply(Head(s).cmd, Head(s).body) == Some(reply)
  {
    hide ReplyBody, DecodeReply, FrameLength, Frame;
    FrameReadsBack(ReplyCommand(reply), ReplyBody(reply), rest);
    ReplyReadsBack(reply);
  }

  /**
   * What an integer read returns is what the local read returns: when the
   * server answers with the device's bytes, they are the body of the frame
   * from which Read8, Read32 and Read64 take their values.
   */
  lemma IntegersArrive(mem: bytes, off: nat, rest: bytes)
    requires off + 8 <= |mem|
    ensures var s := EncodeReply(Data(mem[off..off + 1])) + rest;
      Arriving(s, CMD_READ_RESP) && Head(s).body == [mem[off]] && Tail(s) == rest
    ensures var s := EncodeReply(Data(mem[off..off + 4])) + rest;
      && Arriving(s, CMD_READ_RESP) && |Head(s).body| == 4 && Tail(s) == rest
      && FromU32(Head(s).body) == FromU32(mem[off..off + 4])
    ensures var s := EncodeReply(Data(mem[off..off + 8])) + rest;
      && Arriving(s, CMD_READ_RESP) && |Head(s).body| == 8 && Tail(s) == rest
      && FromU32(Head(s).body[..4]) == FromU32(mem[off..off + 4])
      && FromU32(Head(s).body[4..]) == FromU32(mem[off + 4..off + 8])
  {
    hide Arriving, Head, Tail, EncodeReply, FromU32;
    var b := mem[off..off + 8];
    ReplyArrives(Data(mem[off..off + 1]), rest);
    ReplyArrives(Data(mem[off..off + 4]), rest);
    ReplyArrives(Data(b), rest);
    assert mem[off..off + 1] == [mem[off]];
    assert b[..4] == mem[off..off + 4] && b[4..] == mem[off + 4..off + 8];
  }
}

/**
 * The device interface on a remote handle (src/device/hwio_device_remote.cpp):
 * which requests a call turns into, and that they do what the call does on the
 * local device.
 */
module RemoteDevice {
  import opened Bytes
  import opened BlockTransfer
  import opened Handlers
  import opened RemoteRun
  import opened Service
  import opened Wire

  /**
   * memset is not overridden by the remote device: its loop calls the remote
   * write32 and write8, one request each.
   */
  function MemsetRequests(id: int, off: int, c: byte, n: nat): seq<Request>
    decreases n
  {
    if n >= 4 then [Write(id, off, [c, c, c, c])] + MemsetRequests(id, off + 4, c, n - 4)
    else if n > 0 then [Write(id, off, [c])] + MemsetRequests(id, off + 1, c, n - 1)
    else []
  }

  /** The words come first: a block is whole words followed by octets. */
  lemma WriteThenWrite(dev: DevState, off: int, a: bytes, b: bytes)
    requires dev.InRange(off, |a| + |b|)
    requires |a| % 4 == 0 || (|a| == 1 && |b| < 3)
    ensures dev.Write(off, a).Write(off + |a|, b) == dev.Write(off, a + b)
  {
    hide WriteTrace;
    assert Overlay(Overlay(dev.mem, off, a), off + |a|, b) == Overlay(dev.mem, off, a + b);
    if |a| % 4 == 0 {
      WriteTraceSplit(off, a, b);
    } else {
      OctetThenOctets(off, a, b);
    }
    assert dev.trace + WriteTrace(off, a) + WriteTrace(off + |a|, b) == dev.trace + WriteTrace(off, a + b);
  }

  lemma OctetThenOctets(off: int, a: bytes, b: bytes)
    requires |a| == 1 && |b| < 3
    ensures WriteTrace(off, a) + WriteTrace(off + 1, b) == WriteTrace(off, a + b)
  {
    assert WriteTrace(off, a) == OctetStores(off, a);
    assert WriteTrace(off + 1, b) == OctetStores(off + 1, b);
    assert WriteTrace(off, a + b) == OctetStores(off, a + b);
  }

  /** A device of the client's table that can be written and a range inside it. */
  ghost predicate Writable(cfg: Config, s: Local, c: nat, id: int, off: int, n: nat)
    requires GoodLocal(cfg, s) && c in s.accounts
  {
    && 0 <= id < MAX_DEVICES && id < |s.accounts[c].table|
    && s.world[s.accounts[c].table[id].dev].InRange(off, n)
  }

  lemma WriteIsLocal(cfg: Config, s: Local, c: nat, id: int, off: int, data: bytes)
    requires GoodLocal(cfg, s) && c in s.accounts && Writable(cfg, s, c, id, off, |data|)
    requires 0 < |data| <= 4
    ensures Acceptable(cfg, s.world, s.accounts[c].table, Write(id, off, data))
    ensures var d := s.accounts[c].table[id].dev;
      LocalStep(cfg, s, c, Write(id, off, data)) == s.(world := s.world[d := s.world[d].Write(off, data)])
  {
    hide WriteTrace, Overlay, ValidConfig;
    var a := s.accounts[c];
    assert a.results + [] == a.results;
    assert s.accounts[c := Account(a.table, a.results)] == s.accounts;
  }

  /** A remote memset: same memory and same bus trace as the local one, no reply awaited. */
  lemma {:induction false} MemsetIsLocal(cfg: Config, s: Local, c: nat, id: int, off: int, v: byte, n: nat)
    requires GoodLocal(cfg, s) && c in s.accounts && Writable(cfg, s, c, id, off, n)
    ensures var d := s.accounts[c].table[id].dev;
      Stretch(cfg, s, c, MemsetRequests(id, off, v, n)) == s.(world := s.world[d := s.world[d].Write(off, Fill(v, n))])
    decreases n
  {
    hide GoodLocal, LocalStep, Follows, Stretch, Acceptable, Writable, DevState.Write;
    if n == 0 {
      StretchOfNone(cfg, s, c);
      MemsetOfNothing(cfg, s, c, id, off, v);
    } else {
      var k := if n >= 4 then 4 else 1;
      var r := Write(id, off, Fill(v, k));
      MemsetPiece(cfg, s, c, id, off, v, k, n);
      MemsetIsLocal(cfg, LocalStep(cfg, s, c, r), c, id, off + k, v, n - k);
      assert Fill(v, k) == if n >= 4 then [v, v, v, v] else [v];
      StretchOfMore(cfg, s, c, r, MemsetRequests(id, off + k, v, n - k));
    }
  }

  lemma MemsetOfNothing(cfg: Config, s: Local, c: nat, id: int, off: int, v: byte)
    requires GoodLocal(cfg, s) && c in s.accounts && Writable(cfg, s, c, id, off, 0)
    ensures var d := s.accounts[c].table[id].dev;
      s == s.(world := s.world[d := s.world[d].Write(off, Fill(v, 0))])
  {
    hide ValidConfig, WriteTrace, Overlay;
    var d := s.accounts[c].table[id].dev;
    WriteNothing(s.world[d].mem, off);
    assert Fill(v, 0) == [] && s.world[d].trace + [] == s.world[d].trace;
    assert s.world[d := s.world[d]] == s.world;
  }

  /** One store of the loop, and what the stores after it make of the device. */
  lemma MemsetPiece(cfg: Config, s: Local, c: nat, id: int, off: int, v: byte, k: nat, n: nat)
    requires GoodLocal(cfg, s) && c in s.accounts && Writable(cfg, s, c, id, off, n)
    requires k <= n && (k == 4 || (k == 1 && n < 4))
    ensures var m := LocalStep(cfg, s, c, Write(id, off, Fill(v, k)));
      var d := s.accounts[c].table[id].dev;
      && m.accounts == s.accounts && Writable(cfg, m, c, id, off + k, n - k)
      && m.(world := m.world[d := m.world[d].Write(off + k, Fill(v, n - k))])
         == s.(world := s.world[d := s.world[d].Write(off, Fill(v, n))])
  {
    hide ValidConfig, LocalStep, WriteTrace, Overlay, Follows, Acceptable;
    var d := s.accounts[c].table[id].dev;
    WriteIsLocal(cfg, s, c, id, off, Fill(v, k));
    WriteThenWrite(s.world[d], off, Fill(v, k), Fill(v, n - k));
    assert Fill(v, k) + Fill(v, n - k) == Fill(v, n);
  }

  // ---- the whole device interface ----

  datatype ApiCall =
    | Read8(off: int)
    | Read32(off: int)
    | Read64(off: int)
    | ReadBlock(off: int, n: nat)
    | Write8(off: int, octet: byte)
    | Write32(off: int, word: int)
    | Write64(off: int, value: int)
    | WriteBlock(off: int, data: bytes)
    | Memset(off: int, octet: byte, n: nat)

  predicate IsRead(call: ApiCall) {
    call.Read8? || call.Read32? || call.Read64? || call.ReadBlock?
  }

  function Width(call: ApiCall): nat {
    match call
    case Read8(_) => 1
    case Write8(_, _) => 1
    case Read32(_) => 4
    case Write32(_, _) => 4
    case Read64(_) => 8
    case Write64(_, _) => 8
    case ReadBlock(_, n) => n
    case WriteBlock(_, data) => |data|
    case Memset(_, _, n) => n
  }

  function Qword(v: int): (b: bytes)
    requires 0 <= v < ADDRESS_SPACE * ADDRESS_SPACE
    ensures |b| == 8
  {
    U32(v % ADDRESS_SPACE) + U32(v / ADDRESS_SPACE)
  }

  /** The call's address and value fit their integers, and a block fits one message. */
  predicate Fits(call: ApiCall) {
    && 0 <= call.off && call.off + Width(call) <= ADDRESS_SPACE
    && (call.Write32? ==> 0 <= call.word < ADDRESS_SPACE)
    && (call.Write64? ==> 0 <= call.value < ADDRESS_SPACE * ADDRESS_SPACE)
    && (call.ReadBlock? ==> HEADER_SIZE + call.n <= BUFFER_SIZE)
    && (call.WriteBlock? ==> HEADER_SIZE + READ_REQ_SIZE + |call.data| <= BUFFER_SIZE)
  }

  /** And it is inside the device. */
  predicate InDevice(dev: DevState, call: ApiCall) {
    Fits(call) && dev.InRange(call.off, Width(call))
  }

  /** The local device after the call: access by access, as the memory mapped device makes them. */
  function LocalEffect(dev: DevState, call: ApiCall): DevState
    requires InDevice(dev, call)
  {
    match call
    case Read8(off) => dev.(trace := dev.trace + [R8(off)])
    case Read32(off) => dev.(trace := dev.trace + [R32(off)])
    case Read64(off) => dev.(trace := dev.trace + [R32(off), R32(off + 4)])
    case ReadBlock(off, n) => dev.(trace := dev.trace + ReadTrace(off, n))
    case Write8(off, v) => dev.(mem := dev.mem[off := v], trace := dev.trace + [W8(off, v)])
    case Write32(off, v) => dev.(mem := Overlay(dev.mem, off, U32(v)), trace := dev.trace + [W32(off, v)])
    case Write64(off, v) =>
      dev.(mem := Overlay(Overlay(dev.mem, off, U32(v % ADDRESS_SPACE)), off + 4, U32(v / ADDRESS_SPACE)),
           trace := dev.trace + [W32(off, v % ADDRESS_SPACE), W32(off + 4, v / ADDRESS_SPACE)])
    case WriteBlock(off, data) => dev.Write(off, data)
    case Memset(off, v, n) => dev.Write(off, Fill(v, n))
  }

  /** The bytes a store puts on the wire. */
  function Stored(call: ApiCall): (b: bytes)
    requires Fits(call) && !IsRead(call) && !call.Memset?
    ensures |b| == Width(call)
  {
    if call.Write8? then [call.octet]
    else if call.Write32? then U32(call.word)
    else if call.Write64? then Qword(call.value)
    else call.data
  }

  /** What the stubs send. */
  function Requests(id: int, call: ApiCall): seq<Request>
    requires Fits(call)
  {
    if IsRead(call) then [Read(id, call.off, Width(call))]
    else if call.Memset? then MemsetRequests(id, call.off, call.octet, call.n)
    else [Write(id, call.off, Stored(call))]
  }

  lemma {:induction false} MemsetEncodable(id: int, off: int, c: byte, n: nat)
    requires 0 <= id < 0x1_0000 && 0 <= off && off + n <= ADDRESS_SPACE
    ensures AllEncodable(MemsetRequests(id, off, c, n))
    decreases n
  {
    if n >= 4 {
      MemsetEncodable(id, off + 4, c, n - 4);
    } else if n > 0 {
      MemsetEncodable(id, off + 1, c, n - 1);
    }
  }

  /** A call that can be made on a handle: its requests can be encoded. */
  predicate CanSend(id: int, call: ApiCall) {
    0 <= id < 0x1_0000 && Fits(call) && call.off < ADDRESS_SPACE
  }

  /** What a call puts on the wire. */
  function CallBytes(id: int, call: ApiCall): bytes
    requires CanSend(id, call)
  {
    RequestsEncodable(id, call);
    EncodeRequests(Requests(id, call))
  }

  lemma RequestsEncodable(id: int, call: ApiCall)
    requires CanSend(id, call)
    ensures AllEncodable(Requests(id, call))
  {
    if call.Memset? {
      MemsetEncodable(id, call.off, call.octet, call.n);
    }
  }

  lemma CallBytesOfOne(id: int, call: ApiCall, r: Request)
    requires CanSend(id, call) && Requests(id, call) == [r]
    ensures Encodable(r) && CallBytes(id, call) == EncodeRequest(r)
  {
    hide EncodeRequest, Encodable, Requests;
    RequestsEncodable(id, call);
    assert [r][0] == r && [r][1..] == [];
    assert EncodeRequests([r]) == EncodeRequest(r) + EncodeRequests([]);
  }

  lemma ReadEffect(dev: DevState, call: ApiCall)
    requires InDevice(dev, call) && IsRead(call)
    ensures dev.Read(call.off, Width(call)).0 == LocalEffect(dev, call)
  {
    var off := call.off;
    if call.Read8? {
      assert ReadTrace(off, 1) == [R8(off)];
    } else if call.Read32? || call.Read64? {
      ReadNothing(off + 4);
      ReadNothing(off + 8);
      assert ReadTrace(off, 4) == [R32(off)] + ReadTrace(off + 4, 0);
      assert ReadTrace(off, 8) == [R32(off)] + ReadTrace(off + 4, 4);
      assert ReadTrace(off + 4, 4) == [R32(off + 4)] + ReadTrace(off + 8, 0);
      hide ReadTrace;
      assert [R32(off)] + [R32(off + 4)] == [R32(off), R32(off + 4)];
    }
  }

  lemma WriteEffect(dev: DevState, call: ApiCall)
    requires InDevice(dev, call) && !IsRead(call) && !call.Memset?
    ensures dev.Write(call.off, Stored(call)) == LocalEffect(dev, call)
  {
    hide U32, FromU32, WriteTrace;
    var off := call.off;
    if call.Write8? {
      OneOctet(off, call.octet);
    } else if call.Write32? {
      U32RoundTrip(call.word);
      WordStore(off, U32(call.word));
    } else if call.Write64? {
      var low, high := call.value % ADDRESS_SPACE, call.value / ADDRESS_SPACE;
      U32RoundTrip(low);
      U32RoundTrip(high);
      WordStore(off, U32(low));
      WordStore(off + 4, U32(high));
      hide Overlay;
      WriteThenWrite(dev, off, U32(low), U32(high));
      assert dev.trace + [W32(off, low)] + [W32(off + 4, high)] == dev.trace + [W32(off, low), W32(off + 4, high)];
    }
  }

  lemma OneOctet(off: int, v: byte)
    ensures WriteTrace(off, [v]) == [W8(off, v)]
  {
  }

  /** One request performed alone. */
  lemma OneWrite(cfg: Config, s: Local, c: nat, id: int, off: int, data: bytes)
    requires GoodLocal(cfg, s) && c in s.accounts && Writable(cfg, s, c, id, off, |data|)
    requires HEADER_SIZE + READ_REQ_SIZE + |data| <= BUFFER_SIZE && 0 <= off < ADDRESS_SPACE
    ensures var d := s.accounts[c].table[id].dev;
      Stretch(cfg, s, c, [Write(id, off, data)]) == s.(world := s.world[d := s.world[d].Write(off, data)])
  {
    hide WriteTrace, Overlay, ValidConfig, Stretch;
    var a := s.accounts[c];
    assert a.results + [] == a.results;
    assert s.accounts[c := Account(a.table, a.results)] == s.accounts;
    StretchOfOne(cfg, s, c, Write(id, off, data));
  }

  lemma OneRead(cfg: Config, s: Local, c: nat, id: int, off: int, n: nat)
    requires GoodLocal(cfg, s) && c in s.accounts
    requires 0 <= id < |s.accounts[c].table| && id < 0x1_0000 && 0 <= off < ADDRESS_SPACE
    requires CanRead(s.world[s.accounts[c].table[id].dev], off, n)
    ensures var a := s.accounts[c]; var d := a.table[id].dev; var r := s.world[d].Read(off, n);
      Stretch(cfg, s, c, [Read(id, off, n)]) ==
      Local(s.world[d := r.0], s.accounts[c := a.(results := a.results + [Data(r.1)])])
  {
    hide ReadTrace, ValidConfig, Stretch;
    StretchOfOne(cfg, s, c, Read(id, off, n));
  }

  /**
   * Every call of the device interface, made on a handle, does to the device
   * what it does locally, access by access; reads hand over the bytes the
   * local device has there and nothing else is handed over. Handles with an id
   * of 256 or more can only be read.
   */
  lemma CallIsLocal(cfg: Config, s: Local, c: nat, id: int, call: ApiCall)
    requires GoodLocal(cfg, s) && c in s.accounts
    requires 0 <= id < |s.accounts[c].table| && id < 0x1_0000 && (!IsRead(call) ==> id < MAX_DEVICES)
    requires InDevice(s.world[s.accounts[c].table[id].dev], call) && call.off < ADDRESS_SPACE
    ensures var a := s.accounts[c]; var d := a.table[id].dev; var dev := s.world[d];
      var data := dev.mem[call.off..call.off + Width(call)];
      Stretch(cfg, s, c, Requests(id, call)) ==
      Local(s.world[d := LocalEffect(dev, call)],
            if IsRead(call) then s.accounts[c := a.(results := a.results + [Data(data)])] else s.accounts)
  {
    hide ValidConfig, Stretch, ReadTrace, WriteTrace, Overlay, U32, Follows;
    var a := s.accounts[c];
    var dev := s.world[a.table[id].dev];
    if IsRead(call) {
      OneRead(cfg, s, c, id, call.off, Width(call));
      ReadEffect(dev, call);
    } else if call.Memset? {
      MemsetIsLocal(cfg, s, c, id, call.off, call.octet, call.n);
    } else {
      OneWrite(cfg, s, c, id, call.off, Stored(call));
      WriteEffect(dev, call);
    }
  }

  // ---- any sequence of calls ----

  /** A call on one of the client's handles. */
  datatype DeviceCall = On(id: int, call: ApiCall)

  /** The calls are on handles of the table and inside their devices; handles from 256 on are only read. */
  predicate CallsFit(w: World, t: Table, calls: seq<DeviceCall>) {
    forall i :: 0 <= i < |calls| ==> CallFits(w, t, calls[i].id, calls[i].call)
  }

  predicate CallFits(w: World, t: Table, id: int, call: ApiCall) {
    && 0 <= id < |t| && id < 0x1_0000 && (!IsRead(call) ==> id < MAX_DEVICES)
    && t[id].Used? && t[id].dev < |w| && InDevice(w[t[id].dev], call) && call.off < ADDRESS_SPACE
  }

  /** The requests of the calls, one call after the other. */
  function CallRequests(calls: seq<DeviceCall>): seq<Request>
    requires forall i :: 0 <= i < |calls| ==> Fits(calls[i].call)
  {
    if calls == [] then [] else Requests(calls[0].id, calls[0].call) + CallRequests(calls[1..])
  }

  /** The local devices after one call. */
  function AfterCall(w: World, t: Table, c: DeviceCall): (n: World)
    requires CallFits(w, t, c.id, c.call)
    ensures SameShape(n, w)
  {
    var d := t[c.id].dev;
    w[d := LocalEffect(w[d], c.call)]
  }

  /** What one call returns. */
  function CallResult(w: World, t: Table, c: DeviceCall): seq<Reply>
    requires CallFits(w, t, c.id, c.call)
  {
    if IsRead(c.call) then [Data(w[t[c.id].dev].mem[c.call.off..c.call.off + Width(c.call)])] else []
  }

  lemma StillFit(w: World, t: Table, n: World, calls: seq<DeviceCall>)
    requires CallsFit(w, t, calls) && SameShape(n, w)
    ensures CallsFit(n, t, calls)
  {
    hide Fits;
    forall i | 0 <= i < |calls|
      ensures CallFits(n, t, calls[i].id, calls[i].call)
    {
      assert CallFits(w, t, calls[i].id, calls[i].call);
    }
  }

  /** The local devices after all calls. */
  function AfterCalls(w: World, t: Table, calls: seq<DeviceCall>): World
    requires CallsFit(w, t, calls)
    decreases |calls|
  {
    if calls == [] then w
    else
      assert CallFits(w, t, calls[0].id, calls[0].call);
      var n := AfterCall(w, t, calls[0]);
      StillFit(w, t, n, calls[1..]);
      AfterCalls(n, t, calls[1..])
  }

  /** What the local devices return for all reads. */
  function CallResults(w: World, t: Table, calls: seq<DeviceCall>): seq<Reply>
    requires CallsFit(w, t, calls)
    decreases |calls|
  {
    if calls == [] then []
    else
      assert CallFits(w, t, calls[0].id, calls[0].call);
      var n := AfterCall(w, t, calls[0]);
      StillFit(w, t, n, calls[1..]);
      CallResult(w, t, calls[0]) + CallResults(n, t, calls[1..])
  }

  lemma OneCall(cfg: Config, s: Local, c: nat, call: DeviceCall)
    requires GoodLocal(cfg, s) && c in s.accounts && CallFits(s.world, s.accounts[c].table, call.id, call.call)
    ensures var a := s.accounts[c];
      Stretch(cfg, s, c, Requests(call.id, call.call)) ==
      Local(AfterCall(s.world, a.table, call),
            s.accounts[c := a.(results := a.results + CallResult(s.world, a.table, call))])
  {
    hide GoodLocal, Stretch, Requests, LocalEffect, Fits, Follows;
    var a := s.accounts[c];
    CallIsLocal(cfg, s, c, call.id, call.call);
    assert a.results + [] == a.results;
    assert s.accounts[c := a] == s.accounts;
  }

  lemma CallsFirst(calls: seq<DeviceCall>, w: World, t: Table)
    requires calls != [] && CallsFit(w, t, calls)
    ensures CallFits(w, t, calls[0].id, calls[0].call) && CallsFit(w, t, calls[1..])
    ensures forall i :: 0 <= i < |calls| ==> Fits(calls[i].call)
  {
    hide Fits;
    forall i | 0 <= i < |calls|
      ensures Fits(calls[i].call)
    {
      assert CallFits(w, t, calls[i].id, calls[i].call);
    }
  }

  lemma {:induction false} AllFitting(calls: seq<DeviceCall>, w: World, t: Table)
    requires CallsFit(w, t, calls)
    ensures forall i :: 0 <= i < |calls| ==> Fits(calls[i].call)
  {
    if calls != [] {
      CallsFirst(calls, w, t);
    }
  }

  /**
   * Any sequence of calls of one client on its handles does to the devices
   * what the calls do locally one after the other, and returns what the local
   * reads return.
   */
  lemma {:induction false} CallsAreLocal(cfg: Config, s: Local, c: nat, calls: seq<DeviceCall>)
    requires GoodLocal(cfg, s) && c in s.accounts && CallsFit(s.world, s.accounts[c].table, calls)
    ensures forall i :: 0 <= i < |calls| ==> Fits(calls[i].call)
    ensures var a := s.accounts[c];
      Stretch(cfg, s, c, CallRequests(calls)) ==
      Local(AfterCalls(s.world, a.table, calls),
            s.accounts[c := a.(results := a.results + CallResults(s.world, a.table, calls))])
    decreases |calls|
  {
    hide GoodLocal, Stretch, Requests, AfterCall, CallResult, Fits, CallFits, Follows, CallsFit;
    var a := s.accounts[c];
    AllFitting(calls, s.world, a.table);
    if calls == [] {
      StretchOfNone(cfg, s, c);
      assert a.results + [] == a.results;
      assert s.accounts[c := a] == s.accounts;
    } else {
      CallsFirst(calls, s.world, a.table);
      OneCall(cfg, s, c, calls[0]);
      var m := Stretch(cfg, s, c, Requests(calls[0].id, calls[0].call));
      StillFit(s.world, a.table, m.world, calls[1..]);
      CallsAreLocal(cfg, m, c, calls[1..]);
      StretchConcat(cfg, s, c, Requests(calls[0].id, calls[0].call), CallRequests(calls[1..]));
      var first, rest := CallResult(s.world, a.table, calls[0]), CallResults(m.world, a.table, calls[1..]);
      assert a.results + first + rest == a.results + (first + rest);
      var b := m.accounts[c];
      assert m.accounts[c := b.(results := b.results + rest)] ==
        s.accounts[c := a.(results := a.results + (first + rest))];
    }
  }

  /** With one client, the log is what that client has had handled. */
  lemma {:induction false} LogOfOne(log: seq<Event>, c: nat)
    requires forall i :: 0 <= i < |log| ==> log[i].client == c
    ensures log == Events(c, Projection(log, c))
  {
    if log != [] {
      var init := log[..|log| - 1];
      LogOfOne(init, c);
      assert log == init + [log[|log| - 1]];
    }
  }

  lemma RunOfOne(cfg: Config, s: Local, log: seq<Event>, c: nat)
    requires GoodLocal(cfg, s) && KnownClients(s, log) && s.accounts.Keys == {c}
    ensures LocalRun(cfg, s, log) == Stretch(cfg, s, c, Projection(log, c))
  {
    hide GoodLocal, Stretch, Projection, LocalStep, Follows;
    LogOfOne(log, c);
    StretchExtendsRun(cfg, s, [], c, Projection(log, c));
    assert [] + Events(c, Projection(log, c)) == log;
  }

  /**
   * The same over whole runs of one client: however its stubs, the server and
   * the channels are interleaved, once all its requests are handled the
   * server's devices are what its calls make of them locally, and once it does
   * not wait it has been given exactly the bytes the local reads return.
   * `before` are the requests, such as queries, that came first.
   */
  lemma CallsOverTheWire(cfg: Config, s0: System, moves: seq<Move>, c: nat, before: seq<Request>,
      calls: seq<DeviceCall>)
    requires Initial(cfg, s0) && ValidRun(cfg, s0, moves) && s0.peers.Keys == {c}
    ensures GoodLocal(cfg, Start(s0)) && c in Start(s0).accounts
    ensures var s := Run(cfg, s0, moves); var m := Stretch(cfg, Start(s0), c, before);
      c in s.peers && c in m.accounts && CallsFit(m.world, m.accounts[c].table, calls) ==>
        && (forall i :: 0 <= i < |calls| ==> Fits(calls[i].call))
        && var p, a := s.peers[c], m.accounts[c];
          p.issued == before + CallRequests(calls) && p.done == |p.issued| ==>
            && s.world == AfterCalls(m.world, a.table, calls)
            && (!Waiting(p) ==> p.received == a.results + CallResults(m.world, a.table, calls))
  {
    hide Initial, ValidRun, Run, GoodLocal, Performed, LocalRun, Stretch, Requests, CallsFit, AfterCalls, CallResults;
    hide Fits, RepliesAnswer, Waiting, Projection, Follows, CallRequests;
    RemoteRefinesLocal(cfg, s0, moves);
    var l0, s := Start(s0), Run(cfg, s0, moves);
    StartsWith(cfg, s0, c);
    RunOfOne(cfg, l0, s.log, c);
    var m := Stretch(cfg, l0, c, before);
    if c in s.peers && c in m.accounts && CallsFit(m.world, m.accounts[c].table, calls) {
      AllFitting(calls, m.world, m.accounts[c].table);
      CallsAreLocal(cfg, m, c, calls);
      StretchConcat(cfg, l0, c, before, CallRequests(calls));
      var p := s.peers[c];
      assert p.issued[..|p.issued|] == p.issued;
    }
  }

  lemma StartsWith(cfg: Config, s0: System, c: nat)
    requires Initial(cfg, s0) && s0.peers.Keys == {c}
    ensures GoodLocal(cfg, Start(s0)) && Start(s0).accounts.Keys == {c}
  {
    assert c in s0.peers;
    hide ValidConfig, ValidWorld;
  }

  // ---- integers read back ----

  /** The value of eight bytes as two words, the low one first. */
  lemma QwordReadsBack(v: int)
    requires 0 <= v < ADDRESS_SPACE * ADDRESS_SPACE
    ensures var b := Qword(v); FromU32(b[..4]) + ADDRESS_SPACE * FromU32(b[4..]) == v
  {
    hide U32, FromU32;
    U32RoundTrip(v % ADDRESS_SPACE);
    U32RoundTrip(v / ADDRESS_SPACE);
    var b := Qword(v);
    assert b[..4] == U32(v % ADDRESS_SPACE) && b[4..] == U32(v / ADDRESS_SPACE);
  }

  /** A local store of an integer puts its bytes into the device, the lowest first, and touches no other byte. */
  lemma IntegersStored(dev: DevState, off: int, v: int, mem: bytes)
    requires 0 <= v < ADDRESS_SPACE * ADDRESS_SPACE && InDevice(dev, Write64(off, v))
    requires mem == LocalEffect(dev, Write64(off, v)).mem
    ensures |mem| == |dev.mem|
    ensures forall i :: 0 <= i < |mem| && !(off <= i < off + 8) ==> mem[i] == dev.mem[i]
    ensures mem[off..off + 4] == U32(v % ADDRESS_SPACE) && mem[off + 4..off + 8] == U32(v / ADDRESS_SPACE)
    ensures mem[off] == v % ADDRESS_SPACE % 0x100 && mem[off + 7] == v / ADDRESS_SPACE / 0x100_0000
  {
    hide U32, Overlay;
    TwoStoredAt(dev.mem, off, U32(v % ADDRESS_SPACE), U32(v / ADDRESS_SPACE));
    U32Bytes(v % ADDRESS_SPACE);
    U32Bytes(v / ADDRESS_SPACE);
    assert mem[off..off + 4][0] == mem[off] && mem[off + 4..off + 8][3] == mem[off + 7];
  }

  /** The calls `write` and then `read` on one handle. */
  function Both(id: int, write: ApiCall, read: ApiCall): seq<DeviceCall> {
    [On(id, write), On(id, read)]
  }

  lemma ResultOfBoth(w: World, t: Table, id: int, write: ApiCall, read: ApiCall)
    requires CallFits(w, t, id, write) && !IsRead(write) && IsRead(read) && Fits(read)
    requires read.off == write.off && Width(read) == Width(write)
    ensures CallsFit(w, t, Both(id, write, read))
    ensures var d := t[id].dev; var mem := LocalEffect(w[d], write).mem;
      && |mem| == |w[d].mem|
      && CallResults(w, t, Both(id, write, read)) == [Data(mem[write.off..write.off + Width(write)])]
  {
    hide LocalEffect, Fits;
    var calls := Both(id, write, read);
    var n := AfterCall(w, t, calls[0]);
    assert calls[1..] == [On(id, read)] && calls[1..][1..] == [];
    assert CallFits(n, t, id, read);
    assert CallResults(n, t, [On(id, read)]) == CallResult(n, t, On(id, read)) + [];
  }

  /** Through a handle, an octet, a word or a double word that has been written is what is read. */
  lemma OctetReadsBack(w: World, t: Table, id: int, off: int, v: byte)
    requires CallFits(w, t, id, Write8(off, v))
    ensures CallsFit(w, t, Both(id, Write8(off, v), Read8(off)))
    ensures CallResults(w, t, Both(id, Write8(off, v), Read8(off))) == [Data([v])]
  {
    hide CallResults, CallsFit;
    ResultOfBoth(w, t, id, Write8(off, v), Read8(off));
    var mem := w[t[id].dev].mem;
    assert mem[off := v][off..off + 1] == [v];
  }

  lemma WordReadsBack(w: World, t: Table, id: int, off: int, v: int)
    requires 0 <= v < ADDRESS_SPACE && CallFits(w, t, id, Write32(off, v))
    ensures CallsFit(w, t, Both(id, Write32(off, v), Read32(off)))
    ensures CallResults(w, t, Both(id, Write32(off, v), Read32(off))) == [Data(U32(v))] && FromU32(U32(v)) == v
  {
    hide CallResults, CallsFit, FromU32, U32, Overlay;
    ResultOfBoth(w, t, id, Write32(off, v), Read32(off));
    U32RoundTrip(v);
    StoredAt(w[t[id].dev].mem, off, U32(v));
  }

  lemma DoubleReadsBack(w: World, t: Table, id: int, off: int, v: int)
    requires 0 <= v < ADDRESS_SPACE * ADDRESS_SPACE && CallFits(w, t, id, Write64(off, v))
    ensures CallsFit(w, t, Both(id, Write64(off, v), Read64(off)))
    ensures CallResults(w, t, Both(id, Write64(off, v), Read64(off))) == [Data(Qword(v))]
    ensures FromU32(Qword(v)[..4]) + ADDRESS_SPACE * FromU32(Qword(v)[4..]) == v
  {
    hide CallResults, CallsFit, FromU32, U32, Overlay;
    ResultOfBoth(w, t, id, Write64(off, v), Read64(off));
    QwordReadsBack(v);
    TwoStoredAt(w[t[id].dev].mem, off, U32(v % ADDRESS_SPACE), U32(v / ADDRESS_SPACE));
  }

  lemma StoredAt(mem: bytes, off: int, b: bytes)
    requires 0 <= off && off + |b| <= |mem|
    ensures Overlay(mem, off, b)[off..off + |b|] == b
  {
  }

  lemma TwoStoredAt(mem: bytes, off: int, low: bytes, high: bytes)
    requires 0 <= off && off + 8 <= |mem| && |low| == |high| == 4
    ensures var m := Overlay(Overlay(mem, off, low), off + 4, high);
      && m[off..off + 8] == low + high && m[off..off + 4] == low && m[off + 4..off + 8] == high
      && forall i :: 0 <= i < |m| && !(off <= i < off + 8) ==> m[i] == mem[i]
  {
  }

  /**
   * Over the wire: a client that writes a 64-bit integer and reads it again,
   * after whatever it has done before, gets the integer back, however stubs,
   * server and channels are interleaved.
   */
  lemma Write64ThenRead64(cfg: Config, s0: System, moves: seq<Move>, c: nat, before: seq<Request>,
      id: int, off: int, v: int)
    requires Initial(cfg, s0) && ValidRun(cfg, s0, moves) && s0.peers.Keys == {c}
    requires 0 <= v < ADDRESS_SPACE * ADDRESS_SPACE
    ensures GoodLocal(cfg, Start(s0)) && c in Start(s0).accounts
    ensures var s := Run(cfg, s0, moves); var m := Stretch(cfg, Start(s0), c, before);
      c in s.peers && c in m.accounts && CallFits(m.world, m.accounts[c].table, id, Write64(off, v)) ==>
        && Fits(Write64(off, v)) && Fits(Read64(off))
        && var p := s.peers[c];
          p.issued == before + Requests(id, Write64(off, v)) + Requests(id, Read64(off))
          && p.done == |p.issued| && !Waiting(p) ==>
            && p.received != [] && p.received[|p.received| - 1].Data?
            && var b := p.received[|p.received| - 1].data;
              |b| == 8 && FromU32(b[..4]) + ADDRESS_SPACE * FromU32(b[4..]) == v
  {
    hide Initial, ValidRun, Run, GoodLocal, Stretch, Requests, CallsFit, CallResults, AfterCalls;
    hide Waiting, FromU32, Follows, Qword;
    var calls := Both(id, Write64(off, v), Read64(off));
    CallsOverTheWire(cfg, s0, moves, c, before, calls);
    var m := Stretch(cfg, Start(s0), c, before);
    if c in m.accounts && CallFits(m.world, m.accounts[c].table, id, Write64(off, v)) {
      DoubleReadsBack(m.world, m.accounts[c].table, id, off, v);
      RequestsOfBoth(before, id, Write64(off, v), Read64(off));
    }
  }

  lemma RequestsOfBoth(before: seq<Request>, id: int, write: ApiCall, read: ApiCall)
    requires Fits(write) && Fits(read)
    ensures forall i :: 0 <= i < 2 ==> Fits(Both(id, write, read)[i].call)
    ensures before + CallRequests(Both(id, write, read)) == before + Requests(id, write) + Requests(id, read)
  {
    hide Fits, Requests;
    var calls := Both(id, write, read);
    assert calls[1..] == [On(id, read)] && calls[1..][1..] == [];
    assert CallRequests(calls[1..]) == Requests(id, read) + [];
    assert before + (Requests(id, write) + Requests(id, read)) == before + Requests(id, write) + Requests(id, read);
  }
}

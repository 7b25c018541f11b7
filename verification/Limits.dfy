/**
 * Inputs on which the remote protocol does not do what the local devices do:
 * a device that can be searched and read but not written, and calls whose stub
 * and plugin disagree about the result.
 */
module Limits {
  import opened Bytes
  import opened BlockTransfer
  import opened CompSpec
  import opened Framing
  import opened Handlers
  import opened Search
  import opened Service
  import opened Version
  import opened Wire

  // ---- more than 256 devices ----

  function UpTo(n: nat): (s: seq<nat>)
    ensures |s| == n && forall i :: 0 <= i < n ==> s[i] == i
  {
    seq(n, i => i)
  }

  /** One bus with n devices of the same name and without compatibility strings. */
  function Shelf(n: nat, name: string): Config {
    Config(seq(n, _ => DeviceInfo(name, [])), [UpTo(n)], map[], [], [])
  }

  function ByName(name: string): Spec {
    Spec(name, "", "", UNKNOWN)
  }

  lemma ShelfFound(n: nat, name: string)
    requires name != ""
    ensures forall i :: 0 <= i < n ==> Found(Shelf(n, name).infos[i], [ByName(name)])
  {
    assert [ByName(name)][0].name == name;
  }

  lemma {:induction false} AllKept(devices: seq<nat>, infos: seq<DeviceInfo>, query: seq<Spec>)
    requires Known(devices, infos) && forall i :: 0 <= i < |infos| ==> Found(infos[i], query)
    ensures Filter(devices, infos, query) == devices
  {
    hide Found;
    if devices != [] {
      AllKept(devices[1..], infos, query);
    }
  }

  lemma WholeShelf(n: nat, name: string)
    requires name != ""
    ensures var cfg := Shelf(n, name); SearchBuses(cfg, cfg.buses, [ByName(name)]) == UpTo(n)
  {
    hide Found, Filter;
    var cfg, query := Shelf(n, name), [ByName(name)];
    ShelfFound(n, name);
    AllKept(UpTo(n), cfg.infos, query);
    assert cfg.buses[..0] == [];
    assert SearchBuses(cfg, [], query) == [];
  }

  /** The first query of a connection numbers its hits in order. */
  lemma {:induction false} FirstIds(cfg: Config, w: World, n: nat)
    requires |w| == |cfg.infos| && n <= |w|
    ensures var r := Register(w, [], UpTo(n)); |r.table| == n && forall i :: 0 <= i < n ==> r.table[i] == Used(i)
  {
    hide RegisterOne;
    if n > 0 {
      FirstIds(cfg, w, n - 1);
      assert UpTo(n)[..n - 1] == UpTo(n - 1);
      var before := Register(w, [], UpTo(n - 1));
      RegisterOneKeeps(cfg, before, n - 1);
    }
  }

  /** A client asks for all devices of the shelf and gets one id for each. */
  lemma ShelfQuery(n: nat, name: string, w: World)
    requires n <= 1022 && name != "" && FitsName(name) && ValidWorld(Shelf(n, name), w)
    ensures var cfg, r := Shelf(n, name), Query([ByName(name)]);
      && ValidConfig(cfg) && Acceptable(cfg, w, [], r)
      && var h := Handle(cfg, w, [], CMD_QUERY, Body(r));
      && !h.disconnect && ValidWorld(cfg, h.world) && SameShape(h.world, w) && |h.table| == n
      && forall i :: 0 <= i < n ==> h.table[i] == Used(i)
  {
    hide Handle, SearchBuses, Register, Body;
    var cfg, r := Shelf(n, name), Query([ByName(name)]);
    WholeShelf(n, name);
    FirstIds(cfg, w, n);
    HandleServes(cfg, w, [], r);
    HandleKeeps(cfg, w, [], CMD_QUERY, Body(r));
  }

  /**
   * Every device from the 257th on can be found and read, and writing it ends
   * the connection, whatever is written to whichever place inside it.
   */
  lemma LateDevicesAreReadOnly(n: nat, name: string, w: World, id: nat, addr: int, data: bytes)
    requires MAX_DEVICES <= id < n <= 1022 && name != "" && FitsName(name) && ValidWorld(Shelf(n, name), w)
    requires Encodable(Write(id, addr, data)) && w[id].InRange(addr, |data|) && 0 <= addr < 0x1_0000_0000
    ensures var cfg := Shelf(n, name);
      && ValidConfig(cfg)
      && var h := Handle(cfg, w, [], CMD_QUERY, Body(Query([ByName(name)])));
      && ValidWorld(cfg, h.world) && ValidTable(cfg, h.table) && id < |h.table| && h.table[id] == Used(id)
      && Handle(cfg, h.world, h.table, CMD_WRITE, Body(Write(id, addr, data))).disconnect
      && !Handle(cfg, h.world, h.table, CMD_READ, Body(Read(id, addr, |data|))).disconnect
  {
    hide Handle, Body, ValidConfig;
    var cfg := Shelf(n, name);
    ShelfQuery(n, name, w);
    var h := Handle(cfg, w, [], CMD_QUERY, Body(Query([ByName(name)])));
    WritableExactlyBelow256(cfg, h.world, h.table, id, addr, data);
    HandleServes(cfg, h.world, h.table, Read(id, addr, |data|));
  }

  /** n fresh devices of one byte each. */
  function OneByteEach(n: nat): World {
    seq(n, _ => DevState([0], [], 0))
  }

  /** For example the last of 257 devices of one byte each. */
  lemma LastOf257()
    ensures var name := "d"; var cfg, w := Shelf(257, name), OneByteEach(257);
      && ValidConfig(cfg) && ValidWorld(cfg, w)
      && var h := Handle(cfg, w, [], CMD_QUERY, Body(Query([ByName(name)])));
      && ValidWorld(cfg, h.world) && ValidTable(cfg, h.table) && 256 < |h.table| && h.table[256] == Used(256)
      && Handle(cfg, h.world, h.table, CMD_WRITE, Body(Write(256, 0, [1]))).disconnect
      && !Handle(cfg, h.world, h.table, CMD_READ, Body(Read(256, 0, 1))).disconnect
  {
    hide Handle, Body, ValidConfig;
    LateDevicesAreReadOnly(257, "d", OneByteEach(257), 256, 0, [1]);
  }

  // ---- calls whose stub expects another result than the plugin has ----

  /** What one encoded request at the head of the pending bytes leads to. */
  lemma FirstRequest(cfg: Config, w: World, c: Conn, r: Request, rest: bytes)
    requires Good(cfg, w, c) && Encodable(r) && c.pending == EncodeRequest(r) + rest && c.room < 0
    ensures Complete(c.pending)
    ensures var h := Handle(cfg, w, c.table, Command(r), Body(r)); var s := Step(cfg, w, c);
      && s.world == h.world && s.conn == Conn(h.table, rest, c.sent + h.reply, c.room) && s.closed == h.disconnect
  {
    hide Handle, Body, Good;
    FrameReadsBack(Command(r), Body(r), rest);
  }

  /**
   * A void stub calls a plugin that has a result, and the client goes on to
   * its next request: the unread result comes before the answer to that
   * request, so a stub that expects anything else than a result fails.
   */
  lemma VoidStubSlips(cfg: Config, w: World, c: Conn, id: int, fn: int, args: bytes, next: Request)
    requires Good(cfg, w, c) && c.room < 0 && Callable(cfg, w, c.table, id, fn, args) && cfg.fast[fn].retSize != 0
    requires Encodable(Call(id, fn, args, 0)) && Encodable(next)
    requires c.pending == EncodeRequest(Call(id, fn, args, 0)) + EncodeRequest(next)
    ensures var x := cfg.fast[fn].fn(w[c.table[id].dev], args).ret;
      && !Awaits(Call(id, fn, args, 0)) && ReplyFits(Returned(x))
      && c.sent + EncodeReply(Returned(x)) <= Drain(cfg, w, c).conn.sent
      && (AnswerCommand(next) != CMD_CALL_RET ==> !Answers(Returned(x), next))
  {
    hide Handle, Body, Drain, Complete, EncodeRequest, EncodeReply, Encodable, Callable, Answers;
    hide ValidConfig, ValidWorld, ValidTable;
    var r := Call(id, fn, args, 0);
    CallUsesDevice(cfg, w, c.table, id, fn, args);
    FirstRequest(cfg, w, c, r, EncodeRequest(next));
    CallHandled(cfg, w, c.table, id, fn, args, 0);
    DrainComplete(cfg, w, c);
    var s := Step(cfg, w, c);
    DrainExtends(cfg, s.world, s.conn);
    WrongAnswer(cfg.fast[fn].fn(w[c.table[id].dev], args), next);
  }

  lemma CallUsesDevice(cfg: Config, w: World, t: Table, id: int, fn: int, args: bytes)
    requires ValidConfig(cfg) && ValidWorld(cfg, w) && ValidTable(cfg, t) && Callable(cfg, w, t, id, fn, args)
    ensures 0 <= id < |t| && t[id].Used? && t[id].dev < |w| && 0 <= fn < |cfg.fast|
    ensures cfg.fast[fn].fn(w[t[id].dev], args).Done?
  {
  }

  lemma WrongAnswer(result: CallResult, next: Request)
    ensures result.Done? && AnswerCommand(next) != CMD_CALL_RET ==> !Answers(Returned(result.ret), next)
  {
  }

  /**
   * A stub that expects a result calls a plugin that has none: the server
   * sends nothing and keeps nothing, and waits for the next request while the
   * client waits for the answer.
   */
  lemma SilentCallBlocks(cfg: Config, w: World, c: Conn, id: int, fn: int, args: bytes, ret: nat)
    requires Good(cfg, w, c) && c.room < 0 && Callable(cfg, w, c.table, id, fn, args) && cfg.fast[fn].retSize == 0
    requires Encodable(Call(id, fn, args, ret)) && ret != 0 && c.pending == EncodeRequest(Call(id, fn, args, ret))
    ensures var d := Drain(cfg, w, c);
      && Awaits(Call(id, fn, args, ret)) && !d.closed && d.conn.sent == c.sent && d.conn.pending == []
  {
    hide Handle, Body, Drain, EncodeRequest, EncodeReply, Encodable, Callable, ValidConfig, ValidWorld, ValidTable;
    var r := Call(id, fn, args, ret);
    CallUsesDevice(cfg, w, c.table, id, fn, args);
    assert c.pending == EncodeRequest(r) + [];
    FirstRequest(cfg, w, c, r, []);
    CallHandled(cfg, w, c.table, id, fn, args, ret);
    DrainComplete(cfg, w, c);
    var s := Step(cfg, w, c);
    DrainOfIncomplete(cfg, s.world, s.conn);
  }

  /** One device of one byte, and a plugin without arguments that returns `ret`. */
  function OnePlugin(ret: bytes): Config {
    Config([DeviceInfo("d", [])], [[0]], map[], [Plugin((d: DevState, a: bytes) => Done(d, ret), 0, |ret|)], ["f"])
  }

  lemma OnePluginIsValid(ret: bytes)
    requires HEADER_SIZE + |ret| <= BUFFER_SIZE
    ensures ValidConfig(OnePlugin(ret)) && ValidWorld(OnePlugin(ret), [DevState([0], [], 0)])
    ensures ValidTable(OnePlugin(ret), [Used(0)])
    ensures Callable(OnePlugin(ret), [DevState([0], [], 0)], [Used(0)], 0, 0, [])
  {
  }

  /** For example a call of that plugin by a void stub, and then a ping: the ping reads the result of the call. */
  lemma PingReadsResult()
    ensures var cfg, w := OnePlugin([7]), [DevState([0], [], 0)];
      var c := Conn([Used(0)], EncodeRequest(Call(0, 0, [], 0)) + EncodeRequest(Ping), [], -1);
      && Good(cfg, w, c) && EncodeReply(Returned([7])) <= Drain(cfg, w, c).conn.sent
      && AnswerCommand(Ping) != CMD_CALL_RET
  {
    hide Drain, EncodeRequest, EncodeReply, Callable, ValidConfig, ValidWorld, ValidTable;
    OnePluginIsValid([7]);
    VoidStubSlips(OnePlugin([7]), [DevState([0], [], 0)],
      Conn([Used(0)], EncodeRequest(Call(0, 0, [], 0)) + EncodeRequest(Ping), [], -1), 0, 0, [], Ping);
  }
}

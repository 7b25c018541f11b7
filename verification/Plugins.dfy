/**
 * Installing plugin functions (src/server/hwio_server.h) and the two ways to
 * call them: by name through a map, by id through a list
 * (src/server/hwio_server_remote_call.cpp).
 */
module Plugins {
  import opened Bytes
  import opened Handlers
  import opened Service
  import opened Wire

  datatype Install = Install(name: string, plugin: Plugin)

  /** plugins, plugins_fast and plugins_fast_names */
  datatype Registry = Registry(plugins: map<string, Plugin>, fast: seq<Plugin>, names: seq<string>)

  function Installed(installs: seq<Install>): Registry {
    if installs == [] then Registry(map[], [], [])
    else
      var last := installs[|installs| - 1];
      var r := Installed(installs[..|installs| - 1]);
      Registry(r.plugins[last.name := last.plugin], r.fast + [last.plugin], r.names + [last.name])
  }

  class PluginTable {
    var plugins: map<string, Plugin>
    var pluginsFast: seq<Plugin>
    var pluginsFastNames: seq<string>

    constructor ()
      ensures Contents() == Installed([])
    {
      plugins, pluginsFast, pluginsFastNames := map[], [], [];
    }

    function Contents(): Registry
      reads this
    {
      Registry(plugins, pluginsFast, pluginsFastNames)
    }

    method InstallPluginFn(name: string, plugin: Plugin, ghost before: seq<Install>)
      requires Contents() == Installed(before)
      modifies this
      ensures Contents() == Installed(before + [Install(name, plugin)])
    {
      plugins := plugins[name := plugin];
      pluginsFast := pluginsFast + [plugin];
      pluginsFastNames := pluginsFastNames + [name];
      assert (before + [Install(name, plugin)])[..|before|] == before;
    }
  }

  function NamesOf(installs: seq<Install>): (names: seq<string>)
    ensures |names| == |installs|
  {
    seq(|installs|, i requires 0 <= i < |installs| => installs[i].name)
  }

  /** Position of the last install of a name, or -1. */
  function LastOf(installs: seq<Install>, name: string): (i: int)
    ensures -1 <= i < |installs| && (i >= 0 ==> installs[i].name == name)
    ensures forall j :: i < j < |installs| ==> installs[j].name != name
  {
    if installs == [] then -1
    else if installs[|installs| - 1].name == name then |installs| - 1
    else LastOf(installs[..|installs| - 1], name)
  }

  /** The lists hold the installs in order; the map holds the last one of each name. */
  lemma {:induction false} InstalledHolds(installs: seq<Install>)
    ensures var r := Installed(installs);
      && r.names == NamesOf(installs) && |r.fast| == |installs|
      && (forall i :: 0 <= i < |installs| ==> r.fast[i] == installs[i].plugin)
      && (forall name :: name in r.plugins <==> LastOf(installs, name) >= 0)
      && (forall name :: name in r.plugins ==> r.plugins[name] == installs[LastOf(installs, name)].plugin)
  {
    if installs != [] {
      InstalledHolds(installs[..|installs| - 1]);
    }
  }

  predicate DistinctNames(installs: seq<Install>) {
    forall i, j :: 0 <= i < j < |installs| ==> installs[i].name != installs[j].name
  }

  /**
   * An id is found exactly for the names in the map. It selects the plugin
   * that the map has for the name exactly if the first and the last install of
   * the name are the same plugin.
   */
  lemma IndexesAgree(installs: seq<Install>, name: string)
    ensures var r := Installed(installs); var f := FunctionReply(r.names, name);
      && (f.found <==> name in r.plugins)
      && (!f.found ==> f.fn == NO_FUNCTION)
      && (f.found ==>
        && 0 <= f.fn < |r.fast| == |installs|
        && var last := LastOf(installs, name);
          last >= 0 && (r.fast[f.fn] == r.plugins[name] <==> installs[f.fn].plugin == installs[last].plugin))
  {
    InstalledHolds(installs);
    var i, last := IndexOf(NamesOf(installs), name), LastOf(installs, name);
    hide Installed, IndexOf, LastOf;
    if last >= 0 {
      assert NamesOf(installs)[last] == name;
    }
  }

  /** So with distinct names the two indexes always agree. */
  lemma DistinctNamesAgree(installs: seq<Install>, name: string)
    requires DistinctNames(installs)
    ensures var r := Installed(installs); var f := FunctionReply(r.names, name);
      && (f.found <==> name in r.plugins)
      && (f.found ==> 0 <= f.fn < |r.fast| && r.fast[f.fn] == r.plugins[name])
  {
    IndexesAgree(installs, name);
    InstalledHolds(installs);
    hide Installed, LastOf;
    var f := FunctionReply(Installed(installs).names, name);
    if f.found {
      assert installs[f.fn].name == name;
    }
  }

  /** A name installed twice with different plugins: by name the second one is called, by id the first. */
  lemma SecondInstallDisagrees(name: string, first: Plugin, second: Plugin)
    requires first != second
    ensures var r := Installed([Install(name, first), Install(name, second)]);
      FunctionReply(r.names, name) == FunctionId(true, 0) && r.fast[0] != r.plugins[name]
  {
    var installs := [Install(name, first), Install(name, second)];
    InstalledHolds(installs);
    hide Installed, IndexOf;
    assert NamesOf(installs)[0] == name;
    assert LastOf(installs, name) == 1;
  }

  /** Ids never change under later installs. */
  lemma {:induction false} IdsAreStable(installs: seq<Install>, more: seq<Install>, name: string)
    requires FunctionReply(Installed(installs).names, name).found
    ensures FunctionReply(Installed(installs + more).names, name) == FunctionReply(Installed(installs).names, name)
    ensures Installed(installs).fast <= Installed(installs + more).fast
    decreases |more|
  {
    InstalledHolds(installs);
    InstalledHolds(installs + more);
    hide Installed;
    var i := IndexOf(NamesOf(installs), name);
    assert forall j :: 0 <= j <= i ==> NamesOf(installs + more)[j] == NamesOf(installs)[j];
    IndexIs(NamesOf(installs + more), name, i);
  }

  // ---- both kinds of call ----

  /** A configuration whose plugins have been installed. */
  ghost predicate Uses(cfg: Config, installs: seq<Install>) {
    var r := Installed(installs);
    cfg.plugins == r.plugins && cfg.fast == r.fast && cfg.fastNames == r.names
  }

  /** The body of a named call that carries all its arguments. */
  function NamedBody(id: int, name: string, args: bytes): (b: bytes)
    requires 0 <= id < 0x1_0000 && FitsName(name)
    ensures |b| == CALL_SIZE + |args|
  {
    U16(id) + NameField(name) + args
  }

  /**
   * Calling a function by the id that was found for its name does and answers
   * the same as calling it by its name.
   */
  lemma CallsAgree(cfg: Config, w: World, t: Table, installs: seq<Install>, id: int, name: string, args: bytes)
    requires ValidConfig(cfg) && ValidWorld(cfg, w) && ValidTable(cfg, t)
    requires Uses(cfg, installs) && DistinctNames(installs)
    requires name in cfg.plugins && |args| == cfg.plugins[name].argsSize
    requires 0 <= id < 0x1_0000 && FitsName(name)
    ensures var f := FunctionReply(cfg.fastNames, name);
      && f.found && 0 <= f.fn < |cfg.fast|
      && HandleFastCall(cfg, w, t, CallBody(id, f.fn, args)) == HandleNamedCall(cfg, w, t, NamedBody(id, name, args))
  {
    DistinctNamesAgree(installs, name);
    var f := FunctionReply(cfg.fastNames, name);
    ReadNamed(id, name, args);
    ReadCall(id, f.fn, args);
    hide Installed, FunctionReply, NamedBody, CallBody, CString, Decode, FromU16, FromU32, Sub, DistinctNames;
    hide CallPlugin, Refuse, ValidTable, ValidWorld;
  }

  lemma ReadNamed(id: int, name: string, args: bytes)
    requires 0 <= id < 0x1_0000 && FitsName(name)
    ensures var b := NamedBody(id, name, args);
      FromU16(b[..2]) == id && Decode(CString(b[2..])) == name && Sub(b, CALL_SIZE, |args|) == args
  {
    hide U16, FromU16, NameField, CString, Decode;
    U16RoundTrip(id);
    NameFieldReadsBack(name, args);
    var b := NamedBody(id, name, args);
    assert b[..2] == U16(id) && b[2..] == NameField(name) + args;
    assert b[CALL_SIZE..CALL_SIZE + |args|] == args;
  }

  /** The answer to a lookup: found and the first index of the name, or not found and all bits set. */
  lemma LookupAnswer(cfg: Config, w: World, t: Table, id: int, name: string, i: nat)
    requires ValidConfig(cfg) && ValidWorld(cfg, w) && ValidTable(cfg, t)
    requires Encodable(FindFunction(id, name)) && id < |t|
    ensures var h := Handle(cfg, w, t, 17, Body(FindFunction(id, name)));
      && h.world == w && h.table == t && !h.disconnect
      && (i < |cfg.fastNames| && cfg.fastNames[i] == name && name !in cfg.fastNames[..i] ==>
          i < 0x1_0000_0000 && h.reply == [17, 5, 0, 1] + U32(i))
      && (name !in cfg.fastNames ==> h.reply == [17, 5, 0, 0, 255, 255, 255, 255])
  {
    hide Handle, ValidWorld, ValidTable, Body, U32, Encodable, FunctionReply, EncodeReply;
    FindAnswered(cfg, w, t, id, name);
    FirstIndexReply(cfg.fastNames, name, i);
    NoIndexReply(cfg.fastNames, name);
  }

  lemma FirstIndexReply(names: seq<string>, name: string, i: nat)
    requires |names| < 0x1_0000_0000
    ensures i < |names| && names[i] == name && name !in names[..i] ==>
      && i < 0x1_0000_0000 && FunctionReply(names, name) == FunctionId(true, i)
      && EncodeReply(FunctionId(true, i)) == [17, 5, 0, 1] + U32(i)
  {
    hide U32, EncodeReply;
    if i < |names| && names[i] == name && name !in names[..i] {
      assert forall j :: 0 <= j < i ==> names[..i][j] == names[j];
      IndexIs(names, name, i);
      FunctionBytes(true, i);
    }
  }

  lemma NoIndexReply(names: seq<string>, name: string)
    ensures name !in names ==>
      && FunctionReply(names, name) == FunctionId(false, NO_FUNCTION)
      && EncodeReply(FunctionId(false, NO_FUNCTION)) == [17, 5, 0, 0, 255, 255, 255, 255]
  {
    hide U32, EncodeReply;
    if name !in names {
      IndexIs(names, name, |names|);
      FunctionBytes(false, NO_FUNCTION);
      U32Bytes(NO_FUNCTION);
    }
  }

  lemma FindAnswered(cfg: Config, w: World, t: Table, id: int, name: string)
    requires ValidConfig(cfg) && ValidWorld(cfg, w) && ValidTable(cfg, t)
    requires Encodable(FindFunction(id, name)) && id < |t|
    ensures ReplyFits(FunctionReply(cfg.fastNames, name))
    ensures Handle(cfg, w, t, 17, Body(FindFunction(id, name))) ==
      Handled(w, t, EncodeReply(FunctionReply(cfg.fastNames, name)), false)
  {
    hide Handle, ValidWorld, ValidTable, Body, EncodeReply;
    HandleServes(cfg, w, t, FindFunction(id, name));
  }

  lemma FunctionBytes(found: bool, fn: int)
    requires 0 <= fn < 0x1_0000_0000
    ensures EncodeReply(FunctionId(found, fn)) == [17, 5, 0, if found then 1 else 0] + U32(fn)
  {
    hide U32;
  }

  // ---- the client's named call ----

  /** The stub for named calls sends all but the last byte of what a named call needs. */
  function StubBody(id: int, name: string, args: bytes): (b: bytes)
    requires 0 <= id < 0x1_0000 && FitsName(name)
    ensures |b| == CALL_SIZE - 1 + |args|
  {
    NamedBody(id, name, args)[..CALL_SIZE + |args| - 1]
  }

  /** The args_size bytes a handler reads from the arguments on, given what stands behind the frame. */
  function ArgsRead(body: bytes, behind: bytes, size: nat): (args: bytes)
    requires CALL_SIZE <= |body| + |behind|
    ensures |args| <= size
  {
    var all := (body + behind)[CALL_SIZE..];
    if |all| < size then all else all[..size]
  }

  /**
   * The server gets the arguments of a named call exactly if there are none or
   * the last byte happens to be the byte behind the frame.
   */
  lemma NamedCallIsShort(id: int, name: string, args: bytes, behind: bytes)
    requires 0 <= id < 0x1_0000 && FitsName(name) && behind != []
    ensures CALL_SIZE <= |StubBody(id, name, args)| + |behind|
    ensures ArgsRead(StubBody(id, name, args), behind, |args|) == args <==>
      args == [] || args[|args| - 1] == behind[0]
    ensures Sub(StubBody(id, name, args), CALL_SIZE, |args|) == ArgsRead(StubBody(id, name, args), [0], |args|)
  {
    hide U16, NameField;
    var body := StubBody(id, name, args);
    if args != [] {
      var n := |args| - 1;
      var all, whole := (body + behind)[CALL_SIZE..], NamedBody(id, name, args);
      assert whole[CALL_SIZE..] == args;
      assert forall i :: 0 <= i < n ==> all[i] == whole[CALL_SIZE..][i];
      assert all[n] == behind[0];
      assert forall i :: 0 <= i < n ==> all[..|args|][i] == args[i];
    }
  }

  /** The missing byte of a call without arguments is the last one of the name field, which only a long name needs. */
  lemma NamedCallName(id: int, name: string, args: bytes, behind: bytes)
    requires 0 <= id < 0x1_0000 && FitsName(name) && behind != []
    ensures Decode(CString((StubBody(id, name, args) + behind)[2..])) == name <==>
      |name| < MAX_NAME_LEN - 1 || args != [] || behind[0] == 0
  {
    hide U16, CString;
    var s, all := Encode(name), (StubBody(id, name, args) + behind)[2..];
    DecodeEncode(name);
    var body, field := NamedBody(id, name, args), NameField(name);
    assert body[2..2 + MAX_NAME_LEN] == field == s + Zeros(MAX_NAME_LEN - |s|);
    if |name| < MAX_NAME_LEN - 1 || args != [] {
      assert forall i :: 0 <= i <= |s| ==> all[i] == body[2..2 + MAX_NAME_LEN][i];
      assert all[..|s|] == s && all[|s|] == 0;
      CStringEndsAt(all, s);
    } else {
      assert all[..|s|] == body[2..2 + MAX_NAME_LEN][..|s|] && all[|s|] == behind[0];
      if behind[0] == 0 {
        CStringEndsAt(all, s);
      } else {
        assert |CString(all)| != |s|;
      }
    }
  }

  lemma CStringEndsAt(b: bytes, s: bytes)
    requires |s| < |b| && b[..|s|] == s && 0 !in s && b[|s|] == 0
    ensures CString(b) == s
  {
    hide CString;
    CStringOfTerminated(s, b[|s| + 1..]);
    assert b == s + [0] + b[|s| + 1..];
  }
}

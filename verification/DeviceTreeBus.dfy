/**
 * The device-tree bus object: the walker's methods on its stacks, and the bus
 * that collects and sorts what the walker finds
 * (src/bus/hwio_bus_devicetree.cpp).
 */
module DeviceTreeBus {
  import opened Bytes
  import opened CompSpec
  import opened DeviceTree
  import opened Properties
  import opened Search
  import opened TreeWalker
  import opened Version

  datatype Read = EndOfDir | Got(entry: Entry)

  /** What device_next gives: null, a device, or an exception of the parser of compatibility strings. */
  datatype NextDevice = NoMore | Next(device: Device) | Thrown(error: Error)

  /** The stacks after the top directory has been read up to pos. */
  function At(dirs: seq<Cursor>, pos: nat): (r: seq<Cursor>)
    requires dirs != []
    ensures |r| == |dirs| && Last(r) == Last(dirs).(pos := pos) && Init(r) == Init(dirs)
  {
    Init(dirs) + [Last(dirs).(pos := pos)]
  }

  lemma {:induction false} SlashedPrefix(frags: seq<string>, i: nat)
    requires i < |frags|
    ensures Slashed(frags[..i + 1]) == Slashed(frags[..i]) + frags[i] + "/"
    ensures |Slashed(frags[..i])| + |frags[i]| + 1 <= |Slashed(frags)|
    decreases |frags|
  {
    assert Init(frags[..i + 1]) == frags[..i];
    if i + 1 < |frags| {
      SlashedPrefix(Init(frags), i);
      assert Init(frags)[..i] == frags[..i];
    } else {
      assert frags[..i] == Init(frags);
    }
  }

  datatype Collected = Complete | Escaped(error: Error)

  function LoadedOf(devices: seq<Device>): (r: seq<Loaded>)
    ensures |r| == |devices|
  {
    seq(|devices|, i requires 0 <= i < |devices| => Loaded(devices[i]))
  }

  lemma LoadedNothing()
    ensures LoadedOf([]) == []
  {
  }

  lemma LoadedOneMore(devices: seq<Device>, d: Device)
    ensures LoadedOf(devices + [d]) == LoadedOf(devices) + [Loaded(d)]
  {
  }

  lemma FindsPrefix(a: seq<Event>, b: seq<Event>)
    requires a <= b
    ensures Finds(a) <= Finds(b)
  {
    FindsConcat(a, b[|a|..]);
    assert a + b[|a|..] == b;
  }

  function Positions(n: nat): (r: seq<nat>)
    ensures |r| == n
  {
    seq(n, i => i)
  }

  function Infos(devices: seq<Device>): (r: seq<DeviceInfo>)
    ensures |r| == |devices|
  {
    seq(|devices|, i requires 0 <= i < |devices| => DeviceInfo(devices[i].name, devices[i].specs))
  }

  /**
   * A search of the bus gives positions in its device list, ascending: those
   * of the devices one of whose specs agrees with a searched one, and, without
   * specs, whose name is searched for.
   */
  lemma TreeSearchIsExact(devices: seq<Device>, query: seq<Spec>, k: nat)
    ensures var found := Filter(Positions(|devices|), Infos(devices), query);
      && (k in found <==>
          && k < |devices|
          && if devices[k].specs != [] then AgreesWithSome(devices[k].specs, query)
             else devices[k].name != "" && exists i :: 0 <= i < |query| && query[i].name == devices[k].name)
      && Ascending(found)
  {
    hide Filter, AgreesWithSome;
    var all, infos := Positions(|devices|), Infos(devices);
    if k < |devices| {
      assert all[k] == k && infos[k] == DeviceInfo(devices[k].name, devices[k].specs);
      SearchIsExact(all, infos, query, k);
    } else {
      KnownMembers(Filter(all, infos, query), infos);
    }
    FilterAscends(all, infos, query);
  }

  predicate Ascending(s: seq<nat>) {
    forall i, j :: 0 <= i < j < |s| ==> s[i] < s[j]
  }

  lemma KnownMembers(found: seq<nat>, infos: seq<DeviceInfo>)
    requires Known(found, infos)
    ensures forall k :: k in found ==> k < |infos|
  {
  }

  lemma {:induction false} FilterAscends(devices: seq<nat>, infos: seq<DeviceInfo>, query: seq<Spec>)
    requires Known(devices, infos) && Ascending(devices)
    ensures Ascending(Filter(devices, infos, query))
    ensures forall d :: d in Filter(devices, infos, query) ==> d in devices
  {
    hide Found, Filter;
    if devices == [] {
      FilterNothing(infos, query);
    } else {
      var rest := devices[1..];
      FilterAscends(rest, infos, query);
      FilterStep(devices, infos, query);
      assert devices == [devices[0]] + rest;
      FirstIsLeast(devices);
      var found := Filter(rest, infos, query);
      assert forall i :: 0 <= i < |found| ==> found[i] in rest;
    }
  }

  lemma FirstIsLeast(devices: seq<nat>)
    requires Ascending(devices) && devices != []
    ensures forall d :: d in devices[1..] ==> devices[0] < d
  {
  }

  // ---- sorting ----

  /** devAddrCmp orders by base address. */
  predicate SortedByBase(devices: seq<Device>) {
    forall i, j :: 0 <= i < j < |devices| ==> devices[i].reg.base <= devices[j].reg.base
  }

  lemma NothingToSort()
    ensures SortedByBase([])
  {
  }

  /** Where a device goes in a sorted list. */
  function InsertAt(devices: seq<Device>, d: Device): (i: nat)
    requires SortedByBase(devices)
    ensures i <= |devices|
    ensures forall j :: 0 <= j < i ==> devices[j].reg.base <= d.reg.base
    ensures forall j :: i <= j < |devices| ==> d.reg.base < devices[j].reg.base
  {
    if devices == [] || devices[|devices| - 1].reg.base <= d.reg.base then |devices|
    else InsertAt(devices[..|devices| - 1], d)
  }

  function Inserted(devices: seq<Device>, d: Device): (r: seq<Device>)
    requires SortedByBase(devices)
    ensures SortedByBase(r) && multiset(r) == multiset(devices) + multiset{d}
  {
    var k := InsertAt(devices, d);
    InsertKeeps(devices, d, k);
    devices[..k] + [d] + devices[k..]
  }

  lemma InsertKeeps(devices: seq<Device>, d: Device, k: nat)
    requires SortedByBase(devices) && k <= |devices|
    requires forall j :: 0 <= j < k ==> devices[j].reg.base <= d.reg.base
    requires forall j :: k <= j < |devices| ==> d.reg.base < devices[j].reg.base
    ensures var r := devices[..k] + [d] + devices[k..];
      SortedByBase(r) && multiset(r) == multiset(devices) + multiset{d}
  {
    InsertSorts(devices, d, k);
    hide SortedByBase;
    assert devices == devices[..k] + devices[k..];
  }

  lemma InsertSorts(devices: seq<Device>, d: Device, k: nat)
    requires SortedByBase(devices) && k <= |devices|
    requires forall j :: 0 <= j < k ==> devices[j].reg.base <= d.reg.base
    requires forall j :: k <= j < |devices| ==> d.reg.base < devices[j].reg.base
    ensures SortedByBase(devices[..k] + [d] + devices[k..])
  {
    var r := devices[..k] + [d] + devices[k..];
    forall i, j | 0 <= i < j < |r|
      ensures r[i].reg.base <= r[j].reg.base
    {
      assert r[i] == if i < k then devices[i] else if i == k then d else devices[i - 1];
      assert r[j] == if j < k then devices[j] else if j == k then d else devices[j - 1];
    }
  }

  /** Some sort; of std::sort only its contract matters. */
  method SortByBase(devices: seq<Device>) returns (sorted: seq<Device>)
    ensures SortedByBase(sorted) && multiset(sorted) == multiset(devices)
  {
    hide SortedByBase, Inserted;
    sorted := [];
    assert SortedByBase(sorted) by { NothingToSort(); }
    for i := 0 to |devices|
      invariant SortedByBase(sorted) && multiset(sorted) == multiset(devices[..i])
    {
      assert devices[..i + 1] == devices[..i] + [devices[i]];
      sorted := Inserted(sorted, devices[i]);
    }
    assert devices[..|devices|] == devices;
  }

  method Copy(buffer: array<char>, at: nat, s: string)
    requires at + |s| <= buffer.Length
    modifies buffer
    ensures buffer[..at + |s|] == old(buffer[..at]) + s
  {
    for i := 0 to |s|
      invariant buffer[..at + i] == old(buffer[..at]) + s[..i]
    {
      buffer[at + i] := s[i];
    }
  }

  class HwioBusDevicetree {
    const rootPath: string
    const root: seq<Entry>
    var pathStack: seq<string>
    var dirStack: seq<Cursor>
    var topDirCheckedForDev: bool
    var allDevices: seq<Device>
    /** Everything the walk has done so far. */
    ghost var trace: seq<Event>

    /** The stacks describe an open directory of the tree. */
    ghost predicate Located()
      reads this
    {
      && ValidTree(root) && |pathStack| == |dirStack| > 0
      && InBounds(dirStack) && Chain(rootPath, root, pathStack, dirStack)
    }

    // ---- paths ----

    method FilePathFromStack(fname: string) returns (full: string)
      requires pathStack != []
      ensures full == FullPath(pathStack, fname)
    {
      hide Slashed;
      assert Slashed([]) == "" by { NoFragments(); }
      assert pathStack[..|pathStack|] == pathStack;
      var plen := 0;
      for i := 0 to |pathStack|
        invariant plen == |Slashed(pathStack[..i])|
      {
        SlashedPrefix(pathStack, i);
        plen := plen + |pathStack[i]| + 1;
      }
      var buffer := new char[plen + |fname| + 1](_ => '\0');
      var p := 0;
      for i := 0 to |pathStack|
        invariant p == |Slashed(pathStack[..i])| <= plen && buffer[..p] == Slashed(pathStack[..i])
      {
        SlashedPrefix(pathStack, i);
        Copy(buffer, p, pathStack[i]);
        p := p + |pathStack[i]| + 1;
        buffer[p - 1] := '/';
      }
      if fname != "" {
        Copy(buffer, p, fname);
        p := p + |fname|;
      } else {
        SlashedPrefix(pathStack, |pathStack| - 1);
        p := plen - 1;
        buffer[p] := '\0';
      }
      full := buffer[..p];
    }

    lemma NoFragments()
      ensures Slashed([]) == ""
    {
    }

    /** stat of a file of the top directory, by its path from the root. */
    method PathStat(fname: string) returns (node: Node)
      requires Located() && IsName(fname)
      ensures node == Lookup(Last(dirStack).entries, fname)
    {
      hide FullPath, Stat, Resolve, Chain, ValidTree, Lookup;
      ChainResolves(rootPath, root, pathStack, dirStack);
      var full := FilePathFromStack(fname);
      node := Stat(rootPath, root, full);
      StatOfStack(rootPath, root, pathStack, fname);
      ResolveOneMore(Dir(root), pathStack[1..], fname);
    }

    // ---- directories ----

    method RewindDir()
      requires dirStack != []
      modifies this`dirStack
      ensures dirStack == At(old(dirStack), 0)
    {
      dirStack := At(dirStack, 0);
    }

    method ReadDir() returns (r: Read)
      requires dirStack != [] && Last(dirStack).pos <= |Last(dirStack).entries|
      modifies this`dirStack
      ensures var top := old(Last(dirStack));
        if top.pos == |top.entries| then r == EndOfDir && dirStack == old(dirStack)
        else r == Got(top.entries[top.pos]) && dirStack == At(old(dirStack), top.pos + 1)
    {
      var top := Last(dirStack);
      if top.pos == |top.entries| {
        return EndOfDir;
      }
      r := Got(top.entries[top.pos]);
      dirStack := At(dirStack, top.pos + 1);
    }

    lemma ReadKeepsPlace(dirs: seq<Cursor>, pos: nat)
      requires dirs != [] && InBounds(dirs) && pos <= |Last(dirs).entries| && Chain(rootPath, root, pathStack, dirs)
      ensures InBounds(At(dirs, pos)) && Chain(rootPath, root, pathStack, At(dirs, pos))
    {
    }

    method DirHasFile(fname: string) returns (has: bool)
      requires Located() && IsName(fname)
      modifies this`dirStack
      ensures dirStack == At(old(dirStack), 0)
      ensures has <==> HasFile(Last(dirStack).entries, fname)
    {
      hide Chain, ValidTree, Lookup, InBounds, Resolve, HasFile, At;
      ghost var dirs, entries, k := dirStack, Last(dirStack).entries, 0;
      NoFileInNothing(entries, fname);
      AtEntry(dirs, 0);
      RewindDir();
      has := false;
      var d := ReadDir();
      AtTwice(dirs, 0, 1);
      while d.Got? && !has
        invariant k <= |entries| && dirStack == At(dirs, if d.Got? then k + 1 else k)
        invariant if d.Got? then k < |entries| && d.entry == entries[k] else k == |entries|
        invariant !HasFile(entries[..k], fname) && (has ==> HasFile(entries, fname))
        decreases |entries| - k, !has
      {
        FileStep(entries, fname, k);
        FileAt(entries, fname, k);
        has := ThisFile(d.entry, fname, dirs, k);
        if !has {
          k := k + 1;
          AtEntry(dirs, k);
          AtTwice(dirs, k, k + 1);
          d := ReadDir();
        }
      }
      AtTwice(dirs, if d.Got? then k + 1 else k, 0);
      WholeDirectory(entries, k);
      RewindDir();
    }

    /** The test in the loop, for the entry read last. */
    method ThisFile(entry: Entry, fname: string, ghost dirs: seq<Cursor>, ghost k: nat) returns (same: bool)
      requires dirs != [] && k < |Last(dirs).entries| && entry == Last(dirs).entries[k] && dirStack == At(dirs, k + 1)
      requires ValidTree(root) && |pathStack| == |dirs| && InBounds(dirs) && Chain(rootPath, root, pathStack, dirs)
      requires IsName(fname)
      ensures same == IsFile(entry, fname)
    {
      hide Chain, ValidTree, Lookup, InBounds, Resolve, At;
      same := false;
      if entry.name == fname {
        ChainResolves(rootPath, root, pathStack, dirs);
        ReadKeepsPlace(dirs, k + 1);
        AtEntry(dirs, k + 1);
        var node := PathStat(fname);
        ThisEntry(Last(dirs).entries, k);
        same := node.File?;
      }
    }

    lemma AtEntry(dirs: seq<Cursor>, k: nat)
      requires dirs != []
      ensures var at := At(dirs, k); |at| == |dirs| && Last(at).pos == k && Last(at).entries == Last(dirs).entries
    {
    }

    lemma AtTwice(dirs: seq<Cursor>, i: nat, k: nat)
      requires dirs != []
      ensures |At(dirs, i)| == |dirs| && At(At(dirs, i), k) == At(dirs, k)
    {
    }

    lemma NoFileInNothing(entries: seq<Entry>, fname: string)
      ensures !HasFile(entries[..0], fname)
    {
    }

    lemma FileStep(entries: seq<Entry>, fname: string, k: nat)
      requires k < |entries|
      ensures HasFile(entries[..k + 1], fname) <==> HasFile(entries[..k], fname) || IsFile(entries[k], fname)
    {
      var longer, shorter := entries[..k + 1], entries[..k];
      if IsFile(entries[k], fname) {
        assert longer[k] == entries[k];
      }
      if HasFile(shorter, fname) {
        var i :| 0 <= i < |shorter| && IsFile(shorter[i], fname);
        assert longer[i] == shorter[i];
      }
      if HasFile(longer, fname) {
        var i :| 0 <= i < |longer| && IsFile(longer[i], fname);
        assert i < k ==> shorter[i] == longer[i];
      }
    }

    lemma FileAt(entries: seq<Entry>, fname: string, k: nat)
      requires k < |entries|
      ensures IsFile(entries[k], fname) ==> HasFile(entries, fname)
    {
    }

    lemma WholeDirectory(entries: seq<Entry>, k: nat)
      ensures k == |entries| ==> entries[..k] == entries
    {
    }

    // ---- devices ----

    /** One entry of the loop of dev_from_dir. */
    lemma LoadStep(name: string, entries: seq<Entry>, k: nat, reg: Reg, specs: seq<Spec>)
      requires k < |entries|
      ensures var e, rest := entries[k], entries[k + 1..];
        Load(name, entries[k..], reg, specs) ==
        if e.node.File? && e.name == "reg" then
          if RegOf(e.node.content).WrongSize? then NoDevice else Load(name, rest, RegOf(e.node.content).reg, specs)
        else if e.node.File? && e.name == "compatible" then
          var s := SpecsOf(Split(e.node.content));
          if s.Err? then Raised(s.error) else Load(name, rest, reg, specs + s.value)
        else Load(name, rest, reg, specs)
    {
      hide RegOf, SpecsOf, Split;
      assert entries[k..][1..] == entries[k + 1..];
    }

    lemma LoadEnd(name: string, entries: seq<Entry>, reg: Reg, specs: seq<Spec>)
      ensures Load(name, entries[|entries|..], reg, specs) == Loaded(Device(name, reg, Renamed(specs, name)))
      ensures entries[0..] == entries
    {
    }

    method ParseSpecs(strings: seq<bytes>) returns (p: Parsed<seq<Spec>>)
      ensures p == SpecsOf(strings)
    {
      hide Parse;
      var specs := [];
      for i := 0 to |strings|
        invariant SpecsOf(strings[..i]) == Ok(specs)
      {
        var r := Parse(Decode(strings[i]));
        SpecsPrefix(strings, i);
        if r.Err? {
          SpecsFail(strings, i + 1);
          return Err(r.error);
        }
        specs := specs + [r.value];
      }
      assert strings[..|strings|] == strings;
      p := Ok(specs);
    }

    lemma SpecsPrefix(strings: seq<bytes>, i: nat)
      requires i < |strings| && SpecsOf(strings[..i]).Ok?
      ensures SpecsOf(strings[..i + 1]) ==
        match Parse(Decode(strings[i]))
        case Err(e) => Err(e)
        case Ok(s) => Ok(SpecsOf(strings[..i]).value + [s])
    {
      hide Parse;
      assert strings[..i + 1][..i] == strings[..i];
    }

    /** The first exception is the one that escapes. */
    lemma {:induction false} SpecsFail(strings: seq<bytes>, i: nat)
      requires i <= |strings| && SpecsOf(strings[..i]).Err?
      ensures SpecsOf(strings) == SpecsOf(strings[..i])
      decreases |strings| - i
    {
      hide Parse;
      if i == |strings| {
        assert strings[..i] == strings;
      } else {
        assert strings[..i + 1][..i] == strings[..i];
        SpecsFail(strings, i + 1);
      }
    }

    /** One file of the directory: base and size, specs, or the end of the attempt. */
    method UseFile(e: Entry, reg: Reg, specs: seq<Spec>, ghost name: string, ghost entries: seq<Entry>, ghost k: nat)
      returns (stop: bool, r: Loaded, newReg: Reg, newSpecs: seq<Spec>)
      requires k < |entries| && entries[k] == e
      ensures Load(name, entries[k..], reg, specs) == if stop then r else Load(name, entries[k + 1..], newReg, newSpecs)
      ensures stop ==> !r.Loaded?
    {
      hide Load, RegOf, SpecsOf, Split;
      LoadStep(name, entries, k, reg, specs);
      stop, r, newReg, newSpecs := false, NoDevice, reg, specs;
      if e.node.File? && e.name == "reg" {
        var parsed := DevParseReg(e.node.content);
        if parsed.WrongSize? {
          stop := true;
        } else {
          newReg := parsed.reg;
        }
      } else if e.node.File? && e.name == "compatible" {
        var strings := DevParseCompat(e.node.content);
        var parsed := ParseSpecs(strings);
        if parsed.Err? {
          stop, r := true, Raised(parsed.error);
        } else {
          newSpecs := specs + parsed.value;
        }
      }
    }

    method DevFromDir() returns (r: Loaded)
      requires Located() && |pathStack| > 1
      modifies this`dirStack
      ensures r == Load(Last(pathStack), Last(old(dirStack)).entries, Reg(0, 0), [])
      ensures !r.Raised? ==> dirStack == At(old(dirStack), 0)
    {
      hide Chain, ValidTree, Lookup, InBounds, Resolve, Load, Renamed;
      ghost var dirs, entries := dirStack, Last(dirStack).entries;
      ChainResolves(rootPath, root, pathStack, dirs);
      var name, reg, specs := Last(pathStack), Reg(0, 0), [];
      LoadEnd(name, entries, reg, specs);
      RewindDir();
      var d := ReadDir();
      while d.Got?
        invariant dirStack != [] && dirStack == At(dirs, Last(dirStack).pos) && Last(dirStack).pos <= |entries|
        invariant d.EndOfDir? ==> Last(dirStack).pos == |entries|
        invariant d.Got? ==> Last(dirStack).pos > 0 && d.entry == entries[Last(dirStack).pos - 1]
        invariant Load(name, entries, Reg(0, 0), []) ==
          Load(name, entries[Last(dirStack).pos - (if d.Got? then 1 else 0)..], reg, specs)
        decreases |entries| - Last(dirStack).pos, d.Got?
      {
        ghost var pos := Last(dirStack).pos;
        ReadKeepsPlace(dirs, pos);
        ThisEntry(entries, pos - 1);
        var node := PathStat(d.entry.name);
        var stop;
        stop, r, reg, specs := UseFile(Entry(d.entry.name, node), reg, specs, name, entries, pos - 1);
        if stop {
          if r.NoDevice? {
            RewindDir();
          }
          return;
        }
        d := ReadDir();
      }
      LoadEnd(name, entries, reg, specs);
      RewindDir();
      r := Loaded(Device(name, reg, Renamed(specs, name)));
    }

    // ---- the walk ----

    /** The part of the walk that has been done and the part that has not make up the whole. */
    ghost predicate Valid()
      reads this`pathStack, this`dirStack, this`topDirCheckedForDev, this`trace
    {
      && ValidTree(root) && !HasFile(root, "reg")
      && |pathStack| == |dirStack| && InBounds(dirStack) && Chain(rootPath, root, pathStack, dirStack)
      && (!topDirCheckedForDev ==> dirStack != [] && Last(dirStack).pos == 0)
      && trace + Remaining(pathStack, dirStack, topDirCheckedForDev) == Walk([rootPath], root)
    }

    /** The directory whose name has just been put on the path stack is opened by its path. */
    method OpendirOnStack()
      requires |pathStack| == |dirStack| + 1 && dirStack != [] && ValidTree(root)
      requires Chain(rootPath, root, Init(pathStack), dirStack)
      requires var top := Last(dirStack);
        && 0 < top.pos <= |top.entries|
        && top.entries[top.pos - 1].name == Last(pathStack) && top.entries[top.pos - 1].node.Dir?
      modifies this`dirStack
      ensures var top := old(Last(dirStack));
        dirStack == old(dirStack) + [Cursor(top.entries[top.pos - 1].node.entries, 0)]
    {
      hide FullPath, Stat, Resolve, Chain, ValidTree, Lookup;
      var full := FilePathFromStack("");
      ghost var top, paths := Last(dirStack), Init(pathStack);
      ChainResolves(rootPath, root, paths, dirStack);
      ThisEntry(top.entries, top.pos - 1);
      ResolveOneMore(Dir(root), paths[1..], Last(pathStack));
      assert pathStack == paths + [Last(pathStack)];
      assert pathStack[1..] == paths[1..] + [Last(pathStack)];
      StatOfStack(rootPath, root, pathStack, "");
      var dir := Stat(rootPath, root, full);
      dirStack := dirStack + [Cursor(dir.entries, 0)];
    }

    /** The loop of go_next_dir over the entries that have not been read. */
    method NextSubdirectory() returns (d: Read, ghost k: nat)
      requires Located()
      modifies this`dirStack
      ensures var top := old(Last(dirStack));
        match d
        case EndOfDir =>
          dirStack == At(old(dirStack), |top.entries|) && NoSubdirectory(top.entries, top.pos, |top.entries|)
        case Got(e) => IsNext(top, k) && e == top.entries[k] && dirStack == At(old(dirStack), k + 1)
    {
      hide Chain, ValidTree, Lookup, InBounds, Resolve, At, NoSubdirectory;
      ghost var dirs, top := dirStack, Last(dirStack);
      assert NoSubdirectory(top.entries, top.pos, top.pos) by { TopInBounds(dirs); NoneSkipped(top.entries, top.pos); }
      assert At(dirs, top.pos) == dirs by { StayAt(dirs); }
      assert top.pos <= |top.entries| by { TopInBounds(dirs); }
      ChainResolves(rootPath, root, pathStack, dirs);
      var isDir := false;
      d := ReadDir();
      while d.Got? && !isDir
        invariant dirStack != []
        invariant dirStack == At(dirs, Last(dirStack).pos) && top.pos <= Last(dirStack).pos <= |top.entries|
        invariant d.EndOfDir? ==> Last(dirStack).pos == |top.entries|
        invariant d.Got? ==> Last(dirStack).pos > top.pos && d.entry == top.entries[Last(dirStack).pos - 1]
        invariant NoSubdirectory(top.entries, top.pos, Last(dirStack).pos - (if d.Got? then 1 else 0))
        invariant isDir ==> d.Got? && IsSubdirectory(d.entry)
        decreases |top.entries| - Last(dirStack).pos, d.Got?, !isDir
      {
        ghost var pos := Last(dirStack).pos;
        if !Dots(d.entry.name) {
          ReadKeepsPlace(dirs, pos);
          ThisEntry(top.entries, pos - 1);
          var node := PathStat(d.entry.name);
          isDir := node.Dir?;
        }
        if !isDir {
          OneMoreSkipped(top.entries, top.pos, pos - 1);
          d := ReadDir();
        }
      }
      k := if d.Got? then Last(dirStack).pos - 1 else 0;
    }

    lemma NoneSkipped(entries: seq<Entry>, k: nat)
      requires k <= |entries|
      ensures NoSubdirectory(entries, k, k)
    {
    }

    lemma OneMoreSkipped(entries: seq<Entry>, from: nat, k: nat)
      requires from <= k < |entries| && NoSubdirectory(entries, from, k) && !IsSubdirectory(entries[k])
      ensures NoSubdirectory(entries, from, k + 1)
    {
    }

    lemma StayAt(dirs: seq<Cursor>)
      requires dirs != []
      ensures At(dirs, Last(dirs).pos) == dirs
    {
    }

    lemma TopInBounds(dirs: seq<Cursor>)
      requires dirs != [] && InBounds(dirs)
      ensures Last(dirs).pos <= |Last(dirs).entries|
    {
    }

    method GoNextDir() returns (found: bool, ghost k: nat)
      requires Located()
      modifies this`dirStack, this`pathStack, this`topDirCheckedForDev
      ensures var top := old(Last(dirStack));
        if found then
          && !topDirCheckedForDev
          && IsNext(top, k) && pathStack == old(pathStack) + [top.entries[k].name]
          && dirStack == Deeper(old(dirStack), k)
        else
          && pathStack == old(pathStack) && topDirCheckedForDev == old(topDirCheckedForDev)
          && dirStack == At(old(dirStack), |top.entries|)
          && NoSubdirectory(top.entries, top.pos, |top.entries|)
    {
      hide Chain, ValidTree, InBounds;
      ghost var dirs, top := dirStack, Last(dirStack);
      var d;
      d, k := NextSubdirectory();
      found := d.Got?;
      if found {
        ReadKeepsPlace(dirs, k + 1);
        topDirCheckedForDev := false;
        assert Init(pathStack + [d.entry.name]) == pathStack;
        pathStack := pathStack + [d.entry.name];
        OpendirOnStack();
        assert dirStack == Deeper(dirs, k);
      }
    }

    /** Going down keeps the stacks in order, and there is less to do. */
    lemma DescendKeeps(paths: seq<string>, dirs: seq<Cursor>, k: nat)
      requires |paths| == |dirs| > 0 && InBounds(dirs) && Chain(rootPath, root, paths, dirs) && IsNext(Last(dirs), k)
      ensures var sub, deeper := paths + [Last(dirs).entries[k].name], Deeper(dirs, k);
        && InBounds(deeper) && Chain(rootPath, root, sub, deeper) && Last(deeper).pos == 0
        && Work(deeper, false) < Work(dirs, true)
    {
      hide Work;
      DeeperIsLess(dirs, k);
      var sub, deeper := paths + [Last(dirs).entries[k].name], Deeper(dirs, k);
      assert Init(sub) == paths && Init(deeper) == At(dirs, k + 1);
      assert Chain(rootPath, root, paths, At(dirs, k + 1));
    }

    /** So does coming back. */
    lemma AscendKeeps(paths: seq<string>, dirs: seq<Cursor>)
      requires |paths| == |dirs| > 0 && InBounds(dirs) && Chain(rootPath, root, paths, dirs)
      ensures InBounds(Init(dirs)) && Chain(rootPath, root, Init(paths), Init(dirs))
      ensures Work(Init(dirs), true) < Work(dirs, true) < Work(dirs, false)
    {
      hide Cost;
    }

    function FoundBy(r: NextDevice): seq<Loaded> {
      match r
      case NoMore => []
      case Next(d) => [Loaded(d)]
      case Thrown(e) => [Raised(e)]
    }

    /** Checking the top directory, once per directory. */
    method CheckTop() returns (loaded: Loaded)
      requires Valid() && !topDirCheckedForDev
      modifies this`dirStack, this`topDirCheckedForDev, this`trace
      ensures topDirCheckedForDev && trace == old(trace) + [Visited(loaded)]
      ensures !loaded.Raised? ==> Valid() && dirStack == old(dirStack)
      ensures trace <= Walk([rootPath], root)
    {
      hide Chain, ValidTree, InBounds, Load, Unwind, Walk;
      ghost var paths, dirs := pathStack, dirStack;
      assert At(dirs, 0) == dirs;
      RootHasNone(paths, dirs);
      topDirCheckedForDev := true;
      var has := DirHasFile("reg");
      loaded := NoDevice;
      if has {
        loaded := DevFromDir();
        if !loaded.Raised? {
          RewindDir();
        }
      }
      assert loaded == LoadDir(Last(paths), Last(dirs).entries);
      trace := trace + [Visited(loaded)];
      assert trace + Unwind(paths, dirs) == old(trace) + ([Visited(loaded)] + Unwind(paths, dirs));
    }

    /** The root is never a device. */
    lemma RootHasNone(paths: seq<string>, dirs: seq<Cursor>)
      requires !HasFile(root, "reg") && Chain(rootPath, root, paths, dirs) && dirs != []
      ensures HasFile(Last(dirs).entries, "reg") ==> |paths| > 1
    {
    }

    /** The next device: recursive, as in the original. */
    method DeviceNext() returns (r: NextDevice)
      requires Valid()
      modifies this`dirStack, this`pathStack, this`topDirCheckedForDev, this`trace
      ensures !r.Thrown? ==> Valid()
      ensures r.NoMore? ==> dirStack == []
      ensures old(trace) <= trace <= Walk([rootPath], root) && (r.Next? ==> old(trace) < trace)
      ensures Finds(trace) == Finds(old(trace)) + FoundBy(r)
      decreases Work(dirStack, topDirCheckedForDev)
    {
      hide Chain, ValidTree, InBounds, Remaining, Walk, Work, HasFile;
      ghost var paths, dirs, before := pathStack, dirStack, trace;
      assert Walk([rootPath], root) == trace + Remaining(paths, dirs, topDirCheckedForDev);
      if |dirStack| == 0 {
        return NoMore;
      }
      if !topDirCheckedForDev {
        AscendKeeps(paths, dirs);
        var loaded := CheckTop();
        FindsOne(Visited(loaded));
        FindsConcat(before, [Visited(loaded)]);
        if loaded.Loaded? {
          return Next(loaded.device);
        }
        if loaded.Raised? {
          return Thrown(loaded.error);
        }
        r := DeviceNext();
      } else {
        StepWalk();
        r := DeviceNext();
      }
    }

    /** Into the next subdirectory, or back to the parent. */
    method StepWalk()
      requires Valid() && topDirCheckedForDev && dirStack != []
      modifies this`dirStack, this`pathStack, this`topDirCheckedForDev, this`trace
      ensures Valid() && old(trace) <= trace && Finds(trace) == Finds(old(trace))
      ensures Work(dirStack, topDirCheckedForDev) < Work(old(dirStack), true)
    {
      hide Chain, ValidTree, InBounds, Remaining, Walk, Work, HasFile, Finds;
      ghost var paths, dirs, before := pathStack, dirStack, trace;
      var found, k := GoNextDir();
      ghost var e;
      if found {
        DescendKeeps(paths, dirs, k);
        Descend(paths, dirs, k);
        e := Opened(pathStack);
      } else {
        AscendKeeps(paths, dirs);
        Ascend(paths, dirs);
        dirStack := Init(dirStack);
        pathStack := Init(pathStack);
        e := Closed(paths);
      }
      trace := trace + [e];
      FindsOne(e);
      FindsConcat(before, [e]);
      assert trace + Remaining(pathStack, dirStack, topDirCheckedForDev) ==
        before + ([e] + Remaining(pathStack, dirStack, topDirCheckedForDev));
    }

    // ---- the bus ----

    constructor (rootPath: string, root: seq<Entry>)
      requires ValidTree(root) && !HasFile(root, "reg")
      ensures Valid() && this.rootPath == rootPath && this.root == root && allDevices == [] && Finds(trace) == []
      ensures trace < Walk([rootPath], root)
    {
      hide ValidTree, HasFile;
      this.rootPath, this.root := rootPath, root;
      pathStack, dirStack, topDirCheckedForDev := [rootPath], [Cursor(root, 0)], false;
      allDevices, trace := [], [Opened([rootPath])];
      new;
      FindsOne(Opened([rootPath]));
      hide Finds, Walk, WalkBelow;
      assert root[0..] == root;
      RootRemains(pathStack, dirStack);
    }

    lemma RootRemains(paths: seq<string>, dirs: seq<Cursor>)
      requires paths == [rootPath] && dirs == [Cursor(root, 0)]
      ensures InBounds(dirs) && [Opened(paths)] + Remaining(paths, dirs, false) == Walk(paths, root)
    {
      assert root[0..] == root && Init(paths) == [] && Init(dirs) == [];
      var rest := WalkBelow(paths, root) + [Closed(paths)];
      hide WalkBelow, LoadDir;
      assert Unwind(paths, dirs) == rest;
      assert [Opened(paths)] + ([Visited(LoadDir(Last(paths), root))] + rest) == Walk(paths, root);
    }

    /** The loop of the constructor: the devices as they are found. */
    method CollectAll() returns (last: NextDevice)
      requires Valid() && allDevices == [] && Finds(trace) == []
      modifies this
      ensures !last.Next? && trace <= Walk([rootPath], root)
      ensures last.NoMore? ==> Valid() && dirStack == []
      ensures Finds(trace) == LoadedOf(allDevices) + FoundBy(last)
    {
      hide Walk, Finds, Valid, LoadedOf;
      assert LoadedOf([]) == [] by { LoadedNothing(); }
      last := DeviceNext();
      while last.Next?
        invariant !last.Thrown? ==> Valid()
        invariant last.NoMore? ==> dirStack == []
        invariant trace <= Walk([rootPath], root) && Finds(trace) == LoadedOf(allDevices) + FoundBy(last)
        decreases |Walk([rootPath], root)| - |trace|, last.Next?
      {
        LoadedOneMore(allDevices, last.device);
        allDevices := allDevices + [last.device];
        last := DeviceNext();
      }
    }

    /**
     * What the constructor makes of the tree: all its devices, in the order of
     * their base addresses; or the exception that the first unparsable
     * compatibility string raises.
     */
    method CollectDevices() returns (r: Collected)
      requires Valid() && allDevices == [] && Finds(trace) == []
      modifies this
      ensures match r
        case Complete =>
          && dirStack == [] && pathStack == [] && trace == Walk([rootPath], root)
          && SortedByBase(allDevices)
          && exists found: seq<Device> ::
            LoadedOf(found) == Preorder(rootPath, root) && multiset(allDevices) == multiset(found)
        case Escaped(e) => LoadedOf(allDevices) + [Raised(e)] <= Preorder(rootPath, root)
    {
      hide Walk, Finds, Preorder, ValidTree, HasFile, Chain, InBounds, Remaining, LoadedOf, SortedByBase;
      WalkFindsPreorder([rootPath], root);
      var last := CollectAll();
      FindsPrefix(trace, Walk([rootPath], root));
      if last.Thrown? {
        return Escaped(last.error);
      }
      ghost var found := allDevices;
      NothingRemains();
      assert LoadedOf(found) + [] == LoadedOf(found) && trace + [] == trace;
      allDevices := SortByBase(allDevices);
      assert LoadedOf(found) == Preorder(rootPath, root);
      r := Complete;
    }

    lemma NothingRemains()
      ensures InBounds([]) && Remaining([], [], true) == [] && Remaining([], [], false) == []
    {
    }

    /** find_devices: the bus hands out positions in its device list. */
    method FindDevices(query: seq<Spec>) returns (devices: seq<nat>)
      ensures devices == Filter(Positions(|allDevices|), Infos(allDevices), query)
    {
      devices := FilterDevices(Positions(|allDevices|), Infos(allDevices), query);
    }

    lemma ThisEntry(entries: seq<Entry>, i: nat)
      requires ValidTree(entries) && i < |entries|
      ensures Lookup(entries, entries[i].name) == entries[i].node && IsName(entries[i].name)
    {
      ChildFound(entries, i);
    }
  }
}

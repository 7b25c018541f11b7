/**
 * Device trees as directories, and what a walk over one does: which devices
 * it finds, in which order directories are opened and closed
 * (src/bus/hwio_bus_devicetree.cpp).
 */
module DeviceTree {
  import opened Bytes
  import opened CompSpec
  import opened Properties
  import opened Search
  import opened Version

  /** An entry of a directory with what stat tells about it. */
  datatype Node = File(content: bytes) | Dir(entries: seq<Entry>) | Other
  datatype Entry = Entry(name: string, node: Node)

  datatype Device = Device(name: string, reg: Reg, specs: seq<Spec>)

  /** . and .. are directories, but not of this tree. */
  predicate Dots(name: string) {
    name == "." || name == ".."
  }

  predicate IsSubdirectory(e: Entry) {
    e.node.Dir? && !Dots(e.name)
  }

  // ---- one directory ----

  datatype Loaded = NoDevice | Loaded(device: Device) | Raised(error: Error)

  /** The specs of a compatible property, unless the parser throws. */
  function SpecsOf(strings: seq<bytes>): Parsed<seq<Spec>> {
    if strings == [] then Ok([])
    else
      match SpecsOf(strings[..|strings| - 1])
      case Err(e) => Err(e)
      case Ok(specs) =>
        match Parse(Decode(strings[|strings| - 1]))
        case Err(e) => Err(e)
        case Ok(s) => Ok(specs + [s])
  }

  /** hwio_device_mmap::name */
  function Renamed(specs: seq<Spec>, name: string): (r: seq<Spec>)
    ensures |r| == |specs|
  {
    seq(|specs|, i requires 0 <= i < |specs| => specs[i].(name := name))
  }

  /** The loop of dev_from_dir over the entries not yet read. */
  function Load(name: string, entries: seq<Entry>, reg: Reg, specs: seq<Spec>): Loaded
    decreases |entries|
  {
    if entries == [] then Loaded(Device(name, reg, Renamed(specs, name)))
    else
      var e, rest := entries[0], entries[1..];
      if e.node.File? && e.name == "reg" then
        match RegOf(e.node.content)
        case WrongSize => NoDevice
        case Good(r) => Load(name, rest, r, specs)
      else if e.node.File? && e.name == "compatible" then
        match SpecsOf(Split(e.node.content))
        case Err(error) => Raised(error)
        case Ok(more) => Load(name, rest, reg, specs + more)
      else Load(name, rest, reg, specs)
  }

  predicate IsFile(e: Entry, fname: string) {
    e.name == fname && e.node.File?
  }

  predicate HasFile(entries: seq<Entry>, fname: string) {
    exists i :: 0 <= i < |entries| && IsFile(entries[i], fname)
  }

  function LoadDir(name: string, entries: seq<Entry>): Loaded {
    if HasFile(entries, "reg") then Load(name, entries, Reg(0, 0), []) else NoDevice
  }

  // ---- the whole tree ----

  /** The simple form: this directory's device, then those of its subdirectories in order. */
  function Preorder(name: string, entries: seq<Entry>): seq<Loaded>
    decreases entries, 1
  {
    (if LoadDir(name, entries).NoDevice? then [] else [LoadDir(name, entries)]) + PreorderBelow(entries)
  }

  function PreorderBelow(entries: seq<Entry>): seq<Loaded>
    decreases entries, 0
  {
    if entries == [] then []
    else
      (if IsSubdirectory(entries[0]) then Preorder(entries[0].name, entries[0].node.entries) else [])
      + PreorderBelow(entries[1..])
  }

  /** What a walk does; a path is the list of names from the root. */
  datatype Event =
    | Opened(path: seq<string>)
    | Closed(path: seq<string>)
    | Visited(loaded: Loaded)

  function Last<T>(s: seq<T>): T
    requires s != []
  {
    s[|s| - 1]
  }

  function Init<T>(s: seq<T>): seq<T>
    requires s != []
  {
    s[..|s| - 1]
  }

  function Walk(path: seq<string>, entries: seq<Entry>): seq<Event>
    requires path != []
    decreases entries, 1
  {
    [Opened(path), Visited(LoadDir(Last(path), entries))] + WalkBelow(path, entries) + [Closed(path)]
  }

  function WalkBelow(path: seq<string>, entries: seq<Entry>): seq<Event>
    requires path != []
    decreases entries, 0
  {
    if entries == [] then []
    else
      (if IsSubdirectory(entries[0]) then Walk(path + [entries[0].name], entries[0].node.entries) else [])
      + WalkBelow(path, entries[1..])
  }

  /** The devices and exceptions of a walk, in order. */
  function Finds(events: seq<Event>): seq<Loaded> {
    if events == [] then []
    else
      Finds(Init(events))
      + if Last(events).Visited? && !Last(events).loaded.NoDevice? then [Last(events).loaded] else []
  }

  lemma {:induction false} FindsConcat(a: seq<Event>, b: seq<Event>)
    ensures Finds(a + b) == Finds(a) + Finds(b)
    decreases |b|
  {
    if b == [] {
      assert a + b == a;
    } else {
      FindsConcat(a, Init(b));
      assert Init(a + b) == a + Init(b) && Last(a + b) == Last(b);
    }
  }

  lemma FindsOne(e: Event)
    ensures Finds([e]) == if e.Visited? && !e.loaded.NoDevice? then [e.loaded] else []
  {
    assert Init([e]) == [];
  }

  /** A walk finds the devices in preorder. */
  lemma {:induction false} WalkFindsPreorder(path: seq<string>, entries: seq<Entry>)
    requires path != []
    ensures Finds(Walk(path, entries)) == Preorder(Last(path), entries)
    decreases entries, 1
  {
    hide LoadDir, WalkBelow, PreorderBelow, Finds;
    var start, visit, end := Opened(path), Visited(LoadDir(Last(path), entries)), Closed(path);
    WalkBelowFindsPreorder(path, entries);
    FindsOne(start);
    FindsOne(visit);
    FindsOne(end);
    FindsConcat([start], [visit]);
    FindsConcat([start] + [visit], WalkBelow(path, entries));
    FindsConcat([start] + [visit] + WalkBelow(path, entries), [end]);
    assert Walk(path, entries) == [start] + [visit] + WalkBelow(path, entries) + [end];
  }

  lemma {:induction false} WalkBelowFindsPreorder(path: seq<string>, entries: seq<Entry>)
    requires path != []
    ensures Finds(WalkBelow(path, entries)) == PreorderBelow(entries)
    decreases entries, 0
  {
    hide Walk, Preorder;
    if entries != [] {
      WalkBelowFindsPreorder(path, entries[1..]);
      if IsSubdirectory(entries[0]) {
        var sub := path + [entries[0].name];
        WalkFindsPreorder(sub, entries[0].node.entries);
        FindsConcat(Walk(sub, entries[0].node.entries), WalkBelow(path, entries[1..]));
      } else {
        FindsConcat([], WalkBelow(path, entries[1..]));
      }
    }
  }

  /** The entries . and .. of a directory are not walked. */
  lemma DotsAreSkipped(entries: seq<Entry>)
    ensures PreorderBelow([Entry(".", Dir(entries))]) == [] && PreorderBelow([Entry("..", Dir(entries))]) == []
  {
    FirstListed([Entry(".", Dir(entries))]);
    FirstListed([Entry("..", Dir(entries))]);
    hide PreorderBelow;
    NothingListed();
  }

  /** The device of a directory comes before those below it. */
  lemma DirectoryFirst(name: string, entries: seq<Entry>)
    requires !LoadDir(name, entries).NoDevice?
    ensures Preorder(name, entries) == [LoadDir(name, entries)] + PreorderBelow(entries)
  {
    hide LoadDir, PreorderBelow;
  }

  /** And what is below the entries listed first comes before what is below the others. */
  lemma {:induction false} ListedFirst(a: seq<Entry>, b: seq<Entry>)
    ensures PreorderBelow(a + b) == PreorderBelow(a) + PreorderBelow(b)
    decreases |a|
  {
    hide PreorderBelow;
    if a == [] {
      NothingListed();
      assert a + b == b;
    } else {
      ListedFirst(a[1..], b);
      FirstListed(a);
      FirstListed(a + b);
      assert (a + b)[0] == a[0] && (a + b)[1..] == a[1..] + b;
    }
  }

  lemma NothingListed()
    ensures PreorderBelow([]) == []
  {
  }

  lemma FirstListed(entries: seq<Entry>)
    requires entries != []
    ensures PreorderBelow(entries) ==
      (if IsSubdirectory(entries[0]) then Preorder(entries[0].name, entries[0].node.entries) else [])
      + PreorderBelow(entries[1..])
  {
    hide Preorder;
  }

  // ---- names and paths ----

  predicate UniqueNames(entries: seq<Entry>) {
    forall i, j :: 0 <= i < j < |entries| ==> entries[i].name != entries[j].name
  }

  /** A file name is not empty and has no slash. */
  predicate IsName(name: string) {
    name != "" && '/' !in name
  }

  /** What a file system guarantees of a directory and everything below it. */
  predicate ValidTree(entries: seq<Entry>)
    decreases entries
  {
    && UniqueNames(entries)
    && forall i :: 0 <= i < |entries| ==>
      IsName(entries[i].name) && (entries[i].node.Dir? ==> ValidTree(entries[i].node.entries))
  }

  function Lookup(entries: seq<Entry>, name: string): Node {
    if entries == [] then Other
    else if entries[0].name == name then entries[0].node
    else Lookup(entries[1..], name)
  }

  lemma {:induction false} LookupAbsent(entries: seq<Entry>, name: string)
    requires forall i :: 0 <= i < |entries| ==> entries[i].name != name
    ensures Lookup(entries, name) == Other
  {
    if entries != [] {
      LookupAbsent(entries[1..], name);
    }
  }

  lemma {:induction false} LookupPresent(entries: seq<Entry>, i: nat)
    requires UniqueNames(entries) && i < |entries|
    ensures Lookup(entries, entries[i].name) == entries[i].node
  {
    if i > 0 {
      LookupPresent(entries[1..], i - 1);
    }
  }

  /** The directory chain a relative path names, without . and .. */
  predicate DirAt(entries: seq<Entry>, rel: seq<string>)
    decreases |rel|
  {
    rel == [] ||
    var node := Lookup(entries, rel[0]);
    !Dots(rel[0]) && node.Dir? && DirAt(node.entries, rel[1..])
  }

  // ---- every directory is opened and closed once ----

  predicate Opens(e: Event, path: seq<string>) {
    e == Opened(path) || e == Closed(path)
  }

  /**
   * A walk opens and closes every directory of the tree exactly once, and
   * nothing else.
   */
  lemma {:induction false} OpensOnce(path: seq<string>, entries: seq<Entry>, p: seq<string>, e: Event)
    requires path != [] && ValidTree(entries) && Opens(e, p)
    ensures multiset(Walk(path, entries))[e] == if path <= p && DirAt(entries, p[|path|..]) then 1 else 0
    decreases entries, 1
  {
    hide LoadDir, DirAt;
    OpensOnceBelow(path, entries, p, e);
    RootIsDir(entries);
    hide WalkBelow, ValidTree;
    var first, last := [Opened(path), Visited(LoadDir(Last(path), entries))], [Closed(path)];
    assert Walk(path, entries) == first + WalkBelow(path, entries) + last;
    assert multiset(first) == multiset{Opened(path), Visited(LoadDir(Last(path), entries))};
    if path == p {
      assert p[|path|..] == [];
    }
  }

  lemma RootIsDir(entries: seq<Entry>)
    ensures DirAt(entries, [])
  {
  }

  /** Below a directory: the paths that go on from it. */
  lemma {:induction false} OpensOnceBelow(path: seq<string>, entries: seq<Entry>, p: seq<string>, e: Event)
    requires path != [] && ValidTree(entries) && Opens(e, p)
    ensures multiset(WalkBelow(path, entries))[e] == if path < p && DirAt(entries, p[|path|..]) then 1 else 0
    decreases entries, 0
  {
    hide Walk, WalkBelow, DirAt, Lookup, ValidTree, UniqueNames;
    WalkBelowStep(path, entries);
    if entries == [] {
      NothingBelow(p, |path|);
    } else {
      var head, rest := entries[0], entries[1..];
      SubtreesValid(entries);
      OpensOnceBelow(path, rest, p, e);
      if IsSubdirectory(head) {
        OpensOnce(path + [head.name], head.node.entries, p, e);
      }
      if path < p {
        DirAtStep(entries, p[|path|..]);
        PrefixStep(path, head.name, p);
        assert p[|path| + 1..] == p[|path|..][1..];
      }
    }
  }

  lemma SubtreesValid(entries: seq<Entry>)
    requires ValidTree(entries) && entries != []
    ensures UniqueNames(entries) && ValidTree(entries[1..])
    ensures entries[0].node.Dir? ==> ValidTree(entries[0].node.entries)
  {
  }

  /** What the first entry adds to a walk. */
  lemma WalkBelowStep(path: seq<string>, entries: seq<Entry>)
    requires path != []
    ensures entries == [] ==> WalkBelow(path, entries) == []
    ensures entries != [] ==>
      var first := if IsSubdirectory(entries[0]) then Walk(path + [entries[0].name], entries[0].node.entries) else [];
      WalkBelow(path, entries) == first + WalkBelow(path, entries[1..])
  {
    hide Walk;
  }

  lemma PrefixStep(path: seq<string>, name: string, p: seq<string>)
    requires path < p
    ensures path + [name] <= p <==> name == p[|path|]
  {
    if name == p[|path|] {
      assert p[..|path| + 1] == path + [name];
    }
  }

  lemma NothingBelow(p: seq<string>, n: nat)
    ensures n < |p| ==> !DirAt([], p[n..])
  {
  }

  /** The first entry decides if it has the name, else the others do. */
  lemma DirAtStep(entries: seq<Entry>, rel: seq<string>)
    requires entries != [] && rel != [] && UniqueNames(entries)
    ensures var e, rest := entries[0], entries[1..];
      && (e.name == rel[0] ==>
          !DirAt(rest, rel) && (DirAt(entries, rel) <==> IsSubdirectory(e) && DirAt(e.node.entries, rel[1..])))
      && (e.name != rel[0] ==> (DirAt(entries, rel) <==> DirAt(rest, rel)))
  {
    if entries[0].name == rel[0] {
      LookupAbsent(entries[1..], rel[0]);
    }
  }

  // ---- what a directory yields ----

  function CompatibleSpecs(node: Node): Parsed<seq<Spec>> {
    if node.File? then SpecsOf(Split(node.content)) else Ok([])
  }

  function RegOr(node: Node, reg: Reg): ParsedReg {
    if node.File? then RegOf(node.content) else Good(reg)
  }

  /** Where a name is listed in a directory, or the end. */
  function Position(entries: seq<Entry>, name: string): (i: nat)
    ensures i <= |entries|
  {
    if entries == [] || entries[0].name == name then 0 else Position(entries[1..], name) + 1
  }

  /** What the two properties give together; which is read first matters only if neither is good. */
  function Combined(name: string, reg: ParsedReg, compatible: Parsed<seq<Spec>>, regFirst: bool, specs: seq<Spec>)
    : Loaded
  {
    match (reg, compatible)
    case (Good(r), Ok(more)) => Loaded(Device(name, r, Renamed(specs + more, name)))
    case (Good(_), Err(error)) => Raised(error)
    case (WrongSize, Ok(_)) => NoDevice
    case (WrongSize, Err(error)) => if regFirst then NoDevice else Raised(error)
  }

  lemma {:induction false} LoadMeans(name: string, entries: seq<Entry>, reg: Reg, specs: seq<Spec>)
    requires UniqueNames(entries)
    ensures Load(name, entries, reg, specs) ==
      Combined(name, RegOr(Lookup(entries, "reg"), reg), CompatibleSpecs(Lookup(entries, "compatible")),
               Position(entries, "reg") < Position(entries, "compatible"), specs)
    decreases |entries|
  {
    hide SpecsOf, RegOf, Split, Renamed;
    if entries == [] {
      assert specs + [] == specs;
    } else {
      var e, rest := entries[0], entries[1..];
      if e.name == "reg" || e.name == "compatible" {
        LookupAbsent(rest, e.name);
      }
      assert "reg" != "compatible" by { assert |"reg"| != |"compatible"|; }
      if e.node.File? && e.name == "reg" {
        if RegOf(e.node.content).Good? {
          LoadMeans(name, rest, RegOf(e.node.content).reg, specs);
        }
      } else if e.node.File? && e.name == "compatible" {
        var more := SpecsOf(Split(e.node.content));
        if more.Ok? {
          LoadMeans(name, rest, reg, specs + more.value);
          assert specs + more.value + [] == specs + more.value;
        }
      } else {
        LoadMeans(name, rest, reg, specs);
      }
    }
  }

  lemma {:induction false} HasFileMeans(entries: seq<Entry>, fname: string)
    requires UniqueNames(entries)
    ensures HasFile(entries, fname) <==> Lookup(entries, fname).File?
  {
    if HasFile(entries, fname) {
      var i :| 0 <= i < |entries| && IsFile(entries[i], fname);
      LookupPresent(entries, i);
    } else {
      LookupNotFile(entries, fname);
    }
  }

  lemma {:induction false} LookupNotFile(entries: seq<Entry>, name: string)
    requires !HasFile(entries, name)
    ensures !Lookup(entries, name).File?
  {
    if entries != [] {
      assert !IsFile(entries[0], name);
      assert !HasFile(entries[1..], name) by {
        var rest := entries[1..];
        forall i | 0 <= i < |rest|
          ensures !IsFile(rest[i], name)
        {
          assert rest[i] == entries[i + 1];
        }
      }
      LookupNotFile(entries[1..], name);
    }
  }

  /**
   * A directory is a device exactly if it has a reg file of eight bytes and
   * its compatible property, if there is one, can be parsed; base and size are
   * the big-endian cells, the specs are those of the compatible property under
   * the directory's name. The parser's exception ends the walk, unless the
   * directory has no reg file, or one of another size that is listed before
   * the compatible property.
   */
  lemma DirectoryYields(name: string, entries: seq<Entry>)
    requires UniqueNames(entries)
    ensures var reg, compatible := Lookup(entries, "reg"), CompatibleSpecs(Lookup(entries, "compatible"));
      var wholeReg := reg.File? && |reg.content| == 8;
      LoadDir(name, entries) ==
      if wholeReg && compatible.Ok? then
        Loaded(Device(name, Reg(BigEndian(reg.content[..4]), BigEndian(reg.content[4..])),
                      Renamed(compatible.value, name)))
      else if compatible.Err? && reg.File?
        && (wholeReg || Position(entries, "compatible") <= Position(entries, "reg"))
      then
        Raised(compatible.error)
      else NoDevice
  {
    hide Load, HasFile, CompatibleSpecs, Renamed, Lookup, BigEndian, Position;
    HasFileMeans(entries, "reg");
    LoadMeans(name, entries, Reg(0, 0), []);
    var compatible := CompatibleSpecs(Lookup(entries, "compatible"));
    if compatible.Ok? {
      assert [] + compatible.value == compatible.value;
    }
  }

  /** All strings of a property can be parsed. */
  predicate AllParse(strings: seq<bytes>) {
    forall i :: 0 <= i < |strings| ==> Parse(Decode(strings[i])).Ok?
  }

  /** The k-th string is the first one that cannot, and this is its exception. */
  predicate FailsAt(strings: seq<bytes>, k: int, error: Error) {
    0 <= k < |strings| && Parse(Decode(strings[k])) == Err(error) && AllParse(strings[..k])
  }

  /** One spec for each string, in order. */
  predicate ParsedInOrder(strings: seq<bytes>, specs: seq<Spec>) {
    |specs| == |strings| && forall i :: 0 <= i < |strings| ==> Parse(Decode(strings[i])) == Ok(specs[i])
  }

  lemma {:induction false} SpecsAreParsed(strings: seq<bytes>)
    ensures SpecsOf(strings).Ok? ==> ParsedInOrder(strings, SpecsOf(strings).value)
    ensures SpecsOf(strings).Err? ==> exists k :: FailsAt(strings, k, SpecsOf(strings).error)
  {
    hide Parse, Decode, ParsedInOrder, FailsAt;
    if strings == [] {
      assert ParsedInOrder([], []) by { NothingParsed(); }
    } else {
      var n := |strings| - 1;
      var init := SpecsOf(strings[..n]);
      SpecsAreParsed(strings[..n]);
      if init.Err? {
        var k :| FailsAt(strings[..n], k, init.error);
        FailsLater(strings, n, k, init.error);
      } else {
        OneMoreString(strings, init.value);
        var last := Parse(Decode(strings[n]));
        assert last.Err? ==> FailsAt(strings, n, last.error);
      }
    }
  }

  lemma NothingParsed()
    ensures ParsedInOrder([], [])
  {
  }

  lemma FailsLater(strings: seq<bytes>, n: nat, k: int, error: Error)
    requires n <= |strings| && FailsAt(strings[..n], k, error)
    ensures FailsAt(strings, k, error)
  {
    hide Parse, Decode;
    assert strings[..n][..k] == strings[..k];
  }

  lemma OneMoreString(strings: seq<bytes>, specs: seq<Spec>)
    requires strings != [] && ParsedInOrder(strings[..|strings| - 1], specs)
    ensures match Parse(Decode(strings[|strings| - 1]))
      case Ok(s) => ParsedInOrder(strings, specs + [s])
      case Err(error) => FailsAt(strings, |strings| - 1, error)
  {
    hide Parse, Decode;
    var n := |strings| - 1;
    assert forall i :: 0 <= i < n ==> strings[..n][i] == strings[i];
  }

  /** Strings that all parse do not fail anywhere. */
  lemma FailsOrParses(strings: seq<bytes>, specs: seq<Spec>, error: Error)
    ensures ParsedInOrder(strings, specs) ==> AllParse(strings)
    ensures (exists k :: FailsAt(strings, k, error)) ==> !AllParse(strings)
  {
    hide Parse, Decode;
  }

  /** The i-th spec is what the i-th string says, under the directory's name. */
  predicate NamedInOrder(strings: seq<bytes>, specs: seq<Spec>, name: string) {
    |specs| == |strings| &&
    forall i :: 0 <= i < |strings| ==>
      var p := Parse(Decode(strings[i]));
      p.Ok? && specs[i] == p.value.(name := name)
  }

  lemma RenamedInOrder(strings: seq<bytes>, specs: seq<Spec>, name: string)
    requires ParsedInOrder(strings, specs)
    ensures NamedInOrder(strings, Renamed(specs, name), name)
  {
    hide Parse, Decode;
  }

  /**
   * The specs of a device: one for each string of its compatible property, in
   * order, with the directory's name; and if a string cannot be parsed, the
   * exception is that of the first such string.
   */
  lemma DeviceSpecs(name: string, entries: seq<Entry>)
    requires UniqueNames(entries)
    requires Lookup(entries, "reg").File? && |Lookup(entries, "reg").content| == 8
    requires Lookup(entries, "compatible").File?
    ensures var strings, r := Split(Lookup(entries, "compatible").content), LoadDir(name, entries);
      && (AllParse(strings) ==> r.Loaded? && NamedInOrder(strings, r.device.specs, name))
      && (!AllParse(strings) ==> r.Raised? && exists k :: FailsAt(strings, k, r.error))
  {
    hide LoadDir, Lookup, SpecsOf, Split, AllParse, FailsAt, ParsedInOrder, NamedInOrder, Renamed;
    hide BigEndian, Position;
    DirectoryYields(name, entries);
    var strings := Split(Lookup(entries, "compatible").content);
    SpecsAreParsed(strings);
    match SpecsOf(strings)
    case Ok(specs) =>
      FailsOrParses(strings, specs, WrongFormat);
      RenamedInOrder(strings, specs, name);
    case Err(error) => FailsOrParses(strings, [], error);
  }

  /** Without the property there are no specs, so the device is found by its name only. */
  lemma NoCompatible(name: string, entries: seq<Entry>)
    requires UniqueNames(entries)
    requires Lookup(entries, "reg").File? && |Lookup(entries, "reg").content| == 8
    requires !Lookup(entries, "compatible").File?
    ensures var r := LoadDir(name, entries); r.Loaded? && r.device.specs == []
  {
    hide LoadDir, Lookup, BigEndian, Position;
    DirectoryYields(name, entries);
  }

  lemma {:induction false} LoadNames(name: string, entries: seq<Entry>, reg: Reg, specs: seq<Spec>)
    ensures var r := Load(name, entries, reg, specs);
      r.Loaded? ==> r.device.name == name && forall j :: 0 <= j < |r.device.specs| ==> r.device.specs[j].name == name
    decreases |entries|
  {
    hide SpecsOf, RegOf, Split;
    if entries != [] {
      var e, rest := entries[0], entries[1..];
      if e.node.File? && e.name == "reg" {
        if RegOf(e.node.content).Good? {
          LoadNames(name, rest, RegOf(e.node.content).reg, specs);
        }
      } else if e.node.File? && e.name == "compatible" {
        if SpecsOf(Split(e.node.content)).Ok? {
          LoadNames(name, rest, reg, specs + SpecsOf(Split(e.node.content)).value);
        }
      } else {
        LoadNames(name, rest, reg, specs);
      }
    }
  }

  /** A device of the tree is found by the name of its directory, and by no other name. */
  lemma FoundByDirectoryName(name: string, entries: seq<Entry>, searched: Spec)
    requires name != "" && LoadDir(name, entries).Loaded? && searched.name != ""
    ensures var d := LoadDir(name, entries).device;
      Found(DeviceInfo(d.name, d.specs), [searched]) <==> searched.name == name
  {
    hide Load, Found;
    LoadNames(name, entries, Reg(0, 0), []);
    var d := LoadDir(name, entries).device;
    NameSearchIsExact(DeviceInfo(d.name, d.specs), name, searched);
  }
}

/**
 * Device search by specification (src/bus/ihwio_bus.h). A device reference is
 * an index into the list of all devices.
 */
module Search {
  import opened CompSpec
  import opened Version

  /** What a bus knows about a device: its name and its compatibility list. */
  datatype DeviceInfo = DeviceInfo(name: string, specs: seq<Spec>)

  predicate FoundByName(info: DeviceInfo, query: seq<Spec>) {
    info.name != "" && exists i :: 0 <= i < |query| && query[i].name != "" && query[i].name == info.name
  }

  predicate Compatible(specs: seq<Spec>, s: Spec) {
    exists j :: 0 <= j < |specs| && specs[j].Matches(s)
  }

  predicate FoundBySpec(info: DeviceInfo, query: seq<Spec>) {
    exists i :: 0 <= i < |query| && Compatible(info.specs, query[i])
  }

  /** A device without compatibility strings can only be found by its name. */
  predicate Found(info: DeviceInfo, query: seq<Spec>) {
    if info.specs == [] then FoundByName(info, query) else FoundBySpec(info, query)
  }

  predicate Known(devices: seq<nat>, infos: seq<DeviceInfo>) {
    forall i :: 0 <= i < |devices| ==> devices[i] < |infos|
  }

  /** The matching devices, once per occurrence, in order. */
  function Filter(devices: seq<nat>, infos: seq<DeviceInfo>, query: seq<Spec>): (r: seq<nat>)
    requires Known(devices, infos)
    ensures |r| <= |devices| && Known(r, infos)
  {
    if devices == [] then []
    else (if Found(infos[devices[0]], query) then [devices[0]] else []) + Filter(devices[1..], infos, query)
  }

  predicate Subsequence<T(==)>(a: seq<T>, b: seq<T>) {
    if a == [] then true
    else if b == [] then false
    else if a[0] == b[0] then Subsequence(a[1..], b[1..])
    else Subsequence(a, b[1..])
  }

  lemma {:induction false} FilterConcat(a: seq<nat>, b: seq<nat>, infos: seq<DeviceInfo>, query: seq<Spec>)
    requires Known(a, infos) && Known(b, infos)
    ensures Filter(a + b, infos, query) == Filter(a, infos, query) + Filter(b, infos, query)
  {
    hide Found, Filter;
    assert Known(a + b, infos);
    if a == [] {
      FilterNothing(infos, query);
      assert a + b == b;
    } else {
      FilterConcat(a[1..], b, infos, query);
      FilterStep(a, infos, query);
      FilterStep(a + b, infos, query);
      assert (a + b)[1..] == a[1..] + b;
    }
  }

  lemma FilterNothing(infos: seq<DeviceInfo>, query: seq<Spec>)
    ensures Filter([], infos, query) == []
  {
  }

  lemma FilterStep(a: seq<nat>, infos: seq<DeviceInfo>, query: seq<Spec>)
    requires Known(a, infos) && a != []
    ensures Filter(a, infos, query) == (if Found(infos[a[0]], query) then [a[0]] else []) + Filter(a[1..], infos, query)
  {
    hide Found;
  }

  /** Every occurrence of a matching device is kept, every other one is dropped. */
  lemma {:induction false} FilterCounts(devices: seq<nat>, infos: seq<DeviceInfo>, query: seq<Spec>, d: nat)
    requires Known(devices, infos) && d < |infos|
    ensures multiset(Filter(devices, infos, query))[d] == if Found(infos[d], query) then multiset(devices)[d] else 0
  {
    if devices != [] {
      hide Found;
      FilterCounts(devices[1..], infos, query, d);
      assert devices == [devices[0]] + devices[1..];
    }
  }

  /** A query that finds at least the same devices gives a supersequence: nothing is lost and the order stays. */
  lemma {:induction false} FilterMonotone(devices: seq<nat>, infos: seq<DeviceInfo>, query: seq<Spec>, wider: seq<Spec>)
    requires Known(devices, infos)
    requires forall d :: 0 <= d < |infos| && Found(infos[d], query) ==> Found(infos[d], wider)
    ensures Subsequence(Filter(devices, infos, query), Filter(devices, infos, wider))
  {
    if devices != [] {
      FilterMonotone(devices[1..], infos, query, wider);
      hide Found;
      var small, large := Filter(devices[1..], infos, query), Filter(devices[1..], infos, wider);
      if Found(infos[devices[0]], query) {
        assert ([devices[0]] + small)[1..] == small && ([devices[0]] + large)[1..] == large;
      } else {
        assert [] + small == small;
        if Found(infos[devices[0]], wider) {
          SubsequenceOfLonger(small, devices[0], large);
        } else {
          assert [] + large == large;
        }
      }
    }
  }

  lemma {:induction false} SubsequenceOfLonger(a: seq<nat>, x: nat, b: seq<nat>)
    requires Subsequence(a, b)
    ensures Subsequence(a, [x] + b)
    decreases |b|, 1
  {
    assert ([x] + b)[1..] == b;
    if a != [] && a[0] == x {
      SubsequenceTail(a, b);
    }
  }

  lemma {:induction false} SubsequenceTail(a: seq<nat>, b: seq<nat>)
    requires a != [] && Subsequence(a, b)
    ensures Subsequence(a[1..], b)
    decreases |b|, 0
  {
    if a[0] == b[0] {
      SubsequenceOfLonger(a[1..], b[0], b[1..]);
      assert [b[0]] + b[1..] == b;
    } else {
      SubsequenceTail(a, b[1..]);
      SubsequenceOfLonger(a[1..], b[0], b[1..]);
      assert [b[0]] + b[1..] == b;
    }
  }

  /** Each spec of `query` is kept, or replaced by a more general one, somewhere in `wider`. */
  predicate Wider(query: seq<Spec>, wider: seq<Spec>) {
    forall i :: 0 <= i < |query| ==> HasGeneral(query[i], wider)
  }

  predicate HasGeneral(s: Spec, wider: seq<Spec>) {
    exists k :: 0 <= k < |wider| && wider[k].Generalizes(s)
  }

  /** Adding specs, or blanking fields of specs while keeping names, never drops a device. */
  lemma SearchIsMonotone(devices: seq<nat>, infos: seq<DeviceInfo>, query: seq<Spec>, wider: seq<Spec>)
    requires Known(devices, infos) && Wider(query, wider)
    ensures Subsequence(Filter(devices, infos, query), Filter(devices, infos, wider))
  {
    forall d | 0 <= d < |infos| && Found(infos[d], query)
      ensures Found(infos[d], wider)
    {
      FoundByWider(infos[d], query, wider);
    }
    FilterMonotone(devices, infos, query, wider);
  }

  lemma FoundByWider(info: DeviceInfo, query: seq<Spec>, wider: seq<Spec>)
    requires Wider(query, wider) && Found(info, query)
    ensures Found(info, wider)
  {
    if info.specs == [] {
      var i :| 0 <= i < |query| && query[i].name != "" && query[i].name == info.name;
      assert HasGeneral(query[i], wider);
    } else {
      var i :| 0 <= i < |query| && Compatible(info.specs, query[i]);
      var j :| 0 <= j < |info.specs| && info.specs[j].Matches(query[i]);
      assert HasGeneral(query[i], wider);
      var k :| 0 <= k < |wider| && wider[k].Generalizes(query[i]);
      MatchingIsMonotone(info.specs[j], query[i], wider[k]);
      assert Compatible(info.specs, wider[k]);
    }
  }

  /** hwio_device_mmap::name sets the name of the device and of each of its specs. */
  predicate Named(info: DeviceInfo, name: string) {
    info.name == name && forall j :: 0 <= j < |info.specs| ==> info.specs[j].name == name
  }

  /** A search for a name finds exactly the devices that were given it. */
  lemma NameSearchIsExact(info: DeviceInfo, own: string, searched: Spec)
    requires Named(info, own) && own != "" && searched.name != ""
    ensures Found(info, [searched]) <==> own == searched.name
  {
    var query := [searched];
    assert query[0] == searched;
    if own == searched.name {
      if info.specs != [] {
        assert info.specs[0].Matches(searched);
        assert Compatible(info.specs, query[0]);
      }
    }
  }

  // ---- exactly what is found ----

  predicate SameOrBlank(a: string, b: string) {
    a == "" || b == "" || a == b
  }

  /** The components that are searched for are the device's. */
  predicate HasVersion(device: Version, searched: Version) {
    && searched.major in {NA, device.major}
    && searched.minor in {NA, device.minor}
    && searched.subminor in {NA, device.subminor}
  }

  /** Two names decide alone; else vendor, type and version must fit, as far as both sides give them. */
  predicate Agree(device: Spec, searched: Spec) {
    if device.name != "" && searched.name != "" then device.name == searched.name
    else
      && SameOrBlank(device.vendor, searched.vendor) && SameOrBlank(device.typ, searched.typ)
      && HasVersion(device.version, searched.version)
  }

  predicate AgreesWithSome(specs: seq<Spec>, query: seq<Spec>) {
    exists i, j :: 0 <= i < |query| && 0 <= j < |specs| && Agree(specs[j], query[i])
  }

  lemma MatchesMeans(device: Spec, searched: Spec)
    ensures device.Matches(searched) <==> Agree(device, searched)
  {
  }

  lemma FoundMeans(info: DeviceInfo, query: seq<Spec>)
    requires info.specs != []
    ensures Found(info, query) <==> AgreesWithSome(info.specs, query)
  {
    hide Agree;
    forall i, j | 0 <= i < |query| && 0 <= j < |info.specs|
      ensures info.specs[j].Matches(query[i]) <==> Agree(info.specs[j], query[i])
    {
      MatchesMeans(info.specs[j], query[i]);
    }
    if FoundBySpec(info, query) {
      var i :| 0 <= i < |query| && Compatible(info.specs, query[i]);
      var j :| 0 <= j < |info.specs| && info.specs[j].Matches(query[i]);
      assert Agree(info.specs[j], query[i]);
    }
    if AgreesWithSome(info.specs, query) {
      var i, j :| 0 <= i < |query| && 0 <= j < |info.specs| && Agree(info.specs[j], query[i]);
      assert Compatible(info.specs, query[i]);
    }
  }

  lemma {:induction false} FilterMembers(devices: seq<nat>, infos: seq<DeviceInfo>, query: seq<Spec>, d: nat)
    requires Known(devices, infos) && d < |infos|
    ensures d in Filter(devices, infos, query) <==> d in devices && Found(infos[d], query)
  {
    hide Found;
    if devices != [] {
      FilterMembers(devices[1..], infos, query, d);
      assert devices == [devices[0]] + devices[1..];
    }
  }

  /**
   * A search gives exactly: of the devices with compatibility specs, those one
   * of whose specs agrees with a searched one; of those without, the ones whose
   * name is searched for.
   */
  lemma SearchIsExact(devices: seq<nat>, infos: seq<DeviceInfo>, query: seq<Spec>, d: nat)
    requires Known(devices, infos) && d < |infos|
    ensures var info := infos[d];
      d in Filter(devices, infos, query) <==>
        && d in devices
        && if info.specs != [] then AgreesWithSome(info.specs, query)
           else info.name != "" && exists i :: 0 <= i < |query| && query[i].name == info.name
  {
    hide Filter, AgreesWithSome, Found;
    FilterMembers(devices, infos, query, d);
    var info := infos[d];
    if info.specs != [] {
      FoundMeans(info, query);
    } else {
      NamelessFound(info, query);
    }
  }

  lemma NamelessFound(info: DeviceInfo, query: seq<Spec>)
    requires info.specs == []
    ensures Found(info, query) <==> info.name != "" && exists i :: 0 <= i < |query| && query[i].name == info.name
  {
  }

  predicate Clash(a: string, b: string) {
    a != "" && b != "" && a != b
  }

  predicate Lacks(component: int, searched: int) {
    searched != NA && searched != component
  }

  /** A query without names never finds a device of another vendor, of another type or of another version. */
  lemma OthersAreNotFound(devices: seq<nat>, infos: seq<DeviceInfo>, query: seq<Spec>, d: nat)
    requires Known(devices, infos) && d < |infos| && infos[d].specs != []
    requires forall i :: 0 <= i < |query| ==> query[i].name == ""
    ensures (forall i, j :: 0 <= i < |query| && 0 <= j < |infos[d].specs| ==>
               Clash(infos[d].specs[j].vendor, query[i].vendor)) ==> d !in Filter(devices, infos, query)
    ensures (forall i, j :: 0 <= i < |query| && 0 <= j < |infos[d].specs| ==>
               Clash(infos[d].specs[j].typ, query[i].typ)) ==> d !in Filter(devices, infos, query)
    ensures (forall i, j :: 0 <= i < |query| && 0 <= j < |infos[d].specs| ==>
               Lacks(infos[d].specs[j].version.major, query[i].version.major)) ==> d !in Filter(devices, infos, query)
    ensures (forall i, j :: 0 <= i < |query| && 0 <= j < |infos[d].specs| ==>
               Lacks(infos[d].specs[j].version.minor, query[i].version.minor)) ==> d !in Filter(devices, infos, query)
    ensures (forall i, j :: 0 <= i < |query| && 0 <= j < |infos[d].specs| ==>
               Lacks(infos[d].specs[j].version.subminor, query[i].version.subminor)) ==>
            d !in Filter(devices, infos, query)
  {
    hide Filter, Found;
    SearchIsExact(devices, infos, query, d);
  }

  /** A device of one vendor is not found under another, whatever else agrees. */
  lemma OtherVendorExample()
    ensures var infos := [DeviceInfo("", [Spec("", "uprobe", "dispather", Version(1, 0, 97))])];
      && Filter([0], infos, [Spec("", "altr", "dispather", Version(1, 0, 97))]) == []
      && Filter([0], infos, [Spec("", "uprobe", "", Version(1, NA, NA))]) == [0]
  {
    assert "uprobe"[0] != "altr"[0];
    assert [0][1..] == [];
    var spec := Spec("", "uprobe", "dispather", Version(1, 0, 97));
    var infos, general := [DeviceInfo("", [spec])], Spec("", "uprobe", "", Version(1, NA, NA));
    assert Agree(infos[0].specs[0], [general][0]);
    FoundMeans(infos[0], [general]);
    FoundMeans(infos[0], [Spec("", "altr", "dispather", Version(1, 0, 97))]);
  }

  method FindByName(info: DeviceInfo, query: seq<Spec>) returns (found: bool)
    ensures found <==> FoundByName(info, query)
  {
    found := false;
    if info.name != "" {
      for i := 0 to |query|
        invariant !found
        invariant forall k :: 0 <= k < i ==> !(query[k].name != "" && query[k].name == info.name)
      {
        if query[i].name != "" && info.name == query[i].name {
          found := true;
          break;
        }
      }
    }
  }

  /** The nested loops over the query and the compatibility list, with the flag that ends both. */
  method FindBySpec(info: DeviceInfo, query: seq<Spec>) returns (matched: bool)
    ensures matched <==> FoundBySpec(info, query)
  {
    matched := false;
    for i := 0 to |query|
      invariant !matched
      invariant forall k :: 0 <= k < i ==> !Compatible(info.specs, query[k])
    {
      for j := 0 to |info.specs|
        invariant !matched
        invariant forall k :: 0 <= k < j ==> !info.specs[k].Matches(query[i])
      {
        if info.specs[j].Matches(query[i]) {
          matched := true;
          break;
        }
      }
      if matched {
        assert Compatible(info.specs, query[i]);
        break;
      }
    }
  }

  /** filter_device_by_spec */
  method FilterDevices(devices: seq<nat>, infos: seq<DeviceInfo>, query: seq<Spec>) returns (res: seq<nat>)
    requires Known(devices, infos)
    ensures res == Filter(devices, infos, query)
  {
    res := [];
    for i := 0 to |devices|
      invariant res == Filter(devices[..i], infos, query)
    {
      var info := infos[devices[i]];
      var found;
      if info.specs == [] {
        found := FindByName(info, query);
      } else {
        found := FindBySpec(info, query);
      }
      if found {
        res := res + [devices[i]];
      }
      FilterConcat(devices[..i], devices[i..i + 1], infos, query);
      FilterOne(devices[i], infos, query);
      assert devices[i..i + 1] == [devices[i]];
      assert devices[..i] + devices[i..i + 1] == devices[..i + 1];
    }
    assert devices[..|devices|] == devices;
  }

  lemma FilterOne(d: nat, infos: seq<DeviceInfo>, query: seq<Spec>)
    requires d < |infos|
    ensures Filter([d], infos, query) == if Found(infos[d], query) then [d] else []
  {
    assert [d][1..] == [];
  }
}

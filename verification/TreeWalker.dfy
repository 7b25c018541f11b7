/**
 * The resumable walk over a device tree: two parallel stacks, a flag and a
 * cursor in every open directory (src/bus/hwio_bus_devicetree.cpp).
 */
module TreeWalker {
  import opened DeviceTree

  // ---- paths as strings ----

  function Slashed(frags: seq<string>): string {
    if frags == [] then "" else Slashed(Init(frags)) + Last(frags) + "/"
  }

  /** file_path_from_stack: the stack's names and the file name, or the last slash dropped. */
  function FullPath(frags: seq<string>, fname: string): string
    requires frags != []
  {
    if fname != "" then Slashed(frags) + fname else Slashed(Init(frags)) + Last(frags)
  }

  /** The names between the slashes. */
  function SplitPath(s: string): (names: seq<string>)
    ensures names != []
    decreases |s|
  {
    if s == "" then [""]
    else
      var rest := SplitPath(s[1..]);
      if s[0] == '/' then [""] + rest else [[s[0]] + rest[0]] + rest[1..]
  }

  lemma {:induction false} SplitOneName(name: string)
    requires '/' !in name
    ensures SplitPath(name) == [name]
  {
    if name != "" {
      SplitOneName(name[1..]);
      assert [name[0]] + name[1..] == name;
    }
  }

  lemma {:induction false} SplitFirstName(name: string, rest: string)
    requires '/' !in name
    ensures SplitPath(name + "/" + rest) == [name] + SplitPath(rest)
  {
    var s := name + "/" + rest;
    if name == "" {
      assert s[1..] == rest;
    } else {
      SplitFirstName(name[1..], rest);
      assert s[1..] == name[1..] + "/" + rest;
      assert [name[0]] + name[1..] == name;
    }
  }

  predicate Names(frags: seq<string>) {
    forall i :: 0 <= i < |frags| ==> IsName(frags[i])
  }

  lemma {:induction false} SplitSlashed(frags: seq<string>, rest: string)
    requires Names(frags)
    ensures SplitPath(Slashed(frags) + rest) == frags + SplitPath(rest)
    decreases |frags|
  {
    hide SplitPath;
    if frags == [] {
      assert "" + rest == rest;
    } else {
      var init, last := Init(frags), Last(frags);
      SplitSlashed(init, last + "/" + rest);
      SplitFirstName(last, rest);
      assert Slashed(frags) + rest == Slashed(init) + (last + "/" + rest);
      assert frags == init + [last];
    }
  }

  lemma {:induction false} SlashedFirst(first: string, rest: seq<string>)
    ensures Slashed([first] + rest) == first + "/" + Slashed(rest)
    decreases |rest|
  {
    if rest == [] {
      assert Init([first]) == [] && [first] + rest == [first];
    } else {
      SlashedFirst(first, Init(rest));
      assert Init([first] + rest) == [first] + Init(rest) && Last([first] + rest) == Last(rest);
    }
  }

  // ---- the file system ----

  /** Following a path from a node. */
  function Resolve(node: Node, path: seq<string>): Node
    decreases |path|
  {
    if path == [] then node
    else if node.Dir? then Resolve(Lookup(node.entries, path[0]), path[1..])
    else Other
  }

  lemma {:induction false} ResolveOneMore(node: Node, path: seq<string>, name: string)
    ensures var dir := Resolve(node, path);
      Resolve(node, path + [name]) == if dir.Dir? then Lookup(dir.entries, name) else Other
    decreases |path|
  {
    if path == [] {
      assert [name][1..] == [] && [] + [name] == [name];
    } else if node.Dir? {
      ResolveOneMore(Lookup(node.entries, path[0]), path[1..], name);
      assert (path + [name])[1..] == path[1..] + [name];
    }
  }

  /** stat, for a tree that is found under rootPath. */
  function Stat(rootPath: string, root: seq<Entry>, full: string): Node {
    if full == rootPath then Dir(root)
    else if |rootPath| < |full| && full[..|rootPath|] == rootPath && full[|rootPath|] == '/' then
      Resolve(Dir(root), SplitPath(full[|rootPath| + 1..]))
    else Other
  }

  lemma StatRest(rootPath: string, root: seq<Entry>, names: seq<string>, last: string)
    requires Names(names) && IsName(last)
    ensures Stat(rootPath, root, rootPath + "/" + Slashed(names) + last) == Resolve(Dir(root), names + [last])
  {
    hide Resolve, SplitPath, Slashed;
    var full := rootPath + "/" + Slashed(names) + last;
    SplitSlashed(names, last);
    SplitOneName(last);
    assert full[|rootPath| + 1..] == Slashed(names) + last;
    assert full[..|rootPath|] == rootPath;
  }

  /** The string built from the stack names what the stack names. */
  lemma StatOfStack(rootPath: string, root: seq<Entry>, frags: seq<string>, fname: string)
    requires frags != [] && frags[0] == rootPath && Names(frags[1..]) && (fname == "" || IsName(fname))
    ensures Stat(rootPath, root, FullPath(frags, fname)) ==
      Resolve(Dir(root), if fname == "" then frags[1..] else frags[1..] + [fname])
  {
    hide Stat, Slashed, Resolve;
    var names := frags[1..];
    assert frags == [rootPath] + names;
    if fname != "" {
      SlashedFirst(rootPath, names);
      StatRest(rootPath, root, names, fname);
    } else if names == [] {
      OnlyRoot(rootPath, root);
      assert Init(frags) == [] && "" + rootPath == rootPath;
    } else {
      SlashedFirst(rootPath, Init(names));
      assert Init(frags) == [rootPath] + Init(names) && Last(frags) == Last(names);
      assert names == Init(names) + [Last(names)];
      StatRest(rootPath, root, Init(names), Last(names));
    }
  }

  lemma OnlyRoot(rootPath: string, root: seq<Entry>)
    ensures Slashed([]) == "" && Stat(rootPath, root, rootPath) == Resolve(Dir(root), [])
  {
  }

  // ---- the stacks ----

  /** A DIR: its entries and how many have been read. */
  datatype Cursor = Cursor(entries: seq<Entry>, pos: nat)

  /** Each open directory is the entry its parent has read last; its name is on the other stack. */
  predicate Linked(parent: Cursor, name: string, child: Cursor) {
    && 0 < parent.pos <= |parent.entries|
    && parent.entries[parent.pos - 1] == Entry(name, Dir(child.entries)) && !Dots(name)
  }

  predicate Chain(rootPath: string, root: seq<Entry>, paths: seq<string>, dirs: seq<Cursor>) {
    && |paths| == |dirs|
    && (dirs != [] ==>
      && Last(dirs).pos <= |Last(dirs).entries|
      && if |dirs| == 1 then paths[0] == rootPath && dirs[0].entries == root
         else Chain(rootPath, root, Init(paths), Init(dirs)) && Linked(Last(Init(dirs)), Last(paths), Last(dirs)))
  }

  /** The path stack names the directory on top of the other stack. */
  lemma {:induction false} ChainResolves(rootPath: string, root: seq<Entry>, paths: seq<string>, dirs: seq<Cursor>)
    requires ValidTree(root) && Chain(rootPath, root, paths, dirs) && dirs != []
    ensures paths[0] == rootPath && Names(paths[1..])
    ensures Resolve(Dir(root), paths[1..]) == Dir(Last(dirs).entries) && ValidTree(Last(dirs).entries)
    decreases |dirs|
  {
    hide Resolve, Lookup, ValidTree;
    if |dirs| == 1 {
      NothingToResolve(root);
      assert paths[1..] == [];
    } else {
      var above := Last(Init(dirs));
      ChainResolves(rootPath, root, Init(paths), Init(dirs));
      ResolveOneMore(Dir(root), Init(paths)[1..], Last(paths));
      assert paths[1..] == Init(paths)[1..] + [Last(paths)];
      ChildFound(above.entries, above.pos - 1);
    }
  }

  lemma NothingToResolve(root: seq<Entry>)
    ensures Resolve(Dir(root), []) == Dir(root)
  {
  }

  lemma ChildFound(entries: seq<Entry>, i: nat)
    requires ValidTree(entries) && i < |entries|
    ensures Lookup(entries, entries[i].name) == entries[i].node && IsName(entries[i].name)
    ensures entries[i].node.Dir? ==> ValidTree(entries[i].node.entries)
  {
    LookupPresent(entries, i);
  }

  // ---- what is still to be done ----

  predicate InBounds(dirs: seq<Cursor>) {
    forall i :: 0 <= i < |dirs| ==> dirs[i].pos <= |dirs[i].entries|
  }

  /** What happens after the top directory has been checked. */
  function Unwind(paths: seq<string>, dirs: seq<Cursor>): seq<Event>
    requires |paths| == |dirs| && InBounds(dirs)
    decreases |dirs|
  {
    if dirs == [] then []
    else
      WalkBelow(paths, Last(dirs).entries[Last(dirs).pos..]) + [Closed(paths)] + Unwind(Init(paths), Init(dirs))
  }

  function Remaining(paths: seq<string>, dirs: seq<Cursor>, checked: bool): seq<Event>
    requires |paths| == |dirs| && InBounds(dirs)
  {
    if checked || dirs == [] then Unwind(paths, dirs)
    else [Visited(LoadDir(Last(paths), Last(dirs).entries))] + Unwind(paths, dirs)
  }

  predicate NoSubdirectory(entries: seq<Entry>, from: nat, to: nat)
    requires to <= |entries|
  {
    forall j :: from <= j < to ==> !IsSubdirectory(entries[j])
  }

  lemma {:induction false} SkipEntries(path: seq<string>, entries: seq<Entry>, pos: nat, k: nat)
    requires path != [] && pos <= k <= |entries| && NoSubdirectory(entries, pos, k)
    ensures WalkBelow(path, entries[pos..]) == WalkBelow(path, entries[k..])
    decreases k - pos
  {
    hide Walk;
    if pos < k {
      assert entries[pos..][1..] == entries[pos + 1..];
      SkipEntries(path, entries, pos + 1, k);
    }
  }

  /** The stacks after the subdirectory at index k has been opened. */
  function Deeper(dirs: seq<Cursor>, k: nat): seq<Cursor>
    requires dirs != [] && k < |Last(dirs).entries| && Last(dirs).entries[k].node.Dir?
  {
    var top := Last(dirs);
    Init(dirs) + [Cursor(top.entries, k + 1), Cursor(top.entries[k].node.entries, 0)]
  }

  predicate IsNext(top: Cursor, k: nat) {
    && top.pos <= k < |top.entries| && IsSubdirectory(top.entries[k])
    && NoSubdirectory(top.entries, top.pos, k)
  }

  lemma NextWalk(path: seq<string>, top: Cursor, k: nat)
    requires path != [] && IsNext(top, k)
    ensures var child := top.entries[k];
      WalkBelow(path, top.entries[top.pos..]) ==
        Walk(path + [child.name], child.node.entries) + WalkBelow(path, top.entries[k + 1..])
  {
    hide Walk;
    SkipEntries(path, top.entries, top.pos, k);
    assert top.entries[k..][1..] == top.entries[k + 1..];
  }

  lemma UnwindDeeper(paths: seq<string>, dirs: seq<Cursor>, k: nat)
    requires |paths| == |dirs| > 0 && InBounds(dirs) && IsNext(Last(dirs), k)
    ensures var sub, deeper, top := paths + [Last(dirs).entries[k].name], Deeper(dirs, k), Last(dirs);
      && InBounds(deeper)
      && Unwind(sub, deeper) == WalkBelow(sub, top.entries[k].node.entries) + [Closed(sub)]
        + (WalkBelow(paths, top.entries[k + 1..]) + [Closed(paths)] + Unwind(Init(paths), Init(dirs)))
  {
    hide WalkBelow;
    var top := Last(dirs);
    var child := top.entries[k];
    var sub, deeper := paths + [child.name], Deeper(dirs, k);
    assert child.node.entries[0..] == child.node.entries;
    assert Init(sub) == paths && Init(deeper) == Init(dirs) + [Cursor(top.entries, k + 1)];
    assert Init(Init(deeper)) == Init(dirs);
  }

  /** Going down: the walk of the subdirectory comes next. */
  lemma Descend(paths: seq<string>, dirs: seq<Cursor>, k: nat)
    requires |paths| == |dirs| > 0 && InBounds(dirs) && IsNext(Last(dirs), k)
    ensures var sub, deeper := paths + [Last(dirs).entries[k].name], Deeper(dirs, k);
      InBounds(deeper) && Remaining(paths, dirs, true) == [Opened(sub)] + Remaining(sub, deeper, false)
  {
    var top := Last(dirs);
    var child := top.entries[k];
    var sub, deeper := paths + [child.name], Deeper(dirs, k);
    UnwindOfTop(paths, dirs);
    UnwindDeeper(paths, dirs, k);
    hide Unwind, WalkBelow, LoadDir;
    NextWalk(paths, top, k);
    var start, visit, end := [Opened(sub)], [Visited(LoadDir(Last(sub), child.node.entries))], [Closed(sub)];
    assert [Opened(sub), visit[0]] == start + visit;
    Regroup(start, visit, WalkBelow(sub, child.node.entries), end,
            WalkBelow(paths, top.entries[k + 1..]), [Closed(paths)], Unwind(Init(paths), Init(dirs)));
  }

  lemma UnwindOfTop(paths: seq<string>, dirs: seq<Cursor>)
    requires |paths| == |dirs| > 0 && InBounds(dirs)
    ensures Unwind(paths, dirs) ==
      WalkBelow(paths, Last(dirs).entries[Last(dirs).pos..]) + [Closed(paths)] + Unwind(Init(paths), Init(dirs))
  {
    hide WalkBelow;
  }

  lemma Regroup<T>(a: seq<T>, b: seq<T>, c: seq<T>, d: seq<T>, e: seq<T>, f: seq<T>, g: seq<T>)
    ensures (a + b + c + d) + e + f + g == a + (b + (c + d + (e + f + g)))
  {
  }

  /** Coming back: nothing is left below the top directory. */
  lemma Ascend(paths: seq<string>, dirs: seq<Cursor>)
    requires |paths| == |dirs| > 0 && InBounds(dirs)
    requires NoSubdirectory(Last(dirs).entries, Last(dirs).pos, |Last(dirs).entries|)
    ensures Remaining(paths, dirs, true) == [Closed(paths)] + Remaining(Init(paths), Init(dirs), true)
  {
    var top := Last(dirs);
    SkipEntries(paths, top.entries, top.pos, |top.entries|);
    assert top.entries[|top.entries|..] == [];
  }

  // ---- how much is still to be done ----

  function Cost(entries: seq<Entry>): nat {
    if entries == [] then 0
    else 1 + (if IsSubdirectory(entries[0]) then Cost(entries[0].node.entries) + 2 else 0) + Cost(entries[1..])
  }

  /** Unread entries with all that is below them, the open directories and the unset flag. */
  function Work(dirs: seq<Cursor>, checked: bool): nat
    requires InBounds(dirs)
    decreases |dirs|
  {
    if dirs == [] then 0
    else Cost(Last(dirs).entries[Last(dirs).pos..]) + 1 + (if checked then 0 else 1) + Work(Init(dirs), true)
  }

  lemma {:induction false} CostOfNext(entries: seq<Entry>, pos: nat, k: nat)
    requires pos <= k < |entries| && IsSubdirectory(entries[k])
    ensures Cost(entries[pos..]) >= Cost(entries[k + 1..]) + Cost(entries[k].node.entries) + 3
    decreases k - pos
  {
    assert entries[pos..][1..] == entries[pos + 1..];
    if pos < k {
      CostOfNext(entries, pos + 1, k);
    }
  }

  lemma DeeperIsLess(dirs: seq<Cursor>, k: nat)
    requires dirs != [] && InBounds(dirs) && IsNext(Last(dirs), k)
    ensures InBounds(Deeper(dirs, k)) && Work(Deeper(dirs, k), false) < Work(dirs, true)
  {
    var top := Last(dirs);
    var deeper := Deeper(dirs, k);
    CostOfNext(top.entries, top.pos, k);
    var child := top.entries[k].node.entries;
    assert Init(deeper) == Init(dirs) + [Cursor(top.entries, k + 1)] && Init(Init(deeper)) == Init(dirs);
    assert child[0..] == child;
    hide Cost;
  }
}

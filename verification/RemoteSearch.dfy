/**
 * Device search through the remote bus (src/bus/hwio_bus_remote.cpp). A handle
 * is an index into seen_devices; each seen device holds the id it was made for.
 */
module RemoteSearch {
  import opened CompSpec
  import opened Handlers
  import opened Search
  import opened Service
  import opened Wire

  datatype Handles = Handles(seen: seq<int>, handles: seq<nat>)

  /** hwio_dev_from_id */
  function HandleOf(seen: seq<int>, id: int): (h: (seq<int>, nat))
    ensures h.1 < |h.0| && h.0[h.1] == id
  {
    var i := IndexOf(seen, id);
    if i < |seen| then (seen, i) else (seen + [id], i)
  }

  /** The handles for the ids of a reply, in order. */
  function HandlesOf(seen: seq<int>, ids: seq<int>): (h: Handles)
    ensures |h.handles| == |ids|
  {
    if ids == [] then Handles(seen, [])
    else
      var before := HandlesOf(seen, ids[..|ids| - 1]);
      var (s, h) := HandleOf(before.seen, ids[|ids| - 1]);
      Handles(s, before.handles + [h])
  }

  /** Handles belong to different ids, all of them allocated on the server. */
  predicate SeenOk(seen: seq<int>, t: Table) {
    Distinct(seen) && forall i :: 0 <= i < |seen| ==> 0 <= seen[i] < |t|
  }

  /** The server's device behind a handle. */
  function DeviceBehind(seen: seq<int>, t: Table, h: nat): Slot
    requires SeenOk(seen, t) && h < |seen|
  {
    t[seen[h]]
  }

  lemma HandleKeepsSeen(seen: seq<int>, t: Table, id: int)
    requires SeenOk(seen, t) && 0 <= id < |t|
    ensures var (s, h) := HandleOf(seen, id); SeenOk(s, t) && seen <= s
  {
    hide IndexOf;
  }

  predicate Denote(h: Handles, ids: seq<int>)
    requires |h.handles| == |ids|
  {
    forall i :: 0 <= i < |ids| ==> h.handles[i] < |h.seen| && h.seen[h.handles[i]] == ids[i]
  }

  lemma {:induction false} HandlesDenote(seen: seq<int>, t: Table, ids: seq<int>)
    requires SeenOk(seen, t) && forall i :: 0 <= i < |ids| ==> 0 <= ids[i] < |t|
    ensures var h := HandlesOf(seen, ids); SeenOk(h.seen, t) && seen <= h.seen && Denote(h, ids)
  {
    hide HandleOf, SeenOk;
    if ids != [] {
      var init, last := ids[..|ids| - 1], ids[|ids| - 1];
      HandlesDenote(seen, t, init);
      HandleKeepsSeen(HandlesOf(seen, init).seen, t, last);
      var (s, h) := HandleOf(HandlesOf(seen, init).seen, last);
      assert HandlesOf(seen, ids) == Handles(s, HandlesOf(seen, init).handles + [h]);
      hide HandlesOf;
    }
  }

  /** The local search the remote one stands for. */
  function LocalSearch(cfg: Config, specs: seq<Spec>): seq<nat>
    requires forall b :: 0 <= b < |cfg.buses| ==> Known(cfg.buses[b], cfg.infos)
  {
    SearchBuses(cfg, cfg.buses, specs)
  }

  /** Different handles are different devices. */
  lemma HandlesAreInjective(cfg: Config, seen: seq<int>, t: Table, h: nat, k: nat)
    requires ValidTable(cfg, t) && SeenOk(seen, t) && h < |seen| && k < |seen|
    ensures DeviceBehind(seen, t, h) == DeviceBehind(seen, t, k) <==> h == k
  {
    if h != k {
      var i, j := if h < k then h else k, if h < k then k else h;
      assert seen[i] != seen[j];
    }
  }

  /**
   * Remote search is local search: the handles of a query answer stand, one by
   * one and in order, for the hits of the server's buses; handles from earlier
   * queries keep their devices; and equal hits share a handle while different
   * ones do not, over all queries of the connection.
   */
  lemma RemoteSearchIsLocalSearch(cfg: Config, w: World, t: Table, specs: seq<Spec>, seen: seq<int>)
    requires ValidConfig(cfg) && ValidWorld(cfg, w) && ValidTable(cfg, t)
    requires Acceptable(cfg, w, t, Query(specs)) && SeenOk(seen, t)
    ensures var hits := LocalSearch(cfg, specs);
      var s := Serve(cfg, w, t, Query(specs));
      && s.reply.Some? && s.reply.value.Ids?
      && var h := HandlesOf(seen, s.reply.value.ids);
      && ValidTable(cfg, s.table) && SeenOk(h.seen, s.table) && |h.handles| == |hits|
      && (forall i :: 0 <= i < |hits| ==>
          h.handles[i] < |h.seen| && DeviceBehind(h.seen, s.table, h.handles[i]) == Used(hits[i]))
      && (forall k :: 0 <= k < |seen| ==> k < |h.seen| && DeviceBehind(h.seen, s.table, k) == DeviceBehind(seen, t, k))
      && (forall i, j :: 0 <= i < |hits| && 0 <= j < |hits| ==> (hits[i] == hits[j] <==> h.handles[i] == h.handles[j]))
  {
    hide SearchBuses, Register, PluginOk, HandlesOf, Encodable;
    var hits := LocalSearch(cfg, specs);
    var g := Register(w, t, hits);
    RegisterIsStable(cfg, w, t, hits);
    assert SeenOk(seen, g.table);
    HandlesDenote(seen, g.table, g.ids);
    var h := HandlesOf(seen, g.ids);
    forall i, j | 0 <= i < |hits| && 0 <= j < |hits|
      ensures hits[i] == hits[j] <==> h.handles[i] == h.handles[j]
    {
      HandlesAreInjective(cfg, h.seen, g.table, h.handles[i], h.handles[j]);
    }
  }

  /** The device list a bus hands out does not depend on how the buses are split. */
  lemma {:induction false} SearchIsConcatenation(cfg: Config, buses: seq<seq<nat>>, query: seq<Spec>, all: seq<nat>)
    requires forall b :: 0 <= b < |buses| ==> Known(buses[b], cfg.infos)
    requires all == Flatten(buses) && Known(all, cfg.infos)
    ensures SearchBuses(cfg, buses, query) == Filter(all, cfg.infos, query)
    decreases |buses|
  {
    if buses != [] {
      var init, last := buses[..|buses| - 1], buses[|buses| - 1];
      assert all[..|Flatten(init)|] == Flatten(init);
      assert forall i :: 0 <= i < |Flatten(init)| ==> Flatten(init)[i] == all[i];
      SearchIsConcatenation(cfg, init, query, Flatten(init));
      FilterConcat(Flatten(init), last, cfg.infos, query);
    }
  }

  function Flatten(buses: seq<seq<nat>>): seq<nat> {
    if buses == [] then [] else Flatten(buses[..|buses| - 1]) + buses[|buses| - 1]
  }
}

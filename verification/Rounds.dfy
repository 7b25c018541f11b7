/**
 * The server's poll rounds (pool_client_msgs) and its client registry as a
 * state machine. The environment decides what ppoll, accept, recv and send do.
 */
module Rounds {
  import opened Bytes
  import opened Framing
  import opened Handlers
  import opened Wire

  /** ClientInfo, apart from its socket, which is the key it is stored under. */
  datatype Client = Client(id: nat, conn: Conn)

  /**
   * slots are the sockets of `clients` (None for a null pointer), byFd is
   * `fd_to_client`. `peak` is the highest number of clients connected at one
   * time so far, `fallbacks` counts the clients added because a polled socket
   * was not registered.
   */
  datatype Server = Server(
    master: int, world: World,
    slots: seq<Option<int>>, byFd: map<int, Client>,
    poll: seq<int>, removed: seq<int>,
    peak: nat, fallbacks: nat)

  /** What recv gives: some bytes, or the end (also on an error). */
  datatype Input = Chunk(data: bytes) | Gone

  /** What ppoll reports for a socket. */
  datatype Event =
    | Idle
    | Fault
    | Connection(fd: int, room: int)  // master socket only; accept fails if fd < 0
    | Ready(input: Input)

  type Events = map<int, Event>

  function EventOf(events: Events, fd: int): Event {
    if fd in events then events[fd] else Idle
  }

  datatype Outcome = Next(server: Server) | Thrown(server: Server)

  // ---- the registry ----

  /** The first empty position, or the end. */
  function FreeSlot(slots: seq<Option<int>>): (i: nat) {
    IndexOf(slots, None)
  }

  /** add_new_client */
  function AddClient(s: Server, fd: int, room: int): Server {
    var id := FreeSlot(s.slots);
    var byFd := s.byFd[fd := Client(id, NEW_CONN.(room := room))];
    s.(slots := if id < |s.slots| then s.slots[id := Some(fd)] else s.slots + [Some(fd)],
       byFd := byFd, poll := s.poll + [fd],
       peak := if |byFd| > s.peak then |byFd| else s.peak)
  }

  /** remove_client; the socket is closed. */
  function RemoveClient(s: Server, fd: int): Server
    requires fd in s.byFd ==> s.byFd[fd].id < |s.slots|
  {
    if fd in s.byFd then s.(slots := s.slots[s.byFd[fd].id := None], byFd := s.byFd - {fd}) else s
  }

  /** remove_client and the entry in removed_poll_fds that always goes with it. */
  function Drop(s: Server, fd: int): Server
    requires fd in s.byFd ==> s.byFd[fd].id < |s.slots|
  {
    RemoveClient(s, fd).(removed := s.removed + [fd])
  }

  /** clients and fd_to_client hold the same clients, each in the slot of its id. */
  predicate RegistryOk(s: Server) {
    && (forall i :: 0 <= i < |s.slots| && s.slots[i].Some? ==>
        s.slots[i].value in s.byFd && s.byFd[s.slots[i].value].id == i)
    && (forall fd :: fd in s.byFd ==> s.byFd[fd].id < |s.slots| && s.slots[s.byFd[fd].id] == Some(fd))
    && s.master !in s.byFd && forall fd :: fd in s.byFd ==> fd >= 0
  }

  /** get_client_cnt */
  function Count(slots: seq<Option<int>>): (n: nat)
    ensures n <= |slots|
  {
    if slots == [] then 0
    else Count(slots[..|slots| - 1]) + if slots[|slots| - 1].Some? then 1 else 0
  }

  function Sockets(slots: seq<Option<int>>): set<int> {
    set i | 0 <= i < |slots| && slots[i].Some? :: slots[i].value
  }

  lemma {:induction false} CountIsCardinality(slots: seq<Option<int>>)
    requires forall i, j :: 0 <= i < j < |slots| && slots[i].Some? ==> slots[i] != slots[j]
    ensures Count(slots) == |Sockets(slots)|
  {
    if slots == [] {
      assert Sockets(slots) == {};
    } else {
      var init, last := slots[..|slots| - 1], slots[|slots| - 1];
      CountIsCardinality(init);
      SocketsOfLast(slots);
      hide Sockets;
    }
  }

  lemma SocketsOfLast(slots: seq<Option<int>>)
    requires slots != []
    requires forall i, j :: 0 <= i < j < |slots| && slots[i].Some? ==> slots[i] != slots[j]
    ensures var init, last := slots[..|slots| - 1], slots[|slots| - 1];
      if last.Some? then last.value !in Sockets(init) && Sockets(slots) == Sockets(init) + {last.value}
      else Sockets(slots) == Sockets(init)
  {
    var init, last := slots[..|slots| - 1], slots[|slots| - 1];
    assert slots == init + [last];
    forall x | x in Sockets(slots)
      ensures x in Sockets(init) || last == Some(x)
    {
    }
    forall x | x in Sockets(init)
      ensures x in Sockets(slots) && Some(x) != last
    {
      var i :| 0 <= i < |init| && init[i].Some? && init[i].value == x;
      assert slots[i] == Some(x);
    }
  }

  /** The assertion of get_client_cnt: the non-null clients are as many as the registered sockets. */
  lemma CountMatchesMap(s: Server)
    requires RegistryOk(s)
    ensures Count(s.slots) == |s.byFd|
  {
    CountIsCardinality(s.slots);
    assert Sockets(s.slots) == s.byFd.Keys by {
      forall fd | fd in s.byFd
        ensures fd in Sockets(s.slots)
      {
        assert s.slots[s.byFd[fd].id] == Some(fd);
      }
    }
  }

  lemma {:induction false} CountOfFull(slots: seq<Option<int>>)
    requires None !in slots
    ensures Count(slots) == |slots|
  {
    if slots != [] {
      CountOfFull(slots[..|slots| - 1]);
    }
  }

  /** The slots are as many as there ever were clients at a time. */
  predicate PeakOk(s: Server) {
    |s.slots| == s.peak
  }

  lemma AddKeepsRegistry(s: Server, fd: int, room: int)
    requires RegistryOk(s) && PeakOk(s) && fd !in s.byFd && fd != s.master && fd >= 0
    ensures var n := AddClient(s, fd, room); RegistryOk(n) && PeakOk(n) && |n.byFd| == |s.byFd| + 1
  {
    hide RegistryOk, Count;
    AddKeepsSlots(s, fd, room);
    CountMatchesMap(s);
    CountMatchesMap(AddClient(s, fd, room));
    if FreeSlot(s.slots) == |s.slots| {
      CountOfFull(s.slots);
    }
  }

  lemma AddKeepsSlots(s: Server, fd: int, room: int)
    requires RegistryOk(s) && fd !in s.byFd && fd != s.master && fd >= 0
    ensures RegistryOk(AddClient(s, fd, room))
  {
    var id := FreeSlot(s.slots);
    hide IndexOf;
    assert forall g :: g in s.byFd ==> s.byFd[g].id != id;
  }

  lemma RemoveKeepsRegistry(s: Server, fd: int)
    requires RegistryOk(s) && PeakOk(s)
    ensures var n := RemoveClient(s, fd);
      && RegistryOk(n) && PeakOk(n) && n.byFd == s.byFd - {fd}
      && n.world == s.world && n.poll == s.poll && n.removed == s.removed
  {
    var n := RemoveClient(s, fd);
    if fd in s.byFd {
      forall i | 0 <= i < |n.slots| && n.slots[i].Some?
        ensures n.slots[i].value in n.byFd && n.byFd[n.slots[i].value].id == i
      {
        assert s.slots[i] == n.slots[i];
      }
    } else {
      assert s.byFd - {fd} == s.byFd;
    }
  }

  // ---- one round ----

  /** Every connection is in order and its pending bytes are an incomplete frame that fits the buffer. */
  ghost predicate ConnsOk(cfg: Config, s: Server) {
    && ValidConfig(cfg) && ValidWorld(cfg, s.world)
    && forall fd :: fd in s.byFd ==> ConnOk(cfg, s.byFd[fd].conn)
  }

  predicate ConnOk(cfg: Config, c: Conn) {
    ValidTable(cfg, c.table) && |c.pending| <= RX_BUFFER_SIZE && !Complete(c.pending)
  }

  /** recv gives between one byte and all that fits behind the pending bytes. */
  predicate InputFits(c: Conn, input: Input) {
    input.Chunk? ==> 0 < |input.data| <= RX_BUFFER_SIZE - |c.pending|
  }

  /** handle_multiple_client_requests */
  ghost function ServeClient(cfg: Config, s: Server, fd: int, input: Input): Server
    requires ConnsOk(cfg, s) && RegistryOk(s)
  {
    if fd in s.byFd then ServeRegistered(cfg, s, fd, input)
    else ServeRegistered(cfg, AddClient(s, fd, -1).(fallbacks := s.fallbacks + 1), fd, input)
  }

  ghost function ServeRegistered(cfg: Config, s: Server, fd: int, input: Input): Server
    requires ValidConfig(cfg) && ValidWorld(cfg, s.world) && fd in s.byFd && ValidTable(cfg, s.byFd[fd].conn.table)
    requires s.byFd[fd].id < |s.slots|
  {
    match input
    case Gone => Drop(s, fd)
    case Chunk(data) =>
      var d := Drain(cfg, s.world, Arrived(s.byFd[fd].conn, data));
      var n := s.(world := d.world, byFd := s.byFd[fd := s.byFd[fd].(conn := d.conn)]);
      if d.closed then Drop(n, fd) else n
  }

  /** The master socket reports connections, the others data; accept returns a socket that is not open. */
  predicate EventOk(s: Server, fd: int, e: Event) {
    match e
    case Idle => true
    case Fault => true
    case Connection(socket, _) => fd == s.master && (socket >= 0 ==> socket != s.master && socket !in s.byFd)
    case Ready(input) => fd != s.master && (fd in s.byFd ==> InputFits(s.byFd[fd].conn, input))
  }

  predicate EventsOk(s: Server, events: Events) {
    forall fd :: fd in events ==> EventOk(s, fd, events[fd])
  }

  /** The body of the loop over poll_fds. */
  ghost function Visit(cfg: Config, s: Server, fd: int, e: Event): Outcome
    requires ConnsOk(cfg, s) && RegistryOk(s)
  {
    if fd < 0 || e == Idle then Next(s)
    else match e
      case Fault => if fd == s.master then Thrown(s) else Next(Drop(s, fd))
      case Connection(socket, room) => if socket < 0 then Thrown(s) else Next(AddClient(s, socket, room))
      case Ready(input) => Next(ServeClient(cfg, s, fd, input))
  }

  function Keep(poll: seq<int>, removed: seq<int>): (kept: seq<int>)
    ensures |kept| <= |poll|
  {
    if poll == [] then []
    else Keep(poll[..|poll| - 1], removed) + if poll[|poll| - 1] in removed then [] else [poll[|poll| - 1]]
  }

  /** The rebuild of poll_fds at the end of a round. */
  function Cleanup(s: Server): Server {
    if s.removed == [] then s else s.(poll := Keep(s.poll, s.removed), removed := [])
  }

  /** Behind the master socket, the poll set lists the registered sockets and those removed in this round. */
  ghost predicate Polled(s: Server) {
    |s.poll| > 0 && forall fd :: fd in s.byFd <==> fd in s.poll[1..] && fd !in s.removed
  }

  /** The poll set is exact: the master socket first, then every registered socket exactly once. */
  ghost predicate PollOk(s: Server) {
    && |s.poll| > 0 && s.poll[0] == s.master && s.master >= 0
    && Distinct(s.poll) && s.removed == [] && Polled(s)
  }

  /** What holds between rounds. */
  ghost predicate ServerOk(cfg: Config, s: Server) {
    RegistryOk(s) && PeakOk(s) && ConnsOk(cfg, s) && PollOk(s)
  }

  /** Only sockets that have been visited are removed. */
  predicate RemovedVisited(s0: Server, s: Server, i: nat) {
    i <= |s0.poll| && forall fd :: fd in s.removed ==> fd in s0.poll[..i] && fd != s.master
  }

  /** The client of a socket has not changed in this round. */
  predicate Untouched(s0: Server, s: Server, fd: int) {
    fd in s.byFd && fd in s0.byFd && s.byFd[fd] == s0.byFd[fd]
  }

  /** Nor have the clients that have not been visited; the master socket is not a client. */
  predicate RestUntouched(s0: Server, s: Server, i: nat) {
    forall k :: 0 < k < |s0.poll| && i <= k ==> Untouched(s0, s, s0.poll[k])
  }

  /** What holds when the sockets before position i of the round's poll set have been visited. */
  ghost predicate MidRound(cfg: Config, s0: Server, s: Server, i: nat) {
    && 0 < |s0.poll| && i <= |s0.poll|
    && RegistryOk(s) && PeakOk(s) && ConnsOk(cfg, s)
    && s.master == s0.master && s.fallbacks == s0.fallbacks
    && s0.poll <= s.poll && Distinct(s.poll)
    && (i == 0 ==> s == s0)
    && RemovedVisited(s0, s, i) && Polled(s) && RestUntouched(s0, s, i)
  }

  lemma StartOfRound(cfg: Config, s: Server)
    requires ServerOk(cfg, s)
    ensures MidRound(cfg, s, s, 0)
  {
    hide RegistryOk, PeakOk, ConnsOk, Distinct;
    forall k | 0 < k < |s.poll|
      ensures Untouched(s, s, s.poll[k])
    {
      assert s.poll[1..][k - 1] == s.poll[k];
    }
  }

  /** The master socket is visited first, when nothing has been closed yet. */
  lemma VisitMaster(cfg: Config, s: Server, e: Event)
    requires ServerOk(cfg, s) && EventOk(s, s.master, e)
    ensures match Visit(cfg, s, s.master, e)
      case Thrown(n) => n == s
      case Next(n) => MidRound(cfg, s, n, 1)
  {
    hide RegistryOk, PeakOk, ConnsOk, Polled, AddClient, RemovedVisited, RestUntouched, Distinct;
    StartOfRound(cfg, s);
    MasterSkipped(cfg, s, s);
    if e.Connection? && e.fd >= 0 {
      AddKeepsMid(cfg, s, e.fd, e.room);
    }
  }

  /** Passing the master socket changes nothing. */
  lemma MasterSkipped(cfg: Config, s0: Server, s: Server)
    requires MidRound(cfg, s0, s, 0)
    ensures MidRound(cfg, s0, s, 1)
  {
    hide RegistryOk, PeakOk, ConnsOk, Polled, Untouched, Distinct;
    assert s0.poll[..0] == [];
  }

  /** A new client joins behind the sockets of this round. */
  lemma AddKeepsMid(cfg: Config, s: Server, fd: int, room: int)
    requires ServerOk(cfg, s) && fd >= 0 && fd != s.master && fd !in s.byFd
    ensures MidRound(cfg, s, AddClient(s, fd, room), 1)
  {
    hide RegistryOk, PeakOk, ConnsOk, Polled, Distinct, FreeSlot;
    StartOfRound(cfg, s);
    AddKeepsRegistry(s, fd, room);
    AddKeepsConns(cfg, s, fd, room);
    NewInPoll(s, fd);
    var n := AddClient(s, fd, room);
    AppendDistinct(s.poll, fd);
    AddKeepsPolled(s, n, fd);
    forall k | 0 < k < |s.poll|
      ensures Untouched(s, n, s.poll[k])
    {
      assert Untouched(s, s, s.poll[k]);
    }
  }

  lemma AddKeepsConns(cfg: Config, s: Server, fd: int, room: int)
    requires ConnsOk(cfg, s)
    ensures ConnsOk(cfg, AddClient(s, fd, room))
  {
    hide FreeSlot, ValidConfig, ValidWorld;
    assert ConnOk(cfg, NEW_CONN.(room := room));
  }

  lemma NewInPoll(s: Server, fd: int)
    requires PollOk(s) && fd != s.master && fd !in s.byFd
    ensures fd !in s.poll
  {
    hide Distinct;
    assert s.poll == [s.poll[0]] + s.poll[1..];
  }

  lemma AppendDistinct(poll: seq<int>, fd: int)
    requires Distinct(poll) && fd !in poll
    ensures Distinct(poll + [fd])
  {
  }

  lemma AddKeepsPolled(s: Server, n: Server, fd: int)
    requires Polled(s) && fd !in s.removed
    requires n.byFd.Keys == s.byFd.Keys + {fd} && n.poll == s.poll + [fd] && n.removed == s.removed
    ensures Polled(n)
  {
    assert n.poll[1..] == s.poll[1..] + [fd];
    forall g
      ensures g in n.byFd <==> g in n.poll[1..] && g !in n.removed
    {
      assert g in n.byFd <==> g in s.byFd || g == fd;
    }
  }

  lemma DropKeepsMid(cfg: Config, s0: Server, s: Server, i: nat)
    requires ServerOk(cfg, s0) && MidRound(cfg, s0, s, i) && 0 < i < |s0.poll|
    ensures MidRound(cfg, s0, Drop(s, s0.poll[i]), i + 1)
  {
    hide RegistryOk, PeakOk, RemoveClient, ConnsOk, Polled, RestUntouched, RemovedVisited, Distinct;
    var fd := s0.poll[i];
    NotMaster(s0, i);
    NextUntouched(s0, s, i);
    RemoveKeepsRegistry(s, fd);
    RemoveKeepsRest(s, fd);
    var n := Drop(s, fd);
    DropKeepsConns(cfg, s, n, fd);
    DropKeepsPolled(s, n, fd);
    DropKeepsRemoved(s0, s, n, i);
    DropKeepsRest(s0, s, n, i);
    UpdateKeepsRegistryOfRemoved(RemoveClient(s, fd), s.removed + [fd]);
  }

  lemma RemoveKeepsRest(s: Server, fd: int)
    requires RegistryOk(s)
    ensures fd in s.byFd ==> s.byFd[fd].id < |s.slots|
    ensures var n := RemoveClient(s, fd); n.master == s.master && n.fallbacks == s.fallbacks
  {
  }

  lemma UpdateKeepsRegistryOfRemoved(s: Server, removed: seq<int>)
    requires RegistryOk(s) && PeakOk(s)
    ensures RegistryOk(s.(removed := removed)) && PeakOk(s.(removed := removed))
  {
  }

  lemma NotMaster(s: Server, i: nat)
    requires PollOk(s) && 0 < i < |s.poll|
    ensures s.poll[i] != s.master && s.poll[i] in s.poll[1..]
  {
    assert s.poll[1..][i - 1] == s.poll[i];
  }

  /** The client visited next has not changed in this round. */
  lemma NextUntouched(s0: Server, s: Server, i: nat)
    requires RestUntouched(s0, s, i) && 0 < i < |s0.poll|
    ensures Untouched(s0, s, s0.poll[i])
  {
  }

  lemma DropKeepsConns(cfg: Config, s: Server, n: Server, fd: int)
    requires ConnsOk(cfg, s) && n.world == s.world && n.byFd == s.byFd - {fd}
    ensures ConnsOk(cfg, n)
  {
    hide ValidConfig, ValidWorld, ConnOk;
  }

  lemma DropKeepsPolled(s: Server, n: Server, fd: int)
    requires Polled(s) && n.byFd == s.byFd - {fd} && n.poll == s.poll && n.removed == s.removed + [fd]
    ensures Polled(n)
  {
  }

  lemma DropKeepsRemoved(s0: Server, s: Server, n: Server, i: nat)
    requires RemovedVisited(s0, s, i) && 0 < i < |s0.poll| && n.master == s.master && s0.poll[i] != s.master
    requires n.removed == s.removed + [s0.poll[i]] || n.removed == s.removed
    ensures RemovedVisited(s0, n, i + 1)
  {
    assert s0.poll[..i + 1] == s0.poll[..i] + [s0.poll[i]];
  }

  /** A change to the client that is visited leaves those that follow. */
  lemma DropKeepsRest(s0: Server, s: Server, n: Server, i: nat)
    requires RestUntouched(s0, s, i) && 0 < i < |s0.poll| && Distinct(s0.poll)
    requires forall g :: g in s.byFd && g != s0.poll[i] ==> g in n.byFd && n.byFd[g] == s.byFd[g]
    ensures RestUntouched(s0, n, i + 1)
  {
    forall k | i < k < |s0.poll|
      ensures Untouched(s0, n, s0.poll[k])
    {
      assert Untouched(s0, s, s0.poll[k]);
    }
  }

  lemma StayKeepsMid(cfg: Config, s0: Server, s: Server, i: nat)
    requires ServerOk(cfg, s0) && MidRound(cfg, s0, s, i) && 0 < i < |s0.poll|
    ensures MidRound(cfg, s0, s, i + 1)
  {
    hide RegistryOk, PeakOk, ConnsOk;
    assert s0.poll[..i + 1] == s0.poll[..i] + [s0.poll[i]];
  }

  /** Receiving and handling a chunk leaves the registry alone. */
  lemma ChunkKeepsMid(cfg: Config, s0: Server, s: Server, i: nat, data: bytes)
    requires ServerOk(cfg, s0) && MidRound(cfg, s0, s, i) && 0 < i < |s0.poll|
    requires s0.poll[i] in s0.byFd && InputFits(s0.byFd[s0.poll[i]].conn, Chunk(data))
    ensures var n := ServeRegistered(cfg, s, s0.poll[i], Chunk(data)); MidRound(cfg, s0, n, i + 1)
  {
    hide ValidConfig, ValidTable, Complete, Drain, SameShape;
    var fd := s0.poll[i];
    var client := s.byFd[fd];
    var d := Drain(cfg, s.world, Arrived(client.conn, data));
    var n := s.(world := d.world, byFd := s.byFd[fd := client.(conn := d.conn)]);
    if d.closed {
      CloseKeepsMid(cfg, s0, s, i, d);
    } else {
      assert ConnOk(cfg, d.conn);
      assert MidRound(cfg, s0, n, i + 1) by { UpdateKeepsMid(cfg, s0, s, i, d.world, d.conn); }
    }
  }

  lemma UpdateKeepsMid(cfg: Config, s0: Server, s: Server, i: nat, w: World, c: Conn)
    requires ServerOk(cfg, s0) && MidRound(cfg, s0, s, i) && 0 < i < |s0.poll|
    requires ValidWorld(cfg, w) && ConnOk(cfg, c)
    ensures var fd := s0.poll[i]; MidRound(cfg, s0, s.(world := w, byFd := s.byFd[fd := s.byFd[fd].(conn := c)]), i + 1)
  {
    hide ConnsOk, RegistryOk, PeakOk, Polled, RestUntouched, RemovedVisited, Distinct;
    var fd := s0.poll[i];
    NotMaster(s0, i);
    NextUntouched(s0, s, i);
    UpdateKeepsRegistry(s, fd, w, c);
    var n := s.(world := w, byFd := s.byFd[fd := s.byFd[fd].(conn := c)]);
    UpdateKeepsConns(cfg, s, n, fd);
    SameKeysPolled(s, n);
    DropKeepsRemoved(s0, s, n, i);
    DropKeepsRest(s0, s, n, i);
  }

  lemma UpdateKeepsConns(cfg: Config, s: Server, n: Server, fd: int)
    requires ConnsOk(cfg, s) && ValidWorld(cfg, n.world) && fd in n.byFd && ConnOk(cfg, n.byFd[fd].conn)
    requires n.byFd.Keys == s.byFd.Keys && forall g :: g in s.byFd && g != fd ==> n.byFd[g] == s.byFd[g]
    ensures ConnsOk(cfg, n)
  {
    hide ValidConfig, ValidWorld, ConnOk;
  }

  lemma SameKeysPolled(s: Server, n: Server)
    requires Polled(s) && n.byFd.Keys == s.byFd.Keys && n.poll == s.poll && n.removed == s.removed
    ensures Polled(n)
  {
  }

  lemma UpdateKeepsRegistry(s: Server, fd: int, w: World, c: Conn)
    requires RegistryOk(s) && PeakOk(s) && fd in s.byFd
    ensures var n := s.(world := w, byFd := s.byFd[fd := s.byFd[fd].(conn := c)]); RegistryOk(n) && PeakOk(n)
  {
  }

  /** A connection that ends is dropped whatever its last state. */
  lemma CloseKeepsMid(cfg: Config, s0: Server, s: Server, i: nat, d: Drained)
    requires ServerOk(cfg, s0) && MidRound(cfg, s0, s, i) && 0 < i < |s0.poll| && ValidWorld(cfg, d.world)
    ensures var fd := s0.poll[i];
      MidRound(cfg, s0, Drop(s.(world := d.world, byFd := s.byFd[fd := s.byFd[fd].(conn := d.conn)]), fd), i + 1)
  {
    hide ValidConfig, ConnOk, PeakOk, RegistryOk;
    var fd := s0.poll[i];
    var n := s.(world := d.world);
    assert MidRound(cfg, s0, n, i) by { WorldKeepsMid(cfg, s0, s, i, d.world); }
    DropKeepsMid(cfg, s0, n, i);
    UpdateThenDrop(s, fd, d.world, d.conn);
  }

  lemma WorldKeepsMid(cfg: Config, s0: Server, s: Server, i: nat, w: World)
    requires MidRound(cfg, s0, s, i) && 0 < i && ValidWorld(cfg, w)
    ensures MidRound(cfg, s0, s.(world := w), i)
  {
  }

  lemma UpdateThenDrop(s: Server, fd: int, w: World, c: Conn)
    requires RegistryOk(s) && fd in s.byFd
    ensures s.byFd[fd].id < |s.slots|
    ensures Drop(s.(world := w, byFd := s.byFd[fd := s.byFd[fd].(conn := c)]), fd) == Drop(s.(world := w), fd)
  {
    assert s.byFd[fd := s.byFd[fd].(conn := c)] - {fd} == s.byFd - {fd};
  }

  /** Every other socket is registered when it is visited, so the fallback is never taken. */
  lemma VisitClient(cfg: Config, s0: Server, s: Server, i: nat, e: Event)
    requires ServerOk(cfg, s0) && MidRound(cfg, s0, s, i) && 0 < i < |s0.poll| && EventOk(s0, s0.poll[i], e)
    ensures s0.poll[i] in s.byFd
    ensures match Visit(cfg, s, s0.poll[i], e)
      case Thrown(n) => false
      case Next(n) => MidRound(cfg, s0, n, i + 1)
  {
    hide ConnsOk, RegistryOk, PeakOk, Drop;
    var fd := s0.poll[i];
    assert fd != s0.master && fd in s0.poll[1..] by { assert s0.poll[1..][i - 1] == fd; }
    StayKeepsMid(cfg, s0, s, i);
    DropKeepsMid(cfg, s0, s, i);
    if e.Ready? && e.input.Chunk? {
      ChunkKeepsMid(cfg, s0, s, i, e.input.data);
    }
    hide MidRound, ServeRegistered;
  }

  /** The loop over the poll set as it was when the round started, from position i on. */
  ghost function VisitFrom(cfg: Config, s0: Server, s: Server, events: Events, i: nat): Outcome
    requires ServerOk(cfg, s0) && EventsOk(s0, events) && MidRound(cfg, s0, s, i)
    decreases |s0.poll| - i
  {
    if i == |s0.poll| then Next(s)
    else
      var e := EventOf(events, s0.poll[i]);
      VisitKeeps(cfg, s0, s, events, i);
      match Visit(cfg, s, s0.poll[i], e)
      case Thrown(n) => Thrown(n)
      case Next(n) => VisitFrom(cfg, s0, n, events, i + 1)
  }

  lemma VisitKeeps(cfg: Config, s0: Server, s: Server, events: Events, i: nat)
    requires ServerOk(cfg, s0) && EventsOk(s0, events) && MidRound(cfg, s0, s, i) && i < |s0.poll|
    ensures match Visit(cfg, s, s0.poll[i], EventOf(events, s0.poll[i]))
      case Thrown(n) => i == 0 && n == s0
      case Next(n) => MidRound(cfg, s0, n, i + 1)
  {
    hide ConnsOk, RegistryOk, PeakOk, Visit, Distinct;
    var e := EventOf(events, s0.poll[i]);
    assert EventOk(s0, s0.poll[i], e);
    if i == 0 {
      VisitMaster(cfg, s0, e);
    } else {
      VisitClient(cfg, s0, s, i, e);
    }
  }

  /** What the visit of a socket needs: the server is in order and the event fits it. */
  lemma VisitPossible(cfg: Config, s0: Server, s: Server, events: Events, i: nat)
    requires ServerOk(cfg, s0) && EventsOk(s0, events) && MidRound(cfg, s0, s, i) && i < |s0.poll|
    ensures ConnsOk(cfg, s) && RegistryOk(s) && i < |s.poll| && s.poll[i] == s0.poll[i] && s.master == s0.master
    ensures var fd := s0.poll[i]; var e := EventOf(events, fd);
      && (e.Connection? ==> fd == s.master && (e.fd >= 0 ==> e.fd !in s.byFd))
      && (e.Ready? ==> fd != s.master && fd in s.byFd && InputFits(s.byFd[fd].conn, e.input))
  {
    hide ConnsOk, RegistryOk, PeakOk, InputFits;
    var fd := s0.poll[i];
    assert EventOk(s0, fd, EventOf(events, fd));
    if i > 0 {
      assert fd != s0.master;
    }
  }

  lemma VisitFromStep(cfg: Config, s0: Server, s: Server, events: Events, i: nat)
    requires ServerOk(cfg, s0) && EventsOk(s0, events) && MidRound(cfg, s0, s, i) && i < |s0.poll|
    ensures ConnsOk(cfg, s) && RegistryOk(s)
    ensures match Visit(cfg, s, s0.poll[i], EventOf(events, s0.poll[i]))
      case Thrown(n) => VisitFrom(cfg, s0, s, events, i) == Thrown(n)
      case Next(n) =>
        MidRound(cfg, s0, n, i + 1) && VisitFrom(cfg, s0, s, events, i) == VisitFrom(cfg, s0, n, events, i + 1)
  {
    hide ServerOk, EventsOk, MidRound, Visit;
    PositionOk(cfg, s0, s, i);
    VisitKeeps(cfg, s0, s, events, i);
  }

  /** pool_client_msgs, when ppoll has reported something. */
  ghost function Round(cfg: Config, s: Server, events: Events): Outcome
    requires ServerOk(cfg, s) && EventsOk(s, events)
  {
    StartOfRound(cfg, s);
    match VisitFrom(cfg, s, s, events, 0)
    case Thrown(n) => Thrown(n)
    case Next(n) => Next(Cleanup(n))
  }

  lemma {:induction false} VisitFromEnds(cfg: Config, s0: Server, s: Server, events: Events, i: nat)
    requires ServerOk(cfg, s0) && EventsOk(s0, events) && MidRound(cfg, s0, s, i)
    ensures match VisitFrom(cfg, s0, s, events, i)
      case Thrown(n) => n == s0
      case Next(n) => MidRound(cfg, s0, n, |s0.poll|)
    decreases |s0.poll| - i
  {
    hide ServerOk, EventsOk, MidRound, Visit;
    PositionOk(cfg, s0, s, i);
    if i < |s0.poll| {
      VisitKeeps(cfg, s0, s, events, i);
      var o := Visit(cfg, s, s0.poll[i], EventOf(events, s0.poll[i]));
      if o.Next? {
        VisitFromEnds(cfg, s0, o.server, events, i + 1);
      }
    }
  }

  lemma PositionOk(cfg: Config, s0: Server, s: Server, i: nat)
    requires MidRound(cfg, s0, s, i)
    ensures i <= |s0.poll| && ConnsOk(cfg, s) && RegistryOk(s)
  {
  }

  lemma {:induction false} KeepMembers(poll: seq<int>, removed: seq<int>)
    requires Distinct(poll)
    ensures Distinct(Keep(poll, removed))
    ensures forall fd :: fd in Keep(poll, removed) <==> fd in poll && fd !in removed
    ensures poll != [] && poll[0] !in removed ==> Keep(poll, removed) != [] && Keep(poll, removed)[0] == poll[0]
  {
    if poll != [] {
      var init, last := poll[..|poll| - 1], poll[|poll| - 1];
      KeepMembers(init, removed);
      assert poll == init + [last];
      assert last !in init;
    }
  }

  lemma EndOfRound(cfg: Config, s0: Server, s: Server)
    requires ServerOk(cfg, s0) && MidRound(cfg, s0, s, |s0.poll|)
    ensures ServerOk(cfg, Cleanup(s)) && s.fallbacks == s0.fallbacks
  {
    hide ConnOk, ValidConfig, ValidWorld, Distinct;
    assert s.poll[0] == s0.poll[0] == s.master;
    KeepMembers(s.poll, s.removed);
    hide Keep;
    TailMembers(s.poll);
    var n := Cleanup(s);
    TailMembers(n.poll);
    assert RegistryOk(n) && PeakOk(n);
    hide RegistryOk, PeakOk;
  }

  lemma TailMembers(p: seq<int>)
    requires Distinct(p)
    ensures p != [] ==> forall x :: x in p[1..] <==> x in p && x != p[0]
  {
    if p != [] {
      assert p == [p[0]] + p[1..];
      assert p[0] !in p[1..];
    }
  }

  /**
   * A round keeps the server in order and never adds a client by the fallback;
   * if it throws, on an error of the master socket, nothing has changed.
   */
  lemma RoundKeeps(cfg: Config, s: Server, events: Events)
    requires ServerOk(cfg, s) && EventsOk(s, events)
    ensures match Round(cfg, s, events)
      case Thrown(n) => n == s
      case Next(n) => ServerOk(cfg, n) && n.fallbacks == s.fallbacks && n.master == s.master
  {
    hide ServerOk, EventsOk, MidRound, Cleanup, VisitFrom;
    StartOfRound(cfg, s);
    VisitFromEnds(cfg, s, s, events, 0);
    var o := VisitFrom(cfg, s, s, events, 0);
    if o.Next? {
      EndOfRound(cfg, s, o.server);
      MasterStays(cfg, s, o.server);
    }
  }

  lemma MasterStays(cfg: Config, s0: Server, s: Server)
    requires MidRound(cfg, s0, s, |s0.poll|)
    ensures Cleanup(s).master == s0.master && Cleanup(s).fallbacks == s.fallbacks
  {
  }

  // ---- what a round does to each socket ----

  /** The socket has the client it had, or still has none. */
  predicate SameClient(s: Server, n: Server, fd: int) {
    (fd in n.byFd <==> fd in s.byFd) && (fd in s.byFd ==> n.byFd[fd] == s.byFd[fd])
  }

  /** The client has been served when the devices were w: it is gone if its connection ended, else has what is left. */
  ghost predicate ServedOn(cfg: Config, c: Client, w: World, data: bytes, n: Server, fd: int) {
    && ValidConfig(cfg) && ValidWorld(cfg, w) && ValidTable(cfg, c.conn.table)
    && var d := Drain(cfg, w, Arrived(c.conn, data));
      if d.closed then fd !in n.byFd else fd in n.byFd && n.byFd[fd] == c.(conn := d.conn)
  }

  /** What the event of a registered socket does to its client. */
  ghost predicate Happened(cfg: Config, s: Server, n: Server, fd: int, e: Event)
    requires fd in s.byFd
  {
    match e
    case Idle => SameClient(s, n, fd)
    case Fault => fd !in n.byFd
    case Connection(_, _) => false
    case Ready(Gone) => fd !in n.byFd
    case Ready(Chunk(data)) => exists w :: ServedOn(cfg, s.byFd[fd], w, data, n, fd)
  }

  lemma VisitHappens(cfg: Config, s0: Server, s: Server, events: Events, i: nat)
    requires ServerOk(cfg, s0) && EventsOk(s0, events) && MidRound(cfg, s0, s, i) && 0 < i < |s0.poll|
    ensures ConnsOk(cfg, s) && RegistryOk(s) && s0.poll[i] in s.byFd
    ensures var fd := s0.poll[i]; var o := Visit(cfg, s, fd, EventOf(events, fd));
      && Happened(cfg, s, o.server, fd, EventOf(events, fd))
      && forall g :: g != fd ==> SameClient(s, o.server, g)
  {
    hide Drain, ValidTable, ValidConfig, ValidWorld, PeakOk, Polled, RemovedVisited, Distinct, RestUntouched;
    var fd := s0.poll[i];
    var e := EventOf(events, fd);
    NotMaster(s0, i);
    NextUntouched(s0, s, i);
    VisitPossible(cfg, s0, s, events, i);
    if e.Ready? && e.input.Chunk? {
      assert ServedOn(cfg, s.byFd[fd], s.world, e.input.data, Visit(cfg, s, fd, e).server, fd);
    }
  }

  lemma HappenedLater(cfg: Config, s: Server, m: Server, n: Server, fd: int, e: Event)
    requires fd in s.byFd
    ensures Happened(cfg, s, m, fd, e) && SameClient(m, n, fd) ==> Happened(cfg, s, n, fd, e)
    ensures SameClient(s, m, fd) ==> fd in m.byFd && (Happened(cfg, m, n, fd, e) ==> Happened(cfg, s, n, fd, e))
  {
    hide Drain, ValidTable, ValidConfig, ValidWorld;
    if e.Ready? && e.input.Chunk? {
      forall w
        ensures ServedOn(cfg, s.byFd[fd], w, e.input.data, m, fd) && SameClient(m, n, fd) ==>
          ServedOn(cfg, s.byFd[fd], w, e.input.data, n, fd)
      {
      }
    }
  }

  /** The rest of a round does to each socket still to be visited what its event says, and nothing to the others. */
  lemma {:induction false} RestHappens(cfg: Config, s0: Server, s: Server, events: Events, i: nat, fd: int)
    requires ServerOk(cfg, s0) && EventsOk(s0, events) && MidRound(cfg, s0, s, i) && 0 < i <= |s0.poll|
    requires fd in s0.poll[i..] ==> fd in s.byFd
    ensures var o := VisitFrom(cfg, s0, s, events, i);
      && o.Next?
      && if fd in s0.poll[i..] then Happened(cfg, s, o.server, fd, EventOf(events, fd)) else SameClient(s, o.server, fd)
    decreases |s0.poll| - i
  {
    hide ServerOk, EventsOk, MidRound, Visit, VisitFrom, Happened, SameClient;
    if i == |s0.poll| {
      NothingLeft(cfg, s0, s, events, fd);
    } else {
      VisitFromStep(cfg, s0, s, events, i);
      VisitHappens(cfg, s0, s, events, i);
      var e := EventOf(events, s0.poll[i]);
      VisitsOn(cfg, s0, s, events, i);
      var m := Visit(cfg, s, s0.poll[i], e).server;
      Unvisited(cfg, s0, m, i + 1, fd);
      FirstOfRest(cfg, s0, i, fd);
      RestHappens(cfg, s0, m, events, i + 1, fd);
      if fd in s0.poll[i..] {
        HappenedLater(cfg, s, m, VisitFrom(cfg, s0, m, events, i + 1).server, fd, EventOf(events, fd));
      } else {
        SameTwice(s, m, VisitFrom(cfg, s0, m, events, i + 1).server, fd);
      }
    }
  }

  lemma SameTwice(a: Server, b: Server, c: Server, fd: int)
    requires SameClient(a, b, fd) && SameClient(b, c, fd)
    ensures SameClient(a, c, fd)
  {
  }

  lemma NothingLeft(cfg: Config, s0: Server, s: Server, events: Events, fd: int)
    requires ServerOk(cfg, s0) && EventsOk(s0, events) && MidRound(cfg, s0, s, |s0.poll|)
    ensures VisitFrom(cfg, s0, s, events, |s0.poll|) == Next(s) && SameClient(s, s, fd)
  {
    hide ServerOk, EventsOk, MidRound;
  }

  /** Behind the master socket, no visit throws. */
  lemma VisitsOn(cfg: Config, s0: Server, s: Server, events: Events, i: nat)
    requires ServerOk(cfg, s0) && EventsOk(s0, events) && MidRound(cfg, s0, s, i) && 0 < i < |s0.poll|
    ensures ConnsOk(cfg, s) && RegistryOk(s)
    ensures var o := Visit(cfg, s, s0.poll[i], EventOf(events, s0.poll[i]));
      o.Next? && MidRound(cfg, s0, o.server, i + 1)
  {
    hide ServerOk, EventsOk, MidRound, Visit;
    PositionOk(cfg, s0, s, i);
    VisitKeeps(cfg, s0, s, events, i);
  }

  lemma Unvisited(cfg: Config, s0: Server, s: Server, i: nat, fd: int)
    requires MidRound(cfg, s0, s, i) && 0 < i
    ensures fd in s0.poll[i..] ==> fd in s.byFd
  {
    hide RegistryOk, PeakOk, ConnsOk, Polled, RemovedVisited, Distinct;
    if fd in s0.poll[i..] {
      var k :| 0 <= k < |s0.poll[i..]| && s0.poll[i..][k] == fd;
      assert s0.poll[i + k] == fd;
      assert Untouched(s0, s, s0.poll[i + k]);
    }
  }

  lemma FirstOfRest(cfg: Config, s0: Server, i: nat, fd: int)
    requires ServerOk(cfg, s0) && i < |s0.poll|
    ensures fd in s0.poll[i..] <==> fd == s0.poll[i] || fd in s0.poll[i + 1..]
    ensures fd == s0.poll[i] ==> fd !in s0.poll[i + 1..]
  {
    hide RegistryOk, PeakOk, ConnsOk;
    assert s0.poll[i..] == [s0.poll[i]] + s0.poll[i + 1..];
  }

  /**
   * What a round does to every socket. A registered one keeps its client if
   * nothing is reported; it is gone after a fault or an end; with data, its
   * client is served once, on the devices as they are when its turn comes. The
   * accepted socket has a new client in the first empty slot, and no other
   * socket is added.
   */
  lemma RoundHappens(cfg: Config, s: Server, events: Events, fd: int)
    requires ServerOk(cfg, s) && EventsOk(s, events) && Round(cfg, s, events).Next?
    ensures var n, m := Round(cfg, s, events).server, EventOf(events, s.master);
      && (fd in s.byFd ==> Happened(cfg, s, n, fd, EventOf(events, fd)))
      && (fd !in s.byFd ==>
          if m.Connection? && m.fd == fd then
            fd in n.byFd && n.byFd[fd] == Client(FreeSlot(s.slots), NEW_CONN.(room := m.room))
          else fd !in n.byFd)
  {
    hide ServerOk, EventsOk, MidRound, Visit, VisitFrom, Happened, SameClient, Cleanup, FreeSlot;
    StartOfRound(cfg, s);
    PollKnown(cfg, s, fd);
    VisitFromStep(cfg, s, s, events, 0);
    MasterHappens(cfg, s, events, fd);
    var m := Visit(cfg, s, s.poll[0], EventOf(events, s.poll[0])).server;
    Unvisited(cfg, s, m, 1, fd);
    RestHappens(cfg, s, m, events, 1, fd);
    var n := VisitFrom(cfg, s, m, events, 1).server;
    CleanupSame(n, fd);
    if fd in s.byFd {
      HappenedLater(cfg, s, m, n, fd, EventOf(events, fd));
      HappenedLater(cfg, s, n, Cleanup(n), fd, EventOf(events, fd));
    } else {
      AsAfterMaster(m, n, Cleanup(n), fd);
    }
  }

  lemma AsAfterMaster(a: Server, b: Server, c: Server, fd: int)
    requires SameClient(a, b, fd) && SameClient(b, c, fd)
    ensures (fd in a.byFd <==> fd in c.byFd) && (fd in a.byFd ==> c.byFd[fd] == a.byFd[fd])
  {
  }

  lemma CleanupSame(s: Server, fd: int)
    ensures SameClient(s, Cleanup(s), fd)
  {
  }

  lemma PollKnown(cfg: Config, s: Server, fd: int)
    requires ServerOk(cfg, s)
    ensures |s.poll| > 0 && s.poll[0] == s.master && s.master !in s.byFd && (fd in s.byFd <==> fd in s.poll[1..])
  {
  }

  lemma MasterHappens(cfg: Config, s: Server, events: Events, fd: int)
    requires ServerOk(cfg, s) && EventsOk(s, events)
    ensures ConnsOk(cfg, s) && RegistryOk(s)
    ensures var e := EventOf(events, s.master); var o := Visit(cfg, s, s.master, e);
      o.Next? ==>
        && (fd in s.byFd ==> SameClient(s, o.server, fd))
        && (fd !in s.byFd ==>
            if e.Connection? && e.fd == fd then
              fd in o.server.byFd && o.server.byFd[fd] == Client(FreeSlot(s.slots), NEW_CONN.(room := e.room))
            else fd !in o.server.byFd)
  {
    hide PeakOk, ConnsOk, RegistryOk, FreeSlot, Polled, Distinct;
    assert EventOk(s, s.master, EventOf(events, s.master));
  }

  // ---- whole runs ----

  function Boot(master: int, w: World): Server {
    Server(master, w, [], map[], [master], [], 0, 0)
  }

  ghost predicate ValidRounds(cfg: Config, s: Server, rounds: seq<Events>)
    requires ServerOk(cfg, s)
    decreases |rounds|
  {
    rounds != [] ==>
      && EventsOk(s, rounds[0])
      && (RoundKeeps(cfg, s, rounds[0]);
          Round(cfg, s, rounds[0]).Next? ==> ValidRounds(cfg, Round(cfg, s, rounds[0]).server, rounds[1..]))
  }

  /** Rounds until the list ends or one throws. */
  ghost function RunRounds(cfg: Config, s: Server, rounds: seq<Events>): (n: Server)
    requires ServerOk(cfg, s) && ValidRounds(cfg, s, rounds)
    decreases |rounds|
  {
    if rounds == [] then s
    else
      RoundKeeps(cfg, s, rounds[0]);
      match Round(cfg, s, rounds[0])
      case Thrown(n) => n
      case Next(n) => RunRounds(cfg, n, rounds[1..])
  }

  lemma {:induction false} RunKeeps(cfg: Config, s: Server, rounds: seq<Events>)
    requires ServerOk(cfg, s) && ValidRounds(cfg, s, rounds)
    ensures var n := RunRounds(cfg, s, rounds); ServerOk(cfg, n) && n.fallbacks == s.fallbacks && n.master == s.master
    decreases |rounds|
  {
    hide ServerOk, EventsOk, Round;
    if rounds != [] {
      RoundKeeps(cfg, s, rounds[0]);
      var o := Round(cfg, s, rounds[0]);
      if o.Next? {
        RunKeeps(cfg, o.server, rounds[1..]);
      }
    }
  }

  /**
   * In every state the server reaches: the poll set lists the master socket
   * and every registered socket once; clients and fd_to_client correspond one
   * to one through the ids; the count assertion holds; there are as many slots
   * as there ever were clients at a time; and no polled socket was unregistered.
   */
  lemma ServerStaysConsistent(cfg: Config, master: int, w: World, rounds: seq<Events>)
    requires ValidConfig(cfg) && ValidWorld(cfg, w) && master >= 0
    ensures ServerOk(cfg, Boot(master, w))
    ensures ValidRounds(cfg, Boot(master, w), rounds) ==>
      var s := RunRounds(cfg, Boot(master, w), rounds);
      && RegistryOk(s) && PollOk(s) && Count(s.slots) == |s.byFd| && |s.slots| == s.peak && s.fallbacks == 0
      && forall fd :: fd in s.byFd ==> ConnOk(cfg, s.byFd[fd].conn)
  {
    hide ValidConfig, ValidWorld;
    BootOk(cfg, master, w);
    if ValidRounds(cfg, Boot(master, w), rounds) {
      RunKeeps(cfg, Boot(master, w), rounds);
      CountMatchesMap(RunRounds(cfg, Boot(master, w), rounds));
    }
  }

  lemma BootOk(cfg: Config, master: int, w: World)
    requires ValidConfig(cfg) && ValidWorld(cfg, w) && master >= 0
    ensures ServerOk(cfg, Boot(master, w))
  {
    hide ValidConfig, ValidWorld;
  }
}

/**
 * The poll loop inside the whole system: the server of Rounds, with its
 * sockets and buffers, serves the clients and channels of RemoteRun. Every
 * round is a sequence of deliveries, so whole runs of the poll loop refine the
 * local devices.
 */
module PollRun {
  import opened Bytes
  import opened Framing
  import opened Handlers
  import opened RemoteRun
  import opened Wire

  import R = Rounds

  /** Which client is behind each socket, and which clients have connected so far. */
  datatype Links = Links(who: map<int, nat>, used: set<nat>)

  /** The connection behind a socket is the client's connection, and it is open. */
  ghost predicate LinkOk(s: R.Server, y: System, k: Links, fd: int)
    requires fd in s.byFd
  {
    && fd in k.who && k.who[fd] in y.peers && k.who[fd] in k.used
    && y.peers[k.who[fd]].open && y.peers[k.who[fd]].conn == s.byFd[fd].conn
  }

  /** Same devices, and every registered socket belongs to a client of its own. */
  ghost predicate Joined(s: R.Server, y: System, k: Links) {
    && s.world == y.world
    && (forall fd :: fd in s.byFd ==> LinkOk(s, y, k, fd))
    && (forall fd, g :: fd in s.byFd && g in s.byFd && fd != g ==> k.who[fd] != k.who[g])
    && (forall c :: c in y.peers && c !in k.used ==> y.peers[c].conn == NEW_CONN && y.peers[c].open)
  }

  /** Data comes from the client's channel, and sends do not fail; a socket may end or have a fault. */
  predicate Carries(y: System, k: Links, fd: int, e: R.Event) {
    match e
    case Idle => true
    case Fault => true
    case Connection(_, room) => room == NEW_CONN.room
    case Ready(input) =>
      input.Chunk? ==>
        && fd in k.who && k.who[fd] in y.peers
        && 0 < |input.data| && input.data <= y.peers[k.who[fd]].toServer
  }

  predicate AllCarry(y: System, k: Links, events: R.Events) {
    forall fd :: fd in events ==> Carries(y, k, fd, events[fd])
  }

  /** The sockets from position i on carry what their clients have sent. */
  predicate StillCarry(poll: seq<int>, y: System, k: Links, events: R.Events, i: nat) {
    forall j :: i <= j < |poll| ==> Carries(y, k, poll[j], R.EventOf(events, poll[j]))
  }

  /** The deliveries of a round, in the order of the poll set from position i on. */
  function Deliveries(poll: seq<int>, who: map<int, nat>, events: R.Events, i: nat): seq<Move>
    decreases |poll| - i
  {
    if i >= |poll| then []
    else
      var e := R.EventOf(events, poll[i]);
      (if e.Ready? && e.input.Chunk? && poll[i] in who then [Move(who[poll[i]], Deliver(|e.input.data|))] else [])
      + Deliveries(poll, who, events, i + 1)
  }

  // ---- one visit ----

  lemma CanServe(cfg: Config, s: R.Server, y: System, k: Links, fd: int, data: bytes)
    requires R.RegistryOk(s) && R.ConnsOk(cfg, s) && Joined(s, y, k) && fd in s.byFd
    requires Carries(y, k, fd, R.Ready(R.Chunk(data)))
    ensures LinkOk(s, y, k, fd) && Enabled(cfg, y, k.who[fd], Deliver(|data|))
    ensures s.byFd[fd].id < |s.slots|
    ensures ValidConfig(cfg) && ValidWorld(cfg, s.world) && ValidTable(cfg, s.byFd[fd].conn.table)
    ensures Received(cfg, y, y.peers[k.who[fd]], |data|) == Drain(cfg, s.world, Arrived(s.byFd[fd].conn, data))
  {
    hide ValidConfig, ValidWorld, ValidTable, Drain;
    assert LinkOk(s, y, k, fd);
    assert R.ConnOk(cfg, s.byFd[fd].conn);
    var p := y.peers[k.who[fd]];
    assert p.toServer[..|data|] == data;
  }

  /** Serving a socket is delivering its client's bytes. */
  lemma ServeIsDeliver(cfg: Config, s: R.Server, y: System, k: Links, fd: int, data: bytes)
    requires R.RegistryOk(s) && R.ConnsOk(cfg, s) && Joined(s, y, k) && fd in s.byFd
    requires Carries(y, k, fd, R.Ready(R.Chunk(data)))
    ensures LinkOk(s, y, k, fd) && Enabled(cfg, y, k.who[fd], Deliver(|data|))
    ensures s.byFd[fd].id < |s.slots|
    ensures ValidConfig(cfg) && ValidWorld(cfg, s.world) && ValidTable(cfg, s.byFd[fd].conn.table)
    ensures var z := Next(cfg, y, k.who[fd], Deliver(|data|));
      && Joined(R.ServeRegistered(cfg, s, fd, R.Chunk(data)), z, k)
      && z.peers.Keys == y.peers.Keys
      && forall c :: c in y.peers && c != k.who[fd] ==> z.peers[c] == y.peers[c]
  {
    hide R.RegistryOk, R.ConnsOk, ValidConfig, ValidWorld, ValidTable, Drain, CanDeliver, Received;
    CanServe(cfg, s, y, k, fd, data);
    var c := k.who[fd];
    var d := Drain(cfg, s.world, Arrived(s.byFd[fd].conn, data));
    DeliverChanges(cfg, y, c, |data|);
    var z := Next(cfg, y, c, Deliver(|data|));
    var n := s.(world := d.world, byFd := s.byFd[fd := s.byFd[fd].(conn := d.conn)]);
    hide Next;
    if d.closed {
      assert R.ServeRegistered(cfg, s, fd, R.Chunk(data)) == R.Drop(n, fd);
      StaysJoined(s, y, k, fd, R.Drop(n, fd), z);
    } else {
      Rejoined(s, y, k, fd, n, z);
    }
  }

  /** A delivery changes the devices and its own client. */
  lemma DeliverChanges(cfg: Config, y: System, c: nat, n: nat)
    requires Enabled(cfg, y, c, Deliver(n))
    ensures var z := Next(cfg, y, c, Deliver(n)); var d := Received(cfg, y, y.peers[c], n);
      && z.world == d.world && z.peers.Keys == y.peers.Keys
      && z.peers[c].conn == d.conn && z.peers[c].open == !d.closed
      && forall k :: k in y.peers && k != c ==> z.peers[k] == y.peers[k]
  {
    hide Received, CanDeliver, Drain;
  }

  /** The socket of the client has been dropped. */
  lemma StaysJoined(s: R.Server, y: System, k: Links, fd: int, n: R.Server, z: System)
    requires Joined(s, y, k) && fd in s.byFd && n.world == z.world && n.byFd == s.byFd - {fd}
    requires z.peers.Keys == y.peers.Keys
    requires forall c :: c in y.peers && c != k.who[fd] ==> z.peers[c] == y.peers[c]
    ensures Joined(n, z, k)
  {
    assert LinkOk(s, y, k, fd);
    forall g | g in n.byFd
      ensures LinkOk(n, z, k, g)
    {
      assert LinkOk(s, y, k, g);
    }
  }

  /** The socket of the client is still registered, with the connection the client has now. */
  lemma Rejoined(s: R.Server, y: System, k: Links, fd: int, n: R.Server, z: System)
    requires Joined(s, y, k) && fd in s.byFd && n.world == z.world && n.byFd.Keys == s.byFd.Keys
    requires z.peers.Keys == y.peers.Keys && k.who[fd] in z.peers
    requires z.peers[k.who[fd]].open && z.peers[k.who[fd]].conn == n.byFd[fd].conn
    requires forall g :: g in s.byFd && g != fd ==> n.byFd[g] == s.byFd[g]
    requires forall c :: c in y.peers && c != k.who[fd] ==> z.peers[c] == y.peers[c]
    ensures Joined(n, z, k)
  {
    assert LinkOk(s, y, k, fd);
    forall g | g in n.byFd
      ensures LinkOk(n, z, k, g)
    {
      assert LinkOk(s, y, k, g);
    }
  }

  /** Accepting gives a socket to a client that has not connected before. */
  function Accepting(k: Links, socket: int, c: nat): Links {
    Links(k.who[socket := c], k.used + {c})
  }

  lemma AcceptJoins(s: R.Server, y: System, k: Links, socket: int, c: nat)
    requires Joined(s, y, k) && socket !in s.byFd && c in y.peers && c !in k.used
    ensures Joined(R.AddClient(s, socket, NEW_CONN.room), y, Accepting(k, socket, c))
  {
    hide R.FreeSlot;
    var n, l := R.AddClient(s, socket, NEW_CONN.room), Accepting(k, socket, c);
    forall g | g in n.byFd
      ensures LinkOk(n, y, l, g)
    {
      if g != socket {
        assert LinkOk(s, y, k, g);
      }
    }
    forall f, g | f in n.byFd && g in n.byFd && f != g
      ensures l.who[f] != l.who[g]
    {
      if f != socket {
        assert LinkOk(s, y, k, f);
      }
      if g != socket {
        assert LinkOk(s, y, k, g);
      }
    }
  }

  // ---- one round ----

  lemma CarryOn(poll: seq<int>, y: System, k: Links, events: R.Events, i: nat, z: System)
    requires StillCarry(poll, y, k, events, i) && i < |poll| && Distinct(poll)
    requires z.peers.Keys == y.peers.Keys && poll[i] in k.who
    requires forall j :: i < j < |poll| && poll[j] in k.who ==> k.who[poll[j]] != k.who[poll[i]]
    requires forall c :: c in y.peers && c != k.who[poll[i]] ==> z.peers[c] == y.peers[c]
    ensures StillCarry(poll, z, k, events, i + 1)
  {
    forall j | i + 1 <= j < |poll|
      ensures Carries(z, k, poll[j], R.EventOf(events, poll[j]))
    {
      assert Carries(y, k, poll[j], R.EventOf(events, poll[j]));
    }
  }

  lemma CarryLess(poll: seq<int>, y: System, k: Links, events: R.Events, i: nat)
    requires StillCarry(poll, y, k, events, i)
    ensures StillCarry(poll, y, k, events, i + 1)
  {
  }

  /** Every socket that has not been visited is still its client's. */
  ghost predicate Owners(poll: seq<int>, k: Links, i: nat) {
    && (forall j :: i <= j < |poll| ==> poll[j] in k.who)
    && forall j, l :: i <= j < l < |poll| ==> k.who[poll[j]] != k.who[poll[l]]
  }

  ghost predicate InRound(cfg: Config, s0: R.Server, s: R.Server, y: System, k: Links, events: R.Events, i: nat) {
    && R.ServerOk(cfg, s0) && R.EventsOk(s0, events) && 0 < i <= |s0.poll| && R.MidRound(cfg, s0, s, i)
    && Joined(s, y, k) && Owners(s0.poll, k, i) && StillCarry(s0.poll, y, k, events, i)
  }

  /** A visit of a client's socket is its delivery, or nothing; a client whose socket ends is not heard again. */
  lemma VisitDelivers(cfg: Config, s0: R.Server, s: R.Server, y: System, k: Links, events: R.Events, i: nat)
    requires InRound(cfg, s0, s, y, k, events, i) && i < |s0.poll|
    ensures R.ConnsOk(cfg, s) && R.RegistryOk(s) && s0.poll[i] in k.who
    ensures var fd := s0.poll[i]; var e := R.EventOf(events, fd); var o := R.Visit(cfg, s, fd, e);
      && o.Next?
      && if e.Ready? && e.input.Chunk? then
           var m := Move(k.who[fd], Deliver(|e.input.data|));
           Enabled(cfg, y, m.client, m.action)
           && InRound(cfg, s0, o.server, Next(cfg, y, m.client, m.action), k, events, i + 1)
         else InRound(cfg, s0, o.server, y, k, events, i + 1)
  {
    hide R.ServerOk, R.EventsOk, R.MidRound, R.ConnsOk, R.RegistryOk, R.Visit, Joined, Owners, StillCarry;
    hide Enabled, Next;
    var fd := s0.poll[i];
    var e := R.EventOf(events, fd);
    R.VisitPossible(cfg, s0, s, events, i);
    R.VisitKeeps(cfg, s0, s, events, i);
    CarryLess(s0.poll, y, k, events, i);
    OwnersLess(s0.poll, k, i);
    VisitEvent(cfg, s0, s, y, k, events, i);
    if e.Ready? && e.input.Chunk? {
      ServeIsDeliver(cfg, s, y, k, fd, e.input.data);
      PollDistinct(cfg, s0);
      CarryOn(s0.poll, y, k, events, i, Next(cfg, y, k.who[fd], Deliver(|e.input.data|)));
    } else if e != R.Idle {
      Dropped(s, y, k, fd);
    }
  }

  lemma PollDistinct(cfg: Config, s: R.Server)
    requires R.ServerOk(cfg, s)
    ensures Distinct(s.poll) && 0 < |s.poll| && s.poll[0] == s.master
  {
  }

  lemma OwnersLess(poll: seq<int>, k: Links, i: nat)
    requires Owners(poll, k, i) && i < |poll|
    ensures Owners(poll, k, i + 1) && poll[i] in k.who
    ensures forall j :: i < j < |poll| && poll[j] in k.who ==> k.who[poll[j]] != k.who[poll[i]]
  {
  }

  /** What the visit does, given what its socket carries. */
  lemma VisitEvent(cfg: Config, s0: R.Server, s: R.Server, y: System, k: Links, events: R.Events, i: nat)
    requires InRound(cfg, s0, s, y, k, events, i) && i < |s0.poll|
    requires R.ConnsOk(cfg, s) && R.RegistryOk(s) && s.master == s0.master
    ensures var fd := s0.poll[i]; var e := R.EventOf(events, fd);
      && Carries(y, k, fd, e) && fd in s.byFd && s.byFd[fd].id < |s.slots|
      && ValidConfig(cfg) && ValidWorld(cfg, s.world) && ValidTable(cfg, s.byFd[fd].conn.table)
      && R.Visit(cfg, s, fd, e) == R.Next(
           if e == R.Idle then s
           else if e.Ready? && e.input.Chunk? then R.ServeRegistered(cfg, s, fd, e.input)
           else R.Drop(s, fd))
  {
    hide R.ConnsOk, R.RegistryOk, Joined, Owners, R.Drop, ValidConfig, ValidWorld, R.MidRound, R.ServerOk;
    var fd := s0.poll[i];
    var e := R.EventOf(events, fd);
    assert Carries(y, k, fd, e);
    ClientSocket(cfg, s0, s, i);
    R.VisitPossible(cfg, s0, s, events, i);
    RegisteredOk(cfg, s, fd);
  }

  /** Behind the master socket there are registered sockets only. */
  lemma ClientSocket(cfg: Config, s0: R.Server, s: R.Server, i: nat)
    requires R.ServerOk(cfg, s0) && R.MidRound(cfg, s0, s, i) && 0 < i < |s0.poll|
    ensures s0.poll[i] in s.byFd && s0.poll[i] != s0.master
  {
    hide R.ConnsOk, R.RegistryOk, R.PeakOk;
    R.NextUntouched(s0, s, i);
    R.NotMaster(s0, i);
  }

  lemma Dropped(s: R.Server, y: System, k: Links, fd: int)
    requires Joined(s, y, k) && fd in s.byFd && s.byFd[fd].id < |s.slots|
    ensures Joined(R.Drop(s, fd), y, k)
  {
    StaysJoined(s, y, k, fd, R.Drop(s, fd), y);
  }

  lemma RegisteredOk(cfg: Config, s: R.Server, fd: int)
    requires R.ConnsOk(cfg, s) && R.RegistryOk(s) && fd in s.byFd
    ensures s.byFd[fd].id < |s.slots| && fd >= 0
    ensures ValidConfig(cfg) && ValidWorld(cfg, s.world) && ValidTable(cfg, s.byFd[fd].conn.table)
  {
  }

  /** A delivery and what follows it. */
  lemma RunStep(cfg: Config, y: System, m: Move, rest: seq<Move>)
    requires Enabled(cfg, y, m.client, m.action) && ValidRun(cfg, Next(cfg, y, m.client, m.action), rest)
    ensures ValidRun(cfg, y, [m] + rest)
    ensures Run(cfg, y, [m] + rest) == Run(cfg, Next(cfg, y, m.client, m.action), rest)
  {
    hide Enabled, Next;
    assert ([m] + rest)[1..] == rest;
  }

  /** The visits from position i on are the deliveries from position i on. */
  lemma {:induction false} VisitsDeliver(cfg: Config, s0: R.Server, s: R.Server, y: System, k: Links,
      events: R.Events, i: nat)
    requires InRound(cfg, s0, s, y, k, events, i)
    ensures ValidRun(cfg, y, Deliveries(s0.poll, k.who, events, i))
    ensures var o := R.VisitFrom(cfg, s0, s, events, i);
      && o.Next? && R.MidRound(cfg, s0, o.server, |s0.poll|)
      && Joined(o.server, Run(cfg, y, Deliveries(s0.poll, k.who, events, i)), k)
    decreases |s0.poll| - i
  {
    hide R.ServerOk, R.EventsOk, R.MidRound, R.Visit, Joined, Owners, StillCarry, Enabled, Next, ValidRun, Run;
    hide R.VisitFrom;
    if i == |s0.poll| {
      NoMoreVisits(cfg, s0, s, y, events, i);
    } else {
      var fd, e := s0.poll[i], R.EventOf(events, s0.poll[i]);
      VisitDelivers(cfg, s0, s, y, k, events, i);
      R.VisitFromStep(cfg, s0, s, events, i);
      var n := R.Visit(cfg, s, fd, e).server;
      var rest := Deliveries(s0.poll, k.who, events, i + 1);
      if e.Ready? && e.input.Chunk? {
        var m := Move(k.who[fd], Deliver(|e.input.data|));
        VisitsDeliver(cfg, s0, n, Next(cfg, y, m.client, m.action), k, events, i + 1);
        RunStep(cfg, y, m, rest);
        assert Deliveries(s0.poll, k.who, events, i) == [m] + rest;
      } else {
        VisitsDeliver(cfg, s0, n, y, k, events, i + 1);
        assert Deliveries(s0.poll, k.who, events, i) == rest;
      }
    }
  }

  lemma NoMoreVisits(cfg: Config, s0: R.Server, s: R.Server, y: System, events: R.Events, i: nat)
    requires R.ServerOk(cfg, s0) && R.EventsOk(s0, events) && R.MidRound(cfg, s0, s, i) && i == |s0.poll|
    ensures R.VisitFrom(cfg, s0, s, events, i) == R.Next(s)
    ensures ValidRun(cfg, y, []) && Run(cfg, y, []) == y
  {
    hide R.ServerOk, R.EventsOk, R.MidRound;
  }

  // ---- the master socket ----

  /** The client, if any, that gets a socket in this round. */
  function Welcomed(s: R.Server, k: Links, events: R.Events, c: nat): Links {
    var e := R.EventOf(events, s.master);
    if e.Connection? && e.fd >= 0 then Accepting(k, e.fd, c) else k
  }

  /** The master socket has a fault, or accept fails. */
  predicate Throws(s: R.Server, events: R.Events) {
    var e := R.EventOf(events, s.master);
    e.Fault? || (e.Connection? && e.fd < 0)
  }

  /** Whoever connects has not connected before. */
  ghost predicate CanPoll(s: R.Server, y: System, k: Links, events: R.Events, c: nat) {
    && R.EventsOk(s, events) && AllCarry(y, k, events)
    && (R.EventOf(events, s.master).Connection? && !Throws(s, events) ==> c in y.peers && c !in k.used)
  }

  /** A client's socket is polled once, under its own name. */
  lemma OwnersAtStart(cfg: Config, s: R.Server, y: System, k: Links)
    requires R.ServerOk(cfg, s) && Joined(s, y, k)
    ensures Owners(s.poll, k, 1)
  {
    hide R.RegistryOk, R.PeakOk, R.ConnsOk;
    forall j | 1 <= j < |s.poll|
      ensures s.poll[j] in s.byFd && s.poll[j] in k.who
    {
      assert s.poll[1..][j - 1] == s.poll[j];
      assert LinkOk(s, y, k, s.poll[j]);
    }
  }

  /** The newcomer changes nothing for the sockets polled in this round. */
  lemma WelcomeKeeps(cfg: Config, s: R.Server, y: System, k: Links, events: R.Events, c: nat)
    requires R.ServerOk(cfg, s) && Joined(s, y, k) && CanPoll(s, y, k, events, c)
    ensures var l := Welcomed(s, k, events, c); Owners(s.poll, l, 1) && StillCarry(s.poll, y, l, events, 1)
  {
    hide R.RegistryOk, R.PeakOk, R.ConnsOk, Owners, StillCarry, Joined, R.EventsOk;
    OwnersAtStart(cfg, s, y, k);
    CarryAtStart(s, y, k, events);
    var e := R.EventOf(events, s.master);
    if e.Connection? && e.fd >= 0 {
      NewSocket(cfg, s, events);
      OtherLinks(s.poll, y, k, events, e.fd, c);
    }
  }

  lemma NewSocket(cfg: Config, s: R.Server, events: R.Events)
    requires R.ServerOk(cfg, s) && R.EventsOk(s, events) && R.EventOf(events, s.master).Connection?
    ensures var fd := R.EventOf(events, s.master).fd; fd >= 0 ==> fd !in s.byFd && fd !in s.poll
  {
    hide R.RegistryOk, R.PeakOk, R.ConnsOk;
    var e := R.EventOf(events, s.master);
    assert R.EventOk(s, s.master, e);
    assert s.poll == [s.poll[0]] + s.poll[1..];
  }

  lemma CarryAtStart(s: R.Server, y: System, k: Links, events: R.Events)
    requires AllCarry(y, k, events)
    ensures StillCarry(s.poll, y, k, events, 1) && Carries(y, k, s.master, R.EventOf(events, s.master))
  {
  }

  lemma OtherLinks(poll: seq<int>, y: System, k: Links, events: R.Events, fd: int, c: nat)
    requires fd !in poll && Owners(poll, k, 1) && StillCarry(poll, y, k, events, 1)
    ensures Owners(poll, Accepting(k, fd, c), 1) && StillCarry(poll, y, Accepting(k, fd, c), events, 1)
  {
    forall j | 1 <= j < |poll|
      ensures Carries(y, Accepting(k, fd, c), poll[j], R.EventOf(events, poll[j]))
    {
      assert Carries(y, k, poll[j], R.EventOf(events, poll[j]));
    }
  }

  /** The first visit is to the master socket; it accepts the newcomer, if there is one. */
  lemma MasterVisit(cfg: Config, s: R.Server, y: System, k: Links, events: R.Events, c: nat)
    requires R.ServerOk(cfg, s) && Joined(s, y, k) && CanPoll(s, y, k, events, c)
    ensures R.ConnsOk(cfg, s) && R.RegistryOk(s)
    ensures var o := R.Visit(cfg, s, s.master, R.EventOf(events, s.master));
      if Throws(s, events) then o == R.Thrown(s)
      else o.Next? && Joined(o.server, y, Welcomed(s, k, events, c))
  {
    hide R.RegistryOk, R.PeakOk, R.ConnsOk, Joined, R.AddClient, R.EventsOk;
    var e := R.EventOf(events, s.master);
    MasterEvent(cfg, s, y, k, events, c);
    if e.Connection? && e.fd >= 0 {
      AcceptJoins(s, y, k, e.fd, c);
    }
  }

  lemma MasterEvent(cfg: Config, s: R.Server, y: System, k: Links, events: R.Events, c: nat)
    requires R.ServerOk(cfg, s) && CanPoll(s, y, k, events, c)
    ensures var e := R.EventOf(events, s.master);
      && s.master >= 0 && !e.Ready?
      && (e.Connection? ==> e.room == NEW_CONN.room && (e.fd >= 0 ==> e.fd !in s.byFd))
  {
    hide R.RegistryOk, R.PeakOk, R.ConnsOk;
    var e := R.EventOf(events, s.master);
    CarryAtStart(s, y, k, events);
    assert R.EventOk(s, s.master, e);
  }

  // ---- rounds are deliveries ----

  /** Closed sockets leave the poll set; the clients and their connections stay as they are. */
  lemma CleanupJoined(s: R.Server, y: System, k: Links)
    requires Joined(s, y, k)
    ensures Joined(R.Cleanup(s), y, k)
  {
    var n := R.Cleanup(s);
    forall fd | fd in n.byFd
      ensures LinkOk(n, y, k, fd)
    {
      assert LinkOk(s, y, k, fd);
    }
  }

  /** The deliveries of a whole round. */
  function RoundMoves(s: R.Server, l: Links, events: R.Events): seq<Move> {
    if Throws(s, events) then [] else Deliveries(s.poll, l.who, events, 1)
  }

  lemma NobodyWelcomed(s: R.Server, k: Links, events: R.Events, c: nat)
    requires Throws(s, events)
    ensures Welcomed(s, k, events, c) == k
  {
  }

  /**
   * A round of the poll loop is a run of deliveries, one for each socket that
   * had data, in the order of the poll set: afterwards the server has the
   * devices, and for every registered socket the connection, that the system
   * has after those deliveries. A round that throws does nothing.
   */
  lemma RoundIsDeliveries(cfg: Config, s: R.Server, y: System, k: Links, events: R.Events, c: nat)
    requires R.ServerOk(cfg, s) && Joined(s, y, k) && CanPoll(s, y, k, events, c)
    ensures var l := Welcomed(s, k, events, c);
      var moves := RoundMoves(s, l, events); var o := R.Round(cfg, s, events);
      && (o.Thrown? <==> Throws(s, events)) && ValidRun(cfg, y, moves)
      && Joined(o.server, Run(cfg, y, moves), l)
  {
    hide R.ServerOk, R.MidRound, R.Visit, R.VisitFrom, R.EventsOk, Joined, Owners, StillCarry, ValidRun, Run;
    hide Enabled, Next, AllCarry, R.Cleanup, Deliveries, Welcomed, Throws;
    var l := Welcomed(s, k, events, c);
    R.StartOfRound(cfg, s);
    PollDistinct(cfg, s);
    MasterVisit(cfg, s, y, k, events, c);
    R.VisitFromStep(cfg, s, s, events, 0);
    if Throws(s, events) {
      NoMoves(cfg, y);
      NobodyWelcomed(s, k, events, c);
      return;
    }
    WelcomeKeeps(cfg, s, y, k, events, c);
    var n := R.Visit(cfg, s, s.master, R.EventOf(events, s.master)).server;
    VisitsDeliver(cfg, s, n, y, l, events, 1);
    CleanupJoined(R.VisitFrom(cfg, s, s, events, 0).server, Run(cfg, y, Deliveries(s.poll, l.who, events, 1)), l);
  }

  // ---- whole runs of the poll loop with its clients ----

  /** The server of the poll loop beside the clients it serves. */
  datatype Joint = Joint(server: R.Server, system: System, links: Links)

  /** A stub is called or reads from its channel, or the server does a round. */
  datatype Step =
    | Stub(client: nat, action: Action)
    | Poll(events: R.Events, newcomer: nat)

  ghost predicate JointOk(cfg: Config, j: Joint) {
    R.ServerOk(cfg, j.server) && Joined(j.server, j.system, j.links)
  }

  ghost predicate CanStep(cfg: Config, j: Joint, st: Step) {
    match st
    case Stub(c, a) => !a.Deliver? && Enabled(cfg, j.system, c, a)
    case Poll(events, c) => CanPoll(j.server, j.system, j.links, events, c)
  }

  /** The moves of the system that a step makes. */
  function StepMoves(j: Joint, st: Step): seq<Move> {
    match st
    case Stub(c, a) => [Move(c, a)]
    case Poll(events, c) => RoundMoves(j.server, Welcomed(j.server, j.links, events, c), events)
  }

  ghost function StepOf(cfg: Config, j: Joint, st: Step): (n: Joint)
    requires JointOk(cfg, j) && CanStep(cfg, j, st)
    ensures JointOk(cfg, n) && ValidRun(cfg, j.system, StepMoves(j, st))
    ensures n.system == Run(cfg, j.system, StepMoves(j, st))
  {
    StepKeeps(cfg, j, st);
    match st
    case Stub(c, a) => j.(system := Next(cfg, j.system, c, a))
    case Poll(events, c) =>
      Joint(R.Round(cfg, j.server, events).server, Run(cfg, j.system, StepMoves(j, st)),
            Welcomed(j.server, j.links, events, c))
  }

  lemma StepKeeps(cfg: Config, j: Joint, st: Step)
    requires JointOk(cfg, j) && CanStep(cfg, j, st)
    ensures ValidRun(cfg, j.system, StepMoves(j, st))
    ensures var z := Run(cfg, j.system, StepMoves(j, st));
      if st.Stub? then z == Next(cfg, j.system, st.client, st.action) && Joined(j.server, z, j.links)
      else
        var o := R.Round(cfg, j.server, st.events);
        R.ServerOk(cfg, o.server) && Joined(o.server, z, Welcomed(j.server, j.links, st.events, st.newcomer))
  {
    hide R.ServerOk, Joined, Enabled, Next, RoundMoves, Welcomed, ValidRun, Run, R.Round, R.EventsOk, AllCarry;
    match st
    case Stub(c, a) =>
      OneMove(cfg, j.system, c, a);
      StubJoined(cfg, j, c, a);
    case Poll(events, c) =>
      RoundIsDeliveries(cfg, j.server, j.system, j.links, events, c);
      R.RoundKeeps(cfg, j.server, events);
  }

  lemma OneMove(cfg: Config, y: System, c: nat, a: Action)
    requires Enabled(cfg, y, c, a)
    ensures ValidRun(cfg, y, [Move(c, a)]) && Run(cfg, y, [Move(c, a)]) == Next(cfg, y, c, a)
  {
    hide Enabled, Next;
    assert [Move(c, a)][1..] == [];
  }

  /** What a stub does leaves the server's side alone. */
  lemma StubJoined(cfg: Config, j: Joint, c: nat, a: Action)
    requires Joined(j.server, j.system, j.links) && !a.Deliver? && Enabled(cfg, j.system, c, a)
    ensures Joined(j.server, Next(cfg, j.system, c, a), j.links)
  {
    hide CanIssue, CanTake, EncodeRequest, Complete, DecodeReply, Head;
    var z := Next(cfg, j.system, c, a);
    forall fd | fd in j.server.byFd
      ensures LinkOk(j.server, z, j.links, fd)
    {
      assert LinkOk(j.server, j.system, j.links, fd);
    }
  }

  ghost predicate ValidSteps(cfg: Config, j: Joint, steps: seq<Step>)
    requires JointOk(cfg, j)
    decreases |steps|
  {
    steps != [] ==> CanStep(cfg, j, steps[0]) && ValidSteps(cfg, StepOf(cfg, j, steps[0]), steps[1..])
  }

  ghost function RunSteps(cfg: Config, j: Joint, steps: seq<Step>): (n: Joint)
    requires JointOk(cfg, j) && ValidSteps(cfg, j, steps)
    ensures JointOk(cfg, n)
    decreases |steps|
  {
    if steps == [] then j else RunSteps(cfg, StepOf(cfg, j, steps[0]), steps[1..])
  }

  /** All moves of the system in a run of the poll loop and its clients. */
  ghost function AllMoves(cfg: Config, j: Joint, steps: seq<Step>): seq<Move>
    requires JointOk(cfg, j) && ValidSteps(cfg, j, steps)
    decreases |steps|
  {
    if steps == [] then [] else StepMoves(j, steps[0]) + AllMoves(cfg, StepOf(cfg, j, steps[0]), steps[1..])
  }

  lemma {:induction false} RunConcat(cfg: Config, y: System, a: seq<Move>, b: seq<Move>)
    requires ValidRun(cfg, y, a) && ValidRun(cfg, Run(cfg, y, a), b)
    ensures ValidRun(cfg, y, a + b) && Run(cfg, y, a + b) == Run(cfg, Run(cfg, y, a), b)
    decreases |a|
  {
    hide Enabled, Next;
    if a == [] {
      assert a + b == b;
    } else {
      RunConcat(cfg, Next(cfg, y, a[0].client, a[0].action), a[1..], b);
      assert (a + b)[1..] == a[1..] + b;
    }
  }

  /** Every run of the poll loop and its clients is a run of the system. */
  lemma {:induction false} StepsAreMoves(cfg: Config, j: Joint, steps: seq<Step>)
    requires JointOk(cfg, j) && ValidSteps(cfg, j, steps)
    ensures ValidRun(cfg, j.system, AllMoves(cfg, j, steps))
    ensures RunSteps(cfg, j, steps).system == Run(cfg, j.system, AllMoves(cfg, j, steps))
    decreases |steps|
  {
    hide JointOk, CanStep, StepMoves, ValidRun, Run, StepOf;
    if steps == [] {
      NoMoves(cfg, j.system);
    } else {
      var n := StepOf(cfg, j, steps[0]);
      StepsAreMoves(cfg, n, steps[1..]);
      RunConcat(cfg, j.system, StepMoves(j, steps[0]), AllMoves(cfg, n, steps[1..]));
    }
  }

  lemma NoMoves(cfg: Config, y: System)
    ensures ValidRun(cfg, y, []) && Run(cfg, y, []) == y
  {
  }

  function Booted(master: int, y: System): Joint {
    Joint(R.Boot(master, y.world), y, Links(map[], {}))
  }

  lemma BootJoined(cfg: Config, master: int, y: System)
    requires Initial(cfg, y) && master >= 0
    ensures JointOk(cfg, Booted(master, y))
  {
    hide ValidConfig, ValidWorld, QuietPlugins, R.ServerOk;
    R.BootOk(cfg, master, y.world);
  }

  /**
   * The poll loop refines the local devices. Boot the server and let any
   * number of clients connect, call their stubs, read from their channels and
   * disappear between the rounds, in any order, while the rounds receive any
   * part of what has been sent. The server stays in order, and its devices are those
   * of one local run of all requests handled so far, in which every client
   * finds its own requests in order and the results its stubs return.
   */
  lemma PollLoopRefinesLocal(cfg: Config, master: int, s0: System, steps: seq<Step>)
    requires Initial(cfg, s0) && master >= 0
    ensures JointOk(cfg, Booted(master, s0)) && GoodLocal(cfg, Start(s0))
    ensures ValidSteps(cfg, Booted(master, s0), steps) ==>
      var j := RunSteps(cfg, Booted(master, s0), steps);
      var log := j.system.log;
      && R.ServerOk(cfg, j.server) && Joined(j.server, j.system, j.links)
      && KnownClients(Start(s0), log) && Performed(cfg, Start(s0), log)
      && j.server.world == LocalRun(cfg, Start(s0), log).world
      && forall c :: c in j.system.peers ==>
           c in LocalRun(cfg, Start(s0), log).accounts
           && ClientSees(cfg, log, LocalRun(cfg, Start(s0), log).accounts[c], c, j.system.peers[c])
  {
    hide Initial, Start, GoodLocal, R.ServerOk, ValidSteps, RunSteps, KnownClients, Performed, LocalRun, ClientSees;
    hide ValidRun, Run, AllMoves, LinkOk, R.Boot;
    BootJoined(cfg, master, s0);
    NoMoves(cfg, s0);
    RemoteRefinesLocal(cfg, s0, []);
    if ValidSteps(cfg, Booted(master, s0), steps) {
      StepsAreMoves(cfg, Booted(master, s0), steps);
      RemoteRefinesLocal(cfg, s0, AllMoves(cfg, Booted(master, s0), steps));
    }
  }
}

/**
 * The server object: client registry and poll loop (src/server/hwio_server.cpp)
 * on the objects of Server, proved against the state machine of Rounds.
 */
module PollLoop {
  import opened Bytes
  import opened Framing
  import opened Handlers
  import opened Rounds
  import opened Wire

  import S = Server

  type Clients = map<int, S.ClientInfo>

  function Socket(c: S.ClientInfo?): Option<int> {
    if c == null then None else Some(c.fd)
  }

  function SocketsOf(clients: seq<S.ClientInfo?>): (slots: seq<Option<int>>)
    ensures |slots| == |clients|
  {
    seq(|clients|, i requires 0 <= i < |clients| => Socket(clients[i]))
  }

  /** The empty position is filled, or a new one added at the end. */
  ghost function Placed(clients: seq<S.ClientInfo?>, c: S.ClientInfo): seq<S.ClientInfo?>
    requires c.id <= |clients|
  {
    if c.id < |clients| then clients[c.id := c] else clients + [c]
  }

  lemma PlacedClient(clients: seq<S.ClientInfo?>, c: S.ClientInfo)
    requires c.id <= |clients| && (c.id < |clients| ==> clients[c.id] == null)
    ensures var after, slots := Placed(clients, c), SocketsOf(clients);
      && |clients| <= |after| && c.id < |after| && after[c.id] == c
      && (forall i :: 0 <= i < |clients| && clients[i] != null ==> after[i] == clients[i])
      && SocketsOf(after) == if c.id < |slots| then slots[c.id := Some(c.fd)] else slots + [Some(c.fd)]
  {
  }

  // ---- the objects of the registry ----

  /** c is the client of a socket: in the slot of its id, in the state it should be in. */
  ghost predicate Stored(fd: int, c: S.ClientInfo, state: Client, clients: seq<S.ClientInfo?>, txBuffer: array<byte>)
    reads c, c.buffer
  {
    && c.fd == fd && c.buffer != txBuffer && c.id < |clients| && clients[c.id] == c
    && c.Valid() && state == Client(c.id, c.State())
  }

  ghost function Objects(m: Clients): set<object> {
    set fd | fd in m :: m[fd]
  }

  ghost function Buffers(m: Clients): set<object> {
    set fd | fd in m :: m[fd].buffer
  }

  /** Each client is stored under its socket and has a buffer of its own. */
  ghost predicate AllStored(m: Clients, byFd: map<int, Client>, clients: seq<S.ClientInfo?>, txBuffer: array<byte>)
    reads Objects(m), Buffers(m)
  {
    && m.Keys == byFd.Keys
    && (forall fd :: fd in m ==> Stored(fd, m[fd], byFd[fd], clients, txBuffer))
    && forall fd, g :: fd in m && g in m && fd != g ==> m[fd].buffer != m[g].buffer
  }

  lemma SlotsChange(m: Clients, byFd: map<int, Client>, before: seq<S.ClientInfo?>, after: seq<S.ClientInfo?>,
      txBuffer: array<byte>)
    requires AllStored(m, byFd, before, txBuffer)
    requires |before| <= |after|
    requires forall i :: 0 <= i < |before| && before[i] != null && before[i].fd in m ==> after[i] == before[i]
    ensures AllStored(m, byFd, after, txBuffer)
  {
    forall fd | fd in m
      ensures Stored(fd, m[fd], byFd[fd], after, txBuffer)
    {
      assert Stored(fd, m[fd], byFd[fd], before, txBuffer);
    }
  }

  lemma StoreOne(m: Clients, byFd: map<int, Client>, clients: seq<S.ClientInfo?>, txBuffer: array<byte>,
      fd: int, c: S.ClientInfo, state: Client)
    requires AllStored(m, byFd, clients, txBuffer) && fd !in m
    requires Stored(fd, c, state, clients, txBuffer) && c.buffer !in Buffers(m)
    ensures AllStored(m[fd := c], byFd[fd := state], clients, txBuffer)
  {
    hide Stored;
    forall g | g in m
      ensures m[g].buffer in Buffers(m)
    {
    }
  }

  lemma DropOne(m: Clients, byFd: map<int, Client>, clients: seq<S.ClientInfo?>, txBuffer: array<byte>, fd: int)
    requires AllStored(m, byFd, clients, txBuffer)
    ensures AllStored(m - {fd}, byFd - {fd}, clients, txBuffer)
    ensures fd in m ==> m[fd] !in Objects(m - {fd}) && m[fd].buffer !in Buffers(m - {fd})
    ensures txBuffer !in Buffers(m - {fd})
  {
  }

  lemma ObjectsGrow(m: Clients, fd: int, c: S.ClientInfo)
    ensures Objects(m[fd := c]) <= Objects(m) + {c} && Buffers(m[fd := c]) <= Buffers(m) + {c.buffer}
  {
  }

  /** What is known of a registered client. */
  lemma ClientAt(m: Clients, byFd: map<int, Client>, clients: seq<S.ClientInfo?>, txBuffer: array<byte>, fd: int)
    requires AllStored(m, byFd, clients, txBuffer) && fd in m
    ensures fd in byFd && Stored(fd, m[fd], byFd[fd], clients, txBuffer)
    ensures var c := m[fd];
      && c.fd == fd && c.buffer != txBuffer && c.id < |clients| && clients[c.id] == c
      && c.Valid() && byFd[fd] == Client(c.id, c.State())
  {
  }

  /** A client stays stored when only its state has changed. */
  lemma StoredNow(fd: int, c: S.ClientInfo, clients: seq<S.ClientInfo?>, txBuffer: array<byte>)
    requires c.fd == fd && c.buffer != txBuffer && c.id < |clients| && clients[c.id] == c && c.Valid()
    ensures Stored(fd, c, Client(c.id, c.State()), clients, txBuffer)
  {
  }

  class HwioServer {
    const handler: S.MessageHandler
    const masterSocket: int
    var clients: seq<S.ClientInfo?>
    var fdToClient: Clients
    var pollFds: seq<int>
    var removedPollFds: seq<int>
    /** The state in the terms of Rounds. */
    ghost var state: Server

    constructor (cfg: Config, world: World, masterSocket: int)
      ensures Valid() && state == Boot(masterSocket, world)
      ensures handler.cfg == cfg && fresh(handler) && fresh(handler.txBuffer) && fdToClient == map[]
    {
      handler := new S.MessageHandler(cfg, world);
      this.masterSocket := masterSocket;
      clients, fdToClient, pollFds, removedPollFds := [], map[], [masterSocket], [];
      state := Boot(masterSocket, world);
    }

    ghost predicate Valid()
      reads this, handler, Objects(fdToClient), Buffers(fdToClient)
    {
      Plain() && AllStored(fdToClient, state.byFd, clients, handler.txBuffer)
    }

    ghost predicate Plain()
      reads this, handler
    {
      && handler.Ready() && fdToClient.Keys == state.byFd.Keys
      && state.master == masterSocket && state.world == handler.world
      && state.slots == SocketsOf(clients) && state.poll == pollFds && state.removed == removedPollFds
    }

    lemma NotInside(m: Clients)
      ensures this !in Objects(m) && this !in Buffers(m) && handler !in Objects(m) && handler !in Buffers(m)
    {
    }

    /** The loop over clients that looks for an empty position. */
    method FirstEmpty() returns (id: nat)
      ensures id == FreeSlot(SocketsOf(clients)) <= |clients| && (id < |clients| ==> clients[id] == null)
    {
      id := 0;
      while id < |clients|
        invariant id <= |clients| && forall j :: 0 <= j < id ==> clients[j] != null
      {
        if clients[id] == null {
          break;
        }
        id := id + 1;
      }
      IndexIs(SocketsOf(clients), None, id);
    }

    /** A new client takes its place in clients, fd_to_client and poll_fds. */
    method Enter(client: S.ClientInfo)
      requires Valid() && client.fd !in fdToClient && client.id == FreeSlot(SocketsOf(clients)) <= |clients|
      requires client.id < |clients| ==> clients[client.id] == null
      requires client.Valid() && client.State() == NEW_CONN.(room := client.room)
      requires client.buffer !in Buffers(fdToClient) && client.buffer != handler.txBuffer
      modifies this
      ensures Valid() && state == AddClient(old(state), client.fd, client.room)
      ensures fdToClient == old(fdToClient)[client.fd := client]
    {
      hide SocketsOf, FreeSlot, NEW_CONN, AllStored, Stored, Objects, Buffers;
      NotInside(fdToClient);
      NotInside(fdToClient[client.fd := client]);
      ghost var after := Placed(clients, client);
      PlacedClient(clients, client);
      SlotsChange(fdToClient, state.byFd, clients, after, handler.txBuffer);
      StoredNow(client.fd, client, after, handler.txBuffer);
      StoreOne(fdToClient, state.byFd, after, handler.txBuffer, client.fd, client, Client(client.id, client.State()));
      if client.id < |clients| {
        clients := clients[client.id := client];
      } else {
        clients := clients + [client];
      }
      fdToClient := fdToClient[client.fd := client];
      pollFds := pollFds + [client.fd];
      state := AddClient(state, client.fd, client.room);
    }

    method AddNewClient(socket: int, room: int) returns (client: S.ClientInfo)
      requires Valid() && socket !in fdToClient
      modifies this
      ensures Valid() && state == AddClient(old(state), socket, room)
      ensures fdToClient == old(fdToClient)[socket := client] && fresh(client) && fresh(client.buffer)
    {
      hide SocketsOf, FreeSlot, AllStored;
      var id := FirstEmpty();
      NotInside(fdToClient);
      client := new S.ClientInfo(id, socket, room);
      Enter(client);
    }

    /** Removing the client of a socket; the socket is closed with it. */
    method RemoveClient(socket: int)
      requires Valid()
      modifies this
      ensures Valid() && (socket in old(state.byFd) ==> old(state.byFd[socket]).id < |old(state.slots)|)
      ensures state == Rounds.RemoveClient(old(state), socket)
      ensures fdToClient == old(fdToClient) - {socket}
    {
      hide SocketsOf, AllStored, Stored, Objects, Buffers;
      if socket !in fdToClient {
        assert fdToClient - {socket} == fdToClient;
        return;
      }
      ClientAt(fdToClient, state.byFd, clients, handler.txBuffer, socket);
      var client := fdToClient[socket];
      NotInside(fdToClient - {socket});
      ghost var before := clients;
      RemovedSlot(clients, client.id);
      DropOne(fdToClient, state.byFd, clients, handler.txBuffer, socket);
      clients := clients[client.id := null];
      fdToClient := fdToClient - {socket};
      SlotsChange(fdToClient, state.byFd - {socket}, before, clients, handler.txBuffer);
      state := Rounds.RemoveClient(state, socket);
    }

    /** remove_client, and the socket is taken off the poll set after the round. */
    method Disconnect(socket: int)
      requires Valid()
      modifies this
      ensures Valid() && (socket in old(state.byFd) ==> old(state.byFd[socket]).id < |old(state.slots)|)
      ensures state == Drop(old(state), socket)
      ensures fdToClient == old(fdToClient) - {socket}
    {
      hide AllStored;
      RemoveClient(socket);
      NotInside(fdToClient);
      removedPollFds := removedPollFds + [socket];
      state := state.(removed := removedPollFds);
    }

    /** The client count; the assertion compares it with the size of fd_to_client. */
    method GetClientCnt() returns (i: nat)
      requires Valid() && RegistryOk(state)
      ensures i == Count(state.slots) == |fdToClient|
    {
      i := 0;
      for k := 0 to |clients|
        invariant i == Count(state.slots[..k])
      {
        assert state.slots[..k + 1][..k] == state.slots[..k];
        if clients[k] != null {
          i := i + 1;
        }
      }
      assert state.slots[..|clients|] == state.slots;
      CountMatchesMap(state);
      assert |fdToClient| == |fdToClient.Keys| == |state.byFd.Keys|;
      assert i == |fdToClient|;
    }

    /** read_from_socket: what recv gives goes behind the pending bytes, moved to the front. */
    method ReadFromSocket(client: S.ClientInfo, input: Input) returns (ok: bool)
      requires client.Valid() && InputFits(client.State(), input)
      modifies client`currPtr, client`currLen, client.buffer
      ensures client.Valid() && ok == input.Chunk?
      ensures client.State() == if input.Chunk? then Arrived(old(client.State()), input.data) else old(client.State())
    {
      client.Compact();
      ok := input.Chunk?;
      if input.Chunk? {
        client.Receive(input.data);
      }
    }

    /** What handling a client leaves behind when it has not been removed. */
    ghost function Updated(s: Server, fd: int, w: World, c: Conn): Server
      requires fd in s.byFd
    {
      s.(world := w, byFd := s.byFd[fd := s.byFd[fd].(conn := c)])
    }

    /** A client that has been changed is put back where it was. */
    ghost method PutBack(sd: int, client: S.ClientInfo)
      requires handler.Ready() && sd in fdToClient && fdToClient[sd] == client && fdToClient.Keys == state.byFd.Keys
      requires state.slots == SocketsOf(clients) && state.master == masterSocket
      requires state.poll == pollFds && state.removed == removedPollFds
      requires AllStored(fdToClient - {sd}, state.byFd - {sd}, clients, handler.txBuffer)
      requires client.Valid() && Stored(sd, client, Client(client.id, client.State()), clients, handler.txBuffer)
      requires client.buffer !in Buffers(fdToClient - {sd}) && state.byFd[sd].id == client.id
      modifies this`state
      ensures Valid() && state == Updated(old(state), sd, handler.world, client.State())
    {
      hide AllStored, Stored, SocketsOf;
      NotInside(fdToClient - {sd});
      var now := Client(client.id, client.State());
      StoreOne(fdToClient - {sd}, state.byFd - {sd}, clients, handler.txBuffer, sd, client, now);
      assert (fdToClient - {sd})[sd := client] == fdToClient;
      assert (state.byFd - {sd})[sd := now] == state.byFd[sd := now];
      NotInside(fdToClient);
      state := Updated(state, sd, handler.world, client.State());
    }

    /** Receiving from a registered client and parsing; closed tells that it has to go. */
    method Converse(sd: int, input: Input) returns (closed: bool)
      requires Valid() && sd in fdToClient && sd in state.byFd
      requires ValidConfig(handler.cfg)
      requires ValidWorld(handler.cfg, state.world) && ValidTable(handler.cfg, state.byFd[sd].conn.table)
      requires InputFits(state.byFd[sd].conn, input)
      modifies this`state, handler`world, handler.txBuffer, fdToClient[sd], fdToClient[sd].buffer
      ensures Valid()
      ensures var c := old(state.byFd[sd].conn);
        if input.Gone? then closed && state == old(state)
        else
          var d := Drain(handler.cfg, old(state.world), Arrived(c, input.data));
          closed == d.closed && state == Updated(old(state), sd, d.world, d.conn)
    {
      hide SocketsOf, ValidConfig, ValidWorld, ValidTable, Drain, AllStored, Stored;
      var client := fdToClient[sd];
      ClientAt(fdToClient, state.byFd, clients, handler.txBuffer, sd);
      DropOne(fdToClient, state.byFd, clients, handler.txBuffer, sd);
      NotInside(fdToClient - {sd});
      var ok := ReadFromSocket(client, input);
      closed := true;
      if ok {
        closed := handler.ParseFrames(client);
      }
      StoredNow(sd, client, clients, handler.txBuffer);
      PutBack(sd, client);
      assert input.Gone? ==> state.byFd == old(state.byFd);
    }

    /** Only clients that are new have been added, with new buffers. */
    twostate predicate OnlyNewClients()
      reads this
    {
      fresh(Objects(fdToClient) - old(Objects(fdToClient))) && fresh(Buffers(fdToClient) - old(Buffers(fdToClient)))
    }

    /** The client that handle_multiple_client_requests makes up for a socket it does not know. */
    method AddUnknown(sd: int)
      requires Valid() && sd !in fdToClient
      modifies this
      ensures Valid() && OnlyNewClients() && sd in fdToClient && fresh(fdToClient[sd]) && fresh(fdToClient[sd].buffer)
      ensures state == AddClient(old(state), sd, -1).(fallbacks := old(state).fallbacks + 1)
    {
      hide SocketsOf, Stored, FreeSlot, AllStored, Objects, Buffers;
      ghost var before := fdToClient;
      var added := AddNewClient(sd, -1);
      ObjectsGrow(before, sd, added);
      NotInside(fdToClient);
      state := state.(fallbacks := state.fallbacks + 1);
    }

    method ServeKnown(sd: int, input: Input)
      requires Valid() && sd in fdToClient && sd in state.byFd && state.byFd[sd].id < |state.slots|
      requires ValidConfig(handler.cfg)
      requires ValidWorld(handler.cfg, state.world) && ValidTable(handler.cfg, state.byFd[sd].conn.table)
      requires InputFits(state.byFd[sd].conn, input)
      modifies this, handler`world, handler.txBuffer, fdToClient[sd], fdToClient[sd].buffer
      ensures Valid() && fdToClient == if sd in state.byFd then old(fdToClient) else old(fdToClient) - {sd}
      ensures state == ServeRegistered(handler.cfg, old(state), sd, input)
    {
      hide SocketsOf, ValidConfig, ValidWorld, ValidTable, Drain, Stored, AllStored;
      var closed := Converse(sd, input);
      if closed {
        Disconnect(sd);
      }
    }

    method HandleMultipleClientRequests(sd: int, input: Input)
      requires Valid() && ConnsOk(handler.cfg, state) && RegistryOk(state)
      requires InputFits(if sd in state.byFd then state.byFd[sd].conn else NEW_CONN, input)
      modifies this, handler`world, handler.txBuffer, Objects(fdToClient), Buffers(fdToClient)
      ensures Valid() && OnlyNewClients()
      ensures state == ServeClient(handler.cfg, old(state), sd, input)
    {
      hide AllStored, SocketsOf, ServeRegistered, RegistryOk, ConnsOk, AddClient, ValidConfig, ValidWorld, ValidTable;
      CanServe(handler.cfg, state, sd);
      if sd !in fdToClient {
        AddUnknown(sd);
      }
      ServeKnown(sd, input);
    }

    /** The body of the loop over poll_fds; thrown tells that an exception leaves the round. */
    method VisitSocket(fd: int, e: Event) returns (thrown: bool)
      requires Valid() && ConnsOk(handler.cfg, state) && RegistryOk(state)
      requires e.Connection? ==> fd == masterSocket && (e.fd >= 0 ==> e.fd !in state.byFd)
      requires e.Ready? ==>
        fd != masterSocket && InputFits(if fd in state.byFd then state.byFd[fd].conn else NEW_CONN, e.input)
      modifies this, handler`world, handler.txBuffer, Objects(fdToClient), Buffers(fdToClient)
      ensures Valid() && OnlyNewClients()
      ensures Visit(handler.cfg, old(state), fd, e) == if thrown then Thrown(state) else Next(state)
    {
      hide AllStored, SocketsOf, ServeClient, RegistryOk, ConnsOk, AddClient, Drop, InputFits;
      thrown := false;
      if fd < 0 || e == Idle {
        return;
      }
      if e.Fault? {
        if fd == masterSocket {
          thrown := true;
        } else {
          Disconnect(fd);
        }
      } else if fd == masterSocket {
        if e.fd < 0 {
          thrown := true;
        } else {
          var client := AddNewClient(e.fd, e.room);
        }
      } else {
        HandleMultipleClientRequests(fd, e.input);
      }
    }

    /** The rebuild of poll_fds, with the inner loop over the removed sockets. */
    method Rebuild()
      requires Valid()
      modifies this
      ensures Valid() && state == Cleanup(old(state)) && fdToClient == old(fdToClient)
    {
      hide AllStored, SocketsOf;
      if removedPollFds == [] {
        return;
      }
      var kept := [];
      for i := 0 to |pollFds|
        invariant kept == Keep(pollFds[..i], removedPollFds)
      {
        var add := true;
        for j := 0 to |removedPollFds|
          invariant add && pollFds[i] !in removedPollFds[..j]
        {
          if pollFds[i] == removedPollFds[j] {
            add := false;
            break;
          }
        }
        if add {
          assert removedPollFds[..|removedPollFds|] == removedPollFds;
          kept := kept + [pollFds[i]];
        }
        assert pollFds[..i + 1][..i] == pollFds[..i];
      }
      assert pollFds[..|pollFds|] == pollFds;
      NotInside(fdToClient);
      pollFds, removedPollFds := kept, [];
      state := Cleanup(state);
    }

    /** How far a round that started in s0 has come. */
    ghost predicate Midway(cfg: Config, s0: Server, events: Events, i: nat)
      requires ServerOk(cfg, s0) && EventsOk(s0, events) && MidRound(cfg, s0, s0, 0)
      reads this, handler, Objects(fdToClient), Buffers(fdToClient)
    {
      && Valid() && handler.cfg == cfg && i <= |s0.poll| && MidRound(cfg, s0, state, i)
      && VisitFrom(cfg, s0, s0, events, 0) == VisitFrom(cfg, s0, state, events, i)
    }

    method VisitNext(events: Events, i: nat, ghost cfg: Config, ghost s0: Server) returns (thrown: bool)
      requires ServerOk(cfg, s0) && EventsOk(s0, events) && MidRound(cfg, s0, s0, 0)
      requires Midway(cfg, s0, events, i) && i < |s0.poll|
      modifies this, handler`world, handler.txBuffer, Objects(fdToClient), Buffers(fdToClient)
      ensures Valid() && OnlyNewClients()
      ensures if thrown then VisitFrom(cfg, s0, s0, events, 0) == Thrown(state) else Midway(cfg, s0, events, i + 1)
    {
      hide AllStored, SocketsOf, MidRound, Visit, VisitFrom, RegistryOk, ConnsOk, ServerOk, InputFits;
      hide EventsOk, Objects, Buffers;
      NotInside(fdToClient);
      VisitPossible(cfg, s0, state, events, i);
      VisitFromStep(cfg, s0, state, events, i);
      thrown := VisitSocket(pollFds[i], EventOf(events, pollFds[i]));
    }

    /** The sockets polled when the round starts are visited in order, up to an exception. */
    method VisitAll(events: Events) returns (thrown: bool)
      requires Valid() && ServerOk(handler.cfg, state)
      requires EventsOk(state, events) && MidRound(handler.cfg, state, state, 0)
      modifies this, handler`world, handler.txBuffer, Objects(fdToClient), Buffers(fdToClient)
      ensures Valid() && OnlyNewClients()
      ensures var s0 := old(state);
        && VisitFrom(handler.cfg, s0, s0, events, 0) == (if thrown then Thrown(state) else Next(state))
        && (!thrown ==> MidRound(handler.cfg, s0, state, |s0.poll|))
    {
      hide AllStored, SocketsOf, MidRound, Visit, VisitFrom, RegistryOk, ConnsOk, ServerOk, InputFits, EventsOk;
      ghost var cfg, s0 := handler.cfg, state;
      thrown := false;
      var cnt, i := |pollFds|, 0;
      while i < cnt && !thrown
        invariant OnlyNewClients() && i <= cnt == |s0.poll|
        invariant if thrown then Valid() && VisitFrom(cfg, s0, s0, events, 0) ==
          Thrown(state) else Midway(cfg, s0, events, i)
        decreases cnt - i, !thrown
      {
        hide Valid, Midway;
        thrown := VisitNext(events, i, cfg, s0);
        i := i + 1;
      }
      if !thrown {
        VisitFromEnd(cfg, s0, state, events);
      }
    }

    /** One round, for what ppoll reports. */
    method PoolClientMsgs(events: Events) returns (thrown: bool)
      requires Valid() && ServerOk(handler.cfg, state) && EventsOk(state, events)
      modifies this, handler`world, handler.txBuffer, Objects(fdToClient), Buffers(fdToClient)
      ensures Valid() && OnlyNewClients() && ServerOk(handler.cfg, state)
      ensures Round(handler.cfg, old(state), events) == if thrown then Thrown(state) else Next(state)
    {
      hide AllStored, SocketsOf, MidRound, VisitFrom, ServerOk, EventsOk, Cleanup, Objects, Buffers;
      NotInside(fdToClient);
      StartOfRound(handler.cfg, state);
      RoundKeeps(handler.cfg, state, events);
      thrown := VisitAll(events);
      if !thrown {
        Rebuild();
      }
    }
  }

  /** The client of a polled socket, made up or not, can be served. */
  lemma CanServe(cfg: Config, s: Server, sd: int)
    requires ConnsOk(cfg, s) && RegistryOk(s)
    ensures var n := if sd in s.byFd then s else AddClient(s, sd, -1).(fallbacks := s.fallbacks + 1);
      && sd in n.byFd && n.byFd[sd].id < |n.slots|
      && ValidConfig(cfg) && ValidWorld(cfg, n.world) && ValidTable(cfg, n.byFd[sd].conn.table)
      && (sd !in s.byFd ==> n.byFd[sd].conn == NEW_CONN)
  {
  }

  lemma VisitFromEnd(cfg: Config, s0: Server, s: Server, events: Events)
    requires ServerOk(cfg, s0) && EventsOk(s0, events) && MidRound(cfg, s0, s, |s0.poll|)
    ensures VisitFrom(cfg, s0, s, events, |s0.poll|) == Next(s)
  {
    hide ServerOk, EventsOk, MidRound, Visit;
  }

  lemma RemovedSlot(clients: seq<S.ClientInfo?>, id: nat)
    requires id < |clients|
    ensures SocketsOf(clients[id := null]) == SocketsOf(clients)[id := None]
  {
  }
}

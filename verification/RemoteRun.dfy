/**
 * Whole runs of the remote protocol: any number of clients, one server, FIFO
 * byte channels in between, all stepping in any order and moving any number of
 * bytes at a time. Every run is a run of the local devices.
 */
module RemoteRun {
  import opened Bytes
  import opened BlockTransfer
  import opened Framing
  import opened Handlers
  import opened Service
  import opened Wire

  // ---- the local reference ----

  /** The requests of all clients in the order in which they take effect. */
  datatype Event = Event(client: nat, request: Request)

  /** What a client holds: its device table on the server and the results it has been given. */
  datatype Account = Account(table: Table, results: seq<Reply>)

  datatype Local = Local(world: World, accounts: map<nat, Account>)

  ghost predicate GoodLocal(cfg: Config, s: Local) {
    && ValidConfig(cfg) && ValidWorld(cfg, s.world)
    && forall c :: c in s.accounts ==> ValidTable(cfg, s.accounts[c].table)
  }

  predicate AccountGrows(a: Account, b: Account) {
    a.table <= b.table && a.results <= b.results
  }

  /** What the requests of one client can change. */
  predicate Follows(s: Local, n: Local, c: nat)
    requires c in s.accounts
  {
    && SameShape(n.world, s.world) && n.accounts.Keys == s.accounts.Keys
    && AccountGrows(s.accounts[c], n.accounts[c])
    && forall k :: k in s.accounts && k != c ==> n.accounts[k] == s.accounts[k]
  }

  /** One request performed on the local devices; nothing happens if the caller may not make it. */
  ghost function LocalStep(cfg: Config, s: Local, c: nat, r: Request): (n: Local)
    requires GoodLocal(cfg, s) && c in s.accounts
    ensures GoodLocal(cfg, n) && Follows(s, n, c)
  {
    var a := s.accounts[c];
    if !Acceptable(cfg, s.world, a.table, r) then s
    else
      var served := Serve(cfg, s.world, a.table, r);
      ServeKeeps(cfg, s.world, a.table, r);
      var answer := if served.reply.Some? then [served.reply.value] else [];
      Local(served.world, s.accounts[c := Account(served.table, a.results + answer)])
  }

  lemma ServeKeeps(cfg: Config, w: World, t: Table, r: Request)
    requires ValidConfig(cfg) && ValidWorld(cfg, w) && ValidTable(cfg, t) && Acceptable(cfg, w, t, r)
    ensures var s := Serve(cfg, w, t, r);
      && ValidWorld(cfg, s.world) && ValidTable(cfg, s.table) && SameShape(s.world, w) && t <= s.table
  {
    hide Handle, Serve, ValidConfig, ValidTable;
    HandleServes(cfg, w, t, r);
    HandleKeeps(cfg, w, t, Command(r), Body(r));
  }

  predicate KnownClients(s: Local, log: seq<Event>) {
    forall i :: 0 <= i < |log| ==> log[i].client in s.accounts
  }

  /** All requests of a log, one after the other. */
  ghost function LocalRun(cfg: Config, s: Local, log: seq<Event>): (n: Local)
    requires GoodLocal(cfg, s) && KnownClients(s, log)
    ensures GoodLocal(cfg, n) && n.accounts.Keys == s.accounts.Keys
  {
    if log == [] then s
    else
      var last := log[|log| - 1];
      LocalStep(cfg, LocalRun(cfg, s, log[..|log| - 1]), last.client, last.request)
  }

  /** Every request of the log may be made where it is made. */
  ghost predicate Performed(cfg: Config, s: Local, log: seq<Event>)
    requires GoodLocal(cfg, s) && KnownClients(s, log)
  {
    log != [] ==>
      var last := log[|log| - 1];
      var before := LocalRun(cfg, s, log[..|log| - 1]);
      && Performed(cfg, s, log[..|log| - 1])
      && Acceptable(cfg, before.world, before.accounts[last.client].table, last.request)
  }

  /** A stretch of requests of one client. */
  ghost function Stretch(cfg: Config, s: Local, c: nat, rs: seq<Request>): (n: Local)
    requires GoodLocal(cfg, s) && c in s.accounts
    ensures GoodLocal(cfg, n) && Follows(s, n, c)
    decreases |rs|
  {
    if rs == [] then s
    else
      var m := LocalStep(cfg, s, c, rs[0]);
      var n := Stretch(cfg, m, c, rs[1..]);
      FollowsTwice(s, m, n, c);
      n
  }

  lemma FollowsTwice(a: Local, b: Local, d: Local, c: nat)
    requires c in a.accounts && Follows(a, b, c) && Follows(b, d, c)
    ensures Follows(a, d, c)
  {
  }

  function Events(c: nat, rs: seq<Request>): (log: seq<Event>)
    ensures |log| == |rs|
  {
    seq(|rs|, i requires 0 <= i < |rs| => Event(c, rs[i]))
  }

  lemma RunOneMore(cfg: Config, s: Local, log: seq<Event>, c: nat, r: Request)
    requires GoodLocal(cfg, s) && KnownClients(s, log) && c in s.accounts
    ensures KnownClients(s, log + [Event(c, r)])
    ensures LocalRun(cfg, s, log + [Event(c, r)]) == LocalStep(cfg, LocalRun(cfg, s, log), c, r)
  {
    hide GoodLocal, LocalStep;
    assert (log + [Event(c, r)])[..|log|] == log;
  }

  lemma {:induction false} StretchExtendsRun(cfg: Config, s: Local, log: seq<Event>, c: nat, rs: seq<Request>)
    requires GoodLocal(cfg, s) && KnownClients(s, log) && c in s.accounts
    ensures KnownClients(s, log + Events(c, rs))
    ensures LocalRun(cfg, s, log + Events(c, rs)) == Stretch(cfg, LocalRun(cfg, s, log), c, rs)
    decreases |rs|
  {
    hide GoodLocal, LocalStep, LocalRun, Follows;
    if rs == [] {
      assert log + Events(c, rs) == log;
    } else {
      var longer := log + [Event(c, rs[0])];
      RunOneMore(cfg, s, log, c, rs[0]);
      StretchExtendsRun(cfg, s, longer, c, rs[1..]);
      assert log + Events(c, rs) == longer + Events(c, rs[1..]);
    }
  }

  /** Two stretches of one client are one. */
  lemma {:induction false} StretchConcat(cfg: Config, s: Local, c: nat, a: seq<Request>, b: seq<Request>)
    requires GoodLocal(cfg, s) && c in s.accounts
    ensures Stretch(cfg, s, c, a + b) == Stretch(cfg, Stretch(cfg, s, c, a), c, b)
    decreases |a|
  {
    hide GoodLocal, LocalStep, Stretch;
    if a == [] {
      StretchOfNone(cfg, s, c);
      assert a + b == b;
    } else {
      StretchOfMore(cfg, s, c, a[0], a[1..]);
      StretchOfMore(cfg, s, c, a[0], a[1..] + b);
      StretchConcat(cfg, LocalStep(cfg, s, c, a[0]), c, a[1..], b);
      assert a == [a[0]] + a[1..] && a + b == [a[0]] + (a[1..] + b);
    }
  }

  // ---- streams of requests and replies ----

  predicate AllEncodable(rs: seq<Request>) {
    forall i :: 0 <= i < |rs| ==> Encodable(rs[i])
  }

  function EncodeRequests(rs: seq<Request>): bytes
    requires AllEncodable(rs)
  {
    if rs == [] then [] else EncodeRequest(rs[0]) + EncodeRequests(rs[1..])
  }

  predicate AllFit(replies: seq<Reply>) {
    forall i :: 0 <= i < |replies| ==> ReplyFits(replies[i])
  }

  function EncodeReplies(replies: seq<Reply>): bytes
    requires AllFit(replies)
  {
    if replies == [] then [] else EncodeReply(replies[0]) + EncodeReplies(replies[1..])
  }

  lemma {:induction false} RequestsConcat(a: seq<Request>, b: seq<Request>)
    requires AllEncodable(a) && AllEncodable(b)
    ensures EncodeRequests(a + b) == EncodeRequests(a) + EncodeRequests(b)
  {
    hide EncodeRequest, Encodable;
    if a == [] {
      assert a + b == b;
    } else {
      RequestsConcat(a[1..], b);
      assert (a + b)[1..] == a[1..] + b;
    }
  }

  lemma {:induction false} RepliesConcat(a: seq<Reply>, b: seq<Reply>)
    requires AllFit(a) && AllFit(b)
    ensures EncodeReplies(a + b) == EncodeReplies(a) + EncodeReplies(b)
  {
    hide EncodeReply, ReplyFits;
    if a == [] {
      assert a + b == b;
    } else {
      RepliesConcat(a[1..], b);
      assert (a + b)[1..] == a[1..] + b;
    }
  }

  // ---- the system ----

  /**
   * A client and its connection. `issued` are the requests of its stubs,
   * `received` the replies they have returned; `got` is a reply frame that has
   * been read in part; `done` counts the requests the server has handled.
   */
  datatype Peer = Peer(
    issued: seq<Request>, received: seq<Reply>, got: bytes,
    toServer: bytes, toClient: bytes,
    conn: Conn, open: bool, done: nat)

  /** log records the order in which the server has handled requests. */
  datatype System = System(world: World, peers: map<nat, Peer>, log: seq<Event>)

  function Awaited(rs: seq<Request>): (n: nat)
    ensures n <= |rs|
  {
    if rs == [] then 0
    else Awaited(rs[..|rs| - 1]) + if Awaits(rs[|rs| - 1]) then 1 else 0
  }

  /** A stub returns only after the reply it awaits, so at most one is outstanding. */
  predicate Waiting(p: Peer) {
    Awaited(p.issued) != |p.received|
  }

  predicate SaidBye(p: Peer) {
    p.issued != [] && p.issued[|p.issued| - 1].Bye?
  }

  /** Plugins that do not raise exceptions. */
  ghost predicate QuietPlugins(cfg: Config) {
    forall i, d: DevState, a: bytes :: 0 <= i < |cfg.fast| ==> cfg.fast[i].fn(d, a).Done?
  }

  datatype Action =
    | Issue(request: Request)
    | Deliver(n: nat)
    | Take(n: nat)

  function Issued(p: Peer, r: Request): Peer
    requires Encodable(r)
  {
    p.(issued := p.issued + [r], toServer := p.toServer + EncodeRequest(r))
  }

  /** A stub is called: it is not waiting, has not said goodbye, and asks for something it may. */
  ghost predicate CanIssue(cfg: Config, s: System, p: Peer, r: Request) {
    && Good(cfg, s.world, p.conn)
    && !SaidBye(p) && !Waiting(p) && Encodable(r) && Acceptable(cfg, s.world, p.conn.table, r)
  }

  /** The server receives some of the bytes in flight and handles what is complete. */
  ghost predicate CanDeliver(cfg: Config, s: System, p: Peer, n: nat) {
    Good(cfg, s.world, p.conn) && p.open && 0 < n <= |p.toServer|
  }

  ghost function Received(cfg: Config, s: System, p: Peer, n: nat): Drained
    requires CanDeliver(cfg, s, p, n)
  {
    Drain(cfg, s.world, Arrived(p.conn, p.toServer[..n]))
  }

  ghost function Delivered(cfg: Config, s: System, p: Peer, n: nat): Peer
    requires CanDeliver(cfg, s, p, n) && |p.conn.sent| <= |Received(cfg, s, p, n).conn.sent|
  {
    var d := Received(cfg, s, p, n);
    p.(toServer := p.toServer[n..],
       toClient := p.toClient + d.conn.sent[|p.conn.sent|..],
       conn := d.conn, open := !d.closed, done := p.done + |d.handled|)
  }

  /** rx_pckt asks for the rest of the header, then for the rest of the body. */
  function Missing(got: bytes): int {
    if |got| < HEADER_SIZE then HEADER_SIZE - |got| else FrameLength(got) - |got|
  }

  predicate CanTake(p: Peer, n: nat) {
    0 < n <= |p.toClient| && n <= Missing(p.got)
  }

  function Taken(p: Peer, n: nat): Peer
    requires CanTake(p, n)
  {
    var got := p.got + p.toClient[..n];
    var rest := p.(toClient := p.toClient[n..]);
    if !Complete(got) then rest.(got := got)
    else
      var reply := DecodeReply(Head(got).cmd, Head(got).body);
      rest.(got := [], received := p.received + if reply.Some? then [reply.value] else [])
  }

  ghost predicate Enabled(cfg: Config, s: System, c: nat, a: Action) {
    c in s.peers &&
    match a
    case Issue(r) => CanIssue(cfg, s, s.peers[c], r)
    case Deliver(n) => CanDeliver(cfg, s, s.peers[c], n)
    case Take(n) => CanTake(s.peers[c], n)
  }

  ghost function Next(cfg: Config, s: System, c: nat, a: Action): System
    requires Enabled(cfg, s, c, a)
  {
    var p := s.peers[c];
    match a
    case Issue(r) => s.(peers := s.peers[c := Issued(p, r)])
    case Take(n) => s.(peers := s.peers[c := Taken(p, n)])
    case Deliver(n) =>
      var d := Received(cfg, s, p, n);
      DrainExtends(cfg, s.world, Arrived(p.conn, p.toServer[..n]));
      var handled := if p.done + |d.handled| <= |p.issued| then p.issued[p.done..p.done + |d.handled|] else [];
      System(d.world, s.peers[c := Delivered(cfg, s, p, n)], s.log + Events(c, handled))
  }

  const NEW_PEER: Peer := Peer([], [], [], [], [], NEW_CONN, true, 0)

  ghost predicate Initial(cfg: Config, s: System) {
    && ValidConfig(cfg) && ValidWorld(cfg, s.world) && QuietPlugins(cfg)
    && s.log == [] && forall c :: c in s.peers ==> s.peers[c] == NEW_PEER
  }

  function Start(s: System): Local {
    Local(s.world, map c | c in s.peers :: Account([], []))
  }

  // ---- the invariant of all runs ----

  /** Bye can only be the last request. */
  predicate ByeIsLast(rs: seq<Request>) {
    forall i :: 0 <= i < |rs| - 1 ==> !rs[i].Bye?
  }

  ghost predicate AllAcceptable(cfg: Config, w: World, t: Table, rs: seq<Request>)
    requires ValidConfig(cfg) && ValidWorld(cfg, w) && ValidTable(cfg, t)
  {
    forall i :: 0 <= i < |rs| ==> Acceptable(cfg, w, t, rs[i])
  }

  /**
   * A connection in step with the local devices: `todo` are the requests still
   * under way, in the server's buffer and then on the wire; all results so far
   * have been sent.
   */
  ghost predicate InStep(cfg: Config, s: Local, c: nat, conn: Conn, todo: seq<Request>, wire: bytes,
      handled: seq<Request>)
    requires GoodLocal(cfg, s) && c in s.accounts
  {
    var a := s.accounts[c];
    && conn.table == a.table && conn.room < 0
    && AllEncodable(todo) && ByeIsLast(todo)
    && conn.pending + wire == EncodeRequests(todo)
    && AllAcceptable(cfg, s.world, a.table, todo)
    && AllFit(a.results) && conn.sent == EncodeReplies(a.results)
    && |a.results| == Awaited(handled)
  }

  /** What a client may ask it may still ask when other requests have been served and its table has grown. */
  lemma AcceptableStays(cfg: Config, w: World, t: Table, w': World, t': Table, r: Request)
    requires ValidConfig(cfg) && ValidWorld(cfg, w) && ValidTable(cfg, t) && Acceptable(cfg, w, t, r)
    requires ValidWorld(cfg, w') && ValidTable(cfg, t') && SameShape(w', w) && t <= t' && QuietPlugins(cfg)
    ensures Acceptable(cfg, w', t', r)
  {
    hide ValidConfig;
  }

  lemma AllStayAcceptable(cfg: Config, w: World, t: Table, w': World, t': Table, rs: seq<Request>)
    requires ValidConfig(cfg) && ValidWorld(cfg, w) && ValidTable(cfg, t) && AllAcceptable(cfg, w, t, rs)
    requires ValidWorld(cfg, w') && ValidTable(cfg, t') && SameShape(w', w) && t <= t' && QuietPlugins(cfg)
    ensures AllAcceptable(cfg, w', t', rs)
  {
    hide ValidConfig, ValidTable, ValidWorld, Acceptable, QuietPlugins, SameShape;
    forall i | 0 <= i < |rs|
      ensures Acceptable(cfg, w', t', rs[i])
    {
      AcceptableStays(cfg, w, t, w', t', rs[i]);
    }
  }

  lemma AwaitedOneMore(rs: seq<Request>, r: Request)
    ensures Awaited(rs + [r]) == Awaited(rs) + if Awaits(r) then 1 else 0
  {
    hide Awaits;
    assert (rs + [r])[..|rs|] == rs;
  }

  /** The head of the pending bytes is the next request. */
  lemma NextMessage(pending: bytes, wire: bytes, todo: seq<Request>)
    requires AllEncodable(todo) && pending + wire == EncodeRequests(todo) && Complete(pending)
    ensures todo != []
    ensures Head(pending) == Message(Command(todo[0]), Body(todo[0]))
    ensures Tail(pending) + wire == EncodeRequests(todo[1..])
  {
    hide Body, Encodable;
    if todo != [] {
      FrameReadsBack(Command(todo[0]), Body(todo[0]), EncodeRequests(todo[1..]));
      CompleteGrows(pending, wire);
      hide FrameLength;
    }
  }

  /** The results after one local step, and how many there are. */
  lemma StepResults(cfg: Config, s: Local, c: nat, r: Request, handled: seq<Request>)
    requires GoodLocal(cfg, s) && c in s.accounts && Acceptable(cfg, s.world, s.accounts[c].table, r)
    requires AllFit(s.accounts[c].results) && |s.accounts[c].results| == Awaited(handled)
    ensures var n := LocalStep(cfg, s, c, r);
      var served := Serve(cfg, s.world, s.accounts[c].table, r);
      && n.world == served.world && n.accounts[c].table == served.table
      && (served.reply.Some? ==> ReplyFits(served.reply.value))
      && AllFit(n.accounts[c].results)
      && EncodeReplies(n.accounts[c].results) == EncodeReplies(s.accounts[c].results) + EncodeAnswer(served.reply)
      && |n.accounts[c].results| == Awaited(handled + [r])
  {
    hide Serve, Acceptable, ReplyFits, EncodeReply, Awaits, Awaited, ValidConfig, ValidWorld, ValidTable;
    ServedAsAwaited(cfg, s.world, s.accounts[c].table, r);
    AwaitedOneMore(handled, r);
    var served := Serve(cfg, s.world, s.accounts[c].table, r);
    var old_ := s.accounts[c].results;
    if served.reply.Some? {
      RepliesConcat(old_, [served.reply.value]);
      assert EncodeReplies([served.reply.value]) == EncodeReply(served.reply.value) + EncodeReplies([]);
    } else {
      assert old_ + [] == old_;
    }
  }

  lemma AnswerIsNonempty(reply: Reply)
    requires ReplyFits(reply)
    ensures EncodeReply(reply) != []
  {
  }

  /** Handling the next request is the next local step. */
  lemma MessageInStep(cfg: Config, s: Local, c: nat, conn: Conn, todo: seq<Request>, wire: bytes, handled: seq<Request>)
    requires GoodLocal(cfg, s) && c in s.accounts && QuietPlugins(cfg)
    requires InStep(cfg, s, c, conn, todo, wire, handled) && Complete(conn.pending)
    ensures todo != [] && Good(cfg, s.world, conn)
    ensures var d := Step(cfg, s.world, conn); var n := LocalStep(cfg, s, c, todo[0]);
      && d.world == n.world && InStep(cfg, n, c, d.conn, todo[1..], wire, handled + [todo[0]])
      && (d.closed <==> todo[0].Bye?)
  {
    hide Serve, Acceptable, ValidConfig, ValidWorld, ValidTable, Handle, Awaited, Encodable, EncodeReply;
    hide ReplyFits, LocalStep, Body, QuietPlugins, Head, Tail, Follows;
    NextMessage(conn.pending, wire, todo);
    var a, r := s.accounts[c], todo[0];
    assert Acceptable(cfg, s.world, a.table, r);
    HandleServes(cfg, s.world, a.table, r);
    StepResults(cfg, s, c, r, handled);
    ServedAsAwaited(cfg, s.world, a.table, r);
    var reply := Serve(cfg, s.world, a.table, r).reply;
    if reply.Some? {
      AnswerIsNonempty(reply.value);
    }
    var n := LocalStep(cfg, s, c, r);
    StepKeepsAcceptable(cfg, s, c, r, todo[1..]);
    hide AllFit, EncodeReplies, AllAcceptable;
  }

  lemma StepKeepsAcceptable(cfg: Config, s: Local, c: nat, r: Request, rs: seq<Request>)
    requires GoodLocal(cfg, s) && c in s.accounts && QuietPlugins(cfg)
    requires AllAcceptable(cfg, s.world, s.accounts[c].table, rs)
    ensures var n := LocalStep(cfg, s, c, r); AllAcceptable(cfg, n.world, n.accounts[c].table, rs)
  {
    hide LocalStep, AllAcceptable, QuietPlugins, ValidConfig;
    var n := LocalStep(cfg, s, c, r);
    AllStayAcceptable(cfg, s.world, s.accounts[c].table, n.world, n.accounts[c].table, rs);
  }

  /**
   * Handling whatever is complete is a stretch of local steps: the next n
   * requests, where n is the number of messages handled.
   */
  lemma {:induction false} DrainInStep(cfg: Config, s: Local, c: nat, conn: Conn, todo: seq<Request>,
      wire: bytes, handled: seq<Request>)
    requires GoodLocal(cfg, s) && c in s.accounts && QuietPlugins(cfg)
    requires InStep(cfg, s, c, conn, todo, wire, handled)
    ensures Good(cfg, s.world, conn)
    ensures var d := Drain(cfg, s.world, conn); var n := |d.handled|;
      && n <= |todo| && d.world == Stretch(cfg, s, c, todo[..n]).world
      && InStep(cfg, Stretch(cfg, s, c, todo[..n]), c, d.conn, todo[n..], wire, handled + todo[..n])
      && (d.closed <==> n > 0 && todo[n - 1].Bye?)
    decreases |conn.pending|
  {
    hide InStep, Step, LocalStep, QuietPlugins, ValidConfig, ValidWorld, ValidTable, Complete, Drain, Stretch;
    assert Good(cfg, s.world, conn) by { InStepIsGood(cfg, s, c, conn, todo, wire, handled); }
    if Complete(conn.pending) {
      MessageInStep(cfg, s, c, conn, todo, wire, handled);
      DrainComplete(cfg, s.world, conn);
      var m, r := Step(cfg, s.world, conn), todo[0];
      if m.closed {
        assert todo[..1] == [r] && todo[1..] == todo[1..];
        StretchOfOne(cfg, s, c, r);
      } else {
        var n := LocalStep(cfg, s, c, r);
        DrainInStep(cfg, n, c, m.conn, todo[1..], wire, handled + [r]);
        var k := |Drain(cfg, m.world, m.conn).handled|;
        FirstAndMore(todo, handled, k);
        StretchOfMore(cfg, s, c, r, todo[1..][..k]);
        NoByeBeforeMore(todo, k);
      }
    } else {
      DrainOfIncomplete(cfg, s.world, conn);
      StretchOfNone(cfg, s, c);
      assert todo[..0] == [] && todo[0..] == todo && handled + [] == handled;
    }
  }

  lemma FirstAndMore(todo: seq<Request>, handled: seq<Request>, k: nat)
    requires k + 1 <= |todo|
    ensures todo[..k + 1] == [todo[0]] + todo[1..][..k] && todo[1..][k..] == todo[k + 1..]
    ensures handled + [todo[0]] + todo[1..][..k] == handled + todo[..k + 1]
  {
  }

  lemma NoByeBeforeMore(todo: seq<Request>, k: nat)
    requires k + 1 <= |todo|
    ensures todo[1..][..k] == todo[1..k + 1] && (k > 0 ==> todo[1..][k - 1] == todo[k])
  {
  }

  lemma InStepIsGood(cfg: Config, s: Local, c: nat, conn: Conn, todo: seq<Request>, wire: bytes, handled: seq<Request>)
    requires GoodLocal(cfg, s) && c in s.accounts && InStep(cfg, s, c, conn, todo, wire, handled)
    ensures Good(cfg, s.world, conn)
  {
    hide ValidConfig, ValidWorld, ValidTable, AllAcceptable, EncodeReplies, EncodeRequests;
  }

  lemma StretchOfNone(cfg: Config, s: Local, c: nat)
    requires GoodLocal(cfg, s) && c in s.accounts
    ensures Stretch(cfg, s, c, []) == s
  {
  }

  lemma StretchOfMore(cfg: Config, s: Local, c: nat, r: Request, rs: seq<Request>)
    requires GoodLocal(cfg, s) && c in s.accounts
    ensures Stretch(cfg, s, c, [r] + rs) == Stretch(cfg, LocalStep(cfg, s, c, r), c, rs)
  {
    hide GoodLocal, LocalStep, Follows;
    assert ([r] + rs)[1..] == rs;
  }

  lemma StretchOfOne(cfg: Config, s: Local, c: nat, r: Request)
    requires GoodLocal(cfg, s) && c in s.accounts
    ensures Stretch(cfg, s, c, [r]) == LocalStep(cfg, s, c, r)
  {
    hide GoodLocal, LocalStep, Stretch;
    StretchOfMore(cfg, s, c, r, []);
    assert [r] + [] == [r];
    StretchOfNone(cfg, LocalStep(cfg, s, c, r), c);
  }

  /** The replies a client has not taken yet are exactly the ones in flight. */
  predicate RepliesInFlight(results: seq<Reply>, p: Peer) {
    && AllFit(results) && p.received <= results && AllFit(results[|p.received|..])
    && p.got + p.toClient == EncodeReplies(results[|p.received|..]) && !Complete(p.got)
  }

  ghost predicate PeerInv(cfg: Config, s: Local, c: nat, p: Peer)
    requires GoodLocal(cfg, s) && c in s.accounts
  {
    && p.done <= |p.issued| && ByeIsLast(p.issued) && Awaited(p.issued) <= |p.received| + 1
    && InStep(cfg, s, c, p.conn, p.issued[p.done..], p.toServer, p.issued[..p.done])
    && RepliesInFlight(s.accounts[c].results, p)
    && (p.open <==> !(p.done > 0 && p.issued[p.done - 1].Bye?))
    && (p.open ==> !Complete(p.conn.pending))
  }

  /** A client's own requests in a log. */
  function Projection(log: seq<Event>, c: nat): seq<Request> {
    if log == [] then []
    else
      var last := log[|log| - 1];
      Projection(log[..|log| - 1], c) + if last.client == c then [last.request] else []
  }

  lemma ProjectionOneMore(log: seq<Event>, c: nat, r: Request, k: nat)
    ensures Projection(log + [Event(c, r)], k) == Projection(log, k) + if k == c then [r] else []
  {
    assert (log + [Event(c, r)])[..|log|] == log;
  }

  lemma {:induction false} ProjectionOfStretch(log: seq<Event>, c: nat, rs: seq<Request>, k: nat)
    ensures Projection(log + Events(c, rs), k) == Projection(log, k) + if k == c then rs else []
    decreases |rs|
  {
    hide Projection;
    if rs == [] {
      assert log + Events(c, rs) == log;
    } else {
      var init, r := rs[..|rs| - 1], rs[|rs| - 1];
      ProjectionOfStretch(log, c, init, k);
      ProjectionOneMore(log + Events(c, init), c, r, k);
      assert log + Events(c, rs) == log + Events(c, init) + [Event(c, r)];
      assert rs == init + [r];
    }
  }

  // ---- each action keeps it ----

  lemma InStepIssue(cfg: Config, s: Local, c: nat, conn: Conn, todo: seq<Request>, wire: bytes,
      handled: seq<Request>, r: Request)
    requires GoodLocal(cfg, s) && c in s.accounts && InStep(cfg, s, c, conn, todo, wire, handled)
    requires Encodable(r) && Acceptable(cfg, s.world, s.accounts[c].table, r) && ByeIsLast(todo + [r])
    ensures InStep(cfg, s, c, conn, todo + [r], wire + EncodeRequest(r), handled)
  {
    hide Acceptable, ValidConfig, ValidWorld, ValidTable, Awaited, EncodeReplies, EncodeRequest, Encodable;
    hide EncodeRequests, AllFit, AllAcceptable, AllEncodable, ByeIsLast;
    AllOneMore(cfg, s.world, s.accounts[c].table, todo, r);
    RequestsConcat(todo, [r]);
    EncodeOne(r);
    assert conn.pending + (wire + EncodeRequest(r)) == conn.pending + wire + EncodeRequest(r);
  }

  lemma AllOneMore(cfg: Config, w: World, t: Table, rs: seq<Request>, r: Request)
    requires ValidConfig(cfg) && ValidWorld(cfg, w) && ValidTable(cfg, t)
    requires AllAcceptable(cfg, w, t, rs) && AllEncodable(rs) && Acceptable(cfg, w, t, r) && Encodable(r)
    ensures AllAcceptable(cfg, w, t, rs + [r]) && AllEncodable(rs + [r]) && AllEncodable([r])
  {
    hide Acceptable, Encodable, ValidConfig, ValidWorld, ValidTable;
  }

  lemma IssueKeeps(cfg: Config, s: Local, c: nat, p: Peer, r: Request)
    requires GoodLocal(cfg, s) && c in s.accounts && PeerInv(cfg, s, c, p)
    requires !SaidBye(p) && !Waiting(p) && Encodable(r) && Acceptable(cfg, s.world, s.accounts[c].table, r)
    ensures PeerInv(cfg, s, c, Issued(p, r))
  {
    hide InStep, Acceptable, ValidConfig, ValidWorld, ValidTable, Awaited, RepliesInFlight, EncodeRequest;
    hide Encodable, Complete;
    var todo, n := p.issued[p.done..], Issued(p, r);
    assert n.issued[n.done..] == todo + [r] && n.issued[..n.done] == p.issued[..p.done];
    assert ByeIsLast(n.issued) && ByeIsLast(todo + [r]);
    InStepIssue(cfg, s, c, p.conn, todo, p.toServer, p.issued[..p.done], r);
    AwaitedOneMore(p.issued, r);
    SameReplySide(s.accounts[c].results, p, n);
  }

  lemma EncodeOne(r: Request)
    requires Encodable(r)
    ensures EncodeRequests([r]) == EncodeRequest(r)
  {
    hide EncodeRequest, Encodable;
    assert EncodeRequests([r]) == EncodeRequest(r) + EncodeRequests([]);
  }

  lemma SameReplySide(results: seq<Reply>, p: Peer, n: Peer)
    requires RepliesInFlight(results, p) && p.received == n.received && p.got == n.got && p.toClient == n.toClient
    ensures RepliesInFlight(results, n)
  {
  }

  lemma NextReply(got: bytes, rest: bytes, rs: seq<Reply>)
    requires AllFit(rs) && got + rest == EncodeReplies(rs) && Complete(got)
    ensures rs != []
    ensures DecodeReply(Head(got).cmd, Head(got).body) == Some(rs[0])
    ensures Tail(got) + rest == EncodeReplies(rs[1..])
  {
    hide ReplyBody, ReplyFits, DecodeReply;
    if rs != [] {
      FrameReadsBack(ReplyCommand(rs[0]), ReplyBody(rs[0]), EncodeReplies(rs[1..]));
      CompleteGrows(got, rest);
      ReplyReadsBack(rs[0]);
      hide FrameLength;
    }
  }

  /** Reading no more than what is missing never reads past a frame. */
  lemma NoOverrun(got: bytes, more: bytes)
    requires !Complete(got) && |more| <= Missing(got) && Complete(got + more)
    ensures Tail(got + more) == []
  {
    if |got| >= HEADER_SIZE {
      assert (got + more)[1..3] == got[1..3];
    }
  }

  lemma TakeInFlight(results: seq<Reply>, p: Peer, n: nat)
    requires RepliesInFlight(results, p) && CanTake(p, n)
    ensures RepliesInFlight(results, Taken(p, n))
  {
    hide AllFit, EncodeReplies, DecodeReply, Complete, Head, Tail, Missing;
    var got, rest, rs := p.got + p.toClient[..n], p.toClient[n..], results[|p.received|..];
    assert got + rest == p.got + p.toClient;
    if Complete(got) {
      NextReply(got, rest, rs);
      FitSlice(results, |p.received| + 1);
      NoOverrun(p.got, p.toClient[..n]);
      assert rs[1..] == results[|p.received| + 1..];
      assert [] + rest == rest;
      assert !Complete([]) by { NothingIncomplete(); }
    }
  }

  lemma NothingIncomplete()
    ensures !Complete([])
  {
  }

  lemma FitSlice(results: seq<Reply>, k: nat)
    requires AllFit(results) && k <= |results|
    ensures AllFit(results[k..]) && AllFit(results[..k])
  {
    hide ReplyFits;
  }

  lemma TakeKeeps(cfg: Config, s: Local, c: nat, p: Peer, n: nat)
    requires GoodLocal(cfg, s) && c in s.accounts && PeerInv(cfg, s, c, p) && CanTake(p, n)
    ensures PeerInv(cfg, s, c, Taken(p, n))
  {
    hide InStep, RepliesInFlight, ValidConfig, ValidWorld, ValidTable, Awaited, Complete, DecodeReply, Missing, Head;
    TakeInFlight(s.accounts[c].results, p, n);
  }

  /** Replies that have been sent join the replies in flight. */
  lemma SentJoinFlight(before: seq<Reply>, after: seq<Reply>, p: Peer, n: Peer)
    requires RepliesInFlight(before, p) && AllFit(after) && before <= after
    requires AllFit(before) && EncodeReplies(before) <= EncodeReplies(after)
    requires n.received == p.received && n.got == p.got
    requires n.toClient == p.toClient + EncodeReplies(after)[|EncodeReplies(before)|..]
    ensures RepliesInFlight(after, n)
  {
    hide ReplyFits, Complete, EncodeReplies;
    var more, k := after[|before|..], |p.received|;
    FitSlice(after, |before|);
    FitSlice(after, k);
    assert after == before + more && after[k..] == before[k..] + more;
    RepliesConcat(before, more);
    RepliesConcat(before[k..], more);
  }

  /** Bytes move from the wire to the server's buffer. */
  lemma ArrivedInStep(cfg: Config, l: Local, c: nat, conn: Conn, todo: seq<Request>, wire: bytes,
      handled: seq<Request>, n: nat)
    requires GoodLocal(cfg, l) && c in l.accounts && n <= |wire| && InStep(cfg, l, c, conn, todo, wire, handled)
    ensures InStep(cfg, l, c, Arrived(conn, wire[..n]), todo, wire[n..], handled)
  {
    hide GoodLocal, EncodeRequests, EncodeReplies, AllAcceptable, Awaited, AllFit, AllEncodable, ByeIsLast;
    assert conn.pending + wire[..n] + wire[n..] == conn.pending + wire;
  }

  lemma InStepSent(cfg: Config, l: Local, c: nat, conn: Conn, todo: seq<Request>, wire: bytes, handled: seq<Request>)
    requires GoodLocal(cfg, l) && c in l.accounts && InStep(cfg, l, c, conn, todo, wire, handled)
    ensures var results := l.accounts[c].results; AllFit(results) && conn.sent == EncodeReplies(results)
  {
  }

  /** Receiving and handling, as a stretch of local steps. */
  lemma ReceiveInStep(cfg: Config, l: Local, c: nat, s: System, n: nat)
    requires GoodLocal(cfg, l) && c in l.accounts && c in s.peers && l.world == s.world && QuietPlugins(cfg)
    requires CanDeliver(cfg, s, s.peers[c], n) && s.peers[c].done <= |s.peers[c].issued|
    requires var p := s.peers[c]; InStep(cfg, l, c, p.conn, p.issued[p.done..], p.toServer, p.issued[..p.done])
    ensures var p := s.peers[c]; var d := Received(cfg, s, p, n); var k := |d.handled|;
      && p.done + k <= |p.issued| && (d.closed <==> k > 0 && p.issued[p.done + k - 1].Bye?)
      && (!d.closed ==> !Complete(d.conn.pending)) && p.conn.sent <= d.conn.sent
      && var m := Stretch(cfg, l, c, p.issued[p.done..p.done + k]);
        d.world == m.world && InStep(cfg, m, c, d.conn, p.issued[p.done + k..], p.toServer[n..], p.issued[..p.done + k])
  {
    hide ValidConfig, ValidWorld, ValidTable, QuietPlugins, Drain, Stretch, Complete, InStep;
    var p := s.peers[c];
    var todo, handled := p.issued[p.done..], p.issued[..p.done];
    var conn, wire := Arrived(p.conn, p.toServer[..n]), p.toServer[n..];
    ArrivedInStep(cfg, l, c, p.conn, todo, p.toServer, handled, n);
    DrainInStep(cfg, l, c, conn, todo, wire, handled);
    DrainExtends(cfg, l.world, conn);
    var k := |Received(cfg, s, p, n).handled|;
    SplitTodo(p.issued, p.done, k);
    OpenUntilBye(p.issued, p.done, k);
  }

  /** The connection that is served. */
  lemma DeliverKeeps(cfg: Config, l: Local, c: nat, s: System, n: nat)
    requires GoodLocal(cfg, l) && c in l.accounts && c in s.peers && l.world == s.world && QuietPlugins(cfg)
    requires PeerInv(cfg, l, c, s.peers[c]) && CanDeliver(cfg, s, s.peers[c], n)
    ensures var p := s.peers[c]; var d := Received(cfg, s, p, n);
      && p.done + |d.handled| <= |p.issued| && |p.conn.sent| <= |d.conn.sent|
      && var m := Stretch(cfg, l, c, p.issued[p.done..p.done + |d.handled|]);
        d.world == m.world && PeerInv(cfg, m, c, Delivered(cfg, s, p, n))
  {
    hide GoodLocal, QuietPlugins, Good, Received, Stretch, Complete, InStep, RepliesInFlight, EncodeReplies;
    hide Awaited, AllFit;
    var p := s.peers[c];
    ReceiveInStep(cfg, l, c, s, n);
    var d, q := Received(cfg, s, p, n), Delivered(cfg, s, p, n);
    var m := Stretch(cfg, l, c, p.issued[p.done..q.done]);
    InStepSent(cfg, l, c, p.conn, p.issued[p.done..], p.toServer, p.issued[..p.done]);
    InStepSent(cfg, m, c, d.conn, p.issued[q.done..], p.toServer[n..], p.issued[..q.done]);
    SentJoinFlight(l.accounts[c].results, m.accounts[c].results, p, q);
  }

  lemma SplitTodo(issued: seq<Request>, done: nat, k: nat)
    requires done + k <= |issued|
    ensures issued[done..][..k] == issued[done..done + k] && issued[done..][k..] == issued[done + k..]
    ensures issued[..done] + issued[done..][..k] == issued[..done + k]
  {
  }

  lemma OpenUntilBye(issued: seq<Request>, done: nat, k: nat)
    requires done + k <= |issued|
    ensures k > 0 ==> issued[done..][k - 1] == issued[done + k - 1]
  {
  }

  /** The other connections. */
  lemma OthersStay(cfg: Config, l: Local, m: Local, c: nat, k: nat, p: Peer)
    requires GoodLocal(cfg, l) && GoodLocal(cfg, m) && c in l.accounts && k in l.accounts && k != c && QuietPlugins(cfg)
    requires Follows(l, m, c) && PeerInv(cfg, l, k, p)
    ensures PeerInv(cfg, m, k, p)
  {
    hide ValidConfig, QuietPlugins, AllAcceptable, RepliesInFlight, EncodeRequests, EncodeReplies, Awaited;
    hide AllFit, AllEncodable, Complete;
    AllStayAcceptable(cfg, l.world, l.accounts[k].table, m.world, m.accounts[k].table, p.issued[p.done..]);
  }

  /** All connections are in step with a local state. */
  ghost predicate AllPeers(cfg: Config, l: Local, s: System)
    requires GoodLocal(cfg, l)
  {
    && l.world == s.world && l.accounts.Keys == s.peers.Keys
    && forall c :: c in s.peers ==> OnePeer(cfg, l, s.log, c, s.peers[c])
  }

  ghost predicate OnePeer(cfg: Config, l: Local, log: seq<Event>, c: nat, p: Peer)
    requires GoodLocal(cfg, l) && c in l.accounts
  {
    PeerInv(cfg, l, c, p) && Projection(log, c) == p.issued[..p.done]
  }

  lemma IssueKeepsAll(cfg: Config, l: Local, s: System, c: nat, r: Request)
    requires GoodLocal(cfg, l) && AllPeers(cfg, l, s) && Enabled(cfg, s, c, Issue(r))
    ensures AllPeers(cfg, l, Next(cfg, s, c, Issue(r)))
  {
    hide GoodLocal, OnePeer, Issued, Good, Waiting, SaidBye, Encodable, Acceptable;
    var p := s.peers[c];
    assert OnePeer(cfg, l, s.log, c, p);
    IssueOne(cfg, l, s.log, c, p, r);
  }

  lemma IssueOne(cfg: Config, l: Local, log: seq<Event>, c: nat, p: Peer, r: Request)
    requires GoodLocal(cfg, l) && c in l.accounts && OnePeer(cfg, l, log, c, p) && Good(cfg, l.world, p.conn)
    requires !SaidBye(p) && !Waiting(p) && Encodable(r) && Acceptable(cfg, l.world, p.conn.table, r)
    ensures OnePeer(cfg, l, log, c, Issued(p, r))
  {
    hide ValidConfig, ValidWorld, ValidTable, Acceptable, RepliesInFlight, ByeIsLast, EncodeRequest;
    hide Encodable, Awaited, Complete, AllEncodable, EncodeRequests, AllAcceptable, AllFit, EncodeReplies;
    hide SaidBye;
    IssueKeeps(cfg, l, c, p, r);
  }

  lemma TakeKeepsAll(cfg: Config, l: Local, s: System, c: nat, n: nat)
    requires GoodLocal(cfg, l) && AllPeers(cfg, l, s) && Enabled(cfg, s, c, Take(n))
    ensures AllPeers(cfg, l, Next(cfg, s, c, Take(n)))
  {
    hide PeerInv, GoodLocal, CanTake;
    assert OnePeer(cfg, l, s.log, c, s.peers[c]);
    TakeKeeps(cfg, l, c, s.peers[c], n);
    hide Complete, DecodeReply, Head;
  }

  /** The peer that is served, with the requests handled for it in the log. */
  lemma DeliverKeepsOne(cfg: Config, l: Local, c: nat, s: System, n: nat)
    requires GoodLocal(cfg, l) && c in l.accounts && c in s.peers && l.world == s.world && QuietPlugins(cfg)
    requires OnePeer(cfg, l, s.log, c, s.peers[c]) && CanDeliver(cfg, s, s.peers[c], n)
    ensures var p := s.peers[c]; var d := Received(cfg, s, p, n);
      && p.done + |d.handled| <= |p.issued| && |p.conn.sent| <= |d.conn.sent|
      && var rs := p.issued[p.done..p.done + |d.handled|]; var m := Stretch(cfg, l, c, rs);
        d.world == m.world && OnePeer(cfg, m, s.log + Events(c, rs), c, Delivered(cfg, s, p, n))
  {
    hide PeerInv, GoodLocal, CanDeliver, Received, Delivered, QuietPlugins, Stretch, Projection, Follows;
    var p, d := s.peers[c], Received(cfg, s, s.peers[c], n);
    DeliverKeeps(cfg, l, c, s, n);
    DeliveredCounts(cfg, s, p, n);
    var rs := p.issued[p.done..p.done + |d.handled|];
    ProjectionOfStretch(s.log, c, rs, c);
    assert p.issued[..p.done] + rs == p.issued[..p.done + |rs|];
  }

  lemma DeliverKeepsAll(cfg: Config, l: Local, s: System, c: nat, n: nat)
    requires GoodLocal(cfg, l) && AllPeers(cfg, l, s) && Enabled(cfg, s, c, Deliver(n)) && QuietPlugins(cfg)
    ensures var p := s.peers[c]; var d := Received(cfg, s, p, n);
      && p.done + |d.handled| <= |p.issued|
      && AllPeers(cfg, Stretch(cfg, l, c, p.issued[p.done..p.done + |d.handled|]), Next(cfg, s, c, Deliver(n)))
  {
    hide OnePeer, GoodLocal, CanDeliver, Received, Delivered, QuietPlugins, Stretch, Projection, Events;
    hide Drain, Next, AllPeers, Follows;
    var p, d := s.peers[c], Received(cfg, s, s.peers[c], n);
    PeerOf(cfg, l, s, c);
    DeliverKeepsOne(cfg, l, c, s, n);
    var rs := p.issued[p.done..p.done + |d.handled|];
    var m := Stretch(cfg, l, c, rs);
    FollowsKeys(l, m, c);
    AllOthersStay(cfg, l, m, c, s, rs);
    NextDelivered(cfg, s, c, n);
    AllPeersFrom(cfg, m, s, c, Delivered(cfg, s, p, n), s.log + Events(c, rs));
  }

  lemma FollowsKeys(l: Local, m: Local, c: nat)
    requires c in l.accounts && Follows(l, m, c)
    ensures m.accounts.Keys == l.accounts.Keys
  {
  }

  lemma PeerOf(cfg: Config, l: Local, s: System, c: nat)
    requires GoodLocal(cfg, l) && AllPeers(cfg, l, s) && c in s.peers
    ensures c in l.accounts && l.world == s.world
    ensures l.accounts.Keys == s.peers.Keys && OnePeer(cfg, l, s.log, c, s.peers[c])
  {
  }

  lemma NextDelivered(cfg: Config, s: System, c: nat, n: nat)
    requires Enabled(cfg, s, c, Deliver(n))
    ensures var p := s.peers[c]; var d := Received(cfg, s, p, n);
      p.done + |d.handled| <= |p.issued| && |p.conn.sent| <= |d.conn.sent| ==>
        Next(cfg, s, c, Deliver(n)) ==
          System(d.world, s.peers[c := Delivered(cfg, s, p, n)],
                 s.log + Events(c, p.issued[p.done..p.done + |d.handled|]))
  {
    hide Drain, Delivered, Events, Good;
  }

  /** One peer has changed, the others have not. */
  lemma AllPeersFrom(cfg: Config, m: Local, s: System, c: nat, q: Peer, log: seq<Event>)
    requires GoodLocal(cfg, m) && m.accounts.Keys == s.peers.Keys && c in s.peers
    requires OnePeer(cfg, m, log, c, q)
    requires forall k :: k in s.peers && k != c ==> OnePeer(cfg, m, log, k, s.peers[k])
    ensures AllPeers(cfg, m, System(m.world, s.peers[c := q], log))
  {
    hide OnePeer, GoodLocal;
    var t := System(m.world, s.peers[c := q], log);
    assert t.peers.Keys == s.peers.Keys;
  }

  lemma AllOthersStay(cfg: Config, l: Local, m: Local, c: nat, s: System, rs: seq<Request>)
    requires GoodLocal(cfg, l) && AllPeers(cfg, l, s) && c in l.accounts && QuietPlugins(cfg)
    requires GoodLocal(cfg, m) && Follows(l, m, c)
    ensures forall k :: k in s.peers && k != c ==> OnePeer(cfg, m, s.log + Events(c, rs), k, s.peers[k])
  {
    hide PeerInv, GoodLocal, QuietPlugins, Projection;
    forall k | k in s.peers && k != c
      ensures OnePeer(cfg, m, s.log + Events(c, rs), k, s.peers[k])
    {
      ProjectionOfStretch(s.log, c, rs, k);
      assert OnePeer(cfg, l, s.log, k, s.peers[k]);
      OthersStay(cfg, l, m, c, k, s.peers[k]);
      assert Projection(s.log, k) + [] == Projection(s.log, k);
    }
  }

  lemma DeliveredCounts(cfg: Config, s: System, p: Peer, n: nat)
    requires CanDeliver(cfg, s, p, n) && |p.conn.sent| <= |Received(cfg, s, p, n).conn.sent|
    ensures var q := Delivered(cfg, s, p, n);
      q.issued == p.issued && q.done == p.done + |Received(cfg, s, p, n).handled|
  {
    hide Received, Good;
  }

  // ---- whole runs ----

  /** The invariant: the system is in step with the local run of its log. */
  ghost predicate Refines(cfg: Config, s0: System, s: System) {
    && Initial(cfg, s0) && QuietPlugins(cfg) && GoodLocal(cfg, Start(s0)) && KnownClients(Start(s0), s.log)
    && Performed(cfg, Start(s0), s.log)
    && AllPeers(cfg, LocalRun(cfg, Start(s0), s.log), s)
  }

  lemma InitialRefines(cfg: Config, s: System)
    requires Initial(cfg, s)
    ensures Refines(cfg, s, s)
  {
    hide ValidConfig, ValidWorld, QuietPlugins;
    var l := Start(s);
    assert GoodLocal(cfg, l);
    assert l.accounts.Keys == s.peers.Keys;
  }

  lemma PerformedOneMore(cfg: Config, s: Local, log: seq<Event>, c: nat, r: Request)
    requires GoodLocal(cfg, s) && KnownClients(s, log) && c in s.accounts && Performed(cfg, s, log)
    requires var l := LocalRun(cfg, s, log); Acceptable(cfg, l.world, l.accounts[c].table, r)
    ensures KnownClients(s, log + [Event(c, r)]) && Performed(cfg, s, log + [Event(c, r)])
  {
    hide Acceptable, ValidConfig, ValidWorld, ValidTable, LocalRun;
    assert (log + [Event(c, r)])[..|log|] == log;
  }

  /** A stretch of acceptable requests is performed in full. */
  lemma {:induction false} StretchPerformed(cfg: Config, s: Local, log: seq<Event>, c: nat, rs: seq<Request>)
    requires GoodLocal(cfg, s) && KnownClients(s, log) && c in s.accounts && Performed(cfg, s, log) && QuietPlugins(cfg)
    requires var l := LocalRun(cfg, s, log); AllAcceptable(cfg, l.world, l.accounts[c].table, rs)
    ensures KnownClients(s, log + Events(c, rs)) && Performed(cfg, s, log + Events(c, rs))
    decreases |rs|
  {
    hide Acceptable, ValidConfig, ValidWorld, ValidTable, LocalRun, Performed, QuietPlugins, LocalStep;
    if rs == [] {
      assert log + Events(c, rs) == log;
    } else {
      var longer, l := log + [Event(c, rs[0])], LocalRun(cfg, s, log);
      PerformedOneMore(cfg, s, log, c, rs[0]);
      RunOneMore(cfg, s, log, c, rs[0]);
      StepKeepsAcceptable(cfg, l, c, rs[0], rs[1..]);
      StretchPerformed(cfg, s, longer, c, rs[1..]);
      assert log + Events(c, rs) == longer + Events(c, rs[1..]);
    }
  }

  lemma SomeAcceptable(cfg: Config, l: Local, s: System, c: nat, n: nat)
    requires GoodLocal(cfg, l) && AllPeers(cfg, l, s) && c in s.peers
    requires s.peers[c].done + n <= |s.peers[c].issued|
    ensures c in l.accounts
    ensures var p := s.peers[c]; AllAcceptable(cfg, l.world, l.accounts[c].table, p.issued[p.done..p.done + n])
  {
    hide Acceptable, ValidConfig, ValidWorld, ValidTable, EncodeRequests, EncodeReplies, AllFit, AllEncodable;
    hide ByeIsLast, Complete, Awaited, Projection, RepliesInFlight;
    assert OnePeer(cfg, l, s.log, c, s.peers[c]);
  }

  lemma PeersHaveAccounts(cfg: Config, l: Local, s: System)
    requires GoodLocal(cfg, l) && AllPeers(cfg, l, s)
    ensures l.accounts.Keys == s.peers.Keys
  {
    hide GoodLocal, OnePeer;
  }

  lemma NextRefines(cfg: Config, s0: System, s: System, c: nat, a: Action)
    requires Refines(cfg, s0, s) && Enabled(cfg, s, c, a)
    ensures Refines(cfg, s0, Next(cfg, s, c, a))
  {
    hide AllPeers, LocalRun, GoodLocal, Initial, Start, QuietPlugins, CanDeliver, CanIssue, CanTake, Received;
    hide Delivered, Taken, Issued, KnownClients, Stretch, Performed, AllAcceptable;
    var l := LocalRun(cfg, Start(s0), s.log);
    match a
    case Issue(r) => IssueKeepsAll(cfg, l, s, c, r);
    case Take(n) => TakeKeepsAll(cfg, l, s, c, n);
    case Deliver(n) =>
      DeliverKeepsAll(cfg, l, s, c, n);
      PeersHaveAccounts(cfg, l, s);
      var p := s.peers[c];
      var k := |Received(cfg, s, p, n).handled|;
      StretchExtendsRun(cfg, Start(s0), s.log, c, p.issued[p.done..p.done + k]);
      SomeAcceptable(cfg, l, s, c, k);
      StretchPerformed(cfg, Start(s0), s.log, c, p.issued[p.done..p.done + k]);
  }

  datatype Move = Move(client: nat, action: Action)

  /** A run: every move is enabled where it is made. */
  ghost predicate ValidRun(cfg: Config, s: System, moves: seq<Move>)
    decreases |moves|
  {
    moves != [] ==>
      && Enabled(cfg, s, moves[0].client, moves[0].action)
      && ValidRun(cfg, Next(cfg, s, moves[0].client, moves[0].action), moves[1..])
  }

  ghost function Run(cfg: Config, s: System, moves: seq<Move>): System
    requires ValidRun(cfg, s, moves)
    decreases |moves|
  {
    if moves == [] then s else Run(cfg, Next(cfg, s, moves[0].client, moves[0].action), moves[1..])
  }

  lemma {:induction false} RunRefines(cfg: Config, s0: System, s: System, moves: seq<Move>)
    requires Refines(cfg, s0, s) && ValidRun(cfg, s, moves)
    ensures Refines(cfg, s0, Run(cfg, s, moves))
    decreases |moves|
  {
    hide Refines, Enabled, Next;
    if moves != [] {
      var m := moves[0];
      NextRefines(cfg, s0, s, m.client, m.action);
      RunRefines(cfg, s0, Next(cfg, s, m.client, m.action), moves[1..]);
    }
  }

  // ---- what the invariant says ----

  /** All awaited replies of a client that is not waiting have arrived, and they are its results. */
  lemma NothingOutstanding(cfg: Config, l: Local, c: nat, p: Peer)
    requires GoodLocal(cfg, l) && c in l.accounts && PeerInv(cfg, l, c, p) && !Waiting(p)
    ensures p.received == l.accounts[c].results
  {
    hide GoodLocal, AllAcceptable, EncodeRequests, EncodeReplies, AllFit, AllEncodable, ByeIsLast, Complete, Awaited;
    AwaitedGrows(p.issued, p.done);
  }

  lemma {:induction false} AwaitedGrows(rs: seq<Request>, k: nat)
    requires k <= |rs|
    ensures Awaited(rs[..k]) <= Awaited(rs)
    decreases |rs|
  {
    hide Awaits;
    if k < |rs| {
      AwaitedGrows(rs[..|rs| - 1], k);
      assert rs[..|rs| - 1][..k] == rs[..k];
    } else {
      assert rs[..k] == rs;
    }
  }

  /** When nothing is on the way to an open connection, every request has been handled. */
  lemma NothingStuck(cfg: Config, l: Local, c: nat, p: Peer)
    requires GoodLocal(cfg, l) && c in l.accounts && PeerInv(cfg, l, c, p) && p.open && p.toServer == []
    ensures p.done == |p.issued|
  {
    hide GoodLocal, AllAcceptable, EncodeReplies, AllFit, ByeIsLast, RepliesInFlight, Awaited, Complete;
    hide AllEncodable, EncodeRequests;
    assert p.conn.pending + [] == p.conn.pending;
    NoWholeRequest(p.conn.pending, p.issued[p.done..]);
  }

  lemma NoWholeRequest(pending: bytes, todo: seq<Request>)
    requires AllEncodable(todo) && pending == EncodeRequests(todo) && !Complete(pending)
    ensures todo == []
  {
    hide Encodable, Complete, Body, Frame;
    if todo != [] {
      WholeFrame(Command(todo[0]), Body(todo[0]), EncodeRequests(todo[1..]));
    }
  }

  lemma WholeFrame(cmd: byte, body: bytes, rest: bytes)
    requires |body| < 0x1_0000
    ensures Complete(Frame(cmd, body) + rest)
  {
    FrameReadsBack(cmd, body, rest);
  }

  // ---- replies answer requests ----

  /** The requests of a list that are answered. */
  function Awaiting(rs: seq<Request>): (a: seq<Request>)
    ensures |a| == Awaited(rs)
  {
    if rs == [] then []
    else Awaiting(rs[..|rs| - 1]) + if Awaits(rs[|rs| - 1]) then [rs[|rs| - 1]] else []
  }

  lemma AwaitingOneMore(rs: seq<Request>, r: Request)
    ensures Awaiting(rs + [r]) == Awaiting(rs) + if Awaits(r) then [r] else []
  {
    hide Awaits;
    assert (rs + [r])[..|rs|] == rs;
  }

  lemma {:induction false} AwaitingPrefix(rs: seq<Request>, k: nat)
    requires k <= |rs|
    ensures Awaiting(rs[..k]) <= Awaiting(rs)
    decreases |rs|
  {
    hide Awaits;
    if k < |rs| {
      AwaitingPrefix(rs[..|rs| - 1], k);
      assert rs[..|rs| - 1][..k] == rs[..k];
    } else {
      assert rs[..k] == rs;
    }
  }

  /** One reply for each request that awaits one, in order, of the kind that is awaited. */
  predicate AllAnswer(results: seq<Reply>, rs: seq<Request>) {
    |results| == |Awaiting(rs)| && forall i :: 0 <= i < |results| ==> Answers(results[i], Awaiting(rs)[i])
  }

  lemma AnswersOneMore(results: seq<Reply>, rs: seq<Request>, r: Request, reply: Option<Reply>)
    requires AllAnswer(results, rs) && (reply.Some? <==> Awaits(r)) && (reply.Some? ==> Answers(reply.value, r))
    ensures AllAnswer(results + if reply.Some? then [reply.value] else [], rs + [r])
  {
    hide Awaits, Awaiting, Answers;
    AwaitingOneMore(rs, r);
  }

  lemma ResultsOneMore(cfg: Config, s: Local, c: nat, r: Request, rs: seq<Request>)
    requires GoodLocal(cfg, s) && c in s.accounts && Acceptable(cfg, s.world, s.accounts[c].table, r)
    requires AllAnswer(s.accounts[c].results, rs)
    ensures AllAnswer(LocalStep(cfg, s, c, r).accounts[c].results, rs + [r])
  {
    hide Serve, Acceptable, AllAnswer, Awaits, Answers, ReplyFits, ValidConfig, ValidWorld, ValidTable;
    ServedAsAwaited(cfg, s.world, s.accounts[c].table, r);
    AnswersOneMore(s.accounts[c].results, rs, r, Serve(cfg, s.world, s.accounts[c].table, r).reply);
  }

  /** Over a whole local run, a client's results answer its requests one by one. */
  lemma {:induction false} ResultsAnswer(cfg: Config, s: Local, log: seq<Event>, c: nat)
    requires GoodLocal(cfg, s) && KnownClients(s, log) && Performed(cfg, s, log)
    requires c in s.accounts && s.accounts[c].results == []
    ensures AllAnswer(LocalRun(cfg, s, log).accounts[c].results, Projection(log, c))
  {
    hide GoodLocal, LocalStep, Acceptable, AllAnswer, Follows;
    if log == [] {
      NothingToAnswer();
    } else {
      var init, last := log[..|log| - 1], log[|log| - 1];
      ResultsAnswer(cfg, s, init, c);
      var l := LocalRun(cfg, s, init);
      if last.client == c {
        ResultsOneMore(cfg, l, c, last.request, Projection(init, c));
      } else {
        OtherAccount(cfg, l, last.client, last.request, c);
        assert Projection(init, c) + [] == Projection(init, c);
      }
    }
  }

  lemma NothingToAnswer()
    ensures AllAnswer([], [])
  {
  }

  lemma OtherAccount(cfg: Config, s: Local, c: nat, r: Request, k: nat)
    requires GoodLocal(cfg, s) && c in s.accounts && k in s.accounts && k != c
    ensures LocalStep(cfg, s, c, r).accounts[k] == s.accounts[k]
  {
    hide GoodLocal, LocalStep;
  }

  /** The replies a client has received answer its first awaiting requests, so its response check never fails. */
  predicate RepliesAnswer(p: Peer) {
    |p.received| <= |Awaiting(p.issued)|
    && forall i :: 0 <= i < |p.received| ==> Answers(p.received[i], Awaiting(p.issued)[i])
  }

  lemma ReceivedAnswer(results: seq<Reply>, p: Peer)
    requires p.done <= |p.issued| && AllAnswer(results, p.issued[..p.done]) && p.received <= results
    ensures RepliesAnswer(p)
  {
    hide Awaiting, Answers;
    AwaitingPrefix(p.issued, p.done);
  }

  /**
   * Remote refines local, over whole runs. Take any number of clients that
   * make acceptable requests, and any interleaving of their stubs, the server
   * and the channels. There is one order of all requests handled so far, in
   * which every client's requests appear in its program order, such that the
   * server's devices (memory and bus trace) are what the local devices are
   * after performing the requests in that order, and every reply a client has
   * received is the result the local call gives at its place in that order and
   * of the kind its stub awaits.
   * Connections end only by Bye; a client that does not wait has all its
   * results; and requests are not lost.
   */
  lemma RemoteRefinesLocal(cfg: Config, s0: System, moves: seq<Move>)
    requires Initial(cfg, s0) && ValidRun(cfg, s0, moves)
    ensures var s := Run(cfg, s0, moves);
      && GoodLocal(cfg, Start(s0)) && KnownClients(Start(s0), s.log) && Performed(cfg, Start(s0), s.log)
      && var l := LocalRun(cfg, Start(s0), s.log);
      && s.world == l.world && l.accounts.Keys == s.peers.Keys
      && forall c :: c in s.peers ==> ClientSees(cfg, s.log, l.accounts[c], c, s.peers[c])
  {
    hide Initial, AllPeers, GoodLocal, KnownClients, LocalRun, ClientSees, Performed;
    InitialRefines(cfg, s0);
    RunRefines(cfg, s0, s0, moves);
    var s := Run(cfg, s0, moves);
    forall c | c in s0.peers
      ensures AllAnswer(LocalRun(cfg, Start(s0), s.log).accounts[c].results, Projection(s.log, c))
    {
      ResultsAnswer(cfg, Start(s0), s.log, c);
    }
    PeersSee(cfg, LocalRun(cfg, Start(s0), s.log), s);
  }

  predicate ClientSees(cfg: Config, log: seq<Event>, a: Account, c: nat, p: Peer) {
    && p.done <= |p.issued| && Projection(log, c) == p.issued[..p.done]
    && p.conn.table == a.table
    && p.received <= a.results
    && (!Waiting(p) ==> p.received == a.results)
    && RepliesAnswer(p)
    && (!p.open ==> SaidBye(p) && p.done == |p.issued|)
    && (p.open && p.toServer == [] ==> p.done == |p.issued|)
  }

  lemma PeersSee(cfg: Config, l: Local, s: System)
    requires GoodLocal(cfg, l) && AllPeers(cfg, l, s)
    requires forall c :: c in l.accounts ==> AllAnswer(l.accounts[c].results, Projection(s.log, c))
    ensures s.world == l.world && l.accounts.Keys == s.peers.Keys
    ensures forall c :: c in s.peers ==> ClientSees(cfg, s.log, l.accounts[c], c, s.peers[c])
  {
    hide GoodLocal, ClientSees, OnePeer, AllAnswer;
    forall c | c in s.peers
      ensures ClientSees(cfg, s.log, l.accounts[c], c, s.peers[c])
    {
      assert OnePeer(cfg, l, s.log, c, s.peers[c]);
      PeerSees(cfg, l, s.log, c, s.peers[c]);
    }
  }

  lemma PeerSees(cfg: Config, l: Local, log: seq<Event>, c: nat, p: Peer)
    requires GoodLocal(cfg, l) && c in l.accounts && OnePeer(cfg, l, log, c, p)
    requires AllAnswer(l.accounts[c].results, Projection(log, c))
    ensures ClientSees(cfg, log, l.accounts[c], c, p)
  {
    hide AllAnswer, RepliesAnswer;
    hide GoodLocal, AllAcceptable, EncodeRequests, EncodeReplies, AllFit, AllEncodable, Complete, Awaited;
    if !Waiting(p) {
      NothingOutstanding(cfg, l, c, p);
    }
    if p.open && p.toServer == [] {
      NothingStuck(cfg, l, c, p);
    }
    if !p.open {
      assert p.issued[p.done - 1].Bye?;
    }
    ReceivedAnswer(l.accounts[c].results, p);
  }
}

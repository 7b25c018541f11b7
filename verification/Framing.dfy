/**
 * From a byte stream to handled messages (parse_msgs): complete frames at the
 * head of the pending bytes are handled one after the other until the bytes
 * run out or a message ends the connection.
 */
module Framing {
  import opened Bytes
  import opened Handlers
  import opened Wire

  /**
   * A connection as the server sees it: device table, received bytes not yet
   * handled, bytes sent, and how many more bytes the socket will take before a
   * send fails (negative: it never fails).
   */
  datatype Conn = Conn(table: Table, pending: bytes, sent: bytes, room: int)

  datatype Message = Message(cmd: byte, body: bytes)

  /** handled: what was given to handle_msg, in order. */
  datatype Drained = Drained(world: World, conn: Conn, closed: bool, handled: seq<Message>)

  const NEW_CONN: Conn := Conn([], [], [], -1)

  predicate Complete(stream: bytes) {
    |stream| >= HEADER_SIZE && FrameLength(stream) <= |stream|
  }

  function Head(stream: bytes): Message
    requires Complete(stream)
  {
    Message(stream[0], stream[HEADER_SIZE..FrameLength(stream)])
  }

  function Tail(stream: bytes): (rest: bytes)
    requires Complete(stream)
    ensures |rest| < |stream|
  {
    stream[FrameLength(stream)..]
  }

  ghost predicate Good(cfg: Config, w: World, c: Conn) {
    ValidConfig(cfg) && ValidWorld(cfg, w) && ValidTable(cfg, c.table)
  }

  predicate TakesAll(room: int, reply: bytes) {
    room < 0 || |reply| <= room
  }

  /** What a socket takes of a reply: all of it, or as much as there is room for. */
  function Accepted(room: int, reply: bytes): (taken: bytes)
    ensures taken <= reply && (TakesAll(room, reply) <==> taken == reply)
  {
    if TakesAll(room, reply) then reply else reply[..room]
  }

  function RoomAfter(room: int, reply: bytes): int {
    if room < 0 then room else room - |Accepted(room, reply)|
  }

  function Transmit(c: Conn, reply: bytes): Conn {
    c.(sent := c.sent + Accepted(c.room, reply), room := RoomAfter(c.room, reply))
  }

  /** Handling the frame at the head of the pending bytes and sending the reply. */
  ghost function Step(cfg: Config, w: World, c: Conn): (d: Drained)
    requires Good(cfg, w, c) && Complete(c.pending)
    ensures Good(cfg, d.world, d.conn) && d.handled == [Head(c.pending)] && d.conn.pending == Tail(c.pending)
  {
    var m := Head(c.pending);
    var h := Handle(cfg, w, c.table, m.cmd, m.body);
    HandleKeeps(cfg, w, c.table, m.cmd, m.body);
    var answered := Transmit(Conn(h.table, Tail(c.pending), c.sent, c.room), h.reply);
    Drained(h.world, answered, h.disconnect || !TakesAll(c.room, h.reply), [m])
  }

  /** d, with messages handled before it. */
  function Prefixed(before: seq<Message>, d: Drained): Drained {
    d.(handled := before + d.handled)
  }

  /** parse_msgs */
  ghost function Drain(cfg: Config, w: World, c: Conn): (d: Drained)
    requires Good(cfg, w, c)
    ensures Good(cfg, d.world, d.conn)
    ensures !d.closed ==> !Complete(d.conn.pending)
    ensures |d.conn.pending| <= |c.pending|
    decreases |c.pending|
  {
    if !Complete(c.pending) then Drained(w, c, false, [])
    else
      var s := Step(cfg, w, c);
      if s.closed then s
      else
        Prefixed(s.handled, Drain(cfg, s.world, s.conn))
  }

  function Arrived(c: Conn, more: bytes): Conn {
    c.(pending := c.pending + more)
  }

  lemma CompleteGrows(stream: bytes, more: bytes)
    requires Complete(stream)
    ensures Complete(stream + more) && Head(stream + more) == Head(stream) && Tail(stream + more) == Tail(stream) + more
  {
    assert (stream + more)[1..3] == stream[1..3];
    var n := FrameLength(stream);
    assert (stream + more)[HEADER_SIZE..n] == stream[HEADER_SIZE..n];
    assert (stream + more)[n..] == stream[n..] + more;
  }

  lemma StepGrows(cfg: Config, w: World, c: Conn, more: bytes)
    requires Good(cfg, w, c) && Complete(c.pending)
    ensures Complete(Arrived(c, more).pending)
    ensures var s := Step(cfg, w, c); Step(cfg, w, Arrived(c, more)) == s.(conn := Arrived(s.conn, more))
  {
    hide Handle, Good, Complete, Head, Tail;
    CompleteGrows(c.pending, more);
  }

  lemma DrainComplete(cfg: Config, w: World, c: Conn)
    requires Good(cfg, w, c) && Complete(c.pending)
    ensures var s := Step(cfg, w, c);
      Drain(cfg, w, c) == if s.closed then s else Prefixed(s.handled, Drain(cfg, s.world, s.conn))
  {
    hide Step, Good, Complete;
  }

  lemma PrefixedTwice(a: seq<Message>, b: seq<Message>, d: Drained)
    ensures Prefixed(a, Prefixed(b, d)) == Prefixed(a + b, d)
  {
    assert a + (b + d.handled) == a + b + d.handled;
  }

  /** Handling what is there and then what arrives is handling it all at once. */
  lemma {:induction false} DrainInTwo(cfg: Config, w: World, c: Conn, more: bytes)
    requires Good(cfg, w, c)
    ensures var d := Drain(cfg, w, c);
      Drain(cfg, w, Arrived(c, more)) ==
      if d.closed then d.(conn := Arrived(d.conn, more))
      else Prefixed(d.handled, Drain(cfg, d.world, Arrived(d.conn, more)))
    decreases |c.pending|
  {
    hide Step, Complete, ValidConfig, ValidWorld, ValidTable, Drain;
    if Complete(c.pending) {
      StepGrows(cfg, w, c, more);
      DrainComplete(cfg, w, c);
      DrainComplete(cfg, w, Arrived(c, more));
      var s := Step(cfg, w, c);
      if !s.closed {
        DrainInTwo(cfg, s.world, s.conn, more);
        var d := Drain(cfg, s.world, s.conn);
        if !d.closed {
          PrefixedTwice(s.handled, d.handled, Drain(cfg, d.world, Arrived(d.conn, more)));
        }
      }
    } else {
      DrainOfIncomplete(cfg, w, c);
    }
  }

  lemma DrainOfIncomplete(cfg: Config, w: World, c: Conn)
    requires Good(cfg, w, c) && !Complete(c.pending)
    ensures Drain(cfg, w, c) == Drained(w, c, false, [])
  {
  }

  // ---- any chunking ----

  function Concat(chunks: seq<bytes>): bytes {
    if chunks == [] then [] else chunks[0] + Concat(chunks[1..])
  }

  /** One receive and one parse per chunk, until the connection ends. */
  ghost function Feed(cfg: Config, w: World, c: Conn, chunks: seq<bytes>): (d: Drained)
    requires Good(cfg, w, c)
    decreases |chunks|
  {
    if chunks == [] then Drained(w, c, false, [])
    else
      var first := Drain(cfg, w, Arrived(c, chunks[0]));
      if first.closed then first
      else
        Prefixed(first.handled, Feed(cfg, first.world, first.conn, chunks[1..]))
  }

  /** Same messages handled, same effect, same replies; the same bytes left over unless the connection ended. */
  predicate SameRun(a: Drained, b: Drained) {
    && a.handled == b.handled && a.world == b.world && a.closed == b.closed
    && a.conn.table == b.conn.table && a.conn.sent == b.conn.sent && a.conn.room == b.conn.room
    && (!a.closed ==> a.conn.pending == b.conn.pending)
  }

  /**
   * Framing does not depend on chunking: however the stream is cut, the run is
   * the run of the whole stream received at once.
   */
  lemma {:induction false} ChunkingDoesNotMatter(cfg: Config, w: World, c: Conn, chunks: seq<bytes>)
    requires Good(cfg, w, c) && !Complete(c.pending)
    ensures SameRun(Feed(cfg, w, c, chunks), Drain(cfg, w, Arrived(c, Concat(chunks))))
    decreases |chunks|
  {
    hide Complete, ValidConfig, ValidWorld, ValidTable, Drain;
    if chunks == [] {
      DrainOfIncomplete(cfg, w, c);
      assert Arrived(c, []) == c;
    } else {
      var head, rest := chunks[0], Concat(chunks[1..]);
      var first := Drain(cfg, w, Arrived(c, head));
      DrainInTwo(cfg, w, Arrived(c, head), rest);
      assert Arrived(Arrived(c, head), rest) == Arrived(c, Concat(chunks)) by {
        assert c.pending + head + rest == c.pending + (head + rest);
      }
      if !first.closed {
        ChunkingDoesNotMatter(cfg, first.world, first.conn, chunks[1..]);
      }
    }
  }

  /** So any two ways of cutting the same stream have the same run. */
  lemma ChunkingsAgree(cfg: Config, w: World, c: Conn, a: seq<bytes>, b: seq<bytes>)
    requires Good(cfg, w, c) && !Complete(c.pending) && Concat(a) == Concat(b)
    ensures SameRun(Feed(cfg, w, c, a), Feed(cfg, w, c, b))
  {
    ChunkingDoesNotMatter(cfg, w, c, a);
    ChunkingDoesNotMatter(cfg, w, c, b);
    hide Feed, Drain, Good;
  }

  // ---- the frames of a stream ----

  /** The complete frames of a stream, parsed in one go, without handling them. */
  function Frames(stream: bytes): seq<Message>
    decreases |stream|
  {
    if !Complete(stream) then [] else [Head(stream)] + Frames(Tail(stream))
  }

  function Leftover(stream: bytes): (rest: bytes)
    ensures !Complete(rest)
    decreases |stream|
  {
    if !Complete(stream) then stream else Leftover(Tail(stream))
  }

  /**
   * The messages handled are the frames of the stream: all of them if the
   * connection goes on, and else all up to the one that ended it.
   */
  lemma {:induction false} HandledAreFrames(cfg: Config, w: World, c: Conn)
    requires Good(cfg, w, c)
    ensures var d := Drain(cfg, w, c);
      && d.handled <= Frames(c.pending)
      && (!d.closed ==> d.handled == Frames(c.pending) && d.conn.pending == Leftover(c.pending))
      && (d.closed ==> d.handled != [])
    decreases |c.pending|
  {
    hide Step, Good, Complete, Head, Tail;
    if Complete(c.pending) {
      var s := Step(cfg, w, c);
      if !s.closed {
        HandledAreFrames(cfg, s.world, s.conn);
      }
    }
  }

  /** The pending bytes of an open connection fill the buffer only if their frame can never fit it. */
  lemma FullBufferMeansOversizedFrame(rest: bytes, size: nat)
    requires !Complete(rest) && |rest| <= size && HEADER_SIZE <= size
    ensures |rest| < size || FrameLength(rest) > size
    ensures |rest| >= HEADER_SIZE && FrameLength(rest) <= size ==> |rest| < size
  {
  }

  /** Everything sent stays sent, and the table only grows: ids keep their meaning. */
  lemma {:induction false} DrainExtends(cfg: Config, w: World, c: Conn)
    requires Good(cfg, w, c)
    ensures var d := Drain(cfg, w, c);
      && c.sent <= d.conn.sent && c.table <= d.conn.table && SameShape(d.world, w)
      && (forall i :: 0 <= i < |w| && Used(i) !in d.conn.table ==> d.world[i] == w[i])
    decreases |c.pending|
  {
    hide Good, Complete;
    if Complete(c.pending) {
      var s := Step(cfg, w, c);
      StepExtends(cfg, w, c);
      hide Step;
      if !s.closed {
        DrainExtends(cfg, s.world, s.conn);
      }
    }
  }

  lemma StepExtends(cfg: Config, w: World, c: Conn)
    requires Good(cfg, w, c) && Complete(c.pending)
    ensures var s := Step(cfg, w, c);
      && c.sent <= s.conn.sent && c.table <= s.conn.table && SameShape(s.world, w)
      && (forall i :: 0 <= i < |w| && Used(i) !in s.conn.table ==> s.world[i] == w[i])
  {
    var m := Head(c.pending);
    HandleKeeps(cfg, w, c.table, m.cmd, m.body);
    hide Handle, Head, Tail, ValidConfig, ValidWorld, ValidTable;
  }

  /**
   * However many queries a connection makes, each device of its table has been
   * attached once for it, and no other device has been.
   */
  lemma {:induction false} DrainAttachesOnce(cfg: Config, w: World, c: Conn)
    requires Good(cfg, w, c) && PluginsOnlyUse(cfg)
    ensures var d := Drain(cfg, w, c); AttachesNew(w, c.table, d.world, d.conn.table)
    decreases |c.pending|
  {
    hide Good, Complete, PluginsOnlyUse, AttachesNew, Step, Drain;
    if Complete(c.pending) {
      var s := Step(cfg, w, c);
      StepAttaches(cfg, w, c);
      DrainComplete(cfg, w, c);
      if !s.closed {
        DrainAttachesOnce(cfg, s.world, s.conn);
        StepExtends(cfg, w, c);
        DrainExtends(cfg, s.world, s.conn);
        var d := Drain(cfg, s.world, s.conn);
        AttachesNewTwice(w, c.table, s.world, s.conn.table, d.world, d.conn.table);
      }
    } else {
      DrainOfIncomplete(cfg, w, c);
      NoAttaches(w, c.table);
    }
  }

  lemma StepAttaches(cfg: Config, w: World, c: Conn)
    requires Good(cfg, w, c) && Complete(c.pending) && PluginsOnlyUse(cfg)
    ensures var s := Step(cfg, w, c); AttachesNew(w, c.table, s.world, s.conn.table)
  {
    hide Handle, Head, Tail, AttachesNew, PluginsOnlyUse;
    var m := Head(c.pending);
    HandleAttaches(cfg, w, c.table, m.cmd, m.body);
  }

  /** An error is the last frame of its connection. */
  lemma StepEndsWithError(cfg: Config, w: World, c: Conn)
    requires Good(cfg, w, c) && Complete(c.pending)
    ensures var s := Step(cfg, w, c); var m := Head(c.pending); var h := Handle(cfg, w, c.table, m.cmd, m.body);
      s.closed <==> m.cmd == CMD_BYE || IsError(h.reply) || !TakesAll(c.room, h.reply)
  {
    hide Handle, Head, Tail, IsError, Complete;
    var m := Head(c.pending);
    ErrorsAreLast(cfg, w, c.table, m.cmd, m.body);
  }
}

/**
 * What every operation of a connection keeps: the windows are the credit received less the DATA written, the
 * response bodies are the DATA dispatched, and the DATA written for a stream is the front of its request body.
 */
module Http2Invariants {
  import opened Common
  import opened FlowControl
  import opened Http2Types
  import opened Http2Engine
  import opened Http2Frames
  import opened Http2Logs

  // ----- the invariant -----

  /** Stream ids are odd and were all handed out below the next one; nothing was written beyond it. */
  ghost predicate Ids(c: Conn)
  {
    && c.nextId % 2 == 1 && c.nextId <= 0x8000_0001
    && (forall id :: id in c.streams ==>
        id % 2 == 1 && id < c.nextId && id in c.born && id in c.staged && c.born[id] <= |c.accepted|)
    && (forall id :: id in c.staged ==> id < c.nextId)
    && Untouched(c.out, c.nextId)
  }

  /** The connection's send window is its initial size, plus the increments received, less the DATA written. */
  ghost predicate ConnectionAccount(c: Conn)
  {
    c.connSend == DEFAULT_WINDOW + Increments(c.accepted, 0) - DataTotal(c.out)
  }

  /** Every staged body was sent front first, with END_STREAM exactly on the frame that completed it. */
  ghost predicate BodiesSent(c: Conn)
  {
    forall id :: id in c.staged ==> BodySent(c.out, id, c.staged[id].body)
  }

  /** One stream against the logs; `since` is what was dispatched since it was opened. */
  ghost predicate StreamAccount(s: Stream, id: nat, out: seq<Frame>, since: seq<Frame>, body: seq<Byte>)
  {
    && s.sendWindow.available == s.sendWindow.initialPeer + Increments(since, id) - |DataOf(out, id)|
    && s.body == BodyOf(since, id) && !s.state.Idle?
    && (s.pendingBody.None? ==> DataOf(out, id) == body)
    && (s.pendingBody.Some? ==> s.pendingBody.value.bytes == body && s.pendingBody.value.sent < |body|
                                && DataOf(out, id) == body[..s.pendingBody.value.sent])
  }

  ghost predicate Accounted(c: Conn, id: nat)
    requires id in c.streams && id in c.born && id in c.staged && c.born[id] <= |c.accepted|
  {
    StreamAccount(c.streams[id], id, c.out, c.accepted[c.born[id]..], c.staged[id].body)
  }

  ghost predicate StreamsAccounted(c: Conn)
    requires Ids(c)
  {
    forall id :: id in c.streams ==> Accounted(c, id)
  }

  /** What holds at every moment of a run, even after the transport died. */
  ghost predicate Logged(c: Conn)
  {
    Sound(c) && Ids(c) && ConnectionAccount(c) && BodiesSent(c)
  }

  ghost predicate Inv(c: Conn)
  {
    Logged(c) && (c.dead || StreamsAccounted(c))
  }

  // ----- the start -----

  /** A connection as the handshake leaves it. */
  ghost predicate Fresh(c: Conn)
  {
    && |c.tables.huffman| == 257 && c.peer == DEFAULT_SETTINGS && c.connSend == DEFAULT_WINDOW
    && c.connRecv == NewRecvWindow()
    && c.streams == map[] && c.nextId == 1 && c.goaway.None? && c.expecting.None? && !c.dead
    && (forall f :: f in c.inbound ==> |f.payload| <= MAX_FRAME_PAYLOAD)
    && c.out == [] && c.accepted == [] && c.born == map[] && c.staged == map[]
  }

  lemma FreshIsInvariant(c: Conn)
    requires Fresh(c)
    ensures Inv(c)
  {
  }

  /** Forgetting streams keeps the invariant. */
  lemma FewerStreamsKeepInv(c: Conn, kept: map<nat, Stream>)
    requires Inv(c) && forall id :: id in kept ==> id in c.streams && kept[id] == c.streams[id]
    ensures Inv(c.(streams := kept))
  {
    assert c.dead || forall id :: id in c.streams ==> Accounted(c, id);
  }

  // ----- inbound frames -----

  lemma {:induction false} ControlFrames(out: seq<Frame>, extra: seq<Frame>, id: nat)
    requires forall f :: f in extra ==> Control(f)
    ensures DataOf(out + extra, id) == DataOf(out, id) && DataTotal(out + extra) == DataTotal(out)
    ensures Ended(out + extra, id) == Ended(out, id) && NothingAfterEnd(out + extra, id) == NothingAfterEnd(out, id)
    decreases |extra|
  {
    if extra == [] {
      assert out + extra == out;
    } else {
      var front, last := extra[..|extra| - 1], extra[|extra| - 1];
      ControlFrames(out, front, id);
      ControlFrame(out + front, last, id);
      assert out + front + [last] == out + extra;
    }
  }

  lemma StreamAdvances(s: Stream, s1: Stream, id: nat, out: seq<Frame>, out1: seq<Frame>, since: seq<Frame>,
                       since1: seq<Frame>,
                       inc: nat, part: seq<Byte>, body: seq<Byte>)
    requires StreamAccount(s, id, out, since, body) && StreamStep(s, s1, inc, part)
    requires DataOf(out1, id) == DataOf(out, id)
    requires Increments(since1, id) == Increments(since, id) + inc && BodyOf(since1, id) == BodyOf(since, id) + part
    ensures StreamAccount(s1, id, out1, since1, body)
  {
  }

  /** The history a dispatch leaves behind. */
  function Remembered(c: Conn, f: Frame, ok: bool): seq<Frame>
  {
    if ok then c.accepted + [f] else c.accepted
  }

  lemma StepAccounts(c: Conn, c1: Conn, f: Frame, ok: bool, extra: seq<Frame>, id: nat)
    requires Ids(c) && id in c.streams && Accounted(c, id)
    requires FrameStep(c, c1, f, ok, extra) && !c1.dead
    ensures StreamAccount(c1.streams[id], id, c1.out, Remembered(c, f, ok)[c.born[id]..], c.staged[id].body)
  {
    ControlFrames(c.out, extra, id);
    var since := c.accepted[c.born[id]..];
    if ok {
      Received(c.accepted, c.born[id], f, id);
      StreamAdvances(c.streams[id], c1.streams[id], id, c.out, c1.out, since, Remembered(c, f, ok)[c.born[id]..],
                     Increment(f, id), BodyPart(f, id), c.staged[id].body);
    } else {
      StreamAdvances(c.streams[id], c1.streams[id], id, c.out, c1.out, since, since, 0, [], c.staged[id].body);
    }
  }

  lemma StepKeepsIds(c: Conn, c1: Conn, f: Frame, ok: bool, extra: seq<Frame>)
    requires Sound(c) && Ids(c) && FrameStep(c, c1, f, ok, extra)
    ensures Ids(c1.(accepted := Remembered(c, f, ok)))
  {
    assert forall x :: x in extra ==> x.id < c.nextId;
  }

  lemma StepKeepsLogs(c: Conn, c1: Conn, f: Frame, ok: bool, extra: seq<Frame>)
    requires Logged(c) && FrameStep(c, c1, f, ok, extra)
    ensures Logged(c1.(accepted := Remembered(c, f, ok)))
  {
    StepKeepsIds(c, c1, f, ok, extra);
    ControlFrames(c.out, extra, 0);
    Snoc(c.accepted, f);
    forall id | id in c.staged
      ensures BodySent(c1.out, id, c.staged[id].body)
    {
      ControlFrames(c.out, extra, id);
    }
  }

  lemma StepKeepsInv(c: Conn, c1: Conn, f: Frame, ok: bool, extra: seq<Frame>)
    requires Inv(c) && FrameStep(c, c1, f, ok, extra)
    ensures Inv(c1.(accepted := Remembered(c, f, ok)))
  {
    StepKeepsLogs(c, c1, f, ok, extra);
    if !c1.dead {
      forall id | id in c.streams
        ensures StreamAccount(c1.streams[id], id, c1.out, Remembered(c, f, ok)[c.born[id]..], c.staged[id].body)
      {
        StepAccounts(c, c1, f, ok, extra, id);
      }
    }
  }

  lemma TakingInputKeepsInv(c: Conn)
    requires Inv(c) && c.inbound != []
    ensures Inv(c.(inbound := c.inbound[1..]))
  {
    var c1 := c.(inbound := c.inbound[1..]);
    assert forall f :: f in c1.inbound ==> f in c.inbound;
    assert c.dead || forall id :: id in c.streams ==> Accounted(c, id);
  }

  lemma HistoryIsFree(c: Conn, c1: Conn, f: Frame, ok: bool, extra: seq<Frame>, history: seq<Frame>)
    requires FrameStep(c, c1, f, ok, extra)
    ensures FrameStep(c.(accepted := history), c1.(accepted := history), f, ok, extra)
  {
  }

  /** What reading one frame does to the rest of the connection. */
  ghost predicate Consumed(c: Conn, c1: Conn, r: Result<Outcome>)
  {
    && c1.born == c.born && c1.staged == c.staged && c1.nextId == c.nextId && c1.tables == c.tables
    && c1.streams.Keys == c.streams.Keys
    && (r.Ok? ==> c.inbound != [] && c1.dead == c.dead)
    && c1.accepted == (if r.Ok? then c.accepted + [c.inbound[0]] else c.accepted)
    && c1.inbound == (if c.inbound == [] then [] else c.inbound[1..])
    && (r.Ok? && r.value.Done? ==> r.value.id in c1.streams && c1.streams[r.value.id].Done())
  }

  /** Reading and dispatching any frame keeps the invariant, accepted or refused. */
  lemma ReadKeepsInv(c: Conn)
    requires Inv(c)
    ensures Inv(ReadAndDispatch(c).1) && Consumed(c, ReadAndDispatch(c).1, ReadAndDispatch(c).0)
  {
    if c.inbound != [] {
      var f := c.inbound[0];
      var unread := c.(inbound := c.inbound[1..]);
      TakingInputKeepsInv(c);
      var c0 := unread.(accepted := c.accepted + [f]);
      assert f in c.inbound;
      var extra := DispatchStep(c0, f);
      DoneIsComplete(c0, f);
      var (r, c1) := ProcessFrame(c0, f);
      HistoryIsFree(c0, c1, f, r.Ok?, extra, c.accepted);
      var same := c1.(accepted := c.accepted);
      StepKeepsInv(unread, same, f, r.Ok?, extra);
      assert same.(accepted := Remembered(unread, f, r.Ok?)) == ReadAndDispatch(c).1;
    }
  }
}

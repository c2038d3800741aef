/**
 * Whole runs against a peer that answers: as long as the transport is up every request gets its reply, request by
 * request the fields and the body the peer sent for it.
 */
module Http2Answers {
  import opened Common
  import opened FlowControl
  import opened Http2Types
  import opened Http2Engine
  import opened Http2Frames
  import opened Http2Invariants
  import opened Http2Pump
  import opened Http2Start
  import opened Http2Driver
  import opened Http2Requests
  import opened Http2Exchange
  import opened HpackRuns
  import opened SortedIds
  import Hpack

  // ----- the run and the peer, side by side -----

  /** Every request can be encoded, and the peer has understood what was sent. */
  ghost predicate Clear(w: Terms, c: Conn, reqs: seq<Request>)
  {
    && ValidTables(w.t) && AllAdmissible(w.t, reqs) && c.tables == w.t && Understood(c)
    && c.peer.headerTableSize <= 4096 && c.peer.maxFrameSize <= MAX_FRAME_PAYLOAD
  }

  /** A slot is open until the answer is over, and then it holds the answer. */
  predicate SlotIs(slot: Slot, a: Answer)
  {
    if a.over then slot.Reply? && Got(slot.stream, a) else slot.Unresolved?
  }

  /** Request `i` was started on its stream, and its slot follows the answer. */
  predicate Slotted(w: Terms, s: Server, m: Mux, i: nat)
  {
    i < |m.results| && i in m.started && m.started[i] == w.StreamOf(i)
      && SlotIs(m.results[i], AnswerOf(s, w.StreamOf(i)))
  }

  /** The numbers add up: requests queued, in flight and answered. */
  ghost predicate Tallied(w: Terms, s: Server, m: Mux)
  {
    && |m.results| == w.n && |m.queue| <= w.n && m.conn.nextId == w.StreamOf(w.n - |m.queue|)
    && |m.conn.streams| + s.done == w.n - |m.queue| && |m.conn.streams| <= w.limit
    && (forall i: nat :: i < w.n - |m.queue| ==> Slotted(w, s, m, i))
    && (forall id :: id in s.answers ==> id < m.conn.nextId)
    && (s.block.Some? ==> s.block.value.0 in m.conn.streams)
  }

  ghost predicate Together(w: Terms, s: Server, m: Mux, reqs: seq<Request>)
  {
    Kept(m, reqs) && Following(w, s, m.conn) && Clear(w, m.conn, reqs) && Tallied(w, s, m)
  }

  /** No more requests can be started now. */
  predicate Full(w: Terms, m: Mux) { m.queue == [] || |m.conn.streams| == w.limit }

  /** The ids of all requests exist. */
  predicate Enough(w: Terms) { w.StreamOf(w.n) <= 0x8000_0001 && w.limit > 0 }

  // ----- starting -----

  lemma DeadStartRequest(c: Conn, req: Request)
    requires |c.tables.huffman| == 257 && c.peer.maxFrameSize > 0 && c.dead
    ensures StartRequest(c, req).1.dead
  {
  }

  /** A new stream has no answer yet. */
  lemma NewStreamAwaits(c: Conn, req: Request, s: Server, room: nat)
    requires c.peer.initialWindowSize + room <= WINDOW_MAX
    ensures Awaits(StagedStream(NewStream(c.nextId, c.peer.initialWindowSize), req.body), Answer(None, [], false),
                   [], room)
  {
  }

  /** While the transport is up a request that may be opened is started. */
  lemma StartGoesThrough(c: Conn, req: Request)
    requires Inv(c) && MayOpen(c) && !c.dead && ValidTables(c.tables) && Admissible(c.tables, Send(req.fields))
             && Understood(c)
    ensures var (got, c1) := StartRequest(c, req);
            c1.dead || got == Some(c.nextId)
  {
    OpenedStream(c);
    var (id, c0) := OpenStream(c).value;
    var n := RequestWritten(c0, Hear(c.tables, FRESH_EAR, c.out).d, id, req);
    StageIsWriting(c0, id, req);
  }

  /** What a start leaves of the connection. */
  lemma StartMoves(c: Conn, req: Request)
    requires Inv(c) && MayOpen(c) && StartRequest(c, req).0.Some?
    ensures var c1 := StartRequest(c, req).1;
            var x := StagedStream(NewStream(c.nextId, c.peer.initialWindowSize), req.body);
            && c.nextId !in c.streams && c1.dead == c.dead
            && c1 == c.(nextId := c.nextId + 2, streams := c.streams[c.nextId := x], encoder := c1.encoder,
                        out := c1.out, budget := c1.budget, born := c1.born, staged := c1.staged)
  {
    OpenedStream(c);
    var fs, n := StageOutcome(c, req);
  }

  /** A connection with one more stream follows the peer as before. */
  lemma StartFollows(w: Terms, s: Server, c: Conn, req: Request)
    requires Inv(c) && MayOpen(c) && StartRequest(c, req).0.Some? && Following(w, s, c)
    requires c.nextId !in s.answers && (s.block.Some? ==> s.block.value.0 in c.streams)
    ensures Following(w, s, StartRequest(c, req).1)
  {
    StartMoves(c, req);
    StartKeepsInv(c, req);
    NewStreamAwaits(c, req, s, s.room);
    var x := StagedStream(NewStream(c.nextId, c.peer.initialWindowSize), req.body);
    OneMoreFollows(w, s, c, StartRequest(c, req).1, c.nextId, x);
  }

  lemma OneMoreFollows(w: Terms, s: Server, c: Conn, c1: Conn, id: nat, x: Stream)
    requires Following(w, s, c) && InTouch(w, s, c1) && c1.streams == c.streams[id := x] && id !in s.answers
    requires Awaits(x, Answer(None, [], false), [], s.room) && id !in c.streams
    requires s.block.Some? ==> s.block.value.0 in c.streams
    ensures Following(w, s, c1)
  {
  }

  lemma StartClear(w: Terms, c: Conn, reqs: seq<Request>, i: nat)
    requires Clear(w, c, reqs) && i < |reqs| && c.peer.maxFrameSize > 0
    ensures Clear(w, StartRequest(c, reqs[i]).1, reqs)
  {
    assert Admissible(c.tables, Send(reqs[i].fields));
    StartUnderstood(c, reqs[i]);
    StartKeepsTables(c, reqs[i]);
  }

  lemma StartTallied(w: Terms, s: Server, m: Mux, c: Conn, x: Stream)
    requires Tallied(w, s, m) && m.queue != [] && m.queue[0] == w.n - |m.queue| && |m.conn.streams| < w.limit
    requires c.nextId == m.conn.nextId + 2 && c.streams == m.conn.streams[m.conn.nextId := x]
             && m.conn.nextId !in m.conn.streams && m.results[m.queue[0]].Unresolved?
    ensures Tallied(w, s, WithStarted(m, c, m.conn.nextId))
  {
    var r := WithStarted(m, c, m.conn.nextId);
    forall i: nat | i < w.n - |r.queue|
      ensures Slotted(w, s, r, i)
    {
      assert i != m.queue[0] ==> Slotted(w, s, m, i);
    }
  }

  /** One more request in flight, unless the transport died. */
  lemma StartOneTogether(w: Terms, s: Server, m: Mux, reqs: seq<Request>)
    requires Together(w, s, m, reqs) && Enough(w) && m.queue != [] && |m.conn.streams| < w.limit
    ensures var r := StartOne(m, reqs);
            r.conn.dead || Together(w, s, r, reqs)
  {
    var c, i := m.conn, m.queue[0];
    assert i == w.n - |m.queue| && m.results[i].Unresolved?;
    StartOneKeeps(m, reqs);
    assert Admissible(c.tables, Send(reqs[i].fields));
    StartGoesThrough(c, reqs[i]);
    var (got, c1) := StartRequest(c, reqs[i]);
    if !c1.dead {
      StartMoves(c, reqs[i]);
      StartFollows(w, s, c, reqs[i]);
      StartClear(w, c, reqs, i);
      StartTallied(w, s, m, c1, c1.streams[c.nextId]);
    }
  }

  /** The transport died, or the run and the peer are together. */
  ghost predicate Going(w: Terms, s: Server, m: Mux, reqs: seq<Request>)
  {
    m.conn.dead || Together(w, s, m, reqs)
  }

  lemma StartOneGoes(w: Terms, s: Server, m: Mux, reqs: seq<Request>)
    requires Runnable(m, reqs) && Going(w, s, m, reqs) && Enough(w) && m.queue != []
    requires |m.conn.streams| < m.conn.peer.maxConcurrentStreams
    ensures Going(w, s, StartOne(m, reqs), reqs)
  {
    if m.conn.dead {
      DeadStartRequest(m.conn, reqs[m.queue[0]]);
    } else {
      StartOneTogether(w, s, m, reqs);
    }
  }

  lemma FullWhen(w: Terms, s: Server, m: Mux, reqs: seq<Request>)
    requires Going(w, s, m, reqs) && (m.queue == [] || |m.conn.streams| >= m.conn.peer.maxConcurrentStreams)
    ensures m.conn.dead || Full(w, m)
  {
  }

  lemma {:induction false} StartQueuedGoes(w: Terms, s: Server, m: Mux, reqs: seq<Request>)
    requires Runnable(m, reqs) && Going(w, s, m, reqs) && Enough(w)
    ensures var r := StartQueued(m, reqs);
            Going(w, s, r, reqs) && (r.conn.dead || Full(w, r))
    decreases |m.queue|
  {
    if m.queue == [] || |m.conn.streams| >= m.conn.peer.maxConcurrentStreams {
      FullWhen(w, s, m, reqs);
    } else {
      StartOneGoes(w, s, m, reqs);
      StartQueuedGoes(w, s, StartOne(m, reqs), reqs);
    }
  }

  // ----- pumping -----

  /** What sending may do to a stream. */
  predicate Sent(x: Stream, x1: Stream)
  {
    && x1 == x.(state := x1.state, sendWindow := x1.sendWindow, pendingBody := x1.pendingBody)
    && x1.sendWindow.available <= x.sendWindow.available && Sending(x1)
  }

  /** What sending may do to a connection whose transport stays up. */
  ghost predicate AllSent(c: Conn, c1: Conn)
  {
    && c1 == c.(connSend := c1.connSend, streams := c1.streams, budget := c1.budget, out := c1.out)
    && c1.connSend <= c.connSend && c1.streams.Keys == c.streams.Keys
    && forall id :: id in c.streams ==> Sent(c.streams[id], c1.streams[id])
  }

  ghost predicate AllSending(c: Conn)
  {
    !c.dead && forall id :: id in c.streams ==> Sending(c.streams[id])
  }

  lemma SentTwice(a: Conn, b: Conn, c: Conn)
    requires AllSent(a, b) && AllSent(b, c)
    ensures AllSent(a, c)
  {
  }

  /**
   * A chunk that does not kill the transport is sent exactly if it is no larger than the largest frame the writer
   * handles. The peer may announce frames of up to 2^24 - 1 bytes, so with windows to match a body can make a larger
   * one.
   */
  lemma ChunkGoesExactly(c: Conn, id: nat, n: nat)
    requires AllSending(c) && id in c.streams && c.streams[id].pendingBody.Some?
             && c.streams[id].pendingBody.value.sent + n <= |c.streams[id].pendingBody.value.bytes|
    ensures var (ok, c1) := SendChunk(c, id, n);
            c1.dead || (if n <= 0x10_0000 then ok && AllSent(c, c1) else !ok && c1 == c)
  {
  }

  /**
   * What that leads to: when the only body left to send would go out in a larger chunk, pumping fails on a healthy
   * transport, and with it every request that has no outcome yet.
   */
  lemma LargeChunkFailsAll(m: Mux, id: nat)
    requires AllSending(m.conn) && PendingIds(m.conn) == {id}
    requires var x := m.conn.streams[id];
             Left(x.pendingBody) > 0
             && NextDataChunkSize(m.conn.peer.maxFrameSize, SendBudget(m.conn, x), Left(x.pendingBody)) > 0x10_0000
    ensures Advance(m) == (false, FailAll(m))
  {
    var c, max := m.conn, m.conn.peer.maxFrameSize;
    var n := NextDataChunkSize(max, SendBudget(c, c.streams[id]), Left(c.streams[id].pendingBody));
    OnlyOne(id);
    PumpUnfolds(c, id, max, n);
    ChunkGoesExactly(c, id, n);
    assert PumpStreams(c, [id], max) == (false, c);
  }

  lemma OnlyOne(id: nat)
    ensures Sorted({id}) == [id]
  {
    assert {id} - {id} == {} && Least({id}) == id;
    assert Sorted({}) == [];
  }

  lemma {:induction false} PumpStreamGoes(c: Conn, id: nat, max: nat)
    requires AllSending(c) && max <= MAX_FRAME_PAYLOAD
    ensures var (ok, c1) := PumpStream(c, id, max);
            c1.dead || (ok && AllSent(c, c1))
    decreases Left(PendingOf(c, id))
  {
    if PendingOf(c, id).Some? && Left(PendingOf(c, id)) > 0 {
      var n := NextDataChunkSize(max, SendBudget(c, c.streams[id]), Left(PendingOf(c, id)));
      PumpUnfolds(c, id, max, n);
      if n > 0 {
        ChunkGoesExactly(c, id, n);
        var (ok, c') := SendChunk(c, id, n);
        if ok && n < Left(PendingOf(c, id)) && !c'.dead {
          PumpStreamGoes(c', id, max);
          if !PumpStream(c', id, max).1.dead {
            SentTwice(c, c', PumpStream(c', id, max).1);
          }
        }
      }
    }
  }

  lemma {:induction false} PumpsGo(c: Conn, ids: seq<nat>, max: nat)
    requires AllSending(c) && max <= MAX_FRAME_PAYLOAD
    ensures var (ok, c1) := PumpStreams(c, ids, max);
            c1.dead || (ok && AllSent(c, c1))
    decreases |ids|
  {
    if ids != [] {
      PumpStreamGoes(c, ids[0], max);
      var (ok, c') := PumpStream(c, ids[0], max);
      if ok && !c'.dead {
        PumpsGo(c', ids[1..], max);
        if !PumpStreams(c', ids[1..], max).1.dead {
          SentTwice(c, c', PumpStreams(c', ids[1..], max).1);
        }
      }
    }
  }

  lemma FlushFollows(w: Terms, s: Server, c: Conn)
    requires Following(w, s, c) && Inv(c) && c.peer.maxFrameSize <= MAX_FRAME_PAYLOAD
    ensures var (ok, c1) := FlushPending(c);
            c1.dead || (ok && c1.nextId == c.nextId && c1.streams.Keys == c.streams.Keys && Following(w, s, c1))
  {
    PumpsGo(c, Sorted(PendingIds(c)), c.peer.maxFrameSize);
    if !FlushPending(c).1.dead {
      FlushPendingStep(c);
      SentFollows(w, s, c, FlushPending(c).1);
    }
  }

  lemma SentFollows(w: Terms, s: Server, c: Conn, c1: Conn)
    requires Following(w, s, c) && AllSent(c, c1) && Sound(c1) && !c1.dead
    ensures Following(w, s, c1)
  {
  }

  lemma SameTally(w: Terms, s: Server, m: Mux, c: Conn)
    requires Tallied(w, s, m) && c.nextId == m.conn.nextId && c.streams.Keys == m.conn.streams.Keys
    ensures Tallied(w, s, m.(conn := c))
  {
    assert |c.streams| == |c.streams.Keys| == |m.conn.streams|;
    forall i: nat | i < w.n - |m.queue|
      ensures Slotted(w, s, m.(conn := c), i)
    {
      assert Slotted(w, s, m, i);
    }
  }

  lemma FlushClear(w: Terms, c: Conn, reqs: seq<Request>)
    requires Clear(w, c, reqs)
    ensures Clear(w, FlushPending(c).1, reqs)
  {
    FlushUnderstood(c);
  }

  lemma FlushTogether(w: Terms, s: Server, m: Mux, reqs: seq<Request>)
    requires Together(w, s, m, reqs)
    ensures var (ok, c) := FlushPending(m.conn);
            c.dead || (ok && |c.streams| == |m.conn.streams| && Together(w, s, m.(conn := c), reqs))
  {
    var (ok, c) := FlushPending(m.conn);
    FlushFollows(w, s, m.conn);
    if !c.dead {
      FlushPendingExtends(m, reqs);
      FlushClear(w, m.conn, reqs);
      SameTally(w, s, m, c);
      assert |c.streams| == |c.streams.Keys| == |m.conn.streams|;
    }
  }

  /** The run goes on, and no more requests can be started now. */
  ghost predicate OnTrack(w: Terms, s: Server, going: bool, r: Mux, reqs: seq<Request>)
  {
    r.conn.dead || (going && Together(w, s, r, reqs) && Full(w, r))
  }

  lemma AdvanceGoes(w: Terms, s: Server, m: Mux, reqs: seq<Request>)
    requires Going(w, s, m, reqs) && (m.conn.dead || Full(w, m))
    ensures OnTrack(w, s, Advance(m).0, Advance(m).1, reqs)
  {
    if !m.conn.dead {
      FlushTogether(w, s, m, reqs);
    }
  }

  // ----- one frame -----

  /** Only the front of the input and the history differ. */
  function Taken(c: Conn): Conn
    requires c.inbound != []
  {
    c.(inbound := c.inbound[1..], accepted := c.accepted + [c.inbound[0]])
  }

  lemma ReadClear(w: Terms, c: Conn, reqs: seq<Request>)
    requires Clear(w, c, reqs) && c.inbound != [] && !Adjusts(c.inbound[0])
    ensures Clear(w, ReadAndDispatch(c).1, reqs)
  {
    var f, c0 := c.inbound[0], Taken(c);
    var c1 := ProcessFrame(c0, f).1;
    assert Understood(c0);
    UnderstoodIsBetween(c0);
    FrameUnheard(c0, f);
    FrameTells(c0, f);
    TellingKeeps(c0, c1);
  }

  /** The answer of stream `id` grows, or none does. */
  ghost predicate Grows(s: Server, s1: Server, c: Conn, id: nat)
  {
    && s1.done == s.done && (s1.block.Some? ==> s1.block.value.0 in c.streams)
    && (s1.answers == s.answers
        || (id in c.streams && !AnswerOf(s, id).over && !AnswerOf(s1, id).over
            && s1.answers == s.answers[id := AnswerOf(s1, id)]))
  }

  /** The answer of stream `id` is over. */
  predicate Finishes(s: Server, s1: Server, c: Conn, id: nat)
  {
    && id in c.streams && s1.done == s.done + 1 && s1.block.None? && !AnswerOf(s, id).over
    && s1.answers == s.answers[id := AnswerOf(s1, id)]
  }

  lemma TellTallies(w: Terms, s: Server, c: Conn, f: Frame)
    requires Following(w, s, c) && Present(w, s, c) && Tell(w, s, f).Some?
    ensures var s1 := Tell(w, s, f).value;
            !Adjusts(f) && (if AnswerOf(s1, f.id).over && f.id in c.streams then Finishes(s, s1, c, f.id)
                            else Grows(s, s1, c, f.id))
  {
  }

  lemma AllOpened(w: Terms, s: Server, m: Mux)
    requires Tallied(w, s, m) && Full(w, m)
    ensures Opened(w, s.done) == w.n - |m.queue|
  {
  }

  /** What was started and is not over is in flight. */
  lemma StartedIsOpen(w: Terms, s: Server, m: Mux, reqs: seq<Request>, i: nat)
    requires Kept(m, reqs) && w.n == |reqs| && |m.queue| <= w.n && i < w.n - |m.queue|
    requires Slotted(w, s, m, i) && !AnswerOf(s, w.StreamOf(i)).over
    ensures w.StreamOf(i) in m.conn.streams
  {
    assert InFlight(m.idToIdx, i);
    var x :| x in m.idToIdx && m.idToIdx[x] == i;
    assert x in m.conn.streams;
  }

  /** Every stream the peer may answer on is open. */
  lemma WaitsIsPresent(w: Terms, s: Server, m: Mux, reqs: seq<Request>)
    requires Kept(m, reqs) && Tallied(w, s, m) && Full(w, m)
    ensures Present(w, s, m.conn)
  {
    AllOpened(w, s, m);
    forall id: nat | Waits(w, s, id)
      ensures id in m.conn.streams
    {
      var i: nat := (id - w.first) / 2;
      assert w.StreamOf(i) == id;
      assert Slotted(w, s, m, i);
      StartedIsOpen(w, s, m, reqs, i);
    }
  }

  /** A frame was read, and the driver has not acted on it yet. */
  ghost predicate Took(w: Terms, m: Mux, reqs: seq<Request>, c1: Conn)
  {
    Kept(m.(conn := c1), reqs) && Clear(w, c1, reqs) && !c1.dead
      && c1.nextId == m.conn.nextId && c1.streams.Keys == m.conn.streams.Keys
  }

  /** The frame completed no answer. */
  ghost predicate TookPart(w: Terms, s: Server, s1: Server, m: Mux, reqs: seq<Request>, id: nat, c1: Conn)
  {
    Took(w, m, reqs, c1) && Following(w, s1, c1) && Grows(s, s1, m.conn, id)
  }

  /** The frame completed the answer on stream `id`. */
  ghost predicate TookLast(w: Terms, s: Server, s1: Server, m: Mux, reqs: seq<Request>, id: nat, c1: Conn)
  {
    && Took(w, m, reqs, c1) && id in c1.streams && Following(w, s1, c1.(streams := c1.streams - {id}))
    && Finishes(s, s1, m.conn, id) && Got(c1.streams[id], AnswerOf(s1, id)) && c1.streams[id].Complete()
  }

  lemma ReadTells(w: Terms, s: Server, c: Conn)
    requires Following(w, s, c) && Present(w, s, c) && c.inbound != [] && Tell(w, s, c.inbound[0]).Some?
    ensures var (r, c1) := ReadAndDispatch(c);
            c1.dead || Understands(w, Tell(w, s, c.inbound[0]).value, c, c.inbound[0], r, c1)
  {
    var f, c0 := c.inbound[0], Taken(c);
    assert f in c.inbound;
    assert Following(w, s, c0);
    FrameUnderstood(w, s, c0, f);
  }

  lemma ReadTakes(w: Terms, m: Mux, reqs: seq<Request>)
    requires Good(m, reqs) && Clear(w, m.conn, reqs) && m.conn.inbound != [] && !Adjusts(m.conn.inbound[0])
    ensures var (r, c1) := ReadAndDispatch(m.conn);
            && (r.Ok? ==> Took(w, m, reqs, c1) && c1.inbound == m.conn.inbound[1..])
            && (r.Ok? && r.value.Done? ==> r.value.id in c1.streams && c1.streams[r.value.id].Complete())
  {
    ReadKeeps(m, reqs);
    ReadClear(w, m.conn, reqs);
  }

  lemma ReadGoes(w: Terms, s: Server, m: Mux, reqs: seq<Request>)
    requires Together(w, s, m, reqs) && Full(w, m) && m.conn.inbound != [] && Tell(w, s, m.conn.inbound[0]).Some?
    ensures var (r, c1) := ReadAndDispatch(m.conn);
            var f := m.conn.inbound[0];
            var s1 := Tell(w, s, f).value;
            c1.dead
            || (c1.inbound == m.conn.inbound[1..]
                && ((r == Ok(Continue) && TookPart(w, s, s1, m, reqs, f.id, c1))
                    || (r == Ok(Done(f.id)) && TookLast(w, s, s1, m, reqs, f.id, c1))))
  {
    WaitsIsPresent(w, s, m, reqs);
    ReadTells(w, s, m.conn);
    TellTallies(w, s, m.conn, m.conn.inbound[0]);
    ReadTakes(w, m, reqs);
  }

  lemma NothingDoomed(m: Mux)
    requires m.conn.goaway.None?
    ensures FailStreams(m, Doomed(m)) == m
  {
    assert m.conn.streams - {} == m.conn.streams && m.idToIdx - {} == m.idToIdx;
    assert FailStreams(m, {}).results == m.results;
  }

  /** The tally after an answer has grown but is not over. */
  lemma GrownTally(w: Terms, s: Server, s1: Server, m: Mux, c1: Conn, id: nat)
    requires Tallied(w, s, m) && c1.nextId == m.conn.nextId && c1.streams.Keys == m.conn.streams.Keys
    requires Grows(s, s1, m.conn, id) && (id in m.conn.streams ==> id < m.conn.nextId)
    ensures Tallied(w, s1, m.(conn := c1))
  {
    assert |c1.streams| == |c1.streams.Keys| == |m.conn.streams|;
    forall i: nat | i < w.n - |m.queue|
      ensures Slotted(w, s1, m.(conn := c1), i)
    {
      assert Slotted(w, s, m, i);
    }
  }

  predicate Resolvable(m: Mux, id: nat) { id in m.idToIdx && m.idToIdx[id] < |m.results| && id in m.conn.streams }

  /** The stream belongs to the request it is routed to. */
  lemma RouteOf(w: Terms, s: Server, m: Mux, reqs: seq<Request>, id: nat)
    requires Kept(m, reqs) && w.n == |reqs| && Tallied(w, s, m) && id in m.conn.streams
    ensures Resolvable(m, id) && m.idToIdx[id] < w.n - |m.queue| && w.StreamOf(m.idToIdx[id]) == id
  {
    assert Slotted(w, s, m, m.idToIdx[id]);
  }

  lemma OneLess(streams: map<nat, Stream>, id: nat)
    requires id in streams
    ensures |streams - {id}| == |streams| - 1
  {
    assert (streams - {id}).Keys == streams.Keys - {id};
    assert |streams - {id}| == |(streams - {id}).Keys| && |streams| == |streams.Keys|;
  }

  /** The tally after an answer is over and was handed to its request. */
  lemma OverTally(w: Terms, s: Server, s1: Server, m: Mux, id: nat)
    requires Tallied(w, s, m) && Resolvable(m, id) && w.StreamOf(m.idToIdx[id]) == id && !AnswerOf(s, id).over
    requires id < m.conn.nextId && Got(m.conn.streams[id], AnswerOf(s1, id))
    requires s1.done == s.done + 1 && s1.answers == s.answers[id := AnswerOf(s1, id)] && s1.block.None?
    ensures Tallied(w, s1, Resolve(m, id))
  {
    var r := Resolve(m, id);
    OneLess(m.conn.streams, id);
    forall i: nat | i < w.n - |m.queue|
      ensures Slotted(w, s1, r, i)
    {
      assert Slotted(w, s, m, i);
    }
  }

  // ----- a turn -----

  lemma PartTogether(w: Terms, s: Server, s1: Server, m: Mux, reqs: seq<Request>, id: nat, c1: Conn)
    requires Tallied(w, s, m) && TookPart(w, s, s1, m, reqs, id, c1) && (id in m.conn.streams ==> id < m.conn.nextId)
    ensures Together(w, s1, m.(conn := c1), reqs) && |c1.streams| == |m.conn.streams|
  {
    assert |c1.streams| == |c1.streams.Keys| == |m.conn.streams|;
    GrownTally(w, s, s1, m, c1, id);
  }

  /** Forgetting a stream changes nothing for the peer. */
  lemma ForgettingClear(w: Terms, c: Conn, reqs: seq<Request>, id: nat)
    requires Clear(w, c, reqs)
    ensures Clear(w, c.(streams := c.streams - {id}), reqs)
  {
    SameUnderstanding(c, c.(streams := c.streams - {id}));
  }

  /** Handing over the answer leaves the run and the peer together. */
  lemma LastTogether(w: Terms, s: Server, s1: Server, m: Mux, reqs: seq<Request>, id: nat, c1: Conn)
    requires Tallied(w, s, m) && w.n == |reqs| && TookLast(w, s, s1, m, reqs, id, c1)
    ensures Resolvable(m.(conn := c1), id) && Together(w, s1, Resolve(m.(conn := c1), id), reqs)
  {
    var m1 := m.(conn := c1);
    SameTally(w, s, m, c1);
    RouteOf(w, s, m1, reqs, id);
    ResolveKeeps(m1, reqs, id);
    OverTally(w, s, s1, m1, id);
    ForgettingClear(w, c1, reqs, id);
  }

  lemma {:induction false} DeadStarts(m: Mux, reqs: seq<Request>)
    requires Runnable(m, reqs) && m.conn.dead
    ensures StartQueued(m, reqs).conn.dead
    decreases |m.queue|
  {
    if m.queue != [] && |m.conn.streams| < m.conn.peer.maxConcurrentStreams {
      DeadStartRequest(m.conn, reqs[m.queue[0]]);
      DeadStarts(StartOne(m, reqs), reqs);
    }
  }

  lemma FailingIsRunnable(m: Mux, reqs: seq<Request>, ids: set<nat>)
    requires Runnable(m, reqs)
    ensures Runnable(FailStreams(m, ids), reqs) && FailStreams(m, ids).conn.dead == m.conn.dead
  {
  }

  lemma DeadAdvance(m: Mux)
    requires m.conn.dead
    ensures Advance(m).1.conn.dead
  {
  }

  lemma DeadStays(m: Mux, reqs: seq<Request>)
    requires Runnable(m, reqs) && m.conn.dead
    ensures AfterError(m, reqs).1.conn.dead
  {
    if |Culprits(m)| == 1 {
      FailingIsRunnable(m, reqs, Culprits(m));
      DeadStarts(FailStreams(m, Culprits(m)), reqs);
      DeadAdvance(StartQueued(FailStreams(m, Culprits(m)), reqs));
    }
  }

  lemma IdsBelow(m: Mux, reqs: seq<Request>, id: nat)
    requires Kept(m, reqs) && id in m.conn.streams
    ensures id < m.conn.nextId
  {
  }

  /** What the driver needs to act on an outcome. */
  ghost predicate Actable(m: Mux, reqs: seq<Request>, outcome: Outcome)
  {
    && Runnable(m, reqs) && (outcome.Done? ==> outcome.id in m.conn.streams)
    && forall id :: id in m.idToIdx ==> m.idToIdx[id] < |reqs|
  }

  /** Without a GOAWAY a frame that completed nothing only lets the pump run. */
  lemma PartAction(m: Mux, reqs: seq<Request>)
    requires Kept(m, reqs) && m.conn.goaway.None?
    ensures AfterFrame(m, reqs, Continue) == Advance(m)
  {
    NothingDoomed(m);
  }

  /** A completed answer is handed over, what waits is started, and the pump runs. */
  lemma LastAction(m: Mux, reqs: seq<Request>, id: nat)
    requires Good(m, reqs) && m.conn.goaway.None? && id in m.idToIdx && m.conn.streams[id].Complete()
    ensures Runnable(Resolve(m, id), reqs)
    ensures AfterFrame(m, reqs, Done(id)) == Advance(StartQueued(Resolve(m, id), reqs))
  {
    NothingDoomed(m);
    ResolveKeeps(m, reqs, id);
  }

  lemma PartActed(w: Terms, s: Server, s1: Server, m: Mux, reqs: seq<Request>, id: nat, c1: Conn)
    requires Actable(m.(conn := c1), reqs, Continue) && Tallied(w, s, m) && Full(w, m)
             && TookPart(w, s, s1, m, reqs, id, c1)
    requires id in m.conn.streams ==> id < m.conn.nextId
    ensures var (going, r) := AfterFrame(m.(conn := c1), reqs, Continue);
            OnTrack(w, s1, going, r, reqs)
  {
    PartTogether(w, s, s1, m, reqs, id, c1);
    PartAction(m.(conn := c1), reqs);
    AdvanceGoes(w, s1, m.(conn := c1), reqs);
  }

  lemma LastActed(w: Terms, s: Server, s1: Server, m: Mux, reqs: seq<Request>, id: nat, c1: Conn)
    requires Actable(m.(conn := c1), reqs, Done(id))
    requires Tallied(w, s, m) && Enough(w) && w.n == |reqs| && TookLast(w, s, s1, m, reqs, id, c1)
    ensures var (going, r) := AfterFrame(m.(conn := c1), reqs, Done(id));
            OnTrack(w, s1, going, r, reqs)
  {
    LastTogether(w, s, s1, m, reqs, id, c1);
    LastAction(m.(conn := c1), reqs, id);
    StartThenAdvanceGoes(w, s1, Resolve(m.(conn := c1), id), reqs);
  }

  lemma StartThenAdvanceGoes(w: Terms, s: Server, m: Mux, reqs: seq<Request>)
    requires Together(w, s, m, reqs) && Enough(w)
    ensures var (going, r) := Advance(StartQueued(m, reqs));
            OnTrack(w, s, going, r, reqs)
  {
    StartQueuedGoes(w, s, m, reqs);
    AdvanceGoes(w, s, StartQueued(m, reqs), reqs);
  }

  /** What reading a frame of the exchange comes to: `s1` is the peer after it. */
  ghost predicate Read(w: Terms, s: Server, s1: Server, m: Mux, reqs: seq<Request>, id: nat, o: Outcome, c1: Conn)
  {
    && Kept(m.(conn := c1), reqs) && !c1.dead
    && ((o == Continue && TookPart(w, s, s1, m, reqs, id, c1))
        || (o == Done(id) && id in c1.streams && c1.streams[id].Complete() && TookLast(w, s, s1, m, reqs, id, c1)))
  }

  lemma FrameActed(w: Terms, s: Server, s1: Server, m: Mux, reqs: seq<Request>, id: nat, o: Outcome, c1: Conn)
    requires Actable(m.(conn := c1), reqs, o) && Read(w, s, s1, m, reqs, id, o, c1)
    requires Tallied(w, s, m) && Full(w, m) && Enough(w) && w.n == |reqs|
             && (id in m.conn.streams ==> id < m.conn.nextId)
    ensures var (going, m1) := AfterFrame(m.(conn := c1), reqs, o);
            OnTrack(w, s1, going, m1, reqs) && m1.conn.inbound == c1.inbound
  {
    AfterFrameKeeps(m.(conn := c1), reqs, o);
    if o == Continue {
      PartActed(w, s, s1, m, reqs, id, c1);
    } else {
      LastActed(w, s, s1, m, reqs, id, c1);
    }
  }

  /** The transport died, or a frame of the exchange was read. */
  ghost predicate Comes(w: Terms, s: Server, s1: Server, m: Mux, reqs: seq<Request>, id: nat, r: Result<Outcome>,
                        c1: Conn)
  {
    && Kept(m.(conn := c1), reqs)
    && (if r.Err? then c1.dead
        else m.conn.inbound != [] && c1.inbound == m.conn.inbound[1..] && Actable(m.(conn := c1), reqs, r.value)
             && Read(w, s, s1, m, reqs, id, r.value, c1))
  }

  lemma ReadComes(w: Terms, s: Server, m: Mux, reqs: seq<Request>)
    requires Together(w, s, m, reqs) && Full(w, m) && m.conn.inbound != [] && Tell(w, s, m.conn.inbound[0]).Some?
    ensures var (r, c1) := ReadAndDispatch(m.conn);
            Comes(w, s, Tell(w, s, m.conn.inbound[0]).value, m, reqs, m.conn.inbound[0].id, r, c1)
  {
    ReadGoes(w, s, m, reqs);
    ReadKeeps(m, reqs);
  }

  /** What the driver does about what was read. */
  ghost predicate Acts(w: Terms, s1: Server, going: bool, m1: Mux, reqs: seq<Request>, left: seq<Frame>)
  {
    OnTrack(w, s1, going, m1, reqs) && (m1.conn.dead || m1.conn.inbound == left)
  }

  lemma FrameComes(w: Terms, s: Server, s1: Server, m: Mux, reqs: seq<Request>, id: nat, r: Result<Outcome>, c1: Conn)
    requires Comes(w, s, s1, m, reqs, id, r, c1) && m.conn.inbound != []
    requires Tallied(w, s, m) && Full(w, m) && Enough(w) && w.n == |reqs|
             && (id in m.conn.streams ==> id < m.conn.nextId)
    ensures var (going, m1) :=
              if r.Err? then AfterError(m.(conn := c1), reqs) else AfterFrame(m.(conn := c1), reqs, r.value);
            Acts(w, s1, going, m1, reqs, m.conn.inbound[1..])
  {
    if r.Err? {
      DeadStays(m.(conn := c1), reqs);
    } else {
      FrameActed(w, s, s1, m, reqs, id, r.value, c1);
    }
  }

  lemma OneFrameIs(m: Mux, reqs: seq<Request>)
    requires Good(m, reqs)
    ensures var (r, c1) := ReadAndDispatch(m.conn);
            && Runnable(m.(conn := c1), reqs) && (r.Ok? ==> Actable(m.(conn := c1), reqs, r.value))
            && OneFrame(m, reqs)
               == if r.Err? then AfterError(m.(conn := c1), reqs) else AfterFrame(m.(conn := c1), reqs, r.value)
  {
    ReadKeeps(m, reqs);
  }

  /** One frame of the exchange: the run goes on with the peer. */
  lemma OneFrameGoes(w: Terms, s: Server, m: Mux, reqs: seq<Request>)
    requires Together(w, s, m, reqs) && Full(w, m) && Enough(w) && w.n == |reqs|
    requires m.conn.inbound != [] && Tell(w, s, m.conn.inbound[0]).Some?
    ensures var (going, r) := OneFrame(m, reqs);
            Acts(w, Tell(w, s, m.conn.inbound[0]).value, going, r, reqs, m.conn.inbound[1..])
  {
    var id := m.conn.inbound[0].id;
    if id in m.conn.streams {
      IdsBelow(m, reqs, id);
    }
    OneFrameIs(m, reqs);
    ReadComes(w, s, m, reqs);
    var (r, c1) := ReadAndDispatch(m.conn);
    FrameComes(w, s, Tell(w, s, m.conn.inbound[0]).value, m, reqs, id, r, c1);
  }

  // ----- the run -----

  /** Nothing is open exactly when nothing is queued or in flight. */
  lemma NothingOpen(n: nat, queue: seq<nat>, idToIdx: map<nat, nat>, results: seq<Slot>)
    requires Partition(n, queue, idToIdx, results)
    ensures Http2Driver.Open(results) == {} <==> queue == [] && idToIdx.Keys == {}
  {
    var open := Http2Driver.Open(results);
    assert queue != [] ==> n - |queue| in open;
    assert forall id :: id in idToIdx ==> idToIdx[id] in open;
    if open != {} && queue == [] {
      var i :| i in open;
      assert InFlight(idToIdx, i);
    }
  }

  lemma NoStreams(m: Mux, reqs: seq<Request>)
    requires Kept(m, reqs)
    ensures |m.conn.streams| == 0 <==> m.idToIdx.Keys == {}
    ensures m.idToIdx == map[] ==> m.idToIdx.Keys == {}
  {
    assert |m.conn.streams| == |m.conn.streams.Keys|;
  }

  /** Every request has its outcome exactly when the peer has answered them all. */
  lemma AllDone(w: Terms, s: Server, m: Mux, reqs: seq<Request>)
    requires Kept(m, reqs) && Tallied(w, s, m) && w.n == |reqs|
    ensures Http2Driver.Open(m.results) == {} <==> s.done == w.n
    ensures Full(w, m) && w.limit > 0 && s.done != w.n ==> m.idToIdx != map[]
  {
    NothingOpen(w.n, m.queue, m.idToIdx, m.results);
    NoStreams(m, reqs);
  }

  /** Slot by slot, the answers of the peer: each on its own stream, with its fields and its body. */
  ghost predicate Served(w: Terms, s: Server, results: seq<Slot>)
  {
    |results| == w.n && forall i: nat :: i < w.n ==> Replied(w, s, results[i], i)
  }

  ghost predicate Replied(w: Terms, s: Server, slot: Slot, i: nat)
  {
    var a := AnswerOf(s, w.StreamOf(i));
    && a.over && slot.Reply? && slot.stream.id == w.StreamOf(i)
    && slot.stream.responseHeaders.Some? && slot.stream.responseHeaders == a.fields && slot.stream.body == a.body
  }

  lemma DoneIsServed(w: Terms, s: Server, m: Mux, reqs: seq<Request>)
    requires Together(w, s, m, reqs) && s.done == w.n == |reqs|
    ensures Served(w, s, m.results)
  {
    AllDone(w, s, m, reqs);
    forall i: nat | i < w.n
      ensures Replied(w, s, m.results[i], i)
    {
      assert i !in Http2Driver.Open(m.results);
      assert Slotted(w, s, m, i) && Answers(m.conn, m.started, i, m.results[i]);
    }
  }

  lemma {:induction false} LoopServes(w: Terms, s: Server, m: Mux, reqs: seq<Request>)
    requires Together(w, s, m, reqs) && Full(w, m) && Enough(w) && w.n == |reqs| && TellAll(w, s, m.conn.inbound).Some?
    ensures Loop(m, reqs).conn.dead || Served(w, TellAll(w, s, m.conn.inbound).value, Loop(m, reqs).results)
    decreases |m.conn.inbound|
  {
    AllDone(w, s, m, reqs);
    if s.done == w.n {
      DoneIsServed(w, s, m, reqs);
    } else {
      TurnIsOneFrame(m, reqs);
      TurnKeeps(m, reqs);
      OneFrameGoes(w, s, m, reqs);
      var (going, r) := Turn(m, reqs);
      if !r.conn.dead {
        LoopServes(w, Tell(w, s, m.conn.inbound[0]).value, r, reqs);
      }
    }
  }

  /** The terms of a run, and a peer that has answered nothing yet and may grant `room` more credit. */
  function TermsOf(c: Conn, reqs: seq<Request>): Terms
  {
    Terms(c.tables, c.nextId, |reqs|, c.peer.maxConcurrentStreams)
  }

  function ServerOf(c: Conn, room: nat): Server { Server(c.decoder, None, map[], 0, room) }

  /** An idle connection that is ready for a run. */
  ghost predicate ReadyFor(c: Conn, reqs: seq<Request>, room: nat)
  {
    && Inv(c) && c.streams == map[] && !c.dead && c.goaway.None? && c.expecting.None? && c.connRecv.available >= 32767
    && Clear(TermsOf(c, reqs), c, reqs) && Enough(TermsOf(c, reqs))
    && c.connSend + room <= WINDOW_MAX && c.peer.initialWindowSize + room <= WINDOW_MAX
  }

  lemma QueuedTogether(c: Conn, reqs: seq<Request>, room: nat)
    requires ReadyFor(c, reqs, room)
    ensures Together(TermsOf(c, reqs), ServerOf(c, room), Queued(c, |reqs|), reqs)
  {
    QueuedIsKept(c, reqs);
  }

  lemma CollectedServes(w: Terms, s: Server, results: seq<Slot>)
    requires Served(w, s, results)
    ensures Collect(results) == results
  {
    forall i: nat | i < w.n
      ensures Collect(results)[i] == results[i]
    {
      assert Replied(w, s, results[i], i);
    }
  }

  /**
   * A run on an idle connection against a peer that answers every request, its frames interleaved in any order and
   * followed by anything: unless the transport dies every request gets its reply, on its own stream, with the fields
   * and the body the peer sent there. Requests beyond the peer's limit are started as others are answered.
   */
  lemma RunServes(c: Conn, reqs: seq<Request>, room: nat)
    requires ReadyFor(c, reqs, room) && TellAll(TermsOf(c, reqs), ServerOf(c, room), c.inbound).Some?
    ensures var m := Run(c, reqs);
            m.conn.dead || Served(TermsOf(c, reqs), TellAll(TermsOf(c, reqs), ServerOf(c, room), c.inbound).value,
                                  m.results)
  {
    var w, s, q := TermsOf(c, reqs), ServerOf(c, room), Queued(c, |reqs|);
    QueuedTogether(c, reqs, room);
    StartThenAdvanceGoes(w, s, q, reqs);
    StartThenAdvanceKeeps(q, reqs);
    var (going, m) := Advance(StartQueued(q, reqs));
    if !m.conn.dead {
      LoopServes(w, s, m, reqs);
      if !Loop(m, reqs).conn.dead {
        CollectedServes(w, TellAll(w, s, c.inbound).value, Loop(m, reqs).results);
      }
    }
  }

  /** A new connection is ready, whatever credit the peer grants, as long as no window can overflow. */
  lemma FreshIsReady(c: Conn, reqs: seq<Request>, room: nat)
    requires Fresh(c) && c.encoder == FRESH_ENCODER && ValidTables(c.tables) && AllAdmissible(c.tables, reqs)
    requires |reqs| <= 0x4000_0000 && room <= WINDOW_MAX - DEFAULT_WINDOW
    ensures ReadyFor(c, reqs, room)
  {
    FreshIsInvariant(c);
    FreshIsUnderstood(c);
  }
}

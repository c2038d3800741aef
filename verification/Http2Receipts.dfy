/**
 * The mirror of the send accounts: over any part of a run each receive window is what it was, plus the increments
 * written for it, less the octets of DATA that counted against it.
 */
module Http2Receipts {
  import opened Common
  import opened FlowControl
  import opened Http2Types
  import opened Http2Engine
  import opened Http2Frames
  import opened Http2Invariants
  import opened Http2Logs
  import opened Http2Driver
  import opened Http2Ledger
  import opened Http2Start
  import opened SortedIds
  import Hpack

  // ----- what counts -----

  /** DATA counts against the connection whenever it is let through, padding included, accepted or not. */
  function ToConnection(c: Conn, f: Frame): nat
  {
    if f.typ == F_DATA && f.id != 0 && c.expecting.None? then |f.payload| else 0
  }

  /** It counts against its stream too, unless the connection's window is overrun or the stream cannot receive it. */
  function ToStream(c: Conn, f: Frame, id: nat): nat
  {
    if f.id == id && id in c.streams && |f.payload| <= c.connRecv.available
       && !c.streams[id].state.Closed? && c.streams[id].state.RecvData(f.EndStream()).Ok?
    then ToConnection(c, f) else 0
  }

  /** The receive windows are within their limits, unless DATA overran one, and stream ids were handed out. */
  ghost predicate SoundWindows(c: Conn)
  {
    && SoundRecv(c.connRecv)
    && forall id :: id in c.streams ==> SoundRecv(c.streams[id].recvWindow) && 0 < id < c.nextId
  }

  /** What a window and the increments written for it amount to. */
  function Granted(w: RecvWindow, out: seq<Frame>, id: nat): int { w.available - Increments(out, id) }

  /** From `c` to `c1`, while `n` octets counted against the connection and `k` against stream `id`. */
  ghost predicate Balanced(c: Conn, c1: Conn, id: nat, n: nat, k: nat)
  {
    && Granted(c1.connRecv, c1.out, 0) == Granted(c.connRecv, c.out, 0) - n
    && (id in c.streams && id in c1.streams ==>
          Granted(c1.streams[id].recvWindow, c1.out, id) == Granted(c.streams[id].recvWindow, c.out, id) - k)
    && (id !in c.streams ==> Increments(c1.out, id) == Increments(c.out, id))
  }

  // ----- writing increments -----

  lemma {:induction false} IncrementsConcat(a: seq<Frame>, b: seq<Frame>, id: nat)
    ensures Increments(a + b, id) == Increments(a, id) + Increments(b, id)
    decreases |b|
  {
    if b == [] {
      assert a + b == a;
    } else {
      var front := b[..|b| - 1];
      assert (a + b)[..|a + b| - 1] == a + front;
      IncrementsConcat(a, front, id);
    }
  }

  /** A written increment counts for its own stream. */
  lemma UpdateCounts(id: nat, inc: Option<int>, x: nat)
    requires inc.Some? ==> 0 <= inc.value < 0x8000_0000
    ensures Increments(UpdateFrames(id, inc), x) == if x == id && inc.Some? then inc.value else 0
  {
    if inc.Some? {
      var f := WindowUpdateFrame(id, inc.value);
      assert UpdateFrames(id, inc) == [f] && [f][..0] == [];
    }
  }

  lemma {:induction false} WriteAllSmall(c: Conn, fs: seq<Frame>)
    requires !c.dead && forall f :: f in fs ==> |f.payload| <= MAX_FRAME_PAYLOAD
    ensures var (ok, c1) := WriteAll(c, fs);
            (ok <==> !c1.dead) && (ok ==> c1.out == c.out + fs)
    decreases |fs|
  {
    if fs == [] {
      assert c.out + fs == c.out;
    } else {
      var (ok, c1) := Write(c, fs[0]);
      if ok {
        WriteAllSmall(c1, fs[1..]);
        assert c.out + [fs[0]] + fs[1..] == c.out + fs;
      }
    }
  }

  lemma WriteThenFlushSmall(c: Conn, fs: seq<Frame>, o: Outcome)
    requires !c.dead && forall f :: f in fs ==> |f.payload| <= MAX_FRAME_PAYLOAD
    ensures var (r, c1) := WriteThenFlush(c, fs, o);
            (r.Ok? <==> !c1.dead) && (r.Ok? ==> c1.out == c.out + fs)
            && c1.streams == c.streams && c1.connRecv == c.connRecv
  {
    WriteAllSmall(c, fs);
  }

  lemma ReplenishGrants(w: RecvWindow)
    requires SoundRecv(w) && w.available >= 0
    ensures var (w1, inc) := w.Replenish();
            && SoundRecv(w1) && (inc.Some? ==> 0 <= inc.value < 0x8000_0000)
            && w1.available == w.available + if inc.Some? then inc.value else 0
  {
  }

  /** Writing the update that goes with a replenished window. */
  lemma UpdateBalances(c: Conn, id: nat, inc: Option<int>, x: nat)
    requires !c.dead && (inc.Some? ==> 0 <= inc.value < 0x8000_0000)
    ensures var (ok, c1) := WriteAll(c, UpdateFrames(id, inc));
            (ok <==> !c1.dead)
            && (ok ==> Increments(c1.out, x) == Increments(c.out, x) + if x == id && inc.Some? then inc.value else 0)
  {
    UpdateCounts(id, inc, x);
    WriteAllSmall(c, UpdateFrames(id, inc));
    IncrementsConcat(c.out, UpdateFrames(id, inc), x);
  }

  // ----- DATA -----

  /** What is left when the transport is still up: sound windows, the same streams, and the balance. */
  ghost predicate Settles(c: Conn, c1: Conn, id: nat, n: nat, k: nat)
  {
    c1.dead || (SoundWindows(c1) && c1.nextId == c.nextId && c1.streams.Keys == c.streams.Keys
                && Balanced(c, c1, id, n, k))
  }

  lemma SettlesTwice(a: Conn, b: Conn, c: Conn, id: nat, n: nat, k: nat, n1: nat, k1: nat)
    requires !b.dead && Settles(a, b, id, n, k) && Settles(b, c, id, n1, k1)
    ensures Settles(a, c, id, n + n1, k + k1)
  {
  }

  /** The stream's own grant. */
  lemma StreamGrant(c: Conn, id: nat, x: nat)
    requires SoundWindows(c) && !c.dead && id != 0 && id in c.streams && c.streams[id].recvWindow.available >= 0
    ensures Settles(c, GrantStream(c, id).1, x, 0, 0)
  {
    var (w, inc) := c.streams[id].recvWindow.Replenish();
    ReplenishGrants(c.streams[id].recvWindow);
    var c0 := c.(streams := c.streams[id := c.streams[id].(recvWindow := w)]);
    UpdateBalances(c0, id, inc, 0);
    UpdateBalances(c0, id, inc, x);
  }

  lemma ConnectionGrant(c: Conn, x: nat)
    requires SoundWindows(c) && !c.dead && x != 0 && c.connRecv.available >= 0
    ensures var (w, inc) := c.connRecv.Replenish();
            var (ok, c1) := WriteAll(c.(connRecv := w), UpdateFrames(0, inc));
            (ok <==> !c1.dead) && Settles(c, c1, x, 0, 0) && c1.streams == c.streams
  {
    var (w, inc) := c.connRecv.Replenish();
    ReplenishGrants(c.connRecv);
    UpdateBalances(c.(connRecv := w), 0, inc, 0);
    UpdateBalances(c.(connRecv := w), 0, inc, x);
  }

  lemma GrantBackBalances(c: Conn, id: nat, x: nat)
    requires SoundWindows(c) && !c.dead && id != 0 && x != 0 && id in c.streams
    requires c.connRecv.available >= 0 && c.streams[id].recvWindow.available >= 0
    ensures Settles(c, GrantBack(c, id).1, x, 0, 0)
  {
    ConnectionGrant(c, x);
    var (w, inc) := c.connRecv.Replenish();
    var (ok, c1) := WriteAll(c.(connRecv := w), UpdateFrames(0, inc));
    if ok {
      StreamGrant(c1, id, x);
      SettlesTwice(c, c1, GrantStream(c1, id).1, x, 0, 0, 0, 0);
    }
  }

  /** A stream takes a frame: billed whole, accepted or not. */
  lemma AcceptBills(s: Stream, f: Frame, state: StreamState)
    requires SoundRecv(s.recvWindow)
    ensures var (ok, s1) := AcceptData(s, f, state);
            && s1.recvWindow.available == s.recvWindow.available - |f.payload| && SoundRecv(s1.recvWindow)
            && (ok ==> s1.recvWindow.available >= 0)
  {
  }

  lemma BilledStream(c: Conn, id: nat, s: Stream, x: nat, n: nat)
    requires SoundWindows(c) && id in c.streams && SoundRecv(s.recvWindow)
    requires s.recvWindow.available == c.streams[id].recvWindow.available - n
    ensures Settles(c, c.(streams := c.streams[id := s]), x, 0, if x == id then n else 0)
  {
  }

  lemma OpenDataBalances(c: Conn, f: Frame, state: StreamState, x: nat)
    requires SoundWindows(c) && !c.dead && f.id != 0 && x != 0 && f.id in c.streams && c.connRecv.available >= 0
    ensures Settles(c, DataOnOpen(c, f, state).1, x, 0, if x == f.id then |f.payload| else 0)
  {
    var (ok, s) := AcceptData(c.streams[f.id], f, state);
    AcceptBills(c.streams[f.id], f, state);
    BilledStream(c, f.id, s, x, |f.payload|);
    if ok {
      var c1 := c.(streams := c.streams[f.id := s]);
      GrantBackBalances(c1, f.id, x);
      SettlesTwice(c, c1, GrantBack(c1, f.id).1, x, 0, if x == f.id then |f.payload| else 0, 0, 0);
    }
  }

  /** DATA for a stream that is gone: the connection's grant alone. */
  lemma UnknownDataBalances(c: Conn, x: nat)
    requires SoundWindows(c) && !c.dead && x != 0 && c.connRecv.available >= 0
    ensures var (w, inc) := c.connRecv.Replenish();
            && Settles(c, WriteThenFlush(c.(connRecv := w), UpdateFrames(0, inc), Continue).1, x, 0, 0)
            && (inc.None? ==> Settles(c, c.(connRecv := w), x, 0, 0))
  {
    ConnectionGrant(c, x);
  }

  /** The connection is billed first, whatever becomes of the frame. */
  lemma BilledConnection(c: Conn, n: nat, x: nat)
    requires SoundWindows(c)
    ensures Settles(c, c.(connRecv := c.connRecv.Consume(n)), x, n, 0)
            && SoundWindows(c.(connRecv := c.connRecv.Consume(n)))
  {
  }

  lemma DataBalances(c: Conn, f: Frame, x: nat)
    requires SoundWindows(c) && !c.dead && f.typ == F_DATA && f.id != 0 && x != 0 && c.expecting.None?
    ensures Settles(c, ProcessData(c, f).1, x, |f.payload|, ToStream(c, f, x))
  {
    var c0 := c.(connRecv := c.connRecv.Consume(|f.payload|));
    var c1 := ProcessData(c, f).1;
    BilledConnection(c, |f.payload|, x);
    if c0.connRecv.available >= 0 {
      if f.id !in c.streams {
        UnknownDataBalances(c0, x);
        SettlesTwice(c, c0, c1, x, |f.payload|, 0, 0, 0);
      } else if !c.streams[f.id].state.Closed? && c.streams[f.id].state.RecvData(f.EndStream()).Ok? {
        OpenDataBalances(c0, f, c.streams[f.id].state.RecvData(f.EndStream()).value, x);
        SettlesTwice(c, c0, c1, x, |f.payload|, 0, 0, if x == f.id then |f.payload| else 0);
      }
    }
  }

  // ----- all other frames -----

  /** No receive window moved, and no increment was written. */
  ghost predicate Untaken(c: Conn, c1: Conn)
  {
    && c1.connRecv == c.connRecv && c1.nextId == c.nextId && c1.streams.Keys == c.streams.Keys
    && (forall id :: id in c.streams ==> c1.streams[id].recvWindow == c.streams[id].recvWindow)
  }

  lemma UntakenSettles(c: Conn, c1: Conn, x: nat)
    requires SoundWindows(c) && Untaken(c, c1)
    requires c1.dead || (Increments(c1.out, 0) == Increments(c.out, 0) && Increments(c1.out, x) == Increments(c.out, x))
    ensures Settles(c, c1, x, 0, 0)
  {
  }

  /** Writing one frame that is no WINDOW_UPDATE. */
  lemma ReplySettles(c: Conn, f: Frame, x: nat)
    requires SoundWindows(c) && !c.dead && f.typ != F_WINDOW_UPDATE && |f.payload| <= MAX_FRAME_PAYLOAD
    ensures Settles(c, WriteThenFlush(c, [f], Continue).1, x, 0, 0)
  {
    WriteThenFlushSmall(c, [f], Continue);
    OneMoreSettles(c, WriteThenFlush(c, [f], Continue).1, f, x);
  }

  lemma OneMoreSettles(c: Conn, c1: Conn, f: Frame, x: nat)
    requires SoundWindows(c) && f.typ != F_WINDOW_UPDATE
    requires c1 == c.(out := c1.out, budget := c1.budget, dead := c1.dead) && (!c1.dead ==> c1.out == c.out + [f])
    ensures Settles(c, c1, x, 0, 0)
  {
    NoIncrement(c.out, f, 0);
    NoIncrement(c.out, f, x);
    UntakenSettles(c, c1, x);
  }

  lemma NoIncrement(out: seq<Frame>, f: Frame, x: nat)
    requires f.typ != F_WINDOW_UPDATE
    ensures Increments(out + [f], x) == Increments(out, x)
  {
    Snoc(out, f);
  }

  lemma {:induction false} ShiftUntaken(streams: map<nat, Stream>, ids: seq<nat>, newInitial: int)
    requires Known(ids, streams)
    ensures var r := ShiftWindows(streams, ids, newInitial).1;
            r.Keys == streams.Keys && forall id :: id in streams ==> r[id].recvWindow == streams[id].recvWindow
    decreases |ids|
  {
    if ids != [] && streams[ids[0]].sendWindow.Reinitialize(newInitial).Ok? {
      var w := streams[ids[0]].sendWindow.Reinitialize(newInitial).value;
      ShiftUntaken(streams[ids[0] := streams[ids[0]].(sendWindow := w)], ids[1..], newInitial);
    }
  }

  lemma AcknowledgeSettles(c: Conn, headerTableSize: nat, x: nat)
    requires SoundWindows(c) && !c.dead
    ensures Settles(c, Acknowledge(c, headerTableSize).1, x, 0, 0)
  {
    var encoder := if c.peer.headerTableSize != headerTableSize
        then Hpack.SetMaxSize(c.encoder, c.peer.headerTableSize) else c.encoder;
    ReplySettles(c.(encoder := encoder), Frame(F_SETTINGS, FLAG_ACK, 0, []), x);
  }

  lemma AdoptingUntaken(c: Conn, peer: PeerSettings, size: int)
    ensures Untaken(c, c.(peer := peer, streams := AdoptInitial(c.streams, c.peer.initialWindowSize, size).1))
  {
    ShiftUntaken(c.streams, Sorted(c.streams.Keys), size);
  }

  lemma AdoptingSettles(c: Conn, peer: PeerSettings, x: nat)
    requires SoundWindows(c) && !c.dead
    ensures Settles(c, AdoptSettings(c, peer).1, x, 0, 0)
  {
    var (shifted, streams) := AdoptInitial(c.streams, c.peer.initialWindowSize, peer.initialWindowSize);
    var c1 := c.(peer := peer, streams := streams);
    AdoptingUntaken(c, peer, peer.initialWindowSize);
    UntakenSettles(c, c1, x);
    if shifted {
      AcknowledgeSettles(c1, c.peer.headerTableSize, x);
      SettlesTwice(c, c1, Acknowledge(c1, c.peer.headerTableSize).1, x, 0, 0, 0, 0);
    }
  }

  lemma SettingsSettle(c: Conn, f: Frame, x: nat)
    requires SoundWindows(c) && !c.dead
    ensures Settles(c, ProcessSettings(c, f).1, x, 0, 0)
  {
    var (ok, peer) := ApplySettings(c.peer, f.payload);
    if ok {
      AdoptingSettles(c, peer, x);
    } else {
      UntakenSettles(c, c.(peer := peer), x);
    }
  }

  lemma ConnectionFrameSettles(c: Conn, f: Frame, x: nat)
    requires SoundWindows(c) && !c.dead && |f.payload| <= MAX_FRAME_PAYLOAD
    ensures Settles(c, ProcessConnFrame(c, f).1, x, 0, 0)
  {
    if f.typ == F_SETTINGS && !f.Ack() {
      SettingsSettle(c, f, x);
    } else if f.typ == F_PING && !f.Ack() {
      ReplySettles(c, Frame(F_PING, FLAG_ACK, 0, f.payload), x);
    } else {
      UntakenSettles(c, ProcessConnFrame(c, f).1, x);
    }
  }

  lemma HeadersSettle(c: Conn, f: Frame, x: nat)
    requires SoundWindows(c) && !c.dead
    ensures Settles(c, ProcessHeaders(c, f).1, x, 0, 0)
  {
    UntakenSettles(c, ProcessHeaders(c, f).1, x);
  }

  lemma ContinuationSettles(c: Conn, f: Frame, x: nat)
    requires SoundWindows(c) && !c.dead
    ensures Settles(c, ProcessContinuation(c, f).1, x, 0, 0)
  {
    UntakenSettles(c, ProcessContinuation(c, f).1, x);
  }

  /** Whatever frame is dispatched. */
  lemma FrameSettles(c: Conn, f: Frame, x: nat)
    requires SoundWindows(c) && !c.dead && x != 0 && |f.payload| <= MAX_FRAME_PAYLOAD
    ensures Settles(c, ProcessFrame(c, f).1, x, ToConnection(c, f), ToStream(c, f, x))
  {
    UntakenSettles(c, c, x);
    if c.expecting.None? || (f.typ == F_CONTINUATION && f.id == c.expecting.value) {
      if f.id == 0 {
        ConnectionFrameSettles(c, f, x);
      } else if f.typ == F_HEADERS {
        HeadersSettle(c, f, x);
      } else if f.typ == F_CONTINUATION {
        ContinuationSettles(c, f, x);
      } else if f.typ == F_DATA {
        DataBalances(c, f, x);
      } else if f.typ == F_RST_STREAM {
        UntakenSettles(c, ProcessRst(c, f).1, x);
      } else if f.typ == F_WINDOW_UPDATE {
        UntakenSettles(c, ProcessStreamUpdate(c, f).1, x);
      }
    }
  }

  /** What a step of the connection takes from the windows: that of the frame it reads, if it reads one. */
  function TakenFrom(c: Conn, c1: Conn): nat
  {
    if |c1.inbound| < |c.inbound| then ToConnection(c, c.inbound[0]) else 0
  }

  function TakenFor(c: Conn, c1: Conn, id: nat): nat
  {
    if |c1.inbound| < |c.inbound| then ToStream(c, c.inbound[0], id) else 0
  }

  lemma InboundStays(c: Conn, f: Frame)
    ensures ProcessFrame(c, f).1.inbound == c.inbound
  {
    if f.id != 0 && f.typ == F_DATA {
      DataInboundStays(c, f);
    } else if f.id != 0 && f.typ == F_HEADERS {
      HeadersInboundStays(c, f);
    }
  }

  lemma DataInboundStays(c: Conn, f: Frame)
    ensures ProcessData(c, f).1.inbound == c.inbound
  {
  }

  lemma HeadersInboundStays(c: Conn, f: Frame)
    ensures ProcessHeaders(c, f).1.inbound == c.inbound
  {
  }

  lemma ReadSettles(c: Conn, x: nat)
    requires SoundWindows(c) && !c.dead && x != 0 && forall f :: f in c.inbound ==> |f.payload| <= MAX_FRAME_PAYLOAD
    ensures var c1 := ReadAndDispatch(c).1;
            Settles(c, c1, x, TakenFrom(c, c1), TakenFor(c, c1, x))
  {
    UntakenSettles(c, c, x);
    if c.inbound != [] {
      var f := c.inbound[0];
      assert f in c.inbound;
      var c0 := c.(inbound := c.inbound[1..], accepted := c.accepted + [f]);
      InboundStays(c0, f);
      FrameSettles(c0, f, x);
    }
  }

  // ----- pumping and starting -----

  /** Frames that carry no increment. */
  predicate NoUpdates(fs: seq<Frame>) { forall i :: 0 <= i < |fs| ==> fs[i].typ != F_WINDOW_UPDATE }

  lemma {:induction false} WritingNoUpdates(c: Conn, fs: seq<Frame>, x: nat)
    requires NoUpdates(fs)
    ensures Increments(WriteAll(c, fs).1.out, x) == Increments(c.out, x)
    decreases |fs|
  {
    if fs != [] {
      var (ok, c1) := Write(c, fs[0]);
      NoIncrement(c.out, fs[0], x);
      if ok {
        WritingNoUpdates(c1, fs[1..], x);
      }
    }
  }

  /** A chunk writes at most one frame, of DATA. */
  lemma ChunkWrites(c: Conn, id: nat, n: nat, pb: PendingBody)
    requires id in c.streams && c.streams[id].pendingBody == Some(pb) && pb.sent + n <= |pb.bytes|
    ensures var c1 := SendChunk(c, id, n).1;
            Untaken(c, c1) && (c1.out == c.out || (c1.out != [] && c1.out[|c1.out| - 1].typ == F_DATA
                                                   && c1.out == c.out + [c1.out[|c1.out| - 1]]))
  {
  }

  lemma ChunkSettles(c: Conn, id: nat, n: nat, pb: PendingBody, x: nat)
    requires SoundWindows(c) && id in c.streams && c.streams[id].pendingBody == Some(pb) && pb.sent + n <= |pb.bytes|
    ensures Settles(c, SendChunk(c, id, n).1, x, 0, 0)
  {
    ChunkWrites(c, id, n, pb);
    DataWritten(c, SendChunk(c, id, n).1, x);
  }

  lemma DataWritten(c: Conn, c1: Conn, x: nat)
    requires SoundWindows(c) && Untaken(c, c1)
    requires c1.out == c.out || (c1.out != [] && c1.out[|c1.out| - 1].typ == F_DATA
                                 && c1.out == c.out + [c1.out[|c1.out| - 1]])
    ensures Settles(c, c1, x, 0, 0)
  {
    if c1.out != c.out {
      NoIncrement(c.out, c1.out[|c1.out| - 1], 0);
      NoIncrement(c.out, c1.out[|c1.out| - 1], x);
    }
    UntakenSettles(c, c1, x);
  }

  lemma {:induction false} PumpStreamSettles(c: Conn, id: nat, max: nat, x: nat)
    requires SoundWindows(c) && !c.dead
    ensures Settles(c, PumpStream(c, id, max).1, x, 0, 0)
    decreases Left(PendingOf(c, id))
  {
    if PendingOf(c, id).Some? && Left(PendingOf(c, id)) > 0 {
      var n := NextDataChunkSize(max, SendBudget(c, c.streams[id]), Left(PendingOf(c, id)));
      PumpUnfolds(c, id, max, n);
      if n > 0 {
        ChunkSettles(c, id, n, PendingOf(c, id).value, x);
        var (ok, c') := SendChunk(c, id, n);
        if ok && n < Left(PendingOf(c, id)) {
          ChunkAlive(c, id, n);
          PumpStreamSettles(c', id, max, x);
          SettlesTwice(c, c', PumpStream(c', id, max).1, x, 0, 0, 0, 0);
        }
      } else {
        UntakenSettles(c, c, x);
      }
    } else {
      UntakenSettles(c, PumpStream(c, id, max).1, x);
    }
  }

  lemma ChunkAlive(c: Conn, id: nat, n: nat)
    requires id in c.streams && c.streams[id].pendingBody.Some? && !c.dead
    requires c.streams[id].pendingBody.value.sent + n <= |c.streams[id].pendingBody.value.bytes|
    ensures SendChunk(c, id, n).0 ==> !SendChunk(c, id, n).1.dead
  {
  }

  lemma {:induction false} PumpAlive(c: Conn, id: nat, max: nat)
    requires !c.dead
    ensures PumpStream(c, id, max).0 ==> !PumpStream(c, id, max).1.dead
    decreases Left(PendingOf(c, id))
  {
    if PendingOf(c, id).Some? && Left(PendingOf(c, id)) > 0 {
      var n := NextDataChunkSize(max, SendBudget(c, c.streams[id]), Left(PendingOf(c, id)));
      PumpUnfolds(c, id, max, n);
      if n > 0 {
        ChunkAlive(c, id, n);
        var (ok, c') := SendChunk(c, id, n);
        if ok && n < Left(PendingOf(c, id)) {
          PumpAlive(c', id, max);
        }
      }
    }
  }

  lemma {:induction false} PumpsSettle(c: Conn, ids: seq<nat>, max: nat, x: nat)
    requires SoundWindows(c) && !c.dead
    ensures Settles(c, PumpStreams(c, ids, max).1, x, 0, 0)
    decreases |ids|
  {
    UntakenSettles(c, c, x);
    if ids != [] {
      PumpStreamSettles(c, ids[0], max, x);
      PumpAlive(c, ids[0], max);
      var (ok, c') := PumpStream(c, ids[0], max);
      if ok {
        PumpsSettle(c', ids[1..], max, x);
        SettlesTwice(c, c', PumpStreams(c', ids[1..], max).1, x, 0, 0, 0, 0);
      }
    }
  }

  lemma FlushSettles(c: Conn, x: nat)
    requires SoundWindows(c) && !c.dead
    ensures Settles(c, FlushPending(c).1, x, 0, 0)
  {
    PumpsSettle(c, Sorted(PendingIds(c)), c.peer.maxFrameSize, x);
  }

  // ----- whole runs -----

  /** A stream opened on the way starts with a window of 65535 octets. */
  ghost predicate Steps(c: Conn, c1: Conn, id: nat, n: nat, k: nat)
  {
    c1.dead || (
      && SoundWindows(c1) && c.nextId <= c1.nextId
      && Granted(c1.connRecv, c1.out, 0) == Granted(c.connRecv, c.out, 0) - n
      && (id in c1.streams ==>
            if id in c.streams
            then Granted(c1.streams[id].recvWindow, c1.out, id) == Granted(c.streams[id].recvWindow, c.out, id) - k
            else id >= c.nextId && Granted(c1.streams[id].recvWindow, c1.out, id) == 65535 - Increments(c.out, id) - k)
      && (id >= c1.nextId ==> Increments(c1.out, id) == Increments(c.out, id) && k == 0))
  }

  lemma SettlesIsStep(c: Conn, c1: Conn, id: nat, n: nat, k: nat)
    requires SoundWindows(c) && Settles(c, c1, id, n, k) && (id !in c.streams ==> k == 0)
    ensures Steps(c, c1, id, n, k)
  {
  }

  lemma StepsTwice(a: Conn, b: Conn, c: Conn, id: nat, n: nat, k: nat, n1: nat, k1: nat)
    requires SoundWindows(a) && !b.dead && Steps(a, b, id, n, k) && Steps(b, c, id, n1, k1)
    ensures Steps(a, c, id, n + n1, k + k1)
  {
  }

  lemma StagingWrites(c: Conn, id: nat, req: Request, x: nat)
    requires |c.tables.huffman| == 257 && c.peer.maxFrameSize > 0 && id in c.streams
    ensures Increments(StageRequest(c, id, req).1.out, x) == Increments(c.out, x)
  {
    var (block, encoder) := Hpack.EncodeBlock(c.tables, c.encoder, req.fields);
    var fs := FragmentHeaderBlock(id, block, c.peer.maxFrameSize, req.body == []);
    FragmentShape(id, block, c.peer.maxFrameSize, req.body == []);
    WritingNoUpdates(c.(encoder := encoder), fs, x);
  }

  /** Staging leaves every receive window alone. */
  lemma StagingUntaken(c: Conn, id: nat, req: Request)
    requires |c.tables.huffman| == 257 && c.peer.maxFrameSize > 0 && id in c.streams
    ensures Untaken(c, StageRequest(c, id, req).1)
  {
  }

  /** A new stream gets a window of its own. */
  lemma OpeningSteps(c: Conn, x: nat)
    requires SoundWindows(c) && c.nextId > 0 && OpenStream(c).Ok?
    ensures Steps(c, OpenStream(c).value.1, x, 0, 0)
  {
  }

  lemma StagingSteps(c: Conn, id: nat, req: Request, x: nat)
    requires |c.tables.huffman| == 257 && c.peer.maxFrameSize > 0 && id in c.streams && SoundWindows(c)
    ensures Settles(c, StageRequest(c, id, req).1, x, 0, 0)
  {
    StagingWrites(c, id, req, 0);
    StagingWrites(c, id, req, x);
    StagingUntaken(c, id, req);
    UntakenSettles(c, StageRequest(c, id, req).1, x);
  }

  lemma DroppingSteps(c: Conn, c1: Conn, ids: set<nat>, x: nat)
    requires Steps(c, c1, x, 0, 0)
    ensures Steps(c, c1.(streams := c1.streams - ids), x, 0, 0)
  {
  }

  lemma StartSteps(c: Conn, req: Request, x: nat)
    requires SoundWindows(c) && |c.tables.huffman| == 257 && c.peer.maxFrameSize > 0 && c.nextId > 0 && !c.dead
    ensures Steps(c, StartRequest(c, req).1, x, 0, 0)
  {
    if OpenStream(c).Ok? {
      var (id, c1) := OpenStream(c).value;
      var c2 := StageRequest(c1, id, req).1;
      OpeningSteps(c, x);
      StagingSteps(c1, id, req, x);
      SettlesIsStep(c1, c2, x, 0, 0);
      StepsTwice(c, c1, c2, x, 0, 0, 0, 0);
      DroppingSteps(c, c2, {id}, x);
    }
  }

  lemma ForgettingSteps(c: Conn, c1: Conn, x: nat)
    requires SoundWindows(c) && Forgets(c, c1)
    ensures Steps(c, c1, x, 0, 0)
  {
  }

  /** What every operation of the driver does to the receive windows. */
  lemma OperationSteps(c: Conn, c1: Conn, reqs: seq<Request>, x: nat)
    requires SoundWindows(c) && !c.dead && c.nextId > 0 && x != 0 && Operation(c, c1, reqs)
    requires forall f :: f in c.inbound ==> |f.payload| <= MAX_FRAME_PAYLOAD
    ensures Steps(c, c1, x, TakenFrom(c, c1), TakenFor(c, c1, x))
  {
    if c1 == ReadAndDispatch(c).1 {
      ReadSettles(c, x);
      SettlesIsStep(c, c1, x, TakenFrom(c, c1), TakenFor(c, c1, x));
    } else if c1 == FlushPending(c).1 {
      FlushSettles(c, x);
      SettlesIsStep(c, c1, x, 0, 0);
    } else if Starts(c, c1, reqs) {
      var i :| 0 <= i < |reqs| && c1 == StartRequest(c, reqs[i]).1;
      StartSteps(c, reqs[i], x);
      StartReads(c, reqs[i]);
    } else {
      ForgettingSteps(c, c1, x);
    }
  }

  lemma StartReads(c: Conn, req: Request)
    requires |c.tables.huffman| == 257 && c.peer.maxFrameSize > 0
    ensures StartRequest(c, req).1.inbound == c.inbound
  {
  }

  lemma ReadInput(c: Conn)
    ensures ReadAndDispatch(c).1.inbound == if c.inbound == [] then [] else c.inbound[1..]
  {
    if c.inbound != [] {
      InboundStays(c.(inbound := c.inbound[1..], accepted := c.accepted + [c.inbound[0]]), c.inbound[0]);
    }
  }

  /** Operations only ever take from the front of the input, and no id is handed out twice. */
  lemma OperationInput(c: Conn, c1: Conn, reqs: seq<Request>)
    requires Operation(c, c1, reqs)
    ensures c1.inbound == c.inbound || (c.inbound != [] && c1.inbound == c.inbound[1..])
  {
    if c1 == ReadAndDispatch(c).1 {
      ReadInput(c);
    } else if c1 != FlushPending(c).1 && Starts(c, c1, reqs) {
      var i :| 0 <= i < |reqs| && c1 == StartRequest(c, reqs[i]).1;
      StartReads(c, reqs[i]);
    }
  }

  /** A transport that died stays dead. */
  lemma DeadFrame(c: Conn, f: Frame)
    requires c.dead
    ensures ProcessFrame(c, f).1.dead
  {
    if f.id != 0 && f.typ == F_DATA {
      DeadData(c, f);
    } else if f.id != 0 && f.typ == F_HEADERS {
      DeadHeaders(c, f);
    } else if f.id == 0 {
      DeadConnection(c, f);
    }
  }

  lemma DeadData(c: Conn, f: Frame)
    requires c.dead
    ensures ProcessData(c, f).1.dead
  {
  }

  lemma DeadHeaders(c: Conn, f: Frame)
    requires c.dead
    ensures ProcessHeaders(c, f).1.dead
  {
  }

  lemma DeadConnection(c: Conn, f: Frame)
    requires c.dead
    ensures ProcessConnFrame(c, f).1.dead
  {
  }

  lemma DeadOperation(c: Conn, c1: Conn, reqs: seq<Request>)
    requires c.dead && Operation(c, c1, reqs)
    ensures c1.dead
  {
    if c1 == ReadAndDispatch(c).1 {
      if c.inbound != [] {
        DeadFrame(c.(inbound := c.inbound[1..], accepted := c.accepted + [c.inbound[0]]), c.inbound[0]);
      }
    } else if c1 != FlushPending(c).1 && Starts(c, c1, reqs) {
      var i :| 0 <= i < |reqs| && c1 == StartRequest(c, reqs[i]).1;
      DeadStart(c, reqs[i]);
    }
  }

  lemma DeadStart(c: Conn, req: Request)
    requires |c.tables.huffman| == 257 && c.peer.maxFrameSize > 0 && c.dead
    ensures StartRequest(c, req).1.dead
  {
  }

  /** DATA octets that counted against the connection in the first `k` steps of a sequence of states. */
  function ConnectionOctets(path: seq<Conn>, k: nat): nat
    requires k < |path|
  {
    if k == 0 then 0 else ConnectionOctets(path, k - 1) + TakenFrom(path[k - 1], path[k])
  }

  /** DATA octets that counted against one stream. */
  function StreamOctets(path: seq<Conn>, k: nat, id: nat): nat
    requires k < |path|
  {
    if k == 0 then 0 else StreamOctets(path, k - 1, id) + TakenFor(path[k - 1], path[k], id)
  }

  /** The frames to come fit what a frame may carry. */
  predicate SmallInput(c: Conn) { forall f :: f in c.inbound ==> |f.payload| <= MAX_FRAME_PAYLOAD }

  lemma LifeStep(path: seq<Conn>, reqs: seq<Request>, k: nat)
    requires Life(path, reqs) && 0 < k < |path|
    ensures Operation(path[k - 1], path[k], reqs)
  {
  }

  /** What one operation does to windows and input. */
  lemma OperationBalances(c0: Conn, c: Conn, c1: Conn, reqs: seq<Request>, id: nat, n: nat, k: nat)
    requires Operation(c, c1, reqs) && SoundWindows(c0) && c0.nextId > 0 && SmallInput(c) && id != 0
    requires Steps(c0, c, id, n, k)
    ensures SmallInput(c1) && Steps(c0, c1, id, n + TakenFrom(c, c1), k + TakenFor(c, c1, id))
  {
    OperationInput(c, c1, reqs);
    if c.dead {
      DeadOperation(c, c1, reqs);
    } else {
      OperationSteps(c, c1, reqs, id);
      StepsTwice(c0, c, c1, id, n, k, TakenFrom(c, c1), TakenFor(c, c1, id));
    }
  }

  /** At every moment of a run, as long as the transport is up, every receive window keeps its balance. */
  lemma {:induction false} LifeBalances(path: seq<Conn>, reqs: seq<Request>, id: nat, k: nat)
    requires Life(path, reqs) && SoundWindows(path[0]) && path[0].nextId > 0 && SmallInput(path[0]) && id != 0
             && k < |path|
    ensures SmallInput(path[k]) && Steps(path[0], path[k], id, ConnectionOctets(path, k), StreamOctets(path, k, id))
    decreases k
  {
    if k > 0 {
      LifeStep(path, reqs, k);
      LifeBalances(path, reqs, id, k - 1);
      OperationBalances(path[0], path[k - 1], path[k], reqs, id, ConnectionOctets(path, k - 1),
                        StreamOctets(path, k - 1, id));
    }
  }

  /**
   * A whole run on an idle connection, at every moment while the transport is up: the connection's receive window is
   * what it was, plus the increments written on stream 0, less the DATA received; a stream's is 65535, plus the
   * increments written on that stream, less the DATA received for it.
   */
  lemma RunReceipts(c: Conn, reqs: seq<Request>, id: nat) returns (path: seq<Conn>)
    requires Inv(c) && c.streams == map[] && id != 0
    ensures Leads(path, c, Run(c, reqs).conn, reqs)
    ensures forall k :: 0 <= k < |path| ==> Steps(c, path[k], id, ConnectionOctets(path, k), StreamOctets(path, k, id))
  {
    path := RunPays(c, reqs);
    InvariantIsSound(c);
    forall k | 0 <= k < |path|
      ensures Steps(c, path[k], id, ConnectionOctets(path, k), StreamOctets(path, k, id))
    {
      LifeBalances(path, reqs, id, k);
    }
  }

  lemma InvariantIsSound(c: Conn)
    requires Inv(c)
    ensures SoundWindows(c) && c.nextId > 0 && SmallInput(c)
  {
  }
}

/** What any inbound frame can do to a connection: one relation, met by every dispatch function. */
module Http2Frames {
  import opened Common
  import opened FlowControl
  import opened Http2Types
  import opened Http2Engine
  import opened Http2Logs
  import opened SortedIds
  import Hpack

  // ----- what holds of every connection -----

  ghost predicate Sound(c: Conn)
  {
    && |c.tables.huffman| == 257
    && SettingsInRange(c.peer)
    && (c.dead ==> c.budget == 0)
    && (forall f :: f in c.inbound ==> |f.payload| <= MAX_FRAME_PAYLOAD)
    && SoundRecv(c.connRecv)
    && 0 <= c.connSend <= WINDOW_MAX
    && forall id :: id in c.streams ==> SoundStream(c.streams[id], id)
  }

  predicate SoundRecv(w: RecvWindow)
  {
    w.initial == DEFAULT_WINDOW && w.available <= DEFAULT_WINDOW
  }

  predicate SoundStream(s: Stream, id: nat)
  {
    s.id == id && id != 0 && SoundRecv(s.recvWindow) && s.sendWindow.available <= WINDOW_MAX
  }

  // ----- writing control frames -----

  /** Only the transport fields changed, and only control frames for streams below `bound` were written. */
  ghost predicate Wrote(c: Conn, c1: Conn, extra: seq<Frame>)
  {
    && c1 == c.(out := c.out + extra, budget := c1.budget, dead := c1.dead)
    && c1.budget <= c.budget && (c.dead ==> c1.dead) && (c1.dead ==> c.dead || c1.budget == 0)
    && forall f :: f in extra ==> Control(f)
  }

  lemma {:induction false} WriteAllControl(c: Conn, fs: seq<Frame>) returns (extra: seq<Frame>)
    requires forall f :: f in fs ==> Control(f) && |f.payload| <= MAX_FRAME_PAYLOAD
    ensures Wrote(c, WriteAll(c, fs).1, extra) && extra <= fs
    ensures if WriteAll(c, fs).0 then WriteAll(c, fs).1.dead == c.dead else WriteAll(c, fs).1.dead
    decreases |fs|
  {
    extra := [];
    assert c.out + [] == c.out;
    if fs != [] {
      var (ok, c1) := Write(c, fs[0]);
      if ok {
        var more := WriteAllControl(c1, fs[1..]);
        extra := [fs[0]] + more;
        assert c.out + extra == c1.out + more;
      }
    }
  }

  lemma WriteThenFlushControl(c: Conn, fs: seq<Frame>, o: Outcome) returns (extra: seq<Frame>)
    requires forall f :: f in fs ==> Control(f) && |f.payload| <= MAX_FRAME_PAYLOAD
    ensures var (r, c1) := WriteThenFlush(c, fs, o);
            Wrote(c, c1, extra) && extra <= fs && (if r.Ok? then r.value == o && c1.dead == c.dead else c1.dead)
  {
    extra := WriteAllControl(c, fs);
  }

  // ----- the relation -----

  /** A stream's windows and body move by exactly what the frame carries for it; its request body does not move. */
  ghost predicate StreamStep(s: Stream, s1: Stream, inc: nat, part: seq<Byte>)
  {
    && s1.pendingBody == s.pendingBody && s1.body == s.body + part && (s1.state.Idle? ==> s.state.Idle?)
    && s1.sendWindow.available - s1.sendWindow.initialPeer == s.sendWindow.available - s.sendWindow.initialPeer + inc
  }

  /** The peer's settings, not the acknowledgement of ours: the one frame that may change the initial window size. */
  predicate Adjusts(f: Frame) { f.id == 0 && f.typ == F_SETTINGS && !f.Ack() }

  /** Everything the dispatch of `f` may do; `extra` is what it writes. */
  ghost predicate FrameStep(c: Conn, c1: Conn, f: Frame, ok: bool, extra: seq<Frame>)
  {
    && Sound(c1)
    && c1 == c.(peer := c1.peer, connSend := c1.connSend, connRecv := c1.connRecv, decoder := c1.decoder,
                encoder := c1.encoder, streams := c1.streams, goaway := c1.goaway, expecting := c1.expecting,
                budget := c1.budget, dead := c1.dead, out := c1.out)
    && c1.out == c.out + extra && (forall x :: x in extra ==> Control(x) && (x.id == 0 || x.id in c.streams))
    && c1.budget <= c.budget && (c.dead ==> c1.dead) && (ok && c1.dead ==> c.dead)
    && c1.connSend == c.connSend + (if ok then Increment(f, 0) else 0)
    && c1.streams.Keys == c.streams.Keys
    && (forall id :: id in c.streams ==>
          (!ok && c1.dead)
            || StreamStep(c.streams[id], c1.streams[id], if ok then Increment(f, id) else 0,
                          if ok then BodyPart(f, id) else []))
    && (!Adjusts(f) ==>
          c1.peer == c.peer && forall id :: id in c.streams ==>
            c1.streams[id].sendWindow.initialPeer == c.streams[id].sendWindow.initialPeer)
  }

  /** The part of the relation about streams, for functions that leave every stream but `id` alone. */
  lemma OneStream(c: Conn, c1: Conn, f: Frame, ok: bool, s1: Stream)
    requires f.id != 0 && f.id in c.streams && c1.streams == c.streams[f.id := s1]
    requires s1.sendWindow.initialPeer == c.streams[f.id].sendWindow.initialPeer
    requires (!ok && c1.dead)
             || StreamStep(c.streams[f.id], s1, if ok then Increment(f, f.id) else 0,
                           if ok then BodyPart(f, f.id) else [])
    ensures c1.streams.Keys == c.streams.Keys
    ensures forall id :: id in c.streams ==>
      (!ok && c1.dead)
        || StreamStep(c.streams[id], c1.streams[id], if ok then Increment(f, id) else 0,
                      if ok then BodyPart(f, id) else [])
    ensures forall id :: id in c.streams ==>
            c1.streams[id].sendWindow.initialPeer == c.streams[id].sendWindow.initialPeer
  {
  }

  /** Nothing but the connection itself changed. */
  lemma NoStream(c: Conn, f: Frame, ok: bool)
    requires ok ==> forall id :: id in c.streams ==> Increment(f, id) == 0 && BodyPart(f, id) == []
    ensures forall id :: id in c.streams ==>
      StreamStep(c.streams[id], c.streams[id], if ok then Increment(f, id) else 0, if ok then BodyPart(f, id) else [])
  {
    forall id | id in c.streams
      ensures c.streams[id].body + [] == c.streams[id].body
    {
    }
  }

  lemma Still(c: Conn, f: Frame, ok: bool)
    requires Sound(c)
    requires ok ==> Increment(f, 0) == 0 && forall id :: id in c.streams ==>
             Increment(f, id) == 0 && BodyPart(f, id) == []
    ensures FrameStep(c, c, f, ok, [])
  {
    NoStream(c, f, ok);
    assert c.out + [] == c.out;
  }

  // ----- stream frames -----

  lemma UpdateStep(c: Conn, f: Frame)
    requires Sound(c) && f.id != 0 && f.typ == F_WINDOW_UPDATE
    ensures FrameStep(c, ProcessStreamUpdate(c, f).1, f, ProcessStreamUpdate(c, f).0.Ok?, [])
  {
    var (r, c1) := ProcessStreamUpdate(c, f);
    assert c.out + [] == c.out;
    if r.Ok? && f.id in c.streams {
      var s1 := c1.streams[f.id];
      assert c.streams[f.id].body + [] == s1.body;
      OneStream(c, c1, f, true, s1);
    } else {
      Still(c, f, r.Ok?);
    }
  }

  lemma RstStep(c: Conn, f: Frame)
    requires Sound(c) && f.id != 0 && f.typ == F_RST_STREAM
    ensures FrameStep(c, ProcessRst(c, f).1, f, ProcessRst(c, f).0.Ok?, [])
  {
    var (r, c1) := ProcessRst(c, f);
    assert c.out + [] == c.out;
    if r.Err? && c1 != c {
      var s1 := c1.streams[f.id];
      assert c.streams[f.id].body + [] == s1.body;
      OneStream(c, c1, f, false, s1);
    } else {
      Still(c, f, r.Ok?);
    }
  }

  lemma HeadersOnOpenStep(c: Conn, f: Frame, frag: seq<Byte>, state: StreamState)
    requires Sound(c) && f.id in c.streams && f.typ == F_HEADERS && !state.Idle?
    ensures FrameStep(c, HeadersOnOpen(c, f, frag, state).1, f, HeadersOnOpen(c, f, frag, state).0.Ok?, [])
  {
    var (r, c1) := HeadersOnOpen(c, f, frag, state);
    HeaderChange(c, c1, f, r.Ok?);
  }

  lemma HeadersOnClosedStep(c: Conn, f: Frame, frag: seq<Byte>)
    requires Sound(c) && f.id in c.streams && f.typ == F_HEADERS
    ensures FrameStep(c, HeadersOnClosed(c, f, frag).1, f, HeadersOnClosed(c, f, frag).0.Ok?, [])
  {
    var (r, c1) := HeadersOnClosed(c, f, frag);
    HeaderChange(c, c1, f, r.Ok?);
  }

  lemma HeadersStep(c: Conn, f: Frame)
    requires Sound(c) && f.id != 0 && f.typ == F_HEADERS
    ensures FrameStep(c, ProcessHeaders(c, f).1, f, ProcessHeaders(c, f).0.Ok?, [])
  {
    Still(c, f, false);
    if HeaderFragment(f).Ok? && f.id in c.streams {
      var frag := HeaderFragment(f).value;
      if c.streams[f.id].state.Closed? {
        HeadersOnClosedStep(c, f, frag);
      } else if c.streams[f.id].state.RecvHeaders(f.EndStream()).Ok? {
        HeadersOnOpenStep(c, f, frag, c.streams[f.id].state.RecvHeaders(f.EndStream()).value);
      }
    }
  }

  lemma ContinuationStep(c: Conn, f: Frame)
    requires Sound(c) && f.id != 0 && f.typ == F_CONTINUATION
    ensures FrameStep(c, ProcessContinuation(c, f).1, f, ProcessContinuation(c, f).0.Ok?, [])
  {
    var (r, c1) := ProcessContinuation(c, f);
    HeaderChange(c, c1, f, r.Ok?);
  }

  /** A header frame changes at most its stream's life cycle and header buffers. */
  lemma HeaderChange(c: Conn, c1: Conn, f: Frame, ok: bool)
    requires Sound(c) && f.id != 0 && (f.typ == F_HEADERS || f.typ == F_CONTINUATION)
    requires c1 == c.(streams := c1.streams, decoder := c1.decoder, expecting := c1.expecting)
    requires c1.streams == c.streams
             || (f.id in c.streams && f.id in c1.streams && c1.streams == c.streams[f.id := c1.streams[f.id]])
    requires f.id in c.streams && f.id in c1.streams ==>
      var s, s1 := c.streams[f.id], c1.streams[f.id];
      (s1.state.Idle? ==> s.state.Idle?)
        && s1 == s.(state := s1.state, headersBuf := s1.headersBuf, responseHeaders := s1.responseHeaders,
                    endStreamRecv := s1.endStreamRecv)
    ensures FrameStep(c, c1, f, ok, [])
  {
    assert c.out + [] == c.out;
    if c1.streams == c.streams {
      NoStream(c, f, ok);
    } else {
      var s1 := c1.streams[f.id];
      assert c.streams[f.id].body + [] == s1.body;
      OneStream(c, c1, f, ok, s1);
    }
  }

  lemma UpdateFramesControl(id: nat, inc: Option<int>)
    ensures forall x :: x in UpdateFrames(id, inc) ==> Control(x) && |x.payload| <= MAX_FRAME_PAYLOAD && x.id == id
  {
  }

  /** DATA for a stream that is gone still returns its credit. */
  lemma DataUnknownStep(c: Conn, c1: Conn, f: Frame, inc: Option<int>) returns (extra: seq<Frame>)
    requires Sound(c) && f.id != 0 && f.typ == F_DATA && f.id !in c.streams
    requires c1 == c.(connRecv := c1.connRecv) && SoundRecv(c1.connRecv)
    ensures var (r, c') := WriteThenFlush(c1, UpdateFrames(0, inc), Continue);
            FrameStep(c, c', f, r.Ok?, extra)
  {
    NoStream(c, f, true);
    UpdateFramesControl(0, inc);
    extra := WriteThenFlushControl(c1, UpdateFrames(0, inc), Continue);
  }

  lemma DataStep(c: Conn, f: Frame) returns (extra: seq<Frame>)
    requires Sound(c) && f.id != 0 && f.typ == F_DATA
    ensures FrameStep(c, ProcessData(c, f).1, f, ProcessData(c, f).0.Ok?, extra)
  {
    var conn := c.connRecv.Consume(|f.payload|);
    extra := [];
    assert c.out + [] == c.out;
    NoStream(c, f, false);
    if conn.available >= 0 {
      if f.id !in c.streams {
        var (w, inc) := conn.Replenish();
        NoStream(c, f, true);
        if inc.Some? {
          extra := DataUnknownStep(c, c.(connRecv := w), f, inc);
        }
      } else if !c.streams[f.id].state.Closed? && c.streams[f.id].state.RecvData(f.EndStream()).Ok? {
        extra := DataOnOpenStep(c, c.(connRecv := conn), f, c.streams[f.id].state.RecvData(f.EndStream()).value);
      }
    }
  }

  lemma DataOnOpenStep(c: Conn, c1: Conn, f: Frame, state: StreamState) returns (extra: seq<Frame>)
    requires Sound(c) && f.id != 0 && f.typ == F_DATA && f.id in c.streams
    requires c1 == c.(connRecv := c1.connRecv) && SoundRecv(c1.connRecv) && !state.Idle?
    ensures FrameStep(c, DataOnOpen(c1, f, state).1, f, DataOnOpen(c1, f, state).0.Ok?, extra)
  {
    extra := [];
    var (ok, s) := AcceptData(c.streams[f.id], f, state);
    AcceptDataStep(c.streams[f.id], f, state);
    if ok {
      var c2 := c1.(streams := c.streams[f.id := s]);
      extra := GrantBackStep(c2, f.id);
      var (r, c') := GrantBack(c2, f.id);
      DataTaken(c, c2, c', f, s, r.Ok?, extra);
    } else {
      DataRefused(c, c1, f, s);
    }
  }

  lemma AcceptDataStep(s: Stream, f: Frame, state: StreamState)
    requires SoundRecv(s.recvWindow)
    ensures var (ok, s1) := AcceptData(s, f, state);
            && SoundRecv(s1.recvWindow) && s1.sendWindow == s.sendWindow && s1.pendingBody == s.pendingBody
            && s1.id == s.id
            && (ok ==> DataBytes(f).Ok? && s1.body == s.body + DataBytes(f).value && s1.state == state)
            && (!ok ==> s1 == s.(recvWindow := s1.recvWindow))
  {
  }

  lemma DataRefused(c: Conn, c1: Conn, f: Frame, s: Stream)
    requires Sound(c) && f.id != 0 && f.id in c.streams
    requires c1 == c.(connRecv := c1.connRecv) && SoundRecv(c1.connRecv)
    requires s == c.streams[f.id].(recvWindow := s.recvWindow) && SoundRecv(s.recvWindow)
    ensures FrameStep(c, c1.(streams := c1.streams[f.id := s]), f, false, [])
  {
    assert c.out + [] == c.out;
    assert c.streams[f.id].body + [] == s.body;
    OneStream(c, c1.(streams := c1.streams[f.id := s]), f, false, s);
  }

  lemma DataTaken(c: Conn, c2: Conn, c': Conn, f: Frame, got: Stream, ok: bool, extra: seq<Frame>)
    requires Sound(c) && f.id != 0 && f.typ == F_DATA && f.id in c.streams && DataBytes(f).Ok?
    requires c2 == c.(connRecv := c2.connRecv, streams := c.streams[f.id := got])
    requires SoundStream(got, f.id) && got.pendingBody == c.streams[f.id].pendingBody
    requires got.sendWindow == c.streams[f.id].sendWindow && got.body == c.streams[f.id].body + DataBytes(f).value
    requires f.id in c'.streams && c'.streams == c.streams[f.id := c'.streams[f.id]]
    requires c'.streams[f.id] == got.(recvWindow := c'.streams[f.id].recvWindow)
    requires SoundRecv(c'.streams[f.id].recvWindow) && SoundRecv(c'.connRecv)
    requires Wrote(c2.(connRecv := c'.connRecv, streams := c'.streams), c', extra)
    requires forall x :: x in extra ==> x.id == 0 || x.id == f.id
    requires if ok then c'.dead == c.dead else c'.dead
    requires got.state.Idle? ==> c.streams[f.id].state.Idle?
    ensures FrameStep(c, c', f, ok, extra)
  {
    OneStream(c, c', f, ok, c'.streams[f.id]);
  }

  /** Granting credit back moves only receive windows and writes only window updates. */
  lemma GrantBackStep(c: Conn, id: nat) returns (extra: seq<Frame>)
    requires id in c.streams && SoundRecv(c.connRecv) && SoundRecv(c.streams[id].recvWindow)
    ensures var (r, c') := GrantBack(c, id);
            && id in c'.streams && c'.streams == c.streams[id := c'.streams[id]]
            && c'.streams[id] == c.streams[id].(recvWindow := c'.streams[id].recvWindow)
            && SoundRecv(c'.streams[id].recvWindow) && SoundRecv(c'.connRecv)
            && Wrote(c.(connRecv := c'.connRecv, streams := c'.streams), c', extra)
            && (forall x :: x in extra ==> x.id == 0 || x.id == id)
            && (if r.Ok? then r.value == Verdict(c'.streams[id], id) && c'.dead == c.dead else c'.dead)
  {
    var (conn, inc0) := c.connRecv.Replenish();
    UpdateFramesControl(0, inc0);
    extra := WriteAllControl(c.(connRecv := conn), UpdateFrames(0, inc0));
    var (ok, c1) := WriteAll(c.(connRecv := conn), UpdateFrames(0, inc0));
    if ok {
      var (recv, inc) := c.streams[id].recvWindow.Replenish();
      var s := c.streams[id].(recvWindow := recv);
      UpdateFramesControl(id, inc);
      var more := WriteThenFlushControl(c1.(streams := c.streams[id := s]), UpdateFrames(id, inc), Verdict(s, id));
      assert c.out + (extra + more) == c.out + extra + more;
      extra := extra + more;
    } else {
      assert c.streams[id := c.streams[id]] == c.streams;
    }
  }

  // ----- connection frames -----

  /** Every window visited so far moved with its basis; the others are as they were. */
  lemma {:induction false} ShiftStep(streams: map<nat, Stream>, ids: seq<nat>, newInitial: int)
    requires Known(ids, streams)
    requires forall id :: id in streams ==> SoundStream(streams[id], id)
    ensures var (ok, r) := ShiftWindows(streams, ids, newInitial);
            && r.Keys == streams.Keys
            && (forall id :: id in streams ==>
                  && SoundStream(r[id], id)
                  && r[id] == streams[id].(sendWindow := r[id].sendWindow)
                  && r[id].sendWindow.available - r[id].sendWindow.initialPeer
                     == streams[id].sendWindow.available - streams[id].sendWindow.initialPeer)
            && (ok ==> forall id :: id in ids ==> r[id].sendWindow.initialPeer == newInitial)
            && (forall id :: id in streams && id !in ids ==> r[id] == streams[id])
    decreases |ids|
  {
    if ids != [] && streams[ids[0]].sendWindow.Reinitialize(newInitial).Ok? {
      var id := ids[0];
      var w := streams[id].sendWindow.Reinitialize(newInitial).value;
      var next := streams[id := streams[id].(sendWindow := w)];
      ShiftStep(next, ids[1..], newInitial);
      if id in ids[1..] {
      } else {
        assert ShiftWindows(next, ids[1..], newInitial).1[id] == next[id];
      }
    }
  }

  lemma AdoptStep(streams: map<nat, Stream>, initial: int, newInitial: int)
    requires forall id :: id in streams ==> SoundStream(streams[id], id)
    ensures var (ok, r) := AdoptInitial(streams, initial, newInitial);
            && r.Keys == streams.Keys
            && (forall id :: id in streams ==> SoundStream(r[id], id) && StreamStep(streams[id], r[id], 0, []))
  {
    if newInitial != initial {
      ShiftStep(streams, Sorted(streams.Keys), newInitial);
    }
    var r := AdoptInitial(streams, initial, newInitial).1;
    forall id | id in streams
      ensures StreamStep(streams[id], r[id], 0, [])
    {
      assert streams[id].body + [] == streams[id].body;
    }
  }

  lemma SettingsMoved(c: Conn, c1: Conn, c': Conn, f: Frame, ok: bool, extra: seq<Frame>)
    requires Sound(c) && Adjusts(f)
    requires c1 == c.(peer := c1.peer, streams := c1.streams, encoder := c1.encoder)
    requires SettingsInRange(c1.peer) && c1.streams.Keys == c.streams.Keys
    requires forall id :: id in c.streams ==>
             SoundStream(c1.streams[id], id) && StreamStep(c.streams[id], c1.streams[id], 0, [])
    requires Wrote(c1, c', extra) && (ok ==> c'.dead == c.dead) && forall x :: x in extra ==> x.id == 0
    ensures FrameStep(c, c', f, ok, extra)
  {
  }

  lemma SettingsAcknowledged(c: Conn, c1: Conn, f: Frame, headerTableSize: nat) returns (extra: seq<Frame>)
    requires Sound(c) && Adjusts(f)
    requires c1 == c.(peer := c1.peer, streams := c1.streams)
    requires SettingsInRange(c1.peer) && c1.streams.Keys == c.streams.Keys
    requires forall id :: id in c.streams ==>
             SoundStream(c1.streams[id], id) && StreamStep(c.streams[id], c1.streams[id], 0, [])
    ensures var (r, c') := Acknowledge(c1, headerTableSize);
            FrameStep(c, c', f, r.Ok?, extra)
  {
    var ack := [Frame(F_SETTINGS, FLAG_ACK, 0, [])];
    var encoder := if c1.peer.headerTableSize != headerTableSize
        then Hpack.SetMaxSize(c1.encoder, c1.peer.headerTableSize) else c1.encoder;
    var c2 := c1.(encoder := encoder);
    extra := WriteThenFlushControl(c2, ack, Continue);
    var (r, c') := WriteThenFlush(c2, ack, Continue);
    SettingsMoved(c, c2, c', f, r.Ok?, extra);
  }

  lemma SettingsStep(c: Conn, f: Frame) returns (extra: seq<Frame>)
    requires Sound(c) && Adjusts(f)
    ensures FrameStep(c, ProcessSettings(c, f).1, f, ProcessSettings(c, f).0.Ok?, extra)
  {
    var (ok, peer) := ApplySettings(c.peer, f.payload);
    extra := [];
    assert c.out + [] == c.out;
    if ok {
      var (shifted, streams) := AdoptInitial(c.streams, c.peer.initialWindowSize, peer.initialWindowSize);
      AdoptStep(c.streams, c.peer.initialWindowSize, peer.initialWindowSize);
      var c1 := c.(peer := peer, streams := streams);
      if shifted {
        extra := SettingsAcknowledged(c, c1, f, c.peer.headerTableSize);
      } else {
        SettingsMoved(c, c1, c1, f, false, []);
      }
    } else {
      NoStream(c, f, false);
      var c1 := c.(peer := peer);
      SettingsMoved(c, c1, c1, f, false, []);
    }
  }

  lemma GoAwayStep(c: Conn, f: Frame)
    requires Sound(c) && f.id == 0 && f.typ == F_GOAWAY
    ensures FrameStep(c, ProcessConnFrame(c, f).1, f, true, []) && ProcessConnFrame(c, f).0 == Ok(Continue)
  {
    assert c.out + [] == c.out;
    NoStream(c, f, true);
  }

  lemma ConnUpdateStep(c: Conn, f: Frame)
    requires Sound(c) && f.id == 0 && f.typ == F_WINDOW_UPDATE
    ensures FrameStep(c, ProcessConnFrame(c, f).1, f, ProcessConnFrame(c, f).0.Ok?, [])
  {
    assert c.out + [] == c.out;
    NoStream(c, f, true);
  }

  lemma PingStep(c: Conn, f: Frame) returns (extra: seq<Frame>)
    requires Sound(c) && f.id == 0 && f.typ == F_PING && !f.Ack() && |f.payload| <= MAX_FRAME_PAYLOAD
    ensures FrameStep(c, ProcessConnFrame(c, f).1, f, ProcessConnFrame(c, f).0.Ok?, extra)
  {
    NoStream(c, f, true);
    extra := WriteThenFlushControl(c, [Frame(F_PING, FLAG_ACK, 0, f.payload)], Continue);
  }

  lemma ConnStep(c: Conn, f: Frame) returns (extra: seq<Frame>)
    requires Sound(c) && f.id == 0 && |f.payload| <= MAX_FRAME_PAYLOAD
    ensures FrameStep(c, ProcessConnFrame(c, f).1, f, ProcessConnFrame(c, f).0.Ok?, extra)
  {
    extra := [];
    if f.typ == F_SETTINGS && !f.Ack() {
      extra := SettingsStep(c, f);
    } else if f.typ == F_PING && !f.Ack() {
      extra := PingStep(c, f);
    } else if f.typ == F_WINDOW_UPDATE {
      ConnUpdateStep(c, f);
    } else if f.typ == F_GOAWAY {
      GoAwayStep(c, f);
    } else {
      Still(c, f, true);
    }
  }

  /** Every dispatched frame is one step of the relation. */
  lemma DispatchStep(c: Conn, f: Frame) returns (extra: seq<Frame>)
    requires Sound(c) && |f.payload| <= MAX_FRAME_PAYLOAD
    ensures FrameStep(c, ProcessFrame(c, f).1, f, ProcessFrame(c, f).0.Ok?, extra)
  {
    extra := [];
    if c.expecting.Some? && !(f.typ == F_CONTINUATION && f.id == c.expecting.value) {
      Still(c, f, false);
    } else if f.id == 0 {
      extra := ConnStep(c, f);
    } else if f.typ == F_HEADERS {
      HeadersStep(c, f);
    } else if f.typ == F_CONTINUATION {
      ContinuationStep(c, f);
    } else if f.typ == F_DATA {
      extra := DataStep(c, f);
    } else if f.typ == F_RST_STREAM {
      RstStep(c, f);
    } else if f.typ == F_WINDOW_UPDATE {
      UpdateStep(c, f);
    } else {
      Still(c, f, ProcessFrame(c, f).0.Ok?);
    }
  }

  /** A stream reported done is the frame's own, still registered, with its whole response. */
  lemma DoneIsComplete(c: Conn, f: Frame)
    requires Sound(c) && |f.payload| <= MAX_FRAME_PAYLOAD
    ensures var (r, c1) := ProcessFrame(c, f);
            r.Ok? && r.value.Done? ==> r.value.id == f.id && f.id in c1.streams && c1.streams[f.id].Done()
  {
    var (r, c1) := ProcessFrame(c, f);
    if r.Ok? && r.value.Done? && f.id != 0 && f.typ == F_DATA {
      DataDone(c, f);
    } else if f.id == 0 {
      ConnNeverDone(c, f);
    }
  }

  lemma ConnNeverDone(c: Conn, f: Frame)
    ensures ProcessConnFrame(c, f).0.Ok? ==> ProcessConnFrame(c, f).0.value == Continue
  {
  }

  lemma DataDone(c: Conn, f: Frame)
    requires Sound(c) && f.id != 0 && f.typ == F_DATA
    ensures var (r, c1) := ProcessData(c, f);
            r.Ok? && r.value.Done? ==> r.value.id == f.id && f.id in c1.streams && c1.streams[f.id].Done()
  {
    var conn := c.connRecv.Consume(|f.payload|);
    if conn.available >= 0 && f.id in c.streams && !c.streams[f.id].state.Closed?
       && c.streams[f.id].state.RecvData(f.EndStream()).Ok? {
      var c1 := c.(connRecv := conn);
      var state := c.streams[f.id].state.RecvData(f.EndStream()).value;
      var (ok, s) := AcceptData(c.streams[f.id], f, state);
      AcceptDataStep(c.streams[f.id], f, state);
      if ok {
        var extra := GrantBackStep(c1.(streams := c1.streams[f.id := s]), f.id);
      }
    }
  }
}

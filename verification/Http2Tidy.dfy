/**
 * What the streams of a run keep besides the accounts: header fragments wait only where a CONTINUATION is expected,
 * and a stream that has ended its own side has nothing left to send.
 */
module Http2Tidy {
  import opened Common
  import opened Http2Types
  import opened Http2Engine
  import opened Http2Fragments
  import opened Http2Frames
  import opened Http2Invariants
  import opened Http2Driver
  import opened Http2Ledger
  import opened SortedIds
  import Hpack

  predicate TidyStream(s: Stream, expected: bool)
  {
    (!expected ==> s.headersBuf == []) && (s.state.HalfClosedLocal? ==> s.pendingBody.None?)
  }

  ghost predicate Tidy(c: Conn)
  {
    forall id :: id in c.streams ==> TidyStream(c.streams[id], c.expecting == Some(id))
  }

  /** Nothing that `Tidy` looks at changed, or only got better. */
  predicate Tidier(s: Stream, s1: Stream)
  {
    && s1.headersBuf == s.headersBuf && s1.pendingBody == s.pendingBody
    && (s1.state.HalfClosedLocal? ==> s.state.HalfClosedLocal?)
  }

  // ----- inbound frames -----

  lemma OneStreamTidy(c: Conn, c1: Conn, id: nat)
    requires Tidy(c) && c1.expecting == c.expecting && id in c.streams && id in c1.streams
    requires c1.streams == c.streams[id := c1.streams[id]] && Tidier(c.streams[id], c1.streams[id])
    ensures Tidy(c1)
  {
  }

  lemma {:induction false} ShiftTidy(streams: map<nat, Stream>, ids: seq<nat>, newInitial: int)
    requires Known(ids, streams)
    ensures var r := ShiftWindows(streams, ids, newInitial).1;
            r.Keys == streams.Keys && forall id :: id in streams ==> Tidier(streams[id], r[id])
    decreases |ids|
  {
    if ids != [] && streams[ids[0]].sendWindow.Reinitialize(newInitial).Ok? {
      var w := streams[ids[0]].sendWindow.Reinitialize(newInitial).value;
      var next := streams[ids[0] := streams[ids[0]].(sendWindow := w)];
      ShiftTidy(next, ids[1..], newInitial);
    }
  }

  lemma AllTidier(c: Conn, c1: Conn)
    requires Tidy(c) && c1.expecting == c.expecting && c1.streams.Keys == c.streams.Keys
    requires forall id :: id in c.streams ==> Tidier(c.streams[id], c1.streams[id])
    ensures Tidy(c1)
  {
  }

  lemma SettingsTidy(c: Conn, f: Frame)
    requires Tidy(c)
    ensures Tidy(ProcessSettings(c, f).1)
  {
    var (ok, peer) := ApplySettings(c.peer, f.payload);
    if ok {
      ShiftTidy(c.streams, Sorted(c.streams.Keys), peer.initialWindowSize);
      var (shifted, streams) := AdoptInitial(c.streams, c.peer.initialWindowSize, peer.initialWindowSize);
      AllTidier(c, c.(peer := peer, streams := streams));
      AcknowledgeTidy(c.(peer := peer, streams := streams), c.peer.headerTableSize);
    }
  }

  lemma AcknowledgeTidy(c: Conn, headerTableSize: nat)
    requires Tidy(c)
    ensures Tidy(Acknowledge(c, headerTableSize).1)
  {
  }

  lemma ConnFrameTidy(c: Conn, f: Frame)
    requires Tidy(c)
    ensures Tidy(ProcessConnFrame(c, f).1)
  {
    if f.typ == F_SETTINGS {
      SettingsTidy(c, f);
    } else if f.typ == F_GOAWAY {
      AllTidier(c, ProcessConnFrame(c, f).1);
    }
  }

  lemma HeadersTidy(c: Conn, f: Frame)
    requires Tidy(c) && c.expecting.None?
    ensures Tidy(ProcessHeaders(c, f).1)
  {
    if HeaderFragment(f).Ok? && f.id in c.streams {
      var s, frag := c.streams[f.id], HeaderFragment(f).value;
      assert TidyStream(s, false);
      if s.state.Closed? {
        OnClosedTidy(c, f, frag);
      } else if s.state.RecvHeaders(f.EndStream()).Ok? {
        OnOpenTidy(c, f, frag, s.state.RecvHeaders(f.EndStream()).value);
      }
    }
  }

  lemma OnClosedTidy(c: Conn, f: Frame, frag: seq<Byte>)
    requires Tidy(c) && c.expecting.None? && f.id in c.streams && c.streams[f.id].state.Closed?
    ensures Tidy(HeadersOnClosed(c, f, frag).1)
  {
  }

  lemma OnOpenTidy(c: Conn, f: Frame, frag: seq<Byte>, state: StreamState)
    requires Tidy(c) && c.expecting.None? && f.id in c.streams
             && (state.HalfClosedLocal? ==> c.streams[f.id].state.HalfClosedLocal?)
    ensures Tidy(HeadersOnOpen(c, f, frag, state).1)
  {
    var c1 := HeadersOnOpen(c, f, frag, state).1;
    assert TidyStream(c.streams[f.id], false);
    if c1 != c {
      AwaitedTidy(c, c1, f.id);
    }
  }

  /** Between blocks only the stream of the next one may come to be waited for. */
  lemma AwaitedTidy(c: Conn, c1: Conn, id: nat)
    requires Tidy(c) && c.expecting.None? && (c1.expecting.None? || c1.expecting == Some(id)) && id in c1.streams
    requires c1.streams == c.streams[id := c1.streams[id]] && TidyStream(c1.streams[id], c1.expecting == Some(id))
    ensures Tidy(c1)
  {
  }

  lemma ContinuationTidy(c: Conn, f: Frame)
    requires Tidy(c)
    ensures Tidy(ProcessContinuation(c, f).1)
  {
  }

  lemma AcceptTidier(s: Stream, f: Frame, state: StreamState)
    requires state.HalfClosedLocal? ==> s.state.HalfClosedLocal?
    ensures Tidier(s, AcceptData(s, f, state).1)
  {
  }

  lemma GrantTidy(c: Conn, id: nat)
    requires Tidy(c) && id in c.streams
    ensures Tidy(GrantBack(c, id).1)
  {
    var (conn, inc0) := c.connRecv.Replenish();
    var (ok, c1) := WriteAll(c.(connRecv := conn), UpdateFrames(0, inc0));
    if ok {
      OneStreamTidy(c1, GrantStream(c1, id).1, id);
    }
  }

  lemma DataTidy(c: Conn, f: Frame)
    requires Tidy(c)
    ensures Tidy(ProcessData(c, f).1)
  {
    var c0 := c.(connRecv := c.connRecv.Consume(|f.payload|));
    if c0.connRecv.available >= 0 && f.id in c.streams && !c.streams[f.id].state.Closed?
       && c.streams[f.id].state.RecvData(f.EndStream()).Ok? {
      var state := c.streams[f.id].state.RecvData(f.EndStream()).value;
      var (ok, s) := AcceptData(c.streams[f.id], f, state);
      AcceptTidier(c.streams[f.id], f, state);
      var c1 := c0.(streams := c.streams[f.id := s]);
      OneStreamTidy(c0, c1, f.id);
      GrantTidy(c1, f.id);
    }
  }

  lemma UpdateTidy(c: Conn, f: Frame)
    requires Tidy(c)
    ensures Tidy(ProcessStreamUpdate(c, f).1)
  {
    var c1 := ProcessStreamUpdate(c, f).1;
    if c1 != c {
      OneStreamTidy(c, c1, f.id);
    }
  }

  lemma RstTidy(c: Conn, f: Frame)
    requires Tidy(c)
    ensures Tidy(ProcessRst(c, f).1)
  {
    var c1 := ProcessRst(c, f).1;
    if c1 != c {
      OneStreamTidy(c, c1, f.id);
    }
  }

  lemma DispatchTidy(c: Conn, f: Frame)
    requires Tidy(c)
    ensures Tidy(ProcessFrame(c, f).1)
  {
    if c.expecting.None? || (f.typ == F_CONTINUATION && f.id == c.expecting.value) {
      if f.id == 0 {
        ConnFrameTidy(c, f);
      } else if f.typ == F_HEADERS {
        HeadersTidy(c, f);
      } else if f.typ == F_CONTINUATION {
        ContinuationTidy(c, f);
      } else if f.typ == F_DATA {
        DataTidy(c, f);
      } else if f.typ == F_RST_STREAM {
        RstTidy(c, f);
      } else if f.typ == F_WINDOW_UPDATE {
        UpdateTidy(c, f);
      }
    }
  }

  lemma ReadTidy(c: Conn)
    requires Tidy(c)
    ensures Tidy(ReadAndDispatch(c).1)
  {
    if c.inbound != [] {
      DispatchTidy(c.(inbound := c.inbound[1..], accepted := c.accepted + [c.inbound[0]]), c.inbound[0]);
    }
  }

  // ----- starting and pumping -----

  lemma StartTidy(c: Conn, req: Request)
    requires Tidy(c) && |c.tables.huffman| == 257 && c.peer.maxFrameSize > 0
    ensures Tidy(StartRequest(c, req).1)
  {
    if OpenStream(c).Ok? {
      var (id, c1) := OpenStream(c).value;
      OthersTidy(c, c1, id);
      var (ok, c2) := StageRequest(c1, id, req);
      if ok {
        OthersTidy(c, c2, id);
      } else {
        OthersTidy(c, c2.(streams := c2.streams - {id}), id);
      }
    }
  }

  lemma OthersTidy(c: Conn, c1: Conn, id: nat)
    requires Tidy(c) && c1.expecting == c.expecting
    requires forall x :: x in c1.streams && x != id ==> x in c.streams && c1.streams[x] == c.streams[x]
    requires id in c1.streams ==> TidyStream(c1.streams[id], false)
    ensures Tidy(c1)
  {
  }

  lemma ChunkTidy(c: Conn, id: nat, n: nat, pb: PendingBody)
    requires Tidy(c) && id in c.streams && c.streams[id].pendingBody == Some(pb) && pb.sent + n <= |pb.bytes|
    ensures Tidy(SendChunk(c, id, n).1)
  {
    assert TidyStream(c.streams[id], c.expecting == Some(id));
  }

  lemma {:induction false} PumpStreamTidy(c: Conn, id: nat, max: nat)
    requires Tidy(c)
    ensures Tidy(PumpStream(c, id, max).1)
    decreases Left(PendingOf(c, id))
  {
    if PendingOf(c, id).Some? && Left(PendingOf(c, id)) > 0 {
      var n := FlowControl.NextDataChunkSize(max, SendBudget(c, c.streams[id]), Left(PendingOf(c, id)));
      PumpUnfolds(c, id, max, n);
      ChunkTidy(c, id, n, PendingOf(c, id).value);
      var (ok, c') := SendChunk(c, id, n);
      if n > 0 && ok && n < Left(PendingOf(c, id)) {
        PumpStreamTidy(c', id, max);
      }
    }
  }

  lemma {:induction false} PumpTidy(c: Conn, ids: seq<nat>, max: nat)
    requires Tidy(c)
    ensures Tidy(PumpStreams(c, ids, max).1)
    decreases |ids|
  {
    if ids != [] {
      PumpStreamTidy(c, ids[0], max);
      var (ok, c') := PumpStream(c, ids[0], max);
      if ok {
        PumpTidy(c', ids[1..], max);
      }
    }
  }

  lemma FlushTidy(c: Conn)
    requires Tidy(c)
    ensures Tidy(FlushPending(c).1)
  {
    PumpTidy(c, Sorted(PendingIds(c)), c.peer.maxFrameSize);
  }

  // ----- runs -----

  /** Whatever the driver does with a connection keeps its streams tidy. */
  lemma OperationTidy(c: Conn, c1: Conn, reqs: seq<Request>)
    requires Tidy(c) && Operation(c, c1, reqs)
    ensures Tidy(c1)
  {
    if c1 == ReadAndDispatch(c).1 {
      ReadTidy(c);
    } else if c1 == FlushPending(c).1 {
      FlushTidy(c);
    } else if Starts(c, c1, reqs) {
      var i :| 0 <= i < |reqs| && c1 == StartRequest(c, reqs[i]).1;
      StartTidy(c, reqs[i]);
    }
  }

  /** So every state a connection goes through is tidy if the first one is. */
  lemma {:induction false} LifeTidy(path: seq<Conn>, reqs: seq<Request>, k: nat)
    requires Life(path, reqs) && Tidy(path[0]) && k < |path|
    ensures Tidy(path[k])
    decreases k
  {
    if k > 0 {
      LifeTidy(path, reqs, k - 1);
      OperationTidy(path[k - 1], path[k], reqs);
    }
  }

  /** A turn of the driver keeps its streams tidy. */
  lemma TurnTidy(m: Mux, reqs: seq<Request>)
    requires Good(m, reqs) && Tidy(m.conn)
    ensures Tidy(Turn(m, reqs).1.conn)
  {
    var path := TurnPays(m, reqs);
    LifeTidy(path, reqs, |path| - 1);
  }

  /** On an idle connection every state of the run is tidy, and so is the one it leaves for the next run. */
  lemma RunTidy(c: Conn, reqs: seq<Request>) returns (path: seq<Conn>)
    requires Inv(c) && c.streams == map[]
    ensures Leads(path, c, Run(c, reqs).conn, reqs) && forall k :: 0 <= k < |path| ==> Tidy(path[k])
  {
    path := RunPays(c, reqs);
    forall k | 0 <= k < |path|
      ensures Tidy(path[k])
    {
      LifeTidy(path, reqs, k);
    }
  }

  /** Between blocks every stream of a tidy connection can take a new one. */
  lemma TidyIsReady(c: Conn, id: nat, block: seq<Byte>)
    requires Sound(c) && Tidy(c) && c.expecting.None? && id in c.streams && |block| <= MAX_HEADERS_BUF
    ensures Ready(c, id, block)
  {
    assert TidyStream(c.streams[id], false);
    assert SoundStream(c.streams[id], id);
  }
}

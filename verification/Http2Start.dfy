/** Opening and staging requests: fresh odd ids within the limits, header frames only, nothing of the body yet. */
module Http2Start {
  import opened Common
  import opened Http2Types
  import opened Http2Engine
  import opened Http2Frames
  import opened Http2Invariants
  import opened Http2Logs
  import Hpack

  // ----- header frames -----

  /** One HEADERS frame that ends the stream exactly when asked to, then only CONTINUATIONs, all for one stream. */
  ghost predicate HeaderFrames(fs: seq<Frame>, id: nat, endStream: bool)
  {
    && |fs| > 0 && fs[0].typ == F_HEADERS && (fs[0].EndStream() <==> endStream)
    && (forall i :: 0 <= i < |fs| ==> fs[i].id == id)
    && (forall i :: 0 < i < |fs| ==> fs[i].typ == F_CONTINUATION)
  }

  lemma {:induction false} ContinuationsShape(id: nat, block: seq<Byte>, max: nat)
    requires max > 0
    ensures forall i :: 0 <= i < |Continuations(id, block, max)| ==>
              Continuations(id, block, max)[i].id == id && Continuations(id, block, max)[i].typ == F_CONTINUATION
    decreases |block|
  {
    if |block| > max {
      ContinuationsShape(id, block[max..], max);
    }
  }

  lemma FragmentShape(id: nat, block: seq<Byte>, max: nat, endStream: bool)
    requires max > 0
    ensures HeaderFrames(FragmentHeaderBlock(id, block, max, endStream), id, endStream)
  {
    if |block| > max {
      ContinuationsShape(id, block[max..], max);
    }
  }

  lemma OneMore(out: seq<Frame>, fs: seq<Frame>, m: nat)
    requires m < |fs|
    ensures out + [fs[0]] + fs[1..][..m] == out + fs[..m + 1]
  {
    assert fs[..m + 1] == [fs[0]] + fs[1..][..m];
  }

  lemma {:induction false} WriteAllPrefix(c: Conn, fs: seq<Frame>) returns (n: nat)
    ensures var (ok, c1) := WriteAll(c, fs);
            && n <= |fs| && c1 == c.(out := c.out + fs[..n], budget := c1.budget, dead := c1.dead)
            && c1.budget <= c.budget && (c.dead ==> c1.dead) && (c1.dead ==> c.dead || c1.budget == 0)
            && (ok ==> n == |fs| && c1.dead == c.dead) && (!ok ==> n < |fs|)
    decreases |fs|
  {
    n := 0;
    assert c.out + fs[..0] == c.out;
    if fs != [] {
      var (ok, c1) := Write(c, fs[0]);
      if ok {
        var m := WriteAllPrefix(c1, fs[1..]);
        n := m + 1;
        OneMore(c.out, fs, m);
      }
    }
  }

  /** Header frames carry no DATA, and end only their own stream. */
  lemma HeaderFramesInLog(out: seq<Frame>, fs: seq<Frame>, n: nat, id: nat, endStream: bool, x: nat)
    requires HeaderFrames(fs, id, endStream) && n <= |fs|
    ensures DataOf(out + fs[..n], x) == DataOf(out, x) && DataTotal(out + fs[..n]) == DataTotal(out)
    ensures NothingAfterEnd(out + fs[..n], x) == NothingAfterEnd(out, x)
    ensures Ended(out + fs[..n], x) <==> Ended(out, x) || (x == id && endStream && n > 0)
  {
    if n == 0 {
      assert out + fs[..0] == out;
    } else {
      assert out + fs[..n] == out + [fs[0]] + fs[1..n];
      assert forall f :: f in fs[1..n] ==> Control(f);
      ControlFrames(out + [fs[0]], fs[1..n], x);
      HeadersFrame(out, fs[0]);
      if x != id {
        OtherFrame(out, fs[0], x);
      }
    }
  }

  // ----- opening -----

  /** What may be opened: below the peer's limit, the id space and any GOAWAY. */
  predicate MayOpen(c: Conn)
  {
    |c.streams| < c.peer.maxConcurrentStreams && c.nextId < 0x8000_0000
      && (c.goaway.Some? ==> c.nextId <= c.goaway.value)
  }

  lemma OpenedStream(c: Conn)
    requires Inv(c)
    ensures OpenStream(c).Ok? <==> MayOpen(c)
    ensures OpenStream(c).Ok? ==> var (id, c1) := OpenStream(c).value;
              && id == c.nextId && id % 2 == 1 && id < 0x8000_0000 && (c.goaway.Some? ==> id <= c.goaway.value)
              && id !in c.streams && id !in c.staged && c1.nextId == id + 2
  {
  }

  // ----- staging -----

  /** The connection once the request's header frames, or `n` of them, are on the wire. */
  ghost predicate HeadersOut(c: Conn, c1: Conn, id: nat, fs: seq<Frame>, n: nat)
  {
    && n <= |fs| && id == c.nextId
    && c1 == c.(nextId := id + 2, encoder := c1.encoder, out := c.out + fs[..n], budget := c1.budget, dead := c1.dead,
                streams := c1.streams, born := c.born[id := |c.accepted|], staged := c1.staged)
    && c1.budget <= c.budget && (c.dead ==> c1.dead) && (c1.dead ==> c.dead || c1.budget == 0)
  }

  lemma HeadersKeepBodies(out: seq<Frame>, from: nat, staged: map<nat, Request>, staged1: map<nat, Request>,
                          fs: seq<Frame>, n: nat, endStream: bool)
    requires n <= |fs| && HeaderFrames(fs, from, endStream) && Untouched(out, from)
    requires (forall x :: x in staged ==> x < from && BodySent(out, x, staged[x].body))
    requires staged1 == staged
             || (from in staged1 && staged1 == staged[from := staged1[from]] && n > 0
                 && (endStream <==> staged1[from].body == []))
    ensures forall x :: x in staged1 ==> BodySent(out + fs[..n], x, staged1[x].body)
  {
    NothingYet(out, from, from);
    forall x | x in staged1
      ensures BodySent(out + fs[..n], x, staged1[x].body)
    {
      HeaderFramesInLog(out, fs, n, from, endStream, x);
    }
  }

  lemma HeadersKeepIds(c: Conn, c1: Conn, id: nat, fs: seq<Frame>, n: nat, endStream: bool)
    requires Ids(c) && HeadersOut(c, c1, id, fs, n) && id < 0x8000_0000 && HeaderFrames(fs, id, endStream)
    requires forall x :: x in c1.streams ==> x in c1.staged && (x in c.streams || x == id)
    requires forall x :: x in c1.staged ==> x in c.staged || x == id
    ensures Ids(c1)
  {
    assert forall f :: f in fs[..n] ==> f.id == id;
  }

  lemma HeadersKeepLogs(c: Conn, c1: Conn, id: nat, fs: seq<Frame>, n: nat, endStream: bool)
    requires Logged(c) && HeadersOut(c, c1, id, fs, n) && id < 0x8000_0000 && HeaderFrames(fs, id, endStream)
    requires forall x :: x in c1.streams ==>
             x in c1.staged && (x in c.streams || x == id) && SoundStream(c1.streams[x], x)
    requires c1.staged == c.staged
             || (id in c1.staged && c1.staged == c.staged[id := c1.staged[id]] && n > 0
                 && (endStream <==> c1.staged[id].body == []))
    ensures Logged(c1)
  {
    HeadersKeepIds(c, c1, id, fs, n, endStream);
    HeaderFramesInLog(c.out, fs, n, id, endStream, id);
    HeadersKeepBodies(c.out, id, c.staged, c1.staged, fs, n, endStream);
  }

  lemma HeadersKeepAccount(c: Conn, c1: Conn, id: nat, fs: seq<Frame>, n: nat, endStream: bool, x: nat)
    requires Logged(c) && Ids(c1) && HeadersOut(c, c1, id, fs, n) && HeaderFrames(fs, id, endStream)
    requires x in c.streams && x in c1.streams && c1.streams[x] == c.streams[x] && c1.staged[x] == c.staged[x]
    requires Accounted(c, x)
    ensures Accounted(c1, x)
  {
    HeaderFramesInLog(c.out, fs, n, id, endStream, x);
    assert c1.born[x] == c.born[x];
  }

  /** The account of a stream that was just staged. */
  lemma NewAccount(c: Conn, c1: Conn, id: nat, fs: seq<Frame>, n: nat, body: seq<Byte>)
    requires Logged(c) && Ids(c1) && HeadersOut(c, c1, id, fs, n) && HeaderFrames(fs, id, body == [])
    requires id in c1.streams && id in c1.staged && c1.staged[id].body == body
    requires c1.streams[id] == StagedStream(NewStream(id, c.peer.initialWindowSize), body)
    ensures Accounted(c1, id)
  {
    NothingYet(c.out, c.nextId, id);
    HeaderFramesInLog(c.out, fs, n, id, body == [], id);
    assert c1.accepted[c1.born[id]..] == [];
    assert body[..0] == [];
  }

  /** What a start does besides keeping the invariant. */
  ghost predicate Started(c: Conn, c1: Conn, id: nat, req: Request)
  {
    && id == c.nextId && id % 2 == 1 && id < 0x8000_0000 && (c.goaway.Some? ==> id <= c.goaway.value)
    && id in c1.streams && c1.streams == c.streams[id := c1.streams[id]] && id !in c.streams
    && c1.born == c.born[id := |c.accepted|] && c1.staged == c.staged[id := req]
  }

  function StagedStream(s: Stream, body: seq<Byte>): Stream
  {
    s.(state := if body == [] then HalfClosedLocal else Open,
       pendingBody := if body == [] then s.pendingBody else Some(PendingBody(body, 0)))
  }

  lemma StageStep(c: Conn, id: nat, req: Request) returns (fs: seq<Frame>, n: nat)
    requires |c.tables.huffman| == 257 && c.peer.maxFrameSize > 0 && id in c.streams && c.streams[id].state.Idle?
    ensures HeaderFrames(fs, id, req.body == []) && n <= |fs|
    ensures var (ok, c1) := StageRequest(c, id, req);
            && c1 == c.(encoder := c1.encoder, out := c.out + fs[..n], budget := c1.budget, dead := c1.dead,
                        streams := if ok then c.streams[id := StagedStream(c.streams[id], req.body)] else c.streams,
                        staged := if ok then c.staged[id := req] else c.staged)
            && c1.budget <= c.budget && (c.dead ==> c1.dead) && (c1.dead ==> c.dead || c1.budget == 0)
            && (ok ==> n == |fs| && c1.dead == c.dead)
  {
    var (block, encoder) := Hpack.EncodeBlock(c.tables, c.encoder, req.fields);
    fs := FragmentHeaderBlock(id, block, c.peer.maxFrameSize, req.body == []);
    FragmentShape(id, block, c.peer.maxFrameSize, req.body == []);
    n := WriteAllPrefix(c.(encoder := encoder), fs);
  }

  lemma StageOutcome(c: Conn, req: Request) returns (fs: seq<Frame>, n: nat)
    requires Inv(c) && MayOpen(c)
    ensures HeaderFrames(fs, c.nextId, req.body == [])
    ensures var (got, c1) := StartRequest(c, req);
            && HeadersOut(c, c1, c.nextId, fs, n)
            && (got.None? ==> c1.streams == c.streams && c1.staged == c.staged)
            && (got.Some? ==>
                  && n == |fs| && got.value == c.nextId && Started(c, c1, c.nextId, req) && c1.dead == c.dead
                  && c1.streams[c.nextId] == StagedStream(NewStream(c.nextId, c.peer.initialWindowSize), req.body))
  {
    var id := c.nextId;
    var c0 := OpenStream(c).value.1;
    fs, n := StageStep(c0, id, req);
    var s := NewStream(id, c.peer.initialWindowSize);
    MapUpdates(c.streams, id, s, StagedStream(s, req.body));
  }

  lemma MapUpdates(m: map<nat, Stream>, id: nat, s: Stream, s1: Stream)
    requires id !in m
    ensures m[id := s] - {id} == m && m[id := s][id := s1] == m[id := s1]
  {
  }

  lemma StartKeepsAccounts(c: Conn, c1: Conn, fs: seq<Frame>, n: nat, req: Request, started: bool)
    requires Logged(c) && StreamsAccounted(c) && Ids(c1) && HeadersOut(c, c1, c.nextId, fs, n)
             && HeaderFrames(fs, c.nextId, req.body == [])
    requires started ==>
             Started(c, c1, c.nextId, req)
               && c1.streams[c.nextId] == StagedStream(NewStream(c.nextId, c.peer.initialWindowSize), req.body)
    requires !started ==> c1.streams == c.streams && c1.staged == c.staged
    ensures StreamsAccounted(c1)
  {
    forall x | x in c1.streams
      ensures Accounted(c1, x)
    {
      if x == c.nextId {
        NewAccount(c, c1, x, fs, n, req.body);
      } else {
        HeadersKeepAccount(c, c1, c.nextId, fs, n, req.body == [], x);
      }
    }
  }

  /** The invariant, from what staging did. */
  lemma StagedKeepsInv(c: Conn, c1: Conn, fs: seq<Frame>, n: nat, req: Request, started: bool)
    requires Inv(c) && c.nextId < 0x8000_0000 && HeadersOut(c, c1, c.nextId, fs, n)
             && HeaderFrames(fs, c.nextId, req.body == [])
    requires started ==> n == |fs| && Started(c, c1, c.nextId, req)
                         && c1.streams[c.nextId]
                            == StagedStream(NewStream(c.nextId, c.peer.initialWindowSize), req.body)
    requires !started ==> c1.streams == c.streams && c1.staged == c.staged
    ensures Inv(c1)
  {
    HeadersKeepLogs(c, c1, c.nextId, fs, n, req.body == []);
    if !c1.dead {
      StartKeepsAccounts(c, c1, fs, n, req, started);
    }
  }

  /** Starting a request keeps the invariant; either it opened the next id, or no stream was added. */
  lemma StartKeepsInv(c: Conn, req: Request)
    requires Inv(c)
    ensures var (got, c1) := StartRequest(c, req);
            && Inv(c1) && c1.nextId >= c.nextId && c1.accepted == c.accepted && c1.inbound == c.inbound
            && c1.goaway == c.goaway
            && c1.peer == c.peer
            && (got.Some? ==> Started(c, c1, got.value, req))
            && (got.None? ==> c1.streams == c.streams && c1.staged == c.staged)
            && (forall x :: x in c.born && x < c.nextId ==> x in c1.born && c1.born[x] == c.born[x])
  {
    OpenedStream(c);
    if MayOpen(c) {
      var (got, c1) := StartRequest(c, req);
      var fs, n := StageOutcome(c, req);
      StagedKeepsInv(c, c1, fs, n, req, got.Some?);
    }
  }
}

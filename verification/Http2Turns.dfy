/**
 * Whole turns of the driver: a reset fails one request alone, a response that ends without headers leaves a culprit
 * behind, and undecodable trailers leave a complete response in flight.
 */
module Http2Turns {
  import opened Common
  import opened Http2Types
  import opened Http2Engine
  import opened Http2Frames
  import opened Http2Fragments
  import opened Http2Invariants
  import opened Http2Isolation
  import opened Http2Pump
  import opened Http2Driver
  import opened SortedIds
  import Hpack

  // ----- what flushing leaves alone -----

  /** Pumping leaves a stream without a pending body as it is. */
  lemma PumpLeaves(c: Conn, id: nat)
    requires Inv(c) && !c.dead && id in c.streams && c.streams[id].pendingBody.None?
    ensures id in Pump(c).1.streams && Pump(c).1.streams[id] == c.streams[id]
  {
    var ids := Sorted(PendingIds(c));
    assert forall i :: 0 <= i < |ids| ==> ids[i] in ids;
    assert id !in ids;
    PumpStreamsStep(c, ids, c.peer.maxFrameSize);
  }

  lemma FlushLeaves(c: Conn, id: nat)
    requires Inv(c) && !c.dead && id in c.streams && c.streams[id].pendingBody.None?
    ensures id in FlushPending(c).1.streams && FlushPending(c).1.streams[id] == c.streams[id]
  {
    PumpLeaves(c, id);
  }

  /** Flushing leaves every response as it is. */
  lemma FlushKeepsResponses(c: Conn, id: nat)
    requires Inv(c) && !c.dead && id in c.streams
    ensures id in FlushPending(c).1.streams && (FlushPending(c).1.streams[id].Complete() <==> c.streams[id].Complete())
  {
    FlushPendingStep(c);
  }

  /** An advance that goes on changes only the connection, and no response. */
  lemma AdvanceLeaves(m: Mux, id: nat)
    requires Inv(m.conn) && id in m.conn.streams && Advance(m).0
    ensures var r := Advance(m).1;
            && r == m.(conn := r.conn) && id in r.conn.streams
            && (r.conn.streams[id].Complete() <==> m.conn.streams[id].Complete())
            && (m.conn.streams[id].pendingBody.None? ==> r.conn.streams[id] == m.conn.streams[id])
  {
    if m.conn.dead {
      DeadFlushPending(m.conn);
    } else {
      FlushKeepsResponses(m.conn, id);
      if m.conn.streams[id].pendingBody.None? {
        FlushLeaves(m.conn, id);
      }
    }
  }

  /** Nothing is started when nothing is queued. */
  lemma NothingToStart(m: Mux, reqs: seq<Request>)
    requires Runnable(m, reqs) && m.queue == []
    ensures StartQueued(m, reqs) == m
  {
  }

  // ----- failing the culprit -----

  /** A stream that was not failed is in flight as before, its slot open, after its turn failed another. */
  ghost predicate Spared(m: Mux, r: Mux, id: nat)
  {
    && id in m.idToIdx && id in r.idToIdx && r.idToIdx[id] == m.idToIdx[id] && m.idToIdx[id] < |r.results|
    && r.results[m.idToIdx[id]].Unresolved? && id in m.conn.streams && id in r.conn.streams
    && (r.conn.streams[id].Complete() <==> m.conn.streams[id].Complete())
  }

  ghost predicate FailedIn(m: Mux, r: Mux, id: nat)
  {
    id in m.idToIdx && m.idToIdx[id] < |r.results| && r.results[m.idToIdx[id]] == Failed
  }

  lemma FailOneSpares(m: Mux, reqs: seq<Request>, x: nat, id: nat)
    requires Kept(m, reqs) && x in m.idToIdx && id in m.idToIdx && id != x
    ensures Spared(m, FailStreams(m, {x}), id)
  {
    FailingOneIsLocal(m, reqs, x, id);
  }

  lemma StartingSpares(m: Mux, reqs: seq<Request>, id: nat)
    requires Kept(m, reqs) && id in m.idToIdx
    ensures Inv(StartQueued(m, reqs).conn) && Spared(m, StartQueued(m, reqs), id)
  {
    StartQueuedKeeps(m, reqs);
  }

  lemma AdvancingSpares(m: Mux, m1: Mux, id: nat)
    requires Inv(m1.conn) && Spared(m, m1, id) && Advance(m1).0
    ensures Spared(m, Advance(m1).1, id)
  {
    AdvanceLeaves(m1, id);
  }

  lemma SparedTwice(a: Mux, b: Mux, c: Mux, id: nat)
    requires Spared(a, b, id) && Spared(b, c, id)
    ensures Spared(a, c, id)
  {
  }

  lemma StartThenAdvanceSpares(m: Mux, reqs: seq<Request>, id: nat)
    requires Kept(m, reqs) && id in m.idToIdx
    ensures Advance(StartQueued(m, reqs)).0 ==> Spared(m, Advance(StartQueued(m, reqs)).1, id)
  {
    StartingSpares(m, reqs, id);
    var m1 := StartQueued(m, reqs);
    if Advance(m1).0 {
      AdvancingSpares(m, m1, id);
    }
  }

  lemma StaysFailed(m: Mux, reqs: seq<Request>, i: nat)
    requires Kept(m, reqs) && i < |m.results| && m.results[i] == Failed
    ensures var r := Advance(StartQueued(m, reqs)).1;
            i < |r.results| && r.results[i] == Failed
  {
    StartThenAdvanceKeeps(m, reqs);
  }

  /** What an error charged to `x` comes to. */
  lemma ChargedTo(m: Mux, reqs: seq<Request>, x: nat)
    requires Kept(m, reqs) && Culprits(m) == {x}
    ensures var m1 := FailStreams(m, {x});
            && x in m.idToIdx && m.idToIdx[x] < |m1.results| && m1.results[m.idToIdx[x]] == Failed
            && Kept(m1, reqs) && AfterError(m, reqs) == Advance(StartQueued(m1, reqs))
  {
    assert x in Culprits(m);
    FailStreamsKeeps(m, reqs, {x});
  }

  /** An error charged to `x` fails its request, and no other that is in flight, whatever is started afterwards. */
  lemma ChargedAlone(m: Mux, reqs: seq<Request>, x: nat, id: nat)
    requires Kept(m, reqs) && Culprits(m) == {x} && AfterError(m, reqs).0 && id in m.idToIdx
    ensures if id == x then FailedIn(m, AfterError(m, reqs).1, id) else Spared(m, AfterError(m, reqs).1, id)
  {
    var m1 := FailStreams(m, {x});
    ChargedTo(m, reqs, x);
    if id == x {
      StaysFailed(m1, reqs, m.idToIdx[id]);
    } else {
      FailOneSpares(m, reqs, x, id);
      StartThenAdvanceSpares(m1, reqs, id);
      SparedTwice(m, m1, AfterError(m, reqs).1, id);
    }
  }

  /** With an empty queue the slot of the culprit is all that changes. */
  lemma ChargedExactly(m: Mux, reqs: seq<Request>, x: nat)
    requires Kept(m, reqs) && Culprits(m) == {x} && AfterError(m, reqs).0 && m.queue == []
    ensures AfterError(m, reqs).1.results == m.results[m.idToIdx[x] := Failed]
  {
    ChargedTo(m, reqs, x);
    NothingToStart(FailStreams(m, {x}), reqs);
    FailedSlotOnly(m, reqs, x);
  }

  // ----- a reset -----

  /** The next frame resets a stream in flight. */
  ghost predicate ResetNext(m: Mux, id: nat)
  {
    && m.conn.inbound != [] && m.conn.inbound[0].typ == F_RST_STREAM && m.conn.inbound[0].id == id
    && m.conn.expecting.None? && id in m.idToIdx && id in m.conn.streams && !m.conn.streams[id].state.Closed?
  }

  lemma ResetRead(m: Mux, reqs: seq<Request>, id: nat)
    requires Good(m, reqs) && ResetNext(m, id)
    ensures var (r, c) := ReadAndDispatch(m.conn);
            r.Err? && c == m.conn.(inbound := m.conn.inbound[1..],
                                   streams := m.conn.streams[id := m.conn.streams[id].(state := Closed)])
  {
    assert Accounted(m.conn, id);
  }

  /** The connection the driver has when the reset's error comes back. */
  ghost function AfterReset(m: Mux, reqs: seq<Request>, id: nat): (r: Mux)
    requires Good(m, reqs) && ResetNext(m, id)
    ensures Kept(r, reqs)
  {
    ReadKeeps(m, reqs);
    m.(conn := ReadAndDispatch(m.conn).1)
  }

  lemma ResetTurnIs(m: Mux, reqs: seq<Request>, id: nat)
    requires Good(m, reqs) && ResetNext(m, id)
    ensures var m1 := AfterReset(m, reqs, id);
            && Turn(m, reqs) == AfterError(m1, reqs) && m1.results == m.results && m1.idToIdx == m.idToIdx
            && m1.queue == m.queue
            && m1.conn.streams == m.conn.streams[id := m.conn.streams[id].(state := Closed)]
            && (Culprits(m1) == {id} <==> OwnAlone(m, id))
  {
    TurnIsOneFrame(m, reqs);
    ResetRead(m, reqs, id);
    ResetCulprits(m, id, AfterReset(m, reqs, id));
  }

  /** No complete response, and no other stream in flight closed without one. */
  ghost predicate OwnAlone(m: Mux, id: nat)
    requires id in m.conn.streams
  {
    !m.conn.streams[id].Complete() && !OtherCulprit(m, id)
  }

  lemma SparedAcross(m: Mux, m1: Mux, r: Mux, id: nat, other: nat)
    requires m1.results == m.results && m1.idToIdx == m.idToIdx && id in m.conn.streams && other != id
             && Spared(m1, r, other)
    requires m1.conn.streams == m.conn.streams[id := m.conn.streams[id].(state := Closed)]
    ensures Spared(m, r, other)
  {
  }

  /**
   * A turn that reads a reset and goes on fails that request if and only if the stream had no complete response and no
   * other stream in flight is already closed without one. It then fails no other request in flight.
   */
  lemma ResetTurn(m: Mux, reqs: seq<Request>, id: nat, other: nat)
    requires Good(m, reqs) && ResetNext(m, id) && Turn(m, reqs).0
    ensures var r := Turn(m, reqs).1;
            && (FailedIn(m, r, id) <==> OwnAlone(m, id))
            && (OwnAlone(m, id) && other in m.idToIdx && other != id ==> Spared(m, r, other))
            && (OwnAlone(m, id) && m.queue == [] ==> r.results == m.results[m.idToIdx[id] := Failed])
  {
    ResetTurnIs(m, reqs, id);
    var m1 := AfterReset(m, reqs, id);
    if OwnAlone(m, id) {
      ChargedAlone(m1, reqs, id, id);
      if other in m.idToIdx && other != id {
        ChargedAlone(m1, reqs, id, other);
        SparedAcross(m, m1, Turn(m, reqs).1, id, other);
      }
      if m.queue == [] {
        ChargedExactly(m1, reqs, id);
      }
    } else {
      var x := OnlyCulprit(m1, reqs);
      ChargedAlone(m1, reqs, x, id);
    }
  }

  lemma OnlyCulprit(m: Mux, reqs: seq<Request>) returns (x: nat)
    requires Kept(m, reqs) && AfterError(m, reqs).0
    ensures Culprits(m) == {x} && x in m.idToIdx
  {
    x := Only(Culprits(m));
    assert x in Culprits(m);
  }

  lemma Only(s: set<nat>) returns (x: nat)
    requires |s| == 1
    ensures s == {x}
  {
    x :| x in s;
    assert |s - {x}| == 0;
  }

  // ----- how another culprit comes about -----

  /** The next frame is DATA that ends the response of a stream whose request is sent, and no headers ever came. */
  ghost predicate HeaderlessEndNext(m: Mux, x: nat)
  {
    && m.conn.inbound != [] && m.conn.inbound[0].typ == F_DATA && m.conn.inbound[0].EndStream()
    && m.conn.inbound[0].id == x
    && x in m.idToIdx && x in m.conn.streams && m.conn.streams[x].state.HalfClosedLocal?
    && m.conn.streams[x].responseHeaders.None? && m.conn.streams[x].pendingBody.None?
    && (m.conn.goaway.Some? ==> x <= m.conn.goaway.value)
  }

  lemma HeaderlessEnd(c: Conn, f: Frame)
    requires Sound(c) && f.id != 0 && f.typ == F_DATA && f.EndStream() && f.id in c.streams
    requires c.streams[f.id].state.HalfClosedLocal? && c.streams[f.id].responseHeaders.None? && ProcessData(c, f).0.Ok?
    ensures var (r, c1) := ProcessData(c, f);
            r == Ok(Continue) && f.id in c1.streams && c1.streams[f.id].state.Closed?
              && c1.streams[f.id].responseHeaders.None?
            && c1.streams[f.id].pendingBody == c.streams[f.id].pendingBody
  {
    var c0 := c.(connRecv := c.connRecv.Consume(|f.payload|));
    var (ok, s) := AcceptData(c.streams[f.id], f, Closed);
    AcceptDataStep(c.streams[f.id], f, Closed);
    var extra := GrantBackStep(c0.(streams := c0.streams[f.id := s]), f.id);
  }

  /**
   * The stream that will be the culprit: closed, without headers, with nothing left to send, and not given up by a
   * GOAWAY.
   */
  ghost predicate Stranded(c: Conn, x: nat)
  {
    && x in c.streams && c.streams[x].state.Closed? && c.streams[x].responseHeaders.None?
    && c.streams[x].pendingBody.None?
    && (c.goaway.Some? ==> x <= c.goaway.value)
  }

  lemma HeaderlessEndRead(m: Mux, x: nat)
    requires Inv(m.conn) && HeaderlessEndNext(m, x) && x != 0 && ReadAndDispatch(m.conn).0.Ok?
    ensures ReadAndDispatch(m.conn).0 == Ok(Continue) && Stranded(ReadAndDispatch(m.conn).1, x)
  {
    TakingInputKeepsInv(m.conn);
    var f := m.conn.inbound[0];
    var c0 := m.conn.(inbound := m.conn.inbound[1..], accepted := m.conn.accepted + [f]);
    HeaderlessEnd(c0, f);
    GoAwayStands(c0, f);
  }

  /**
   * It is accepted, and leaves its stream in flight, closed and without a complete response: the next error is
   * charged to it.
   */
  lemma HeaderlessEndLeavesCulprit(m: Mux, reqs: seq<Request>, x: nat)
    requires Good(m, reqs) && HeaderlessEndNext(m, x) && ReadAndDispatch(m.conn).0.Ok? && Turn(m, reqs).0
    ensures x in Culprits(Turn(m, reqs).1)
  {
    TurnIsOneFrame(m, reqs);
    NotZero(m, reqs, x);
    HeaderlessEndRead(m, x);
    ReadKeeps(m, reqs);
    var m1 := m.(conn := ReadAndDispatch(m.conn).1);
    assert Turn(m, reqs) == AfterFrame(m1, reqs, Continue);
    CulpritStays(m1, reqs, x);
  }

  lemma NotZero(m: Mux, reqs: seq<Request>, x: nat)
    requires Good(m, reqs) && x in m.conn.streams
    ensures x != 0
  {
  }

  lemma CulpritStays(m: Mux, reqs: seq<Request>, x: nat)
    requires Good(m, reqs) && x in m.idToIdx && Stranded(m.conn, x) && AfterFrame(m, reqs, Continue).0
    ensures x in Culprits(AfterFrame(m, reqs, Continue).1)
  {
    DoomedKeeps(m, reqs);
    var m1 := FailStreams(m, Doomed(m));
    assert x in m1.idToIdx && m1.conn.streams[x] == m.conn.streams[x];
    AdvanceLeaves(m1, x);
  }

  // ----- how a complete response stays in flight -----

  /** The next frame is trailers that end an open stream with headers, and their block cannot be decoded. */
  ghost predicate BadTrailersNext(m: Mux, id: nat)
  {
    && m.conn.inbound != [] && m.conn.inbound[0] == Whole(id, m.conn.inbound[0].payload, true)
    && id in m.idToIdx && Ready(m.conn, id, m.conn.inbound[0].payload)
    && m.conn.streams[id].state.Open? && m.conn.streams[id].responseHeaders.Some?
    && Hpack.DecodeBlock(m.conn.tables, m.conn.decoder, m.conn.inbound[0].payload).0.Err?
  }

  lemma BadTrailersRead(m: Mux, id: nat)
    requires BadTrailersNext(m, id)
    ensures var (r, c) := ReadAndDispatch(m.conn);
            r.Err? && c.streams == m.conn.streams[id := m.conn.streams[id].(endStreamRecv := true)]
  {
    var f := m.conn.inbound[0];
    WholeOnOpen(m.conn.(inbound := m.conn.inbound[1..], accepted := m.conn.accepted + [f]), id, f.payload, true);
  }

  /**
   * Charged to another stream, the error leaves this one in flight with a complete response. A GOAWAY below it will
   * close it and not fail it.
   */
  lemma BadTrailersLeaveComplete(m: Mux, reqs: seq<Request>, id: nat)
    requires Good(m, reqs) && BadTrailersNext(m, id) && Turn(m, reqs).0
    ensures var r := Turn(m, reqs).1;
            id in r.idToIdx && id in r.conn.streams && r.conn.streams[id].Complete() && OtherCulprit(m, id)
  {
    TurnIsOneFrame(m, reqs);
    ReadKeeps(m, reqs);
    BadTrailersRead(m, id);
    var m1 := m.(conn := ReadAndDispatch(m.conn).1);
    assert Turn(m, reqs) == AfterError(m1, reqs);
    CompleteIsSpared(m, reqs, id, m1);
  }

  lemma CompleteIsSpared(m: Mux, reqs: seq<Request>, id: nat, m1: Mux)
    requires Kept(m1, reqs) && m1.idToIdx == m.idToIdx && id in m.idToIdx && id in m.conn.streams
             && AfterError(m1, reqs).0
    requires m.conn.streams[id].state.Open? && m.conn.streams[id].responseHeaders.Some?
    requires m1.conn.streams == m.conn.streams[id := m.conn.streams[id].(endStreamRecv := true)]
    ensures var r := AfterError(m1, reqs).1;
            id in r.idToIdx && id in r.conn.streams && r.conn.streams[id].Complete() && OtherCulprit(m, id)
  {
    var x := OnlyCulprit(m1, reqs);
    assert x in Culprits(m1);
    ChargedAlone(m1, reqs, x, id);
  }
}

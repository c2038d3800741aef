/**
 * Header blocks that cannot be decoded, over the driver's turns. In one HEADERS frame such a block costs what any error
 * costs. In fragments it leaves the connection waiting for a CONTINUATION, and can end the whole run.
 */
module Http2Refused {
  import opened Common
  import opened Http2Types
  import opened Http2Engine
  import opened Http2Fragments
  import opened Http2Frames
  import opened Http2Invariants
  import opened Http2Driver
  import opened Http2Trailers
  import opened Http2Turns
  import opened Http2Tidy

  // ----- what an error costs -----

  lemma OnlyFailuresTwice(a: seq<Slot>, b: seq<Slot>, c: seq<Slot>)
    requires OnlyFailures(a, b) && OnlyFailures(b, c)
    ensures OnlyFailures(a, c)
  {
  }

  /** A slot that was open and is not a reply ends up failed. */
  lemma EndsFailed(a: seq<Slot>, b: seq<Slot>, j: nat)
    requires OnlyFailures(a, b) && j < |a| && a[j].Unresolved?
    ensures Fails(Collect(b), j)
  {
  }

  /** An error that more or fewer than one stream could be blamed for ends the run. */
  lemma NobodyBlamed(m: Mux, reqs: seq<Request>)
    requires Kept(m, reqs) && |Culprits(m)| != 1
    ensures !AfterError(m, reqs).0 && OnlyFailures(m.results, AfterError(m, reqs).1.results)
  {
    FailAllOnlyFails(m);
  }

  lemma OnlyOneFails(m: Mux, id: nat)
    requires id in m.idToIdx && m.idToIdx[id] < |m.results| && m.results[m.idToIdx[id]].Unresolved?
    ensures OnlyFailures(m.results, FailStreams(m, {id}).results)
  {
    FailedSlots(m, {id});
  }

  lemma ForgottenJams(m: Mux, reqs: seq<Request>, id: nat)
    requires Kept(m, reqs) && id in m.idToIdx && m.conn.expecting == Some(id)
    ensures Kept(FailStreams(m, {id}), reqs) && Jammed(FailStreams(m, {id}).conn)
    ensures OnlyFailures(m.results, FailStreams(m, {id}).results)
  {
    assert id in m.conn.streams;
    FailStreamsKeeps(m, reqs, {id});
    OnlyOneFails(m, id);
  }

  /** The request blamed is the one whose CONTINUATION is expected: nothing can take that frame any more. */
  lemma BlamedJams(m: Mux, reqs: seq<Request>, id: nat)
    requires Kept(m, reqs) && Culprits(m) == {id} && m.conn.expecting == Some(id)
    ensures Jammed(AfterError(m, reqs).1.conn) && OnlyFailures(m.results, AfterError(m, reqs).1.results)
  {
    assert id in Culprits(m);
    var m1 := FailStreams(m, {id});
    ForgottenJams(m, reqs, id);
    assert AfterError(m, reqs) == Advance(StartQueued(m1, reqs));
    StartThenAdvanceStaysJammed(m1, reqs);
    OnlyFailuresTwice(m.results, m1.results, Advance(StartQueued(m1, reqs)).1.results);
  }

  /** Which streams can be blamed does not depend on header buffers. */
  lemma SameCulprits(m: Mux, m1: Mux, id: nat)
    requires m1.idToIdx == m.idToIdx && id in m.conn.streams && id in m1.conn.streams
    requires m1.conn.streams == m.conn.streams[id := m1.conn.streams[id]]
    requires m1.conn.streams[id].state == m.conn.streams[id].state
    requires m.conn.streams[id].state.Closed? ==> (m1.conn.streams[id].Complete() <==> m.conn.streams[id].Complete())
    ensures Culprits(m1) == Culprits(m)
  {
  }

  lemma {:induction false} StartQueuedWaits(m: Mux, reqs: seq<Request>)
    requires Runnable(m, reqs)
    ensures StartQueued(m, reqs).conn.expecting == m.conn.expecting
    decreases |m.queue|
  {
    if m.queue != [] && |m.conn.streams| < m.conn.peer.maxConcurrentStreams {
      StartQueuedWaits(StartOne(m, reqs), reqs);
    }
  }

  lemma StartThenAdvanceWaits(m: Mux, reqs: seq<Request>)
    requires Runnable(m, reqs)
    ensures Advance(StartQueued(m, reqs)).1.conn.expecting == m.conn.expecting
  {
    StartQueuedWaits(m, reqs);
  }

  /** What is expected next survives an error that is blamed on one stream. */
  lemma ErrorWaits(m: Mux, reqs: seq<Request>, x: nat)
    requires Kept(m, reqs) && Culprits(m) == {x}
    ensures AfterError(m, reqs).1.conn.expecting == m.conn.expecting
  {
    ChargedTo(m, reqs, x);
    StartThenAdvanceWaits(FailStreams(m, {x}), reqs);
  }

  /** The request on stream `id` is still waiting for its outcome. */
  ghost predicate InFlightStill(m: Mux, r: Mux, id: nat)
  {
    && id in m.idToIdx && id in r.idToIdx && r.idToIdx[id] == m.idToIdx[id] && id in r.conn.streams
    && m.idToIdx[id] < |r.results| && r.results[m.idToIdx[id]].Unresolved?
  }

  /** The one stream to blame fails, and every other request in flight still waits. */
  ghost predicate BlamedOnly(m: Mux, r: Mux, x: nat, other: nat)
  {
    FailedIn(m, r, x) && (other in m.idToIdx && other != x ==> InFlightStill(m, r, other))
  }

  lemma Blamed(m: Mux, reqs: seq<Request>, m1: Mux, x: nat, other: nat)
    requires Kept(m1, reqs) && m1.results == m.results && m1.idToIdx == m.idToIdx && Culprits(m1) == {x}
             && AfterError(m1, reqs).0
    ensures BlamedOnly(m, AfterError(m1, reqs).1, x, other)
  {
    assert x in Culprits(m1);
    ChargedAlone(m1, reqs, x, x);
    if other in m.idToIdx && other != x {
      ChargedAlone(m1, reqs, x, other);
    }
  }

  // ----- the last fragment of a block that cannot be decoded -----

  ghost predicate BadLastNext(m: Mux, id: nat)
  {
    && m.conn.inbound != [] && m.conn.inbound[0] == LastFragment(id, m.conn.inbound[0].payload)
    && id in m.idToIdx && Awaiting(m.conn, id, m.conn.inbound[0].payload)
    && !Decodes(m.conn, m.conn.streams[id].headersBuf + m.conn.inbound[0].payload)
  }

  lemma BadLastRead(m: Mux, id: nat)
    requires BadLastNext(m, id)
    ensures var (r, c) := ReadAndDispatch(m.conn);
            && r.Err? && c.expecting == Some(id)
            && c.streams == m.conn.streams[id := m.conn.streams[id].(headersBuf := [])]
  {
  }

  /** The driver when the error comes back. */
  ghost function Erred(m: Mux, reqs: seq<Request>): (r: Mux)
    requires Good(m, reqs)
    ensures Kept(r, reqs)
  {
    ReadKeeps(m, reqs);
    m.(conn := ReadAndDispatch(m.conn).1)
  }

  lemma ErredTurn(m: Mux, reqs: seq<Request>)
    requires Good(m, reqs) && m.idToIdx != map[] && ReadAndDispatch(m.conn).0.Err?
    ensures Turn(m, reqs) == AfterError(Erred(m, reqs), reqs)
  {
    TurnIsOneFrame(m, reqs);
  }

  /**
   * The turn that reads it: blamed on its own stream, it leaves a connection that refuses everything; blamed on
   * another, it leaves one that refuses everything but this stream's CONTINUATION; otherwise it ends the run.
   */
  lemma BadLastTurn(m: Mux, reqs: seq<Request>, id: nat, x: nat, other: nat)
    requires Good(m, reqs) && BadLastNext(m, id)
    ensures var (going, r) := Turn(m, reqs);
            && (Culprits(m) == {id} ==> Jammed(r.conn) && OnlyFailures(m.results, r.results))
            && (|Culprits(m)| != 1 ==> !going && OnlyFailures(m.results, r.results))
            && (Culprits(m) == {x} && going ==>
                  BlamedOnly(m, r, x, other) && r.conn.expecting == Some(id) && (x != id ==> id in r.conn.streams))
  {
    BadLastRead(m, id);
    ErredTurn(m, reqs);
    var m1 := Erred(m, reqs);
    SameCulprits(m, m1, id);
    if Culprits(m) == {id} {
      BlamedJams(m1, reqs, id);
    }
    if |Culprits(m)| != 1 {
      NobodyBlamed(m1, reqs);
    } else if Culprits(m) == {x} && Turn(m, reqs).0 {
      Blamed(m, reqs, m1, x, other);
      Blamed(m, reqs, m1, x, id);
      ErrorWaits(m1, reqs, x);
    }
  }

  /** Only a stream other than its own, alone to blame, lets any request that is still open survive such a block. */
  lemma BadLastFailsAll(m: Mux, reqs: seq<Request>, id: nat, j: nat)
    requires Good(m, reqs) && BadLastNext(m, id) && (Culprits(m) == {id} || |Culprits(m)| != 1)
    requires j < |m.results| && m.results[j].Unresolved?
    ensures Fails(Collect(Loop(m, reqs).results), j)
  {
    BadLastTurn(m, reqs, id, id, id);
    LoopTakesATurn(m, reqs, j);
    var (going, r) := Turn(m, reqs);
    if going {
      FailsLater(r, reqs, m.results, j);
    } else {
      EndsFailed(m.results, r.results, j);
    }
  }

  lemma FailsLater(m: Mux, reqs: seq<Request>, before: seq<Slot>, j: nat)
    requires Good(m, reqs) && Jammed(m.conn) && OnlyFailures(before, m.results) && j < |before| && before[j].Unresolved?
    ensures Fails(Collect(Loop(m, reqs).results), j)
  {
    if m.results[j].Unresolved? {
      JammedRunFailsTheRest(m, reqs);
    } else {
      StaysSettled(m, reqs, j);
    }
  }

  lemma StaysSettled(m: Mux, reqs: seq<Request>, j: nat)
    requires Good(m, reqs) && j < |m.results| && m.results[j].Failed?
    ensures Fails(Collect(Loop(m, reqs).results), j)
  {
    LoopAnswers(m, reqs);
  }

  // ----- the same block in one frame -----

  ghost predicate BadWholeNext(m: Mux, id: nat, endStream: bool)
  {
    && m.conn.inbound != [] && m.conn.inbound[0] == Whole(id, m.conn.inbound[0].payload, endStream)
    && id in m.idToIdx && Ready(m.conn, id, m.conn.inbound[0].payload) && Receivable(m.conn, id, endStream)
    && !Decodes(m.conn, m.conn.inbound[0].payload)
  }

  lemma BadWholeRead(m: Mux, id: nat, endStream: bool)
    requires BadWholeNext(m, id, endStream)
    ensures var (r, c) := ReadAndDispatch(m.conn);
            && r.Err? && c.expecting.None? && id in c.streams && c.streams == m.conn.streams[id := c.streams[id]]
            && c.streams[id].state == m.conn.streams[id].state
            && c.streams[id].responseHeaders == m.conn.streams[id].responseHeaders
            && (m.conn.streams[id].state.Closed? ==> c.streams[id] == m.conn.streams[id])
  {
    var f := m.conn.inbound[0];
    var c0 := m.conn.(inbound := m.conn.inbound[1..], accepted := m.conn.accepted + [f]);
    if m.conn.streams[id].state.Closed? {
      WholeOnClosed(c0, id, f.payload, endStream);
      assert m.conn.streams[id := m.conn.streams[id]] == m.conn.streams;
    } else {
      WholeOnOpen(c0, id, f.payload, endStream);
    }
  }

  /**
   * In one frame the block is blamed on a stream that is already closed and incomplete, if there is exactly one;
   * every other request in flight stays, its response complete if it was, and any frame may follow. Otherwise it ends
   * the run.
   */
  lemma BadWholeTurn(m: Mux, reqs: seq<Request>, id: nat, endStream: bool, x: nat, other: nat)
    requires Good(m, reqs) && BadWholeNext(m, id, endStream)
    ensures var (going, r) := Turn(m, reqs);
            && (|Culprits(m)| != 1 ==> !going && OnlyFailures(m.results, r.results))
            && (Culprits(m) == {x} && going ==> BlamedOnly(m, r, x, other) && r.conn.expecting.None?)
  {
    BadWholeRead(m, id, endStream);
    ErredTurn(m, reqs);
    var m1 := Erred(m, reqs);
    SameCulprits(m, m1, id);
    if |Culprits(m)| != 1 {
      NobodyBlamed(m1, reqs);
    } else if Culprits(m) == {x} && Turn(m, reqs).0 {
      Blamed(m, reqs, m1, x, other);
      ErrorWaits(m1, reqs, x);
    }
  }

  // ----- a response of headers only, from its first fragment on -----

  /** What a turn whose frame reports nothing does: streams that a GOAWAY gave up fail, then the bodies are pumped. */
  lemma NothingReported(m: Mux, reqs: seq<Request>)
    requires Good(m, reqs)
    ensures var r := AfterFrame(m, reqs, Continue).1;
            && OnlyFailures(m.results, r.results) && r.conn.inbound == m.conn.inbound
            && r.conn.expecting == m.conn.expecting && r.conn.decoder == m.conn.decoder
            && r.conn.tables == m.conn.tables
  {
    DoomedOnlyFails(m, reqs);
    var m1 := FailStreams(m, Doomed(m));
    AdvanceOnlyFails(m1);
    OnlyFailuresTwice(m.results, m1.results, Advance(m1).1.results);
  }

  lemma AdvanceOnlyFails(m: Mux)
    ensures var r := Advance(m).1;
            && OnlyFailures(m.results, r.results) && r.conn.inbound == m.conn.inbound
            && r.conn.expecting == m.conn.expecting && r.conn.decoder == m.conn.decoder
            && r.conn.tables == m.conn.tables
  {
    FailAllOnlyFails(m.(conn := FlushPending(m.conn).1));
  }

  /** A stream that is closed, without response headers and with nothing to send, and whose CONTINUATION is expected. */
  ghost predicate Cut(c: Conn, id: nat, buf: seq<Byte>)
  {
    && id in c.streams && id != 0 && c.expecting == Some(id)
    && c.streams[id].state.Closed? && c.streams[id].responseHeaders.None? && c.streams[id].pendingBody.None?
    && c.streams[id].headersBuf == buf
  }

  lemma CutIsBlamed(m: Mux, id: nat, buf: seq<Byte>)
    requires id in m.idToIdx && Cut(m.conn, id, buf)
    ensures id in Culprits(m) && (Culprits(m) == {id} || |Culprits(m)| != 1)
  {
    if |Culprits(m)| == 1 {
      var x := Only(Culprits(m));
      assert id in Culprits(m);
    }
  }

  /**
   * After a frame that reports nothing the stream stays as it is, unless a GOAWAY gave it up: then the connection
   * jams.
   */
  lemma CutStays(m: Mux, reqs: seq<Request>, id: nat, buf: seq<Byte>)
    requires Good(m, reqs) && Cut(m.conn, id, buf)
    ensures var (going, r) := AfterFrame(m, reqs, Continue);
            going ==> Cut(r.conn, id, buf) || Jammed(r.conn)
  {
    NothingReported(m, reqs);
    DoomedKeeps(m, reqs);
    var m1 := FailStreams(m, Doomed(m));
    if id in Doomed(m) {
      DoomedJams(m, reqs, id);
    } else if Advance(m1).0 {
      AdvanceLeaves(m1, id);
    }
  }

  lemma DoomedJams(m: Mux, reqs: seq<Request>, id: nat)
    requires Good(m, reqs) && id in Doomed(m) && m.conn.expecting == Some(id)
    ensures Jammed(AfterFrame(m, reqs, Continue).1.conn)
  {
    assert id in m.conn.streams;
    AdvanceStaysJammed(FailStreams(m, Doomed(m)));
  }

  /** What is left to read: the rest of the block, then anything. */
  ghost predicate RestNext(c: Conn, id: nat, buf: seq<Byte>, rest: seq<Byte>, max: nat, more: seq<Frame>)
    requires max > 0
  {
    c.inbound == Continuations(id, rest, max) + more && |buf| + |rest| <= MAX_HEADERS_BUF && !Decodes(c, buf + rest)
  }

  /** The connection is cut, and the rest of the block is left to read. */
  ghost predicate CutShortOf(c: Conn, id: nat, buf: seq<Byte>, rest: seq<Byte>, max: nat, more: seq<Frame>)
    requires max > 0
  {
    Cut(c, id, buf) && RestNext(c, id, buf, rest, max, more)
  }

  lemma RestStays(c: Conn, c1: Conn, id: nat, buf: seq<Byte>, rest: seq<Byte>, max: nat, more: seq<Frame>)
    requires max > 0 && RestNext(c, id, buf, rest, max, more)
    requires c1.inbound == c.inbound && c1.decoder == c.decoder && c1.tables == c.tables
    ensures RestNext(c1, id, buf, rest, max, more)
  {
  }

  lemma FirstOf(f: Frame, fs: seq<Frame>, more: seq<Frame>)
    ensures var all := [f] + fs + more;
            all != [] && all[0] == f && all[1..] == fs + more
  {
  }

  /** Reading a fragment before the last one. */
  lemma MiddleRead(c: Conn, id: nat, buf: seq<Byte>, rest: seq<Byte>, max: nat, more: seq<Frame>)
    requires max > 0 && CutShortOf(c, id, buf, rest, max, more) && |rest| > max
    ensures var (r, c1) := ReadAndDispatch(c);
            r == Ok(Continue) && CutShortOf(c1, id, buf + rest[..max], rest[max..], max, more)
  {
    var a, b := rest[..max], rest[max..];
    var f := Frame(F_CONTINUATION, 0, id, a);
    FirstOf(f, Continuations(id, b, max), more);
    assert buf + a + b == buf + rest;
    MiddleFragment(c.(inbound := c.inbound[1..], accepted := c.accepted + [f]), id, a);
  }

  /** A turn that cuts the stream's block further, or for the first time. */
  lemma CuttingTurn(m: Mux, reqs: seq<Request>, c: Conn, id: nat, buf: seq<Byte>, rest: seq<Byte>, max: nat,
                    more: seq<Frame>)
    requires max > 0 && Good(m, reqs) && id in m.idToIdx
    requires ReadAndDispatch(m.conn) == (Ok(Continue), c) && CutShortOf(c, id, buf, rest, max, more)
    ensures var (going, r) := Turn(m, reqs);
            && OnlyFailures(m.results, r.results)
            && (going ==> Jammed(r.conn) || (id in r.idToIdx && CutShortOf(r.conn, id, buf, rest, max, more)))
  {
    QuietTurn(m, reqs, c);
    CutStays(m.(conn := c), reqs, id, buf);
    TurnKeeps(m, reqs);
    var (going, r) := Turn(m, reqs);
    RestStays(c, r.conn, id, buf, rest, max, more);
    if going && !Jammed(r.conn) {
      assert id in r.conn.streams;
    }
  }

  lemma QuietTurn(m: Mux, reqs: seq<Request>, c: Conn)
    requires Good(m, reqs) && m.idToIdx != map[] && ReadAndDispatch(m.conn) == (Ok(Continue), c)
    ensures Good(m.(conn := c), reqs) && Turn(m, reqs) == AfterFrame(m.(conn := c), reqs, Continue)
    ensures var r := Turn(m, reqs).1;
            && OnlyFailures(m.results, r.results) && r.conn.inbound == c.inbound
            && r.conn.expecting == c.expecting && r.conn.decoder == c.decoder && r.conn.tables == c.tables
  {
    TurnIsOneFrame(m, reqs);
    ReadKeeps(m, reqs);
    NothingReported(m.(conn := c), reqs);
  }

  /** The rest of the run after a turn that failed some requests, from what is known of the rest. */
  lemma RestOfRun(m: Mux, reqs: seq<Request>, j: nat)
    requires Good(m, reqs) && j < |m.results| && m.results[j].Unresolved?
    ensures var (going, r) := Turn(m, reqs);
            && (OnlyFailures(m.results, r.results) && !going ==> Fails(Collect(Loop(m, reqs).results), j))
            && (going ==> Good(r, reqs) && Loop(m, reqs) == Loop(r, reqs))
            && (OnlyFailures(m.results, r.results) && going && Jammed(r.conn) ==>
                Fails(Collect(Loop(m, reqs).results), j))
            && (OnlyFailures(m.results, r.results) && going && !r.results[j].Unresolved? ==>
                Fails(Collect(Loop(m, reqs).results), j))
  {
    LoopTakesATurn(m, reqs, j);
    var (going, r) := Turn(m, reqs);
    if OnlyFailures(m.results, r.results) {
      if !going {
        EndsFailed(m.results, r.results, j);
      } else if Jammed(r.conn) {
        FailsLater(r, reqs, m.results, j);
      } else if !r.results[j].Unresolved? {
        StaysSettled(r, reqs, j);
      }
    }
  }

  /** Once such a stream is cut, every request without an outcome fails, however the peer goes on. */
  lemma {:induction false} CutFailsAll(m: Mux, reqs: seq<Request>, id: nat, buf: seq<Byte>, rest: seq<Byte>, max: nat,
                                       more: seq<Frame>, j: nat)
    requires max > 0 && Good(m, reqs) && id in m.idToIdx && CutShortOf(m.conn, id, buf, rest, max, more)
    requires j < |m.results| && m.results[j].Unresolved?
    ensures Fails(Collect(Loop(m, reqs).results), j)
    decreases |rest|
  {
    if |rest| <= max {
      CutIsBlamed(m, id, buf);
      assert m.conn.inbound[0] == LastFragment(id, rest);
      BadLastFailsAll(m, reqs, id, j);
    } else {
      MiddleRead(m.conn, id, buf, rest, max, more);
      CuttingTurn(m, reqs, ReadAndDispatch(m.conn).1, id, buf + rest[..max], rest[max..], max, more);
      RestOfRun(m, reqs, j);
      var (going, r) := Turn(m, reqs);
      if going && !Jammed(r.conn) && r.results[j].Unresolved? {
        CutFailsAll(r, reqs, id, buf + rest[..max], rest[max..], max, more, j);
      }
    }
  }

  /**
   * The fragments of a block that cannot be decoded are next, for a stream that has sent its request and has no
   * headers.
   */
  ghost predicate BadHeadersNext(c: Conn, id: nat, block: seq<Byte>, max: nat, more: seq<Frame>)
    requires max > 0
  {
    && c.expecting.None? && id in c.streams && max < |block| <= MAX_HEADERS_BUF && !Decodes(c, block)
    && c.streams[id].state.HalfClosedLocal? && c.streams[id].responseHeaders.None?
    && c.inbound == FragmentHeaderBlock(id, block, max, true) + more
  }

  lemma FirstRead(c: Conn, id: nat, block: seq<Byte>, max: nat, more: seq<Frame>)
    requires max > 0 && Inv(c) && Tidy(c) && BadHeadersNext(c, id, block, max, more)
    ensures var (r, c1) := ReadAndDispatch(c);
            r == Ok(Continue) && CutShortOf(c1, id, block[..max], block[max..], max, more)
  {
    var a, b := block[..max], block[max..];
    var f := Frame(F_HEADERS, FLAG_END_STREAM, id, a);
    FirstOf(f, Continuations(id, b, max), more);
    assert FragmentHeaderBlock(id, block, max, true) == [f] + Continuations(id, b, max);
    assert a + b == block;
    FirstCuts(c, c.(inbound := c.inbound[1..], accepted := c.accepted + [f]), id, block, max);
  }

  lemma FirstCuts(c: Conn, c0: Conn, id: nat, block: seq<Byte>, max: nat)
    requires Sound(c) && Tidy(c) && c.expecting.None? && id in c.streams && max < |block| <= MAX_HEADERS_BUF
    requires c.streams[id].state.HalfClosedLocal? && c.streams[id].responseHeaders.None?
    requires c0 == c.(inbound := c0.inbound, accepted := c0.accepted)
    ensures var (r, c1) := ProcessFrame(c0, Frame(F_HEADERS, FLAG_END_STREAM, id, block[..max]));
            && r == Ok(Continue) && Cut(c1, id, block[..max])
            && c1.inbound == c0.inbound && c1.decoder == c0.decoder && c1.tables == c0.tables
  {
    TidyIsReady(c, id, block);
    FirstFragment(c0, id, block[..max], true);
    assert TidyStream(c.streams[id], false);
  }

  /**
   * A response of headers only that cannot be decoded, in more than one frame: every request without an outcome fails,
   * however the peer goes on. In one frame (`BadWholeTurn`) the others survive if another stream is to blame.
   */
  lemma BadHeadersFailAll(m: Mux, reqs: seq<Request>, id: nat, block: seq<Byte>, max: nat, more: seq<Frame>, j: nat)
    requires max > 0 && Good(m, reqs) && Tidy(m.conn) && id in m.idToIdx && BadHeadersNext(m.conn, id, block, max, more)
    requires j < |m.results| && m.results[j].Unresolved?
    ensures Fails(Collect(Loop(m, reqs).results), j)
  {
    FirstRead(m.conn, id, block, max, more);
    CuttingTurn(m, reqs, ReadAndDispatch(m.conn).1, id, block[..max], block[max..], max, more);
    RestOfRun(m, reqs, j);
    var (going, r) := Turn(m, reqs);
    if going && !Jammed(r.conn) && r.results[j].Unresolved? {
      CutFailsAll(r, reqs, id, block[..max], block[max..], max, more, j);
    }
  }
}

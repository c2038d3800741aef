/**
 * Trailers that arrive in more than one frame: the first one already completes the response, the driver takes the
 * stream away, and the connection then waits for a CONTINUATION that nothing can take.
 */
module Http2Trailers {
  import opened Common
  import opened Http2Types
  import opened Http2Engine
  import opened Http2Fragments
  import opened Http2Start
  import opened Http2Driver

  /** The connection expects a CONTINUATION for a stream it has forgotten. */
  predicate Jammed(c: Conn)
  {
    c.expecting.Some? && c.expecting.value != 0 && c.expecting.value < c.nextId && c.expecting.value !in c.streams
  }

  /** Such a connection refuses every frame, the expected one included, and never changes. */
  lemma JammedRefusesAll(c: Conn, f: Frame)
    requires Jammed(c)
    ensures ProcessFrame(c, f) == (Err, c)
  {
  }

  // ----- no more replies -----

  /** Slots only ever go from unresolved to failed. */
  predicate OnlyFailures(a: seq<Slot>, b: seq<Slot>)
  {
    |a| == |b| && forall i :: 0 <= i < |a| ==> b[i] == a[i] || (a[i].Unresolved? && b[i].Failed?)
  }

  /** What follows on a jammed connection. */
  ghost predicate StillJammed(m: Mux, r: Mux) { Jammed(r.conn) && OnlyFailures(m.results, r.results) }

  lemma StillJammedTwice(a: Mux, b: Mux, c: Mux)
    requires StillJammed(a, b) && StillJammed(b, c)
    ensures StillJammed(a, c)
  {
  }

  lemma FailAllOnlyFails(m: Mux)
    ensures OnlyFailures(m.results, FailAll(m).results) && FailAll(m).conn == m.conn
  {
  }

  lemma StartOneStaysJammed(m: Mux, reqs: seq<Request>)
    requires Kept(m, reqs) && m.queue != [] && Jammed(m.conn)
    ensures StillJammed(m, StartOne(m, reqs))
  {
    var idx := m.queue[0];
    OpenedStream(m.conn);
    StartKeepsInv(m.conn, reqs[idx]);
    if MayOpen(m.conn) {
      var fs, n := StageOutcome(m.conn, reqs[idx]);
    }
  }

  lemma {:induction false} StartQueuedStaysJammed(m: Mux, reqs: seq<Request>)
    requires Kept(m, reqs) && Jammed(m.conn)
    ensures StillJammed(m, StartQueued(m, reqs))
    decreases |m.queue|
  {
    if m.queue != [] && |m.conn.streams| < m.conn.peer.maxConcurrentStreams {
      StartOneKeeps(m, reqs);
      StartOneStaysJammed(m, reqs);
      var m1 := StartOne(m, reqs);
      StartQueuedStaysJammed(m1, reqs);
      StillJammedTwice(m, m1, StartQueued(m1, reqs));
    }
  }

  lemma {:induction false} PumpStreamKeepsIds(c: Conn, id: nat, max: nat)
    ensures PumpStream(c, id, max).1.streams.Keys == c.streams.Keys
    decreases if id in c.streams && c.streams[id].pendingBody.Some?
              then |c.streams[id].pendingBody.value.bytes| - c.streams[id].pendingBody.value.sent else -1
  {
    if id in c.streams && c.streams[id].pendingBody.Some? {
      var s, pb := c.streams[id], c.streams[id].pendingBody.value;
      if pb.sent < |pb.bytes| {
        var n := FlowControl.NextDataChunkSize(max, SendBudget(c, s), |pb.bytes| - pb.sent);
        var (ok, c') := SendChunk(c, id, n);
        if n > 0 && ok && pb.sent + n < |pb.bytes| {
          PumpStreamKeepsIds(c', id, max);
        }
      }
    }
  }

  lemma {:induction false} PumpKeepsIds(c: Conn, ids: seq<nat>, max: nat)
    ensures PumpStreams(c, ids, max).1.streams.Keys == c.streams.Keys
    decreases |ids|
  {
    if ids != [] {
      PumpStreamKeepsIds(c, ids[0], max);
      var (ok, c') := PumpStream(c, ids[0], max);
      if ok {
        PumpKeepsIds(c', ids[1..], max);
      }
    }
  }

  lemma FlushStaysJammed(c: Conn)
    requires Jammed(c)
    ensures Jammed(FlushPending(c).1)
  {
    PumpKeepsIds(c, SortedIds.Sorted(PendingIds(c)), c.peer.maxFrameSize);
  }

  lemma AdvanceStaysJammed(m: Mux)
    requires Jammed(m.conn)
    ensures StillJammed(m, Advance(m).1)
  {
    FlushStaysJammed(m.conn);
    FailAllOnlyFails(m.(conn := FlushPending(m.conn).1));
  }

  lemma StartThenAdvanceStaysJammed(m: Mux, reqs: seq<Request>)
    requires Kept(m, reqs) && Jammed(m.conn)
    ensures StillJammed(m, Advance(StartQueued(m, reqs)).1)
  {
    StartQueuedStaysJammed(m, reqs);
    AdvanceStaysJammed(StartQueued(m, reqs));
    StillJammedTwice(m, StartQueued(m, reqs), Advance(StartQueued(m, reqs)).1);
  }

  lemma FailingStaysJammed(m: Mux, reqs: seq<Request>, ids: set<nat>)
    requires Kept(m, reqs) && ids <= m.idToIdx.Keys && Jammed(m.conn)
    ensures StillJammed(m, FailStreams(m, ids))
  {
    FailStreamsKeeps(m, reqs, ids);
    FailedSlots(m, ids);
  }

  lemma LaunchStaysJammed(m: Mux)
    requires Jammed(m.conn)
    ensures StillJammed(m, Launch(m).1)
  {
    FlushStaysJammed(m.conn);
    FailAllOnlyFails(m);
  }

  lemma RefillStaysJammed(m: Mux, reqs: seq<Request>)
    requires Good(m, reqs) && Jammed(m.conn)
    ensures StillJammed(m, Refill(m, reqs).1)
  {
    if m.idToIdx == map[] && m.queue != [] {
      StartQueuedStaysJammed(m, reqs);
      LaunchStaysJammed(StartQueued(m, reqs));
      StillJammedTwice(m, StartQueued(m, reqs), Launch(StartQueued(m, reqs)).1);
    }
  }

  lemma JammedRead(c: Conn)
    requires Jammed(c)
    ensures var (r, c1) := ReadAndDispatch(c);
            r.Err? && Jammed(c1)
  {
    if c.inbound != [] {
      JammedRefusesAll(c.(inbound := c.inbound[1..], accepted := c.accepted + [c.inbound[0]]), c.inbound[0]);
    }
  }

  lemma AfterErrorStaysJammed(m: Mux, reqs: seq<Request>)
    requires Kept(m, reqs) && Jammed(m.conn)
    ensures StillJammed(m, AfterError(m, reqs).1)
  {
    if |Culprits(m)| != 1 {
      FailAllOnlyFails(m);
    } else {
      FailThenStartStaysJammed(m, reqs, Culprits(m));
    }
  }

  lemma FailThenStartStaysJammed(m: Mux, reqs: seq<Request>, ids: set<nat>)
    requires Kept(m, reqs) && ids <= m.idToIdx.Keys && Jammed(m.conn)
    ensures Runnable(FailStreams(m, ids), reqs)
    ensures StillJammed(m, Advance(StartQueued(FailStreams(m, ids), reqs)).1)
  {
    var m1 := FailStreams(m, ids);
    FailingStaysJammed(m, reqs, ids);
    FailStreamsKeeps(m, reqs, ids);
    StartThenAdvanceStaysJammed(m1, reqs);
    StillJammedTwice(m, m1, Advance(StartQueued(m1, reqs)).1);
  }

  lemma OneFrameStaysJammed(m: Mux, reqs: seq<Request>)
    requires Good(m, reqs) && Jammed(m.conn)
    ensures StillJammed(m, OneFrame(m, reqs).1)
  {
    JammedRead(m.conn);
    ReadKeeps(m, reqs);
    AfterErrorStaysJammed(m.(conn := ReadAndDispatch(m.conn).1), reqs);
  }

  lemma TurnStaysJammed(m: Mux, reqs: seq<Request>)
    requires Good(m, reqs) && Jammed(m.conn)
    ensures StillJammed(m, Turn(m, reqs).1)
  {
    RefillKeeps(m, reqs);
    RefillStaysJammed(m, reqs);
    var (going, m1) := Refill(m, reqs);
    if going {
      OneFrameStaysJammed(m1, reqs);
      StillJammedTwice(m, m1, OneFrame(m1, reqs).1);
    }
  }

  lemma {:induction false} LoopStaysJammed(m: Mux, reqs: seq<Request>)
    requires Good(m, reqs) && Jammed(m.conn)
    ensures StillJammed(m, Loop(m, reqs))
    decreases |m.conn.inbound|, Http2Driver.Open(m.results)
  {
    if Http2Driver.Open(m.results) != {} {
      TurnKeeps(m, reqs);
      TurnStaysJammed(m, reqs);
      var (going, r) := Turn(m, reqs);
      if going {
        LoopStaysJammed(r, reqs);
        StillJammedTwice(m, r, Loop(r, reqs));
      }
    }
  }

  /** Once a connection is jammed, every request that has no outcome yet fails, and no other outcome changes. */
  lemma JammedRunFailsTheRest(m: Mux, reqs: seq<Request>)
    requires Good(m, reqs) && Jammed(m.conn)
    ensures Collect(Loop(m, reqs).results)
            == seq(|m.results|, i requires 0 <= i < |m.results| =>
                 if m.results[i].Unresolved? then Failed else m.results[i])
  {
    LoopStaysJammed(m, reqs);
  }

  // ----- how it comes about -----

  /** Trailers that end the stream, cut before END_HEADERS, are next; the response headers are there already. */
  predicate SplitTrailersNext(c: Conn, id: nat)
  {
    && c.inbound != [] && c.inbound[0] == Frame(F_HEADERS, FLAG_END_STREAM, id, c.inbound[0].payload)
    && Ready(c, id, c.inbound[0].payload) && c.streams[id].responseHeaders.Some?
    && (c.streams[id].state.Open? || c.streams[id].state.HalfClosedLocal?)
  }

  /** The reply the driver takes: the response without its trailers. */
  function EarlyReply(c: Conn, id: nat): Slot
    requires SplitTrailersNext(c, id)
  {
    var s := c.streams[id];
    var state := s.state.RecvHeaders(true).value;
    Reply(s.(headersBuf := c.inbound[0].payload, endStreamRecv := true, state := state), |c.accepted| + 1)
  }

  /** The first fragment alone reports the stream done, while the rest of the block is still awaited. */
  lemma SplitTrailersAreDoneEarly(c: Conn, id: nat)
    requires SplitTrailersNext(c, id)
    ensures var (r, c1) := ReadAndDispatch(c);
            && r == Ok(Done(id)) && c1.expecting == Some(id) && c1.streams.Keys == c.streams.Keys
            && c1.streams[id].Complete()
            && Reply(c1.streams[id], |c1.accepted|) == EarlyReply(c, id)
  {
    var f := c.inbound[0];
    FirstFragment(c.(inbound := c.inbound[1..], accepted := c.accepted + [f]), id, f.payload, true);
  }

  /** Slot `i` got its outcome and no other open request got a reply. */
  predicate OneReply(a: seq<Slot>, b: seq<Slot>, i: nat, slot: Slot)
  {
    |b| == |a| && i < |a| && b[i] == slot && forall j: nat :: j < |a| && j != i && a[j].Unresolved? ==> !b[j].Reply?
  }

  lemma OnlyOneReply(a: seq<Slot>, b: seq<Slot>, c: seq<Slot>, i: nat, slot: Slot)
    requires OnlyFailures(a, b) && i < |a| && OnlyFailures(b[i := slot], c) && slot.Reply?
    ensures OneReply(a, c, i, slot)
  {
  }

  lemma DoomedOnlyFails(m: Mux, reqs: seq<Request>)
    requires Good(m, reqs)
    ensures OnlyFailures(m.results, FailStreams(m, Doomed(m)).results)
  {
    FailedSlots(m, Doomed(m));
  }

  lemma ResolvedJams(m: Mux, reqs: seq<Request>, id: nat)
    requires Good(m, reqs) && id in m.idToIdx && m.conn.streams[id].Complete() && m.conn.expecting == Some(id)
    ensures var m1 := Resolve(m, id);
            Kept(m1, reqs) && Jammed(m1.conn)
              && m1.results == m.results[m.idToIdx[id] := Reply(m.conn.streams[id], |m.conn.accepted|)]
  {
    ResolveKeeps(m, reqs, id);
  }

  lemma DoneStreamJams(m: Mux, reqs: seq<Request>, id: nat)
    requires Good(m, reqs) && id in m.idToIdx && m.conn.streams[id].Complete() && m.conn.expecting == Some(id)
    ensures var r := AfterFrame(m, reqs, Done(id)).1;
            Jammed(r.conn) && OneReply(m.results, r.results, m.idToIdx[id],
                                       Reply(m.conn.streams[id], |m.conn.accepted|))
  {
    DoomedKeeps(m, reqs);
    DoomedOnlyFails(m, reqs);
    DoneIsNotDoomed(m, id);
    var m1 := FailStreams(m, Doomed(m));
    ResolvedThenJams(m1, reqs, id, m.results);
    AfterDone(m, reqs, m1, id);
  }

  lemma ResolvedThenJams(m: Mux, reqs: seq<Request>, id: nat, results: seq<Slot>)
    requires Good(m, reqs) && id in m.idToIdx && m.conn.streams[id].Complete() && m.conn.expecting == Some(id)
    requires OnlyFailures(results, m.results)
    ensures Runnable(Resolve(m, id), reqs)
    ensures var r := Advance(StartQueued(Resolve(m, id), reqs)).1;
            Jammed(r.conn) && OneReply(results, r.results, m.idToIdx[id], Reply(m.conn.streams[id], |m.conn.accepted|))
  {
    ResolvedJams(m, reqs, id);
    JamsAfter(Resolve(m, id), reqs, results, m.results, m.idToIdx[id], Reply(m.conn.streams[id], |m.conn.accepted|));
  }

  lemma JamsAfter(m: Mux, reqs: seq<Request>, results: seq<Slot>, before: seq<Slot>, i: nat, slot: Slot)
    requires Kept(m, reqs) && Jammed(m.conn)
    requires OnlyFailures(results, before) && i < |before| && m.results == before[i := slot] && slot.Reply?
    ensures var r := Advance(StartQueued(m, reqs)).1;
            Jammed(r.conn) && OneReply(results, r.results, i, slot)
  {
    StartThenAdvanceStaysJammed(m, reqs);
    OnlyOneReply(results, before, Advance(StartQueued(m, reqs)).1.results, i, slot);
  }

  lemma DoneIsNotDoomed(m: Mux, id: nat)
    requires id in m.idToIdx && id in m.conn.streams && m.conn.streams[id].Complete()
    ensures var m1 := FailStreams(m, Doomed(m));
            && id in m1.idToIdx && m1.idToIdx[id] == m.idToIdx[id] && id in m1.conn.streams
            && m1.conn.streams[id] == m.conn.streams[id]
            && m1.conn.expecting == m.conn.expecting && m1.conn.accepted == m.conn.accepted
  {
  }

  lemma AfterDone(m: Mux, reqs: seq<Request>, m1: Mux, id: nat)
    requires Good(m, reqs) && Good(m1, reqs) && m1 == FailStreams(m, Doomed(m)) && id in m.conn.streams
             && id in m1.idToIdx
    requires Runnable(Resolve(m1, id), reqs)
    ensures AfterFrame(m, reqs, Done(id)) == Advance(StartQueued(Resolve(m1, id), reqs))
  {
  }

  /** The turn that reads the first fragment settles its request early and jams the connection. */
  lemma SplitTrailersJam(m: Mux, reqs: seq<Request>, id: nat)
    requires Good(m, reqs) && id in m.idToIdx && SplitTrailersNext(m.conn, id)
    ensures var r := Turn(m, reqs).1;
            Jammed(r.conn) && OneReply(m.results, r.results, m.idToIdx[id], EarlyReply(m.conn, id))
  {
    SplitTrailersAreDoneEarly(m.conn, id);
    ReadKeeps(m, reqs);
    var m1 := m.(conn := ReadAndDispatch(m.conn).1);
    DoneStreamJams(m1, reqs, id);
    OneFrameIsDone(m, reqs, m1, id);
    TurnIsOneFrame(m, reqs);
  }

  lemma OneFrameIsDone(m: Mux, reqs: seq<Request>, m1: Mux, id: nat)
    requires Good(m, reqs) && ReadAndDispatch(m.conn) == (Ok(Done(id)), m1.conn)
    requires m1 == m.(conn := m1.conn) && Good(m1, reqs) && Runnable(m1, reqs) && id in m1.conn.streams
    requires forall x :: x in m1.idToIdx ==> m1.idToIdx[x] < |reqs|
    ensures OneFrame(m, reqs) == AfterFrame(m1, reqs, Done(id))
  {
  }

  predicate Fails(results: seq<Slot>, j: nat) { j < |results| && results[j].Failed? }

  lemma RestFails(m: Mux, reqs: seq<Request>, results: seq<Slot>, i: nat, slot: Slot, j: nat)
    requires Good(m, reqs) && Jammed(m.conn) && OneReply(results, m.results, i, slot) && slot.Reply?
    requires j < |results| && j != i && results[j].Unresolved?
    ensures Fails(Collect(Loop(m, reqs).results), j)
  {
    JammedRunFailsTheRest(m, reqs);
  }

  lemma CutShort(results: seq<Slot>, last: seq<Slot>, i: nat, slot: Slot, j: nat)
    requires OneReply(results, last, i, slot) && j < |results| && j != i && results[j].Unresolved?
    ensures Fails(Collect(last), j)
  {
  }

  lemma LoopTakesATurn(m: Mux, reqs: seq<Request>, j: nat)
    requires Good(m, reqs) && j < |m.results| && m.results[j].Unresolved?
    ensures var (going, r) := Turn(m, reqs);
            && (going ==> Good(r, reqs) && Loop(m, reqs) == Loop(r, reqs))
            && (!going ==> Loop(m, reqs) == r)
  {
    assert j in Http2Driver.Open(m.results);
    TurnKeeps(m, reqs);
  }

  /** So every other request without an outcome fails, however the peer goes on. */
  lemma SplitTrailersFailTheRest(m: Mux, reqs: seq<Request>, id: nat, j: nat)
    requires Good(m, reqs) && id in m.idToIdx && SplitTrailersNext(m.conn, id)
    requires j < |reqs| && j != m.idToIdx[id] && m.results[j].Unresolved?
    ensures Fails(Collect(Loop(m, reqs).results), j)
  {
    SplitTrailersJam(m, reqs, id);
    TurnKeeps(m, reqs);
    LoopTakesATurn(m, reqs, j);
    var (going, r) := Turn(m, reqs);
    if going {
      RestFails(r, reqs, m.results, m.idToIdx[id], EarlyReply(m.conn, id), j);
    } else {
      CutShort(m.results, r.results, m.idToIdx[id], EarlyReply(m.conn, id), j);
    }
  }
}

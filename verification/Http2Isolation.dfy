/** Failure isolation: what a frame cannot touch, whom a reset fails, and what a GOAWAY leaves running. */
module Http2Isolation {
  import opened Common
  import opened Http2Types
  import opened Http2Engine
  import opened Http2Frames
  import opened Http2Invariants
  import opened Http2Driver

  // ----- frames -----

  lemma DataTouchesOnly(c: Conn, f: Frame)
    requires Sound(c) && f.id != 0 && f.typ == F_DATA
    ensures forall x :: x in c.streams && x != f.id ==>
            x in ProcessData(c, f).1.streams && ProcessData(c, f).1.streams[x] == c.streams[x]
  {
    var conn := c.connRecv.Consume(|f.payload|);
    if conn.available >= 0 && f.id in c.streams && !c.streams[f.id].state.Closed?
       && c.streams[f.id].state.RecvData(f.EndStream()).Ok? {
      var c1 := c.(connRecv := conn);
      var state := c.streams[f.id].state.RecvData(f.EndStream()).value;
      var (ok, s) := AcceptData(c.streams[f.id], f, state);
      AcceptDataStep(c.streams[f.id], f, state);
      if ok {
        var extra := GrantBackStep(c1.(streams := c1.streams[f.id := s]), f.id);
      }
    }
  }

  /** A frame for one stream leaves every other stream exactly as it was. */
  lemma FrameTouchesOnly(c: Conn, f: Frame, x: nat)
    requires Sound(c) && f.id != 0 && x in c.streams && x != f.id
    ensures var c1 := ProcessFrame(c, f).1;
            x in c1.streams && c1.streams[x] == c.streams[x]
  {
    if f.typ == F_DATA {
      DataTouchesOnly(c, f);
    } else if f.typ == F_HEADERS {
      HeadersTouchOnly(c, f, x);
    }
  }

  lemma HeadersTouchOnly(c: Conn, f: Frame, x: nat)
    requires x in c.streams && x != f.id
    ensures x in ProcessHeaders(c, f).1.streams && ProcessHeaders(c, f).1.streams[x] == c.streams[x]
  {
    if HeaderFragment(f).Ok? && f.id in c.streams {
      var frag := HeaderFragment(f).value;
      if c.streams[f.id].state.Closed? {
        var c1 := HeadersOnClosed(c, f, frag).1;
        assert x in c1.streams && c1.streams[x] == c.streams[x];
      } else if c.streams[f.id].state.RecvHeaders(f.EndStream()).Ok? {
        var c1 := HeadersOnOpen(c, f, frag, c.streams[f.id].state.RecvHeaders(f.EndStream()).value).1;
        assert x in c1.streams && c1.streams[x] == c.streams[x];
      }
    }
  }

  // ----- RST_STREAM -----

  /** A stream in flight, other than `id`, that is closed without a complete response. */
  ghost predicate OtherCulprit(m: Mux, id: nat)
  {
    exists x :: x in m.idToIdx && x != id && x in m.conn.streams && m.conn.streams[x].state.Closed?
      && !m.conn.streams[x].Complete()
  }

  lemma ResetOutcome(m: Mux, reqs: seq<Request>, f: Frame)
    requires Good(m, reqs) && m.conn.expecting.None? && f.typ == F_RST_STREAM && f.id in m.idToIdx
             && !m.conn.streams[f.id].state.Closed?
    ensures ProcessFrame(m.conn, f)
            == (Err, m.conn.(streams := m.conn.streams[f.id := m.conn.streams[f.id].(state := Closed)]))
  {
    assert Accounted(m.conn, f.id);
  }

  /**
   * A reset of a stream in flight is charged to exactly its own request if and only if that stream had no complete
   * response and no other stream in flight is already closed without one.
   */
  lemma ResetIsItsOwn(m: Mux, reqs: seq<Request>, f: Frame)
    requires Good(m, reqs) && m.conn.expecting.None? && f.typ == F_RST_STREAM && f.id in m.idToIdx
             && !m.conn.streams[f.id].state.Closed?
    ensures var m1 := m.(conn := ProcessFrame(m.conn, f).1);
            Culprits(m1) == {f.id} <==> !m.conn.streams[f.id].Complete() && !OtherCulprit(m, f.id)
  {
    ResetOutcome(m, reqs, f);
    ResetCulprits(m, f.id, m.(conn := ProcessFrame(m.conn, f).1));
  }

  lemma ResetCulprits(m: Mux, id: nat, m1: Mux)
    requires id in m.idToIdx && id in m.conn.streams && m1.idToIdx == m.idToIdx
    requires m1.conn.streams == m.conn.streams[id := m.conn.streams[id].(state := Closed)]
    ensures Culprits(m1) == {id} <==> !m.conn.streams[id].Complete() && !OtherCulprit(m, id)
  {
    if OtherCulprit(m, id) {
      var x :| x in m.idToIdx && x != id && x in m.conn.streams && m.conn.streams[x].state.Closed?
          && !m.conn.streams[x].Complete();
      assert x in Culprits(m1);
    } else if m.conn.streams[id].Complete() {
      assert id !in Culprits(m1);
    } else {
      assert id in Culprits(m1);
      assert forall x :: x in Culprits(m1) ==> x == id;
    }
  }

  lemma FailedSlotOnly(m: Mux, reqs: seq<Request>, id: nat)
    requires Kept(m, reqs) && id in m.idToIdx
    ensures FailStreams(m, {id}).results == m.results[m.idToIdx[id] := Failed]
  {
    FailedSlots(m, {id});
    var r, k := FailStreams(m, {id}), m.idToIdx[id];
    forall i | 0 <= i < |m.results|
      ensures r.results[i] == if i == k then Failed else m.results[i]
    {
      if i == k {
        assert id in {id};
      }
    }
  }

  /** Failing one stream settles its slot and leaves every other slot and stream alone. */
  lemma FailingOneIsLocal(m: Mux, reqs: seq<Request>, id: nat, x: nat)
    requires Kept(m, reqs) && id in m.idToIdx
    ensures var r := FailStreams(m, {id});
            && r.results == m.results[m.idToIdx[id] := Failed]
            && (x in m.idToIdx && x != id ==>
                  x in r.idToIdx && r.idToIdx[x] == m.idToIdx[x] && r.results[m.idToIdx[x]].Unresolved?
                    && r.conn.streams[x] == m.conn.streams[x])
  {
    FailedSlotOnly(m, reqs, id);
  }

  // ----- GOAWAY -----

  lemma GoAwayOutcome(c: Conn, f: Frame)
    requires c.expecting.None? && f.typ == F_GOAWAY && f.id == 0
    ensures var last := if |f.payload| >= 4 then U31(f.payload) else 0;
            ProcessFrame(c, f) == (Ok(Continue), c.(goaway := Some(last), streams := CloseAbove(c.streams, last)))
  {
  }

  /** What a GOAWAY with mark `last` means for the request in flight on stream `id`. */
  ghost predicate WentAway(m: Mux, r: Mux, last: nat, id: nat)
  {
    && id in m.idToIdx && id in m.conn.streams && m.idToIdx[id] < |r.results|
    && var s, slot := m.conn.streams[id], r.results[m.idToIdx[id]];
       && (id > last ==> (slot == Failed <==> !s.Complete()))
       && if id > last && !s.Complete() then id !in r.idToIdx && id !in r.conn.streams
          else
            && id in r.idToIdx && id in r.conn.streams && slot.Unresolved?
            && r.conn.streams[id] == if id > last then s.(state := Closed) else s
  }

  /**
   * After GOAWAY(last) a request in flight on a higher stream has failed if and only if its response was not
   * complete; a complete one stays in flight, its stream closed. Every stream at or below `last` is still in flight,
   * with its windows, buffers and body as they were.
   */
  lemma GoAwayIsolates(m: Mux, reqs: seq<Request>, f: Frame, id: nat)
    requires Good(m, reqs) && m.conn.expecting.None? && f.typ == F_GOAWAY && f.id == 0 && id in m.idToIdx
    ensures var m1 := m.(conn := ProcessFrame(m.conn, f).1);
            var r := FailStreams(m1, Doomed(m1));
            var last := if |f.payload| >= 4 then U31(f.payload) else 0;
            r.conn.goaway == Some(last) && WentAway(m, r, last, id)
  {
    GoAwayOutcome(m.conn, f);
    DoomedFail(m, m.(conn := ProcessFrame(m.conn, f).1), if |f.payload| >= 4 then U31(f.payload) else 0, id);
  }

  lemma DoomedFail(m: Mux, m1: Mux, last: nat, id: nat)
    requires m1 == m.(conn := m.conn.(goaway := Some(last), streams := CloseAbove(m.conn.streams, last)))
    requires id in m.idToIdx && id in m.conn.streams && m.idToIdx[id] < |m.results|
             && m.results[m.idToIdx[id]].Unresolved?
    requires forall x :: x in m.idToIdx && m.idToIdx[x] == m.idToIdx[id] ==> x == id
    ensures WentAway(m, FailStreams(m1, Doomed(m1)), last, id)
  {
    FailedSlots(m1, Doomed(m1));
    if id !in Doomed(m1) {
      assert forall x :: x in Doomed(m1) ==> m.idToIdx[x] != m.idToIdx[id];
    }
  }

  /** Only a GOAWAY moves the mark. */
  lemma GoAwayStands(c: Conn, f: Frame)
    requires Sound(c) && !(f.typ == F_GOAWAY && f.id == 0)
    ensures ProcessFrame(c, f).1.goaway == c.goaway
  {
    if f.typ == F_DATA && f.id != 0 {
      DataKeepsMark(c, f);
    } else if f.typ == F_HEADERS {
      HeadersKeepMark(c, f);
    }
  }

  lemma DataKeepsMark(c: Conn, f: Frame)
    requires Sound(c) && f.id != 0 && f.typ == F_DATA
    ensures ProcessData(c, f).1.goaway == c.goaway
  {
    var conn := c.connRecv.Consume(|f.payload|);
    if conn.available >= 0 && f.id in c.streams && !c.streams[f.id].state.Closed?
       && c.streams[f.id].state.RecvData(f.EndStream()).Ok? {
      var c1 := c.(connRecv := conn);
      var state := c.streams[f.id].state.RecvData(f.EndStream()).value;
      var (ok, s) := AcceptData(c.streams[f.id], f, state);
      AcceptDataStep(c.streams[f.id], f, state);
      if ok {
        var extra := GrantBackStep(c1.(streams := c1.streams[f.id := s]), f.id);
      }
    }
  }

  lemma HeadersKeepMark(c: Conn, f: Frame)
    ensures ProcessHeaders(c, f).1.goaway == c.goaway
  {
  }

  /** In a turn that does not read another GOAWAY, no request is started on a stream beyond the mark. */
  lemma TurnStaysBelowGoAway(m: Mux, reqs: seq<Request>)
    requires Good(m, reqs)
    requires m.conn.inbound != [] ==> !(m.conn.inbound[0].typ == F_GOAWAY && m.conn.inbound[0].id == 0)
    ensures NewStarts(m.started, Turn(m, reqs).1.started, m.conn.goaway)
  {
    RefillKeeps(m, reqs);
    var (going, m1) := Refill(m, reqs);
    if going {
      OneFrameStays(m1, reqs);
      StartsTwice(m.started, m1.started, OneFrame(m1, reqs).1.started, m.conn.goaway);
    }
  }

  lemma OneFrameStays(m: Mux, reqs: seq<Request>)
    requires Good(m, reqs)
    requires m.conn.inbound != [] ==> !(m.conn.inbound[0].typ == F_GOAWAY && m.conn.inbound[0].id == 0)
    ensures NewStarts(m.started, OneFrame(m, reqs).1.started, m.conn.goaway)
  {
    ReadKeepsMark(m.conn);
    OneFrameKeeps(m, reqs);
  }

  lemma StartsTwice(a: map<nat, nat>, b: map<nat, nat>, c: map<nat, nat>, mark: Option<nat>)
    requires NewStarts(a, b, mark) && NewStarts(b, c, mark)
    ensures NewStarts(a, c, mark)
  {
  }

  lemma ReadKeepsMark(c: Conn)
    requires Inv(c)
    requires c.inbound != [] ==> !(c.inbound[0].typ == F_GOAWAY && c.inbound[0].id == 0)
    ensures ReadAndDispatch(c).1.goaway == c.goaway
  {
    if c.inbound != [] {
      TakingInputKeepsInv(c);
      GoAwayStands(c.(inbound := c.inbound[1..], accepted := c.accepted + [c.inbound[0]]), c.inbound[0]);
    }
  }

  // ----- until another GOAWAY -----

  predicate IsGoAway(f: Frame) { f.typ == F_GOAWAY && f.id == 0 }

  /** What a part of a turn does to the input and the mark. */
  ghost predicate LeavesMark(m: Mux, r: Mux) { r.conn.goaway == m.conn.goaway && r.conn.inbound == m.conn.inbound }

  lemma StartThenAdvanceKeepsMark(m: Mux, reqs: seq<Request>)
    requires Kept(m, reqs)
    ensures LeavesMark(m, Advance(StartQueued(m, reqs)).1)
  {
    StartQueuedKeeps(m, reqs);
    AdvanceKeepsMark(StartQueued(m, reqs));
  }

  lemma AdvanceKeepsMark(m: Mux)
    ensures LeavesMark(m, Advance(m).1)
  {
  }

  lemma AfterErrorKeepsMark(m: Mux, reqs: seq<Request>)
    requires Kept(m, reqs)
    ensures LeavesMark(m, AfterError(m, reqs).1)
  {
    if |Culprits(m)| == 1 {
      FailStreamsKeeps(m, reqs, Culprits(m));
      StartThenAdvanceKeepsMark(FailStreams(m, Culprits(m)), reqs);
    }
  }

  lemma AfterFrameKeepsMark(m: Mux, reqs: seq<Request>, outcome: Outcome)
    requires Good(m, reqs) && (outcome.Done? ==> outcome.id in m.conn.streams && m.conn.streams[outcome.id].Complete())
    ensures LeavesMark(m, AfterFrame(m, reqs, outcome).1)
  {
    DoomedKeeps(m, reqs);
    var m1 := FailStreams(m, Doomed(m));
    if outcome.Done? && outcome.id in m1.idToIdx {
      DoneKeepsMark(m1, reqs, outcome.id);
    } else {
      AdvanceKeepsMark(m1);
    }
  }

  lemma DoneKeepsMark(m: Mux, reqs: seq<Request>, id: nat)
    requires Good(m, reqs) && id in m.idToIdx && id in m.conn.streams && m.conn.streams[id].Complete()
    ensures Kept(Resolve(m, id), reqs) && LeavesMark(m, Advance(StartQueued(Resolve(m, id), reqs)).1)
  {
    ResolveKeeps(m, reqs, id);
    StartThenAdvanceKeepsMark(Resolve(m, id), reqs);
  }

  lemma OneFrameReads(m: Mux, reqs: seq<Request>)
    requires Good(m, reqs)
    ensures var r := OneFrame(m, reqs).1;
            && r.conn.goaway == ReadAndDispatch(m.conn).1.goaway
            && r.conn.inbound == if m.conn.inbound == [] then [] else m.conn.inbound[1..]
  {
    ReadKeeps(m, reqs);
    var (r, c) := ReadAndDispatch(m.conn);
    match r
    case Err => AfterErrorKeepsMark(m.(conn := c), reqs);
    case Ok(outcome) => AfterFrameKeepsMark(m.(conn := c), reqs, outcome);
  }

  /** The turn from `m` to `r` read a GOAWAY. */
  ghost predicate ReadsGoAway(m: Mux, r: Mux)
  {
    m.conn.inbound != [] && IsGoAway(m.conn.inbound[0]) && |r.conn.inbound| < |m.conn.inbound|
  }

  lemma OneFrameLeavesMark(m: Mux, reqs: seq<Request>)
    requires Good(m, reqs) && (m.conn.inbound != [] ==> !IsGoAway(m.conn.inbound[0]))
    ensures OneFrame(m, reqs).1.conn.goaway == m.conn.goaway
  {
    OneFrameReads(m, reqs);
    ReadKeepsMark(m.conn);
  }

  lemma TurnLeavesMark(m: Mux, reqs: seq<Request>)
    requires Good(m, reqs) && (m.conn.inbound != [] ==> !IsGoAway(m.conn.inbound[0])) && Turn(m, reqs).0
    ensures Turn(m, reqs).1.conn.goaway == m.conn.goaway
  {
    RefillKeeps(m, reqs);
    OneFrameLeavesMark(Refill(m, reqs).1, reqs);
  }

  /** A turn that does not read the GOAWAY that is next has not been able to start anything. */
  lemma GoAwayNotRead(m: Mux, reqs: seq<Request>)
    requires Good(m, reqs) && m.conn.inbound != [] && !(|Turn(m, reqs).1.conn.inbound| < |m.conn.inbound|)
    ensures !Turn(m, reqs).0 && NewStarts(m.started, Turn(m, reqs).1.started, m.conn.goaway)
  {
    RefillKeeps(m, reqs);
    var (refilled, m1) := Refill(m, reqs);
    if refilled {
      OneFrameReads(m1, reqs);
    }
  }

  /** A turn that reads no GOAWAY starts nothing beyond the mark and, if the run goes on, leaves the mark. */
  lemma TurnWithoutGoAway(m: Mux, reqs: seq<Request>)
    requires Good(m, reqs) && !ReadsGoAway(m, Turn(m, reqs).1)
    ensures var (going, r) := Turn(m, reqs);
            NewStarts(m.started, r.started, m.conn.goaway) && (going ==> r.conn.goaway == m.conn.goaway)
  {
    if m.conn.inbound != [] && IsGoAway(m.conn.inbound[0]) {
      GoAwayNotRead(m, reqs);
    } else {
      TurnStaysBelowGoAway(m, reqs);
      if Turn(m, reqs).0 {
        TurnLeavesMark(m, reqs);
      }
    }
  }

  /**
   * From here to the end of the run, or to the turn that reads another GOAWAY: no request was started beyond `mark`
   * since those in `started` were.
   */
  ghost predicate StaysBelow(m: Mux, reqs: seq<Request>, started: map<nat, nat>, mark: Option<nat>)
    requires Good(m, reqs)
    decreases |m.conn.inbound|, Http2Driver.Open(m.results)
  {
    && NewStarts(started, m.started, mark)
    && (Http2Driver.Open(m.results) != {} ==>
          var (going, r) := Turn(m, reqs);
          TurnKeeps(m, reqs);
          || ReadsGoAway(m, r)
          || (NewStarts(started, r.started, mark) && (going ==> StaysBelow(r, reqs, started, mark))))
  }

  lemma {:induction false} RunStaysBelow(m: Mux, reqs: seq<Request>, started: map<nat, nat>)
    requires Good(m, reqs) && NewStarts(started, m.started, m.conn.goaway)
    ensures StaysBelow(m, reqs, started, m.conn.goaway)
    decreases |m.conn.inbound|, Http2Driver.Open(m.results)
  {
    if Http2Driver.Open(m.results) != {} {
      TurnKeeps(m, reqs);
      var (going, r) := Turn(m, reqs);
      if !ReadsGoAway(m, r) {
        TurnWithoutGoAway(m, reqs);
        StartsTwice(started, m.started, r.started, m.conn.goaway);
        if going {
          RunStaysBelow(r, reqs, started);
        }
      }
    }
  }

  /** Over the rest of a run, until another GOAWAY is read, no request starts beyond the mark. */
  lemma RunStaysBelowGoAway(m: Mux, reqs: seq<Request>)
    requires Good(m, reqs)
    ensures StaysBelow(m, reqs, m.started, m.conn.goaway)
  {
    RunStaysBelow(m, reqs, m.started);
  }
}

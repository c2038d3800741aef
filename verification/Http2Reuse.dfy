/** One connection serving one batch of requests after another. */
module Http2Reuse {
  import opened Http2Types
  import opened Http2Engine
  import opened Http2Invariants
  import opened Http2Driver

  /** The rest of the run is not cut short. */
  ghost predicate Lasts(m: Mux, reqs: seq<Request>)
    requires Good(m, reqs)
    decreases |m.conn.inbound|, Http2Driver.Open(m.results)
  {
    Http2Driver.Open(m.results) != {} ==>
      var (going, r) := Turn(m, reqs);
      TurnKeeps(m, reqs);
      going && Lasts(r, reqs)
  }

  lemma {:induction false} LoopIsGood(m: Mux, reqs: seq<Request>)
    requires Good(m, reqs) && Lasts(m, reqs)
    ensures Good(Loop(m, reqs), reqs) && Http2Driver.Open(Loop(m, reqs).results) == {}
    decreases |m.conn.inbound|, Http2Driver.Open(m.results)
  {
    if Http2Driver.Open(m.results) != {} {
      TurnKeeps(m, reqs);
      LoopIsGood(Turn(m, reqs).1, reqs);
    }
  }

  lemma InFlightIsOpen(m: Mux, reqs: seq<Request>)
    requires Good(m, reqs)
    ensures forall id :: id in m.conn.streams ==> m.idToIdx[id] in Http2Driver.Open(m.results)
  {
  }

  /** Once every request has its outcome no stream is left. */
  lemma SettledIsIdle(m: Mux, reqs: seq<Request>)
    requires Good(m, reqs) && Http2Driver.Open(m.results) == {}
    ensures m.conn.streams == map[]
  {
    InFlightIsOpen(m, reqs);
  }

  /** The connection is still up when the run is over. */
  ghost predicate Outlives(c: Conn, reqs: seq<Request>)
    requires Inv(c) && c.streams == map[]
  {
    QueuedIsKept(c, reqs);
    StartThenAdvanceKeeps(Queued(c, |reqs|), reqs);
    var (going, m) := Advance(StartQueued(Queued(c, |reqs|), reqs));
    going && Lasts(m, reqs)
  }

  /** A run that the connection outlives leaves it idle and with its accounts right: another run can follow. */
  lemma RunLeavesIdle(c: Conn, reqs: seq<Request>)
    requires Inv(c) && c.streams == map[] && Outlives(c, reqs)
    ensures var c1 := Run(c, reqs).conn;
            Inv(c1) && !c1.dead && c1.streams == map[]
  {
    QueuedIsKept(c, reqs);
    StartThenAdvanceKeeps(Queued(c, |reqs|), reqs);
    var m := Advance(StartQueued(Queued(c, |reqs|), reqs)).1;
    LoopIsGood(m, reqs);
    SettledIsIdle(Loop(m, reqs), reqs);
    KeepsUnfinished(map[], map[]);
    assert Loop(m, reqs).conn.(streams := map[]) == Loop(m, reqs).conn;
  }

  /** Every batch is answered in full, one run after another, for as long as the connection outlives them. */
  ghost predicate Serves(c: Conn, batches: seq<seq<Request>>)
    requires Inv(c) && c.streams == map[]
    decreases |batches|
  {
    batches != [] ==>
      && Finished(Run(c, batches[0]), batches[0])
      && (Outlives(c, batches[0]) ==> (RunLeavesIdle(c, batches[0]); Serves(Run(c, batches[0]).conn, batches[1..])))
  }

  lemma {:induction false} ConnectionIsReusable(c: Conn, batches: seq<seq<Request>>)
    requires Inv(c) && c.streams == map[]
    ensures Serves(c, batches)
    decreases |batches|
  {
    if batches != [] {
      RunAnswersEveryRequest(c, batches[0]);
      if Outlives(c, batches[0]) {
        RunLeavesIdle(c, batches[0]);
        ConnectionIsReusable(Run(c, batches[0]).conn, batches[1..]);
      }
    }
  }
}

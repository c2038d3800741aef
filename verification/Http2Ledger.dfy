/**
 * Whole runs against the windows: every DATA frame of a run fitted both credits and the frame limit when it was
 * written.
 */
module Http2Ledger {
  import opened Http2Types
  import opened Http2Engine
  import opened Http2Frames
  import opened Http2Invariants
  import opened Http2Logs
  import opened Http2Pump
  import opened Http2Start
  import opened Http2Driver
  import opened SortedIds

  /** More was written, but no DATA. */
  predicate NoData(c: Conn, c1: Conn)
  {
    c.out <= c1.out && forall i :: |c.out| <= i < |c1.out| ==> c1.out[i].typ != F_DATA
  }

  /** No DATA, or a pump all of whose frames could be afforded when it wrote them. */
  ghost predicate Pays(c: Conn, c1: Conn)
  {
    NoData(c, c1) || (Ids(c) && Paid(c, c1, c.peer.maxFrameSize))
  }

  /** Some streams were forgotten. */
  ghost predicate Forgets(c: Conn, c1: Conn)
  {
    c1 == c.(streams := c1.streams) && forall id :: id in c1.streams ==>
      id in c.streams && c1.streams[id] == c.streams[id]
  }

  ghost predicate Starts(c: Conn, c1: Conn, reqs: seq<Request>)
  {
    |c.tables.huffman| == 257 && c.peer.maxFrameSize > 0
      && exists i :: 0 <= i < |reqs| && c1 == StartRequest(c, reqs[i]).1
  }

  /** What the driver does with a connection: read a frame, start a request, pump and flush, or forget streams. */
  ghost predicate Operation(c: Conn, c1: Conn, reqs: seq<Request>)
  {
    c1 == ReadAndDispatch(c).1 || c1 == FlushPending(c).1 || Starts(c, c1, reqs) || Forgets(c, c1)
  }

  /** The states a connection went through, one operation after another, each paid for. */
  ghost predicate Life(path: seq<Conn>, reqs: seq<Request>)
  {
    path != [] && forall k :: 0 < k < |path| ==> Operation(path[k - 1], path[k], reqs) && Pays(path[k - 1], path[k])
  }

  ghost predicate Leads(path: seq<Conn>, c: Conn, c1: Conn, reqs: seq<Request>)
  {
    Life(path, reqs) && path[0] == c && path[|path| - 1] == c1
  }

  lemma OneStep(c: Conn, c1: Conn, reqs: seq<Request>) returns (path: seq<Conn>)
    requires Operation(c, c1, reqs) && Pays(c, c1)
    ensures Leads(path, c, c1, reqs)
  {
    path := [c, c1];
  }

  lemma Forgotten(c: Conn, c1: Conn, reqs: seq<Request>) returns (path: seq<Conn>)
    requires Forgets(c, c1)
    ensures Leads(path, c, c1, reqs)
  {
    path := OneStep(c, c1, reqs);
  }

  lemma Join(a: seq<Conn>, b: seq<Conn>, c: Conn, d: Conn, e: Conn, reqs: seq<Request>) returns (path: seq<Conn>)
    requires Leads(a, c, d, reqs) && Leads(b, d, e, reqs)
    ensures Leads(path, c, e, reqs)
  {
    path := a + b[1..];
    forall k | 0 < k < |path|
      ensures Operation(path[k - 1], path[k], reqs) && Pays(path[k - 1], path[k])
    {
      if k < |a| {
        assert path[k] == a[k] && path[k - 1] == a[k - 1];
      } else {
        assert path[k] == b[k - |a| + 1];
        assert path[k - 1] == b[k - |a|];
      }
    }
  }

  // ----- steps without DATA -----

  lemma ControlIsNoData(c: Conn, c1: Conn, extra: seq<Frame>)
    requires c1.out == c.out + extra && forall f :: f in extra ==> Control(f)
    ensures NoData(c, c1)
  {
    forall i | |c.out| <= i < |c1.out|
      ensures c1.out[i].typ != F_DATA
    {
      assert c1.out[i] == extra[i - |c.out|] && extra[i - |c.out|] in extra;
    }
  }

  lemma ReadWritesNoData(c: Conn)
    requires Inv(c)
    ensures NoData(c, ReadAndDispatch(c).1)
  {
    if c.inbound != [] {
      var f := c.inbound[0];
      TakingInputKeepsInv(c);
      assert f in c.inbound;
      var c0 := c.(inbound := c.inbound[1..], accepted := c.accepted + [f]);
      var extra := DispatchStep(c0, f);
      ControlIsNoData(c0, ProcessFrame(c0, f).1, extra);
    }
  }

  lemma HeadersAreNoData(c: Conn, c1: Conn, fs: seq<Frame>, n: nat, id: nat, end: bool)
    requires HeaderFrames(fs, id, end) && n <= |fs| && c1.out == c.out + fs[..n]
    ensures NoData(c, c1)
  {
    forall i | |c.out| <= i < |c1.out|
      ensures c1.out[i].typ != F_DATA
    {
      assert c1.out[i] == fs[i - |c.out|];
    }
  }

  lemma StartWritesNoData(c: Conn, req: Request)
    requires Inv(c)
    ensures NoData(c, StartRequest(c, req).1)
  {
    OpenedStream(c);
    if MayOpen(c) {
      var fs, n := StageOutcome(c, req);
      HeadersAreNoData(c, StartRequest(c, req).1, fs, n, c.nextId, req.body == []);
    }
  }

  lemma {:induction false} StartQueuedPays(m: Mux, reqs: seq<Request>) returns (path: seq<Conn>)
    requires Kept(m, reqs)
    ensures Leads(path, m.conn, StartQueued(m, reqs).conn, reqs)
    decreases |m.queue|
  {
    if m.queue == [] || |m.conn.streams| >= m.conn.peer.maxConcurrentStreams {
      path := Forgotten(m.conn, m.conn, reqs);
    } else {
      path := StartOnePays(m, reqs);
      StartOneKeeps(m, reqs);
      var m1 := StartOne(m, reqs);
      var b := StartQueuedPays(m1, reqs);
      path := Join(path, b, m.conn, m1.conn, StartQueued(m1, reqs).conn, reqs);
    }
  }

  lemma StartOnePays(m: Mux, reqs: seq<Request>) returns (path: seq<Conn>)
    requires Kept(m, reqs) && m.queue != []
    ensures Leads(path, m.conn, StartOne(m, reqs).conn, reqs)
  {
    var i := m.queue[0];
    StartWritesNoData(m.conn, reqs[i]);
    assert Starts(m.conn, StartRequest(m.conn, reqs[i]).1, reqs);
    path := OneStep(m.conn, StartRequest(m.conn, reqs[i]).1, reqs);
  }

  lemma DeadStreamWritesNothing(c: Conn, id: nat, max: nat)
    requires c.budget == 0
    ensures PumpStream(c, id, max).1.out == c.out
  {
  }

  lemma {:induction false} DeadPumpWritesNothing(c: Conn, ids: seq<nat>, max: nat)
    requires c.budget == 0
    ensures PumpStreams(c, ids, max).1.out == c.out && PumpStreams(c, ids, max).1.budget == 0
    decreases |ids|
  {
    if ids != [] {
      DeadStreamWritesNothing(c, ids[0], max);
      var (ok, c') := PumpStream(c, ids[0], max);
      if ok {
        DeadPumpWritesNothing(c', ids[1..], max);
      }
    }
  }

  /** Every flush pays for what it writes. */
  lemma FlushPays(c: Conn)
    requires Inv(c)
    ensures Pays(c, FlushPending(c).1)
  {
    if c.dead {
      DeadPumpWritesNothing(c, Sorted(PendingIds(c)), c.peer.maxFrameSize);
    } else {
      FlushPendingStep(c);
    }
  }

  // ----- turns -----

  lemma FlushLeads(c: Conn, reqs: seq<Request>) returns (path: seq<Conn>)
    requires Inv(c)
    ensures Leads(path, c, FlushPending(c).1, reqs)
  {
    FlushPays(c);
    path := OneStep(c, FlushPending(c).1, reqs);
  }

  /** Forgetting some streams, starting some requests, and flushing. */
  lemma SettleStartAdvance(c: Conn, m: Mux, reqs: seq<Request>) returns (path: seq<Conn>)
    requires Kept(m, reqs) && Forgets(c, m.conn)
    ensures Leads(path, c, Advance(StartQueued(m, reqs)).1.conn, reqs)
  {
    StartQueuedKeeps(m, reqs);
    var m1 := StartQueued(m, reqs);
    path := Forgotten(c, m.conn, reqs);
    var a := StartQueuedPays(m, reqs);
    path := Join(path, a, c, m.conn, m1.conn, reqs);
    var b := FlushLeads(m1.conn, reqs);
    path := Join(path, b, c, m1.conn, Advance(m1).1.conn, reqs);
  }

  lemma SettleAdvance(c: Conn, m: Mux, reqs: seq<Request>) returns (path: seq<Conn>)
    requires Inv(m.conn) && Forgets(c, m.conn)
    ensures Leads(path, c, Advance(m).1.conn, reqs)
  {
    path := Forgotten(c, m.conn, reqs);
    var b := FlushLeads(m.conn, reqs);
    path := Join(path, b, c, m.conn, Advance(m).1.conn, reqs);
  }

  lemma AfterErrorPays(m: Mux, reqs: seq<Request>) returns (path: seq<Conn>)
    requires Kept(m, reqs)
    ensures Leads(path, m.conn, AfterError(m, reqs).1.conn, reqs)
  {
    if |Culprits(m)| != 1 {
      path := Forgotten(m.conn, m.conn, reqs);
    } else {
      FailStreamsKeeps(m, reqs, Culprits(m));
      path := SettleStartAdvance(m.conn, FailStreams(m, Culprits(m)), reqs);
    }
  }

  lemma AfterFramePays(m: Mux, reqs: seq<Request>, outcome: Outcome) returns (path: seq<Conn>)
    requires Good(m, reqs) && (outcome.Done? ==> outcome.id in m.conn.streams && m.conn.streams[outcome.id].Complete())
    ensures Leads(path, m.conn, AfterFrame(m, reqs, outcome).1.conn, reqs)
  {
    DoomedKeeps(m, reqs);
    var m1 := FailStreams(m, Doomed(m));
    if outcome.Done? && outcome.id in m1.idToIdx {
      ResolveKeeps(m1, reqs, outcome.id);
      path := SettleStartAdvance(m.conn, Resolve(m1, outcome.id), reqs);
    } else {
      path := SettleAdvance(m.conn, m1, reqs);
    }
  }

  lemma OneFramePays(m: Mux, reqs: seq<Request>) returns (path: seq<Conn>)
    requires Good(m, reqs)
    ensures Leads(path, m.conn, OneFrame(m, reqs).1.conn, reqs)
  {
    ReadKeeps(m, reqs);
    ReadWritesNoData(m.conn);
    var (r, c) := ReadAndDispatch(m.conn);
    var a := OneStep(m.conn, c, reqs);
    var b;
    match r {
      case Err => b := AfterErrorPays(m.(conn := c), reqs);
      case Ok(outcome) => b := AfterFramePays(m.(conn := c), reqs, outcome);
    }
    path := Join(a, b, m.conn, c, OneFrame(m, reqs).1.conn, reqs);
  }

  lemma LaunchPays(m: Mux, reqs: seq<Request>) returns (path: seq<Conn>)
    requires Inv(m.conn)
    ensures Leads(path, m.conn, Launch(m).1.conn, reqs)
  {
    if m.idToIdx == map[] {
      path := Forgotten(m.conn, m.conn, reqs);
    } else {
      path := FlushLeads(m.conn, reqs);
    }
  }

  lemma RefillPays(m: Mux, reqs: seq<Request>) returns (path: seq<Conn>)
    requires Good(m, reqs)
    ensures Leads(path, m.conn, Refill(m, reqs).1.conn, reqs)
  {
    if m.idToIdx == map[] && m.queue != [] {
      StartQueuedKeeps(m, reqs);
      var m1 := StartQueued(m, reqs);
      var a := StartQueuedPays(m, reqs);
      var b := LaunchPays(m1, reqs);
      path := Join(a, b, m.conn, m1.conn, Launch(m1).1.conn, reqs);
    } else {
      path := Forgotten(m.conn, m.conn, reqs);
    }
  }

  lemma TurnPays(m: Mux, reqs: seq<Request>) returns (path: seq<Conn>)
    requires Good(m, reqs)
    ensures Leads(path, m.conn, Turn(m, reqs).1.conn, reqs)
  {
    RefillKeeps(m, reqs);
    var (going, m1) := Refill(m, reqs);
    path := RefillPays(m, reqs);
    if going {
      var b := OneFramePays(m1, reqs);
      path := Join(path, b, m.conn, m1.conn, OneFrame(m1, reqs).1.conn, reqs);
    }
  }

  lemma {:induction false} LoopPays(m: Mux, reqs: seq<Request>) returns (path: seq<Conn>)
    requires Good(m, reqs)
    ensures Leads(path, m.conn, Loop(m, reqs).conn, reqs)
    decreases |m.conn.inbound|, Http2Driver.Open(m.results)
  {
    if Http2Driver.Open(m.results) == {} {
      path := Forgotten(m.conn, m.conn, reqs);
    } else {
      TurnKeeps(m, reqs);
      var (going, r) := Turn(m, reqs);
      path := TurnPays(m, reqs);
      if going {
        var b := LoopPays(r, reqs);
        path := Join(path, b, m.conn, r.conn, Loop(r, reqs).conn, reqs);
      }
    }
  }

  /**
   * A whole run is a sequence of operations on the connection, and every one is paid for: DATA is written by pumps
   * only, and each frame of a pump is non-empty and no larger than the frame limit and what was left of either
   * credit.
   */
  lemma RunPays(c: Conn, reqs: seq<Request>) returns (path: seq<Conn>)
    requires Inv(c) && c.streams == map[]
    ensures Leads(path, c, Run(c, reqs).conn, reqs)
  {
    QueuedIsKept(c, reqs);
    var m0 := Queued(c, |reqs|);
    StartThenAdvanceKeeps(m0, reqs);
    path := SettleStartAdvance(c, m0, reqs);
    var (going, m) := Advance(StartQueued(m0, reqs));
    if going {
      var b := LoopPays(m, reqs);
      path := Join(path, b, c, m.conn, Loop(m, reqs).conn, reqs);
      var last := Forgotten(Loop(m, reqs).conn, Run(c, reqs).conn, reqs);
      path := Join(path, last, c, Loop(m, reqs).conn, Run(c, reqs).conn, reqs);
    }
  }
}

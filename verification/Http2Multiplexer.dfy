/** The multiplexed run over a mutable connection: the loops of the driver, each tied to its function. */
module Http2Multiplexer {
  import opened Common
  import opened Http2Types
  import opened Http2Invariants
  import opened Http2Connection
  import E = Http2Engine
  import D = Http2Driver

  /** A run in progress: its requests, those still queued, the streams in flight and the outcomes. */
  class Multiplexer {
    const conn: Connection
    const reqs: seq<E.Request>
    var queue: seq<nat>
    var idToIdx: map<nat, nat>
    var results: seq<D.Slot>
    ghost var started: map<nat, nat>

    ghost predicate Valid()
      reads this, conn, conn.encoder, conn.decoder
    {
      && conn.Valid() && D.Runnable(View(), reqs)
      && forall i :: 0 <= i < |reqs| ==> Texts(reqs[i])
    }

    ghost function View(): D.Mux
      reads this, conn, conn.encoder, conn.decoder
    {
      D.Mux(conn.View(), queue, idToIdx, results, started)
    }

    /** All requests queued on a connection. */
    constructor (conn: Connection, reqs: seq<E.Request>)
      requires conn.Valid() && forall i :: 0 <= i < |reqs| ==> Texts(reqs[i])
      ensures Valid() && this.conn == conn && this.reqs == reqs && View() == D.Queued(conn.View(), |reqs|)
    {
      this.conn, this.reqs := conn, reqs;
      queue, idToIdx, results, started := seq(|reqs|, i => i), map[], seq(|reqs|, i => D.Unresolved), map[];
    }

    /** Starts queued requests until the peer's limit or the end of the queue. */
    method StartQueued()
      requires Valid()
      modifies this, conn, conn.encoder
      ensures Valid() && View() == D.StartQueued(old(View()), reqs)
    {
      ghost var goal := D.StartQueued(View(), reqs);
      while queue != [] && |conn.streams| < conn.peer.maxConcurrentStreams
        invariant Valid() && goal == D.StartQueued(View(), reqs)
        decreases |queue|
      {
        StartOne();
      }
    }

    method StartOne()
      requires Valid() && queue != []
      modifies this, conn, conn.encoder
      ensures Valid() && View() == D.StartOne(old(View()), reqs)
    {
      var idx := queue[0];
      var got := conn.StartRequest(reqs[idx]);
      queue := queue[1..];
      Register(idx, got);
    }

    /** Notes the stream a request got, or its failure to get one. */
    method Register(idx: nat, got: Option<nat>)
      requires idx < |results|
      modifies this`idToIdx, this`results, this`started
      ensures results == if got.None? then old(results)[idx := D.Failed] else old(results)
      ensures idToIdx == if got.None? then old(idToIdx) else old(idToIdx)[got.value := idx]
      ensures started == if got.None? then old(started) else old(started)[idx := got.value]
    {
      if got.None? {
        results := results[idx := D.Failed];
      } else {
        idToIdx := idToIdx[got.value := idx];
        started := started[idx := got.value];
      }
    }

    /** Finds the one stream in flight that is closed without a complete response, in whatever order they come. */
    method FindCulprit() returns (culprit: Option<nat>)
      ensures culprit.Some? <==> |D.Culprits(View())| == 1
      ensures culprit.Some? ==> D.Culprits(View()) == {culprit.value}
    {
      ghost var seen := {};
      var left := conn.streams.Keys;
      culprit := None;
      while left != {}
        invariant left <= conn.streams.Keys && seen == D.Culprits(View()) - left
        invariant seen == if culprit.Some? then {culprit.value} else {}
        decreases |left|
      {
        var id :| id in left;
        left := left - {id};
        var s := conn.streams[id];
        if id in idToIdx && s.state.Closed? && !s.Complete() {
          if culprit.Some? {
            TwoMembers(D.Culprits(View()), culprit.value, id);
            return None;
          }
          culprit := Some(id);
          seen := seen + {id};
        }
      }
    }

    method FailStream(id: nat)
      requires Valid() && id in idToIdx && idToIdx[id] < |results|
      modifies this, conn`streams
      ensures Valid() && View() == D.FailStreams(old(View()), {id})
    {
      FailOne(View(), id);
      results := results[idToIdx[id] := D.Failed];
      idToIdx := idToIdx - {id};
      conn.streams := conn.streams - {id};
    }

    /** Fails the streams a GOAWAY gave up, unless they had completed. */
    method FailGoAwayDoomed()
      requires Valid() && Routed(idToIdx, |results|)
      modifies this, conn`streams
      ensures Valid() && View() == D.FailStreams(old(View()), D.Doomed(old(View())))
    {
      ghost var was := View();
      FailNone(was);
      if conn.goawayReceived.None? {
        return;
      }
      var last := conn.goawayReceived.value;
      var doomed := set id | id in idToIdx && id > last && (id in conn.streams ==> !conn.streams[id].Complete());
      assert doomed == D.Doomed(was);
      ghost var m := was;
      var left := doomed;
      while left != {}
        invariant left <= doomed && Valid() && View() == m && FailedSoFar(was, doomed - left, m)
        decreases |left|
      {
        var id :| id in left;
        FailMore(was, doomed - left, id, m);
        FailStream(id);
        m := View();
        assert doomed - left + {id} == doomed - (left - {id});
        left := left - {id};
      }
      assert doomed - left == doomed;
    }

    /** Fails every unresolved request, in flight first, then queued. */
    method FailAllOutstanding()
      requires Valid() && Routed(idToIdx, |results|)
      modifies this`results
      ensures Valid() && View() == D.FailAll(old(View()))
    {
      FailInFlight();
      for k := 0 to |queue|
        invariant |results| == |old(results)|
        invariant forall i :: 0 <= i < |results| ==>
                  results[i] == FailedIf(old(results)[i], D.InFlight(idToIdx, i) || i in queue[..k])
      {
        if results[queue[k]].Unresolved? {
          results := results[queue[k] := D.Failed];
        }
      }
      assert queue[..|queue|] == queue;
    }

    /** Fails every unresolved request in flight, in whatever order they come. */
    method FailInFlight()
      requires Routed(idToIdx, |results|)
      modifies this`results
      ensures |results| == |old(results)|
      ensures forall i :: 0 <= i < |results| ==> results[i] == FailedIf(old(results)[i], D.InFlight(idToIdx, i))
    {
      var left := idToIdx.Keys;
      while left != {}
        invariant left <= idToIdx.Keys && |results| == |old(results)|
        invariant forall i :: 0 <= i < |results| ==> results[i] == FailedIf(old(results)[i], Visited(idToIdx, left, i))
        decreases |left|
      {
        var id :| id in left;
        VisitOne(idToIdx, left, id);
        left := left - {id};
        if results[idToIdx[id]].Unresolved? {
          results := results[idToIdx[id] := D.Failed];
        }
      }
    }

    /** Pumps and flushes; a failure fails everything outstanding and ends the run. */
    method Advance() returns (going: bool)
      requires Valid() && Routed(idToIdx, |results|)
      modifies this, conn
      ensures Valid() && (going, View()) == D.Advance(old(View()))
    {
      going := conn.FlushPending();
      if !going {
        FailAllOutstanding();
      }
    }

    /** With nothing in flight, the requests still queued get one more chance to start. */
    method Refill() returns (going: bool)
      requires Valid() && D.Good(View(), reqs)
      modifies this, conn, conn.encoder
      ensures Valid() && (going, View()) == D.Refill(old(View()), reqs)
    {
      if idToIdx != map[] {
        return true;
      }
      if queue == [] {
        return false;
      }
      StartedIsRouted(View(), reqs);
      StartQueued();
      going := Launch();
    }

    /** Pumps what was started; when nothing was, every queued request fails. */
    method Launch() returns (going: bool)
      requires Valid() && Routed(idToIdx, |results|)
      modifies this, conn
      ensures Valid() && (going, View()) == D.Launch(old(View()))
    {
      if idToIdx == map[] {
        FailAllOutstanding();
        queue := [];
        return false;
      }
      going := conn.FlushPending();
    }

    /** A dispatch error is charged to one stream, or ends the run. */
    method AfterError() returns (going: bool)
      requires Valid() && D.Kept(View(), reqs)
      modifies this, conn, conn.encoder
      ensures Valid() && (going, View()) == D.AfterError(old(View()), reqs)
    {
      var culprit := FindCulprit();
      if culprit.None? {
        FailAllOutstanding();
        return false;
      }
      FailedIsRouted(View(), reqs, culprit.value);
      FailStream(culprit.value);
      going := StartAndAdvance();
    }

    /** Settles what a dispatched frame settles, then makes outbound progress. */
    method AfterFrame(outcome: E.Outcome) returns (going: bool)
      requires Valid() && D.Good(View(), reqs)
      requires outcome.Done? ==> outcome.id in conn.streams && conn.streams[outcome.id].Complete()
      modifies this, conn, conn.encoder
      ensures Valid() && (going, View()) == D.AfterFrame(old(View()), reqs, outcome)
    {
      D.DoomedKeeps(View(), reqs);
      FailGoAwayDoomed();
      if outcome.Done? && outcome.id in idToIdx {
        ResolvedIsRouted(View(), reqs, outcome.id);
        Resolve(outcome.id);
        StartQueued();
      }
      going := Advance();
    }

    method Resolve(id: nat)
      requires Valid() && id in idToIdx && idToIdx[id] < |results| && id in conn.streams
      modifies this, conn`streams
      ensures Valid() && View() == D.Resolve(old(View()), id)
    {
      results := results[idToIdx[id] := D.Reply(conn.streams[id], |conn.accepted|)];
      idToIdx := idToIdx - {id};
      conn.streams := conn.streams - {id};
    }

    /** One turn of the loop. */
    method Turn() returns (going: bool)
      requires Valid() && D.Good(View(), reqs)
      modifies this, conn, conn.encoder, conn.decoder
      ensures Valid() && (going, View()) == D.Turn(old(View()), reqs)
    {
      ghost var m := View();
      D.RefillKeeps(m, reqs);
      going := Refill();
      if !going {
        return;
      }
      going := OneFrame();
    }

    /** Reads one frame and acts on it. */
    method OneFrame() returns (going: bool)
      requires Valid() && D.Good(View(), reqs)
      modifies this, conn, conn.encoder, conn.decoder
      ensures Valid() && (going, View()) == D.OneFrame(old(View()), reqs)
    {
      D.ReadKeeps(View(), reqs);
      var r := conn.ReadAndDispatch();
      match r
      case Err => going := AfterError();
      case Ok(outcome) => going := AfterFrame(outcome);
    }

    /** Runs every request to an outcome. */
    method Run()
      requires Valid() && Inv(conn.View()) && conn.streams == map[] && View() == D.Queued(conn.View(), |reqs|)
      modifies this, conn, conn.encoder, conn.decoder
      ensures Valid() && View() == D.Run(old(conn.View()), reqs) && D.Finished(View(), reqs)
    {
      ghost var c := conn.View();
      var going := Prime();
      ghost var m := View();
      Finish(going);
      RunEnds(c, reqs, going, m, View());
    }

    /** Takes the turns if the run goes on; then every slot without an outcome becomes a failure. */
    method Finish(going: bool)
      requires Valid() && (going ==> D.Good(View(), reqs))
      modifies this, conn, conn.encoder, conn.decoder
      ensures Valid()
      ensures var last := if going then Pruned(D.Loop(old(View()), reqs)) else old(View());
              View() == last.(results := D.Collect(last.results))
    {
      if going {
        TurnsThenPrune();
      }
      results := D.Collect(results);
    }

    /** Starts what may be started and sends what may be sent before the first turn. */
    method Prime() returns (going: bool)
      requires Valid() && Inv(conn.View()) && conn.streams == map[] && View() == D.Queued(conn.View(), |reqs|)
      modifies this, conn, conn.encoder
      ensures Valid() && (going, View()) == D.Advance(D.StartQueued(old(View()), reqs))
              && (going ==> D.Good(View(), reqs))
    {
      RunPrimes(conn.View(), reqs);
      going := StartAndAdvance();
    }

    method TurnsThenPrune()
      requires Valid() && D.Good(View(), reqs)
      modifies this, conn, conn.encoder, conn.decoder
      ensures Valid() && View() == Pruned(D.Loop(old(View()), reqs))
    {
      Turns();
      ghost var m := View();
      conn.PruneCompletedStreams();
      E.KeepsUnfinished(m.conn.streams, conn.streams);
    }

    method StartAndAdvance() returns (going: bool)
      requires Valid() && Routed(D.StartQueued(View(), reqs).idToIdx, |reqs|)
      modifies this, conn, conn.encoder
      ensures Valid() && (going, View()) == D.Advance(D.StartQueued(old(View()), reqs))
    {
      StartQueued();
      going := Advance();
    }

    method Turns()
      requires Valid() && D.Good(View(), reqs)
      modifies this, conn, conn.encoder, conn.decoder
      ensures Valid() && View() == D.Loop(old(View()), reqs)
    {
      ghost var m := View();
      ghost var goal := D.Loop(m, reqs);
      var going := true;
      while going && (exists i :: 0 <= i < |results| && results[i].Unresolved?)
        invariant Valid() && View() == m && LoopsTo(m, reqs, going, goal)
        decreases going, |m.conn.inbound|, D.Open(m.results)
      {
        LoopStep(m, reqs, goal);
        going := Turn();
        m := View();
      }
    }
  }

  lemma StartedIsRouted(m: D.Mux, reqs: seq<E.Request>)
    requires D.Kept(m, reqs)
    ensures var r := D.StartQueued(m, reqs);
            Routed(r.idToIdx, |r.results|)
  {
    D.StartQueuedKeeps(m, reqs);
  }

  lemma FailedIsRouted(m: D.Mux, reqs: seq<E.Request>, id: nat)
    requires D.Kept(m, reqs) && id in D.Culprits(m)
    ensures D.Runnable(D.FailStreams(m, {id}), reqs)
    ensures var r := D.StartQueued(D.FailStreams(m, {id}), reqs);
            Routed(r.idToIdx, |r.results|)
  {
    D.FailStreamsKeeps(m, reqs, {id});
    StartedIsRouted(D.FailStreams(m, {id}), reqs);
  }

  lemma ResolvedIsRouted(m: D.Mux, reqs: seq<E.Request>, id: nat)
    requires D.Good(m, reqs) && id in m.idToIdx && m.conn.streams[id].Complete()
    ensures D.Runnable(D.Resolve(m, id), reqs)
    ensures var r := D.StartQueued(D.Resolve(m, id), reqs);
            Routed(r.idToIdx, |r.results|)
  {
    D.ResolveKeeps(m, reqs, id);
    StartedIsRouted(D.Resolve(m, id), reqs);
  }

  lemma RunPrimes(c: E.Conn, reqs: seq<E.Request>)
    requires Inv(c) && c.streams == map[]
    ensures var m := D.Queued(c, |reqs|);
            && D.Kept(m, reqs) && D.Runnable(m, reqs)
            && var r := D.StartQueued(m, reqs);
               Routed(r.idToIdx, |r.results|) && (D.Advance(r).0 ==> D.Good(D.Advance(r).1, reqs))
  {
    D.QueuedIsKept(c, reqs);
    StartedIsRouted(D.Queued(c, |reqs|), reqs);
    D.StartThenAdvanceKeeps(D.Queued(c, |reqs|), reqs);
  }

  ghost function Pruned(m: D.Mux): D.Mux { m.(conn := m.conn.(streams := E.Unfinished(m.conn.streams))) }

  /** What a run ends with, from its parts. */
  lemma RunEnds(c: E.Conn, reqs: seq<E.Request>, going: bool, m: D.Mux, r: D.Mux)
    requires Inv(c) && c.streams == map[] && D.Runnable(D.Queued(c, |reqs|), reqs)
    requires (going, m) == D.Advance(D.StartQueued(D.Queued(c, |reqs|), reqs)) && (going ==> D.Good(m, reqs))
    requires var last := if going then Pruned(D.Loop(m, reqs)) else m;
             r == last.(results := D.Collect(last.results))
    ensures r == D.Run(c, reqs) && D.Finished(r, reqs)
  {
    D.RunAnswersEveryRequest(c, reqs);
  }

  /** What the loop still has to do leads to `goal`. */
  ghost predicate LoopsTo(m: D.Mux, reqs: seq<E.Request>, going: bool, goal: D.Mux)
  {
    if going then D.Good(m, reqs) && goal == D.Loop(m, reqs) else goal == m
  }

  lemma LoopStep(m: D.Mux, reqs: seq<E.Request>, goal: D.Mux)
    requires LoopsTo(m, reqs, true, goal) && exists i :: 0 <= i < |m.results| && m.results[i].Unresolved?
    ensures D.Good(m, reqs)
    ensures var (going, m1) := D.Turn(m, reqs);
            && LoopsTo(m1, reqs, going, goal)
            && (going ==> |m1.conn.inbound| < |m.conn.inbound|
                          || (|m1.conn.inbound| == |m.conn.inbound| && D.Open(m1.results) < D.Open(m.results)))
  {
    var i :| 0 <= i < |m.results| && m.results[i].Unresolved?;
    assert i in D.Open(m.results);
    D.TurnKeeps(m, reqs);
  }

  function FailedIf(slot: D.Slot, fails: bool): D.Slot { if slot.Unresolved? && fails then D.Failed else slot }

  predicate Routed(idToIdx: map<nat, nat>, n: nat) { forall id :: id in idToIdx ==> idToIdx[id] < n }

  /** What a request's texts must fit: their lengths are machine integers. */
  predicate Texts(req: E.Request)
  {
    forall f :: f in req.fields ==> |f.name| < U64 && |f.value| < U64
  }

  lemma TwoMembers(s: set<nat>, a: nat, b: nat)
    requires a in s && b in s && a != b
    ensures |s| != 1
  {
    assert b in s - {a};
    assert |s - {a}| == |s| - 1;
  }

  lemma FailNone(m: D.Mux)
    ensures D.FailStreams(m, {}) == m
  {
    assert m.conn.streams - {} == m.conn.streams && m.idToIdx - {} == m.idToIdx;
  }

  lemma FailOne(m: D.Mux, id: nat)
    requires id in m.idToIdx && m.idToIdx[id] < |m.results|
    ensures D.FailStreams(m, {id}).results == m.results[m.idToIdx[id] := D.Failed]
  {
    var idxs := set x | x in m.idToIdx && x in {id} :: m.idToIdx[x];
    assert id in {id};
    assert idxs == {m.idToIdx[id]};
  }

  /** Exactly the streams in `done` have been failed. */
  ghost predicate FailedSoFar(was: D.Mux, done: set<nat>, m: D.Mux)
  {
    m == D.FailStreams(was, done) && Routed(was.idToIdx, |was.results|)
  }

  lemma FailMore(was: D.Mux, done: set<nat>, id: nat, m: D.Mux)
    requires FailedSoFar(was, done, m) && id in was.idToIdx && id !in done
    ensures id in m.idToIdx && m.idToIdx[id] < |m.results|
    ensures FailedSoFar(was, done + {id}, D.FailStreams(m, {id}))
  {
    FailOne(m, id);
    var m1, more := D.FailStreams(m, {id}), D.FailStreams(was, done + {id});
    assert m1.conn.streams == more.conn.streams && m1.idToIdx == more.idToIdx;
    forall i | 0 <= i < |was.results|
      ensures more.results[i] == m1.results[i]
    {
      if i == was.idToIdx[id] {
        assert id in done + {id};
      }
    }
  }

  /** Some stream already looked at is routed to request `i`. */
  ghost predicate Visited(idToIdx: map<nat, nat>, left: set<nat>, i: nat)
  {
    exists id :: id in idToIdx && id !in left && idToIdx[id] == i
  }

  lemma VisitOne(idToIdx: map<nat, nat>, left: set<nat>, id: nat)
    requires id in left && left <= idToIdx.Keys
    ensures forall i :: Visited(idToIdx, left - {id}, i) <==> Visited(idToIdx, left, i) || i == idToIdx[id]
  {
    assert id !in left - {id};
    forall i
      ensures Visited(idToIdx, left - {id}, i) <==> Visited(idToIdx, left, i) || i == idToIdx[id]
    {
      if Visited(idToIdx, left, i) {
        var x :| x in idToIdx && x !in left && idToIdx[x] == i;
        assert x !in left - {id};
      }
    }
  }
}

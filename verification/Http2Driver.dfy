/**
 * The multiplexing driver: a scheduler that starts queued requests as the peer allows, dispatches one inbound frame
 * at a time, and routes each stream's outcome back to the slot of its request.
 */
module Http2Driver {
  import opened Common
  import opened FlowControl
  import opened Http2Types
  import opened Http2Engine
  import opened Http2Invariants
  import opened Http2Logs
  import opened Http2Pump
  import opened Http2Start

  /** A request's outcome; a reply remembers how many frames had been dispatched when it was taken. */
  datatype Slot = Unresolved | Reply(stream: Stream, seen: nat) | Failed

  /**
   * The driver's state: the requests not yet started, the request of each stream in flight, and the outcomes.
   * `started` is history: the stream opened for each request.
   */
  datatype Mux = Mux(conn: Conn, queue: seq<nat>, idToIdx: map<nat, nat>, results: seq<Slot>, started: map<nat, nat>)

  ghost predicate Runnable(m: Mux, reqs: seq<Request>)
  {
    && |m.conn.tables.huffman| == 257 && m.conn.peer.maxFrameSize > 0
    && |m.results| == |reqs| && forall i :: 0 <= i < |m.queue| ==> m.queue[i] < |reqs|
  }

  /** Starts queued requests until the peer's limit or the end of the queue; a request that cannot be opened fails. */
  ghost function StartQueued(m: Mux, reqs: seq<Request>): (r: Mux)
    requires Runnable(m, reqs)
    ensures Runnable(r, reqs)
    decreases |m.queue|
  {
    if m.queue == [] || |m.conn.streams| >= m.conn.peer.maxConcurrentStreams then m
    else StartQueued(StartOne(m, reqs), reqs)
  }

  ghost function StartOne(m: Mux, reqs: seq<Request>): (r: Mux)
    requires Runnable(m, reqs) && m.queue != []
    ensures Runnable(r, reqs) && r.queue == m.queue[1..]
  {
    var idx := m.queue[0];
    var (got, c) := StartRequest(m.conn, reqs[idx]);
    if got.None? then m.(conn := c, queue := m.queue[1..], results := m.results[idx := Failed])
    else m.(conn := c, queue := m.queue[1..], idToIdx := m.idToIdx[got.value := idx],
            started := m.started[idx := got.value])
  }

  /** In-flight streams that are closed without a complete response. */
  function Culprits(m: Mux): set<nat>
  {
    set id | id in m.conn.streams && id in m.idToIdx && m.conn.streams[id].state.Closed?
             && !m.conn.streams[id].Complete()
  }

  /** In-flight streams beyond the peer's last stream id that did not complete. */
  function Doomed(m: Mux): set<nat>
  {
    if m.conn.goaway.None? then {}
    else
      set id | id in m.idToIdx && id > m.conn.goaway.value
               && (id in m.conn.streams ==> !m.conn.streams[id].Complete())
  }

  /** Forgets streams in flight and fails their requests. */
  function FailStreams(m: Mux, ids: set<nat>): Mux
  {
    var idxs := set id | id in m.idToIdx && id in ids :: m.idToIdx[id];
    m.(conn := m.conn.(streams := m.conn.streams - ids), idToIdx := m.idToIdx - ids,
       results := seq(|m.results|, i requires 0 <= i < |m.results| => if i in idxs then Failed else m.results[i]))
  }

  predicate InFlight(idToIdx: map<nat, nat>, i: nat) { exists id :: id in idToIdx && idToIdx[id] == i }

  /** Fails every unresolved request that is in flight or queued. */
  function FailAll(m: Mux): Mux
  {
    m.(results := seq(|m.results|, i requires 0 <= i < |m.results| =>
         if m.results[i].Unresolved? && (InFlight(m.idToIdx, i) || i in m.queue) then Failed else m.results[i]))
  }

  /** Routes a completed stream to its request. */
  function Resolve(m: Mux, id: nat): Mux
    requires id in m.idToIdx && m.idToIdx[id] < |m.results| && id in m.conn.streams
  {
    m.(conn := m.conn.(streams := m.conn.streams - {id}), idToIdx := m.idToIdx - {id},
       results := m.results[m.idToIdx[id] := Reply(m.conn.streams[id], |m.conn.accepted|)])
  }

  /** Pumps and flushes; a failure fails everything outstanding and ends the run. */
  function Advance(m: Mux): (bool, Mux)
  {
    var (ok, c) := FlushPending(m.conn);
    var m1 := m.(conn := c);
    if ok then (true, m1) else (false, FailAll(m1))
  }

  /** Before a turn with nothing in flight: the requests still queued get one more chance to start. */
  ghost function Refill(m: Mux, reqs: seq<Request>): (bool, Mux)
    requires Runnable(m, reqs)
  {
    if m.idToIdx != map[] then (true, m)
    else if m.queue == [] then (false, m)
    else Launch(StartQueued(m, reqs))
  }

  /** Pumps what was started; when nothing was, every queued request fails. */
  ghost function Launch(m: Mux): (bool, Mux)
  {
    if m.idToIdx == map[] then (false, FailAll(m).(queue := []))
    else
      var (ok, c) := FlushPending(m.conn);
      (ok, m.(conn := c))
  }

  /** What a dispatch error means for the run. */
  ghost function AfterError(m: Mux, reqs: seq<Request>): (bool, Mux)
    requires Runnable(m, reqs)
  {
    if |Culprits(m)| != 1 then (false, FailAll(m))
    else Advance(StartQueued(FailStreams(m, Culprits(m)), reqs))
  }

  /** What a dispatched frame means for the run. */
  ghost function AfterFrame(m: Mux, reqs: seq<Request>, outcome: Outcome): (bool, Mux)
    requires Runnable(m, reqs)
    requires outcome.Done? ==> outcome.id in m.conn.streams
    requires forall id :: id in m.idToIdx ==> m.idToIdx[id] < |reqs|
  {
    var m1 := FailStreams(m, Doomed(m));
    if outcome.Done? && outcome.id in m1.idToIdx
    then Advance(StartQueued(Resolve(m1, outcome.id), reqs))
    else Advance(m1)
  }

  // ----- bookkeeping -----

  /**
   * The requests are partitioned: the last ones are queued in order, some of the others are in flight, each on its own
   * stream, and the rest are resolved.
   */
  ghost predicate Partition(n: nat, queue: seq<nat>, idToIdx: map<nat, nat>, results: seq<Slot>)
  {
    && |results| == n && |queue| <= n
    && (forall j :: 0 <= j < |queue| ==> queue[j] == n - |queue| + j)
    && (forall id :: id in idToIdx ==> idToIdx[id] < n - |queue| && results[idToIdx[id]].Unresolved?)
    && (forall x, y :: x in idToIdx && y in idToIdx && idToIdx[x] == idToIdx[y] ==> x == y)
    && (forall i :: n - |queue| <= i < n ==> results[i].Unresolved?)
    && (forall i :: 0 <= i < n - |queue| && results[i].Unresolved? ==> InFlight(idToIdx, i))
  }

  /** A reply is the response received on the one stream opened for its request, complete. */
  ghost predicate Answers(c: Conn, started: map<nat, nat>, i: nat, slot: Slot)
  {
    slot.Reply? ==>
      && i in started && slot.stream.id == started[i] && slot.stream.Complete()
      && started[i] in c.born && c.born[started[i]] <= slot.seen <= |c.accepted|
      && slot.stream.body == BodyOf(c.accepted[c.born[started[i]]..slot.seen], started[i])
  }

  /** The streams opened for requests are distinct, odd, increasing, and carry their request's body. */
  ghost predicate Openings(c: Conn, started: map<nat, nat>, reqs: seq<Request>, first: nat)
  {
    && (forall i :: i in started ==>
        i < first && first <= |reqs| && started[i] in c.staged && c.staged[started[i]] == reqs[i]
                                     && started[i] % 2 == 1 && started[i] < 0x8000_0000 && started[i] in c.born)
    && (forall i, j :: i in started && j in started && i < j ==> started[i] < started[j])
  }

  /** Every stream in flight is the one opened for the request it is routed to. */
  ghost predicate Routes(idToIdx: map<nat, nat>, started: map<nat, nat>)
  {
    forall id :: id in idToIdx ==> idToIdx[id] in started && started[idToIdx[id]] == id
  }

  /** The driver's invariant, whatever the transport's state. */
  ghost predicate Kept(m: Mux, reqs: seq<Request>)
  {
    && Inv(m.conn)
    && m.conn.streams.Keys == m.idToIdx.Keys
    && Partition(|reqs|, m.queue, m.idToIdx, m.results)
    && Openings(m.conn, m.started, reqs, |reqs| - |m.queue|)
    && Routes(m.idToIdx, m.started)
    && (forall i :: 0 <= i < |reqs| ==> Answers(m.conn, m.started, i, m.results[i]))
  }

  /** The invariant at the top of the loop. */
  ghost predicate Good(m: Mux, reqs: seq<Request>) { Kept(m, reqs) && !m.conn.dead }

  /** What every part of a turn leaves alone. */
  ghost predicate Extends(c: Conn, c1: Conn)
  {
    && c.accepted <= c1.accepted
    && (forall id :: id in c.staged ==> id in c1.staged && c1.staged[id] == c.staged[id])
    && (forall id :: id in c.born && id in c.staged ==> id in c1.born && c1.born[id] == c.born[id])
  }

  lemma AnswersPersist(c: Conn, c1: Conn, started: map<nat, nat>, i: nat, slot: Slot)
    requires Extends(c, c1) && Answers(c, started, i, slot) && (i in started ==> started[i] in c.staged)
    ensures Answers(c1, started, i, slot)
  {
    if slot.Reply? {
      var b := c.born[started[i]];
      assert c1.accepted[b..slot.seen] == c.accepted[b..slot.seen];
    }
  }

  /** Changing only the connection. */
  lemma ConnectionMoves(m: Mux, reqs: seq<Request>, c: Conn)
    requires Kept(m, reqs) && Inv(c) && c.streams.Keys == m.conn.streams.Keys && Extends(m.conn, c)
    ensures Kept(m.(conn := c), reqs)
  {
    forall i | 0 <= i < |reqs|
      ensures Answers(c, m.started, i, m.results[i])
    {
      AnswersPersist(m.conn, c, m.started, i, m.results[i]);
    }
  }

  // ----- starting requests -----

  function Open(results: seq<Slot>): set<nat>
  {
    set i: nat | i < |results| && results[i].Unresolved?
  }

  /** Resolved slots never change again. */
  predicate Later(results: seq<Slot>, results1: seq<Slot>)
  {
    |results1| == |results| && forall i :: 0 <= i < |results| && !results[i].Unresolved? ==> results1[i] == results[i]
  }

  lemma PartitionFail(n: nat, queue: seq<nat>, idToIdx: map<nat, nat>, results: seq<Slot>)
    requires Partition(n, queue, idToIdx, results) && queue != []
    ensures Partition(n, queue[1..], idToIdx, results[queue[0] := Failed])
  {
    assert queue[0] == n - |queue|;
  }

  lemma PartitionStart(n: nat, queue: seq<nat>, idToIdx: map<nat, nat>, results: seq<Slot>, id: nat)
    requires Partition(n, queue, idToIdx, results) && queue != [] && id !in idToIdx
    ensures Partition(n, queue[1..], idToIdx[id := queue[0]], results)
  {
    assert queue[0] == n - |queue|;
    var flight := idToIdx[id := queue[0]];
    forall i | 0 <= i < n - |queue| + 1 && results[i].Unresolved?
      ensures InFlight(flight, i)
    {
      if i == queue[0] {
        assert flight[id] == i;
      } else {
        var x :| x in idToIdx && idToIdx[x] == i;
        assert flight[x] == i;
      }
    }
  }

  /** A request keeps the stream it was started on, and no stream is opened beyond the peer's mark. */
  ghost predicate NewStarts(started: map<nat, nat>, started1: map<nat, nat>, mark: Option<nat>)
  {
    && (forall i :: i in started ==> i in started1 && started1[i] == started[i])
    && (forall i :: i in started1 && i !in started && mark.Some? ==> started1[i] <= mark.value)
  }

  /** What starting requests may change. */
  ghost predicate MoreStarted(m: Mux, r: Mux)
  {
    && Extends(m.conn, r.conn) && r.conn.inbound == m.conn.inbound && r.conn.accepted == m.conn.accepted
    && r.conn.goaway == m.conn.goaway
    && Later(m.results, r.results) && NewStarts(m.started, r.started, m.conn.goaway)
    && (forall id :: id in m.idToIdx ==> id in r.idToIdx && r.idToIdx[id] == m.idToIdx[id])
    && (forall id :: id in m.conn.streams ==> id in r.conn.streams && r.conn.streams[id] == m.conn.streams[id])
  }

  /** The connection after a start, as the driver needs to know it. */
  ghost predicate StartedConn(c: Conn, c1: Conn)
  {
    Inv(c1) && Extends(c, c1) && c1.inbound == c.inbound && c1.accepted == c.accepted && c1.goaway == c.goaway
  }

  lemma StartExtends(c: Conn, req: Request)
    requires Inv(c)
    ensures StartedConn(c, StartRequest(c, req).1)
  {
    StartKeepsInv(c, req);
  }

  lemma StartFails(m: Mux, reqs: seq<Request>, c: Conn)
    requires Kept(m, reqs) && m.queue != [] && StartedConn(m.conn, c) && c.streams == m.conn.streams
    ensures var r := m.(conn := c, queue := m.queue[1..], results := m.results[m.queue[0] := Failed]);
            Kept(r, reqs) && MoreStarted(m, r)
  {
    var r := m.(conn := c, queue := m.queue[1..], results := m.results[m.queue[0] := Failed]);
    PartitionFail(|reqs|, m.queue, m.idToIdx, m.results);
    StartOneAnswers(m, reqs, c, r);
  }

  lemma MoreOpenings(c: Conn, c1: Conn, started: map<nat, nat>, reqs: seq<Request>, first: nat, id: nat)
    requires Openings(c, started, reqs, first) && first < |reqs| && StartedConn(c, c1)
    requires id == c.nextId && Ids(c) && id % 2 == 1 && id < 0x8000_0000 && id in c1.born && id in c1.staged
             && c1.staged[id] == reqs[first]
    ensures Openings(c1, started[first := id], reqs, first + 1)
  {
  }

  lemma MoreRoutes(idToIdx: map<nat, nat>, started: map<nat, nat>, id: nat, idx: nat)
    requires Routes(idToIdx, started) && id !in idToIdx && forall x :: x in idToIdx ==> idToIdx[x] != idx
    ensures Routes(idToIdx[id := idx], started[idx := id])
  {
  }

  lemma SameKeys(streams: map<nat, Stream>, streams1: map<nat, Stream>, idToIdx: map<nat, nat>, id: nat, idx: nat)
    requires streams.Keys == idToIdx.Keys && id in streams1 && streams1 == streams[id := streams1[id]]
    ensures streams1.Keys == idToIdx[id := idx].Keys
  {
  }

  /** The driver's state once request `m.queue[0]` is in flight on `id`. */
  function WithStarted(m: Mux, c: Conn, id: nat): Mux
    requires m.queue != []
  {
    m.(conn := c, queue := m.queue[1..], idToIdx := m.idToIdx[id := m.queue[0]], started := m.started[m.queue[0] := id])
  }

  lemma NotYetStarted(m: Mux, reqs: seq<Request>)
    requires Kept(m, reqs) && m.queue != []
    ensures m.queue[0] < |reqs| && m.queue[0] !in m.started && m.conn.streams.Keys == m.idToIdx.Keys
  {
  }

  lemma StartIsMore(m: Mux, c: Conn, id: nat, req: Request)
    requires m.queue != [] && m.queue[0] !in m.started && m.conn.streams.Keys == m.idToIdx.Keys
    requires StartedConn(m.conn, c) && Started(m.conn, c, id, req)
    ensures id !in m.idToIdx && MoreStarted(m, WithStarted(m, c, id))
  {
  }

  lemma MoreStartedTwice(a: Mux, b: Mux, c: Mux)
    requires MoreStarted(a, b) && MoreStarted(b, c)
    ensures MoreStarted(a, c)
  {
  }

  lemma StartSucceeds(m: Mux, reqs: seq<Request>, c: Conn, id: nat)
    requires Kept(m, reqs) && m.queue != [] && StartedConn(m.conn, c) && Started(m.conn, c, id, reqs[m.queue[0]])
    ensures Kept(WithStarted(m, c, id), reqs) && MoreStarted(m, WithStarted(m, c, id))
  {
    var idx := m.queue[0];
    NotYetStarted(m, reqs);
    StartIsMore(m, c, id, reqs[idx]);
    PartitionStart(|reqs|, m.queue, m.idToIdx, m.results, id);
    StartOneAnswers(m, reqs, c, WithStarted(m, c, id));
    MoreOpenings(m.conn, c, m.started, reqs, idx, id);
    MoreRoutes(m.idToIdx, m.started, id, idx);
    SameKeys(m.conn.streams, c.streams, m.idToIdx, id, idx);
  }

  lemma StartOneKeeps(m: Mux, reqs: seq<Request>)
    requires Kept(m, reqs) && m.queue != []
    ensures Kept(StartOne(m, reqs), reqs) && MoreStarted(m, StartOne(m, reqs))
  {
    var idx := m.queue[0];
    var (got, c) := StartRequest(m.conn, reqs[idx]);
    StartKeepsInv(m.conn, reqs[idx]);
    StartExtends(m.conn, reqs[idx]);
    if got.None? {
      StartFails(m, reqs, c);
    } else {
      StartSucceeds(m, reqs, c, got.value);
    }
  }

  lemma StartOneAnswers(m: Mux, reqs: seq<Request>, c: Conn, r: Mux)
    requires Kept(m, reqs) && m.queue != [] && Extends(m.conn, c)
    requires |r.results| == |reqs| && r.conn == c
    requires r.results == m.results || r.results == m.results[m.queue[0] := Failed]
    requires r.started == m.started
             || (m.queue[0] in r.started && r.started == m.started[m.queue[0] := r.started[m.queue[0]]])
    ensures forall i :: 0 <= i < |reqs| ==> Answers(c, r.started, i, r.results[i])
  {
    forall i | 0 <= i < |reqs|
      ensures Answers(c, r.started, i, r.results[i])
    {
      AnswersPersist(m.conn, c, m.started, i, m.results[i]);
    }
  }

  lemma {:induction false} StartQueuedKeeps(m: Mux, reqs: seq<Request>)
    requires Kept(m, reqs)
    ensures Kept(StartQueued(m, reqs), reqs) && MoreStarted(m, StartQueued(m, reqs))
    decreases |m.queue|
  {
    if m.queue != [] && |m.conn.streams| < m.conn.peer.maxConcurrentStreams {
      StartOneKeeps(m, reqs);
      var m1 := StartOne(m, reqs);
      StartQueuedKeeps(m1, reqs);
      MoreStartedTwice(m, m1, StartQueued(m1, reqs));
    }
  }

  // ----- resolving requests -----

  /** Taking streams out of flight together with settling their requests keeps the partition. */
  lemma PartitionSettle(n: nat, queue: seq<nat>, idToIdx: map<nat, nat>, results: seq<Slot>, ids: set<nat>,
                        results1: seq<Slot>)
    requires Partition(n, queue, idToIdx, results) && ids <= idToIdx.Keys && |results1| == n
    requires forall i :: 0 <= i < n ==>
      if exists id :: id in ids && idToIdx[id] == i then !results1[i].Unresolved? else results1[i] == results[i]
    ensures Partition(n, queue, idToIdx - ids, results1) && Later(results, results1)
    ensures forall id :: id in ids ==> !results1[idToIdx[id]].Unresolved?
  {
    forall i | 0 <= i < n - |queue| && results1[i].Unresolved?
      ensures InFlight(idToIdx - ids, i)
    {
      var x :| x in idToIdx && idToIdx[x] == i;
      assert (idToIdx - ids)[x] == i;
    }
  }

  /** Every slot after some streams in flight were failed. */
  lemma FailedSlots(m: Mux, ids: set<nat>)
    requires ids <= m.idToIdx.Keys
    ensures var r := FailStreams(m, ids);
            |r.results| == |m.results| && forall i :: 0 <= i < |m.results| ==>
              r.results[i] == if exists id :: id in ids && m.idToIdx[id] == i then Failed else m.results[i]
  {
    var idxs := set id | id in m.idToIdx && id in ids :: m.idToIdx[id];
    forall i | 0 <= i < |m.results|
      ensures i in idxs <==> exists id :: id in ids && m.idToIdx[id] == i
    {
    }
  }

  lemma FailStreamsKeeps(m: Mux, reqs: seq<Request>, ids: set<nat>)
    requires Kept(m, reqs) && ids <= m.idToIdx.Keys
    ensures var r := FailStreams(m, ids);
            && Kept(r, reqs) && Later(m.results, r.results)
            && (forall id :: id in ids ==> r.results[m.idToIdx[id]] == Failed)
  {
    FailedSlots(m, ids);
    var r := FailStreams(m, ids);
    assert forall id :: id in ids ==> r.results[m.idToIdx[id]] == Failed;
    PartitionSettle(|reqs|, m.queue, m.idToIdx, m.results, ids, r.results);
    FewerStreamsKeepInv(m.conn, m.conn.streams - ids);
    SettledKeeps(m, reqs, ids, r);
  }

  lemma SettledKeeps(m: Mux, reqs: seq<Request>, ids: set<nat>, r: Mux)
    requires Kept(m, reqs)
             && r == m.(conn := m.conn.(streams := m.conn.streams - ids), idToIdx := m.idToIdx - ids,
                        results := r.results)
    requires Inv(r.conn) && Partition(|reqs|, r.queue, r.idToIdx, r.results)
    requires forall i :: 0 <= i < |reqs| ==> r.results[i] == m.results[i] || Answers(m.conn, m.started, i, r.results[i])
    ensures Kept(r, reqs)
  {
    assert r.conn.streams.Keys == r.idToIdx.Keys;
    forall i | 0 <= i < |reqs|
      ensures Answers(r.conn, r.started, i, r.results[i])
    {
      AnswersPersist(m.conn, r.conn, m.started, i, r.results[i]);
    }
  }

  /** A reply taken from a connection whose accounts are right is the answer. */
  lemma ReplyAnswers(c: Conn, started: map<nat, nat>, i: nat, id: nat)
    requires Inv(c) && !c.dead && id in c.streams && c.streams[id].Complete() && i in started && started[i] == id
    ensures Answers(c, started, i, Reply(c.streams[id], |c.accepted|))
  {
    assert Accounted(c, id);
    assert c.accepted[c.born[id]..] == c.accepted[c.born[id]..|c.accepted|];
  }

  lemma ResolveKeeps(m: Mux, reqs: seq<Request>, id: nat)
    requires Good(m, reqs) && id in m.idToIdx && m.conn.streams[id].Complete()
    ensures Good(Resolve(m, id), reqs) && Later(m.results, Resolve(m, id).results)
    ensures Resolve(m, id).results[m.idToIdx[id]] == Reply(m.conn.streams[id], |m.conn.accepted|)
  {
    var r := Resolve(m, id);
    ReplyAnswers(m.conn, m.started, m.idToIdx[id], id);
    assert id in {id};
    PartitionSettle(|reqs|, m.queue, m.idToIdx, m.results, {id}, r.results);
    FewerStreamsKeepInv(m.conn, m.conn.streams - {id});
    SettledKeeps(m, reqs, {id}, r);
  }

  // ----- the end of a run -----

  /** The logs are right, streams were opened as they should, and every reply given so far is an answer. */
  ghost predicate Answered(m: Mux, reqs: seq<Request>)
  {
    Logged(m.conn) && Openings(m.conn, m.started, reqs, |reqs|) && |m.results| == |reqs|
      && forall i :: 0 <= i < |reqs| ==> Answers(m.conn, m.started, i, m.results[i])
  }

  /** Moreover every request has its outcome. */
  ghost predicate Finished(m: Mux, reqs: seq<Request>)
  {
    Answered(m, reqs) && Open(m.results) == {}
  }

  lemma FailAllFinishes(m: Mux, reqs: seq<Request>)
    requires Partition(|reqs|, m.queue, m.idToIdx, m.results) && Answered(m, reqs)
    ensures Finished(FailAll(m), reqs) && Later(m.results, FailAll(m).results)
  {
    forall i | 0 <= i < |reqs|
      ensures !FailAll(m).results[i].Unresolved?
    {
      if i >= |reqs| - |m.queue| {
        assert m.queue[i - (|reqs| - |m.queue|)] == i;
      }
    }
  }

  // ----- turns -----

  lemma LaterOpen(results: seq<Slot>, results1: seq<Slot>)
    requires Later(results, results1)
    ensures Open(results1) <= Open(results)
  {
  }

  lemma AnsweredLater(m: Mux, reqs: seq<Request>, c: Conn)
    requires Kept(m, reqs) && Extends(m.conn, c) && Logged(c)
    ensures Answered(m.(conn := c), reqs)
  {
    forall i | 0 <= i < |reqs|
      ensures Answers(c, m.started, i, m.results[i])
    {
      AnswersPersist(m.conn, c, m.started, i, m.results[i]);
    }
  }

  lemma FlushPendingExtends(m: Mux, reqs: seq<Request>)
    requires Kept(m, reqs)
    ensures var (ok, c) := FlushPending(m.conn);
            && Extends(m.conn, c) && c.inbound == m.conn.inbound && (ok ==> Good(m.(conn := c), reqs))
            && Answered(m.(conn := c), reqs)
  {
    var (ok, c) := FlushPending(m.conn);
    if !m.conn.dead {
      FlushPendingStep(m.conn);
      if ok {
        ConnectionMoves(m, reqs, c);
      }
    } else {
      DeadFlushPending(m.conn);
    }
    AnsweredLater(m, reqs, c);
  }

  lemma AdvanceKeeps(m: Mux, reqs: seq<Request>)
    requires Kept(m, reqs)
    ensures var (going, r) := Advance(m);
            && r.started == m.started && Later(m.results, r.results) && r.conn.inbound == m.conn.inbound
            && (if going then Good(r, reqs) else Finished(r, reqs))
  {
    FlushPendingExtends(m, reqs);
    var m1 := m.(conn := FlushPending(m.conn).1);
    if !FlushPending(m.conn).0 {
      FailAllFinishes(m1, reqs);
    }
  }

  lemma StartThenAdvanceKeeps(m: Mux, reqs: seq<Request>)
    requires Kept(m, reqs)
    ensures var (going, r) := Advance(StartQueued(m, reqs));
            && NewStarts(m.started, r.started, m.conn.goaway) && Later(m.results, r.results)
            && r.conn.inbound == m.conn.inbound
            && (if going then Good(r, reqs) else Finished(r, reqs))
  {
    StartQueuedKeeps(m, reqs);
    AdvanceKeeps(StartQueued(m, reqs), reqs);
  }

  lemma GoodIsAnswered(m: Mux, reqs: seq<Request>)
    requires Kept(m, reqs)
    ensures Answered(m, reqs)
  {
  }

  lemma GivenUp(m: Mux, reqs: seq<Request>)
    requires Answered(m, reqs)
    ensures Answered(m.(queue := []), reqs)
  {
  }

  lemma LaunchKeeps(m: Mux, reqs: seq<Request>)
    requires Kept(m, reqs)
    ensures var (going, r) := Launch(m);
            && r.started == m.started && Later(m.results, r.results) && r.conn.inbound == m.conn.inbound
            && (going ==> r.conn.goaway == m.conn.goaway)
            && (if going then Good(r, reqs) else Answered(r, reqs))
  {
    GoodIsAnswered(m, reqs);
    if m.idToIdx == map[] {
      FailAllFinishes(m, reqs);
      GivenUp(FailAll(m), reqs);
    } else {
      FlushPendingExtends(m, reqs);
    }
  }

  lemma LaterTwice(a: seq<Slot>, b: seq<Slot>, c: seq<Slot>)
    requires Later(a, b) && Later(b, c)
    ensures Later(a, c)
  {
  }

  /** What a refill may do to the driver. */
  ghost predicate Refilled(m: Mux, going: bool, r: Mux, reqs: seq<Request>)
  {
    && NewStarts(m.started, r.started, m.conn.goaway) && Later(m.results, r.results) && r.conn.inbound == m.conn.inbound
    && (going ==> r.conn.goaway == m.conn.goaway)
    && (if going then Good(r, reqs) else Answered(r, reqs))
  }

  lemma NothingRefilled(m: Mux, going: bool, reqs: seq<Request>)
    requires Good(m, reqs)
    ensures Refilled(m, going, m, reqs)
  {
    GoodIsAnswered(m, reqs);
  }

  lemma StartThenLaunchKeeps(m: Mux, reqs: seq<Request>)
    requires Kept(m, reqs)
    ensures Refilled(m, Launch(StartQueued(m, reqs)).0, Launch(StartQueued(m, reqs)).1, reqs)
  {
    StartQueuedKeeps(m, reqs);
    var m1 := StartQueued(m, reqs);
    LaunchKeeps(m1, reqs);
    LaterTwice(m.results, m1.results, Launch(m1).1.results);
  }

  lemma RefillKeeps(m: Mux, reqs: seq<Request>)
    requires Good(m, reqs)
    ensures Runnable(m, reqs)
    ensures Refilled(m, Refill(m, reqs).0, Refill(m, reqs).1, reqs)
  {
    NothingRefilled(m, m.idToIdx != map[], reqs);
    StartThenLaunchKeeps(m, reqs);
  }

  lemma ReadKeeps(m: Mux, reqs: seq<Request>)
    requires Good(m, reqs)
    ensures var (r, c) := ReadAndDispatch(m.conn);
            && Kept(m.(conn := c), reqs) && Consumed(m.conn, c, r) && (r.Ok? ==> Good(m.(conn := c), reqs))
  {
    ReadKeepsInv(m.conn);
    ConnectionMoves(m, reqs, ReadAndDispatch(m.conn).1);
  }

  lemma AfterErrorKeeps(m: Mux, reqs: seq<Request>)
    requires Kept(m, reqs)
    ensures var (going, r) := AfterError(m, reqs);
            && NewStarts(m.started, r.started, m.conn.goaway) && Later(m.results, r.results)
            && r.conn.inbound == m.conn.inbound
            && (if going then Good(r, reqs) && Open(r.results) < Open(m.results) else Finished(r, reqs))
  {
    if |Culprits(m)| != 1 {
      FailAllFinishes(m, reqs);
    } else {
      var id :| id in Culprits(m);
      var failed := FailStreams(m, Culprits(m));
      FailStreamsKeeps(m, reqs, Culprits(m));
      StartThenAdvanceKeeps(failed, reqs);
      SettledOnce(m.results, failed.results, Advance(StartQueued(failed, reqs)).1.results, m.idToIdx[id]);
    }
  }

  lemma SettledOnce(a: seq<Slot>, b: seq<Slot>, c: seq<Slot>, i: nat)
    requires Later(a, b) && Later(b, c) && i < |a| && a[i].Unresolved? && !b[i].Unresolved?
    ensures Later(a, c) && Open(c) < Open(a)
  {
    LaterOpen(a, c);
    assert i in Open(a) && i !in Open(c);
  }

  lemma DoneKeeps(m: Mux, reqs: seq<Request>, id: nat)
    requires Good(m, reqs) && id in m.idToIdx && m.conn.streams[id].Complete()
    ensures var (going, r) := Advance(StartQueued(Resolve(m, id), reqs));
            && NewStarts(m.started, r.started, m.conn.goaway) && Later(m.results, r.results)
            && r.conn.inbound == m.conn.inbound
            && (if going then Good(r, reqs) else Finished(r, reqs))
  {
    ResolveKeeps(m, reqs, id);
    StartThenAdvanceKeeps(Resolve(m, id), reqs);
  }

  /** Failing the streams a GOAWAY gave up leaves the others as they are. */
  lemma DoomedKeeps(m: Mux, reqs: seq<Request>)
    requires Good(m, reqs)
    ensures var m1 := FailStreams(m, Doomed(m));
            && Good(m1, reqs) && Later(m.results, m1.results) && m1.conn.inbound == m.conn.inbound
            && (forall id :: id in m1.idToIdx ==> id in m.conn.streams && m1.conn.streams[id] == m.conn.streams[id])
  {
    FailStreamsKeeps(m, reqs, Doomed(m));
  }

  lemma AfterFrameKeeps(m: Mux, reqs: seq<Request>, outcome: Outcome)
    requires Good(m, reqs) && (outcome.Done? ==> outcome.id in m.conn.streams && m.conn.streams[outcome.id].Complete())
    ensures var (going, r) := AfterFrame(m, reqs, outcome);
            && NewStarts(m.started, r.started, m.conn.goaway) && Later(m.results, r.results)
            && r.conn.inbound == m.conn.inbound
            && (if going then Good(r, reqs) else Finished(r, reqs))
  {
    DoomedKeeps(m, reqs);
    var m1 := FailStreams(m, Doomed(m));
    if outcome.Done? && outcome.id in m1.idToIdx {
      DoneKeeps(m1, reqs, outcome.id);
    } else {
      AdvanceKeeps(m1, reqs);
    }
  }

  /** Reads one frame and acts on it. */
  ghost function OneFrame(m: Mux, reqs: seq<Request>): (bool, Mux)
    requires Good(m, reqs)
  {
    var (r, c) := ReadAndDispatch(m.conn);
    ReadKeeps(m, reqs);
    match r
    case Err => AfterError(m.(conn := c), reqs)
    case Ok(outcome) => AfterFrame(m.(conn := c), reqs, outcome)
  }

  lemma OneFrameKeeps(m: Mux, reqs: seq<Request>)
    requires Good(m, reqs)
    ensures var (going, r) := OneFrame(m, reqs);
            && NewStarts(m.started, r.started, ReadAndDispatch(m.conn).1.goaway) && Later(m.results, r.results)
            && (if going then Good(r, reqs)
                && (|r.conn.inbound| < |m.conn.inbound|
                    || (r.conn.inbound == m.conn.inbound && Open(r.results) < Open(m.results)))
                else Answered(r, reqs))
  {
    var (r, c) := ReadAndDispatch(m.conn);
    ReadKeeps(m, reqs);
    match r
    case Err => AfterErrorKeeps(m.(conn := c), reqs);
    case Ok(outcome) => AfterFrameKeeps(m.(conn := c), reqs, outcome);
  }

  /** One turn of the driver's loop: refill if nothing is in flight, read one frame, act on it. */
  ghost function Turn(m: Mux, reqs: seq<Request>): (bool, Mux)
    requires Good(m, reqs)
  {
    var (going, m1) := Refill(m, reqs);
    RefillKeeps(m, reqs);
    if going then OneFrame(m1, reqs) else (false, m1)
  }

  /** With requests in flight a turn is just one frame. */
  lemma TurnIsOneFrame(m: Mux, reqs: seq<Request>)
    requires Good(m, reqs) && m.idToIdx != map[]
    ensures Turn(m, reqs) == OneFrame(m, reqs)
  {
  }

  /** A turn keeps the invariant and the outcomes already given; it reads a frame or settles a request. */
  lemma TurnKeeps(m: Mux, reqs: seq<Request>)
    requires Good(m, reqs)
    ensures var (going, r) := Turn(m, reqs);
            && Later(m.results, r.results)
            && (if going then Good(r, reqs)
                && (|r.conn.inbound| < |m.conn.inbound|
                    || (r.conn.inbound == m.conn.inbound && Open(r.results) < Open(m.results)))
                else Answered(r, reqs))
  {
    var (going, m1) := Refill(m, reqs);
    RefillKeeps(m, reqs);
    LaterOpen(m.results, m1.results);
    if going {
      OneFrameKeeps(m1, reqs);
    }
  }

  /** Turns until every request has an outcome or the run ends early. */
  ghost function Loop(m: Mux, reqs: seq<Request>): Mux
    requires Good(m, reqs)
    decreases |m.conn.inbound|, Open(m.results)
  {
    if Open(m.results) == {} then m
    else
      var (going, r) := Turn(m, reqs);
      TurnKeeps(m, reqs);
      if going then Loop(r, reqs) else r
  }

  function Collect(results: seq<Slot>): seq<Slot>
  {
    seq(|results|, i requires 0 <= i < |results| => if results[i].Unresolved? then Failed else results[i])
  }

  /** All requests queued, nothing in flight. */
  function Queued(c: Conn, n: nat): Mux
  {
    Mux(c, seq(n, i => i), map[], seq(n, i => Unresolved), map[])
  }

  lemma QueuedIsKept(c: Conn, reqs: seq<Request>)
    requires Inv(c) && c.streams == map[]
    ensures Kept(Queued(c, |reqs|), reqs)
  {
  }

  /** A whole run on an idle connection: prime, flush, loop, collect. */
  ghost function Run(c: Conn, reqs: seq<Request>): Mux
    requires Inv(c) && c.streams == map[]
  {
    QueuedIsKept(c, reqs);
    StartThenAdvanceKeeps(Queued(c, |reqs|), reqs);
    var (going, m) := Advance(StartQueued(Queued(c, |reqs|), reqs));
    var r := if going then Loop(m, reqs) else m;
    r.(conn := r.conn.(streams := if going then Unfinished(r.conn.streams) else r.conn.streams),
       results := Collect(r.results))
  }

  lemma {:induction false} LoopAnswers(m: Mux, reqs: seq<Request>)
    requires Good(m, reqs)
    ensures Answered(Loop(m, reqs), reqs) && Later(m.results, Loop(m, reqs).results)
    decreases |m.conn.inbound|, Open(m.results)
  {
    if Open(m.results) != {} {
      TurnKeeps(m, reqs);
      var (going, r) := Turn(m, reqs);
      if going {
        LoopAnswers(r, reqs);
      }
    }
  }

  /**
   * Every run ends with one outcome per request, and a reply in slot i is the complete response received on the one
   * stream opened for request i, its body the DATA dispatched for that stream since it was opened.
   */
  lemma RunAnswersEveryRequest(c: Conn, reqs: seq<Request>)
    requires Inv(c) && c.streams == map[]
    ensures Finished(Run(c, reqs), reqs)
  {
    QueuedIsKept(c, reqs);
    StartThenAdvanceKeeps(Queued(c, |reqs|), reqs);
    var (going, m) := Advance(StartQueued(Queued(c, |reqs|), reqs));
    if going {
      LoopAnswers(m, reqs);
      CollectFinishes(Loop(m, reqs), reqs, Unfinished(Loop(m, reqs).conn.streams));
    } else {
      CollectFinishes(m, reqs, m.conn.streams);
    }
  }

  lemma CollectFinishes(m: Mux, reqs: seq<Request>, left: map<nat, Stream>)
    requires Answered(m, reqs) && forall id :: id in left ==> id in m.conn.streams && left[id] == m.conn.streams[id]
    ensures Finished(m.(conn := m.conn.(streams := left), results := Collect(m.results)), reqs)
  {
    forall i | 0 <= i < |reqs|
      ensures Answers(m.conn, m.started, i, Collect(m.results)[i])
    {
      assert Answers(m.conn, m.started, i, m.results[i]);
    }
  }

  /**
   * What every run leaves behind, spelled out: the connection window is the credit received less the DATA written; each
   * request that got a stream has sent the front of its body there, with END_STREAM exactly on the frame that completed
   * it; and the streams opened are odd, increasing with the requests, and below 2^31.
   */
  lemma RunKeepsAccounts(c: Conn, reqs: seq<Request>, i: nat, j: nat)
    requires Inv(c) && c.streams == map[]
    ensures var m := Run(c, reqs);
            && m.conn.connSend == DEFAULT_WINDOW + Increments(m.conn.accepted, 0) - DataTotal(m.conn.out)
            && 0 <= m.conn.connSend <= WINDOW_MAX
            && (i in m.started ==>
                  && i < |reqs| && m.started[i] % 2 == 1 && m.started[i] < 0x8000_0000
                  && DataOf(m.conn.out, m.started[i]) <= reqs[i].body
                  && (Ended(m.conn.out, m.started[i]) <==> DataOf(m.conn.out, m.started[i]) == reqs[i].body))
            && (i in m.started && j in m.started && i < j ==> m.started[i] < m.started[j])
  {
    RunAnswersEveryRequest(c, reqs);
    var m := Run(c, reqs);
    if i in m.started {
      assert BodySent(m.conn.out, m.started[i], m.conn.staged[m.started[i]].body);
    }
  }
}

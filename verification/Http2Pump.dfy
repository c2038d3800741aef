/** The body pump: it never overdraws a window, it loses no byte, and it stops only when nothing more can be sent. */
module Http2Pump {
  import opened Common
  import opened FlowControl
  import opened Http2Types
  import opened Http2Engine
  import opened Http2Frames
  import opened Http2Invariants
  import opened Http2Logs
  import opened SortedIds

  // ----- what may be sent -----

  /** Everything the peer has ever let the connection send. */
  function ConnectionCredit(c: Conn): int { DEFAULT_WINDOW + Increments(c.accepted, 0) }

  /** Everything the peer has ever let the stream send. */
  function StreamCredit(c: Conn, id: nat): int
    requires id in c.streams && id in c.born && c.born[id] <= |c.accepted|
  {
    c.streams[id].sendWindow.initialPeer + Increments(c.accepted[c.born[id]..], id)
  }

  /** `f`, written after `before`, is a DATA frame no larger than `max` and than what is left of either credit. */
  ghost predicate Affordable(c: Conn, before: seq<Frame>, f: Frame, max: nat)
    requires Ids(c)
  {
    && f.typ == F_DATA && f.id in c.streams && 0 < |f.payload| <= max
    && |f.payload| <= ConnectionCredit(c) - DataTotal(before)
    && |f.payload| <= StreamCredit(c, f.id) - |DataOf(before, f.id)|
  }

  /** `c1` is `c` after some affordable DATA frames. */
  ghost predicate Paid(c: Conn, c1: Conn, max: nat)
    requires Ids(c)
  {
    && c1 == c.(connSend := c1.connSend, streams := c1.streams, budget := c1.budget, dead := c1.dead, out := c1.out)
    && c1.connSend <= c.connSend && c1.budget <= c.budget && (c.dead ==> c1.dead) && c.out <= c1.out
    && c1.streams.Keys == c.streams.Keys
    && (forall id :: id in c.streams ==> OnlySent(c.streams[id], c1.streams[id]))
    && (forall i :: |c.out| <= i < |c1.out| ==> Affordable(c, c1.out[..i], c1.out[i], max))
  }

  predicate OnlySent(s: Stream, s1: Stream)
  {
    s1 == s.(state := s1.state, sendWindow := SendWindow(s1.sendWindow.available, s.sendWindow.initialPeer),
             pendingBody := s1.pendingBody)
  }

  lemma PaidNothing(c: Conn, max: nat)
    requires Ids(c)
    ensures Paid(c, c, max)
  {
  }

  lemma PaidTwice(c: Conn, c1: Conn, c2: Conn, max: nat)
    requires Ids(c) && Ids(c1) && Paid(c, c1, max) && Paid(c1, c2, max)
    ensures Paid(c, c2, max)
  {
    forall i | |c.out| <= i < |c2.out|
      ensures Affordable(c, c2.out[..i], c2.out[i], max)
    {
      if i < |c1.out| {
        assert Affordable(c, c1.out[..i], c1.out[i], max);
        assert c2.out[..i] == c1.out[..i];
      } else {
        assert Affordable(c1, c2.out[..i], c2.out[i], max);
      }
    }
  }

  // ----- one chunk -----

  function ChunkSize(c: Conn, id: nat, max: nat): nat
    requires id in c.streams && c.streams[id].pendingBody.Some?
    requires c.streams[id].pendingBody.value.sent <= |c.streams[id].pendingBody.value.bytes|
  {
    NextDataChunkSize(max, SendBudget(c, c.streams[id]), Left(c.streams[id].pendingBody))
  }

  /** The account of a stream after its next chunk was written. */
  lemma ChunkAccount(s: Stream, id: nat, out: seq<Frame>, since: seq<Frame>, n: nat, f: Frame, s1: Stream)
    requires s.pendingBody.Some? && StreamAccount(s, id, out, since, s.pendingBody.value.bytes)
    requires var pb := s.pendingBody.value;
             && pb.sent + n <= |pb.bytes| && f.payload == pb.bytes[pb.sent..pb.sent + n] && f.typ == F_DATA
             && f.id == id
             && s1.body == s.body && s1.sendWindow == s.sendWindow.Consume(n) && !s1.state.Idle?
             && s1.pendingBody == if pb.sent + n == |pb.bytes| then None else Some(pb.(sent := pb.sent + n))
    ensures StreamAccount(s1, id, out + [f], since, s.pendingBody.value.bytes)
  {
    DataFrame(out, f);
    var pb := s.pendingBody.value;
    assert pb.bytes[..pb.sent] + pb.bytes[pb.sent..pb.sent + n] == pb.bytes[..pb.sent + n];
    assert pb.bytes[..|pb.bytes|] == pb.bytes;
  }

  lemma ChunkBody(out: seq<Frame>, body: seq<Byte>, sent: nat, n: nat, f: Frame)
    requires sent < sent + n <= |body| && BodySent(out, f.id, body) && DataOf(out, f.id) == body[..sent]
    requires f.typ == F_DATA && f.payload == body[sent..sent + n] && (f.EndStream() <==> sent + n == |body|)
    ensures BodySent(out + [f], f.id, body)
  {
    DataFrame(out, f);
    assert body[..sent] + body[sent..sent + n] == body[..sent + n];
    assert body[..|body|] == body;
    assert |body[..sent]| < |body|;
  }

  /** The frame that carries the next `n` bytes of a body. */
  function Chunk(id: nat, pb: PendingBody, n: nat): Frame
    requires pb.sent + n <= |pb.bytes|
  {
    Frame(F_DATA, if pb.sent + n == |pb.bytes| then FLAG_END_STREAM else 0, id, pb.bytes[pb.sent..pb.sent + n])
  }

  /** What a written chunk does to the connection; the stream's cursor moves only when the send succeeds as a whole. */
  ghost predicate ChunkSent(c: Conn, c1: Conn, id: nat, n: nat, f: Frame, ok: bool)
  {
    && id in c.streams && id in c1.streams && c.streams[id].pendingBody.Some?
    && var s, s1, pb := c.streams[id], c1.streams[id], c.streams[id].pendingBody.value;
       && c.budget > 0
       && c1 == c.(connSend := c.connSend - n, out := c.out + [f], budget := c.budget - 1,
                   streams := c.streams[id := s1])
       && s1 == s.(state := s1.state, sendWindow := s.sendWindow.Consume(n), pendingBody := s1.pendingBody)
       && (s1.state.Idle? ==> s.state.Idle?)
       && (ok ==> s1.pendingBody == if pb.sent + n == |pb.bytes| then None else Some(pb.(sent := pb.sent + n)))
  }

  lemma ChunkIsSent(c: Conn, id: nat, n: nat)
    requires id in c.streams && c.streams[id].pendingBody.Some?
             && c.streams[id].pendingBody.value.sent + n <= |c.streams[id].pendingBody.value.bytes|
    ensures var (ok, c1) := SendChunk(c, id, n);
            ChunkSent(c, c1, id, n, Chunk(id, c.streams[id].pendingBody.value, n), ok)
            || (!ok && (c1 == c || (c.budget == 0 && c1 == c.(dead := true))))
  {
  }

  lemma ChunkKeepsBodies(out: seq<Frame>, staged: map<nat, Request>, id: nat, pb: PendingBody, n: nat)
    requires forall x :: x in staged ==> BodySent(out, x, staged[x].body)
    requires id in staged && pb.bytes == staged[id].body && 0 < n && pb.sent + n <= |pb.bytes|
             && DataOf(out, id) == pb.bytes[..pb.sent]
    ensures forall x :: x in staged ==> BodySent(out + [Chunk(id, pb, n)], x, staged[x].body)
  {
    var f := Chunk(id, pb, n);
    forall x | x in staged
      ensures BodySent(out + [f], x, staged[x].body)
    {
      if x == id {
        ChunkBody(out, pb.bytes, pb.sent, n, f);
      } else {
        OtherFrame(out, f, x);
      }
    }
  }

  lemma ChunkKeepsSound(c: Conn, c1: Conn, id: nat, n: nat, f: Frame, ok: bool)
    requires Sound(c) && !c.dead && n <= c.connSend && ChunkSent(c, c1, id, n, f, ok)
    ensures Sound(c1)
  {
  }

  lemma ChunkKeepsIds(c: Conn, c1: Conn, id: nat, n: nat, f: Frame, ok: bool)
    requires Ids(c) && f.id == id && ChunkSent(c, c1, id, n, f, ok)
    ensures Ids(c1)
  {
    assert c1.streams.Keys == c.streams.Keys;
  }

  /** What the logs say once a chunk was written, whatever became of the stream's record. */
  lemma ChunkLogged(c: Conn, c1: Conn, id: nat, n: nat, f: Frame, ok: bool)
    requires Logged(c) && !c.dead && ChunkSent(c, c1, id, n, f, ok) && id in c.staged
    requires var pb := c.streams[id].pendingBody.value;
             0 < n <= c.connSend && pb.sent + n <= |pb.bytes| && f == Chunk(id, pb, n)
             && pb.bytes == c.staged[id].body && DataOf(c.out, id) == pb.bytes[..pb.sent]
    ensures Logged(c1)
  {
    ChunkKeepsSound(c, c1, id, n, f, ok);
    ChunkKeepsIds(c, c1, id, n, f, ok);
    ChunkKeepsBodies(c.out, c.staged, id, c.streams[id].pendingBody.value, n);
    DataFrame(c.out, f);
  }

  lemma ChunkOtherAccount(c: Conn, c1: Conn, id: nat, n: nat, f: Frame, x: nat)
    requires Ids(c) && Ids(c1) && ChunkSent(c, c1, id, n, f, true) && f.id == id
    requires x in c.streams && x != id && Accounted(c, x)
    ensures Accounted(c1, x)
  {
    OtherFrame(c.out, f, x);
  }

  lemma ChunkOwnAccount(c: Conn, c1: Conn, id: nat, n: nat, f: Frame)
    requires Ids(c) && Ids(c1) && ChunkSent(c, c1, id, n, f, true) && Accounted(c, id)
    requires var pb := c.streams[id].pendingBody.value;
             pb.sent + n <= |pb.bytes| && f == Chunk(id, pb, n)
    ensures Accounted(c1, id)
  {
    ChunkAccount(c.streams[id], id, c.out, c.accepted[c.born[id]..], n, f, c1.streams[id]);
  }

  lemma ChunkAccounts(c: Conn, c1: Conn, id: nat, n: nat, f: Frame)
    requires Ids(c) && Ids(c1) && StreamsAccounted(c) && ChunkSent(c, c1, id, n, f, true)
    requires var pb := c.streams[id].pendingBody.value;
             pb.sent + n <= |pb.bytes| && f == Chunk(id, pb, n)
    ensures StreamsAccounted(c1)
  {
    forall x | x in c1.streams
      ensures Accounted(c1, x)
    {
      if x == id {
        ChunkOwnAccount(c, c1, id, n, f);
      } else {
        ChunkOtherAccount(c, c1, id, n, f, x);
      }
    }
  }

  lemma ChunkPaid(c: Conn, c1: Conn, id: nat, n: nat, f: Frame, ok: bool, max: nat)
    requires Ids(c) && ConnectionAccount(c) && !c.dead && ChunkSent(c, c1, id, n, f, ok)
    requires Accounted(c, id) && f.id == id && f.typ == F_DATA && |f.payload| == n
    requires 0 < n <= max && n <= c.connSend && n <= c.streams[id].sendWindow.available
    ensures Paid(c, c1, max)
  {
    assert c1.out[..|c.out|] == c.out;
    assert Affordable(c, c.out, f, max);
  }

  /** What an attempt to send a chunk leaves. */
  ghost predicate ChunkDone(c: Conn, c1: Conn, ok: bool, max: nat)
    requires Ids(c)
  {
    Logged(c1) && Paid(c, c1, max) && (ok ==> Inv(c1) && !c1.dead)
  }

  lemma SentOutcome(c: Conn, c1: Conn, id: nat, n: nat, f: Frame, ok: bool, max: nat)
    requires Inv(c) && !c.dead && ChunkSent(c, c1, id, n, f, ok) && Accounted(c, id)
    requires var pb := c.streams[id].pendingBody.value;
             pb.sent + n <= |pb.bytes| && f == Chunk(id, pb, n)
    requires 0 < n <= max && n <= c.connSend && n <= c.streams[id].sendWindow.available
    ensures ChunkDone(c, c1, ok, max)
  {
    ChunkLogged(c, c1, id, n, f, ok);
    ChunkPaid(c, c1, id, n, f, ok, max);
    if ok {
      ChunkAccounts(c, c1, id, n, f);
    }
  }

  /** Everything about one attempt to send a chunk, from its two possible outcomes. */
  lemma ChunkOutcome(c: Conn, c1: Conn, id: nat, n: nat, f: Frame, ok: bool, max: nat)
    requires Inv(c) && !c.dead && id in c.streams && c.streams[id].pendingBody.Some?
    requires var pb := c.streams[id].pendingBody.value;
             pb.sent + n <= |pb.bytes| && f == Chunk(id, pb, n)
    requires 0 < n <= max && n <= c.connSend && n <= c.streams[id].sendWindow.available
    requires ChunkSent(c, c1, id, n, f, ok) || (!ok && (c1 == c || (c.budget == 0 && c1 == c.(dead := true))))
    ensures ChunkDone(c, c1, ok, max)
    ensures forall x :: x in c.streams && x != id ==> x in c1.streams && c1.streams[x] == c.streams[x]
  {
    assert Accounted(c, id);
    if ChunkSent(c, c1, id, n, f, ok) {
      SentOutcome(c, c1, id, n, f, ok, max);
    } else {
      Unsent(c, c1, max);
    }
  }

  lemma ChunkStep(c: Conn, id: nat, max: nat)
    requires Inv(c) && !c.dead && id in c.streams && c.streams[id].pendingBody.Some?
    requires c.streams[id].pendingBody.value.sent <= |c.streams[id].pendingBody.value.bytes|
             && ChunkSize(c, id, max) > 0
    ensures var (ok, c1) := SendChunk(c, id, ChunkSize(c, id, max));
            ChunkDone(c, c1, ok, max)
              && (forall x :: x in c.streams && x != id ==> x in c1.streams && c1.streams[x] == c.streams[x])
  {
    var n := ChunkSize(c, id, max);
    var f := Chunk(id, c.streams[id].pendingBody.value, n);
    var (ok, c1) := SendChunk(c, id, n);
    ChunkIsSent(c, id, n);
    ChunkOutcome(c, c1, id, n, f, ok, max);
  }

  lemma Unsent(c: Conn, c1: Conn, max: nat)
    requires Logged(c) && !c.dead && (c1 == c || (c.budget == 0 && c1 == c.(dead := true)))
    ensures Logged(c1) && Paid(c, c1, max)
  {
  }

  // ----- pumping -----

  /** Nothing more can be sent on the stream: no bytes are left, or one of the two windows is used up. */
  ghost predicate Stalled(c: Conn, id: nat)
    requires id in c.streams
  {
    c.streams[id].pendingBody.None? || c.streams[id].sendWindow.available <= 0 || c.connSend <= 0
  }

  /** What pumping one stream does. */
  ghost predicate PumpedOne(c: Conn, id: nat, max: nat, ok: bool, c1: Conn)
    requires Ids(c)
  {
    && Logged(c1) && Paid(c, c1, max) && (ok ==> Inv(c1) && !c1.dead && id in c1.streams && Stalled(c1, id))
    && (forall x :: x in c.streams && x != id ==> x in c1.streams && c1.streams[x] == c.streams[x])
  }

  lemma PumpedTwice(c: Conn, id: nat, max: nat, c': Conn, ok: bool, c1: Conn)
    requires Ids(c) && Ids(c') && Paid(c, c', max) && PumpedOne(c', id, max, ok, c1)
    requires forall x :: x in c.streams && x != id ==> c'.streams[x] == c.streams[x]
    ensures PumpedOne(c, id, max, ok, c1)
  {
    PaidTwice(c, c', c1, max);
  }

  lemma {:induction false} PumpStreamStep(c: Conn, id: nat, max: nat)
    requires Inv(c) && !c.dead && id in c.streams && max > 0
    ensures PumpedOne(c, id, max, PumpStream(c, id, max).0, PumpStream(c, id, max).1)
    decreases Left(c.streams[id].pendingBody)
  {
    assert Accounted(c, id);
    if c.streams[id].pendingBody.None? {
      PaidNothing(c, max);
    } else {
      PumpUnfolds(c, id, max, ChunkSize(c, id, max));
      if ChunkSize(c, id, max) == 0 {
        PaidNothing(c, max);
      } else {
        var (ok, c') := SendChunk(c, id, ChunkSize(c, id, max));
        ChunkStep(c, id, max);
        if ok && ChunkSize(c, id, max) < Left(c.streams[id].pendingBody) {
          PumpStreamStep(c', id, max);
          PumpedTwice(c, id, max, c', PumpStream(c', id, max).0, PumpStream(c', id, max).1);
        }
      }
    }
  }

  lemma {:induction false} PumpStreamsStep(c: Conn, ids: seq<nat>, max: nat)
    requires Inv(c) && !c.dead && max > 0
    requires forall i :: 0 <= i < |ids| ==> ids[i] in c.streams
    requires forall i, j :: 0 <= i < j < |ids| ==> ids[i] != ids[j]
    ensures var (ok, c1) := PumpStreams(c, ids, max);
            && Logged(c1) && Paid(c, c1, max) && (ok ==> Inv(c1) && !c1.dead)
            && (ok ==> forall i :: 0 <= i < |ids| ==> Stalled(c1, ids[i]))
            && (forall x :: x in c.streams && x !in ids ==> c1.streams[x] == c.streams[x])
    decreases |ids|
  {
    if ids == [] {
      PaidNothing(c, max);
    } else {
      var (ok, c') := PumpStream(c, ids[0], max);
      PumpStreamStep(c, ids[0], max);
      if ok {
        var c1 := PumpStreams(c', ids[1..], max).1;
        PumpStreamsStep(c', ids[1..], max);
        PaidTwice(c, c', c1, max);
        assert ids[0] !in ids[1..];
        if PumpStreams(c', ids[1..], max).0 {
          StalledAll(c', c1, ids);
        }
      }
    }
  }

  /** Later streams only use up more of the connection's window. */
  lemma StalledAll(c: Conn, c1: Conn, ids: seq<nat>)
    requires ids != [] && ids[0] in c.streams && Stalled(c, ids[0])
    requires c1.connSend <= c.connSend && c1.streams.Keys == c.streams.Keys && c1.streams[ids[0]] == c.streams[ids[0]]
    requires forall i :: 0 <= i < |ids| ==> ids[i] in c.streams
    requires forall i :: 0 <= i < |ids[1..]| ==> Stalled(c1, ids[1..][i])
    ensures forall i :: 0 <= i < |ids| ==> Stalled(c1, ids[i])
  {
    forall i | 0 <= i < |ids|
      ensures Stalled(c1, ids[i])
    {
      if i > 0 {
        assert ids[i] == ids[1..][i - 1];
      }
    }
  }

  /**
   * A pump writes only affordable DATA frames and keeps the logs right; when it succeeds it keeps the whole invariant
   * and leaves no stream that could still send.
   */
  lemma PumpIsSafeAndWorkConserving(c: Conn)
    requires Inv(c) && !c.dead
    ensures var (ok, c1) := Pump(c);
            && Logged(c1) && Paid(c, c1, c.peer.maxFrameSize)
            && (ok ==> Inv(c1) && !c1.dead && forall id :: id in c1.streams ==> Stalled(c1, id))
  {
    var ids := Sorted(PendingIds(c));
    assert forall i :: 0 <= i < |ids| ==> ids[i] in ids;
    PumpStreamsStep(c, ids, c.peer.maxFrameSize);
    var (ok, c1) := Pump(c);
    if ok {
      forall id | id in c1.streams
        ensures Stalled(c1, id)
      {
        if id in PendingIds(c) {
          var i :| 0 <= i < |ids| && ids[i] == id;
          assert Stalled(c1, ids[i]);
        } else {
          assert id !in ids;
        }
      }
    }
  }

  lemma FlushPendingStep(c: Conn)
    requires Inv(c) && !c.dead
    ensures var (ok, c1) := FlushPending(c);
            Logged(c1) && Paid(c, c1, c.peer.maxFrameSize) && (ok ==> Inv(c1) && !c1.dead)
  {
    PumpIsSafeAndWorkConserving(c);
    var (ok, c1) := Pump(c);
    if ok {
      assert forall id :: id in c1.streams ==> Accounted(c1, id);
      FlushStep(c1);
      PaidNothing(c1, c.peer.maxFrameSize);
      PaidTwice(c, c1, Flush(c1).1, c.peer.maxFrameSize);
    }
  }

  lemma FlushStep(c: Conn)
    requires Inv(c) && !c.dead
    ensures Inv(Flush(c).1) && Paid(c, Flush(c).1, c.peer.maxFrameSize)
  {
    FlushLeavesAccounts(c);
  }

  lemma FlushLeavesAccounts(c: Conn)
    requires Ids(c) && StreamsAccounted(c)
    ensures Ids(Flush(c).1) && StreamsAccounted(Flush(c).1)
  {
    var c1 := Flush(c).1;
    forall id | id in c1.streams
      ensures Accounted(c1, id)
    {
      assert Accounted(c, id);
    }
  }

  // ----- pumping once the transport is gone -----

  lemma DeadPumpStream(c: Conn, id: nat, max: nat)
    requires Logged(c) && c.budget == 0
    ensures Logged(PumpStream(c, id, max).1)
  {
    var c1 := PumpStream(c, id, max).1;
    if c1 != c {
      assert c1.streams.Keys == c.streams.Keys;
    }
  }

  lemma {:induction false} DeadPumpStreams(c: Conn, ids: seq<nat>, max: nat)
    requires Logged(c) && c.budget == 0
    ensures Logged(PumpStreams(c, ids, max).1)
    decreases |ids|
  {
    if ids != [] {
      DeadPumpStream(c, ids[0], max);
      var (ok, c') := PumpStream(c, ids[0], max);
      if ok {
        DeadPumpStreams(c', ids[1..], max);
      }
    }
  }

  /** Without a transport nothing is written, so the logs stay right, and the flush reports the failure. */
  lemma DeadFlushPending(c: Conn)
    requires Logged(c) && c.budget == 0
    ensures Logged(FlushPending(c).1) && !FlushPending(c).0
  {
    DeadPumpStreams(c, Sorted(PendingIds(c)), c.peer.maxFrameSize);
  }
}

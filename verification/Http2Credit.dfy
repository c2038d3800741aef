/** The connection engine is an endpoint of the credit protocol: what it does with DATA is a step of that protocol. */
module Http2Credit {
  import opened Common
  import opened FlowControl
  import opened Http2Types
  import opened Http2Engine
  import opened Http2Frames
  import opened Http2Pump
  import opened Http2Receipts
  import P = CreditProtocol

  /** A DATA frame as the protocol sees it. */
  function AsData(f: Frame): (d: P.Data)
    requires DataBytes(f).Ok?
    ensures d.Billed() == |f.payload|
  {
    DataFits(f);
    P.Data(f.id, DataBytes(f).value, |f.payload| - |DataBytes(f).value|)
  }

  lemma DataFits(f: Frame)
    requires DataBytes(f).Ok?
    ensures |DataBytes(f).value| <= |f.payload|
  {
  }

  /** The engine's receive windows and what it holds of the stream are those of the protocol's receiver. */
  ghost predicate Receives(c: Conn, s: P.Net, id: nat)
  {
    && s.connRecv == c.connRecv && id in c.streams && id in s.recv && id in s.got
    && s.recv[id] == c.streams[id].recvWindow && s.got[id] == c.streams[id].body
  }

  /** The frame that carries a grant: its stream, and the increment in four bytes. */
  function GrantFrame(g: P.Grant): Frame
  {
    Frame(F_WINDOW_UPDATE, 0, g.id, if 0 <= g.increment < 0x8000_0000 then U32Bytes(g.increment) else [])
  }

  function GrantFrames(gs: seq<P.Grant>): seq<Frame>
  {
    seq(|gs|, i requires 0 <= i < |gs| => GrantFrame(gs[i]))
  }

  lemma UpdatesAreGrants(id: nat, inc: Option<int>)
    requires inc.Some? ==> 0 <= inc.value < 0x8000_0000
    ensures UpdateFrames(id, inc) == GrantFrames(P.GrantFrames(id, inc))
  {
  }

  lemma GrantFramesConcat(a: seq<P.Grant>, b: seq<P.Grant>)
    ensures GrantFrames(a + b) == GrantFrames(a) + GrantFrames(b)
  {
  }

  /** Accepted DATA writes both windows' grants, the connection's first. */
  lemma GrantsWritten(c: Conn, id: nat)
    requires id in c.streams && GrantBack(c, id).0.Ok? && !c.dead && SoundRecv(c.connRecv) && c.connRecv.available >= 0
    requires SoundRecv(c.streams[id].recvWindow) && c.streams[id].recvWindow.available >= 0
    ensures var inc0, inc := c.connRecv.Replenish().1, c.streams[id].recvWindow.Replenish().1;
            GrantBack(c, id).1.out == c.out + GrantFrames(P.GrantFrames(0, inc0) + P.GrantFrames(id, inc))
  {
    var (w0, inc0) := c.connRecv.Replenish();
    var (w, inc) := c.streams[id].recvWindow.Replenish();
    ReplenishGrants(c.connRecv);
    ReplenishGrants(c.streams[id].recvWindow);
    UpdatesAreGrants(0, inc0);
    UpdatesAreGrants(id, inc);
    GrantFramesConcat(P.GrantFrames(0, inc0), P.GrantFrames(id, inc));
    WriteAllSmall(c.(connRecv := w0), UpdateFrames(0, inc0));
    var c1 := WriteAll(c.(connRecv := w0), UpdateFrames(0, inc0)).1;
    var c2 := c1.(streams := c1.streams[id := c1.streams[id].(recvWindow := w)]);
    WriteThenFlushSmall(c2, UpdateFrames(id, inc), Verdict(c2.streams[id], id));
  }

  /**
   * DATA accepted on an open stream is the protocol's delivery: the same windows, the same bytes, and the frames
   * written are the grants it puts in flight.
   */
  lemma AcceptedDataIsDelivery(c: Conn, f: Frame, s: P.Net)
    requires Sound(c) && f.id != 0 && f.typ == F_DATA && Receives(c, s, f.id)
    requires ProcessData(c, f).0.Ok? && DataBytes(f).Ok? && s.data != [] && s.data[0] == AsData(f)
    ensures P.ReceiveData(s).Ok?
    ensures var c1, s1 := ProcessData(c, f).1, P.ReceiveData(s).value;
            && Receives(c1, s1, f.id) && |s1.grants| >= |s.grants| && s1.grants[..|s.grants|] == s.grants
            && c1.out == c.out + GrantFrames(s1.grants[|s.grants|..])
  {
    var c0 := c.(connRecv := c.connRecv.Consume(|f.payload|));
    var state := c.streams[f.id].state.RecvData(f.EndStream()).value;
    var (ok, got) := AcceptData(c.streams[f.id], f, state);
    AcceptDataStep(c.streams[f.id], f, state);
    AcceptBills(c.streams[f.id], f, state);
    var c1 := c0.(streams := c0.streams[f.id := got]);
    GrantWindows(c1, f.id);
    GrantIsAlive(c1, f.id);
    GrantsWritten(c1, f.id);
    NewGrants(s, P.ReceiveData(s).value,
              P.GrantFrames(0, c1.connRecv.Replenish().1) + P.GrantFrames(f.id, got.recvWindow.Replenish().1));
  }

  lemma GrantIsAlive(c: Conn, id: nat)
    requires id in c.streams && GrantBack(c, id).0.Ok?
    ensures c.budget > 0
  {
  }

  lemma NewGrants(s: P.Net, s1: P.Net, gs: seq<P.Grant>)
    requires s1.grants == s.grants + gs
    ensures s1.grants[..|s.grants|] == s.grants && s1.grants[|s.grants|..] == gs
  {
  }

  lemma GrantWindows(c: Conn, id: nat)
    requires id in c.streams && GrantBack(c, id).0.Ok?
    ensures var c1 := GrantBack(c, id).1;
            && c1.connRecv == c.connRecv.Replenish().0 && id in c1.streams
            && c1.streams[id] == c.streams[id].(recvWindow := c.streams[id].recvWindow.Replenish().0)
  {
  }

  /** The engine's send windows and its cursor into the request body are those of the protocol's sender. */
  ghost predicate Sends(c: Conn, s: P.Net, id: nat)
  {
    && s.connSend == c.connSend && id in c.streams && id in s.send && id in s.body && id in s.sent
    && s.send[id] == c.streams[id].sendWindow
    && match c.streams[id].pendingBody
       case None => s.sent[id] == |s.body[id]|
       case Some(pb) => pb.bytes == s.body[id] && pb.sent == s.sent[id] < |pb.bytes|
  }

  /** A chunk that the pump sends is the protocol's pump step: the same size, the same frame, the same windows. */
  lemma ChunkIsPumpStep(c: Conn, s: P.Net, id: nat, max: nat, pb: PendingBody, n: nat)
    requires Sends(c, s, id) && c.streams[id].pendingBody == Some(pb)
    requires n == NextDataChunkSize(max, SendBudget(c, c.streams[id]), |pb.bytes| - pb.sent) && n > 0
             && SendChunk(c, id, n).0
    ensures P.Next(s, P.Pump(id, max)).Ok?
    ensures var c1, s1 := SendChunk(c, id, n).1, P.Next(s, P.Pump(id, max)).value;
            Sends(c1, s1, id) && c1.out == c.out + [Chunk(id, pb, n)] && s1.data == s.data + [AsData(Chunk(id, pb, n))]
  {
    PumpStepIs(s, id, max, n);
    SendingSends(c, s, id, pb, n);
    NotPadded(id, pb, n);
  }

  lemma SendingSends(c: Conn, s: P.Net, id: nat, pb: PendingBody, n: nat)
    requires Sends(c, s, id) && c.streams[id].pendingBody == Some(pb) && pb.sent + n <= |pb.bytes| && n > 0
    requires SendChunk(c, id, n).0
    ensures var c1 := SendChunk(c, id, n).1;
            Sends(c1, P.SendData(s, id, n, 0), id) && c1.out == c.out + [Chunk(id, pb, n)]
  {
    ChunkIsSent(c, id, n);
  }

  lemma PumpStepIs(s: P.Net, id: nat, max: nat, n: nat)
    requires id in s.send && id in s.body && id in s.sent && s.sent[id] <= |s.body[id]| && n > 0
    requires n == NextDataChunkSize(max, Min(s.send[id].available, s.connSend), |s.body[id]| - s.sent[id])
    ensures P.Next(s, P.Pump(id, max)) == Ok(P.SendData(s, id, n, 0))
  {
  }

  lemma NotPadded(id: nat, pb: PendingBody, n: nat)
    requires pb.sent + n <= |pb.bytes|
    ensures DataBytes(Chunk(id, pb, n)) == Ok(pb.bytes[pb.sent..pb.sent + n])
  {
  }
}

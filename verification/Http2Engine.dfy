/**
 * The connection engine: what one inbound frame does, how requests are staged, and how bodies are
 * pumped, as functions of the connection's state. Failures keep what was changed before them.
 */
module Http2Engine {
  import opened Common
  import opened Fields
  import opened FlowControl
  import opened Http2Types
  import opened SortedIds
  import Hpack

  /**
   * A connection. `budget` is how many more transport operations succeed: every write and every
   * flush uses one, and an operation at 0 finds the transport dead. The last five fields are history:
   * whether it was found dead, the frames written, the frames dispatched without error, how many of
   * those there were when each stream was opened, and the request staged on each stream.
   */
  datatype Conn = Conn(
    tables: Hpack.Tables,
    peer: PeerSettings,
    connSend: int,
    connRecv: RecvWindow,
    decoder: Hpack.DecoderState,
    encoder: Hpack.EncoderState,
    streams: map<nat, Stream>,
    nextId: nat,
    goaway: Option<nat>,
    expecting: Option<nat>,
    inbound: seq<Frame>,
    budget: nat,
    dead: bool,
    out: seq<Frame>,
    accepted: seq<Frame>,
    born: map<nat, nat>,
    staged: map<nat, Request>)

  /** `Done(id)`: the stream holds a complete response. */
  datatype Outcome = Continue | Done(id: nat)

  datatype Request = Request(fields: seq<Field>, body: seq<Byte>)

  // ----- transport -----

  function Write(c: Conn, f: Frame): (bool, Conn)
  {
    if |f.payload| > MAX_FRAME_PAYLOAD then (false, c)
    else if c.budget == 0 then (false, c.(dead := true))
    else (true, c.(out := c.out + [f], budget := c.budget - 1))
  }

  function Flush(c: Conn): (bool, Conn)
  {
    if c.budget == 0 then (false, c.(dead := true)) else (true, c.(budget := c.budget - 1))
  }

  /** Writes in order, stopping at the first failure. */
  function WriteAll(c: Conn, fs: seq<Frame>): (r: (bool, Conn))
    ensures r.1 == c.(out := r.1.out, budget := r.1.budget, dead := r.1.dead) && (c.dead ==> r.1.dead)
    decreases |fs|
  {
    if fs == [] then (true, c)
    else
      var (ok, c1) := Write(c, fs[0]);
      if ok then WriteAll(c1, fs[1..]) else (false, c1)
  }

  // ----- opening streams and staging requests -----

  function OpenStream(c: Conn): Result<(nat, Conn)>
  {
    if |c.streams| >= c.peer.maxConcurrentStreams then Err
    else if c.nextId >= 0x8000_0000 then Err
    else if c.goaway.Some? && c.nextId > c.goaway.value then Err
    else
      var id := c.nextId;
      Ok((id, c.(nextId := id + 2, streams := c.streams[id := NewStream(id, c.peer.initialWindowSize)],
                 born := c.born[id := |c.accepted|])))
  }

  /** One HEADERS frame, then CONTINUATION frames, each at most `max` bytes. */
  function FragmentHeaderBlock(id: nat, block: seq<Byte>, max: nat, endStream: bool): (fs: seq<Frame>)
    requires max > 0
    ensures |fs| > 0
  {
    var es := if endStream then FLAG_END_STREAM else 0;
    if |block| <= max then [Frame(F_HEADERS, es + FLAG_END_HEADERS, id, block)]
    else [Frame(F_HEADERS, es, id, block[..max])] + Continuations(id, block[max..], max)
  }

  function Continuations(id: nat, block: seq<Byte>, max: nat): (fs: seq<Frame>)
    requires max > 0
    decreases |block|
  {
    if |block| <= max then [Frame(F_CONTINUATION, FLAG_END_HEADERS, id, block)]
    else [Frame(F_CONTINUATION, 0, id, block[..max])] + Continuations(id, block[max..], max)
  }

  /** Writes the request's header frames and parks its body. */
  function StageRequest(c: Conn, id: nat, req: Request): (bool, Conn)
    requires |c.tables.huffman| == 257 && c.peer.maxFrameSize > 0 && id in c.streams
  {
    var (block, encoder) := Hpack.EncodeBlock(c.tables, c.encoder, req.fields);
    var frames := FragmentHeaderBlock(id, block, c.peer.maxFrameSize, req.body == []);
    var (ok, c1) := WriteAll(c.(encoder := encoder), frames);
    if !ok then (false, c1)
    else
      var s := c.streams[id];
      match s.state.SendData(req.body == [])
      case Err => (false, c1)
      case Ok(state) =>
        var pending := if req.body == [] then s.pendingBody else Some(PendingBody(req.body, 0));
        (true, c1.(streams := c.streams[id := s.(state := state, pendingBody := pending)],
                   staged := c.staged[id := req]))
  }

  /** Opens a stream for a request and stages it; a stream whose headers could not be written is dropped. */
  function StartRequest(c: Conn, req: Request): (Option<nat>, Conn)
    requires |c.tables.huffman| == 257 && c.peer.maxFrameSize > 0
  {
    match OpenStream(c)
    case Err => (None, c)
    case Ok(next) =>
      var (ok, c1) := StageRequest(next.1, next.0, req);
      if ok then (Some(next.0), c1) else (None, c1.(streams := c1.streams - {next.0}))
  }

  // ----- pumping bodies -----

  function SendBudget(c: Conn, s: Stream): int { Min(s.sendWindow.available, c.connSend) }

  /** Pumping touches the transport, the connection's send window and the streams, nothing else. */
  ghost predicate Pumped(c: Conn, c1: Conn)
  {
    c1 == c.(connSend := c1.connSend, streams := c1.streams, budget := c1.budget, dead := c1.dead, out := c1.out)
      && c1.budget <= c.budget && (c.dead ==> c1.dead)
  }

  /** Bytes a body has left to send; -1 without a body. */
  function Left(pending: Option<PendingBody>): int
  {
    if pending.Some? then |pending.value.bytes| - pending.value.sent else -1
  }

  function PendingOf(c: Conn, id: nat): Option<PendingBody>
  {
    if id in c.streams then c.streams[id].pendingBody else None
  }

  /** Sends on one stream until its body or a window is exhausted. */
  function PumpStream(c: Conn, id: nat, max: nat): (r: (bool, Conn))
    ensures Pumped(c, r.1)
    decreases Left(PendingOf(c, id))
  {
    if PendingOf(c, id).None? then (true, c)
    else if Left(PendingOf(c, id)) <= 0 then (true, Unparked(c, id))
    else
      var n := NextDataChunkSize(max, SendBudget(c, c.streams[id]), Left(PendingOf(c, id)));
      if n == 0 then (true, c)
      else
        var (ok, c') := SendChunk(c, id, n);
        if !ok || n == Left(PendingOf(c, id)) then (ok, c') else PumpStream(c', id, max)
  }

  /** One turn of the pump on a stream: a chunk, and then the rest if there is one and the chunk was sent. */
  lemma PumpUnfolds(c: Conn, id: nat, max: nat, n: nat)
    requires id in c.streams && Left(c.streams[id].pendingBody) > 0
    requires n == NextDataChunkSize(max, SendBudget(c, c.streams[id]), Left(c.streams[id].pendingBody))
    ensures n == 0 ==> PumpStream(c, id, max) == (true, c)
    ensures n > 0 ==> var (ok, c') := SendChunk(c, id, n);
                      PumpStream(c, id, max)
                      == if ok && n < Left(c.streams[id].pendingBody) then PumpStream(c', id, max) else (ok, c')
  {
  }

  /** A body with nothing left is cleared. */
  function Unparked(c: Conn, id: nat): Conn
    requires id in c.streams
  {
    c.(streams := c.streams[id := c.streams[id].(pendingBody := None)])
  }

  /** One DATA frame of `n` bytes; END_STREAM when it completes the body. */
  function SendChunk(c: Conn, id: nat, n: nat): (r: (bool, Conn))
    requires id in c.streams && c.streams[id].pendingBody.Some?
    requires c.streams[id].pendingBody.value.sent + n <= |c.streams[id].pendingBody.value.bytes|
    ensures Pumped(c, r.1) && (r.0 ==> id in r.1.streams)
    ensures r.0 ==> var pb := c.streams[id].pendingBody.value;
                    r.1.streams[id].pendingBody
                    == if pb.sent + n == |pb.bytes| then None else Some(pb.(sent := pb.sent + n))
  {
    var s, pb := c.streams[id], c.streams[id].pendingBody.value;
    var last := pb.sent + n == |pb.bytes|;
    var (ok, c1) := Write(c, Frame(F_DATA, if last then FLAG_END_STREAM else 0, id, pb.bytes[pb.sent..pb.sent + n]));
    if !ok then (false, c1)
    else
      var billed := s.(sendWindow := s.sendWindow.Consume(n));
      var c2 := c1.(connSend := c.connSend - n);
      match s.state.SendData(last)
      case Err => (false, c2.(streams := c.streams[id := billed]))
      case Ok(state) =>
        var pending := if last then None else Some(pb.(sent := pb.sent + n));
        (true, c2.(streams := c.streams[id := billed.(state := state, pendingBody := pending)]))
  }

  function PumpStreams(c: Conn, ids: seq<nat>, max: nat): (r: (bool, Conn))
    ensures Pumped(c, r.1)
    decreases |ids|
  {
    if ids == [] then (true, c)
    else
      var (ok, c') := PumpStream(c, ids[0], max);
      if ok then PumpStreams(c', ids[1..], max) else (false, c')
  }

  function PendingIds(c: Conn): set<nat>
  {
    set id | id in c.streams && c.streams[id].pendingBody.Some?
  }

  /** Streams with bytes left, in ascending order. */
  function Pump(c: Conn): (bool, Conn)
  {
    PumpStreams(c, Sorted(PendingIds(c)), c.peer.maxFrameSize)
  }

  function FlushPending(c: Conn): (bool, Conn)
  {
    var (ok, c1) := Pump(c);
    if ok then Flush(c1) else (false, c1)
  }

  // ----- inbound frames -----

  ghost function ProcessFrame(c: Conn, f: Frame): (Result<Outcome>, Conn)
  {
    if c.expecting.Some? && !(f.typ == F_CONTINUATION && f.id == c.expecting.value) then (Err, c)
    else if f.id == 0 then ProcessConnFrame(c, f)
    else if f.typ == F_HEADERS then ProcessHeaders(c, f)
    else if f.typ == F_CONTINUATION then ProcessContinuation(c, f)
    else if f.typ == F_DATA then ProcessData(c, f)
    else if f.typ == F_RST_STREAM then ProcessRst(c, f)
    else if f.typ == F_WINDOW_UPDATE then ProcessStreamUpdate(c, f)
    else if f.typ == F_PUSH_PROMISE then (Err, c)
    else (Ok(Continue), c)
  }

  function ProcessConnFrame(c: Conn, f: Frame): (Result<Outcome>, Conn)
  {
    if f.typ == F_SETTINGS then
      if f.Ack() then (Ok(Continue), c) else ProcessSettings(c, f)
    else if f.typ == F_PING then
      if f.Ack() then (Ok(Continue), c)
      else WriteThenFlush(c, [Frame(F_PING, FLAG_ACK, 0, f.payload)], Continue)
    else if f.typ == F_WINDOW_UPDATE then
      match ParseWindowUpdate(f.payload)
      case Err => (Err, c)
      case Ok(inc) =>
        match ApplyUpdate(c.connSend, inc)
        case Err => (Err, c)
        case Ok(a) => (Ok(Continue), c.(connSend := a))
    else if f.typ == F_GOAWAY then
      var last := if |f.payload| >= 4 then U31(f.payload) else 0;
      (Ok(Continue), c.(goaway := Some(last), streams := CloseAbove(c.streams, last)))
    else (Ok(Continue), c)
  }

  function WriteThenFlush(c: Conn, fs: seq<Frame>, outcome: Outcome): (Result<Outcome>, Conn)
  {
    var (ok, c1) := WriteAll(c, fs);
    if !ok then (Err, c1)
    else
      var (flushed, c2) := Flush(c1);
      (if flushed then Ok(outcome) else Err, c2)
  }

  function CloseAbove(streams: map<nat, Stream>, last: nat): map<nat, Stream>
  {
    map id | id in streams :: if id > last then streams[id].(state := Closed) else streams[id]
  }

  predicate Known(ids: seq<nat>, streams: map<nat, Stream>) { forall id :: id in ids ==> id in streams }

  /** Shifts every stream's send window, in ascending order, until one would overflow. */
  function ShiftWindows(streams: map<nat, Stream>, ids: seq<nat>, newInitial: int): (bool, map<nat, Stream>)
    requires Known(ids, streams)
  {
    if ids == [] then (true, streams)
    else
      match streams[ids[0]].sendWindow.Reinitialize(newInitial)
      case Err => (false, streams)
      case Ok(w) => ShiftWindows(streams[ids[0] := streams[ids[0]].(sendWindow := w)], ids[1..], newInitial)
  }

  function AdoptInitial(streams: map<nat, Stream>, initial: int, newInitial: int): (bool, map<nat, Stream>)
  {
    if newInitial != initial then ShiftWindows(streams, Sorted(streams.Keys), newInitial) else (true, streams)
  }

  function ProcessSettings(c: Conn, f: Frame): (Result<Outcome>, Conn)
  {
    var (ok, peer) := ApplySettings(c.peer, f.payload);
    if ok then AdoptSettings(c, peer) else (Err, c.(peer := peer))
  }

  /** Shifts the windows, tells the encoder, and acknowledges. */
  function AdoptSettings(c: Conn, peer: PeerSettings): (Result<Outcome>, Conn)
  {
    var (shifted, streams) := AdoptInitial(c.streams, c.peer.initialWindowSize, peer.initialWindowSize);
    var c1 := c.(peer := peer, streams := streams);
    if shifted then Acknowledge(c1, c.peer.headerTableSize) else (Err, c1)
  }

  function Acknowledge(c: Conn, headerTableSize: nat): (Result<Outcome>, Conn)
  {
    var encoder := if c.peer.headerTableSize != headerTableSize
        then Hpack.SetMaxSize(c.encoder, c.peer.headerTableSize) else c.encoder;
    WriteThenFlush(c.(encoder := encoder), [Frame(F_SETTINGS, FLAG_ACK, 0, [])], Continue)
  }

  function ProcessStreamUpdate(c: Conn, f: Frame): (Result<Outcome>, Conn)
  {
    match ParseWindowUpdate(f.payload)
    case Err => (Err, c)
    case Ok(inc) =>
      if f.id !in c.streams then (Ok(Continue), c)
      else
        var s := c.streams[f.id];
        match s.sendWindow.Update(inc)
        case Err => (Err, c)
        case Ok(w) => (Ok(Continue), c.(streams := c.streams[f.id := s.(sendWindow := w)]))
  }

  function Verdict(s: Stream, id: nat): Outcome
  {
    if s.Done() then Done(id) else Continue
  }

  ghost function ProcessHeaders(c: Conn, f: Frame): (Result<Outcome>, Conn)
  {
    match HeaderFragment(f)
    case Err => (Err, c)
    case Ok(frag) =>
      if f.id !in c.streams then (Err, c)
      else if c.streams[f.id].state.Closed? then HeadersOnClosed(c, f, frag)
      else
        match c.streams[f.id].state.RecvHeaders(f.EndStream())
        case Err => (Err, c)
        case Ok(state) => HeadersOnOpen(c, f, frag, state)
  }

  /** Headers after close only keep the HPACK table in step. */
  ghost function HeadersOnClosed(c: Conn, f: Frame, frag: seq<Byte>): (Result<Outcome>, Conn)
    requires f.id in c.streams
  {
    if f.EndHeaders() then
      var (r, d) := Hpack.DecodeBlock(c.tables, c.decoder, frag);
      (if r.Ok? then Ok(Continue) else Err, c.(decoder := d))
    else
      match c.streams[f.id].PushFragment(frag)
      case Err => (Err, c)
      case Ok(s) => (Ok(Continue), c.(streams := c.streams[f.id := s], expecting := Some(f.id)))
  }

  ghost function HeadersOnOpen(c: Conn, f: Frame, frag: seq<Byte>, state: StreamState): (Result<Outcome>, Conn)
    requires f.id in c.streams
  {
    match c.streams[f.id].PushFragment(frag)
    case Err => (Err, c)
    case Ok(s0) =>
      var s := s0.(endStreamRecv := s0.endStreamRecv || f.EndStream());
      if f.EndHeaders() then
        var (r, d) := Hpack.DecodeBlock(c.tables, c.decoder, s.headersBuf);
        var taken := s.(headersBuf := []);
        match r
        case Err => (Err, c.(streams := c.streams[f.id := taken], decoder := d))
        case Ok(fields) =>
          var s' := taken.(responseHeaders := Some(fields), state := state);
          (Ok(Verdict(s', f.id)), c.(streams := c.streams[f.id := s'], decoder := d, expecting := None))
      else
        var s' := s.(state := state);
        (Ok(Verdict(s', f.id)), c.(streams := c.streams[f.id := s'], expecting := Some(f.id)))
  }

  ghost function ProcessContinuation(c: Conn, f: Frame): (Result<Outcome>, Conn)
  {
    if c.expecting != Some(f.id) || f.id !in c.streams then (Err, c)
    else
      match c.streams[f.id].PushFragment(f.payload)
      case Err => (Err, c)
      case Ok(s) =>
        if f.EndHeaders() then
          var (r, d) := Hpack.DecodeBlock(c.tables, c.decoder, s.headersBuf);
          var taken := s.(headersBuf := []);
          match r
          case Err => (Err, c.(streams := c.streams[f.id := taken], decoder := d))
          case Ok(fields) =>
            var s' := if taken.state.Closed? then taken else taken.(responseHeaders := Some(fields));
            (Ok(Verdict(s', f.id)), c.(streams := c.streams[f.id := s'], decoder := d, expecting := None))
        else (Ok(Verdict(s, f.id)), c.(streams := c.streams[f.id := s]))
  }

  /** A window update for what was granted back, if anything was. */
  function UpdateFrames(id: nat, increment: Option<int>): seq<Frame>
  {
    if increment.Some? && 0 <= increment.value < 0x8000_0000 then [WindowUpdateFrame(id, increment.value)] else []
  }

  function ProcessData(c: Conn, f: Frame): (Result<Outcome>, Conn)
  {
    var conn := c.connRecv.Consume(|f.payload|);
    var c1 := c.(connRecv := conn);
    if conn.available < 0 then (Err, c1)
    else if f.id !in c.streams then
      var (conn', inc) := conn.Replenish();
      var c2 := c1.(connRecv := conn');
      if inc.None? then (Ok(Continue), c2) else WriteThenFlush(c2, UpdateFrames(0, inc), Continue)
    else if c.streams[f.id].state.Closed? then (Err, c1)
    else
      match c.streams[f.id].state.RecvData(f.EndStream())
      case Err => (Err, c1)
      case Ok(state) => DataOnOpen(c1, f, state)
  }

  function DataOnOpen(c: Conn, f: Frame, state: StreamState): (Result<Outcome>, Conn)
    requires f.id in c.streams
  {
    var (ok, s) := AcceptData(c.streams[f.id], f, state);
    var c1 := c.(streams := c.streams[f.id := s]);
    if ok then GrantBack(c1, f.id) else (Err, c1)
  }

  /** Bills the whole payload, then appends what is left without padding, within the body cap. */
  function AcceptData(s: Stream, f: Frame, state: StreamState): (bool, Stream)
  {
    var billed := s.(recvWindow := s.recvWindow.Consume(|f.payload|));
    if billed.recvWindow.available < 0 then (false, billed)
    else
      match DataBytes(f)
      case Err => (false, billed)
      case Ok(bytes) =>
        if |s.body| + |bytes| > MAX_RESPONSE_BYTES then (false, billed)
        else (true, billed.(body := s.body + bytes, endStreamRecv := s.endStreamRecv || f.EndStream(), state := state))
  }

  /** Replenishes the connection's window and the stream's, each with its own window update. */
  function GrantBack(c: Conn, id: nat): (Result<Outcome>, Conn)
    requires id in c.streams
  {
    var (conn, inc0) := c.connRecv.Replenish();
    var (ok, c1) := WriteAll(c.(connRecv := conn), UpdateFrames(0, inc0));
    if !ok then (Err, c1)
    else GrantStream(c1, id)
  }

  function GrantStream(c: Conn, id: nat): (Result<Outcome>, Conn)
    requires id in c.streams
  {
    var (recv, inc) := c.streams[id].recvWindow.Replenish();
    var s := c.streams[id].(recvWindow := recv);
    WriteThenFlush(c.(streams := c.streams[id := s]), UpdateFrames(id, inc), Verdict(s, id))
  }

  function ProcessRst(c: Conn, f: Frame): (Result<Outcome>, Conn)
  {
    if f.id !in c.streams || c.streams[f.id].state.Closed? then (Ok(Continue), c)
    else
      var s := c.streams[f.id];
      match s.state.RecvRst()
      case Err => (Err, c)
      case Ok(state) => (Err, c.(streams := c.streams[f.id := s.(state := state)]))
  }

  /** Reads one frame, or fails at the end of input; history keeps a frame dispatched without error. */
  ghost function ReadAndDispatch(c: Conn): (Result<Outcome>, Conn)
  {
    if c.inbound == [] then (Err, c)
    else
      var f := c.inbound[0];
      var (r, c1) := ProcessFrame(c.(inbound := c.inbound[1..], accepted := c.accepted + [f]), f);
      (r, if r.Ok? then c1 else c1.(accepted := c.accepted))
  }

  /** Closed, or answered in full while this side has not ended. */
  predicate Over(s: Stream) { s.state.Closed? || (s.state.HalfClosedRemote? && s.Complete()) }

  /** The streams a finished run keeps. */
  function Unfinished(streams: map<nat, Stream>): map<nat, Stream>
  {
    map id | id in streams && !Over(streams[id]) :: streams[id]
  }

  lemma KeepsUnfinished(streams: map<nat, Stream>, kept: map<nat, Stream>)
    requires forall id :: id in kept <==> id in streams && !Over(streams[id])
    requires forall id :: id in kept ==> kept[id] == streams[id]
    ensures kept == Unfinished(streams)
  {
  }
}

/**
 * Whole exchanges: when a peer answers the requests as sections 5.1 and 8.1 of RFC 9113 allow, its frames interleaved
 * in any order, every request gets its reply, with the fields and the body the peer sent on the request's own stream.
 */
module Http2Exchange {
  import opened Common
  import opened Fields
  import opened FlowControl
  import opened Http2Types
  import opened Http2Engine
  import opened Http2Frames
  import opened Http2Driver
  import Hpack

  // ----- a peer that answers -----

  /** What a stream has been answered so far. */
  datatype Answer = Answer(fields: Option<seq<Field>>, body: seq<Byte>, over: bool)

  /**
   * The peer's side: the state its next header block is written for, the block it is in the middle of, what it has
   * answered on each stream, how many answers are over, and how much credit it may still grant.
   */
  datatype Server = Server(
    d: Hpack.DecoderState,
    block: Option<(nat, seq<Byte>)>,
    answers: map<nat, Answer>,
    done: nat,
    room: nat)

  /** The tables, the id of the first request's stream, the number of requests, and how many may be open at once. */
  datatype Terms = Terms(t: Hpack.Tables, first: nat, n: nat, limit: nat) {
    /** The stream of request `i`. */
    function StreamOf(i: nat): nat { first + 2 * i }
  }

  function AnswerOf(s: Server, id: nat): Answer
  {
    if id in s.answers then s.answers[id] else Answer(None, [], false)
  }

  /** Requests that have been opened when `done` of them are answered. */
  function Opened(w: Terms, done: nat): nat { Min(w.n, w.limit + done) }

  /** A stream that was opened and is not yet answered in full. */
  predicate Waits(w: Terms, s: Server, id: nat)
  {
    w.first <= id < w.StreamOf(Opened(w, s.done)) && (id - w.first) % 2 == 0 && !AnswerOf(s, id).over
  }

  /** The answer of `id` grows to `a`. */
  function WithAnswer(s: Server, id: nat, a: Answer): Server
  {
    s.(answers := s.answers[id := a], done := s.done + if a.over then 1 else 0)
  }

  /**
   * `buf` has been sent of a block of `id`; all of it if `whole`, and then `end` says whether the stream ends with
   * it.
   */
  ghost function Headed(w: Terms, s: Server, id: nat, buf: seq<Byte>, whole: bool, end: bool): Option<Server>
  {
    if |buf| > MAX_HEADERS_BUF then None
    else if !whole then Some(s.(block := Some((id, buf))))
    else
      match Hpack.DecodeBlock(w.t, s.d, buf)
      case (Err, _) => None
      case (Ok(fields), d) =>
        Some(WithAnswer(s.(d := d, block := None), id, AnswerOf(s, id).(fields := Some(fields), over := end)))
  }

  /** Section 6.1: DATA after the headers, within the frame and body limits. */
  function Fed(s: Server, f: Frame): Option<Server>
  {
    var a := AnswerOf(s, f.id);
    if a.fields.None? || |f.payload| > 32767 || DataBytes(f).Err?
       || |a.body| + |DataBytes(f).value| > MAX_RESPONSE_BYTES then None
    else Some(WithAnswer(s, f.id, a.(body := a.body + DataBytes(f).value, over := f.EndStream())))
  }

  /** Section 6.9: an increment of the connection's or a stream's window. */
  function Granted(s: Server, f: Frame): Option<Server>
  {
    if |f.payload| == 4 && 0 < U31(f.payload) <= s.room then Some(s.(room := s.room - U31(f.payload))) else None
  }

  /**
   * One frame from the peer, or `None` when it is not part of an exchange: header blocks in one piece or, unless they
   * end the stream, in several; DATA; window increments; and frames that mean nothing here, such as PING and the
   * acknowledgement of settings.
   */
  ghost function Tell(w: Terms, s: Server, f: Frame): Option<Server>
  {
    if s.block.Some? then
      if f.typ == F_CONTINUATION && f.id == s.block.value.0
      then Headed(w, s, f.id, s.block.value.1 + f.payload, f.EndHeaders(), false)
      else None
    else if f.typ == F_WINDOW_UPDATE then Granted(s, f)
    else if f.id == 0 then if f.typ == F_GOAWAY || (f.typ == F_SETTINGS && !f.Ack()) then None else Some(s)
    else if f.typ == F_HEADERS then
      if Waits(w, s, f.id) && HeaderFragment(f).Ok? && (f.EndHeaders() || !f.EndStream())
      then Headed(w, s, f.id, HeaderFragment(f).value, f.EndHeaders(), f.EndStream())
      else None
    else if f.typ == F_DATA then if Waits(w, s, f.id) then Fed(s, f) else None
    else if f.typ == F_RST_STREAM || f.typ == F_PUSH_PROMISE || f.typ == F_CONTINUATION then None
    else Some(s)
  }

  /** The peer answers everything; what follows the last answer does not matter. */
  ghost function TellAll(w: Terms, s: Server, fs: seq<Frame>): Option<Server>
    decreases |fs|
  {
    if s.done == w.n then Some(s)
    else if fs == [] then None
    else
      match Tell(w, s, fs[0])
      case None => None
      case Some(s1) => TellAll(w, s1, fs[1..])
  }

  // ----- how an answer is written -----

  /** DATA as section 6.1 of RFC 9113 has it: a pad length before the data and the padding after it. */
  function FramedData(id: nat, end: bool, pad: Option<Byte>, data: seq<Byte>): Frame
  {
    if pad.Some? then Frame(0x0, (if end then 0x1 else 0) + 0x8, id, [pad.value] + data + Zeros(pad.value))
    else Frame(0x0, if end then 0x1 else 0, id, data)
  }

  lemma HeadersFrameFlags(id: nat, end: bool, pad: Option<Byte>, priority: Option<seq<Byte>>, frag: seq<Byte>)
    ensures var f := FramedHeaders(id, end, pad, priority, frag);
            f.id == id && f.typ == F_HEADERS && (f.EndStream() <==> end) && f.EndHeaders()
  {
    var bits := (if pad.Some? then 8 else 0) + if priority.Some? then 32 else 0;
    assert ((if end then 1 else 0) + 4 + bits) / 4 % 2 == 1;
  }

  lemma DataFrameFlags(id: nat, end: bool, pad: Option<Byte>, data: seq<Byte>)
    ensures var f := FramedData(id, end, pad, data);
            f.id == id && f.typ == F_DATA && (f.EndStream() <==> end) && |f.payload| <= |data| + 256
  {
  }

  lemma BlockTold(w: Terms, s: Server, f: Frame, block: seq<Byte>, fields: seq<Field>, d: Hpack.DecoderState)
    requires s.block.None? && f.id != 0 && Waits(w, s, f.id) && |block| <= 262144
    requires f.typ == F_HEADERS && f.EndHeaders() && HeaderFragment(f) == Ok(block)
    requires Hpack.DecodeBlock(w.t, s.d, block) == (Ok(fields), d)
    ensures var a := Answer(Some(fields), AnswerOf(s, f.id).body, f.EndStream());
            Tell(w, s, f)
            == Some(s.(d := d, answers := s.answers[f.id := a], done := s.done + if f.EndStream() then 1 else 0))
  {
  }

  /** A whole block, framed in any way, answers with its fields; END_STREAM ends the answer. */
  lemma HeadersTold(w: Terms, s: Server, id: nat, end: bool, pad: Option<Byte>, priority: Option<seq<Byte>>,
                    block: seq<Byte>, fields: seq<Field>, d: Hpack.DecoderState)
    requires s.block.None? && id != 0 && Waits(w, s, id) && (priority.Some? ==> |priority.value| == 5)
    requires |block| <= 262144 && Hpack.DecodeBlock(w.t, s.d, block) == (Ok(fields), d)
    ensures var a := Answer(Some(fields), AnswerOf(s, id).body, end);
            Tell(w, s, FramedHeaders(id, end, pad, priority, block))
            == Some(s.(d := d, answers := s.answers[id := a], done := s.done + if end then 1 else 0))
  {
    HeadersFrameFlags(id, end, pad, priority, block);
    HeadersFramingIsInvisible(id, end, pad, priority, block);
    BlockTold(w, s, FramedHeaders(id, end, pad, priority, block), block, fields, d);
  }

  /** Up to 16 KiB of DATA, padded or not, are added to the body. */
  lemma DataTold(w: Terms, s: Server, id: nat, end: bool, pad: Option<Byte>, data: seq<Byte>)
    requires s.block.None? && id != 0 && Waits(w, s, id) && AnswerOf(s, id).fields.Some? && |data| <= 16384
    requires |AnswerOf(s, id).body| + |data| <= 0x1000_0000
    ensures var a := Answer(AnswerOf(s, id).fields, AnswerOf(s, id).body + data, end);
            Tell(w, s, FramedData(id, end, pad, data))
            == Some(s.(answers := s.answers[id := a], done := s.done + if end then 1 else 0))
  {
    DataFrameFlags(id, end, pad, data);
    DataPaddingIsInvisible(id, end, if pad.Some? then pad.value else 0, data);
  }

  // ----- a connection that follows -----

  function BufOf(s: Server, id: nat): seq<Byte>
  {
    if s.block.Some? && s.block.value.0 == id then s.block.value.1 else []
  }

  /** This side of the stream is open, or ended with nothing left to send. */
  predicate Sending(x: Stream) { x.state.Open? || (x.state.HalfClosedLocal? && x.pendingBody.None?) }

  /** The stream holds the answer so far and can take more. */
  predicate Awaits(x: Stream, a: Answer, buf: seq<Byte>, room: nat)
  {
    && !a.over && Sending(x) && x.responseHeaders == a.fields && x.body == a.body
    && !x.endStreamRecv && x.headersBuf == buf && x.recvWindow.available >= 32767
    && x.sendWindow.available + room <= WINDOW_MAX
  }

  /** The stream holds the whole answer. */
  predicate Got(x: Stream, a: Answer)
  {
    a.over && a.fields.Some? && x.responseHeaders == a.fields && x.body == a.body
  }

  /** The connection and the peer agree, apart from the streams. */
  ghost predicate InTouch(w: Terms, s: Server, c: Conn)
  {
    && c.tables == w.t && c.goaway.None? && c.decoder == s.d && !c.dead && Sound(c)
    && c.expecting == (if s.block.Some? then Some(s.block.value.0) else None)
    && c.peer.maxConcurrentStreams == w.limit && c.peer.initialWindowSize + s.room <= WINDOW_MAX
    && c.connSend + s.room <= WINDOW_MAX && c.connRecv.available >= 32767
  }

  ghost predicate Following(w: Terms, s: Server, c: Conn)
  {
    InTouch(w, s, c) && forall id :: id in c.streams ==> Awaits(c.streams[id], AnswerOf(s, id), BufOf(s, id), s.room)
  }

  /** What a frame of the exchange does: the stream it completes is reported and holds its answer, the others go on. */
  ghost predicate Understands(w: Terms, s1: Server, c: Conn, f: Frame, r: Result<Outcome>, c1: Conn)
  {
    && c1.streams.Keys == c.streams.Keys
    && (if AnswerOf(s1, f.id).over && f.id in c.streams
        then r == Ok(Done(f.id)) && Got(c1.streams[f.id], AnswerOf(s1, f.id))
             && Following(w, s1, c1.(streams := c1.streams - {f.id}))
        else r == Ok(Continue) && Following(w, s1, c1))
  }

  // ----- one frame -----

  /** Only the transport moved. */
  lemma StillFollowing(w: Terms, s: Server, c: Conn, c1: Conn)
    requires Following(w, s, c) && Sound(c1) && !c1.dead
             && c1 == c.(out := c1.out, budget := c1.budget, dead := c1.dead)
    ensures Following(w, s, c1)
  {
  }

  /** The verdict on a frame that leaves every stream waiting. */
  lemma GoesOn(w: Terms, s1: Server, c: Conn, f: Frame, c1: Conn)
    requires Following(w, s1, c1) && c1.streams.Keys == c.streams.Keys
    ensures Understands(w, s1, c, f, Ok(Continue), c1)
  {
  }

  lemma NeutralFrame(w: Terms, s: Server, c: Conn, f: Frame)
    requires Following(w, s, c) && s.block.None? && f.typ != F_WINDOW_UPDATE && f.typ != F_HEADERS && f.typ != F_DATA
    requires Tell(w, s, f) == Some(s) && |f.payload| <= MAX_FRAME_PAYLOAD
    ensures var (r, c1) := ProcessFrame(c, f);
            c1.dead || Understands(w, s, c, f, r, c1)
  {
    var extra := DispatchStep(c, f);
    var (r, c1) := ProcessFrame(c, f);
    if f.id == 0 && f.typ == F_PING && !f.Ack() {
      var more := WriteThenFlushControl(c, [Frame(F_PING, FLAG_ACK, 0, f.payload)], Continue);
      if !c1.dead {
        StillFollowing(w, s, c, c1);
        GoesOn(w, s, c, f, c1);
      }
    } else {
      assert r == Ok(Continue) && c1 == c;
      GoesOn(w, s, c, f, c1);
    }
  }

  /** Credit on the connection. */
  lemma CreditOnConnection(w: Terms, s: Server, c: Conn, f: Frame, s1: Server)
    requires Following(w, s, c) && s.block.None? && f.typ == F_WINDOW_UPDATE && f.id == 0 && Granted(s, f) == Some(s1)
    ensures var (r, c1) := ProcessFrame(c, f);
            Understands(w, s1, c, f, r, c1)
  {
    var (r, c1) := ProcessFrame(c, f);
    GoesOn(w, s1, c, f, c1);
  }

  /** Credit on a stream, whether it is still open or not. */
  lemma CreditOnStream(w: Terms, s: Server, c: Conn, f: Frame, s1: Server)
    requires Following(w, s, c) && s.block.None? && f.typ == F_WINDOW_UPDATE && f.id != 0 && Granted(s, f) == Some(s1)
    ensures var (r, c1) := ProcessFrame(c, f);
            Understands(w, s1, c, f, r, c1)
  {
    UpdateStep(c, f);
    StreamCreditRead(w, s, c, f, s1);
    LessRoom(w, s, s1, c, ProcessFrame(c, f).1, f.id);
    GoesOn(w, s1, c, f, ProcessFrame(c, f).1);
  }

  /** Credit moves from the room that is left to one window. */
  lemma LessRoom(w: Terms, s: Server, s1: Server, c: Conn, c1: Conn, id: nat)
    requires Following(w, s, c) && s1 == s.(room := s1.room) && s1.room <= s.room && Sound(c1)
    requires c1 == if id !in c.streams then c else Credited(c, id, s.room - s1.room)
    ensures Following(w, s1, c1) && c1.streams.Keys == c.streams.Keys
  {
  }

  function Credited(c: Conn, id: nat, n: nat): Conn
    requires id in c.streams
  {
    var x := c.streams[id];
    c.(streams := c.streams[id := x.(sendWindow := x.sendWindow.(available := x.sendWindow.available + n))])
  }

  lemma StreamCreditRead(w: Terms, s: Server, c: Conn, f: Frame, s1: Server)
    requires Following(w, s, c) && s.block.None? && f.typ == F_WINDOW_UPDATE && f.id != 0 && Granted(s, f) == Some(s1)
    ensures ProcessFrame(c, f)
            == (Ok(Continue), if f.id !in c.streams then c else Credited(c, f.id, s.room - s1.room))
  {
  }

  // ----- header blocks -----

  /** The stream of the frame moved, and with it the answer; the other streams and answers are as they were. */
  lemma OneMoved(w: Terms, s: Server, s1: Server, c: Conn, c1: Conn, id: nat)
    requires Following(w, s, c) && InTouch(w, s1, c1) && id in c.streams && id in c1.streams
    requires c1.streams == c.streams[id := c1.streams[id]] && s1.room == s.room
    requires forall x :: x in c.streams && x != id ==> AnswerOf(s1, x) == AnswerOf(s, x) && BufOf(s1, x) == BufOf(s, x)
    ensures Following(w, s1, c1.(streams := c1.streams - {id}))
    ensures Awaits(c1.streams[id], AnswerOf(s1, id), BufOf(s1, id), s1.room) ==> Following(w, s1, c1)
  {
    assert forall x :: x in c.streams && x != id ==> c1.streams[x] == c.streams[x];
  }

  /** What the stream becomes when a block on it ends, and with it maybe the answer. */
  lemma AnswerCompletes(w: Terms, s: Server, s1: Server, c: Conn, c1: Conn, f: Frame)
    requires Following(w, s, c) && InTouch(w, s1, c1) && f.id in c.streams && f.id in c1.streams && s1.room == s.room
    requires c1.streams == c.streams[f.id := c1.streams[f.id]]
    requires forall x :: x in c.streams && x != f.id ==>
             AnswerOf(s1, x) == AnswerOf(s, x) && BufOf(s1, x) == BufOf(s, x)
    requires var x, a := c1.streams[f.id], AnswerOf(s1, f.id);
             if a.over then Got(x, a) else Awaits(x, a, BufOf(s1, f.id), s1.room)
    ensures Understands(w, s1, c, f, Ok(if AnswerOf(s1, f.id).over then Done(f.id) else Continue), c1)
  {
    OneMoved(w, s, s1, c, c1, f.id);
  }

  /** A stream that has just taken a whole block. */
  function Headered(x: Stream, fields: seq<Field>, end: bool): Stream
    requires x.state.Open? || x.state.HalfClosedLocal?
  {
    x.(headersBuf := [], responseHeaders := Some(fields), endStreamRecv := x.endStreamRecv || end,
       state := if !end then x.state else if x.state.Open? then HalfClosedRemote else Closed)
  }

  /** A stream that can take headers. */
  ghost predicate TakesHeaders(c: Conn, f: Frame)
  {
    && c.expecting.None? && f.typ == F_HEADERS && f.id != 0 && f.id in c.streams && HeaderFragment(f).Ok?
    && (c.streams[f.id].state.Open? || c.streams[f.id].state.HalfClosedLocal?) && c.streams[f.id].headersBuf == []
    && |HeaderFragment(f).value| <= MAX_HEADERS_BUF
  }

  lemma WholeRead(c: Conn, f: Frame, fields: seq<Field>, d: Hpack.DecoderState)
    requires TakesHeaders(c, f) && f.EndHeaders()
    requires Hpack.DecodeBlock(c.tables, c.decoder, HeaderFragment(f).value) == (Ok(fields), d)
    ensures var x := Headered(c.streams[f.id], fields, f.EndStream());
            ProcessFrame(c, f) == (Ok(Verdict(x, f.id)), c.(streams := c.streams[f.id := x], decoder := d))
  {
    var frag := HeaderFragment(f).value;
    assert [] + frag == frag;
  }

  lemma PartRead(c: Conn, f: Frame)
    requires TakesHeaders(c, f) && !f.EndHeaders() && !f.EndStream() && !c.streams[f.id].endStreamRecv
    ensures var x := c.streams[f.id].(headersBuf := HeaderFragment(f).value);
            ProcessFrame(c, f) == (Ok(Continue), c.(streams := c.streams[f.id := x], expecting := Some(f.id)))
  {
    var frag := HeaderFragment(f).value;
    assert [] + frag == frag;
  }

  /** HEADERS with the whole block. */
  lemma WholeBlock(w: Terms, s: Server, c: Conn, f: Frame, s1: Server)
    requires Following(w, s, c) && s.block.None? && f.typ == F_HEADERS && f.EndHeaders() && f.id != 0
             && f.id in c.streams
    requires HeaderFragment(f).Ok? && Headed(w, s, f.id, HeaderFragment(f).value, true, f.EndStream()) == Some(s1)
    ensures var (r, c1) := ProcessFrame(c, f);
            Understands(w, s1, c, f, r, c1)
  {
    var (fields, d) := Hpack.DecodeBlock(w.t, s.d, HeaderFragment(f).value);
    HeadersStep(c, f);
    WholeRead(c, f, fields.value, d);
    AnswerCompletes(w, s, s1, c, ProcessFrame(c, f).1, f);
  }

  /** HEADERS with the beginning of a block. */
  lemma BlockBegins(w: Terms, s: Server, c: Conn, f: Frame, s1: Server)
    requires Following(w, s, c) && s.block.None? && f.typ == F_HEADERS && !f.EndHeaders() && !f.EndStream() && f.id != 0
    requires f.id in c.streams && HeaderFragment(f).Ok?
             && Headed(w, s, f.id, HeaderFragment(f).value, false, false) == Some(s1)
    ensures var (r, c1) := ProcessFrame(c, f);
            Understands(w, s1, c, f, r, c1)
  {
    HeadersStep(c, f);
    PartRead(c, f);
    AnswerCompletes(w, s, s1, c, ProcessFrame(c, f).1, f);
  }

  /** CONTINUATION with more of a block, or its end. */
  lemma BlockGoesOn(w: Terms, s: Server, c: Conn, f: Frame, s1: Server)
    requires Following(w, s, c) && s.block.Some? && f.typ == F_CONTINUATION && f.id == s.block.value.0 && f.id != 0
    requires f.id in c.streams && Headed(w, s, f.id, s.block.value.1 + f.payload, f.EndHeaders(), false) == Some(s1)
    ensures var (r, c1) := ProcessFrame(c, f);
            Understands(w, s1, c, f, r, c1)
  {
    ContinuationStep(c, f);
    var (r, c1) := ProcessFrame(c, f);
    AnswerCompletes(w, s, s1, c, c1, f);
  }

  // ----- DATA -----

  /** A stream that has just taken DATA. */
  function WithData(x: Stream, f: Frame): Stream
    requires (x.state.Open? || x.state.HalfClosedLocal?) && DataBytes(f).Ok?
  {
    x.(body := x.body + DataBytes(f).value, endStreamRecv := x.endStreamRecv || f.EndStream(),
       recvWindow := x.recvWindow.Consume(|f.payload|),
       state := if !f.EndStream() then x.state else if x.state.Open? then HalfClosedRemote else Closed)
  }

  ghost predicate TakesData(c: Conn, f: Frame)
  {
    && c.expecting.None? && f.typ == F_DATA && f.id != 0 && f.id in c.streams && DataBytes(f).Ok?
    && (c.streams[f.id].state.Open? || c.streams[f.id].state.HalfClosedLocal?)
    && |f.payload| <= c.connRecv.available && |f.payload| <= c.streams[f.id].recvWindow.available
    && |c.streams[f.id].body| + |DataBytes(f).value| <= MAX_RESPONSE_BYTES
  }

  lemma DataRead(c: Conn, f: Frame)
    requires TakesData(c, f)
    ensures ProcessFrame(c, f)
            == GrantBack(c.(connRecv := c.connRecv.Consume(|f.payload|),
                            streams := c.streams[f.id := WithData(c.streams[f.id], f)]),
                         f.id)
  {
  }

  /** DATA that fits is taken and paid back, unless the transport dies. */
  lemma DataOutcome(c: Conn, f: Frame)
    requires TakesData(c, f) && Sound(c)
    ensures var (r, c1) := ProcessFrame(c, f);
            c1.dead || (TakenData(c, f, c1) && r == Ok(Verdict(c1.streams[f.id], f.id)))
  {
    DataRead(c, f);
    var x := WithData(c.streams[f.id], f);
    var c0 := c.(connRecv := c.connRecv.Consume(|f.payload|), streams := c.streams[f.id := x]);
    var more := GrantBackStep(c0, f.id);
    GrantedRoom(c0, f.id);
  }

  ghost predicate TakenData(c: Conn, f: Frame, c1: Conn)
    requires TakesData(c, f)
  {
    && f.id in c1.streams
    && c1 == c.(connRecv := c1.connRecv, streams := c.streams[f.id := c1.streams[f.id]], out := c1.out,
                budget := c1.budget, dead := c1.dead)
    && c1.streams[f.id] == WithData(c.streams[f.id], f).(recvWindow := c1.streams[f.id].recvWindow)
    && c1.streams[f.id].recvWindow.available >= 32767 && c1.connRecv.available >= 32767
  }

  lemma DataFits(w: Terms, s: Server, c: Conn, f: Frame, s1: Server)
    requires Following(w, s, c) && s.block.None? && f.typ == F_DATA && f.id != 0 && f.id in c.streams
    requires Fed(s, f) == Some(s1)
    ensures var (r, c1) := ProcessFrame(c, f);
            c1.dead || Understands(w, s1, c, f, r, c1)
  {
    var extra := DataStep(c, f);
    DataOutcome(c, f);
    if !ProcessFrame(c, f).1.dead {
      DataUnderstood(w, s, c, f, s1, ProcessFrame(c, f).1);
    }
  }

  lemma DataUnderstood(w: Terms, s: Server, c: Conn, f: Frame, s1: Server, c1: Conn)
    requires Following(w, s, c) && s.block.None? && f.id in c.streams && DataBytes(f).Ok? && Fed(s, f) == Some(s1)
    requires InTouch(w, s1, c1) && f.id in c1.streams && c1.streams == c.streams[f.id := c1.streams[f.id]]
    requires c1.streams[f.id] == WithData(c.streams[f.id], f).(recvWindow := c1.streams[f.id].recvWindow)
    requires c1.streams[f.id].recvWindow.available >= 32767
    ensures Understands(w, s1, c, f, Ok(Verdict(c1.streams[f.id], f.id)), c1)
  {
    AnswerCompletes(w, s, s1, c, c1, f);
  }

  /** After granting back, both windows have room for another frame. */
  lemma GrantedRoom(c: Conn, id: nat)
    requires id in c.streams && SoundRecv(c.connRecv) && SoundRecv(c.streams[id].recvWindow)
    ensures var (r, c1) := GrantBack(c, id);
            r.Ok? ==> id in c1.streams && c1.connRecv.available >= 32767 && c1.streams[id].recvWindow.available >= 32767
  {
  }

  // ----- any frame of an exchange -----

  /** The streams the peer may answer on are open. */
  ghost predicate Present(w: Terms, s: Server, c: Conn)
  {
    (forall id :: Waits(w, s, id) ==> id in c.streams) && (s.block.Some? ==> s.block.value.0 in c.streams)
  }

  lemma FrameUnderstood(w: Terms, s: Server, c: Conn, f: Frame)
    requires Following(w, s, c) && Present(w, s, c) && Tell(w, s, f).Some? && |f.payload| <= MAX_FRAME_PAYLOAD
    ensures var (r, c1) := ProcessFrame(c, f);
            c1.dead || Understands(w, Tell(w, s, f).value, c, f, r, c1)
  {
    var s1 := Tell(w, s, f).value;
    if s.block.Some? {
      assert SoundStream(c.streams[f.id], f.id);
      BlockGoesOn(w, s, c, f, s1);
    } else if f.typ == F_WINDOW_UPDATE {
      if f.id == 0 {
        CreditOnConnection(w, s, c, f, s1);
      } else {
        CreditOnStream(w, s, c, f, s1);
      }
    } else if f.id != 0 && f.typ == F_HEADERS {
      if f.EndHeaders() {
        WholeBlock(w, s, c, f, s1);
      } else {
        BlockBegins(w, s, c, f, s1);
      }
    } else if f.id != 0 && f.typ == F_DATA {
      DataFits(w, s, c, f, s1);
    } else {
      StrayUnderstood(w, s, c, f);
    }
  }

  /** HEADERS and DATA on stream 0 mean nothing here either. */
  lemma StrayUnderstood(w: Terms, s: Server, c: Conn, f: Frame)
    requires Following(w, s, c) && s.block.None? && Tell(w, s, f) == Some(s) && |f.payload| <= MAX_FRAME_PAYLOAD
    requires f.typ != F_WINDOW_UPDATE && (f.id == 0 || (f.typ != F_HEADERS && f.typ != F_DATA))
    ensures var (r, c1) := ProcessFrame(c, f);
            c1.dead || Understands(w, s, c, f, r, c1)
  {
    if f.typ == F_HEADERS || f.typ == F_DATA {
      GoesOn(w, s, c, f, c);
    } else {
      NeutralFrame(w, s, c, f);
    }
  }
}

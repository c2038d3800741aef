/** Frames, settings and streams of an HTTP/2 client connection (RFC 9113). */
module Http2Types {
  import opened Common
  import opened Fields
  import opened FlowControl

  const F_DATA := 0
  const F_HEADERS := 1
  const F_RST_STREAM := 3
  const F_SETTINGS := 4
  const F_PUSH_PROMISE := 5
  const F_PING := 6
  const F_GOAWAY := 7
  const F_WINDOW_UPDATE := 8
  const F_CONTINUATION := 9

  const FLAG_END_STREAM := 1
  const FLAG_ACK := 1
  const FLAG_END_HEADERS := 4

  /** Largest payload the frame reader and writer handle. */
  const MAX_FRAME_PAYLOAD: nat := 0x10_0000
  const MAX_RESPONSE_BYTES: nat := 0x1000_0000
  const MAX_HEADERS_BUF: nat := 262144

  datatype Frame = Frame(typ: nat, flags: Byte, id: nat, payload: seq<Byte>) {
    predicate EndStream() { flags % 2 == 1 }
    predicate Ack() { flags % 2 == 1 }
    predicate EndHeaders() { flags / 4 % 2 == 1 }
    predicate Padded() { flags / 8 % 2 == 1 }
    predicate Priority() { flags / 32 % 2 == 1 }
  }

  /** Big-endian number in the first four bytes. */
  function U32(b: seq<Byte>): (v: nat)
    requires |b| >= 4
    ensures v < 0x1_0000_0000
  {
    0x100_0000 * (b[0] as int) + 0x1_0000 * (b[1] as int) + 0x100 * (b[2] as int) + b[3] as int
  }

  /** A 31-bit number whose high bit is reserved. */
  function U31(b: seq<Byte>): (v: nat)
    requires |b| >= 4
    ensures v < 0x8000_0000
  {
    U32(b) % 0x8000_0000
  }

  function U32Bytes(v: nat): (b: seq<Byte>)
    requires v < 0x1_0000_0000
    ensures |b| == 4 && U32(b) == v
  {
    [v / 0x100_0000, v / 0x1_0000 % 256, v / 0x100 % 256, v % 256]
  }

  function WindowUpdateFrame(id: nat, increment: nat): Frame
    requires increment < 0x8000_0000
  {
    Frame(F_WINDOW_UPDATE, 0, id, U32Bytes(increment))
  }

  function ParseWindowUpdate(payload: seq<Byte>): (r: Result<nat>)
    ensures r.Ok? ==> r.value < 0x8000_0000
  {
    if |payload| == 4 then Ok(U31(payload)) else Err
  }

  // ----- settings (section 6.5.2) -----

  datatype PeerSettings = PeerSettings(
    headerTableSize: nat,
    enablePush: bool,
    maxConcurrentStreams: nat,
    initialWindowSize: nat,
    maxFrameSize: nat,
    maxHeaderListSize: nat)

  const DEFAULT_SETTINGS: PeerSettings := PeerSettings(4096, true, 0xffff_ffff, 65535, 16384, 0xffff_ffff)

  /** Ranges every accepted value respects. */
  predicate SettingsInRange(p: PeerSettings)
  {
    && p.headerTableSize < 0x1_0000_0000 && p.maxConcurrentStreams < 0x1_0000_0000
    && p.maxHeaderListSize < 0x1_0000_0000
    && p.initialWindowSize <= 0x7fff_ffff && 16384 <= p.maxFrameSize <= 16777215
  }

  /** One entry; unknown identifiers are ignored. */
  function ApplySetting(p: PeerSettings, id: nat, v: nat): (r: Result<PeerSettings>)
    requires v < 0x1_0000_0000
    ensures SettingsInRange(p) && r.Ok? ==> SettingsInRange(r.value)
  {
    match id
    case 1 => Ok(p.(headerTableSize := v))
    case 2 => if v == 0 then Ok(p.(enablePush := false)) else if v == 1 then Ok(p.(enablePush := true)) else Err
    case 3 => Ok(p.(maxConcurrentStreams := v))
    case 4 => if v > 0x7fff_ffff then Err else Ok(p.(initialWindowSize := v))
    case 5 => if v < 16384 || v > 16777215 then Err else Ok(p.(maxFrameSize := v))
    case 6 => Ok(p.(maxHeaderListSize := v))
    case _ => Ok(p)
  }

  /** Entries in order; those before a bad one stay applied. */
  function ApplyEntries(p: PeerSettings, payload: seq<Byte>): (r: (bool, PeerSettings))
    requires |payload| % 6 == 0
    ensures SettingsInRange(p) ==> SettingsInRange(r.1)
    decreases |payload|
  {
    if payload == [] then (true, p)
    else
      match ApplySetting(p, 256 * (payload[0] as int) + payload[1] as int, U32(payload[2..6]))
      case Err => (false, p)
      case Ok(p') => ApplyEntries(p', payload[6..])
  }

  function ApplySettings(p: PeerSettings, payload: seq<Byte>): (r: (bool, PeerSettings))
    ensures SettingsInRange(p) ==> SettingsInRange(r.1)
  {
    if |payload| % 6 != 0 then (false, p) else ApplyEntries(p, payload)
  }

  // ----- stream life cycle (section 5.1) -----

  datatype StreamState = Idle | Open | HalfClosedLocal | HalfClosedRemote | Closed {
    function SendData(end: bool): Result<StreamState>
    {
      match this
      case Idle => Ok(if end then HalfClosedLocal else Open)
      case Open => Ok(if end then HalfClosedLocal else Open)
      case HalfClosedRemote => Ok(if end then Closed else HalfClosedRemote)
      case _ => Err
    }

    function RecvData(end: bool): Result<StreamState>
    {
      match this
      case Open => Ok(if end then HalfClosedRemote else Open)
      case HalfClosedLocal => Ok(if end then Closed else HalfClosedLocal)
      case _ => Err
    }

    function RecvHeaders(end: bool): Result<StreamState>
    {
      match this
      case Open => Ok(if end then HalfClosedRemote else Open)
      case HalfClosedLocal => Ok(if end then Closed else HalfClosedLocal)
      case Closed => Ok(Closed)
      case _ => Err
    }

    function RecvRst(): Result<StreamState>
    {
      if Idle? then Err else Ok(Closed)
    }
  }

  /** A request body with a cursor to its first unsent byte. */
  datatype PendingBody = PendingBody(bytes: seq<Byte>, sent: nat)

  datatype Stream = Stream(
    id: nat,
    state: StreamState,
    sendWindow: SendWindow,
    recvWindow: RecvWindow,
    headersBuf: seq<Byte>,
    responseHeaders: Option<seq<Field>>,
    body: seq<Byte>,
    endStreamRecv: bool,
    pendingBody: Option<PendingBody>)
  {
    /** The peer's whole response has been seen. */
    predicate Complete() { endStreamRecv && responseHeaders.Some? }

    /** What makes a dispatch report the stream as done. */
    predicate Done() { (state.Closed? || state.HalfClosedRemote?) && Complete() }

    /** Refuses to grow past the cap. */
    function PushFragment(frag: seq<Byte>): Result<Stream>
    {
      if |headersBuf| + |frag| > MAX_HEADERS_BUF then Err else Ok(this.(headersBuf := headersBuf + frag))
    }
  }

  function NewStream(id: nat, initialWindow: int): Stream
  {
    Stream(id, Idle, NewSendWindow(initialWindow), NewRecvWindow(), [], None, [], false, None)
  }

  /** Removes PADDED and PRIORITY framing from a HEADERS payload. */
  function HeaderFragment(f: Frame): Result<seq<Byte>>
  {
    if f.Padded() && f.payload == [] then Err
    else
      var pad: nat := if f.Padded() then f.payload[0] else 0;
      var rest := if f.Padded() then f.payload[1..] else f.payload;
      if f.Priority() && |rest| < 5 then Err
      else
        var frag := if f.Priority() then rest[5..] else rest;
        if |frag| < pad then Err else Ok(frag[..|frag| - pad])
  }

  /** Removes padding from a DATA payload. */
  function DataBytes(f: Frame): Result<seq<Byte>>
  {
    if !f.Padded() then Ok(f.payload)
    else if f.payload == [] then Err
    else
      var pad: nat, rest := f.payload[0], f.payload[1..];
      if |rest| < pad then Err else Ok(rest[..|rest| - pad])
  }

  // ----- framing and life cycle, from the sender's side -----

  function Zeros(n: nat): seq<Byte> { seq(n, _ => 0) }

  /** Section 6.2 of RFC 9113: a pad length and five priority bytes before the fragment, padding after it. */
  function FramedHeaders(id: nat, endStream: bool, pad: Option<Byte>, priority: Option<seq<Byte>>,
                         frag: seq<Byte>): Frame
  {
    Frame(F_HEADERS,
          (if endStream then FLAG_END_STREAM else 0) + FLAG_END_HEADERS + (if pad.Some? then 8 else 0)
            + (if priority.Some? then 32 else 0),
          id,
          (if pad.Some? then [pad.value] else []) + (if priority.Some? then priority.value else []) + frag
          + (if pad.Some? then Zeros(pad.value) else []))
  }

  /** Padding and priority never change the fragment that is read. */
  lemma HeadersFramingIsInvisible(id: nat, endStream: bool, pad: Option<Byte>, priority: Option<seq<Byte>>,
                                  frag: seq<Byte>)
    requires priority.Some? ==> |priority.value| == 5
    ensures HeaderFragment(FramedHeaders(id, endStream, pad, priority, frag)) == Ok(frag)
  {
    var f := FramedHeaders(id, endStream, pad, priority, frag);
    var n := if pad.Some? then 1 else 0;
    var m := n + if priority.Some? then 5 else 0;
    HeadersFlags(endStream, pad.Some?, priority.Some?);
    assert f.payload[n..][m - n..] == f.payload[m..];
    assert f.payload[m..][..|frag|] == frag;
  }

  lemma HeadersFlags(endStream: bool, padded: bool, priority: bool)
    ensures var flags := (if endStream then 1 else 0) + 4 + (if padded then 8 else 0) + if priority then 32 else 0;
            (flags / 8 % 2 == 1 <==> padded) && (flags / 32 % 2 == 1 <==> priority)
  {
  }

  /** Section 6.1 of RFC 9113: padding never changes the DATA that is read. */
  lemma DataPaddingIsInvisible(id: nat, endStream: bool, pad: Byte, data: seq<Byte>)
    ensures DataBytes(Frame(F_DATA, (if endStream then FLAG_END_STREAM else 0) + 8, id, [pad] + data + Zeros(pad)))
            == Ok(data)
    ensures DataBytes(Frame(F_DATA, if endStream then FLAG_END_STREAM else 0, id, data)) == Ok(data)
  {
    var payload := [pad] + data + Zeros(pad);
    assert payload[1..][..|data|] == data;
  }

  /** What a stream may do in its life. */
  datatype Event = SendEnd(end: bool) | ReceiveData(end: bool) | ReceiveHeaders(end: bool) | Reset

  function After(s: StreamState, e: Event): Result<StreamState>
  {
    match e
    case SendEnd(end) => s.SendData(end)
    case ReceiveData(end) => s.RecvData(end)
    case ReceiveHeaders(end) => s.RecvHeaders(end)
    case Reset => s.RecvRst()
  }

  function AfterAll(s: StreamState, es: seq<Event>): Result<StreamState>
    decreases |es|
  {
    if es == [] then Ok(s) else match After(s, es[0]) case Err => Err case Ok(t) => AfterAll(t, es[1..])
  }

  /** The peer's side is over. */
  predicate PeerDone(s: StreamState) { s.HalfClosedRemote? || s.Closed? }

  /** Once the peer has ended its side no run of events brings it back, and DATA from it is refused for good. */
  lemma {:induction false} PeerEndIsFinal(s: StreamState, es: seq<Event>, end: bool)
    requires PeerDone(s) && AfterAll(s, es).Ok?
    ensures PeerDone(AfterAll(s, es).value) && AfterAll(s, es).value.RecvData(end).Err?
    ensures s.Closed? ==> AfterAll(s, es).value.Closed? && AfterAll(s, es).value.SendData(end).Err?
    decreases |es|
  {
    if es != [] {
      PeerEndIsFinal(After(s, es[0]).value, es[1..], end);
    }
  }

  /** What has happened to a stream: this side ended, the peer's side ended, either side reset it. */
  datatype Ends = Ends(local: bool, remote: bool, reset: bool) {
    predicate Over() { reset || (local && remote) }
  }

  function Noted(d: Ends, e: Event): Ends
  {
    match e
    case SendEnd(end) => d.(local := d.local || end)
    case ReceiveData(end) => d.(remote := d.remote || end)
    case ReceiveHeaders(end) => d.(remote := d.remote || end)
    case Reset => d.(reset := true)
  }

  function AllNoted(d: Ends, es: seq<Event>): Ends
    decreases |es|
  {
    if es == [] then d else AllNoted(Noted(d, es[0]), es[1..])
  }

  /** The state that figure 2 of RFC 9113 gives a stream that was opened. */
  function StateOf(d: Ends): StreamState
  {
    if d.Over() then Closed else if d.local then HalfClosedLocal else if d.remote then HalfClosedRemote else Open
  }

  /** What an opened stream may do next: nothing after its own side's end, except that headers may follow its close. */
  predicate MayCome(d: Ends, e: Event)
  {
    match e
    case SendEnd(_) => !d.Over() && !d.local
    case ReceiveData(_) => !d.Over() && !d.remote
    case ReceiveHeaders(_) => d.Over() || !d.remote
    case Reset => true
  }

  lemma OneEvent(d: Ends, e: Event)
    ensures After(StateOf(d), e) == if MayCome(d, e) then Ok(StateOf(Noted(d, e))) else Err
  {
  }

  lemma {:induction false} EventsNoted(d: Ends, es: seq<Event>)
    requires AfterAll(StateOf(d), es).Ok?
    ensures AfterAll(StateOf(d), es) == Ok(StateOf(AllNoted(d, es)))
    decreases |es|
  {
    if es != [] {
      OneEvent(d, es[0]);
      EventsNoted(Noted(d, es[0]), es[1..]);
    }
  }

  /** A stream is opened by sending; its state is then what was ended and reset so far, in whatever order. */
  lemma LifeCycle(es: seq<Event>)
    requires es != [] && AfterAll(Idle, es).Ok?
    ensures es[0].SendEnd? && AfterAll(Idle, es) == Ok(StateOf(AllNoted(Ends(false, false, false), es)))
  {
    EventsNoted(Ends(es[0].end, false, false), es[1..]);
  }
}

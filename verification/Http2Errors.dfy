/**
 * When a frame is refused: exactly for the reasons sections 4 to 6 of RFC 9113 give, and for the client's own limits.
 * As long as the transport is up, every other frame is taken.
 */
module Http2Errors {
  import opened Common
  import opened Http2Types
  import opened Http2Engine
  import opened Http2Frames
  import opened Http2Settings
  import opened SortedIds
  import Hpack

  // ----- what is wrong with a frame -----

  predicate Bit(flags: nat, weight: nat)
    requires weight > 0
  {
    flags / weight % 2 == 1
  }

  /** The bytes of a payload that are not its content: pad length, padding, and `fixed` more. */
  predicate Torn(f: Frame, fixed: nat)
  {
    if Bit(f.flags, 8) then f.payload == [] || 1 + fixed + f.payload[0] as int > |f.payload| else fixed > |f.payload|
  }

  predicate BadIncrement(payload: seq<Byte>, window: Option<int>)
  {
    |payload| != 4 || (window.Some? && (U31(payload) == 0 || window.value + U31(payload) > 0x7fff_ffff))
  }

  /** A window would pass 2^31 - 1, or an entry is out of range. */
  ghost predicate BadSettings(c: Conn, payload: seq<Byte>)
  {
    !Accepted(payload)
    || (InitialAfter(c.peer.initialWindowSize, payload) != c.peer.initialWindowSize
        && exists id :: id in c.streams && Overflows(c.streams[id], InitialAfter(c.peer.initialWindowSize, payload)))
  }

  /** The block is too long, or it is complete and cannot be decoded. */
  ghost predicate BadBlock(c: Conn, held: seq<Byte>, fragment: seq<Byte>, complete: bool)
  {
    |held| + |fragment| > 262144 || (complete && Hpack.DecodeBlock(c.tables, c.decoder, held + fragment).0.Err?)
  }

  /** This side is open for the peer's frames. */
  predicate Receives(s: Stream) { s.state.Open? || s.state.HalfClosedLocal? }

  /** The fragment a HEADERS frame carries. */
  function Carried(f: Frame): seq<Byte> { if HeaderFragment(f).Ok? then HeaderFragment(f).value else [] }

  ghost predicate BadHeaders(c: Conn, f: Frame)
  {
    Torn(f, if Bit(f.flags, 32) then 5 else 0) || f.id !in c.streams
    || (var s := c.streams[f.id];
        if s.state.Closed? then
          if Bit(f.flags, 4) then Hpack.DecodeBlock(c.tables, c.decoder, Carried(f)).0.Err?
          else BadBlock(c, s.headersBuf, Carried(f), false)
        else !Receives(s) || BadBlock(c, s.headersBuf, Carried(f), Bit(f.flags, 4)))
  }

  predicate BadData(c: Conn, f: Frame)
  {
    |f.payload| > c.connRecv.available
    || (f.id in c.streams
        && (var s := c.streams[f.id];
            !Receives(s) || |f.payload| > s.recvWindow.available || Torn(f, 0)
            || (DataBytes(f).Ok? && |s.body| + |DataBytes(f).value| > 0x1000_0000)))
  }

  /**
   * Frame types by number: 0 DATA, 1 HEADERS, 3 RST_STREAM, 4 SETTINGS, 5 PUSH_PROMISE, 8 WINDOW_UPDATE, 9
   * CONTINUATION.
   */
  ghost predicate Wrong(c: Conn, f: Frame)
  {
    if c.expecting.Some? && !(f.typ == 9 && f.id == c.expecting.value) then true
    else if f.id == 0 then WrongForConnection(c, f)
    else WrongForStream(c, f)
  }

  ghost predicate WrongForConnection(c: Conn, f: Frame)
  {
    match f.typ
    case 4 => !Bit(f.flags, 1) && BadSettings(c, f.payload)
    case 8 => BadIncrement(f.payload, Some(c.connSend))
    case _ => false
  }

  ghost predicate WrongForStream(c: Conn, f: Frame)
  {
    match f.typ
    case 0 => BadData(c, f)
    case 1 => BadHeaders(c, f)
    case 3 => f.id in c.streams && !c.streams[f.id].state.Closed?
    case 5 => true
    case 8 => BadIncrement(f.payload, if f.id in c.streams then Some(c.streams[f.id].sendWindow.available) else None)
    case 9 => BadContinuation(c, f)
    case _ => false
  }

  ghost predicate BadContinuation(c: Conn, f: Frame)
  {
    c.expecting.None? || f.id !in c.streams || BadBlock(c, c.streams[f.id].headersBuf, f.payload, Bit(f.flags, 4))
  }

  // ----- and nothing else is -----

  /** Refused for what it says, unless the transport died over the answer. */
  ghost predicate RefusedWhen(wrong: bool, r: Result<Outcome>, c1: Conn) { c1.dead || (r.Err? <==> wrong) }

  lemma FragmentIsTorn(f: Frame)
    ensures HeaderFragment(f).Err? <==> Torn(f, if Bit(f.flags, 32) then 5 else 0)
    ensures DataBytes(f).Err? <==> Torn(f, 0)
  {
  }

  lemma SettingsRefused(c: Conn, f: Frame)
    requires !c.dead
    ensures var (r, c1) := ProcessSettings(c, f);
            RefusedWhen(BadSettings(c, f.payload), r, c1)
  {
    SettingsAreTheLastGood(c.peer, f.payload, 4);
    var (ok, peer) := ApplySettings(c.peer, f.payload);
    ShiftFails(c.streams, Sorted(c.streams.Keys), peer.initialWindowSize);
    if ok {
      var (shifted, streams) := AdoptInitial(c.streams, c.peer.initialWindowSize, peer.initialWindowSize);
      assert !shifted <==> BadSettings(c, f.payload);
      AcknowledgingIsSure(c.(peer := peer, streams := streams), c.peer.headerTableSize);
    }
  }

  lemma AcknowledgingIsSure(c: Conn, headerTableSize: nat)
    ensures var (r, c1) := Acknowledge(c, headerTableSize);
            c1.dead || r.Ok?
  {
    var encoder := Acknowledge(c, headerTableSize).1.encoder;
    var extra := WriteThenFlushControl(c.(encoder := encoder), [Frame(F_SETTINGS, FLAG_ACK, 0, [])], Continue);
  }

  lemma ConnectionRefused(c: Conn, f: Frame)
    requires !c.dead && f.id == 0 && |f.payload| <= MAX_FRAME_PAYLOAD
    ensures var (r, c1) := ProcessConnFrame(c, f);
            RefusedWhen(WrongForConnection(c, f), r, c1)
  {
    if f.typ == F_SETTINGS && !f.Ack() {
      SettingsRefused(c, f);
    } else if f.typ == F_PING && !f.Ack() {
      var extra := WriteThenFlushControl(c, [Frame(F_PING, FLAG_ACK, 0, f.payload)], Continue);
    }
  }

  lemma HeadersRefused(c: Conn, f: Frame)
    requires f.id != 0 && f.typ == F_HEADERS
    ensures ProcessHeaders(c, f).0.Err? <==> BadHeaders(c, f)
  {
    FragmentIsTorn(f);
  }

  lemma ContinuationRefused(c: Conn, f: Frame)
    requires c.expecting.None? || c.expecting == Some(f.id)
    ensures ProcessContinuation(c, f).0.Err? <==> BadContinuation(c, f)
  {
  }

  /** DATA that is not wrong is taken and its credit returned, unless the transport dies. */
  lemma DataRefused(c: Conn, f: Frame)
    requires Sound(c) && !c.dead && f.id != 0 && f.typ == F_DATA
    ensures var (r, c1) := ProcessData(c, f);
            RefusedWhen(BadData(c, f), r, c1)
  {
    FragmentIsTorn(f);
    var conn := c.connRecv.Consume(|f.payload|);
    if conn.available >= 0 {
      if f.id !in c.streams {
        var (w, inc) := conn.Replenish();
        UpdateFramesControl(0, inc);
        var extra := WriteThenFlushControl(c.(connRecv := w), UpdateFrames(0, inc), Continue);
      } else if Receives(c.streams[f.id]) {
        OpenDataRefused(c, c.(connRecv := conn), f);
      }
    }
  }

  lemma OpenDataRefused(c: Conn, c1: Conn, f: Frame)
    requires Sound(c) && !c.dead && f.id in c.streams && Receives(c.streams[f.id])
    requires c1 == c.(connRecv := c1.connRecv) && SoundRecv(c1.connRecv)
    ensures var s := c.streams[f.id];
            var (r, c2) := DataOnOpen(c1, f, s.state.RecvData(f.EndStream()).value);
            RefusedWhen(|f.payload| > s.recvWindow.available || Torn(f, 0)
                        || (DataBytes(f).Ok? && |s.body| + |DataBytes(f).value| > 0x1000_0000), r, c2)
  {
    FragmentIsTorn(f);
    var s := c.streams[f.id];
    var (ok, x) := AcceptData(s, f, s.state.RecvData(f.EndStream()).value);
    if ok {
      var extra := GrantBackStep(c1.(streams := c.streams[f.id := x]), f.id);
    }
  }

  /** While the transport is up a frame is refused exactly if something is wrong with it. */
  lemma RefusedExactly(c: Conn, f: Frame)
    requires Sound(c) && !c.dead && |f.payload| <= MAX_FRAME_PAYLOAD
    ensures var (r, c1) := ProcessFrame(c, f);
            RefusedWhen(Wrong(c, f), r, c1)
  {
    if c.expecting.None? || (f.typ == 9 && f.id == c.expecting.value) {
      if f.id == 0 {
        ConnectionRefused(c, f);
      } else {
        StreamRefused(c, f);
      }
    }
  }

  lemma StreamRefused(c: Conn, f: Frame)
    requires Sound(c) && !c.dead && f.id != 0 && (c.expecting.None? || (f.typ == 9 && f.id == c.expecting.value))
    ensures var (r, c1) := ProcessFrame(c, f);
            RefusedWhen(WrongForStream(c, f), r, c1)
  {
    if f.typ == F_HEADERS {
      HeadersRefused(c, f);
    } else if f.typ == F_CONTINUATION {
      ContinuationRefused(c, f);
    } else if f.typ == F_DATA {
      DataRefused(c, f);
    }
  }
}

/**
 * What the peer gets back: a PING is returned with its payload (section 6.7 of RFC 9113), settings are acknowledged
 * once they are applied (section 6.5.3), and the HPACK encoder keeps to the table size the peer announced last.
 */
module Http2Replies {
  import opened Common
  import opened Fields
  import opened FlowControl
  import opened Http2Types
  import opened Http2Engine
  import opened Http2Frames
  import opened Http2Settings
  import opened Http2Ledger
  import opened Http2Receipts
  import opened Http2Requests
  import opened Http2Exchange
  import Hpack

  // ----- frames written -----

  /** A PING comes back with the ACK flag and the same payload; the answer to a PING of ours does not. */
  lemma PingIsReturned(c: Conn, flags: Byte, payload: seq<Byte>)
    requires c.expecting.None? && |payload| <= MAX_FRAME_PAYLOAD && c.budget >= 2
    ensures ProcessFrame(c, Frame(0x6, flags, 0, payload))
            == (Ok(Continue),
                if flags % 2 == 1 then c else c.(out := c.out + [Frame(0x6, 0x1, 0, payload)], budget := c.budget - 2))
  {
    OneReply(c, Frame(0x6, 0x1, 0, payload));
  }

  lemma OneReply(c: Conn, f: Frame)
    requires |f.payload| <= MAX_FRAME_PAYLOAD && c.budget >= 2
    ensures WriteThenFlush(c, [f], Continue) == (Ok(Continue), c.(out := c.out + [f], budget := c.budget - 2))
  {
    assert [f][1..] == [];
    assert WriteAll(c, [f]) == (true, c.(out := c.out + [f], budget := c.budget - 1));
  }

  /** The settings a payload leaves and the streams they adjust, if every entry is good and no window overflows. */
  ghost function Adopted(c: Conn, payload: seq<Byte>): Option<Conn>
  {
    var (ok, peer) := ApplySettings(c.peer, payload);
    var (shifted, streams) := AdoptInitial(c.streams, c.peer.initialWindowSize, peer.initialWindowSize);
    if ok && shifted then Some(c.(peer := peer, streams := streams)) else None
  }

  /** Settings that are adopted are acknowledged with an empty frame; settings that are refused are not. */
  lemma SettingsAreAcknowledged(c: Conn, flags: Byte, payload: seq<Byte>)
    requires c.expecting.None? && c.budget >= 2 && flags % 2 == 0
    ensures var (r, c1) := ProcessFrame(c, Frame(0x4, flags, 0, payload));
            match Adopted(c, payload)
            case None => r == Err && c1.out == c.out && c1.encoder == c.encoder
            case Some(c0) =>
              && r == Ok(Continue) && c1 == c0.(encoder := c1.encoder, out := c.out + [Frame(0x4, 0x1, 0, [])],
                                                budget := c.budget - 2)
              && (c0.peer.headerTableSize == c.peer.headerTableSize ==> c1.encoder == c.encoder)
              && (c0.peer.headerTableSize != c.peer.headerTableSize ==>
                    c1.encoder.cap == c0.peer.headerTableSize && c1.encoder.pending == Some(c0.peer.headerTableSize))
  {
    if Adopted(c, payload).Some? {
      var c0 := Adopted(c, payload).value;
      var encoder := ProcessSettings(c, Frame(0x4, flags, 0, payload)).1.encoder;
      OneReply(c0.(encoder := encoder), Frame(0x4, 0x1, 0, []));
    }
  }

  // ----- GOAWAY -----

  /** The last stream id of a GOAWAY (section 6.8): 31 bits, 0 when the payload is too short to hold one. */
  function LastStream(payload: seq<Byte>): nat
  {
    if |payload| < 4 then 0
    else
      payload[0] as int % 0x80 * 0x100_0000 + payload[1] as int * 0x1_0000 + payload[2] as int * 0x100
      + payload[3] as int
  }

  /** A GOAWAY is always taken: it sets the mark and closes exactly the streams beyond it. */
  lemma GoAwayMarks(c: Conn, flags: Byte, payload: seq<Byte>)
    requires c.expecting.None?
    ensures var (r, c1) := ProcessFrame(c, Frame(0x7, flags, 0, payload));
            var last := LastStream(payload);
            && r == Ok(Continue) && c1 == c.(goaway := Some(last), streams := c1.streams)
            && c1.streams.Keys == c.streams.Keys
            && forall id :: id in c.streams ==>
                 c1.streams[id] == if id > last then c.streams[id].(state := Closed) else c.streams[id]
  {
    if |payload| >= 4 {
      assert U32(payload) % 0x8000_0000 == LastStream(payload);
    }
  }

  // ----- credit paid back -----

  /** A window of 65535 bytes with less than half left gets everything back; with more it gets nothing yet. */
  function Due(id: nat, left: int): seq<Frame>
    requires 0 <= left <= 65535
  {
    if left < 32767 then [Frame(0x8, 0x0, id, U32Bytes(65535 - left))] else []
  }

  function Restored(left: int): int { if left < 32767 then 65535 else left }

  lemma DueIsGranted(id: nat, w: RecvWindow)
    requires w.initial == 65535 && 0 <= w.available <= 65535
    ensures UpdateFrames(id, w.Replenish().1) == Due(id, w.available)
    ensures w.Replenish().0 == RecvWindow(Restored(w.available), 65535)
  {
  }

  /** What is paid back for DATA that was taken: the connection's window first, then the stream's. */
  lemma DataIsPaidBack(c: Conn, f: Frame)
    requires Sound(c) && !c.dead && TakesData(c, f) && ProcessFrame(c, f).0.Ok?
    ensures var left0, left := c.connRecv.available - |f.payload|, c.streams[f.id].recvWindow.available - |f.payload|;
            var c1 := ProcessFrame(c, f).1;
            && c1.out == c.out + Due(0, left0) + Due(f.id, left)
            && c1.connRecv.available == Restored(left0)
            && f.id in c1.streams && c1.streams[f.id].recvWindow.available == Restored(left)
  {
    DataRead(c, f);
    var x := WithData(c.streams[f.id], f);
    var c0 := c.(connRecv := c.connRecv.Consume(|f.payload|), streams := c.streams[f.id := x]);
    BothPaidBack(c0, f.id);
  }

  lemma BothPaidBack(c: Conn, id: nat)
    requires id in c.streams && !c.dead && GrantBack(c, id).0.Ok?
    requires c.connRecv.initial == 65535 && 0 <= c.connRecv.available <= 65535
    requires c.streams[id].recvWindow.initial == 65535 && 0 <= c.streams[id].recvWindow.available <= 65535
    ensures var c1 := GrantBack(c, id).1;
            && c1.out == c.out + Due(0, c.connRecv.available) + Due(id, c.streams[id].recvWindow.available)
            && c1.connRecv.available == Restored(c.connRecv.available)
            && id in c1.streams && c1.streams[id].recvWindow.available == Restored(c.streams[id].recvWindow.available)
  {
    var (w0, inc0) := c.connRecv.Replenish();
    var (w, inc) := c.streams[id].recvWindow.Replenish();
    DueIsGranted(0, c.connRecv);
    DueIsGranted(id, c.streams[id].recvWindow);
    WriteAllSmall(c.(connRecv := w0), UpdateFrames(0, inc0));
    var c1 := WriteAll(c.(connRecv := w0), UpdateFrames(0, inc0)).1;
    var c2 := c1.(streams := c1.streams[id := c1.streams[id].(recvWindow := w)]);
    WriteThenFlushSmall(c2, UpdateFrames(id, inc), Verdict(c2.streams[id], id));
  }

  // ----- the table size -----

  /** The encoder works with the table size the peer announced last. */
  predicate Obeys(c: Conn) { c.encoder.cap == c.peer.headerTableSize }

  /** The table size a payload leaves: what the last good entry for it says. */
  function TableAfter(size: nat, payload: seq<Byte>): nat
  {
    GoodEntriesFit(payload);
    LastValue(payload, GoodEntries(payload), 1, size)
  }

  /**
   * After settings the encoder obeys again, except that settings that were refused leave it at the old size: then it
   * obeys exactly if the entries before the first bad one leave the size as it was.
   */
  lemma SettingsObeyed(c: Conn, f: Frame)
    requires Obeys(c) && !c.dead && c.expecting.None? && Adjusts(f)
    ensures var (r, c1) := ProcessFrame(c, f);
            Obeys(c1)
            <==> Adopted(c, f.payload).Some?
                 || TableAfter(c.peer.headerTableSize, f.payload) == c.peer.headerTableSize
  {
    SettingsAreTheLastGood(c.peer, f.payload, 1);
    if Adopted(c, f.payload).Some? {
      AcknowledgedObeys(c, f);
    }
  }

  lemma AcknowledgedObeys(c: Conn, f: Frame)
    requires Adopted(c, f.payload).Some? && c.expecting.None? && Adjusts(f) && Obeys(c)
    ensures Obeys(ProcessFrame(c, f).1)
  {
  }

  /** No other frame moves the encoder or the table size. */
  lemma OthersObeyed(c: Conn, f: Frame)
    requires Obeys(c) && !Adjusts(f)
    ensures Obeys(ProcessFrame(c, f).1)
  {
    FrameTells(c, f);
    if f.id == 0 {
      ConnectionObeyed(c, f);
    } else if f.typ == F_DATA {
      DataTells(c, f);
    } else if f.typ == F_HEADERS || f.typ == F_CONTINUATION {
      HeadersTell(c, f);
    }
  }

  lemma ConnectionObeyed(c: Conn, f: Frame)
    requires Obeys(c) && !Adjusts(f) && f.id == 0
    ensures Obeys(ProcessConnFrame(c, f).1)
  {
    WritingTells(c, [Frame(F_PING, FLAG_ACK, 0, f.payload)], Continue);
  }

  lemma {:induction false} EncodingObeys(t: Hpack.Tables, e: Hpack.EncoderState, fs: seq<Field>)
    requires |t.huffman| == 257
    ensures Hpack.EncodeBlock(t, e, fs).1.cap == e.cap
    decreases |fs|
  {
    if fs != [] {
      EncodingObeys(t, Hpack.EncodeHeader(t, e, fs[0]).1, fs[1..]);
    }
  }

  lemma StartObeys(c: Conn, req: Request)
    requires Obeys(c) && |c.tables.huffman| == 257 && c.peer.maxFrameSize > 0
    ensures Obeys(StartRequest(c, req).1)
  {
    EncodingObeys(c.tables, c.encoder, req.fields);
  }

  /** The settings read, if any, were adopted or left the table size alone. */
  ghost predicate Heeds(c: Conn, c1: Conn)
  {
    c1 == ReadAndDispatch(c).1 && c.inbound != [] && Adjusts(c.inbound[0]) && c.expecting.None? ==>
      Adopted(c, c.inbound[0].payload).Some?
      || TableAfter(c.peer.headerTableSize, c.inbound[0].payload) == c.peer.headerTableSize
  }

  lemma ReadObeys(c: Conn)
    requires Obeys(c) && !c.dead && Heeds(c, ReadAndDispatch(c).1)
    ensures Obeys(ReadAndDispatch(c).1)
  {
    if c.inbound != [] {
      var f, c0 := c.inbound[0], c.(inbound := c.inbound[1..], accepted := c.accepted + [c.inbound[0]]);
      if Adjusts(f) && c.expecting.None? {
        SettingsObeyed(c0, f);
      } else if !Adjusts(f) {
        OthersObeyed(c0, f);
      }
    }
  }

  lemma OperationObeys(c: Conn, c1: Conn, reqs: seq<Request>)
    requires Obeys(c) && !c.dead && Operation(c, c1, reqs) && Heeds(c, c1)
    ensures Obeys(c1)
  {
    if c1 == ReadAndDispatch(c).1 {
      ReadObeys(c);
    } else if c1 != FlushPending(c).1 && Starts(c, c1, reqs) {
      var i: nat :| i < |reqs| && c1 == StartRequest(c, reqs[i]).1;
      StartObeys(c, reqs[i]);
    }
  }

  ghost predicate HeedsAt(path: seq<Conn>, j: nat)
  {
    0 < j < |path| ==> !path[j - 1].dead && Heeds(path[j - 1], path[j])
  }

  lemma StepObeys(path: seq<Conn>, reqs: seq<Request>, k: nat)
    requires Life(path, reqs) && 0 < k < |path| && Obeys(path[k - 1]) && HeedsAt(path, k)
    ensures Obeys(path[k])
  {
    LifeStep(path, reqs, k);
    OperationObeys(path[k - 1], path[k], reqs);
  }

  /** The encoder obeys at every moment of a run, as long as no settings were refused after changing the table size. */
  lemma {:induction false} LifeObeys(path: seq<Conn>, reqs: seq<Request>, k: nat)
    requires Life(path, reqs) && Obeys(path[0]) && k < |path|
    requires forall j: nat :: j <= k ==> HeedsAt(path, j)
    ensures Obeys(path[k])
    decreases k
  {
    if k > 0 {
      LifeObeys(path, reqs, k - 1);
      assert HeedsAt(path, k);
      StepObeys(path, reqs, k);
    }
  }
}

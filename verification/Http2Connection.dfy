/**
 * The mutable connection. Every method leaves the state its function in the engine or the driver describes, so what is
 * proved of those functions holds of every run of this code.
 */
module Http2Connection {
  import opened Common
  import opened Fields
  import opened FlowControl
  import opened Http2Types
  import opened SortedIds
  import opened HpackCodec
  import opened HpackRuns
  import opened Http2Invariants
  import Hpack
  import E = Http2Engine

  class Connection {
    const decoder: Decoder
    const encoder: Encoder
    var peer: PeerSettings
    var connSendWindow: int
    var connRecvWindow: RecvWindow
    var streams: map<nat, Stream>
    var nextStreamId: nat
    var goawayReceived: Option<nat>
    var expectingContinuation: Option<nat>
    // the transport: frames still to be read, operations left before it fails, frames written
    var inbound: seq<Frame>
    var budget: nat
    var out: seq<Frame>
    ghost var dead: bool
    var accepted: seq<Frame>
    ghost var born: map<nat, nat>
    ghost var staged: map<nat, E.Request>

    ghost predicate Valid()
      reads this, decoder, encoder
    {
      decoder.Valid() && encoder.Valid() && decoder.c == encoder.c && |encoder.c.huffman| == 257
        && SettingsInRange(peer)
    }

    ghost function View(): E.Conn
      reads this, decoder, encoder
    {
      E.Conn(encoder.c, peer, connSendWindow, connRecvWindow, decoder.State(), encoder.State(), streams, nextStreamId,
             goawayReceived, expectingContinuation, inbound, budget, dead, out, accepted, born, staged)
    }

    constructor (tables: Hpack.Tables, input: seq<Frame>, writes: nat)
      requires ValidTables(tables) && forall f :: f in input ==> |f.payload| <= MAX_FRAME_PAYLOAD
      ensures Valid() && Fresh(View()) && View().tables == tables && inbound == input && budget == writes
      ensures peer == PeerSettings(4096, true, 0xffff_ffff, 65535, 16384, 0xffff_ffff) && connSendWindow == 65535
      ensures View().encoder == FRESH_ENCODER && View().decoder == FRESH_DECODER
      ensures fresh(decoder) && fresh(encoder)
    {
      decoder := new Decoder(tables);
      encoder := new Encoder(tables);
      peer, connSendWindow, connRecvWindow := DEFAULT_SETTINGS, DEFAULT_WINDOW, NewRecvWindow();
      streams, nextStreamId, goawayReceived, expectingContinuation := map[], 1, None, None;
      inbound, budget, out := input, writes, [];
      dead, accepted, born, staged := false, [], map[], map[];
    }

    // ----- transport -----

    method WriteFrame(f: Frame) returns (ok: bool)
      modifies this`out, this`budget, this`dead
      ensures (ok, View()) == E.Write(old(View()), f)
    {
      if |f.payload| > MAX_FRAME_PAYLOAD {
        return false;
      }
      if budget == 0 {
        dead := true;
        return false;
      }
      out, budget := out + [f], budget - 1;
      return true;
    }

    method Flush() returns (ok: bool)
      modifies this`budget, this`dead
      ensures (ok, View()) == E.Flush(old(View()))
    {
      if budget == 0 {
        dead := true;
        return false;
      }
      budget := budget - 1;
      return true;
    }

    method WriteFrames(fs: seq<Frame>) returns (ok: bool)
      modifies this`out, this`budget, this`dead
      ensures (ok, View()) == E.WriteAll(old(View()), fs)
    {
      ghost var goal := E.WriteAll(View(), fs);
      ghost var rest := fs;
      for i := 0 to |fs|
        invariant rest == fs[i..] && goal == E.WriteAll(View(), rest)
      {
        ok := WriteFrame(fs[i]);
        if !ok {
          return false;
        }
        rest := rest[1..];
      }
      return true;
    }

    /** Writes what there is to write, then flushes. */
    method WriteThenFlush(fs: seq<Frame>, outcome: E.Outcome) returns (r: Result<E.Outcome>)
      modifies this`out, this`budget, this`dead
      ensures (r, View()) == E.WriteThenFlush(old(View()), fs, outcome)
    {
      var ok := WriteFrames(fs);
      if !ok {
        return Err;
      }
      ok := Flush();
      r := if ok then Ok(outcome) else Err;
    }

    // ----- requests -----

    method OpenStream() returns (r: Result<nat>)
      modifies this`streams, this`nextStreamId, this`born
      ensures match E.OpenStream(old(View()))
              case Err => r == Err && View() == old(View())
              case Ok((id, c)) => r == Ok(id) && View() == c
    {
      if |streams| >= peer.maxConcurrentStreams || nextStreamId >= 0x8000_0000 {
        return Err;
      }
      if goawayReceived.Some? && nextStreamId > goawayReceived.value {
        return Err;
      }
      var id := nextStreamId;
      nextStreamId := nextStreamId + 2;
      streams := streams[id := NewStream(id, peer.initialWindowSize)];
      born := born[id := |accepted|];
      return Ok(id);
    }

    method StageRequest(id: nat, req: E.Request) returns (ok: bool)
      requires Valid() && id in streams && forall f :: f in req.fields ==> |f.name| < U64 && |f.value| < U64
      modifies this, encoder
      ensures Valid() && (ok, View()) == E.StageRequest(old(View()), id, req)
    {
      var s := streams[id];
      var block := encoder.EncodeBlock(req.fields);
      var frames := FragmentHeaderBlock(id, block, peer.maxFrameSize, req.body == []);
      ok := WriteFrames(frames);
      if !ok {
        return false;
      }
      var state := s.state.SendData(req.body == []);
      if state.Err? {
        return false;
      }
      var pending := if req.body == [] then s.pendingBody else Some(PendingBody(req.body, 0));
      streams := streams[id := s.(state := state.value, pendingBody := pending)];
      staged := staged[id := req];
      return true;
    }

    /** Opens a stream for a request and stages it; a stream whose headers could not be written is dropped. */
    method StartRequest(req: E.Request) returns (got: Option<nat>)
      requires Valid() && forall f :: f in req.fields ==> |f.name| < U64 && |f.value| < U64
      modifies this, encoder
      ensures Valid() && (got, View()) == E.StartRequest(old(View()), req)
    {
      var id := OpenStream();
      if id.Err? {
        return None;
      }
      var ok := StageRequest(id.value, req);
      if !ok {
        streams := streams - {id.value};
        return None;
      }
      return Some(id.value);
    }

    /** Forgets exactly the streams that are over, so that a reused connection neither keeps them nor loses another. */
    method PruneCompletedStreams()
      modifies this`streams
      ensures forall id :: id in streams ==> id in old(streams) && streams[id] == old(streams)[id]
      ensures forall id :: id in old(streams) ==>
                var s := old(streams)[id];
                (id in streams
                 <==> !s.state.Closed? && !(s.state.HalfClosedRemote? && s.endStreamRecv && s.responseHeaders.Some?))
      ensures Inv(old(View())) ==> Inv(View())
    {
      ghost var c := View();
      var left := streams.Keys;
      while left != {}
        invariant left <= streams.Keys
        invariant forall id :: id in streams <==> id in c.streams && (id in left || !E.Over(c.streams[id]))
        invariant forall id :: id in streams ==> streams[id] == c.streams[id]
        decreases |left|
      {
        var id :| id in left;
        left := left - {id};
        if E.Over(streams[id]) {
          streams := streams - {id};
        }
      }
      if Inv(c) {
        FewerStreamsKeepInv(c, streams);
      }
    }

    // ----- pumping -----

    /** Sends on one stream until its body or a window is exhausted. */
    method PumpStream(id: nat, max: nat) returns (ok: bool)
      requires id in streams
      modifies this`connSendWindow, this`streams, this`out, this`budget, this`dead
      ensures (ok, View()) == E.PumpStream(old(View()), id, max) && streams.Keys == old(streams.Keys)
    {
      ghost var goal := E.PumpStream(View(), id, max);
      while true
        invariant id in streams && streams.Keys == old(streams.Keys) && goal == E.PumpStream(View(), id, max)
        decreases if streams[id].pendingBody.Some?
                  then |streams[id].pendingBody.value.bytes| - streams[id].pendingBody.value.sent else -1
      {
        var s := streams[id];
        if s.pendingBody.None? {
          return true;
        }
        var pb := s.pendingBody.value;
        if pb.sent >= |pb.bytes| {
          streams := streams[id := s.(pendingBody := None)];
          return true;
        }
        var n := NextDataChunkSize(max, Min(s.sendWindow.available, connSendWindow), |pb.bytes| - pb.sent);
        E.PumpUnfolds(View(), id, max, n);
        if n == 0 {
          return true;
        }
        ok := SendChunk(id, n);
        if !ok || pb.sent + n == |pb.bytes| {
          return;
        }
      }
    }

    method SendChunk(id: nat, n: nat) returns (ok: bool)
      requires id in streams && streams[id].pendingBody.Some?
      requires streams[id].pendingBody.value.sent + n <= |streams[id].pendingBody.value.bytes|
      modifies this`connSendWindow, this`streams, this`out, this`budget, this`dead
      ensures (ok, View()) == E.SendChunk(old(View()), id, n) && streams.Keys == old(streams.Keys)
    {
      var s, pb := streams[id], streams[id].pendingBody.value;
      var last := pb.sent + n == |pb.bytes|;
      ok := WriteFrame(Frame(F_DATA, if last then FLAG_END_STREAM else 0, id, pb.bytes[pb.sent..pb.sent + n]));
      if !ok {
        return false;
      }
      connSendWindow := connSendWindow - n;
      s := s.(sendWindow := s.sendWindow.Consume(n));
      var state := s.state.SendData(last);
      if state.Err? {
        streams := streams[id := s];
        return false;
      }
      streams := streams[id := s.(state := state.value,
                                  pendingBody := if last then None else Some(pb.(sent := pb.sent + n)))];
      return true;
    }

    method PumpPendingSends() returns (ok: bool)
      modifies this`connSendWindow, this`streams, this`out, this`budget, this`dead
      ensures (ok, View()) == E.Pump(old(View())) && streams.Keys == old(streams.Keys)
    {
      var max := peer.maxFrameSize;
      var ids := Sorted(set id | id in streams && streams[id].pendingBody.Some?);
      assert (set id | id in streams && streams[id].pendingBody.Some?) == E.PendingIds(View());
      ghost var goal := E.PumpStreams(View(), ids, max);
      ghost var rest := ids;
      for i := 0 to |ids|
        invariant rest == ids[i..] && streams.Keys == old(streams.Keys) && goal == E.PumpStreams(View(), rest, max)
      {
        assert ids[i] in ids;
        ok := PumpStream(ids[i], max);
        if !ok {
          return false;
        }
        rest := rest[1..];
      }
      return true;
    }

    method FlushPending() returns (ok: bool)
      modifies this`connSendWindow, this`streams, this`out, this`budget, this`dead
      ensures (ok, View()) == E.FlushPending(old(View())) && streams.Keys == old(streams.Keys)
    {
      ok := PumpPendingSends();
      if ok {
        ok := Flush();
      }
    }

    // ----- inbound frames -----

    method ReadAndDispatch() returns (r: Result<E.Outcome>)
      requires Valid()
      modifies this, decoder, encoder
      ensures Valid() && (r, View()) == E.ReadAndDispatch(old(View()))
    {
      if inbound == [] {
        return Err;
      }
      var f := inbound[0];
      var history := accepted;
      inbound := inbound[1..];
      accepted := accepted + [f];
      r := ProcessFrame(f);
      if r.Err? {
        accepted := history;
      }
    }

    method ProcessFrame(f: Frame) returns (r: Result<E.Outcome>)
      requires Valid()
      modifies this, decoder, encoder
      ensures Valid() && (r, View()) == E.ProcessFrame(old(View()), f)
    {
      if expectingContinuation.Some? && !(f.typ == F_CONTINUATION && f.id == expectingContinuation.value) {
        return Err;
      }
      if f.id == 0 {
        r := ProcessConnFrame(f);
      } else if f.typ == F_HEADERS {
        r := ProcessHeaders(f);
      } else if f.typ == F_CONTINUATION {
        r := ProcessContinuation(f);
      } else if f.typ == F_DATA {
        r := ProcessData(f);
      } else if f.typ == F_RST_STREAM {
        r := ProcessRst(f);
      } else if f.typ == F_WINDOW_UPDATE {
        r := ProcessStreamUpdate(f);
      } else if f.typ == F_PUSH_PROMISE {
        r := Err;
      } else {
        r := Ok(E.Continue);
      }
    }

    method ProcessConnFrame(f: Frame) returns (r: Result<E.Outcome>)
      requires Valid()
      modifies this, encoder
      ensures Valid() && (r, View()) == E.ProcessConnFrame(old(View()), f)
    {
      if f.typ == F_SETTINGS {
        if f.Ack() {
          return Ok(E.Continue);
        }
        r := ProcessSettings(f);
      } else if f.typ == F_PING {
        if f.Ack() {
          return Ok(E.Continue);
        }
        r := WriteThenFlush([Frame(F_PING, FLAG_ACK, 0, f.payload)], E.Continue);
      } else if f.typ == F_WINDOW_UPDATE {
        var inc := ParseWindowUpdate(f.payload);
        if inc.Err? {
          return Err;
        }
        var a := ApplyUpdate(connSendWindow, inc.value);
        if a.Err? {
          return Err;
        }
        connSendWindow := a.value;
        return Ok(E.Continue);
      } else if f.typ == F_GOAWAY {
        var last := if |f.payload| >= 4 then U31(f.payload) else 0;
        goawayReceived := Some(last);
        streams := E.CloseAbove(streams, last);
        return Ok(E.Continue);
      } else {
        return Ok(E.Continue);
      }
    }

    /** Shifts the streams' send windows one by one; a failure leaves the rest unshifted. */
    method ShiftWindows(newInitial: int) returns (ok: bool)
      modifies this`streams
      ensures (ok, streams) == E.ShiftWindows(old(streams), Sorted(old(streams).Keys), newInitial)
    {
      var ids := Sorted(streams.Keys);
      ghost var goal := E.ShiftWindows(streams, ids, newInitial);
      ghost var rest := ids;
      for i := 0 to |ids|
        invariant rest == ids[i..] && E.Known(rest, streams) && goal == E.ShiftWindows(streams, rest, newInitial)
      {
        assert ids[i] == rest[0];
        var s := streams[ids[i]];
        var w := s.sendWindow.Reinitialize(newInitial);
        if w.Err? {
          return false;
        }
        KnownTail(rest, streams, s.(sendWindow := w.value));
        streams := streams[ids[i] := s.(sendWindow := w.value)];
        rest := rest[1..];
      }
      return true;
    }

    method ProcessSettings(f: Frame) returns (r: Result<E.Outcome>)
      requires Valid()
      modifies this, encoder
      ensures Valid() && (r, View()) == E.ProcessSettings(old(View()), f)
    {
      var before := peer;
      var (ok, after) := ApplySettings(peer, f.payload);
      peer := after;
      if !ok {
        return Err;
      }
      r := AdoptSettings(before);
    }

    /** Shifts the windows, tells the encoder, and acknowledges. */
    method AdoptSettings(before: PeerSettings) returns (r: Result<E.Outcome>)
      requires Valid()
      modifies this`streams, this`out, this`budget, this`dead, encoder
      ensures Valid() && (r, View()) == E.AdoptSettings(old(View()).(peer := before), peer)
    {
      if peer.initialWindowSize != before.initialWindowSize {
        var ok := ShiftWindows(peer.initialWindowSize);
        if !ok {
          return Err;
        }
      }
      assert View() == old(View()).(streams := streams);
      r := Acknowledge(before.headerTableSize);
    }

    /** Tells the encoder of a changed table size, then acknowledges. */
    method Acknowledge(headerTableSize: nat) returns (r: Result<E.Outcome>)
      requires Valid()
      modifies this`out, this`budget, this`dead, encoder
      ensures Valid() && (r, View()) == E.Acknowledge(old(View()), headerTableSize)
    {
      if peer.headerTableSize != headerTableSize {
        encoder.SetPeerMaxTableSize(peer.headerTableSize);
      }
      r := WriteThenFlush([Frame(F_SETTINGS, FLAG_ACK, 0, [])], E.Continue);
    }

    method ProcessStreamUpdate(f: Frame) returns (r: Result<E.Outcome>)
      modifies this`streams
      ensures (r, View()) == E.ProcessStreamUpdate(old(View()), f)
    {
      var inc := ParseWindowUpdate(f.payload);
      if inc.Err? {
        return Err;
      }
      if f.id in streams {
        var w := streams[f.id].sendWindow.Update(inc.value);
        if w.Err? {
          return Err;
        }
        streams := streams[f.id := streams[f.id].(sendWindow := w.value)];
      }
      return Ok(E.Continue);
    }

    method ProcessHeaders(f: Frame) returns (r: Result<E.Outcome>)
      requires Valid()
      modifies this`streams, this`expectingContinuation, decoder
      ensures Valid() && (r, View()) == E.ProcessHeaders(old(View()), f)
    {
      var frag := HeaderFragment(f);
      if frag.Err? || f.id !in streams {
        return Err;
      }
      if streams[f.id].state.Closed? {
        r := HeadersOnClosed(f, frag.value);
        return;
      }
      var state := streams[f.id].state.RecvHeaders(f.EndStream());
      if state.Err? {
        return Err;
      }
      r := HeadersOnOpen(f, frag.value, state.value);
    }

    method HeadersOnClosed(f: Frame, frag: seq<Byte>) returns (r: Result<E.Outcome>)
      requires Valid() && f.id in streams
      modifies this`streams, this`expectingContinuation, decoder
      ensures Valid() && (r, View()) == E.HeadersOnClosed(old(View()), f, frag)
    {
      if f.EndHeaders() {
        var decoded := decoder.DecodeBlock(frag);
        return if decoded.Ok? then Ok(E.Continue) else Err;
      }
      var s := streams[f.id].PushFragment(frag);
      if s.Err? {
        return Err;
      }
      streams := streams[f.id := s.value];
      expectingContinuation := Some(f.id);
      return Ok(E.Continue);
    }

    /** Takes the buffered block of `s` out and decodes it. */
    method DecodeStored(id: nat, s: Stream) returns (r: Result<seq<Field>>)
      requires Valid() && id in streams
      modifies this`streams, decoder
      ensures Valid()
      ensures var (decoded, d) := Hpack.DecodeBlock(encoder.c, old(decoder.State()), s.headersBuf);
              && r == decoded
              && View() == old(View()).(streams := old(streams)[id := s.(headersBuf := [])], decoder := d)
    {
      streams := streams[id := s.(headersBuf := [])];
      r := decoder.DecodeBlock(s.headersBuf);
    }

    method HeadersOnOpen(f: Frame, frag: seq<Byte>, state: StreamState) returns (r: Result<E.Outcome>)
      requires Valid() && f.id in streams
      modifies this`streams, this`expectingContinuation, decoder
      ensures Valid() && (r, View()) == E.HeadersOnOpen(old(View()), f, frag, state)
    {
      var pushed := streams[f.id].PushFragment(frag);
      if pushed.Err? {
        return Err;
      }
      var s := pushed.value;
      s := s.(endStreamRecv := s.endStreamRecv || f.EndStream());
      if f.EndHeaders() {
        var decoded := DecodeStored(f.id, s);
        s := s.(headersBuf := []);
        if decoded.Err? {
          return Err;
        }
        s := s.(responseHeaders := Some(decoded.value), state := state);
        expectingContinuation := None;
      } else {
        s := s.(state := state);
        expectingContinuation := Some(f.id);
      }
      streams := streams[f.id := s];
      assert streams == old(streams)[f.id := s];
      return Ok(E.Verdict(s, f.id));
    }

    method ProcessContinuation(f: Frame) returns (r: Result<E.Outcome>)
      requires Valid()
      modifies this`streams, this`expectingContinuation, decoder
      ensures Valid() && (r, View()) == E.ProcessContinuation(old(View()), f)
    {
      if expectingContinuation != Some(f.id) || f.id !in streams {
        return Err;
      }
      var pushed := streams[f.id].PushFragment(f.payload);
      if pushed.Err? {
        return Err;
      }
      var s := pushed.value;
      if f.EndHeaders() {
        var decoded := DecodeStored(f.id, s);
        s := s.(headersBuf := []);
        if decoded.Err? {
          return Err;
        }
        if !s.state.Closed? {
          s := s.(responseHeaders := Some(decoded.value));
        }
        expectingContinuation := None;
      }
      streams := streams[f.id := s];
      assert streams == old(streams)[f.id := s];
      return Ok(E.Verdict(s, f.id));
    }

    method ProcessData(f: Frame) returns (r: Result<E.Outcome>)
      modifies this`connRecvWindow, this`streams, this`out, this`budget, this`dead
      ensures (r, View()) == E.ProcessData(old(View()), f)
    {
      connRecvWindow := connRecvWindow.Consume(|f.payload|);
      if connRecvWindow.available < 0 {
        return Err;
      }
      if f.id !in streams {
        var (window, inc) := connRecvWindow.Replenish();
        connRecvWindow := window;
        if inc.None? {
          return Ok(E.Continue);
        }
        r := WriteThenFlush(E.UpdateFrames(0, inc), E.Continue);
        return;
      }
      if streams[f.id].state.Closed? {
        return Err;
      }
      var state := streams[f.id].state.RecvData(f.EndStream());
      if state.Err? {
        return Err;
      }
      r := DataOnOpen(f, state.value);
    }

    method DataOnOpen(f: Frame, state: StreamState) returns (r: Result<E.Outcome>)
      requires f.id in streams
      modifies this`connRecvWindow, this`streams, this`out, this`budget, this`dead
      ensures (r, View()) == E.DataOnOpen(old(View()), f, state)
    {
      var (accepted, s) := E.AcceptData(streams[f.id], f, state);
      streams := streams[f.id := s];
      if !accepted {
        return Err;
      }
      r := GrantBack(f.id);
    }

    method GrantBack(id: nat) returns (r: Result<E.Outcome>)
      requires id in streams
      modifies this`connRecvWindow, this`streams, this`out, this`budget, this`dead
      ensures (r, View()) == E.GrantBack(old(View()), id)
    {
      var (conn, inc0) := connRecvWindow.Replenish();
      connRecvWindow := conn;
      var ok := WriteFrames(E.UpdateFrames(0, inc0));
      if !ok {
        return Err;
      }
      r := GrantStream(id);
    }

    method GrantStream(id: nat) returns (r: Result<E.Outcome>)
      requires id in streams
      modifies this`streams, this`out, this`budget, this`dead
      ensures (r, View()) == E.GrantStream(old(View()), id)
    {
      var (recv, inc) := streams[id].recvWindow.Replenish();
      streams := streams[id := streams[id].(recvWindow := recv)];
      r := WriteThenFlush(E.UpdateFrames(id, inc), E.Verdict(streams[id], id));
    }

    method ProcessRst(f: Frame) returns (r: Result<E.Outcome>)
      modifies this`streams
      ensures (r, View()) == E.ProcessRst(old(View()), f)
    {
      if f.id !in streams || streams[f.id].state.Closed? {
        return Ok(E.Continue);
      }
      var s := streams[f.id];
      var state := s.state.RecvRst();
      if state.Ok? {
        streams := streams[f.id := s.(state := state.value)];
      }
      return Err;
    }
  }

  lemma KnownTail(ids: seq<nat>, streams: map<nat, Stream>, s: Stream)
    requires ids != [] && E.Known(ids, streams)
    ensures E.Known(ids[1..], streams[ids[0] := s])
  {
    assert forall id :: id in ids[1..] ==> id in ids;
  }

  /** One HEADERS frame, then CONTINUATIONs, cut by a loop over the block. */
  method FragmentHeaderBlock(id: nat, block: seq<Byte>, max: nat, endStream: bool) returns (fs: seq<Frame>)
    requires max > 0
    ensures fs == E.FragmentHeaderBlock(id, block, max, endStream)
  {
    var es := if endStream then FLAG_END_STREAM else 0;
    if |block| <= max {
      return [Frame(F_HEADERS, es + FLAG_END_HEADERS, id, block)];
    }
    fs := [Frame(F_HEADERS, es, id, block[..max])];
    ghost var first := fs;
    var rest := block[max..];
    while |rest| > max
      invariant first + E.Continuations(id, block[max..], max) == fs + E.Continuations(id, rest, max)
      decreases |rest|
    {
      fs := fs + [Frame(F_CONTINUATION, 0, id, rest[..max])];
      rest := rest[max..];
    }
    fs := fs + [Frame(F_CONTINUATION, FLAG_END_HEADERS, id, rest)];
  }
}

/**
 * What the peer hears: the header frames of a connection, put together and decoded as section 4.3 of RFC 9113 says, are
 * exactly the header lists of the requests, each on the stream opened for it.
 */
module Http2Requests {
  import opened Common
  import opened Fields
  import opened FlowControl
  import opened Http2Types
  import opened Http2Engine
  import opened Http2Frames
  import opened Http2Fragments
  import opened Http2Invariants
  import opened Http2Driver
  import opened Http2Ledger
  import opened Http2Start
  import opened Http2Settings
  import opened Http2Receipts
  import opened HpackRuns
  import opened HpackSize
  import opened SortedIds
  import Hpack

  // ----- a peer that listens -----

  /** A decoder, the block being received, and the header lists received so far by stream. */
  datatype Ear = Ear(d: Hpack.DecoderState, block: Option<(nat, seq<Byte>)>, heard: map<nat, seq<Field>>, failed: bool)

  const FRESH_EAR: Ear := Ear(FRESH_DECODER, None, map[], false)

  /** `buf` has been received of a block, and that is all of it if `end`. */
  ghost function Take(t: Hpack.Tables, e: Ear, id: nat, buf: seq<Byte>, end: bool): Ear
  {
    if !end then e.(block := Some((id, buf)))
    else
      match Hpack.DecodeBlock(t, e.d, buf)
      case (Err, d) => Ear(d, None, e.heard, true)
      case (Ok(fields), d) => Ear(d, None, e.heard[id := fields], e.failed)
  }

  /** HEADERS begins a block, and only CONTINUATIONs of its stream may follow until it ends. */
  ghost function Listen(t: Hpack.Tables, e: Ear, f: Frame): Ear
  {
    if e.failed then e
    else if e.block.Some? then
      if f.typ == F_CONTINUATION && f.id == e.block.value.0
      then Take(t, e, f.id, e.block.value.1 + f.payload, f.EndHeaders())
      else e.(failed := true)
    else if f.typ == F_HEADERS then
      match HeaderFragment(f) case Err => e.(failed := true) case Ok(frag) => Take(t, e, f.id, frag, f.EndHeaders())
    else if f.typ == F_CONTINUATION then e.(failed := true)
    else e
  }

  ghost function Hear(t: Hpack.Tables, e: Ear, fs: seq<Frame>): Ear
  {
    if fs == [] then e else Listen(t, Hear(t, e, fs[..|fs| - 1]), fs[|fs| - 1])
  }

  lemma {:induction false} HearConcat(t: Hpack.Tables, e: Ear, a: seq<Frame>, b: seq<Frame>)
    ensures Hear(t, e, a + b) == Hear(t, Hear(t, e, a), b)
    decreases |b|
  {
    if b == [] {
      assert a + b == a;
    } else {
      assert (a + b)[..|a + b| - 1] == a + b[..|b| - 1];
      HearConcat(t, e, a, b[..|b| - 1]);
    }
  }

  lemma HearOne(t: Hpack.Tables, e: Ear, f: Frame)
    ensures Hear(t, e, [f]) == Listen(t, e, f)
  {
    assert [f][..0] == [];
  }

  lemma HearFirst(t: Hpack.Tables, e: Ear, f: Frame, fs: seq<Frame>)
    ensures Hear(t, e, [f] + fs) == Hear(t, Listen(t, e, f), fs)
  {
    HearConcat(t, e, [f], fs);
    HearOne(t, e, f);
  }

  // ----- one block -----

  /** A block is not over: nothing has been decoded. */
  predicate Pending(e: Ear, e1: Ear) { !e1.failed && e1.heard == e.heard && e1.d == e.d }

  lemma BlockForgotten(t: Hpack.Tables, e: Ear, block: Option<(nat, seq<Byte>)>, id: nat, buf: seq<Byte>)
    ensures Take(t, e.(block := block), id, buf, true) == Take(t, e, id, buf, true)
  {
  }

  lemma MiddleHeard(t: Hpack.Tables, e: Ear, id: nat, buf: seq<Byte>, a: seq<Byte>)
    requires !e.failed && e.block == Some((id, buf))
    ensures Listen(t, e, Frame(F_CONTINUATION, 0, id, a)) == e.(block := Some((id, buf + a)))
  {
  }

  lemma LastHeard(t: Hpack.Tables, e: Ear, id: nat, buf: seq<Byte>, rest: seq<Byte>)
    requires !e.failed && e.block == Some((id, buf))
    ensures Hear(t, e, [LastFragment(id, rest)]) == Take(t, e, id, buf + rest, true)
  {
    HearOne(t, e, LastFragment(id, rest));
  }

  /** The first CONTINUATION and the others. */
  lemma ContinuationsUnfold(id: nat, rest: seq<Byte>, max: nat, n: nat)
    requires 0 < max < |rest| && 0 < n <= |Continuations(id, rest, max)|
    ensures var more := Continuations(id, rest[max..], max);
            && |Continuations(id, rest, max)| == 1 + |more|
            && Continuations(id, rest, max)[..n] == [Frame(F_CONTINUATION, 0, id, rest[..max])] + more[..n - 1]
  {
  }

  lemma OneContinuation(id: nat, rest: seq<Byte>, max: nat)
    requires max > 0 && |rest| <= max
    ensures Continuations(id, rest, max) == [LastFragment(id, rest)]
  {
  }

  /** The first `n` CONTINUATIONs of a block, heard after `buf`. */
  ghost predicate HeardOn(t: Hpack.Tables, e: Ear, id: nat, buf: seq<Byte>, rest: seq<Byte>, max: nat, n: nat)
    requires max > 0 && n <= |Continuations(id, rest, max)|
  {
    var fs := Continuations(id, rest, max);
    var e1 := Hear(t, e, fs[..n]);
    if n == |fs| then e1 == Take(t, e, id, buf + rest, true) else Pending(e, e1)
  }

  lemma LastHeardOn(t: Hpack.Tables, e: Ear, id: nat, buf: seq<Byte>, rest: seq<Byte>, max: nat)
    requires max > 0 && |rest| <= max && !e.failed && e.block == Some((id, buf)) && |Continuations(id, rest, max)| == 1
    ensures HeardOn(t, e, id, buf, rest, max, 1)
  {
    OneContinuation(id, rest, max);
    assert [LastFragment(id, rest)][..1] == [LastFragment(id, rest)];
    LastHeard(t, e, id, buf, rest);
  }

  lemma MoreHeardOn(t: Hpack.Tables, e: Ear, id: nat, buf: seq<Byte>, rest: seq<Byte>, max: nat, n: nat)
    requires 0 < max < |rest| && !e.failed && e.block == Some((id, buf)) && 0 < n <= |Continuations(id, rest, max)|
    requires n - 1 <= |Continuations(id, rest[max..], max)|
    requires HeardOn(t, e.(block := Some((id, buf + rest[..max]))), id, buf + rest[..max], rest[max..], max, n - 1)
    ensures HeardOn(t, e, id, buf, rest, max, n)
  {
    var a, b := rest[..max], rest[max..];
    var e1, more := e.(block := Some((id, buf + a))), Continuations(id, b, max);
    ContinuationsUnfold(id, rest, max, n);
    HearFirst(t, e, Frame(F_CONTINUATION, 0, id, a), more[..n - 1]);
    MiddleHeard(t, e, id, buf, a);
    assert buf + a + b == buf + rest;
    AfterFirst(t, e, e1.block, id, buf + a + b, n - 1 == |more|, Hear(t, e1, more[..n - 1]));
  }

  /** CONTINUATIONs, or the first `n` of them, heard after `buf`. */
  lemma {:induction false} ContinuationsHeard(t: Hpack.Tables, e: Ear, id: nat, buf: seq<Byte>, rest: seq<Byte>,
                                              max: nat, n: nat)
    requires max > 0 && !e.failed && e.block == Some((id, buf)) && n <= |Continuations(id, rest, max)|
    ensures HeardOn(t, e, id, buf, rest, max, n)
    decreases |rest|
  {
    if n > 0 && |rest| <= max {
      OneContinuation(id, rest, max);
      LastHeardOn(t, e, id, buf, rest, max);
    } else if n > 0 {
      var a := rest[..max];
      ContinuationsUnfold(id, rest, max, n);
      ContinuationsHeard(t, e.(block := Some((id, buf + a))), id, buf + a, rest[max..], max, n - 1);
      MoreHeardOn(t, e, id, buf, rest, max, n);
    }
  }

  /** What the rest of a block comes to does not depend on the part already heard. */
  lemma AfterFirst(t: Hpack.Tables, e: Ear, block: Option<(nat, seq<Byte>)>, id: nat, whole: seq<Byte>, last: bool,
                   r: Ear)
    requires var e1 := e.(block := block);
             if last then r == Take(t, e1, id, whole, true) else Pending(e1, r)
    ensures if last then r == Take(t, e, id, whole, true) else Pending(e, r)
  {
    BlockForgotten(t, e, block, id, whole);
  }

  lemma FirstHeard(t: Hpack.Tables, e: Ear, id: nat, a: seq<Byte>, end: bool)
    requires !e.failed && e.block.None?
    ensures Listen(t, e, Frame(F_HEADERS, if end then FLAG_END_STREAM else 0, id, a)) == e.(block := Some((id, a)))
    ensures Listen(t, e, Whole(id, a, end)) == Take(t, e, id, a, true)
  {
    Unframed(Frame(F_HEADERS, if end then FLAG_END_STREAM else 0, id, a));
    Unframed(Whole(id, a, end));
  }

  /** The frames of a block, or the first `n` of them: heard to the end, or a block not over yet. */
  lemma BlockHeard(t: Hpack.Tables, e: Ear, id: nat, block: seq<Byte>, max: nat, end: bool, n: nat)
    requires max > 0 && !e.failed && e.block.None? && n <= |FragmentHeaderBlock(id, block, max, end)|
    ensures var fs := FragmentHeaderBlock(id, block, max, end);
            var e1 := Hear(t, e, fs[..n]);
            if n == |fs| then e1 == Take(t, e, id, block, true) else Pending(e, e1)
  {
    var fs := FragmentHeaderBlock(id, block, max, end);
    if n > 0 {
      if |block| <= max {
        assert fs[..1] == [Whole(id, block, end)];
        HearOne(t, e, Whole(id, block, end));
        FirstHeard(t, e, id, block, end);
      } else {
        FragmentedHeard(t, e, id, block, max, end, n);
      }
    }
  }

  lemma FragmentedHeard(t: Hpack.Tables, e: Ear, id: nat, block: seq<Byte>, max: nat, end: bool, n: nat)
    requires 0 < max < |block| && !e.failed && e.block.None? && 0 < n <= |FragmentHeaderBlock(id, block, max, end)|
    ensures var fs := FragmentHeaderBlock(id, block, max, end);
            var e1 := Hear(t, e, fs[..n]);
            if n == |fs| then e1 == Take(t, e, id, block, true) else Pending(e, e1)
  {
    var a, b := block[..max], block[max..];
    var f := Frame(F_HEADERS, if end then FLAG_END_STREAM else 0, id, a);
    var e1, more := e.(block := Some((id, a))), Continuations(id, b, max);
    FragmentsUnfold(id, block, max, end, n);
    HearFirst(t, e, f, more[..n - 1]);
    FirstHeard(t, e, id, a, end);
    ContinuationsHeard(t, e1, id, a, b, max, n - 1);
    assert a + b == block;
    AfterFirst(t, e, e1.block, id, a + b, n - 1 == |more|, Hear(t, e1, more[..n - 1]));
  }

  lemma FragmentsUnfold(id: nat, block: seq<Byte>, max: nat, end: bool, n: nat)
    requires 0 < max < |block| && 0 < n <= |FragmentHeaderBlock(id, block, max, end)|
    ensures var f := Frame(F_HEADERS, if end then FLAG_END_STREAM else 0, id, block[..max]);
            var more := Continuations(id, block[max..], max);
            && |FragmentHeaderBlock(id, block, max, end)| == 1 + |more|
            && FragmentHeaderBlock(id, block, max, end)[..n] == [f] + more[..n - 1]
  {
  }

  // ----- the invariant -----

  /** A transport that died accepts nothing more. */
  predicate Spent(c: Conn) { c.dead ==> c.budget == 0 }

  /**
   * The peer has understood every request that was staged, and unless the transport died it is between blocks, its
   * table ready for the encoder's next one.
   */
  ghost predicate Understood(c: Conn)
  {
    var e := Hear(c.tables, FRESH_EAR, c.out);
    && !e.failed && Spent(c)
    && (!c.dead ==> e.block.None? && Mirror(c.encoder, e.d))
    && forall id :: id in c.staged ==> id in e.heard && e.heard[id] == c.staged[id].fields
  }

  /** Nothing the peer would take for headers was written, nothing was staged, and the encoder is as it was. */
  ghost predicate Unheard(c: Conn, c1: Conn)
  {
    && c1.tables == c.tables && c1.staged == c.staged && Spent(c1) && (c.dead ==> c1.dead)
    && Hear(c.tables, FRESH_EAR, c1.out) == Hear(c.tables, FRESH_EAR, c.out)
  }

  lemma UnheardKeeps(c: Conn, c1: Conn)
    requires Understood(c) && Unheard(c, c1) && (c1.dead || c1.encoder == c.encoder)
    ensures Understood(c1)
  {
  }

  lemma UnheardTwice(a: Conn, b: Conn, c: Conn)
    requires Unheard(a, b) && Unheard(b, c)
    ensures Unheard(a, c)
  {
  }

  /** The peer is between blocks, or nothing more can be written. */
  ghost predicate Between(c: Conn)
  {
    Spent(c) && (Hear(c.tables, FRESH_EAR, c.out).block.None? || c.budget == 0)
  }

  /** Frames that are no part of a header block. */
  predicate NoHeaders(fs: seq<Frame>)
  {
    forall i :: 0 <= i < |fs| ==> fs[i].typ != F_HEADERS && fs[i].typ != F_CONTINUATION
  }

  lemma OneUnheard(c: Conn, f: Frame)
    requires f.typ != F_HEADERS && f.typ != F_CONTINUATION && Hear(c.tables, FRESH_EAR, c.out).block.None?
    ensures Hear(c.tables, FRESH_EAR, c.out + [f]) == Hear(c.tables, FRESH_EAR, c.out)
  {
    HearConcat(c.tables, FRESH_EAR, c.out, [f]);
    HearOne(c.tables, Hear(c.tables, FRESH_EAR, c.out), f);
  }

  lemma WriteUnheard(c: Conn, f: Frame)
    requires Between(c) && f.typ != F_HEADERS && f.typ != F_CONTINUATION
    ensures Unheard(c, Write(c, f).1) && Between(Write(c, f).1) && Write(c, f).1.encoder == c.encoder
  {
    if c.budget > 0 {
      OneUnheard(c, f);
    }
  }

  lemma {:induction false} WritingUnheard(c: Conn, fs: seq<Frame>)
    requires Between(c) && NoHeaders(fs)
    ensures Unheard(c, WriteAll(c, fs).1) && Between(WriteAll(c, fs).1)
    decreases |fs|
  {
    if fs != [] {
      WriteUnheard(c, fs[0]);
      var (ok, c1) := Write(c, fs[0]);
      if ok {
        WritingUnheard(c1, fs[1..]);
        UnheardTwice(c, c1, WriteAll(c1, fs[1..]).1);
      }
    }
  }

  /** Everything but the transport and what goes through it may change. */
  ghost predicate SameWire(c: Conn, c1: Conn)
  {
    && c1.tables == c.tables && c1.staged == c.staged && c1.out == c.out && c1.budget == c.budget && c1.dead == c.dead
  }

  lemma SameWireUnheard(c: Conn, c1: Conn)
    requires SameWire(c, c1) && Between(c)
    ensures Unheard(c, c1) && Between(c1)
  {
  }

  lemma FlushedUnheard(c: Conn, fs: seq<Frame>, o: Outcome)
    requires Between(c) && NoHeaders(fs)
    ensures Unheard(c, WriteThenFlush(c, fs, o).1)
  {
    WritingUnheard(c, fs);
  }

  // ----- inbound frames -----

  lemma DataUnheard(c: Conn, f: Frame)
    requires Between(c) && f.id != 0
    ensures Unheard(c, ProcessData(c, f).1)
  {
    var c0 := c.(connRecv := c.connRecv.Consume(|f.payload|));
    SameWireUnheard(c, c0);
    if c0.connRecv.available >= 0 {
      if f.id !in c.streams {
        var (w, inc) := c0.connRecv.Replenish();
        SameWireUnheard(c, c0.(connRecv := w));
        FlushedUnheard(c0.(connRecv := w), UpdateFrames(0, inc), Continue);
      } else if !c.streams[f.id].state.Closed? && c.streams[f.id].state.RecvData(f.EndStream()).Ok? {
        var (ok, s) := AcceptData(c.streams[f.id], f, c.streams[f.id].state.RecvData(f.EndStream()).value);
        var c1 := c0.(streams := c.streams[f.id := s]);
        SameWireUnheard(c, c1);
        if ok {
          GrantUnheard(c1, f.id);
        }
      }
    }
  }

  lemma GrantUnheard(c: Conn, id: nat)
    requires Between(c) && id in c.streams
    ensures Unheard(c, GrantBack(c, id).1)
  {
    var (w, inc0) := c.connRecv.Replenish();
    var c0 := c.(connRecv := w);
    SameWireUnheard(c, c0);
    WritingUnheard(c0, UpdateFrames(0, inc0));
    var (ok, c1) := WriteAll(c0, UpdateFrames(0, inc0));
    if ok {
      var (recv, inc) := c1.streams[id].recvWindow.Replenish();
      var s := c1.streams[id].(recvWindow := recv);
      var c2 := c1.(streams := c1.streams[id := s]);
      SameWireUnheard(c1, c2);
      FlushedUnheard(c2, UpdateFrames(id, inc), Verdict(s, id));
    }
  }

  lemma SettingsUnheard(c: Conn, f: Frame)
    requires Between(c)
    ensures Unheard(c, ProcessSettings(c, f).1)
  {
    var (ok, peer) := ApplySettings(c.peer, f.payload);
    if ok {
      var (shifted, streams) := AdoptInitial(c.streams, c.peer.initialWindowSize, peer.initialWindowSize);
      var c1 := c.(peer := peer, streams := streams);
      SameWireUnheard(c, c1);
      if shifted {
        AcknowledgeUnheard(c1, c.peer.headerTableSize);
      }
    } else {
      SameWireUnheard(c, c.(peer := peer));
    }
  }

  lemma AcknowledgeUnheard(c: Conn, headerTableSize: nat)
    requires Between(c)
    ensures Unheard(c, Acknowledge(c, headerTableSize).1)
  {
    var encoder := if c.peer.headerTableSize != headerTableSize
        then Hpack.SetMaxSize(c.encoder, c.peer.headerTableSize) else c.encoder;
    SameWireUnheard(c, c.(encoder := encoder));
    FlushedUnheard(c.(encoder := encoder), [Frame(F_SETTINGS, FLAG_ACK, 0, [])], Continue);
  }

  lemma ConnectionFrameUnheard(c: Conn, f: Frame)
    requires Between(c)
    ensures Unheard(c, ProcessConnFrame(c, f).1)
  {
    if f.typ == F_SETTINGS && !f.Ack() {
      SettingsUnheard(c, f);
    } else if f.typ == F_PING && !f.Ack() {
      FlushedUnheard(c, [Frame(F_PING, FLAG_ACK, 0, f.payload)], Continue);
    } else {
      SameWireUnheard(c, ProcessConnFrame(c, f).1);
    }
  }

  lemma HeadersUnheard(c: Conn, f: Frame)
    requires Between(c)
    ensures Unheard(c, ProcessHeaders(c, f).1)
  {
    HeadersSameWire(c, f);
    SameWireUnheard(c, ProcessHeaders(c, f).1);
  }

  lemma HeadersSameWire(c: Conn, f: Frame)
    ensures SameWire(c, ProcessHeaders(c, f).1)
  {
  }

  lemma ContinuationUnheard(c: Conn, f: Frame)
    requires Between(c)
    ensures Unheard(c, ProcessContinuation(c, f).1)
  {
    ContinuationSameWire(c, f);
    SameWireUnheard(c, ProcessContinuation(c, f).1);
  }

  lemma ContinuationSameWire(c: Conn, f: Frame)
    ensures SameWire(c, ProcessContinuation(c, f).1)
  {
  }

  lemma FrameUnheard(c: Conn, f: Frame)
    requires Between(c)
    ensures Unheard(c, ProcessFrame(c, f).1)
  {
    SameWireUnheard(c, c);
    if c.expecting.None? || (f.typ == F_CONTINUATION && f.id == c.expecting.value) {
      if f.id == 0 {
        ConnectionFrameUnheard(c, f);
      } else if f.typ == F_HEADERS {
        HeadersUnheard(c, f);
      } else if f.typ == F_CONTINUATION {
        ContinuationUnheard(c, f);
      } else if f.typ == F_DATA {
        DataUnheard(c, f);
      } else if f.typ == F_RST_STREAM {
        SameWireUnheard(c, ProcessRst(c, f).1);
      } else if f.typ == F_WINDOW_UPDATE {
        SameWireUnheard(c, ProcessStreamUpdate(c, f).1);
      }
    }
  }

  // ----- the encoder and the peer's table size -----

  /** No entry of a SETTINGS payload announces a table above 4096 octets. */
  ghost predicate SmallEntries(payload: seq<Byte>)
  {
    forall k: nat :: 6 * k + 6 <= |payload| && EntryId(payload, k) == 1 ==> EntryValue(payload, k) <= 4096
  }

  ghost predicate SmallTables(c: Conn)
  {
    c.peer.headerTableSize <= 4096 && forall f :: f in c.inbound && Adjusts(f) ==> SmallEntries(f.payload)
  }

  lemma {:induction false} LastIsSmall(payload: seq<Byte>, n: nat, before: nat)
    requires SmallEntries(payload) && 6 * n <= |payload| && before <= 4096
    ensures LastValue(payload, n, 1, before) <= 4096
  {
    if n > 0 && EntryId(payload, n - 1) != 1 {
      LastIsSmall(payload, n - 1, before);
    }
  }

  lemma AppliedIsSmall(p: PeerSettings, payload: seq<Byte>)
    requires SmallEntries(payload) && p.headerTableSize <= 4096
    ensures ApplySettings(p, payload).1.headerTableSize <= 4096
  {
    SettingsAreTheLastGood(p, payload, 1);
    LastIsSmall(payload, GoodEntries(payload), p.headerTableSize);
  }

  /** What a frame may do to the encoder: tell it the size the peer's settings now say. */
  ghost predicate Told(c: Conn, c1: Conn)
  {
    c1.encoder == c.encoder || c1.encoder == Hpack.SetMaxSize(c.encoder, c1.peer.headerTableSize)
  }

  lemma WritingTells(c: Conn, fs: seq<Frame>, o: Outcome)
    ensures var c1 := WriteThenFlush(c, fs, o).1;
            c1.encoder == c.encoder && c1.peer == c.peer
  {
  }

  lemma SettingsTell(c: Conn, f: Frame)
    ensures var c1 := ProcessSettings(c, f).1;
            Told(c, c1) && c1.peer == ApplySettings(c.peer, f.payload).1
  {
  }

  predicate SameEncoder(c: Conn, c1: Conn) { c1.encoder == c.encoder && c1.peer == c.peer }

  lemma WritingAllTells(c: Conn, fs: seq<Frame>)
    ensures SameEncoder(c, WriteAll(c, fs).1)
  {
  }

  lemma GrantTells(c: Conn, id: nat)
    requires id in c.streams
    ensures SameEncoder(c, GrantBack(c, id).1)
  {
    var (w, inc0) := c.connRecv.Replenish();
    var (ok, c1) := WriteAll(c.(connRecv := w), UpdateFrames(0, inc0));
    WritingAllTells(c.(connRecv := w), UpdateFrames(0, inc0));
    if ok {
      var (recv, inc) := c1.streams[id].recvWindow.Replenish();
      var s := c1.streams[id].(recvWindow := recv);
      WritingTells(c1.(streams := c1.streams[id := s]), UpdateFrames(id, inc), Verdict(s, id));
    }
  }

  lemma DataTells(c: Conn, f: Frame)
    requires f.id != 0
    ensures SameEncoder(c, ProcessData(c, f).1)
  {
    var c0 := c.(connRecv := c.connRecv.Consume(|f.payload|));
    if c0.connRecv.available >= 0 {
      if f.id !in c.streams {
        var (w, inc) := c0.connRecv.Replenish();
        WritingTells(c0.(connRecv := w), UpdateFrames(0, inc), Continue);
      } else if !c.streams[f.id].state.Closed? && c.streams[f.id].state.RecvData(f.EndStream()).Ok? {
        var (ok, s) := AcceptData(c.streams[f.id], f, c.streams[f.id].state.RecvData(f.EndStream()).value);
        if ok {
          GrantTells(c0.(streams := c.streams[f.id := s]), f.id);
        }
      }
    }
  }

  lemma HeadersTell(c: Conn, f: Frame)
    ensures ProcessHeaders(c, f).1.encoder == c.encoder && ProcessHeaders(c, f).1.peer == c.peer
    ensures ProcessContinuation(c, f).1.encoder == c.encoder && ProcessContinuation(c, f).1.peer == c.peer
  {
  }

  lemma FrameTells(c: Conn, f: Frame)
    ensures var c1 := ProcessFrame(c, f).1;
            Told(c, c1) && (c1.peer == c.peer || (Adjusts(f) && c1.peer == ApplySettings(c.peer, f.payload).1))
  {
    if f.id == 0 {
      if f.typ == F_SETTINGS && !f.Ack() {
        SettingsTell(c, f);
      }
    } else if f.typ == F_DATA {
      DataTells(c, f);
    } else if f.typ == F_HEADERS || f.typ == F_CONTINUATION {
      HeadersTell(c, f);
    }
  }

  lemma TellingKeeps(c: Conn, c1: Conn)
    requires Understood(c) && Unheard(c, c1) && Told(c, c1) && c1.peer.headerTableSize <= 4096
    ensures Understood(c1)
  {
  }

  lemma UnderstoodIsBetween(c: Conn)
    requires Understood(c)
    ensures Between(c)
  {
  }

  lemma ReadUnderstood(c: Conn)
    requires Understood(c) && SmallTables(c)
    ensures var c1 := ReadAndDispatch(c).1;
            Understood(c1) && SmallTables(c1) && c1.tables == c.tables
  {
    if c.inbound != [] {
      var f := c.inbound[0];
      var c0 := c.(inbound := c.inbound[1..], accepted := c.accepted + [f]);
      var c1 := ProcessFrame(c0, f).1;
      assert f in c.inbound;
      UnderstoodIsBetween(c0);
      FrameUnheard(c0, f);
      FrameTells(c0, f);
      InboundStays(c0, f);
      if Adjusts(f) {
        AppliedIsSmall(c.peer, f.payload);
      }
      TellingKeeps(c0, c1);
      assert SmallTables(c1);
    }
  }

  // ----- pumping -----

  lemma ChunkUnheard(c: Conn, id: nat, n: nat, pb: PendingBody)
    requires Between(c) && id in c.streams && c.streams[id].pendingBody == Some(pb) && pb.sent + n <= |pb.bytes|
    ensures var c1 := SendChunk(c, id, n).1;
            Unheard(c, c1) && Between(c1)
  {
    var last := pb.sent + n == |pb.bytes|;
    var f := Frame(F_DATA, if last then FLAG_END_STREAM else 0, id, pb.bytes[pb.sent..pb.sent + n]);
    WriteUnheard(c, f);
    ChunkSameWire(c, id, n, pb, f);
    SameWireUnheard(Write(c, f).1, SendChunk(c, id, n).1);
    UnheardTwice(c, Write(c, f).1, SendChunk(c, id, n).1);
  }

  lemma ChunkSameWire(c: Conn, id: nat, n: nat, pb: PendingBody, f: Frame)
    requires id in c.streams && c.streams[id].pendingBody == Some(pb) && pb.sent + n <= |pb.bytes|
    requires f == Frame(F_DATA, if pb.sent + n == |pb.bytes| then FLAG_END_STREAM else 0, id,
                        pb.bytes[pb.sent..pb.sent + n])
    ensures SameWire(Write(c, f).1, SendChunk(c, id, n).1)
  {
  }

  lemma {:induction false} PumpStreamUnheard(c: Conn, id: nat, max: nat)
    requires Between(c)
    ensures var c1 := PumpStream(c, id, max).1;
            Unheard(c, c1) && Between(c1)
    decreases Left(PendingOf(c, id))
  {
    SameWireUnheard(c, c);
    if PendingOf(c, id).Some? && Left(PendingOf(c, id)) > 0 {
      var n := NextDataChunkSize(max, SendBudget(c, c.streams[id]), Left(PendingOf(c, id)));
      PumpUnfolds(c, id, max, n);
      if n > 0 {
        ChunkUnheard(c, id, n, PendingOf(c, id).value);
        var (ok, c') := SendChunk(c, id, n);
        if ok && n < Left(PendingOf(c, id)) {
          PumpStreamUnheard(c', id, max);
          UnheardTwice(c, c', PumpStream(c', id, max).1);
        }
      }
    } else {
      SameWireUnheard(c, PumpStream(c, id, max).1);
    }
  }

  lemma {:induction false} PumpsUnheard(c: Conn, ids: seq<nat>, max: nat)
    requires Between(c)
    ensures var c1 := PumpStreams(c, ids, max).1;
            Unheard(c, c1) && Between(c1)
    decreases |ids|
  {
    SameWireUnheard(c, c);
    if ids != [] {
      PumpStreamUnheard(c, ids[0], max);
      var (ok, c') := PumpStream(c, ids[0], max);
      if ok {
        PumpsUnheard(c', ids[1..], max);
        UnheardTwice(c, c', PumpStreams(c', ids[1..], max).1);
      }
    }
  }

  lemma FlushUnderstood(c: Conn)
    requires Understood(c)
    ensures Understood(FlushPending(c).1)
  {
    UnderstoodIsBetween(c);
    PumpsUnheard(c, Sorted(PendingIds(c)), c.peer.maxFrameSize);
    UnheardKeeps(c, FlushPending(c).1);
  }

  // ----- starting a request -----

  lemma {:induction false} FragmentsAreSmall(id: nat, rest: seq<Byte>, max: nat)
    requires max > 0
    ensures forall f :: f in Continuations(id, rest, max) ==> |f.payload| <= |rest|
    decreases |rest|
  {
    if |rest| > max {
      FragmentsAreSmall(id, rest[max..], max);
    }
  }

  lemma BlockIsSmall(id: nat, block: seq<Byte>, max: nat, end: bool)
    requires max > 0
    ensures forall f :: f in FragmentHeaderBlock(id, block, max, end) ==> |f.payload| <= |block|
  {
    if |block| > max {
      FragmentsAreSmall(id, block[max..], max);
    }
  }

  lemma DeadWrites(c: Conn, fs: seq<Frame>)
    requires c.budget == 0 && fs != []
    ensures !WriteAll(c, fs).0 && WriteAll(c, fs).1.out == c.out && WriteAll(c, fs).1.budget == 0
  {
  }

  /** The frames of a request's block, or the first `n` of them, to a peer whose decoder mirrors the encoder. */
  lemma RequestHeard(t: Hpack.Tables, encoder: Hpack.EncoderState, e: Ear, id: nat, req: Request, max: nat, n: nat)
    returns (d: Hpack.DecoderState)
    requires ValidTables(t) && max > 0 && Admissible(t, Send(req.fields)) && !e.failed && e.block.None?
             && Mirror(encoder, e.d)
    requires n <= |FragmentHeaderBlock(id, Hpack.EncodeBlock(t, encoder, req.fields).0, max, req.body == [])|
    ensures var (block, encoder1) := Hpack.EncodeBlock(t, encoder, req.fields);
            var fs := FragmentHeaderBlock(id, block, max, req.body == []);
            && Mirror(encoder1, d)
            && (if n == |fs| then Hear(t, e, fs[..n]) == Ear(d, None, e.heard[id := req.fields], false)
                else Pending(e, Hear(t, e, fs[..n])))
  {
    var block := Hpack.EncodeBlock(t, encoder, req.fields).0;
    assert [] + req.fields == req.fields;
    d := BlockAgrees(t, encoder, e.d, req.fields, []);
    BlockHeard(t, e, id, block, max, req.body == [], n);
  }

  /** Writing a request's block: all of it, or the transport dies. */
  lemma RequestWritten(c: Conn, d: Hpack.DecoderState, id: nat, req: Request) returns (n: nat)
    requires ValidTables(c.tables) && c.peer.maxFrameSize > 0 && Admissible(c.tables, Send(req.fields))
    requires !c.dead && Mirror(c.encoder, d)
    ensures var (block, encoder) := Hpack.EncodeBlock(c.tables, c.encoder, req.fields);
            var fs := FragmentHeaderBlock(id, block, c.peer.maxFrameSize, req.body == []);
            var (ok, c1) := WriteAll(c.(encoder := encoder), fs);
            && n <= |fs| && c1 == c.(encoder := encoder, out := c.out + fs[..n], budget := c1.budget, dead := c1.dead)
            && (ok <==> !c1.dead) && (c1.dead ==> c1.budget == 0) && (ok <==> n == |fs|)
  {
    var (block, encoder) := Hpack.EncodeBlock(c.tables, c.encoder, req.fields);
    var fs := FragmentHeaderBlock(id, block, c.peer.maxFrameSize, req.body == []);
    BlockIsShort(c.tables, c.encoder, d, req.fields);
    BlockIsSmall(id, block, c.peer.maxFrameSize, req.body == []);
    WriteAllSmall(c.(encoder := encoder), fs);
    n := WriteAllPrefix(c.(encoder := encoder), fs);
  }

  /** A dead transport may have cut a block: what was heard before stays heard. */
  lemma CutIsPending(t: Hpack.Tables, e: Ear, fs: seq<Frame>, n: nat, out: seq<Frame>)
    requires n <= |fs| && e == Hear(t, FRESH_EAR, out)
    ensures Hear(t, FRESH_EAR, out + fs[..n]) == Hear(t, e, fs[..n])
  {
    HearConcat(t, FRESH_EAR, out, fs[..n]);
  }

  /** What staging leaves behind, from what was written and heard. */
  lemma StagedUnderstood(c: Conn, c1: Conn, e1: Ear, id: nat, req: Request, ok: bool)
    requires Understood(c) && c1.tables == c.tables && e1 == Hear(c.tables, FRESH_EAR, c1.out)
             && (c1.dead ==> c1.budget == 0)
    requires var e := Hear(c.tables, FRESH_EAR, c.out);
             if ok then c1.staged == c.staged[id := req] && e1.heard == e.heard[id := req.fields] && !e1.failed
                        && e1.block.None? && Mirror(c1.encoder, e1.d)
             else c1.staged == c.staged && c1.dead && !e1.failed && e1.heard == e.heard
    ensures Understood(c1)
  {
  }

  lemma StageUnderstood(c: Conn, id: nat, req: Request)
    requires ValidTables(c.tables) && c.peer.maxFrameSize > 0 && Admissible(c.tables, Send(req.fields)) && Understood(c)
    requires !c.dead && id in c.streams && c.streams[id].state.Idle?
    ensures Understood(StageRequest(c, id, req).1)
  {
    var e := Hear(c.tables, FRESH_EAR, c.out);
    var (block, encoder) := Hpack.EncodeBlock(c.tables, c.encoder, req.fields);
    var fs := FragmentHeaderBlock(id, block, c.peer.maxFrameSize, req.body == []);
    var n := RequestWritten(c, e.d, id, req);
    var d := RequestHeard(c.tables, c.encoder, e, id, req, c.peer.maxFrameSize, n);
    CutIsPending(c.tables, e, fs, n, c.out);
    StageIsWriting(c, id, req);
    var (ok, c1) := StageRequest(c, id, req);
    StagedUnderstood(c, c1, Hear(c.tables, e, fs[..n]), id, req, ok);
  }

  /** What staging does to the wire is what writing the frames does. */
  lemma StageIsWriting(c: Conn, id: nat, req: Request)
    requires |c.tables.huffman| == 257 && c.peer.maxFrameSize > 0 && id in c.streams && c.streams[id].state.Idle?
    ensures var (block, encoder) := Hpack.EncodeBlock(c.tables, c.encoder, req.fields);
            var fs := FragmentHeaderBlock(id, block, c.peer.maxFrameSize, req.body == []);
            var (ok, c1) := WriteAll(c.(encoder := encoder), fs);
            var (ok2, c2) := StageRequest(c, id, req);
            && ok2 == ok && c2.out == c1.out && c2.budget == c1.budget && c2.dead == c1.dead && c2.encoder == encoder
            && c2.tables == c.tables && c2.staged == if ok then c.staged[id := req] else c.staged
  {
  }

  lemma DeadStage(c: Conn, id: nat, req: Request)
    requires |c.tables.huffman| == 257 && c.peer.maxFrameSize > 0 && id in c.streams && c.dead && c.budget == 0
    ensures var (ok, c1) := StageRequest(c, id, req);
            !ok && c1.out == c.out && c1.staged == c.staged && c1.tables == c.tables && c1.dead && c1.budget == 0
  {
    var (block, encoder) := Hpack.EncodeBlock(c.tables, c.encoder, req.fields);
    DeadWrites(c.(encoder := encoder), FragmentHeaderBlock(id, block, c.peer.maxFrameSize, req.body == []));
  }

  /** Only transport, encoder and staging matter to what the peer understands. */
  lemma SameUnderstanding(c: Conn, c1: Conn)
    requires Understood(c) && SameWire(c, c1) && c1.encoder == c.encoder
    ensures Understood(c1)
  {
  }

  lemma StartUnderstood(c: Conn, req: Request)
    requires ValidTables(c.tables) && c.peer.maxFrameSize > 0 && Admissible(c.tables, Send(req.fields)) && Understood(c)
    ensures Understood(StartRequest(c, req).1)
  {
    if OpenStream(c).Ok? {
      var (id, c0) := OpenStream(c).value;
      SameUnderstanding(c, c0);
      var (ok, c1) := StageRequest(c0, id, req);
      if c.dead {
        DeadStage(c0, id, req);
        StagedUnderstood(c0, c1, Hear(c.tables, FRESH_EAR, c1.out), id, req, false);
      } else {
        StageUnderstood(c0, id, req);
      }
      if !ok {
        SameUnderstanding(c1, c1.(streams := c1.streams - {id}));
      }
    }
  }

  /**
   * A request that was started: the frames added to the output, heard by a peer whose decoder mirrors the encoder,
   * are one block that decodes to the request's fields, and the decoder then mirrors the encoder again.
   */
  lemma StartIsHeard(c: Conn, req: Request, e: Ear) returns (sent: seq<Frame>, d: Hpack.DecoderState)
    requires ValidTables(c.tables) && c.peer.maxFrameSize > 0 && Admissible(c.tables, Send(req.fields)) && !c.dead
    requires StartRequest(c, req).0.Some? && !e.failed && e.block.None? && Mirror(c.encoder, e.d)
    ensures var (id, c1) := StartRequest(c, req);
            && c1.out == c.out + sent && Mirror(c1.encoder, d)
            && Hear(c.tables, e, sent) == Ear(d, None, e.heard[id.value := req.fields], false)
  {
    var (id, c0) := OpenStream(c).value;
    sent := FragmentHeaderBlock(id, Hpack.EncodeBlock(c.tables, c.encoder, req.fields).0, c.peer.maxFrameSize,
                                req.body == []);
    var n := RequestWritten(c0, e.d, id, req);
    assert sent[..|sent|] == sent;
    d := RequestHeard(c.tables, c.encoder, e, id, req, c.peer.maxFrameSize, |sent|);
    StageIsWriting(c0, id, req);
  }

  // ----- whole runs -----

  /** Requests that can be sent: text fields, within the list cap. */
  ghost predicate AllAdmissible(t: Hpack.Tables, reqs: seq<Request>)
  {
    forall i :: 0 <= i < |reqs| ==> Admissible(t, Send(reqs[i].fields))
  }

  lemma StartKeepsTables(c: Conn, req: Request)
    requires |c.tables.huffman| == 257 && c.peer.maxFrameSize > 0
    ensures var c1 := StartRequest(c, req).1;
            c1.peer == c.peer && c1.inbound == c.inbound && c1.tables == c.tables
  {
  }

  /** What holds at every moment of a run. */
  ghost predicate Heard(t: Hpack.Tables, c: Conn, reqs: seq<Request>)
  {
    ValidTables(t) && AllAdmissible(t, reqs) && c.tables == t && Understood(c) && SmallTables(c)
  }

  lemma StartHeard(t: Hpack.Tables, c: Conn, reqs: seq<Request>, i: nat)
    requires Heard(t, c, reqs) && i < |reqs| && c.peer.maxFrameSize > 0
    ensures Heard(t, StartRequest(c, reqs[i]).1, reqs)
  {
    assert Admissible(c.tables, Send(reqs[i].fields));
    StartUnderstood(c, reqs[i]);
    StartKeepsTables(c, reqs[i]);
  }

  lemma ReadHeard(t: Hpack.Tables, c: Conn, reqs: seq<Request>)
    requires Heard(t, c, reqs)
    ensures Heard(t, ReadAndDispatch(c).1, reqs)
  {
    ReadUnderstood(c);
  }

  lemma FlushHeard(t: Hpack.Tables, c: Conn, reqs: seq<Request>)
    requires Heard(t, c, reqs)
    ensures Heard(t, FlushPending(c).1, reqs)
  {
    FlushUnderstood(c);
  }

  lemma ForgettingHeard(t: Hpack.Tables, c: Conn, c1: Conn, reqs: seq<Request>)
    requires Heard(t, c, reqs) && Forgets(c, c1)
    ensures Heard(t, c1, reqs)
  {
    SameUnderstanding(c, c1);
  }

  lemma OperationHeard(t: Hpack.Tables, c: Conn, c1: Conn, reqs: seq<Request>)
    requires Heard(t, c, reqs) && Operation(c, c1, reqs)
    ensures Heard(t, c1, reqs)
  {
    if c1 == ReadAndDispatch(c).1 {
      ReadHeard(t, c, reqs);
    } else if c1 == FlushPending(c).1 {
      FlushHeard(t, c, reqs);
    } else if Starts(c, c1, reqs) {
      var i: nat :| i < |reqs| && c1 == StartRequest(c, reqs[i]).1;
      StartHeard(t, c, reqs, i);
    } else {
      ForgettingHeard(t, c, c1, reqs);
    }
  }

  lemma StepHeard(t: Hpack.Tables, path: seq<Conn>, reqs: seq<Request>, k: nat)
    requires Life(path, reqs) && 0 < k < |path| && Heard(t, path[k - 1], reqs)
    ensures Heard(t, path[k], reqs)
  {
    LifeStep(path, reqs, k);
    OperationHeard(t, path[k - 1], path[k], reqs);
  }

  lemma {:induction false} LifeHeard(t: Hpack.Tables, path: seq<Conn>, reqs: seq<Request>, k: nat)
    requires Life(path, reqs) && Heard(t, path[0], reqs) && k < |path|
    ensures Heard(t, path[k], reqs)
    decreases k
  {
    if k > 0 {
      LifeHeard(t, path, reqs, k - 1);
      StepHeard(t, path, reqs, k);
    }
  }

  /** A new connection with a new encoder has nothing to be understood yet. */
  lemma FreshIsUnderstood(c: Conn)
    requires Fresh(c) && c.encoder == FRESH_ENCODER
    ensures Understood(c)
  {
  }

  /**
   * A peer that has listened from the start has heard, after any run, exactly the fields of every request that was
   * started, on the stream it was started on; and it is ready for the next run.
   */
  lemma RunIsHeard(c: Conn, reqs: seq<Request>, i: nat)
    requires Inv(c) && c.streams == map[] && Heard(c.tables, c, reqs)
    ensures var m := Run(c, reqs);
            var e := Hear(c.tables, FRESH_EAR, m.conn.out);
            && Heard(c.tables, m.conn, reqs) && !e.failed
            && (i in m.started ==> i < |reqs| && m.started[i] in e.heard && e.heard[m.started[i]] == reqs[i].fields)
  {
    var m := Run(c, reqs);
    var path := RunPays(c, reqs);
    LifeHeard(c.tables, path, reqs, |path| - 1);
    RunAnswersEveryRequest(c, reqs);
    if i in m.started {
      assert m.started[i] in m.conn.staged && m.conn.staged[m.started[i]] == reqs[i];
    }
  }
}

/**
 * SETTINGS against the windows of open streams: which entries of a payload take effect, and exactly when every stream's
 * window still is the peer's current initial size, plus its increments, less its DATA.
 */
module Http2Settings {
  import opened Common
  import opened FlowControl
  import opened Http2Types
  import opened Http2Engine
  import opened Http2Frames
  import opened Http2Invariants
  import opened Http2Logs
  import opened Http2Pump
  import opened Http2Start
  import opened D = Http2Driver
  import opened SortedIds

  // ----- which entries take effect -----

  function EntryId(payload: seq<Byte>, k: nat): nat
    requires 6 * k + 6 <= |payload|
  {
    256 * (payload[6 * k] as int) + payload[6 * k + 1] as int
  }

  function EntryValue(payload: seq<Byte>, k: nat): (v: nat)
    requires 6 * k + 6 <= |payload|
  {
    U32(payload[6 * k + 2..6 * k + 6])
  }

  /** What section 6.5.2 of RFC 9113 forbids. */
  predicate Bad(id: nat, v: nat)
  {
    (id == 2 && v > 1) || (id == 4 && v > 0x7fff_ffff) || (id == 5 && (v < 16384 || v > 16777215))
  }

  /** How many entries come before the first bad one; none of a payload that is not made of entries. */
  function GoodEntries(payload: seq<Byte>): (n: nat)
    decreases |payload|
  {
    if |payload| % 6 != 0 || payload == [] || Bad(EntryId(payload, 0), EntryValue(payload, 0)) then 0
    else 1 + GoodEntries(payload[6..])
  }

  /** A payload made of entries, none of them bad. */
  ghost predicate Accepted(payload: seq<Byte>)
  {
    |payload| % 6 == 0 && forall k: nat :: 6 * k < |payload| ==> !Bad(EntryId(payload, k), EntryValue(payload, k))
  }

  /** The value under an identifier. */
  function Setting(p: PeerSettings, id: nat): nat
  {
    match id
    case 1 => p.headerTableSize
    case 2 => if p.enablePush then 1 else 0
    case 3 => p.maxConcurrentStreams
    case 4 => p.initialWindowSize
    case 5 => p.maxFrameSize
    case _ => p.maxHeaderListSize
  }

  /** What the last of the first `n` entries for `id` says, or `before` when there is none. */
  function LastValue(payload: seq<Byte>, n: nat, id: nat, before: nat): nat
    requires 6 * n <= |payload|
  {
    if n == 0 then before
    else if EntryId(payload, n - 1) == id then EntryValue(payload, n - 1)
    else LastValue(payload, n - 1, id, before)
  }

  lemma EntryTail(payload: seq<Byte>, k: nat)
    requires 6 * k + 12 <= |payload|
    ensures EntryId(payload[6..], k) == EntryId(payload, k + 1)
            && EntryValue(payload[6..], k) == EntryValue(payload, k + 1)
  {
    assert payload[6..][6 * k + 2..6 * k + 6] == payload[6 * k + 8..6 * k + 12];
  }

  lemma {:induction false} LastValueTail(payload: seq<Byte>, n: nat, id: nat, before: nat)
    requires 6 * n + 6 <= |payload|
    ensures LastValue(payload, n + 1, id, before)
            == LastValue(payload[6..], n, id, if EntryId(payload, 0) == id then EntryValue(payload, 0) else before)
  {
    if n > 0 {
      EntryTail(payload, n - 1);
      LastValueTail(payload, n - 1, id, before);
    }
  }

  lemma {:induction false} GoodEntriesFit(payload: seq<Byte>)
    ensures 6 * GoodEntries(payload) <= |payload|
    decreases |payload|
  {
    if |payload| % 6 == 0 && payload != [] {
      GoodEntriesFit(payload[6..]);
    }
  }

  /** The entries that count are those before the first bad one. */
  lemma {:induction false} FirstBad(payload: seq<Byte>, k: nat)
    requires |payload| % 6 == 0 && 6 * k < |payload|
    ensures k < GoodEntries(payload) ==> !Bad(EntryId(payload, k), EntryValue(payload, k))
    ensures k == GoodEntries(payload) ==> Bad(EntryId(payload, k), EntryValue(payload, k))
    decreases |payload|
  {
    if k > 0 && !Bad(EntryId(payload, 0), EntryValue(payload, 0)) {
      EntryTail(payload, k - 1);
      FirstBad(payload[6..], k - 1);
    }
  }

  lemma GoodToTheEnd(payload: seq<Byte>)
    ensures Accepted(payload) <==> 6 * GoodEntries(payload) == |payload|
  {
    GoodEntriesFit(payload);
    var n := GoodEntries(payload);
    if |payload| % 6 == 0 && 6 * n < |payload| {
      FirstBad(payload, n);
    } else if |payload| % 6 == 0 {
      forall k: nat | 6 * k < |payload|
        ensures !Bad(EntryId(payload, k), EntryValue(payload, k))
      {
        FirstBad(payload, k);
      }
    }
  }

  lemma OneSetting(p: PeerSettings, id: nat, v: nat, x: nat)
    requires v < 0x1_0000_0000 && 1 <= x <= 6
    ensures ApplySetting(p, id, v).Err? <==> Bad(id, v)
    ensures ApplySetting(p, id, v).Ok? ==>
              Setting(ApplySetting(p, id, v).value, x) == if id == x then v else Setting(p, x)
  {
  }

  /**
   * A payload is accepted exactly when none of its entries is bad; accepted or not, every setting becomes what the last
   * entry for it before the first bad one says, and otherwise stays.
   */
  lemma {:induction false} SettingsAreTheLastGood(p: PeerSettings, payload: seq<Byte>, x: nat)
    requires 1 <= x <= 6
    ensures 6 * GoodEntries(payload) <= |payload|
    ensures ApplySettings(p, payload).0 <==> Accepted(payload)
    ensures Setting(ApplySettings(p, payload).1, x) == LastValue(payload, GoodEntries(payload), x, Setting(p, x))
    decreases |payload|
  {
    GoodEntriesFit(payload);
    GoodToTheEnd(payload);
    if |payload| % 6 == 0 && payload != [] {
      GoodToTheEnd(payload[6..]);
      var id, v := EntryId(payload, 0), EntryValue(payload, 0);
      OneSetting(p, id, v, x);
      if !Bad(id, v) {
        SettingsAreTheLastGood(ApplySetting(p, id, v).value, payload[6..], x);
        LastValueTail(payload, GoodEntries(payload[6..]), x, Setting(p, x));
      }
    }
  }

  /** The initial window size a payload leaves. */
  function InitialAfter(size: nat, payload: seq<Byte>): nat
  {
    GoodEntriesFit(payload);
    LastValue(payload, GoodEntries(payload), 4, size)
  }

  // ----- the law -----

  /** Every stream's window is the peer's current initial size, plus its increments, less its DATA. */
  ghost predicate Law(c: Conn)
    requires Ids(c)
  {
    forall id :: id in c.streams ==>
      c.streams[id].sendWindow.available
        == c.peer.initialWindowSize + Increments(c.accepted[c.born[id]..], id) - |DataOf(c.out, id)|
  }

  /** Every stream's window was last adjusted to the peer's current initial size. */
  ghost predicate InStep(c: Conn)
  {
    forall id :: id in c.streams ==> c.streams[id].sendWindow.initialPeer == c.peer.initialWindowSize
  }

  lemma LawIsInStep(c: Conn)
    requires Inv(c) && !c.dead
    ensures Law(c) <==> InStep(c)
  {
    forall id | id in c.streams
      ensures c.streams[id].sendWindow.available
              == c.peer.initialWindowSize + Increments(c.accepted[c.born[id]..], id) - |DataOf(c.out, id)|
              <==> c.streams[id].sendWindow.initialPeer == c.peer.initialWindowSize
    {
      assert Accounted(c, id);
    }
  }

  // ----- one SETTINGS frame -----

  /** A stream's window would pass 2^31-1 when adjusted to `size`. */
  predicate Overflows(s: Stream, size: int) { s.sendWindow.available + size - s.sendWindow.initialPeer > WINDOW_MAX }

  /** Shifting succeeds exactly when no window overflows; a window that does stays where it was. */
  lemma {:induction false} ShiftFails(streams: map<nat, Stream>, ids: seq<nat>, size: int)
    requires Known(ids, streams) && forall i, j :: 0 <= i < j < |ids| ==> ids[i] != ids[j]
    ensures var (ok, r) := ShiftWindows(streams, ids, size);
            && (ok <==> forall id :: id in ids ==> !Overflows(streams[id], size))
            && (!ok ==> exists id :: id in ids && id in r && r[id] == streams[id] && Overflows(r[id], size))
    decreases |ids|
  {
    if ids != [] {
      var id, s := ids[0], streams[ids[0]];
      if Overflows(s, size) {
        assert id in ids && Overflows(streams[id], size);
      } else {
        var next := streams[id := s.(sendWindow := s.sendWindow.Reinitialize(size).value)];
        assert id !in ids[1..];
        ShiftFails(next, ids[1..], size);
        assert forall x :: x in ids <==> x == id || x in ids[1..];
      }
    }
  }

  /**
   * The windows after a SETTINGS frame, from any state: a changed size that is accepted brings all of them in step
   * unless one overflows; otherwise only the ones that already had the resulting size are.
   */
  ghost predicate Resynchronised(c: Conn, payload: seq<Byte>)
  {
    var size := InitialAfter(c.peer.initialWindowSize, payload);
    if Accepted(payload) && size != c.peer.initialWindowSize
    then forall id :: id in c.streams ==> !Overflows(c.streams[id], size)
    else forall id :: id in c.streams ==> c.streams[id].sendWindow.initialPeer == size
  }

  lemma AdoptInStep(streams: map<nat, Stream>, initial: int, size: int)
    requires size != initial && forall id :: id in streams ==> SoundStream(streams[id], id)
    ensures var (ok, r) := AdoptInitial(streams, initial, size);
            && (ok <==> forall id :: id in streams ==> !Overflows(streams[id], size))
            && (ok <==> forall id :: id in r ==> r[id].sendWindow.initialPeer == size)
  {
    var ids := Sorted(streams.Keys);
    ShiftFails(streams, ids, size);
    ShiftStep(streams, ids, size);
    var (ok, r) := AdoptInitial(streams, initial, size);
    if ok {
      assert forall id :: id in r ==> id in ids;
    } else {
      var id :| id in ids && id in r && r[id] == streams[id] && Overflows(r[id], size);
      assert SoundStream(streams[id], id);
    }
  }

  lemma AcknowledgingMovesNothing(c: Conn, headerTableSize: nat)
    ensures Acknowledge(c, headerTableSize).1.peer == c.peer && Acknowledge(c, headerTableSize).1.streams == c.streams
  {
  }

  lemma SettingsEffect(c: Conn, f: Frame)
    ensures var (ok, peer) := ApplySettings(c.peer, f.payload);
            var c1 := ProcessSettings(c, f).1;
            && c1.peer == peer
            && c1.streams == if ok then AdoptInitial(c.streams, c.peer.initialWindowSize, peer.initialWindowSize).1
               else c.streams
  {
    var (ok, peer) := ApplySettings(c.peer, f.payload);
    if ok {
      var streams := AdoptInitial(c.streams, c.peer.initialWindowSize, peer.initialWindowSize).1;
      AcknowledgingMovesNothing(c.(peer := peer, streams := streams), c.peer.headerTableSize);
    }
  }

  lemma SettingsResynchronise(c: Conn, f: Frame)
    requires Sound(c)
    ensures InStep(ProcessSettings(c, f).1) <==> Resynchronised(c, f.payload)
  {
    SettingsAreTheLastGood(c.peer, f.payload, 4);
    SettingsEffect(c, f);
    var size := InitialAfter(c.peer.initialWindowSize, f.payload);
    if Accepted(f.payload) && size != c.peer.initialWindowSize {
      AdoptInStep(c.streams, c.peer.initialWindowSize, size);
    }
  }

  /**
   * What keeps the windows in step, checked on the payload and the streams: there are none, or the size stays, or the
   * payload is accepted and no window overflows.
   */
  ghost predicate Harmless(c: Conn, payload: seq<Byte>)
  {
    var size := InitialAfter(c.peer.initialWindowSize, payload);
    || c.streams == map[]
    || size == c.peer.initialWindowSize
    || (Accepted(payload) && forall id :: id in c.streams ==>
        c.streams[id].sendWindow.available + size - c.peer.initialWindowSize <= WINDOW_MAX)
  }

  /** From windows in step, the law survives a SETTINGS frame if and only if the frame is harmless. */
  lemma SettingsKeepStep(c: Conn, f: Frame)
    requires Sound(c) && InStep(c)
    ensures InStep(ProcessSettings(c, f).1) <==> Harmless(c, f.payload)
  {
    SettingsResynchronise(c, f);
    if c.streams != map[] {
      var id :| id in c.streams;
      assert c.streams[id].sendWindow.initialPeer == c.peer.initialWindowSize;
    }
  }

  /** INITIAL_WINDOW_SIZE 1, then the bad ENABLE_PUSH 2. */
  const HALF_APPLIED: seq<Byte> := [0, 4, 0, 0, 0, 1, 0, 2, 0, 0, 0, 2]

  lemma HalfApplied(p: PeerSettings)
    ensures ApplySettings(p, HALF_APPLIED) == (false, p.(initialWindowSize := 1))
  {
    var rest := HALF_APPLIED[6..];
    assert HALF_APPLIED[2..6] == [0, 0, 0, 1] && rest == [0, 2, 0, 0, 0, 2] && rest[2..6] == [0, 0, 0, 2];
    assert ApplyEntries(p.(initialWindowSize := 1), rest) == (false, p.(initialWindowSize := 1));
  }

  /** The failing case: the frame is refused, the size has changed, and the law is gone for every open stream. */
  lemma HalfAppliedBreaksLaw(c: Conn, f: Frame, id: nat)
    requires Inv(c) && !c.dead && InStep(c) && c.expecting.None? && id in c.streams && c.peer.initialWindowSize != 1
    requires Adjusts(f) && f.payload == HALF_APPLIED
    ensures ProcessFrame(c, f) == (Err, c.(peer := c.peer.(initialWindowSize := 1)))
    ensures Law(c) && !Law(ProcessFrame(c, f).1)
  {
    HalfApplied(c.peer);
    LawIsInStep(c);
    var c1 := c.(peer := c.peer.(initialWindowSize := 1));
    assert ProcessSettings(c, f) == (Err, c1);
    assert forall x :: x in c.streams ==> Accounted(c, x);
    LawIsInStep(c1);
    assert c1.streams[id].sendWindow.initialPeer != 1;
  }

  // ----- whole runs -----

  /** The next frame is a SETTINGS frame that will be looked at. */
  predicate SettingsDue(c: Conn) { c.inbound != [] && Adjusts(c.inbound[0]) && c.expecting.None? }

  /** Whatever frame is read, the windows stay in step exactly when it is harmless. */
  lemma ReadKeepsStep(c: Conn)
    requires Inv(c) && InStep(c)
    ensures InStep(ReadAndDispatch(c).1) <==> (SettingsDue(c) ==> Harmless(c, c.inbound[0].payload))
  {
    if c.inbound != [] {
      var f := c.inbound[0];
      var c0 := c.(inbound := c.inbound[1..], accepted := c.accepted + [f]);
      TakingInputKeepsInv(c);
      assert f in c.inbound;
      if Adjusts(f) {
        SettingsKeepStep(c0, f);
      } else {
        var extra := DispatchStep(c0, f);
      }
    }
  }

  lemma StartKeepsStep(c: Conn, req: Request)
    requires Inv(c) && InStep(c)
    ensures InStep(StartRequest(c, req).1)
  {
    OpenedStream(c);
    StartKeepsInv(c, req);
    if MayOpen(c) {
      var fs, n := StageOutcome(c, req);
    }
  }

  lemma {:induction false} StartQueuedKeepsStep(m: Mux, reqs: seq<Request>)
    requires Kept(m, reqs) && InStep(m.conn)
    ensures InStep(StartQueued(m, reqs).conn)
    decreases |m.queue|
  {
    if m.queue != [] && |m.conn.streams| < m.conn.peer.maxConcurrentStreams {
      StartKeepsStep(m.conn, reqs[m.queue[0]]);
      StartOneKeeps(m, reqs);
      StartQueuedKeepsStep(StartOne(m, reqs), reqs);
    }
  }

  lemma FlushKeepsStep(c: Conn)
    requires Inv(c) && InStep(c) && FlushPending(c).0
    ensures InStep(FlushPending(c).1)
  {
    if c.dead {
      DeadFlushPending(c);
    } else {
      FlushPendingStep(c);
    }
  }

  lemma StartThenAdvanceKeepsStep(m: Mux, reqs: seq<Request>)
    requires Kept(m, reqs) && InStep(m.conn) && Advance(StartQueued(m, reqs)).0
    ensures InStep(Advance(StartQueued(m, reqs)).1.conn)
  {
    StartQueuedKeeps(m, reqs);
    StartQueuedKeepsStep(m, reqs);
    FlushKeepsStep(StartQueued(m, reqs).conn);
  }

  lemma StartedInStep(m: Mux, reqs: seq<Request>)
    requires Good(m, reqs) && InStep(m.conn)
    ensures Inv(StartQueued(m, reqs).conn) && InStep(StartQueued(m, reqs).conn)
  {
    StartQueuedKeeps(m, reqs);
    StartQueuedKeepsStep(m, reqs);
  }

  lemma LaunchKeepsStep(m: Mux)
    requires Inv(m.conn) && InStep(m.conn) && Launch(m).0
    ensures InStep(Launch(m).1.conn)
  {
    FlushKeepsStep(m.conn);
  }

  lemma RefillKeepsStep(m: Mux, reqs: seq<Request>)
    requires Good(m, reqs) && InStep(m.conn) && Refill(m, reqs).0
    ensures InStep(Refill(m, reqs).1.conn)
  {
    if m.idToIdx == map[] {
      StartedInStep(m, reqs);
      LaunchKeepsStep(StartQueued(m, reqs));
    }
  }

  lemma AfterErrorKeepsStep(m: Mux, reqs: seq<Request>)
    requires Kept(m, reqs) && InStep(m.conn) && AfterError(m, reqs).0
    ensures InStep(AfterError(m, reqs).1.conn)
  {
    FailStreamsKeeps(m, reqs, Culprits(m));
    StartThenAdvanceKeepsStep(FailStreams(m, Culprits(m)), reqs);
  }

  lemma AfterFrameKeepsStep(m: Mux, reqs: seq<Request>, outcome: Outcome)
    requires Good(m, reqs) && (outcome.Done? ==> outcome.id in m.conn.streams && m.conn.streams[outcome.id].Complete())
    requires InStep(m.conn) && AfterFrame(m, reqs, outcome).0
    ensures InStep(AfterFrame(m, reqs, outcome).1.conn)
  {
    DoomedKeeps(m, reqs);
    var m1 := FailStreams(m, Doomed(m));
    if outcome.Done? && outcome.id in m1.idToIdx {
      ResolveKeeps(m1, reqs, outcome.id);
      StartThenAdvanceKeepsStep(Resolve(m1, outcome.id), reqs);
    } else {
      FlushKeepsStep(m1.conn);
    }
  }

  /** What a turn does after its frame was dispatched keeps the windows in step. */
  lemma OneFrameKeepsStep(m: Mux, reqs: seq<Request>)
    requires Good(m, reqs) && OneFrame(m, reqs).0 && InStep(ReadAndDispatch(m.conn).1)
    ensures InStep(OneFrame(m, reqs).1.conn)
  {
    ReadKeeps(m, reqs);
    var (r, c) := ReadAndDispatch(m.conn);
    match r
    case Err => AfterErrorKeepsStep(m.(conn := c), reqs);
    case Ok(outcome) => AfterFrameKeepsStep(m.(conn := c), reqs, outcome);
  }

  /**
   * The law holds at the top of every turn of the rest of the run, and the windows are in step after every frame
   * dispatched.
   */
  ghost predicate Lawful(m: Mux, reqs: seq<Request>)
    requires Good(m, reqs)
    decreases |m.conn.inbound|, D.Open(m.results)
  {
    && Law(m.conn)
    && (D.Open(m.results) != {} ==>
          var (going, r) := Turn(m, reqs);
          TurnKeeps(m, reqs);
          && (Refill(m, reqs).0 ==> InStep(ReadAndDispatch(Refill(m, reqs).1.conn).1))
          && (going ==> Lawful(r, reqs)))
  }

  /** Every SETTINGS frame that the rest of the run dispatches is harmless when it is. */
  ghost predicate AllHarmless(m: Mux, reqs: seq<Request>)
    requires Good(m, reqs)
    decreases |m.conn.inbound|, D.Open(m.results)
  {
    D.Open(m.results) != {} ==>
      var (refilled, m1) := Refill(m, reqs);
      var (going, r) := Turn(m, reqs);
      TurnKeeps(m, reqs);
      && (refilled && SettingsDue(m1.conn) ==> Harmless(m1.conn, m1.conn.inbound[0].payload))
      && (going ==> AllHarmless(r, reqs))
  }

  /** The law holds throughout a run if and only if all its SETTINGS frames are harmless. */
  lemma {:induction false} LawOverRuns(m: Mux, reqs: seq<Request>)
    requires Good(m, reqs) && Law(m.conn)
    ensures Lawful(m, reqs) <==> AllHarmless(m, reqs)
    decreases |m.conn.inbound|, D.Open(m.results)
  {
    if D.Open(m.results) != {} {
      LawIsInStep(m.conn);
      TurnKeeps(m, reqs);
      RefillKeeps(m, reqs);
      var (refilled, m1) := Refill(m, reqs);
      if refilled {
        RefillKeepsStep(m, reqs);
        ReadKeepsStep(m1.conn);
        var (going, r) := Turn(m, reqs);
        if going && InStep(ReadAndDispatch(m1.conn).1) {
          OneFrameKeepsStep(m1, reqs);
          LawIsInStep(r.conn);
          LawOverRuns(r, reqs);
        }
      }
    }
  }

  /**
   * From an idle connection: the law holds when the loop is entered, and from there exactly as long as SETTINGS are
   * harmless.
   */
  lemma RunLaw(c: Conn, reqs: seq<Request>)
    requires Inv(c) && c.streams == map[]
    ensures var (going, m) := Advance(StartQueued(Queued(c, |reqs|), reqs));
            going ==> Good(m, reqs) && Law(m.conn) && (Lawful(m, reqs) <==> AllHarmless(m, reqs))
  {
    QueuedIsKept(c, reqs);
    StartThenAdvanceKeeps(Queued(c, |reqs|), reqs);
    var (going, m) := Advance(StartQueued(Queued(c, |reqs|), reqs));
    if going {
      StartThenAdvanceKeepsStep(Queued(c, |reqs|), reqs);
      LawIsInStep(m.conn);
      LawOverRuns(m, reqs);
    }
  }
}

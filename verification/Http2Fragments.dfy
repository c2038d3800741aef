/**
 * Fragmented header blocks: what the receiver makes of HEADERS followed by CONTINUATIONs (section 6.10 of RFC 9113).
 */
module Http2Fragments {
  import opened Common
  import opened Fields
  import opened Http2Types
  import opened Http2Engine
  import Hpack

  /** Dispatches frames in order, stopping at the first refusal; the outcome is that of the last frame dispatched. */
  ghost function Feed(c: Conn, fs: seq<Frame>): (Result<Outcome>, Conn)
    requires fs != []
    decreases |fs|
  {
    var (r, c1) := ProcessFrame(c, fs[0]);
    if |fs| == 1 || r.Err? then (r, c1) else Feed(c1, fs[1..])
  }

  /** The block in one HEADERS frame. */
  function Whole(id: nat, block: seq<Byte>, endStream: bool): Frame
  {
    Frame(F_HEADERS, (if endStream then FLAG_END_STREAM else 0) + FLAG_END_HEADERS, id, block)
  }

  function LastFragment(id: nat, rest: seq<Byte>): Frame { Frame(F_CONTINUATION, FLAG_END_HEADERS, id, rest) }

  /** Room for `rest` in the header buffer of a stream waiting for a CONTINUATION. */
  predicate Awaiting(c: Conn, id: nat, rest: seq<Byte>)
  {
    c.expecting == Some(id) && id != 0 && id in c.streams && |c.streams[id].headersBuf| + |rest| <= MAX_HEADERS_BUF
  }

  lemma Overwrites(m: map<nat, Stream>, id: nat, s: Stream, s1: Stream)
    ensures m[id := s][id := s1] == m[id := s1]
  {
  }

  lemma Unframed(f: Frame)
    requires !f.Padded() && !f.Priority()
    ensures HeaderFragment(f) == Ok(f.payload)
  {
    assert f.payload[..|f.payload|] == f.payload;
  }

  function Headers(r: Result<seq<Field>>): Option<seq<Field>> { if r.Ok? then Some(r.value) else None }

  lemma FragmentJoins(c: Conn, id: nat, a: seq<Byte>, b: seq<Byte>)
    requires Awaiting(c, id, a + b)
    ensures ProcessContinuation(Buffered(c, id, a), LastFragment(id, b))
            == ProcessContinuation(c, LastFragment(id, a + b))
  {
    var s := c.streams[id];
    var c1 := Buffered(c, id, a);
    assert s.headersBuf + a + b == s.headersBuf + (a + b);
    assert c1.streams[id].PushFragment(b) == s.PushFragment(a + b);
    var merged := s.(headersBuf := s.headersBuf + (a + b));
    var taken := merged.(headersBuf := []);
    var r := Hpack.DecodeBlock(c.tables, c.decoder, merged.headersBuf).0;
    Overwrites(c.streams, id, c1.streams[id], taken);
    Overwrites(c.streams, id, c1.streams[id],
               if taken.state.Closed? then taken else taken.(responseHeaders := Headers(r)));
  }

  /** The connection once `a` more bytes of a block are buffered. */
  function Buffered(c: Conn, id: nat, a: seq<Byte>): Conn
    requires id in c.streams
  {
    c.(streams := c.streams[id := c.streams[id].(headersBuf := c.streams[id].headersBuf + a)])
  }

  lemma MiddleFragment(c: Conn, id: nat, a: seq<Byte>)
    requires Awaiting(c, id, a)
    ensures ProcessFrame(c, Frame(F_CONTINUATION, 0, id, a)) == (Ok(Verdict(c.streams[id], id)), Buffered(c, id, a))
  {
  }

  /** Any number of CONTINUATIONs does what one carrying all their bytes would do. */
  lemma {:induction false} ContinuationsJoin(c: Conn, id: nat, rest: seq<Byte>, max: nat)
    requires max > 0 && Awaiting(c, id, rest)
    ensures Feed(c, Continuations(id, rest, max)) == ProcessContinuation(c, LastFragment(id, rest))
    decreases |rest|
  {
    if |rest| > max {
      var a, b := rest[..max], rest[max..];
      assert rest == a + b;
      MiddleFragment(c, id, a);
      ContinuationsJoin(Buffered(c, id, a), id, b, max);
      FragmentJoins(c, id, a, b);
      FeedTail(c, Frame(F_CONTINUATION, 0, id, a), Continuations(id, b, max));
    }
  }

  lemma FeedTail(c: Conn, f: Frame, fs: seq<Frame>)
    requires fs != [] && ProcessFrame(c, f).0.Ok?
    ensures Feed(c, [f] + fs) == Feed(ProcessFrame(c, f).1, fs)
  {
    assert ([f] + fs)[1..] == fs;
  }

  /** Every frame but the last is accepted and reports nothing. */
  ghost predicate Quiet(c: Conn, fs: seq<Frame>)
    requires fs != []
    decreases |fs|
  {
    |fs| == 1 || (ProcessFrame(c, fs[0]).0 == Ok(Continue) && Quiet(ProcessFrame(c, fs[0]).1, fs[1..]))
  }

  lemma QuietTail(c: Conn, f: Frame, fs: seq<Frame>)
    requires fs != []
    ensures Quiet(c, [f] + fs) <==> ProcessFrame(c, f).0 == Ok(Continue) && Quiet(ProcessFrame(c, f).1, fs)
  {
    assert ([f] + fs)[1..] == fs;
  }

  /** CONTINUATIONs before the last report nothing, unless the stream counts as done already. */
  lemma {:induction false} ContinuationsQuiet(c: Conn, id: nat, rest: seq<Byte>, max: nat)
    requires max > 0 && Awaiting(c, id, rest)
    ensures Quiet(c, Continuations(id, rest, max)) <==> |rest| <= max || !c.streams[id].Done()
    decreases |rest|
  {
    if |rest| > max {
      var a, b := rest[..max], rest[max..];
      MiddleFragment(c, id, a);
      ContinuationsQuiet(Buffered(c, id, a), id, b, max);
      QuietTail(c, Frame(F_CONTINUATION, 0, id, a), Continuations(id, b, max));
    }
  }

  /** The response headers of a block that ends a stream whose own side has ended are dropped. */
  predicate HeadersLost(c: Conn, id: nat, block: seq<Byte>, max: nat, endStream: bool)
    requires id in c.streams
  {
    |block| > max && endStream && c.streams[id].state.HalfClosedLocal?
  }

  /** A fragment before the last reports the stream done. */
  predicate DoneEarly(c: Conn, id: nat, block: seq<Byte>, max: nat, endStream: bool)
    requires id in c.streams
  {
    var s := c.streams[id];
    if s.state.Closed? then |block| > 2 * max && s.Complete() else |block| > max && endStream && s.responseHeaders.Some?
  }

  /** The block is one the HPACK decoder can read now. */
  ghost predicate Decodes(c: Conn, block: seq<Byte>) { Hpack.DecodeBlock(c.tables, c.decoder, block).0.Ok? }

  /** The stream's state lets it receive headers. */
  predicate Receivable(c: Conn, id: nat, endStream: bool)
    requires id in c.streams
  {
    c.streams[id].state.RecvHeaders(endStream).Ok?
  }

  /** When a receiver can tell fragments from the whole block. */
  ghost predicate Visible(c: Conn, id: nat, block: seq<Byte>, max: nat, endStream: bool)
    requires id in c.streams
  {
    var s := c.streams[id];
    && |block| > max
    && (!Receivable(c, id, endStream) || !Decodes(c, block)
        || if s.state.Closed? then s.Complete() else endStream && (s.state.HalfClosedLocal? || s.responseHeaders.Some?))
  }

  /** `c1` with the response headers of `id` as they were in `c`. */
  function WithoutHeaders(c: Conn, c1: Conn, id: nat): Conn
    requires id in c.streams && id in c1.streams
  {
    c1.(streams := c1.streams[id := c1.streams[id].(responseHeaders := c.streams[id].responseHeaders)])
  }

  /**
   * What fragments left compared with the whole block: the same verdict and HPACK table, and for an accepted block the
   * same connection, but for headers that were `lost`, and the same outcome unless the last fragment `tells`.
   */
  ghost predicate Alike(c: Conn, id: nat, parts: (Result<Outcome>, Conn), whole: (Result<Outcome>, Conn), lost: bool,
                        tells: bool)
    requires id in c.streams
  {
    && (parts.0.Ok? <==> whole.0.Ok?) && parts.1.decoder == whole.1.decoder
    && (whole.0.Ok? ==>
          && id in whole.1.streams && parts.1 == (if lost then WithoutHeaders(c, whole.1, id) else whole.1)
          && (parts.0 == whole.0 <==> !tells))
  }

  /** A stream that can take a new header block. */
  predicate Ready(c: Conn, id: nat, block: seq<Byte>)
  {
    c.expecting.None? && id != 0 && id in c.streams && c.streams[id].headersBuf == [] && |block| <= MAX_HEADERS_BUF
  }

  /** The connection after the HEADERS frame of a fragmented block. */
  function AfterFirst(c: Conn, id: nat, a: seq<Byte>, endStream: bool, state: StreamState): Conn
    requires id in c.streams
  {
    var s := c.streams[id];
    var s1 := s.(headersBuf := a, endStreamRecv := s.endStreamRecv || endStream, state := state);
    c.(streams := c.streams[id := s1], expecting := Some(id))
  }

  lemma FirstFragment(c: Conn, id: nat, a: seq<Byte>, endStream: bool)
    requires Ready(c, id, a)
    ensures var f := Frame(F_HEADERS, if endStream then FLAG_END_STREAM else 0, id, a);
            var s := c.streams[id];
            && (s.state.Closed? ==>
                  ProcessFrame(c, f)
                  == (Ok(Continue), c.(streams := c.streams[id := s.(headersBuf := a)], expecting := Some(id))))
            && (!s.state.Closed? && s.state.RecvHeaders(endStream).Ok? ==>
                 var c1 := AfterFirst(c, id, a, endStream, s.state.RecvHeaders(endStream).value);
                 ProcessFrame(c, f) == (Ok(Verdict(c1.streams[id], id)), c1))
            && (!s.state.Closed? && s.state.RecvHeaders(endStream).Err? ==> ProcessFrame(c, f) == (Err, c))
  {
    var f := Frame(F_HEADERS, if endStream then FLAG_END_STREAM else 0, id, a);
    Unframed(f);
    assert c.streams[id].headersBuf + a == a;
  }

  /** What the whole block does to a stream that is still open for it. */
  lemma WholeOnOpen(c: Conn, id: nat, block: seq<Byte>, endStream: bool)
    requires Ready(c, id, block) && !c.streams[id].state.Closed? && c.streams[id].state.RecvHeaders(endStream).Ok?
    ensures var s := c.streams[id];
            var (r, d) := Hpack.DecodeBlock(c.tables, c.decoder, block);
            var taken := s.(endStreamRecv := s.endStreamRecv || endStream);
            var s1 := taken.(responseHeaders := Headers(r), state := s.state.RecvHeaders(endStream).value);
            ProcessFrame(c, Whole(id, block, endStream))
            == if r.Err? then (Err, c.(streams := c.streams[id := taken], decoder := d))
               else (Ok(Verdict(s1, id)), c.(streams := c.streams[id := s1], decoder := d))
  {
    var f := Whole(id, block, endStream);
    Unframed(f);
    var s := c.streams[id];
    assert s.headersBuf + block == block;
    assert c.expecting == None && f.EndHeaders() && f.EndStream() == endStream;
    var state := s.state.RecvHeaders(endStream).value;
    assert s.PushFragment(block) == Ok(s.(headersBuf := block));
    assert ProcessFrame(c, f) == HeadersOnOpen(c, f, block, state);
    var (r, d) := Hpack.DecodeBlock(c.tables, c.decoder, block);
    var taken := s.(endStreamRecv := s.endStreamRecv || endStream);
    if r.Err? {
      assert HeadersOnOpen(c, f, block, state) == (Err, c.(streams := c.streams[id := taken], decoder := d));
    } else {
      var s1 := taken.(responseHeaders := Some(r.value), state := state);
      assert HeadersOnOpen(c, f, block, state).1 == c.(streams := c.streams[id := s1], decoder := d, expecting := None);
    }
  }

  lemma WholeOnClosed(c: Conn, id: nat, block: seq<Byte>, endStream: bool)
    requires Ready(c, id, block) && c.streams[id].state.Closed?
    ensures var (r, d) := Hpack.DecodeBlock(c.tables, c.decoder, block);
            ProcessFrame(c, Whole(id, block, endStream)) == (if r.Ok? then Ok(Continue) else Err, c.(decoder := d))
  {
    var f := Whole(id, block, endStream);
    Unframed(f);
    assert ProcessFrame(c, f) == HeadersOnClosed(c, f, block);
  }

  /** What the last fragment does once the rest of the block is buffered. */
  lemma LastOnOpen(c: Conn, id: nat, a: seq<Byte>, b: seq<Byte>, endStream: bool, state: StreamState)
    requires Ready(c, id, a + b)
    ensures var s := c.streams[id];
            var (r, d) := Hpack.DecodeBlock(c.tables, c.decoder, a + b);
            var taken := s.(endStreamRecv := s.endStreamRecv || endStream, state := state);
            var s1 := if state.Closed? then taken else taken.(responseHeaders := Headers(r));
            ProcessContinuation(AfterFirst(c, id, a, endStream, state), LastFragment(id, b))
            == if r.Err? then (Err, c.(streams := c.streams[id := taken], decoder := d, expecting := Some(id)))
               else (Ok(Verdict(s1, id)), c.(streams := c.streams[id := s1], decoder := d))
  {
    var s := c.streams[id];
    var c1 := AfterFirst(c, id, a, endStream, state);
    var taken := c1.streams[id].(headersBuf := []);
    assert taken == s.(endStreamRecv := s.endStreamRecv || endStream, state := state);
    var r := Hpack.DecodeBlock(c.tables, c.decoder, a + b).0;
    Overwrites(c.streams, id, c1.streams[id], taken);
    Overwrites(c.streams, id, c1.streams[id], taken.(responseHeaders := Headers(r)));
  }

  lemma FeedFragments(c: Conn, id: nat, block: seq<Byte>, max: nat, endStream: bool)
    requires max > 0 && Ready(c, id, block) && |block| > max
    ensures var f := Frame(F_HEADERS, if endStream then FLAG_END_STREAM else 0, id, block[..max]);
            var (r, c1) := ProcessFrame(c, f);
            && (r.Ok? ==>
                  Feed(c, FragmentHeaderBlock(id, block, max, endStream))
                  == ProcessContinuation(c1, LastFragment(id, block[max..])))
            && (r.Err? ==> Feed(c, FragmentHeaderBlock(id, block, max, endStream)) == (r, c1))
  {
    var a, b := block[..max], block[max..];
    var f := Frame(F_HEADERS, if endStream then FLAG_END_STREAM else 0, id, a);
    FirstFragment(c, id, a, endStream);
    var (r, c1) := ProcessFrame(c, f);
    if r.Ok? {
      ContinuationsJoin(c1, id, b, max);
      FeedTail(c, f, Continuations(id, b, max));
    } else {
      assert FragmentHeaderBlock(id, block, max, endStream)[0] == f;
    }
  }

  /** Exactly when every fragment before the last goes by unnoticed. */
  lemma QuietExactly(c: Conn, id: nat, block: seq<Byte>, max: nat, endStream: bool)
    requires max > 0 && Ready(c, id, block) && c.streams[id].state.RecvHeaders(endStream).Ok?
    ensures Quiet(c, FragmentHeaderBlock(id, block, max, endStream)) <==> !DoneEarly(c, id, block, max, endStream)
  {
    if |block| > max {
      var a, b := block[..max], block[max..];
      var f := Frame(F_HEADERS, if endStream then FLAG_END_STREAM else 0, id, a);
      FirstFragment(c, id, a, endStream);
      QuietTail(c, f, Continuations(id, b, max));
      ContinuationsQuiet(ProcessFrame(c, f).1, id, b, max);
    }
  }

  /**
   * Fragmentation never changes whether a block is accepted nor what it does to the HPACK table. An accepted block
   * leaves the whole connection as one HEADERS frame would, except that `HeadersLost` costs it the response headers.
   */
  lemma FragmentsAgainstWhole(c: Conn, id: nat, block: seq<Byte>, max: nat, endStream: bool)
    requires max > 0 && Ready(c, id, block)
    ensures Alike(c, id, Feed(c, FragmentHeaderBlock(id, block, max, endStream)),
                  ProcessFrame(c, Whole(id, block, endStream)),
                  HeadersLost(c, id, block, max, endStream), LastTells(c, id, block, max, endStream))
  {
    if |block| > max {
      var s, a, b := c.streams[id], block[..max], block[max..];
      assert block == a + b;
      FeedFragments(c, id, block, max, endStream);
      FirstFragment(c, id, a, endStream);
      if s.state.Closed? {
        FragmentsOnClosed(c, id, a, b, endStream);
      } else if s.state.RecvHeaders(endStream).Ok? {
        FragmentsOnOpen(c, id, a, b, endStream);
      } else {
        Unframed(Whole(id, block, endStream));
      }
    } else {
      assert FragmentHeaderBlock(id, block, max, endStream) == [Whole(id, block, endStream)];
    }
  }

  /** The last fragment reports something else than the whole block would. */
  predicate LastTells(c: Conn, id: nat, block: seq<Byte>, max: nat, endStream: bool)
    requires id in c.streams
  {
    var s := c.streams[id];
    |block| > max && if s.state.Closed? then s.Complete()
      else endStream && s.state.HalfClosedLocal? && s.responseHeaders.None?
  }

  /** A block is refused when the stream's state does not allow headers or when it cannot be decoded. */
  lemma RefusedExactly(c: Conn, id: nat, block: seq<Byte>, endStream: bool)
    requires Ready(c, id, block)
    ensures ProcessFrame(c, Whole(id, block, endStream)).0.Ok? <==> Receivable(c, id, endStream) && Decodes(c, block)
  {
    if c.streams[id].state.Closed? {
      WholeOnClosed(c, id, block, endStream);
    } else if Receivable(c, id, endStream) {
      WholeOnOpen(c, id, block, endStream);
    } else {
      RefusedByState(c, id, block, endStream);
    }
  }

  lemma RefusedByState(c: Conn, id: nat, block: seq<Byte>, endStream: bool)
    requires Ready(c, id, block) && !c.streams[id].state.Closed? && !Receivable(c, id, endStream)
    ensures ProcessFrame(c, Whole(id, block, endStream)).0.Err?
  {
    Unframed(Whole(id, block, endStream));
  }

  /** The connection `c1` still waiting for a CONTINUATION, the end of the peer's side already noted. */
  function StillWaiting(c: Conn, c1: Conn, id: nat, endStream: bool): Conn
    requires id in c.streams && Receivable(c, id, endStream) && id in c1.streams
  {
    var state := c.streams[id].state.RecvHeaders(endStream).value;
    c1.(streams := c1.streams[id := c1.streams[id].(state := state)], expecting := Some(id))
  }

  /** What a refused block leaves, sent in fragments (`parts`) and in one frame (`whole`). */
  ghost predicate RefusedAlike(c: Conn, id: nat, endStream: bool, parts: (Result<Outcome>, Conn),
                               whole: (Result<Outcome>, Conn))
    requires id in c.streams
  {
    && whole.0.Err? && parts.0.Err?
    && (!Receivable(c, id, endStream) ==> parts.1 == c && whole.1 == c)
    && (Receivable(c, id, endStream) ==>
          && id in whole.1.streams && whole.1.expecting.None?
          && whole.1.streams[id].state == c.streams[id].state
          && whole.1.streams[id].responseHeaders == c.streams[id].responseHeaders
          && parts.1 == StillWaiting(c, whole.1, id, endStream))
  }

  /**
   * A refused block leaves the same connection in fragments as in one frame if and only if the stream's state refused
   * it. One that cannot be decoded is over when it came in one frame; in fragments it leaves the connection waiting
   * for a CONTINUATION, and has ended the peer's side if END_STREAM was set.
   */
  lemma RefusedFragments(c: Conn, id: nat, block: seq<Byte>, max: nat, endStream: bool)
    requires max > 0 && Ready(c, id, block) && |block| > max && !(Receivable(c, id, endStream) && Decodes(c, block))
    ensures var parts, whole := Feed(c, FragmentHeaderBlock(id, block, max, endStream)),
            ProcessFrame(c, Whole(id, block, endStream));
            && RefusedAlike(c, id, endStream, parts, whole)
            && (parts == whole <==> !Receivable(c, id, endStream))
  {
    var s, a, b := c.streams[id], block[..max], block[max..];
    assert block == a + b;
    FeedFragments(c, id, block, max, endStream);
    FirstFragment(c, id, a, endStream);
    if !Receivable(c, id, endStream) {
      Unframed(Whole(id, block, endStream));
    } else if s.state.Closed? {
      RefusedOnClosed(c, id, a, b, endStream);
    } else {
      RefusedOnOpen(c, id, a, b, endStream);
    }
  }

  lemma RefusedOnOpen(c: Conn, id: nat, a: seq<Byte>, b: seq<Byte>, endStream: bool)
    requires Ready(c, id, a + b) && !c.streams[id].state.Closed? && Receivable(c, id, endStream) && !Decodes(c, a + b)
    ensures var c0 := AfterFirst(c, id, a, endStream, c.streams[id].state.RecvHeaders(endStream).value);
            RefusedAlike(c, id, endStream, ProcessContinuation(c0, LastFragment(id, b)),
                         ProcessFrame(c, Whole(id, a + b, endStream)))
  {
    var s := c.streams[id];
    LastOnOpen(c, id, a, b, endStream, s.state.RecvHeaders(endStream).value);
    WholeOnOpen(c, id, a + b, endStream);
    var s2 := ProcessFrame(c, Whole(id, a + b, endStream)).1.streams[id];
    Overwrites(c.streams, id, s2, s2.(state := s.state.RecvHeaders(endStream).value));
  }

  /** On a closed stream the block only moves the HPACK table, and is over unless it cannot be decoded. */
  lemma LastOnClosed(c: Conn, id: nat, a: seq<Byte>, b: seq<Byte>)
    requires Ready(c, id, a + b) && c.streams[id].state.Closed?
    ensures var s := c.streams[id];
            var (r, d) := Hpack.DecodeBlock(c.tables, c.decoder, a + b);
            var c0 := c.(streams := c.streams[id := s.(headersBuf := a)], expecting := Some(id));
            ProcessContinuation(c0, LastFragment(id, b))
            == if r.Err? then (Err, c.(decoder := d, expecting := Some(id))) else (Ok(Verdict(s, id)), c.(decoder := d))
  {
    var s := c.streams[id];
    assert c.streams[id := s] == c.streams && c.expecting == None;
    var c0 := c.(streams := c.streams[id := s.(headersBuf := a)], expecting := Some(id));
    Overwrites(c.streams, id, s.(headersBuf := a), s);
    assert c0.streams[id].PushFragment(b) == Ok(s.(headersBuf := a + b));
    assert s.(headersBuf := a + b).(headersBuf := []) == s;
    var (r, d) := Hpack.DecodeBlock(c.tables, c.decoder, a + b);
    var c1 := ProcessContinuation(c0, LastFragment(id, b)).1;
    assert c1.streams == c.streams;
    assert c1 == if r.Err? then c.(decoder := d, expecting := Some(id)) else c.(decoder := d);
  }

  lemma RefusedOnClosed(c: Conn, id: nat, a: seq<Byte>, b: seq<Byte>, endStream: bool)
    requires Ready(c, id, a + b) && c.streams[id].state.Closed? && !Decodes(c, a + b)
    ensures var c0 := c.(streams := c.streams[id := c.streams[id].(headersBuf := a)], expecting := Some(id));
            RefusedAlike(c, id, endStream, ProcessContinuation(c0, LastFragment(id, b)),
                         ProcessFrame(c, Whole(id, a + b, endStream)))
  {
    WholeOnClosed(c, id, a + b, endStream);
    LastOnClosed(c, id, a, b);
    assert c.streams[id := c.streams[id]] == c.streams;
  }

  /** The first fragment is refused when the stream's state does not allow headers; the others are still to come. */
  lemma RefusedIsNotQuiet(c: Conn, id: nat, block: seq<Byte>, max: nat, endStream: bool)
    requires max > 0 && Ready(c, id, block) && |block| > max && !Receivable(c, id, endStream)
    ensures !Quiet(c, FragmentHeaderBlock(id, block, max, endStream))
  {
    var f := Frame(F_HEADERS, if endStream then FLAG_END_STREAM else 0, id, block[..max]);
    FirstFragment(c, id, block[..max], endStream);
    QuietTail(c, f, Continuations(id, block[max..], max));
  }

  /**
   * A block's fragments go by unnoticed, end with the same outcome and leave the same connection as one HEADERS
   * frame, if and only if the case is not `Visible`.
   */
  lemma FragmentationIsInvisible(c: Conn, id: nat, block: seq<Byte>, max: nat, endStream: bool)
    requires max > 0 && Ready(c, id, block)
    ensures var fs := FragmentHeaderBlock(id, block, max, endStream);
            Quiet(c, fs) && Feed(c, fs) == ProcessFrame(c, Whole(id, block, endStream))
            <==> !Visible(c, id, block, max, endStream)
  {
    if |block| <= max {
      assert FragmentHeaderBlock(id, block, max, endStream) == [Whole(id, block, endStream)];
    } else if !Receivable(c, id, endStream) {
      RefusedIsNotQuiet(c, id, block, max, endStream);
    } else if !Decodes(c, block) {
      RefusedFragments(c, id, block, max, endStream);
    } else {
      FragmentsAgainstWhole(c, id, block, max, endStream);
      RefusedExactly(c, id, block, endStream);
      QuietExactly(c, id, block, max, endStream);
    }
  }

  lemma FragmentsOnOpen(c: Conn, id: nat, a: seq<Byte>, b: seq<Byte>, endStream: bool)
    requires Ready(c, id, a + b) && !c.streams[id].state.Closed? && c.streams[id].state.RecvHeaders(endStream).Ok?
    ensures var c0 := AfterFirst(c, id, a, endStream, c.streams[id].state.RecvHeaders(endStream).value);
            var lost := endStream && c.streams[id].state.HalfClosedLocal?;
            Alike(c, id, ProcessContinuation(c0, LastFragment(id, b)), ProcessFrame(c, Whole(id, a + b, endStream)),
                  lost,
                  lost && c.streams[id].responseHeaders.None?)
  {
    var s := c.streams[id];
    var state := s.state.RecvHeaders(endStream).value;
    LastOnOpen(c, id, a, b, endStream, state);
    WholeOnOpen(c, id, a + b, endStream);
    var s2 := ProcessFrame(c, Whole(id, a + b, endStream)).1.streams[id];
    Overwrites(c.streams, id, s2, s2.(responseHeaders := s.responseHeaders));
  }

  lemma FragmentsOnClosed(c: Conn, id: nat, a: seq<Byte>, b: seq<Byte>, endStream: bool)
    requires Ready(c, id, a + b) && c.streams[id].state.Closed?
    ensures var s := c.streams[id];
            var c0 := c.(streams := c.streams[id := s.(headersBuf := a)], expecting := Some(id));
            Alike(c, id, ProcessContinuation(c0, LastFragment(id, b)), ProcessFrame(c, Whole(id, a + b, endStream)),
                  false, s.Complete())
  {
    WholeOnClosed(c, id, a + b, endStream);
    LastOnClosed(c, id, a, b);
  }

  /** While a block is unfinished, every frame but its own CONTINUATION is refused and changes nothing. */
  lemma {:induction false} InterruptionIsRefused(c: Conn, id: nat, rest: seq<Byte>, max: nat, k: nat, f: Frame)
    requires max > 0 && Awaiting(c, id, rest) && k < |Continuations(id, rest, max)|
             && !(f.typ == F_CONTINUATION && f.id == id)
    ensures var c1 := if k == 0 then c else Feed(c, Continuations(id, rest, max)[..k]).1;
            c1.expecting == Some(id) && ProcessFrame(c1, f) == (Err, c1)
    decreases |rest|
  {
    if k > 0 {
      var a, b := rest[..max], rest[max..];
      var g := Frame(F_CONTINUATION, 0, id, a);
      MiddleFragment(c, id, a);
      InterruptionIsRefused(Buffered(c, id, a), id, b, max, k - 1, f);
      var fs := Continuations(id, rest, max)[..k];
      assert fs[0] == g && fs[1..] == Continuations(id, b, max)[..k - 1];
      if k > 1 {
        assert fs == [g] + Continuations(id, b, max)[..k - 1];
        FeedTail(c, g, Continuations(id, b, max)[..k - 1]);
      }
    }
  }

  /** The lost response: a stream that has sent its request gets headers only, in two frames, and never sees them. */
  lemma FragmentedHeadersOnlyResponseIsLost(c: Conn, id: nat, block: seq<Byte>, max: nat)
    requires max > 0 && Ready(c, id, block) && |block| > max && c.streams[id].state.HalfClosedLocal?
    requires c.streams[id].responseHeaders.None? && Hpack.DecodeBlock(c.tables, c.decoder, block).0.Ok?
    ensures var (r, c1) := Feed(c, FragmentHeaderBlock(id, block, max, true));
            r == Ok(Continue) && id in c1.streams && c1.streams[id].state.Closed?
              && c1.streams[id].responseHeaders.None?
    ensures ProcessFrame(c, Whole(id, block, true)).0 == Ok(Done(id))
  {
    var a, b := block[..max], block[max..];
    assert block == a + b;
    FeedFragments(c, id, block, max, true);
    FirstFragment(c, id, a, true);
    LastOnOpen(c, id, a, b, true, Closed);
    WholeOnOpen(c, id, block, true);
  }
}

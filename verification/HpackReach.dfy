/**
 * One run of a connection, whatever its table sizes: the decoder recovers it exactly when every index the encoder
 * sends lies within the table that a decoder capped at 4096 octets still holds.
 */
module HpackReach {
  import opened Common
  import opened Fields
  import opened HpackTable
  import opened Hpack
  import opened HpackRuns
  import PI = PrefixInteger

  /** The entry a line for `f` refers to, if it is a dynamic one, is among the newest `n`. */
  predicate Reaches(c: Tables, es: seq<Field>, n: nat, f: Field)
  {
    match FindField(c.fields, f, 0)
    case Some(_) => true
    case None =>
      match FindField(es, f, 0)
      case Some(i) => i < n
      case None =>
        match FindName(c.fields, f.name, 0)
        case Some(_) => true
        case None =>
          match FindName(es, f.name, 0)
          case Some(i) => i < n
          case None => true
  }

  // ----- one line -----

  /** Both tables are newest-first prefixes of the same insertions. */
  predicate Comparable(a: seq<Field>, b: seq<Field>) { a <= b || b <= a }

  /** Without a pending update the decoder's capacity is the encoder's, capped. */
  ghost predicate Paired(e: EncoderState, d: DecoderState)
  {
    && Comparable(e.entries, d.entries) && ListSize(e.entries) <= e.cap < 0x1_0000_0000
    && match e.pending
       case None => d.cap == Min(e.cap, DYN_TABLE_CAP)
       case Some(n) => n == e.cap
  }

  lemma FewEntries(e: EncoderState, d: DecoderState)
    requires Paired(e, d)
    ensures |e.entries| < 0x1_0000_0000
  {
    SizePrefix([], e.entries);
  }

  lemma LineInReach(c: Tables, e: EncoderState, d: DecoderState, f: Field, more: seq<Byte>)
    requires ValidTables(c) && Paired(e, d) && Reaches(c, e.entries, |d.entries|, f)
    requires ValidText(c, f) && EntrySize(f) <= MAX_DECODED_HEADER_LIST
    ensures var bytes := EncodeLine(c, e, f).0;
            |bytes| > 0 && DecodeStep(c, d, bytes + more) == Line(f, |bytes|, AfterLine(c, e, d, f))
  {
    FewEntries(e, d);
    var full, name := FullIndex(c, e.entries, f), NameIndex(c, e.entries, f.name);
    if full.Some? {
      IndexedStep(c, d, full.value, f, more);
    } else {
      var value := EncodeLiteral(c, f.value);
      LiteralRoundTrip(c, f.value, more);
      if name.Some? {
        NameIndexStep(c, d, name.value, f, value, more);
      } else {
        LiteralRoundTrip(c, f.name, value + more);
        LiteralNameStep(c, d, f, EncodeLiteral(c, f.name), value, more);
      }
    }
  }

  lemma IndexOutOfReach(c: Tables, d: DecoderState, idx: nat, more: seq<Byte>)
    requires idx < U64 && Lookup(c, d.entries, idx).Err?
    ensures DecodeStep(c, d, Flagged(PI.Encode(idx, 7), 0x80) + more) == Bad
  {
    FlaggedRead(idx, 7, 0x80, more);
  }

  lemma NameOutOfReach(c: Tables, d: DecoderState, idx: nat, more: seq<Byte>)
    requires 0 < idx < U64 && Lookup(c, d.entries, idx).Err?
    ensures DecodeStep(c, d, Flagged(PI.Encode(idx, 6), 0x40) + more) == Bad
  {
    FlaggedRead(idx, 6, 0x40, more);
  }

  lemma LineOutOfReach(c: Tables, e: EncoderState, d: DecoderState, f: Field, more: seq<Byte>)
    requires ValidTables(c) && Paired(e, d) && !Reaches(c, e.entries, |d.entries|, f)
    ensures var bytes := EncodeLine(c, e, f).0;
            |bytes| > 0 && DecodeStep(c, d, bytes + more) == Bad
  {
    FewEntries(e, d);
    var full, name := FullIndex(c, e.entries, f), NameIndex(c, e.entries, f.name);
    if full.Some? {
      IndexOutOfReach(c, d, full.value, more);
    } else {
      var head, value := Flagged(PI.Encode(name.value, 6), 0x40), EncodeLiteral(c, f.value);
      NameOutOfReach(c, d, name.value, value + more);
      assert head + value + more == head + (value + more);
    }
  }

  lemma LineKeepsPaired(c: Tables, e: EncoderState, d: DecoderState, f: Field)
    requires ValidTables(c) && Paired(e, d) && e.pending.None?
    ensures Paired(EncodeLine(c, e, f).1, AfterLine(c, e, d, f))
  {
    InsertFits(e.entries, e.cap, f);
    PrefixesCompare(e.entries, d.entries, e.cap, d.cap, f);
  }

  lemma PrefixesCompare(a: seq<Field>, b: seq<Field>, m: nat, n: nat, f: Field)
    requires Comparable(a, b)
    ensures Comparable(Insert(a, m, f), Insert(b, n, f))
  {
    var x, y := Evict(a, m - EntrySize(f)), Evict(b, n - EntrySize(f));
    assert Comparable(x, y);
  }

  // ----- one header -----

  /** The decoder's table once it has read a pending size update. */
  function AfterUpdate(e: EncoderState, d: DecoderState): DecoderState
  {
    match e.pending
    case None => d
    case Some(n) => Dec(Evict(d.entries, Min(n, DYN_TABLE_CAP)), Min(n, DYN_TABLE_CAP))
  }

  lemma UpdateReads(c: Tables, e: EncoderState, d: DecoderState, more: seq<Byte>, out: seq<Field>)
    requires Paired(e, d)
    ensures Paired(e.(pending := None), AfterUpdate(e, d))
    ensures DecodeFrom(c, d, SizeUpdate(e.pending) + more, out) == DecodeFrom(c, AfterUpdate(e, d), more, out)
  {
    if e.pending.None? {
      assert SizeUpdate(e.pending) + more == more;
    } else {
      var n := e.cap;
      var bytes := Flagged(PI.Encode(n, 5), 0x20);
      FlaggedRead(n, 5, 0x20, more);
      assert DecodeStep(c, d, bytes + more) == Resize(|bytes|, AfterUpdate(e, d));
      assert (bytes + more)[|bytes|..] == more;
    }
  }

  function AfterHeader(c: Tables, e: EncoderState, d: DecoderState, f: Field): DecoderState
  {
    AfterLine(c, e, AfterUpdate(e, d), f)
  }

  lemma HeaderReads(c: Tables, e: EncoderState, d: DecoderState, f: Field, more: seq<Byte>, out: seq<Field>)
    requires ValidTables(c) && Paired(e, d) && ValidText(c, f) && ListSize(out + [f]) <= MAX_DECODED_HEADER_LIST
    ensures var (bytes, e') := EncodeHeader(c, e, f);
            && Paired(e', AfterHeader(c, e, d, f))
            && (if Reaches(c, e.entries, |AfterUpdate(e, d).entries|, f)
                then DecodeFrom(c, d, bytes + more, out) == DecodeFrom(c, AfterHeader(c, e, d, f), more, out + [f])
                else DecodeFrom(c, d, bytes + more, out).0 == Err)
  {
    assert (out + [f])[..|out|] == out;
    var e0, d0 := e.(pending := None), AfterUpdate(e, d);
    var line := EncodeLine(c, e0, f).0;
    UpdateReads(c, e, d, line + more, out);
    LineKeepsPaired(c, e0, d0, f);
    assert SizeUpdate(e.pending) + line + more == SizeUpdate(e.pending) + (line + more);
    assert (line + more)[|line|..] == more;
    if Reaches(c, e.entries, |d0.entries|, f) {
      LineInReach(c, e0, d0, f, more);
    } else {
      LineOutOfReach(c, e0, d0, f, more);
    }
  }

  // ----- one block, one run -----

  predicate BlockReaches(c: Tables, e: EncoderState, d: DecoderState, fs: seq<Field>)
    requires |c.huffman| == 257
    decreases |fs|
  {
    fs != [] ==>
      && Reaches(c, e.entries, |AfterUpdate(e, d).entries|, fs[0])
      && BlockReaches(c, EncodeHeader(c, e, fs[0]).1, AfterHeader(c, e, d, fs[0]), fs[1..])
  }

  function AfterBlock(c: Tables, e: EncoderState, d: DecoderState, fs: seq<Field>): DecoderState
    requires |c.huffman| == 257
    decreases |fs|
  {
    if fs == [] then d else AfterBlock(c, EncodeHeader(c, e, fs[0]).1, AfterHeader(c, e, d, fs[0]), fs[1..])
  }

  /** How the decoder reads `bytes`, the encoding of `fs`. */
  ghost predicate Reads(c: Tables, e: EncoderState, d: DecoderState, fs: seq<Field>, bytes: seq<Byte>, out: seq<Field>)
    requires |c.huffman| == 257
  {
    if BlockReaches(c, e, d, fs) then DecodeFrom(c, d, bytes, out) == (Ok(out + fs), AfterBlock(c, e, d, fs))
    else DecodeFrom(c, d, bytes, out).0 == Err
  }

  lemma {:induction false} BlockReads(c: Tables, e: EncoderState, d: DecoderState, fs: seq<Field>, out: seq<Field>)
    requires ValidTables(c) && Paired(e, d) && ListSize(out + fs) <= MAX_DECODED_HEADER_LIST
    requires forall f :: f in fs ==> ValidText(c, f)
    ensures var (bytes, e') := EncodeBlock(c, e, fs);
            Paired(e', AfterBlock(c, e, d, fs)) && Reads(c, e, d, fs, bytes, out)
    decreases |fs|
  {
    if fs == [] {
      assert out + fs == out;
    } else {
      var (bytes, e0) := EncodeHeader(c, e, fs[0]);
      var more := EncodeBlock(c, e0, fs[1..]).0;
      assert out + fs == (out + [fs[0]]) + fs[1..];
      SizePrefix(out + [fs[0]], out + fs);
      HeaderReads(c, e, d, fs[0], more, out);
      BlockReads(c, e0, AfterHeader(c, e, d, fs[0]), fs[1..], out + [fs[0]]);
    }
  }

  /** Every index that the encoder sends in the run is within the table its decoder holds at that moment. */
  predicate RunReaches(c: Tables, e: EncoderState, d: DecoderState, ops: seq<Op>)
    requires |c.huffman| == 257
    decreases |ops|
  {
    ops != [] ==>
      match ops[0]
      case SetMax(n) => RunReaches(c, SetMaxSize(e, n), d, ops[1..])
      case Send(fs) =>
        BlockReaches(c, e, d, fs) && RunReaches(c, EncodeBlock(c, e, fs).1, AfterBlock(c, e, d, fs), ops[1..])
  }

  /** What a connection can ask of the encoder: sizes are 32-bit numbers. */
  ghost predicate Possible(c: Tables, ops: seq<Op>)
  {
    forall op :: op in ops ==> Admissible(c, op) && (op.SetMax? ==> op.n < 0x1_0000_0000)
  }

  lemma {:induction false} RunReads(c: Tables, e: EncoderState, d: DecoderState, ops: seq<Op>)
    requires ValidTables(c) && Paired(e, d) && Possible(c, ops)
    ensures Received(c, e, d, ops) == Sent(ops) <==> RunReaches(c, e, d, ops)
    decreases |ops|
  {
    if ops != [] {
      match ops[0]
      case SetMax(n) =>
        RunReads(c, SetMaxSize(e, n), d, ops[1..]);
      case Send(fs) =>
        assert Admissible(c, ops[0]) && [] + fs == fs;
        BlockReads(c, e, d, fs, []);
        var (bytes, e') := EncodeBlock(c, e, fs);
        var (r, d') := DecodeBlock(c, d, bytes);
        FirstThenRest(r, Received(c, e', d', ops[1..]), Ok(fs), Sent(ops[1..]));
        if BlockReaches(c, e, d, fs) {
          RunReads(c, e', d', ops[1..]);
        }
    }
  }

  lemma FirstThenRest<T>(a: T, s: seq<T>, b: T, t: seq<T>)
    ensures [a] + s == [b] + t <==> a == b && s == t
  {
    if [a] + s == [b] + t {
      assert ([a] + s)[0] == ([b] + t)[0] && ([a] + s)[1..] == s && ([b] + t)[1..] == t;
    }
  }

  /** A run is recovered if and only if every index in it is within the decoder's reach. */
  lemma RunRecoveredExactly(c: Tables, ops: seq<Op>)
    requires ValidTables(c) && Possible(c, ops)
    ensures Received(c, FRESH_ENCODER, FRESH_DECODER, ops) == Sent(ops)
            <==> RunReaches(c, FRESH_ENCODER, FRESH_DECODER, ops)
  {
    RunReads(c, FRESH_ENCODER, FRESH_DECODER, ops);
  }

  // ----- a condition on the encoder alone -----

  /** The encoder's table never holds more than 4096 octets, whatever its capacity. */
  predicate BlockSlim(c: Tables, e: EncoderState, fs: seq<Field>)
    requires |c.huffman| == 257
    decreases |fs|
  {
    ListSize(e.entries) <= DYN_TABLE_CAP && (fs != [] ==> BlockSlim(c, EncodeHeader(c, e, fs[0]).1, fs[1..]))
  }

  predicate RunSlim(c: Tables, e: EncoderState, ops: seq<Op>)
    requires |c.huffman| == 257
    decreases |ops|
  {
    ops != [] ==>
      match ops[0]
      case SetMax(n) => RunSlim(c, SetMaxSize(e, n), ops[1..])
      case Send(fs) => BlockSlim(c, e, fs) && RunSlim(c, EncodeBlock(c, e, fs).1, ops[1..])
  }

  /** The decoder holds everything the encoder does. */
  ghost predicate Covered(e: EncoderState, d: DecoderState) { Paired(e, d) && e.entries <= d.entries }

  lemma Found(es: seq<Field>, f: Field)
    ensures FindField(es, f, 0).Some? ==> FindField(es, f, 0).value < |es|
    ensures FindName(es, f.name, 0).Some? ==> FindName(es, f.name, 0).value < |es|
  {
  }

  lemma SlimHeader(c: Tables, e: EncoderState, d: DecoderState, f: Field)
    requires ValidTables(c) && Covered(e, d) && ListSize(e.entries) <= DYN_TABLE_CAP
    requires ListSize(EncodeHeader(c, e, f).1.entries) <= DYN_TABLE_CAP
    ensures Reaches(c, e.entries, |AfterUpdate(e, d).entries|, f)
            && Covered(EncodeHeader(c, e, f).1, AfterHeader(c, e, d, f))
  {
    var d0 := AfterUpdate(e, d);
    if e.pending.Some? {
      EvictKeeps(e.entries, d.entries, Min(e.cap, DYN_TABLE_CAP));
    }
    Found(e.entries, f);
    LineKeepsPaired(c, e.(pending := None), d0, f);
    if FullIndex(c, e.entries, f).None? {
      SlimInsert(e.entries, d0.entries, e.cap, f);
    }
  }

  lemma SlimInsert(es: seq<Field>, ds: seq<Field>, cap: nat, f: Field)
    requires es <= ds && ListSize(Insert(es, cap, f)) <= DYN_TABLE_CAP
    ensures Insert(es, cap, f) <= Insert(ds, Min(cap, DYN_TABLE_CAP), f)
  {
    if EntrySize(f) <= cap {
      var kept := Evict(es, cap - EntrySize(f));
      SizeFront(f, kept);
      if EntrySize(f) <= DYN_TABLE_CAP {
        EvictKeeps(kept, ds, Min(cap, DYN_TABLE_CAP) - EntrySize(f));
      }
    }
  }

  lemma {:induction false} SlimBlock(c: Tables, e: EncoderState, d: DecoderState, fs: seq<Field>)
    requires ValidTables(c) && Covered(e, d) && BlockSlim(c, e, fs)
    ensures BlockReaches(c, e, d, fs) && Covered(EncodeBlock(c, e, fs).1, AfterBlock(c, e, d, fs))
    decreases |fs|
  {
    if fs != [] {
      var e0 := EncodeHeader(c, e, fs[0]).1;
      assert BlockSlim(c, e0, fs[1..]);
      SlimHeader(c, e, d, fs[0]);
      SlimBlock(c, e0, AfterHeader(c, e, d, fs[0]), fs[1..]);
    }
  }

  lemma {:induction false} SlimRun(c: Tables, e: EncoderState, d: DecoderState, ops: seq<Op>)
    requires ValidTables(c) && Covered(e, d) && Possible(c, ops) && RunSlim(c, e, ops)
    ensures RunReaches(c, e, d, ops)
    decreases |ops|
  {
    if ops != [] {
      match ops[0]
      case SetMax(n) => SlimRun(c, SetMaxSize(e, n), d, ops[1..]);
      case Send(fs) =>
        SlimBlock(c, e, d, fs);
        SlimRun(c, EncodeBlock(c, e, fs).1, AfterBlock(c, e, d, fs), ops[1..]);
    }
  }

  /** Whatever sizes the peer announces, a run in which the encoder's table stays within 4096 octets is recovered. */
  lemma SlimRunsRecovered(c: Tables, ops: seq<Op>)
    requires ValidTables(c) && Possible(c, ops) && RunSlim(c, FRESH_ENCODER, ops)
    ensures Received(c, FRESH_ENCODER, FRESH_DECODER, ops) == Sent(ops)
  {
    SlimRun(c, FRESH_ENCODER, FRESH_DECODER, ops);
    RunRecoveredExactly(c, ops);
  }
}

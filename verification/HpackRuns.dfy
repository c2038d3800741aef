/** The decoder recovers what the encoder was given, over whole runs of a connection. */
module HpackRuns {
  import opened Common
  import opened Fields
  import opened HpackTable
  import opened Hpack
  import PI = PrefixInteger
  import H = Huffman

  ghost predicate ValidTables(c: Tables)
  {
    |c.fields| < 1000 && H.ValidTable(c.huffman)
  }

  predicate ValidText(c: Tables, f: Field) { c.isText(f.name) && c.isText(f.value) }

  // ----- one string -----

  lemma FlaggedRead(v: nat, p: nat, flag: nat, more: seq<Byte>)
    requires 1 <= p <= 8 && v < U64 && flag + PI.Limit(p) < 256
    requires PI.LowBits(PI.Encode(v, p)[0] + flag, p) == PI.Encode(v, p)[0]
    ensures var e := PI.Encode(v, p);
            PI.DecodeIntSpec(Flagged(e, flag) + more, p) == Ok((v, |e|))
  {
    var e := PI.Encode(v, p);
    PI.RoundTrip(v, p, e[0] + flag, more);
    assert (Flagged(e, flag) + more)[1..] == e[1..] + more;
  }

  lemma PlainRead(v: nat, p: nat, more: seq<Byte>)
    requires 1 <= p <= 8 && v < U64
    ensures var e := PI.Encode(v, p);
            PI.DecodeIntSpec(e + more, p) == Ok((v, |e|))
  {
    var e := PI.Encode(v, p);
    FlaggedRead(v, p, 0, more);
    assert Flagged(e, 0) == e;
  }

  lemma ReadBody(c: Tables, head: seq<Byte>, raw: seq<Byte>, more: seq<Byte>, s: seq<Byte>)
    requires |head| > 0 && c.isText(s)
    requires PI.DecodeIntSpec(head + (raw + more), 7) == Ok((|raw|, |head|))
    requires if head[0] >= 0x80 then HuffmanText(c, raw) == Ok(s) else raw == s
    ensures ReadString(c, head + raw + more) == Ok((s, |head| + |raw|))
  {
    var buf := head + raw + more;
    assert buf == head + (raw + more);
    assert buf[|head|..|head| + |raw|] == raw;
  }

  lemma HuffmanTextRoundTrip(c: Tables, s: seq<Byte>)
    requires ValidTables(c)
    ensures HuffmanText(c, H.EncodeString(c.huffman, s)) == Ok(s)
  {
    H.DecodeEncode(c.huffman, s);
  }

  /** A literal reads back, whichever form the encoder chose. */
  lemma LiteralRoundTrip(c: Tables, s: seq<Byte>, more: seq<Byte>)
    requires ValidTables(c) && c.isText(s) && |s| < U64
    ensures ReadString(c, EncodeLiteral(c, s) + more) == Ok((s, |EncodeLiteral(c, s)|))
  {
    var huff := H.EncodeString(c.huffman, s);
    if |huff| < |s| {
      HuffmanTextRoundTrip(c, s);
      assert EncodeLiteral(c, s) == Flagged(PI.Encode(|huff|, 7), 0x80) + huff;
      CodedReads(c, huff, more, s);
    } else {
      assert EncodeLiteral(c, s) == PI.Encode(|s|, 7) + s;
      PlainReads(c, s, more);
    }
  }

  /** A literal written as it is. */
  lemma PlainReads(c: Tables, s: seq<Byte>, more: seq<Byte>)
    requires c.isText(s) && |s| < U64
    ensures var e := PI.Encode(|s|, 7);
            ReadString(c, e + s + more) == Ok((s, |e| + |s|))
  {
    PlainRead(|s|, 7, s + more);
    ReadBody(c, PI.Encode(|s|, 7), s, more, s);
  }

  /** A Huffman-coded literal, from the code's own round trip. */
  lemma CodedReads(c: Tables, huff: seq<Byte>, more: seq<Byte>, s: seq<Byte>)
    requires |huff| < U64 && c.isText(s) && HuffmanText(c, huff) == Ok(s)
    ensures var e := Flagged(PI.Encode(|huff|, 7), 0x80);
            ReadString(c, e + huff + more) == Ok((s, |e| + |huff|))
  {
    FlaggedRead(|huff|, 7, 0x80, huff + more);
    ReadBody(c, Flagged(PI.Encode(|huff|, 7), 0x80), huff, more, s);
  }

  // ----- one field -----

  /** With no size update pending: equal capacities, and the encoder's table is a prefix of the decoder's. */
  ghost predicate Synced(e: EncoderState, d: DecoderState)
  {
    e.pending.None? && Mirror(e, d)
  }

  /**
   * The invariant of a connection. Equality of the tables is too strong: several size changes
   * collapse into one signal, so the encoder may have evicted more than the decoder has.
   */
  ghost predicate Mirror(e: EncoderState, d: DecoderState)
  {
    && e.entries <= d.entries
    && ListSize(e.entries) <= e.cap <= DYN_TABLE_CAP
    && match e.pending
       case None => e.cap == d.cap
       case Some(n) => n == e.cap
  }

  lemma EntriesBound(e: EncoderState, d: DecoderState)
    requires Mirror(e, d)
    ensures |e.entries| <= 128
  {
    SizePrefix([], e.entries);
  }

  lemma IndexedStep(c: Tables, d: DecoderState, idx: nat, f: Field, more: seq<Byte>)
    requires idx < U64 && Lookup(c, d.entries, idx) == Ok(f)
    ensures var bytes := Flagged(PI.Encode(idx, 7), 0x80);
            DecodeStep(c, d, bytes + more) == Line(f, |bytes|, d)
  {
    FlaggedRead(idx, 7, 0x80, more);
  }

  lemma ThreeParts(head: seq<Byte>, name: seq<Byte>, value: seq<Byte>, more: seq<Byte>)
    ensures var buf := head + name + value + more;
            && buf == head + (name + value + more)
            && buf[|head|..] == name + value + more
            && buf[|head| + |name|..] == value + more
  {
  }

  /** A field in three parts: name index (0 for a literal name), literal name if any, literal value. */
  lemma ReadFieldParts(c: Tables, d: DecoderState, p: nat, idx: nat, head: seq<Byte>, name: seq<Byte>,
                       value: seq<Byte>, more: seq<Byte>, f: Field)
    requires 1 <= p <= 8 && |head| > 0
    requires PI.DecodeIntSpec(head + (name + value + more), p) == Ok((idx, |head|))
    requires ReadName(c, d, idx, name + value + more) == Ok((f.name, |name|))
    requires ReadString(c, value + more) == Ok((f.value, |value|))
    ensures ReadField(c, d, head + name + value + more, p) == Ok((f, |head + name + value|))
  {
    ThreeParts(head, name, value, more);
  }

  lemma LiteralStep(c: Tables, d: DecoderState, buf: seq<Byte>, f: Field, n: nat)
    requires buf != [] && 0x40 <= buf[0] < 0x80 && ReadField(c, d, buf, 6) == Ok((f, n))
    ensures DecodeStep(c, d, buf) == Line(f, n, d.(entries := Insert(d.entries, d.cap, f)))
  {
  }

  lemma NameIndexStep(c: Tables, d: DecoderState, idx: nat, f: Field, value: seq<Byte>, more: seq<Byte>)
    requires 0 < idx < U64 && Lookup(c, d.entries, idx).Ok? && Lookup(c, d.entries, idx).value.name == f.name
    requires ReadString(c, value + more) == Ok((f.value, |value|))
    ensures var bytes := Flagged(PI.Encode(idx, 6), 0x40) + value;
            DecodeStep(c, d, bytes + more) == Line(f, |bytes|, d.(entries := Insert(d.entries, d.cap, f)))
  {
    var head := Flagged(PI.Encode(idx, 6), 0x40);
    FlaggedRead(idx, 6, 0x40, [] + value + more);
    ReadFieldParts(c, d, 6, idx, head, [], value, more, f);
    assert head + [] == head;
    LiteralStep(c, d, head + value + more, f, |head + value|);
  }

  lemma LiteralNameStep(c: Tables, d: DecoderState, f: Field, name: seq<Byte>, value: seq<Byte>, more: seq<Byte>)
    requires ReadString(c, name + (value + more)) == Ok((f.name, |name|))
    requires ReadString(c, value + more) == Ok((f.value, |value|))
    ensures var bytes := [0x40] + name + value;
            DecodeStep(c, d, bytes + more) == Line(f, |bytes|, d.(entries := Insert(d.entries, d.cap, f)))
  {
    var tail := name + value + more;
    FlaggedRead(0, 6, 0x40, tail);
    assert Flagged(PI.Encode(0, 6), 0x40) == [0x40];
    assert tail == name + (value + more);
    ReadFieldParts(c, d, 6, 0, [0x40], name, value, more, f);
    LiteralStep(c, d, [0x40] + name + value + more, f, |[0x40] + name + value|);
  }

  /** The decoder's table after the line that encodes `f`. */
  function AfterLine(c: Tables, e: EncoderState, d: DecoderState, f: Field): DecoderState
  {
    if FullIndex(c, e.entries, f).Some? then d else d.(entries := Insert(d.entries, d.cap, f))
  }

  /** Reading a line back needs only that the encoder's table is a prefix of the decoder's. */
  lemma LineDecodes(c: Tables, e: EncoderState, d: DecoderState, f: Field, more: seq<Byte>)
    requires ValidTables(c) && e.entries <= d.entries && |e.entries| < 0x1_0000_0000
    requires ValidText(c, f) && EntrySize(f) <= MAX_DECODED_HEADER_LIST
    ensures var bytes := EncodeLine(c, e, f).0;
            |bytes| > 0 && DecodeStep(c, d, bytes + more) == Line(f, |bytes|, AfterLine(c, e, d, f))
  {
    var full, name := FullIndex(c, e.entries, f), NameIndex(c, e.entries, f.name);
    if full.Some? {
      IndexedStep(c, d, full.value, f, more);
    } else {
      var value := EncodeLiteral(c, f.value);
      LiteralRoundTrip(c, f.value, more);
      if name.Some? {
        NameIndexStep(c, d, name.value, f, value, more);
      } else {
        LiteralRoundTrip(c, f.name, value + more);
        LiteralNameStep(c, d, f, EncodeLiteral(c, f.name), value, more);
      }
    }
  }

  lemma LineKeepsSync(c: Tables, e: EncoderState, d: DecoderState, f: Field)
    requires ValidTables(c) && Synced(e, d)
    ensures Synced(EncodeLine(c, e, f).1, AfterLine(c, e, d, f))
  {
    InsertMonotone(e.entries, d.entries, e.cap, f);
    InsertFits(e.entries, e.cap, f);
  }

  /** A pending size update is read first and brings both capacities together. */
  lemma UpdateAgrees(c: Tables, e: EncoderState, d: DecoderState, more: seq<Byte>, out: seq<Field>)
      returns (d': DecoderState)
    requires Mirror(e, d)
    ensures Synced(e.(pending := None), d')
    ensures DecodeFrom(c, d, SizeUpdate(e.pending) + more, out) == DecodeFrom(c, d', more, out)
  {
    if e.pending.None? {
      d' := d;
      assert SizeUpdate(e.pending) + more == more;
    } else {
      var n := e.cap;
      var bytes := Flagged(PI.Encode(n, 5), 0x20);
      FlaggedRead(n, 5, 0x20, more);
      EvictKeeps(e.entries, d.entries, n);
      d' := Dec(Evict(d.entries, n), n);
      assert DecodeStep(c, d, bytes + more) == Resize(|bytes|, d');
      assert (bytes + more)[|bytes|..] == more;
    }
  }

  lemma HeaderAgrees(c: Tables, e: EncoderState, d: DecoderState, f: Field, more: seq<Byte>, out: seq<Field>)
    returns (d': DecoderState)
    requires ValidTables(c) && Mirror(e, d) && ValidText(c, f) && ListSize(out + [f]) <= MAX_DECODED_HEADER_LIST
    ensures var (bytes, e') := EncodeHeader(c, e, f);
            && Synced(e', d')
            && DecodeFrom(c, d, bytes + more, out) == DecodeFrom(c, d', more, out + [f])
  {
    assert (out + [f])[..|out|] == out;
    var e0 := e.(pending := None);
    var line := EncodeLine(c, e0, f).0;
    var d0 := UpdateAgrees(c, e, d, line + more, out);
    EntriesBound(e0, d0);
    LineDecodes(c, e0, d0, f, more);
    LineKeepsSync(c, e0, d0, f);
    d' := AfterLine(c, e0, d0, f);
    assert (line + more)[|line|..] == more;
    assert SizeUpdate(e.pending) + line + more == SizeUpdate(e.pending) + (line + more);
  }

  // ----- one block, then whole runs -----

  lemma {:induction false} BlockAgrees(c: Tables, e: EncoderState, d: DecoderState, fs: seq<Field>, out: seq<Field>)
    returns (d': DecoderState)
    requires ValidTables(c) && Mirror(e, d) && ListSize(out + fs) <= MAX_DECODED_HEADER_LIST
    requires forall f :: f in fs ==> ValidText(c, f)
    ensures var (bytes, e') := EncodeBlock(c, e, fs);
            Mirror(e', d') && DecodeFrom(c, d, bytes, out) == (Ok(out + fs), d')
    decreases |fs|
  {
    if fs == [] {
      d' := d;
      assert out + fs == out;
    } else {
      var (bytes, e0) := EncodeHeader(c, e, fs[0]);
      var more := EncodeBlock(c, e0, fs[1..]).0;
      assert out + fs == (out + [fs[0]]) + fs[1..];
      SizePrefix(out + [fs[0]], out + fs);
      var d0 := HeaderAgrees(c, e, d, fs[0], more, out);
      d' := BlockAgrees(c, e0, d0, fs[1..], out + [fs[0]]);
    }
  }

  /** What happens to an encoder during a connection. */
  datatype Op = SetMax(n: nat) | Send(fields: seq<Field>)

  /** A header list the client can send and that fits the decoder's list cap. */
  predicate Admissible(c: Tables, op: Op)
  {
    op.Send? ==> ListSize(op.fields) <= MAX_DECODED_HEADER_LIST && forall f :: f in op.fields ==> ValidText(c, f)
  }

  /** Feeds every block the encoder emits to the decoder. */
  ghost function Received(c: Tables, e: EncoderState, d: DecoderState, ops: seq<Op>): seq<Result<seq<Field>>>
    requires |c.huffman| == 257
    decreases |ops|
  {
    if ops == [] then []
    else match ops[0]
         case SetMax(n) => Received(c, SetMaxSize(e, n), d, ops[1..])
         case Send(fs) =>
           var (bytes, e') := EncodeBlock(c, e, fs);
           var (r, d') := DecodeBlock(c, d, bytes);
           [r] + Received(c, e', d', ops[1..])
  }

  function Sent(ops: seq<Op>): seq<Result<seq<Field>>>
  {
    if ops == [] then []
    else (if ops[0].Send? then [Ok(ops[0].fields)] else []) + Sent(ops[1..])
  }

  lemma {:induction false} RunAgrees(c: Tables, e: EncoderState, d: DecoderState, ops: seq<Op>)
    requires ValidTables(c) && Mirror(e, d)
    requires forall op :: op in ops ==> Admissible(c, op) && (op.SetMax? ==> op.n <= DYN_TABLE_CAP)
    ensures Received(c, e, d, ops) == Sent(ops)
    decreases |ops|
  {
    if ops != [] {
      match ops[0]
      case SetMax(n) =>
        RunAgrees(c, SetMaxSize(e, n), d, ops[1..]);
      case Send(fs) =>
        assert Admissible(c, ops[0]) && [] + fs == fs;
        var d' := BlockAgrees(c, e, d, fs, []);
        RunAgrees(c, EncodeBlock(c, e, fs).1, d', ops[1..]);
    }
  }

  const FRESH_ENCODER: EncoderState := Enc([], DYN_TABLE_CAP, None)
  const FRESH_DECODER: DecoderState := Dec([], DYN_TABLE_CAP)

  /** A run whose size changes stay within `bound`. */
  ghost predicate Bounded(c: Tables, ops: seq<Op>, bound: nat)
  {
    forall op :: op in ops ==> Admissible(c, op) && (op.SetMax? ==> op.n <= bound)
  }

  /**
   * For any sequence of header blocks interleaved with any number of size changes up to 4096, the
   * decoder recovers exactly the encoded lists.
   */
  lemma RunsRecovered(c: Tables, ops: seq<Op>)
    requires ValidTables(c) && Bounded(c, ops, DYN_TABLE_CAP)
    ensures Received(c, FRESH_ENCODER, FRESH_DECODER, ops) == Sent(ops)
  {
    RunAgrees(c, FRESH_ENCODER, FRESH_DECODER, ops);
  }

  // ----- beyond 4096 the two tables part -----

  ghost predicate Recovers(c: Tables, bound: nat)
    requires |c.huffman| == 257
  {
    forall ops :: Bounded(c, ops, bound) ==> Received(c, FRESH_ENCODER, FRESH_DECODER, ops) == Sent(ops)
  }

  /** Two fields that fit together in 4097 octets but not in 4096. */
  predicate Witnesses(c: Tables, a: Field, b: Field)
  {
    && ValidText(c, a) && ValidText(c, b) && a != b && a !in c.fields && b !in c.fields
    && EntrySize(a) == 2048 && EntrySize(b) == 2049
  }

  lemma NotIndexed(c: Tables, es: seq<Field>, f: Field)
    requires f !in c.fields && f !in es
    ensures FullIndex(c, es, f) == None
  {
    assert c.fields[0..] == c.fields && es[0..] == es;
  }

  /** A field that neither table holds is inserted by both sides. */
  lemma NewLine(c: Tables, e: EncoderState, d: DecoderState, f: Field, more: seq<Byte>, out: seq<Field>)
    requires ValidTables(c) && e.pending.None? && e.entries <= d.entries && |e.entries| < 0x1_0000_0000
    requires ValidText(c, f) && f !in c.fields && f !in e.entries && ListSize(out + [f]) <= MAX_DECODED_HEADER_LIST
    ensures var (bytes, e') := EncodeHeader(c, e, f);
            && e' == e.(entries := Insert(e.entries, e.cap, f))
            && DecodeFrom(c, d, bytes + more, out)
               == DecodeFrom(c, d.(entries := Insert(d.entries, d.cap, f)), more, out + [f])
  {
    NotIndexed(c, e.entries, f);
    assert (out + [f])[..|out|] == out;
    LineDecodes(c, e, d, f, more);
    var bytes := EncodeLine(c, e, f).0;
    assert (bytes + more)[|bytes|..] == more && [] + bytes == bytes;
  }

  /** The encoder still indexes an entry the decoder has evicted. */
  lemma EvictedLine(c: Tables, e: EncoderState, d: DecoderState, a: Field, b: Field, out: seq<Field>)
    requires ValidTables(c) && a != b && a !in c.fields
    requires e.pending.None? && e.entries == [b, a] && d.entries == [b]
    ensures DecodeFrom(c, d, EncodeHeader(c, e, a).0, out).0 == Err
  {
    NotIndexed(c, [], a);
    assert FindField([b, a], a, 1) == Some(1);
    var idx := |c.fields| + 2;
    var bytes := Flagged(PI.Encode(idx, 7), 0x80);
    assert FullIndex(c, e.entries, a) == Some(idx);
    FlaggedRead(idx, 7, 0x80, []);
    assert bytes + [] == bytes && [] + bytes == bytes;
  }

  lemma InsertTwo(a: Field, b: Field, cap: nat)
    requires EntrySize(a) == 2048 && EntrySize(b) == 2049 && cap >= 4096
    ensures Insert([], cap, a) == [a]
    ensures Insert([a], cap, b) == if cap > 4096 then [b, a] else [b]
  {
    assert ListSize([a]) == 2048 by { SizeFront(a, []); assert [a] + [] == [a]; }
    assert [a][..0] == [];
  }

  /** A size update larger than the decoder's cap changes nothing for a fresh decoder. */
  lemma UpdateIsClamped(c: Tables, n: nat, rest: seq<Byte>)
    requires DYN_TABLE_CAP < n < U64
    ensures DecodeFrom(c, FRESH_DECODER, SizeUpdate(Some(n)) + rest, []) == DecodeFrom(c, FRESH_DECODER, rest, [])
  {
    var bytes := SizeUpdate(Some(n));
    FlaggedRead(n, 5, 0x20, rest);
    assert DecodeStep(c, FRESH_DECODER, bytes + rest) == Resize(|bytes|, FRESH_DECODER);
    assert (bytes + rest)[|bytes|..] == rest;
  }

  /** The lines for a, b, a, from an encoder whose table is larger than the decoder's. */
  lemma ThreeLinesBreak(c: Tables, e0: EncoderState, a: Field, b: Field)
    requires ValidTables(c) && Witnesses(c, a, b) && e0.pending.None? && e0.entries == [] && e0.cap > DYN_TABLE_CAP
    ensures var e1, e2 := e0.(entries := [a]), e0.(entries := [b, a]);
            DecodeFrom(c, FRESH_DECODER, EncodeHeader(c, e0, a).0
                       + (EncodeHeader(c, e1, b).0 + EncodeHeader(c, e2, a).0), []).0 == Err
  {
    var e1, e2 := e0.(entries := [a]), e0.(entries := [b, a]);
    InsertTwo(a, b, e0.cap);
    InsertTwo(a, b, DYN_TABLE_CAP);
    SmallLists(a, b);
    assert ([] + [a]) + [b] == [a, b];
    var last := EncodeHeader(c, e2, a).0;
    NewLine(c, e0, FRESH_DECODER, a, EncodeHeader(c, e1, b).0 + last, []);
    NewLine(c, e1, Dec([a], DYN_TABLE_CAP), b, last, [] + [a]);
    EvictedLine(c, e2, Dec([b], DYN_TABLE_CAP), a, b, [a, b]);
  }

  /** Raising the table size above 4096, then sending a, b, a: the decoder rejects the block. */
  lemma OverlargeTableBreaks(c: Tables, n: nat, a: Field, b: Field)
    requires ValidTables(c) && Witnesses(c, a, b) && DYN_TABLE_CAP < n < U64
    ensures DecodeBlock(c, FRESH_DECODER, EncodeBlock(c, SetMaxSize(FRESH_ENCODER, n), [a, b, a]).0).0 == Err
  {
    var e := SetMaxSize(FRESH_ENCODER, n);
    var e0 := e.(pending := None);
    var e1, e2 := e0.(entries := [a]), e0.(entries := [b, a]);
    var lines := EncodeHeader(c, e0, a).0 + (EncodeHeader(c, e1, b).0 + EncodeHeader(c, e2, a).0);
    InsertTwo(a, b, n);
    BlockOfThree(c, e, a, b);
    UpdateIsClamped(c, n, lines);
    ThreeLinesBreak(c, e0, a, b);
  }

  lemma SmallLists(a: Field, b: Field)
    requires EntrySize(a) == 2048 && EntrySize(b) == 2049
    ensures ListSize([] + [a]) == 2048 && ListSize([a] + [b]) == 4097 && ListSize([a, b, a]) == 6145
  {
    assert ([] + [a])[..0] == [] && ([a] + [b])[..1] == [] + [a] && [a, b, a][..2] == [a] + [b];
  }

  lemma OneLineBlock(c: Tables, e: EncoderState, f: Field)
    requires |c.huffman| == 257
    ensures EncodeBlock(c, e, [f]).0 == EncodeHeader(c, e, f).0
  {
    assert [f][1..] == [];
    assert EncodeHeader(c, e, f).0 + [] == EncodeHeader(c, e, f).0;
  }

  lemma TwoLineBlock(c: Tables, e: EncoderState, f: Field, g: Field, e1: EncoderState)
    requires |c.huffman| == 257 && EncodeHeader(c, e, f).1 == e1
    ensures EncodeBlock(c, e, [f, g]).0 == EncodeHeader(c, e, f).0 + EncodeHeader(c, e1, g).0
  {
    OneLineBlock(c, e1, g);
    assert [f, g][1..] == [g];
  }

  /** What a field that is in neither table does to an encoder without a pending update. */
  lemma NewHeader(c: Tables, e: EncoderState, f: Field)
    requires |c.huffman| == 257 && e.pending.None? && f !in c.fields && f !in e.entries
    ensures EncodeHeader(c, e, f).1 == e.(entries := Insert(e.entries, e.cap, f))
  {
    NotIndexed(c, e.entries, f);
  }

  /** A pending update only goes in front. */
  lemma PendingHeader(c: Tables, e: EncoderState, f: Field)
    requires |c.huffman| == 257 && e.pending.Some?
    ensures var (bytes, e1) := EncodeHeader(c, e.(pending := None), f);
            EncodeHeader(c, e, f) == (SizeUpdate(e.pending) + bytes, e1)
  {
    assert SizeUpdate(None) + EncodeLine(c, e.(pending := None), f).0 == EncodeLine(c, e.(pending := None), f).0;
  }

  /** The block for a, b, a behind a pending size update, piece by piece. */
  lemma BlockOfThree(c: Tables, e: EncoderState, a: Field, b: Field)
    requires |c.huffman| == 257 && e.pending.Some? && a !in c.fields && b !in c.fields && a != b
    requires e.entries == [] && Insert([], e.cap, a) == [a] && Insert([a], e.cap, b) == [b, a]
    ensures var e0 := e.(pending := None);
            var e1, e2 := e0.(entries := [a]), e0.(entries := [b, a]);
            EncodeBlock(c, e, [a, b, a]).0
            == SizeUpdate(e.pending)
              + (EncodeHeader(c, e0, a).0 + (EncodeHeader(c, e1, b).0 + EncodeHeader(c, e2, a).0))
  {
    var e0 := e.(pending := None);
    var e1, e2 := e0.(entries := [a]), e0.(entries := [b, a]);
    PendingHeader(c, e, a);
    NewHeader(c, e0, a);
    NewHeader(c, e1, b);
    TwoLineBlock(c, e1, b, a, e2);
    assert [a, b, a][1..] == [b, a];
    Regroup(SizeUpdate(e.pending), EncodeHeader(c, e0, a).0, EncodeHeader(c, e1, b).0 + EncodeHeader(c, e2, a).0);
  }

  lemma Regroup(x: seq<Byte>, y: seq<Byte>, z: seq<Byte>)
    ensures x + y + z == x + (y + z)
  {
  }

  lemma LargerBoundFails(c: Tables, bound: nat, a: Field, b: Field)
    requires ValidTables(c) && Witnesses(c, a, b) && bound > DYN_TABLE_CAP
    ensures !Recovers(c, bound)
  {
    SmallLists(a, b);
    PairBreaks(c, a, b);
    BoundedPair(c, 4097, [a, b, a], bound);
    NotRecovered(c, bound, [SetMax(4097), Send([a, b, a])]);
  }

  lemma PairBreaks(c: Tables, a: Field, b: Field)
    requires ValidTables(c) && Witnesses(c, a, b)
    ensures var ops := [SetMax(4097), Send([a, b, a])];
            Received(c, FRESH_ENCODER, FRESH_DECODER, ops) != Sent(ops)
  {
    OverlargeTableBreaks(c, 4097, a, b);
    BrokenRun(c, 4097, [a, b, a]);
  }

  lemma NotRecovered(c: Tables, bound: nat, ops: seq<Op>)
    requires |c.huffman| == 257 && Bounded(c, ops, bound)
    requires Received(c, FRESH_ENCODER, FRESH_DECODER, ops) != Sent(ops)
    ensures !Recovers(c, bound)
  {
  }

  lemma BoundedPair(c: Tables, n: nat, fs: seq<Field>, bound: nat)
    requires Admissible(c, SetMax(n)) && Admissible(c, Send(fs)) && n <= bound
    ensures Bounded(c, [SetMax(n), Send(fs)], bound)
  {
    forall op | op in [SetMax(n), Send(fs)]
      ensures Admissible(c, op) && (op.SetMax? ==> op.n <= bound)
    {
    }
  }

  /** The exact bound: every run with size changes up to `bound` is recovered just when `bound` is at most 4096. */
  lemma RecoversExactly(c: Tables, bound: nat, a: Field, b: Field)
    requires ValidTables(c) && Witnesses(c, a, b)
    ensures Recovers(c, bound) <==> bound <= DYN_TABLE_CAP
  {
    if bound <= DYN_TABLE_CAP {
      forall ops | Bounded(c, ops, bound)
        ensures Received(c, FRESH_ENCODER, FRESH_DECODER, ops) == Sent(ops)
      {
        RunsRecovered(c, ops);
      }
    } else {
      LargerBoundFails(c, bound, a, b);
    }
  }

  lemma BrokenRun(c: Tables, n: nat, fs: seq<Field>)
    requires |c.huffman| == 257
    requires DecodeBlock(c, FRESH_DECODER, EncodeBlock(c, SetMaxSize(FRESH_ENCODER, n), fs).0).0 == Err
    ensures Received(c, FRESH_ENCODER, FRESH_DECODER, [SetMax(n), Send(fs)]) != Sent([SetMax(n), Send(fs)])
  {
    var ops := [SetMax(n), Send(fs)];
    assert ops[1..] == [Send(fs)] && ops[1..][1..] == [];
    var (bytes, e') := EncodeBlock(c, SetMaxSize(FRESH_ENCODER, n), fs);
    var (r, d') := DecodeBlock(c, FRESH_DECODER, bytes);
    assert Received(c, SetMaxSize(FRESH_ENCODER, n), FRESH_DECODER, ops[1..])[0] == Err;
    assert Sent(ops[1..])[0] == Ok(fs);
  }
}

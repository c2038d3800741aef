/** The HPACK encoder and decoder (RFC 7541) as functions of their state. */
module Hpack {
  import opened Common
  import opened Fields
  import opened HpackTable
  import PI = PrefixInteger
  import H = Huffman

  /** The largest dynamic table the decoder accepts. */
  const DYN_TABLE_CAP: nat := 4096

  datatype DecoderState = Dec(entries: seq<Field>, cap: nat)

  /** `pending` is a size update not yet written to the peer. */
  datatype EncoderState = Enc(entries: seq<Field>, cap: nat, pending: Option<nat>)

  /** The constants both sides share: static table, Huffman code, and what counts as valid text. */
  datatype Tables = Tables(fields: seq<Field>, huffman: H.Table, isText: seq<Byte> -> bool)

  // ----- string literals (section 5.2) -----

  /** The shorter of the raw and Huffman forms; a tie goes to raw. */
  function EncodeLiteral(c: Tables, s: seq<Byte>): (out: seq<Byte>)
    requires |c.huffman| == 257
    ensures |out| > 0
  {
    var huff := H.EncodeString(c.huffman, s);
    if |huff| < |s| then Flagged(PI.Encode(|huff|, 7), 0x80) + huff
    else PI.Encode(|s|, 7) + s
  }

  /** Sets flag bits above the prefix of an encoded integer. */
  function Flagged(e: seq<Byte>, flag: nat): (r: seq<Byte>)
    requires |e| > 0 && e[0] + flag < 256
    ensures |r| == |e|
  {
    [e[0] + flag] + e[1..]
  }

  /** Reads a literal at the head of `buf`; the second component counts the bytes used. */
  ghost function ReadString(c: Tables, buf: seq<Byte>): (r: Result<(seq<Byte>, nat)>)
    ensures r.Ok? ==> 0 < r.value.1 <= |buf|
  {
    match PI.DecodeIntSpec(buf, 7)
    case Err => Err
    case Ok((len, consumed)) =>
      if consumed + len > |buf| then Err
      else
        var raw := buf[consumed..consumed + len];
        var text := if buf[0] >= 0x80 then HuffmanText(c, raw) else Ok(raw);
        if text.Ok? && c.isText(text.value) then Ok((text.value, consumed + len)) else Err
  }

  ghost function HuffmanText(c: Tables, raw: seq<Byte>): Result<seq<Byte>>
  {
    if H.Sized(c.huffman) then H.DecodeString(c.huffman, raw) else Err
  }

  // ----- decoder -----

  /** Index 0 is invalid; then come the static entries, then the dynamic ones, newest first. */
  function Lookup(c: Tables, es: seq<Field>, index: nat): Result<Field>
  {
    if index == 0 then Err
    else if index <= |c.fields| then Ok(c.fields[index - 1])
    else if index - |c.fields| - 1 >= |es| then Err
    else Ok(es[index - |c.fields| - 1])
  }

  /** One representation of a header block. */
  datatype Step = Line(field: Field, used: nat, after: DecoderState) | Resize(used: nat, after: DecoderState) | Bad

  ghost function DecodeStep(c: Tables, d: DecoderState, buf: seq<Byte>): (r: Step)
    requires buf != []
    ensures !r.Bad? ==> 0 < r.used <= |buf|
  {
    if buf[0] >= 0x80 then
      match PI.DecodeIntSpec(buf, 7)
      case Err => Bad
      case Ok((idx, n)) =>
        var f := Lookup(c, d.entries, idx);
        if f.Ok? then Line(f.value, n, d) else Bad
    else if buf[0] >= 0x40 then
      match ReadField(c, d, buf, 6)
      case Err => Bad
      case Ok((f, n)) => Line(f, n, d.(entries := Insert(d.entries, d.cap, f)))
    else if buf[0] >= 0x20 then
      match PI.DecodeIntSpec(buf, 5)
      case Err => Bad
      case Ok((size, n)) =>
        var cap := Min(size, DYN_TABLE_CAP);
        Resize(n, Dec(Evict(d.entries, cap), cap))
    else
      match ReadField(c, d, buf, 4)
      case Err => Bad
      case Ok((f, n)) => Line(f, n, d)
  }

  /** A literal representation: a name index or a literal name, then a literal value. */
  ghost function ReadField(c: Tables, d: DecoderState, buf: seq<Byte>, prefixBits: nat): (r: Result<(Field, nat)>)
    requires 1 <= prefixBits <= 8
    ensures r.Ok? ==> 0 < r.value.1 <= |buf|
  {
    match PI.DecodeIntSpec(buf, prefixBits)
    case Err => Err
    case Ok((idx, n)) => ReadTexts(c, d, buf, idx, n)
  }

  /** The texts of a literal representation whose index took the first `n` bytes of `buf`. */
  ghost function ReadTexts(c: Tables, d: DecoderState, buf: seq<Byte>, idx: nat, n: nat): (r: Result<(Field, nat)>)
    requires 0 < n <= |buf|
    ensures r.Ok? ==> 0 < r.value.1 <= |buf|
  {
    match ReadName(c, d, idx, buf[n..])
    case Err => Err
    case Ok((name, m)) =>
      match ReadString(c, buf[n + m..])
      case Err => Err
      case Ok((value, k)) => Ok((Field(name, value), n + m + k))
  }

  ghost function ReadName(c: Tables, d: DecoderState, idx: nat, buf: seq<Byte>): (r: Result<(seq<Byte>, nat)>)
    ensures r.Ok? ==> r.value.1 <= |buf|
  {
    if idx == 0 then ReadString(c, buf)
    else
      var f := Lookup(c, d.entries, idx);
      if f.Ok? then Ok((f.value.name, 0)) else Err
  }

  /** Decodes the rest of a block after `out`; the state is what the table holds even on failure. */
  ghost function DecodeFrom(c: Tables, d: DecoderState, buf: seq<Byte>,
                            out: seq<Field>): (Result<seq<Field>>, DecoderState)
    decreases |buf|
  {
    if buf == [] then (Ok(out), d)
    else
      match DecodeStep(c, d, buf)
      case Bad => (Err, d)
      case Resize(used, after) => DecodeFrom(c, after, buf[used..], out)
      case Line(f, used, after) =>
        if ListSize(out + [f]) > MAX_DECODED_HEADER_LIST then (Err, after)
        else DecodeFrom(c, after, buf[used..], out + [f])
  }

  ghost function DecodeBlock(c: Tables, d: DecoderState, buf: seq<Byte>): (Result<seq<Field>>, DecoderState)
  {
    DecodeFrom(c, d, buf, [])
  }

  // ----- encoder -----

  /** Evicts at once and leaves the size update for the next header. */
  function SetMaxSize(e: EncoderState, n: nat): EncoderState
  {
    Enc(Evict(e.entries, n), n, Some(n))
  }

  /** Combined index of an equal field: static table first, then newest to oldest. */
  function FullIndex(c: Tables, es: seq<Field>, f: Field): Option<nat>
  {
    match FindField(c.fields, f, 0)
    case Some(i) => Some(i + 1)
    case None =>
      match FindField(es, f, 0)
      case Some(i) => Some(|c.fields| + 1 + i)
      case None => None
  }

  function NameIndex(c: Tables, es: seq<Field>, name: seq<Byte>): Option<nat>
  {
    match FindName(c.fields, name, 0)
    case Some(i) => Some(i + 1)
    case None =>
      match FindName(es, name, 0)
      case Some(i) => Some(|c.fields| + 1 + i)
      case None => None
  }

  function SizeUpdate(pending: Option<nat>): seq<Byte>
  {
    match pending
    case Some(n) => Flagged(PI.Encode(n, 5), 0x20)
    case None => []
  }

  /** The representation of one field against the current table, and the table after it. */
  function EncodeLine(c: Tables, e: EncoderState, f: Field): (seq<Byte>, EncoderState)
    requires |c.huffman| == 257
  {
    match FullIndex(c, e.entries, f)
    case Some(i) => (Flagged(PI.Encode(i, 7), 0x80), e)
    case None =>
      var after := e.(entries := Insert(e.entries, e.cap, f));
      match NameIndex(c, e.entries, f.name)
      case Some(i) => (Flagged(PI.Encode(i, 6), 0x40) + EncodeLiteral(c, f.value), after)
      case None => ([0x40] + EncodeLiteral(c, f.name) + EncodeLiteral(c, f.value), after)
  }

  function EncodeHeader(c: Tables, e: EncoderState, f: Field): (seq<Byte>, EncoderState)
    requires |c.huffman| == 257
  {
    var (bytes, after) := EncodeLine(c, e.(pending := None), f);
    (SizeUpdate(e.pending) + bytes, after)
  }

  function EncodeBlock(c: Tables, e: EncoderState, fs: seq<Field>): (seq<Byte>, EncoderState)
    requires |c.huffman| == 257
    decreases |fs|
  {
    if fs == [] then ([], e)
    else
      var (bytes, after) := EncodeHeader(c, e, fs[0]);
      var (more, last) := EncodeBlock(c, after, fs[1..]);
      (bytes + more, last)
  }
}

/** HTTP/1.1 message bodies (sections 6 and 7 of RFC 9112): where a body ends and what it contains. */
module Http1Body {
  import opened Common
  import opened Fields
  import opened StaticTables

  type Bytes = seq<Byte>

  const LF: Byte := 0x0A
  const CR: Byte := 0x0D
  const SEMICOLON: Byte := 0x3B
  const COMMA: Byte := 0x2C
  const PLUS: Byte := 0x2B
  const CRLF: Bytes := [CR, LF]

  const MAX_HEADER_BYTES: nat := 65536
  const MAX_BODY_BYTES: nat := 0x1000_0000

  // ----- lines -----

  /** Length of the first line with its terminator, or of everything when there is none. */
  function LineEnd(data: Bytes): (n: nat)
    ensures n <= |data| && (n == 0 <==> data == [])
  {
    if data == [] then 0 else if data[0] == LF then 1 else 1 + LineEnd(data[1..])
  }

  lemma {:induction false} LineEndMeans(data: Bytes, i: nat)
    requires i < LineEnd(data)
    ensures i < LineEnd(data) - 1 ==> data[i] != LF
    ensures i == LineEnd(data) - 1 ==> data[i] == LF || LineEnd(data) == |data|
  {
    if data[0] != LF && i > 0 {
      LineEndMeans(data[1..], i - 1);
    }
  }

  /** A line of at most `max` bytes before its terminator; without a terminator, all of at most `max` bytes. */
  function ReadLine(data: Bytes, max: nat): (r: Result<(Bytes, Bytes)>)
    ensures r.Ok? ==> |r.value.0| + |r.value.1| == |data| && (data != [] ==> |r.value.0| > 0)
  {
    var n := LineEnd(data);
    if n > 0 && data[n - 1] == LF then (if n <= max + 1 then Ok((data[..n], data[n..])) else Err)
    else if |data| <= max then Ok((data, [])) else Err
  }

  predicate LineBreak(b: Byte) { b == CR || b == LF }

  /** Without trailing line breaks. */
  function TrimEnd(s: Bytes): (r: Bytes)
    ensures r <= s
  {
    if s != [] && LineBreak(s[|s| - 1]) then TrimEnd(s[..|s| - 1]) else s
  }

  // the encodings in UTF-8 of the characters with the Unicode property White_Space, by length

  predicate White1(a: Byte) { 9 <= a <= 13 || a == 32 }

  predicate White2(a: Byte, b: Byte) { a == 0xC2 && (b == 0x85 || b == 0xA0) }

  predicate White3(a: Byte, b: Byte, c: Byte)
  {
    || (a == 0xE1 && b == 0x9A && c == 0x80)
    || (a == 0xE2 && b == 0x80 && (0x80 <= c <= 0x8A || c == 0xA8 || c == 0xA9 || c == 0xAF))
    || (a == 0xE2 && b == 0x81 && c == 0x9F)
    || (a == 0xE3 && b == 0x80 && c == 0x80)
  }

  /** Length of the white space character `s` starts with, or 0. */
  function WhiteHead(s: Bytes): (n: nat)
    ensures n <= |s|
  {
    if |s| >= 1 && White1(s[0]) then 1
    else if |s| >= 2 && White2(s[0], s[1]) then 2
    else if |s| >= 3 && White3(s[0], s[1], s[2]) then 3
    else 0
  }

  /** Length of the white space character `s` ends with, or 0. */
  function WhiteTail(s: Bytes): (n: nat)
    ensures n <= |s|
  {
    var k := |s|;
    if k >= 1 && White1(s[k - 1]) then 1
    else if k >= 2 && White2(s[k - 2], s[k - 1]) then 2
    else if k >= 3 && White3(s[k - 3], s[k - 2], s[k - 1]) then 3
    else 0
  }

  function TrimLeft(s: Bytes): Bytes
    decreases |s|
  {
    if WhiteHead(s) > 0 then TrimLeft(s[WhiteHead(s)..]) else s
  }

  function TrimRight(s: Bytes): Bytes
    decreases |s|
  {
    if WhiteTail(s) > 0 then TrimRight(s[..|s| - WhiteTail(s)]) else s
  }

  function Trim(s: Bytes): Bytes { TrimLeft(TrimRight(s)) }

  /** What comes before the first `sep`. */
  function Before(s: Bytes, sep: Byte): Bytes
  {
    if s == [] || s[0] == sep then [] else [s[0]] + Before(s[1..], sep)
  }

  // ----- numbers -----

  function DigitOf(b: Byte): Option<nat>
  {
    if 0x30 <= b <= 0x39 then Some(b - 0x30)
    else if 0x41 <= b <= 0x46 then Some(b - 0x41 + 10)
    else if 0x61 <= b <= 0x66 then Some(b - 0x61 + 10)
    else None
  }

  /** The number written with digits below `radix`, if it fits 64 bits. */
  function DigitsValue(s: Bytes, radix: nat): (r: Result<nat>)
    requires radix == 10 || radix == 16
    ensures r.Ok? ==> r.value < U64
  {
    if s == [] then Ok(0)
    else
      match DigitsValue(s[..|s| - 1], radix)
      case Err => Err
      case Ok(v) =>
        var d := DigitOf(s[|s| - 1]);
        if d.None? || d.value >= radix then Err
        else
          var w := (if radix == 10 then 10 * v else 16 * v) + d.value;
          if w >= U64 then Err else Ok(w)
  }

  /** A leading plus is accepted. */
  function ParseNumber(s: Bytes, radix: nat): Result<nat>
    requires radix == 10 || radix == 16
  {
    var t := if s != [] && s[0] == PLUS then s[1..] else s;
    if t == [] then Err else DigitsValue(t, radix)
  }

  // ----- chunked bodies (section 7.1) -----

  function ChunkSize(line: Bytes): Result<nat>
  {
    ParseNumber(Trim(Before(TrimEnd(line), SEMICOLON)), 16)
  }

  /** Skips trailer lines up to the empty one, or to the end of input. */
  function SkipTrailers(data: Bytes): (r: Result<Bytes>)
    ensures r.Ok? ==> |r.value| <= |data|
    decreases |data|
  {
    match ReadLine(data, MAX_HEADER_BYTES)
    case Err => Err
    case Ok((line, rest)) => if line == [] || TrimEnd(line) == [] then Ok(rest) else SkipTrailers(rest)
  }

  /** The body so far extended by the rest of the chunks, and what follows the message. */
  function Chunks(data: Bytes, body: Bytes): (r: Result<(Bytes, Bytes)>)
    decreases |data|
  {
    match ReadLine(data, MAX_HEADER_BYTES)
    case Err => Err
    case Ok((line, rest)) =>
      if line == [] then Err
      else
        match ChunkSize(line)
        case Err => Err
        case Ok(size) =>
          if |body| + size > MAX_BODY_BYTES then Err
          else if size == 0 then (match SkipTrailers(rest) case Err => Err case Ok(more) => Ok((body, more)))
          else
            match TakeChunk(rest, size)
            case Err => Err
            case Ok((data, more)) => Chunks(more, body + data)
  }

  /** A chunk's data, which a CR LF must follow. */
  function TakeChunk(data: Bytes, size: nat): (r: Result<(Bytes, Bytes)>)
    ensures r.Ok? ==> |r.value.1| <= |data|
  {
    if |data| < size + 2 || data[size..size + 2] != CRLF then Err else Ok((data[..size], data[size + 2..]))
  }

  // ----- headers -----

  function Lower(s: Bytes): Bytes
  {
    seq(|s|, i requires 0 <= i < |s| => if 0x41 <= s[i] <= 0x5A then s[i] + 0x20 else s[i])
  }

  predicate Same(a: Bytes, b: Bytes) { Lower(a) == Lower(b) }

  predicate IsContentLength(f: Field) { Same(f.name, Ascii("content-length")) }

  predicate IsTransferEncoding(f: Field) { Same(f.name, Ascii("transfer-encoding")) }

  predicate IsChunked(f: Field) { IsTransferEncoding(f) && Same(f.value, Ascii("chunked")) }

  predicate Has(headers: seq<Field>, p: Field -> bool) { exists i :: 0 <= i < |headers| && p(headers[i]) }

  /** The parts of a comma list; always at least one. */
  function Parts(s: Bytes): (r: seq<Bytes>)
    ensures |r| > 0
    decreases |s|
  {
    var first := Before(s, COMMA);
    if |first| >= |s| then [s] else [first] + Parts(s[|first| + 1..])
  }

  /** Folds the parts of one value into the length seen so far. */
  function AgreeAll(parts: seq<Bytes>, seen: Option<nat>): Result<Option<nat>>
  {
    if parts == [] then Ok(seen)
    else
      match ParseNumber(Trim(parts[0]), 10)
      case Err => Err
      case Ok(n) => if seen.Some? && seen.value != n then Err else AgreeAll(parts[1..], Some(n))
  }

  function ContentLength(headers: seq<Field>, seen: Option<nat>): Result<Option<nat>>
  {
    if headers == [] then Ok(seen)
    else if !IsContentLength(headers[0]) then ContentLength(headers[1..], seen)
    else match AgreeAll(Parts(headers[0].value), seen) case Err => Err case Ok(s) => ContentLength(headers[1..], s)
  }

  // ----- bodies (section 6.3) -----

  /** Responses that never have a body: to HEAD, in any case of letters, and those with certain statuses. */
  predicate Bodiless(status: nat, verb: Bytes)
  {
    Same(verb, Ascii("HEAD")) || 100 <= status < 200 || status == 204 || status == 304
  }

  /** The body of a message whose headers were read, and what follows it. */
  function ReadBody(data: Bytes, headers: seq<Field>, status: nat, verb: Bytes): Result<(Bytes, Bytes)>
  {
    if Bodiless(status, verb) then Ok(([], data))
    else if Has(headers, IsTransferEncoding) && Has(headers, IsContentLength) then Err
    else if Has(headers, IsChunked) then Chunks(data, [])
    else
      match ContentLength(headers, None)
      case Err => Err
      case Ok(None) => var n := Min(|data|, MAX_BODY_BYTES); Ok((data[..n], data[n..]))
      case Ok(Some(len)) =>
        if len > MAX_BODY_BYTES || |data| < len then Err else Ok((data[..len], data[len..]))
  }

  // ----- the grammar of a chunked body -----

  function HexDigit(d: nat): Byte
    requires d < 16
  {
    if d < 10 then 0x30 + d else 0x61 + d - 10
  }

  function Hex(n: nat): (s: Bytes)
    ensures |s| > 0
  {
    if n < 16 then [HexDigit(n)] else Hex(n / 16) + [HexDigit(n % 16)]
  }

  /** A chunk and its extension: empty, or a semicolon and anything but a line feed. */
  datatype Chunk = Chunk(data: Bytes, ext: Bytes)

  predicate Extension(e: Bytes) { (e == [] || e[0] == SEMICOLON) && LF !in e }

  function SizeLine(size: nat, ext: Bytes): Bytes { Hex(size) + ext + CRLF }

  predicate GoodChunk(c: Chunk)
  {
    c.data != [] && Extension(c.ext) && |Hex(|c.data|)| + |c.ext| + 1 <= MAX_HEADER_BYTES
  }

  predicate GoodTrailer(t: Bytes) { LF !in t && |t| + 1 <= MAX_HEADER_BYTES && TrimEnd(t) != [] }

  function Trailers(ts: seq<Bytes>): Bytes
  {
    if ts == [] then CRLF else ts[0] + CRLF + Trailers(ts[1..])
  }

  function Chunked(cs: seq<Chunk>, ts: seq<Bytes>): Bytes
  {
    if cs == [] then SizeLine(0, []) + Trailers(ts)
    else SizeLine(|cs[0].data|, cs[0].ext) + cs[0].data + CRLF + Chunked(cs[1..], ts)
  }

  function Payload(cs: seq<Chunk>): Bytes
  {
    if cs == [] then [] else cs[0].data + Payload(cs[1..])
  }

  // ----- lines that were written read back -----

  lemma {:induction false} LineFound(s: Bytes, more: Bytes)
    requires LF !in s
    ensures LineEnd(s + [LF] + more) == |s| + 1
    decreases |s|
  {
    if s != [] {
      assert (s + [LF] + more)[1..] == s[1..] + [LF] + more;
      LineFound(s[1..], more);
    }
  }

  /** A line ended by CR LF. */
  lemma LineReads(s: Bytes, more: Bytes, max: nat)
    requires LF !in s && |s| + 1 <= max
    ensures ReadLine(s + CRLF + more, max) == Ok((s + CRLF, more))
  {
    assert s + CRLF + more == (s + [CR]) + [LF] + more;
    LineFound(s + [CR], more);
    assert (s + CRLF + more)[..|s| + 2] == s + CRLF && (s + CRLF + more)[|s| + 2..] == more;
  }

  lemma TrimBreaks(s: Bytes)
    ensures TrimEnd(s + CRLF) == TrimEnd(s)
  {
    assert (s + CRLF)[..|s| + 1] == s + [CR];
    assert (s + [CR])[..|s|] == s;
  }

  lemma {:induction false} TrimKeeps(h: Bytes, e: Bytes)
    requires h != [] && !LineBreak(h[|h| - 1]) && (e == [] || e[0] == SEMICOLON)
    ensures TrimEnd(h + e) == h
            || (|TrimEnd(h + e)| > |h| && TrimEnd(h + e)[..|h|] == h && TrimEnd(h + e)[|h|] == SEMICOLON)
    decreases |e|
  {
    if e == [] {
      assert h + e == h;
    } else if |e| == 1 {
      assert h + e == h + [SEMICOLON];
    } else {
      var last := e[|e| - 1];
      assert (h + e)[..|h + e| - 1] == h + e[..|e| - 1];
      TrimKeeps(h, e[..|e| - 1]);
    }
  }

  lemma {:induction false} BeforeFound(h: Bytes, more: Bytes, sep: Byte)
    requires sep !in h
    ensures Before(h, sep) == h && Before(h + [sep] + more, sep) == h
  {
    if h == [] {
    } else {
      BeforeFound(h[1..], more, sep);
      assert (h + [sep] + more)[1..] == h[1..] + [sep] + more;
    }
  }

  /** Characters of a number: digits of base 16. */
  predicate HexText(s: Bytes) { forall b :: b in s ==> DigitOf(b).Some? }

  lemma {:induction false} HexReads(n: nat)
    requires n < U64
    ensures HexText(Hex(n)) && DigitsValue(Hex(n), 16) == Ok(n)
  {
    if n < 16 {
      assert Hex(n)[..0] == [];
    } else {
      HexReads(n / 16);
      assert Hex(n)[..|Hex(n)| - 1] == Hex(n / 16);
    }
  }

  lemma DigitsAreNotWhite(s: Bytes)
    requires s != [] && DigitOf(s[0]).Some? && DigitOf(s[|s| - 1]).Some?
    ensures WhiteHead(s) == 0 && WhiteTail(s) == 0
  {
  }

  lemma HexTextIsPlain(s: Bytes)
    requires HexText(s) && s != []
    ensures Trim(s) == s && SEMICOLON !in s && LF !in s && s[0] != PLUS && !LineBreak(s[|s| - 1])
  {
    assert s[0] in s && s[|s| - 1] in s;
    DigitsAreNotWhite(s);
  }

  lemma SizeReads(size: nat, ext: Bytes)
    requires size < U64 && Extension(ext)
    ensures ChunkSize(SizeLine(size, ext)) == Ok(size)
  {
    var h := Hex(size);
    HexReads(size);
    HexTextIsPlain(h);
    TrimBreaks(h + ext);
    TrimKeeps(h, ext);
    var t := TrimEnd(h + ext);
    if t == h {
      BeforeFound(h, [], SEMICOLON);
    } else {
      assert t == h + [SEMICOLON] + t[|h| + 1..];
      BeforeFound(h, t[|h| + 1..], SEMICOLON);
    }
  }

  lemma SizeLineReads(size: nat, ext: Bytes, more: Bytes)
    requires size < U64 && Extension(ext) && |Hex(size)| + |ext| + 1 <= MAX_HEADER_BYTES
    ensures ReadLine(SizeLine(size, ext) + more, MAX_HEADER_BYTES) == Ok((SizeLine(size, ext), more))
  {
    HexReads(size);
    HexTextIsPlain(Hex(size));
    LineReads(Hex(size) + ext, more, MAX_HEADER_BYTES);
  }

  lemma {:induction false} TrailersSkip(ts: seq<Bytes>, more: Bytes)
    requires forall i :: 0 <= i < |ts| ==> GoodTrailer(ts[i])
    ensures SkipTrailers(Trailers(ts) + more) == Ok(more)
    decreases |ts|
  {
    if ts == [] {
      assert CRLF + more == [] + CRLF + more;
      LineReads([], more, MAX_HEADER_BYTES);
      TrimBreaks([]);
      assert [] + CRLF == CRLF;
    } else {
      assert Trailers(ts) + more == ts[0] + CRLF + (Trailers(ts[1..]) + more);
      LineReads(ts[0], Trailers(ts[1..]) + more, MAX_HEADER_BYTES);
      TrimBreaks(ts[0]);
      TrailersSkip(ts[1..], more);
    }
  }

  /** One chunk is taken whole and its framing dropped. */
  lemma ChunkStep(c: Chunk, more: Bytes, body: Bytes)
    requires GoodChunk(c) && |body| + |c.data| <= MAX_BODY_BYTES
    ensures Chunks(SizeLine(|c.data|, c.ext) + c.data + CRLF + more, body) == Chunks(more, body + c.data)
  {
    var line, rest := SizeLine(|c.data|, c.ext), c.data + CRLF + more;
    assert line + c.data + CRLF + more == line + rest;
    SizeLineReads(|c.data|, c.ext, rest);
    SizeReads(|c.data|, c.ext);
    ChunkTaken(c.data, more);
  }

  lemma ChunkTaken(data: Bytes, more: Bytes)
    ensures TakeChunk(data + CRLF + more, |data|) == Ok((data, more))
  {
    var rest := data + CRLF + more;
    assert rest[|data|..|data| + 2] == CRLF && rest[|data| + 2..] == more && rest[..|data|] == data;
  }

  lemma LastChunk(ts: seq<Bytes>, more: Bytes, body: Bytes)
    requires |body| <= MAX_BODY_BYTES && forall i :: 0 <= i < |ts| ==> GoodTrailer(ts[i])
    ensures Chunks(SizeLine(0, []) + Trailers(ts) + more, body) == Ok((body, more))
  {
    assert Hex(0) == [0x30];
    assert SizeLine(0, []) + Trailers(ts) + more == SizeLine(0, []) + (Trailers(ts) + more);
    SizeLineReads(0, [], Trailers(ts) + more);
    SizeReads(0, []);
    TrailersSkip(ts, more);
  }

  lemma Associate(x: Bytes, y: Bytes, z: Bytes)
    ensures x + y + z == x + (y + z)
  {
  }

  lemma {:induction false} ChunksRead(cs: seq<Chunk>, ts: seq<Bytes>, more: Bytes, body: Bytes)
    requires (forall i :: 0 <= i < |cs| ==> GoodChunk(cs[i])) && (forall i :: 0 <= i < |ts| ==> GoodTrailer(ts[i]))
    requires |body| + |Payload(cs)| <= MAX_BODY_BYTES
    ensures Chunks(Chunked(cs, ts) + more, body) == Ok((body + Payload(cs), more))
    decreases |cs|
  {
    if cs == [] {
      LastChunk(ts, more, body);
      assert body + [] == body;
    } else {
      var c, tail := cs[0], Chunked(cs[1..], ts);
      Associate(SizeLine(|c.data|, c.ext) + c.data + CRLF, tail, more);
      ChunkStep(c, tail + more, body);
      ChunksRead(cs[1..], ts, more, body + c.data);
      Associate(body, c.data, Payload(cs[1..]));
    }
  }

  /** However a body is cut into chunks, reading returns the whole body and leaves exactly what follows. */
  lemma ChunkedRoundTrip(cs: seq<Chunk>, ts: seq<Bytes>, more: Bytes)
    requires (forall i :: 0 <= i < |cs| ==> GoodChunk(cs[i])) && (forall i :: 0 <= i < |ts| ==> GoodTrailer(ts[i]))
    requires |Payload(cs)| <= MAX_BODY_BYTES
    ensures Chunks(Chunked(cs, ts) + more, []) == Ok((Payload(cs), more))
  {
    ChunksRead(cs, ts, more, []);
    assert [] + Payload(cs) == Payload(cs);
  }

  // ----- Content-Length -----

  /** Every part of every Content-Length value. */
  function AllParts(headers: seq<Field>): seq<Bytes>
  {
    if headers == [] then []
    else (if IsContentLength(headers[0]) then Parts(headers[0].value) else []) + AllParts(headers[1..])
  }

  /** All parts are written as the same number. */
  predicate AllSay(parts: seq<Bytes>, n: nat)
  {
    forall i :: 0 <= i < |parts| ==> ParseNumber(Trim(parts[i]), 10) == Ok(n)
  }

  lemma {:induction false} AgreeMeans(parts: seq<Bytes>, seen: Option<nat>, n: nat)
    requires parts != []
    ensures AgreeAll(parts, seen) == Ok(Some(n)) <==> AllSay(parts, n) && (seen.Some? ==> seen.value == n)
    ensures AgreeAll(parts, seen) != Ok(None)
  {
    var first := ParseNumber(Trim(parts[0]), 10);
    if |parts| > 1 {
      if first.Ok? {
        AgreeMeans(parts[1..], Some(first.value), n);
      }
      assert AllSay(parts, n) <==> first == Ok(n) && AllSay(parts[1..], n);
    }
  }

  lemma {:induction false} LengthMeans(headers: seq<Field>, seen: Option<nat>, n: nat)
    ensures ContentLength(headers, seen) == Ok(Some(n))
            <==> AllSay(AllParts(headers), n) && (if seen.Some? then seen.value == n else AllParts(headers) != [])
    ensures ContentLength(headers, seen) == Ok(None) <==> seen.None? && AllParts(headers) == []
  {
    if headers != [] {
      if IsContentLength(headers[0]) {
        var parts := Parts(headers[0].value);
        var all := AllParts(headers);
        assert all == parts + AllParts(headers[1..]);
        AllSayBoth(parts, AllParts(headers[1..]), n);
        AgreeMeans(parts, seen, n);
        var s := AgreeAll(parts, seen);
        if s.Ok? {
          AgreeMeans(parts, seen, if s.value.Some? then s.value.value else 0);
          LengthMeans(headers[1..], s.value, n);
          if s.value.Some? && s.value.value != n {
            assert ParseNumber(Trim(parts[0]), 10) == Ok(s.value.value);
          }
        }
      } else {
        LengthMeans(headers[1..], seen, n);
        assert AllParts(headers) == AllParts(headers[1..]);
      }
    }
  }

  lemma AllSayBoth(a: seq<Bytes>, b: seq<Bytes>, n: nat)
    ensures AllSay(a + b, n) <==> AllSay(a, n) && AllSay(b, n)
  {
    if AllSay(a + b, n) {
      forall i | 0 <= i < |a|
        ensures ParseNumber(Trim(a[i]), 10) == Ok(n)
      {
        assert (a + b)[i] == a[i];
      }
      forall i | 0 <= i < |b|
        ensures ParseNumber(Trim(b[i]), 10) == Ok(n)
      {
        assert (a + b)[|a| + i] == b[i];
      }
    }
  }

  /** A length is found exactly when every part of every Content-Length is written as that number, and there is one. */
  lemma ContentLengthAgrees(headers: seq<Field>, n: nat)
    ensures ContentLength(headers, None) == Ok(Some(n)) <==> AllSay(AllParts(headers), n) && AllParts(headers) != []
    ensures ContentLength(headers, None) == Ok(None) <==> AllParts(headers) == []
  {
    LengthMeans(headers, None, n);
  }

  lemma {:induction false} PartsExist(headers: seq<Field>)
    ensures Has(headers, IsContentLength) <==> AllParts(headers) != []
  {
    if headers != [] {
      PartsExist(headers[1..]);
      if Has(headers, IsContentLength) && !IsContentLength(headers[0]) {
        var i :| 0 <= i < |headers| && IsContentLength(headers[i]);
        assert IsContentLength(headers[1..][i - 1]);
      }
      if Has(headers[1..], IsContentLength) {
        var i :| 0 <= i < |headers[1..]| && IsContentLength(headers[1..][i]);
        assert IsContentLength(headers[i + 1]);
      }
    }
  }

  lemma NotChunked(headers: seq<Field>)
    requires !Has(headers, IsTransferEncoding)
    ensures !Has(headers, IsChunked)
  {
  }

  // ----- reuse -----

  predicate Mentions(value: Bytes, token: Bytes)
  {
    exists i :: 0 <= i < |Parts(value)| && Same(Trim(Parts(value)[i]), token)
  }

  predicate Connection(f: Field, token: Bytes) { Same(f.name, Ascii("connection")) && Mentions(f.value, token) }

  predicate IsClose(f: Field) { Connection(f, Ascii("close")) }

  predicate IsKeepAlive(f: Field) { Connection(f, Ascii("keep-alive")) }

  predicate Reusable(headers: seq<Field>, status: nat, verb: Bytes, http11: bool)
  {
    && !Has(headers, IsClose)
    && (Has(headers, IsContentLength) || Has(headers, IsChunked) || Bodiless(status, verb))
    && (http11 || Has(headers, IsKeepAlive))
  }

  lemma {:induction false} EndExtends(data: Bytes, more: Bytes)
    requires LineEnd(data) > 0 && data[LineEnd(data) - 1] == LF
    ensures LineEnd(data + more) == LineEnd(data)
    decreases |data|
  {
    if data[0] != LF {
      assert (data + more)[1..] == data[1..] + more;
      EndExtends(data[1..], more);
    }
  }

  /** The first line has its terminator. */
  predicate Terminated(data: Bytes) { LineEnd(data) > 0 && data[LineEnd(data) - 1] == LF }

  lemma LineExtends(data: Bytes, more: Bytes, max: nat)
    requires ReadLine(data, max).Ok? && Terminated(data)
    ensures ReadLine(data + more, max) == Ok((ReadLine(data, max).value.0, ReadLine(data, max).value.1 + more))
    ensures Terminated(data + more)
  {
    var n := LineEnd(data);
    EndExtends(data, more);
    assert (data + more)[..n] == data[..n] && (data + more)[n..] == data[n..] + more;
  }

  /** A last line without terminator, once it gets one. */
  lemma LineCompletes(data: Bytes, max: nat)
    requires ReadLine(data, max).Ok? && !Terminated(data)
    ensures ReadLine(data, max) == Ok((data, [])) && ReadLine(data + [LF], max) == Ok((data + [LF], []))
    ensures TrimEnd(data + [LF]) == TrimEnd(data)
  {
    NoTerminator(data);
    LineFound(data, []);
    assert data + [LF] + [] == data + [LF];
    assert (data + [LF])[..|data|] == data && (data + [LF])[..|data| + 1] == data + [LF];
  }

  lemma {:induction false} NoTerminator(data: Bytes)
    requires !Terminated(data)
    ensures LF !in data
    decreases |data|
  {
    if data != [] {
      NoTerminator(data[1..]);
    }
  }

  /** Lines with their terminators come, the last of them blank. */
  predicate BlankLineComes(data: Bytes)
    decreases |data|
  {
    Terminated(data) && (TrimEnd(data[..LineEnd(data)]) == [] || BlankLineComes(data[LineEnd(data)..]))
  }

  /** On the bytes alone: chunks follow one another up to one of size 0, and its trailers end with a blank line. */
  predicate Delimited(data: Bytes)
    decreases |data|
  {
    Terminated(data) &&
    match ChunkSize(data[..LineEnd(data)])
    case Err => false
    case Ok(size) =>
      var rest := data[LineEnd(data)..];
      if size == 0 then BlankLineComes(rest)
      else |rest| >= size + 2 && rest[size..size + 2] == [0x0D, 0x0A] && Delimited(rest[size + 2..])
  }

  lemma {:induction false} TrailersExtend(data: Bytes, more: Bytes)
    requires SkipTrailers(data).Ok? && BlankLineComes(data)
    ensures SkipTrailers(data + more) == Ok(SkipTrailers(data).value + more)
    decreases |data|
  {
    var (line, rest) := ReadLine(data, MAX_HEADER_BYTES).value;
    LineExtends(data, more, MAX_HEADER_BYTES);
    if TrimEnd(line) != [] {
      TrailersExtend(rest, more);
    }
  }

  /** Trailers cut off by the end of input: a line feed that follows would be taken for theirs. */
  lemma {:induction false} TrailersCutOff(data: Bytes)
    requires SkipTrailers(data).Ok? && !BlankLineComes(data)
    ensures SkipTrailers(data) == Ok([]) && SkipTrailers(data + [LF]) == Ok([])
    decreases |data|
  {
    if Terminated(data) {
      var (line, rest) := ReadLine(data, MAX_HEADER_BYTES).value;
      LineExtends(data, [LF], MAX_HEADER_BYTES);
      TrailersCutOff(rest);
    } else {
      LineCompletes(data, MAX_HEADER_BYTES);
      NothingLeft();
    }
  }

  lemma NothingLeft()
    ensures SkipTrailers([]) == Ok([])
  {
  }

  lemma TakeExtends(data: Bytes, more: Bytes, size: nat)
    requires TakeChunk(data, size).Ok?
    ensures TakeChunk(data + more, size) == Ok((TakeChunk(data, size).value.0, TakeChunk(data, size).value.1 + more))
  {
    assert (data + more)[size..size + 2] == data[size..size + 2] && (data + more)[..size] == data[..size];
    assert (data + more)[size + 2..] == data[size + 2..] + more;
  }

  /** A size line with bytes to follow has its terminator. */
  lemma SizeTerminated(data: Bytes, body: Bytes)
    requires Chunks(data, body).Ok? && ChunkSize(ReadLine(data, MAX_HEADER_BYTES).value.0).value > 0
    ensures Terminated(data)
  {
  }

  /** One chunk is read the same whatever follows. */
  lemma ChunkExtends(data: Bytes, body: Bytes, more: Bytes)
    requires Chunks(data, body).Ok? && ChunkSize(ReadLine(data, MAX_HEADER_BYTES).value.0).value > 0
    ensures var (line, rest) := ReadLine(data, MAX_HEADER_BYTES).value;
            var (taken, left) := TakeChunk(rest, ChunkSize(line).value).value;
            && |left| < |data|
            && Chunks(data, body) == Chunks(left, body + taken)
            && Chunks(data + more, body) == Chunks(left + more, body + taken)
  {
    var (line, rest) := ReadLine(data, MAX_HEADER_BYTES).value;
    SizeTerminated(data, body);
    LineExtends(data, more, MAX_HEADER_BYTES);
    TakeExtends(rest, more, ChunkSize(line).value);
  }

  lemma DelimitedNext(data: Bytes, line: Bytes, rest: Bytes, size: nat, taken: Bytes, left: Bytes)
    requires Terminated(data) && ReadLine(data, MAX_HEADER_BYTES) == Ok((line, rest))
    requires ChunkSize(line) == Ok(size) && size > 0 && TakeChunk(rest, size) == Ok((taken, left))
    ensures Delimited(data) <==> Delimited(left)
  {
    var n := LineEnd(data);
    assert line == data[..n] && rest == data[n..];
    assert rest[size..size + 2] == [0x0D, 0x0A] && left == rest[size + 2..];
  }

  /** The last chunk and what follows it, when it has its blank line and when it has not. */
  lemma LastExtends(data: Bytes, body: Bytes, more: Bytes)
    requires Chunks(data, body).Ok? && ChunkSize(ReadLine(data, MAX_HEADER_BYTES).value.0).value == 0
    ensures Delimited(data) ==>
            Chunks(data + more, body) == Ok((Chunks(data, body).value.0, Chunks(data, body).value.1 + more))
    ensures !Delimited(data) ==> Chunks(data, body) == Ok((body, [])) && Chunks(data + [LF], body) == Ok((body, []))
  {
    var (line, rest) := ReadLine(data, MAX_HEADER_BYTES).value;
    if Delimited(data) {
      LineExtends(data, more, MAX_HEADER_BYTES);
      TrailersExtend(rest, more);
    } else if Terminated(data) {
      LineExtends(data, [LF], MAX_HEADER_BYTES);
      TrailersCutOff(rest);
    } else {
      LineCompletes(data, MAX_HEADER_BYTES);
      NothingLeft();
    }
  }

  /** A delimited body is read the same whatever follows; one cut off swallows a line feed that follows. */
  lemma {:induction false} ChunksExtend(data: Bytes, body: Bytes, more: Bytes)
    requires Chunks(data, body).Ok?
    ensures Delimited(data) ==>
            Chunks(data + more, body) == Ok((Chunks(data, body).value.0, Chunks(data, body).value.1 + more))
    ensures !Delimited(data) ==> Chunks(data, body).value.1 == [] && Chunks(data + [LF], body) == Chunks(data, body)
    decreases |data|
  {
    var (line, rest) := ReadLine(data, MAX_HEADER_BYTES).value;
    var size := ChunkSize(line).value;
    if size == 0 {
      LastExtends(data, body, more);
    } else {
      SizeTerminated(data, body);
      var (taken, left) := TakeChunk(rest, size).value;
      DelimitedNext(data, line, rest, size, taken, left);
      ChunkExtends(data, body, more);
      ChunkExtends(data, body, [LF]);
      ChunksExtend(left, body + taken, more);
    }
  }

  /** Nothing that follows changes a body that was read, nor where it ends. */
  ghost predicate Standalone(data: Bytes, headers: seq<Field>, status: nat, verb: Bytes)
    requires ReadBody(data, headers, status, verb).Ok?
  {
    var (body, rest) := ReadBody(data, headers, status, verb).value;
    forall more :: ReadBody(data + more, headers, status, verb) == Ok((body, rest + more))
  }

  lemma ChunkedStandsAlone(data: Bytes, headers: seq<Field>, status: nat, verb: Bytes)
    requires !Bodiless(status, verb) && Has(headers, IsChunked) && ReadBody(data, headers, status, verb).Ok?
    ensures Standalone(data, headers, status, verb) <==> Delimited(data)
  {
    var (body, rest) := Chunks(data, []).value;
    if Delimited(data) {
      forall more
        ensures ReadBody(data + more, headers, status, verb) == Ok((body, rest + more))
      {
        ChunksExtend(data, [], more);
      }
    } else {
      ChunksExtend(data, [], []);
      assert ReadBody(data + [LF], headers, status, verb) != Ok((body, rest + [LF]));
    }
  }

  lemma LengthFound(headers: seq<Field>) returns (len: nat)
    requires Has(headers, IsContentLength) && ContentLength(headers, None).Ok?
    ensures ContentLength(headers, None) == Ok(Some(len))
  {
    PartsExist(headers);
    ContentLengthAgrees(headers, 0);
    len := ContentLength(headers, None).value.value;
  }

  lemma SizedReads(data: Bytes, headers: seq<Field>, status: nat, verb: Bytes, len: nat)
    requires !Bodiless(status, verb) && !Has(headers, IsTransferEncoding)
             && ContentLength(headers, None) == Ok(Some(len))
    ensures ReadBody(data, headers, status, verb) == if len > MAX_BODY_BYTES || |data| < len then Err
            else Ok((data[..len], data[len..]))
  {
    NotChunked(headers);
  }

  lemma SizedExtends(data: Bytes, headers: seq<Field>, status: nat, verb: Bytes, len: nat, more: Bytes)
    requires !Bodiless(status, verb) && !Has(headers, IsTransferEncoding)
             && ContentLength(headers, None) == Ok(Some(len))
    requires len <= MAX_BODY_BYTES && len <= |data|
    ensures ReadBody(data + more, headers, status, verb) == Ok((data[..len], data[len..] + more))
  {
    SizedReads(data + more, headers, status, verb, len);
    assert (data + more)[..len] == data[..len] && (data + more)[len..] == data[len..] + more;
  }

  lemma SizedStandsAlone(data: Bytes, headers: seq<Field>, status: nat, verb: Bytes)
    requires !Bodiless(status, verb) && !Has(headers, IsChunked) && Has(headers, IsContentLength)
    requires ReadBody(data, headers, status, verb).Ok?
    ensures Standalone(data, headers, status, verb)
  {
    var len := LengthFound(headers);
    SizedReads(data, headers, status, verb, len);
    forall more
      ensures ReadBody(data + more, headers, status, verb) == Ok((data[..len], data[len..] + more))
    {
      SizedExtends(data, headers, status, verb, len, more);
    }
  }

  /**
   * The body of a response judged reusable, and the position after it, do not depend on what follows, if and only if a
   * chunked one is delimited; others always are.
   */
  lemma ReusableIsDelimited(data: Bytes, headers: seq<Field>, status: nat, verb: Bytes, http11: bool)
    requires Reusable(headers, status, verb, http11) && ReadBody(data, headers, status, verb).Ok?
    ensures Standalone(data, headers, status, verb)
            <==> (Has(headers, IsChunked) && !Bodiless(status, verb) ==> Delimited(data))
  {
    if !Bodiless(status, verb) {
      if Has(headers, IsChunked) {
        ChunkedStandsAlone(data, headers, status, verb);
      } else {
        SizedStandsAlone(data, headers, status, verb);
      }
    }
  }

  /** What a sender frames as chunks is delimited, with nothing after it too. */
  lemma ChunkedIsDelimited(cs: seq<Chunk>, ts: seq<Bytes>)
    requires (forall i :: 0 <= i < |cs| ==> GoodChunk(cs[i])) && (forall i :: 0 <= i < |ts| ==> GoodTrailer(ts[i]))
    requires |Payload(cs)| <= MAX_BODY_BYTES
    ensures Delimited(Chunked(cs, ts))
  {
    ChunkedRoundTrip(cs, ts, []);
    ChunkedRoundTrip(cs, ts, [LF]);
    assert Chunked(cs, ts) + [] == Chunked(cs, ts);
    if !Delimited(Chunked(cs, ts)) {
      ChunksExtend(Chunked(cs, ts), [], []);
    }
  }

  /** The failing input: the size line of the last chunk, then the end of input. It is accepted and not delimited. */
  const CUT_OFF: Bytes := [0x30, CR, LF]

  lemma CutOffIsAccepted()
    ensures Chunks(CUT_OFF, []) == Ok(([], [])) && !Delimited(CUT_OFF)
    ensures Chunks(CUT_OFF + [LF], []) == Ok(([], []))
  {
    assert Hex(0) == [0x30];
    assert CUT_OFF == SizeLine(0, []);
    assert CUT_OFF + [] == CUT_OFF;
    SizeLineReads(0, [], []);
    SizeReads(0, []);
    NothingLeft();
    assert LineEnd(CUT_OFF) == 3;
    assert CUT_OFF[3..] == [] && !BlankLineComes([]);
    ChunksExtend(CUT_OFF, [], []);
  }

  // ----- other transfer codings -----

  /**
   * A transfer coding other than chunked is not an error of its own: with a Content-Length beside it the message is
   * refused, and without one the body is everything up to the end of input, within the cap.
   */
  lemma OtherCodingsReadToEnd(data: Bytes, headers: seq<Field>, status: nat, verb: Bytes)
    requires !Bodiless(status, verb) && Has(headers, IsTransferEncoding) && !Has(headers, IsChunked)
    ensures var n := Min(|data|, MAX_BODY_BYTES);
            ReadBody(data, headers, status, verb) == if Has(headers, IsContentLength) then Err
              else Ok((data[..n], data[n..]))
  {
    PartsExist(headers);
    ContentLengthAgrees(headers, 0);
  }

  lemma GzipIsReadToEnd(data: Bytes)
    requires |data| <= MAX_BODY_BYTES
    ensures ReadBody(data, [Field(Ascii("transfer-encoding"), Ascii("gzip"))], 200, Ascii("GET")) == Ok((data, []))
  {
    var headers := [Field(Ascii("transfer-encoding"), Ascii("gzip"))];
    assert IsTransferEncoding(headers[0]);
    assert |Lower(headers[0].value)| == 4 && |Lower(Ascii("chunked"))| == 7;
    assert |Lower(headers[0].name)| == 17 && |Lower(Ascii("content-length"))| == 14;
    assert !Has(headers, IsContentLength) && !Has(headers, IsChunked);
    assert |Lower(Ascii("GET"))| == 3 && |Lower(Ascii("HEAD"))| == 4;
    OtherCodingsReadToEnd(data, headers, 200, Ascii("GET"));
    assert data[..|data|] == data && data[|data|..] == [];
  }
}

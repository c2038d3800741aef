/** The reading loops of HTTP/1.1 over a stream that is consumed as they go. */
module Http1Reader {
  import opened Common
  import opened Fields
  import opened Http1Body

  /** A buffered stream: the bytes that have not been read yet. */
  class ByteReader {
    var data: Bytes

    constructor (input: Bytes)
      ensures data == input
    {
      data := input;
    }

    /** Reads through a line feed, but no more than `limit` bytes. */
    method ReadUntilLf(limit: nat) returns (taken: Bytes)
      modifies this
      ensures taken == old(data)[..Min(LineEnd(old(data)), limit)] && data == old(data)[|taken|..]
    {
      var n := 0;
      ghost var end := LineEnd(data);
      while n < |data| && n < limit && (n == 0 || data[n - 1] != LF)
        invariant n <= |data| && n <= limit && n <= end
        invariant data == old(data)
      {
        LfIsEnd(data, n);
        n := n + 1;
      }
      if n > 0 && data[n - 1] == LF {
        LfEnds(data, n);
      }
      taken := data[..n];
      data := data[n..];
    }

    /** At most `max` bytes before the terminator; an empty result means the end of input. */
    method ReadLineCapped(max: nat) returns (r: Result<Bytes>)
      modifies this
      ensures match ReadLine(old(data), max)
              case Err => r == Err
              case Ok((line, rest)) => r == Ok(line) && data == rest
    {
      var raw: Bytes := [];
      ghost var all := data;
      while true
        invariant |raw| <= max && Taken(all, raw, data) && Unended(raw)
        decreases |data|
      {
        ghost var before := data;
        var taken := ReadUntilLf(max - |raw| + 1);
        TakeStep(all, raw, before, taken, max);
        raw := raw + taken;
        if taken == [] || raw[|raw| - 1] == LF {
          break;
        }
        if |raw| > max {
          LongLine(all, raw, data, max);
          return Err;
        }
      }
      LineTaken(all, raw, data, max);
      return Ok(raw);
    }

    /** Exactly `n` bytes, or an error when fewer are left. */
    method ReadExact(n: nat) returns (r: Result<Bytes>)
      modifies this
      ensures if n <= |old(data)| then r == Ok(old(data)[..n]) && data == old(data)[n..] else r == Err
    {
      if n > |data| {
        return Err;
      }
      r := Ok(data[..n]);
      data := data[n..];
    }

    method SkipTrailerLines() returns (ok: bool)
      modifies this
      ensures match SkipTrailers(old(data))
              case Err => !ok
              case Ok(rest) => ok && data == rest
    {
      ghost var goal := SkipTrailers(data);
      while true
        invariant goal == SkipTrailers(data)
        decreases |data|
      {
        var line := ReadLineCapped(MAX_HEADER_BYTES);
        if line.Err? {
          return false;
        }
        if line.value == [] || TrimEnd(line.value) == [] {
          return true;
        }
      }
    }

    method ReadChunked() returns (r: Result<Bytes>)
      modifies this
      ensures match Chunks(old(data), [])
              case Err => r == Err
              case Ok((body, rest)) => r == Ok(body) && data == rest
    {
      var body: Bytes := [];
      ghost var goal := Chunks(data, []);
      while true
        invariant goal == Chunks(data, body)
        decreases |data|
      {
        var line := ReadLineCapped(MAX_HEADER_BYTES);
        if line.Err? || line.value == [] {
          return Err;
        }
        var size := ChunkSize(line.value);
        if size.Err? || |body| + size.value > MAX_BODY_BYTES {
          return Err;
        }
        if size.value == 0 {
          var ok := SkipTrailerLines();
          return if ok then Ok(body) else Err;
        }
        var taken := TakeChunkData(size.value);
        if taken.Err? {
          return Err;
        }
        body := body + taken.value;
      }
    }

    method TakeChunkData(size: nat) returns (r: Result<Bytes>)
      modifies this
      ensures match TakeChunk(old(data), size)
              case Err => r == Err
              case Ok((taken, rest)) => r == Ok(taken) && data == rest
    {
      r := ReadExact(size);
      if r.Err? {
        return;
      }
      Sliced(old(data), size);
      var crlf := ReadExact(2);
      if crlf != Ok(CRLF) {
        r := Err;
      }
    }

    /** A body by the framing its headers announce. */
    method ReadMessageBody(headers: seq<Field>, status: nat, verb: Bytes) returns (r: Result<Bytes>)
      modifies this
      ensures match ReadBody(old(data), headers, status, verb)
              case Err => r == Err
              case Ok((body, rest)) => r == Ok(body) && data == rest
    {
      if Bodiless(status, verb) {
        return Ok([]);
      }
      var hasTe := HasHeader(headers, IsTransferEncoding);
      var hasCl := HasHeader(headers, IsContentLength);
      if hasTe && hasCl {
        return Err;
      }
      var chunked := HasHeader(headers, IsChunked);
      if chunked {
        r := ReadChunked();
        return;
      }
      var length := ParseContentLength(headers);
      match length
      case Err => return Err;
      case Ok(None) => r := ReadExact(Min(|data|, MAX_BODY_BYTES));
      case Ok(Some(len)) =>
        if len > MAX_BODY_BYTES {
          return Err;
        }
        r := ReadExact(len);
    }
  }

  method HasHeader(headers: seq<Field>, p: Field -> bool) returns (b: bool)
    ensures b == Has(headers, p)
  {
    for i := 0 to |headers|
      invariant forall j :: 0 <= j < i ==> !p(headers[j])
    {
      if p(headers[i]) {
        return true;
      }
    }
    return false;
  }

  method ParseContentLength(headers: seq<Field>) returns (r: Result<Option<nat>>)
    ensures r == ContentLength(headers, None)
    ensures forall n: nat :: r == Ok(Some(n)) <==> AllSay(AllParts(headers), n) && AllParts(headers) != []
  {
    forall n: nat
      ensures ContentLength(headers, None) == Ok(Some(n)) <==> AllSay(AllParts(headers), n) && AllParts(headers) != []
    {
      ContentLengthAgrees(headers, n);
    }
    var seen: Option<nat> := None;
    ghost var rest := headers;
    for i := 0 to |headers|
      invariant rest == headers[i..] && ContentLength(headers, None) == ContentLength(rest, seen)
    {
      if IsContentLength(headers[i]) {
        var folded := FoldParts(Parts(headers[i].value), seen);
        if folded.Err? {
          return Err;
        }
        seen := folded.value;
      }
      rest := rest[1..];
    }
    return Ok(seen);
  }

  method FoldParts(parts: seq<Bytes>, before: Option<nat>) returns (r: Result<Option<nat>>)
    ensures r == AgreeAll(parts, before)
  {
    var seen := before;
    ghost var rest := parts;
    for i := 0 to |parts|
      invariant rest == parts[i..] && AgreeAll(parts, before) == AgreeAll(rest, seen)
    {
      var n := ParseNumber(Trim(parts[i]), 10);
      if n.Err? || (seen.Some? && seen.value != n.value) {
        return Err;
      }
      seen := Some(n.value);
      rest := rest[1..];
    }
    return Ok(seen);
  }

  // ----- about lines -----

  /** Nothing before the end of the first line is a line feed. */
  lemma LfIsEnd(data: Bytes, n: nat)
    requires n < |data| && n <= LineEnd(data) && (n == 0 || data[n - 1] != LF)
    ensures n < LineEnd(data) && (data[n] == LF ==> LineEnd(data) == n + 1)
  {
    if n > 0 {
      LineEndMeans(data, n - 1);
    }
    if n < LineEnd(data) {
      LineEndMeans(data, n);
    }
  }

  /** `raw` is the front of the first line of `all`, and `data` is what comes after it. */
  predicate Taken(all: Bytes, raw: Bytes, data: Bytes)
  {
    all == raw + data && |raw| <= LineEnd(all)
  }

  predicate Unended(raw: Bytes) { raw == [] || raw[|raw| - 1] != LF }

  lemma TakeStep(all: Bytes, raw: Bytes, data: Bytes, taken: Bytes, max: nat)
    requires |raw| <= max && Taken(all, raw, data) && Unended(raw)
    requires taken == data[..Min(LineEnd(data), max - |raw| + 1)]
    ensures |raw + taken| <= max + 1 && Taken(all, raw + taken, data[|taken|..]) && (taken == [] ==> data == [])
  {
    LineRest(all, |raw|);
    assert all[|raw|..] == data;
    assert raw + taken + data[|taken|..] == raw + data;
  }

  /** The rest of a line that was read in part. */
  lemma {:induction false} LineRest(data: Bytes, n: nat)
    requires n <= LineEnd(data) && (n > 0 ==> data[n - 1] != LF)
    ensures LineEnd(data[n..]) == LineEnd(data) - n
    decreases n
  {
    if n > 0 {
      LineFirst(data, n);
      assert data[n..] == data[1..][n - 1..];
      LineRest(data[1..], n - 1);
    } else {
      assert data[0..] == data;
    }
  }

  lemma LineFirst(data: Bytes, n: nat)
    requires 0 < n <= LineEnd(data) && data[n - 1] != LF
    ensures LineEnd(data) == 1 + LineEnd(data[1..]) && (n > 1 ==> data[1..][n - 2] != LF)
  {
    LineEndMeans(data, 0);
  }

  /** Many bytes without a terminator are refused. */
  lemma LongLine(all: Bytes, raw: Bytes, data: Bytes, max: nat)
    requires Taken(all, raw, data) && Unended(raw) && |raw| > max
    ensures ReadLine(all, max) == Err
  {
    LineEndMeans(all, |raw| - 1);
    LineEndMeans(all, LineEnd(all) - 1);
  }

  /** The first line feed ends the line. */
  lemma LfEnds(data: Bytes, n: nat)
    requires 0 < n <= LineEnd(data) && data[n - 1] == LF
    ensures LineEnd(data) == n
  {
    LineEndMeans(data, n - 1);
  }

  /** What the loop took when it stopped is the line. */
  lemma LineTaken(all: Bytes, raw: Bytes, data: Bytes, max: nat)
    requires Taken(all, raw, data) && |raw| <= max + 1
    requires (data == [] && |raw| <= max) || !Unended(raw)
    ensures ReadLine(all, max) == Ok((raw, data))
  {
    var n := |raw|;
    assert all[..n] == raw && all[n..] == data;
    if Unended(raw) {
      assert data == [] && all == raw;
    } else {
      LfEnds(all, n);
    }
  }

  lemma Sliced(data: Bytes, size: nat)
    requires size <= |data|
    ensures |data| >= size + 2 ==> data[size..][..2] == data[size..size + 2] && data[size..][2..] == data[size + 2..]
  {
  }
}

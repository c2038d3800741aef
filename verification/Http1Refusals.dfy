/**
 * Chunked bodies that are refused (section 7.1 of RFC 9112): sizes that are no number, bodies and lines beyond the
 * client's limits, and chunks that are not followed by CR LF.
 */
module Http1Refusals {
  import opened Common
  import opened Http1Body

  /** 0-9, a-f and A-F; the letters only in base 16. */
  predicate IsDigit(b: Byte, base: nat)
  {
    0x30 <= b <= 0x39 || (base == 16 && (0x61 <= b <= 0x66 || 0x41 <= b <= 0x46))
  }

  predicate AllDigits(s: Bytes, base: nat) { s != [] && forall i :: 0 <= i < |s| ==> IsDigit(s[i], base) }

  function Value(b: Byte): nat
    requires IsDigit(b, 16)
  {
    if b <= 0x39 then b - 0x30 else if b >= 0x61 then b - 0x61 + 10 else b - 0x41 + 10
  }

  /** What digits stand for, however large. */
  function Amount(s: Bytes, base: nat): nat
    requires forall i :: 0 <= i < |s| ==> IsDigit(s[i], base)
    requires base == 10 || base == 16
  {
    if s == [] then 0
    else
      assert IsDigit(s[|s| - 1], base);
      (if base == 10 then 10 * Amount(s[..|s| - 1], 10) else 16 * Amount(s[..|s| - 1], 16)) + Value(s[|s| - 1])
  }

  lemma {:induction false} DigitsExactly(s: Bytes, base: nat)
    requires base == 10 || base == 16
    ensures DigitsValue(s, base).Ok? ==> forall i :: 0 <= i < |s| ==> IsDigit(s[i], base)
    ensures (forall i :: 0 <= i < |s| ==> IsDigit(s[i], base)) ==>
              DigitsValue(s, base) == if Amount(s, base) < U64 then Ok(Amount(s, base)) else Err
  {
    if s != [] {
      var front, last := s[..|s| - 1], s[|s| - 1];
      DigitsExactly(front, base);
      DigitExactly(last, base);
      if DigitsValue(s, base).Ok? {
        assert forall i :: 0 <= i < |front| ==> s[i] == front[i];
      }
    }
  }

  lemma DigitExactly(b: Byte, base: nat)
    requires base == 10 || base == 16
    ensures (DigitOf(b).Some? && DigitOf(b).value < base) <==> IsDigit(b, base)
    ensures IsDigit(b, base) ==> DigitOf(b) == Some(Value(b))
  {
  }

  /** A text is a number exactly if it is digits, maybe after a plus, that stand for less than 2^64. */
  lemma NumbersExactly(s: Bytes, base: nat)
    requires base == 10 || base == 16
    ensures var t := if s != [] && s[0] == 0x2B then s[1..] else s;
            ParseNumber(s, base) == if AllDigits(t, base) && Amount(t, base) < U64 then Ok(Amount(t, base)) else Err
  {
    DigitsExactly(if s != [] && s[0] == 0x2B then s[1..] else s, base);
  }

  // ----- chunks -----

  /** A size line longer than 64 KiB is refused. */
  lemma LongLineIsRefused(line: Bytes, more: Bytes, body: Bytes)
    requires |line| > 0x1_0000 && LF !in line
    ensures Chunks(line + [LF] + more, body) == Err && Chunks(line, body) == Err
  {
    LineFound(line, more);
    NoFeed(line);
  }

  lemma {:induction false} NoFeed(s: Bytes)
    requires LF !in s
    ensures LineEnd(s) == |s|
  {
    if s != [] {
      NoFeed(s[1..]);
    }
  }

  /** A line that is read, with what follows it. */
  lemma LineTaken(line: Bytes, more: Bytes)
    requires |line| <= 0x1_0000 && LF !in line
    ensures ReadLine(line + [LF] + more, 0x1_0000) == Ok((line + [LF], more))
  {
    LineFound(line, more);
    assert (line + [LF] + more)[..|line| + 1] == line + [LF] && (line + [LF] + more)[|line| + 1..] == more;
  }

  /** The data of a chunk ends in CR LF. */
  predicate Closed(rest: Bytes, size: nat)
  {
    |rest| >= size + 2 && rest[size] == 0x0D && rest[size + 1] == 0x0A
  }

  lemma ClosedIsTaken(rest: Bytes, size: nat)
    ensures TakeChunk(rest, size) == if Closed(rest, size) then Ok((rest[..size], rest[size + 2..])) else Err
  {
    if |rest| >= size + 2 {
      assert rest[size..size + 2] == [rest[size], rest[size + 1]];
    }
  }

  /**
   * A chunk is refused exactly if its size is no number or too much for the body, or its data does not end in CR LF.
   */
  lemma ChunkIsRefused(line: Bytes, rest: Bytes, body: Bytes)
    requires |line| <= 0x1_0000 && LF !in line
    ensures var size := ChunkSize(line + [LF]);
            size != Ok(0) ==>
              Chunks(line + [LF] + rest, body)
              == if size.Err? || |body| + size.value > 0x1000_0000 || !Closed(rest, size.value) then Err
                 else Chunks(rest[size.value + 2..], body + rest[..size.value])
  {
    LineTaken(line, rest);
    var data, size := line + [LF] + rest, ChunkSize(line + [LF]);
    assert data != [] && ReadLine(data, MAX_HEADER_BYTES) == Ok((line + [LF], rest));
    if size.Ok? {
      ClosedIsTaken(rest, size.value);
    }
    if size != Ok(0) {
      ChunkUnfolds(data, body, line + [LF], rest);
    }
  }

  lemma ChunkUnfolds(data: Bytes, body: Bytes, line: Bytes, rest: Bytes)
    requires ReadLine(data, MAX_HEADER_BYTES) == Ok((line, rest)) && line != [] && ChunkSize(line) != Ok(0)
    ensures Chunks(data, body)
            == if ChunkSize(line).Err? || |body| + ChunkSize(line).value > MAX_BODY_BYTES
                  || TakeChunk(rest, ChunkSize(line).value).Err? then Err
               else Chunks(TakeChunk(rest, ChunkSize(line).value).value.1,
                           body + TakeChunk(rest, ChunkSize(line).value).value.0)
  {
  }
}

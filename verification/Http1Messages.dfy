/**
 * HTTP/1.1 messages as their senders write them (RFC 9112), and that they are read back: the framing headers in any
 * case of letters and any spelling of a number, and the responses that never have a body.
 */
module Http1Messages {
  import opened Common
  import opened Fields
  import opened StaticTables
  import opened Http1Body

  // ----- letters -----

  /** The same letter, small or capital, or the same byte. */
  predicate SameLetter(a: Byte, b: Byte)
  {
    a == b || (0x41 <= a <= 0x5A && b == a + 0x20) || (0x61 <= a <= 0x7A && b == a - 0x20)
  }

  predicate SameLetters(a: Bytes, b: Bytes)
  {
    |a| == |b| && forall i :: 0 <= i < |a| ==> SameLetter(a[i], b[i])
  }

  lemma SameMeans(a: Bytes, b: Bytes)
    ensures Same(a, b) <==> SameLetters(a, b)
  {
    if Same(a, b) {
      assert |Lower(a)| == |a| && |Lower(b)| == |b|;
      forall i | 0 <= i < |a|
        ensures SameLetter(a[i], b[i])
      {
        assert Lower(a)[i] == Lower(b)[i];
      }
    }
  }

  // ----- responses without a body -----

  /** HEAD in any case of letters, or a status 1xx, 204 or 304 (section 6.3). */
  predicate NeverHasBody(verb: Bytes, status: nat)
  {
    SameLetters(verb, [0x48, 0x45, 0x41, 0x44]) || 100 <= status <= 199 || status == 204 || status == 304
  }

  lemma BodilessExactly(verb: Bytes, status: nat)
    ensures Bodiless(status, verb) <==> NeverHasBody(verb, status)
  {
    assert Ascii("HEAD") == [0x48, 0x45, 0x41, 0x44];
    SameMeans(verb, Ascii("HEAD"));
  }

  /** Whatever their headers announce and whatever follows, nothing is taken for such a response. */
  lemma BodilessReadsNothing(data: Bytes, headers: seq<Field>, status: nat, verb: Bytes)
    requires NeverHasBody(verb, status)
    ensures ReadBody(data, headers, status, verb) == Ok(([], data))
  {
    BodilessExactly(verb, status);
  }

  // ----- numbers -----

  const SMALL: string := "0123456789abcdef"
  const CAPITAL: string := "0123456789ABCDEF"

  function DigitChar(d: nat, capital: bool): (b: Byte)
    requires d < 16
    ensures b < 128
  {
    if capital then Ascii(CAPITAL)[d] else Ascii(SMALL)[d]
  }

  function Over(n: nat, base: nat): nat { if base == 10 then n / 10 else n / 16 }

  function Last(n: nat, base: nat): (d: nat)
    requires base == 10 || base == 16
    ensures d < base && n == Times(Over(n, base), base) + d
  {
    if base == 10 then n % 10 else n % 16
  }

  function Times(v: nat, base: nat): nat { if base == 10 then 10 * v else 16 * v }

  function Written(n: nat, base: nat, capital: bool): (s: Bytes)
    requires base == 10 || base == 16
    ensures |s| > 0
    decreases n
  {
    if n < base then [DigitChar(n, capital)]
    else Written(Over(n, base), base, capital) + [DigitChar(Last(n, base), capital)]
  }

  predicate Blank(s: Bytes) { forall i :: 0 <= i < |s| ==> s[i] == 0x20 || s[i] == 0x09 }

  /** A number as it may stand in a header: blanks around it, a plus and zeros before its digits. */
  datatype Numeral = Numeral(n: nat, plus: bool, zeros: nat, before: Bytes, after: Bytes)

  function Zeros(k: nat): Bytes { seq(k, _ => 0x30) }

  function Digits(x: Numeral, base: nat, capital: bool): (s: Bytes)
    requires base == 10 || base == 16
    ensures |s| > 0
  {
    (if x.plus then [0x2B] else []) + Zeros(x.zeros) + Written(x.n, base, capital)
  }

  function Text(x: Numeral, base: nat, capital: bool): Bytes
    requires base == 10 || base == 16
  {
    x.before + Digits(x, base, capital) + x.after
  }

  predicate GoodNumeral(x: Numeral) { x.n < U64 && Blank(x.before) && Blank(x.after) }

  lemma DigitReads(d: nat, capital: bool)
    requires d < 16
    ensures DigitOf(DigitChar(d, capital)) == Some(d) && DigitChar(d, capital) != PLUS
  {
  }

  /** One more digit. */
  lemma NextDigit(s: Bytes, b: Byte, base: nat)
    requires (base == 10 || base == 16) && HexText(s) && DigitOf(b).Some? && DigitOf(b).value < base
    ensures HexText(s + [b])
    ensures DigitsValue(s + [b], base)
            == match DigitsValue(s, base)
               case Err => Err
               case Ok(v) => (var w := Times(v, base) + DigitOf(b).value; if w < U64 then Ok(w) else Err)
  {
    assert (s + [b])[..|s|] == s;
  }

  /** The text so far is a number. */
  predicate Means(s: Bytes, n: nat, base: nat)
    requires base == 10 || base == 16
  {
    HexText(s) && DigitsValue(s, base) == Ok(n)
  }

  lemma DigitAdded(s: Bytes, n: nat, base: nat, capital: bool)
    requires (base == 10 || base == 16) && Means(s, Over(n, base), base) && n < U64
    ensures Means(s + [DigitChar(Last(n, base), capital)], n, base)
  {
    DigitReads(Last(n, base), capital);
    NextDigit(s, DigitChar(Last(n, base), capital), base);
  }

  lemma {:induction false} ZerosRead(k: nat, n: nat, base: nat, capital: bool)
    requires (base == 10 || base == 16) && n < U64
    ensures Means(Zeros(k) + Written(n, base, capital), n, base)
    decreases n
  {
    if n < base {
      ZerosAreZero(k, base);
      DigitAdded(Zeros(k), n, base, capital);
    } else {
      var front := Written(Over(n, base), base, capital);
      ZerosRead(k, Over(n, base), base, capital);
      DigitAdded(Zeros(k) + front, n, base, capital);
      Associate(Zeros(k), front, [DigitChar(Last(n, base), capital)]);
    }
  }

  lemma {:induction false} ZerosAreZero(k: nat, base: nat)
    requires base == 10 || base == 16
    ensures Means(Zeros(k), 0, base)
  {
    if k > 0 {
      ZerosAreZero(k - 1, base);
      NextDigit(Zeros(k - 1), 0x30, base);
      assert Zeros(k) == Zeros(k - 1) + [0x30];
    }
  }

  lemma BlankTail(t: Bytes)
    requires t != [] && (t[|t| - 1] == 0x20 || t[|t| - 1] == 0x09)
    ensures WhiteTail(t) == 1
  {
  }

  lemma BlankHead(t: Bytes)
    requires t != [] && (t[0] == 0x20 || t[0] == 0x09)
    ensures WhiteHead(t) == 1
  {
  }

  lemma TrimOne(t: Bytes)
    ensures WhiteTail(t) == 1 ==> TrimRight(t) == TrimRight(t[..|t| - 1])
    ensures WhiteTail(t) == 0 ==> TrimRight(t) == t
  {
  }

  lemma {:induction false} TrimBlankRight(s: Bytes, after: Bytes)
    requires Blank(after) && WhiteTail(s) == 0
    ensures TrimRight(s + after) == s
    decreases |after|
  {
    if after == [] {
      assert s + after == s;
      TrimOne(s);
    } else {
      var t, front := s + after, after[..|after| - 1];
      BlankTail(t);
      TrimOne(t);
      assert t[..|t| - 1] == s + front;
      TrimBlankRight(s, front);
    }
  }

  lemma {:induction false} TrimBlankLeft(before: Bytes, s: Bytes)
    requires Blank(before) && WhiteHead(s) == 0
    ensures TrimLeft(before + s) == s
    decreases |before|
  {
    if before == [] {
      assert before + s == s;
    } else {
      var t := before + s;
      BlankHead(t);
      assert t[1..] == before[1..] + s;
      TrimBlankLeft(before[1..], s);
    }
  }

  /** Not blank at either end, nor any other white space. */
  predicate Tight(s: Bytes) { s != [] && forall i :: 0 <= i < |s| ==> 0x20 < s[i] < 0x7F }

  lemma TightHasNoWhite(s: Bytes, t: Bytes)
    requires Tight(s)
    ensures WhiteHead(s) == 0 && (s <= t ==> WhiteHead(t) == 0) && WhiteTail(s) == 0
    ensures |t| >= |s| && t[|t| - |s|..] == s ==> WhiteTail(t) == 0
  {
    FirstNotWhite(s);
    LastNotWhite(s);
    if s <= t {
      FirstNotWhite(t);
    }
    if |t| >= |s| && t[|t| - |s|..] == s {
      assert t[|t| - 1] == s[|s| - 1];
      LastNotWhite(t);
    }
  }

  lemma FirstNotWhite(s: Bytes)
    requires s != [] && 0x20 < s[0] < 0x7F
    ensures WhiteHead(s) == 0
  {
  }

  lemma LastNotWhite(s: Bytes)
    requires s != [] && 0x20 < s[|s| - 1] < 0x7F
    ensures WhiteTail(s) == 0
  {
  }

  lemma TrimTight(before: Bytes, s: Bytes, after: Bytes)
    requires Blank(before) && Tight(s) && Blank(after)
    ensures Trim(before + s + after) == s
  {
    TightHasNoWhite(s, before + s);
    TrimBlankRight(before + s, after);
    TrimBlankLeft(before, s);
  }

  /** The digits after the plus. */
  function Unsigned(x: Numeral, base: nat, capital: bool): Bytes
    requires base == 10 || base == 16
  {
    Zeros(x.zeros) + Written(x.n, base, capital)
  }

  /** What the bytes of a number can be. */
  lemma DigitsAre(x: Numeral, base: nat, capital: bool)
    requires (base == 10 || base == 16) && x.n < U64
    ensures forall i :: 0 <= i < |Digits(x, base, capital)| ==>
              Digits(x, base, capital)[i] == 0x2B || DigitOf(Digits(x, base, capital)[i]).Some?
    ensures Tight(Digits(x, base, capital))
  {
    ZerosRead(x.zeros, x.n, base, capital);
    var u, d := Unsigned(x, base, capital), Digits(x, base, capital);
    assert d == (if x.plus then [0x2B] else []) + u;
    forall i | 0 <= i < |d|
      ensures d[i] == 0x2B || DigitOf(d[i]).Some?
    {
      assert d[i] == 0x2B || d[i] in u;
    }
  }

  lemma UnsignedParses(x: Numeral, base: nat, capital: bool)
    requires (base == 10 || base == 16) && x.n < U64
    ensures ParseNumber(Unsigned(x, base, capital), base) == Ok(x.n)
    ensures ParseNumber([0x2B] + Unsigned(x, base, capital), base) == Ok(x.n)
  {
    var u := Unsigned(x, base, capital);
    ZerosRead(x.zeros, x.n, base, capital);
    assert u[0] in u;
    assert ([0x2B] + u)[1..] == u;
  }

  lemma DigitsParse(x: Numeral, base: nat, capital: bool)
    requires (base == 10 || base == 16) && x.n < U64
    ensures ParseNumber(Digits(x, base, capital), base) == Ok(x.n)
  {
    UnsignedParses(x, base, capital);
    var u := Unsigned(x, base, capital);
    assert Digits(x, base, capital) == if x.plus then [0x2B] + u else u;
  }

  /** Any spelling of a 64-bit number is read as that number. */
  lemma NumeralReads(x: Numeral, base: nat, capital: bool)
    requires (base == 10 || base == 16) && GoodNumeral(x)
    ensures ParseNumber(Trim(Text(x, base, capital)), base) == Ok(x.n)
  {
    DigitsAre(x, base, capital);
    TrimTight(x.before, Digits(x, base, capital), x.after);
    DigitsParse(x, base, capital);
  }

  /** No byte of a number is a comma, a semicolon or a line break. */
  lemma TextIsPlain(x: Numeral, base: nat, capital: bool)
    requires (base == 10 || base == 16) && GoodNumeral(x)
    ensures forall i :: 0 <= i < |Text(x, base, capital)| ==>
              var b := Text(x, base, capital)[i];
              b != 0x2C && b != 0x3B && b != 0x0D && b != 0x0A
  {
    DigitsAre(x, base, capital);
    var d, t := Digits(x, base, capital), Text(x, base, capital);
    forall i | 0 <= i < |t|
      ensures t[i] != 0x2C && t[i] != 0x3B && t[i] != 0x0D && t[i] != 0x0A
    {
      if |x.before| <= i < |x.before| + |d| {
        assert t[i] == d[i - |x.before|];
      }
    }
  }

  /** A chunk size in either case of letters, with its extension. */
  lemma ChunkSizeReads(x: Numeral, capital: bool, ext: Bytes)
    requires GoodNumeral(x) && (ext == [] || (ext[0] == 0x3B && !LineBreak(ext[|ext| - 1])))
    ensures ChunkSize(Text(x, 16, capital) + ext + [0x0D, 0x0A]) == Ok(x.n)
  {
    var t := Text(x, 16, capital);
    NumeralReads(x, 16, capital);
    TextIsPlain(x, 16, capital);
    assert t + ext + [0x0D, 0x0A] == (t + ext) + CRLF;
    TrimBreaks(t + ext);
    if ext == [] {
      assert t + ext == t;
      BeforeFound(t, [], 0x3B);
    } else {
      assert t + ext == t + [0x3B] + ext[1..];
      BeforeFound(t, ext[1..], 0x3B);
    }
  }

  // ----- comma lists -----

  function Joined(parts: seq<Bytes>): Bytes
    requires parts != []
  {
    if |parts| == 1 then parts[0] else parts[0] + [0x2C] + Joined(parts[1..])
  }

  predicate NoCommas(parts: seq<Bytes>) { forall i :: 0 <= i < |parts| ==> 0x2C !in parts[i] }

  lemma {:induction false} PartsJoined(parts: seq<Bytes>)
    requires parts != [] && NoCommas(parts)
    ensures Parts(Joined(parts)) == parts
  {
    var s := Joined(parts);
    if |parts| == 1 {
      BeforeFound(s, [], COMMA);
    } else {
      BeforeFound(parts[0], Joined(parts[1..]), COMMA);
      assert s[|parts[0]| + 1..] == Joined(parts[1..]);
      PartsJoined(parts[1..]);
    }
  }

  // ----- headers -----

  /** A token of a comma list, with blanks around it. */
  datatype Token = Token(before: Bytes, text: Bytes, after: Bytes)

  predicate GoodToken(t: Token) { Blank(t.before) && Tight(t.text) && 0x2C !in t.text && Blank(t.after) }

  function TokenText(t: Token): Bytes { t.before + t.text + t.after }

  /** A header line: one of those that frame a message or rule its connection, or any other. */
  datatype Line =
    | Length(name: Bytes, ns: seq<Numeral>)
    | Chunking(name: Bytes, value: Bytes)
    | Connecting(name: Bytes, ts: seq<Token>)
    | Other(f: Field)

  function NumeralTexts(ns: seq<Numeral>): (r: seq<Bytes>)
    ensures |r| == |ns|
  {
    seq(|ns|, i requires 0 <= i < |ns| => Text(ns[i], 10, false))
  }

  function TokenTexts(ts: seq<Token>): (r: seq<Bytes>)
    ensures |r| == |ts|
  {
    seq(|ts|, i requires 0 <= i < |ts| => TokenText(ts[i]))
  }

  predicate Proper(l: Line)
  {
    match l
    case Length(name, ns) =>
      SameLetters(name, Ascii("content-length")) && ns != [] && forall i :: 0 <= i < |ns| ==> GoodNumeral(ns[i])
    case Chunking(name, value) =>
      SameLetters(name, Ascii("transfer-encoding")) && SameLetters(value, Ascii("chunked"))
    case Connecting(name, ts) =>
      SameLetters(name, Ascii("connection")) && ts != [] && forall i :: 0 <= i < |ts| ==> GoodToken(ts[i])
    case Other(f) =>
      && !SameLetters(f.name, Ascii("content-length")) && !SameLetters(f.name, Ascii("transfer-encoding"))
      && !SameLetters(f.name, Ascii("connection"))
  }

  function FieldOf(l: Line): Field
    requires Proper(l)
  {
    match l
    case Length(name, ns) => Field(name, Joined(NumeralTexts(ns)))
    case Chunking(name, value) => Field(name, value)
    case Connecting(name, ts) => Field(name, Joined(TokenTexts(ts)))
    case Other(f) => f
  }

  predicate AllProper(ls: seq<Line>) { forall i :: 0 <= i < |ls| ==> Proper(ls[i]) }

  function HeadersOf(ls: seq<Line>): (r: seq<Field>)
    requires AllProper(ls)
    ensures |r| == |ls|
  {
    seq(|ls|, i requires 0 <= i < |ls| => FieldOf(ls[i]))
  }

  lemma NamesDiffer()
    ensures |Ascii("content-length")| == 14 && |Ascii("transfer-encoding")| == 17 && |Ascii("connection")| == 10
  {
  }

  /** What a line's name and value make of it. */
  lemma LineMeans(l: Line)
    requires Proper(l)
    ensures IsContentLength(FieldOf(l)) <==> l.Length?
    ensures IsTransferEncoding(FieldOf(l)) <==> l.Chunking?
    ensures IsChunked(FieldOf(l)) <==> l.Chunking?
    ensures Same(FieldOf(l).name, Ascii("connection")) <==> l.Connecting?
  {
    NamesDiffer();
    var f := FieldOf(l);
    SameMeans(f.name, Ascii("content-length"));
    SameMeans(f.name, Ascii("transfer-encoding"));
    SameMeans(f.name, Ascii("connection"));
    SameMeans(f.value, Ascii("chunked"));
  }

  predicate AnyLength(ls: seq<Line>) { exists i :: 0 <= i < |ls| && ls[i].Length? }

  predicate AnyChunking(ls: seq<Line>) { exists i :: 0 <= i < |ls| && ls[i].Chunking? }

  lemma HeadersMean(ls: seq<Line>)
    requires AllProper(ls)
    ensures Has(HeadersOf(ls), IsContentLength) <==> AnyLength(ls)
    ensures Has(HeadersOf(ls), IsTransferEncoding) <==> AnyChunking(ls)
    ensures Has(HeadersOf(ls), IsChunked) <==> AnyChunking(ls)
  {
    forall i | 0 <= i < |ls|
      ensures IsContentLength(HeadersOf(ls)[i]) <==> ls[i].Length?
      ensures IsTransferEncoding(HeadersOf(ls)[i]) <==> ls[i].Chunking?
      ensures IsChunked(HeadersOf(ls)[i]) <==> ls[i].Chunking?
    {
      LineMeans(ls[i]);
    }
    if AnyLength(ls) {
      var i :| 0 <= i < |ls| && ls[i].Length?;
      assert IsContentLength(HeadersOf(ls)[i]);
    }
    if AnyChunking(ls) {
      var i :| 0 <= i < |ls| && ls[i].Chunking?;
      assert IsTransferEncoding(HeadersOf(ls)[i]) && IsChunked(HeadersOf(ls)[i]);
    }
  }

  /** Every number in every Content-Length line is `n`. */
  predicate AllLengths(ls: seq<Line>, n: nat)
  {
    forall i :: 0 <= i < |ls| && ls[i].Length? ==> forall j :: 0 <= j < |ls[i].ns| ==> ls[i].ns[j].n == n
  }

  lemma LengthSays(l: Line, n: nat)
    requires Proper(l) && l.Length?
    ensures Parts(FieldOf(l).value) == NumeralTexts(l.ns)
    ensures AllSay(Parts(FieldOf(l).value), n) <==> forall j :: 0 <= j < |l.ns| ==> l.ns[j].n == n
  {
    var texts := NumeralTexts(l.ns);
    forall j | 0 <= j < |l.ns|
      ensures 0x2C !in texts[j] && ParseNumber(Trim(texts[j]), 10) == Ok(l.ns[j].n)
    {
      TextIsPlain(l.ns[j], 10, false);
      NumeralReads(l.ns[j], 10, false);
    }
    PartsJoined(texts);
  }

  lemma {:induction false} LengthsSay(ls: seq<Line>, n: nat)
    requires AllProper(ls)
    ensures AllSay(AllParts(HeadersOf(ls)), n) <==> AllLengths(ls, n)
    ensures AllParts(HeadersOf(ls)) != [] <==> AnyLength(ls)
  {
    HeadersMean(ls);
    PartsExist(HeadersOf(ls));
    if ls != [] {
      LineMeans(ls[0]);
      assert HeadersOf(ls)[1..] == HeadersOf(ls[1..]);
      LengthsSay(ls[1..], n);
      var first := if ls[0].Length? then Parts(FieldOf(ls[0]).value) else [];
      if ls[0].Length? {
        LengthSays(ls[0], n);
      }
      AllSayBoth(first, AllParts(HeadersOf(ls[1..])), n);
      assert AllLengths(ls, n) <==> AllLengths(ls[..1], n) && AllLengths(ls[1..], n) by {
        LengthsSplit(ls, n);
      }
      assert AllSay([], n);
    }
  }

  lemma LengthsSplit(ls: seq<Line>, n: nat)
    requires ls != []
    ensures AllLengths(ls, n) <==> AllLengths(ls[..1], n) && AllLengths(ls[1..], n)
  {
    if AllLengths(ls[..1], n) && AllLengths(ls[1..], n) {
      forall i | 0 <= i < |ls| && ls[i].Length?
        ensures forall j :: 0 <= j < |ls[i].ns| ==> ls[i].ns[j].n == n
      {
        if i == 0 {
          assert ls[..1][0] == ls[0];
        } else {
          assert ls[1..][i - 1] == ls[i];
        }
      }
    }
    if AllLengths(ls, n) {
      assert ls[..1][0] == ls[0];
      forall i | 0 <= i < |ls[1..]| && ls[1..][i].Length?
        ensures forall j :: 0 <= j < |ls[1..][i].ns| ==> ls[1..][i].ns[j].n == n
      {
        assert ls[1..][i] == ls[i + 1];
      }
    }
  }

  // ----- many messages on one connection -----

  /** A response as its sender framed it, to a request with method `verb`. */
  datatype Message =
    | NoBody(verb: Bytes, status: nat, lines: seq<Line>)
    | InChunks(verb: Bytes, status: nat, lines: seq<Line>, chunks: seq<Chunk>, trailers: seq<Bytes>)
    | Sized(verb: Bytes, status: nat, lines: seq<Line>, body: Bytes)

  function BodyOf(m: Message): Bytes
  {
    match m case NoBody(_, _, _) => [] case InChunks(_, _, _, cs, _) => Payload(cs) case Sized(_, _, _, body) => body
  }

  function Wire(m: Message): Bytes
  {
    match m
    case NoBody(_, _, _) => []
    case InChunks(_, _, _, cs, ts) => Chunked(cs, ts)
    case Sized(_, _, _, body) => body
  }

  /** The headers announce the framing that was used, and the body is within the limit. */
  predicate Framed(m: Message)
  {
    && |BodyOf(m)| <= MAX_BODY_BYTES && AllProper(m.lines) && (m.NoBody? <==> NeverHasBody(m.verb, m.status))
    && (m.InChunks? ==>
          && AnyChunking(m.lines) && !AnyLength(m.lines)
          && (forall i :: 0 <= i < |m.chunks| ==> GoodChunk(m.chunks[i]))
          && (forall i :: 0 <= i < |m.trailers| ==> GoodTrailer(m.trailers[i])))
    && (m.Sized? ==> !AnyChunking(m.lines) && AnyLength(m.lines) && AllLengths(m.lines, |m.body|))
  }

  function WireAll(ms: seq<Message>): Bytes { if ms == [] then [] else Wire(ms[0]) + WireAll(ms[1..]) }

  function BodiesOf(ms: seq<Message>): seq<Bytes> { if ms == [] then [] else [BodyOf(ms[0])] + BodiesOf(ms[1..]) }

  predicate AllFramed(ms: seq<Message>) { forall i :: 0 <= i < |ms| ==> Framed(ms[i]) }

  /** Reads the bodies one after the other, each by its own headers, status and method. */
  function ReadBodies(data: Bytes, ms: seq<Message>): Result<(seq<Bytes>, Bytes)>
    requires AllFramed(ms)
    decreases |ms|
  {
    if ms == [] then Ok(([], data))
    else
      match ReadBody(data, HeadersOf(ms[0].lines), ms[0].status, ms[0].verb)
      case Err => Err
      case Ok((body, rest)) =>
        match ReadBodies(rest, ms[1..])
        case Err => Err
        case Ok((bodies, last)) => Ok(([body] + bodies, last))
  }

  lemma BodyReads(m: Message, more: Bytes)
    requires Framed(m)
    ensures ReadBody(Wire(m) + more, HeadersOf(m.lines), m.status, m.verb) == Ok((BodyOf(m), more))
  {
    BodilessExactly(m.verb, m.status);
    HeadersMean(m.lines);
    match m
    case NoBody(_, _, _) => assert [] + more == more;
    case InChunks(_, _, _, cs, ts) => ChunkedRoundTrip(cs, ts, more);
    case Sized(_, _, lines, body) =>
      LengthsSay(lines, |body|);
      ContentLengthAgrees(HeadersOf(lines), |body|);
      assert (body + more)[..|body|] == body && (body + more)[|body|..] == more;
  }

  /** Responses sent back to back are read back as they were sent, and nothing of what follows is consumed. */
  lemma {:induction false} BackToBack(ms: seq<Message>, more: Bytes)
    requires AllFramed(ms)
    ensures ReadBodies(WireAll(ms) + more, ms) == Ok((BodiesOf(ms), more))
    decreases |ms|
  {
    if ms == [] {
      assert [] + more == more;
    } else {
      assert WireAll(ms) + more == Wire(ms[0]) + (WireAll(ms[1..]) + more);
      BodyReads(ms[0], WireAll(ms[1..]) + more);
      BackToBack(ms[1..], more);
    }
  }

  /**
   * Any other response: both framings are refused, conflicting lengths too, and without either it lasts to the end of
   * input.
   */
  lemma OtherwiseFramed(lines: seq<Line>, status: nat, verb: Bytes, data: Bytes, n: nat)
    requires AllProper(lines) && !NeverHasBody(verb, status)
    ensures AnyChunking(lines) && AnyLength(lines) ==> ReadBody(data, HeadersOf(lines), status, verb) == Err
    ensures !AnyChunking(lines) && AnyLength(lines) && !(exists k: nat :: AllLengths(lines, k))
            ==> ReadBody(data, HeadersOf(lines), status, verb) == Err
    ensures !AnyChunking(lines) && AnyLength(lines) && AllLengths(lines, n) && (n > MAX_BODY_BYTES || |data| < n)
            ==> ReadBody(data, HeadersOf(lines), status, verb) == Err
    ensures !AnyChunking(lines) && !AnyLength(lines)
            ==> var k := Min(|data|, 0x1000_0000);
                ReadBody(data, HeadersOf(lines), status, verb) == Ok((data[..k], data[k..]))
  {
    var headers := HeadersOf(lines);
    BodilessExactly(verb, status);
    HeadersMean(lines);
    LengthsSay(lines, n);
    ContentLengthAgrees(headers, n);
    if !AnyChunking(lines) && AnyLength(lines) && ContentLength(headers, None).Ok? {
      var k := LengthFound(headers);
      ContentLengthAgrees(headers, k);
      LengthsSay(lines, k);
    }
  }

  // ----- reuse -----

  predicate Lists(ls: seq<Line>, token: Bytes)
  {
    exists i, j :: 0 <= i < |ls| && ls[i].Connecting? && 0 <= j < |ls[i].ts| && SameLetters(ls[i].ts[j].text, token)
  }

  lemma TokenReads(t: Token)
    requires GoodToken(t)
    ensures Trim(TokenText(t)) == t.text && 0x2C !in TokenText(t)
  {
    TrimTight(t.before, t.text, t.after);
    forall i | 0 <= i < |TokenText(t)|
      ensures TokenText(t)[i] != 0x2C
    {
      if |t.before| <= i < |t.before| + |t.text| {
        assert TokenText(t)[i] == t.text[i - |t.before|];
      }
    }
  }

  lemma LineMentions(l: Line, token: Bytes)
    requires Proper(l)
    ensures Connection(FieldOf(l), token)
            <==> l.Connecting? && exists j :: 0 <= j < |l.ts| && SameLetters(l.ts[j].text, token)
  {
    LineMeans(l);
    if l.Connecting? {
      var texts := TokenTexts(l.ts);
      forall j | 0 <= j < |l.ts|
        ensures 0x2C !in texts[j] && (Same(Trim(texts[j]), token) <==> SameLetters(l.ts[j].text, token))
      {
        TokenReads(l.ts[j]);
        SameMeans(l.ts[j].text, token);
      }
      PartsJoined(texts);
    }
  }

  lemma ConnectionListed(ls: seq<Line>, token: Bytes, p: Field -> bool)
    requires AllProper(ls) && forall f :: p(f) <==> Connection(f, token)
    ensures Has(HeadersOf(ls), p) <==> Lists(ls, token)
  {
    forall i | 0 <= i < |ls|
      ensures p(HeadersOf(ls)[i])
              <==> ls[i].Connecting? && exists j :: 0 <= j < |ls[i].ts| && SameLetters(ls[i].ts[j].text, token)
    {
      LineMentions(ls[i], token);
    }
    if Lists(ls, token) {
      var i, j :| 0 <= i < |ls| && ls[i].Connecting? && 0 <= j < |ls[i].ts| && SameLetters(ls[i].ts[j].text, token);
      assert p(HeadersOf(ls)[i]);
    }
  }

  /**
   * A connection is kept exactly when no `close` is listed, the response is framed or has no body, and the version is
   * 1.1 or `keep-alive` is listed.
   */
  lemma ReusableExactly(ls: seq<Line>, status: nat, verb: Bytes, http11: bool)
    requires AllProper(ls)
    ensures Reusable(HeadersOf(ls), status, verb, http11)
            <==> (&& !Lists(ls, Ascii("close")) && (http11 || Lists(ls, Ascii("keep-alive")))
                  && (AnyLength(ls) || AnyChunking(ls) || NeverHasBody(verb, status)))
  {
    BodilessExactly(verb, status);
    HeadersMean(ls);
    ConnectionListed(ls, Ascii("close"), IsClose);
    ConnectionListed(ls, Ascii("keep-alive"), IsKeepAlive);
  }
}

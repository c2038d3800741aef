/** Field sections (section 4.5 of RFC 9204): their decoder, the static-only encoder, and references of every kind. */
module QpackFields {
  import opened Common
  import opened Fields
  import opened QpackTable
  import opened QpackIndex
  import Hpack
  import opened HpackRuns
  import opened Spellings
  import PI = PrefixInteger
  import H = Huffman

  // ----- decoder -----

  function StaticEntry(c: Hpack.Tables, idx: nat): Result<Field>
  {
    if idx < |c.fields| then Ok(c.fields[idx]) else Err
  }

  function DynamicEntry(t: TableState, abs: Result<nat>): Result<Field>
  {
    match abs case Err => Err case Ok(a) => GetAbsolute(t, a)
  }

  /** The entry an index names: static, or dynamic and counted back from Base. */
  function EntryAt(c: Hpack.Tables, t: TableState, base: nat, static_: bool, idx: nat): Result<Field>
  {
    if static_ then StaticEntry(c, idx) else DynamicEntry(t, RelativeToAbsolute(base, idx))
  }

  /** A field whose name is known and whose value follows at `n`. */
  ghost function WithValue(c: Hpack.Tables, name: seq<Byte>, buf: seq<Byte>, n: nat): (r: Result<(Field, nat)>)
    requires n <= |buf|
    ensures r.Ok? ==> n < r.value.1 <= |buf|
  {
    match Hpack.ReadString(c, buf[n..])
    case Err => Err
    case Ok((value, k)) => Ok((Field(name, value), n + k))
  }

  /** A name of `len` bytes at `n`, then its value. */
  ghost function WithNameAndValue(c: Hpack.Tables, huffman: bool, buf: seq<Byte>, n: nat,
                                  len: nat): (r: Result<(Field, nat)>)
    requires n <= |buf|
    ensures r.Ok? ==> n < r.value.1 <= |buf|
  {
    if n + len > |buf| then Err
    else
      var raw := buf[n..n + len];
      var name := if huffman then Hpack.HuffmanText(c, raw) else Ok(raw);
      if name.Err? || !c.isText(name.value) then Err else WithValue(c, name.value, buf, n + len)
  }

  /** One field line, by the pattern of its first byte. */
  ghost function ReadLine(c: Hpack.Tables, t: TableState, base: nat, buf: seq<Byte>): (r: Result<(Field, nat)>)
    requires buf != []
    ensures r.Ok? ==> 0 < r.value.1 <= |buf|
  {
    var b: nat := buf[0];
    if b >= 0x80 then
      match PI.DecodeIntSpec(buf, 6)
      case Err => Err
      case Ok((idx, n)) => Whole(EntryAt(c, t, base, b / 64 % 2 == 1, idx), n)
    else if b >= 0x40 then
      match PI.DecodeIntSpec(buf, 4)
      case Err => Err
      case Ok((idx, n)) => Named(c, EntryAt(c, t, base, b / 16 % 2 == 1, idx), buf, n)
    else if b >= 0x20 then
      match PI.DecodeIntSpec(buf, 3)
      case Err => Err
      case Ok((len, n)) => WithNameAndValue(c, b / 8 % 2 == 1, buf, n, len)
    else if b >= 0x10 then
      match PI.DecodeIntSpec(buf, 4)
      case Err => Err
      case Ok((idx, n)) => Whole(DynamicEntry(t, PostBaseToAbsolute(base, idx)), n)
    else
      match PI.DecodeIntSpec(buf, 3)
      case Err => Err
      case Ok((idx, n)) => Named(c, DynamicEntry(t, PostBaseToAbsolute(base, idx)), buf, n)
  }

  function Whole(entry: Result<Field>, n: nat): Result<(Field, nat)>
  {
    if entry.Ok? then Ok((entry.value, n)) else Err
  }

  ghost function Named(c: Hpack.Tables, entry: Result<Field>, buf: seq<Byte>, n: nat): (r: Result<(Field, nat)>)
    requires n <= |buf|
    ensures r.Ok? ==> n < r.value.1 <= |buf|
  {
    if entry.Ok? then WithValue(c, entry.value.name, buf, n) else Err
  }

  /** The lines after `out`, within the cap on the decoded list. */
  ghost function DecodeLines(c: Hpack.Tables, t: TableState, base: nat, buf: seq<Byte>,
                             out: seq<Field>): Result<seq<Field>>
    decreases |buf|
  {
    if buf == [] then Ok(out)
    else
      match ReadLine(c, t, base, buf)
      case Err => Err
      case Ok((f, n)) =>
        if ListSize(out + [f]) > MAX_DECODED_HEADER_LIST then Err
        else DecodeLines(c, t, base, buf[n..], out + [f])
  }

  /** The prefix of a section: Required Insert Count, then Base, then where the lines start. */
  ghost function ReadPrefix(t: TableState, buf: seq<Byte>): (r: Result<(nat, nat, nat)>)
    ensures r.Ok? ==> r.value.2 <= |buf|
  {
    match PI.DecodeIntSpec(buf, 8)
    case Err => Err
    case Ok((encoded, n1)) =>
      match DecodeRequired(encoded, t.insertCount)
      case Err => Err
      case Ok(ric) =>
        if ric > t.insertCount || n1 >= |buf| then Err
        else
          match PI.DecodeIntSpec(buf[n1..], 7)
          case Err => Err
          case Ok((delta, n2)) =>
            match DecodeBase(buf[n1] >= 0x80, delta, ric)
            case Err => Err
            case Ok(base) => Ok((ric, base, n1 + n2))
  }

  ghost function DecodeSection(c: Hpack.Tables, t: TableState, buf: seq<Byte>): Result<seq<Field>>
  {
    match ReadPrefix(t, buf)
    case Err => Err
    case Ok((_, base, n)) => DecodeLines(c, t, base, buf[n..], [])
  }

  // ----- encoders -----

  function EncodeText(s: seq<Byte>): (out: seq<Byte>) { PI.Encode(|s|, 7) + s }

  /** What the client's encoder writes for one field: it refers to the static table only. */
  function EncodeField(c: Hpack.Tables, f: Field): (out: seq<Byte>)
    ensures |out| > 0
  {
    match FindField(c.fields, f, 0)
    case Some(i) => Hpack.Flagged(PI.Encode(i, 6), 0xC0)
    case None =>
      match FindName(c.fields, f.name, 0)
      case Some(i) => Hpack.Flagged(PI.Encode(i, 4), 0x50) + EncodeText(f.value)
      case None => Hpack.Flagged(PI.Encode(|f.name|, 3), 0x20) + f.name + EncodeText(f.value)
  }

  function EncodeFields(c: Hpack.Tables, fs: seq<Field>): seq<Byte>
  {
    if fs == [] then [] else EncodeField(c, fs[0]) + EncodeFields(c, fs[1..])
  }

  function EncodeSection(c: Hpack.Tables, fs: seq<Field>): seq<Byte> { [0, 0] + EncodeFields(c, fs) }

  /** Where an entry lies: in the static table, or in the log of insertions. */
  datatype Place = InStatic(index: nat) | InLog(abs: nat)

  /** A line of a peer's section, of any of the kinds of sections 4.5.2 to 4.5.6; `never` is the never-index bit. */
  datatype Ref =
    | Entry(at: Place)
    | EntryName(at: Place, never: bool, value: Spelling)
    | Literal(never: bool, name: Spelling, value: Spelling)

  function EncodeEntry(base: nat, at: Place): (out: seq<Byte>)
    ensures |out| > 0
  {
    match at
    case InStatic(i) => Hpack.Flagged(PI.Encode(i, 6), 0xC0)
    case InLog(a) =>
      if a < base then Hpack.Flagged(PI.Encode(base - 1 - a, 6), 0x80) else Hpack.Flagged(PI.Encode(a - base, 4), 0x10)
  }

  /** The reference of a line that goes on with a value. */
  function EncodeName(base: nat, at: Place, never: bool): (out: seq<Byte>)
    ensures |out| > 0
  {
    match at
    case InStatic(i) => Hpack.Flagged(PI.Encode(i, 4), if never then 0x70 else 0x50)
    case InLog(a) =>
      if a < base then Hpack.Flagged(PI.Encode(base - 1 - a, 4), if never then 0x60 else 0x40)
      else Hpack.Flagged(PI.Encode(a - base, 3), if never then 0x08 else 0x00)
  }

  /** The pattern of a literal name: never-index and Huffman bits above the length. */
  function NameFlag(never: bool,
                    huffman: bool): nat { 0x20 + (if never then 0x10 else 0) + if huffman then 0x08 else 0 }

  function EncodeLiteralName(c: Hpack.Tables, never: bool, name: Spelling): (out: seq<Byte>)
    requires |c.huffman| == 257
    ensures |out| > 0
  {
    Hpack.Flagged(PI.Encode(|Written(c, name)|, 3), NameFlag(never, name.huffman)) + Written(c, name)
  }

  /** The form of an entry in the log depends on which side of Base it lies. */
  function EncodeRef(c: Hpack.Tables, base: nat, ref: Ref): (out: seq<Byte>)
    requires |c.huffman| == 257
    ensures |out| > 0
  {
    match ref
    case Entry(at) => EncodeEntry(base, at)
    case EntryName(at, never, value) => EncodeName(base, at, never) + EncodeSpelled(c, value)
    case Literal(never, name, value) => EncodeLiteralName(c, never, name) + EncodeSpelled(c, value)
  }

  function EncodeRefs(c: Hpack.Tables, base: nat, refs: seq<Ref>): seq<Byte>
    requires |c.huffman| == 257
  {
    if refs == [] then [] else EncodeRef(c, base, refs[0]) + EncodeRefs(c, base, refs[1..])
  }

  function EncodePrefix(ric: nat, base: nat): seq<Byte>
  {
    PI.Encode(EncodeRequired(ric), 8)
      + Hpack.Flagged(PI.Encode(DeltaBase(ric, base), 7), if BaseSign(ric, base) then 0x80 else 0)
  }

  // ----- what the lines mean -----

  predicate Present(c: Hpack.Tables, t: TableState, log: seq<Field>, at: Place)
  {
    match at case InStatic(i) => i < |c.fields| case InLog(a) => t.dropped <= a < |log|
  }

  function EntryOf(c: Hpack.Tables, log: seq<Field>, at: Place): Field
    requires match at case InStatic(i) => i < |c.fields| case InLog(a) => a < |log|
  {
    match at case InStatic(i) => c.fields[i] case InLog(a) => log[a]
  }

  /** Entries it names are in the static table, or inserted and not dropped yet. */
  predicate Referable(c: Hpack.Tables, t: TableState, log: seq<Field>, ref: Ref)
  {
    ref.Literal? || Present(c, t, log, ref.at)
  }

  /** The field a line stands for, in terms of the static table and the insertion log alone. */
  function Meaning(c: Hpack.Tables, t: TableState, log: seq<Field>, ref: Ref): Field
    requires Referable(c, t, log, ref)
  {
    match ref
    case Entry(at) => EntryOf(c, log, at)
    case EntryName(at, _, value) => Field(EntryOf(c, log, at).name, value.text)
    case Literal(_, name, value) => Field(name.text, value.text)
  }

  predicate AllReferable(c: Hpack.Tables, t: TableState, log: seq<Field>, refs: seq<Ref>)
  {
    forall i :: 0 <= i < |refs| ==> Referable(c, t, log, refs[i])
  }

  function Meanings(c: Hpack.Tables, t: TableState, log: seq<Field>, refs: seq<Ref>): seq<Field>
    requires AllReferable(c, t, log, refs)
  {
    if refs == [] then []
    else
      [Meaning(c, t, log, refs[0])] + Meanings(c, t, log, refs[1..])
  }

  predicate Sendable(c: Hpack.Tables, ref: Ref)
  {
    match ref
    case Entry(_) => true
    case EntryName(_, _, value) => Spellable(c, value)
    case Literal(_, name, value) => Spellable(c, name) && Spellable(c, value)
  }

  predicate AllSendable(c: Hpack.Tables, refs: seq<Ref>) { forall i :: 0 <= i < |refs| ==> Sendable(c, refs[i]) }

  // ----- each kind of line reads back -----

  /** Flags above a prefix do not disturb it. */
  lemma Flags3(e: Byte, flag: nat)
    requires e <= 7 && (flag == 0 || flag == 0x08 || flag == 0x20 || flag == 0x28 || flag == 0x30 || flag == 0x38)
    ensures PI.LowBits(e + flag, 3) == e
  {
  }

  lemma Flags4(e: Byte, flag: nat)
    requires e <= 15 && (flag == 0x10 || flag == 0x40 || flag == 0x50 || flag == 0x60 || flag == 0x70)
    ensures PI.LowBits(e + flag, 4) == e
  {
  }

  lemma Flags6(e: Byte, flag: nat)
    requires e <= 63 && (flag == 0x80 || flag == 0xC0)
    ensures PI.LowBits(e + flag, 6) == e
  {
  }

  lemma ValueReads(c: Hpack.Tables, name: seq<Byte>, head: seq<Byte>, value: Spelling, more: seq<Byte>)
    requires ValidTables(c) && Spellable(c, value)
    ensures WithValue(c, name, head + EncodeSpelled(c, value) + more, |head|)
            == Ok((Field(name, value.text), |head| + |EncodeSpelled(c, value)|))
  {
    SpelledReads(c, value, more);
    assert (head + EncodeSpelled(c, value) + more)[|head|..] == EncodeSpelled(c, value) + more;
  }

  lemma SliceOf(head: seq<Byte>, raw: seq<Byte>, value: seq<Byte>, more: seq<Byte>)
    ensures var buf := head + raw + value + more;
            |head| + |raw| <= |buf| && buf[|head|..|head| + |raw|] == raw
  {
  }

  lemma NameReads(c: Hpack.Tables, head: seq<Byte>, name: Spelling, value: Spelling, more: seq<Byte>)
    requires ValidTables(c) && Spellable(c, name) && Spellable(c, value)
    ensures WithNameAndValue(c, name.huffman, head + Written(c, name) + EncodeSpelled(c, value) + more, |head|,
                             |Written(c, name)|)
            == Ok((Field(name.text, value.text), |head| + |Written(c, name)| + |EncodeSpelled(c, value)|))
  {
    var raw := Written(c, name);
    ValueReads(c, name.text, head + raw, value, more);
    if name.huffman {
      HuffmanTextRoundTrip(c, name.text);
    }
    SliceOf(head, raw, EncodeSpelled(c, value), more);
  }

  lemma IntReads(v: nat, p: nat, flag: nat, more: seq<Byte>)
    requires 1 <= p <= 8 && v < U64 && flag + PI.Limit(p) < 256
    requires PI.LowBits(PI.Encode(v, p)[0] + flag, p) == PI.Encode(v, p)[0]
    ensures var e := Hpack.Flagged(PI.Encode(v, p), flag);
            PI.DecodeIntSpec(e + more, p) == Ok((v, |e|)) && (e + more)[0] == PI.Encode(v, p)[0] + flag
  {
    FlaggedRead(v, p, flag, more);
  }

  // the first byte selects the form

  lemma StaticForm(c: Hpack.Tables, t: TableState, base: nat, buf: seq<Byte>, idx: nat, n: nat)
    requires buf != [] && buf[0] >= 0xC0 && PI.DecodeIntSpec(buf, 6) == Ok((idx, n))
    ensures ReadLine(c, t, base, buf) == Whole(StaticEntry(c, idx), n)
  {
  }

  lemma RelativeForm(c: Hpack.Tables, t: TableState, base: nat, buf: seq<Byte>, idx: nat, n: nat)
    requires buf != [] && 0x80 <= buf[0] < 0xC0 && PI.DecodeIntSpec(buf, 6) == Ok((idx, n))
    ensures ReadLine(c, t, base, buf) == Whole(DynamicEntry(t, RelativeToAbsolute(base, idx)), n)
  {
  }

  lemma StaticNameForm(c: Hpack.Tables, t: TableState, base: nat, buf: seq<Byte>, idx: nat, n: nat)
    requires buf != [] && (0x50 <= buf[0] < 0x60 || 0x70 <= buf[0] < 0x80) && PI.DecodeIntSpec(buf, 4) == Ok((idx, n))
    ensures ReadLine(c, t, base, buf) == Named(c, StaticEntry(c, idx), buf, n)
  {
  }

  lemma RelativeNameForm(c: Hpack.Tables, t: TableState, base: nat, buf: seq<Byte>, idx: nat, n: nat)
    requires buf != [] && (0x40 <= buf[0] < 0x50 || 0x60 <= buf[0] < 0x70) && PI.DecodeIntSpec(buf, 4) == Ok((idx, n))
    ensures ReadLine(c, t, base, buf) == Named(c, DynamicEntry(t, RelativeToAbsolute(base, idx)), buf, n)
  {
  }

  lemma LiteralForm(c: Hpack.Tables, t: TableState, base: nat, buf: seq<Byte>, never: bool, huffman: bool, e: Byte,
                    len: nat, n: nat)
    requires buf != [] && e <= 7 && buf[0] == e + NameFlag(never, huffman) && PI.DecodeIntSpec(buf, 3) == Ok((len, n))
    ensures ReadLine(c, t, base, buf) == WithNameAndValue(c, huffman, buf, n, len)
  {
    NameFlagReads(e, never, huffman);
  }

  lemma NameFlagReads(e: Byte, never: bool, huffman: bool)
    requires e <= 7
    ensures var b := e + NameFlag(never, huffman);
            0x20 <= b < 0x40 && (b / 8 % 2 == 1 <==> huffman)
  {
  }

  lemma PostBaseForm(c: Hpack.Tables, t: TableState, base: nat, buf: seq<Byte>, idx: nat, n: nat)
    requires buf != [] && 0x10 <= buf[0] < 0x20 && PI.DecodeIntSpec(buf, 4) == Ok((idx, n))
    ensures ReadLine(c, t, base, buf) == Whole(DynamicEntry(t, PostBaseToAbsolute(base, idx)), n)
  {
  }

  lemma PostBaseNameForm(c: Hpack.Tables, t: TableState, base: nat, buf: seq<Byte>, idx: nat, n: nat)
    requires buf != [] && buf[0] < 0x10 && PI.DecodeIntSpec(buf, 3) == Ok((idx, n))
    ensures ReadLine(c, t, base, buf) == Named(c, DynamicEntry(t, PostBaseToAbsolute(base, idx)), buf, n)
  {
  }

  lemma StaticLineReads(c: Hpack.Tables, t: TableState, base: nat, i: nat, more: seq<Byte>)
    requires i < |c.fields| < U64
    ensures var e := EncodeEntry(base, InStatic(i));
            ReadLine(c, t, base, e + more) == Ok((c.fields[i], |e|))
  {
    Flags6(PI.Encode(i, 6)[0], 0xC0);
    IntReads(i, 6, 0xC0, more);
    var e := EncodeEntry(base, InStatic(i));
    StaticForm(c, t, base, e + more, i, |e|);
  }

  /** What reading a line does once its name is known and `head` was its reference. */
  lemma NamedReads(c: Hpack.Tables, entry: Field, head: seq<Byte>, value: Spelling, more: seq<Byte>)
    requires ValidTables(c) && Spellable(c, value)
    ensures var out := head + EncodeSpelled(c, value);
            Named(c, Ok(entry), out + more, |head|) == Ok((Field(entry.name, value.text), |out|))
  {
    ValueReads(c, entry.name, head, value, more);
  }

  lemma StaticNameReads(c: Hpack.Tables, t: TableState, base: nat, i: nat, never: bool, rest: seq<Byte>)
    requires i < |c.fields| < U64
    ensures var head := EncodeName(base, InStatic(i), never);
            ReadLine(c, t, base, head + rest) == Named(c, Ok(c.fields[i]), head + rest, |head|)
  {
    var flag := if never then 0x70 else 0x50;
    var head := EncodeName(base, InStatic(i), never);
    Flags4(PI.Encode(i, 4)[0], flag);
    IntReads(i, 4, flag, rest);
    StaticNameForm(c, t, base, head + rest, i, |head|);
  }

  lemma LiteralNameReads(c: Hpack.Tables, t: TableState, base: nat, never: bool, name: Spelling, rest: seq<Byte>,
                         buf: seq<Byte>)
    requires Spellable(c, name) && buf == EncodeLiteralName(c, never, name) + rest
    ensures ReadLine(c, t, base, buf)
            == WithNameAndValue(c, name.huffman, buf, |PI.Encode(|Written(c, name)|, 3)|, |Written(c, name)|)
  {
    var raw, flag := Written(c, name), NameFlag(never, name.huffman);
    var e := PI.Encode(|raw|, 3);
    var head := Hpack.Flagged(e, flag);
    Flags3(e[0], flag);
    IntReads(|raw|, 3, flag, raw + rest);
    Associate(head, raw, rest);
    LiteralForm(c, t, base, buf, never, name.huffman, e[0], |raw|, |head|);
  }

  lemma LiteralTextsRead(c: Hpack.Tables, never: bool, name: Spelling, value: Spelling, more: seq<Byte>, buf: seq<Byte>)
    requires ValidTables(c) && Spellable(c, name) && Spellable(c, value)
    requires buf == EncodeLiteralName(c, never, name) + EncodeSpelled(c, value) + more
    ensures WithNameAndValue(c, name.huffman, buf, |PI.Encode(|Written(c, name)|, 3)|, |Written(c, name)|)
            == Ok((Field(name.text, value.text), |EncodeLiteralName(c, never, name)| + |EncodeSpelled(c, value)|))
  {
    NameReads(c, Hpack.Flagged(PI.Encode(|Written(c, name)|, 3), NameFlag(never, name.huffman)), name, value, more);
  }

  lemma LiteralBufferReads(c: Hpack.Tables, t: TableState, base: nat, never: bool, name: Spelling, value: Spelling,
                           more: seq<Byte>, buf: seq<Byte>)
    requires ValidTables(c) && Spellable(c, name) && Spellable(c, value)
    requires buf == EncodeLiteralName(c, never, name) + EncodeSpelled(c, value) + more
    ensures ReadLine(c, t, base, buf)
            == Ok((Field(name.text, value.text), |EncodeLiteralName(c, never, name)| + |EncodeSpelled(c, value)|))
  {
    Associate(EncodeLiteralName(c, never, name), EncodeSpelled(c, value), more);
    LiteralNameReads(c, t, base, never, name, EncodeSpelled(c, value) + more, buf);
    LiteralTextsRead(c, never, name, value, more, buf);
  }

  lemma LiteralLineReads(c: Hpack.Tables, t: TableState, base: nat, never: bool, name: Spelling, value: Spelling,
                         more: seq<Byte>)
    requires ValidTables(c) && Spellable(c, name) && Spellable(c, value)
    ensures ReadsAs(c, t, base, EncodeLiteralName(c, never, name) + EncodeSpelled(c, value), more,
                    Field(name.text, value.text))
  {
    var line := EncodeLiteralName(c, never, name) + EncodeSpelled(c, value);
    LiteralBufferReads(c, t, base, never, name, value, more, line + more);
    assert line + more != [];
  }

  lemma Associate(x: seq<Byte>, y: seq<Byte>, z: seq<Byte>)
    ensures x + y + z == x + (y + z)
  {
  }

  lemma EntryBelowBaseReads(c: Hpack.Tables, t: TableState, log: seq<Field>, base: nat, a: nat, more: seq<Byte>)
    requires Refines(t, log) && t.dropped <= a < |log| && a < base < U64
    ensures var e := EncodeEntry(base, InLog(a));
            ReadLine(c, t, base, e + more) == Ok((log[a], |e|))
  {
    AbsoluteIndexIsStable(t, log, a);
    Flags6(PI.Encode(base - 1 - a, 6)[0], 0x80);
    IntReads(base - 1 - a, 6, 0x80, more);
    var e := EncodeEntry(base, InLog(a));
    RelativeForm(c, t, base, e + more, base - 1 - a, |e|);
  }

  lemma EntryFromBaseReads(c: Hpack.Tables, t: TableState, log: seq<Field>, base: nat, a: nat, more: seq<Byte>)
    requires Refines(t, log) && t.dropped <= a < |log| && |log| < U64 && base <= a
    ensures var e := EncodeEntry(base, InLog(a));
            ReadLine(c, t, base, e + more) == Ok((log[a], |e|))
  {
    AbsoluteIndexIsStable(t, log, a);
    Flags4(PI.Encode(a - base, 4)[0], 0x10);
    IntReads(a - base, 4, 0x10, more);
    var e := EncodeEntry(base, InLog(a));
    PostBaseForm(c, t, base, e + more, a - base, |e|);
  }

  lemma NameBelowBaseReads(c: Hpack.Tables, t: TableState, log: seq<Field>, base: nat, a: nat, never: bool,
                           rest: seq<Byte>)
    requires Refines(t, log) && t.dropped <= a < |log| && a < base < U64
    ensures var head := EncodeName(base, InLog(a), never);
            ReadLine(c, t, base, head + rest) == Named(c, Ok(log[a]), head + rest, |head|)
  {
    AbsoluteIndexIsStable(t, log, a);
    var v, flag := base - 1 - a, if never then 0x60 else 0x40;
    var head := EncodeName(base, InLog(a), never);
    Flags4(PI.Encode(v, 4)[0], flag);
    IntReads(v, 4, flag, rest);
    RelativeNameForm(c, t, base, head + rest, v, |head|);
  }

  lemma NameFromBaseReads(c: Hpack.Tables, t: TableState, log: seq<Field>, base: nat, a: nat, never: bool,
                          rest: seq<Byte>)
    requires Refines(t, log) && t.dropped <= a < |log| && |log| < U64 && base <= a
    ensures var head := EncodeName(base, InLog(a), never);
            ReadLine(c, t, base, head + rest) == Named(c, Ok(log[a]), head + rest, |head|)
  {
    AbsoluteIndexIsStable(t, log, a);
    var v, flag := a - base, if never then 0x08 else 0x00;
    var head := EncodeName(base, InLog(a), never);
    Flags3(PI.Encode(v, 3)[0], flag);
    IntReads(v, 3, flag, rest);
    PostBaseNameForm(c, t, base, head + rest, v, |head|);
  }

  lemma EntryReads(c: Hpack.Tables, t: TableState, log: seq<Field>, base: nat, at: Place, more: seq<Byte>)
    requires |c.fields| < U64 && Refines(t, log) && |log| < U64 && base < U64 && Present(c, t, log, at)
    ensures ReadLine(c, t, base, EncodeEntry(base, at) + more) == Ok((EntryOf(c, log, at), |EncodeEntry(base, at)|))
  {
    match at
    case InStatic(i) => StaticLineReads(c, t, base, i, more);
    case InLog(a) =>
      if a < base {
        EntryBelowBaseReads(c, t, log, base, a, more);
      } else {
        EntryFromBaseReads(c, t, log, base, a, more);
      }
  }

  lemma EntryNameReads(c: Hpack.Tables, t: TableState, log: seq<Field>, base: nat, at: Place, never: bool,
                       rest: seq<Byte>)
    requires |c.fields| < U64 && Refines(t, log) && |log| < U64 && base < U64 && Present(c, t, log, at)
    ensures var head := EncodeName(base, at, never);
            ReadLine(c, t, base, head + rest) == Named(c, Ok(EntryOf(c, log, at)), head + rest, |head|)
  {
    match at
    case InStatic(i) => StaticNameReads(c, t, base, i, never, rest);
    case InLog(a) =>
      if a < base {
        NameBelowBaseReads(c, t, log, base, a, never, rest);
      } else {
        NameFromBaseReads(c, t, log, base, a, never, rest);
      }
  }

  /** The line reads as the field it stands for, and nothing of what follows is taken. */
  ghost predicate ReadsAs(c: Hpack.Tables, t: TableState, base: nat, line: seq<Byte>, more: seq<Byte>, f: Field)
  {
    line + more != [] && ReadLine(c, t, base, line + more) == Ok((f, |line|))
  }

  lemma NameLineReads(c: Hpack.Tables, t: TableState, log: seq<Field>, base: nat, at: Place, never: bool,
                      value: Spelling, more: seq<Byte>)
    requires ValidTables(c) && Refines(t, log) && |log| < U64 && base < U64 && Present(c, t, log, at)
             && Spellable(c, value)
    ensures ReadsAs(c, t, base, EncodeName(base, at, never) + EncodeSpelled(c, value), more,
                    Field(EntryOf(c, log, at).name, value.text))
  {
    var head := EncodeName(base, at, never);
    Associate(head, EncodeSpelled(c, value), more);
    EntryNameReads(c, t, log, base, at, never, EncodeSpelled(c, value) + more);
    NamedReads(c, EntryOf(c, log, at), head, value, more);
  }

  lemma EntryLineReads(c: Hpack.Tables, t: TableState, log: seq<Field>, base: nat, at: Place, more: seq<Byte>)
    requires ValidTables(c) && Refines(t, log) && |log| < U64 && base < U64 && Present(c, t, log, at)
    ensures ReadsAs(c, t, base, EncodeEntry(base, at), more, EntryOf(c, log, at))
  {
    EntryReads(c, t, log, base, at, more);
  }

  /** Every kind of line reads as the field it stands for, against any Base. */
  lemma RefReads(c: Hpack.Tables, t: TableState, log: seq<Field>, base: nat, ref: Ref, more: seq<Byte>)
    requires ValidTables(c) && Refines(t, log) && |log| < U64 && base < U64 && Referable(c, t, log, ref)
             && Sendable(c, ref)
    ensures ReadsAs(c, t, base, EncodeRef(c, base, ref), more, Meaning(c, t, log, ref))
  {
    match ref
    case Entry(at) => EntryLineReads(c, t, log, base, at, more);
    case EntryName(at, never, value) => NameLineReads(c, t, log, base, at, never, value, more);
    case Literal(never, name, value) => LiteralLineReads(c, t, base, never, name, value, more);
  }

  // ----- whole sections -----

  lemma {:induction false} RefsRead(c: Hpack.Tables, t: TableState, log: seq<Field>, base: nat, refs: seq<Ref>,
                                    out: seq<Field>)
    requires ValidTables(c) && Refines(t, log) && |log| < U64 && base < U64
    requires AllReferable(c, t, log, refs) && AllSendable(c, refs)
    requires ListSize(out + Meanings(c, t, log, refs)) <= MAX_DECODED_HEADER_LIST
    ensures DecodeLines(c, t, base, EncodeRefs(c, base, refs), out) == Ok(out + Meanings(c, t, log, refs))
    decreases |refs|
  {
    if refs == [] {
      assert out + [] == out;
    } else {
      var line, more := EncodeRef(c, base, refs[0]), EncodeRefs(c, base, refs[1..]);
      var f, rest := Meaning(c, t, log, refs[0]), Meanings(c, t, log, refs[1..]);
      RefReads(c, t, log, base, refs[0], more);
      assert (line + more)[|line|..] == more;
      assert out + ([f] + rest) == out + [f] + rest;
      SizePrefixOf(out + [f], rest);
      RefsRead(c, t, log, base, refs[1..], out + [f]);
    }
  }

  lemma {:induction false} SizePrefixOf(fs: seq<Field>, more: seq<Field>)
    ensures ListSize(fs) <= ListSize(fs + more)
  {
    if more == [] {
      assert fs + more == fs;
    } else {
      SizePrefixOf(fs, more[..|more| - 1]);
      assert (fs + more)[..|fs + more| - 1] == fs + more[..|more| - 1];
    }
  }

  lemma PrefixReads(t: TableState, ric: nat, base: nat, more: seq<Byte>)
    requires ric == 0 || InWindow(ric, t.insertCount)
    requires ric <= t.insertCount < U64 && base < U64
    ensures ReadPrefix(t, EncodePrefix(ric, base) + more) == Ok((ric, base, |EncodePrefix(ric, base)|))
  {
    var sign := if BaseSign(ric, base) then 0x80 else 0;
    var delta := DeltaBase(ric, base);
    var head, tail := PI.Encode(EncodeRequired(ric), 8), Hpack.Flagged(PI.Encode(delta, 7), sign);
    RequiredIsReconstructed(EncodeRequired(ric), t.insertCount, ric);
    BaseRoundTrip(ric, base);
    PlainRead(EncodeRequired(ric), 8, tail + more);
    Associate(head, tail, more);
    Flags7(PI.Encode(delta, 7)[0], sign);
    IntReads(delta, 7, sign, more);
    assert (head + (tail + more))[|head|..] == tail + more;
  }

  /**
   * Whatever Base a section is written against, on either side of its Required Insert Count, its lines decode to the
   * entries of the insertion log they refer to, and nothing depends on the Base.
   */
  lemma SectionMeansItsReferences(c: Hpack.Tables, t: TableState, log: seq<Field>, ric: nat, base: nat, refs: seq<Ref>)
    requires ValidTables(c) && Refines(t, log) && |log| < U64 && base < U64
    requires ric <= |log| && (ric == 0 || InWindow(ric, |log|))
    requires AllReferable(c, t, log, refs) && AllSendable(c, refs)
    requires ListSize(Meanings(c, t, log, refs)) <= MAX_DECODED_HEADER_LIST
    ensures DecodeSection(c, t, EncodePrefix(ric, base) + EncodeRefs(c, base, refs)) == Ok(Meanings(c, t, log, refs))
  {
    var prefix, lines := EncodePrefix(ric, base), EncodeRefs(c, base, refs);
    PrefixReads(t, ric, base, lines);
    assert (prefix + lines)[|prefix|..] == lines;
    assert [] + Meanings(c, t, log, refs) == Meanings(c, t, log, refs);
    RefsRead(c, t, log, base, refs, []);
  }

  /** The client's encoder writes lines of these kinds, every text raw. */
  function RefOf(c: Hpack.Tables, f: Field): Ref
  {
    match FindField(c.fields, f, 0)
    case Some(i) => Entry(InStatic(i))
    case None =>
      match FindName(c.fields, f.name, 0)
      case Some(i) => EntryName(InStatic(i), false, Spelling(f.value, false))
      case None => Literal(false, Spelling(f.name, false), Spelling(f.value, false))
  }

  function RefsOf(c: Hpack.Tables, fs: seq<Field>): seq<Ref>
  {
    if fs == [] then [] else [RefOf(c, fs[0])] + RefsOf(c, fs[1..])
  }

  /** Text within the machine's limits. */
  predicate Writable(c: Hpack.Tables, f: Field) { ValidText(c, f) && |f.name| < U64 && |f.value| < U64 }

  lemma PlainSpelling(c: Hpack.Tables, s: seq<Byte>)
    requires |c.huffman| == 257
    ensures EncodeSpelled(c, Spelling(s, false)) == EncodeText(s)
  {
    assert Hpack.Flagged(PI.Encode(|s|, 7), 0) == PI.Encode(|s|, 7);
  }

  lemma OwnLine(c: Hpack.Tables, t: TableState, log: seq<Field>, f: Field)
    requires |c.huffman| == 257 && Writable(c, f)
    ensures Referable(c, t, log, RefOf(c, f)) && Sendable(c, RefOf(c, f))
    ensures Meaning(c, t, log, RefOf(c, f)) == f && EncodeRef(c, 0, RefOf(c, f)) == EncodeField(c, f)
  {
    PlainSpelling(c, f.value);
  }

  lemma {:induction false} OwnLines(c: Hpack.Tables, t: TableState, log: seq<Field>, fs: seq<Field>)
    requires |c.huffman| == 257 && forall f :: f in fs ==> Writable(c, f)
    ensures AllReferable(c, t, log, RefsOf(c, fs)) && AllSendable(c, RefsOf(c, fs))
    ensures Meanings(c, t, log, RefsOf(c, fs)) == fs && EncodeRefs(c, 0, RefsOf(c, fs)) == EncodeFields(c, fs)
  {
    if fs != [] {
      OwnLine(c, t, log, fs[0]);
      OwnLines(c, t, log, fs[1..]);
      assert RefsOf(c, fs)[1..] == RefsOf(c, fs[1..]);
    }
  }

  /** What the client's encoder writes reads back, whatever the peer's table holds. */
  lemma SectionRoundTrip(c: Hpack.Tables, t: TableState, log: seq<Field>, fs: seq<Field>)
    requires ValidTables(c) && Refines(t, log) && |log| < U64
    requires forall f :: f in fs ==> Writable(c, f)
    requires ListSize(fs) <= MAX_DECODED_HEADER_LIST
    ensures DecodeSection(c, t, EncodeSection(c, fs)) == Ok(fs)
  {
    OwnLines(c, t, log, fs);
    assert EncodePrefix(0, 0) == [0, 0];
    SectionMeansItsReferences(c, t, log, 0, 0, RefsOf(c, fs));
  }

  /** Field lists the encoder may be given: text within the machine's and the decoder's limits. */
  predicate Listed(c: Hpack.Tables, fs: seq<Field>)
  {
    ListSize(fs) <= MAX_DECODED_HEADER_LIST && forall f :: f in fs ==> Writable(c, f)
  }

  ghost predicate Survives(c: Hpack.Tables, t: TableState, fs: seq<Field>)
  {
    DecodeSection(c, t, EncodeSection(c, fs)) == Ok(fs)
  }

  /** Every list survives, whatever table the decoder holds. */
  ghost predicate RoundTrips(c: Hpack.Tables)
  {
    forall t, log, fs :: Refines(t, log) && |log| < U64 && Listed(c, fs) ==> Survives(c, t, fs)
  }

  lemma AllSectionsRoundTrip(c: Hpack.Tables)
    requires ValidTables(c)
    ensures RoundTrips(c)
  {
    forall t, log, fs | Refines(t, log) && |log| < U64 && Listed(c, fs)
      ensures Survives(c, t, fs)
    {
      SectionRoundTrip(c, t, log, fs);
    }
  }
}

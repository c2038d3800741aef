/** The loops of the QPACK codec over a mutable table, each tied to its function. */
module QpackCodec {
  import opened Common
  import opened Fields
  import opened QpackTable
  import opened QpackIndex
  import opened QpackFields
  import opened QpackStream
  import opened HpackRuns
  import Hpack
  import PI = PrefixInteger
  import H = Huffman

  // ----- strings and integers -----

  method DecodeInt(buf: seq<Byte>, bits: nat) returns (r: Result<(nat, nat)>)
    requires buf != [] && 1 <= bits <= 8
    ensures r == PI.DecodeIntSpec(buf, bits)
  {
    var p := PI.DecodeIntRest(buf[0], bits, buf[1..]);
    r := if p.Done? then Ok((p.value, p.used + 1)) else Err;
  }

  ghost function TextOf(c: Hpack.Tables, huffman: bool, raw: seq<Byte>): Result<seq<Byte>>
  {
    var text := if huffman then Hpack.HuffmanText(c, raw) else Ok(raw);
    if text.Ok? && c.isText(text.value) then text else Err
  }

  method DecodeStringBytes(c: Hpack.Tables, raw: seq<Byte>, huffman: bool) returns (r: Result<seq<Byte>>)
    requires ValidTables(c)
    ensures r == TextOf(c, huffman, raw)
  {
    r := Ok(raw);
    if huffman {
      r := H.HuffmanDecode(c.huffman, raw);
    }
    if r.Ok? && !c.isText(r.value) {
      r := Err;
    }
  }

  method DecodeLiteralString(c: Hpack.Tables, buf: seq<Byte>) returns (r: Result<(seq<Byte>, nat)>)
    requires ValidTables(c)
    ensures r == Hpack.ReadString(c, buf)
  {
    if buf == [] {
      return Err;
    }
    var len := DecodeInt(buf, 7);
    if len.Err? {
      return Err;
    }
    var start, end := len.value.1, len.value.1 + len.value.0;
    if end > |buf| {
      return Err;
    }
    var s := DecodeStringBytes(c, buf[start..end], buf[0] >= 0x80);
    r := if s.Ok? then Ok((s.value, end)) else Err;
  }

  // ----- field sections -----

  lemma SliceTwice(buf: seq<Byte>, i: nat, j: nat)
    requires i + j <= |buf|
    ensures buf[i..][j..] == buf[i + j..]
  {
  }

  method DecodeNamed(c: Hpack.Tables, entry: Result<Field>, buf: seq<Byte>, n: nat) returns (r: Result<(Field, nat)>)
    requires ValidTables(c) && n <= |buf|
    ensures r == QpackFields.Named(c, entry, buf, n)
  {
    if entry.Err? {
      return Err;
    }
    r := DecodeValue(c, entry.value.name, buf, n);
  }

  method DecodeValue(c: Hpack.Tables, name: seq<Byte>, buf: seq<Byte>, n: nat) returns (r: Result<(Field, nat)>)
    requires ValidTables(c) && n <= |buf|
    ensures r == WithValue(c, name, buf, n)
  {
    var value := DecodeLiteralString(c, buf[n..]);
    r := if value.Ok? then Ok((Field(name, value.value.0), n + value.value.1)) else Err;
  }

  method DecodeLiteralLine(c: Hpack.Tables, huffman: bool, buf: seq<Byte>, n: nat, len: nat)
      returns (r: Result<(Field, nat)>)
    requires ValidTables(c) && n <= |buf|
    ensures r == WithNameAndValue(c, huffman, buf, n, len)
  {
    if n + len > |buf| {
      return Err;
    }
    var name := DecodeStringBytes(c, buf[n..n + len], huffman);
    if name.Err? {
      return Err;
    }
    r := DecodeValue(c, name.value, buf, n + len);
  }

  method LookUp(table: DynamicTable, abs: Result<nat>) returns (r: Result<Field>)
    requires table.Valid()
    ensures r == DynamicEntry(table.State(), abs)
  {
    if abs.Err? {
      return Err;
    }
    r := table.Get(abs.value);
  }

  /** One field line at the head of `buf`; the result counts the bytes read. */
  method DecodeLine(c: Hpack.Tables, table: DynamicTable, base: nat, buf: seq<Byte>) returns (r: Result<(Field, nat)>)
    requires ValidTables(c) && table.Valid() && buf != []
    ensures r == ReadLine(c, table.State(), base, buf)
  {
    var b: nat := buf[0];
    var bits := if b >= 0x80 then 6 else if b >= 0x40 then 4 else if b >= 0x20 then 3 else if b >= 0x10 then 4 else 3;
    var int_ := DecodeInt(buf, bits);
    if int_.Err? {
      return Err;
    }
    var (idx, n) := int_.value;
    if b >= 0x80 {
      var entry := if b / 64 % 2 == 1 then StaticEntry(c, idx) else Err;
      if b / 64 % 2 == 0 {
        entry := LookUp(table, RelativeToAbsolute(base, idx));
      }
      r := Whole(entry, n);
    } else if b >= 0x40 {
      var entry := if b / 16 % 2 == 1 then StaticEntry(c, idx) else Err;
      if b / 16 % 2 == 0 {
        entry := LookUp(table, RelativeToAbsolute(base, idx));
      }
      r := DecodeNamed(c, entry, buf, n);
    } else if b >= 0x20 {
      r := DecodeLiteralLine(c, b / 8 % 2 == 1, buf, n, idx);
    } else {
      var entry := LookUp(table, PostBaseToAbsolute(base, idx));
      if b >= 0x10 {
        r := Whole(entry, n);
      } else {
        r := DecodeNamed(c, entry, buf, n);
      }
    }
  }

  method DecodePrefix(table: DynamicTable, buf: seq<Byte>) returns (r: Result<(nat, nat, nat)>)
    requires table.Valid()
    ensures r == ReadPrefix(table.State(), buf)
  {
    if buf == [] {
      return Err;
    }
    var encoded := DecodeInt(buf, 8);
    if encoded.Err? {
      return Err;
    }
    var ric := DecodeRequiredInsertCount(encoded.value.0, table.insertCount);
    var n1 := encoded.value.1;
    if ric.Err? || ric.value > table.insertCount || n1 >= |buf| {
      return Err;
    }
    var delta := DecodeInt(buf[n1..], 7);
    if delta.Err? {
      return Err;
    }
    var base := DecodeBase(buf[n1] >= 0x80, delta.value.0, ric.value);
    r := if base.Ok? then Ok((ric.value, base.value, n1 + delta.value.1)) else Err;
  }

  method DecodeFieldSectionWith(c: Hpack.Tables, buf: seq<Byte>, table: DynamicTable) returns (r: Result<seq<Field>>)
    requires ValidTables(c) && table.Valid()
    ensures r == DecodeSection(c, table.State(), buf)
  {
    var prefix := DecodePrefix(table, buf);
    if prefix.Err? {
      return Err;
    }
    r := DecodeFieldLines(c, table, prefix.value.1, buf, prefix.value.2);
  }

  lemma OneMore(out: seq<Field>, f: Field)
    ensures ListSize(out + [f]) == ListSize(out) + EntrySize(f)
  {
    assert (out + [f])[..|out|] == out;
  }

  method DecodeFieldLines(c: Hpack.Tables, table: DynamicTable, base: nat, buf: seq<Byte>, start: nat)
      returns (r: Result<seq<Field>>)
    requires ValidTables(c) && table.Valid() && start <= |buf|
    ensures r == DecodeLines(c, table.State(), base, buf[start..], [])
  {
    var pos, out: seq<Field>, listSize := start, [], 0;
    ghost var rest := buf[start..];
    ghost var goal := DecodeLines(c, table.State(), base, rest, []);
    while pos < |buf|
      invariant pos <= |buf| && rest == buf[pos..] && listSize == ListSize(out)
      invariant goal == DecodeLines(c, table.State(), base, rest, out)
    {
      var line := DecodeLine(c, table, base, buf[pos..]);
      if line.Err? {
        return Err;
      }
      var (f, used) := line.value;
      OneMore(out, f);
      listSize := listSize + EntrySize(f);
      if listSize > MAX_DECODED_HEADER_LIST {
        return Err;
      }
      out := out + [f];
      rest := rest[used..];
      SliceTwice(buf, pos, used);
      pos := pos + used;
    }
    return Ok(out);
  }

  method EncodeFieldLine(c: Hpack.Tables, f: Field, out: seq<Byte>) returns (out': seq<Byte>)
    requires |c.fields| < U64 && |f.name| < U64 && |f.value| < U64
    ensures out' == out + EncodeField(c, f)
  {
    var full := FindField(c.fields, f, 0);
    if full.Some? {
      var e := PI.EncodeInt(full.value, 6);
      return out + Hpack.Flagged(e, 0xC0);
    }
    var value := PI.EncodeInt(|f.value|, 7);
    var name := FindName(c.fields, f.name, 0);
    if name.Some? {
      var e := PI.EncodeInt(name.value, 4);
      QpackFields.Associate(out, Hpack.Flagged(e, 0x50), value + f.value);
      out' := out + Hpack.Flagged(e, 0x50);
    } else {
      var e := PI.EncodeInt(|f.name|, 3);
      QpackFields.Associate(out, Hpack.Flagged(e, 0x20), f.name);
      QpackFields.Associate(out, Hpack.Flagged(e, 0x20) + f.name, value + f.value);
      out' := out + Hpack.Flagged(e, 0x20) + f.name;
    }
    out' := out' + (value + f.value);
  }

  method EncodeFieldSection(c: Hpack.Tables, fs: seq<Field>) returns (out: seq<Byte>)
    requires |c.fields| < U64 && forall f :: f in fs ==> |f.name| < U64 && |f.value| < U64
    ensures out == EncodeSection(c, fs)
  {
    out := [0, 0];
    ghost var rest := fs;
    ghost var goal := EncodeSection(c, fs);
    for i := 0 to |fs|
      invariant rest == fs[i..] && goal == out + EncodeFields(c, rest)
    {
      QpackFields.Associate(out, EncodeField(c, rest[0]), EncodeFields(c, rest[1..]));
      out := EncodeFieldLine(c, fs[i], out);
      rest := rest[1..];
    }
  }

  // ----- the encoder stream -----

  method TryDecodeLiteralString(c: Hpack.Tables, buf: seq<Byte>, start: nat) returns (r: Text)
    requires ValidTables(c) && start <= |buf|
    ensures r == ValueAt(c, buf, start)
  {
    if start == |buf| {
      return Short;
    }
    var len := PI.DecodeIntRest(buf[start], 7, buf[start + 1..]);
    match len
    case Truncated => return Short;
    case Invalid => return Wrong;
    case Done(n, used) => r := TakeText(c, buf[start] >= 0x80, buf, start + 1 + used, n);
  }

  method TakeText(c: Hpack.Tables, huffman: bool, buf: seq<Byte>, start: nat, len: nat) returns (r: Text)
    requires ValidTables(c)
    ensures r == TextAt(c, huffman, buf, start, len)
  {
    if start + len >= U64 {
      return Wrong;
    }
    if start + len > |buf| {
      return Short;
    }
    var s := DecodeStringBytes(c, buf[start..start + len], huffman);
    r := if s.Ok? then Got(s.value, start + len) else Wrong;
  }

  /** What an attempt to run one instruction reports; the table is changed by `Ran` alone. */
  datatype Attempt = Ran(used: nat) | NeedMore | Refused

  ghost function Reported(i: Instruction): Attempt
  {
    match i case Applied(_, used) => Ran(used) case Partial => NeedMore case _ => Refused
  }

  method InsertWithValue(c: Hpack.Tables, table: DynamicTable, name: seq<Byte>, buf: seq<Byte>, start: nat)
      returns (r: Attempt)
    requires ValidTables(c) && table.Valid() && start <= |buf|
    modifies table
    ensures table.Valid() && r == Reported(InsertNamed(c, old(table.State()), name, buf, start))
    ensures table.State() == After(old(table.State()), InsertNamed(c, old(table.State()), name, buf, start))
  {
    var value := TryDecodeLiteralString(c, buf, start);
    match value
    case Short => return NeedMore;
    case Wrong => return Refused;
    case Got(text, end) =>
      var ok := table.InsertEntry(Field(name, text));
      return if ok then Ran(end) else Refused;
  }

  /** A partial or refused instruction never changes the table. */
  ghost function After(t: TableState, i: Instruction): TableState { if i.Applied? then i.after else t }

  method DecodeEncoderInstruction(c: Hpack.Tables, table: DynamicTable, buf: seq<Byte>) returns (r: Attempt)
    requires ValidTables(c) && table.Valid() && buf != []
    modifies table
    ensures table.Valid() && r == Reported(Next(c, old(table.State()), buf))
    ensures table.State() == After(old(table.State()), Next(c, old(table.State()), buf))
  {
    var int_ := PI.DecodeIntRest(buf[0], PrefixBits(buf[0]), buf[1..]);
    if !int_.Done? {
      return Refused;
    }
    r := ExecuteInstruction(c, table, buf, int_.value, 1 + int_.used);
  }

  /** The instruction whose leading integer `v` ends at `n`. */
  method ExecuteInstruction(c: Hpack.Tables, table: DynamicTable, buf: seq<Byte>, v: nat, n: nat) returns (r: Attempt)
    requires ValidTables(c) && table.Valid() && 0 < n <= |buf|
    modifies table
    ensures table.Valid() && r == Reported(Execute(c, old(table.State()), buf, v, n))
    ensures table.State() == After(old(table.State()), Execute(c, old(table.State()), buf, v, n))
  {
    var b: nat := buf[0];
    if b >= 0x80 {
      var name := LookUpName(c, table, b / 64 % 2 == 1, v);
      if name.Err? {
        return Refused;
      }
      r := InsertWithValue(c, table, name.value.name, buf, n);
    } else if b >= 0x40 {
      r := InsertLiteralName(c, table, b / 32 % 2 == 1, buf, n, v);
    } else if b >= 0x20 {
      var ok := table.SetTableCapacity(v);
      r := if ok then Ran(n) else Refused;
    } else {
      r := Duplicate(table, v, n);
    }
  }

  method LookUpName(c: Hpack.Tables, table: DynamicTable, static_: bool, v: nat) returns (r: Result<Field>)
    requires table.Valid()
    ensures r == NameAt(c, table.State(), static_, v)
  {
    if static_ {
      r := StaticEntry(c, v);
    } else {
      r := LookUp(table, RelativeToAbsolute(table.insertCount, v));
    }
  }

  method InsertLiteralName(c: Hpack.Tables, table: DynamicTable, huffman: bool, buf: seq<Byte>, n: nat, len: nat)
      returns (r: Attempt)
    requires ValidTables(c) && table.Valid() && n <= |buf|
    modifies table
    ensures table.Valid() && r == Reported(InsertLiteral(c, old(table.State()), huffman, buf, n, len))
    ensures table.State() == After(old(table.State()), InsertLiteral(c, old(table.State()), huffman, buf, n, len))
  {
    var name := TakeText(c, huffman, buf, n, len);
    match name
    case Short => return NeedMore;
    case Wrong => return Refused;
    case Got(text, end) => r := InsertWithValue(c, table, text, buf, end);
  }

  method Duplicate(table: DynamicTable, v: nat, n: nat) returns (r: Attempt)
    requires table.Valid()
    modifies table
    ensures table.Valid()
    ensures var entry := RelativeEntry(old(table.State()), v);
            var i := if entry.Ok? then Added(Insert(old(table.State()), entry.value), n) else Bad;
            r == Reported(i) && table.State() == After(old(table.State()), i)
  {
    var entry := LookUp(table, RelativeToAbsolute(table.insertCount, v));
    if entry.Err? {
      return Refused;
    }
    var ok := table.InsertEntry(entry.value);
    return if ok then Ran(n) else Refused;
  }

  /** Applies complete instructions; the result counts the bytes of a whole number of them. */
  method ApplyEncoderInstructions(c: Hpack.Tables, table: DynamicTable, buf: seq<Byte>) returns (r: Result<nat>)
    requires ValidTables(c) && table.Valid()
    modifies table
    ensures table.Valid()
    ensures var p := ApplyAll(c, old(table.State()), buf);
            table.State() == p.t
              && (if p.failed then r == Err else r.Ok? && r.value <= |buf| && p.left == buf[r.value..])
  {
    var p := 0;
    ghost var goal := ApplyAll(c, table.State(), buf);
    ghost var rest := buf;
    while p < |buf|
      invariant p <= |buf| && rest == buf[p..] && table.Valid() && goal == ApplyAll(c, table.State(), rest)
    {
      var step := DecodeEncoderInstruction(c, table, buf[p..]);
      match step
      case Ran(used) =>
        rest := rest[used..];
        p := p + used;
      case NeedMore => return Ok(p);
      case Refused => return Err;
    }
    return Ok(p);
  }

  // ----- a server's unidirectional stream -----

  const QPACK_ENCODER_STREAM := 2

  /** A QUIC variable-length integer (section 16 of RFC 9000). */
  function VarintLength(b: Byte): (n: nat)
    ensures 1 <= n <= 8
  {
    if b < 0x40 then 1 else if b < 0x80 then 2 else if b < 0xC0 then 4 else 8
  }

  function DecodeVarint(buf: seq<Byte>): (r: Result<(nat, nat)>)
    ensures r.Ok? ==> 0 < r.value.1 <= |buf|
  {
    if buf == [] || |buf| < VarintLength(buf[0]) then Err
    else
      var n := VarintLength(buf[0]);
      Ok((BigEndian([buf[0] as int % 64] + buf[1..n]), n))
  }

  /** The stream's type, once its varint has arrived, and the bytes buffered since. */
  class UniStream {
    var ty: Option<nat>
    var buf: seq<Byte>

    constructor ()
      ensures ty == None && buf == []
    {
      ty, buf := None, [];
    }

    /** Processes what is buffered; any stream but the encoder's is drained. */
    method Process(c: Hpack.Tables, table: DynamicTable) returns (ok: bool)
      requires ValidTables(c) && table.Valid()
      modifies this, table
      ensures table.Valid()
      ensures var (ty1, body) := Typed(old(ty), old(buf));
              var p := ApplyAll(c, old(table.State()), body);
              && ty == ty1
              && (ty1 == Some(2) ==>
                  table.State() == p.t && ok == !p.failed && (ok ==> buf == p.left))
              && (ty1 != Some(2) ==>
                  table.State() == old(table.State()) && ok && buf == (if ty1.None? then old(buf) else []))
    {
      if ty.None? {
        var prefix := DecodeVarint(buf);
        if prefix.Err? {
          return true;
        }
        ty, buf := Some(prefix.value.0), buf[prefix.value.1..];
      }
      if ty == Some(QPACK_ENCODER_STREAM) {
        var consumed := ApplyEncoderInstructions(c, table, buf);
        if consumed.Err? {
          return false;
        }
        buf := buf[consumed.value..];
      } else {
        buf := [];
      }
      return true;
    }
  }

  /** The stream's type and what follows it. */
  function Typed(ty: Option<nat>, buf: seq<Byte>): (Option<nat>, seq<Byte>)
  {
    if ty.Some? then (ty, buf)
    else match DecodeVarint(buf) case Err => (None, buf) case Ok((t, n)) => (Some(t), buf[n..])
  }
}

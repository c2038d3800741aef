/** The mutable HPACK encoder and decoder of a connection. */
module HpackCodec {
  import opened Common
  import opened Fields
  import opened HpackTable
  import opened HpackRuns
  import Hpack
  import PI = PrefixInteger
  import H = Huffman

  class Decoder {
    const c: Hpack.Tables
    var dynTable: seq<Field>
    var dynTableSize: nat
    var dynTableCap: nat

    ghost predicate Valid()
      reads this
    {
      ValidTables(c) && dynTableSize == ListSize(dynTable)
    }

    ghost function State(): Hpack.DecoderState
      reads this
    {
      Hpack.Dec(dynTable, dynTableCap)
    }

    constructor (c: Hpack.Tables)
      requires ValidTables(c)
      ensures Valid() && this.c == c && State() == FRESH_DECODER
    {
      this.c := c;
      dynTable, dynTableSize, dynTableCap := [], 0, Hpack.DYN_TABLE_CAP;
    }

    method EvictToFit(incoming: nat)
      requires Valid()
      modifies this`dynTable, this`dynTableSize
      ensures Valid() && dynTable == Evict(old(dynTable), dynTableCap - incoming)
    {
      while dynTableSize + incoming > dynTableCap && dynTable != []
        invariant Valid()
        invariant Evict(dynTable, dynTableCap - incoming) == Evict(old(dynTable), dynTableCap - incoming)
        decreases |dynTable|
      {
        var last := dynTable[|dynTable| - 1];
        dynTable := dynTable[..|dynTable| - 1];
        dynTableSize := dynTableSize - EntrySize(last);
      }
    }

    method Insert(f: Field)
      requires Valid()
      modifies this`dynTable, this`dynTableSize
      ensures Valid() && dynTable == HpackTable.Insert(old(dynTable), dynTableCap, f)
    {
      var size := EntrySize(f);
      if size > dynTableCap {
        dynTable, dynTableSize := [], 0;
        return;
      }
      EvictToFit(size);
      SizeFront(f, dynTable);
      dynTable := [f] + dynTable;
      dynTableSize := dynTableSize + size;
    }

    method Lookup(index: nat) returns (r: Result<Field>)
      ensures r == Hpack.Lookup(c, dynTable, index)
    {
      if index == 0 {
        return Err;
      }
      if index <= |c.fields| {
        return Ok(c.fields[index - 1]);
      }
      var dynIdx := index - |c.fields| - 1;
      if dynIdx >= |dynTable| {
        return Err;
      }
      return Ok(dynTable[dynIdx]);
    }

    /** Reads a literal at the head of `buf`; the result counts the bytes read. */
    method ReadString(buf: seq<Byte>) returns (r: Result<(seq<Byte>, nat)>)
      requires Valid()
      ensures r == Hpack.ReadString(c, buf)
    {
      if buf == [] {
        return Err;
      }
      var huffman := buf[0] >= 0x80;
      var len := PI.DecodeInt(buf, 7);
      if len.Err? {
        return Err;
      }
      var (n, consumed) := len.value;
      var end := consumed + n;
      if end > |buf| {
        return Err;
      }
      var raw := buf[consumed..end];
      var text: Result<seq<Byte>> := Ok(raw);
      if huffman {
        text := H.HuffmanDecode(c.huffman, raw);
      }
      if text.Err? || !c.isText(text.value) {
        return Err;
      }
      return Ok((text.value, end));
    }

    /** The name part of a literal form: looked up, or read when the index is 0. */
    method ReadName(buf: seq<Byte>, idx: nat) returns (r: Result<(seq<Byte>, nat)>)
      requires Valid()
      ensures r == Hpack.ReadName(c, State(), idx, buf)
    {
      if idx == 0 {
        r := ReadString(buf);
      } else {
        var entry := Lookup(idx);
        r := if entry.Ok? then Ok((entry.value.name, 0)) else Err;
      }
    }

    /** The texts that follow an index of `n` bytes. */
    method ReadTexts(buf: seq<Byte>, idx: nat, n: nat) returns (r: Result<(Field, nat)>)
      requires Valid() && 0 < n <= |buf|
      ensures r == Hpack.ReadTexts(c, State(), buf, idx, n)
    {
      var name := ReadName(buf[n..], idx);
      if name.Err? {
        return Err;
      }
      var (text, m) := name.value;
      var value := ReadString(buf[n + m..]);
      if value.Err? {
        return Err;
      }
      r := Ok((Field(text, value.value.0), n + m + value.value.1));
    }

    /** The literal forms: a name index or a literal name, then a literal value. */
    method ReadField(buf: seq<Byte>, prefixBits: nat) returns (r: Result<(Field, nat)>)
      requires Valid() && 1 <= prefixBits <= 8
      ensures r == Hpack.ReadField(c, State(), buf, prefixBits)
    {
      var index := PI.DecodeInt(buf, prefixBits);
      if index.Err? {
        return Err;
      }
      r := ReadTexts(buf, index.value.0, index.value.1);
    }

    /** One representation; `None` for a table size update. */
    method DecodeStep(buf: seq<Byte>) returns (r: Result<(Option<Field>, nat)>)
      requires Valid() && buf != []
      modifies this`dynTable, this`dynTableSize, this`dynTableCap
      ensures Valid()
      ensures match Hpack.DecodeStep(c, old(State()), buf)
              case Bad => r == Err && State() == old(State())
              case Resize(used, after) => r == Ok((None, used)) && State() == after
              case Line(f, used, after) => r == Ok((Some(f), used)) && State() == after
    {
      var b := buf[0];
      if b >= 0x80 {
        var index := PI.DecodeInt(buf, 7);
        if index.Err? {
          return Err;
        }
        var entry := Lookup(index.value.0);
        if entry.Err? {
          return Err;
        }
        return Ok((Some(entry.value), index.value.1));
      } else if b >= 0x40 {
        var field := ReadField(buf, 6);
        if field.Err? {
          return Err;
        }
        Insert(field.value.0);
        return Ok((Some(field.value.0), field.value.1));
      } else if b >= 0x20 {
        var size := PI.DecodeInt(buf, 5);
        if size.Err? {
          return Err;
        }
        dynTableCap := Min(size.value.0, Hpack.DYN_TABLE_CAP);
        EvictToFit(0);
        return Ok((None, size.value.1));
      } else {
        var field := ReadField(buf, 4);
        if field.Err? {
          return Err;
        }
        return Ok((Some(field.value.0), field.value.1));
      }
    }

    method DecodeBlock(buf: seq<Byte>) returns (r: Result<seq<Field>>)
      requires Valid()
      modifies this`dynTable, this`dynTableSize, this`dynTableCap
      ensures Valid() && (r, State()) == Hpack.DecodeBlock(c, old(State()), buf)
    {
      var out: seq<Field>, pos, listSize := [], 0, 0;
      ghost var goal := Hpack.DecodeBlock(c, State(), buf);
      ghost var rest := buf;
      while pos < |buf|
        invariant pos <= |buf| && rest == buf[pos..] && Valid() && listSize == ListSize(out)
        invariant goal == Hpack.DecodeFrom(c, State(), rest, out)
      {
        var step := DecodeStep(buf[pos..]);
        if step.Err? {
          return Err;
        }
        var (entry, used) := step.value;
        rest := rest[used..];
        pos := pos + used;
        if entry.Some? {
          assert (out + [entry.value])[..|out|] == out;
          listSize := listSize + EntrySize(entry.value);
          if listSize > MAX_DECODED_HEADER_LIST {
            return Err;
          }
          out := out + [entry.value];
        }
      }
      return Ok(out);
    }
  }

  class Encoder {
    const c: Hpack.Tables
    var dynTable: seq<Field>
    var dynTableSize: nat
    var maxDynTableSize: nat
    var pendingMaxTableSizeSignal: Option<nat>

    ghost predicate Valid()
      reads this
    {
      && ValidTables(c) && dynTableSize == ListSize(dynTable) <= maxDynTableSize < 0x1_0000_0000
      && (pendingMaxTableSizeSignal.Some? ==> pendingMaxTableSizeSignal.value == maxDynTableSize)
    }

    ghost function State(): Hpack.EncoderState
      reads this
    {
      Hpack.Enc(dynTable, maxDynTableSize, pendingMaxTableSizeSignal)
    }

    constructor (c: Hpack.Tables)
      requires ValidTables(c)
      ensures Valid() && this.c == c && State() == FRESH_ENCODER
    {
      this.c := c;
      dynTable, dynTableSize, maxDynTableSize := [], 0, Hpack.DYN_TABLE_CAP;
      pendingMaxTableSizeSignal := None;
    }

    method EvictToFit(incoming: nat)
      requires dynTableSize == ListSize(dynTable)
      modifies this`dynTable, this`dynTableSize
      ensures dynTableSize == ListSize(dynTable) && dynTable == Evict(old(dynTable), maxDynTableSize - incoming)
    {
      while dynTableSize + incoming > maxDynTableSize && dynTable != []
        invariant dynTableSize == ListSize(dynTable)
        invariant Evict(dynTable, maxDynTableSize - incoming) == Evict(old(dynTable), maxDynTableSize - incoming)
        decreases |dynTable|
      {
        var last := dynTable[|dynTable| - 1];
        dynTable := dynTable[..|dynTable| - 1];
        dynTableSize := dynTableSize - EntrySize(last);
      }
    }

    /** The peer's SETTINGS_HEADER_TABLE_SIZE is a 32-bit number. */
    method SetPeerMaxTableSize(n: nat)
      requires Valid() && n < 0x1_0000_0000
      modifies this
      ensures Valid() && State() == Hpack.SetMaxSize(old(State()), n)
    {
      maxDynTableSize := n;
      EvictToFit(0);
      pendingMaxTableSizeSignal := Some(n);
    }

    method Insert(f: Field)
      requires Valid()
      modifies this`dynTable, this`dynTableSize
      ensures Valid() && dynTable == HpackTable.Insert(old(dynTable), maxDynTableSize, f)
    {
      InsertFits(dynTable, maxDynTableSize, f);
      var size := EntrySize(f);
      if size > maxDynTableSize {
        dynTable, dynTableSize := [], 0;
        return;
      }
      EvictToFit(size);
      SizeFront(f, dynTable);
      dynTable := [f] + dynTable;
      dynTableSize := dynTableSize + size;
    }

    method EncodeLiteralString(out: seq<Byte>, s: seq<Byte>) returns (out': seq<Byte>)
      requires Valid() && |s| < U64
      ensures out' == out + Hpack.EncodeLiteral(c, s)
    {
      var huff := H.HuffmanEncode(c.huffman, s);
      if |huff| < |s| {
        var lenBytes := PI.EncodeInt(|huff|, 7);
        out' := out + Hpack.Flagged(lenBytes, 0x80);
        out' := out' + huff;
      } else {
        var lenBytes := PI.EncodeInt(|s|, 7);
        out' := out + lenBytes;
        out' := out' + s;
      }
    }

    /** Appends the representation of one field and updates the table. */
    method EncodeLine(out: seq<Byte>, f: Field) returns (out': seq<Byte>)
      requires Valid() && pendingMaxTableSizeSignal.None? && |f.name| < U64 && |f.value| < U64
      modifies this`dynTable, this`dynTableSize
      ensures Valid() && State() == Hpack.EncodeLine(c, old(State()), f).1
      ensures out' == out + Hpack.EncodeLine(c, old(State()), f).0
    {
      SizePrefix([], dynTable);
      var full := Hpack.FullIndex(c, dynTable, f);
      if full.Some? {
        var bytes := PI.EncodeInt(full.value, 7);
        out' := out + Hpack.Flagged(bytes, 0x80);
        return;
      }
      var name := Hpack.NameIndex(c, dynTable, f.name);
      if name.Some? {
        var bytes := PI.EncodeInt(name.value, 6);
        out' := out + Hpack.Flagged(bytes, 0x40);
        out' := EncodeLiteralString(out', f.value);
        Associate(out, Hpack.Flagged(bytes, 0x40), Hpack.EncodeLiteral(c, f.value));
      } else {
        out' := out + [0x40];
        out' := EncodeLiteralString(out', f.name);
        out' := EncodeLiteralString(out', f.value);
        Associate(out, [0x40], Hpack.EncodeLiteral(c, f.name));
        Associate(out, [0x40] + Hpack.EncodeLiteral(c, f.name), Hpack.EncodeLiteral(c, f.value));
      }
      Insert(f);
    }

    method EncodeHeader(out: seq<Byte>, f: Field) returns (out': seq<Byte>)
      requires Valid() && |f.name| < U64 && |f.value| < U64
      modifies this
      ensures Valid() && State() == Hpack.EncodeHeader(c, old(State()), f).1
      ensures out' == out + Hpack.EncodeHeader(c, old(State()), f).0
    {
      ghost var update := Hpack.SizeUpdate(pendingMaxTableSizeSignal);
      out' := out;
      if pendingMaxTableSizeSignal.Some? {
        var bytes := PI.EncodeInt(pendingMaxTableSizeSignal.value, 5);
        pendingMaxTableSizeSignal := None;
        out' := out' + Hpack.Flagged(bytes, 0x20);
      }
      assert out' == out + update;
      Associate(out, update, Hpack.EncodeLine(c, State(), f).0);
      out' := EncodeLine(out', f);
    }

    /** The loop of `build_header_block` over the request's fields. */
    method EncodeBlock(fs: seq<Field>) returns (out: seq<Byte>)
      requires Valid() && forall f :: f in fs ==> |f.name| < U64 && |f.value| < U64
      modifies this
      ensures Valid() && out == Hpack.EncodeBlock(c, old(State()), fs).0
      ensures State() == Hpack.EncodeBlock(c, old(State()), fs).1
    {
      out := [];
      ghost var goal := Hpack.EncodeBlock(c, State(), fs);
      ghost var rest := fs;
      for i := 0 to |fs|
        invariant Valid() && rest == fs[i..]
        invariant goal.0 == out + Hpack.EncodeBlock(c, State(), rest).0
        invariant goal.1 == Hpack.EncodeBlock(c, State(), rest).1
      {
        BlockStep(c, State(), rest, out);
        out := EncodeHeader(out, fs[i]);
        rest := rest[1..];
      }
    }
  }

  lemma BlockStep(c: Hpack.Tables, e: Hpack.EncoderState, fs: seq<Field>, out: seq<Byte>)
    requires |c.huffman| == 257 && fs != []
    ensures var (bytes, after) := Hpack.EncodeHeader(c, e, fs[0]);
            && out + Hpack.EncodeBlock(c, e, fs).0 == out + bytes + Hpack.EncodeBlock(c, after, fs[1..]).0
            && Hpack.EncodeBlock(c, e, fs).1 == Hpack.EncodeBlock(c, after, fs[1..]).1
  {
    var (bytes, after) := Hpack.EncodeHeader(c, e, fs[0]);
    Associate(out, bytes, Hpack.EncodeBlock(c, after, fs[1..]).0);
  }

  lemma Associate(x: seq<Byte>, y: seq<Byte>, z: seq<Byte>)
    ensures x + y + z == x + (y + z)
  {
  }
}

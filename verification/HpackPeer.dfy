/**
 * Header blocks as any peer may write them (section 6 of RFC 7541): every representation with its own pattern and
 * prefix width, names by index or spelled out, texts raw or Huffman-coded. The decoder reads each for what it stands
 * for.
 */
module HpackPeer {
  import opened Common
  import opened Fields
  import opened HpackTable
  import opened Hpack
  import opened HpackRuns
  import opened Spellings
  import PI = PrefixInteger

  /** With incremental indexing, without indexing, and never indexed (sections 6.2.1 to 6.2.3). */
  datatype Mode = Incremental | Without | Never

  datatype Name = ByIndex(index: nat) | Spelled(name: Spelling)

  datatype Rep = Indexed(index: nat) | Literal(mode: Mode, name: Name, value: Spelling) | SizeUpdate(size: nat)

  // ----- writing -----

  /** The first integer of a literal: the name's index, or 0. */
  function LiteralHead(mode: Mode, index: nat): (out: seq<Byte>)
    ensures |out| > 0
  {
    match mode
    case Incremental => Flagged(PI.Encode(index, 6), 0x40)
    case Without => PI.Encode(index, 4)
    case Never => Flagged(PI.Encode(index, 4), 0x10)
  }

  function NameBytes(c: Tables, name: Name): seq<Byte>
    requires |c.huffman| == 257
  {
    match name case ByIndex(_) => [] case Spelled(s) => EncodeSpelled(c, s)
  }

  function Write(c: Tables, rep: Rep): (out: seq<Byte>)
    requires |c.huffman| == 257
    ensures |out| > 0
  {
    match rep
    case Indexed(i) => Flagged(PI.Encode(i, 7), 0x80)
    case Literal(mode, name, value) =>
      LiteralHead(mode, if name.ByIndex? then name.index else 0) + NameBytes(c, name) + EncodeSpelled(c, value)
    case SizeUpdate(n) => Flagged(PI.Encode(n, 5), 0x20)
  }

  function WriteAll(c: Tables, reps: seq<Rep>): seq<Byte>
    requires |c.huffman| == 257
  {
    if reps == [] then [] else Write(c, reps[0]) + WriteAll(c, reps[1..])
  }

  // ----- meaning -----

  /** Both tables as one list, counted from 1 (section 2.3.3). */
  function Entry(c: Tables, d: DecoderState, index: nat): Option<Field>
  {
    var all := c.fields + d.entries;
    if 1 <= index <= |all| then Some(all[index - 1]) else None
  }

  predicate Exists(c: Tables, d: DecoderState, rep: Rep)
  {
    match rep
    case Indexed(i) => Entry(c, d, i).Some?
    case Literal(_, name, _) => name.ByIndex? ==> Entry(c, d, name.index).Some?
    case SizeUpdate(_) => true
  }

  predicate Writable(c: Tables, rep: Rep)
  {
    match rep
    case Indexed(i) => i < U64
    case Literal(_, name, value) =>
      Spellable(c, value) && (if name.ByIndex? then name.index < U64 else Spellable(c, name.name))
    case SizeUpdate(n) => n < U64
  }

  /** The fields a representation adds to the list: one, or none. */
  function Meaning(c: Tables, d: DecoderState, rep: Rep): seq<Field>
    requires Exists(c, d, rep)
  {
    match rep
    case Indexed(i) => [Entry(c, d, i).value]
    case Literal(_, name, value) =>
      [Field(if name.ByIndex? then Entry(c, d, name.index).value.name else name.name.text, value.text)]
    case SizeUpdate(_) => []
  }

  /** Only a literal with incremental indexing inserts, and only a size update resizes; sizes are capped at 4096. */
  function After(c: Tables, d: DecoderState, rep: Rep): DecoderState
    requires Exists(c, d, rep)
  {
    if rep.Literal? && rep.mode.Incremental? then d.(entries := Insert(d.entries, d.cap, Meaning(c, d, rep)[0]))
    else if rep.SizeUpdate? then
      var cap := if rep.size <= 4096 then rep.size else 4096;
      Dec(Evict(d.entries, cap), cap)
    else d
  }

  // ----- one representation -----

  lemma EntryIsLookup(c: Tables, d: DecoderState, index: nat)
    ensures Lookup(c, d.entries, index) == if Entry(c, d, index).Some? then Ok(Entry(c, d, index).value) else Err
  {
  }

  lemma HeadReads(mode: Mode, index: nat, more: seq<Byte>)
    requires index < U64
    ensures var p := if mode.Incremental? then 6 else 4;
            var head := LiteralHead(mode, index);
            PI.DecodeIntSpec(head + more, p) == Ok((index, |head|))
    ensures var b := LiteralHead(mode, index)[0];
            if mode.Incremental? then 0x40 <= b < 0x80 else b < 0x20
  {
    match mode
    case Incremental => FlaggedRead(index, 6, 0x40, more);
    case Without => PlainRead(index, 4, more);
    case Never => FlaggedRead(index, 4, 0x10, more);
  }

  lemma NameReads(c: Tables, d: DecoderState, name: Name, f: Field, more: seq<Byte>)
    requires ValidTables(c)
    requires if name.ByIndex? then Entry(c, d, name.index).Some? && Entry(c, d, name.index).value.name == f.name
             else Spellable(c, name.name) && name.name.text == f.name
    ensures ReadName(c, d, if name.ByIndex? then name.index else 0, NameBytes(c, name) + more)
            == Ok((f.name, |NameBytes(c, name)|))
  {
    if name.ByIndex? {
      EntryIsLookup(c, d, name.index);
    } else {
      SpelledReads(c, name.name, more);
    }
  }

  lemma LiteralStep(c: Tables, d: DecoderState, mode: Mode, buf: seq<Byte>, f: Field, n: nat)
    requires buf != [] && (if mode.Incremental? then 0x40 <= buf[0] < 0x80 else buf[0] < 0x20)
    requires ReadField(c, d, buf, if mode.Incremental? then 6 else 4) == Ok((f, n))
    ensures DecodeStep(c, d, buf)
            == Line(f, n, if mode.Incremental? then d.(entries := Insert(d.entries, d.cap, f)) else d)
  {
  }

  lemma LiteralReads(c: Tables, d: DecoderState, rep: Rep, more: seq<Byte>)
    requires ValidTables(c) && Writable(c, rep) && rep.Literal? && Exists(c, d, rep)
    ensures DecodeStep(c, d, Write(c, rep) + more) == Line(Meaning(c, d, rep)[0], |Write(c, rep)|, After(c, d, rep))
  {
    var index := if rep.name.ByIndex? then rep.name.index else 0;
    var head, name, value := LiteralHead(rep.mode, index), NameBytes(c, rep.name), EncodeSpelled(c, rep.value);
    var f := Meaning(c, d, rep)[0];
    HeadReads(rep.mode, index, name + value + more);
    SpelledReads(c, rep.value, more);
    NameReads(c, d, rep.name, f, value + more);
    assert name + value + more == name + (value + more);
    var p := if rep.mode.Incremental? then 6 else 4;
    ReadFieldParts(c, d, p, index, head, name, value, more, f);
    var buf := head + name + value + more;
    assert buf[0] == head[0];
    LiteralStep(c, d, rep.mode, buf, f, |head + name + value|);
  }

  /** How the decoder takes one representation. */
  function Step(c: Tables, d: DecoderState, rep: Rep): Hpack.Step
    requires |c.huffman| == 257 && Exists(c, d, rep)
  {
    var n := |Write(c, rep)|;
    if rep.SizeUpdate? then Resize(n, After(c, d, rep)) else Line(Meaning(c, d, rep)[0], n, After(c, d, rep))
  }

  /** Every representation is read for what it stands for, whatever follows. */
  lemma RepReads(c: Tables, d: DecoderState, rep: Rep, more: seq<Byte>)
    requires ValidTables(c) && Writable(c, rep) && Exists(c, d, rep)
    ensures DecodeStep(c, d, Write(c, rep) + more) == Step(c, d, rep)
  {
    match rep
    case Indexed(i) =>
      EntryIsLookup(c, d, i);
      FlaggedRead(i, 7, 0x80, more);
    case Literal(_, _, _) => LiteralReads(c, d, rep, more);
    case SizeUpdate(n) => FlaggedRead(n, 5, 0x20, more);
  }

  /** An index beyond both tables, or 0 for a whole entry, is refused. */
  lemma MissingIsRefused(c: Tables, d: DecoderState, index: nat, mode: Mode, more: seq<Byte>)
    requires index < U64 && Entry(c, d, index).None?
    ensures DecodeStep(c, d, Flagged(PI.Encode(index, 7), 0x80) + more) == Bad
    ensures index != 0 ==> DecodeStep(c, d, LiteralHead(mode, index) + more) == Bad
  {
    EntryIsLookup(c, d, index);
    FlaggedRead(index, 7, 0x80, more);
    HeadReads(mode, index, more);
    assert (LiteralHead(mode, index) + more)[0] == LiteralHead(mode, index)[0];
  }

  /** A literal whose value is no text, or whose spelled name is none. */
  lemma NoTextIsRefused(c: Tables, d: DecoderState, mode: Mode, name: Name, value: Spelling, more: seq<Byte>)
    requires ValidTables(c) && |Written(c, value)| < U64
    requires if name.ByIndex? then 0 < name.index < U64 && !c.isText(value.text)
             else |Written(c, name.name)| < U64 && (!c.isText(name.name.text) || !c.isText(value.text))
    ensures DecodeStep(c, d, Write(c, Literal(mode, name, value)) + more) == Bad
  {
    var index := if name.ByIndex? then name.index else 0;
    var head, text, rest := LiteralHead(mode, index), NameBytes(c, name), EncodeSpelled(c, value) + more;
    PartsOf(head, text, EncodeSpelled(c, value), more);
    HeadReads(mode, index, text + rest);
    if !c.isText(value.text) {
      NoTextRefused(c, value, more);
    }
    if name.Spelled? && c.isText(name.name.text) {
      SpelledReads(c, name.name, rest);
    } else if name.Spelled? {
      NoTextRefused(c, name.name, rest);
    }
    TextsRefused(c, d, if mode.Incremental? then 6 else 4, index, head, text, rest);
    StepRefused(c, d, mode, head + text + rest);
  }

  lemma PartsOf(head: seq<Byte>, text: seq<Byte>, value: seq<Byte>, more: seq<Byte>)
    requires head != []
    ensures head + text + value + more == head + text + (value + more) == head + (text + (value + more))
    ensures (head + text + (value + more))[0] == head[0]
  {
  }

  lemma TextsRefused(c: Tables, d: DecoderState, p: nat, index: nat, head: seq<Byte>, text: seq<Byte>, rest: seq<Byte>)
    requires 1 <= p <= 8 && PI.DecodeIntSpec(head + text + rest, p) == Ok((index, |head|))
    requires if index == 0 then ReadString(c, text + rest).Err?
                                || (ReadString(c, text + rest).value.1 == |text| && ReadString(c, rest).Err?)
             else text == [] && ReadString(c, rest).Err?
    ensures ReadField(c, d, head + text + rest, p) == Err
  {
    var buf := head + text + rest;
    assert buf[|head|..] == text + rest && buf[|head| + |text|..] == rest;
  }

  lemma StepRefused(c: Tables, d: DecoderState, mode: Mode, buf: seq<Byte>)
    requires buf != [] && (if mode.Incremental? then 0x40 <= buf[0] < 0x80 else buf[0] < 0x20)
    requires ReadField(c, d, buf, if mode.Incremental? then 6 else 4) == Err
    ensures DecodeStep(c, d, buf) == Bad
  {
  }

  // ----- whole blocks -----

  /** Every representation refers to what exists when it is read, and the list stays within its cap. */
  predicate Readable(c: Tables, d: DecoderState, reps: seq<Rep>, out: seq<Field>)
    decreases |reps|
  {
    reps != [] ==>
      && Writable(c, reps[0]) && Exists(c, d, reps[0])
      && ListSize(out + Meaning(c, d, reps[0])) <= 262144
      && Readable(c, After(c, d, reps[0]), reps[1..], out + Meaning(c, d, reps[0]))
  }

  /** The field list and the decoder's state after the rest of a block. */
  function Result(c: Tables, d: DecoderState, reps: seq<Rep>, out: seq<Field>): (seq<Field>, DecoderState)
    requires Readable(c, d, reps, out)
    decreases |reps|
  {
    if reps == [] then (out, d)
    else Result(c, After(c, d, reps[0]), reps[1..], out + Meaning(c, d, reps[0]))
  }

  lemma {:induction false} RepsRead(c: Tables, d: DecoderState, reps: seq<Rep>, out: seq<Field>)
    requires ValidTables(c) && Readable(c, d, reps, out)
    ensures var (fields, d') := Result(c, d, reps, out);
            DecodeFrom(c, d, WriteAll(c, reps), out) == (Ok(fields), d')
    decreases |reps|
  {
    if reps != [] {
      var bytes, more := Write(c, reps[0]), WriteAll(c, reps[1..]);
      RepReads(c, d, reps[0], more);
      assert (bytes + more)[|bytes|..] == more;
      if reps[0].SizeUpdate? {
        assert out + [] == out;
      }
      RepsRead(c, After(c, d, reps[0]), reps[1..], out + Meaning(c, d, reps[0]));
    }
  }

  /** Whatever block a peer writes in these representations is decoded to the fields they stand for. */
  lemma BlockReads(c: Tables, d: DecoderState, reps: seq<Rep>)
    requires ValidTables(c) && Readable(c, d, reps, [])
    ensures var (fields, d') := Result(c, d, reps, []);
            DecodeBlock(c, d, WriteAll(c, reps)) == (Ok(fields), d')
  {
    RepsRead(c, d, reps, []);
  }

  /** A list that would pass 256 KiB, counted with 32 octets a field, is refused. */
  lemma OversizedIsRefused(c: Tables, d: DecoderState, rep: Rep, more: seq<Byte>, out: seq<Field>)
    requires ValidTables(c) && Writable(c, rep) && Exists(c, d, rep)
    requires !rep.SizeUpdate? && ListSize(out + Meaning(c, d, rep)) > 262144
    ensures DecodeFrom(c, d, Write(c, rep) + more, out).0 == Err
  {
    RepReads(c, d, rep, more);
  }
}

/**
 * Field sections that are refused (sections 2.2.1 and 4.5 of RFC 9204): references to entries that are not in the
 * tables, sections that need more insertions than have arrived, lists beyond the client's limit, and texts that are
 * no text.
 */
module QpackRefusals {
  import opened Common
  import opened Fields
  import opened QpackTable
  import opened QpackIndex
  import opened QpackFields
  import opened HpackRuns
  import opened Spellings
  import Hpack
  import PI = PrefixInteger

  /** An index a machine can hold, of an entry that is in neither table. */
  predicate Missing(c: Hpack.Tables, t: TableState, log: seq<Field>, base: nat, at: Place)
  {
    && !Present(c, t, log, at)
    && match at case InStatic(i) => i < U64 case InLog(a) => a < U64
  }

  lemma StaticMissing(c: Hpack.Tables, t: TableState, base: nat, i: nat, never: bool, more: seq<Byte>)
    requires |c.fields| <= i < U64
    ensures ReadLine(c, t, base, EncodeEntry(base, InStatic(i)) + more) == Err
    ensures ReadLine(c, t, base, EncodeName(base, InStatic(i), never) + more) == Err
  {
    var e, head := EncodeEntry(base, InStatic(i)), EncodeName(base, InStatic(i), never);
    var flag := if never then 0x70 else 0x50;
    Flags6(PI.Encode(i, 6)[0], 0xC0);
    IntReads(i, 6, 0xC0, more);
    StaticForm(c, t, base, e + more, i, |e|);
    Flags4(PI.Encode(i, 4)[0], flag);
    IntReads(i, 4, flag, more);
    StaticNameForm(c, t, base, head + more, i, |head|);
  }

  lemma BelowBaseMissing(c: Hpack.Tables, t: TableState, log: seq<Field>, base: nat, a: nat, never: bool,
                         more: seq<Byte>)
    requires Refines(t, log) && !(t.dropped <= a < |log|) && a < base < U64
    ensures ReadLine(c, t, base, EncodeEntry(base, InLog(a)) + more) == Err
    ensures ReadLine(c, t, base, EncodeName(base, InLog(a), never) + more) == Err
  {
    AbsoluteIndexIsStable(t, log, a);
    var v, flag := base - 1 - a, if never then 0x60 else 0x40;
    var e, head := EncodeEntry(base, InLog(a)), EncodeName(base, InLog(a), never);
    Flags6(PI.Encode(v, 6)[0], 0x80);
    IntReads(v, 6, 0x80, more);
    RelativeForm(c, t, base, e + more, v, |e|);
    Flags4(PI.Encode(v, 4)[0], flag);
    IntReads(v, 4, flag, more);
    RelativeNameForm(c, t, base, head + more, v, |head|);
  }

  lemma FromBaseMissing(c: Hpack.Tables, t: TableState, log: seq<Field>, base: nat, a: nat, never: bool,
                        more: seq<Byte>)
    requires Refines(t, log) && !(t.dropped <= a < |log|) && base <= a < U64
    ensures ReadLine(c, t, base, EncodeEntry(base, InLog(a)) + more) == Err
    ensures ReadLine(c, t, base, EncodeName(base, InLog(a), never) + more) == Err
  {
    AbsoluteIndexIsStable(t, log, a);
    var v, flag := a - base, if never then 0x08 else 0x00;
    var e, head := EncodeEntry(base, InLog(a)), EncodeName(base, InLog(a), never);
    Flags4(PI.Encode(v, 4)[0], 0x10);
    IntReads(v, 4, 0x10, more);
    PostBaseForm(c, t, base, e + more, v, |e|);
    Flags3(PI.Encode(v, 3)[0], flag);
    IntReads(v, 3, flag, more);
    PostBaseNameForm(c, t, base, head + more, v, |head|);
  }

  /** A line that refers to an entry that was dropped, is yet to come, or is not in the static table. */
  lemma MissingIsRefused(c: Hpack.Tables, t: TableState, log: seq<Field>, base: nat, at: Place, never: bool,
                         more: seq<Byte>)
    requires Refines(t, log) && base < U64 && Missing(c, t, log, base, at)
    ensures ReadLine(c, t, base, EncodeEntry(base, at) + more) == Err
    ensures ReadLine(c, t, base, EncodeName(base, at, never) + more) == Err
  {
    match at
    case InStatic(i) => StaticMissing(c, t, base, i, never, more);
    case InLog(a) =>
      if a < base {
        BelowBaseMissing(c, t, log, base, a, never, more);
      } else {
        FromBaseMissing(c, t, log, base, a, never, more);
      }
  }

  /** An index before the start of the table: a relative one not below Base, for a section or an instruction. */
  lemma BeforeTheFirst(c: Hpack.Tables, t: TableState, base: nat, v: nat, more: seq<Byte>)
    requires base <= v < U64
    ensures ReadLine(c, t, base, Hpack.Flagged(PI.Encode(v, 6), 0x80) + more) == Err
  {
    var e := Hpack.Flagged(PI.Encode(v, 6), 0x80);
    Flags6(PI.Encode(v, 6)[0], 0x80);
    IntReads(v, 6, 0x80, more);
    RelativeForm(c, t, base, e + more, v, |e|);
  }

  /** A section that needs insertions the table has not seen. */
  lemma BlockedIsRefused(c: Hpack.Tables, t: TableState, ric: nat, base: nat, lines: seq<Byte>)
    requires t.insertCount < ric < U64 && InWindow(ric, t.insertCount)
    ensures DecodeSection(c, t, EncodePrefix(ric, base) + lines) == Err
  {
    var head := PI.Encode(EncodeRequired(ric), 8);
    var tail := Hpack.Flagged(PI.Encode(DeltaBase(ric, base), 7), if BaseSign(ric, base) then 0x80 else 0);
    RequiredIsReconstructed(EncodeRequired(ric), t.insertCount, ric);
    PlainRead(EncodeRequired(ric), 8, tail + lines);
    Associate(head, tail, lines);
  }

  /** A line that would take the list past 256 KiB, counted with 32 octets a field. */
  lemma OversizedIsRefused(c: Hpack.Tables, t: TableState, log: seq<Field>, base: nat, ref: Ref, more: seq<Byte>,
                           out: seq<Field>)
    requires ValidTables(c) && Refines(t, log) && |log| < U64 && base < U64 && Referable(c, t, log, ref)
             && Sendable(c, ref)
    requires ListSize(out + [Meaning(c, t, log, ref)]) > 262144
    ensures DecodeLines(c, t, base, EncodeRef(c, base, ref) + more, out) == Err
  {
    RefReads(c, t, log, base, ref, more);
  }

  /** A value that is no text. */
  lemma NoTextIsRefused(c: Hpack.Tables, name: seq<Byte>, head: seq<Byte>, value: Spelling, more: seq<Byte>)
    requires ValidTables(c) && |Written(c, value)| < U64 && !c.isText(value.text)
    ensures WithValue(c, name, head + EncodeSpelled(c, value) + more, |head|) == Err
  {
    NoTextRefused(c, value, more);
    assert (head + EncodeSpelled(c, value) + more)[|head|..] == EncodeSpelled(c, value) + more;
  }
}

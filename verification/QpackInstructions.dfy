/**
 * The encoder stream as any peer may write it (section 4.3 of RFC 9204): every instruction with its own pattern and
 * prefix width, texts raw or Huffman-coded. Each is carried out on the table as what it stands for in the log of
 * insertions.
 */
module QpackInstructions {
  import opened Common
  import opened Fields
  import opened HpackRuns
  import opened Spellings
  import opened QpackTable
  import opened QpackStream
  import Hpack
  import PI = PrefixInteger

  /** `back` counts from the newest entry of the log, which is 0. */
  datatype Command =
    | Resize(cap: nat)
    | StaticName(index: nat, value: Spelling)
    | LogName(back: nat, value: Spelling)
    | NewName(name: Spelling, value: Spelling)
    | Duplicate(back: nat)

  // ----- writing -----

  /** The leading integer with the pattern above it. */
  function Head(c: Hpack.Tables, w: Command): (out: seq<Byte>)
    requires |c.huffman| == 257
    ensures |out| > 0
  {
    match w
    case Resize(n) => Hpack.Flagged(PI.Encode(n, 5), 0x20)
    case StaticName(i, _) => Hpack.Flagged(PI.Encode(i, 6), 0xC0)
    case LogName(b, _) => Hpack.Flagged(PI.Encode(b, 6), 0x80)
    case NewName(name, _) => Hpack.Flagged(PI.Encode(|Written(c, name)|, 5), if name.huffman then 0x60 else 0x40)
    case Duplicate(b) => PI.Encode(b, 5)
  }

  function Texts(c: Hpack.Tables, w: Command): seq<Byte>
    requires |c.huffman| == 257
  {
    match w
    case StaticName(_, value) => EncodeSpelled(c, value)
    case LogName(_, value) => EncodeSpelled(c, value)
    case NewName(name, value) => Written(c, name) + EncodeSpelled(c, value)
    case _ => []
  }

  function Write(c: Hpack.Tables, w: Command): (out: seq<Byte>)
    requires |c.huffman| == 257
    ensures |out| > 0
  {
    Head(c, w) + Texts(c, w)
  }

  function WriteAll(c: Hpack.Tables, ws: seq<Command>): seq<Byte>
    requires |c.huffman| == 257
  {
    if ws == [] then [] else Write(c, ws[0]) + WriteAll(c, ws[1..])
  }

  /** Numbers and texts that a machine can count. */
  predicate Writable(c: Hpack.Tables, w: Command)
  {
    && |c.huffman| == 257 && |Write(c, w)| < U64
    && match w
       case Resize(n) => n < U64
       case StaticName(i, value) => i < U64 && |Written(c, value)| < U64
       case LogName(b, value) => b < U64 && |Written(c, value)| < U64
       case NewName(name, value) => |Written(c, name)| < U64 && |Written(c, value)| < U64
       case Duplicate(b) => b < U64
  }

  // ----- meaning -----

  /** The entry `back` before the newest one of the log, while the table still has it. */
  function Back(t: TableState, log: seq<Field>, back: nat): Option<Field>
  {
    if back < |log| && t.dropped <= |log| - 1 - back then Some(log[|log| - 1 - back]) else None
  }

  /** What is spelled out is text. */
  predicate Textual(c: Hpack.Tables, w: Command)
  {
    match w
    case StaticName(_, value) => c.isText(value.text)
    case LogName(_, value) => c.isText(value.text)
    case NewName(name, value) => c.isText(name.text) && c.isText(value.text)
    case _ => true
  }

  /**
   * What the instruction asks of the table; none when it refers to an entry that is not there or spells out no text.
   */
  function Meaning(c: Hpack.Tables, t: TableState, log: seq<Field>, w: Command): Option<QpackTable.Op>
  {
    if Textual(c, w) then Asks(c, t, log, w) else None
  }

  function Asks(c: Hpack.Tables, t: TableState, log: seq<Field>, w: Command): Option<QpackTable.Op>
  {
    match w
    case Resize(n) => Some(Capacity(n))
    case StaticName(i, value) => if i < |c.fields| then Some(Add(Field(c.fields[i].name, value.text))) else None
    case LogName(b, value) =>
      (match Back(t, log, b) case Some(f) => Some(Add(Field(f.name, value.text))) case None => None)
    case NewName(name, value) => Some(Add(Field(name.text, value.text)))
    case Duplicate(b) => (match Back(t, log, b) case Some(f) => Some(Add(f)) case None => None)
  }

  function Perform(t: TableState, op: QpackTable.Op): Result<TableState>
  {
    match op case Capacity(n) => SetCapacity(t, n) case Add(f) => Insert(t, f)
  }

  /** How the instruction is answered: carried out, or refused because it cannot be. */
  function Answer(c: Hpack.Tables, t: TableState, log: seq<Field>, w: Command): Instruction
    requires |c.huffman| == 257
  {
    match Meaning(c, t, log, w)
    case None => Bad
    case Some(op) => (match Perform(t, op) case Err => Bad case Ok(after) => Applied(after, |Write(c, w)|))
  }

  // ----- one instruction -----

  lemma BackReads(t: TableState, log: seq<Field>, back: nat)
    requires Refines(t, log)
    ensures RelativeEntry(t, back) == match Back(t, log, back) case Some(f) => Ok(f) case None => Err
  {
    if back < |log| {
      AbsoluteIndexIsStable(t, log, |log| - 1 - back);
    }
  }

  lemma HeadReads(v: nat, p: nat, flag: nat, more: seq<Byte>)
    requires 5 <= p <= 6 && v < U64 && flag + PI.Limit(p) < 256
    requires PI.LowBits(PI.Encode(v, p)[0] + flag, p) == PI.Encode(v, p)[0]
    ensures var e := Hpack.Flagged(PI.Encode(v, p), flag);
            PI.ParseInt(e[0], p, (e + more)[1..]) == PI.Done(v, |e| - 1)
  {
    var e := Hpack.Flagged(PI.Encode(v, p), flag);
    FlaggedRead(v, p, flag, more);
    assert (e + more)[0] == e[0];
  }

  lemma Behind(front: seq<Byte>, s: seq<Byte>)
    requires s != []
    ensures (front + s)[|front|] == s[0] && (front + s)[|front| + 1..] == s[1..]
  {
  }

  lemma ValueForm(c: Hpack.Tables, buf: seq<Byte>, start: nat, len: nat, used: nat)
    requires start < |buf| && PI.ParseInt(buf[start], 7, buf[start + 1..]) == PI.Done(len, used)
    ensures ValueAt(c, buf, start) == TextAt(c, buf[start] >= 0x80, buf, start + 1 + used, len)
  {
  }

  /** The length of a value and its Huffman bit, wherever it stands. */
  lemma ValueHeadReads(c: Hpack.Tables, front: seq<Byte>, huffman: bool, len: nat, tail: seq<Byte>)
    requires len < U64
    ensures var e := Hpack.Flagged(PI.Encode(len, 7), if huffman then 0x80 else 0);
            ValueAt(c, front + (e + tail), |front|) == TextAt(c, huffman, front + (e + tail), |front| + |e|, len)
  {
    var flag := if huffman then 0x80 else 0;
    var e := Hpack.Flagged(PI.Encode(len, 7), flag);
    Flags7(PI.Encode(len, 7)[0], flag);
    FlaggedRead(len, 7, flag, tail);
    Behind(front, e + tail);
    ValueForm(c, front + (e + tail), |front|, len, |e| - 1);
  }

  lemma ValueAtReads(c: Hpack.Tables, front: seq<Byte>, value: Spelling, more: seq<Byte>)
    requires ValidTables(c) && |front| + |EncodeSpelled(c, value)| < U64
    ensures var buf := front + EncodeSpelled(c, value) + more;
            ValueAt(c, buf, |front|)
            == if c.isText(value.text) then Got(value.text, |front| + |EncodeSpelled(c, value)|) else Wrong
  {
    var raw := Written(c, value);
    var e := Hpack.Flagged(PI.Encode(|raw|, 7), if value.huffman then 0x80 else 0);
    ValueHeadReads(c, front, value.huffman, |raw|, raw + more);
    TextAtReads(c, value, front + e, more);
    FiveParts(front, e, raw, more);
  }

  lemma FiveParts(a: seq<Byte>, b: seq<Byte>, c: seq<Byte>, d: seq<Byte>)
    ensures a + (b + c) + d == (a + b) + c + d == a + (b + (c + d))
  {
  }

  /** A text of known length. */
  lemma TextAtReads(c: Hpack.Tables, s: Spelling, front: seq<Byte>, more: seq<Byte>)
    requires ValidTables(c) && |front| + |Written(c, s)| < U64
    ensures var raw := Written(c, s);
            TextAt(c, s.huffman, front + raw + more, |front|, |raw|)
            == if c.isText(s.text) then Got(s.text, |front| + |raw|) else Wrong
  {
    var raw := Written(c, s);
    assert (front + raw + more)[|front|..|front| + |raw|] == raw;
    if s.huffman {
      HuffmanTextRoundTrip(c, s.text);
    }
  }

  lemma NamedReads(c: Hpack.Tables, t: TableState, name: seq<Byte>, front: seq<Byte>, value: Spelling, more: seq<Byte>)
    requires ValidTables(c) && |front| + |EncodeSpelled(c, value)| < U64
    ensures InsertNamed(c, t, name, front + EncodeSpelled(c, value) + more, |front|)
            == if c.isText(value.text)
               then Added(Insert(t, Field(name, value.text)), |front| + |EncodeSpelled(c, value)|)
               else Bad
  {
    ValueAtReads(c, front, value, more);
  }

  lemma LiteralReads(c: Hpack.Tables, t: TableState, front: seq<Byte>, name: Spelling, value: Spelling, more: seq<Byte>)
    requires ValidTables(c) && |front| + |Written(c, name)| + |EncodeSpelled(c, value)| < U64
    ensures var raw := Written(c, name);
            var end := |front| + |raw| + |EncodeSpelled(c, value)|;
            InsertLiteral(c, t, name.huffman, front + raw + EncodeSpelled(c, value) + more, |front|, |raw|)
            == if c.isText(name.text) && c.isText(value.text)
               then Added(Insert(t, Field(name.text, value.text)), end) else Bad
  {
    var raw, bytes := Written(c, name), EncodeSpelled(c, value);
    Regrouped(front + raw, bytes, more);
    LiteralAt(c, t, front, name, value, more, front + raw + bytes + more);
  }

  lemma LiteralAt(c: Hpack.Tables, t: TableState, front: seq<Byte>, name: Spelling, value: Spelling, more: seq<Byte>,
                  buf: seq<Byte>)
    requires ValidTables(c) && |front| + |Written(c, name)| + |EncodeSpelled(c, value)| < U64
    requires var raw, bytes := Written(c, name), EncodeSpelled(c, value);
             buf == front + raw + (bytes + more) && buf == (front + raw) + bytes + more
    ensures var raw := Written(c, name);
            var end := |front| + |raw| + |EncodeSpelled(c, value)|;
            InsertLiteral(c, t, name.huffman, buf, |front|, |raw|)
            == if c.isText(name.text) && c.isText(value.text)
               then Added(Insert(t, Field(name.text, value.text)), end) else Bad
  {
    var k := |Written(c, name)|;
    TextOf(c, name, front, EncodeSpelled(c, value) + more, buf);
    NamedOf(c, t, name.text, front + Written(c, name), value, more, buf);
    LiteralUnfolds(c, t, name.huffman, buf, |front|, k);
  }

  lemma TextOf(c: Hpack.Tables, s: Spelling, front: seq<Byte>, more: seq<Byte>, buf: seq<Byte>)
    requires ValidTables(c) && |front| + |Written(c, s)| < U64 && buf == front + Written(c, s) + more
    ensures TextAt(c, s.huffman, buf, |front|, |Written(c, s)|)
            == if c.isText(s.text) then Got(s.text, |front| + |Written(c, s)|) else Wrong
  {
    TextAtReads(c, s, front, more);
  }

  lemma NamedOf(c: Hpack.Tables, t: TableState, name: seq<Byte>, front: seq<Byte>, value: Spelling, more: seq<Byte>,
                buf: seq<Byte>)
    requires ValidTables(c) && |front| + |EncodeSpelled(c, value)| < U64
             && buf == front + EncodeSpelled(c, value) + more
    ensures InsertNamed(c, t, name, buf, |front|)
            == if c.isText(value.text)
               then Added(Insert(t, Field(name, value.text)), |front| + |EncodeSpelled(c, value)|)
               else Bad
  {
    NamedReads(c, t, name, front, value, more);
  }

  lemma Regrouped(x: seq<Byte>, y: seq<Byte>, z: seq<Byte>)
    ensures x + y + z == x + (y + z)
  {
  }

  lemma LiteralUnfolds(c: Hpack.Tables, t: TableState, huffman: bool, buf: seq<Byte>, start: nat, len: nat)
    requires start <= |buf|
    ensures InsertLiteral(c, t, huffman, buf, start, len)
            == match TextAt(c, huffman, buf, start, len)
               case Short => Partial
               case Wrong => Bad
               case Got(name, end) => InsertNamed(c, t, name, buf, end)
  {
  }

  // the first byte selects the form

  lemma NewNameForm(c: Hpack.Tables, t: TableState, buf: seq<Byte>, huffman: bool, v: nat, n: nat)
    requires 0 < n <= |buf| && PI.ParseInt(buf[0], 5, buf[1..]) == PI.Done(v, n - 1)
    requires if huffman then 0x60 <= buf[0] < 0x80 else 0x40 <= buf[0] < 0x60
    ensures Next(c, t, buf) == InsertLiteral(c, t, huffman, buf, n, v)
  {
  }

  lemma KnownNameForm(c: Hpack.Tables, t: TableState, buf: seq<Byte>, static_: bool, v: nat, n: nat)
    requires 0 < n <= |buf| && PI.ParseInt(buf[0], 6, buf[1..]) == PI.Done(v, n - 1)
    requires if static_ then 0xC0 <= buf[0] else 0x80 <= buf[0] < 0xC0
    ensures Next(c, t, buf)
            == var name := NameAt(c, t, static_, v);
               if name.Ok? then InsertNamed(c, t, name.value.name, buf, n) else Bad
  {
  }

  lemma BareForm(c: Hpack.Tables, t: TableState, buf: seq<Byte>, v: nat, n: nat)
    requires 0 < n <= |buf| && PI.ParseInt(buf[0], 5, buf[1..]) == PI.Done(v, n - 1) && buf[0] < 0x40
    ensures Next(c, t, buf)
            == if buf[0] >= 0x20 then Added(SetCapacity(t, v), n)
               else if RelativeEntry(t, v).Ok? then Added(Insert(t, RelativeEntry(t, v).value), n) else Bad
  {
  }

  /** Setting the capacity and duplicating have nothing after their integer. */
  lemma BareReads(c: Hpack.Tables, t: TableState, log: seq<Field>, w: Command, more: seq<Byte>)
    requires ValidTables(c) && Writable(c, w) && Refines(t, log) && (w.Resize? || w.Duplicate?)
    ensures Next(c, t, Write(c, w) + more) == Answer(c, t, log, w)
  {
    var head := Head(c, w);
    assert head + [] == head;
    if w.Resize? {
      HeadReads(w.cap, 5, 0x20, more);
      BareForm(c, t, head + more, w.cap, |head|);
    } else {
      assert Hpack.Flagged(PI.Encode(w.back, 5), 0) == PI.Encode(w.back, 5);
      HeadReads(w.back, 5, 0, more);
      BareForm(c, t, head + more, w.back, |head|);
      BackReads(t, log, w.back);
    }
  }

  /** The length of a new name with its pattern. */
  lemma NewNameNext(c: Hpack.Tables, t: TableState, huffman: bool, len: nat, tail: seq<Byte>)
    requires len < U64 && |tail| >= len
    ensures var head := Hpack.Flagged(PI.Encode(len, 5), if huffman then 0x60 else 0x40);
            Next(c, t, head + tail) == InsertLiteral(c, t, huffman, head + tail, |head|, len)
  {
    var flag := if huffman then 0x60 else 0x40;
    var head := Hpack.Flagged(PI.Encode(len, 5), flag);
    HeadReads(len, 5, flag, tail);
    NewNameForm(c, t, head + tail, huffman, len, |head|);
  }

  lemma NewNameReads(c: Hpack.Tables, t: TableState, log: seq<Field>, w: Command, more: seq<Byte>)
    requires ValidTables(c) && Writable(c, w) && w.NewName?
    ensures Next(c, t, Write(c, w) + more) == Answer(c, t, log, w)
  {
    var head, raw, value := Head(c, w), Written(c, w.name), EncodeSpelled(c, w.value);
    FourParts(head, raw, value, more);
    NewNameNext(c, t, w.name.huffman, |raw|, raw + value + more);
    LiteralReads(c, t, head, w.name, w.value, more);
  }

  lemma FourParts(a: seq<Byte>, b: seq<Byte>, c: seq<Byte>, d: seq<Byte>)
    ensures a + (b + c) + d == a + b + c + d == a + (b + c + d)
  {
  }

  /** The integer, the pattern and the texts of an insertion with a known name. */
  lemma KnownNameReads(c: Hpack.Tables, t: TableState, w: Command, v: nat, value: Spelling, more: seq<Byte>)
    requires ValidTables(c) && Writable(c, w) && (w == StaticName(v, value) || w == LogName(v, value))
    ensures Next(c, t, Write(c, w) + more)
            == var name := NameAt(c, t, w.StaticName?, v);
               if name.Ok? && c.isText(value.text)
               then Added(Insert(t, Field(name.value.name, value.text)), |Write(c, w)|)
               else Bad
  {
    var head, bytes := Head(c, w), EncodeSpelled(c, value);
    HeadReads(v, 6, if w.StaticName? then 0xC0 else 0x80, bytes + more);
    Regrouped(head, bytes, more);
    KnownNameAt(c, t, w.StaticName?, v, head, value, more, head + bytes + more);
  }

  lemma KnownNameAt(c: Hpack.Tables, t: TableState, static_: bool, v: nat, head: seq<Byte>, value: Spelling,
                    more: seq<Byte>, buf: seq<Byte>)
    requires ValidTables(c) && |head| + |EncodeSpelled(c, value)| < U64 && head != []
    requires buf == head + EncodeSpelled(c, value) + more && buf == head + (EncodeSpelled(c, value) + more)
    requires PI.ParseInt(head[0], 6, buf[1..]) == PI.Done(v, |head| - 1)
    requires if static_ then 0xC0 <= head[0] else 0x80 <= head[0] < 0xC0
    ensures Next(c, t, buf)
            == var name := NameAt(c, t, static_, v);
               if name.Ok? && c.isText(value.text)
               then Added(Insert(t, Field(name.value.name, value.text)), |head| + |EncodeSpelled(c, value)|)
               else Bad
  {
    assert buf[0] == head[0];
    KnownNameForm(c, t, buf, static_, v, |head|);
    var name := NameAt(c, t, static_, v);
    if name.Ok? {
      NamedReads(c, t, name.value.name, head, value, more);
    }
  }

  lemma StaticNameReads(c: Hpack.Tables, t: TableState, log: seq<Field>, w: Command, more: seq<Byte>)
    requires ValidTables(c) && Writable(c, w) && w.StaticName?
    ensures Next(c, t, Write(c, w) + more) == Answer(c, t, log, w)
  {
    KnownNameReads(c, t, w, w.index, w.value, more);
  }

  lemma LogNameReads(c: Hpack.Tables, t: TableState, log: seq<Field>, w: Command, more: seq<Byte>)
    requires ValidTables(c) && Writable(c, w) && Refines(t, log) && w.LogName?
    ensures Next(c, t, Write(c, w) + more) == Answer(c, t, log, w)
  {
    KnownNameReads(c, t, w, w.back, w.value, more);
    BackReads(t, log, w.back);
  }

  /** Every instruction is read for what it stands for, whatever follows, and refused exactly when it cannot be done. */
  lemma InstructionReads(c: Hpack.Tables, t: TableState, log: seq<Field>, w: Command, more: seq<Byte>)
    requires ValidTables(c) && Writable(c, w) && Refines(t, log)
    ensures Next(c, t, Write(c, w) + more) == Answer(c, t, log, w)
  {
    match w
    case Resize(_) => BareReads(c, t, log, w, more);
    case Duplicate(_) => BareReads(c, t, log, w, more);
    case NewName(_, _) => NewNameReads(c, t, log, w, more);
    case StaticName(_, _) => StaticNameReads(c, t, log, w, more);
    case LogName(_, _) => LogNameReads(c, t, log, w, more);
  }

  // ----- whole streams -----

  function Extended(log: seq<Field>, op: QpackTable.Op): seq<Field>
  {
    match op case Add(f) => log + [f] case Capacity(_) => log
  }

  /** Every instruction refers to entries that are there, spells out text, and asks for what the table can do. */
  predicate Doable(c: Hpack.Tables, t: TableState, log: seq<Field>, ws: seq<Command>)
    decreases |ws|
  {
    ws != [] ==>
      && Writable(c, ws[0]) && Meaning(c, t, log, ws[0]).Some? && Perform(t, Meaning(c, t, log, ws[0]).value).Ok?
      && var op := Meaning(c, t, log, ws[0]).value;
         Doable(c, Perform(t, op).value, Extended(log, op), ws[1..])
  }

  /** The table and the log after the instructions. */
  function Outcome(c: Hpack.Tables, t: TableState, log: seq<Field>, ws: seq<Command>): (TableState, seq<Field>)
    requires Doable(c, t, log, ws)
    decreases |ws|
  {
    if ws == [] then (t, log)
    else
      var op := Meaning(c, t, log, ws[0]).value;
      Outcome(c, Perform(t, op).value, Extended(log, op), ws[1..])
  }

  lemma PerformRefines(t: TableState, log: seq<Field>, op: QpackTable.Op)
    requires Refines(t, log) && Perform(t, op).Ok?
    ensures Refines(Perform(t, op).value, Extended(log, op))
  {
    match op
    case Capacity(n) => SetCapacityRefines(t, log, n);
    case Add(f) => InsertRefines(t, log, f);
  }

  /** A stream of written instructions is taken whole, and leaves a table that refines the log of their entries. */
  lemma {:induction false} StreamReads(c: Hpack.Tables, t: TableState, log: seq<Field>, ws: seq<Command>)
    requires ValidTables(c) && Refines(t, log) && Doable(c, t, log, ws)
    ensures var (t1, log1) := Outcome(c, t, log, ws);
            ApplyAll(c, t, WriteAll(c, ws)) == Progress(t1, [], false) && Refines(t1, log1)
    decreases |ws|
  {
    if ws != [] {
      var bytes, more := Write(c, ws[0]), WriteAll(c, ws[1..]);
      var op := Meaning(c, t, log, ws[0]).value;
      InstructionReads(c, t, log, ws[0], more);
      PerformRefines(t, log, op);
      assert (bytes + more)[|bytes|..] == more;
      StreamReads(c, Perform(t, op).value, Extended(log, op), ws[1..]);
    }
  }
}

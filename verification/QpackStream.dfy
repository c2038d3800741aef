/**
 * The QPACK encoder stream (section 4.3 of RFC 9204): instructions that arrive in arbitrary pieces. A piece that ends
 * inside a string waits for the rest; a piece that ends inside an instruction's leading integer is an error.
 */
module QpackStream {
  import opened Common
  import opened Fields
  import opened QpackTable
  import opened QpackIndex
  import Hpack
  import PI = PrefixInteger

  // ----- one instruction -----

  datatype Text = Got(text: seq<Byte>, used: nat) | Short | Wrong

  /** A decoded string of `len` bytes at `start`, if that many have arrived. */
  ghost function TextAt(c: Hpack.Tables, huffman: bool, buf: seq<Byte>, start: nat, len: nat): (r: Text)
    ensures r.Got? ==> start + len == r.used <= |buf|
  {
    if start + len >= U64 then Wrong
    else if start + len > |buf| then Short
    else
      var raw := buf[start..start + len];
      var text := if huffman then Hpack.HuffmanText(c, raw) else Ok(raw);
      if text.Ok? && c.isText(text.value) then Got(text.value, start + len) else Wrong
  }

  /** A value string at `start`. */
  ghost function ValueAt(c: Hpack.Tables, buf: seq<Byte>, start: nat): (r: Text)
    requires start <= |buf|
    ensures r.Got? ==> start < r.used <= |buf|
  {
    if start == |buf| then Short
    else
      match PI.ParseInt(buf[start], 7, buf[start + 1..])
      case Truncated => Short
      case Invalid => Wrong
      case Done(len, used) => TextAt(c, buf[start] >= 0x80, buf, start + 1 + used, len)
  }

  /**
   * What the front of a buffer is: an instruction and the table after it, part of one, part of one that ends inside
   * its leading integer, or an error.
   */
  datatype Instruction = Applied(after: TableState, used: nat) | Partial | Torn | Bad

  function NameAt(c: Hpack.Tables, t: TableState, static_: bool, idx: nat): Result<Field>
  {
    if static_ then (if idx < |c.fields| then Ok(c.fields[idx]) else Err) else RelativeEntry(t, idx)
  }

  function RelativeEntry(t: TableState, idx: nat): Result<Field>
  {
    match RelativeToAbsolute(t.insertCount, idx) case Err => Err case Ok(a) => GetAbsolute(t, a)
  }

  function Added(t: Result<TableState>, used: nat): (r: Instruction)
    ensures r.Applied? ==> r.used == used
  {
    if t.Ok? then Applied(t.value, used) else Bad
  }

  /** Inserts `name` with the value string at `start`. */
  ghost function InsertNamed(c: Hpack.Tables, t: TableState, name: seq<Byte>, buf: seq<Byte>,
                             start: nat): (r: Instruction)
    requires start <= |buf|
    ensures r.Applied? ==> start < r.used <= |buf|
  {
    match ValueAt(c, buf, start)
    case Short => Partial
    case Wrong => Bad
    case Got(value, end) => Added(Insert(t, Field(name, value)), end)
  }

  ghost function InsertLiteral(c: Hpack.Tables, t: TableState, huffman: bool, buf: seq<Byte>, start: nat,
                               len: nat): (r: Instruction)
    requires start <= |buf|
    ensures r.Applied? ==> start < r.used <= |buf|
  {
    match TextAt(c, huffman, buf, start, len)
    case Short => Partial
    case Wrong => Bad
    case Got(name, end) => InsertNamed(c, t, name, buf, end)
  }

  function PrefixBits(b: Byte): nat { if b >= 0x80 then 6 else 5 }

  /** The instruction whose leading integer `v` ends at `n`. */
  ghost function Execute(c: Hpack.Tables, t: TableState, buf: seq<Byte>, v: nat, n: nat): (r: Instruction)
    requires 0 < n <= |buf|
    ensures r.Applied? ==> 0 < r.used <= |buf|
    ensures !r.Torn?
  {
    var b: nat := buf[0];
    if b >= 0x80 then
      var name := NameAt(c, t, b / 64 % 2 == 1, v);
      if name.Ok? then InsertNamed(c, t, name.value.name, buf, n) else Bad
    else if b >= 0x40 then InsertLiteral(c, t, b / 32 % 2 == 1, buf, n, v)
    else if b >= 0x20 then Added(SetCapacity(t, v), n)
    else
      var entry := RelativeEntry(t, v);
      if entry.Ok? then Added(Insert(t, entry.value), n) else Bad
  }

  ghost function Next(c: Hpack.Tables, t: TableState, buf: seq<Byte>): (r: Instruction)
    requires buf != []
    ensures r.Applied? ==> 0 < r.used <= |buf|
  {
    match PI.ParseInt(buf[0], PrefixBits(buf[0]), buf[1..])
    case Truncated => Torn
    case Invalid => Bad
    case Done(v, used) => Execute(c, t, buf, v, 1 + used)
  }

  // ----- whole buffers -----

  /** The table after every complete instruction, what is left over, and whether it failed there. */
  datatype Progress = Progress(t: TableState, left: seq<Byte>, failed: bool)

  ghost function ApplyAll(c: Hpack.Tables, t: TableState, buf: seq<Byte>): Progress
    decreases |buf|
  {
    if buf == [] then Progress(t, [], false)
    else
      match Next(c, t, buf)
      case Applied(after, used) => ApplyAll(c, after, buf[used..])
      case Partial => Progress(t, buf, false)
      case Torn => Progress(t, buf, true)
      case Bad => Progress(t, buf, true)
  }

  /** The pieces of a stream one after the other, leftovers carried forward, up to the first failure. */
  ghost function ApplyPieces(c: Hpack.Tables, t: TableState, left: seq<Byte>, pieces: seq<seq<Byte>>): Progress
    decreases |pieces|
  {
    if pieces == [] then Progress(t, left, false)
    else
      var p := ApplyAll(c, t, left + pieces[0]);
      if p.failed then p else ApplyPieces(c, p.t, p.left, pieces[1..])
  }

  function Concat(pieces: seq<seq<Byte>>): seq<Byte>
  {
    if pieces == [] then [] else pieces[0] + Concat(pieces[1..])
  }

  // ----- more bytes never change a verdict -----

  lemma TextExtends(c: Hpack.Tables, huffman: bool, buf: seq<Byte>, more: seq<Byte>, start: nat, len: nat)
    requires !TextAt(c, huffman, buf, start, len).Short?
    ensures TextAt(c, huffman, buf + more, start, len) == TextAt(c, huffman, buf, start, len)
  {
    if start + len < U64 {
      assert (buf + more)[start..start + len] == buf[start..start + len];
    }
  }

  lemma ValueExtends(c: Hpack.Tables, buf: seq<Byte>, more: seq<Byte>, start: nat)
    requires start <= |buf| && !ValueAt(c, buf, start).Short?
    ensures ValueAt(c, buf + more, start) == ValueAt(c, buf, start)
  {
    PI.Extends(buf[start], 7, buf[start + 1..], more);
    assert (buf + more)[start + 1..] == buf[start + 1..] + more;
    match PI.ParseInt(buf[start], 7, buf[start + 1..])
    case Done(len, used) => TextExtends(c, buf[start] >= 0x80, buf, more, start + 1 + used, len);
    case _ =>
  }

  lemma ExecuteExtends(c: Hpack.Tables, t: TableState, buf: seq<Byte>, more: seq<Byte>, v: nat, n: nat)
    requires 0 < n <= |buf| && !Execute(c, t, buf, v, n).Partial?
    ensures Execute(c, t, buf + more, v, n) == Execute(c, t, buf, v, n)
  {
    var b: nat := buf[0];
    assert (buf + more)[0] == b;
    if b >= 0x80 {
      if NameAt(c, t, b / 64 % 2 == 1, v).Ok? {
        ValueExtends(c, buf, more, n);
      }
    } else if b >= 0x40 {
      LiteralExtends(c, t, b / 32 % 2 == 1, buf, more, n, v);
    }
  }

  lemma LiteralExtends(c: Hpack.Tables, t: TableState, huffman: bool, buf: seq<Byte>, more: seq<Byte>, n: nat, len: nat)
    requires n <= |buf| && !InsertLiteral(c, t, huffman, buf, n, len).Partial?
    ensures InsertLiteral(c, t, huffman, buf + more, n, len) == InsertLiteral(c, t, huffman, buf, n, len)
  {
    TextExtends(c, huffman, buf, more, n, len);
    if TextAt(c, huffman, buf, n, len).Got? {
      ValueExtends(c, buf, more, TextAt(c, huffman, buf, n, len).used);
    }
  }

  lemma NextExtends(c: Hpack.Tables, t: TableState, buf: seq<Byte>, more: seq<Byte>)
    requires buf != [] && !Next(c, t, buf).Partial? && !Next(c, t, buf).Torn?
    ensures Next(c, t, buf + more) == Next(c, t, buf)
  {
    PI.Extends(buf[0], PrefixBits(buf[0]), buf[1..], more);
    assert (buf + more)[1..] == buf[1..] + more;
    match PI.ParseInt(buf[0], PrefixBits(buf[0]), buf[1..])
    case Done(v, used) => ExecuteExtends(c, t, buf, more, v, 1 + used);
    case _ =>
  }

  // ----- cutting the stream -----

  /** The cut after `buf` falls inside the leading integer of an instruction. */
  ghost predicate CutsInteger(c: Hpack.Tables, t: TableState, buf: seq<Byte>)
  {
    var p := ApplyAll(c, t, buf);
    p.left != [] && Next(c, p.t, p.left).Torn?
  }

  lemma {:induction false} Stops(c: Hpack.Tables, t: TableState, buf: seq<Byte>)
    ensures var p := ApplyAll(c, t, buf);
            if p.left == [] then !p.failed
            else !Next(c, p.t, p.left).Applied? && (p.failed <==> !Next(c, p.t, p.left).Partial?)
    decreases |buf|
  {
    if buf != [] && Next(c, t, buf).Applied? {
      Stops(c, Next(c, t, buf).after, buf[Next(c, t, buf).used..]);
    }
  }

  /** Unless a cut tears an integer, applying the front and then the rest is applying the whole. */
  lemma {:induction false} TwoPieces(c: Hpack.Tables, t: TableState, a: seq<Byte>, b: seq<Byte>)
    requires !CutsInteger(c, t, a)
    ensures var p := ApplyAll(c, t, a);
            if p.failed then ApplyAll(c, t, a + b).failed && ApplyAll(c, t, a + b).t == p.t
            else ApplyAll(c, t, a + b) == ApplyAll(c, p.t, p.left + b)
    decreases |a|
  {
    if a == [] {
      assert a + b == b && [] + b == b;
    } else {
      match Next(c, t, a)
      case Applied(after, used) =>
        NextExtends(c, t, a, b);
        assert (a + b)[used..] == a[used..] + b;
        TwoPieces(c, after, a[used..], b);
      case Bad => NextExtends(c, t, a, b);
      case _ =>
    }
  }

  // ----- where a cut falls, on the bytes alone -----

  /** Where the string that starts at `start` ends, if its bytes have arrived. */
  function StringEnd(buf: seq<Byte>, start: nat): (r: Option<nat>)
    requires start <= |buf|
    ensures r.Some? ==> start < r.value <= |buf|
  {
    if start == |buf| then None
    else
      match PI.ParseInt(buf[start], 7, buf[start + 1..])
      case Done(len, used) => if start + 1 + used + len <= |buf| then Some(start + 1 + used + len) else None
      case _ => None
  }

  /** Where the first instruction of a buffer ends, if its bytes have arrived. */
  function Length(buf: seq<Byte>): (r: Option<nat>)
    ensures r.Some? ==> 0 < r.value <= |buf|
  {
    if buf == [] then None
    else
      match PI.ParseInt(buf[0], PrefixBits(buf[0]), buf[1..])
      case Done(v, used) =>
        if buf[0] >= 0x80 then StringEnd(buf, 1 + used)
        else if buf[0] >= 0x40 then (if 1 + used + v <= |buf| then StringEnd(buf, 1 + used + v) else None)
        else Some(1 + used)
      case _ => None
  }

  /** What is left of a buffer after its complete instructions. */
  function Unfinished(buf: seq<Byte>): seq<Byte>
    decreases |buf|
  {
    if Length(buf).None? then buf else Unfinished(buf[Length(buf).value..])
  }

  /** Nothing but a leading integer that is not over: a prefix of ones, then bytes with the top bit set. */
  predicate InsideInteger(buf: seq<Byte>)
  {
    && buf != [] && PI.LowBits(buf[0], PrefixBits(buf[0])) == PI.Limit(PrefixBits(buf[0]))
    && forall i :: 1 <= i < |buf| ==> buf[i] >= 0x80
  }

  lemma ValueMatchesEnd(c: Hpack.Tables, buf: seq<Byte>, start: nat)
    requires start <= |buf|
    ensures ValueAt(c, buf, start).Got? ==> StringEnd(buf, start) == Some(ValueAt(c, buf, start).used)
    ensures ValueAt(c, buf, start).Short? ==> StringEnd(buf, start).None?
  {
  }

  /** An applied instruction took the bytes its own length says; a partial one has not all of them. */
  lemma NextMatchesLength(c: Hpack.Tables, t: TableState, buf: seq<Byte>)
    requires buf != []
    ensures Next(c, t, buf).Applied? ==> Length(buf) == Some(Next(c, t, buf).used)
    ensures Next(c, t, buf).Partial? ==> Length(buf).None? && !InsideInteger(buf)
    ensures Next(c, t, buf).Torn? ==> Length(buf).None? && InsideInteger(buf)
  {
    var low, rest := PI.LowBits(buf[0], PrefixBits(buf[0])), buf[1..];
    PI.TailEnds(rest, low, 0);
    match PI.ParseInt(buf[0], PrefixBits(buf[0]), rest)
    case Done(v, used) =>
      DoneIsNotInside(buf, v, used);
      ExecuteMatchesLength(c, t, buf, v, 1 + used);
    case Truncated =>
      assert forall i :: 1 <= i < |buf| ==> buf[i] == rest[i - 1];
    case Invalid =>
  }

  lemma DoneIsNotInside(buf: seq<Byte>, v: nat, used: nat)
    requires buf != [] && PI.ParseInt(buf[0], PrefixBits(buf[0]), buf[1..]) == PI.Done(v, used)
    ensures !InsideInteger(buf)
  {
    var low := PI.LowBits(buf[0], PrefixBits(buf[0]));
    if low == PI.Limit(PrefixBits(buf[0])) {
      PI.TailEnds(buf[1..], low, 0);
      assert buf[1..][used - 1] == buf[used];
    }
  }

  lemma ExecuteMatchesLength(c: Hpack.Tables, t: TableState, buf: seq<Byte>, v: nat, n: nat)
    requires 0 < n <= |buf| && PI.ParseInt(buf[0], PrefixBits(buf[0]), buf[1..]) == PI.Done(v, n - 1)
    ensures Execute(c, t, buf, v, n).Applied? ==> Length(buf) == Some(Execute(c, t, buf, v, n).used)
    ensures Execute(c, t, buf, v, n).Partial? ==> Length(buf).None?
  {
    var b: nat := buf[0];
    if b >= 0x80 {
      ValueMatchesEnd(c, buf, n);
    } else if b >= 0x40 {
      var name := TextAt(c, b / 32 % 2 == 1, buf, n, v);
      if name.Got? {
        ValueMatchesEnd(c, buf, name.used);
      }
    }
  }

  lemma StringEndExtends(buf: seq<Byte>, more: seq<Byte>, start: nat)
    requires start <= |buf| && StringEnd(buf, start).Some?
    ensures StringEnd(buf + more, start) == StringEnd(buf, start)
  {
    PI.Extends(buf[start], 7, buf[start + 1..], more);
    assert (buf + more)[start + 1..] == buf[start + 1..] + more;
  }

  /** Later bytes do not change where an instruction ends. */
  lemma LengthExtends(buf: seq<Byte>, more: seq<Byte>)
    requires Length(buf).Some?
    ensures Length(buf + more) == Length(buf)
  {
    PI.Extends(buf[0], PrefixBits(buf[0]), buf[1..], more);
    assert (buf + more)[1..] == buf[1..] + more;
    var r := PI.ParseInt(buf[0], PrefixBits(buf[0]), buf[1..]);
    if buf[0] >= 0x80 {
      StringEndExtends(buf, more, 1 + r.used);
    } else if buf[0] >= 0x40 {
      StringEndExtends(buf, more, 1 + r.used + r.value);
    }
  }

  /** What is left after more bytes arrive depends only on what was left before. */
  lemma {:induction false} UnfinishedJoins(a: seq<Byte>, b: seq<Byte>)
    ensures Unfinished(a + b) == Unfinished(Unfinished(a) + b)
    decreases |a|
  {
    if Length(a).Some? {
      var n := Length(a).value;
      LengthExtends(a, b);
      assert (a + b)[n..] == a[n..] + b;
      UnfinishedJoins(a[n..], b);
    }
  }

  /** Unless an instruction is refused, the leftover is what the bytes say. */
  lemma {:induction false} LeftIsUnfinished(c: Hpack.Tables, t: TableState, buf: seq<Byte>)
    ensures var p := ApplyAll(c, t, buf);
            p.left == [] || !Next(c, p.t, p.left).Bad? ==> p.left == Unfinished(buf)
    decreases |buf|
  {
    if buf != [] {
      NextMatchesLength(c, t, buf);
      if Next(c, t, buf).Applied? {
        LeftIsUnfinished(c, Next(c, t, buf).after, buf[Next(c, t, buf).used..]);
      }
    }
  }

  // ----- any number of pieces -----

  /** The cut after the first `k` pieces falls inside the leading integer of an instruction. */
  predicate TornCut(left: seq<Byte>, pieces: seq<seq<Byte>>, k: nat)
    requires k <= |pieces|
  {
    InsideInteger(Unfinished(left + Concat(pieces[..k])))
  }

  predicate SomeCutInside(left: seq<Byte>, pieces: seq<seq<Byte>>)
  {
    exists k :: 0 < k < |pieces| && TornCut(left, pieces, k)
  }

  /** What the pieces leave against what the whole leaves. */
  ghost predicate AsWhole(p: Progress, whole: Progress, torn: bool)
  {
    && (p.failed <==> whole.failed || torn)
    && (!torn ==> p.t == whole.t && (!p.failed ==> p == whole))
  }

  lemma TornHead(c: Hpack.Tables, t: TableState, left: seq<Byte>, pieces: seq<seq<Byte>>)
    requires |pieces| > 1
    ensures CutsInteger(c, t, left + pieces[0]) ==> TornCut(left, pieces, 1) && ApplyAll(c, t, left + pieces[0]).failed
    ensures var p := ApplyAll(c, t, left + pieces[0]);
            !CutsInteger(c, t, left + pieces[0]) && !p.failed ==>
              !TornCut(left, pieces, 1) && p.left == Unfinished(left + pieces[0])
  {
    var first := left + pieces[0];
    assert Concat(pieces[..1]) == pieces[0] + Concat(pieces[..1][1..]);
    assert pieces[0] + [] == pieces[0];
    var p := ApplyAll(c, t, first);
    Stops(c, t, first);
    LeftIsUnfinished(c, t, first);
    if p.left != [] {
      NextMatchesLength(c, p.t, p.left);
    }
  }

  lemma TornTail(left: seq<Byte>, pieces: seq<seq<Byte>>, k: nat)
    requires 1 < k <= |pieces|
    ensures TornCut(left, pieces, k) <==> TornCut(Unfinished(left + pieces[0]), pieces[1..], k - 1)
  {
    assert pieces[..k][1..] == pieces[1..][..k - 1];
    var rest := Concat(pieces[1..][..k - 1]);
    assert left + (pieces[0] + rest) == (left + pieces[0]) + rest;
    UnfinishedJoins(left + pieces[0], rest);
  }

  lemma TornSplits(left: seq<Byte>, pieces: seq<seq<Byte>>)
    requires |pieces| > 1
    ensures SomeCutInside(left, pieces)
            <==> TornCut(left, pieces, 1) || SomeCutInside(Unfinished(left + pieces[0]), pieces[1..])
  {
    var next := Unfinished(left + pieces[0]);
    if SomeCutInside(left, pieces) {
      var k :| 0 < k < |pieces| && TornCut(left, pieces, k);
      if k > 1 {
        TornTail(left, pieces, k);
        assert TornCut(next, pieces[1..], k - 1);
      }
    }
    if SomeCutInside(next, pieces[1..]) {
      var k :| 0 < k < |pieces[1..]| && TornCut(next, pieces[1..], k);
      TornTail(left, pieces, k + 1);
      assert TornCut(left, pieces, k + 1);
    }
  }

  /**
   * However the stream is cut, the pieces fail if and only if the whole fails or some cut falls inside a leading
   * integer. Without such a cut the table is that of the whole stream in one piece, and so is the leftover unless it
   * fails.
   */
  lemma {:induction false} SplitInvariance(c: Hpack.Tables, t: TableState, left: seq<Byte>, pieces: seq<seq<Byte>>)
    requires pieces != []
    ensures AsWhole(ApplyPieces(c, t, left, pieces), ApplyAll(c, t, left + Concat(pieces)), SomeCutInside(left, pieces))
    decreases |pieces|
  {
    var first, rest := left + pieces[0], Concat(pieces[1..]);
    assert left + (pieces[0] + rest) == first + rest;
    if |pieces| == 1 {
      assert first + [] == first;
    } else {
      var p := ApplyAll(c, t, first);
      TornHead(c, t, left, pieces);
      TornSplits(left, pieces);
      if !CutsInteger(c, t, first) {
        TwoPieces(c, t, first, rest);
        if !p.failed {
          SplitInvariance(c, p.t, p.left, pieces[1..]);
        }
      }
    }
  }

  /** The same two bytes set the capacity in one piece and fail in two. */
  lemma TornCutIsVisible(c: Hpack.Tables)
    ensures ApplyPieces(c, EMPTY_TABLE, [], [[0x3F, 0x01]]) == Progress(EMPTY_TABLE.(capacity := 32), [], false)
    ensures ApplyPieces(c, EMPTY_TABLE, [], [[0x3F], [0x01]]).failed
  {
    var whole: seq<Byte> := [0x3F, 0x01];
    assert [] + whole == whole;
    assert whole[1..] == [0x01];
    CapacityInstruction(c, whole);
    assert whole[2..] == [];
    var torn: seq<Byte> := [0x3F];
    assert [] + torn == torn;
    assert torn[1..] == [];
  }

  lemma CapacityInstruction(c: Hpack.Tables, buf: seq<Byte>)
    requires |buf| == 2 && buf[0] == 0x3F && buf[1] == 0x01
    ensures Next(c, EMPTY_TABLE, buf) == Applied(EMPTY_TABLE.(capacity := 32), 2)
  {
    assert buf[1..] == [0x01];
    assert PI.ParseTail(buf[1..], 31, 0) == PI.Done(32, 1);
  }

  // ----- instructions and the insertion log -----

  function TextOf(r: Text): seq<Byte> { if r.Got? then r.text else [] }

  /** The entry that an index counts back to from the log's newest one. */
  function Counted(log: seq<Field>, idx: nat): Option<Field>
  {
    if idx < |log| then Some(log[|log| - 1 - idx]) else None
  }

  /** What an insertion whose leading integer is `v` and ends at `n` adds, when `log` was inserted before it. */
  ghost function Named(c: Hpack.Tables, log: seq<Field>, buf: seq<Byte>, v: nat, n: nat): seq<Field>
    requires 0 < n <= |buf|
  {
    var name := if buf[0] / 64 % 2 == 1 then (if v < |c.fields| then Some(c.fields[v]) else None) else Counted(log, v);
    if name.Some? then [Field(name.value.name, TextOf(ValueAt(c, buf, n)))] else []
  }

  ghost function Spelled(c: Hpack.Tables, buf: seq<Byte>, v: nat, n: nat): seq<Field>
    requires 0 < n <= |buf|
  {
    var name := TextAt(c, buf[0] / 32 % 2 == 1, buf, n, v);
    if name.Got? then [Field(name.text, TextOf(ValueAt(c, buf, name.used)))] else []
  }

  function Repeated(log: seq<Field>, v: nat): seq<Field>
  {
    var entry := Counted(log, v);
    if entry.Some? then [entry.value] else []
  }

  /**
   * What the first instruction of a buffer means when `log` was inserted before it: the entries it adds, at most one.
   */
  ghost function Meant(c: Hpack.Tables, log: seq<Field>, buf: seq<Byte>): seq<Field>
    requires buf != []
  {
    match PI.ParseInt(buf[0], PrefixBits(buf[0]), buf[1..])
    case Done(v, used) =>
      if buf[0] >= 0x80 then Named(c, log, buf, v, 1 + used)
      else if buf[0] >= 0x40 then Spelled(c, buf, v, 1 + used)
      else if buf[0] >= 0x20 then []
      else Repeated(log, v)
    case _ => []
  }

  /**
   * The log once all instructions before the last `left` bytes were applied after `log`, each read against the log so
   * far.
   */
  ghost function LogAfter(c: Hpack.Tables, log: seq<Field>, buf: seq<Byte>, left: nat): seq<Field>
    decreases |buf|
  {
    if |buf| <= left || Length(buf).None? then log
    else LogAfter(c, log + Meant(c, log, buf), buf[Length(buf).value..], left)
  }

  lemma ReferenceCounts(t: TableState, log: seq<Field>, idx: nat)
    requires Refines(t, log) && RelativeEntry(t, idx).Ok?
    ensures Counted(log, idx) == Some(RelativeEntry(t, idx).value)
  {
    AbsoluteIndexIsStable(t, log, RelativeToAbsolute(t.insertCount, idx).value);
  }

  lemma NamedIsMeant(c: Hpack.Tables, t: TableState, log: seq<Field>, buf: seq<Byte>, v: nat, n: nat)
    requires Refines(t, log) && 0 < n <= |buf| && buf[0] >= 0x80 && Execute(c, t, buf, v, n).Applied?
    ensures Refines(Execute(c, t, buf, v, n).after, log + Named(c, log, buf, v, n))
  {
    var static_ := buf[0] as int / 64 % 2 == 1;
    if !static_ {
      ReferenceCounts(t, log, v);
    }
    var f := Field(NameAt(c, t, static_, v).value.name, ValueAt(c, buf, n).text);
    assert Named(c, log, buf, v, n) == [f];
    InsertRefines(t, log, f);
  }

  lemma SpelledIsMeant(c: Hpack.Tables, t: TableState, log: seq<Field>, buf: seq<Byte>, v: nat, n: nat)
    requires Refines(t, log) && 0 < n <= |buf| && 0x40 <= buf[0] < 0x80 && Execute(c, t, buf, v, n).Applied?
    ensures Refines(Execute(c, t, buf, v, n).after, log + Spelled(c, buf, v, n))
  {
    var name := TextAt(c, buf[0] as int / 32 % 2 == 1, buf, n, v);
    var f := Field(name.text, ValueAt(c, buf, name.used).text);
    assert Spelled(c, buf, v, n) == [f];
    InsertRefines(t, log, f);
  }

  lemma RepeatedIsMeant(t: TableState, log: seq<Field>, v: nat)
    requires Refines(t, log) && RelativeEntry(t, v).Ok? && Insert(t, RelativeEntry(t, v).value).Ok?
    ensures Refines(Insert(t, RelativeEntry(t, v).value).value, log + Repeated(log, v))
  {
    ReferenceCounts(t, log, v);
    InsertRefines(t, log, RelativeEntry(t, v).value);
  }

  /** An instruction that was applied did to the table what it means. */
  lemma ExecuteIsMeant(c: Hpack.Tables, t: TableState, log: seq<Field>, buf: seq<Byte>, v: nat, n: nat)
    requires Refines(t, log) && 0 < n <= |buf| && PI.ParseInt(buf[0], PrefixBits(buf[0]), buf[1..]) == PI.Done(v, n - 1)
    requires Execute(c, t, buf, v, n).Applied?
    ensures Refines(Execute(c, t, buf, v, n).after, log + Meant(c, log, buf))
  {
    if buf[0] >= 0x80 {
      NamedIsMeant(c, t, log, buf, v, n);
    } else if buf[0] >= 0x40 {
      SpelledIsMeant(c, t, log, buf, v, n);
    } else if buf[0] >= 0x20 {
      SetCapacityRefines(t, log, v);
      assert log + [] == log;
    } else {
      RepeatedIsMeant(t, log, v);
    }
  }

  lemma NextIsMeant(c: Hpack.Tables, t: TableState, log: seq<Field>, buf: seq<Byte>)
    requires Refines(t, log) && buf != [] && Next(c, t, buf).Applied?
    ensures Refines(Next(c, t, buf).after, log + Meant(c, log, buf))
  {
    var r := PI.ParseInt(buf[0], PrefixBits(buf[0]), buf[1..]);
    ExecuteIsMeant(c, t, log, buf, r.value, 1 + r.used);
  }

  lemma ApplyGoesOn(c: Hpack.Tables, t: TableState, buf: seq<Byte>, after: TableState, k: nat)
    requires buf != [] && Next(c, t, buf) == Applied(after, k)
    ensures ApplyAll(c, t, buf) == ApplyAll(c, after, buf[k..]) && Length(buf) == Some(k)
  {
    NextMatchesLength(c, t, buf);
  }

  lemma LogGoesOn(c: Hpack.Tables, log: seq<Field>, buf: seq<Byte>, k: nat, left: nat)
    requires Length(buf) == Some(k) && |buf| > left
    ensures LogAfter(c, log, buf, left) == LogAfter(c, log + Meant(c, log, buf), buf[k..], left)
  {
  }

  lemma NothingLogged(c: Hpack.Tables, t: TableState, log: seq<Field>, buf: seq<Byte>)
    requires buf == [] || !Next(c, t, buf).Applied?
    ensures ApplyAll(c, t, buf).t == t && ApplyAll(c, t, buf).left == buf && LogAfter(c, log, buf, |buf|) == log
  {
  }

  /**
   * Whatever bytes a peer sends, well formed or not, the table refines the log of what the applied instructions insert,
   * each read against the insertions before it.
   */
  lemma {:induction false} StreamRefinesItsInsertions(c: Hpack.Tables, t: TableState, log: seq<Field>,
                                                      buf: seq<Byte>) returns (last: seq<Field>)
    requires Refines(t, log)
    ensures |ApplyAll(c, t, buf).left| <= |buf| && last == LogAfter(c, log, buf, |ApplyAll(c, t, buf).left|)
    ensures Refines(ApplyAll(c, t, buf).t, last)
    decreases |buf|
  {
    if buf == [] || !Next(c, t, buf).Applied? {
      NothingLogged(c, t, log, buf);
      last := log;
    } else {
      var after, k := Next(c, t, buf).after, Next(c, t, buf).used;
      NextIsMeant(c, t, log, buf);
      ApplyGoesOn(c, t, buf, after, k);
      last := StreamRefinesItsInsertions(c, after, log + Meant(c, log, buf), buf[k..]);
      LogGoesOn(c, log, buf, k, |ApplyAll(c, after, buf[k..]).left|);
    }
  }

  lemma WithinBounds(t: TableState, log: seq<Field>)
    requires Refines(t, log)
    ensures |t.entries| <= 128 && t.capacity <= 4096
  {
    EntriesBound(t.entries);
  }

  /** On a fresh table; the bounds hold whatever was sent. */
  lemma AnyStreamRefinesItsLog(c: Hpack.Tables, buf: seq<Byte>) returns (log: seq<Field>)
    ensures log == LogAfter(c, [], buf, |ApplyAll(c, EMPTY_TABLE, buf).left|)
            && Refines(ApplyAll(c, EMPTY_TABLE, buf).t, log)
    ensures |ApplyAll(c, EMPTY_TABLE, buf).t.entries| <= 128
            && ApplyAll(c, EMPTY_TABLE, buf).t.capacity <= 4096
  {
    EmptyRefines();
    log := StreamRefinesItsInsertions(c, EMPTY_TABLE, [], buf);
    WithinBounds(ApplyAll(c, EMPTY_TABLE, buf).t, log);
  }
}

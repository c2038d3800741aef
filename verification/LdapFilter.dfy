/** LDAP search filters and their BER form (section 4.5.1 of RFC 4511). */
module LdapFilter {
  import opened Common
  import opened Ber

  type Text = seq<Byte>

  datatype Filter =
    | And(items: seq<Filter>)
    | Or(items: seq<Filter>)
    | Not(inner: Filter)
    | Equality(attr: Text, value: Text)
    | Substrings(attr: Text, initial: Option<Text>, any: seq<Text>, final_: Option<Text>)
    | Present(attr: Text)
    | Extensible(rule: Option<Text>, attrType: Option<Text>, matchValue: Text, dnAttributes: bool)

  const SEQUENCE: Byte := 0x30
  const OCTET_STRING: Byte := 0x04

  /** A CONTEXT-class tag. */
  function Ctx(n: nat, constructed: bool): Byte
    requires n < 32
  {
    0x80 + (if constructed then 0x20 else 0) + n
  }

  // ----- the encoding: every constructed body is built first, then wrapped -----

  function OptionalTlv(tag: Byte, t: Option<Text>): seq<Byte>
  {
    match t case None => [] case Some(v) => Tlv(tag, v)
  }

  function AnyTlvs(any: seq<Text>): seq<Byte>
  {
    if any == [] then [] else Tlv(Ctx(1, false), any[0]) + AnyTlvs(any[1..])
  }

  function Segments(initial: Option<Text>, any: seq<Text>, final_: Option<Text>): seq<Byte>
  {
    OptionalTlv(Ctx(0, false), initial) + (AnyTlvs(any) + OptionalTlv(Ctx(2, false), final_))
  }

  function DnTlv(dn: bool): seq<Byte> { if dn then Tlv(Ctx(4, false), [0xFF]) else [] }

  function Assertion(rule: Option<Text>, attrType: Option<Text>, value: Text, dn: bool): seq<Byte>
  {
    OptionalTlv(Ctx(1, false), rule) + (OptionalTlv(Ctx(2, false), attrType) + (Tlv(Ctx(3, false), value) + DnTlv(dn)))
  }

  /** The tag of a filter and the bytes it wraps. */
  function Tag(f: Filter): Byte
  {
    match f
    case And(_) => Ctx(0, true)
    case Or(_) => Ctx(1, true)
    case Not(_) => Ctx(2, true)
    case Equality(_, _) => Ctx(3, true)
    case Substrings(_, _, _, _) => Ctx(4, true)
    case Present(_) => Ctx(7, false)
    case Extensible(_, _, _, _) => Ctx(9, true)
  }

  function Body(f: Filter): seq<Byte>
    decreases f, 0
  {
    match f
    case And(items) => EncodeAll(items)
    case Or(items) => EncodeAll(items)
    case Not(inner) => Encode(inner)
    case Equality(attr, value) => Tlv(OCTET_STRING, attr) + Tlv(OCTET_STRING, value)
    case Substrings(attr, initial, any, final_) => Tlv(OCTET_STRING, attr)
      + Tlv(SEQUENCE, Segments(initial, any, final_))
    case Present(attr) => attr
    case Extensible(rule, attrType, value, dn) => Assertion(rule, attrType, value, dn)
  }

  function Encode(f: Filter): (out: seq<Byte>)
    ensures |out| > |Body(f)|
    decreases f, 1
  {
    Tlv(Tag(f), Body(f))
  }

  function EncodeAll(items: seq<Filter>): (out: seq<Byte>)
    decreases items, 0
  {
    if items == [] then [] else Encode(items[0]) + EncodeAll(items[1..])
  }

  // ----- reading it back with the TLV reader -----

  /** An element with an expected tag at the front, and what follows it. */
  function Expect(tag: Byte, data: seq<Byte>): (r: Result<(Text, seq<Byte>)>)
    ensures r.Ok? ==> |r.value.0| < |data| && |r.value.1| < |data|
  {
    match ReadTlv(data)
    case Err => Err
    case Ok(e) => if e.tag == tag then Ok((e.value, data[e.used..])) else Err
  }

  /** An optional element: absent when the data is over or another tag comes next. */
  function Optionally(tag: Byte, data: seq<Byte>): (r: (Option<Text>, seq<Byte>))
    ensures |r.1| <= |data|
  {
    match Expect(tag, data) case Err => (None, data) case Ok((v, rest)) => (Some(v), rest)
  }

  /** The elements with this tag at the front. */
  function Repeatedly(tag: Byte, data: seq<Byte>): (r: (seq<Text>, seq<Byte>))
    decreases |data|
  {
    match Expect(tag, data)
    case Err => ([], data)
    case Ok((v, rest)) =>
      var (vs, last) := Repeatedly(tag, rest);
      ([v] + vs, last)
  }

  function ReadEquality(body: seq<Byte>): Result<Filter>
  {
    match Expect(OCTET_STRING, body)
    case Err => Err
    case Ok((attr, rest)) =>
      match Expect(OCTET_STRING, rest)
      case Err => Err
      case Ok((value, left)) => if left == [] then Ok(Equality(attr, value)) else Err
  }

  function ReadSegments(attr: Text, data: seq<Byte>): Result<Filter>
  {
    var (initial, rest0) := Optionally(Ctx(0, false), data);
    var (any, rest1) := Repeatedly(Ctx(1, false), rest0);
    var (final_, rest2) := Optionally(Ctx(2, false), rest1);
    if rest2 == [] then Ok(Substrings(attr, initial, any, final_)) else Err
  }

  function ReadSubstrings(body: seq<Byte>): Result<Filter>
  {
    match Expect(OCTET_STRING, body)
    case Err => Err
    case Ok((attr, rest)) =>
      match Expect(SEQUENCE, rest)
      case Err => Err
      case Ok((segments, left)) => if left == [] then ReadSegments(attr, segments) else Err
  }

  function ReadExtensible(body: seq<Byte>): Result<Filter>
  {
    var (rule, rest0) := Optionally(Ctx(1, false), body);
    var (attrType, rest1) := Optionally(Ctx(2, false), rest0);
    match Expect(Ctx(3, false), rest1)
    case Err => Err
    case Ok((value, rest2)) =>
      var (dn, rest3) := Optionally(Ctx(4, false), rest2);
      if rest3 == [] then Ok(Extensible(rule, attrType, value, dn == Some([0xFF]))) else Err
  }

  /** A filter at the front of the data, and what follows it. */
  function Read(data: seq<Byte>): (r: Result<(Filter, seq<Byte>)>)
    ensures r.Ok? ==> |r.value.1| < |data|
    decreases |data|, 0
  {
    match ReadTlv(data)
    case Err => Err
    case Ok(e) =>
      match ReadBody(e.tag, e.value)
      case Err => Err
      case Ok(f) => Ok((f, data[e.used..]))
  }

  function ReadBody(tag: Byte, body: seq<Byte>): Result<Filter>
    decreases |body|, 2
  {
    if tag == Ctx(0, true) then (match ReadAll(body) case Err => Err case Ok(items) => Ok(And(items)))
    else if tag == Ctx(1, true) then (match ReadAll(body) case Err => Err case Ok(items) => Ok(Or(items)))
    else if tag == Ctx(2, true) then
      (match Read(body) case Err => Err case Ok((inner, rest)) => if rest == [] then Ok(Not(inner)) else Err)
    else if tag == Ctx(3, true) then ReadEquality(body)
    else if tag == Ctx(4, true) then ReadSubstrings(body)
    else if tag == Ctx(7, false) then Ok(Present(body))
    else if tag == Ctx(9, true) then ReadExtensible(body)
    else Err
  }

  function ReadAll(data: seq<Byte>): Result<seq<Filter>>
    decreases |data|, 1
  {
    if data == [] then Ok([])
    else
      match Read(data)
      case Err => Err
      case Ok((f, rest)) => match ReadAll(rest) case Err => Err case Ok(fs) => Ok([f] + fs)
  }

  // ----- the encoding reads back -----

  lemma ExpectReads(tag: Byte, v: Text, more: seq<Byte>)
    requires |v| < U64
    ensures Expect(tag, Tlv(tag, v) + more) == Ok((v, more))
  {
    TlvReads(tag, v, more);
    assert (Tlv(tag, v) + more)[|Tlv(tag, v)|..] == more;
  }

  /** Another tag comes next, or nothing does. */
  predicate Differs(tag: Byte, data: seq<Byte>) { data == [] || data[0] != tag }

  lemma NotExpected(tag: Byte, data: seq<Byte>)
    requires Differs(tag, data)
    ensures Expect(tag, data).Err?
  {
  }

  lemma OptionReads(tag: Byte, t: Option<Text>, more: seq<Byte>)
    requires (t.Some? ==> |t.value| < U64) && Differs(tag, more)
    ensures Optionally(tag, OptionalTlv(tag, t) + more) == (t, more)
  {
    match t
    case None =>
      assert OptionalTlv(tag, t) + more == more;
      NotExpected(tag, more);
    case Some(v) => ExpectReads(tag, v, more);
  }

  lemma {:induction false} AnyReads(any: seq<Text>, more: seq<Byte>)
    requires (forall v :: v in any ==> |v| < U64) && Differs(Ctx(1, false), more)
    ensures Repeatedly(Ctx(1, false), AnyTlvs(any) + more) == (any, more)
    decreases |any|
  {
    if any == [] {
      assert AnyTlvs(any) + more == more;
      NotExpected(Ctx(1, false), more);
    } else {
      assert any[0] in any;
      Regroup(Tlv(Ctx(1, false), any[0]), AnyTlvs(any[1..]), more);
      ExpectReads(Ctx(1, false), any[0], AnyTlvs(any[1..]) + more);
      AnyReads(any[1..], more);
      assert [any[0]] + any[1..] == any;
    }
  }

  lemma EqualityReads(attr: Text, value: Text)
    requires |attr| < U64 && |value| < U64
    ensures ReadEquality(Tlv(OCTET_STRING, attr) + Tlv(OCTET_STRING, value)) == Ok(Equality(attr, value))
  {
    ExpectReads(OCTET_STRING, attr, Tlv(OCTET_STRING, value));
    ExpectReads(OCTET_STRING, value, []);
    assert Tlv(OCTET_STRING, value) + [] == Tlv(OCTET_STRING, value);
  }

  lemma SegmentsRead(attr: Text, initial: Option<Text>, any: seq<Text>, final_: Option<Text>)
    requires (initial.Some? ==> |initial.value| < U64) && (forall v :: v in any ==> |v| < U64)
             && (final_.Some? ==> |final_.value| < U64)
    ensures ReadSegments(attr, Segments(initial, any, final_)) == Ok(Substrings(attr, initial, any, final_))
  {
    var last := OptionalTlv(Ctx(2, false), final_);
    assert last + [] == last;
    OptionReads(Ctx(2, false), final_, []);
    AnyReads(any, last);
    OptionReads(Ctx(0, false), initial, AnyTlvs(any) + last);
  }

  lemma SubstringsRead(attr: Text, initial: Option<Text>, any: seq<Text>, final_: Option<Text>)
    requires |attr| < U64 && |Segments(initial, any, final_)| < U64
    requires (initial.Some? ==> |initial.value| < U64) && (forall v :: v in any ==> |v| < U64)
             && (final_.Some? ==> |final_.value| < U64)
    ensures ReadSubstrings(Tlv(OCTET_STRING, attr) + Tlv(SEQUENCE, Segments(initial, any, final_)))
            == Ok(Substrings(attr, initial, any, final_))
  {
    var inner := Tlv(SEQUENCE, Segments(initial, any, final_));
    ExpectReads(OCTET_STRING, attr, inner);
    ExpectReads(SEQUENCE, Segments(initial, any, final_), []);
    assert inner + [] == inner;
    SegmentsRead(attr, initial, any, final_);
  }

  lemma ExtensibleReads(rule: Option<Text>, attrType: Option<Text>, value: Text, dn: bool)
    requires (rule.Some? ==> |rule.value| < U64) && (attrType.Some? ==> |attrType.value| < U64) && |value| < U64
    ensures ReadExtensible(Assertion(rule, attrType, value, dn)) == Ok(Extensible(rule, attrType, value, dn))
  {
    var flag: Option<Text> := if dn then Some([0xFF]) else None;
    assert DnTlv(dn) == OptionalTlv(Ctx(4, false), flag);
    OptionReads(Ctx(4, false), flag, []);
    assert DnTlv(dn) + [] == DnTlv(dn);
    ExpectReads(Ctx(3, false), value, DnTlv(dn));
    var fromValue := Tlv(Ctx(3, false), value) + DnTlv(dn);
    OptionReads(Ctx(2, false), attrType, fromValue);
    OptionReads(Ctx(1, false), rule, OptionalTlv(Ctx(2, false), attrType) + fromValue);
  }

  // ----- sizes: a part is never longer than the whole -----

  lemma {:induction false} AnySizes(any: seq<Text>)
    ensures forall v :: v in any ==> |v| < |AnyTlvs(any)|
  {
    if any != [] {
      AnySizes(any[1..]);
    }
  }

  lemma PartSizes(f: Filter)
    requires f.Substrings? || f.Extensible?
    ensures f.Substrings? ==>
      && |f.attr| < |Body(f)| && |Segments(f.initial, f.any, f.final_)| < |Body(f)|
      && (forall v :: v in f.any ==> |v| < |Body(f)|)
      && (f.initial.Some? ==> |f.initial.value| < |Body(f)|) && (f.final_.Some? ==> |f.final_.value| < |Body(f)|)
    ensures f.Extensible? ==>
      && (f.rule.Some? ==> |f.rule.value| < |Body(f)|) && (f.attrType.Some? ==> |f.attrType.value| < |Body(f)|)
      && |f.matchValue| < |Body(f)|
  {
    if f.Substrings? {
      AnySizes(f.any);
      assert |Segments(f.initial, f.any, f.final_)| >= |AnyTlvs(f.any)|;
    }
  }

  /** Every filter whose encoding fits a machine's memory reads back, and reading takes exactly its encoding. */
  lemma {:induction false} EncodingReads(f: Filter, more: seq<Byte>)
    requires |Encode(f)| < U64
    ensures Read(Encode(f) + more) == Ok((f, more))
    decreases f, 1
  {
    TlvReads(Tag(f), Body(f), more);
    assert (Encode(f) + more)[|Encode(f)|..] == more;
    BodyReads(f);
  }

  // the tag selects the reader

  lemma GroupBody(body: seq<Byte>, items: seq<Filter>)
    requires ReadAll(body) == Ok(items)
    ensures ReadBody(Ctx(0, true), body) == Ok(And(items)) && ReadBody(Ctx(1, true), body) == Ok(Or(items))
  {
  }

  lemma NotBody(body: seq<Byte>, inner: Filter)
    requires Read(body) == Ok((inner, []))
    ensures ReadBody(Ctx(2, true), body) == Ok(Not(inner))
  {
  }

  lemma LeafBody(body: seq<Byte>)
    ensures ReadBody(Ctx(3, true), body) == ReadEquality(body) && ReadBody(Ctx(4, true), body) == ReadSubstrings(body)
    ensures ReadBody(Ctx(7, false), body) == Ok(Present(body)) && ReadBody(Ctx(9, true), body) == ReadExtensible(body)
  {
  }

  lemma LeafReads(f: Filter)
    requires |Body(f)| < U64 && !f.And? && !f.Or? && !f.Not?
    ensures ReadBody(Tag(f), Body(f)) == Ok(f)
  {
    LeafBody(Body(f));
    match f
    case Equality(attr, value) => EqualityReads(attr, value);
    case Substrings(attr, initial, any, final_) =>
      PartSizes(f);
      SubstringsRead(attr, initial, any, final_);
    case Present(attr) =>
    case Extensible(rule, attrType, value, dn) =>
      PartSizes(f);
      ExtensibleReads(rule, attrType, value, dn);
  }

  lemma {:induction false} BodyReads(f: Filter)
    requires |Body(f)| < U64
    ensures ReadBody(Tag(f), Body(f)) == Ok(f)
    decreases f, 0
  {
    match f
    case And(items) =>
      AllRead(items);
      GroupBody(Body(f), items);
    case Or(items) =>
      AllRead(items);
      GroupBody(Body(f), items);
    case Not(inner) =>
      EncodingReads(inner, []);
      assert Encode(inner) + [] == Encode(inner);
      NotBody(Body(f), inner);
    case _ => LeafReads(f);
  }

  lemma {:induction false} AllRead(items: seq<Filter>)
    requires |EncodeAll(items)| < U64
    ensures ReadAll(EncodeAll(items)) == Ok(items)
    decreases items, 0
  {
    if items != [] {
      EncodingReads(items[0], EncodeAll(items[1..]));
      AllRead(items[1..]);
      assert [items[0]] + items[1..] == items;
    }
  }

  // ----- the writer: lengths patched in place -----

  /** Writes a filter by patching each constructed element's length once its body is written. */
  method EncodeFilter(w: Writer, f: Filter)
    requires |Encode(f)| < U64
    modifies w
    ensures w.out == old(w.out) + Encode(f)
    decreases f, 1
  {
    match f {
      case Present(attr) => w.WriteTlv(Ctx(7, false), attr);
      case _ =>
        var start := w.Begin(Tag(f));
        WriteBody(w, f);
        BodyInPlace(old(w.out), Tag(f), Body(f));
        w.End(start);
    }
  }

  lemma BodyInPlace(out: seq<Byte>, tag: Byte, body: seq<Byte>)
    ensures var all := out + [tag, 0] + body;
            all[..|out|] == out && all[|out|] == tag && all[|out| + 2..] == body
  {
  }

  method WriteBody(w: Writer, f: Filter)
    requires |Body(f)| < U64 && !f.Present?
    modifies w
    ensures w.out == old(w.out) + Body(f)
    decreases f, 0
  {
    ghost var was := w.out;
    match f {
      case And(items) => EncodeFilters(w, items);
      case Or(items) => EncodeFilters(w, items);
      case Not(inner) => EncodeFilter(w, inner);
      case Equality(attr, value) =>
        w.WriteTlv(OCTET_STRING, attr);
        w.WriteTlv(OCTET_STRING, value);
        Regroup(was, Tlv(OCTET_STRING, attr), Tlv(OCTET_STRING, value));
      case Substrings(attr, initial, any, final_) =>
        PartSizes(f);
        w.WriteTlv(OCTET_STRING, attr);
        var start := w.Begin(SEQUENCE);
        WriteSegments(w, initial, any, final_);
        BodyInPlace(was + Tlv(OCTET_STRING, attr), SEQUENCE, Segments(initial, any, final_));
        w.End(start);
        Regroup(was, Tlv(OCTET_STRING, attr), Tlv(SEQUENCE, Segments(initial, any, final_)));
      case Extensible(rule, attrType, value, dn) =>
        PartSizes(f);
        WriteAssertion(w, rule, attrType, value, dn);
    }
  }

  method EncodeFilters(w: Writer, items: seq<Filter>)
    requires |EncodeAll(items)| < U64
    modifies w
    ensures w.out == old(w.out) + EncodeAll(items)
    decreases items, 0
  {
    if items != [] {
      ghost var was := w.out;
      EncodeFilter(w, items[0]);
      EncodeFilters(w, items[1..]);
      Regroup(was, Encode(items[0]), EncodeAll(items[1..]));
    }
  }

  method WriteOptional(w: Writer, tag: Byte, t: Option<Text>)
    requires t.Some? ==> |t.value| < U64
    modifies w
    ensures w.out == old(w.out) + OptionalTlv(tag, t)
  {
    if t.Some? {
      w.WriteTlv(tag, t.value);
    }
  }

  method WriteSegments(w: Writer, initial: Option<Text>, any: seq<Text>, final_: Option<Text>)
    requires (initial.Some? ==> |initial.value| < U64) && (forall v :: v in any ==> |v| < U64)
             && (final_.Some? ==> |final_.value| < U64)
    modifies w
    ensures w.out == old(w.out) + Segments(initial, any, final_)
  {
    ghost var was := w.out;
    WriteOptional(w, Ctx(0, false), initial);
    WriteAny(w, any);
    WriteOptional(w, Ctx(2, false), final_);
    ghost var a, b, c := OptionalTlv(Ctx(0, false), initial), AnyTlvs(any), OptionalTlv(Ctx(2, false), final_);
    Regroup(was + a, b, c);
    Regroup(was, a, b + c);
  }

  method WriteAny(w: Writer, any: seq<Text>)
    requires forall v :: v in any ==> |v| < U64
    modifies w
    ensures w.out == old(w.out) + AnyTlvs(any)
  {
    ghost var goal, rest := w.out + AnyTlvs(any), any;
    for i := 0 to |any|
      invariant rest == any[i..] && goal == w.out + AnyTlvs(rest)
    {
      Regroup(w.out, Tlv(Ctx(1, false), rest[0]), AnyTlvs(rest[1..]));
      w.WriteTlv(Ctx(1, false), any[i]);
      rest := rest[1..];
    }
  }

  method WriteAssertion(w: Writer, rule: Option<Text>, attrType: Option<Text>, value: Text, dn: bool)
    requires (rule.Some? ==> |rule.value| < U64) && (attrType.Some? ==> |attrType.value| < U64) && |value| < U64
    modifies w
    ensures w.out == old(w.out) + Assertion(rule, attrType, value, dn)
  {
    ghost var was := w.out;
    WriteOptional(w, Ctx(1, false), rule);
    WriteOptional(w, Ctx(2, false), attrType);
    w.WriteTlv(Ctx(3, false), value);
    if dn {
      w.WriteTlv(Ctx(4, false), [0xFF]);
    }
    ghost var a, b, c := OptionalTlv(Ctx(1, false), rule), OptionalTlv(Ctx(2, false), attrType),
      Tlv(Ctx(3, false), value);
    Regroup(was + a + b, c, DnTlv(dn));
    Regroup(was + a, b, c + DnTlv(dn));
    Regroup(was, a, b + (c + DnTlv(dn)));
  }
}

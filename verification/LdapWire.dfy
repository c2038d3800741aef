/**
 * LDAP filters on the wire, tag by tag as section 4.5.1 of RFC 4511 numbers them, in elements as section 8.1 of X.690
 * has them. The encoding is these bytes.
 */
module LdapWire {
  import opened Common
  import opened LdapFilter
  import opened Ber

  // ----- one element -----

  /**
   * A length up to 127 is one byte; a longer one is a byte that counts the length's bytes, with its high bit set, and
   * then those, most significant first and without leading zeros.
   */
  lemma ElementForm(tag: Byte, value: seq<Byte>) returns (d: seq<Byte>)
    requires |value| < U64
    ensures |value| <= 127 ==> Tlv(tag, value) == [tag, |value|] + value
    ensures |value| > 127 ==>
              && 1 <= |d| <= 8 && d[0] != 0 && BigEndian(d) == |value|
              && Tlv(tag, value) == [tag, 0x80 + |d|] + d + value
  {
    d := Digits(|value|);
    if |value| > 127 {
      MachineDigits(|value|);
      DigitsValue(|value|);
      assert [tag] + LongForm(d) == [tag, 0x80 + |d|] + d;
    }
  }

  /** Refused: an indefinite length, more than eight length bytes, and less than was announced. */
  lemma ElementRefused(tag: Byte, b: Byte, more: seq<Byte>)
    requires b == 0x80 || b > 0x88 || (b < 0x80 && |more| < b) || (b > 0x80 && |more| < b - 0x80)
    ensures ReadTlv([tag, b] + more) == Err
  {
    assert ([tag, b] + more)[1..] == [b] + more;
  }

  lemma CutIsRefused(tag: Byte, value: seq<Byte>, k: nat)
    requires k < |value| < U64
    ensures ReadTlv([tag] + LengthBytes(|value|) + value[..k]) == Err
  {
    var rest := LengthBytes(|value|) + value[..k];
    LengthReads(|value|, value[..k]);
    assert ([tag] + LengthBytes(|value|) + value[..k])[1..] == rest;
  }

  /** An integer has between one and eight bytes. */
  lemma IntegerRefused(b: seq<Byte>)
    ensures DecodeInteger(b).Err? <==> b == [] || |b| > 8
  {
  }

  // ----- filters -----

  /** An optional text, with its tag. */
  function Maybe(tag: Byte, t: Option<Text>): seq<Byte> { if t.Some? then Tlv(tag, t.value) else [] }

  function Inner(any: seq<Text>): seq<Byte>
  {
    if any == [] then [] else Inner(any[..|any| - 1]) + Tlv(0x81, any[|any| - 1])
  }

  function Wire(f: Filter): seq<Byte>
  {
    match f
    case And(items) => Tlv(0xA0, Wires(items))
    case Or(items) => Tlv(0xA1, Wires(items))
    case Not(inner) => Tlv(0xA2, Wire(inner))
    case Equality(attr, value) => Tlv(0xA3, Tlv(0x04, attr) + Tlv(0x04, value))
    case Substrings(attr, initial, any, final_) =>
      Tlv(0xA4, Tlv(0x04, attr) + Tlv(0x30, Maybe(0x80, initial) + Inner(any) + Maybe(0x82, final_)))
    case Present(attr) => Tlv(0x87, attr)
    case Extensible(rule, attrType, value, dn) =>
      Tlv(0xA9, Maybe(0x81, rule) + Maybe(0x82, attrType) + Tlv(0x83, value) + if dn then [0x84, 1, 0xFF] else [])
  }

  function Wires(items: seq<Filter>): seq<Byte>
  {
    if items == [] then [] else Wires(items[..|items| - 1]) + Wire(items[|items| - 1])
  }

  lemma {:induction false} InnerIsAny(any: seq<Text>)
    ensures Inner(any) == AnyTlvs(any)
    decreases |any|
  {
    if any != [] {
      var front, last := any[..|any| - 1], any[|any| - 1];
      InnerIsAny(front);
      AnyGrows(front, last);
      assert front + [last] == any;
    }
  }

  lemma {:induction false} AnyGrows(any: seq<Text>, last: Text)
    ensures AnyTlvs(any + [last]) == AnyTlvs(any) + Tlv(0x81, last)
    decreases |any|
  {
    if any != [] {
      AnyGrows(any[1..], last);
      assert (any + [last])[1..] == any[1..] + [last];
    }
  }

  lemma {:induction false} AllGrows(items: seq<Filter>, last: Filter)
    ensures EncodeAll(items + [last]) == EncodeAll(items) + Encode(last)
    decreases |items|
  {
    if items != [] {
      AllGrows(items[1..], last);
      assert (items + [last])[1..] == items[1..] + [last];
    }
  }

  lemma SegmentsAreWire(initial: Option<Text>, any: seq<Text>, final_: Option<Text>)
    ensures Segments(initial, any, final_) == Maybe(0x80, initial) + Inner(any) + Maybe(0x82, final_)
  {
    InnerIsAny(any);
    Regroup(OptionalTlv(Ctx(0, false), initial), AnyTlvs(any), OptionalTlv(Ctx(2, false), final_));
  }

  lemma AssertionIsWire(rule: Option<Text>, attrType: Option<Text>, value: Text, dn: bool)
    ensures Assertion(rule, attrType, value, dn)
            == Maybe(0x81, rule) + Maybe(0x82, attrType) + Tlv(0x83, value) + if dn then [0x84, 1, 0xFF] else []
  {
    assert Tlv(0x84, [0xFF]) == [0x84, 1, 0xFF];
    FourParts(Maybe(0x81, rule), Maybe(0x82, attrType), Tlv(0x83, value), DnTlv(dn));
  }

  lemma FourParts(x: seq<Byte>, y: seq<Byte>, z: seq<Byte>, w: seq<Byte>)
    ensures x + (y + (z + w)) == x + y + z + w
  {
  }

  /** A filter is encoded as these bytes, at every depth. */
  lemma {:induction false} EncodingIsWire(f: Filter)
    ensures Encode(f) == Wire(f)
    decreases f, 0
  {
    match f
    case And(items) => EncodingsAreWires(items);
    case Or(items) => EncodingsAreWires(items);
    case Not(inner) => EncodingIsWire(inner);
    case Equality(_, _) =>
    case Substrings(_, initial, any, final_) => SegmentsAreWire(initial, any, final_);
    case Present(_) =>
    case Extensible(rule, attrType, value, dn) => AssertionIsWire(rule, attrType, value, dn);
  }

  lemma {:induction false} EncodingsAreWires(items: seq<Filter>)
    ensures EncodeAll(items) == Wires(items)
    decreases items, 1
  {
    if items != [] {
      var front, last := items[..|items| - 1], items[|items| - 1];
      EncodingsAreWires(front);
      EncodingIsWire(last);
      AllGrows(front, last);
      assert front + [last] == items;
    }
  }
}

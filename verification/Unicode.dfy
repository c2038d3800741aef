/** UTF-8 as RFC 3629 defines it: text is accepted exactly if it is the encoding of some scalar values. */
module Unicode {
  import opened Common
  import opened Http1Body

  /** A code point that is no surrogate. */
  predicate IsScalar(c: nat) { c < 0xD800 || 0xE000 <= c < 0x11_0000 }

  /** The table of section 3: six bits to a continuation byte. */
  function Encode(c: nat): (b: seq<Byte>)
    requires IsScalar(c)
    ensures 1 <= |b| <= 4
  {
    if c < 0x80 then [c]
    else if c < 0x800 then [0xC0 + c / 0x40, 0x80 + c % 0x40]
    else if c < 0x1_0000 then [0xE0 + c / 0x1000, 0x80 + c / 0x40 % 0x40, 0x80 + c % 0x40]
    else [0xF0 + c / 0x4_0000, 0x80 + c / 0x1000 % 0x40, 0x80 + c / 0x40 % 0x40, 0x80 + c % 0x40]
  }

  predicate Scalars(cs: seq<nat>) { forall i :: 0 <= i < |cs| ==> IsScalar(cs[i]) }

  function EncodeAll(cs: seq<nat>): seq<Byte>
    requires Scalars(cs)
  {
    if cs == [] then [] else Encode(cs[0]) + EncodeAll(cs[1..])
  }

  function Six(b: Byte): nat { b as int % 0x40 }

  /** The code point the first `n` bytes stand for. */
  function Point(s: seq<Byte>, n: nat): nat
    requires 1 <= n <= 4 && n <= |s|
  {
    match n
    case 1 => s[0]
    case 2 => Six(s[0]) * 0x40 + Six(s[1])
    case 3 => s[0] as int % 0x10 * 0x1000 + Six(s[1]) * 0x40 + Six(s[2])
    case _ => s[0] as int % 8 * 0x4_0000 + Six(s[1]) * 0x1000 + Six(s[2]) * 0x40 + Six(s[3])
  }

  lemma ScalarIsRead(c: nat, more: seq<Byte>)
    requires IsScalar(c)
    ensures ScalarLength(Encode(c) + more) == |Encode(c)|
  {
  }

  lemma TwoBytes(a: nat, b: nat)
    requires a < 0x20 && b < 0x40
    ensures var c := a * 0x40 + b;
            c / 0x40 == a && c % 0x40 == b
  {
  }

  lemma ThreeBytes(a: nat, b: nat, d: nat)
    requires a < 0x10 && b < 0x40 && d < 0x40
    ensures var c := a * 0x1000 + b * 0x40 + d;
            c / 0x1000 == a && c / 0x40 % 0x40 == b && c % 0x40 == d
  {
    ModuloUnique(a * 0x1000 + b * 0x40 + d, 0x40, a * 0x40 + b, d);
  }

  lemma FourBytes(a: nat, b: nat, d: nat, e: nat)
    requires a < 8 && b < 0x40 && d < 0x40 && e < 0x40
    ensures var c := a * 0x4_0000 + b * 0x1000 + d * 0x40 + e;
            c / 0x4_0000 == a && c / 0x1000 % 0x40 == b && c / 0x40 % 0x40 == d && c % 0x40 == e
  {
    ModuloUnique(a * 0x4_0000 + b * 0x1000 + d * 0x40 + e, 0x40, a * 0x1000 + b * 0x40 + d, e);
    ModuloUnique(a * 0x4_0000 + b * 0x1000 + d * 0x40 + e, 0x1000, a * 0x40 + b, d * 0x40 + e);
  }

  /** The first `n` bytes are the encoding of their code point. */
  ghost predicate Stands(s: seq<Byte>, n: nat)
    requires 1 <= n <= 4 && n <= |s|
  {
    IsScalar(Point(s, n)) && Encode(Point(s, n)) == s[..n]
  }

  lemma OneStands(s: seq<Byte>)
    requires ScalarLength(s) == 1
    ensures Stands(s, 1)
  {
  }

  lemma TwoStand(s: seq<Byte>)
    requires ScalarLength(s) == 2
    ensures Stands(s, 2)
  {
    TwoBytes(Six(s[0]), Six(s[1]));
  }

  lemma ThreeStand(s: seq<Byte>)
    requires ScalarLength(s) == 3
    ensures Stands(s, 3)
  {
    ThreeBytes(s[0] as int % 0x10, Six(s[1]), Six(s[2]));
  }

  lemma FourStand(s: seq<Byte>)
    requires ScalarLength(s) == 4
    ensures Stands(s, 4)
  {
    FourBytes(s[0] as int % 8, Six(s[1]), Six(s[2]), Six(s[3]));
  }

  lemma HeadStands(s: seq<Byte>)
    requires ScalarLength(s) > 0
    ensures Stands(s, ScalarLength(s))
  {
    match ScalarLength(s)
    case 1 => OneStands(s);
    case 2 => TwoStand(s);
    case 3 => ThreeStand(s);
    case _ => FourStand(s);
  }

  lemma {:induction false} EncodingIsUtf8(cs: seq<nat>)
    requires Scalars(cs)
    ensures Utf8(EncodeAll(cs))
    decreases |cs|
  {
    if cs != [] {
      var b, more := Encode(cs[0]), EncodeAll(cs[1..]);
      ScalarIsRead(cs[0], more);
      EncodingIsUtf8(cs[1..]);
      assert (b + more)[|b|..] == more;
    }
  }

  lemma {:induction false} Utf8IsEncoding(s: seq<Byte>) returns (cs: seq<nat>)
    requires Utf8(s)
    ensures Scalars(cs) && EncodeAll(cs) == s
    decreases |s|
  {
    cs := [];
    if s != [] {
      var n := ScalarLength(s);
      var more := Utf8IsEncoding(s[n..]);
      HeadStands(s);
      cs := [Point(s, n)] + more;
      assert cs[1..] == more;
    }
  }

  /**
   * Every encoding of scalar values is accepted, and nothing else: no overlong form, no surrogate, nothing cut short.
   */
  lemma Utf8Exactly(s: seq<Byte>)
    ensures Utf8(s) <==> exists cs: seq<nat> :: Scalars(cs) && EncodeAll(cs) == s
  {
    if Utf8(s) {
      var cs := Utf8IsEncoding(s);
      assert Scalars(cs) && EncodeAll(cs) == s;
    }
    forall cs: seq<nat> | Scalars(cs) && EncodeAll(cs) == s
      ensures Utf8(s)
    {
      EncodingIsUtf8(cs);
    }
  }

  // ----- white space -----

  /** The code points with the property White_Space. */
  predicate WhiteSpace(c: nat)
  {
    || 9 <= c <= 13 || c == 32 || c == 0x85 || c == 0xA0 || c == 0x1680 || 0x2000 <= c <= 0x200A
    || c == 0x2028 || c == 0x2029 || c == 0x202F || c == 0x205F || c == 0x3000
  }

  /**
   * At the start of a text the trimming of header values takes off white space, whole characters of it, and nothing
   * else.
   */
  lemma WhiteHeadExactly(c: nat, more: seq<Byte>)
    requires IsScalar(c)
    ensures WhiteHead(Encode(c) + more) == if WhiteSpace(c) then |Encode(c)| else 0
  {
    WhiteBytes(c);
  }

  lemma WhiteTailExactly(before: seq<Byte>, c: nat)
    requires IsScalar(c)
    ensures WhiteTail(before + Encode(c)) == if WhiteSpace(c) then |Encode(c)| else 0
  {
    WhiteBytes(c);
    if c >= 0x80 {
      LastBytes(before, Encode(c));
    }
  }

  /** The last bytes of a text are those of its last character, and what comes before it starts nothing longer. */
  lemma LastBytes(before: seq<Byte>, e: seq<Byte>)
    requires 2 <= |e| <= 4
    ensures var t := before + e;
            t[|t| - 1] == e[|e| - 1] && t[|t| - 2] == e[|e| - 2] && (|e| >= 3 ==> t[|t| - 3] == e[|e| - 3])
  {
  }

  lemma WhiteBytes(c: nat)
    requires IsScalar(c)
    ensures var e := Encode(c);
            match |e|
            case 1 => White1(e[0]) <==> WhiteSpace(c)
            case 2 => White2(e[0], e[1]) <==> WhiteSpace(c)
            case 3 => White3(e[0], e[1], e[2]) <==> WhiteSpace(c)
            case _ => !WhiteSpace(c)
  {
  }
}

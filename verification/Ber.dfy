/** Basic encoding rules as LDAP uses them (X.690; section 5.1 of RFC 4511): lengths, TLVs and integers. */
module Ber {
  import opened Common

  // ----- definite lengths -----

  /** Base-256 digits, most significant first, without leading zeros. */
  function Digits(n: nat): (d: seq<Byte>)
    ensures n > 0 ==> |d| > 0 && d[0] > 0
  {
    if n == 0 then [] else Digits(n / 256) + [n % 256]
  }

  /** The minimal form; a machine length has at most eight digits. */
  function LengthBytes(n: nat): (out: seq<Byte>)
    ensures |out| > 0
  {
    if n < 0x80 then [n] else LongForm(Digits(n))
  }

  function LongForm(d: seq<Byte>): (out: seq<Byte>)
    ensures |out| == 1 + |d|
  {
    [(0x80 + |d|) % 256] + d
  }

  function Tlv(tag: Byte, value: seq<Byte>): (out: seq<Byte>)
    ensures |out| > |value|
  {
    [tag] + LengthBytes(|value|) + value
  }

  /** Reads a length; the second component counts the bytes read. */
  function ReadLength(data: seq<Byte>): (r: Result<(nat, nat)>)
    ensures r.Ok? ==> 0 < r.value.1 <= |data|
  {
    if data == [] then Err
    else if data[0] < 0x80 then Ok((data[0], 1))
    else match LongDigits(data) case Err => Err case Ok(d) => Ok((BigEndian(d), 1 + |d|))
  }

  /** The digits of the long form: between one and eight of them. */
  function LongDigits(data: seq<Byte>): (r: Result<seq<Byte>>)
    requires data != [] && data[0] >= 0x80
    ensures r.Ok? ==> 0 < |r.value| < |data|
  {
    var n := data[0] - 0x80;
    if n == 0 || n > 8 || |data| - 1 < n then Err else Ok(data[1..1 + n])
  }

  /** A tag, its value, and how many bytes they took. */
  datatype Element = Element(tag: Byte, value: seq<Byte>, used: nat)

  function ReadTlv(data: seq<Byte>): (r: Result<Element>)
    ensures r.Ok? ==> |r.value.value| < r.value.used <= |data|
  {
    if data == [] then Err
    else
      match ReadLength(data[1..])
      case Err => Err
      case Ok((len, n)) =>
        if |data| - 1 - n < len then Err else Ok(Element(data[0], data[1 + n..1 + n + len], 1 + n + len))
  }

  // ----- writing and reading are inverse -----

  lemma {:induction false} DigitsValue(n: nat)
    ensures BigEndian(Digits(n)) == n
  {
    if n > 0 {
      DigitsValue(n / 256);
      assert Digits(n)[..|Digits(n)| - 1] == Digits(n / 256);
    }
  }

  /** `256^k`, by multiplication. */
  function Pow256(k: nat): (p: nat)
    ensures p > 0
  {
    if k == 0 then 1 else 256 * Pow256(k - 1)
  }

  lemma {:induction false} DigitsCount(n: nat, k: nat)
    requires n < Pow256(k)
    ensures |Digits(n)| <= k
  {
    if n > 0 {
      DigitsCount(n / 256, k - 1);
    }
  }

  lemma MachineDigits(n: nat)
    requires n < U64
    ensures |Digits(n)| <= 8
  {
    assert Pow256(2) == 0x1_0000;
    assert Pow256(4) == 0x1_0000_0000;
    assert Pow256(6) == 0x1_0000_0000_0000;
    assert Pow256(8) == U64;
    DigitsCount(n, 8);
  }

  lemma LongFormReads(d: seq<Byte>, more: seq<Byte>)
    requires 0 < |d| <= 8
    ensures (LongForm(d) + more)[0] >= 0x80 && LongDigits(LongForm(d) + more) == Ok(d)
  {
    assert (LongForm(d) + more)[1..1 + |d|] == d;
  }

  lemma ShortFormReads(n: Byte, more: seq<Byte>)
    requires n < 0x80
    ensures ReadLength([n] + more) == Ok((n, 1))
  {
  }

  lemma LengthReads(n: nat, more: seq<Byte>)
    requires n < U64
    ensures ReadLength(LengthBytes(n) + more) == Ok((n, |LengthBytes(n)|))
  {
    if n < 0x80 {
      ShortFormReads(n, more);
    } else {
      MachineDigits(n);
      DigitsValue(n);
      LongFormReads(Digits(n), more);
    }
  }

  /** No shorter definite form reads back as the same length. */
  lemma LengthIsMinimal(data: seq<Byte>)
    requires ReadLength(data).Ok?
    ensures |LengthBytes(ReadLength(data).value.0)| <= ReadLength(data).value.1
  {
    var (len, used) := ReadLength(data).value;
    if data[0] >= 0x80 {
      BigEndianBound(data[1..used]);
      DigitsCount(len, used - 1);
    }
  }

  lemma {:induction false} BigEndianBound(b: seq<Byte>)
    ensures BigEndian(b) < Pow256(|b|)
  {
    if b != [] {
      BigEndianBound(b[..|b| - 1]);
    }
  }

  lemma TlvReads(tag: Byte, value: seq<Byte>, more: seq<Byte>)
    requires |value| < U64
    ensures ReadTlv(Tlv(tag, value) + more) == Ok(Element(tag, value, |Tlv(tag, value)|))
  {
    var data, len := Tlv(tag, value) + more, LengthBytes(|value|);
    assert data[1..] == len + (value + more);
    LengthReads(|value|, value + more);
    assert data[1 + |len|..1 + |len| + |value|] == value;
  }

  // ----- integers -----

  /** `2^(8n-1)`: half the range of `n` bytes. */
  function Half(n: nat): (h: nat)
    requires n > 0
    ensures h >= 128
  {
    if n == 1 then 128 else 256 * Half(n - 1)
  }

  predicate FitsBytes(v: int, n: nat)
    requires n > 0
  {
    0 - Half(n) <= v < Half(n)
  }

  /** The low `n` bytes of the two's complement of `v`. */
  function Bytes(v: int, n: nat): (b: seq<Byte>)
    ensures |b| == n
    decreases n
  {
    if n == 0 then [] else Bytes(v / 256, n - 1) + [v % 256]
  }

  /** The shortest two's complement. */
  function IntegerBytes(v: int): (b: seq<Byte>)
    ensures |b| > 0
    decreases if v >= 0 then v else 0 - v
  {
    if -128 <= v < 128 then [v % 256] else IntegerBytes(v / 256) + [v % 256]
  }

  /** The number that bytes stand for in two's complement. */
  function TwosValue(b: seq<Byte>): int
    requires b != []
  {
    if |b| == 1 then (if b[0] >= 0x80 then b[0] - 256 else b[0])
    else 256 * TwosValue(b[..|b| - 1]) + b[|b| - 1] as int
  }

  function DecodeInteger(b: seq<Byte>): Result<int>
  {
    if b == [] || |b| > 8 then Err else Ok(TwosValue(b))
  }

  predicate Redundant(b: seq<Byte>)
    requires |b| >= 2
  {
    (b[0] == 0 && b[1] < 0x80) || (b[0] == 0xFF && b[1] >= 0x80)
  }

  lemma {:induction false} DropFirst(v: int, n: nat)
    requires n > 0
    ensures Bytes(v, n)[1..] == Bytes(v, n - 1)
    decreases n
  {
    if n > 1 {
      DropFirst(v / 256, n - 1);
      assert Bytes(v, n)[1..] == Bytes(v / 256, n - 1)[1..] + [v % 256];
    }
  }

  /** The first byte can go exactly when one byte fewer still holds the number. */
  lemma {:induction false} RedundantExactly(v: int, n: nat)
    requires n >= 2 && FitsBytes(v, n)
    ensures Redundant(Bytes(v, n)) <==> FitsBytes(v, n - 1)
    decreases n
  {
    if n == 2 {
      assert Half(2) == 32768;
      assert Bytes(v, 2) == [v / 256 % 256, v % 256];
    } else {
      RedundantExactly(v / 256, n - 1);
      assert Bytes(v, n)[..2] == Bytes(v / 256, n - 1)[..2];
    }
  }

  /** What is left when nothing more can go is the shortest form. */
  lemma {:induction false} ShortestForm(v: int, n: nat)
    requires n > 0 && FitsBytes(v, n) && (n > 1 ==> !FitsBytes(v, n - 1))
    ensures Bytes(v, n) == IntegerBytes(v)
    decreases n
  {
    if n > 1 {
      ShortestForm(v / 256, n - 1);
    }
  }

  lemma {:induction false} IntegerRoundTrip(v: int, n: nat)
    requires n > 0 && FitsBytes(v, n)
    ensures TwosValue(IntegerBytes(v)) == v && |IntegerBytes(v)| <= n
    decreases n
  {
    if !(-128 <= v < 128) {
      IntegerRoundTrip(v / 256, n - 1);
      var b := IntegerBytes(v);
      assert b[..|b| - 1] == IntegerBytes(v / 256);
    }
  }

  lemma {:induction false} ValueFits(b: seq<Byte>)
    requires b != []
    ensures FitsBytes(TwosValue(b), |b|)
  {
    if |b| > 1 {
      ValueFits(b[..|b| - 1]);
    }
  }

  lemma Half8()
    ensures Half(8) == 0x8000_0000_0000_0000
  {
    assert Half(2) == 32768;
    assert Half(4) == 0x8000_0000;
    assert Half(6) == 0x8000_0000_0000;
  }

  lemma {:induction false} HalfMonotone(m: nat, n: nat)
    requires 0 < m <= n
    ensures Half(m) <= Half(n)
  {
    if m < n {
      HalfMonotone(m, n - 1);
    }
  }

  /** A 64-bit integer is written in the fewest bytes that stand for it, and read back. */
  lemma IntegersAreMinimalAndInverted(v: int, other: seq<Byte>)
    requires -0x8000_0000_0000_0000 <= v < 0x8000_0000_0000_0000
    ensures DecodeInteger(IntegerBytes(v)) == Ok(v)
    ensures other != [] && TwosValue(other) == v ==> |IntegerBytes(v)| <= |other|
  {
    Half8();
    IntegerRoundTrip(v, 8);
    if other != [] && TwosValue(other) == v {
      ValueFits(other);
      IntegerRoundTrip(v, |other|);
    }
  }

  // ----- the writer -----

  /** The output buffer that the writers extend and patch. */
  class Writer {
    var out: seq<Byte>

    constructor ()
      ensures out == []
    {
      out := [];
    }

    /** Digits are produced least significant first into a scratch array, then copied backwards. */
    method EncodeLength(len: nat)
      requires len < U64
      modifies this
      ensures out == old(out) + LengthBytes(len)
    {
      if len < 0x80 {
        out := out + [len];
        return;
      }
      MachineDigits(len);
      var tmp := new Byte[8];
      var n, l: nat := 0, len;
      ghost var digits := Digits(len);
      while l > 0
        invariant n + |Digits(l)| == |digits| && n <= 8 && out == old(out)
        invariant digits == Digits(l) + Backwards(tmp[..n])
      {
        DigitStep(l, tmp[..n], digits);
        tmp[n] := l % 256;
        assert tmp[..n + 1] == tmp[..n] + [l % 256];
        l := l / 256;
        n := n + 1;
      }
      assert digits == Backwards(tmp[..n]);
      LongParts(out, digits);
      out := out + [0x80 + n];
      AppendBackwards(tmp, n);
    }

    method AppendBackwards(tmp: array<Byte>, n: nat)
      requires n <= tmp.Length
      modifies this
      ensures out == old(out) + Backwards(tmp[..n])
    {
      for i := n downto 0
        invariant old(out) + Backwards(tmp[..n]) == out + Backwards(tmp[..i])
      {
        BackwardsStep(tmp[..i + 1], out);
        assert tmp[..i + 1][..i] == tmp[..i];
        out := out + [tmp[i]];
      }
    }

    method WriteTlv(tag: Byte, value: seq<Byte>)
      requires |value| < U64
      modifies this
      ensures out == old(out) + Tlv(tag, value)
    {
      out := out + [tag];
      EncodeLength(|value|);
      out := out + value;
      TlvParts(old(out), tag, value);
    }

    /** Starts a constructed element: its tag and a placeholder for its length. */
    method Begin(tag: Byte) returns (start: nat)
      modifies this
      ensures start == |old(out)| && out == old(out) + [tag, 0]
    {
      start := |out|;
      out := out + [tag];
      out := out + [0];
    }

    /** Ends a constructed element: the placeholder becomes the length of everything written since. */
    method End(start: nat)
      requires start + 2 <= |out| && |out| - start - 2 < U64
      modifies this
      ensures out == old(out)[..start] + Tlv(old(out)[start], old(out)[start + 2..])
    {
      ghost var was := out;
      var bodyLen := |out| - (start + 2);
      if bodyLen < 0x80 {
        out := out[start + 1 := bodyLen];
        assert out == was[..start + 1] + [bodyLen] + was[start + 2..];
        Patched(was, start, [bodyLen]);
      } else {
        var hdr := new Writer();
        hdr.EncodeLength(bodyLen);
        assert [] + LengthBytes(bodyLen) == LengthBytes(bodyLen);
        Patched(was, start, hdr.out);
        out := out[..start + 1] + hdr.out + out[start + 2..];
      }
    }

    /** Eight bytes, most significant first, with redundant leading bytes removed one at a time. */
    method WriteInteger(tag: Byte, v: int)
      requires -0x8000_0000_0000_0000 <= v < 0x8000_0000_0000_0000
      modifies this
      ensures out == old(out) + Tlv(tag, IntegerBytes(v))
    {
      Half8();
      var bytes := Bytes(v, 8);
      while |bytes| > 1 && Redundant(bytes)
        invariant 0 < |bytes| <= 8 && bytes == Bytes(v, |bytes|) && FitsBytes(v, |bytes|) && out == old(out)
        decreases |bytes|
      {
        DropFirst(v, |bytes|);
        RedundantExactly(v, |bytes|);
        bytes := bytes[1..];
      }
      if |bytes| > 1 {
        RedundantExactly(v, |bytes|);
      }
      ShortestForm(v, |bytes|);
      WriteTlv(tag, bytes);
    }
  }

  lemma LongParts(out: seq<Byte>, d: seq<Byte>)
    requires |d| <= 8
    ensures out + [0x80 + |d|] + d == out + LongForm(d)
  {
  }

  /** The header of an element patched in place is the header of the element written in one go. */
  lemma Patched(was: seq<Byte>, start: nat, len: seq<Byte>)
    requires start + 2 <= |was| && len == LengthBytes(|was| - start - 2)
    ensures was[..start + 1] + len + was[start + 2..] == was[..start] + Tlv(was[start], was[start + 2..])
  {
  }

  function Backwards(b: seq<Byte>): (r: seq<Byte>)
    ensures |r| == |b|
  {
    if b == [] then [] else [b[|b| - 1]] + Backwards(b[..|b| - 1])
  }

  lemma BackwardsStep(b: seq<Byte>, out: seq<Byte>)
    requires b != []
    ensures out + Backwards(b) == out + [b[|b| - 1]] + Backwards(b[..|b| - 1])
  {
    Regroup(out, [b[|b| - 1]], Backwards(b[..|b| - 1]));
  }

  lemma Regroup(x: seq<Byte>, y: seq<Byte>, z: seq<Byte>)
    ensures x + y + z == x + (y + z)
  {
  }

  lemma DigitStep(l: nat, done: seq<Byte>, all: seq<Byte>)
    requires l > 0 && all == Digits(l) + Backwards(done)
    ensures all == Digits(l / 256) + Backwards(done + [l % 256])
  {
    Regroup(Digits(l / 256), [l % 256], Backwards(done));
    assert (done + [l % 256])[..|done|] == done;
  }

  lemma TlvParts(out: seq<Byte>, tag: Byte, value: seq<Byte>)
    ensures out + [tag] + LengthBytes(|value|) + value == out + Tlv(tag, value)
  {
  }

  // ----- the reader -----

  /** Slices of what follows the tag and a length of `n` bytes. */
  lemma Carved(data: seq<Byte>, n: nat, len: nat)
    requires 1 + n + len <= |data|
    ensures data[1..][n..][..len] == data[1 + n..1 + n + len] && data[1..][n..][len..] == data[1 + n + len..]
  {
  }

  /** The unread part of a buffer. */
  class Reader {
    var data: seq<Byte>

    constructor (input: seq<Byte>)
      ensures data == input
    {
      data := input;
    }

    method TakeLength() returns (r: Result<nat>)
      modifies this
      ensures match ReadLength(old(data))
              case Err => r == Err
              case Ok((len, used)) => r == Ok(len) && data == old(data)[used..]
    {
      if data == [] {
        return Err;
      }
      var first := data[0];
      data := data[1..];
      if first < 0x80 {
        return Ok(first);
      }
      var n := first - 0x80;
      if n == 0 || n > 8 || |data| < n {
        return Err;
      }
      var len := 0;
      for i := 0 to n
        invariant len == BigEndian(data[..i])
      {
        assert data[..i + 1][..i] == data[..i];
        len := len * 256 + data[i] as int;
      }
      assert old(data)[1..1 + n] == data[..n] && old(data)[1 + n..] == data[n..];
      data := data[n..];
      return Ok(len);
    }

    method TakeTlv() returns (r: Result<(Byte, seq<Byte>)>)
      modifies this
      ensures match ReadTlv(old(data))
              case Err => r == Err
              case Ok(e) => r == Ok((e.tag, e.value)) && data == old(data)[e.used..]
    {
      if data == [] {
        return Err;
      }
      var tag := data[0];
      data := data[1..];
      var len := TakeLength();
      if len.Err? || |data| < len.value {
        return Err;
      }
      var value := data[..len.value];
      Carved(old(data), |old(data)| - 1 - |data|, len.value);
      data := data[len.value..];
      return Ok((tag, value));
    }

    /** The accumulator never leaves 64 bits, so the shift is exact. */
    static method DecodeInteger64(bytes: seq<Byte>) returns (r: Result<int>)
      ensures r == DecodeInteger(bytes)
      ensures r.Ok? ==> -0x8000_0000_0000_0000 <= r.value < 0x8000_0000_0000_0000
    {
      if bytes == [] || |bytes| > 8 {
        return Err;
      }
      var acc := if bytes[0] >= 0x80 then -1 else 0;
      for i := 0 to |bytes|
        invariant i > 0 ==> acc == TwosValue(bytes[..i])
        invariant i == 0 ==> acc == if bytes[0] >= 0x80 then -1 else 0
      {
        assert bytes[..i + 1][..i] == bytes[..i];
        acc := 256 * acc + bytes[i] as int;
      }
      assert bytes[..|bytes|] == bytes;
      ValueFits(bytes);
      Half8();
      HalfMonotone(|bytes|, 8);
      return Ok(acc);
    }
  }
}

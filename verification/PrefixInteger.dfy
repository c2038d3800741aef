/** The prefix-integer codec of section 5.1 of RFC 7541, shared by HPACK and QPACK. */
module PrefixInteger {
  import opened Common

  /** Outcome of reading an integer from a buffer that may be too short. */
  datatype Parse = Done(value: nat, used: nat) | Truncated | Invalid {
    /** The same outcome seen from `n` bytes earlier. */
    function After(n: nat): Parse {
      if Done? then Done(value, used + n) else this
    }
  }

  /** `(1 << p) - 1`: the largest value of a `p`-bit prefix, which announces continuation bytes. */
  function Limit(p: nat): (m: Byte)
    requires 1 <= p <= 8
    ensures m > 0
  {
    if p == 1 then 1 else if p == 2 then 3 else if p == 3 then 7 else if p == 4 then 15
    else if p == 5 then 31 else if p == 6 then 63 else if p == 7 then 127 else 255
  }

  /** `b & Limit(p)`. */
  function LowBits(b: Byte, p: nat): (low: Byte)
    requires 1 <= p <= 8
    ensures low <= Limit(p)
  {
    if p == 1 then b % 2 else if p == 2 then b % 4 else if p == 3 then b % 8 else if p == 4 then b % 16
    else if p == 5 then b % 32 else if p == 6 then b % 64 else if p == 7 then b % 128 else b
  }

  /** Continuation bytes of the encoding: seven bits each, least significant first. */
  function EncodeTail(rem: nat): (out: seq<Byte>)
    ensures |out| > 0
  {
    if rem < 128 then [rem] else [128 + rem % 128] + EncodeTail(rem / 128)
  }

  /** The encoding with all flag bits above the prefix clear. */
  function Encode(value: nat, prefixBits: nat): (out: seq<Byte>)
    requires 1 <= prefixBits <= 8
    ensures |out| > 0 && out[0] <= Limit(prefixBits)
  {
    var limit := Limit(prefixBits);
    if value < limit then [value] else [limit] + EncodeTail(value - limit)
  }

  /** The integers of section C.1 of RFC 7541. */
  lemma EncodingExamples()
    ensures Encode(10, 5) == [10] && Encode(1337, 5) == [31, 154, 10] && Encode(42, 8) == [42]
  {
    assert EncodeTail(1306) == [154] + EncodeTail(10);
  }

  /** Reads continuation bytes. The 64-bit shift drops high bits; the sum is checked. */
  function ParseTail(rest: seq<Byte>, value: nat, shift: nat): (r: Parse)
    ensures r.Done? ==> 0 < r.used <= |rest| && r.value < U64
  {
    if rest == [] then Truncated
    else
      var sum := value + ShlU64(rest[0] % 128, shift);
      if sum >= U64 then Invalid
      else if rest[0] < 128 then Done(sum, 1)
      else if shift + 7 > 63 then Invalid
      else ParseTail(rest[1..], sum, shift + 7).After(1)
  }

  /** `k << n` in 64-bit arithmetic. */
  function ShlU64(k: nat, n: nat): nat { Shl(k, n) % U64 }

  /** Reads an integer whose first byte is `first`; `used` counts the bytes after it. */
  function ParseInt(first: Byte, prefixBits: nat, rest: seq<Byte>): (r: Parse)
    requires 1 <= prefixBits <= 8
    ensures r.Done? ==> r.used <= |rest| && r.value < U64
  {
    var low := LowBits(first, prefixBits);
    if low < Limit(prefixBits) then Done(low, 0) else ParseTail(rest, low, 0)
  }

  /** HPACK's reader: the first byte is in the buffer and a short buffer is an error. */
  function DecodeIntSpec(buf: seq<Byte>, prefixBits: nat): (r: Result<(nat, nat)>)
    requires 1 <= prefixBits <= 8
    ensures r.Ok? ==> 0 < r.value.1 <= |buf| && r.value.0 < U64
  {
    if buf == [] then Err
    else match ParseInt(buf[0], prefixBits, buf[1..])
         case Done(v, used) => Ok((v, used + 1))
         case _ => Err
  }

  // ----- the loops -----

  lemma TailStep(out: seq<Byte>, rem: nat)
    requires rem >= 128
    ensures out + EncodeTail(rem) == out + [128 + rem % 128] + EncodeTail(rem / 128)
  {
  }

  method EncodeInt(value: nat, prefixBits: nat) returns (out: seq<Byte>)
    requires 1 <= prefixBits <= 8 && value < U64
    ensures out == Encode(value, prefixBits)
  {
    var maxPrefix := Limit(prefixBits);
    if value < maxPrefix {
      return [value];
    }
    out := [maxPrefix];
    var rem := value - maxPrefix;
    ghost var whole := Encode(value, prefixBits);
    while rem >= 128
      invariant rem >= 0 && out + EncodeTail(rem) == whole
    {
      TailStep(out, rem);
      out := out + [128 + rem % 128];
      rem := rem / 128;
    }
    out := out + [rem];
  }

  method DecodeInt(buf: seq<Byte>, prefixBits: nat) returns (r: Result<(nat, nat)>)
    requires 1 <= prefixBits <= 8
    ensures r == DecodeIntSpec(buf, prefixBits)
  {
    if buf == [] {
      return Err;
    }
    var maxPrefix := Limit(prefixBits);
    var value: nat := LowBits(buf[0], prefixBits);
    if value < maxPrefix {
      return Ok((value, 1));
    }
    ghost var goal := ParseTail(buf[1..], maxPrefix, 0);
    var i, shift := 1, 0;
    while true
      invariant 1 <= i <= |buf|
      invariant goal == ParseTail(buf[i..], value, shift).After(i - 1)
      decreases |buf| - i
    {
      if i >= |buf| {
        return Err;
      }
      var b := buf[i];
      i := i + 1;
      value := value + ShlU64(b % 128, shift);
      if value >= U64 {
        return Err;
      }
      if b < 128 {
        return Ok((value, i));
      }
      shift := shift + 7;
      if shift > 63 {
        return Err;
      }
    }
  }

  /** QPACK's two readers: `Truncated` is an error in one and asks for more bytes in the other. */
  method DecodeIntRest(first: Byte, prefixBits: nat, rest: seq<Byte>) returns (r: Parse)
    requires 1 <= prefixBits <= 8
    ensures r == ParseInt(first, prefixBits, rest)
  {
    var mask := Limit(prefixBits);
    var prefix := LowBits(first, prefixBits);
    if prefix < mask {
      return Done(prefix, 0);
    }
    var value: nat, shift, used := mask, 0, 0;
    ghost var goal := ParseTail(rest, mask, 0);
    assert rest[0..] == rest;
    while used < |rest|
      invariant used <= |rest|
      invariant goal == ParseTail(rest[used..], value, shift).After(used)
    {
      var b := rest[used];
      used := used + 1;
      value := value + ShlU64(b % 128, shift);
      if value >= U64 {
        return Invalid;
      }
      if b < 128 {
        return Done(value, used);
      }
      shift := shift + 7;
      if shift > 63 {
        return Invalid;
      }
    }
    return Truncated;
  }

  // ----- round trip -----

  lemma {:induction false} ShiftSplit(rem: nat, shift: nat)
    ensures Shl(rem % 128, shift) + Shl(rem / 128, shift + 7) == Shl(rem, shift)
  {
    if shift == 0 {
      ShlIsProduct(rem / 128, 7);
      assert Pow2(7) == 128;
    } else {
      ShiftSplit(rem, shift - 1);
    }
  }

  lemma ShiftFits(rem: nat, shift: nat)
    requires rem >= 128 && Shl(rem, shift) < U64
    ensures shift + 7 <= 63
  {
    ShlMonotone(128, rem, shift);
    ShlAdd(1, 7, shift);
    ShlIsProduct(1, shift + 7);
    assert Shl(1, 7) == 128;
    Pow2Values();
    if shift + 7 > 63 {
      Pow2Monotone(64, shift + 7);
      assert false;
    }
  }

  lemma {:induction false} TailRoundTrip(rem: nat, more: seq<Byte>, value: nat, shift: nat)
    requires value + Shl(rem, shift) < U64
    ensures ParseTail(EncodeTail(rem) + more, value, shift) == Done(value + Shl(rem, shift), |EncodeTail(rem)|)
    decreases rem
  {
    if rem >= 128 {
      var lo, hi := rem % 128, rem / 128;
      ShiftSplit(rem, shift);
      ShiftFits(rem, shift);
      TailRoundTrip(hi, more, value + Shl(lo, shift), shift + 7);
      ParseStep(lo, EncodeTail(hi) + more, value, shift);
      assert EncodeTail(rem) + more == [128 + lo] + (EncodeTail(hi) + more);
    }
  }

  lemma ParseStep(lo: nat, rest: seq<Byte>, value: nat, shift: nat)
    requires lo < 128 && shift + 7 <= 63 && value + Shl(lo, shift) < U64
    ensures ParseTail([128 + lo] + rest, value, shift) == ParseTail(rest, value + Shl(lo, shift), shift + 7).After(1)
  {
    assert ([128 + lo] + rest)[1..] == rest;
  }

  /** An encoding reads back whatever flags sit above its prefix and whatever bytes follow it. */
  lemma RoundTrip(value: nat, prefixBits: nat, first: Byte, more: seq<Byte>)
    requires 1 <= prefixBits <= 8 && value < U64
    requires LowBits(first, prefixBits) == Encode(value, prefixBits)[0]
    ensures var e := Encode(value, prefixBits);
            ParseInt(first, prefixBits, e[1..] + more) == Done(value, |e| - 1)
  {
    var e, limit := Encode(value, prefixBits), Limit(prefixBits);
    if value >= limit {
      TailRoundTrip(value - limit, more, limit, 0);
      assert e[1..] == EncodeTail(value - limit);
    }
  }

  // ----- what a successful read means -----

  /** Value of the first `n` continuation bytes as section 5.1 of RFC 7541 defines it. */
  function TailValue(rest: seq<Byte>, n: nat, shift: nat): nat
    requires n <= |rest|
  {
    if n == 0 then 0 else Shl(rest[0] % 128, shift) + TailValue(rest[1..], n - 1, shift + 7)
  }

  /** At least `n` bytes that announce another one, and the byte after them. */
  predicate Continued(rest: seq<Byte>, n: nat)
  {
    |rest| > n && forall j :: 0 <= j < n ==> rest[j] >= 128
  }

  /**
   * The reader returns the encoded number except when there is a tenth continuation byte and it carries more
   * than one significant bit: its shift by 63 silently loses them. `i` bytes have been read already.
   */
  lemma {:induction false} DecodeExact(rest: seq<Byte>, value: nat, i: nat)
    requires i <= 9 && ParseTail(rest, value, 7 * i).Done?
    ensures var r := ParseTail(rest, value, 7 * i);
            && i + r.used <= 10 && (i + r.used == 10 <==> Continued(rest, 9 - i))
            && (r.value == value + TailValue(rest, r.used, 7 * i)
                <==> !(Continued(rest, 9 - i) && rest[9 - i] % 128 > 1))
    decreases 9 - i
  {
    var r, k := ParseTail(rest, value, 7 * i), rest[0] % 128;
    assert TailValue(rest, r.used, 7 * i) == Shl(k, 7 * i) + TailValue(rest[1..], r.used - 1, 7 * i + 7);
    if i == 9 {
      LastShift(k);
    } else {
      EarlyShift(k, 7 * i);
      if rest[0] >= 128 {
        DecodeExact(rest[1..], value + Shl(k, 7 * i), i + 1);
        ContinuedTail(rest, 9 - i);
      }
    }
  }

  lemma ContinuedTail(rest: seq<Byte>, n: nat)
    requires n > 0 && rest != [] && rest[0] >= 128
    ensures Continued(rest, n) <==> Continued(rest[1..], n - 1)
  {
    if Continued(rest[1..], n - 1) {
      forall j | 0 <= j < n
        ensures rest[j] >= 128
      {
        assert j > 0 ==> rest[1..][j - 1] == rest[j];
      }
    }
  }

  /** An unfinished tail is all continuation bytes, and a finished one has a last byte that is not. */
  lemma {:induction false} TailEnds(rest: seq<Byte>, value: nat, shift: nat)
    ensures ParseTail(rest, value, shift).Truncated? ==> forall i :: 0 <= i < |rest| ==> rest[i] >= 128
    ensures ParseTail(rest, value, shift).Done? ==> rest[ParseTail(rest, value, shift).used - 1] < 128
  {
    if rest != [] {
      var sum := value + ShlU64(rest[0] % 128, shift);
      if sum < U64 && rest[0] >= 128 && shift + 7 <= 63 {
        TailEnds(rest[1..], sum, shift + 7);
      }
    }
  }

  /** Before the tenth byte the shift fits in 64 bits. */
  lemma EarlyShift(k: nat, shift: nat)
    requires k < 128 && shift <= 56
    ensures ShlU64(k, shift) == Shl(k, shift)
  {
    ShlMonotone(k, 128, shift);
    ShlAdd(1, 7, shift);
    ShlIsProduct(1, shift + 7);
    assert Shl(1, 7) == 128;
    Pow2Monotone(shift + 7, 63);
    Pow2Values();
  }

  /** At the tenth byte only the lowest bit survives. */
  lemma LastShift(k: nat)
    requires k < 128
    ensures ShlU64(k, 63) == Shl(k % 2, 63)
    ensures ShlU64(k, 63) == Shl(k, 63) <==> k <= 1
  {
    Pow2Values();
    ShlIsProduct(k, 63);
    ShlIsProduct(k % 2, 63);
  }

  /** Ten continuation bytes that encode 2^64 are read as 0. */
  lemma DecodeLosesBits()
    ensures var rest := [128, 128, 128, 128, 128, 128, 128, 128, 128, 2];
            ParseTail(rest, 0, 0) == Done(0, 10) && TailValue(rest, 10, 0) == U64
  {
    ZeroBitsThenTwo([128, 128, 128, 128, 128, 128, 128, 128, 128, 2], 0);
  }

  lemma {:induction false} ZeroBitsThenTwo(rest: seq<Byte>, i: nat)
    requires i <= 9 && |rest| == 10 - i && rest[9 - i] == 2 && forall j :: 0 <= j < 9 - i ==> rest[j] == 128
    ensures ParseTail(rest, 0, 7 * i) == Done(0, 10 - i) && TailValue(rest, 10 - i, 7 * i) == U64
    decreases 9 - i
  {
    if i == 9 {
      Pow2Values();
      ShlIsProduct(2, 63);
    } else {
      ShlIsProduct(0, 7 * i);
      ZeroBitsThenTwo(rest[1..], i + 1);
    }
  }

  // ----- reading depends only on the bytes it consumes -----

  lemma {:induction false} TailExtends(rest: seq<Byte>, more: seq<Byte>, value: nat, shift: nat)
    requires !ParseTail(rest, value, shift).Truncated?
    ensures ParseTail(rest + more, value, shift) == ParseTail(rest, value, shift)
  {
    assert (rest + more)[1..] == rest[1..] + more;
    var sum := value + ShlU64(rest[0] % 128, shift);
    if sum < U64 && rest[0] >= 128 && shift + 7 <= 63 {
      TailExtends(rest[1..], more, sum, shift + 7);
    }
  }

  /** More bytes never change a verdict already reached. */
  lemma Extends(first: Byte, prefixBits: nat, rest: seq<Byte>, more: seq<Byte>)
    requires 1 <= prefixBits <= 8
    requires !ParseInt(first, prefixBits, rest).Truncated?
    ensures ParseInt(first, prefixBits, rest + more) == ParseInt(first, prefixBits, rest)
  {
    var limit := Limit(prefixBits);
    if LowBits(first, prefixBits) == limit {
      TailExtends(rest, more, limit, 0);
    }
  }
}

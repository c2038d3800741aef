/** The Huffman string codec of section 5.2 of RFC 7541, over any table that is a complete prefix code. */
module Huffman {
  import opened Common
  import opened BitStrings

  /** `(code, bit length)` for each symbol; symbol 256 is EOS. */
  type Table = seq<(nat, nat)>

  const EOS := 256

  function CodeBits(t: Table, sym: nat): (b: seq<bool>)
    requires sym < |t|
  {
    Bits(t[sym].0, t[sym].1)
  }

  ghost predicate ValidTable(t: Table)
  {
    Sized(t) && PrefixFree(t) && Complete(t) && CodeBits(t, EOS) == Ones(30)
  }

  ghost predicate Sized(t: Table)
  {
    |t| == 257 && forall i :: 0 <= i < 257 ==> 5 <= t[i].1 <= 30 && t[i].0 < Pow2(t[i].1)
  }

  ghost predicate PrefixFree(t: Table)
  {
    forall i, j :: 0 <= i < |t| && 0 <= j < |t| && i != j ==> Apart(t, i, j)
  }

  ghost predicate Apart(t: Table, i: nat, j: nat)
    requires i < |t| && j < |t|
  {
    !(CodeBits(t, i) <= CodeBits(t, j))
  }

  /** Every string of 30 bits starts with a code. */
  ghost predicate Complete(t: Table)
  {
    forall b: seq<bool> :: |b| == 30 ==> StartsWithCode(t, b)
  }

  ghost predicate StartsWithCode(t: Table, b: seq<bool>)
  {
    exists i :: 0 <= i < |t| && CodeBits(t, i) <= b
  }

  // ----- meaning of the encoding -----

  function EncodeBits(t: Table, s: seq<Byte>): seq<bool>
    requires |t| == 257
  {
    if s == [] then [] else CodeBits(t, s[0]) + EncodeBits(t, s[1..])
  }

  /** Number of one bits that complete the last octet. */
  function PadLength(n: nat): (p: nat)
    ensures p < 8 && (n + p) % 8 == 0
  {
    (8 - n % 8) % 8
  }

  /** Octets of a bit string, the last one completed with ones. */
  function Pack(bits: seq<bool>): (out: seq<Byte>)
    ensures |out| == (|bits| + 7) / 8
    decreases |bits|
  {
    if bits == [] then []
    else if |bits| < 8 then [OctetOf(bits + Ones(8 - |bits|))]
    else [OctetOf(bits[..8])] + Pack(bits[8..])
  }

  function OctetOf(b: seq<bool>): (r: Byte)
    requires |b| == 8
    ensures Bits(r, 8) == b && r == LeftOctet(b)
  {
    BitsOfValue(b);
    Pow2Values();
    Value(b)
  }

  function Unpack(x: seq<Byte>): (bits: seq<bool>)
    ensures |bits| == 8 * |x|
  {
    if x == [] then [] else Bits(x[0], 8) + Unpack(x[1..])
  }

  function EncodeString(t: Table, s: seq<Byte>): seq<Byte>
    requires |t| == 257
  {
    Pack(EncodeBits(t, s))
  }

  /** The first symbol at or after `i` whose code starts `bits`. */
  function FindCode(t: Table, bits: seq<bool>, i: nat): (r: Option<nat>)
    requires i <= |t|
    ensures r.Some? ==> i <= r.value < |t| && CodeBits(t, r.value) <= bits
    ensures r.None? ==> forall j :: i <= j < |t| ==> !(CodeBits(t, j) <= bits)
    decreases |t| - i
  {
    if i == |t| then None
    else if CodeBits(t, i) <= bits then Some(i)
    else FindCode(t, bits, i + 1)
  }

  /** Decoding the whole bit string: codes, then fewer than eight ones. */
  ghost function DecodeBits(t: Table, bits: seq<bool>): (r: Result<seq<Byte>>)
    requires Sized(t)
    decreases |bits|
  {
    match FindCode(t, bits, 0)
    case Some(i) =>
      if i == EOS then Err else Prepend([i], DecodeBits(t, bits[t[i].1..]))
    case None =>
      if |bits| < 8 && bits == Ones(|bits|) then Ok([]) else Err
  }

  function Prepend(s: seq<Byte>, r: Result<seq<Byte>>): Result<seq<Byte>>
  {
    if r.Ok? then Ok(s + r.value) else Err
  }

  ghost function DecodeString(t: Table, x: seq<Byte>): Result<seq<Byte>>
    requires Sized(t)
  {
    DecodeBits(t, Unpack(x))
  }

  // ----- inverse laws -----

  lemma PrefixesNest(x: seq<bool>, y: seq<bool>, z: seq<bool>)
    requires x <= z && y <= z && |x| <= |y|
    ensures x <= y
  {
  }

  /** A code that starts a bit string is the one found there. */
  lemma FindUnique(t: Table, bits: seq<bool>, i: nat)
    requires Sized(t) && PrefixFree(t) && i < |t| && CodeBits(t, i) <= bits
    ensures FindCode(t, bits, 0) == Some(i)
  {
    var j := FindCode(t, bits, 0).value;
    assert i != j ==> Apart(t, i, j) && Apart(t, j, i);
    if |CodeBits(t, i)| <= |CodeBits(t, j)| {
      PrefixesNest(CodeBits(t, i), CodeBits(t, j), bits);
    } else {
      PrefixesNest(CodeBits(t, j), CodeBits(t, i), bits);
    }
  }

  /** Padding is never mistaken for a symbol: only EOS consists of ones. */
  lemma NoCodeInPadding(t: Table, k: nat)
    requires ValidTable(t) && k < 8
    ensures FindCode(t, Ones(k), 0).None?
  {
    var f := FindCode(t, Ones(k), 0);
    assert f.Some? && f.value != EOS ==> Apart(t, f.value, EOS);
  }

  lemma {:induction false} DecodeEncodeBits(t: Table, s: seq<Byte>, k: nat)
    requires Sized(t) && PrefixFree(t) && k < 8 && FindCode(t, Ones(k), 0).None?
    ensures DecodeBits(t, EncodeBits(t, s) + Ones(k)) == Ok(s)
    decreases |s|
  {
    if s == [] {
      assert EncodeBits(t, s) + Ones(k) == Ones(k);
    } else {
      DecodeEncodeBits(t, s[1..], k);
      EncodeFirst(t, s, Ones(k));
      DecodeFirst(t, s[0], EncodeBits(t, s[1..]) + Ones(k));
    }
  }

  lemma EncodeFirst(t: Table, s: seq<Byte>, pad: seq<bool>)
    requires |t| == 257 && s != []
    ensures EncodeBits(t, s) + pad == CodeBits(t, s[0]) + (EncodeBits(t, s[1..]) + pad)
    ensures Prepend([s[0]], Ok(s[1..])) == Ok(s)
  {
    assert [s[0]] + s[1..] == s;
  }

  lemma DecodeFirst(t: Table, sym: Byte, rest: seq<bool>)
    requires Sized(t) && PrefixFree(t)
    ensures DecodeBits(t, CodeBits(t, sym) + rest) == Prepend([sym], DecodeBits(t, rest))
  {
    var bits := CodeBits(t, sym) + rest;
    FindUnique(t, bits, sym);
    assert bits[t[sym].1..] == rest;
  }

  lemma {:induction false} EncodeDecodeBits(t: Table, bits: seq<bool>)
    requires Sized(t) && DecodeBits(t, bits).Ok?
    ensures var s := DecodeBits(t, bits).value;
            |EncodeBits(t, s)| <= |bits| < |EncodeBits(t, s)| + 8
            && bits == EncodeBits(t, s) + Ones(|bits| - |EncodeBits(t, s)|)
    decreases |bits|
  {
    var f := FindCode(t, bits, 0);
    if f.Some? {
      var rest := bits[t[f.value].1..];
      EncodeDecodeBits(t, rest);
      var tail := DecodeBits(t, rest).value;
      var pad := Ones(|rest| - |EncodeBits(t, tail)|);
      EncodeFirst(t, [f.value] + tail, pad);
      assert ([f.value] + tail)[1..] == tail;
      assert bits == CodeBits(t, f.value) + rest;
    }
  }

  lemma UnpackCons(o: Byte, x: seq<Byte>)
    ensures Unpack([o] + x) == Bits(o, 8) + Unpack(x)
  {
    assert ([o] + x)[1..] == x;
  }

  lemma PackLong(bits: seq<bool>)
    requires |bits| >= 8
    ensures Unpack(Pack(bits)) == bits[..8] + Unpack(Pack(bits[8..]))
  {
    UnpackCons(OctetOf(bits[..8]), Pack(bits[8..]));
  }

  lemma PadSame(bits: seq<bool>)
    requires |bits| >= 8
    ensures PadLength(|bits[8..]|) == PadLength(|bits|)
  {
  }

  lemma PackShort(bits: seq<bool>)
    requires 0 < |bits| < 8
    ensures Unpack(Pack(bits)) == bits + Ones(8 - |bits|)
  {
    var o := OctetOf(bits + Ones(8 - |bits|));
    assert Pack(bits) == [o];
    assert Unpack([o]) == Bits(o, 8);
  }

  lemma {:induction false} UnpackPack(bits: seq<bool>)
    ensures Unpack(Pack(bits)) == bits + Ones(PadLength(|bits|))
    decreases |bits|
  {
    if bits == [] {
    } else if |bits| < 8 {
      PackShort(bits);
    } else {
      PackLong(bits);
      PadSame(bits);
      UnpackPack(bits[8..]);
      Regroup(bits, Ones(PadLength(|bits|)));
    }
  }

  lemma Associate(x: seq<bool>, y: seq<bool>, z: seq<bool>)
    ensures x + y + z == x + (y + z)
  {
  }

  lemma Regroup(bits: seq<bool>, pad: seq<bool>)
    requires |bits| >= 8
    ensures bits[..8] + (bits[8..] + pad) == bits + pad
  {
  }

  lemma {:induction false} PackUnpack(x: seq<Byte>, bits: seq<bool>, k: nat)
    requires k < 8 && Unpack(x) == bits + Ones(k)
    ensures Pack(bits) == x
    decreases |x|
  {
    if x != [] {
      ValueOfBits(x[0], 8);
      Pow2Values();
      LowBelow(x[0], 8);
      assert Bits(x[0], 8) == (bits + Ones(k))[..8];
      if |bits| < 8 {
        assert Bits(x[0], 8) == bits + Ones(k);
      } else {
        assert bits[..8] == Bits(x[0], 8);
        assert Unpack(x[1..]) == bits[8..] + Ones(k);
        PackUnpack(x[1..], bits[8..], k);
      }
    }
  }

  /** Decoding inverts encoding on every byte string. */
  lemma DecodeEncode(t: Table, s: seq<Byte>)
    requires ValidTable(t)
    ensures DecodeString(t, EncodeString(t, s)) == Ok(s)
  {
    UnpackPack(EncodeBits(t, s));
    var k := PadLength(|EncodeBits(t, s)|);
    NoCodeInPadding(t, k);
    DecodeEncodeBits(t, s, k);
  }

  /** The decoder accepts nothing but encodings. */
  lemma EncodeDecode(t: Table, x: seq<Byte>)
    requires ValidTable(t) && DecodeString(t, x).Ok?
    ensures EncodeString(t, DecodeString(t, x).value) == x
  {
    EncodeDecodeBits(t, Unpack(x));
    var bits := EncodeBits(t, DecodeString(t, x).value);
    PackUnpack(x, bits, 8 * |x| - |bits|);
  }

  // ----- the loops -----

  ghost predicate NoCode(t: Table, bits: seq<bool>)
  {
    forall i :: 0 <= i < |t| ==> !(CodeBits(t, i) <= bits)
  }

  method LookupHuffman(t: Table, code: nat, len: nat) returns (r: Option<nat>)
    ensures r.Some? ==> r.value < |t| && t[r.value] == (code, len)
    ensures r.None? ==> (code, len) !in t
  {
    for i := 0 to |t|
      invariant (code, len) !in t[..i]
    {
      if t[i] == (code, len) {
        return Some(i);
      }
    }
    return None;
  }

  /** The accumulator's next `n` of `n + k` unread bits, as `(acc >> k) & mask`. */
  lemma TopBits(acc: nat, n: nat, k: nat)
    ensures Bits(Low(Shr(acc, k), n), n) == Bits(acc, n + k)[..n]
    ensures Low(Shr(acc, k), n) < Pow2(n)
  {
    BitsShr(acc, n, k);
    ValueOfBits(Shr(acc, k), n);
    BitsOfValue(Bits(Shr(acc, k), n));
  }

  /** A table row matches the next bits exactly when its code starts them. */
  lemma RowMatches(t: Table, i: nat, acc: nat, n: nat, k: nat)
    requires Sized(t) && i < 257 && t[i].1 == n
    ensures t[i].0 == Low(Shr(acc, k), n) <==> CodeBits(t, i) <= Bits(acc, n + k)
  {
    var code := Low(Shr(acc, k), n);
    TopBits(acc, n, k);
    BitsInjective(t[i].0, code, n);
  }

  lemma BitsInjective(a: nat, b: nat, n: nat)
    requires a < Pow2(n) && b < Pow2(n)
    ensures a == b <==> Bits(a, n) == Bits(b, n)
  {
    ValueOfBits(a, n);
    ValueOfBits(b, n);
    LowBelow(a, n);
    LowBelow(b, n);
  }

  /** Tries every code length against the unread bits; the shortest match is the only one. */
  method MatchSymbol(t: Table, acc: nat, accLen: nat) returns (r: Option<nat>)
    requires Sized(t) && 5 <= accLen
    ensures r.Some? ==> r.value < 257 && CodeBits(t, r.value) <= Bits(acc, accLen)
    ensures r.None? ==> NoCode(t, Bits(acc, accLen))
  {
    var maxLen := Min(accLen, 30);
    for tryLen := 5 to maxLen + 1
      invariant forall i :: 0 <= i < 257 && t[i].1 < tryLen ==> !(CodeBits(t, i) <= Bits(acc, accLen))
    {
      var code := Low(Shr(acc, accLen - tryLen), tryLen);
      r := LookupHuffman(t, code, tryLen);
      forall i | 0 <= i < 257 && t[i].1 == tryLen
        ensures t[i].0 == code <==> CodeBits(t, i) <= Bits(acc, accLen)
      {
        RowMatches(t, i, acc, tryLen, accLen - tryLen);
      }
      if r.Some? {
        return;
      }
    }
    r := None;
  }

  /** `(acc << 8) | byte` appends eight unread bits; what leaves the 64-bit word was already read. */
  lemma PushByte(acc: nat, accLen: nat, b: Byte)
    requires accLen <= 56
    ensures Bits(acc * 256 % U64 + b, accLen + 8) == Bits(acc, accLen) + Bits(b, 8)
    ensures acc * 256 % U64 + b < U64
  {
    var q, r := acc / 0x100_0000_0000_0000, acc % 0x100_0000_0000_0000;
    ModuloUnique(acc * 256, U64, q, 256 * r);
    Pow2At56(56);
    ShlIsProduct(q, 56);
    BitsBelow(q, r, 56, accLen);
    Pow2Values();
    ShlIsProduct(r, 8);
    BitsAppend(r, b, accLen, 8);
  }

  lemma Pow2At56(n: nat)
    requires n == 56
    ensures Pow2(n) == 0x100_0000_0000_0000
  {
    Pow2Values();
    Pow2Add(n, 8);
  }

  /** Thirty unread bits always contain a code, so at most 29 wait for the next byte. */
  lemma FewBitsWait(t: Table, bits: seq<bool>)
    requires Complete(t)
    ensures |bits| <= 29 || exists i :: 0 <= i < |t| && CodeBits(t, i) <= bits
  {
    if |bits| >= 30 {
      assert StartsWithCode(t, bits[..30]);
      var i :| 0 <= i < |t| && CodeBits(t, i) <= bits[..30];
      assert CodeBits(t, i) <= bits;
    }
  }

  /** What is left to decode: `out` has been produced and `bits` are unread. */
  ghost predicate Remaining(t: Table, goal: Result<seq<Byte>>, out: seq<Byte>, bits: seq<bool>)
    requires Sized(t)
  {
    goal == Prepend(out, DecodeBits(t, bits))
  }

  lemma TakeSymbol(t: Table, goal: Result<seq<Byte>>, out: seq<Byte>, bits: seq<bool>, more: seq<bool>, i: nat)
    requires Sized(t) && PrefixFree(t) && i < 257 && CodeBits(t, i) <= bits
    requires Remaining(t, goal, out, bits + more)
    ensures i == EOS ==> goal == Err
    ensures i != EOS ==> Remaining(t, goal, out + [i], bits[t[i].1..] + more)
  {
    FindUnique(t, bits + more, i);
    assert (bits + more)[t[i].1..] == bits[t[i].1..] + more;
    if i != EOS {
      PrependTwice(out, [i], DecodeBits(t, bits[t[i].1..] + more));
    }
  }

  /** A symbol whose code the unread bits start with is taken off them. */
  lemma TakeAt(t: Table, goal: Result<seq<Byte>>, out: seq<Byte>, acc: nat, len: nat, more: seq<bool>, i: nat)
    requires Sized(t) && PrefixFree(t) && i < 257 && CodeBits(t, i) <= Bits(acc, len)
    requires Remaining(t, goal, out, Bits(acc, len) + more)
    ensures t[i].1 <= len && (i == EOS ==> goal == Err)
    ensures i != EOS ==> Remaining(t, goal, out + [i], Bits(acc, len - t[i].1) + more)
  {
    assert |CodeBits(t, i)| == t[i].1;
    TakeSymbol(t, goal, out, Bits(acc, len), more, i);
    BitsSuffix(acc, t[i].1, len - t[i].1);
  }

  /** No code is shorter than five bits. */
  lemma ShortIsNoCode(t: Table, bits: seq<bool>)
    requires Sized(t) && |bits| < 5
    ensures NoCode(t, bits)
  {
    forall i | 0 <= i < |t|
      ensures !(CodeBits(t, i) <= bits)
    {
      assert |CodeBits(t, i)| == t[i].1;
    }
  }

  lemma NothingToPull(t: Table, goal: Result<seq<Byte>>, out: seq<Byte>, acc: nat, len: nat, rest: seq<Byte>)
    requires Sized(t) && Complete(t) && acc < U64 && NoCode(t, Bits(acc, len))
    requires Remaining(t, goal, out, Bits(acc, len) + Unpack(rest))
    ensures Waiting(t, goal, out, acc, len, rest)
  {
    FewBitsWait(t, Bits(acc, len));
  }

  /** Between input bytes: at most 29 unread bits, none of them a code, and `rest` still to come. */
  ghost predicate Waiting(t: Table, goal: Result<seq<Byte>>, out: seq<Byte>, acc: nat, accLen: nat, rest: seq<Byte>)
    requires Sized(t)
  {
    && accLen <= 29 && acc < U64
    && NoCode(t, Bits(acc, accLen))
    && Remaining(t, goal, out, Bits(acc, accLen) + Unpack(rest))
  }

  /** Pulls as many symbols as the accumulator holds; `None` reports an EOS symbol. */
  method PullSymbols(t: Table, acc: nat, accLen: nat, out: seq<Byte>, ghost goal: Result<seq<Byte>>,
                     ghost rest: seq<Byte>)
    returns (r: Option<(nat, seq<Byte>)>)
    requires Sized(t) && PrefixFree(t) && Complete(t) && accLen <= 37 && acc < U64
    requires Remaining(t, goal, out, Bits(acc, accLen) + Unpack(rest))
    ensures r.None? ==> goal == Err
    ensures r.Some? ==> Waiting(t, goal, r.value.1, acc, r.value.0, rest)
  {
    ghost var more := Unpack(rest);
    var len: nat, res: seq<Byte> := accLen, out;
    while len >= 5
      invariant Remaining(t, goal, res, Bits(acc, len) + more)
    {
      var found := MatchSymbol(t, acc, len);
      if found.None? {
        NothingToPull(t, goal, res, acc, len, rest);
        return Some((len, res));
      }
      var sym := found.value;
      var n := t[sym].1;
      TakeAt(t, goal, res, acc, len, more, sym);
      if sym == EOS {
        return None;
      }
      res := res + [sym];
      len := len - n;
    }
    ShortIsNoCode(t, Bits(acc, len));
    NothingToPull(t, goal, res, acc, len, rest);
    return Some((len, res));
  }

  lemma Untouched(t: Table, rest: seq<Byte>)
    requires Sized(t)
    ensures Waiting(t, DecodeString(t, rest), [], 0, 0, rest)
  {
    assert Bits(0, 0) + Unpack(rest) == Unpack(rest);
    var r := DecodeString(t, rest);
    assert r.Ok? ==> [] + r.value == r.value;
  }

  lemma NextByte(t: Table, goal: Result<seq<Byte>>, out: seq<Byte>, acc: nat, accLen: nat, rest: seq<Byte>)
    requires Sized(t) && rest != [] && Waiting(t, goal, out, acc, accLen, rest)
    ensures acc * 256 % U64 + rest[0] < U64
    ensures Remaining(t, goal, out, Bits(acc * 256 % U64 + rest[0], accLen + 8) + Unpack(rest[1..]))
  {
    PushByte(acc, accLen, rest[0]);
    Associate(Bits(acc, accLen), Bits(rest[0], 8), Unpack(rest[1..]));
  }

  /** One turn of the outer loop: shift a byte in, pull out every symbol now complete. */
  method AbsorbByte(t: Table, acc: nat, accLen: nat, out: seq<Byte>, b: Byte, ghost goal: Result<seq<Byte>>,
                    ghost rest: seq<Byte>)
    returns (acc': nat, r: Option<(nat, seq<Byte>)>)
    requires Sized(t) && PrefixFree(t) && Complete(t)
    requires rest != [] && rest[0] == b && Waiting(t, goal, out, acc, accLen, rest)
    ensures r.None? ==> goal == Err
    ensures r.Some? ==> Waiting(t, goal, r.value.1, acc', r.value.0, rest[1..])
  {
    NextByte(t, goal, out, acc, accLen, rest);
    acc' := acc * 256 % U64 + b;
    r := PullSymbols(t, acc', accLen + 8, out, goal, rest[1..]);
  }

  /** The tail is accepted when it is shorter than an octet and all ones, compared as numbers. */
  lemma TailVerdict(t: Table, goal: Result<seq<Byte>>, out: seq<Byte>, acc: nat, accLen: nat)
    requires Sized(t) && Waiting(t, goal, out, acc, accLen, [])
    ensures goal == if accLen < 8 && Low(acc, accLen) == Pow2(accLen) - 1 then Ok(out) else Err
  {
    ValueOfBits(acc, accLen);
    BitsOfValue(Bits(acc, accLen));
    BitsOfValue(Ones(accLen));
    ValueOfOnes(accLen);
    assert Bits(acc, accLen) + Unpack([]) == Bits(acc, accLen);
    assert out + [] == out;
  }

  method HuffmanDecode(t: Table, input: seq<Byte>) returns (r: Result<seq<Byte>>)
    requires ValidTable(t)
    ensures r == DecodeString(t, input)
  {
    var out: seq<Byte> := [];
    var acc: nat, accLen: nat := 0, 0;
    ghost var goal := DecodeString(t, input);
    ghost var rest := input;
    Untouched(t, rest);
    for n := 0 to |input|
      invariant rest == input[n..]
      invariant Waiting(t, goal, out, acc, accLen, rest)
    {
      var pulled;
      acc, pulled := AbsorbByte(t, acc, accLen, out, input[n], goal, rest);
      if pulled.None? {
        return Err;
      }
      accLen, out := pulled.value.0, pulled.value.1;
      rest := rest[1..];
    }
    TailVerdict(t, goal, out, acc, accLen);
    var padded := CheckPadding(acc, accLen);
    r := if padded then Ok(out) else Err;
  }

  method CheckPadding(acc: nat, accLen: nat) returns (ok: bool)
    ensures ok <==> accLen < 8 && Low(acc, accLen) == Pow2(accLen) - 1
  {
    if accLen >= 8 {
      return false;
    }
    if accLen > 0 {
      var padMask := Pow2(accLen) - 1;
      var tail := Low(acc, accLen);
      if tail != padMask {
        return false;
      }
    }
    return true;
  }

  lemma PrependTwice(x: seq<Byte>, y: seq<Byte>, r: Result<seq<Byte>>)
    ensures Prepend(x, Prepend(y, r)) == Prepend(x + y, r)
  {
    if r.Ok? {
      assert x + (y + r.value) == x + y + r.value;
    }
  }

  // ----- the encoder: codes are or-ed into a zeroed buffer at a bit cursor -----

  /** The bits of octet `j` that lie before the cursor `p`. */
  function Window(bits: seq<bool>, p: nat, j: nat): (w: seq<bool>)
    requires p <= |bits|
    ensures |w| <= 8
  {
    bits[Min(8 * j, p)..Min(8 * j + 8, p)]
  }

  /** The buffer holds the first `p` bits, zeros after them. */
  ghost predicate Filled(out: seq<Byte>, bits: seq<bool>, p: nat)
  {
    && p <= |bits|
    && |out| == (|bits| + 7) / 8
    && forall j :: 0 <= j < |out| ==> out[j] == LeftOctet(Window(bits, p, j))
  }

  /** Writing `take` bits that stay within one octet moves the cursor by `take`. */
  lemma WriteChunk(out: seq<Byte>, bits: seq<bool>, p: nat, take: nat, out': seq<Byte>)
    requires Filled(out, bits, p) && 0 < take <= 8 - p % 8 && p + take <= |bits|
    requires |out'| == |out| && forall j :: 0 <= j < |out| && j != p / 8 ==> out'[j] == out[j]
    requires out'[p / 8] == BitOr(out[p / 8], Shl(Value(bits[p..p + take]), 8 - p % 8 - take))
    ensures Filled(out', bits, p + take)
  {
    forall j | 0 <= j < |out|
      ensures out'[j] == LeftOctet(Window(bits, p + take, j))
    {
      if j == p / 8 {
        OctetGrows(bits, p, take, 8 - p % 8 - take);
      } else {
        assert Window(bits, p + take, j) == Window(bits, p, j);
      }
    }
  }

  lemma OctetGrows(bits: seq<bool>, p: nat, take: nat, k: nat)
    requires take > 0 && p % 8 + take + k == 8 && p + take <= |bits|
    ensures BitOr(LeftOctet(Window(bits, p, p / 8)), Shl(Value(bits[p..p + take]), k))
         == LeftOctet(Window(bits, p + take, p / 8))
  {
    WindowGrows(bits, p, take);
    OrChunk(Window(bits, p, p / 8), bits[p..p + take], k);
  }

  lemma WindowGrows(bits: seq<bool>, p: nat, take: nat)
    requires 0 < take <= 8 - p % 8 && p + take <= |bits|
    ensures Window(bits, p, p / 8) + bits[p..p + take] == Window(bits, p + take, p / 8)
    ensures |Window(bits, p, p / 8)| == p % 8
  {
    var lo := 8 * (p / 8);
    assert Window(bits, p, p / 8) == bits[lo..p];
    assert Window(bits, p + take, p / 8) == bits[lo..p + take];
  }

  /** The top `take` bits of a code fragment, and what the mask leaves of it. */
  lemma SplitCode(code: nat, take: nat, shift: nat, frag: seq<bool>)
    requires code < Pow2(take + shift) && Bits(code, take + shift) == frag
    ensures Low(Shr(code, shift), take) == Value(frag[..take])
    ensures Bits(Low(code, shift), shift) == frag[take..]
    ensures Low(code, shift) < Pow2(shift)
  {
    TopBits(code, take, shift);
    var chunk := Low(Shr(code, shift), take);
    ValueOfBits(chunk, take);
    LowBelow(chunk, take);
    BitsOfLow(code, shift);
    BitsSuffix(code, take, shift);
  }

  lemma SplitSlice(bits: seq<bool>, p: nat, take: nat, end: nat)
    requires p + take <= end <= |bits|
    ensures bits[p..end][..take] == bits[p..p + take] && bits[p..end][take..] == bits[p + take..end]
  {
  }

  lemma {:induction false} EncodeBitsConcat(t: Table, x: seq<Byte>, y: seq<Byte>)
    requires |t| == 257
    ensures EncodeBits(t, x + y) == EncodeBits(t, x) + EncodeBits(t, y)
  {
    if x == [] {
      assert x + y == y;
    } else {
      EncodeBitsConcat(t, x[1..], y);
      assert (x + y)[1..] == x[1..] + y;
      Associate(CodeBits(t, x[0]), EncodeBits(t, x[1..]), EncodeBits(t, y));
    }
  }

  /** The code of symbol `i` sits right after the codes of the symbols before it. */
  lemma CodePosition(t: Table, s: seq<Byte>, i: nat)
    requires |t| == 257 && i < |s|
    ensures var p := |EncodeBits(t, s[..i])|;
            && |EncodeBits(t, s[..i + 1])| == p + t[s[i]].1 <= |EncodeBits(t, s)|
            && EncodeBits(t, s)[p..p + t[s[i]].1] == CodeBits(t, s[i])
  {
    EncodeBitsConcat(t, s[..i], s[i..]);
    EncodeBitsConcat(t, s[..i], [s[i]]);
    assert s[..i] + s[i..] == s && s[..i] + [s[i]] == s[..i + 1];
    assert EncodeBits(t, [s[i]]) == CodeBits(t, s[i]);
  }

  lemma PackFirst(bits: seq<bool>)
    requires bits != []
    ensures var w := Window(bits, |bits|, 0);
            Pack(bits)[0] == OctetOf(w + Ones(8 - |w|))
  {
    var w := Window(bits, |bits|, 0);
    if |bits| < 8 {
      assert w == bits;
    } else {
      assert w + Ones(0) == bits[..8];
    }
  }

  lemma {:induction false} PackAt(bits: seq<bool>, j: nat)
    requires j < (|bits| + 7) / 8
    ensures var w := Window(bits, |bits|, j);
            Pack(bits)[j] == OctetOf(w + Ones(8 - |w|))
    decreases j
  {
    if j == 0 {
      PackFirst(bits);
    } else {
      PackAt(bits[8..], j - 1);
      WindowShift(bits, j);
      assert Pack(bits)[j] == Pack(bits[8..])[j - 1];
    }
  }

  lemma WindowShift(bits: seq<bool>, j: nat)
    requires |bits| >= 8 && j > 0
    ensures Window(bits[8..], |bits| - 8, j - 1) == Window(bits, |bits|, j)
  {
    var lo, hi := Min(8 * j, |bits|), Min(8 * j + 8, |bits|);
    assert Window(bits[8..], |bits| - 8, j - 1) == bits[8..][lo - 8..hi - 8];
  }

  /** A full buffer holds the whole bit string once its last octet is completed with ones. */
  lemma FilledIsPacked(out: seq<Byte>, bits: seq<bool>, n: nat, out': seq<Byte>)
    requires Filled(out, bits, |bits|) && n == PadLength(|bits|) && |out'| == |out|
    requires forall j :: 0 <= j < |out| - 1 ==> out'[j] == out[j]
    requires out != [] ==> out'[|out| - 1] == BitOr(out[|out| - 1], Pow2(n) - 1)
    ensures out' == Pack(bits)
  {
    var packed := Pack(bits);
    forall j | 0 <= j < |out|
      ensures out'[j] == packed[j]
    {
      PackedAt(out, bits, n, out'[j], j);
    }
  }

  lemma PackedAt(out: seq<Byte>, bits: seq<bool>, n: nat, b: Byte, j: nat)
    requires Filled(out, bits, |bits|) && n == PadLength(|bits|) && j < |out|
    requires b == if j < |out| - 1 then out[j] else BitOr(out[j], Pow2(n) - 1)
    ensures b == Pack(bits)[j]
  {
    assert out[j] == LeftOctet(Window(bits, |bits|, j));
    if j < |out| - 1 {
      InnerOctet(bits, j);
    } else {
      LastOctet(bits, j, n);
    }
  }

  lemma InnerOctet(bits: seq<bool>, j: nat)
    requires j < (|bits| + 7) / 8 - 1
    ensures LeftOctet(Window(bits, |bits|, j)) == Pack(bits)[j]
  {
    var w := Window(bits, |bits|, j);
    PackAt(bits, j);
    WindowSize(bits, j);
    assert w + Ones(0) == w;
  }

  lemma LastOctet(bits: seq<bool>, j: nat, n: nat)
    requires j == (|bits| + 7) / 8 - 1 && n == PadLength(|bits|)
    ensures BitOr(LeftOctet(Window(bits, |bits|, j)), Pow2(n) - 1) == Pack(bits)[j]
  {
    var w := Window(bits, |bits|, j);
    PackAt(bits, j);
    WindowSize(bits, j);
    OrOnes(w, n);
  }

  lemma WindowSize(bits: seq<bool>, j: nat)
    requires j < (|bits| + 7) / 8
    ensures j < (|bits| + 7) / 8 - 1 ==> |Window(bits, |bits|, j)| == 8
    ensures j == (|bits| + 7) / 8 - 1 ==> |Window(bits, |bits|, j)| == 8 - PadLength(|bits|)
  {
    if |bits| % 8 == 0 {
    } else {
      assert |bits| == 8 * (|bits| / 8) + |bits| % 8;
    }
  }

  /** Or-s the next chunk of a code, as much of it as fits the current octet, into the buffer. */
  method WriteTop(out: array<Byte>, codeLeft: nat, remaining: nat, pos: nat, ghost bits: seq<bool>, ghost end: nat)
      returns (take: nat)
    requires 0 < remaining && pos + remaining == end <= |bits|
    requires codeLeft < Pow2(remaining) && Bits(codeLeft, remaining) == bits[pos..end]
    requires Filled(out[..], bits, pos)
    modifies out
    ensures 0 < take <= remaining && Filled(out[..], bits, pos + take)
    ensures Low(codeLeft, remaining - take) < Pow2(remaining - take)
    ensures Bits(Low(codeLeft, remaining - take), remaining - take) == bits[pos + take..end]
  {
    var byteIndex, spaceInByte := pos / 8, 8 - pos % 8;
    take := Min(remaining, spaceInByte);
    var shift := remaining - take;
    SplitCode(codeLeft, take, shift, bits[pos..end]);
    SplitSlice(bits, pos, take, end);
    OctetGrows(bits, pos, take, spaceInByte - take);
    var chunk := Low(Shr(codeLeft, shift), take);
    ghost var before := out[..];
    out[byteIndex] := BitOr(out[byteIndex], Shl(chunk, spaceInByte - take));
    WriteChunk(before, bits, pos, take, out[..]);
  }

  /** Or-s the code of one symbol into the buffer, octet by octet. */
  method WriteCode(t: Table, out: array<Byte>, sym: Byte, bitPos: nat, ghost bits: seq<bool>) returns (pos: nat)
    requires Sized(t) && Filled(out[..], bits, bitPos)
    requires bitPos + t[sym].1 <= |bits| && bits[bitPos..bitPos + t[sym].1] == CodeBits(t, sym)
    modifies out
    ensures pos == bitPos + t[sym].1 && Filled(out[..], bits, pos)
  {
    var remaining: nat, codeLeft: nat := t[sym].1, t[sym].0;
    pos := bitPos;
    ghost var end := bitPos + remaining;
    while remaining > 0
      invariant pos + remaining == end && codeLeft < Pow2(remaining)
      invariant Bits(codeLeft, remaining) == bits[pos..end]
      invariant Filled(out[..], bits, pos)
    {
      var take := WriteTop(out, codeLeft, remaining, pos, bits, end);
      remaining := remaining - take;
      codeLeft := Low(codeLeft, remaining);
      pos := pos + take;
    }
  }

  /** Bit length of the encoding, summed before the buffer is allocated. */
  method TotalBits(t: Table, input: seq<Byte>) returns (n: nat)
    requires |t| == 257
    ensures n == |EncodeBits(t, input)|
  {
    n := 0;
    for i := 0 to |input|
      invariant n == |EncodeBits(t, input[..i])|
    {
      CodePosition(t, input, i);
      n := n + t[input[i]].1;
    }
    assert input[..|input|] == input;
  }

  /** Completes the last octet with ones. */
  method PadBuffer(out: array<Byte>, totalBits: nat, ghost bits: seq<bool>)
    requires totalBits == |bits| && Filled(out[..], bits, totalBits)
    modifies out
    ensures out[..] == Pack(bits)
  {
    var trailing := (8 - totalBits % 8) % 8;
    ghost var before := out[..];
    if trailing > 0 {
      var last := out.Length - 1;
      LastOctet(bits, last, trailing);
      out[last] := BitOr(out[last], Pow2(trailing) - 1);
    } else if out.Length > 0 {
      BitOrZero(out[out.Length - 1]);
    }
    FilledIsPacked(before, bits, trailing, out[..]);
  }

  method HuffmanEncode(t: Table, input: seq<Byte>) returns (r: seq<Byte>)
    requires Sized(t)
    ensures r == EncodeString(t, input)
  {
    ghost var bits := EncodeBits(t, input);
    var totalBits := TotalBits(t, input);
    var out := new Byte[(totalBits + 7) / 8](_ => 0);
    var bitPos := 0;
    EmptyBuffer(out[..], bits);
    for i := 0 to |input|
      invariant bitPos == |EncodeBits(t, input[..i])| && Filled(out[..], bits, bitPos)
    {
      CodePosition(t, input, i);
      bitPos := WriteCode(t, out, input[i], bitPos, bits);
    }
    assert input[..|input|] == input;
    PadBuffer(out, totalBits, bits);
    r := out[..];
  }

  lemma EmptyBuffer(out: seq<Byte>, bits: seq<bool>)
    requires |out| == (|bits| + 7) / 8 && forall j :: 0 <= j < |out| ==> out[j] == 0
    ensures Filled(out, bits, 0)
  {
    ShlIsProduct(0, 8);
    forall j | 0 <= j < |out|
      ensures LeftOctet(Window(bits, 0, j)) == 0
    {
      assert Window(bits, 0, j) == [];
    }
  }
}

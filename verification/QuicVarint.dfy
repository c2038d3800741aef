/**
 * Variable-length integers and stream types (section 16 of RFC 9000, section 4.2 of RFC 9204): every form of a number
 * reads as that number, and only a stream of type 2 carries instructions.
 */
module QuicVarint {
  import opened Common
  import opened QpackCodec

  /** `n` bytes, most significant first. */
  function Bytes(v: nat, n: nat): (b: seq<Byte>)
    ensures |b| == n
  {
    if n == 0 then [] else Bytes(v / 256, n - 1) + [v % 256]
  }

  function Pow256(n: nat): (p: nat)
    ensures p > 0
  {
    if n == 0 then 1 else 256 * Pow256(n - 1)
  }

  /** A number in 1, 2, 4 or 8 bytes: the two high bits of the first say which. */
  predicate Fits(v: nat, n: nat) { (n == 1 || n == 2 || n == 4 || n == 8) && v < 64 * Pow256(n - 1) }

  function SizeBits(n: nat): nat { if n == 1 then 0x00 else if n == 2 then 0x40 else if n == 4 then 0x80 else 0xC0 }

  lemma {:induction false} FirstIsSmall(v: nat, n: nat, k: nat)
    requires n > 0 && v < k * Pow256(n - 1)
    ensures Bytes(v, n)[0] < k
  {
    if n > 1 {
      assert k * Pow256(n - 1) == 256 * (k * Pow256(n - 2));
      FirstIsSmall(v / 256, n - 1, k);
    }
  }

  lemma {:induction false} BytesValue(v: nat, n: nat)
    requires v < Pow256(n)
    ensures BigEndian(Bytes(v, n)) == v
  {
    if n > 0 {
      BytesValue(v / 256, n - 1);
    }
  }

  function Varint(v: nat, n: nat): (b: seq<Byte>)
    requires Fits(v, n)
    ensures |b| == n
  {
    FirstIsSmall(v, n, 64);
    [Bytes(v, n)[0] + SizeBits(n)] + Bytes(v, n)[1..]
  }

  /** Every form of a number is read as the number, whatever follows. */
  lemma VarintReads(v: nat, n: nat, more: seq<Byte>)
    requires Fits(v, n)
    ensures DecodeVarint(Varint(v, n) + more) == Ok((v, n))
  {
    var b, buf := Bytes(v, n), Varint(v, n) + more;
    FirstIsSmall(v, n, 64);
    BytesValue(v, n);
    SizeBitsRead(b[0], n);
    assert [b[0] as nat] + buf[1..n] == b;
  }

  lemma SizeBitsRead(b: Byte, n: nat)
    requires b < 64 && (n == 1 || n == 2 || n == 4 || n == 8)
    ensures VarintLength(b + SizeBits(n)) == n && (b + SizeBits(n)) % 64 == b
  {
  }

  /** A number that has not arrived in full is not read. */
  lemma CutVarintWaits(v: nat, n: nat, k: nat)
    requires Fits(v, n) && k < n
    ensures DecodeVarint(Varint(v, n)[..k]) == Err
  {
    FirstIsSmall(v, n, 64);
    SizeBitsRead(Bytes(v, n)[0], n);
  }

  /** The type comes first, in any form, and the rest is the stream's own. */
  lemma TypeReads(v: nat, n: nat, body: seq<Byte>)
    requires Fits(v, n)
    ensures Typed(None, Varint(v, n) + body) == (Some(v), body)
  {
    VarintReads(v, n, body);
    assert (Varint(v, n) + body)[n..] == body;
  }
}

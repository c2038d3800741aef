/** How long an encoded header block can be: no longer than its fields count against the list cap, and six bytes. */
module HpackSize {
  import opened Common
  import opened Fields
  import opened HpackTable
  import opened Hpack
  import opened HpackRuns
  import PI = PrefixInteger
  import H = Huffman

  lemma {:induction false} TailIsShort(rem: nat, k: nat)
    requires 1 <= k <= 5 && rem < Power128(k)
    ensures |PI.EncodeTail(rem)| <= k
    decreases k
  {
    if rem >= 128 {
      TailIsShort(rem / 128, k - 1);
    }
  }

  function Power128(k: nat): nat
    requires k <= 5
  {
    if k == 0 then 1 else if k == 1 then 0x80 else if k == 2 then 0x4000 else if k == 3 then 0x20_0000
    else if k == 4 then 0x1000_0000 else 0x8_0000_0000
  }

  lemma IntegerIsShort(v: nat, p: nat)
    requires 1 <= p <= 8 && v < 0x1_0000_0000
    ensures |PI.Encode(v, p)| <= 6
  {
    if v >= PI.Limit(p) {
      TailIsShort(v - PI.Limit(p), 5);
    }
  }

  lemma LiteralIsShort(c: Tables, s: seq<Byte>)
    requires |c.huffman| == 257 && |s| < 0x1_0000_0000
    ensures |EncodeLiteral(c, s)| <= |s| + 6
  {
    var huff := H.EncodeString(c.huffman, s);
    if |huff| < |s| {
      IntegerIsShort(|huff|, 7);
    } else {
      IntegerIsShort(|s|, 7);
    }
  }

  lemma LineIsShort(c: Tables, e: EncoderState, f: Field)
    requires ValidTables(c) && |e.entries| < 0x1000_0000 && EntrySize(f) <= MAX_DECODED_HEADER_LIST
    ensures |EncodeLine(c, e, f).0| <= EntrySize(f)
  {
    var full, name := FullIndex(c, e.entries, f), NameIndex(c, e.entries, f.name);
    LiteralIsShort(c, f.value);
    LiteralIsShort(c, f.name);
    if full.Some? {
      IntegerIsShort(full.value, 7);
    } else if name.Some? {
      IntegerIsShort(name.value, 6);
    }
  }

  /** A block of a mirrored encoder. */
  lemma {:induction false} BlockIsShort(c: Tables, e: EncoderState, d: DecoderState, fs: seq<Field>)
    requires ValidTables(c) && Mirror(e, d) && ListSize(fs) <= MAX_DECODED_HEADER_LIST
    requires forall f :: f in fs ==> ValidText(c, f)
    ensures |EncodeBlock(c, e, fs).0| <= ListSize(fs) + 6
    ensures e.pending.None? ==> |EncodeBlock(c, e, fs).0| <= ListSize(fs)
    decreases |fs|
  {
    if fs != [] {
      assert fs == [fs[0]] + fs[1..];
      SizeFront(fs[0], fs[1..]);
      EntriesBound(e, d);
      LineIsShort(c, e.(pending := None), fs[0]);
      if e.pending.Some? {
        IntegerIsShort(e.cap, 5);
      }
      var more := EncodeBlock(c, EncodeHeader(c, e, fs[0]).1, fs[1..]).0;
      assert [] + fs[0..1] == [fs[0]] && [] + [fs[0]] == [fs[0]] && [fs[0]][..0] == [];
      var d0 := HeaderAgrees(c, e, d, fs[0], more, []);
      BlockIsShort(c, EncodeHeader(c, e, fs[0]).1, d0, fs[1..]);
    }
  }
}

/** String literals as a peer may write them (section 5.2 of RFC 7541): raw or Huffman-coded, as it likes. */
module Spellings {
  import opened Common
  import opened HpackRuns
  import Hpack
  import PI = PrefixInteger
  import H = Huffman

  /** A text as it is written: raw, or as the one Huffman encoding that decodes to it. */
  datatype Spelling = Spelling(text: seq<Byte>, huffman: bool)

  /** The bytes after the length. */
  function Written(c: Hpack.Tables, s: Spelling): seq<Byte>
    requires |c.huffman| == 257
  {
    if s.huffman then H.EncodeString(c.huffman, s.text) else s.text
  }

  function EncodeSpelled(c: Hpack.Tables, s: Spelling): (out: seq<Byte>)
    requires |c.huffman| == 257
  {
    Hpack.Flagged(PI.Encode(|Written(c, s)|, 7), if s.huffman then 0x80 else 0) + Written(c, s)
  }

  /** Text whose bytes a machine can count. */
  predicate Spellable(c: Hpack.Tables, s: Spelling)
  {
    |c.huffman| == 257 && c.isText(s.text) && |Written(c, s)| < U64
  }

  lemma Flags7(e: Byte, flag: nat)
    requires e <= 127 && (flag == 0 || flag == 0x80)
    ensures PI.LowBits(e + flag, 7) == e
  {
  }

  lemma SpelledReads(c: Hpack.Tables, s: Spelling, more: seq<Byte>)
    requires ValidTables(c) && Spellable(c, s)
    ensures Hpack.ReadString(c, EncodeSpelled(c, s) + more) == Ok((s.text, |EncodeSpelled(c, s)|))
  {
    var raw, flag := Written(c, s), if s.huffman then 0x80 else 0;
    var e := PI.Encode(|raw|, 7);
    if s.huffman {
      HuffmanTextRoundTrip(c, s.text);
    }
    Flags7(e[0], flag);
    FlaggedRead(|raw|, 7, flag, raw + more);
    ReadBody(c, Hpack.Flagged(e, flag), raw, more, s.text);
  }

  /** A literal that is no text is refused. */
  lemma NoTextRefused(c: Hpack.Tables, s: Spelling, more: seq<Byte>)
    requires ValidTables(c) && |Written(c, s)| < U64 && !c.isText(s.text)
    ensures Hpack.ReadString(c, EncodeSpelled(c, s) + more) == Err
  {
    var raw, flag := Written(c, s), if s.huffman then 0x80 else 0;
    var e := PI.Encode(|raw|, 7);
    if s.huffman {
      HuffmanTextRoundTrip(c, s.text);
    }
    Flags7(e[0], flag);
    FlaggedRead(|raw|, 7, flag, raw + more);
    var head := Hpack.Flagged(e, flag);
    assert head + raw + more == head + (raw + more);
    BodyRefused(c, head, raw, more);
  }

  lemma BodyRefused(c: Hpack.Tables, head: seq<Byte>, raw: seq<Byte>, more: seq<Byte>)
    requires head != [] && PI.DecodeIntSpec(head + raw + more, 7) == Ok((|raw|, |head|))
    requires var text := if head[0] >= 0x80 then Hpack.HuffmanText(c, raw) else Ok(raw);
             text.Ok? ==> !c.isText(text.value)
    ensures Hpack.ReadString(c, head + raw + more) == Err
  {
    var buf := head + raw + more;
    assert buf[0] == head[0] && buf[|head|..|head| + |raw|] == raw;
  }

  /** A literal that was cut short is refused. */
  lemma CutIsRefused(c: Hpack.Tables, s: Spelling, k: nat)
    requires |c.huffman| == 257 && k < |Written(c, s)| < U64
    ensures var e := Hpack.Flagged(PI.Encode(|Written(c, s)|, 7), if s.huffman then 0x80 else 0);
            Hpack.ReadString(c, e + Written(c, s)[..k]) == Err
  {
    var raw, flag := Written(c, s), if s.huffman then 0x80 else 0;
    Flags7(PI.Encode(|raw|, 7)[0], flag);
    FlaggedRead(|raw|, 7, flag, raw[..k]);
  }
}

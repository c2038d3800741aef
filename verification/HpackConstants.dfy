/** HPACK with the client's own constants. */
module HpackConstants {
  import opened Common
  import opened Fields
  import opened Hpack
  import opened HpackRuns
  import opened HpackReach
  import HT = HuffmanTable
  import StaticTables

  /** The static table of Appendix A, the Huffman code of Appendix B, and UTF-8 text. */
  function HpackTables(): Tables
  {
    Tables(StaticTables.HPACK_STATIC, HT.HuffmanCodes(), Utf8)
  }

  lemma HpackTablesValid()
    ensures ValidTables(HpackTables())
  {
    StaticTables.StaticSizes();
    HT.HuffmanIsValid();
  }

  function Xs(n: nat): seq<Byte> { seq(n, _ => 0x78) }

  lemma {:induction false} XsIsText(n: nat)
    ensures Utf8(Xs(n))
  {
    if n > 0 {
      XsIsText(n - 1);
      assert Xs(n)[0] == 0x78 && Xs(n)[1..] == Xs(n - 1);
    }
  }

  /** Two fields of 2048 and 2049 octets. */
  function FieldA(): Field { Field([0x61], Xs(2015)) }

  function FieldB(): Field { Field([0x62], Xs(2016)) }

  lemma LongFieldsWitness(c: Tables)
    requires c.isText == Utf8 && forall f :: f in c.fields ==> |f.value| < 100
    ensures Witnesses(c, FieldA(), FieldB())
  {
    XsIsText(2015);
    XsIsText(2016);
    assert Utf8([0x61][1..]) && Utf8([0x62][1..]);
  }

  /** The client's decoder recovers every run of the client's encoder exactly up to a table of 4096 octets. */
  lemma HpackBound(bound: nat)
    ensures ValidTables(HpackTables())
    ensures Recovers(HpackTables(), bound) <==> bound <= 4096
  {
    HpackTablesValid();
    StaticTables.HpackValuesShort();
    LongFieldsWitness(HpackTables());
    RecoversExactly(HpackTables(), bound, FieldA(), FieldB());
  }

  /** For one run: it is recovered exactly when the decoder's table reaches every index in it. */
  lemma HpackRun(ops: seq<Op>)
    requires Possible(HpackTables(), ops)
    ensures ValidTables(HpackTables())
    ensures Received(HpackTables(), FRESH_ENCODER, FRESH_DECODER, ops) == Sent(ops)
            <==> RunReaches(HpackTables(), FRESH_ENCODER, FRESH_DECODER, ops)
  {
    HpackTablesValid();
    RunRecoveredExactly(HpackTables(), ops);
  }
}

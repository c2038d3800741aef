/** QPACK with the client's own constants. */
module QpackConstants {
  import opened Common
  import opened QpackFields
  import opened HpackRuns
  import Hpack
  import HT = HuffmanTable
  import StaticTables

  /** The static table of Appendix A of RFC 9204, the Huffman code of RFC 7541, and UTF-8 text. */
  function QpackTables(): Hpack.Tables
  {
    Hpack.Tables(StaticTables.QPACK_STATIC, HT.HuffmanCodes(), Utf8)
  }

  lemma QpackTablesValid()
    ensures ValidTables(QpackTables())
  {
    StaticTables.StaticSizes();
    HT.HuffmanIsValid();
  }

  /** The client's decoder recovers every list of text fields within the cap from the client's encoder. */
  lemma QpackRoundTrips()
    ensures RoundTrips(QpackTables())
  {
    QpackTablesValid();
    AllSectionsRoundTrip(QpackTables());
  }
}

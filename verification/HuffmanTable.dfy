/** The Huffman code of Appendix B of RFC 7541: the constant table, and why it is a complete prefix code. */
module HuffmanTable {
  import opened Common
  import opened BitStrings
  import opened Huffman

  /** `(code, bit length)` by symbol, eight symbols to a row; EOS has the last row to itself. */
  function RowsTo7(r: nat): (row: Table)
    requires 0 <= r <= 7
    ensures |row| == 8
  {
    match r
    case 0 => [(0x1ff8, 13), (0x7fffd8, 23), (0xfffffe2, 28), (0xfffffe3, 28), (0xfffffe4, 28), (0xfffffe5, 28),
               (0xfffffe6, 28), (0xfffffe7, 28)]
    case 1 => [(0xfffffe8, 28), (0xffffea, 24), (0x3ffffffc, 30), (0xfffffe9, 28), (0xfffffea, 28), (0x3ffffffd, 30),
               (0xfffffeb, 28), (0xfffffec, 28)]
    case 2 => [(0xfffffed, 28), (0xfffffee, 28), (0xfffffef, 28), (0xffffff0, 28), (0xffffff1, 28), (0xffffff2, 28),
               (0x3ffffffe, 30), (0xffffff3, 28)]
    case 3 => [(0xffffff4, 28), (0xffffff5, 28), (0xffffff6, 28), (0xffffff7, 28), (0xffffff8, 28), (0xffffff9, 28),
               (0xffffffa, 28), (0xffffffb, 28)]
    case 4 => [(0x14, 6), (0x3f8, 10), (0x3f9, 10), (0xffa, 12), (0x1ff9, 13), (0x15, 6), (0xf8, 8), (0x7fa, 11)]
    case 5 => [(0x3fa, 10), (0x3fb, 10), (0xf9, 8), (0x7fb, 11), (0xfa, 8), (0x16, 6), (0x17, 6), (0x18, 6)]
    case 6 => [(0x0, 5), (0x1, 5), (0x2, 5), (0x19, 6), (0x1a, 6), (0x1b, 6), (0x1c, 6), (0x1d, 6)]
    case _ => [(0x1e, 6), (0x1f, 6), (0x5c, 7), (0xfb, 8), (0x7ffc, 15), (0x20, 6), (0xffb, 12), (0x3fc, 10)]
  }

  function RowsTo15(r: nat): (row: Table)
    requires 8 <= r <= 15
    ensures |row| == 8
  {
    match r
    case 8 => [(0x1ffa, 13), (0x21, 6), (0x5d, 7), (0x5e, 7), (0x5f, 7), (0x60, 7), (0x61, 7), (0x62, 7)]
    case 9 => [(0x63, 7), (0x64, 7), (0x65, 7), (0x66, 7), (0x67, 7), (0x68, 7), (0x69, 7), (0x6a, 7)]
    case 10 => [(0x6b, 7), (0x6c, 7), (0x6d, 7), (0x6e, 7), (0x6f, 7), (0x70, 7), (0x71, 7), (0x72, 7)]
    case 11 => [(0xfc, 8), (0x73, 7), (0xfd, 8), (0x1ffb, 13), (0x7fff0, 19), (0x1ffc, 13), (0x3ffc, 14), (0x22, 6)]
    case 12 => [(0x7ffd, 15), (0x3, 5), (0x23, 6), (0x4, 5), (0x24, 6), (0x5, 5), (0x25, 6), (0x26, 6)]
    case 13 => [(0x27, 6), (0x6, 5), (0x74, 7), (0x75, 7), (0x28, 6), (0x29, 6), (0x2a, 6), (0x7, 5)]
    case 14 => [(0x2b, 6), (0x76, 7), (0x2c, 6), (0x8, 5), (0x9, 5), (0x2d, 6), (0x77, 7), (0x78, 7)]
    case _ => [(0x79, 7), (0x7a, 7), (0x7b, 7), (0x7ffe, 15), (0x7fc, 11), (0x3ffd, 14), (0x1ffd, 13), (0xffffffc, 28)]
  }

  function RowsTo23(r: nat): (row: Table)
    requires 16 <= r <= 23
    ensures |row| == 8
  {
    match r
    case 16 => [(0xfffe6, 20), (0x3fffd2, 22), (0xfffe7, 20), (0xfffe8, 20), (0x3fffd3, 22), (0x3fffd4, 22),
                (0x3fffd5, 22), (0x7fffd9, 23)]
    case 17 => [(0x3fffd6, 22), (0x7fffda, 23), (0x7fffdb, 23), (0x7fffdc, 23), (0x7fffdd, 23), (0x7fffde, 23),
                (0xffffeb, 24), (0x7fffdf, 23)]
    case 18 => [(0xffffec, 24), (0xffffed, 24), (0x3fffd7, 22), (0x7fffe0, 23), (0xffffee, 24), (0x7fffe1, 23),
                (0x7fffe2, 23), (0x7fffe3, 23)]
    case 19 => [(0x7fffe4, 23), (0x1fffdc, 21), (0x3fffd8, 22), (0x7fffe5, 23), (0x3fffd9, 22), (0x7fffe6, 23),
                (0x7fffe7, 23), (0xffffef, 24)]
    case 20 => [(0x3fffda, 22), (0x1fffdd, 21), (0xfffe9, 20), (0x3fffdb, 22), (0x3fffdc, 22), (0x7fffe8, 23),
                (0x7fffe9, 23), (0x1fffde, 21)]
    case 21 => [(0x7fffea, 23), (0x3fffdd, 22), (0x3fffde, 22), (0xfffff0, 24), (0x1fffdf, 21), (0x3fffdf, 22),
                (0x7fffeb, 23), (0x7fffec, 23)]
    case 22 => [(0x1fffe0, 21), (0x1fffe1, 21), (0x3fffe0, 22), (0x1fffe2, 21), (0x7fffed, 23), (0x3fffe1, 22),
                (0x7fffee, 23), (0x7fffef, 23)]
    case _ => [(0xfffea, 20), (0x3fffe2, 22), (0x3fffe3, 22), (0x3fffe4, 22), (0x7ffff0, 23), (0x3fffe5, 22),
               (0x3fffe6, 22), (0x7ffff1, 23)]
  }

  function RowsTo32(r: nat): (row: Table)
    requires 24 <= r <= 32
    ensures |row| == if r < 32 then 8 else 1
  {
    match r
    case 24 => [(0x3ffffe0, 26), (0x3ffffe1, 26), (0xfffeb, 20), (0x7fff1, 19), (0x3fffe7, 22), (0x7ffff2, 23),
                (0x3fffe8, 22), (0x1ffffec, 25)]
    case 25 => [(0x3ffffe2, 26), (0x3ffffe3, 26), (0x3ffffe4, 26), (0x7ffffde, 27), (0x7ffffdf, 27), (0x3ffffe5, 26),
                (0xfffff1, 24), (0x1ffffed, 25)]
    case 26 => [(0x7fff2, 19), (0x1fffe3, 21), (0x3ffffe6, 26), (0x7ffffe0, 27), (0x7ffffe1, 27), (0x3ffffe7, 26),
                (0x7ffffe2, 27), (0xfffff2, 24)]
    case 27 => [(0x1fffe4, 21), (0x1fffe5, 21), (0x3ffffe8, 26), (0x3ffffe9, 26), (0xffffffd, 28), (0x7ffffe3, 27),
                (0x7ffffe4, 27), (0x7ffffe5, 27)]
    case 28 => [(0xfffec, 20), (0xfffff3, 24), (0xfffed, 20), (0x1fffe6, 21), (0x3fffe9, 22), (0x1fffe7, 21),
                (0x1fffe8, 21), (0x7ffff3, 23)]
    case 29 => [(0x3fffea, 22), (0x3fffeb, 22), (0x1ffffee, 25), (0x1ffffef, 25), (0xfffff4, 24), (0xfffff5, 24),
                (0x3ffffea, 26), (0x7ffff4, 23)]
    case 30 => [(0x3ffffeb, 26), (0x7ffffe6, 27), (0x3ffffec, 26), (0x3ffffed, 26), (0x7ffffe7, 27), (0x7ffffe8, 27),
                (0x7ffffe9, 27), (0x7ffffea, 27)]
    case 31 => [(0x7ffffeb, 27), (0xffffffe, 28), (0x7ffffec, 27), (0x7ffffed, 27), (0x7ffffee, 27), (0x7ffffef, 27),
                (0x7fffff0, 27), (0x3ffffee, 26)]
    case _ => [(0x3fffffff, 30)]
  }

  function Row(r: nat): (row: Table)
    requires r <= 32
    ensures |row| == if r < 32 then 8 else 1
  {
    if r <= 7 then RowsTo7(r) else if r <= 15 then RowsTo15(r) else if r <= 23 then RowsTo23(r) else RowsTo32(r)
  }

  function Entry(i: nat): (nat, nat)
    requires i <= EOS
  {
    Row(i / 8)[i % 8]
  }

  /** The whole table, indexed by symbol. */
  function HuffmanCodes(): Table
  {
    seq(257, i requires 0 <= i <= EOS => Entry(i))
  }

  // ----- the canonical shape: codes of one length are consecutive, in symbol order -----

  /** Symbols whose code has length `l`, in code order, in blocks 0 and 1 of at most sixteen. */
  function Symbols(l: nat, block: nat): seq<nat>
  {
    if l <= 10 then SymbolsTo10(l, block) else if l <= 20 then SymbolsTo20(l, block)
    else if l <= 23 then SymbolsTo23(l, block) else if l <= 27 then SymbolsTo27(l, block) else SymbolsFrom28(l, block)
  }

  function SymbolsTo10(l: nat, block: nat): seq<nat>
    requires l <= 10
  {
    match 2 * l + block
    case 10 => [48, 49, 50, 97, 99, 101, 105, 111, 115, 116]
    case 12 => [32, 37, 45, 46, 47, 51, 52, 53, 54, 55, 56, 57, 61, 65, 95, 98]
    case 13 => [100, 102, 103, 104, 108, 109, 110, 112, 114, 117]
    case 14 => [58, 66, 67, 68, 69, 70, 71, 72, 73, 74, 75, 76, 77, 78, 79, 80]
    case 15 => [81, 82, 83, 84, 85, 86, 87, 89, 106, 107, 113, 118, 119, 120, 121, 122]
    case 16 => [38, 42, 44, 59, 88, 90]
    case 20 => [33, 34, 40, 41, 63]
    case _ => []
  }

  function SymbolsTo20(l: nat, block: nat): seq<nat>
    requires 11 <= l <= 20
  {
    match 2 * l + block
    case 22 => [39, 43, 124]
    case 24 => [35, 62]
    case 26 => [0, 36, 64, 91, 93, 126]
    case 28 => [94, 125]
    case 30 => [60, 96, 123]
    case 38 => [92, 195, 208]
    case 40 => [128, 130, 131, 162, 184, 194, 224, 226]
    case _ => []
  }

  function SymbolsTo23(l: nat, block: nat): seq<nat>
    requires 21 <= l <= 23
  {
    match 2 * l + block
    case 42 => [153, 161, 167, 172, 176, 177, 179, 209, 216, 217, 227, 229, 230]
    case 44 => [129, 132, 133, 134, 136, 146, 154, 156, 160, 163, 164, 169, 170, 173, 178, 181]
    case 45 => [185, 186, 187, 189, 190, 196, 198, 228, 232, 233]
    case 46 => [1, 135, 137, 138, 139, 140, 141, 143, 147, 149, 150, 151, 152, 155, 157, 158]
    case 47 => [165, 166, 168, 174, 175, 180, 182, 183, 188, 191, 197, 231, 239]
    case _ => []
  }

  function SymbolsTo27(l: nat, block: nat): seq<nat>
    requires 24 <= l <= 27
  {
    match 2 * l + block
    case 48 => [9, 142, 144, 145, 148, 159, 171, 206, 215, 225, 236, 237]
    case 50 => [199, 207, 234, 235]
    case 52 => [192, 193, 200, 201, 202, 205, 210, 213, 218, 219, 238, 240, 242, 243, 255]
    case 54 => [203, 204, 211, 212, 214, 221, 222, 223, 241, 244, 245, 246, 247, 248, 250, 251]
    case 55 => [252, 253, 254]
    case _ => []
  }

  function SymbolsFrom28(l: nat, block: nat): seq<nat>
    requires l >= 28
  {
    match 2 * l + block
    case 56 => [2, 3, 4, 5, 6, 7, 8, 11, 12, 14, 15, 16, 17, 18, 19, 20]
    case 57 => [21, 23, 24, 25, 26, 27, 28, 29, 30, 31, 127, 220, 249]
    case 60 => [10, 13, 22, 256]
    case _ => []
  }

  /** The smallest code of length `l`. */
  function First(l: nat): nat
  {
    match l
    case 6 => 0x14
    case 7 => 0x5c
    case 8 => 0xf8
    case 9 => 0x1fc
    case 10 => 0x3f8
    case 11 => 0x7fa
    case 12 => 0xffa
    case 13 => 0x1ff8
    case 14 => 0x3ffc
    case 15 => 0x7ffc
    case 16 => 0xfffe
    case 17 => 0x1fffc
    case 18 => 0x3fff8
    case 19 => 0x7fff0
    case 20 => 0xfffe6
    case 21 => 0x1fffdc
    case 22 => 0x3fffd2
    case 23 => 0x7fffd8
    case 24 => 0xffffea
    case 25 => 0x1ffffec
    case 26 => 0x3ffffe0
    case 27 => 0x7ffffde
    case 28 => 0xfffffe2
    case 29 => 0x1ffffffe
    case 30 => 0x3ffffffc
    case _ => 0
  }

  /** How many symbols have codes shorter than `l`. */
  function Shorter(l: nat): nat
  {
    match l
    case 6 => 10
    case 7 => 36
    case 8 => 68
    case 9 => 74
    case 10 => 74
    case 11 => 79
    case 12 => 82
    case 13 => 84
    case 14 => 90
    case 15 => 92
    case 16 => 95
    case 17 => 95
    case 18 => 95
    case 19 => 95
    case 20 => 98
    case 21 => 106
    case 22 => 119
    case 23 => 145
    case 24 => 174
    case 25 => 186
    case 26 => 190
    case 27 => 205
    case 28 => 224
    case 29 => 253
    case 30 => 253
    case 31 => 257
    case _ => 0
  }

  /** How many symbols have codes of length `l`. */
  function Count(l: nat): int { Shorter(l + 1) - Shorter(l) }

  /** Code `c` of length `l` is the place of symbol `i` among the codes of its length. */
  predicate Canonical(i: nat, c: nat, l: nat)
  {
    && 5 <= l <= 30 && First(l) <= c < First(l) + Count(l)
    && var k := c - First(l);
       var (block, at) := if k < 16 then (Symbols(l, 0), k) else (Symbols(l, 1), k - 16);
       at < |block| && block[at] == i
  }

  /** Half `h` of a row is in place: four codes, or the one code of the last row. */
  predicate CanonicalHalf(r: nat, h: nat)
    requires r <= 32 && h <= 1
  {
    Quad(Canonical, 8 * r + 4 * h, Row(r), 4 * h)
  }

  predicate Quad(p: (nat, nat, nat) -> bool, b: nat, row: Table, k: nat)
    requires |row| == 1 || |row| == 8
    requires k == 0 || k == 4
  {
    if |row| == 1 then k == 0 ==> p(b, row[0].0, row[0].1)
    else
      && p(b, row[k].0, row[k].1) && p(b + 1, row[k + 1].0, row[k + 1].1)
      && p(b + 2, row[k + 2].0, row[k + 2].1) && p(b + 3, row[k + 3].0, row[k + 3].1)
  }

  lemma Row0() ensures CanonicalHalf(0, 0) {}
  lemma Row0Right() ensures CanonicalHalf(0, 1) {}
  lemma Row1() ensures CanonicalHalf(1, 0) {}
  lemma Row1Right() ensures CanonicalHalf(1, 1) {}
  lemma Row2() ensures CanonicalHalf(2, 0) {}
  lemma Row2Right() ensures CanonicalHalf(2, 1) {}
  lemma Row3() ensures CanonicalHalf(3, 0) {}
  lemma Row3Right() ensures CanonicalHalf(3, 1) {}
  lemma Row4() ensures CanonicalHalf(4, 0) {}
  lemma Row4Right() ensures CanonicalHalf(4, 1) {}
  lemma Row5() ensures CanonicalHalf(5, 0) {}
  lemma Row5Right() ensures CanonicalHalf(5, 1) {}
  lemma Row6() ensures CanonicalHalf(6, 0) {}
  lemma Row6Right() ensures CanonicalHalf(6, 1) {}
  lemma Row7() ensures CanonicalHalf(7, 0) {}
  lemma Row7Right() ensures CanonicalHalf(7, 1) {}
  lemma Row8() ensures CanonicalHalf(8, 0) {}
  lemma Row8Right() ensures CanonicalHalf(8, 1) {}
  lemma Row9() ensures CanonicalHalf(9, 0) {}
  lemma Row9Right() ensures CanonicalHalf(9, 1) {}
  lemma Row10() ensures CanonicalHalf(10, 0) {}
  lemma Row10Right() ensures CanonicalHalf(10, 1) {}
  lemma Row11() ensures CanonicalHalf(11, 0) {}
  lemma Row11Right() ensures CanonicalHalf(11, 1) {}
  lemma Row12() ensures CanonicalHalf(12, 0) {}
  lemma Row12Right() ensures CanonicalHalf(12, 1) {}
  lemma Row13() ensures CanonicalHalf(13, 0) {}
  lemma Row13Right() ensures CanonicalHalf(13, 1) {}
  lemma Row14() ensures CanonicalHalf(14, 0) {}
  lemma Row14Right() ensures CanonicalHalf(14, 1) {}
  lemma Row15() ensures CanonicalHalf(15, 0) {}
  lemma Row15Right() ensures CanonicalHalf(15, 1) {}
  lemma Row16() ensures CanonicalHalf(16, 0) {}
  lemma Row16Right() ensures CanonicalHalf(16, 1) {}
  lemma Row17() ensures CanonicalHalf(17, 0) {}
  lemma Row17Right() ensures CanonicalHalf(17, 1) {}
  lemma Row18() ensures CanonicalHalf(18, 0) {}
  lemma Row18Right() ensures CanonicalHalf(18, 1) {}
  lemma Row19() ensures CanonicalHalf(19, 0) {}
  lemma Row19Right() ensures CanonicalHalf(19, 1) {}
  lemma Row20() ensures CanonicalHalf(20, 0) {}
  lemma Row20Right() ensures CanonicalHalf(20, 1) {}
  lemma Row21() ensures CanonicalHalf(21, 0) {}
  lemma Row21Right() ensures CanonicalHalf(21, 1) {}
  lemma Row22() ensures CanonicalHalf(22, 0) {}
  lemma Row22Right() ensures CanonicalHalf(22, 1) {}
  lemma Row23() ensures CanonicalHalf(23, 0) {}
  lemma Row23Right() ensures CanonicalHalf(23, 1) {}
  lemma Row24() ensures CanonicalHalf(24, 0) {}
  lemma Row24Right() ensures CanonicalHalf(24, 1) {}
  lemma Row25() ensures CanonicalHalf(25, 0) {}
  lemma Row25Right() ensures CanonicalHalf(25, 1) {}
  lemma Row26() ensures CanonicalHalf(26, 0) {}
  lemma Row26Right() ensures CanonicalHalf(26, 1) {}
  lemma Row27() ensures CanonicalHalf(27, 0) {}
  lemma Row27Right() ensures CanonicalHalf(27, 1) {}
  lemma Row28() ensures CanonicalHalf(28, 0) {}
  lemma Row28Right() ensures CanonicalHalf(28, 1) {}
  lemma Row29() ensures CanonicalHalf(29, 0) {}
  lemma Row29Right() ensures CanonicalHalf(29, 1) {}
  lemma Row30() ensures CanonicalHalf(30, 0) {}
  lemma Row30Right() ensures CanonicalHalf(30, 1) {}
  lemma Row31() ensures CanonicalHalf(31, 0) {}
  lemma Row31Right() ensures CanonicalHalf(31, 1) {}
  lemma Row32() ensures CanonicalHalf(32, 0) {}

  lemma LeftHalves(r: nat)
    requires r <= 32
    ensures CanonicalHalf(r, 0)
  {
    match r
    case 0 => Row0();
    case 1 => Row1();
    case 2 => Row2();
    case 3 => Row3();
    case 4 => Row4();
    case 5 => Row5();
    case 6 => Row6();
    case 7 => Row7();
    case 8 => Row8();
    case 9 => Row9();
    case 10 => Row10();
    case 11 => Row11();
    case 12 => Row12();
    case 13 => Row13();
    case 14 => Row14();
    case 15 => Row15();
    case 16 => Row16();
    case 17 => Row17();
    case 18 => Row18();
    case 19 => Row19();
    case 20 => Row20();
    case 21 => Row21();
    case 22 => Row22();
    case 23 => Row23();
    case 24 => Row24();
    case 25 => Row25();
    case 26 => Row26();
    case 27 => Row27();
    case 28 => Row28();
    case 29 => Row29();
    case 30 => Row30();
    case 31 => Row31();
    case _ => Row32();
  }

  lemma RightHalves(r: nat)
    requires r <= 31
    ensures CanonicalHalf(r, 1)
  {
    match r
    case 0 => Row0Right();
    case 1 => Row1Right();
    case 2 => Row2Right();
    case 3 => Row3Right();
    case 4 => Row4Right();
    case 5 => Row5Right();
    case 6 => Row6Right();
    case 7 => Row7Right();
    case 8 => Row8Right();
    case 9 => Row9Right();
    case 10 => Row10Right();
    case 11 => Row11Right();
    case 12 => Row12Right();
    case 13 => Row13Right();
    case 14 => Row14Right();
    case 15 => Row15Right();
    case 16 => Row16Right();
    case 17 => Row17Right();
    case 18 => Row18Right();
    case 19 => Row19Right();
    case 20 => Row20Right();
    case 21 => Row21Right();
    case 22 => Row22Right();
    case 23 => Row23Right();
    case 24 => Row24Right();
    case 25 => Row25Right();
    case 26 => Row26Right();
    case 27 => Row27Right();
    case 28 => Row28Right();
    case 29 => Row29Right();
    case 30 => Row30Right();
    case _ => Row31Right();
  }

  lemma InQuad(p: (nat, nat, nat) -> bool, b: nat, row: Table, k: nat, j: nat)
    requires |row| == 8 && (k == 0 || k == 4) && Quad(p, b, row, k) && j < 4
    ensures p(b + j, row[k + j].0, row[k + j].1)
  {
    match j
    case 0 => case 1 => case 2 => case _ =>
  }

  lemma AllCanonical(i: nat)
    requires i <= EOS
    ensures Canonical(i, Entry(i).0, Entry(i).1)
  {
    var r, j := i / 8, i % 8;
    LeftHalves(r);
    if r < 32 && j < 4 {
      InQuad(Canonical, 8 * r, Row(r), 0, j);
    } else if r < 32 {
      RightHalves(r);
      InQuad(Canonical, 8 * r + 4, Row(r), 4, j - 4);
    }
  }

  lemma FirstStep(l: nat)
    requires 5 <= l < 30
    ensures First(l + 1) == 2 * (First(l) + Count(l)) && Count(l) >= 0
  {
  }

  lemma LastLength()
    ensures First(30) + Count(30) == 0x4000_0000 && Shorter(31) == 257 && First(5) == 0 && Shorter(5) == 0
  {
  }

  // ----- prefix-freedom -----

  lemma {:induction false} ShrLast(v: nat, n: nat)
    ensures Shr(v, n + 1) == Shr(v, n) / 2
  {
    if n > 0 {
      ShrLast(v / 2, n - 1);
    }
  }

  /** A longer code, cut to length `l`, lies beyond every code of length `l`. */
  lemma {:induction false} LongerIsBeyond(l: nat, d: nat, v: nat)
    requires 5 <= l && d > 0 && l + d <= 30 && v >= First(l + d)
    ensures Shr(v, d) >= First(l) + Count(l)
    decreases d
  {
    FirstStep(l + d - 1);
    if d > 1 {
      LongerIsBeyond(l, d - 1, v / 2);
    }
  }

  lemma {:induction false} ShrBelow(v: nat, n: nat, k: nat)
    requires v < Pow2(n + k)
    ensures Shr(v, k) < Pow2(n)
  {
    if k > 0 {
      ShrBelow(v / 2, n, k - 1);
    }
  }

  /** Codes of length `l` fit in `l` bits. */
  lemma {:induction false} CodesFit(l: nat)
    requires 5 <= l <= 30
    ensures First(l) + Count(l) <= Pow2(l)
    decreases 30 - l
  {
    if l == 30 {
      LastLength();
      Pow2At30(30);
    } else {
      CodesFit(l + 1);
      FirstStep(l);
      assert First(l + 1) + Count(l + 1) >= First(l + 1)
             by { if l + 1 < 30 { FirstStep(l + 1); } else { LastLength(); } }
    }
  }

  lemma PrefixOfLonger(c: nat, l: nat, v: nat, d: nat)
    requires 5 <= l && d > 0 && l + d <= 30
    requires c < First(l) + Count(l) && First(l + d) <= v < Pow2(l + d)
    ensures !(Bits(c, l) <= Bits(v, l + d))
  {
    CodesFit(l);
    LongerIsBeyond(l, d, v);
    ShrBelow(v, l, d);
    BitsShr(v, l, d);
    BitsInjective(c, Shr(v, d), l);
  }

  lemma SameCodeSameSymbol(i: nat, j: nat)
    requires i <= EOS && j <= EOS && Entry(i) == Entry(j)
    ensures i == j
  {
    AllCanonical(i);
    AllCanonical(j);
    CanonicalUnique(i, j, Entry(i).0, Entry(i).1);
  }

  lemma CanonicalUnique(i: nat, j: nat, c: nat, l: nat)
    requires Canonical(i, c, l) && Canonical(j, c, l)
    ensures i == j
  {
  }

  lemma CanonicalBounds(i: nat, c: nat, l: nat)
    requires Canonical(i, c, l)
    ensures 5 <= l <= 30 && First(l) <= c < First(l) + Count(l) && c < Pow2(l)
  {
    CodesFit(l);
  }

  lemma DifferentCodesApart(c: nat, l: nat, v: nat, m: nat)
    requires 5 <= l <= 30 && First(l) <= c < First(l) + Count(l) && c < Pow2(l)
    requires 5 <= m <= 30 && First(m) <= v < First(m) + Count(m) && v < Pow2(m)
    requires (c, l) != (v, m)
    ensures !(Bits(c, l) <= Bits(v, m))
  {
    if l < m {
      PrefixOfLonger(c, l, v, m - l);
    } else if l == m {
      BitsInjective(c, v, l);
    }
  }

  lemma NotPrefix(i: nat, j: nat)
    requires i <= EOS && j <= EOS && i != j
    ensures !(Bits(Entry(i).0, Entry(i).1) <= Bits(Entry(j).0, Entry(j).1))
  {
    AllCanonical(i);
    AllCanonical(j);
    CanonicalBounds(i, Entry(i).0, Entry(i).1);
    CanonicalBounds(j, Entry(j).0, Entry(j).1);
    if Entry(i) == Entry(j) {
      SameCodeSameSymbol(i, j);
    } else {
      DifferentCodesApart(Entry(i).0, Entry(i).1, Entry(j).0, Entry(j).1);
    }
  }

  // ----- completeness: 257 distinct places fill the 257 places there are -----

  /** Place of code `c` of length `l` in the canonical order. */
  function Rank(c: nat, l: nat): int { Shorter(l) + c - First(l) }

  lemma ShorterGrows(l: nat, m: nat)
    requires 5 <= l <= m <= 30
    ensures Shorter(l) <= Shorter(m) && Shorter(m) <= 257 - Count(m) && (l < m ==> Shorter(l) + Count(l) <= Shorter(m))
  {
  }

  lemma RankInjective(c: nat, l: nat, v: nat, m: nat)
    requires 5 <= l <= 30 && First(l) <= c < First(l) + Count(l)
    requires 5 <= m <= 30 && First(m) <= v < First(m) + Count(m)
    requires Rank(c, l) == Rank(v, m)
    ensures c == v && l == m
  {
    if l < m {
      ShorterGrows(l, m);
    } else if m < l {
      ShorterGrows(m, l);
    }
  }

  function Elements(s: seq<nat>): (r: set<nat>)
    ensures forall x :: x in r <==> x in s
  {
    if s == [] then {} else {s[0]} + Elements(s[1..])
  }

  lemma {:induction false} DistinctSize(s: seq<nat>)
    requires forall i, j :: 0 <= i < j < |s| ==> s[i] != s[j]
    ensures |Elements(s)| == |s|
  {
    if s != [] {
      var rest := s[1..];
      assert s[0] !in rest;
      DistinctSize(rest);
    }
  }

  function Below(n: nat): (r: set<nat>)
    ensures |r| == n && forall x: nat :: x in r <==> x < n
  {
    if n == 0 then {} else Below(n - 1) + {n - 1}
  }

  lemma {:induction false} SubsetSize(a: set<nat>, b: set<nat>)
    requires a <= b
    ensures |a| <= |b|
  {
    if a != {} {
      var x :| x in a;
      SubsetSize(a - {x}, b - {x});
    }
  }

  /** `n` distinct numbers below `n` are all the numbers below `n`. */
  lemma Pigeonhole(s: seq<nat>, k: nat)
    requires forall i, j :: 0 <= i < j < |s| ==> s[i] != s[j]
    requires forall i :: 0 <= i < |s| ==> s[i] < |s|
    requires k < |s|
    ensures k in s
  {
    DistinctSize(s);
    if k !in s {
      SubsetSize(Elements(s), Below(|s|) - {k});
      assert false;
    }
  }

  function RankOf(i: nat): int
    requires i <= EOS
  {
    Rank(Entry(i).0, Entry(i).1)
  }

  lemma RankBounds(i: nat)
    requires i <= EOS
    ensures 0 <= RankOf(i) < 257
  {
    AllCanonical(i);
    CanonicalBounds(i, Entry(i).0, Entry(i).1);
    ShorterGrows(5, Entry(i).1);
  }

  lemma SameRankSameSymbol(i: nat, j: nat)
    requires i <= EOS && j <= EOS && RankOf(i) == RankOf(j)
    ensures i == j
  {
    AllCanonical(i);
    AllCanonical(j);
    CanonicalBounds(i, Entry(i).0, Entry(i).1);
    CanonicalBounds(j, Entry(j).0, Entry(j).1);
    RankInjective(Entry(i).0, Entry(i).1, Entry(j).0, Entry(j).1);
    SameCodeSameSymbol(i, j);
  }

  lemma SomeSymbol(rank: nat -> nat, k: nat) returns (i: nat)
    requires forall i :: 0 <= i < 257 ==> rank(i) < 257
    requires forall i, j :: 0 <= i < j < 257 ==> rank(i) != rank(j)
    requires k < 257
    ensures i < 257 && rank(i) == k
  {
    var s := seq(257, i requires 0 <= i < 257 => rank(i));
    Pigeonhole(s, k);
    i :| 0 <= i < 257 && s[i] == k;
  }

  lemma CodeHasSymbol(c: nat, l: nat) returns (i: nat)
    requires 5 <= l <= 30 && First(l) <= c < First(l) + Count(l)
    ensures i <= EOS && Entry(i) == (c, l)
  {
    forall i | 0 <= i < 257
      ensures 0 <= RankOf(i) < 257
    {
      RankBounds(i);
    }
    forall i, j | 0 <= i < j < 257
      ensures RankOf(i) != RankOf(j)
    {
      if RankOf(i) == RankOf(j) { SameRankSameSymbol(i, j); }
    }
    ShorterGrows(5, l);
    i := SomeSymbol((i: nat) => if i < 257 && RankOf(i) >= 0 then RankOf(i) else 0, Rank(c, l));
    AllCanonical(i);
    CanonicalBounds(i, Entry(i).0, Entry(i).1);
    RankInjective(c, l, Entry(i).0, Entry(i).1);
  }

  /** Descending from 30 bits, some length has a code that starts `v`. */
  lemma {:induction false} FindLength(v: nat, l: nat) returns (m: nat)
    requires 5 <= l <= 30 && Shr(v, 30 - l) < First(l) + Count(l)
    ensures 5 <= m <= 30 && First(m) <= Shr(v, 30 - m) < First(m) + Count(m)
    decreases l
  {
    if Shr(v, 30 - l) >= First(l) {
      m := l;
    } else {
      LastLength();
      FirstStep(l - 1);
      ShrLast(v, 30 - l);
      m := FindLength(v, l - 1);
    }
  }

  lemma SomeCodeStarts(b: seq<bool>) returns (i: nat)
    requires |b| == 30
    ensures i <= EOS && Bits(Entry(i).0, Entry(i).1) <= b
  {
    var v := Value(b);
    BitsOfValue(b);
    LastLength();
    Pow2At30(30);
    var l := FindLength(v, 30);
    i := CodeHasSymbol(Shr(v, 30 - l), l);
    BitsShr(v, l, 30 - l);
  }

  lemma Pow2At30(n: nat)
    requires n == 30
    ensures Pow2(n) == 0x4000_0000
  {
    assert Pow2(10) == 1024;
    Pow2Add(10, 10);
    Pow2Add(20, 10);
  }

  lemma EosIsOnes()
    ensures Entry(EOS) == (0x3fffffff, 30) && Bits(0x3fffffff, 30) == Ones(30)
  {
    ValueOfOnes(30);
    Pow2At30(30);
    BitsOfValue(Ones(30));
  }

  /** The constant table meets every hypothesis of the Huffman codec. */
  lemma HuffmanIsValid()
    ensures ValidTable(HuffmanCodes())
  {
    EosIsOnes();
    forall i | 0 <= i <= EOS
      ensures 5 <= HuffmanCodes()[i].1 <= 30 && HuffmanCodes()[i].0 < Pow2(HuffmanCodes()[i].1)
    {
      AllCanonical(i);
      CanonicalBounds(i, Entry(i).0, Entry(i).1);
    }
    forall i, j | 0 <= i <= EOS && 0 <= j <= EOS && i != j
      ensures Apart(HuffmanCodes(), i, j)
    {
      NotPrefix(i, j);
    }
    forall b: seq<bool> | |b| == 30
      ensures StartsWithCode(HuffmanCodes(), b)
    {
      var i := SomeCodeStarts(b);
      assert CodeBits(HuffmanCodes(), i) <= b;
    }
  }
}

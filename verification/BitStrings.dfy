/** Numbers as bit strings, most significant bit first. */
module BitStrings {
  import opened Common

  /** The low `n` bits of `v`. */
  function Bits(v: nat, n: nat): (b: seq<bool>)
    ensures |b| == n
  {
    if n == 0 then [] else Bits(v / 2, n - 1) + [v % 2 == 1]
  }

  function Value(b: seq<bool>): nat
  {
    if b == [] then 0 else 2 * Value(b[..|b| - 1]) + (if b[|b| - 1] then 1 else 0)
  }

  function Ones(n: nat): (b: seq<bool>)
    ensures |b| == n
  {
    seq(n, _ => true)
  }

  /** `v >> n`. */
  function Shr(v: nat, n: nat): nat
  {
    if n == 0 then v else Shr(v / 2, n - 1)
  }

  /** `v & ((1 << n) - 1)`. */
  function Low(v: nat, n: nat): nat
  {
    if n == 0 then 0 else 2 * Low(v / 2, n - 1) + v % 2
  }

  /** `a | b`. */
  function BitOr(a: nat, b: nat): nat
    decreases a + b
  {
    if a == 0 && b == 0 then 0
    else 2 * BitOr(a / 2, b / 2) + (if a % 2 == 1 || b % 2 == 1 then 1 else 0)
  }

  lemma {:induction false} ValueOfBits(v: nat, n: nat)
    ensures Value(Bits(v, n)) == Low(v, n)
  {
    if n > 0 {
      ValueOfBits(v / 2, n - 1);
      assert Bits(v, n)[..n - 1] == Bits(v / 2, n - 1);
    }
  }

  lemma {:induction false} BitsOfValue(b: seq<bool>)
    ensures Bits(Value(b), |b|) == b && Value(b) < Pow2(|b|)
  {
    if b != [] {
      BitsOfValue(b[..|b| - 1]);
    }
  }

  lemma {:induction false} LowBelow(v: nat, n: nat)
    requires v < Pow2(n)
    ensures Low(v, n) == v
  {
    if n > 0 {
      LowBelow(v / 2, n - 1);
    }
  }

  /** Appending `k` bits to a number appends them to its bit string. */
  lemma {:induction false} BitsAppend(v: nat, low: nat, n: nat, k: nat)
    requires low < Pow2(k)
    ensures Bits(Shl(v, k) + low, n + k) == Bits(v, n) + Bits(low, k)
  {
    if k > 0 {
      BitsAppend(v, low / 2, n, k - 1);
      assert Shl(v, k) + low == 2 * (Shl(v, k - 1) + low / 2) + low % 2;
    }
  }

  lemma {:induction false} BitsShr(v: nat, n: nat, k: nat)
    ensures Bits(v, n + k)[..n] == Bits(Shr(v, k), n)
  {
    if k > 0 {
      BitsShr(v / 2, n, k - 1);
    }
  }

  lemma {:induction false} BitsSuffix(v: nat, n: nat, k: nat)
    ensures Bits(v, n + k)[n..] == Bits(v, k)
  {
    if k > 0 {
      BitsSuffix(v / 2, n, k - 1);
    }
  }

  lemma {:induction false} ValueConcat(x: seq<bool>, y: seq<bool>)
    ensures Value(x + y) == Shl(Value(x), |y|) + Value(y)
  {
    if y == [] {
      assert x + y == x;
    } else {
      ValueConcat(x, y[..|y| - 1]);
      assert (x + y)[..|x + y| - 1] == x + y[..|y| - 1];
    }
  }

  lemma {:induction false} ShlSum(a: nat, b: nat, n: nat)
    ensures Shl(a + b, n) == Shl(a, n) + Shl(b, n)
  {
    if n > 0 {
      ShlSum(a, b, n - 1);
    }
  }

  lemma {:induction false} BitOrZero(a: nat)
    ensures BitOr(a, 0) == a && BitOr(0, a) == a
  {
    if a > 0 {
      BitOrZero(a / 2);
    }
  }

  /** On disjoint bits, or is addition. */
  lemma {:induction false} BitOrDisjoint(a: nat, b: nat, n: nat)
    requires b < Pow2(n)
    ensures BitOr(Shl(a, n), b) == Shl(a, n) + b
  {
    if n == 0 {
      BitOrZero(a);
    } else {
      BitOrDisjoint(a, b / 2, n - 1);
    }
  }

  /** The low bits do not depend on what sits above them. */
  lemma BitsBelow(q: nat, r: nat, m: nat, n: nat)
    requires r < Pow2(m) && n <= m
    ensures Bits(Shl(q, m) + r, n) == Bits(r, n)
  {
    BitsAppend(q, r, 0, m);
    BitsSuffix(Shl(q, m) + r, m - n, n);
    BitsSuffix(r, m - n, n);
  }

  lemma {:induction false} ValueOfOnes(n: nat)
    ensures Value(Ones(n)) == Pow2(n) - 1
  {
    if n > 0 {
      ValueOfOnes(n - 1);
      assert Ones(n)[..n - 1] == Ones(n - 1);
    }
  }

  lemma {:induction false} ShlBelow(v: nat, n: nat, k: nat)
    requires v < Pow2(n)
    ensures Shl(v, k) < Pow2(n + k)
  {
    if k > 0 {
      ShlBelow(v, n, k - 1);
    }
  }

  lemma {:induction false} BitsOfLow(v: nat, n: nat)
    ensures Bits(Low(v, n), n) == Bits(v, n) && Low(v, n) < Pow2(n)
  {
    if n > 0 {
      BitsOfLow(v / 2, n - 1);
    }
  }

  /** An octet that starts with the bits `x` and is zero after them. */
  function LeftOctet(x: seq<bool>): (r: Byte)
    requires |x| <= 8
  {
    BitsOfValue(x);
    ShlBelow(Value(x), |x|, 8 - |x|);
    Pow2Values();
    Shl(Value(x), 8 - |x|)
  }

  lemma OrShifted(x: nat, y: nat, n: nat, k: nat)
    requires y < Pow2(n)
    ensures BitOr(Shl(x, n + k), Shl(y, k)) == Shl(Shl(x, n) + y, k)
  {
    ShlBelow(y, n, k);
    BitOrDisjoint(x, Shl(y, k), n + k);
    ShlSum(Shl(x, n), y, k);
    ShlAdd(x, n, k);
  }

  lemma OrValues(x: seq<bool>, y: seq<bool>, k: nat)
    ensures BitOr(Shl(Value(x), |y| + k), Shl(Value(y), k)) == Shl(Value(x + y), k)
  {
    BitsOfValue(y);
    OrShifted(Value(x), Value(y), |y|, k);
    ValueConcat(x, y);
  }

  /** Or-ing a left-justified chunk into the free bits of an octet appends it. */
  lemma OrChunk(x: seq<bool>, y: seq<bool>, k: nat)
    requires |x| + |y| + k == 8
    ensures BitOr(LeftOctet(x), Shl(Value(y), k)) == LeftOctet(x + y)
  {
    OrValues(x, y, k);
  }

  /** Or-ing ones into the free bits of an octet completes it. */
  lemma OrOnes(x: seq<bool>, n: nat)
    requires |x| + n == 8
    ensures BitOr(LeftOctet(x), Pow2(n) - 1) == LeftOctet(x + Ones(n))
  {
    OrChunk(x, Ones(n), 0);
    ValueOfOnes(n);
  }
}

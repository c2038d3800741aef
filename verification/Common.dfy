/** Vocabulary shared by every component: bytes, failures, powers of two and UTF-8. */
module Common {
  type Byte = b: int | 0 <= b < 256

  datatype Option<+T> = None | Some(value: T)

  /** Success or failure; the error text is not modelled. */
  datatype Result<+T> = Ok(value: T) | Err

  /** One past the largest `u64` (and the largest 64-bit `usize`). */
  const U64: nat := 0x1_0000_0000_0000_0000

  function Min(a: int, b: int): int { if a <= b then a else b }

  function Pow2(n: nat): (r: nat)
    ensures r >= 1
  {
    if n == 0 then 1 else 2 * Pow2(n - 1)
  }

  lemma {:induction false} Pow2Add(a: nat, b: nat)
    ensures Pow2(a + b) == Pow2(a) * Pow2(b)
  {
    if a == 0 {
    } else {
      Pow2Add(a - 1, b);
    }
  }

  lemma {:induction false} Pow2Monotone(a: nat, b: nat)
    requires a <= b
    ensures Pow2(a) <= Pow2(b)
  {
    if a < b {
      Pow2Monotone(a, b - 1);
    }
  }

  lemma Pow2Values()
    ensures Pow2(8) == 256 && Pow2(63) == 0x8000_0000_0000_0000 && Pow2(64) == U64
  {
    Pow2Squares(8);
    Pow2Add(1, 63);
  }

  lemma Pow2Squares(n: nat)
    requires n == 8
    ensures Pow2(n) == 256 && Pow2(8 * n) == U64
  {
    assert Pow2(8) == 256;
    Pow2Add(n, n);
    Pow2Add(2 * n, 2 * n);
    Pow2Add(4 * n, 4 * n);
  }

  /** `k << n`, by doubling. */
  function Shl(k: nat, n: nat): nat
  {
    if n == 0 then k else 2 * Shl(k, n - 1)
  }

  lemma {:induction false} ShlMonotone(a: nat, b: nat, n: nat)
    requires a <= b
    ensures Shl(a, n) <= Shl(b, n)
  {
    if n > 0 {
      ShlMonotone(a, b, n - 1);
    }
  }

  lemma {:induction false} ShlAdd(k: nat, m: nat, n: nat)
    ensures Shl(k, m + n) == Shl(Shl(k, m), n)
  {
    if n > 0 {
      ShlAdd(k, m, n - 1);
    }
  }

  lemma {:induction false} ShlIsProduct(k: nat, n: nat)
    ensures Shl(k, n) == k * Pow2(n)
  {
    if n > 0 {
      ShlIsProduct(k, n - 1);
    }
  }

  /** A number in bytes, most significant first. */
  function BigEndian(b: seq<Byte>): nat
  {
    if b == [] then 0 else BigEndian(b[..|b| - 1]) * 256 + b[|b| - 1] as int
  }

  /** Quotient and remainder are unique. */
  lemma ModuloUnique(x: int, m: nat, q: int, r: nat)
    requires r < m && x == m * q + r
    ensures x % m == r && x / m == q
  {
    var d := x / m - q;
    assert m * d == r - x % m;
    assert d >= 1 ==> m * d >= m;
    assert d <= -1 ==> m * d <= 0 - m;
  }

  /** Length of the well-formed UTF-8 scalar at the head of `s`, or 0 (Unicode table 3-7). */
  function ScalarLength(s: seq<Byte>): (n: nat)
    ensures n <= |s| && n <= 4
  {
    if |s| >= 1 && s[0] < 0x80 then 1
    else if |s| >= 2 && 0xC2 <= s[0] <= 0xDF && Trailing(s[1]) then 2
    else if |s| >= 3 && 0xE0 <= s[0] <= 0xEF && Trailing(s[1]) && Trailing(s[2])
            && (s[0] == 0xE0 ==> s[1] >= 0xA0) && (s[0] == 0xED ==> s[1] < 0xA0) then 3
    else if |s| >= 4 && 0xF0 <= s[0] <= 0xF4 && Trailing(s[1]) && Trailing(s[2]) && Trailing(s[3])
            && (s[0] == 0xF0 ==> s[1] >= 0x90) && (s[0] == 0xF4 ==> s[1] < 0x90) then 4
    else 0
  }

  predicate Trailing(b: Byte) { 0x80 <= b < 0xC0 }

  /** What `String::from_utf8` accepts. */
  predicate Utf8(s: seq<Byte>)
    decreases |s|
  {
    s == [] || (ScalarLength(s) > 0 && Utf8(s[ScalarLength(s)..]))
  }
}

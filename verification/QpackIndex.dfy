/**
 * Index arithmetic of QPACK: Required Insert Count, Base and the three relative forms (sections 3.2 and 4.5 of RFC
 * 9204).
 */
module QpackIndex {
  import opened Common
  import opened Fields
  import opened QpackTable

  /** The most entries a table of the largest capacity can hold. */
  const MAX_ENTRIES: nat := 128
  const FULL_RANGE: nat := 256

  // ----- Required Insert Count (section 4.5.1.1) -----

  function EncodeRequired(ric: nat): nat { if ric == 0 then 0 else ric % 256 + 1 }

  function DecodeRequired(encoded: nat, totalInserts: nat): Result<nat>
  {
    if encoded == 0 then Ok(0)
    else if encoded > FULL_RANGE then Err
    else
      var maxValue := totalInserts + MAX_ENTRIES;
      var maxWrapped := maxValue / FULL_RANGE * FULL_RANGE;
      var ric := maxWrapped + encoded - 1;
      if ric > maxValue then
        if ric <= FULL_RANGE then Err
        else if ric - FULL_RANGE == 0 then Err else Ok(ric - FULL_RANGE)
      else if ric == 0 then Err else Ok(ric)
  }

  /** The same, step by step on local variables. */
  method DecodeRequiredInsertCount(encoded: nat, totalInserts: nat) returns (r: Result<nat>)
    ensures r == DecodeRequired(encoded, totalInserts)
  {
    if encoded == 0 {
      return Ok(0);
    }
    if encoded > FULL_RANGE {
      return Err;
    }
    var maxValue := totalInserts + MAX_ENTRIES;
    var maxWrapped := maxValue / FULL_RANGE * FULL_RANGE;
    var ric := maxWrapped + encoded - 1;
    if ric > maxValue {
      if ric <= FULL_RANGE {
        return Err;
      }
      ric := ric - FULL_RANGE;
    }
    if ric == 0 {
      return Err;
    }
    return Ok(ric);
  }

  /** Counts a decoder that has seen `totalInserts` insertions can tell apart. */
  predicate InWindow(ric: nat, totalInserts: nat)
  {
    ric >= 1 && totalInserts < ric + 128 && ric <= totalInserts + 128
  }

  /** Reconstruction succeeds with `ric` exactly when `ric` is the count in the window that has this encoding. */
  lemma RequiredIsReconstructed(encoded: nat, totalInserts: nat, ric: nat)
    ensures encoded > 0 ==>
      (DecodeRequired(encoded, totalInserts) == Ok(ric)
       <==> InWindow(ric, totalInserts) && EncodeRequired(ric) == encoded)
  {
    var maxValue := totalInserts + MAX_ENTRIES;
    var q := maxValue / FULL_RANGE;
    if InWindow(ric, totalInserts) && EncodeRequired(ric) == encoded {
      assert ric / FULL_RANGE == q || ric / FULL_RANGE == q - 1;
    }
    if 0 < encoded <= FULL_RANGE && DecodeRequired(encoded, totalInserts).Ok? {
      var r := DecodeRequired(encoded, totalInserts).value;
      ModuloUnique(r, FULL_RANGE, if q * FULL_RANGE + encoded - 1 > maxValue then q - 1 else q, encoded - 1);
    }
  }

  /** At most one count of the window has a given encoding. */
  lemma RequiredIsUnique(totalInserts: nat, a: nat, b: nat)
    requires InWindow(a, totalInserts) && InWindow(b, totalInserts) && EncodeRequired(a) == EncodeRequired(b)
    ensures a == b
  {
    RequiredIsReconstructed(EncodeRequired(a), totalInserts, a);
    RequiredIsReconstructed(EncodeRequired(b), totalInserts, b);
  }

  /** The count required by a reference to a live entry always lies in the window. */
  lemma LiveReferenceIsInWindow(t: TableState, log: seq<Field>, abs: nat)
    requires Refines(t, log) && GetAbsolute(t, abs).Ok?
    ensures InWindow(abs + 1, t.insertCount) && abs + 1 <= t.insertCount
    ensures DecodeRequired(EncodeRequired(abs + 1), t.insertCount) == Ok(abs + 1)
  {
    EntriesBound(t.entries);
    RequiredIsReconstructed(EncodeRequired(abs + 1), t.insertCount, abs + 1);
  }

  // ----- Base (section 4.5.1.2) -----

  /** The sign bit and Delta Base that describe `base` relative to a Required Insert Count. */
  function BaseSign(ric: nat, base: nat): bool { base < ric }

  function DeltaBase(ric: nat, base: nat): (d: nat) { if base < ric then ric - base - 1 else base - ric }

  function DecodeBase(sign: bool, delta: nat, ric: nat): Result<nat>
  {
    if sign then (if delta + 1 > ric then Err else Ok(ric - delta - 1))
    else if ric + delta >= U64 then Err else Ok(ric + delta)
  }

  lemma BaseRoundTrip(ric: nat, base: nat)
    requires base < U64
    ensures DecodeBase(BaseSign(ric, base), DeltaBase(ric, base), ric) == Ok(base)
  {
  }

  // ----- relative indices (sections 3.2.5 and 3.2.6) -----

  /** `abs = base - 1 - rel`, for field lines with `base` and for instructions with the insert count. */
  function RelativeToAbsolute(base: nat, rel: nat): Result<nat>
  {
    if base < 1 || base - 1 < rel then Err else Ok(base - 1 - rel)
  }

  function PostBaseToAbsolute(base: nat, index: nat): Result<nat>
  {
    if base + index >= U64 then Err else Ok(base + index)
  }

  /** Below Base only the relative form reaches an entry, from Base on only the post-base form does. */
  lemma OneFormReaches(base: nat, abs: nat, index: nat)
    requires abs < U64 && base < U64
    ensures RelativeToAbsolute(base, index) == Ok(abs) <==> abs < base && index == base - 1 - abs
    ensures PostBaseToAbsolute(base, index) == Ok(abs) <==> base <= abs && index == abs - base
  {
  }
}

/** Calendar arithmetic for cookie expiry: a closed form for the days since 1970, against counting them. */
module CivilDate {
  import opened Common

  /** Division of machine integers, which truncates toward zero. */
  function TruncDiv(a: int, b: nat): int
    requires b > 0
  {
    if a >= 0 then a / b else 0 - (0 - a) / b
  }

  predicate InRange(m: nat, d: nat, hh: nat, mm: nat, ss: nat)
  {
    1 <= m <= 12 && 1 <= d <= 31 && hh <= 23 && mm <= 59 && ss <= 60
  }

  const MIN32: int := -0x8000_0000

  /** A 32-bit signed number. */
  type Int32 = x: int | MIN32 <= x < 0x8000_0000 witness 0

  /** What is left of a result in 32 bits; arithmetic wraps around. */
  function Wrap(x: int): (r: Int32)
    ensures MIN32 <= x < 0x8000_0000 ==> r == x
  {
    (x - MIN32) % 0x1_0000_0000 + MIN32
  }

  /** The 400-year era of a year. */
  function Era(year: Int32): Int32
  {
    TruncDiv(if year >= 0 then year else Wrap(year - 399), 400)
  }

  /** The year within its era, as an unsigned number. */
  function YearOfEra(year: Int32): (yoe: nat)
    ensures yoe < 800
  {
    EraBound(year);
    Wrap(year - Wrap(Era(year) * 400)) % 0x1_0000_0000
  }

  lemma EraBound(year: Int32)
    ensures var w: int := if year >= 0 then year
                          else if year - 399 >= MIN32 then year - 399
                          else year - 399 + 0x1_0000_0000;
            && (w >= 0 ==> 0 <= w - 400 * Era(year) < 400) && (w < 0 ==> -400 < w - 400 * Era(year) <= 0)
  {
  }

  /** The day within its era, counted from March 1 of year `yoe`. */
  function DayOfEra(yoe: nat, m: nat, d: nat): int
    requires 1 <= m <= 12
  {
    var mp := if m > 2 then m - 3 else m + 9;
    yoe * 365 + yoe / 4 - yoe / 100 + (153 * mp + 2) / 5 + d - 1
  }

  /** Days since 1970-01-01 by the closed form; years start in March. */
  function CivilDays(y: Int32, m: nat, d: nat): int
    requires 1 <= m <= 12
  {
    var year := if m <= 2 then Wrap(y - 1) else y;
    Era(year) * 146097 + DayOfEra(YearOfEra(year), m, d) - 719468
  }

  function EpochFromCivil(y: Int32, m: nat, d: nat, hh: nat, mm: nat, ss: nat): Option<nat>
  {
    if !InRange(m, d, hh, mm, ss) then None
    else
      var days := CivilDays(y, m, d);
      if days < 0 then None else Some(days * 86400 + hh * 3600 + mm * 60 + ss)
  }

  // ----- counting -----

  predicate Leap(y: int) { y % 4 == 0 && (y % 100 != 0 || y % 400 == 0) }

  function YearLength(y: int): nat { if Leap(y) then 366 else 365 }

  function MonthLength(y: int, m: nat): nat
    requires 1 <= m <= 12
  {
    if m == 2 then (if Leap(y) then 29 else 28) else if m == 4 || m == 6 || m == 9 || m == 11 then 30 else 31
  }

  /** Days from 1970-01-01 to January 1 of `y`. */
  function DaysToYear(y: int): nat
    requires y >= 1970
  {
    if y == 1970 then 0 else DaysToYear(y - 1) + YearLength(y - 1)
  }

  /** Days from January 1 to the first of month `m`. */
  function DaysToMonth(y: int, m: nat): nat
    requires 1 <= m <= 12
  {
    if m == 1 then 0 else DaysToMonth(y, m - 1) + MonthLength(y, m - 1)
  }

  function DayCount(y: int, m: nat, d: nat): int
    requires y >= 1970 && 1 <= m <= 12
  {
    DaysToYear(y) + DaysToMonth(y, m) + d - 1
  }

  predicate ValidDate(y: int, m: nat, d: nat) { 1 <= m <= 12 && 1 <= d <= MonthLength(y, m) }

  // ----- the closed form counts -----

  /** Days before March 1 of year `y`, from March 1 of year 0. */
  function MarchDays(y: int): int { 365 * y + y / 4 - y / 100 + y / 400 }

  lemma MarchStep(y: int)
    ensures MarchDays(y) == MarchDays(y - 1) + YearLength(y)
  {
    Fourths(y);
    Hundredths(y);
    FourHundredths(y);
  }

  lemma Fourths(y: int)
    ensures y / 4 - (y - 1) / 4 == if y % 4 == 0 then 1 else 0
  {
  }

  lemma Hundredths(y: int)
    ensures y / 100 - (y - 1) / 100 == if y % 100 == 0 then 1 else 0
    ensures y % 100 == 0 ==> y % 4 == 0
  {
    var q, r := y / 100, y % 100;
    if r == 0 {
      ModuloUnique(y - 1, 100, q - 1, 99);
      ModuloUnique(y, 4, 25 * q, 0);
    } else {
      ModuloUnique(y - 1, 100, q, r - 1);
    }
  }

  lemma FourHundredths(y: int)
    ensures y / 400 - (y - 1) / 400 == if y % 400 == 0 then 1 else 0
    ensures y % 400 == 0 ==> y % 100 == 0
  {
    var q, r := y / 400, y % 400;
    if r == 0 {
      ModuloUnique(y - 1, 400, q - 1, 399);
      ModuloUnique(y, 100, 4 * q, 0);
    } else {
      ModuloUnique(y - 1, 400, q, r - 1);
    }
  }

  /** The year that starts in March. */
  function MarchYear(y: int, m: nat): int { if m <= 2 then y - 1 else y }

  /** The arithmetic stays within 32 bits. */
  predicate Fits(y: int, m: nat) { MarchYear(y, m) >= MIN32 + 399 }

  lemma EraIsFloor(year: Int32)
    requires year >= MIN32 + 399
    ensures Era(year) == year / 400 && YearOfEra(year) == year % 400
  {
    if year < 0 {
      var q, r := year / 400, year % 400;
      ModuloUnique(399 - year, 400, 0 - q, 399 - r);
    }
  }

  /** Days from March 1 to the first of the month `mp` months later. */
  lemma MonthTable(mp: nat)
    requires mp < 12
    ensures (153 * mp + 2) / 5 == [0, 31, 61, 92, 122, 153, 184, 214, 245, 275, 306, 337][mp]
  {
  }

  lemma ClosedForm(y: Int32, m: nat, d: nat)
    requires 1 <= m <= 12 && Fits(y, m)
    ensures CivilDays(y, m, d)
            == MarchDays(MarchYear(y, m)) + (153 * (if m > 2 then m - 3 else m + 9) + 2) / 5 + d - 1 - 719468
  {
    var year: Int32 := MarchYear(y, m);
    EraIsFloor(year);
    var era, yoe := year / 400, year % 400;
    assert year == era * 400 + yoe;
    assert year / 4 == 100 * era + yoe / 4;
    assert year / 100 == 4 * era + yoe / 100;
  }

  lemma {:induction false} YearsCount(y: int)
    requires y >= 1970
    ensures DaysToYear(y) == MarchDays(y - 1) + 306 - 719468
    decreases y
  {
    if y == 1970 {
      assert MarchDays(1969) == 719162;
    } else {
      YearsCount(y - 1);
      MarchStep(y - 1);
    }
  }

  /** Months counted one by one. */
  lemma MonthsCount(y: int, m: nat)
    requires 1 <= m <= 12
    ensures DaysToMonth(y, m)
            == if m <= 2 then [0, 31][m - 1]
               else [0, 31, 61, 92, 122, 153, 184, 214, 245, 275][m - 3] + (if Leap(y) then 60 else 59)
  {
    FirstMonths(y);
    if m > 6 {
      LaterMonths(y);
    }
  }

  lemma FirstMonths(y: int)
    ensures DaysToMonth(y, 1) == 0 && DaysToMonth(y, 2) == 31
    ensures var march := if Leap(y) then 60 else 59;
            DaysToMonth(y, 3) == march && DaysToMonth(y, 4) == march + 31 && DaysToMonth(y, 5) == march + 61
              && DaysToMonth(y, 6) == march + 92
  {
    assert DaysToMonth(y, 2) == DaysToMonth(y, 1) + 31;
    assert DaysToMonth(y, 4) == DaysToMonth(y, 3) + 31;
    assert DaysToMonth(y, 5) == DaysToMonth(y, 4) + 30;
    assert DaysToMonth(y, 6) == DaysToMonth(y, 5) + 31;
  }

  lemma LaterMonths(y: int)
    ensures var june := DaysToMonth(y, 6);
            && DaysToMonth(y, 7) == june + 30 && DaysToMonth(y, 8) == june + 61 && DaysToMonth(y, 9) == june + 92
            && DaysToMonth(y, 10) == june + 122 && DaysToMonth(y, 11) == june + 153 && DaysToMonth(y, 12) == june + 183
  {
    assert DaysToMonth(y, 7) == DaysToMonth(y, 6) + 30;
    assert DaysToMonth(y, 8) == DaysToMonth(y, 7) + 31;
    assert DaysToMonth(y, 9) == DaysToMonth(y, 8) + 31;
    assert DaysToMonth(y, 10) == DaysToMonth(y, 9) + 30;
    assert DaysToMonth(y, 11) == DaysToMonth(y, 10) + 31;
    assert DaysToMonth(y, 12) == DaysToMonth(y, 11) + 30;
  }

  lemma ClosedFormCounts(y: Int32, m: nat, d: nat)
    requires y >= 1970 && 1 <= m <= 12 && 1 <= d <= 31
    ensures CivilDays(y, m, d) == DayCount(y, m, d)
  {
    ClosedForm(y, m, d);
    YearsCount(y);
    MonthsCount(y, m);
    MonthTable(if m > 2 then m - 3 else m + 9);
    MarchStep(y);
  }

  lemma {:induction false} EarlierYears(y: int)
    requires y <= 1968
    ensures MarchDays(y) + 365 * (1968 - y) <= MarchDays(1968)
    decreases 1968 - y
  {
    if y < 1968 {
      EarlierYears(y + 1);
      MarchStep(y + 1);
    }
  }

  lemma BeforeEpoch(y: Int32, m: nat, d: nat)
    requires y < 1970 && Fits(y, m) && 1 <= m <= 12 && 1 <= d <= 31
    ensures CivilDays(y, m, d) < 0
  {
    ClosedForm(y, m, d);
    MonthTable(if m > 2 then m - 3 else m + 9);
    assert MarchDays(1968) == 718797;
    assert MarchDays(1969) == 719162;
    if m <= 2 {
      EarlierYears(y - 1);
    } else if y < 1969 {
      EarlierYears(y);
    }
  }

  /** Where it does not stay within 32 bits the day is more than two billion years ahead. */
  lemma FarPastWraps(y: Int32, m: nat, d: nat)
    requires 1 <= m <= 12 && d >= 1 && !Fits(y, m)
    ensures CivilDays(y, m, d) > 784_000_000_000
  {
    var year := if m <= 2 then Wrap(y - 1) else y;
    EraBound(year);
    assert Era(year) >= 5368708;
  }

  /** The count from 1970 on, and nothing for an earlier year or a field out of range. */
  function Counted(y: int, m: nat, d: nat, hh: nat, mm: nat, ss: nat): Option<nat>
  {
    if InRange(m, d, hh, mm, ss) && y >= 1970 then Some(DayCount(y, m, d) * 86400 + hh * 3600 + mm * 60 + ss) else None
  }

  /** The closed form is the count exactly when its year stays within 32 bits; where not, a far past has a time. */
  lemma EpochCounts(y: Int32, m: nat, d: nat, hh: nat, mm: nat, ss: nat)
    ensures EpochFromCivil(y, m, d, hh, mm, ss) == Counted(y, m, d, hh, mm, ss)
            <==> !InRange(m, d, hh, mm, ss) || Fits(y, m)
    ensures InRange(m, d, hh, mm, ss) && !Fits(y, m) ==> EpochFromCivil(y, m, d, hh, mm, ss).Some? && y < 1970
  {
    if InRange(m, d, hh, mm, ss) {
      if !Fits(y, m) {
        FarPastWraps(y, m, d);
      } else if y >= 1970 {
        ClosedFormCounts(y, m, d);
      } else {
        BeforeEpoch(y, m, d);
      }
    }
  }

  /** The failing input: 6 November of the year -2^31, 08:49:37. */
  lemma FarPastHasATime()
    ensures EpochFromCivil(MIN32, 11, 6, 8, 49, 37) == Some(67767976260230400 + 8 * 3600 + 49 * 60 + 37)
    ensures Counted(MIN32, 11, 6, 8, 49, 37) == None
  {
    assert Wrap(MIN32 - 399) == 2147483249 && Era(MIN32) == 5368708;
    assert YearOfEra(MIN32) == 448;
  }

  // ----- order -----

  lemma {:induction false} MonthsGrow(y: int, a: nat, b: nat)
    requires 1 <= a < b <= 12
    ensures DaysToMonth(y, a) + MonthLength(y, a) <= DaysToMonth(y, b)
  {
    if a < b - 1 {
      MonthsGrow(y, a, b - 1);
    }
  }

  lemma YearHolds(y: int, m: nat)
    requires 1 <= m <= 12
    ensures DaysToMonth(y, m) + MonthLength(y, m) <= YearLength(y)
  {
    MonthsCount(y, 12);
    if m < 12 {
      MonthsGrow(y, m, 12);
    }
  }

  lemma {:induction false} YearsGrow(a: int, b: int)
    requires 1970 <= a < b
    ensures DaysToYear(a) + YearLength(a) <= DaysToYear(b)
    decreases b
  {
    if a < b - 1 {
      YearsGrow(a, b - 1);
    }
  }

  predicate Earlier(y1: int, m1: nat, d1: nat, y2: int, m2: nat, d2: nat)
  {
    y1 < y2 || (y1 == y2 && (m1 < m2 || (m1 == m2 && d1 < d2)))
  }

  lemma DatesGrow(y1: int, m1: nat, d1: nat, y2: int, m2: nat, d2: nat)
    requires y1 >= 1970 && ValidDate(y1, m1, d1) && ValidDate(y2, m2, d2) && Earlier(y1, m1, d1, y2, m2, d2)
    ensures DayCount(y1, m1, d1) < DayCount(y2, m2, d2)
  {
    if y1 < y2 {
      YearHolds(y1, m1);
      YearsGrow(y1, y2);
    } else if m1 < m2 {
      MonthsGrow(y1, m1, m2);
    }
  }

  /** Seconds since midnight, with leap seconds left out. */
  predicate ValidTime(hh: nat, mm: nat, ss: nat) { hh <= 23 && mm <= 59 && ss <= 59 }

  function SecondOfDay(hh: nat, mm: nat, ss: nat): nat { hh * 3600 + mm * 60 + ss }

  /** Later moments have larger epoch seconds. */
  lemma EpochIsStrictlyIncreasing(y1: Int32, m1: nat, d1: nat, h1: nat, i1: nat, s1: nat, y2: Int32, m2: nat,
                                  d2: nat, h2: nat, i2: nat, s2: nat)
    requires y1 >= 1970 && y2 >= 1970 && ValidDate(y1, m1, d1) && ValidDate(y2, m2, d2)
    requires ValidTime(h1, i1, s1) && ValidTime(h2, i2, s2)
    requires Earlier(y1, m1, d1, y2, m2, d2)
             || (y1 == y2 && m1 == m2 && d1 == d2 && SecondOfDay(h1, i1, s1) < SecondOfDay(h2, i2, s2))
    ensures EpochFromCivil(y1, m1, d1, h1, i1, s1).Some? && EpochFromCivil(y2, m2, d2, h2, i2, s2).Some?
    ensures EpochFromCivil(y1, m1, d1, h1, i1, s1).value < EpochFromCivil(y2, m2, d2, h2, i2, s2).value
  {
    EpochCounts(y1, m1, d1, h1, i1, s1);
    EpochCounts(y2, m2, d2, h2, i2, s2);
    if Earlier(y1, m1, d1, y2, m2, d2) {
      DatesGrow(y1, m1, d1, y2, m2, d2);
    }
  }
}

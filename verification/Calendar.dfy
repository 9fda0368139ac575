/** `civil_from_days`, which names the GUI's log file of the day: gui/src/logging.rs. */
module Calendar {
  import opened Bytes

  datatype Date = Date(year: int, month: nat, day: nat)

  // ---- The Gregorian calendar ----

  predicate IsLeap(y: int) { y % 4 == 0 && (y % 100 != 0 || y % 400 == 0) }

  function DaysInMonth(y: int, m: nat): nat
    requires 1 <= m <= 12
  {
    if m == 2 then (if IsLeap(y) then 29 else 28)
    else if m in {4, 6, 9, 11} then 30 else 31
  }

  predicate ValidDate(d: Date) {
    1 <= d.month <= 12 && 1 <= d.day <= DaysInMonth(d.year, d.month)
  }

  function NextDay(d: Date): Date
    requires ValidDate(d)
  {
    if d.day < DaysInMonth(d.year, d.month) then d.(day := d.day + 1)
    else if d.month < 12 then Date(d.year, d.month + 1, 1)
    else Date(d.year + 1, 1, 1)
  }

  function DaysInYear(y: int): nat { if IsLeap(y) then 366 else 365 }

  /** Days from 1 January of year 1 to 1 January of `y`, counted year by year in either direction. */
  function DaysBeforeYear(y: int): int
    decreases if y > 1 then y - 1 else 1 - y
  {
    if y == 1 then 0
    else if y > 1 then DaysBeforeYear(y - 1) + DaysInYear(y - 1)
    else DaysBeforeYear(y + 1) - DaysInYear(y)
  }

  function DaysBeforeMonth(y: int, m: nat): nat
    requires 1 <= m <= 12
  {
    if m == 1 then 0 else DaysBeforeMonth(y, m - 1) + DaysInMonth(y, m - 1)
  }

  /** Day number of 1 January 1970 counted from year 1. */
  const EPOCH := 719_162

  lemma EpochIs()
    ensures EPOCH == DaysBeforeYear(1970)
  {
    YearFormulaHolds(1970);
  }

  /** Days since 1 January 1970. */
  function DaysFromCivil(d: Date): int
    requires ValidDate(d)
  {
    DaysBeforeYear(d.year) + DaysBeforeMonth(d.year, d.month) + d.day - 1 - EPOCH
  }

  lemma YearLength(y: int)
    ensures DaysBeforeYear(y + 1) == DaysBeforeYear(y) + DaysInYear(y)
  {
  }

  function YearFormula(y: int): int { 365 * (y - 1) + (y - 1) / 4 - (y - 1) / 100 + (y - 1) / 400 }

  lemma NextQuotient(n: int)
    ensures (n + 1) / 4 == n / 4 + if (n + 1) % 4 == 0 then 1 else 0
    ensures (n + 1) / 100 == n / 100 + if (n + 1) % 100 == 0 then 1 else 0
    ensures (n + 1) / 400 == n / 400 + if (n + 1) % 400 == 0 then 1 else 0
  {
  }

  lemma FormulaStep(y: int)
    ensures YearFormula(y + 1) == YearFormula(y) + DaysInYear(y)
  {
    NextQuotient(y - 1);
    LeapCount(y);
  }

  lemma LeapCount(y: int)
    ensures DaysInYear(y) == 365 + (if y % 4 == 0 then 1 else 0) - (if y % 100 == 0 then 1 else 0)
                             + (if y % 400 == 0 then 1 else 0)
  {
    var c, e := y / 100, y / 400;
    if y % 400 == 0 {
      assert y == 100 * (4 * e) == 4 * (100 * e);
    } else if y % 100 == 0 {
      assert y == 4 * (25 * c);
    }
  }

  /** The usual formula counts the leap years. */
  lemma {:induction false} YearFormulaHolds(y: int)
    ensures DaysBeforeYear(y) == YearFormula(y)
    decreases if y > 1 then y - 1 else 1 - y
  {
    if y > 1 {
      YearFormulaHolds(y - 1);
      FormulaStep(y - 1);
    } else if y < 1 {
      YearFormulaHolds(y + 1);
      FormulaStep(y);
    }
  }

  lemma MonthStarts(y: int)
    ensures DaysBeforeMonth(y, 1) == 0 && DaysBeforeMonth(y, 2) == 31
    ensures var feb := if IsLeap(y) then 29 else 28;
            && DaysBeforeMonth(y, 3) == 31 + feb && DaysBeforeMonth(y, 4) == 62 + feb
            && DaysBeforeMonth(y, 5) == 92 + feb
            && DaysBeforeMonth(y, 6) == 123 + feb && DaysBeforeMonth(y, 7) == 153 + feb
            && DaysBeforeMonth(y, 8) == 184 + feb
            && DaysBeforeMonth(y, 9) == 215 + feb && DaysBeforeMonth(y, 10) == 245 + feb
            && DaysBeforeMonth(y, 11) == 276 + feb
            && DaysBeforeMonth(y, 12) == 306 + feb
  {
    assert DaysBeforeMonth(y, 2) == DaysBeforeMonth(y, 1) + 31;
    assert DaysBeforeMonth(y, 3) == DaysBeforeMonth(y, 2) + DaysInMonth(y, 2);
    assert DaysBeforeMonth(y, 4) == DaysBeforeMonth(y, 3) + 31;
    assert DaysBeforeMonth(y, 5) == DaysBeforeMonth(y, 4) + 30;
    assert DaysBeforeMonth(y, 6) == DaysBeforeMonth(y, 5) + 31;
    assert DaysBeforeMonth(y, 7) == DaysBeforeMonth(y, 6) + 30;
    assert DaysBeforeMonth(y, 8) == DaysBeforeMonth(y, 7) + 31;
    assert DaysBeforeMonth(y, 9) == DaysBeforeMonth(y, 8) + 31;
    assert DaysBeforeMonth(y, 10) == DaysBeforeMonth(y, 9) + 30;
    assert DaysBeforeMonth(y, 11) == DaysBeforeMonth(y, 10) + 31;
    assert DaysBeforeMonth(y, 12) == DaysBeforeMonth(y, 11) + 30;
  }

  /** The day number is what counting days gives. */
  lemma DayNumbersCount(d: Date)
    requires ValidDate(d)
    ensures ValidDate(NextDay(d)) && DaysFromCivil(NextDay(d)) == DaysFromCivil(d) + 1
    ensures DaysFromCivil(Date(1970, 1, 1)) == 0
  {
    EpochIs();
    if d.month == 12 {
      YearLength(d.year);
      MonthStarts(d.year);
    }
  }

  // ---- The algorithm ----

  predicate FitsI32(y: int) { -0x8000_0000 <= y < 0x8000_0000 }

  /** `as i32`: wraps around until the value fits. */
  function AsI32(y: int): (r: int)
    ensures FitsI32(r)
    decreases if y < 0 then -y else y + 1
  {
    if FitsI32(y) then y
    else if y < 0 then AsI32(y + 0x1_0000_0000)
    else AsI32(y - 0x1_0000_0000)
  }

  /** Year of the 400-year era; no subtraction goes below zero. */
  function YearOfEra(doe: nat): nat
    requires doe < 146_097
  {
    var a: nat := doe - doe / 1460;
    var b: nat := a + doe / 36_524 - doe / 146_096;
    b / 365
  }

  /** Days of the era before its year `yoe`, which begins in March. */
  function EraDays(yoe: nat): nat { 365 * yoe + yoe / 4 - yoe / 100 }

  /** Day of the March-based year on which month `mp` begins. */
  function MonthStart(mp: nat): nat { (153 * mp + 2) / 5 }

  function MonthOf(mp: nat): nat { if mp < 10 then mp + 3 else mp - 9 }

  /** Day `doy` of year `yoe` of era `era`, counted from 1 March. */
  function EraDate(era: int, yoe: nat, doy: nat): Date
    requires doy <= 365
  {
    var y := yoe + era * 400;
    var mp := (5 * doy + 2) / 153;
    MonthOfYear(doy);
    var before: nat := doy - MonthStart(mp);
    var d := before + 1;
    var m := MonthOf(mp);
    Date(if m <= 2 then y + 1 else y, m, d)
  }

  /** Day `doe` of era `era`. */
  function EraDay(era: int, doe: nat): Date
    requires doe < 146_097
  {
    var yoe := YearOfEra(doe);
    YearOfEraIsRight(doe);
    EraDate(era, yoe, doe - EraDays(yoe))
  }

  /** The computation before the cast of the year. */
  function CivilUncast(z: int): Date {
    var n := z + 719_468;
    EraDay(n / 146_097, n % 146_097)
  }

  function CivilFromDays(z: int): Date {
    var d := CivilUncast(z);
    d.(year := AsI32(d.year))
  }

  // ---- Years of an era ----

  /** Length of the era's year `yoe`: it contains the February of the next calendar year. */
  function EraYearLength(yoe: nat): nat { if IsLeap(yoe + 1) then 366 else 365 }

  lemma EraDaysStep(yoe: nat)
    requires yoe < 400
    ensures EraDays(yoe) + EraYearLength(yoe) == if yoe == 399 then 146_097 else EraDays(yoe + 1)
  {
    assert (yoe + 1) / 4 == yoe / 4 + if (yoe + 1) % 4 == 0 then 1 else 0;
    assert (yoe + 1) / 100 == yoe / 100 + if (yoe + 1) % 100 == 0 then 1 else 0;
  }

  /** The year a day of the era falls in. */
  lemma {:induction false} YearExists(doe: nat, y: nat) returns (yoe: nat)
    requires doe < 146_097 && y < 400 && EraDays(y) <= doe
    ensures yoe < 400 && EraDays(yoe) <= doe < EraDays(yoe) + EraYearLength(yoe)
    decreases 400 - y
  {
    EraDaysStep(y);
    if doe < EraDays(y) + EraYearLength(y) {
      yoe := y;
    } else {
      yoe := YearExists(doe, y + 1);
    }
  }

  /** The quotient of four-year cycles is off by at most the leap day it has to absorb. */
  lemma CycleQuotient(yoe: nat, doy: nat)
    requires yoe < 400 && doy < EraYearLength(yoe)
    ensures var t := yoe / 4 - (EraDays(yoe) + doy) / 1460; -1 <= t <= 0 && 0 <= doy + t <= 364
  {
    var q, s, h := yoe / 4, yoe % 4, yoe / 100;
    assert EraDays(yoe) + doy == 1460 * q + (365 * s + q - h + doy);
    assert q - h <= 96;
  }

  /** The quotient of centuries only differs on the last day of the era, where the last term corrects it. */
  lemma CenturyQuotient(yoe: nat, doy: nat)
    requires yoe < 400 && doy < EraYearLength(yoe)
    ensures var doe := EraDays(yoe) + doy; doe < 146_097 && doe / 36_524 - doe / 146_096 == yoe / 100
  {
    var h, r := yoe / 100, yoe % 100;
    var doe := EraDays(yoe) + doy;
    assert yoe / 4 == 25 * h + r / 4;
    assert doe == 36_524 * h + (365 * r + r / 4 + doy);
    if r == 99 && doy == 365 {
      assert yoe == 399;
    } else {
      assert 365 * r + r / 4 + doy < 36_524;
    }
  }

  /** The closed formula finds the year. */
  lemma YearOfEraIsRight(doe: nat)
    requires doe < 146_097
    ensures var yoe := YearOfEra(doe); yoe < 400 && EraDays(yoe) <= doe < EraDays(yoe) + EraYearLength(yoe)
  {
    assert EraDays(0) == 0;
    var yoe := YearExists(doe, 0);
    var doy := doe - EraDays(yoe);
    CycleQuotient(yoe, doy);
    CenturyQuotient(yoe, doy);
    YearQuotient(yoe, doy + (yoe / 4 - doe / 1460));
    assert doe - doe / 1460 + doe / 36_524 - doe / 146_096 == 365 * yoe + (doy + (yoe / 4 - doe / 1460));
  }

  lemma YearQuotient(yoe: nat, rest: int)
    requires 0 <= rest <= 364
    ensures (365 * yoe + rest) / 365 == yoe
  {
  }

  // ---- Months ----

  /** Day `doy` of a year that begins in March. */
  lemma MonthOfYear(doy: nat)
    requires doy <= 365
    ensures var mp := (5 * doy + 2) / 153;
            && mp <= 11 && (153 * mp + 2) / 5 <= doy && (mp < 11 ==> doy < (153 * (mp + 1) + 2) / 5)
            && (153 * mp + 2) / 5 == [0, 31, 61, 92, 122, 153, 184, 214, 245, 275, 306, 337][mp]
  {
  }

  /** Month `mp` of the year that begins on 1 March of `y`. */
  lemma MonthOnTheCalendar(y: int, mp: nat)
    requires mp <= 11
    ensures var cy := if mp < 10 then y else y + 1;
            && DaysBeforeYear(cy) + DaysBeforeMonth(cy, MonthOf(mp)) == DaysBeforeYear(y + 1) + MonthStart(mp) - 306
            && DaysInMonth(cy, MonthOf(mp))
               == (if mp < 11 then MonthStart(mp + 1) else DaysInYear(y + 1)) - MonthStart(mp)
  {
    YearLength(y);
    if mp < 10 {
      MonthStarts(y);
    } else {
      MonthStarts(y + 1);
    }
  }

  lemma By4(n: nat, era: int)
    ensures (n + 400 * era) / 4 == n / 4 + 100 * era && (n + 400 * era) % 4 == n % 4
  {
  }

  lemma By100(n: nat, era: int)
    ensures (n + 400 * era) / 100 == n / 100 + 4 * era && (n + 400 * era) % 100 == n % 100
  {
  }

  lemma By400(n: nat, era: int)
    ensures (n + 400 * era) / 400 == n / 400 + era && (n + 400 * era) % 400 == n % 400
  {
  }

  /** Year `yoe` of era `era` begins on a 1 March, and holds the leap day of the calendar year that follows. */
  lemma MarchFirst(yoe: nat, era: int)
    requires yoe < 400
    ensures DaysBeforeYear(yoe + 400 * era + 1) == EraDays(yoe) + 146_097 * era
    ensures IsLeap(yoe + 400 * era + 1) <==> IsLeap(yoe + 1)
  {
    YearFormulaHolds(yoe + 400 * era + 1);
    By4(yoe, era);
    By4(yoe + 1, era);
    By100(yoe, era);
    By100(yoe + 1, era);
    By400(yoe, era);
    By400(yoe + 1, era);
  }

  lemma EraDateIsRight(era: int, yoe: nat, doy: nat)
    requires yoe < 400 && doy < EraYearLength(yoe)
    ensures var d := EraDate(era, yoe, doy);
            ValidDate(d) && DaysFromCivil(d) == 146_097 * era + EraDays(yoe) + doy - 719_468
  {
    MonthOfYear(doy);
    MarchFirst(yoe, era);
    MonthDate(yoe + era * 400, (5 * doy + 2) / 153, doy);
  }

  /** Day `doy` of the year that begins on 1 March of `y`, if it falls into month `mp`. */
  lemma MonthDate(y: int, mp: nat, doy: nat)
    requires mp <= 11 && MonthStart(mp) <= doy
    requires doy < if mp < 11 then MonthStart(mp + 1) else DaysInYear(y + 1)
    ensures var d := Date(if mp < 10 then y else y + 1, MonthOf(mp), doy - MonthStart(mp) + 1);
            ValidDate(d) && DaysFromCivil(d) == DaysBeforeYear(y + 1) + doy - 306 - EPOCH
  {
    MonthOnTheCalendar(y, mp);
  }

  lemma EraDayIsRight(era: int, doe: nat)
    requires doe < 146_097
    ensures ValidDate(EraDay(era, doe)) && DaysFromCivil(EraDay(era, doe)) == 146_097 * era + doe - 719_468
  {
    YearOfEraIsRight(doe);
    var yoe := YearOfEra(doe);
    EraDateIsRight(era, yoe, doe - EraDays(yoe));
  }

  /** The date is valid and has the day number it was computed from, for every day. */
  lemma CivilUncastIsRight(z: int)
    ensures ValidDate(CivilUncast(z)) && DaysFromCivil(CivilUncast(z)) == z
  {
    var n := z + 719_468;
    EraDayIsRight(n / 146_097, n % 146_097);
  }

  // ---- The calendar side ----

  /** Whole years and months pass between a date and any later one. */
  lemma {:induction false} YearsPass(y: int, w: int)
    requires y <= w
    ensures DaysBeforeYear(w) >= DaysBeforeYear(y) + 365 * (w - y)
    decreases w - y
  {
    if y < w {
      YearsPass(y, w - 1);
      YearLength(w - 1);
    }
  }

  lemma {:induction false} MonthsPass(y: int, m: nat, k: nat)
    requires 1 <= m < k <= 12
    ensures DaysBeforeMonth(y, m) + DaysInMonth(y, m) <= DaysBeforeMonth(y, k)
    decreases k - m
  {
    if m + 1 < k {
      MonthsPass(y, m, k - 1);
    }
  }

  /** A date lies inside its year. */
  lemma InsideTheYear(d: Date)
    requires ValidDate(d)
    ensures DaysBeforeYear(d.year) <= DaysFromCivil(d) + EPOCH < DaysBeforeYear(d.year + 1)
  {
    MonthStarts(d.year);
    YearLength(d.year);
    if d.month < 12 {
      MonthsPass(d.year, d.month, 12);
    }
  }

  /** Two dates never share a day number. */
  lemma DayNumbersAreUnique(a: Date, b: Date)
    requires ValidDate(a) && ValidDate(b) && DaysFromCivil(a) == DaysFromCivil(b)
    ensures a == b
  {
    InsideTheYear(a);
    InsideTheYear(b);
    if a.year < b.year {
      YearsPass(a.year + 1, b.year);
    } else if b.year < a.year {
      YearsPass(b.year + 1, a.year);
    } else if a.month < b.month {
      MonthsPass(a.year, a.month, b.month);
    } else if b.month < a.month {
      MonthsPass(a.year, b.month, a.month);
    }
  }

  /** The algorithm inverts day numbering on every valid date. */
  lemma CivilInverts(d: Date)
    requires ValidDate(d)
    ensures CivilUncast(DaysFromCivil(d)) == d
  {
    CivilUncastIsRight(DaysFromCivil(d));
    DayNumbersAreUnique(CivilUncast(DaysFromCivil(d)), d);
  }

  /** Day numbers one apart belong to consecutive dates. */
  lemma Consecutive(d: Date, e: Date)
    requires ValidDate(d) && ValidDate(e) && DaysFromCivil(e) == DaysFromCivil(d) + 1
    ensures e == NextDay(d)
  {
    DayNumbersCount(d);
    DayNumbersAreUnique(e, NextDay(d));
  }

  // ---- The cast of the year ----

  /** The days whose year fits the result type. */
  predicate InRange(z: int) { -784_353_015_833 <= z < 784_351_576_777 }

  lemma FirstOfRange()
    ensures DaysBeforeYear(-0x8000_0000) == EPOCH - 784_353_015_833
  {
    YearFormulaHolds(-0x8000_0000);
  }

  lemma EndOfRange()
    ensures DaysBeforeYear(0x8000_0000) == EPOCH + 784_351_576_777
  {
    YearFormulaHolds(0x8000_0000);
  }

  lemma RangeOfDates(d: Date)
    requires ValidDate(d)
    ensures FitsI32(d.year) <==> InRange(DaysFromCivil(d))
  {
    InsideTheYear(d);
    FirstOfRange();
    EndOfRange();
    if d.year < -0x8000_0000 {
      YearsPass(d.year + 1, -0x8000_0000);
    } else if d.year >= 0x8000_0000 {
      YearsPass(0x8000_0000, d.year);
    } else {
      YearsPass(-0x8000_0000, d.year);
      YearsPass(d.year + 1, 0x8000_0000);
    }
  }

  lemma InRangeIff(z: int)
    ensures InRange(z) <==> FitsI32(CivilUncast(z).year)
  {
    CivilUncastIsRight(z);
    RangeOfDates(CivilUncast(z));
  }

  /** The wrapped value in one step. */
  lemma {:induction false} CastIsModular(y: int)
    ensures AsI32(y) == (y + 0x8000_0000) % 0x1_0000_0000 - 0x8000_0000
    decreases if y < 0 then -y else y + 1
  {
    if y < -0x8000_0000 {
      CastIsModular(y + 0x1_0000_0000);
    } else if y >= 0x8000_0000 {
      CastIsModular(y - 0x1_0000_0000);
    }
  }

  /** A date whose year wraps is no longer the date of its day, if it is a date at all. */
  lemma CastDateIff(d: Date)
    requires ValidDate(d)
    ensures var w := d.(year := AsI32(d.year));
            (ValidDate(w) && DaysFromCivil(w) == DaysFromCivil(d)) <==> FitsI32(d.year)
  {
    var w := d.(year := AsI32(d.year));
    if ValidDate(w) && DaysFromCivil(w) == DaysFromCivil(d) {
      DayNumbersAreUnique(w, d);
    }
  }

  /** The function answers with the date of day `z` exactly when `z` is in range; outside, the year wraps. */
  lemma CivilFromDaysIff(z: int)
    ensures (ValidDate(CivilFromDays(z)) && DaysFromCivil(CivilFromDays(z)) == z) <==> InRange(z)
  {
    CivilUncastIsRight(z);
    InRangeIff(z);
    CastDateIff(CivilUncast(z));
  }

  lemma CastKeeps(z: int)
    requires InRange(z)
    ensures CivilFromDays(z) == CivilUncast(z)
  {
    InRangeIff(z);
  }

  /** Day 0 is 1 January 1970. */
  lemma DayZero()
    ensures CivilFromDays(0) == Date(1970, 1, 1)
  {
    var d := Date(1970, 1, 1);
    EpochIs();
    assert DaysFromCivil(d) == 0;
    CivilInverts(d);
    CastKeeps(0);
  }

  /** Consecutive days of the range get consecutive dates. */
  lemma LogNamesFollowTheCalendar(z: int)
    requires InRange(z) && InRange(z + 1)
    ensures ValidDate(CivilFromDays(z)) && CivilFromDays(z + 1) == NextDay(CivilFromDays(z))
  {
    CastKeeps(z);
    CastKeeps(z + 1);
    CivilUncastIsRight(z);
    CivilUncastIsRight(z + 1);
    Consecutive(CivilFromDays(z), CivilFromDays(z + 1));
  }
}

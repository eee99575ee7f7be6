/** `civil_from_days` of `log.rs`: days since 1970-01-01 to a Gregorian date. */
module Calendar {

  datatype Date = Date(year: int, month: int, day: int)

  /** Division that rounds towards zero, as on machine integers. */
  function Quot(a: int, b: int): int
    requires b > 0
  {
    if a >= 0 then a / b else -((-a) / b)
  }

  // ---- the source's computation ---------------------------------------------------------------

  function EraOf(z: int): int {
    Quot(if z >= 0 then z else z - 146_096, 146_097)
  }

  function YearOfEra(doe: int): int {
    (doe - doe / 1460 + doe / 36_524 - doe / 146_096) / 365
  }

  function YearStart(yoe: int): int {
    365 * yoe + yoe / 4 - yoe / 100
  }

  function MonthStart(mp: int): int {
    (153 * mp + 2) / 5
  }

  function MonthPart(doy: int): int {
    (5 * doy + 2) / 153
  }

  function MonthOf(mp: int): int {
    if mp < 10 then mp + 3 else mp - 9
  }

  function FromDayOfYear(y: int, doy: int): Date {
    var mp := MonthPart(doy);
    var day := doy - MonthStart(mp) + 1;
    var month := MonthOf(mp);
    Date(if month <= 2 then y + 1 else y, month, day)
  }

  function FromYearOfEra(era: int, doe: int, yoe: int): Date {
    FromDayOfYear(yoe + era * 400, doe - YearStart(yoe))
  }

  /** From the day number counted from 0000-03-01. */
  function FromEpoch(z: int): Date {
    var era := EraOf(z);
    var doe := z - era * 146_097;
    FromYearOfEra(era, doe, YearOfEra(doe))
  }

  function CivilFromDays(days: int): Date {
    FromEpoch(days + 719_468)
  }

  // ---- the Gregorian calendar -----------------------------------------------------------------

  predicate IsLeap(year: int) {
    year % 4 == 0 && (year % 100 != 0 || year % 400 == 0)
  }

  function MonthLength(year: int, month: int): int {
    if month == 2 then if IsLeap(year) then 29 else 28
    else if month == 4 || month == 6 || month == 9 || month == 11 then 30
    else 31
  }

  predicate IsDate(d: Date) {
    1 <= d.month <= 12 && 1 <= d.day <= MonthLength(d.year, d.month)
  }

  function NextDay(d: Date): Date {
    if d.day < MonthLength(d.year, d.month) then d.(day := d.day + 1)
    else if d.month < 12 then Date(d.year, d.month + 1, 1)
    else Date(d.year + 1, 1, 1)
  }

  // ---- counting days ----------------------------------------------------------------------------

  /** Years that begin in March: the one a date falls in, and the month of it. */
  function MarchYear(d: Date): int {
    if d.month <= 2 then d.year - 1 else d.year
  }

  function MarchMonth(d: Date): int {
    if d.month >= 3 then d.month - 3 else d.month + 9
  }

  /** Days from 1970-01-01, counted in whole 400-year eras, years, months and days. */
  function DaysTo(d: Date): int {
    var y := MarchYear(d);
    y / 400 * 146_097 + YearStart(y % 400) + MonthStart(MarchMonth(d)) + d.day - 1 - 719_468
  }

  // ---- each intermediate is inside its bound ------------------------------------------------------

  lemma EraBounds(z: int)
    ensures 0 <= z - EraOf(z) * 146_097 <= 146_096
  {
    if z < 0 {
      var q := (146_096 - z) / 146_097;
      assert q * 146_097 <= 146_096 - z < (q + 1) * 146_097;
      assert z == -q * 146_097 + (z + q * 146_097);
    }
  }

  /** A day of the era as centuries, four-year groups and days. */
  lemma DayParts(doe: int, b: int, q: int, s: int)
    requires 0 <= b <= 3 && 0 <= q <= 24 && 0 <= s <= 1460 && doe == 36_524 * b + 1461 * q + s && 1461 * q + s < 36_524
    ensures YearOfEra(doe) == 100 * b + 4 * q + (if s == 1460 then 3 else s / 365)
  {
    assert doe / 36_524 == b;
    assert doe / 146_096 == 0;
    var e := if 24 * b + q + s >= 1460 then 1 else 0;
    assert doe == 1460 * (25 * b + q) + (24 * b + q + s);
    assert doe / 1460 == 25 * b + q + e;
    assert doe - doe / 1460 + doe / 36_524 - doe / 146_096 == 365 * (100 * b + 4 * q) + (s - e);
  }

  lemma YearStartParts(b: int, q: int, t: int)
    requires 0 <= b <= 3 && 0 <= q <= 24 && 0 <= t <= 3
    ensures YearStart(100 * b + 4 * q + t) == 36_524 * b + 1461 * q + 365 * t
  {
    var y := 100 * b + 4 * q + t;
    assert y / 4 == 25 * b + q && y / 100 == b;
  }

  function YearLength(yoe: int): int {
    if IsLeap(yoe + 1) then 366 else 365
  }

  lemma LengthParts(b: int, q: int, t: int)
    requires 0 <= b <= 3 && 0 <= q <= 24 && 0 <= t <= 3
    ensures YearLength(100 * b + 4 * q + t) == if t == 3 && (q < 24 || b == 3) then 366 else 365
  {
    var y := 100 * b + 4 * q + t + 1;
    assert y == 4 * (25 * b + q) + (t + 1);
    if t == 3 {
      assert y % 4 == 0;
      assert y == 100 * b + (4 * q + 4);
      assert y % 100 == 0 <==> q == 24;
    }
  }

  /** The year found is the one the day falls in. */
  lemma YearBounds(doe: int)
    requires 0 <= doe <= 146_096
    ensures var y := YearOfEra(doe); 0 <= y <= 399 && 0 <= doe - YearStart(y) < YearLength(y)
  {
    if doe == 146_096 {
      assert YearOfEra(doe) == 399;
    } else {
      var b := doe / 36_524;
      var r := doe - 36_524 * b;
      var q := r / 1461;
      var s := r - 1461 * q;
      DayParts(doe, b, q, s);
      var t := if s == 1460 then 3 else s / 365;
      YearStartParts(b, q, t);
      LengthParts(b, q, t);
    }
  }

  lemma MonthBounds(doy: int)
    requires 0 <= doy <= 365
    ensures var mp := MonthPart(doy); 0 <= mp <= 11 && MonthStart(mp) <= doy && (mp < 11 ==> doy < MonthStart(mp + 1))
  {}

  lemma MonthLengths(mp: int)
    requires 0 <= mp <= 10
    ensures MonthStart(mp + 1) - MonthStart(mp) == MonthLength(0, MonthOf(mp))
    ensures MonthOf(mp) != 2
  {}

  lemma Modulo4(x: int, k: int)
    ensures (x + 4 * k) % 4 == x % 4
  {}

  lemma Modulo100(x: int, k: int)
    ensures (x + 100 * k) % 100 == x % 100
  {}

  lemma Modulo400(x: int, k: int)
    ensures (x + 400 * k) % 400 == x % 400
  {}

  lemma LeapRepeats(era: int, yoe: int)
    ensures IsLeap(yoe + era * 400) == IsLeap(yoe)
  {
    Modulo4(yoe, era * 100);
    Modulo100(yoe, era * 4);
    Modulo400(yoe, era);
  }

  // ---- the theorems ---------------------------------------------------------------------------------

  /** How long a month of a March year is. */
  function PartLength(yoe: int, mp: int): int {
    if mp == 11 then YearLength(yoe) - MonthStart(11) else MonthStart(mp + 1) - MonthStart(mp)
  }

  function DateOf(y: int, mp: int, day: int): Date {
    Date(if MonthOf(mp) <= 2 then y + 1 else y, MonthOf(mp), day)
  }

  lemma PartLengths(y: int, mp: int)
    requires 0 <= mp <= 11
    ensures var d := DateOf(y, mp, 1); MonthLength(d.year, d.month) == PartLength(y % 400, mp)
  {
    if mp == 11 {
      LeapRepeats(y / 400, y % 400 + 1);
      assert y % 400 + 1 + y / 400 * 400 == y + 1;
    } else {
      MonthLengths(mp);
    }
  }

  /** A March year, month and day name a date, which says the same of itself. */
  lemma DateOfParts(y: int, mp: int, day: int)
    requires 0 <= mp <= 11 && 1 <= day <= PartLength(y % 400, mp)
    ensures var d := DateOf(y, mp, day); IsDate(d) && MarchYear(d) == y && MarchMonth(d) == mp
  {
    PartLengths(y, mp);
  }

  lemma DayOfYearIsDate(y: int, doy: int)
    requires 0 <= doy < YearLength(y % 400)
    ensures IsDate(FromDayOfYear(y, doy))
    ensures DaysTo(FromDayOfYear(y, doy)) == y / 400 * 146_097 + YearStart(y % 400) + doy - 719_468
  {
    MonthBounds(doy);
    var mp := MonthPart(doy);
    DateOfParts(y, mp, doy - MonthStart(mp) + 1);
  }

  predicate Names(d: Date, days: int) {
    IsDate(d) && DaysTo(d) == days
  }

  lemma DayOfEraIsDate(era: int, doe: int, yoe: int)
    requires 0 <= yoe <= 399 && 0 <= doe - YearStart(yoe) < YearLength(yoe)
    ensures Names(FromYearOfEra(era, doe, yoe), era * 146_097 + doe - 719_468)
  {
    YearParts(era, yoe);
    DayOfYearIsDate(yoe + era * 400, doe - YearStart(yoe));
  }

  /** Every day number gives a date of the calendar, and counting the days to it gives the number back. */
  lemma CivilIsDate(days: int)
    ensures IsDate(CivilFromDays(days)) && DaysTo(CivilFromDays(days)) == days
  {
    EpochDay(days + 719_468);
  }

  lemma EpochDay(z: int)
    ensures Names(FromEpoch(z), z - 719_468)
  {
    EraBounds(z);
    var doe := z - EraOf(z) * 146_097;
    YearBounds(doe);
    DayOfEraIsDate(EraOf(z), doe, YearOfEra(doe));
  }

  lemma YearParts(era: int, yoe: int)
    requires 0 <= yoe <= 399
    ensures (yoe + era * 400) / 400 == era && (yoe + era * 400) % 400 == yoe
  {}

  lemma YearFollows(y: int)
    requires 0 <= y <= 398
    ensures YearStart(y + 1) == YearStart(y) + YearLength(y)
  {
    var b, q, t := y / 100, y % 100 / 4, y % 4;
    assert y == 100 * b + 4 * q + t;
    YearStartParts(b, q, t);
    LengthParts(b, q, t);
    if t < 3 {
      YearStartParts(b, q, t + 1);
    } else if q < 24 {
      YearStartParts(b, q + 1, 0);
    } else {
      YearStartParts(b + 1, 0, 0);
    }
  }

  lemma YearsGrow(y: int, w: int)
    requires 0 <= y < w <= 399
    ensures YearStart(y) + YearLength(y) <= YearStart(w)
  {
    YearFollows(y);
  }

  lemma LastDayOfEra()
    ensures YearStart(399) + YearLength(399) == 146_097
  {
    LengthParts(3, 24, 3);
  }

  lemma EraHolds(yoe: int, doy: int)
    requires 0 <= yoe <= 399 && 0 <= doy < YearLength(yoe)
    ensures 0 <= YearStart(yoe) + doy <= 146_096
  {
    LastDayOfEra();
    if yoe < 399 { YearsGrow(yoe, 399); }
  }

  /** Two days of an era in the same place are in the same year. */
  lemma SameYear(y: int, doy: int, w: int, dow: int)
    requires 0 <= y <= 399 && 0 <= doy < YearLength(y) && 0 <= w <= 399 && 0 <= dow < YearLength(w)
    requires YearStart(y) + doy == YearStart(w) + dow
    ensures y == w
  {
    if y < w { YearsGrow(y, w); }
    if w < y { YearsGrow(w, y); }
  }

  lemma SameEra(e: int, doe: int, f: int, dof: int)
    requires 0 <= doe <= 146_096 && 0 <= dof <= 146_096 && e * 146_097 + doe == f * 146_097 + dof
    ensures e == f && doe == dof
  {}

  lemma SameMonth(mp: int, day: int, np: int, other: int)
    requires 0 <= mp <= 11 && 0 <= np <= 11 && 1 <= day && 1 <= other && MonthStart(mp) + day == MonthStart(np) + other
    requires mp < 11 ==> day <= MonthStart(mp + 1) - MonthStart(mp)
    requires np < 11 ==> other <= MonthStart(np + 1) - MonthStart(np)
    ensures mp == np && day == other
  {}

  function DayOfYear(d: Date): int {
    MonthStart(MarchMonth(d)) + d.day - 1
  }

  lemma DateInYear(d: Date)
    requires IsDate(d)
    ensures 0 <= MarchMonth(d) <= 11 && d.day <= PartLength(MarchYear(d) % 400, MarchMonth(d))
    ensures 0 <= DayOfYear(d) < YearLength(MarchYear(d) % 400)
    ensures d == DateOf(MarchYear(d), MarchMonth(d), d.day)
  {
    PartLengths(MarchYear(d), MarchMonth(d));
  }

  /** Different dates have different day numbers. */
  lemma OneDatePerDay(a: Date, b: Date)
    requires IsDate(a) && IsDate(b) && DaysTo(a) == DaysTo(b)
    ensures a == b
  {
    var y, w := MarchYear(a), MarchYear(b);
    DateInYear(a);
    DateInYear(b);
    EraHolds(y % 400, DayOfYear(a));
    EraHolds(w % 400, DayOfYear(b));
    SameEra(y / 400, YearStart(y % 400) + DayOfYear(a), w / 400, YearStart(w % 400) + DayOfYear(b));
    SameYear(y % 400, DayOfYear(a), w % 400, DayOfYear(b));
    SameMonth(MarchMonth(a), a.day, MarchMonth(b), b.day);
  }

  /** Every date of the calendar is the one its day number gives. */
  lemma DateIsCivil(d: Date)
    requires IsDate(d)
    ensures CivilFromDays(DaysTo(d)) == d
  {
    CivilIsDate(DaysTo(d));
    OneDatePerDay(CivilFromDays(DaysTo(d)), d);
  }

  /** The next date is one day further. */
  lemma NextDayCounts(d: Date)
    requires IsDate(d)
    ensures IsDate(NextDay(d)) && DaysTo(NextDay(d)) == DaysTo(d) + 1
  {
    var y, mp := MarchYear(d), MarchMonth(d);
    assert DateOf(y, mp, d.day) == d;
    PartLengths(y, mp);
    if d.day == MonthLength(d.year, d.month) && mp == 11 { YearTurns(y); }
  }

  lemma YearTurns(y: int)
    ensures y / 400 * 146_097 + YearStart(y % 400) + YearLength(y % 400)
            == (y + 1) / 400 * 146_097 + YearStart((y + 1) % 400)
  {
    if y % 400 < 399 {
      YearFollows(y % 400);
      YearParts(y / 400, y % 400 + 1);
    } else {
      LastDayOfEra();
      YearParts(y / 400 + 1, 0);
    }
  }

  /** Consecutive day numbers give consecutive dates. */
  lemma DayByDay(days: int)
    ensures CivilFromDays(days + 1) == NextDay(CivilFromDays(days))
  {
    CivilIsDate(days);
    CivilIsDate(days + 1);
    NextDayCounts(CivilFromDays(days));
    OneDatePerDay(CivilFromDays(days + 1), NextDay(CivilFromDays(days)));
  }

  lemma EpochCounts(d: Date)
    requires d == Date(1970, 1, 1)
    ensures Names(d, 0)
  {}

  lemma Epoch(d: Date)
    requires d == Date(1970, 1, 1)
    ensures CivilFromDays(0) == d
  {
    EpochCounts(d);
    DateIsCivil(d);
  }
}

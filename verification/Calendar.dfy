/**
  The proleptic Gregorian calendar, twice: stepped one day at a time from the month lengths and the leap-year
  rule, and as the closed form that the seed module uses to stamp its requests.
 */
module Calendar {

  datatype Date = Date(year: int, month: int, day: int)

  // ---------------------------------------------------------------- the naive calendar

  predicate Leap(year: int) {
    year % 4 == 0 && (year % 100 != 0 || year % 400 == 0)
  }

  function MonthLength(year: int, month: int): int {
    if month == 2 then (if Leap(year) then 29 else 28)
    else if month == 4 || month == 6 || month == 9 || month == 11 then 30
    else 31
  }

  predicate Valid(d: Date) {
    1 <= d.month <= 12 && 1 <= d.day <= MonthLength(d.year, d.month)
  }

  function NextDay(d: Date): Date {
    if d.day < MonthLength(d.year, d.month) then d.(day := d.day + 1)
    else if d.month < 12 then Date(d.year, d.month + 1, 1)
    else Date(d.year + 1, 1, 1)
  }

  /** The date reached by stepping `days` times from 1970-01-01. */
  function NaiveDate(days: nat): Date {
    if days == 0 then Date(1970, 1, 1) else NextDay(NaiveDate(days - 1))
  }

  predicate Before(d: Date, e: Date) {
    d.year < e.year || (d.year == e.year && (d.month < e.month || (d.month == e.month && d.day < e.day)))
  }

  // ---------------------------------------------------------------- the closed form

  /** Integer division as the source's language does it: the quotient is truncated toward zero. */
  function TruncDiv(a: int, b: int): int
    requires b > 0
  {
    if a >= 0 then a / b else -((-a) / b)
  }

  function YearOfEra(doe: int): int {
    (doe - doe / 1460 + doe / 36524 - doe / 146096) / 365
  }

  function CivilFromDays(days: int): Date {
    var z := days + 719468;
    CivilOfEra(EraOf(z), z - EraOf(z) * 146097)
  }

  function EraOf(z: int): int {
    TruncDiv(if z >= 0 then z else z - 146096, 146097)
  }

  /** The date of day `doe` of a 400-year era. */
  function CivilOfEra(era: int, doe: int): Date {
    FromMarch(YearOfEra(doe) + era * 400, DayOfYear(doe, YearOfEra(doe)))
  }

  function DayOfYear(doe: int, yoe: int): int {
    doe - (365 * yoe + yoe / 4 - yoe / 100)
  }

  /** The date with March-based year `year` and day-of-year `doy`. */
  function FromMarch(year: int, doy: int): Date {
    var mp := (5 * doy + 2) / 153;
    var day := doy - (153 * mp + 2) / 5 + 1;
    var month := if mp < 10 then mp + 3 else mp - 9;
    Date(if month <= 2 then year + 1 else year, month, day)
  }

  // ---------------------------------------------------------------- counting days

  /** Days before 1 March of year `y`, counted from 1 March of year 0. */
  function YearStart(y: int): int {
    365 * y + y / 4 - y / 100 + y / 400
  }

  /** Days before the first of the `mp`-th month of a year that starts in March. */
  function MonthStart(mp: int): int {
    (153 * mp + 2) / 5
  }

  function MarchYear(d: Date): int {
    if d.month <= 2 then d.year - 1 else d.year
  }

  function MarchMonth(d: Date): int {
    if d.month <= 2 then d.month + 9 else d.month - 3
  }

  /** Days from 1970-01-01 to `d`. */
  function DayNumber(d: Date): int {
    YearStart(MarchYear(d)) + MonthStart(MarchMonth(d)) + d.day - 1 - 719468
  }

  lemma QuotientSteps(y: int)
    ensures (y + 1) / 4 - y / 4 == if (y + 1) % 4 == 0 then 1 else 0
    ensures (y + 1) / 100 - y / 100 == if (y + 1) % 100 == 0 then 1 else 0
    ensures (y + 1) / 400 - y / 400 == if (y + 1) % 400 == 0 then 1 else 0
  {
  }

  lemma MultiplesNest(y: int)
    ensures y % 100 == 0 ==> y % 4 == 0
    ensures y % 400 == 0 ==> y % 100 == 0
  {
    if y % 100 == 0 { assert y == 4 * (25 * (y / 100)); }
    if y % 400 == 0 { assert y == 100 * (4 * (y / 400)); }
  }

  lemma YearLength(y: int)
    ensures YearStart(y + 1) - YearStart(y) == if Leap(y + 1) then 366 else 365
  {
    QuotientSteps(y);
    MultiplesNest(y + 1);
  }

  /** A day of the 400-year era, written as century, four-year cycle, year and day of year. */
  lemma YearOfEraFromParts(c: int, q: int, k: int, doy: int)
    requires 0 <= c <= 3 && 0 <= q <= 24 && 0 <= k <= 3
    requires 0 <= doy <= 364 || (doy == 365 && k == 3 && (q < 24 || c == 3))
    ensures YearOfEra(36524 * c + 1461 * q + 365 * k + doy) == 100 * c + 4 * q + k
  {
    var doe := 36524 * c + 1461 * q + 365 * k + doy;
    var e := 24 * c + q + 365 * k + doy;
    assert doe == 1460 * (25 * c + q) + e;
    var extra := if e >= 1460 then 1 else 0;
    assert doe / 1460 == 25 * c + q + extra;
    assert doe / 36524 - doe / 146096 == c;
    assert doe - doe / 1460 + doe / 36524 - doe / 146096 == 365 * (100 * c + 4 * q + k) + (doy - extra);
  }

  lemma YearStartFromParts(c: int, q: int, k: int)
    requires 0 <= c <= 3 && 0 <= q <= 24 && 0 <= k <= 3
    ensures YearStart(100 * c + 4 * q + k) == 36524 * c + 1461 * q + 365 * k
    ensures (100 * c + 4 * q + k) / 400 == 0
  {
    var t := 100 * c + 4 * q + k;
    assert t / 4 == 25 * c + q;
    assert t / 100 == c;
    assert t / 400 == 0;
  }

  lemma YearOfEraBrackets(doe: int)
    requires 0 <= doe < 146097
    ensures var yoe := YearOfEra(doe); var doy := DayOfYear(doe, yoe);
      && 0 <= yoe <= 399
      && YearStart(yoe) + doy == doe
      && 0 <= doy <= 365 && (doy == 365 ==> Leap(yoe + 1))
  {
    var c := if doe / 36524 == 4 then 3 else doe / 36524;
    var r := doe - 36524 * c;
    assert 0 <= c <= 3 && 0 <= r <= 36524 && (c < 3 ==> r < 36524);
    var q := r / 1461;
    var s := r - 1461 * q;
    assert 0 <= q <= 24 && 0 <= s <= 1460;
    var k := if s / 365 == 4 then 3 else s / 365;
    YearBracketsFromParts(c, q, k, s - 365 * k);
  }

  lemma YearBracketsFromParts(c: int, q: int, k: int, doy: int)
    requires 0 <= c <= 3 && 0 <= q <= 24 && 0 <= k <= 3
    requires 0 <= doy <= 364 || (doy == 365 && k == 3 && (q < 24 || c == 3))
    ensures var doe := 36524 * c + 1461 * q + 365 * k + doy;
      && YearOfEra(doe) == 100 * c + 4 * q + k
      && YearStart(YearOfEra(doe)) + doy == doe
      && DayOfYear(doe, YearOfEra(doe)) == doy
      && (doy == 365 ==> Leap(YearOfEra(doe) + 1))
  {
    YearOfEraFromParts(c, q, k, doy);
    YearStartFromParts(c, q, k);
    if doy == 365 {
      LeapFromParts(c, q);
    }
  }

  lemma LeapFromParts(c: int, q: int)
    requires 0 <= c <= 3 && 0 <= q <= 24 && (q < 24 || c == 3)
    ensures Leap(100 * c + 4 * q + 4)
  {
    assert 100 * c + 4 * q + 4 == 4 * (25 * c + q + 1);
  }

  lemma MonthOfYear(doy: int)
    requires 0 <= doy <= 365
    ensures var mp := (5 * doy + 2) / 153;
      0 <= mp <= 11 && MonthStart(mp) <= doy < MonthStart(mp + 1)
  {
  }

  lemma EraFloors(z: int)
    ensures 0 <= z - EraOf(z) * 146097 < 146097
  {
    var q, r := z / 146097, z % 146097;
    if z < 0 {
      assert -(z - 146096) == 146097 * (-q) + (146096 - r);
      assert (-(z - 146096)) / 146097 == -q;
    }
  }

  lemma YearStartOfEra(y: int, era: int)
    ensures YearStart(y + era * 400) == YearStart(y) + era * 146097
  {
    assert (y + era * 400) / 4 == y / 4 + era * 100;
    assert (y + era * 400) / 100 == y / 100 + era * 4;
    assert (y + era * 400) / 400 == y / 400 + era;
  }

  lemma LeapOfEra(y: int, era: int)
    ensures Leap(y + era * 400) == Leap(y)
  {
    ShiftByMultiple(y, 4, 100 * era);
    ShiftByMultiple(y, 100, 4 * era);
    ShiftByMultiple(y, 400, era);
  }

  lemma ShiftByMultiple(y: int, k: int, q: int)
    requires k > 0
    ensures (y + k * q) % k == y % k
  {
    var n := y + k * q;
    var d := n / k - y / k - q;
    assert k * d == y % k - n % k;
    assert d == 0 by {
      if d >= 1 { MulAtLeast(k, d); } else if d <= -1 { MulAtLeast(k, -d); }
    }
  }

  lemma MulAtLeast(k: int, d: int)
    requires k > 0 && d >= 1
    ensures k * d >= k
  {
    assert k * d == k + k * (d - 1);
  }

  lemma FromMarchIsValid(y: int, doy: int)
    requires 0 <= doy <= 365 && (doy == 365 ==> Leap(y + 1))
    ensures Valid(FromMarch(y, doy))
    ensures DayNumber(FromMarch(y, doy)) == YearStart(y) + doy - 719468
  {
    MonthOfYear(doy);
  }

  lemma EraDateIsValid(era: int, yoe: int, doy: int)
    requires 0 <= yoe <= 399 && 0 <= doy <= 365 && (doy == 365 ==> Leap(yoe + 1))
    ensures Valid(FromMarch(yoe + era * 400, doy))
    ensures DayNumber(FromMarch(yoe + era * 400, doy)) == era * 146097 + YearStart(yoe) + doy - 719468
  {
    LeapOfEra(yoe + 1, era);
    FromMarchIsValid(yoe + era * 400, doy);
    YearStartOfEra(yoe, era);
  }

  lemma CivilOfEraIsValid(era: int, doe: int)
    requires 0 <= doe < 146097
    ensures Valid(CivilOfEra(era, doe))
    ensures DayNumber(CivilOfEra(era, doe)) == era * 146097 + doe - 719468
  {
    YearOfEraBrackets(doe);
    EraDateIsValid(era, YearOfEra(doe), DayOfYear(doe, YearOfEra(doe)));
  }

  /** The closed form always names a real date, and that date is `days` days from the epoch. */
  lemma CivilInvertsDayNumber(days: int)
    ensures Valid(CivilFromDays(days))
    ensures DayNumber(CivilFromDays(days)) == days
  {
    hide CivilOfEra;
    var z := days + 719468;
    EraFloors(z);
    CivilOfEraIsValid(EraOf(z), z - EraOf(z) * 146097);
  }

  lemma NextDayCountsOne(d: Date)
    requires Valid(d)
    ensures Valid(NextDay(d))
    ensures DayNumber(NextDay(d)) == DayNumber(d) + 1
  {
    if d.day == MonthLength(d.year, d.month) && d.month < 12 {
      NextMonthCountsOne(d.year, d.month);
    }
  }

  lemma NextMonthCountsOne(year: int, month: int)
    requires 1 <= month <= 11
    ensures DayNumber(Date(year, month + 1, 1)) == DayNumber(Date(year, month, MonthLength(year, month))) + 1
  {
    if month == 2 { YearLength(year - 1); }
  }

  lemma YearStartMonotone(y: int, z: int)
    requires y < z
    ensures YearStart(y) + 365 <= YearStart(z)
    decreases z - y
  {
    YearLength(y);
    if y + 1 < z { YearStartMonotone(y + 1, z); }
  }

  /** A valid date is one of the days of its March-based year. */
  lemma DayWithinYear(d: Date)
    requires Valid(d)
    ensures YearStart(MarchYear(d)) <= DayNumber(d) + 719468 < YearStart(MarchYear(d) + 1)
  {
    YearLength(MarchYear(d));
  }

  lemma DayNumberIsMonotone(d: Date, e: Date)
    requires Valid(d) && Valid(e) && Before(d, e)
    ensures DayNumber(d) < DayNumber(e)
  {
    DayWithinYear(d);
    DayWithinYear(e);
    if MarchYear(d) < MarchYear(e) {
      if MarchYear(d) + 1 < MarchYear(e) { YearStartMonotone(MarchYear(d) + 1, MarchYear(e)); }
    }
  }

  /** Every day of the proleptic calendar is reached: the closed form inverts counting days in both directions. */
  lemma DayNumberInvertsCivil(d: Date)
    requires Valid(d)
    ensures CivilFromDays(DayNumber(d)) == d
  {
    var e := CivilFromDays(DayNumber(d));
    CivilInvertsDayNumber(DayNumber(d));
    if Before(d, e) { DayNumberIsMonotone(d, e); }
    if Before(e, d) { DayNumberIsMonotone(e, d); }
  }

  lemma {:induction false} NaiveDateCountsDays(days: nat)
    ensures Valid(NaiveDate(days))
    ensures DayNumber(NaiveDate(days)) == days
  {
    if days > 0 {
      NaiveDateCountsDays(days - 1);
      NextDayCountsOne(NaiveDate(days - 1));
    }
  }

  /** The closed form is the calendar stepped day by day. */
  lemma CivilIsNaive(days: nat)
    ensures CivilFromDays(days) == NaiveDate(days)
  {
    NaiveDateCountsDays(days);
    DayNumberInvertsCivil(NaiveDate(days));
  }

  lemma DateOrderIsDayOrder(d: Date, e: Date)
    requires Valid(d) && Valid(e)
    ensures Before(d, e) <==> DayNumber(d) < DayNumber(e)
  {
    if Before(d, e) { DayNumberIsMonotone(d, e); }
    if Before(e, d) { DayNumberIsMonotone(e, d); }
  }

  /** Later days have later dates, and only they do. */
  lemma CivilIsMonotone(m: int, n: int)
    ensures Before(CivilFromDays(m), CivilFromDays(n)) <==> m < n
  {
    CivilInvertsDayNumber(m);
    CivilInvertsDayNumber(n);
    DateOrderIsDayOrder(CivilFromDays(m), CivilFromDays(n));
  }
}

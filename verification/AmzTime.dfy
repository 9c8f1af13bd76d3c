/** The timestamps that a signed request carries, and reading them back. */
module AmzTime {
  import opened Wrappers
  import opened Calendar
  import opened Digits

  datatype Stamp = Stamp(amzDate: string, dateStamp: string)

  lemma CivilFields(days: nat)
    ensures var d := CivilFromDays(days); d.year >= 1970 && Calendar.Valid(d)
  {
    CivilInvertsDayNumber(days);
    if days > 0 { CivilIsMonotone(0, days); }
    CivilIsNaive(0);
  }

  datatype Clock = Clock(hour: nat, minute: nat, second: nat)
  {
    predicate Valid() {
      hour < 24 && minute < 60 && second < 60
    }

    function SecondOfDay(): nat {
      hour * 3600 + minute * 60 + second
    }
  }

  function ClockOf(sod: nat): Clock {
    Clock(sod / 3600, (sod % 3600) / 60, sod % 60)
  }

  lemma ClockCountsSeconds(sod: nat)
    requires sod < 86400
    ensures ClockOf(sod).Valid() && ClockOf(sod).SecondOfDay() == sod
  {
  }

  predicate Spellable(d: Date) {
    d.year >= 0 && Calendar.Valid(d)
  }

  function SpellDate(d: Date): string
    requires Spellable(d)
  {
    Padded(d.year, 4) + (Padded(d.month, 2) + Padded(d.day, 2))
  }

  function SpellClock(c: Clock): string {
    "T" + (Padded(c.hour, 2) + (Padded(c.minute, 2) + (Padded(c.second, 2) + "Z")))
  }

  /** The `x-amz-date` and date-stamp strings of a Unix time in seconds. */
  function FormatAmzTime(unixSecs: nat): Stamp {
    StampAt(unixSecs / 86400, unixSecs % 86400)
  }

  function StampAt(days: nat, sod: nat): Stamp {
    CivilFields(days);
    var dateStamp := SpellDate(CivilFromDays(days));
    Stamp(dateStamp + SpellClock(ClockOf(sod)), dateStamp)
  }

  // ---------------------------------------------------------------- reading a stamp back

  /** The date that eight or more digits name, the last four of them month and day of month. */
  function ReadDate(s: string): Option<Date> {
    var n := |s|;
    if n < 8 then None else ReadFields(s[..n - 4], s[n - 4..n - 2], s[n - 2..])
  }

  function ReadFields(year: string, month: string, day: string): Option<Date> {
    if !Numeric(year, Ten) || !Numeric(month, Ten) || !Numeric(day, Ten) then None
    else
      var d := Date(Numeral(year, Ten), Numeral(month, Ten), Numeral(day, Ten));
      if Calendar.Valid(d) then Some(d) else None
  }

  function ReadClock(s: string): Option<Clock> {
    if |s| != 8 || s[0] != 'T' || s[7] != 'Z' || !Numeric(s[1..7], Ten) then None
    else
      var c := Clock(Numeral(s[1..3], Ten), Numeral(s[3..5], Ten), Numeral(s[5..7], Ten));
      if c.Valid() then Some(c) else None
  }

  /** The Unix time that a stamp names, if it is well formed and names a real date and time of day. */
  function ReadAmzTime(s: string): Option<int> {
    if |s| < 8 then None
    else
      match (ReadDate(s[..|s| - 8]), ReadClock(s[|s| - 8..]))
      case (Some(d), Some(c)) => Some(DayNumber(d) * 86400 + c.SecondOfDay())
      case _ => None
  }

  lemma TwoDigits(n: nat)
    requires n < 100
    ensures |Padded(n, 2)| == 2 && Numeric(Padded(n, 2), Ten) && Numeral(Padded(n, 2), Ten) == n
  {
    PaddedIsFixed(n, 2);
    PaddedSpells(n, 2);
    FitsStep(n, 1);
    FitsStep(n / 10, 0);
    FitsNothing(n / 10 / 10);
  }

  lemma ReadsFields(d: Date)
    requires Spellable(d)
    ensures |Padded(d.year, 4)| >= 4 && |Padded(d.month, 2)| == |Padded(d.day, 2)| == 2
    ensures ReadFields(Padded(d.year, 4), Padded(d.month, 2), Padded(d.day, 2)) == Some(d)
  {
    PaddedIsFixed(d.year, 4);
    PaddedSpells(d.year, 4);
    TwoDigits(d.month);
    TwoDigits(d.day);
  }

  lemma ThreeParts(y: string, m: string, d: string)
    requires |m| == |d| == 2
    ensures var s := y + (m + d);
      |s| == |y| + 4 && s[..|s| - 4] == y && s[|s| - 4..|s| - 2] == m && s[|s| - 2..] == d
  {
    var s := y + (m + d);
    assert s == (y + m) + d;
    assert s[|y|..|s| - 2] == m;
  }

  lemma ReadsDate(d: Date)
    requires Spellable(d)
    ensures |SpellDate(d)| == |Padded(d.year, 4)| + 4
    ensures ReadDate(SpellDate(d)) == Some(d)
  {
    hide Padded, ReadFields;
    ReadsFields(d);
    ThreeParts(Padded(d.year, 4), Padded(d.month, 2), Padded(d.day, 2));
  }

  lemma ReadsClock(c: Clock)
    requires c.Valid()
    ensures |SpellClock(c)| == 8
    ensures ReadClock(SpellClock(c)) == Some(c)
  {
    hide Padded, Numeral;
    var h, m, sec := Padded(c.hour, 2), Padded(c.minute, 2), Padded(c.second, 2);
    TwoDigits(c.hour);
    TwoDigits(c.minute);
    TwoDigits(c.second);
    var s := "T" + (h + (m + (sec + "Z")));
    assert s[1..3] == h && s[3..5] == m && s[5..7] == sec;
    assert s[1..7] == h + m + sec;
  }

  lemma ReadsParts(d: Date, c: Clock)
    requires Spellable(d) && c.Valid()
    ensures ReadAmzTime(SpellDate(d) + SpellClock(c)) == Some(DayNumber(d) * 86400 + c.SecondOfDay())
  {
    hide SpellDate, SpellClock, ReadDate, ReadClock, DayNumber, Clock.SecondOfDay;
    ReadsDate(d);
    ReadsClock(c);
    var s := SpellDate(d) + SpellClock(c);
    assert s[..|s| - 8] == SpellDate(d) && s[|s| - 8..] == SpellClock(c);
  }

  lemma ReadsStamp(days: nat, sod: nat)
    requires sod < 86400
    ensures ReadAmzTime(StampAt(days, sod).amzDate) == Some(days * 86400 + sod)
  {
    hide CivilFromDays, DayNumber, Calendar.Valid, ReadAmzTime, SpellDate, SpellClock, ClockOf, Clock.SecondOfDay;
    CivilFields(days);
    CivilInvertsDayNumber(days);
    ClockCountsSeconds(sod);
    ReadsParts(CivilFromDays(days), ClockOf(sod));
  }

  /** Reading a stamp back gives the second it was made from, for every Unix time. */
  lemma ReadsBack(unixSecs: nat)
    ensures ReadAmzTime(FormatAmzTime(unixSecs).amzDate) == Some(unixSecs)
  {
    hide StampAt, ReadAmzTime;
    ReadsStamp(unixSecs / 86400, unixSecs % 86400);
  }

  lemma FixedStep(n: nat, width: nat)
    ensures Fixed(n, Ten, width + 1) == Fixed(n / 10, Ten, width) + [Digit(n % 10)]
    ensures Fixed(n, Ten, 0) == []
  {
  }

  lemma TwoDigitsAre(n: nat)
    requires n < 100
    ensures Padded(n, 2) == [Digit(n / 10), Digit(n % 10)]
  {
    hide Fixed, Padded;
    FitsStep(n, 1);
    FitsStep(n / 10, 0);
    FitsNothing(n / 10 / 10);
    PaddedIsFixed(n, 2);
    FixedStep(n, 1);
    FixedStep(n / 10, 0);
    FixedStep(n / 10 / 10, 0);
    assert (n / 10) % 10 == n / 10;
  }

  lemma FourDigitsAre(n: nat)
    requires n < 10000
    ensures Padded(n, 4) == [Digit(n / 1000), Digit(n / 100 % 10), Digit(n / 10 % 10), Digit(n % 10)]
  {
    hide Fixed, Padded;
    FourDigits(n);
    PaddedIsFixed(n, 4);
    FixedStep(n, 3);
    FixedStep(n / 10, 2);
    FixedStep(n / 10 / 10, 1);
    FixedStep(n / 10 / 10 / 10, 0);
    FixedStep(n / 10 / 10 / 10 / 10, 0);
    assert n / 10 / 10 == n / 100 && n / 10 / 10 / 10 == n / 1000 && (n / 1000) % 10 == n / 1000;
  }

  /** The two strings, character by character, while years have four digits. */
  lemma StampSpells(unixSecs: nat)
    requires CivilFromDays(unixSecs / 86400).year <= 9999
    ensures var d, sod := CivilFromDays(unixSecs / 86400), unixSecs % 86400;
      var h, m, sec := sod / 3600, sod % 3600 / 60, sod % 60;
      && d.year >= 0 && 0 <= d.month < 100 && 0 <= d.day < 100 && h < 100
      && var date := [Digit(d.year / 1000), Digit(d.year / 100 % 10), Digit(d.year / 10 % 10), Digit(d.year % 10),
                      Digit(d.month / 10), Digit(d.month % 10), Digit(d.day / 10), Digit(d.day % 10)];
      FormatAmzTime(unixSecs)
      == Stamp(date + ['T', Digit(h / 10), Digit(h % 10), Digit(m / 10), Digit(m % 10),
                       Digit(sec / 10), Digit(sec % 10), 'Z'], date)
  {
    hide CivilFromDays, Padded;
    CivilFields(unixSecs / 86400);
    ClockCountsSeconds(unixSecs % 86400);
    var d, c := CivilFromDays(unixSecs / 86400), ClockOf(unixSecs % 86400);
    FourDigitsAre(d.year);
    TwoDigitsAre(d.month);
    TwoDigitsAre(d.day);
    TwoDigitsAre(c.hour);
    TwoDigitsAre(c.minute);
    TwoDigitsAre(c.second);
  }

  lemma StampAlphabet(unixSecs: nat)
    ensures '\n' !in FormatAmzTime(unixSecs).amzDate
    ensures '\n' !in FormatAmzTime(unixSecs).dateStamp
  {
    CivilFields(unixSecs / 86400);
    ClockCountsSeconds(unixSecs % 86400);
    DateAlphabet(CivilFromDays(unixSecs / 86400));
    ClockAlphabet(ClockOf(unixSecs % 86400));
  }

  lemma DateAlphabet(d: Date)
    requires Spellable(d)
    ensures '\n' !in SpellDate(d)
  {
    PaddedSpells(d.year, 4);
    PaddedSpells(d.month, 2);
    PaddedSpells(d.day, 2);
    NumericHasNoNewline(Padded(d.year, 4));
    NumericHasNoNewline(Padded(d.month, 2));
    NumericHasNoNewline(Padded(d.day, 2));
  }

  lemma ClockAlphabet(c: Clock)
    ensures '\n' !in SpellClock(c)
  {
    PaddedSpells(c.hour, 2);
    PaddedSpells(c.minute, 2);
    PaddedSpells(c.second, 2);
    NumericHasNoNewline(Padded(c.hour, 2));
    NumericHasNoNewline(Padded(c.minute, 2));
    NumericHasNoNewline(Padded(c.second, 2));
  }

  lemma NumericHasNoNewline(s: string)
    requires Numeric(s, Ten)
    ensures '\n' !in s
  {
  }

  /** Different seconds have different stamps. */
  lemma StampIsInjective(u: nat, v: nat)
    requires FormatAmzTime(u).amzDate == FormatAmzTime(v).amzDate
    ensures u == v
  {
    ReadsBack(u);
    ReadsBack(v);
  }

  // ---------------------------------------------------------------- width and order

  lemma FourDigits(n: nat)
    ensures Fits(n, Ten, 4) <==> n < 10000
  {
    hide Fits;
    FitsStep(n, 3);
    FitsStep(n / 10, 2);
    FitsStep(n / 10 / 10, 1);
    FitsStep(n / 10 / 10 / 10, 0);
    FitsNothing(n / 10 / 10 / 10 / 10);
  }

  lemma FitsStep(n: nat, width: nat)
    ensures Fits(n, Ten, width + 1) <==> Fits(n / 10, Ten, width)
  {
  }

  lemma FitsNothing(n: nat)
    ensures Fits(n, Ten, 0) <==> n == 0
  {
  }

  /** The stamp has its documented sixteen characters exactly through the year 9999. */
  lemma StampWidth(unixSecs: nat)
    ensures |FormatAmzTime(unixSecs).amzDate| >= 16
    ensures |FormatAmzTime(unixSecs).amzDate| == 16 <==> CivilFromDays(unixSecs / 86400).year <= 9999
    ensures |FormatAmzTime(unixSecs).dateStamp| == |FormatAmzTime(unixSecs).amzDate| - 8
  {
    var days, sod := unixSecs / 86400, unixSecs % 86400;
    CivilFields(days);
    var d := CivilFromDays(days);
    PaddedIsFixed(d.year, 4);
    FourDigits(d.year);
    ReadsDate(d);
    ClockCountsSeconds(sod);
    ReadsClock(ClockOf(sod));
  }

  /** The first second of the year 10000. */
  const FIVE_DIGIT_YEARS: nat := 253402300800

  lemma YearTenThousand()
    ensures DayNumber(Date(10000, 1, 1)) * 86400 == FIVE_DIGIT_YEARS
    ensures CivilFromDays(FIVE_DIGIT_YEARS / 86400) == Date(10000, 1, 1)
  {
    hide CivilFromDays, DayNumber;
    DayOfYearTenThousand();
    DayNumberInvertsCivil(Date(10000, 1, 1));
  }

  lemma DayOfYearTenThousand()
    ensures DayNumber(Date(10000, 1, 1)) == 2932897 == FIVE_DIGIT_YEARS / 86400
  {
  }

  /** The stamp has its documented sixteen characters exactly before that second, and seventeen at it. */
  lemma StampWidthLimit(unixSecs: nat)
    ensures |FormatAmzTime(unixSecs).amzDate| == 16 <==> unixSecs < FIVE_DIGIT_YEARS
    ensures |FormatAmzTime(FIVE_DIGIT_YEARS).amzDate| == 17
  {
    hide FormatAmzTime, CivilFromDays, DayNumber, Calendar.Valid;
    StampWidth(unixSecs);
    YearTenThousand();
    CivilIsMonotone(unixSecs / 86400, FIVE_DIGIT_YEARS / 86400);
    CivilInvertsDayNumber(unixSecs / 86400);
    BeforeNewYear(CivilFromDays(unixSecs / 86400), 10000);
    FirstLongStamp();
  }

  lemma BeforeNewYear(d: Date, year: int)
    requires Calendar.Valid(d)
    ensures Before(d, Date(year, 1, 1)) <==> d.year < year
  {
  }

  lemma FirstLongStamp()
    ensures |FormatAmzTime(FIVE_DIGIT_YEARS).amzDate| == 17
  {
    hide FormatAmzTime, CivilFromDays, DayNumber, Calendar.Valid;
    YearTenThousand();
    StampWidth(FIVE_DIGIT_YEARS);
    CivilFields(FIVE_DIGIT_YEARS / 86400);
    FirstLongDate();
    StampDate(FIVE_DIGIT_YEARS);
  }

  lemma StampDate(unixSecs: nat)
    ensures Spellable(CivilFromDays(unixSecs / 86400))
    ensures FormatAmzTime(unixSecs).dateStamp == SpellDate(CivilFromDays(unixSecs / 86400))
  {
    CivilFields(unixSecs / 86400);
  }

  lemma FirstLongDate()
    ensures |SpellDate(Date(10000, 1, 1))| == 9
  {
    hide SpellDate, ReadDate, Padded;
    ReadsDate(Date(10000, 1, 1));
    FiveDigits();
  }

  lemma FiveDigits()
    ensures |Padded(10000, 4)| == 5
  {
    assert |Decimal(10)| == |Decimal(1)| + 1;
    assert |Decimal(100)| == |Decimal(10)| + 1;
    assert |Decimal(1000)| == |Decimal(100)| + 1;
    assert |Decimal(10000)| == |Decimal(1000)| + 1;
  }

  lemma PaddedOrder(m: nat, n: nat, width: nat, s: string, t: string)
    requires |Padded(m, width)| == |Padded(n, width)|
    ensures LexLess(Padded(m, width) + s, Padded(n, width) + t) <==> m < n || (m == n && LexLess(s, t))
  {
    PaddedIsFixed(m, width);
    PaddedIsFixed(n, width);
    FixedOrder(m, n, |Padded(m, width)|);
    LexLessConcat(Padded(m, width), Padded(n, width), s, t);
  }

  lemma ClockOrder(c: Clock, e: Clock)
    requires c.Valid() && e.Valid()
    ensures LexLess(SpellClock(c), SpellClock(e)) <==> c.SecondOfDay() < e.SecondOfDay()
  {
    TwoDigits(c.hour); TwoDigits(c.minute); TwoDigits(c.second);
    TwoDigits(e.hour); TwoDigits(e.minute); TwoDigits(e.second);
    var s, s' := Padded(c.second, 2) + "Z", Padded(e.second, 2) + "Z";
    var m, m' := Padded(c.minute, 2) + s, Padded(e.minute, 2) + s';
    PaddedOrder(c.second, e.second, 2, "Z", "Z");
    PaddedOrder(c.minute, e.minute, 2, s, s');
    PaddedOrder(c.hour, e.hour, 2, m, m');
    LexLessConcat("T", "T", Padded(c.hour, 2) + m, Padded(e.hour, 2) + m');
  }

  lemma DatesHaveTwoDigits(d: Date)
    requires Spellable(d)
    ensures 0 <= d.month < 100 && 0 <= d.day < 100
  {
  }

  lemma NothingIsNotLess()
    ensures !LexLess("", "")
  {
  }

  lemma DateOrder(d: Date, e: Date)
    requires Spellable(d) && Spellable(e) && |SpellDate(d)| == |SpellDate(e)|
    ensures LexLess(SpellDate(d), SpellDate(e)) <==> Before(d, e)
    ensures SpellDate(d) == SpellDate(e) <==> d == e
  {
    hide Padded, LexLess, MonthLength, ReadDate;
    DatesHaveTwoDigits(d);
    DatesHaveTwoDigits(e);
    TwoDigits(d.month); TwoDigits(d.day); TwoDigits(e.month); TwoDigits(e.day);
    NothingIsNotLess();
    PaddedOrder(d.day, e.day, 2, "", "");
    assert Padded(d.day, 2) + "" == Padded(d.day, 2) && Padded(e.day, 2) + "" == Padded(e.day, 2);
    PaddedOrder(d.month, e.month, 2, Padded(d.day, 2), Padded(e.day, 2));
    PaddedOrder(d.year, e.year, 4, Padded(d.month, 2) + Padded(d.day, 2), Padded(e.month, 2) + Padded(e.day, 2));
    ReadsDate(d);
    ReadsDate(e);
  }

  /** Stamps of one length - all stamps through the year 9999 - are in dictionary order exactly when the times are. */
  lemma StampOrder(u: nat, v: nat)
    requires |FormatAmzTime(u).amzDate| == |FormatAmzTime(v).amzDate|
    ensures LexLess(FormatAmzTime(u).amzDate, FormatAmzTime(v).amzDate) <==> u < v
  {
    CivilFields(u / 86400);
    CivilFields(v / 86400);
    ClockCountsSeconds(u % 86400);
    ClockCountsSeconds(v % 86400);
    var d, e := CivilFromDays(u / 86400), CivilFromDays(v / 86400);
    var c, f := ClockOf(u % 86400), ClockOf(v % 86400);
    ReadsClock(c);
    ReadsClock(f);
    DateOrder(d, e);
    ClockOrder(c, f);
    LexLessConcat(SpellDate(d), SpellDate(e), SpellClock(c), SpellClock(f));
    CivilIsMonotone(u / 86400, v / 86400);
    CivilIsMonotone(v / 86400, u / 86400);
  }
}

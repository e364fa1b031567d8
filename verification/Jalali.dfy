/** Gregorian to Jalali dates by walking the Jalali calendar from a known day. */
module Jalali {
  datatype Date = Date(year: int, month: int, day: int)

  /** 2024-01-01 is 1402-10-11, the Julian day 2460311. */
  const REFERENCE := Date(1402, 10, 11)
  const REFERENCE_JDN := 2460311

  /** Go's integer division and remainder truncate toward zero. */
  function GoDiv(a: int, b: int): int
    requires b > 0
  {
    if a >= 0 then a / b else -(-a / b)
  }

  function GoMod(a: int, b: int): int
    requires b > 0
  {
    a - b * GoDiv(a, b)
  }

  // ---------- the Gregorian side ----------

  predicate GregorianLeap(y: int) {
    y % 4 == 0 && (y % 100 != 0 || y % 400 == 0)
  }

  function GregorianMonthDays(y: int, m: int): int {
    if m == 2 then (if GregorianLeap(y) then 29 else 28)
    else if m in {4, 6, 9, 11} then 30
    else 31
  }

  /** The years the Julian day formula covers. */
  predicate ValidGregorian(g: Date) {
    g.year >= -4799 && 1 <= g.month <= 12 && 1 <= g.day <= GregorianMonthDays(g.year, g.month)
  }

  function NextGregorian(g: Date): Date {
    if g.day < GregorianMonthDays(g.year, g.month) then g.(day := g.day + 1)
    else if g.month < 12 then Date(g.year, g.month + 1, 1)
    else Date(g.year + 1, 1, 1)
  }

  function Jdn(g: Date): int {
    var a := GoDiv(14 - g.month, 12);
    var y := g.year + 4800 - a;
    var m := g.month + 12 * a - 3;
    g.day + GoDiv(153 * m + 2, 5) + 365 * y + GoDiv(y, 4) - GoDiv(y, 100) + GoDiv(y, 400) - 32045
  }

  // ---------- the Jalali side ----------

  predicate IsJalaliLeap(y: int) {
    GoMod(y, 33) in {1, 5, 9, 13, 17, 22, 26, 30}
  }

  function JalaliMonthDays(y: int, m: int): int {
    if m <= 6 then 31
    else if m <= 11 then 30
    else if IsJalaliLeap(y) then 30
    else 29
  }

  predicate ValidJalali(j: Date) {
    1 <= j.month <= 12 && 1 <= j.day <= JalaliMonthDays(j.year, j.month)
  }

  function NextJalali(j: Date): Date {
    if j.day < JalaliMonthDays(j.year, j.month) then j.(day := j.day + 1)
    else if j.month < 12 then Date(j.year, j.month + 1, 1)
    else Date(j.year + 1, 1, 1)
  }

  /** Days of the year before a month. */
  function MonthStart(y: int, m: int): int
    requires m >= 1
  {
    if m == 1 then 0 else MonthStart(y, m - 1) + JalaliMonthDays(y, m - 1)
  }

  function YearDays(y: int): int {
    MonthStart(y, 13)
  }

  /** Days from the start of 1402 to the start of a year. */
  function YearStart(y: int): int
    decreases if y > 1402 then y - 1402 else 1402 - y
  {
    if y == 1402 then 0
    else if y > 1402 then YearStart(y - 1) + YearDays(y - 1)
    else YearStart(y + 1) - YearDays(y)
  }

  function JalaliDay(j: Date): int
    requires j.month >= 1
  {
    YearStart(j.year) + MonthStart(j.year, j.month) + j.day
  }

  lemma NextYearStart(y: int)
    ensures YearStart(y + 1) == YearStart(y) + YearDays(y)
  {
    if y < 1402 { assert YearStart(y) == YearStart(y + 1) - YearDays(y); }
  }

  lemma YearLength(y: int)
    ensures YearDays(y) == if IsJalaliLeap(y) then 366 else 365
  {
    assert MonthStart(y, 2) == 31;
    assert MonthStart(y, 3) == 62;
    assert MonthStart(y, 5) == 124;
    assert MonthStart(y, 7) == 186;
    assert MonthStart(y, 9) == 246;
    assert MonthStart(y, 11) == 306;
    assert MonthStart(y, 12) == 336;
  }

  // ---------- the conversion ----------

  /** `j` is as many Jalali days from the reference day as `g` is Julian days. */
  predicate Converts(g: Date, j: Date) {
    ValidJalali(j) && JalaliDay(j) - JalaliDay(REFERENCE) == Jdn(g) - REFERENCE_JDN
  }

  /** The first of the next month is the day behind a month's last one. */
  lemma MonthLater(y: int, m: int, d: int)
    requires 1 <= m <= 12
    ensures JalaliDay(if m < 12 then Date(y, m + 1, 1) else Date(y + 1, 1, 1))
         == JalaliDay(Date(y, m, d)) + JalaliMonthDays(y, m) - d + 1
  {
    NextYearStart(y);
    assert MonthStart(y, m + 1) == MonthStart(y, m) + JalaliMonthDays(y, m);
  }

  /** A day counted from the month before. */
  lemma MonthEarlier(y: int, m: int, d: int)
    requires 1 <= m <= 12
    ensures (if m > 1 then JalaliDay(Date(y, m - 1, d + JalaliMonthDays(y, m - 1)))
             else JalaliDay(Date(y - 1, 12, d + JalaliMonthDays(y - 1, 12)))) == JalaliDay(Date(y, m, d))
  {
    if m > 1 { MonthLater(y, m - 1, 0); } else { MonthLater(y - 1, 12, 0); }
  }

  method GregorianToJalali(gy: int, gm: int, gd: int) returns (jy: int, jm: int, jd: int)
    ensures Converts(Date(gy, gm, gd), Date(jy, jm, jd))
  {
    var a := GoDiv(14 - gm, 12);
    var y := gy + 4800 - a;
    var m := gm + 12 * a - 3;
    var jdn := gd + GoDiv(153 * m + 2, 5) + 365 * y + GoDiv(y, 4) - GoDiv(y, 100) + GoDiv(y, 400) - 32045;
    var days := jdn - REFERENCE_JDN;
    jy, jm, jd := Walk(days);
  }

  /** The loops of the conversion: that many days on from the reference date, or back. */
  method Walk(n: int) returns (jy: int, jm: int, jd: int)
    ensures ValidJalali(Date(jy, jm, jd))
    ensures JalaliDay(Date(jy, jm, jd)) - JalaliDay(REFERENCE) == n
  {
    var days := n;
    ghost var goal := JalaliDay(REFERENCE) + n;
    jy, jm, jd := 1402, 10, 11;
    assert Date(jy, jm, jd) == REFERENCE;
    while days > 0
      invariant 1 <= jm <= 12 && 1 <= jd <= JalaliMonthDays(jy, jm)
      invariant JalaliDay(Date(jy, jm, jd)) + days == goal
    {
      var remaining := JalaliMonthDays(jy, jm) - jd + 1;
      if days < remaining {
        jd := jd + days;
        return;
      }
      days := days - remaining;
      MonthLater(jy, jm, jd);
      jm := jm + 1;
      if jm > 12 {
        jm := 1;
        jy := jy + 1;
      }
      jd := 1;
    }
    if days < 0 {  // the outer loop runs once: it leaves days at 0
      jd := jd + days;
      while jd < 1
        invariant 1 <= jm <= 12 && jd <= JalaliMonthDays(jy, jm)
        invariant JalaliDay(Date(jy, jm, jd)) == goal
        decreases 1 - jd
      {
        MonthEarlier(jy, jm, jd);
        jm := jm - 1;
        if jm < 1 {
          jm := 12;
          jy := jy - 1;
        }
        jd := jd + JalaliMonthDays(jy, jm);
      }
      days := 0;
    }
  }

  // ---------- the two calendars advance together ----------

  predicate Before(a: Date, b: Date) {
    a.year < b.year || (a.year == b.year && (a.month < b.month || (a.month == b.month && a.day < b.day)))
  }

  lemma NextMonthStart(y: int, m: int)
    requires m >= 1
    ensures MonthStart(y, m + 1) == MonthStart(y, m) + JalaliMonthDays(y, m)
  {}

  lemma NextIsOneMore(j: Date)
    requires ValidJalali(j)
    ensures ValidJalali(NextJalali(j)) && JalaliDay(NextJalali(j)) == JalaliDay(j) + 1
  {
    var y, m := j.year, j.month;
    NextMonthStart(y, m);
    NextYearStart(y);
    if j.day < JalaliMonthDays(y, m) {
    } else if m < 12 {
      assert NextJalali(j) == Date(y, m + 1, 1);
    } else {
      assert MonthStart(y + 1, 1) == 0;
      assert NextJalali(j) == Date(y + 1, 1, 1);
      assert MonthStart(y, m + 1) == YearDays(y);
    }
  }

  lemma {:induction false} LaterMonth(y: int, m: int, n: int)
    requires 1 <= m < n
    ensures MonthStart(y, m) + JalaliMonthDays(y, m) <= MonthStart(y, n)
    decreases n - m
  {
    if m + 1 < n { LaterMonth(y, m, n - 1); }
  }

  lemma {:induction false} LaterYear(y: int, z: int)
    requires y < z
    ensures YearStart(y) + YearDays(y) <= YearStart(z)
    decreases z - y
  {
    NextYearStart(z - 1);
    YearLength(z - 1);
    if y + 1 < z { LaterYear(y, z - 1); }
  }

  lemma WithinYear(j: Date)
    requires ValidJalali(j)
    ensures YearStart(j.year) < JalaliDay(j) <= YearStart(j.year) + YearDays(j.year)
  {
    LaterMonth(j.year, j.month, 13);
    if j.month > 1 { LaterMonth(j.year, 1, j.month); }
  }

  /** Day numbers order Jalali dates. */
  lemma JalaliDaysRise(a: Date, b: Date)
    requires ValidJalali(a) && ValidJalali(b) && Before(a, b)
    ensures JalaliDay(a) < JalaliDay(b)
  {
    if a.year < b.year {
      WithinYear(a);
      WithinYear(b);
      LaterYear(a.year, b.year);
    } else if a.month < b.month {
      LaterMonth(a.year, a.month, b.month);
    }
  }

  /** Days of whole years in the proleptic count the formula makes. */
  function Era(y: int): int {
    365 * y + y / 4 - y / 100 + y / 400
  }

  /** Days from the first of March to the first of a month; January and February close the year before. */
  function FromMarch(m: int): int {
    (153 * (if m <= 2 then m + 9 else m - 3) + 2) / 5
  }

  function FormulaYear(y: int, m: int): int {
    y + 4800 - if m <= 2 then 1 else 0
  }

  function JdnParts(y: int, m: int, d: int): int {
    d + FromMarch(m) + Era(FormulaYear(y, m)) - 32045
  }

  lemma GoDivPositive(a: int, b: int)
    requires a >= 0 && b > 0
    ensures GoDiv(a, b) == a / b
  {}

  lemma JdnByParts(y: int, m: int, d: int)
    requires y >= -4799 && 1 <= m <= 12
    ensures Jdn(Date(y, m, d)) == JdnParts(y, m, d)
  {
    assert GoDiv(14 - m, 12) == if m <= 2 then 1 else 0;
    var z := FormulaYear(y, m);
    GoDivPositive(z, 4);
    GoDivPositive(z, 100);
    GoDivPositive(z, 400);
  }

  lemma Quarter(z: int)
    ensures z / 4 - (z - 1) / 4 == if z % 4 == 0 then 1 else 0
  {}

  lemma Century(z: int)
    ensures z / 100 - (z - 1) / 100 == if z % 100 == 0 then 1 else 0
  {}

  lemma FourCenturies(z: int)
    ensures z / 400 - (z - 1) / 400 == if z % 400 == 0 then 1 else 0
    ensures z % 400 == 0 ==> z % 100 == 0
    ensures z % 100 == 0 ==> z % 4 == 0
  {}

  lemma SameInFours(y: int)
    ensures (y + 4800) % 4 == y % 4
  {}

  lemma SameInHundreds(y: int)
    ensures (y + 4800) % 100 == y % 100
  {}

  lemma SameInFourHundreds(y: int)
    ensures (y + 4800) % 400 == y % 400
  {}

  lemma EraGrows(z: int)
    ensures Era(z) - Era(z - 1) == if GregorianLeap(z) then 366 else 365
  {
    Quarter(z);
    Century(z);
    FourCenturies(z);
  }

  lemma EraNext(y: int)
    ensures Era(y + 4800) - Era(y + 4799) == if GregorianLeap(y) then 366 else 365
  {
    EraGrows(y + 4800);
    SameInFours(y);
    SameInHundreds(y);
    SameInFourHundreds(y);
  }

  lemma MarchMonths(y: int, m: int)
    requires 1 <= m < 12 && m != 2
    ensures FromMarch(m + 1) == FromMarch(m) + GregorianMonthDays(y, m)
  {
    if m == 1 { assert FromMarch(2) == 337; }
    else if m <= 5 { assert m in {3, 4, 5}; }
    else if m <= 8 { assert m in {6, 7, 8}; }
    else { assert m in {9, 10, 11}; }
  }

  lemma FebruaryEnds(y: int)
    ensures JdnParts(y, 3, 1) == JdnParts(y, 2, GregorianMonthDays(y, 2)) + 1
  {
    EraNext(y);
    assert FromMarch(3) == 0 && FromMarch(2) == 337;
  }

  lemma MonthFollows(y: int, m: int)
    requires y >= -4799 && 1 <= m < 12
    ensures Jdn(Date(y, m + 1, 1)) == Jdn(Date(y, m, GregorianMonthDays(y, m))) + 1
  {
    JdnByParts(y, m, GregorianMonthDays(y, m));
    JdnByParts(y, m + 1, 1);
    if m == 2 { FebruaryEnds(y); } else { MarchMonths(y, m); }
  }

  lemma YearFollows(y: int)
    requires y >= -4799
    ensures Jdn(Date(y + 1, 1, 1)) == Jdn(Date(y, 12, 31)) + 1
  {
    JdnByParts(y, 12, 31);
    JdnByParts(y + 1, 1, 1);
    assert FromMarch(12) == 275 && FromMarch(1) == 306;
  }

  lemma DayFollows(g: Date)
    ensures Jdn(g.(day := g.day + 1)) == Jdn(g) + 1
  {}

  /** The Julian day formula counts days: the next Gregorian day has the next number. */
  lemma JdnNext(g: Date)
    requires ValidGregorian(g)
    ensures ValidGregorian(NextGregorian(g)) && Jdn(NextGregorian(g)) == Jdn(g) + 1
  {
    if g.day < GregorianMonthDays(g.year, g.month) {
      DayFollows(g);
    } else if g.month < 12 {
      MonthFollows(g.year, g.month);
    } else {
      YearFollows(g.year);
    }
  }

  // ---------- what the conversion promises ----------

  /** The answer is determined by the date. */
  lemma ConversionIsUnique(g: Date, a: Date, b: Date)
    requires Converts(g, a) && Converts(g, b)
    ensures a == b
  {
    if Before(a, b) { JalaliDaysRise(a, b); }
    if Before(b, a) { JalaliDaysRise(b, a); }
  }

  /** The next Gregorian day is always the next Jalali day. */
  lemma NextDayIsNextDay(g: Date, j: Date, k: Date)
    requires ValidGregorian(g) && Converts(g, j) && Converts(NextGregorian(g), k)
    ensures k == NextJalali(j)
  {
    JdnNext(g);
    NextIsOneMore(j);
    ConversionIsUnique(NextGregorian(g), k, NextJalali(j));
  }

  lemma DayBefore(b: Date) returns (c: Date)
    requires ValidGregorian(b) && b != Date(-4799, 1, 1)
    ensures ValidGregorian(c) && NextGregorian(c) == b
    ensures Before(c, b)
    ensures forall a :: ValidGregorian(a) && Before(a, b) ==> a == c || Before(a, c)
  {
    c := if b.day > 1 then b.(day := b.day - 1)
         else if b.month > 1 then Date(b.year, b.month - 1, GregorianMonthDays(b.year, b.month - 1))
         else Date(b.year - 1, 12, 31);
  }

  lemma {:induction false} JdnRises(a: Date, b: Date)
    requires ValidGregorian(a) && ValidGregorian(b) && Before(a, b)
    ensures Jdn(a) < Jdn(b)
    decreases b.year + 4800, b.month, b.day
  {
    var c := DayBefore(b);
    JdnNext(c);
    if a != c { JdnRises(a, c); }
  }

  /** Conversion keeps the order of days, both ways. */
  lemma ConversionKeepsOrder(g: Date, h: Date, j: Date, k: Date)
    requires ValidGregorian(g) && ValidGregorian(h) && Converts(g, j) && Converts(h, k)
    ensures Before(g, h) <==> Before(j, k)
  {
    if Before(g, h) { JdnRises(g, h); }
    if Before(h, g) { JdnRises(h, g); }
    if Before(j, k) { JalaliDaysRise(j, k); }
    if Before(k, j) { JalaliDaysRise(k, j); }
  }

  /** The reference really pairs two dates, and so does the Nowruz that follows it. */
  lemma ReferenceDates()
    ensures Converts(Date(2024, 1, 1), REFERENCE)
    ensures Converts(Date(2024, 3, 20), Date(1403, 1, 1))
  {
    NextYearStart(1402);
    NextMonthStart(1402, 10);
    NextMonthStart(1402, 11);
    NextMonthStart(1402, 12);
  }

  // ---------- the leap cycle ----------

  /** Leap years among `n` years from `y` on. */
  function LeapYears(y: int, n: nat): nat {
    if n == 0 then 0 else LeapYears(y, n - 1) + if IsJalaliLeap(y + n - 1) then 1 else 0
  }

  lemma {:induction false} LeapYearsSlide(y: int, n: nat)
    ensures LeapYears(y + 1, n) + (if IsJalaliLeap(y) then 1 else 0) == LeapYears(y, n + 1)
  {
    if n > 0 { LeapYearsSlide(y, n - 1); }
  }

  function One(b: bool): nat {
    if b then 1 else 0
  }

  /** The leap years of the first cycle, of which `n` years have begun. */
  function Begun(n: nat): nat {
    One(n > 1) + One(n > 5) + One(n > 9) + One(n > 13) + One(n > 17) + One(n > 22) + One(n > 26) + One(n > 30)
  }

  lemma LeapOfFirst(n: nat)
    requires n < 33
    ensures IsJalaliLeap(n) <==> n in {1, 5, 9, 13, 17, 22, 26, 30}
  {
    assert GoMod(n, 33) == n;
  }

  lemma BegunStep(n: nat)
    requires n < 33
    ensures Begun(n + 1) == Begun(n) + if IsJalaliLeap(n) then 1 else 0
  {
    LeapOfFirst(n);
  }

  lemma {:induction false} FirstCycle(n: nat)
    requires n <= 33
    ensures LeapYears(0, n) == Begun(n)
  {
    if n > 0 {
      FirstCycle(n - 1);
      BegunStep(n - 1);
      assert 0 + n - 1 == n - 1;
    }
  }

  /** Any 33 consecutive years hold 8 leap years. */
  lemma {:induction false} EightLeapYearsIn33(y: nat)
    ensures LeapYears(y, 33) == 8
    decreases y
  {
    if y == 0 {
      FirstCycle(33);
    } else {
      EightLeapYearsIn33(y - 1);
      LeapYearsSlide(y - 1, 33);
      LeapYearsSlide(y - 1, 32);
      assert IsJalaliLeap(y + 32) == IsJalaliLeap(y - 1);
    }
  }

  // ---------- the calendar in closed form ----------

  /** Leap years from year 0 up to a year: 8 in 33, spread evenly. The code knows none before year 0. */
  function LeapsUpTo(y: int): int {
    if y < 0 then 0 else (8 * y + 21) / 33
  }

  /** The number of a Jalali day, without a walk: first six months of 31 days, the others of 30. */
  function ClosedDay(y: int, m: int, d: int): int {
    365 * (y - 1402) + LeapsUpTo(y) - 340 + (if m <= 7 then 31 * (m - 1) else 30 * (m - 1) + 6) + d
  }

  lemma ResidueSteps(r: int)
    requires 0 <= r < 33
    ensures (8 * r + 29) / 33 - (8 * r + 21) / 33 == if r in {1, 5, 9, 13, 17, 22, 26, 30} then 1 else 0
  {}

  lemma CyclesApart(q: int, r: int)
    ensures (8 * (33 * q + r) + 21) / 33 == 8 * q + (8 * r + 21) / 33
    ensures (8 * (33 * q + r) + 29) / 33 == 8 * q + (8 * r + 29) / 33
  {
    ShiftedQuotient(8 * q, 8 * r + 21);
    ShiftedQuotient(8 * q, 8 * r + 29);
  }

  lemma ShiftedQuotient(k: int, a: int)
    ensures (33 * k + a) / 33 == k + a / 33
  {}

  lemma LeapIsAStep(y: int)
    ensures LeapsUpTo(y + 1) == LeapsUpTo(y) + if IsJalaliLeap(y) then 1 else 0
  {
    if y >= 0 {
      var q, r := y / 33, y % 33;
      CyclesApart(q, r);
      ResidueSteps(r);
      assert y == 33 * q + r && GoMod(y, 33) == r;
      assert 8 * (y + 1) + 21 == 8 * (33 * q + r) + 29;
    } else {
      assert GoMod(y, 33) <= 0;
    }
  }

  lemma {:induction false} ClosedYear(y: int)
    ensures YearStart(y) == 365 * (y - 1402) + LeapsUpTo(y) - 340
    decreases if y > 1402 then y - 1402 else 1402 - y
  {
    if y > 1402 {
      ClosedYear(y - 1);
      YearLength(y - 1);
      LeapIsAStep(y - 1);
    } else if y < 1402 {
      ClosedYear(y + 1);
      YearLength(y);
      LeapIsAStep(y);
    }
  }

  lemma {:induction false} ClosedMonth(y: int, m: int)
    requires 1 <= m <= 12
    ensures MonthStart(y, m) == if m <= 7 then 31 * (m - 1) else 30 * (m - 1) + 6
  {
    if m > 1 { ClosedMonth(y, m - 1); }
  }

  /** The walk through months and years counts what the closed form says. */
  lemma JalaliDayIsClosed(j: Date)
    requires ValidJalali(j)
    ensures JalaliDay(j) == ClosedDay(j.year, j.month, j.day)
  {
    ClosedYear(j.year);
    ClosedMonth(j.year, j.month);
  }

  /** The reference day has number 287 in the closed form. */
  lemma ReferenceIsClosed()
    ensures JalaliDay(REFERENCE) == 287
  {
    assert ValidJalali(REFERENCE);
    JalaliDayIsClosed(REFERENCE);
  }

  /** So a date converts to another exactly when the closed form puts it that many days from the reference day. */
  lemma ConvertsExactly(g: Date, j: Date)
    ensures Converts(g, j) <==> ValidJalali(j) && ClosedDay(j.year, j.month, j.day) - 287 == Jdn(g) - 2460311
  {
    ReferenceIsClosed();
    if ValidJalali(j) { JalaliDayIsClosed(j); }
  }

  lemma ByNumbers(g: Date, j: Date, n: int)
    requires ValidJalali(j) && ClosedDay(j.year, j.month, j.day) == n + 287
    requires Jdn(g) == n + 2460311
    ensures Converts(g, j)
  {
    ConvertsExactly(g, j);
  }

  lemma JulianDays()
    ensures Jdn(Date(2000, 3, 20)) == 2451624
    ensures Jdn(Date(1979, 2, 11)) == 2443916
  {}

  lemma ClosedDays()
    ensures ClosedDay(1379, 1, 1) == -8400
    ensures ClosedDay(1357, 11, 22) == -16108
  {}

  /** Two days of the past, as the project's tests give them. */
  lemma PastDates()
    ensures Converts(Date(2000, 3, 20), Date(1379, 1, 1))
    ensures Converts(Date(1979, 2, 11), Date(1357, 11, 22))
  {
    JulianDays();
    ClosedDays();
    ByNumbers(Date(2000, 3, 20), Date(1379, 1, 1), -8687);
    ByNumbers(Date(1979, 2, 11), Date(1357, 11, 22), -16395);
  }
}

/** Calendar dates as the code computes with them: JavaScript's UTC dates,
    YYYY-MM-DD strings (src/utils/dateParsing.js, src/utils/businessDay.js) and
    the 21-day police countdown (src/services/policeWorkflowService.js,
    src/services/policeCountdownService.js). */
module Calendar {
  import opened Common
  import opened Sorting

  // ------------------------------------------------------------------ days

  datatype Civil = Civil(year: int, month: int, day: int)

  predicate Leap(y: int) {
    y % 4 == 0 && (y % 100 != 0 || y % 400 == 0)
  }

  function DaysInMonth(y: int, m: int): int {
    if m == 2 then if Leap(y) then 29 else 28
    else if m in {4, 6, 9, 11} then 30
    else 31
  }

  function YearLength(y: int): int {
    if Leap(y) then 366 else 365
  }

  predicate Real(c: Civil) {
    1 <= c.year && 1 <= c.month <= 12 && 1 <= c.day <= DaysInMonth(c.year, c.month)
  }

  // Days before 1 January of a year, from 1 January of year 1 in the Gregorian calendar.
  function YearStart(y: int): int {
    365 * (y - 1) + (y - 1) / 4 - (y - 1) / 100 + (y - 1) / 400
  }

  function MonthStart(y: int, m: int): int
    decreases m
  {
    if m <= 1 then 0 else MonthStart(y, m - 1) + DaysInMonth(y, m - 1)
  }

  function DayAt(year: int, month: int, day: int): int {
    YearStart(year) + MonthStart(year, month) + day - 1
  }

  function DayNumber(c: Civil): int {
    DayAt(c.year, c.month, c.day)
  }

  lemma Carry4(x: int)
    ensures (x + 1) / 4 == x / 4 + if (x + 1) % 4 == 0 then 1 else 0
  {
  }

  lemma Carry100(x: int)
    ensures (x + 1) / 100 == x / 100 + if (x + 1) % 100 == 0 then 1 else 0
  {
  }

  lemma Carry400(x: int)
    ensures (x + 1) / 400 == x / 400 + if (x + 1) % 400 == 0 then 1 else 0
  {
  }

  lemma LeapRule(y: int)
    ensures y % 400 == 0 ==> y % 100 == 0
    ensures y % 100 == 0 ==> y % 4 == 0
  {
  }

  lemma NextYear(y: int)
    ensures YearStart(y + 1) == YearStart(y) + YearLength(y)
  {
    Carry4(y - 1);
    Carry100(y - 1);
    Carry400(y - 1);
    LeapRule(y);
  }

  lemma {:induction false} YearsGrow(y: int, z: int)
    requires y <= z
    ensures YearStart(y) + 365 * (z - y) <= YearStart(z)
    decreases z - y
  {
    if y < z {
      YearsGrow(y, z - 1);
      NextYear(z - 1);
    }
  }

  lemma MonthTable(y: int, m: int)
    requires 1 <= m <= 13
    ensures
      var leap := if Leap(y) then 1 else 0;
      MonthStart(y, m) ==
        if m == 1 then 0 else if m == 2 then 31 else if m == 3 then 59 + leap else if m == 4 then 90 + leap
        else if m == 5 then 120 + leap else if m == 6 then 151 + leap else if m == 7 then 181 + leap
        else if m == 8 then 212 + leap else if m == 9 then 243 + leap else if m == 10 then 273 + leap
        else if m == 11 then 304 + leap else if m == 12 then 334 + leap else 365 + leap
  {
    if m > 1 { MonthTable(y, m - 1); }
  }

  lemma {:induction false} MonthsGrow(y: int, m: int, n: int)
    requires 1 <= m < n
    ensures MonthStart(y, m) + DaysInMonth(y, m) <= MonthStart(y, n)
  {
    if m + 1 < n { MonthsGrow(y, m, n - 1); }
  }

  // ------------------------------------------------------------------ Date

  // A year, month and day of which the last two may be out of range: they carry over.
  function MakeDay(year: int, month: int, day: int): int {
    DayAt(year + (month - 1) / 12, (month - 1) % 12 + 1, day)
  }

  // Date.UTC(y, m, d) takes the years 0 to 99 for 1900 to 1999 (ECMA-262, MakeFullYear).
  function DateUtc(year: int, month: int, day: int): int {
    MakeDay(if 0 <= year <= 99 then 1900 + year else year, month, day)
  }

  // Twelve months too many are a year, days too many are days; and which years
  // are taken for which.
  lemma DateUtcCarries(year: int, month: int, day: int, k: int)
    ensures MakeDay(year, month + 12 * k, day) == MakeDay(year + k, month, day)
    ensures MakeDay(year, month, day + k) == MakeDay(year, month, day) + k
    ensures 1 <= month <= 12 ==> MakeDay(year, month, day) == DayAt(year, month, day)
    ensures 0 <= year <= 99 ==> DateUtc(year, month, day) == DateUtc(1900 + year, month, day)
    ensures !(0 <= year <= 99) ==> DateUtc(year, month, day) == MakeDay(year, month, day)
  {
    assert (month + 12 * k - 1) / 12 == (month - 1) / 12 + k;
    assert (month + 12 * k - 1) % 12 == (month - 1) % 12;
  }

  // getUTCFullYear, getUTCMonth, getUTCDate of a time value: its year is the
  // last one that has begun, its month the last one of it that has begun.
  function YearOf(n: int, y: int): (r: int)
    requires 1 <= y && YearStart(y) <= n
    ensures y <= r && YearStart(r) <= n < YearStart(r + 1)
    decreases n - YearStart(y)
  {
    NextYear(y);
    if YearStart(y + 1) <= n then YearOf(n, y + 1) else y
  }

  function MonthOf(d: int, y: int, m: int): (r: int)
    requires 1 <= m <= 12 && MonthStart(y, m) <= d < YearLength(y)
    ensures m <= r <= 12 && MonthStart(y, r) <= d < MonthStart(y, r) + DaysInMonth(y, r)
    decreases 12 - m
  {
    MonthTable(y, 13);
    if m < 12 && MonthStart(y, m + 1) <= d then MonthOf(d, y, m + 1) else m
  }

  function ToCivil(n: int): (c: Civil)
    requires 0 <= n
    ensures Real(c) && DayNumber(c) == n
  {
    var y := YearOf(n, 1);
    NextYear(y);
    var d := n - YearStart(y);
    var m := MonthOf(d, y, 1);
    Civil(y, m, d - MonthStart(y, m) + 1)
  }

  lemma BeforeYearEnd(c: Civil)
    requires Real(c)
    ensures YearStart(c.year) <= DayNumber(c) < YearStart(c.year + 1)
  {
    MonthTable(c.year, c.month);
    NextYear(c.year);
  }

  ghost predicate Earlier(a: Civil, b: Civil) {
    a.year < b.year || (a.year == b.year && (a.month < b.month || (a.month == b.month && a.day < b.day)))
  }

  // Day numbers count the calendar: earlier dates have smaller numbers.
  lemma DayNumberIsMonotone(a: Civil, b: Civil)
    requires Real(a) && Real(b)
    ensures Earlier(a, b) <==> DayNumber(a) < DayNumber(b)
    ensures a == b <==> DayNumber(a) == DayNumber(b)
  {
    if Earlier(a, b) { EarlierIsLess(a, b); }
    if Earlier(b, a) { EarlierIsLess(b, a); }
  }

  lemma YearsInOrder(y: int, z: int)
    requires y <= z
    ensures YearStart(y) <= YearStart(z)
  {
    YearsGrow(y, z);
  }

  lemma LaterYearIsLater(a: Civil, b: Civil)
    requires Real(a) && Real(b) && a.year < b.year
    ensures DayNumber(a) < DayNumber(b)
  {
    BeforeYearEnd(a);
    BeforeYearEnd(b);
    YearsInOrder(a.year + 1, b.year);
  }

  lemma EarlierIsLess(a: Civil, b: Civil)
    requires Real(a) && Real(b) && Earlier(a, b)
    ensures DayNumber(a) < DayNumber(b)
  {
    if a.year < b.year {
      LaterYearIsLater(a, b);
    } else {
      if a.month < b.month { MonthsGrow(a.year, a.month, b.month); }
    }
  }

  lemma CivilRoundTrip(c: Civil)
    requires Real(c)
    ensures DayNumber(c) >= 0 && ToCivil(DayNumber(c)) == c
  {
    BeforeYearEnd(c);
    YearsGrow(1, c.year);
    DayNumberIsMonotone(c, ToCivil(DayNumber(c)));
  }

  lemma NoCarry(x: int)
    requires 0 <= x < 12
    ensures x / 12 == 0 && x % 12 == x
  {
  }

  lemma MakeDayInYear(year: int, month: int, day: int)
    requires 1 <= month <= 12
    ensures MakeDay(year, month, day) == DayAt(year, month, day)
  {
    NoCarry(month - 1);
  }

  // toIsoDate and isValidBusinessDate let a date through when Date gives the
  // same parts back: exactly the real dates from the year 100 on.
  predicate PartsSurvive(year: int, month: int, day: int) {
    var n := DateUtc(year, month, day);
    0 <= n && ToCivil(n) == Civil(year, month, day)
  }

  lemma SurvivingPartsAreReal(year: int, month: int, day: int)
    requires 0 <= year
    ensures PartsSurvive(year, month, day) <==> Real(Civil(year, month, day)) && 100 <= year
  {
    var c := Civil(year, month, day);
    if year <= 99 && Real(c) {
      EarlyYearsMove(c);
    } else if Real(c) {
      CivilRoundTrip(c);
      MakeDayInYear(year, month, day);
    }
  }

  lemma EarlyYearsMove(c: Civil)
    requires Real(c) && c.year <= 99
    ensures DayNumber(c) < DateUtc(c.year, c.month, c.day)
  {
    CenturyKeepsLeap(c.year);
    LaterYearIsLater(c, Civil(1900 + c.year, c.month, c.day));
    MakeDayInYear(1900 + c.year, c.month, c.day);
  }

  lemma CenturyKeepsLeap(y: int)
    requires 1 <= y <= 99
    ensures Leap(1900 + y) <==> Leap(y)
  {
  }

  // ------------------------------------------------------------------ strings

  function Digit(n: int): char
    requires 0 <= n <= 9
  {
    '0' + n as char
  }

  function Two(n: int): (s: string)
    requires 0 <= n <= 99
    ensures |s| == 2
  {
    [Digit(n / 10), Digit(n % 10)]
  }

  function Four(n: int): (s: string)
    requires 0 <= n <= 9999
    ensures |s| == 4
  {
    Two(n / 100) + Two(n % 100)
  }

  function Iso(c: Civil): (s: string)
    requires Real(c) && 1000 <= c.year <= 9999
    ensures |s| == 10
  {
    assert 1 <= c.day <= 31;
    Four(c.year) + ("-" + (Two(c.month) + ("-" + Two(c.day))))
  }

  function DigitValue(c: char): int {
    c as int - '0' as int
  }

  // YYYY-MM-DD, read back.
  lemma IsoReadsBack(c: Civil)
    requires Real(c) && 1000 <= c.year <= 9999
    ensures
      var s := Iso(c);
      && s[4] == '-' && s[7] == '-'
      && c.year == 1000 * DigitValue(s[0]) + 100 * DigitValue(s[1]) + 10 * DigitValue(s[2]) + DigitValue(s[3])
      && c.month == 10 * DigitValue(s[5]) + DigitValue(s[6]) && c.day == 10 * DigitValue(s[8]) + DigitValue(s[9])
      && forall k :: 0 <= k < 10 && k != 4 && k != 7 ==> '0' <= s[k] <= '9'
  {
  }

  function ToIsoDate(year: int, month: int, day: int): (r: Option<string>)
    ensures r.Some? <==> 1900 <= year <= 2100 && Real(Civil(year, month, day))
    ensures r.Some? ==> r.value == Iso(Civil(year, month, day))
  {
    if year < 1900 || year > 2100 then None
    else
      SurvivingPartsAreReal(year, month, day);
      if PartsSurvive(year, month, day) then Some(Iso(Civil(year, month, day))) else None
  }

  // JavaScript's < on strings.
  predicate Less(a: string, b: string) {
    b != "" && (a == "" || a[0] < b[0] || (a[0] == b[0] && Less(a[1..], b[1..])))
  }

  lemma {:induction false} LessOfConcat(x: string, u: string, y: string, v: string)
    requires |x| == |y|
    ensures Less(x + u, y + v) <==> Less(x, y) || (x == y && Less(u, v))
  {
    if x == "" {
      assert x + u == u && y + v == v;
    } else {
      LessOfConcat(x[1..], u, y[1..], v);
      assert (x + u)[1..] == x[1..] + u && (y + v)[1..] == y[1..] + v;
      assert x == [x[0]] + x[1..] && y == [y[0]] + y[1..];
    }
  }

  lemma CharInOrder(x: char, y: char)
    ensures Less([x], [y]) <==> x < y
  {
    assert [x][1..] == "" && [y][1..] == "";
  }

  lemma TwoInOrder(a: int, b: int)
    requires 0 <= a <= 99 && 0 <= b <= 99
    ensures Less(Two(a), Two(b)) <==> a < b
    ensures Two(a) == Two(b) <==> a == b
  {
    var x, u, y, v := Digit(a / 10), Digit(a % 10), Digit(b / 10), Digit(b % 10);
    assert Two(a) == [x] + [u] && Two(b) == [y] + [v];
    LessOfConcat([x], [u], [y], [v]);
    CharInOrder(x, y);
    CharInOrder(u, v);
    assert [x] == [y] <==> x == y;
    assert Two(a)[0] == x && Two(a)[1] == u && Two(b)[0] == y && Two(b)[1] == v;
  }

  lemma FourInOrder(a: int, b: int)
    requires 0 <= a <= 9999 && 0 <= b <= 9999
    ensures Less(Four(a), Four(b)) <==> a < b
    ensures Four(a) == Four(b) <==> a == b
  {
    LessOfConcat(Two(a / 100), Two(a % 100), Two(b / 100), Two(b % 100));
    TwoInOrder(a / 100, b / 100);
    TwoInOrder(a % 100, b % 100);
    assert Four(a)[..2] == Two(a / 100) && Four(b)[..2] == Two(b / 100);
    assert Four(a)[2..] == Two(a % 100) && Four(b)[2..] == Two(b % 100);
  }

  lemma DashInOrder(u: string, v: string)
    ensures Less("-" + u, "-" + v) <==> Less(u, v)
  {
    LessOfConcat("-", u, "-", v);
    assert "-"[1..] == "";
  }

  lemma IsoParts(c: Civil)
    requires Real(c) && 1000 <= c.year <= 9999
    ensures Iso(c)[..4] == Four(c.year) && Iso(c)[5..7] == Two(c.month) && Iso(c)[8..] == Two(c.day)
  {
  }

  // String order of YYYY-MM-DD is date order.
  lemma IsoOrderIsDateOrder(a: Civil, b: Civil)
    requires Real(a) && Real(b) && 1000 <= a.year <= 9999 && 1000 <= b.year <= 9999
    ensures Less(Iso(a), Iso(b)) <==> DayNumber(a) < DayNumber(b)
    ensures Iso(a) == Iso(b) <==> a == b
  {
    var dayA, dayB := "-" + Two(a.day), "-" + Two(b.day);
    var restA, restB := "-" + (Two(a.month) + dayA), "-" + (Two(b.month) + dayB);
    LessOfConcat(Four(a.year), restA, Four(b.year), restB);
    DashInOrder(Two(a.month) + dayA, Two(b.month) + dayB);
    LessOfConcat(Two(a.month), dayA, Two(b.month), dayB);
    DashInOrder(Two(a.day), Two(b.day));
    FourInOrder(a.year, b.year);
    TwoInOrder(a.month, b.month);
    TwoInOrder(a.day, b.day);
    IsoParts(a);
    IsoParts(b);
    DayNumberIsMonotone(a, b);
  }

  // ------------------------------------------------------------------ due dates

  const POLICE_REPORT_DUE_DAYS := 21
  const DUE_SOON_DAYS := 7

  // A Date object at UTC midnight.
  class UtcDate {
    var time: int   // its day number

    constructor (c: Civil)
      requires Real(c)
      ensures time == DayNumber(c)
    {
      time := DayNumber(c);
    }

    function GetUtcDate(): int
      requires 0 <= time
      reads this
    {
      ToCivil(time).day
    }

    // Days beyond the month's end carry into the next months.
    method SetUtcDate(day: int)
      requires 0 <= time
      modifies this
      ensures time == MakeDay(ToCivil(old(time)).year, ToCivil(old(time)).month, day)
    {
      var c := ToCivil(time);
      time := MakeDay(c.year, c.month, day);
    }
  }

  function DueDate(submitted: Civil): (due: Civil)
    requires Real(submitted)
    ensures Real(due) && DayNumber(due) == DayNumber(submitted) + POLICE_REPORT_DUE_DAYS
  {
    CivilRoundTrip(submitted);
    ToCivil(DayNumber(submitted) + POLICE_REPORT_DUE_DAYS)
  }

  method PoliceReportDueDate(submitted: Civil) returns (due: Civil)
    requires Real(submitted)
    ensures due == DueDate(submitted)
  {
    CivilRoundTrip(submitted);
    var date := new UtcDate(submitted);
    var day := date.GetUtcDate();
    date.SetUtcDate(day + POLICE_REPORT_DUE_DAYS);
    MakeDayInYear(submitted.year, submitted.month, day + POLICE_REPORT_DUE_DAYS);
    return ToCivil(date.time);
  }

  // Both ends are UTC midnights, so the division is exact and nothing is rounded.
  function DaysBetween(from: Civil, to: Civil): int {
    DayNumber(to) - DayNumber(from)
  }

  // ------------------------------------------------------------------ countdown

  datatype PoliceStatus = Completed | Pending | DueSoon | DueToday | Overdue | DateMissing | NotUploaded

  function StatusForDaysLeft(daysLeft: int): PoliceStatus {
    if daysLeft < 0 then Overdue
    else if daysLeft == 0 then DueToday
    else if daysLeft <= DUE_SOON_DAYS then DueSoon
    else Pending
  }

  // A stored police slip; `submitted` is absent when no date is known.
  datatype Slip = Slip(documentId: nat, submitted: Option<Civil>, received: int)

  datatype Countdown = Countdown(status: PoliceStatus, submitted: Option<Civil>, due: Option<Civil>, daysRemaining: Option<int>)

  // A DATE column holds a date of these years.
  predicate SlipOk(s: Slip) {
    s.submitted.Some? ==> Real(s.submitted.value) && 1900 <= s.submitted.value.year <= 2100
  }

  function Dated(slips: seq<Slip>): seq<Slip> {
    if slips == [] then []
    else (if slips[0].submitted.Some? then [slips[0]] else []) + Dated(slips[1..])
  }

  // The sort's comparator, on the strings: latest date first, then last received.
  function NewestFirst(): (Slip, Slip) -> bool {
    (a: Slip, b: Slip) =>
      if SlipOk(a) && SlipOk(b) && a.submitted.Some? && b.submitted.Some? then
        if Iso(a.submitted.value) == Iso(b.submitted.value) then a.received >= b.received
        else !Less(Iso(a.submitted.value), Iso(b.submitted.value))
      else !SlipOk(b) || b.submitted.None?
  }

  // dated[0]?.submitted
  function LatestSubmitted(slips: seq<Slip>): (r: Option<Civil>)
    requires forall s :: s in slips ==> SlipOk(s)
    ensures r.Some? ==> Real(r.value)
  {
    DatedAre(slips);
    NewestFirstRanks();
    var dated := Sort(NewestFirst(), Dated(slips));
    if dated == [] then None
    else
      assert dated[0] in slips by {
        SortSorts(NewestFirst(), Dated(slips));
        SameElements(Dated(slips), dated);
        assert dated[0] in Dated(slips);
      }
      dated[0].submitted
  }

  function CountdownFrom(latest: Option<Civil>, anySlip: bool, verifiedReport: bool, pendingSlips: nat, today: Civil): Countdown
    requires latest.Some? ==> Real(latest.value)
    requires Real(today)
  {
    match latest
    case Some(submitted) =>
      var due := DueDate(submitted);
      var days := DaysBetween(today, due);
      if verifiedReport then Countdown(Completed, Some(submitted), Some(due), None)
      else Countdown(StatusForDaysLeft(days), Some(submitted), Some(due), Some(days))
    case None =>
      Countdown(if verifiedReport then Completed else if anySlip || pendingSlips > 0 then DateMissing else NotUploaded, None, None, None)
  }

  function PoliceCountdown(slips: seq<Slip>, verifiedReport: bool, pendingSlips: nat, today: Civil): Countdown
    requires forall s :: s in slips ==> SlipOk(s)
    requires Real(today)
  {
    CountdownFrom(LatestSubmitted(slips), slips != [], verifiedReport, pendingSlips, today)
  }

  lemma {:induction false} DatedAre(slips: seq<Slip>)
    ensures forall s :: s in Dated(slips) <==> s in slips && s.submitted.Some?
  {
    if slips != [] {
      DatedAre(slips[1..]);
      assert slips == [slips[0]] + slips[1..];
    }
  }

  lemma NewestFirstMeans(a: Slip, b: Slip)
    requires SlipOk(a) && SlipOk(b) && a.submitted.Some? && b.submitted.Some?
    ensures NewestFirst()(a, b) <==>
      || DayNumber(b.submitted.value) < DayNumber(a.submitted.value)
      || (a.submitted == b.submitted && b.received <= a.received)
  {
    IsoOrderIsDateOrder(a.submitted.value, b.submitted.value);
    DayNumberIsMonotone(a.submitted.value, b.submitted.value);
  }

  predicate Comparable(s: Slip) {
    SlipOk(s) && s.submitted.Some?
  }

  lemma NewestFirstRanks()
    ensures Ranks(NewestFirst())
  {
    forall a, b ensures NewestFirst()(a, b) || NewestFirst()(b, a) {
      if Comparable(a) && Comparable(b) {
        NewestFirstMeans(a, b);
        NewestFirstMeans(b, a);
        DayNumberIsMonotone(a.submitted.value, b.submitted.value);
      }
    }
    forall a, b, c | NewestFirst()(a, b) && NewestFirst()(b, c) ensures NewestFirst()(a, c) {
      if Comparable(a) && Comparable(c) {
        NewestFirstMeans(a, b);
        NewestFirstMeans(b, c);
        NewestFirstMeans(a, c);
      }
    }
  }

  // The slip that counts has the latest submitted date of all.
  lemma LatestSlipCounts(slips: seq<Slip>)
    requires forall s :: s in slips ==> SlipOk(s)
    ensures LatestSubmitted(slips).Some? <==> exists s :: s in slips && s.submitted.Some?
    ensures LatestSubmitted(slips).Some? ==> exists s :: s in slips && s.submitted == LatestSubmitted(slips)
    ensures forall s :: s in slips && s.submitted.Some? ==>
              LatestSubmitted(slips).Some? && DayNumber(s.submitted.value) <= DayNumber(LatestSubmitted(slips).value)
  {
    DatedAre(slips);
    NewestFirstRanks();
    SortSorts(NewestFirst(), Dated(slips));
    if Dated(slips) != [] {
      FirstRanksFirst(NewestFirst(), Dated(slips));
      var first := Sort(NewestFirst(), Dated(slips))[0];
      assert first in slips && Dated(slips)[0] in Dated(slips);
      forall s | s in slips && s.submitted.Some? ensures DayNumber(s.submitted.value) <= DayNumber(first.submitted.value) {
        assert s in Dated(slips);
        NewestFirstMeans(first, s);
      }
    }
  }

  lemma StatusByElapsed(daysLeft: int, elapsed: int)
    requires daysLeft == POLICE_REPORT_DUE_DAYS - elapsed
    ensures
      var status := StatusForDaysLeft(daysLeft);
      && (status == Pending <==> elapsed <= 13)
      && (status == DueSoon <==> 14 <= elapsed <= 20)
      && (status == DueToday <==> elapsed == 21)
      && (status == Overdue <==> elapsed > 21)
  {
  }

  lemma CountdownFromDate(submitted: Civil, anySlip: bool, pendingSlips: nat, today: Civil)
    requires Real(submitted) && Real(today)
    ensures
      var r := CountdownFrom(Some(submitted), anySlip, false, pendingSlips, today);
      var elapsed := DayNumber(today) - DayNumber(submitted);
      && r.submitted == Some(submitted) && r.daysRemaining == Some(21 - elapsed)
      && (r.status == Pending <==> elapsed <= 13)
      && (r.status == DueSoon <==> 14 <= elapsed <= 20)
      && (r.status == DueToday <==> elapsed == 21)
      && (r.status == Overdue <==> elapsed > 21)
  {
    StatusByElapsed(DaysBetween(today, DueDate(submitted)), DayNumber(today) - DayNumber(submitted));
  }

  // The dates beside the status: also a completed workflow shows both, but no
  // days any more.
  lemma CountdownDates(slips: seq<Slip>, verifiedReport: bool, pendingSlips: nat, today: Civil)
    requires forall s :: s in slips ==> SlipOk(s)
    requires Real(today)
    ensures
      var r, latest := PoliceCountdown(slips, verifiedReport, pendingSlips, today), LatestSubmitted(slips);
      && r.submitted == latest && (r.due.Some? <==> latest.Some?)
      && (r.daysRemaining.Some? <==> latest.Some? && !verifiedReport)
      && (latest.Some? ==> Real(r.due.value) && DayNumber(r.due.value) == DayNumber(latest.value) + 21)
      && (r.daysRemaining.Some? ==> r.daysRemaining.value == DayNumber(r.due.value) - DayNumber(today))
  {
  }

  // Main result: the status by days since the latest submitted date.
  lemma CountdownByDays(slips: seq<Slip>, pendingSlips: nat, today: Civil)
    requires forall s :: s in slips ==> SlipOk(s)
    requires Real(today) && LatestSubmitted(slips).Some?
    ensures
      var r := PoliceCountdown(slips, false, pendingSlips, today);
      var elapsed := DayNumber(today) - DayNumber(LatestSubmitted(slips).value);
      && r.submitted == LatestSubmitted(slips) && r.daysRemaining == Some(21 - elapsed)
      && (r.status == Pending <==> elapsed <= 13)
      && (r.status == DueSoon <==> 14 <= elapsed <= 20)
      && (r.status == DueToday <==> elapsed == 21)
      && (r.status == Overdue <==> elapsed > 21)
  {
    CountdownFromDate(LatestSubmitted(slips).value, slips != [], pendingSlips, today);
  }

  // Without a date, and with a verified report.
  lemma CountdownWithoutDays(slips: seq<Slip>, verifiedReport: bool, pendingSlips: nat, today: Civil)
    requires forall s :: s in slips ==> SlipOk(s)
    requires Real(today)
    ensures
      var r := PoliceCountdown(slips, verifiedReport, pendingSlips, today);
      && (r.status == Completed <==> verifiedReport)
      && (r.status == NotUploaded <==> !verifiedReport && slips == [] && pendingSlips == 0)
      && (r.status == DateMissing <==> !verifiedReport && LatestSubmitted(slips).None? && (slips != [] || pendingSlips > 0))
      && (r.daysRemaining.Some? <==> !verifiedReport && LatestSubmitted(slips).Some?)
  {
  }

  // ------------------------------------------------------------------ business days

  const OFFSET_MINUTES := 330   // Asia/Colombo

  // businessDateOf: the date of an instant (minutes since year 1, UTC) in Sri Lanka.
  function BusinessDateOf(minutes: int): Civil
    requires 0 <= minutes
  {
    ToCivil((minutes + OFFSET_MINUTES) / 1440)
  }

  // businessDayRange: from this midnight to the next, as UTC instants; None
  // (a RangeError) for what isValidBusinessDate refuses.
  function BusinessDayRange(c: Civil): Option<(int, int)> {
    if !PartsSurvive(c.year, c.month, c.day) then None
    else Some((DateUtc(c.year, c.month, c.day) * 1440 - OFFSET_MINUTES, DateUtc(c.year, c.month, c.day + 1) * 1440 - OFFSET_MINUTES))
  }

  // The ranges of the business days cut time into pieces: exactly the real days
  // from the year 100 on have one, and an instant is in the range of a day
  // exactly when that day is its business date.
  lemma BusinessDayContains(c: Civil, minutes: int)
    requires 0 <= c.year && 0 <= minutes
    ensures
      match BusinessDayRange(c)
      case None => !(Real(c) && 100 <= c.year)
      case Some((start, end)) => Real(c) && 100 <= c.year && (start <= minutes < end <==> BusinessDateOf(minutes) == c)
  {
    SurvivingPartsAreReal(c.year, c.month, c.day);
    if Real(c) && 100 <= c.year {
      CivilRoundTrip(c);
      var n := (minutes + OFFSET_MINUTES) / 1440;
      MakeDayInYear(c.year, c.month, c.day);
      MakeDayInYear(c.year, c.month, c.day + 1);
      DayNumberIsMonotone(c, ToCivil(n));
    }
  }
}

// Civil dates from Unix day counts (Howard Hinnant's algorithm) against the
// calendar's own rule: the date after the given one. Integers are unbounded.

module Calendar {
  datatype Date = Date(year: int, month: int, day: int)

  // ---- The Gregorian calendar ----

  predicate IsLeap(year: int) {
    year % 4 == 0 && (year % 100 != 0 || year % 400 == 0)
  }

  function DaysInMonth(year: int, month: int): int {
    if month == 2 then (if IsLeap(year) then 29 else 28)
    else if month in {4, 6, 9, 11} then 30
    else 31
  }

  predicate ValidDate(d: Date) {
    1 <= d.month <= 12 && 1 <= d.day <= DaysInMonth(d.year, d.month)
  }

  function NextDay(d: Date): Date {
    if d.day < DaysInMonth(d.year, d.month) then Date(d.year, d.month, d.day + 1)
    else if d.month < 12 then Date(d.year, d.month + 1, 1)
    else Date(d.year + 1, 1, 1)
  }

  predicate Earlier(a: Date, b: Date) {
    a.year < b.year || (a.year == b.year && (a.month < b.month || (a.month == b.month && a.day < b.day)))
  }

  // ---- The algorithm ----

  // Rust's integer division truncates toward zero.
  function TruncDiv(a: int, b: int): int
    requires b > 0
  {
    if a >= 0 then a / b else -(-a / b)
  }

  function CivilFromUnixDays(daysSinceEpoch: int): Date {
    var z := daysSinceEpoch + 719_468;
    var era := TruncDiv(if z >= 0 then z else z - 146_096, 146_097);
    var doe := z - era * 146_097;
    CivilOfEra(era, doe)
  }

  function CivilOfEra(era: int, doe: int): Date {
    var yoe := TruncDiv(doe - TruncDiv(doe, 1_460) + TruncDiv(doe, 36_524) - TruncDiv(doe, 146_096), 365);
    var year := yoe + era * 400;
    var doy := doe - (365 * yoe + TruncDiv(yoe, 4) - TruncDiv(yoe, 100));
    CivilOfYear(year, doy)
  }

  function CivilOfYear(year: int, doy: int): Date {
    var mp := TruncDiv(5 * doy + 2, 153);
    var day := doy - TruncDiv(153 * mp + 2, 5) + 1;
    var month := mp + (if mp < 10 then 3 else -9);
    Date(year + (if month <= 2 then 1 else 0), month, day)
  }

  // ---- Its parts ----

  // Days of a 400-year era before its year y, with years starting in March.
  function YearStart(y: int): int {
    365 * y + y / 4 - y / 100
  }

  function YearOfEra(doe: int): int {
    (doe - doe / 1_460 + doe / 36_524 - doe / 146_096) / 365
  }

  function YearLength(y: int): int {
    (if y == 399 then 146_097 else YearStart(y + 1)) - YearStart(y)
  }

  // Within a century c of an era, with r days gone: q leap days' worth of days and
  // the year w are the quotients of the year formula, and w's bounds hold r.
  ghost predicate Quotients(c: int, r: int, q: int, w: int) {
    && 0 <= c < 4 && 0 <= r < 36_524
    && 1_460 * q <= 24 * c + r < 1_460 * q + 1_460
    && 365 * w <= r - q < 365 * w + 365
  }

  lemma NotBefore(c: int, r: int, q: int, w: int, u: int)
    requires Quotients(c, r, q, w) && 0 <= w < 100 && 4 * u <= w
    ensures 365 * w + u <= r
  {
  }

  lemma NotAfter(c: int, r: int, q: int, w: int, v: int)
    requires Quotients(c, r, q, w) && 0 <= w < 100 && w + 1 <= 4 * v + 3 && v <= 25
    ensures r < 365 * (w + 1) + v
  {
  }

  lemma CenturyYear(c: int, r: int, q: int, w: int)
    requires Quotients(c, r, q, w)
    ensures 0 <= w < 100 && 365 * w + w / 4 <= r < 365 * (w + 1) + (w + 1) / 4
  {
    assert 0 <= q <= 25;
    assert 0 <= w < 100;
    NotBefore(c, r, q, w, w / 4);
    NotAfter(c, r, q, w, (w + 1) / 4);
  }

  lemma DayQuotients(doe: int, c: int, r: int, q: int)
    requires 0 <= c < 4 && 0 <= r < 36_524 && doe == 36_524 * c + r && q == (24 * c + r) / 1_460
    ensures doe / 1_460 == 25 * c + q && doe / 36_524 == c && doe / 146_096 == 0
  {
  }

  lemma YearInCentury(doe: int, c: int, r: int, q: int, w: int)
    requires 0 <= c < 4 && 0 <= r < 36_524 && doe == 36_524 * c + r
    requires q == (24 * c + r) / 1_460 && w == (r - q) / 365
    ensures YearOfEra(doe) == 100 * c + w
  {
    DayQuotients(doe, c, r, q);
    assert doe - doe / 1_460 + doe / 36_524 - doe / 146_096 == 36_500 * c + (r - q);
  }

  lemma CenturyStart(c: int, w: int)
    requires 0 <= c < 4 && 0 <= w <= 100
    ensures w < 100 ==> YearStart(100 * c + w) == 36_524 * c + 365 * w + w / 4
    ensures w == 100 ==> YearStart(100 * c + w) == 36_524 * (c + 1)
  {
    assert (100 * c + w) / 4 == 25 * c + w / 4;
    assert (100 * c + w) / 100 == c + w / 100;
  }

  // The year formula picks the year the day falls in.
  lemma YearFormula(doe: int)
    requires 0 <= doe < 146_097
    ensures var y := YearOfEra(doe);
            0 <= y < 400 && YearStart(y) <= doe && (y < 399 ==> doe < YearStart(y + 1))
  {
    if doe == 146_096 {
      assert YearOfEra(146_096) == 399;
    } else {
      var c, r := doe / 36_524, doe % 36_524;
      var q := (24 * c + r) / 1_460;
      var w := (r - q) / 365;
      YearInCentury(doe, c, r, q, w);
      CenturyYear(c, r, q, w);
      CenturyStart(c, w);
      CenturyStart(c, w + 1);
    }
  }

  lemma YearOfEraBrackets(doe: int)
    requires 0 <= doe < 146_097
    ensures var y := YearOfEra(doe);
            0 <= y < 400 && 0 <= doe - YearStart(y) < YearLength(y)
  {
    YearFormula(doe);
  }

  // Days of a March year before its month mp.
  function MonthStart(mp: int): int {
    (153 * mp + 2) / 5
  }

  // The date of day doy of year y of an era.
  function DateOf(era: int, y: int, doy: int): Date {
    var mp := (5 * doy + 2) / 153;
    var month := if mp < 10 then mp + 3 else mp - 9;
    Date(y + era * 400 + (if month <= 2 then 1 else 0), month, doy - MonthStart(mp) + 1)
  }

  ghost predicate Splits(days: int, era: int, y: int, doy: int) {
    0 <= y < 400 && 0 <= doy < YearLength(y) && days + 719_468 == era * 146_097 + YearStart(y) + doy
  }

  lemma EraIsFloor(z: int)
    ensures var era := TruncDiv(if z >= 0 then z else z - 146_096, 146_097);
            0 <= z - era * 146_097 < 146_097
  {
  }

  lemma YearPart(era: int, doe: int)
    requires 0 <= doe < 146_097
    ensures var y := YearOfEra(doe);
            CivilOfEra(era, doe) == CivilOfYear(y + era * 400, doe - YearStart(y))
  {
    assert doe - doe / 1_460 + doe / 36_524 - doe / 146_096 >= 0;
    assert YearOfEra(doe) >= 0;
  }

  lemma MonthPart(era: int, y: int, doy: int)
    requires doy >= 0
    ensures CivilOfYear(y + era * 400, doy) == DateOf(era, y, doy)
  {
  }

  lemma EraPart(days: int) returns (era: int, doe: int)
    ensures 0 <= doe < 146_097 && days + 719_468 == era * 146_097 + doe
    ensures CivilFromUnixDays(days) == CivilOfEra(era, doe)
  {
    var z := days + 719_468;
    EraIsFloor(z);
    era := TruncDiv(if z >= 0 then z else z - 146_096, 146_097);
    doe := z - era * 146_097;
  }

  lemma CivilSplits(days: int) returns (era: int, y: int, doy: int)
    ensures Splits(days, era, y, doy) && CivilFromUnixDays(days) == DateOf(era, y, doy)
  {
    var doe;
    era, doe := EraPart(days);
    YearOfEraBrackets(doe);
    YearPart(era, doe);
    y := YearOfEra(doe);
    doy := doe - YearStart(y);
    MonthPart(era, y, doy);
  }

  // A day belongs to one year of one era only.
  lemma SplitIsUnique(days: int, era: int, y: int, doy: int, era': int, y': int, doy': int)
    requires Splits(days, era, y, doy) && Splits(days, era', y', doy')
    ensures era == era' && y == y' && doy == doy'
  {
    YearFits(y);
    YearFits(y');
    if y < y' {
      YearsAreOrdered(y, y');
    } else if y' < y {
      YearsAreOrdered(y', y);
    }
  }

  lemma YearFits(y: int)
    requires 0 <= y < 400
    ensures 0 <= YearStart(y) && YearStart(y) + YearLength(y) <= 146_097 && YearLength(y) in {365, 366}
  {
  }

  lemma YearsAreOrdered(y: int, y': int)
    requires 0 <= y < y' < 400
    ensures YearStart(y) + YearLength(y) <= YearStart(y')
  {
  }

  lemma Step4(y: int)
    ensures (y + 1) / 4 - y / 4 == (if (y + 1) % 4 == 0 then 1 else 0)
  {
  }

  lemma Step100(y: int)
    ensures (y + 1) / 100 - y / 100 == (if (y + 1) % 100 == 0 then 1 else 0)
  {
  }

  lemma Step400(y: int)
    ensures (y + 1) / 400 - y / 400 == (if (y + 1) % 400 == 0 then 1 else 0)
  {
  }

  lemma EraKeepsLeap(y: int, era: int)
    ensures IsLeap(y + era * 400) == IsLeap(y)
  {
    Mod4(y, era * 100);
    Mod100(y, era * 4);
    Mod400(y, era);
  }

  lemma Mod4(y: int, k: int)
    ensures (y + 4 * k) % 4 == y % 4
  {
    assert y + 4 * k == 4 * (y / 4 + k) + y % 4;
  }

  lemma Mod100(y: int, k: int)
    ensures (y + 100 * k) % 100 == y % 100
  {
    assert y + 100 * k == 100 * (y / 100 + k) + y % 100;
  }

  lemma Mod400(y: int, k: int)
    ensures (y + 400 * k) % 400 == y % 400
  {
    assert y + 400 * k == 400 * (y / 400 + k) + y % 400;
  }

  // A March year is long exactly when it holds the 29th of February of a leap year.
  lemma LongYearIsLeap(era: int, y: int)
    requires 0 <= y < 400
    ensures YearLength(y) == (if IsLeap(y + 1 + era * 400) then 366 else 365)
  {
    EraKeepsLeap(y + 1, era);
    Step4(y);
    Step100(y);
    if y < 399 {
      assert (y + 1) % 400 != 0;
    }
  }

  // ---- One day at a time ----

  lemma MonthBrackets(doy: int, mp: int)
    requires 0 <= doy < 366 && mp == (5 * doy + 2) / 153
    ensures 0 <= mp <= 11 && MonthStart(mp) <= doy < MonthStart(mp + 1)
    ensures (5 * (doy + 1) + 2) / 153 == if doy + 1 < MonthStart(mp + 1) then mp else mp + 1
  {
  }

  lemma MonthLength(mp: int, year: int)
    requires 0 <= mp <= 10
    ensures MonthStart(mp + 1) - MonthStart(mp) == DaysInMonth(year, if mp < 10 then mp + 3 else mp - 9)
  {
    assert mp in {0, 1, 2, 3, 4, 5, 6, 7, 8, 9, 10};
  }

  lemma NextInYear(era: int, y: int, doy: int)
    requires 0 <= y < 400 && 0 <= doy && doy + 1 < YearLength(y)
    ensures DateOf(era, y, doy + 1) == NextDay(DateOf(era, y, doy))
  {
    var mp := (5 * doy + 2) / 153;
    YearFits(y);
    LongYearIsLeap(era, y);
    MonthBrackets(doy, mp);
    if mp <= 10 {
      MonthLength(mp, y + era * 400 + (if mp < 10 then 0 else 1));
    } else {
      assert MonthStart(11) == 337 && MonthStart(12) == 367;
    }
  }

  lemma NextYearStarts(era: int, y: int)
    requires 0 <= y < 400
    ensures NextDay(DateOf(era, y, YearLength(y) - 1)) == (if y < 399 then DateOf(era, y + 1, 0) else DateOf(era + 1, 0, 0))
  {
    LongYearIsLeap(era, y);
    YearFits(y);
  }

  lemma DatesAreValid(era: int, y: int, doy: int)
    requires 0 <= y < 400 && 0 <= doy < YearLength(y)
    ensures ValidDate(DateOf(era, y, doy))
  {
    LongYearIsLeap(era, y);
    YearFits(y);
  }

  // Every integer is a valid date, day 0 is the epoch, and one day later is the
  // next date: the algorithm is the calendar.
  lemma CivilIsValid(days: int)
    ensures ValidDate(CivilFromUnixDays(days))
  {
    var era, y, doy := CivilSplits(days);
    DatesAreValid(era, y, doy);
  }

  lemma EpochIsDayZero()
    ensures CivilFromUnixDays(0) == Date(1970, 1, 1)
  {
  }

  lemma CivilSteps(days: int)
    ensures CivilFromUnixDays(days + 1) == NextDay(CivilFromUnixDays(days))
  {
    var era, y, doy := CivilSplits(days);
    var era', y', doy' := CivilSplits(days + 1);
    SplitsInTurn(days, era, y, doy, era', y', doy');
  }

  lemma SplitsInTurn(days: int, era: int, y: int, doy: int, era': int, y': int, doy': int)
    requires Splits(days, era, y, doy) && Splits(days + 1, era', y', doy')
    ensures DateOf(era', y', doy') == NextDay(DateOf(era, y, doy))
  {
    if doy + 1 < YearLength(y) {
      SplitIsUnique(days + 1, era, y, doy + 1, era', y', doy');
      NextInYear(era, y, doy);
    } else {
      NewYearSplits(days, era, y, doy);
      if y < 399 {
        SplitIsUnique(days + 1, era, y + 1, 0, era', y', doy');
      } else {
        SplitIsUnique(days + 1, era + 1, 0, 0, era', y', doy');
      }
      NextYearStarts(era, y);
    }
  }

  lemma NewYearSplits(days: int, era: int, y: int, doy: int)
    requires Splits(days, era, y, doy) && doy + 1 == YearLength(y)
    ensures if y < 399 then Splits(days + 1, era, y + 1, 0) else Splits(days + 1, era + 1, 0, 0)
  {
    YearFits(if y < 399 then y + 1 else 0);
  }

  // ---- Order ----

  lemma NextIsLater(d: Date)
    requires ValidDate(d)
    ensures Earlier(d, NextDay(d)) && ValidDate(NextDay(d))
  {
  }

  lemma {:induction false} CivilIsIncreasing(a: int, b: int)
    requires a < b
    ensures Earlier(CivilFromUnixDays(a), CivilFromUnixDays(b))
    decreases b - a
  {
    CivilIsValid(b - 1);
    CivilSteps(b - 1);
    if a < b - 1 {
      CivilIsIncreasing(a, b - 1);
    }
    StillEarlier(CivilFromUnixDays(a), CivilFromUnixDays(b - 1), CivilFromUnixDays(b));
  }

  lemma StillEarlier(a: Date, before: Date, b: Date)
    requires ValidDate(before) && b == NextDay(before) && (a == before || Earlier(a, before))
    ensures Earlier(a, b)
  {
    NextIsLater(before);
  }

  // ---- Counting days ----

  // Days from the start of year 1 to the start of the given year.
  function DaysBeforeYear(year: int): int {
    365 * (year - 1) + (year - 1) / 4 - (year - 1) / 100 + (year - 1) / 400
  }

  lemma YearCounts(year: int)
    ensures DaysBeforeYear(year + 1) == DaysBeforeYear(year) + (if IsLeap(year) then 366 else 365)
  {
    Step4(year - 1);
    Step100(year - 1);
    Step400(year - 1);
    CenturiesAndEras(year);
  }

  lemma CenturiesAndEras(year: int)
    ensures year % 400 == 0 ==> year % 100 == 0
    ensures year % 100 == 0 ==> year % 4 == 0
  {
  }

  function DaysBeforeMonth(year: int, month: int): int
    requires 1 <= month <= 13
    decreases month
  {
    if month == 1 then 0 else DaysBeforeMonth(year, month - 1) + DaysInMonth(year, month - 1)
  }

  function DayNumber(d: Date): int
    requires ValidDate(d)
  {
    DaysBeforeYear(d.year) - DaysBeforeYear(1970) + DaysBeforeMonth(d.year, d.month) + d.day - 1
  }

  lemma MonthsFillYear(year: int)
    ensures DaysBeforeMonth(year, 12) + DaysInMonth(year, 12) == (if IsLeap(year) then 366 else 365)
  {
    assert DaysBeforeMonth(year, 4) == DaysInMonth(year, 1) + DaysInMonth(year, 2) + DaysInMonth(year, 3);
    assert DaysBeforeMonth(year, 7) == DaysBeforeMonth(year, 4) + 91;
    assert DaysBeforeMonth(year, 10) == DaysBeforeMonth(year, 7) + 92;
    assert DaysBeforeMonth(year, 12) == DaysBeforeMonth(year, 10) + 61;
  }

  lemma NextCountsOne(d: Date)
    requires ValidDate(d)
    ensures ValidDate(NextDay(d)) && DayNumber(NextDay(d)) == DayNumber(d) + 1
  {
    if d.day == DaysInMonth(d.year, d.month) && d.month == 12 {
      MonthsFillYear(d.year);
      YearCounts(d.year);
    }
  }

  // The algorithm undoes day counting, for every integer.
  lemma {:induction false} CountingUndoesCivil(days: int)
    ensures ValidDate(CivilFromUnixDays(days)) && DayNumber(CivilFromUnixDays(days)) == days
    decreases if days < 0 then -days else days
  {
    CivilIsValid(days);
    if days == 0 {
      EpochIsDayZero();
    } else {
      var before := if days > 0 then days - 1 else days;
      CountingUndoesCivil(if days > 0 then days - 1 else days + 1);
      CivilIsValid(before);
      CivilSteps(before);
      NextCountsOne(CivilFromUnixDays(before));
    }
  }

  lemma {:induction false} MonthsAreOrdered(year: int, m: int, m': int)
    requires 1 <= m < m' <= 12
    ensures DaysBeforeMonth(year, m) + DaysInMonth(year, m) <= DaysBeforeMonth(year, m')
    decreases m'
  {
    if m < m' - 1 {
      MonthsAreOrdered(year, m, m' - 1);
    }
  }

  lemma {:induction false} WithinYear(d: Date)
    requires ValidDate(d)
    ensures DaysBeforeMonth(d.year, d.month) + d.day <= (if IsLeap(d.year) then 366 else 365)
  {
    MonthsFillYear(d.year);
    if d.month < 12 {
      MonthsAreOrdered(d.year, d.month, 12);
    }
  }

  lemma {:induction false} YearsCountUp(y: int, y': int)
    requires y < y'
    ensures DaysBeforeYear(y) + (if IsLeap(y) then 366 else 365) <= DaysBeforeYear(y')
    decreases y' - y
  {
    YearCounts(y' - 1);
    if y < y' - 1 {
      YearsCountUp(y, y' - 1);
    }
  }

  lemma EarlierCountsLess(a: Date, b: Date)
    requires ValidDate(a) && ValidDate(b) && Earlier(a, b)
    ensures DayNumber(a) < DayNumber(b)
  {
    if a.year < b.year {
      WithinYear(a);
      YearsCountUp(a.year, b.year);
      MonthsNonNegative(b.year, b.month);
    } else if a.month < b.month {
      MonthsAreOrdered(a.year, a.month, b.month);
    }
  }

  lemma {:induction false} MonthsNonNegative(year: int, month: int)
    requires 1 <= month <= 12
    ensures DaysBeforeMonth(year, month) >= 0
    decreases month
  {
    if month > 1 {
      MonthsNonNegative(year, month - 1);
    }
  }

  // And day counting undoes the algorithm, so every valid date is reached.
  lemma CivilUndoesCounting(d: Date)
    requires ValidDate(d)
    ensures CivilFromUnixDays(DayNumber(d)) == d
  {
    var e := CivilFromUnixDays(DayNumber(d));
    CountingUndoesCivil(DayNumber(d));
    if Earlier(d, e) {
      EarlierCountsLess(d, e);
    } else if Earlier(e, d) {
      EarlierCountsLess(e, d);
    }
  }

  // ---- The timestamp's fields ----

  datatype Fields = Fields(date: Date, hour: nat, minute: nat, second: nat)

  function TimestampFields(timestamp: nat): Fields {
    var secondsOfDay := timestamp % 86_400;
    Fields(CivilFromUnixDays(timestamp / 86_400), secondsOfDay / 3_600, secondsOfDay % 3_600 / 60, secondsOfDay % 60)
  }

  // The printed fields are a valid time and determine the timestamp.
  lemma FieldsReconstructTimestamp(timestamp: nat)
    ensures var f := TimestampFields(timestamp);
            && ValidDate(f.date) && f.hour < 24 && f.minute < 60 && f.second < 60
            && timestamp == 86_400 * DayNumber(f.date) + 3_600 * f.hour + 60 * f.minute + f.second
  {
    CountingUndoesCivil(timestamp / 86_400);
    ClockFields(timestamp % 86_400);
  }

  lemma ClockFields(s: nat)
    requires s < 86_400
    ensures s / 3_600 < 24 && s % 3_600 / 60 < 60
    ensures s == 3_600 * (s / 3_600) + 60 * (s % 3_600 / 60) + s % 60
  {
    var r := s % 3_600;
    assert s == 3_600 * (s / 3_600) + r;
    assert r % 60 == s % 60;
  }
}

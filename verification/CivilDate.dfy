/** The build stamp's calendar: Unix seconds to a Gregorian date in UTC (ISO 8601:2004,
    section 3.2.1), by a closed form, checked against counting days. */
module CivilDate {
  import opened Text

  const I64_MIN: int := -0x8000_0000_0000_0000
  const I64_MAX: int := 0x7FFF_FFFF_FFFF_FFFF

  datatype Date = Date(year: int, month: int, day: int)

  /** Integer division of the source, which truncates toward zero. */
  function TruncDiv(a: int, b: int): int
    requires b > 0
  {
    if a >= 0 then a / b else -(-a / b)
  }

  // ----- the closed form -----

  function DayNumber(secs: int): int {
    if secs >= 0 then TruncDiv(secs, 86_400) else TruncDiv(secs - 86_399, 86_400)
  }

  /** The year within a 400-year era that starts on 1 March, from the day within it. */
  function YearOfEra(doe: nat): nat
    requires doe < 146_097
  {
    (doe - doe / 1460 + doe / 36_524 - doe / 146_096) / 365
  }

  function CivilFromDays(days: int): Date {
    var z := days + 719_468;
    var era := TruncDiv(if z >= 0 then z else z - 146_096, 146_097);
    EraIsFloor(z);
    CivilInEra(era, z - era * 146_097)
  }

  /** The date of day `doe` of an era. */
  function CivilInEra(era: int, doe: nat): Date
    requires doe < 146_097
  {
    var yoe := YearOfEra(doe);
    var y := yoe + era * 400;
    var doy := doe - (365 * yoe + yoe / 4 - yoe / 100);
    var mp := TruncDiv(5 * doy + 2, 153);
    var d := doy - TruncDiv(153 * mp + 2, 5) + 1;
    var m := if mp < 10 then mp + 3 else mp - 9;
    Date(if m <= 2 then y + 1 else y, m, d)
  }

  lemma EraIsFloor(z: int)
    ensures TruncDiv(if z >= 0 then z else z - 146_096, 146_097) == z / 146_097
    ensures 0 <= z - z / 146_097 * 146_097 < 146_097
  {
  }

  lemma DayNumberIsFloor(secs: int)
    ensures DayNumber(secs) == secs / 86_400
  {
  }

  // ----- counting days -----

  predicate IsLeap(y: int) {
    y % 4 == 0 && (y % 100 != 0 || y % 400 == 0)
  }

  function DaysInMonth(y: int, m: int): int {
    if m == 2 then (if IsLeap(y) then 29 else 28)
    else if m == 4 || m == 6 || m == 9 || m == 11 then 30
    else 31
  }

  predicate ValidDate(d: Date) {
    1 <= d.month <= 12 && 1 <= d.day <= DaysInMonth(d.year, d.month)
  }

  /** The day after `d` on the calendar. */
  function NextDay(d: Date): Date {
    if d.day < DaysInMonth(d.year, d.month) then d.(day := d.day + 1)
    else if d.month < 12 then Date(d.year, d.month + 1, 1)
    else Date(d.year + 1, 1, 1)
  }

  /** Days from 1 January of year 0 to 1 January of year `y`: 365 a year plus the leap days. */
  function DaysBeforeYear(y: int): int {
    365 * y + CeilDiv(y, 4) - CeilDiv(y, 100) + CeilDiv(y, 400)
  }

  /** How many multiples of `k` lie in 0 .. `y` - 1. */
  function CeilDiv(y: int, k: int): int
    requires k > 0
  {
    (y + k - 1) / k
  }

  function DaysBeforeMonth(y: int, m: int): int
    requires 1 <= m <= 12
  {
    if m == 1 then 0 else DaysBeforeMonth(y, m - 1) + DaysInMonth(y, m - 1)
  }

  /** Days from 1970-01-01 to `d`, counted along the calendar. */
  function DaysFromCivil(d: Date): int
    requires 1 <= d.month <= 12
  {
    DaysBeforeYear(d.year) + DaysBeforeMonth(d.year, d.month) + d.day - 1 - DaysBeforeYear(1970)
  }

  lemma YearLength(y: int)
    ensures DaysBeforeYear(y + 1) - DaysBeforeYear(y) == if IsLeap(y) then 366 else 365
  {
    MultiplesOf4(y);
    MultiplesOf100(y);
    MultiplesOf400(y);
    hide CeilDiv;
  }

  lemma MultiplesOf4(y: int)
    ensures CeilDiv(y + 1, 4) - CeilDiv(y, 4) == if y % 4 == 0 then 1 else 0
  {
  }

  lemma MultiplesOf100(y: int)
    ensures CeilDiv(y + 1, 100) - CeilDiv(y, 100) == if y % 100 == 0 then 1 else 0
    ensures y % 100 == 0 ==> y % 4 == 0
  {
    assert (y + 99) / 100 == if y % 100 == 0 then y / 100 else y / 100 + 1;
    FourTimes(25 * (y / 100));
  }

  lemma MultiplesOf400(y: int)
    ensures CeilDiv(y + 1, 400) - CeilDiv(y, 400) == if y % 400 == 0 then 1 else 0
    ensures y % 400 == 0 ==> y % 100 == 0
  {
    assert (y + 399) / 400 == if y % 400 == 0 then y / 400 else y / 400 + 1;
    HundredTimes(4 * (y / 400));
  }

  lemma FourTimes(k: int)
    ensures 4 * k % 4 == 0
  {
  }

  lemma HundredTimes(k: int)
    ensures 100 * k % 100 == 0
  {
  }

  /** Counting really counts: one more for each next day. */
  lemma NextDayCounts(d: Date)
    requires ValidDate(d)
    ensures ValidDate(NextDay(d)) && DaysFromCivil(NextDay(d)) == DaysFromCivil(d) + 1
  {
    YearLength(d.year);
    MonthTable(d.year, d.month);
    if d.month < 12 { MonthTable(d.year, d.month + 1); }
  }

  /** Days before a month, as a table. */
  lemma MonthTable(y: int, m: int)
    requires 1 <= m <= 12
    ensures DaysBeforeMonth(y, m) ==
              [0, 31, 59, 90, 120, 151, 181, 212, 243, 273, 304, 334][m - 1]
              + if m > 2 && IsLeap(y) then 1 else 0
  {
    if m > 1 { MonthTable(y, m - 1); }
  }

  // ----- the closed form refines the count -----

  /** Days from 1 March of the era's first year to 1 March of its year `yoe`. */
  function EraYearStart(yoe: nat): int {
    365 * yoe + yoe / 4 - yoe / 100
  }

  /** The correction terms of `YearOfEra` are right on every day of the year
      100 `c` + 4 `q` + `s` of an era. */
  lemma YearOfEraByParts(c: nat, q: nat, s: nat, doy: nat)
    requires c < 4 && q < 25 && s < 4 && doy < 366
    requires doy == 365 ==> s == 3 && (q == 24 ==> c == 3)
    ensures var doe := 36_524 * c + 1461 * q + 365 * s + doy;
            doe < 146_097 && YearOfEra(doe) == 100 * c + 4 * q + s
  {
    var doe := 36_524 * c + 1461 * q + 365 * s + doy;
    var over := if 24 * c + q + 365 * s + doy >= 1460 then 1 else 0;
    assert doe / 1460 == 25 * c + q + over;
    assert doe / 36_524 - doe / 146_096 == c;
    assert doe - doe / 1460 + doe / 36_524 - doe / 146_096 == 365 * (100 * c + 4 * q + s) + doy - over;
  }

  lemma YearOfEraIsRight(yoe: nat, doy: nat)
    requires yoe < 400 && doy < 366
    requires doy == 365 ==> IsLeap(yoe + 1)
    ensures 0 <= EraYearStart(yoe) + doy < 146_097
    ensures YearOfEra(EraYearStart(yoe) + doy) == yoe
  {
    var c, r := yoe / 100, yoe % 100;
    var q, s := r / 4, r % 4;
    assert yoe / 4 == 25 * c + q;
    if doy == 365 {
      assert (yoe + 1) % 4 == (s + 1) % 4;
      if q == 24 { assert yoe + 1 == 100 * (c + 1); }
    }
    YearOfEraByParts(c, q, s, doy);
  }

  // Years counted from 1 March, so that a leap day is the last day of its year.

  function MarchYear(d: Date): int {
    if d.month <= 2 then d.year - 1 else d.year
  }

  function MarchMonth(d: Date): int {
    if d.month <= 2 then d.month + 9 else d.month - 3
  }

  /** Days from 1 March to the first of month `mp` (0 is March). */
  function DaysBeforeMarchMonth(mp: int): int {
    (153 * mp + 2) / 5
  }

  function DayOfMarchYear(d: Date): int {
    DaysBeforeMarchMonth(MarchMonth(d)) + d.day - 1
  }

  /** Days from 1 March of year 0 to 1 March of year `y`. */
  function MarchYearStart(y: int): int {
    365 * y + y / 4 - y / 100 + y / 400
  }

  lemma MarchYearStartByEra(y: int)
    ensures MarchYearStart(y) == y / 400 * 146_097 + EraYearStart(y % 400)
  {
    var era, yoe := y / 400, y % 400;
    assert y / 4 == 100 * era + yoe / 4;
    assert y / 100 == 4 * era + yoe / 100;
  }

  lemma JanuaryToMarch(y: int)
    ensures DaysBeforeYear(y) == MarchYearStart(y) + if IsLeap(y) then 0 else 1
    ensures DaysBeforeYear(y) == MarchYearStart(y - 1) + 366
  {
    YearLength(y);
    CeilIsFloor(y);
    CeilIsFloor(y + 1);
    hide CeilDiv;
  }

  lemma CeilIsFloor(y: int)
    ensures CeilDiv(y, 4) == (y - 1) / 4 + 1
    ensures CeilDiv(y, 100) == (y - 1) / 100 + 1
    ensures CeilDiv(y, 400) == (y - 1) / 400 + 1
  {
  }

  lemma MarchTable(d: Date)
    requires 1 <= d.month <= 12
    ensures DaysBeforeMarchMonth(MarchMonth(d)) ==
              [306, 337, 0, 31, 61, 92, 122, 153, 184, 214, 245, 275][d.month - 1]
  {
  }

  /** The calendar count, shifted to 1 March of year 0, in the closed form's terms. */
  lemma CountFromMarch(d: Date)
    requires 1 <= d.month <= 12
    ensures DaysFromCivil(d) + 719_468 ==
              MarchYear(d) / 400 * 146_097 + EraYearStart(MarchYear(d) % 400) + DayOfMarchYear(d)
  {
    MarchTable(d);
    MonthTable(d.year, d.month);
    JanuaryToMarch(d.year);
    MarchYearStartByEra(MarchYear(d));
    hide DaysBeforeMonth, DaysBeforeMarchMonth, MarchYearStart, EraYearStart;
    assert DaysBeforeYear(1970) == 719_528;
    hide DaysBeforeYear, IsLeap;
  }

  lemma DayOfMarchYearFits(d: Date)
    requires ValidDate(d)
    ensures 0 <= DayOfMarchYear(d) < 366
    ensures DayOfMarchYear(d) == 365 ==> IsLeap(MarchYear(d) % 400 + 1)
    ensures (5 * DayOfMarchYear(d) + 2) / 153 == MarchMonth(d)
  {
    MarchTable(d);
    if d.month == 2 && d.day == 29 { LeapModEra(d.year); }
  }

  lemma LeapModEra(y: int)
    ensures IsLeap(y) <==> IsLeap((y - 1) % 400 + 1)
  {
    hide *;
    var k, z := (y - 1) / 400, (y - 1) % 400 + 1;
    assert z == y - 400 * k;
    LeapShift(y, k, z);
  }

  lemma LeapShift(y: int, k: int, z: int)
    requires z == y - 400 * k
    ensures IsLeap(y) <==> IsLeap(z)
  {
    EraShift4(y, k);
    EraShift100(y, k);
    EraShift400(y, k);
  }

  lemma EraShift4(y: int, k: int)
    ensures (y - 400 * k) % 4 == y % 4
  {
    assert y - 400 * k == 4 * (y / 4 - 100 * k) + y % 4;
  }

  lemma EraShift100(y: int, k: int)
    ensures (y - 400 * k) % 100 == y % 100
  {
    assert y - 400 * k == 100 * (y / 100 - 4 * k) + y % 100;
  }

  lemma EraShift400(y: int, k: int)
    ensures (y - 400 * k) % 400 == y % 400
  {
    assert y - 400 * k == 400 * (y / 400 - k) + y % 400;
  }

  /** Every valid date is what the closed form makes of its own day number. */
  lemma CivilOfCount(d: Date)
    requires ValidDate(d)
    ensures CivilFromDays(DaysFromCivil(d)) == d
  {
    hide DaysFromCivil, CivilFromDays, YearOfEra, EraYearStart, IsLeap, DaysInMonth;
    var era, yoe, doy := MarchYear(d) / 400, MarchYear(d) % 400, DayOfMarchYear(d);
    DayOfMarchYearFits(d);
    YearOfEraIsRight(yoe, doy);
    CountFromMarch(d);
    FromParts(era, EraYearStart(yoe) + doy, DaysFromCivil(d));
    assert MarchYear(d) == yoe + era * 400;
  }

  lemma EraAndDay(era: int, doe: nat)
    requires doe < 146_097
    ensures (era * 146_097 + doe) / 146_097 == era
  {
  }

  /** The closed form, once the day number is split into era, year and day. */
  lemma FromParts(era: int, doe: nat, days: int)
    requires doe < 146_097 && days + 719_468 == era * 146_097 + doe
    ensures DateOfParts(era, doe, CivilFromDays(days))
  {
    EraHasParts(era, doe);
    hide YearOfEra, CivilInEra, EraYearStart, CivilFromDays, DaysBeforeMarchMonth;
    OfEra(era, doe, days);
  }

  /** The era is split off rightly, in front of the epoch too. */
  lemma OfEra(era: int, doe: nat, days: int)
    requires doe < 146_097 && days + 719_468 == era * 146_097 + doe
    ensures CivilFromDays(days) == CivilInEra(era, doe)
  {
    hide CivilInEra, TruncDiv;
    EraAndDay(era, doe);
    EraIsFloor(days + 719_468);
  }

  /** `d` is year, month and day of day `doe` of an era, if that day is not before its year. */
  predicate DateOfParts(era: int, doe: nat, d: Date)
    requires doe < 146_097
  {
    var y, doy := YearOfEra(doe) + era * 400, doe - EraYearStart(YearOfEra(doe));
    var mp := (5 * doy + 2) / 153;
    var m := if mp < 10 then mp + 3 else mp - 9;
    doy >= 0 ==> d == Date(if m <= 2 then y + 1 else y, m, doy - DaysBeforeMarchMonth(mp) + 1)
  }

  /** The date in an era is made of these parts. */
  lemma EraHasParts(era: int, doe: nat)
    requires doe < 146_097
    ensures DateOfParts(era, doe, CivilInEra(era, doe))
  {
    hide YearOfEra;
  }

  // ----- main results -----

  /** The day before `d` on the calendar. */
  function PreviousDay(d: Date): Date {
    if d.day > 1 then d.(day := d.day - 1)
    else if d.month > 1 then Date(d.year, d.month - 1, DaysInMonth(d.year, d.month - 1))
    else Date(d.year - 1, 12, 31)
  }

  lemma PreviousThenNext(d: Date)
    requires ValidDate(d)
    ensures ValidDate(PreviousDay(d)) && NextDay(PreviousDay(d)) == d
  {
  }

  lemma Epoch()
    ensures ValidDate(Date(1970, 1, 1)) && DaysFromCivil(Date(1970, 1, 1)) == 0
  {
  }

  /** The closed form and the count are inverse to each other on every day number. */
  lemma {:induction false} CountOfCivil(days: int)
    ensures ValidDate(CivilFromDays(days)) && DaysFromCivil(CivilFromDays(days)) == days
    decreases if days < 0 then -days else days
  {
    hide CivilFromDays, DaysFromCivil;
    Epoch();
    var d := Date(1970, 1, 1);
    if days > 0 {
      CountOfCivil(days - 1);
      d := NextDay(CivilFromDays(days - 1));
      NextDayCounts(CivilFromDays(days - 1));
    } else if days < 0 {
      CountOfCivil(days + 1);
      d := PreviousDay(CivilFromDays(days + 1));
      PreviousThenNext(CivilFromDays(days + 1));
      NextDayCounts(d);
    }
    CivilOfCount(d);
  }

  /** Day 0 is 1970-01-01 and each next day number is exactly the next calendar day. */
  lemma {:induction false} EpochAndSuccessor(days: int)
    ensures CivilFromDays(0) == Date(1970, 1, 1)
    ensures ValidDate(CivilFromDays(days))
    ensures CivilFromDays(days + 1) == NextDay(CivilFromDays(days))
  {
    hide CivilFromDays, DaysFromCivil;
    Epoch();
    CivilOfCount(Date(1970, 1, 1));
    CountOfCivil(days);
    NextDayCounts(CivilFromDays(days));
    CivilOfCount(NextDay(CivilFromDays(days)));
  }

  // ----- the stamp -----

  /** `civil_date_from_unix`: `{y:04}-{m:02}-{d:02}`. Below the bound, line 113 overflows. */
  function CivilDateFromUnix(secs: int): string
    requires I64_MIN + 86_399 <= secs <= I64_MAX
  {
    FormatDate(CivilFromDays(DayNumber(secs)))
  }

  /** A number in at least `width` characters, sign included. */
  function Padded(n: int, width: nat): string
    requires width > 0
  {
    if n < 0 then "-" + ZeroPadded(-n, width - 1) else ZeroPadded(n, width)
  }

  function FormatDate(d: Date): string {
    Padded(d.year, 4) + "-" + Padded(d.month, 2) + "-" + Padded(d.day, 2)
  }

  function ReadNumber(s: string): int {
    if s != [] && s[0] == '-' then 0 - DecimalValue(s[1..]) else DecimalValue(s)
  }

  /** Reads a date back from its text: two digits of day, two of month, the rest is the year. */
  function ReadDate(s: string): Date
    requires |s| >= 6
  {
    var n := |s|;
    Date(ReadNumber(s[..n - 6]), ReadNumber(s[n - 5..n - 3]), ReadNumber(s[n - 2..]))
  }

  lemma ReadPadded(n: int, width: nat)
    requires width > 0
    ensures ReadNumber(Padded(n, width)) == n
    ensures 0 <= n < 100 && width == 2 ==> |Padded(n, width)| == 2
    ensures 0 <= n < 10_000 && width == 4 ==> |Padded(n, width)| == 4
  {
    if n < 0 {
      ZeroPaddedValue(-n, width - 1);
    } else {
      ZeroPaddedValue(n, width);
      if n < 100 { DecimalShort(n, 2); }
      if n < 10_000 { DecimalShort(n, 4); }
    }
  }

  lemma ReadFormatted(d: Date)
    requires 1 <= d.month < 100 && 1 <= d.day < 100
    ensures var s := FormatDate(d);
            |s| >= 6 && ReadDate(s) == d && (0 <= d.year < 10_000 ==> |s| == 10)
            && s[|s| - 6] == '-' && s[|s| - 3] == '-'
  {
    ReadPadded(d.year, 4);
    ReadPadded(d.month, 2);
    ReadPadded(d.day, 2);
    DateParts(Padded(d.year, 4), Padded(d.month, 2), Padded(d.day, 2));
    hide Padded, ReadNumber;
  }

  /** The three parts of a date stand where they are looked for. */
  lemma DateParts(year: string, month: string, day: string)
    requires |month| == 2 && |day| == 2
    ensures var s := year + "-" + month + "-" + day;
            var n := |s|;
            && n >= 6 && s[..n - 6] == year && s[n - 5..n - 3] == month && s[n - 2..] == day
            && s[n - 6] == '-' && s[n - 3] == '-'
  {
    var s := year + "-" + month + "-" + day;
    var k := |year|;
    assert s[..k] == year;
    assert s[k + 1] == month[0] && s[k + 2] == month[1];
    assert s[k + 1..k + 3] == [s[k + 1], s[k + 2]] && month == [month[0], month[1]];
    assert s[k + 4..] == day;
  }

  /** The stamp of a timestamp reads back as the calendar date of its day, counted from
      1970-01-01; four-digit years give exactly ten characters. */
  lemma {:induction false} StampReadsBack(secs: int)
    requires I64_MIN + 86_399 <= secs <= I64_MAX
    ensures var s := CivilDateFromUnix(secs);
            |s| >= 6 && ValidDate(ReadDate(s)) && DaysFromCivil(ReadDate(s)) == secs / 86_400
            && (0 <= ReadDate(s).year < 10_000 ==> |s| == 10)
            && s[|s| - 6] == '-' && s[|s| - 3] == '-'
  {
    DayNumberIsFloor(secs);
    hide CivilFromDays, DaysFromCivil, DayNumber, FormatDate, ReadDate;
    CountOfCivil(secs / 86_400);
    ReadFormatted(CivilFromDays(secs / 86_400));
  }

  /** A leap day, printed year first. */
  lemma LeapDayIsPrinted()
    ensures CivilDateFromUnix(951_782_400) == "2000-02-29"
  {
    LeapDayIs();
    LeapDayParts();
    hide DayNumber, CivilFromDays, Padded;
    assert "2000" + "-" + "02" + "-" + "29" == "2000-02-29";
  }

  lemma LeapDayIs()
    ensures DayNumber(951_782_400) == 11_016 && CivilFromDays(11_016) == Date(2000, 2, 29)
  {
    hide CivilFromDays;
    assert ValidDate(Date(2000, 2, 29)) && DaysFromCivil(Date(2000, 2, 29)) == 11_016;
    CivilOfCount(Date(2000, 2, 29));
  }

  lemma LeapDayParts()
    ensures Padded(2000, 4) == "2000" && Padded(2, 2) == "02" && Padded(29, 2) == "29"
  {
    assert Decimal(2) == "2" && Decimal(20) == "20" && Decimal(29) == "29";
    assert Decimal(200) == "200";
    assert Decimal(2000) == "2000";
    assert Zeros(0) == "" && Zeros(1) == "0";
  }

  /** Nothing the closed form computes leaves the range of `i64`. */
  lemma StaysInRange(secs: int)
    requires I64_MIN + 86_399 <= secs <= I64_MAX
    ensures secs < 0 ==> I64_MIN <= secs - 86_399
    ensures var z := DayNumber(secs) + 719_468;
            I64_MIN + 146_096 <= z <= I64_MAX
            && I64_MIN <= z / 146_097 * 146_097 <= I64_MAX
            && I64_MIN <= z / 146_097 * 400 && z / 146_097 * 400 + 400 <= I64_MAX
  {
    DayNumberIsFloor(secs);
  }
}

/** The proleptic Gregorian calendar that chrono's `NaiveDateTime` lives on.

A `NaiveDateTime` is a count of whole seconds since 1970-01-01T00:00:00 plus a
nanosecond field below one second (chrono keeps date, seconds of day and
nanoseconds; the two are in one-to-one correspondence). `Civil` is the same
instant split into calendar fields. The conversion between days and dates
works in 400-year eras that start on 1 March, so that February, with its leap
day, is the last month of the year; every division is by a constant.
 */
module Calendar {

  const NanosPerSecond: int := 1_000_000_000
  const SecondsPerDay: int := 86_400

  type Nanos = n: int | 0 <= n < 1_000_000_000

  datatype NaiveDateTime = NaiveDateTime(secs: int, nano: Nanos)

  datatype Date = Date(year: int, month: int, day: int)

  datatype Civil = Civil(date: Date, hour: int, minute: int, second: int)

  predicate IsLeap(y: int) {
    y % 4 == 0 && (y % 100 != 0 || y % 400 == 0)
  }

  function DaysInMonth(y: int, m: int): (n: int)
    requires 1 <= m <= 12
    ensures 28 <= n <= 31
  {
    if m == 2 then (if IsLeap(y) then 29 else 28)
    else if m == 4 || m == 6 || m == 9 || m == 11 then 30
    else 31
  }

  predicate ValidDate(d: Date) {
    1 <= d.month <= 12 && 1 <= d.day <= DaysInMonth(d.year, d.month)
  }

  predicate ValidCivil(c: Civil) {
    ValidDate(c.date) && 0 <= c.hour < 24 && 0 <= c.minute < 60 && 0 <= c.second < 60
  }

  /** Day of the March-based year on which month `mp` starts (March is 0,
      February is 11). */
  function MonthStart(mp: int): (d: int)
    requires 0 <= mp < 12
    ensures 0 <= d <= 337
  {
    if mp == 0 then 0 else if mp == 1 then 31 else if mp == 2 then 61
    else if mp == 3 then 92 else if mp == 4 then 122 else if mp == 5 then 153
    else if mp == 6 then 184 else if mp == 7 then 214 else if mp == 8 then 245
    else if mp == 9 then 275 else if mp == 10 then 306 else 337
  }

  /** The March-based month in which day `doy` of the year falls. */
  function MonthOf(doy: int): (mp: int)
    requires 0 <= doy < 366
    ensures 0 <= mp < 12 && MonthStart(mp) <= doy
    ensures mp < 11 ==> doy < MonthStart(mp + 1)
  {
    if doy < 31 then 0 else if doy < 61 then 1 else if doy < 92 then 2
    else if doy < 122 then 3 else if doy < 153 then 4 else if doy < 184 then 5
    else if doy < 214 then 6 else if doy < 245 then 7 else if doy < 275 then 8
    else if doy < 306 then 9 else if doy < 337 then 10 else 11
  }

  /** Whether month `mp` of the March-based year holds day `doy`. */
  lemma MonthOfStart(mp: int, doy: int)
    requires 0 <= mp < 12 && MonthStart(mp) <= doy < (if mp < 11 then MonthStart(mp + 1) else 366)
    ensures MonthOf(doy) == mp
  {
  }

  /** Division by the length of an era, from a known quotient and remainder. */
  lemma DivModEra(x: int, q: int, r: int)
    requires 0 <= r < 146097 && x == 146097 * q + r
    ensures x / 146097 == q && x % 146097 == r
  {
  }

  /** Division by the length of a day, from a known quotient and remainder. */
  lemma DivModDay(x: int, q: int, r: int)
    requires 0 <= r < 86_400 && x == 86_400 * q + r
    ensures x / 86_400 == q && x % 86_400 == r
  {
  }

  /** Days from the start of an era (1 March of a year divisible by 400) to
      the start of its March-based year `yoe`. */
  function DaysBeforeYearOfEra(yoe: int): int
    requires 0 <= yoe < 400
  {
    365 * yoe + yoe / 4 - yoe / 100
  }

  /** Whether March-based year `yoe` of an era ends with a 29 February. */
  predicate LeapYearOfEra(yoe: int) {
    (yoe + 1) % 4 == 0 && ((yoe + 1) % 100 != 0 || yoe == 399)
  }

  function YearOfEraLength(yoe: int): int {
    if LeapYearOfEra(yoe) then 366 else 365
  }

  /** Splits a day of the era into its March-based year and the day of that
      year: 4 centuries (the last one a day longer), 4-year cycles (the last
      of a century a day shorter, except in the last century), years (the
      last of a cycle a day longer). */
  function SplitDayOfEra(doe: int): (yd: (int, int))
    requires 0 <= doe < 146097
  {
    var c := if doe / 36524 < 3 then doe / 36524 else 3;
    var r1 := doe - 36524 * c;
    var q := r1 / 1461;
    var r2 := r1 % 1461;
    var k := if r2 / 365 < 3 then r2 / 365 else 3;
    (100 * c + 4 * q + k, r2 - 365 * k)
  }

  lemma DivModBy4(x: int, q: int, r: int)
    requires 0 <= r < 4 && x == 4 * q + r
    ensures x / 4 == q && x % 4 == r
  {
  }

  lemma DivModBy100(x: int, q: int, r: int)
    requires 0 <= r < 100 && x == 100 * q + r
    ensures x / 100 == q && x % 100 == r
  {
  }

  lemma DivModBy400(x: int, q: int, r: int)
    requires 0 <= r < 400 && x == 400 * q + r
    ensures x / 400 == q && x % 400 == r
  {
  }

  lemma DivModBy1461(x: int, q: int, r: int)
    requires 0 <= r < 1461 && x == 1461 * q + r
    ensures x / 1461 == q && x % 1461 == r
  {
  }

  lemma DivModBy365(x: int, q: int, r: int)
    requires 0 <= r < 365 && x == 365 * q + r
    ensures x / 365 == q
  {
  }

  lemma DivModBy36524(x: int, q: int, r: int)
    requires 0 <= r < 36524 && x == 36524 * q + r
    ensures x / 36524 == q
  {
  }

  /** Days before year `100 * c + 4 * q + k` of an era, counted by
      centuries, 4-year cycles and years. */
  lemma DaysBeforeYearOfEraSplit(c: int, q: int, k: int)
    requires 0 <= c < 4 && 0 <= q < 25 && 0 <= k < 4
    ensures DaysBeforeYearOfEra(100 * c + 4 * q + k) == 36524 * c + 1461 * q + 365 * k
  {
    var yoe := 100 * c + 4 * q + k;
    DivModBy4(yoe, 25 * c + q, k);
    DivModBy100(yoe, c, 4 * q + k);
  }

  lemma SplitDayOfEraSound(doe: int)
    requires 0 <= doe < 146097
    ensures var (yoe, doy) := SplitDayOfEra(doe);
      && 0 <= yoe < 400 && 0 <= doy < YearOfEraLength(yoe)
      && doe == DaysBeforeYearOfEra(yoe) + doy
  {
    var c := if doe / 36524 < 3 then doe / 36524 else 3;
    var r1 := doe - 36524 * c;
    var q := r1 / 1461;
    var r2 := r1 % 1461;
    var k := if r2 / 365 < 3 then r2 / 365 else 3;
    var yoe := 100 * c + 4 * q + k;
    var doy := r2 - 365 * k;
    assert SplitDayOfEra(doe) == (yoe, doy);
    assert 0 <= r1 <= 36524 && 0 <= q <= 24;
    assert r1 == 1461 * q + r2;
    assert q == 24 && c < 3 ==> r2 < 1460;
    DaysBeforeYearOfEraSplit(c, q, k);
    assert doe == 36524 * c + 1461 * q + 365 * k + doy;
    if doy == 365 {
      assert k == 3 && (q < 24 || c == 3);
      DivModBy4(yoe + 1, 25 * c + q + 1, 0);
      if q < 24 {
        DivModBy100(yoe + 1, c, 4 * q + 4);
      }
    }
  }

  /** A year of an era with a leap day is the last of its 4-year cycle,
      and not the last of a century other than the fourth. */
  lemma LeapYearOfEraPosition(c: int, q: int, k: int)
    requires 0 <= c < 4 && 0 <= q < 25 && 0 <= k < 4 && LeapYearOfEra(100 * c + 4 * q + k)
    ensures k == 3 && (q < 24 || c == 3)
  {
    var yoe := 100 * c + 4 * q + k;
    assert yoe + 1 == 4 * (25 * c + q) + (k + 1);
  }

  /** Year `100 * c + 4 * q + k` of an era, day `doy`: the split finds
      them again. */
  lemma SplitDayOfEraFinds(c: int, q: int, k: int, doy: int)
    requires 0 <= c < 4 && 0 <= q < 25 && 0 <= k < 4
    requires 0 <= doy < YearOfEraLength(100 * c + 4 * q + k)
    ensures var doe := 36524 * c + 1461 * q + 365 * k + doy;
      0 <= doe < 146097 && SplitDayOfEra(doe) == (100 * c + 4 * q + k, doy)
  {
    if doy == 365 {
      LeapYearOfEraPosition(c, q, k);
    }
    var x := 1461 * q + 365 * k + doy;
    var doe := 36524 * c + x;
    if c < 3 {
      assert x < 36524;
      DivModBy36524(doe, c, x);
    } else {
      assert doe / 36524 >= 3;
    }
    var r2 := 365 * k + doy;
    DivModBy1461(x, q, r2);
    if doy < 365 {
      DivModBy365(r2, k, doy);
    } else {
      assert r2 / 365 == 4;
    }
  }

  lemma SplitDayOfEraComplete(yoe: int, doy: int)
    requires 0 <= yoe < 400 && 0 <= doy < YearOfEraLength(yoe)
    ensures 0 <= DaysBeforeYearOfEra(yoe) + doy < 146097
    ensures SplitDayOfEra(DaysBeforeYearOfEra(yoe) + doy) == (yoe, doy)
  {
    var c, q, k := yoe / 100, yoe % 100 / 4, yoe % 4;
    assert yoe == 100 * c + 4 * q + k;
    DaysBeforeYearOfEraSplit(c, q, k);
    SplitDayOfEraFinds(c, q, k, doy);
  }

  /** March-based year `yoe` of the era starting in year `400 * era` ends in
      a leap February exactly when the Gregorian year `400 * era + yoe + 1` is
      a leap year. */
  lemma LeapYearOfEraIsLeap(era: int, yoe: int)
    requires 0 <= yoe < 400
    ensures LeapYearOfEra(yoe) <==> IsLeap(400 * era + yoe + 1)
  {
    var a := yoe + 1;
    var y := 400 * era + a;
    DivModBy4(a, a / 4, a % 4);
    DivModBy4(y, 100 * era + a / 4, a % 4);
    DivModBy100(a, a / 100, a % 100);
    DivModBy100(y, 4 * era + a / 100, a % 100);
    DivModBy400(y, era + a / 400, a % 400);
  }

  /** The March-based year a date falls in: January and February belong to
      the year before. */
  function MarchYear(d: Date): int {
    if d.month <= 2 then d.year - 1 else d.year
  }

  /** The March-based month of month `m` (March is 0, February is 11). */
  function MarchMonth(m: int): (mp: int)
    requires 1 <= m <= 12
    ensures 0 <= mp < 12
  {
    if m >= 3 then m - 3 else m + 9
  }

  /** Days from 1970-01-01 to `d`. */
  function DaysFromCivil(d: Date): int
    requires ValidDate(d)
  {
    var yy := MarchYear(d);
    var doy := MonthStart(MarchMonth(d.month)) + d.day - 1;
    146097 * (yy / 400) + DaysBeforeYearOfEra(yy % 400) + doy - 719468
  }

  /** The day of the March-based year of a valid date lies in its month and
      in its year. */
  lemma DayOfMarchYear(d: Date)
    requires ValidDate(d)
    ensures var mp := MarchMonth(d.month); var doy := MonthStart(mp) + d.day - 1;
      && MonthStart(mp) <= doy < (if mp < 11 then MonthStart(mp + 1) else 366)
      && 0 <= doy < YearOfEraLength(MarchYear(d) % 400)
  {
    var yy := MarchYear(d);
    LeapYearOfEraIsLeap(yy / 400, yy % 400);
    assert d.month == 2 ==> d.year == 400 * (yy / 400) + yy % 400 + 1;
  }

  /** The date `z` days after 1970-01-01. */
  function CivilFromDays(z: int): Date {
    var zz := z + 719468;
    var (yoe, doy) := SplitDayOfEra(zz % 146097);
    EraDate(zz / 146097, yoe, if doy < 366 then doy else 365)
  }

  /** The date on day `doy` of March-based year `yoe` of era `era`. */
  function EraDate(era: int, yoe: int, doy: int): Date
    requires 0 <= doy < 366
  {
    var mp := MonthOf(doy);
    var m := if mp < 10 then mp + 3 else mp - 9;
    Date(400 * era + yoe + (if m <= 2 then 1 else 0), m, doy - MonthStart(mp) + 1)
  }

  /** Every day of a March-based year is a valid date, which lies in that
      year and month. */
  lemma EraDateIsValid(era: int, yoe: int, doy: int)
    requires 0 <= yoe < 400 && 0 <= doy < YearOfEraLength(yoe)
    ensures var d := EraDate(era, yoe, doy);
      && ValidDate(d) && MarchYear(d) == 400 * era + yoe
      && MonthStart(MarchMonth(d.month)) + d.day - 1 == doy
  {
    LeapYearOfEraIsLeap(era, yoe);
    var mp := MonthOf(doy);
    var d := EraDate(era, yoe, doy);
    assert MarchMonth(d.month) == mp;
    assert mp == 11 ==> d.year == 400 * era + yoe + 1;
  }

  /** Every day number is the day number of a valid date. */
  lemma CivilFromDaysIsValid(z: int)
    ensures ValidDate(CivilFromDays(z)) && DaysFromCivil(CivilFromDays(z)) == z
  {
    var zz := z + 719468;
    var era := zz / 146097;
    var doe := zz % 146097;
    SplitDayOfEraSound(doe);
    var (yoe, doy) := SplitDayOfEra(doe);
    EraDateIsValid(era, yoe, doy);
    var d := EraDate(era, yoe, doy);
    assert CivilFromDays(z) == d;
    assert MarchYear(d) / 400 == era && MarchYear(d) % 400 == yoe;
  }

  /** The date of a day number given as an era and a day of that era. */
  lemma CivilFromEraDay(z: int, era: int, yoe: int, doy: int)
    requires 0 <= yoe < 400 && 0 <= doy < YearOfEraLength(yoe)
    requires z + 719468 == 146097 * era + DaysBeforeYearOfEra(yoe) + doy
    ensures CivilFromDays(z) == EraDate(era, yoe, doy)
  {
    SplitDayOfEraComplete(yoe, doy);
    DivModEra(z + 719468, era, DaysBeforeYearOfEra(yoe) + doy);
  }

  /** The date of day `day` of March-based month `mp` of year `yoe` of an era. */
  lemma EraDateOfMonth(era: int, yoe: int, mp: int, day: int)
    requires 0 <= mp < 12 && 1 <= day
    requires MonthStart(mp) + day - 1 < (if mp < 11 then MonthStart(mp + 1) else 366)
    ensures var m := if mp < 10 then mp + 3 else mp - 9;
      EraDate(era, yoe, MonthStart(mp) + day - 1)
        == Date(400 * era + yoe + (if m <= 2 then 1 else 0), m, day)
  {
    MonthOfStart(mp, MonthStart(mp) + day - 1);
  }

  /** Every valid date is recovered from its day number. */
  lemma DaysFromCivilInverse(d: Date)
    requires ValidDate(d)
    ensures CivilFromDays(DaysFromCivil(d)) == d
  {
    var yy := MarchYear(d);
    var mp := MarchMonth(d.month);
    var era, yoe := yy / 400, yy % 400;
    DayOfMarchYear(d);
    CivilFromEraDay(DaysFromCivil(d), era, yoe, MonthStart(mp) + d.day - 1);
    EraDateOfMonth(era, yoe, mp, d.day);
  }


  /** Seconds since 1970-01-01T00:00:00 of a civil date and time. */
  function CivilToSecs(c: Civil): int
    requires ValidCivil(c)
  {
    DaysFromCivil(c.date) * SecondsPerDay + c.hour * 3600 + c.minute * 60 + c.second
  }

  /** The civil date and time `secs` seconds after 1970-01-01T00:00:00. */
  function SecsToCivil(secs: int): Civil {
    var sod := secs % SecondsPerDay;
    Civil(CivilFromDays(secs / SecondsPerDay), sod / 3600, sod % 3600 / 60, sod % 60)
  }

  lemma SecsToCivilInverse(secs: int)
    ensures ValidCivil(SecsToCivil(secs)) && CivilToSecs(SecsToCivil(secs)) == secs
  {
    var sod := secs % SecondsPerDay;
    assert secs == secs / SecondsPerDay * SecondsPerDay + sod;
    assert sod == sod / 3600 * 3600 + sod % 3600 / 60 * 60 + sod % 60;
    CivilFromDaysIsValid(secs / SecondsPerDay);
  }

  lemma CivilToSecsInverse(c: Civil)
    requires ValidCivil(c)
    ensures SecsToCivil(CivilToSecs(c)) == c
  {
    var sod := c.hour * 3600 + c.minute * 60 + c.second;
    DivModDay(CivilToSecs(c), DaysFromCivil(c.date), sod);
    assert sod / 3600 == c.hour && sod % 3600 == c.minute * 60 + c.second;
    assert (c.minute * 60 + c.second) / 60 == c.minute && sod % 60 == c.second;
    DaysFromCivilInverse(c.date);
  }

  /** The instant `total` nanoseconds after 1970-01-01T00:00:00. */
  function FromTotalNanos(total: int): (dt: NaiveDateTime)
    ensures TotalNanos(dt) == total
  {
    NaiveDateTime(total / NanosPerSecond, total % NanosPerSecond)
  }

  function TotalNanos(dt: NaiveDateTime): int {
    dt.secs * NanosPerSecond + dt.nano
  }
}

/**
 The SigV4 timestamp of `amz_date`: days since 1970-01-01 to a Gregorian date
 by the era/year-of-era division chain, and the time of day.

 The reference is the calendar itself: month lengths, leap years and the
 successor of a date. Nothing in it mentions eras.
 */
module CivilDate {
  datatype Date = Date(year: int, month: int, day: int)

  // --- The calendar ------------------------------------------------------

  predicate Leap(year: int) {
    year % 4 == 0 && (year % 100 != 0 || year % 400 == 0)
  }

  // The calendar is written over a leap-year rule, so that the month lemmas
  // below hold of any rule and only the year lemmas speak of the Gregorian one.

  function MonthLength(leap: int -> bool, year: int, month: int): (n: int)
    ensures 28 <= n <= 31
  {
    if month == 2 then (if leap(year) then 29 else 28)
    else if month == 4 || month == 6 || month == 9 || month == 11 then 30
    else 31
  }

  predicate Valid(leap: int -> bool, date: Date) {
    1 <= date.month <= 12 && 1 <= date.day <= MonthLength(leap, date.year, date.month)
  }

  function NextDay(leap: int -> bool, date: Date): Date {
    if date.day < MonthLength(leap, date.year, date.month) then date.(day := date.day + 1)
    else if date.month < 12 then Date(date.year, date.month + 1, 1)
    else Date(date.year + 1, 1, 1)
  }

  // --- The conversion ----------------------------------------------------

  /** A day in a calendar whose years start on 1 March, counted in 400-year eras. */
  datatype MarchDate = MarchDate(era: int, yoe: int, doy: int)

  function YearOfEra(doe: int): int {
    (doe - doe / 1460 + doe / 36524 - doe / 146096) / 365
  }

  function YearStart(yoe: int): int {
    365 * yoe + yoe / 4 - yoe / 100
  }

  function MarchFromDays(z: int): MarchDate {
    var doe := z % 146097;
    var yoe := YearOfEra(doe);
    MarchDate(z / 146097, yoe, doe - YearStart(yoe))
  }

  function MonthIndex(doy: int): int {
    (5 * doy + 2) / 153
  }

  function MonthStart(mp: int): int {
    (153 * mp + 2) / 5
  }

  /** The date of a day known to lie in month `mp`, counted from March. */
  function DateInMonth(march: MarchDate, mp: int): Date {
    var d := march.doy - MonthStart(mp) + 1;
    var m := if mp < 10 then mp + 3 else mp - 9;
    Date(march.yoe + march.era * 400 + (if m <= 2 then 1 else 0), m, d)
  }

  function CivilFromMarch(march: MarchDate): Date {
    DateInMonth(march, MonthIndex(march.doy))
  }

  function CivilFromDays(days: nat): Date {
    CivilFromMarch(MarchFromDays(days + 719468))
  }

  type u64 = x: nat | x < 0x1_0000_0000_0000_0000

  /** The day number, with the source's fallback for a count that is not an i64. */
  function EpochDays(epochSecs: u64): (days: int)
    ensures days == epochSecs / 86400
  {
    var days := epochSecs / 86400;
    if days < 0x8000_0000_0000_0000 then days else 0
  }

  function Digits(n: nat): (s: string)
    ensures s != []
    ensures n >= 10 ==> |s| >= 2
    ensures n < 10 ==> |s| == 1
    ensures 10 <= n < 100 ==> |s| == 2
  {
    if n < 10 then [Digit(n)] else Digits(n / 10) + [Digit(n % 10)]
  }

  function Digit(n: nat): char
    requires n < 10
  {
    "0123456789"[n]
  }

  /** Rust's `{:0w}`: at least `w` digits, zero-filled on the left. */
  function Pad(n: nat, w: nat): (s: string)
    ensures |s| >= w
  {
    var s := Digits(n);
    Zeros(w - |s|) + s
  }

  function Zeros(k: int): (s: string)
    ensures |s| == if k < 0 then 0 else k
  {
    if k <= 0 then "" else "0" + Zeros(k - 1)
  }

  function AmzDate(epochSecs: u64): string {
    var date := CivilFromDays(EpochDays(epochSecs));
    var rem := epochSecs % 86400;
    CivilFromDaysCountsDays(EpochDays(epochSecs));
    Pad(date.year, 4) + Pad(date.month, 2) + Pad(date.day, 2) + "T"
    + Pad(rem / 3600, 2) + Pad(rem % 3600 / 60, 2) + Pad(rem % 60, 2) + "Z"
  }

  // --- The era arithmetic ------------------------------------------------

  /** The days of the March-based year `yoe`; its February is in `yoe + 1`. */
  function YearLength(leap: int -> bool, yoe: int): int {
    if leap(yoe + 1) then 366 else 365
  }

  /** Day `t` of year `y` of four-year block `q` of century `c`. */
  lemma YearOfEraOfParts(c: int, q: int, y: int, t: int, doe: int)
    requires 0 <= c <= 3 && 0 <= q <= 24 && 0 <= y <= 3 && 0 <= t <= 365
    requires t == 365 ==> y == 3 && (q < 24 || c == 3)
    requires doe == 36524 * c + 1461 * q + 365 * y + t
    ensures YearOfEra(doe) == 100 * c + 4 * q + y
  {
    if doe < 146096 {
      assert doe / 36524 == c && doe / 146096 == 0;
      var e := (24 * c + q + 365 * y + t) / 1460;
      assert doe / 1460 == 25 * c + q + e;
    }
  }

  lemma YearOfEraBrackets(doe: int)
    requires 0 <= doe < 146097
    ensures 0 <= YearOfEra(doe) < 400
    ensures YearStart(YearOfEra(doe)) <= doe < YearStart(YearOfEra(doe)) + YearLength(Leap, YearOfEra(doe))
  {
    var c := if doe == 146096 then 3 else doe / 36524;
    var inCentury := doe - 36524 * c;
    var q := if inCentury == 36524 then 24 else inCentury / 1461;
    var inBlock := inCentury - 1461 * q;
    var y := if inBlock >= 1095 then 3 else inBlock / 365;
    var t := inBlock - 365 * y;
    YearOfEraOfParts(c, q, y, t, doe);
    assert (100 * c + 4 * q + y) / 4 == 25 * c + q;
    assert (100 * c + 4 * q + y) / 100 == c;
  }

  lemma YearStartStep(yoe: int)
    requires 0 <= yoe < 400
    ensures YearStart(yoe) + YearLength(Leap, yoe) == if yoe == 399 then 146097 else YearStart(yoe + 1)
  {
  }

  lemma YearStartMonotone(a: int, b: int)
    requires 0 <= a <= b < 400
    ensures YearStart(a) <= YearStart(b)
  {
    assert a / 4 <= b / 4;
    assert b / 100 <= a / 100 + (b - a);
  }

  lemma DisjointYears(doe: int, a: int, b: int)
    requires 0 <= a < 400 && 0 <= b < 400
    requires YearStart(a) <= doe < YearStart(a) + YearLength(Leap, a)
    requires YearStart(b) <= doe < YearStart(b) + YearLength(Leap, b)
    ensures a == b
  {
    if a < b {
      YearStartStep(a);
      YearStartMonotone(a + 1, b);
    } else if b < a {
      YearStartStep(b);
      YearStartMonotone(b + 1, a);
    }
  }

  /** Where the March calendar puts a real day of a real year. */
  predicate WellPlaced(leap: int -> bool, march: MarchDate) {
    0 <= march.yoe < 400 && 0 <= march.doy < YearLength(leap, march.yoe)
  }

  function DayNumber(march: MarchDate): int {
    146097 * march.era + YearStart(march.yoe) + march.doy
  }

  function NextMarch(leap: int -> bool, march: MarchDate): MarchDate {
    if march.doy + 1 < YearLength(leap, march.yoe) then march.(doy := march.doy + 1)
    else if march.yoe < 399 then MarchDate(march.era, march.yoe + 1, 0)
    else MarchDate(march.era + 1, 0, 0)
  }

  lemma MarchFromDaysIsExact(z: int)
    ensures WellPlaced(Leap, MarchFromDays(z)) && DayNumber(MarchFromDays(z)) == z
  {
    YearOfEraBrackets(z % 146097);
  }

  lemma NextMarchIsNext(march: MarchDate)
    requires WellPlaced(Leap, march)
    ensures WellPlaced(Leap, NextMarch(Leap, march)) && DayNumber(NextMarch(Leap, march)) == DayNumber(march) + 1
  {
    YearStartStep(march.yoe);
  }

  lemma DayOfEraRange(march: MarchDate)
    requires WellPlaced(Leap, march)
    ensures 0 <= YearStart(march.yoe) + march.doy < 146097
  {
    YearStartMonotone(0, march.yoe);
    YearStartMonotone(march.yoe, 399);
    YearStartStep(march.yoe);
    if march.yoe < 399 {
      YearStartMonotone(march.yoe + 1, 399);
    }
  }

  lemma DayNumberInjective(a: MarchDate, b: MarchDate)
    requires WellPlaced(Leap, a) && WellPlaced(Leap, b) && DayNumber(a) == DayNumber(b)
    ensures a == b
  {
    DayOfEraRange(a);
    DayOfEraRange(b);
    assert a.era == b.era;
    DisjointYears(YearStart(a.yoe) + a.doy, a.yoe, b.yoe);
  }

  lemma MonthIndexBrackets(doy: int)
    requires 0 <= doy < 366
    ensures var mp := MonthIndex(doy); 0 <= mp < 12 && MonthStart(mp) <= doy < MonthStart(mp + 1)
  {
  }

  lemma MonthIndexUnique(doy: int, mp: int)
    requires 0 <= mp < 12 && MonthStart(mp) <= doy < MonthStart(mp + 1)
    ensures MonthIndex(doy) == mp
  {
  }

  lemma Mod400(year: int, era: int)
    ensures (year + era * 400) % 400 == year % 400
  {
  }

  lemma Mod100(year: int, era: int)
    ensures (year + era * 400) % 100 == year % 100
  {
    assert year + era * 400 == year + (4 * era) * 100;
  }

  lemma Mod4(year: int, era: int)
    ensures (year + era * 400) % 4 == year % 4
  {
    assert year + era * 400 == year + (100 * era) * 4;
  }

  lemma LeapRepeatsEachEra(era: int, year: int)
    ensures Leap(year + era * 400) == Leap(year)
  {
    Mod400(year, era);
    Mod100(year, era);
    Mod4(year, era);
  }

  lemma MonthGap(mp: int)
    requires 0 <= mp < 12
    ensures MonthStart(mp + 1) - MonthStart(mp)
            == if mp == 1 || mp == 3 || mp == 6 || mp == 8 || mp == 11 then 30 else 31
  {
  }

  lemma YearEndsInFebruary()
    ensures MonthStart(0) == 0 && MonthStart(1) == 31 && MonthStart(11) == 337 && MonthStart(12) == 367
  {
  }

  /** The rule treats the year of `march` as it treats that year of the first era. */
  predicate RepeatsAt(leap: int -> bool, march: MarchDate) {
    leap(march.yoe + march.era * 400 + 1) == leap(march.yoe + 1)
  }

  /** A month ends where the next one starts; February ends with the year. */
  function MonthEnd(leap: int -> bool, yoe: int, mp: int): int {
    if mp < 11 then MonthStart(mp + 1) else YearLength(leap, yoe)
  }

  lemma MonthLengthInMarch(leap: int -> bool, march: MarchDate, mp: int)
    requires 0 <= mp < 12 && RepeatsAt(leap, march)
    ensures var date := DateInMonth(march, mp);
            MonthLength(leap, date.year, date.month) == MonthEnd(leap, march.yoe, mp) - MonthStart(mp)
  {
    MonthGap(mp);
    YearEndsInFebruary();
  }

  lemma DateInMonthIsValid(leap: int -> bool, march: MarchDate, mp: int)
    requires 0 <= mp < 12 && RepeatsAt(leap, march)
    requires MonthStart(mp) <= march.doy < MonthEnd(leap, march.yoe, mp)
    ensures Valid(leap, DateInMonth(march, mp))
  {
    MonthLengthInMarch(leap, march, mp);
  }

  lemma StepsInsideMonth(leap: int -> bool, march: MarchDate, mp: int)
    requires 0 <= mp < 12 && RepeatsAt(leap, march)
    requires MonthStart(mp) <= march.doy && march.doy + 1 < MonthEnd(leap, march.yoe, mp)
    ensures DateInMonth(march.(doy := march.doy + 1), mp) == NextDay(leap, DateInMonth(march, mp))
  {
    MonthLengthInMarch(leap, march, mp);
  }

  lemma StepsIntoNextMonth(leap: int -> bool, march: MarchDate, mp: int)
    requires 0 <= mp < 11 && RepeatsAt(leap, march) && march.doy + 1 == MonthStart(mp + 1)
    ensures DateInMonth(march.(doy := march.doy + 1), mp + 1) == NextDay(leap, DateInMonth(march, mp))
  {
    MonthLengthInMarch(leap, march, mp);
  }

  lemma StepsIntoNextYear(leap: int -> bool, march: MarchDate, next: MarchDate)
    requires RepeatsAt(leap, march) && march.doy + 1 == YearLength(leap, march.yoe)
    requires next.doy == 0 && next.yoe + next.era * 400 == march.yoe + march.era * 400 + 1
    ensures DateInMonth(next, 0) == NextDay(leap, DateInMonth(march, 11))
  {
    MonthLengthInMarch(leap, march, 11);
  }

  lemma CivilIsInMonth(march: MarchDate, mp: int)
    requires 0 <= mp < 12 && MonthStart(mp) <= march.doy < MonthStart(mp + 1)
    ensures CivilFromMarch(march) == DateInMonth(march, mp)
  {
    MonthIndexUnique(march.doy, mp);
  }

  lemma MonthOf(leap: int -> bool, march: MarchDate) returns (mp: int)
    requires WellPlaced(leap, march)
    ensures 0 <= mp < 12 && MonthStart(mp) <= march.doy < MonthStart(mp + 1)
    ensures march.doy < MonthEnd(leap, march.yoe, mp) <= MonthStart(mp + 1)
    ensures CivilFromMarch(march) == DateInMonth(march, mp)
  {
    MonthIndexBrackets(march.doy);
    YearEndsInFebruary();
    mp := MonthIndex(march.doy);
  }

  lemma CivilFromMarchIsValid(leap: int -> bool, march: MarchDate)
    requires WellPlaced(leap, march) && RepeatsAt(leap, march)
    ensures Valid(leap, CivilFromMarch(march))
  {
    var mp := MonthOf(leap, march);
    DateInMonthIsValid(leap, march, mp);
  }

  lemma CivilFromMarchSteps(leap: int -> bool, march: MarchDate)
    requires WellPlaced(leap, march) && RepeatsAt(leap, march)
    ensures CivilFromMarch(NextMarch(leap, march)) == NextDay(leap, CivilFromMarch(march))
  {
    var next := NextMarch(leap, march);
    var mp := MonthOf(leap, march);
    if march.doy + 1 < MonthEnd(leap, march.yoe, mp) {
      StepsInsideMonth(leap, march, mp);
      CivilIsInMonth(next, mp);
    } else if mp < 11 {
      MonthGap(mp + 1);
      StepsIntoNextMonth(leap, march, mp);
      CivilIsInMonth(next, mp + 1);
    } else {
      YearEndsInFebruary();
      StepsIntoNextYear(leap, march, next);
      CivilIsInMonth(next, 0);
    }
  }

  // --- What the conversion computes ----------------------------------------

  /** The date `n` days after the epoch, counted one day at a time. */
  function DaysAfterEpoch(n: nat): Date {
    if n == 0 then Date(1970, 1, 1) else NextDay(Leap, DaysAfterEpoch(n - 1))
  }

  lemma EpochDay(march: MarchDate)
    requires WellPlaced(Leap, march) && DayNumber(march) == 719468
    ensures CivilFromMarch(march) == Date(1970, 1, 1)
  {
    assert YearStart(369) == 134774;
    DayNumberInjective(march, MarchDate(4, 369, 306));
  }

  lemma GregorianRepeatsAt(march: MarchDate)
    ensures RepeatsAt(Leap, march)
  {
    LeapRepeatsEachEra(march.era, march.yoe + 1);
    assert march.yoe + 1 + march.era * 400 == march.yoe + march.era * 400 + 1;
  }

  lemma StepsByOneDay(a: MarchDate, b: MarchDate)
    requires WellPlaced(Leap, a) && WellPlaced(Leap, b) && DayNumber(b) == DayNumber(a) + 1
    ensures CivilFromMarch(b) == NextDay(Leap, CivilFromMarch(a))
  {
    NextMarchIsNext(a);
    DayNumberInjective(b, NextMarch(Leap, a));
    GregorianRepeatsAt(a);
    CivilFromMarchSteps(Leap, a);
  }

  lemma {:induction false} CountsDays(march: nat -> MarchDate, n: nat)
    requires forall k: nat :: WellPlaced(Leap, march(k)) && DayNumber(march(k)) == k + 719468
    ensures CivilFromMarch(march(n)) == DaysAfterEpoch(n)
    ensures Valid(Leap, DaysAfterEpoch(n)) && DaysAfterEpoch(n).year >= 0
  {
    if n == 0 {
      EpochDay(march(0));
    } else {
      CountsDays(march, n - 1);
      StepsByOneDay(march(n - 1), march(n));
    }
    GregorianRepeatsAt(march(n));
    CivilFromMarchIsValid(Leap, march(n));
  }

  /** The division chain gives the date that day-by-day counting gives, for every day. */
  lemma CivilFromDaysCountsDays(days: nat)
    ensures CivilFromDays(days) == DaysAfterEpoch(days)
    ensures Valid(Leap, DaysAfterEpoch(days)) && DaysAfterEpoch(days).year >= 0
  {
    var march := (k: nat) => MarchFromDays(k + 719468);
    forall k: nat
      ensures WellPlaced(Leap, march(k)) && DayNumber(march(k)) == k + 719468
    {
      MarchFromDaysIsExact(k + 719468);
    }
    CountsDays(march, days);
  }

  // --- Reading a timestamp back ----------------------------------------------

  function DigitValue(c: char): int {
    c as int - '0' as int
  }

  function Number(s: string): int {
    if s == "" then 0 else 10 * Number(s[..|s| - 1]) + DigitValue(s[|s| - 1])
  }

  lemma {:induction false} NumberOfDigits(n: nat)
    ensures Number(Digits(n)) == n
  {
    if n >= 10 {
      NumberOfDigits(n / 10);
      assert Digits(n)[..|Digits(n)| - 1] == Digits(n / 10);
    }
  }

  lemma {:induction false} NumberSkipsZeros(k: int, s: string)
    ensures Number(Zeros(k) + s) == Number(s)
  {
    if s != "" {
      NumberSkipsZeros(k, s[..|s| - 1]);
      assert (Zeros(k) + s)[..|Zeros(k) + s| - 1] == Zeros(k) + s[..|s| - 1];
    } else {
      assert Zeros(k) + s == Zeros(k);
      NumberOfZeros(k);
    }
  }

  lemma {:induction false} NumberOfZeros(k: int)
    ensures Number(Zeros(k)) == 0
  {
    if k > 0 {
      NumberOfZeros(k - 1);
      ZerosEndInZero(k);
      assert Zeros(k)[..k - 1] == Zeros(k - 1);
    }
  }

  lemma {:induction false} ZerosEndInZero(k: int)
    requires k > 0
    ensures Zeros(k) == Zeros(k - 1) + "0"
  {
    if k > 1 {
      ZerosEndInZero(k - 1);
    }
  }

  lemma PadReadsBack(n: nat, w: nat)
    ensures Number(Pad(n, w)) == n
    ensures n < 100 && w == 2 ==> |Pad(n, w)| == 2
  {
    NumberOfDigits(n);
    NumberSkipsZeros(w - |Digits(n)|, Digits(n));
  }

  /** The instant a timestamp's digits name. */
  datatype Instant = Instant(date: Date, hour: int, minute: int, second: int)

  function ReadInstant(number: string -> int, t: string): Instant
    requires |t| >= 16
  {
    var n := |t|;
    Instant(Date(number(t[..n - 12]), number(t[n - 12..n - 10]), number(t[n - 10..n - 8])),
            number(t[n - 7..n - 5]), number(t[n - 5..n - 3]), number(t[n - 3..n - 1]))
  }

  lemma Slices(y: string, mo: string, d: string, h: string, mi: string, sec: string, t: string)
    requires |y| >= 4 && |mo| == 2 && |d| == 2 && |h| == 2 && |mi| == 2 && |sec| == 2
    requires t == y + mo + d + "T" + h + mi + sec + "Z"
    ensures |t| == |y| + 12 && t[|t| - 8] == 'T' && t[|t| - 1] == 'Z'
    ensures t[..|t| - 12] == y && t[|t| - 12..|t| - 10] == mo && t[|t| - 10..|t| - 8] == d
    ensures t[|t| - 7..|t| - 5] == h && t[|t| - 5..|t| - 3] == mi && t[|t| - 3..|t| - 1] == sec
  {
  }

  lemma PartsReadBack(number: string -> int, y: string, mo: string, d: string, h: string, mi: string, sec: string,
                      t: string)
    requires |y| >= 4 && |mo| == 2 && |d| == 2 && |h| == 2 && |mi| == 2 && |sec| == 2
    requires t == y + mo + d + "T" + h + mi + sec + "Z"
    ensures |t| >= 16
    ensures ReadInstant(number, t)
            == Instant(Date(number(y), number(mo), number(d)), number(h), number(mi), number(sec))
  {
    Slices(y, mo, d, h, mi, sec, t);
  }

  /** The digits name the day counted from the epoch and the second of that day. */
  lemma AmzDateNamesTheInstant(epochSecs: u64)
    ensures var t := AmzDate(epochSecs);
            && |t| >= 16 && t[|t| - 8] == 'T' && t[|t| - 1] == 'Z'
            && var rem := epochSecs % 86400;
            && ReadInstant(Number, t)
               == Instant(DaysAfterEpoch(epochSecs / 86400), rem / 3600, rem % 3600 / 60, rem % 60)
  {
    var days, rem := EpochDays(epochSecs), epochSecs % 86400;
    var date := CivilFromDays(days);
    CivilFromDaysCountsDays(days);
    PadReadsBack(date.year, 4);
    PadReadsBack(date.month, 2);
    PadReadsBack(date.day, 2);
    PadReadsBack(rem / 3600, 2);
    PadReadsBack(rem % 3600 / 60, 2);
    PadReadsBack(rem % 60, 2);
    PartsReadBack(Number, Pad(date.year, 4), Pad(date.month, 2), Pad(date.day, 2),
                  Pad(rem / 3600, 2), Pad(rem % 3600 / 60, 2), Pad(rem % 60, 2), AmzDate(epochSecs));
  }

  /** The time of day is a time of day, and names its second. */
  lemma TimeOfDayIsExact(rem: nat)
    requires rem < 86400
    ensures rem / 3600 < 24 && rem % 3600 / 60 < 60 && rem % 60 < 60
    ensures 3600 * (rem / 3600) + 60 * (rem % 3600 / 60) + rem % 60 == rem
  {
  }
}

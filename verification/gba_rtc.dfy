/** The S-3511 cartridge clock: a two-digit-year calendar, spoken to in BCD. */
module GbaClock {
  import opened Words
  import opened Arith

  datatype Clock = Clock(year: nat, month: nat, day: nat, weekday: nat, hour: nat, minute: nat, second: nat,
                         status: uint8, accumulator: nat)

  const NEW_CLOCK := Clock(0, 1, 1, 0, 0, 0, 0, 0x40, 0)

  /** Every year divisible by four is a leap year; the century rule never applies. */
  function DaysInMonth(year: nat, month: nat): (days: nat)
    ensures 28 <= days <= 31
  {
    if month == 4 || month == 6 || month == 9 || month == 11 then 30
    else if month == 2 then if year % 4 == 0 then 29 else 28
    else if 1 <= month <= 12 then 31
    else 30
  }

  /** A date of the calendar and a time of day. */
  predicate ValidDate(c: Clock) {
    c.year < 100 && 1 <= c.month <= 12 && 1 <= c.day <= DaysInMonth(c.year, c.month) && c.weekday < 7 &&
    c.hour < 24 && c.minute < 60 && c.second < 60
  }

  /** What every operation keeps: each field in its own range, but perhaps no real date. */
  predicate InRange(c: Clock) {
    c.year < 100 && 1 <= c.month <= 12 && 1 <= c.day <= 31 && c.weekday < 8 && c.hour < 24 && c.minute < 60 && c.second < 60
  }

  // ---------------------------------------------------------------------------
  // Counting
  // ---------------------------------------------------------------------------

  function NextDay(c: Clock): Clock {
    var d := c.(second := 0, minute := 0, hour := 0, weekday := (c.weekday + 1) % 7);
    if c.day + 1 <= DaysInMonth(c.year, c.month) then d.(day := c.day + 1)
    else if c.month + 1 <= 12 then d.(day := 1, month := c.month + 1)
    else d.(day := 1, month := 1, year := (c.year + 1) % 100)
  }

  function NextSecond(c: Clock): Clock {
    if c.second + 1 < 60 then c.(second := c.second + 1)
    else if c.minute + 1 < 60 then c.(second := 0, minute := c.minute + 1)
    else if c.hour + 1 < 24 then c.(second := 0, minute := 0, hour := c.hour + 1)
    else NextDay(c)
  }

  function Seconds(c: Clock, n: nat): Clock {
    if n == 0 then c else NextSecond(Seconds(c, n - 1))
  }

  function Ticked(c: Clock, cycles: nat, hz: nat): Clock {
    if hz == 0 then c
    else
      DivBounds(c.accumulator + cycles, hz);
      Seconds(c, (c.accumulator + cycles) / hz).(accumulator := (c.accumulator + cycles) % hz)
  }

  // ---------------------------------------------------------------------------
  // BCD
  // ---------------------------------------------------------------------------

  function ToBcd(value: nat): uint8
    requires value < 100
  {
    value / 10 * 16 + value % 10
  }

  function FromBcd(value: uint8): (v: nat)
    ensures v <= 165
  {
    value / 16 * 10 + value % 16
  }

  function Clamp(value: nat, low: nat, high: nat): nat {
    if value < low then low else if value > high then high else value
  }

  /** Bit 7 of the hour marks the afternoon. */
  function HourByte(hour: nat): uint8
    requires hour < 24
  {
    ToBcd(hour) + if hour >= 12 then 0x80 else 0
  }

  function DateTimeBytes(c: Clock): (bytes: seq<uint8>)
    requires InRange(c)
    ensures |bytes| == 7
  {
    [ToBcd(c.year), ToBcd(c.month), ToBcd(c.day), c.weekday % 8, HourByte(c.hour), ToBcd(c.minute), ToBcd(c.second)]
  }

  function SetBytes(c: Clock, bytes: seq<uint8>): Clock
    requires |bytes| == 7
  {
    c.(year := FromBcd(bytes[0]) % 100,
       month := Clamp(FromBcd(bytes[1]), 1, 12),
       day := Clamp(FromBcd(bytes[2]), 1, 31),
       weekday := bytes[3] % 8,
       hour := FromBcd(bytes[4] % 0x80) % 24,
       minute := FromBcd(bytes[5]) % 60,
       second := FromBcd(bytes[6]) % 60)
  }

  // ---------------------------------------------------------------------------
  // The clock
  // ---------------------------------------------------------------------------

  class GbaGpioRtc {
    var year: nat
    var month: nat
    var day: nat
    var weekday: nat
    var hour: nat
    var minute: nat
    var second: nat
    var status: uint8
    var accumulator: nat

    function View(): Clock
      reads this
    {
      Clock(year, month, day, weekday, hour, minute, second, status, accumulator)
    }

    constructor ()
      ensures View() == NEW_CLOCK && ValidDate(View())
    {
      year, month, day, weekday, hour, minute, second := 0, 1, 1, 0, 0, 0, 0;
      status, accumulator := 0x40, 0;
    }

    method Tick(cycles: nat, hz: nat)
      modifies this
      ensures View() == Ticked(old(View()), cycles, hz)
    {
      if hz == 0 {
        return;
      }
      ghost var n, total, counted := 0, accumulator + cycles, View();
      accumulator := accumulator + cycles;
      while accumulator >= hz
        invariant Counted(total, hz, n, accumulator)
        invariant counted == Seconds(old(View()), n) && View() == counted.(accumulator := accumulator)
        decreases accumulator
      {
        CountOne(total, hz, n, accumulator);
        accumulator := accumulator - hz;
        NextSecondKeepsPhase(counted, accumulator);
        AdvanceOneSecond();
        n, counted := n + 1, NextSecond(counted);
      }
      CountEnds(total, hz, n, accumulator);
    }

    method AdvanceOneSecond()
      modifies this
      ensures View() == NextSecond(old(View()))
    {
      second := second + 1;
      if second < 60 {
        return;
      }
      second := 0;
      minute := minute + 1;
      if minute < 60 {
        return;
      }
      minute := 0;
      hour := hour + 1;
      if hour < 24 {
        return;
      }
      hour := 0;
      weekday := (weekday + 1) % 7;
      day := day + 1;
      if day <= DaysInMonth(year, month) {
        return;
      }
      day := 1;
      month := month + 1;
      if month <= 12 {
        return;
      }
      month := 1;
      year := (year + 1) % 100;
    }

    method SetDateTimeBytes(bytes: seq<uint8>)
      requires |bytes| == 7
      modifies this
      ensures View() == SetBytes(old(View()), bytes)
    {
      year := FromBcd(bytes[0]) % 100;
      month := Clamp(FromBcd(bytes[1]), 1, 12);
      day := Clamp(FromBcd(bytes[2]), 1, 31);
      weekday := bytes[3] % 8;
      hour := FromBcd(bytes[4] % 0x80) % 24;
      minute := FromBcd(bytes[5]) % 60;
      second := FromBcd(bytes[6]) % 60;
    }
  }

  lemma NextSecondKeepsPhase(c: Clock, accumulator: nat)
    ensures NextSecond(c.(accumulator := accumulator)) == NextSecond(c).(accumulator := accumulator)
  {
  }

  // ---------------------------------------------------------------------------
  // The calendar as one count
  // ---------------------------------------------------------------------------

  const DAYS: nat := 36525
  const DAY: nat := 86400

  function DaysBeforeMonth(year: nat, month: nat): nat {
    if month <= 1 then 0 else DaysBeforeMonth(year, month - 1) + DaysInMonth(year, month - 1)
  }

  function DaysBeforeYear(year: nat): nat {
    365 * year + (year + 3) / 4
  }

  /** Days since 1 January of year 00. */
  function DayNumber(c: Clock): int {
    DaysBeforeYear(c.year) + DaysBeforeMonth(c.year, c.month) + c.day - 1
  }

  function SecondOfDay(c: Clock): nat {
    c.second + 60 * c.minute + 3600 * c.hour
  }

  /** Seconds since 1 January of year 00, midnight. */
  function Absolute(c: Clock): int {
    DAY * DayNumber(c) + SecondOfDay(c)
  }

  lemma YearLength(year: nat)
    ensures DaysBeforeMonth(year, 12) + 31 == if year % 4 == 0 then 366 else 365
    ensures DaysBeforeYear(year + 1) == DaysBeforeYear(year) + DaysBeforeMonth(year, 12) + 31
  {
    assert DaysBeforeMonth(year, 2) == 31;
    assert DaysBeforeMonth(year, 3) == 31 + DaysInMonth(year, 2);
    assert DaysBeforeMonth(year, 4) == DaysBeforeMonth(year, 3) + 31;
    assert DaysBeforeMonth(year, 5) == DaysBeforeMonth(year, 4) + 30;
    assert DaysBeforeMonth(year, 6) == DaysBeforeMonth(year, 5) + 31;
    assert DaysBeforeMonth(year, 7) == DaysBeforeMonth(year, 6) + 30;
    assert DaysBeforeMonth(year, 8) == DaysBeforeMonth(year, 7) + 31;
    assert DaysBeforeMonth(year, 9) == DaysBeforeMonth(year, 8) + 31;
    assert DaysBeforeMonth(year, 10) == DaysBeforeMonth(year, 9) + 30;
    assert DaysBeforeMonth(year, 11) == DaysBeforeMonth(year, 10) + 31;
    assert DaysBeforeMonth(year, 12) == DaysBeforeMonth(year, 11) + 30;
  }

  /** Months from March on alternate so that their days add up to 153 every five. */
  function FromMarch(month: nat): nat
    requires 3 <= month <= 12
  {
    (153 * (month - 3) + 2) / 5
  }

  lemma MonthStarts(year: nat, month: nat)
    requires 3 <= month <= 12
    ensures DaysBeforeMonth(year, month) == 59 + (if year % 4 == 0 then 1 else 0) + FromMarch(month)
  {
    assert DaysBeforeMonth(year, 2) == 31;
    assert DaysBeforeMonth(year, 3) == 31 + DaysInMonth(year, 2);
    assert month > 3 ==> DaysBeforeMonth(year, 4) == DaysBeforeMonth(year, 3) + 31;
    assert month > 4 ==> DaysBeforeMonth(year, 5) == DaysBeforeMonth(year, 4) + 30;
    assert month > 5 ==> DaysBeforeMonth(year, 6) == DaysBeforeMonth(year, 5) + 31;
    assert month > 6 ==> DaysBeforeMonth(year, 7) == DaysBeforeMonth(year, 6) + 30;
    assert month > 7 ==> DaysBeforeMonth(year, 8) == DaysBeforeMonth(year, 7) + 31;
    assert month > 8 ==> DaysBeforeMonth(year, 9) == DaysBeforeMonth(year, 8) + 31;
    assert month > 9 ==> DaysBeforeMonth(year, 10) == DaysBeforeMonth(year, 9) + 30;
    assert month > 10 ==> DaysBeforeMonth(year, 11) == DaysBeforeMonth(year, 10) + 31;
    assert month > 11 ==> DaysBeforeMonth(year, 12) == DaysBeforeMonth(year, 11) + 30;
  }

  /** Every date's number, in closed form: the days of whole years, of the months and of the month. */
  lemma DayNumberInClosedForm(c: Clock)
    requires ValidDate(c)
    ensures DayNumber(c) == 365 * c.year + (c.year + 3) / 4 + c.day - 1 +
      if c.month < 3 then 31 * (c.month - 1) else 59 + (if c.year % 4 == 0 then 1 else 0) + (153 * (c.month - 3) + 2) / 5
  {
    assert DaysBeforeMonth(c.year, 2) == 31;
    if c.month >= 3 {
      MonthStarts(c.year, c.month);
    }
  }

  /**
   * Midnight ends a month exactly on the 30th of April, June, September and November, on the 29th or 28th of
   * February by whether four divides the year, and on the 31st of the rest; the next is the first of the next month.
   */
  lemma MonthEnds(c: Clock)
    requires ValidDate(c)
    ensures var next := NextDay(c);
      var last := c.day == match c.month
        case 4 => 30
        case 6 => 30
        case 9 => 30
        case 11 => 30
        case 2 => if c.year % 4 == 0 then 29 else 28
        case _ => 31;
      (next.day, next.month, next.year) ==
        if !last then (c.day + 1, c.month, c.year)
        else if c.month < 12 then (1, c.month + 1, c.year) else (1, 1, (c.year + 1) % 100)
  {
  }

  lemma {:induction false} MonthsAddUp(year: nat, a: nat, b: nat)
    requires 1 <= a < b
    ensures DaysBeforeMonth(year, a) + DaysInMonth(year, a) <= DaysBeforeMonth(year, b)
    decreases b
  {
    if a + 1 < b {
      MonthsAddUp(year, a, b - 1);
    }
  }

  /** A date of the calendar has a number below 36525, the last day of year 99 the last one. */
  lemma DayNumberBound(c: Clock)
    requires ValidDate(c)
    ensures 0 <= DayNumber(c) < DAYS
    ensures DayNumber(c) + 1 == DAYS <==> c.year == 99 && c.month == 12 && c.day == 31
  {
    YearLength(c.year);
    if c.month < 12 {
      MonthsAddUp(c.year, c.month, 12);
    }
  }

  /** Midnight moves to the next day of the calendar, and from the last of 36525 to the first. */
  lemma NextDayAdds(c: Clock)
    requires ValidDate(c)
    ensures var next := NextDay(c);
      ValidDate(next) && SecondOfDay(next) == 0 && next.weekday == (c.weekday + 1) % 7 &&
      DayNumber(next) == if DayNumber(c) + 1 == DAYS then 0 else DayNumber(c) + 1
  {
    YearLength(c.year);
    DayNumberBound(c);
  }

  lemma SecondOfDayBound(c: Clock)
    requires ValidDate(c)
    ensures SecondOfDay(c) < DAY && (SecondOfDay(c) + 1 == DAY <==> c.hour == 23 && c.minute == 59 && c.second == 59)
  {
  }

  lemma NextWithinDay(c: Clock)
    requires ValidDate(c) && SecondOfDay(c) + 1 < DAY
    ensures var next := NextSecond(c);
      ValidDate(next) && SecondOfDay(next) == SecondOfDay(c) + 1 && DayNumber(next) == DayNumber(c) && next.weekday == c.weekday
  {
    SecondOfDayBound(c);
  }

  /** `count` numbers the seconds of a hundred years in the order the clock goes through them. */
  ghost predicate NumbersSeconds(count: Clock -> int) {
    forall c {:trigger NextSecond(c)} :: ValidDate(c) ==>
      ValidDate(NextSecond(c)) && 0 <= count(c) < DAYS * DAY &&
      count(NextSecond(c)) == if count(c) + 1 == DAYS * DAY then 0 else count(c) + 1
  }

  lemma AbsoluteSteps(c: Clock)
    requires ValidDate(c)
    ensures ValidDate(NextSecond(c)) && 0 <= Absolute(c) < DAYS * DAY
    ensures Absolute(NextSecond(c)) == if Absolute(c) + 1 == DAYS * DAY then 0 else Absolute(c) + 1
  {
    SecondOfDayBound(c);
    DayNumberBound(c);
    if SecondOfDay(c) + 1 < DAY {
      NextWithinDay(c);
    } else {
      NextDayAdds(c);
    }
  }

  lemma {:induction false} SecondsCountUp(count: Clock -> int, c: Clock, n: nat)
    requires ValidDate(c) && NumbersSeconds(count)
    ensures ValidDate(Seconds(c, n)) && 0 <= count(c) < DAYS * DAY
    ensures count(Seconds(c, n)) == CountUp(count(c), n, DAYS * DAY)
  {
    var _ := NextSecond(c);
    if n > 0 {
      SecondsCountUp(count, c, n - 1);
    }
  }

  lemma AbsoluteNumbersSeconds()
    ensures NumbersSeconds(Absolute)
  {
    forall c | ValidDate(c)
      ensures ValidDate(NextSecond(c)) && 0 <= Absolute(c) < DAYS * DAY &&
        Absolute(NextSecond(c)) == if Absolute(c) + 1 == DAYS * DAY then 0 else Absolute(c) + 1
    {
      AbsoluteSteps(c);
    }
  }

  /** From any date of the calendar, n seconds later is a date of the calendar, n seconds on modulo 36525 days. */
  lemma SecondsAdd(c: Clock, n: nat)
    requires ValidDate(c)
    ensures ValidDate(Seconds(c, n)) && Absolute(Seconds(c, n)) == (Absolute(c) + n) % (DAYS * DAY)
  {
    AbsoluteNumbersSeconds();
    SecondsCountUp(Absolute, c, n);
    CountUpIsMod(Absolute(c), n, DAYS * DAY);
  }

  /** The weekday moves on with every midnight passed, through the end of year 99 too. */
  lemma {:induction false} WeekdayInStep(c: Clock, n: nat)
    requires ValidDate(c)
    ensures ValidDate(Seconds(c, n))
    ensures SecondOfDay(Seconds(c, n)) == (SecondOfDay(c) + n) % DAY
    ensures Seconds(c, n).weekday == (c.weekday + (SecondOfDay(c) + n) / DAY) % 7
  {
    SecondOfDayBound(c);
    if n == 0 {
      SmallMod(SecondOfDay(c), DAY);
    } else {
      var before := Seconds(c, n - 1);
      WeekdayInStep(c, n - 1);
      DayPasses(before);
      CarryDay(SecondOfDay(c) + n - 1, DAY, c.weekday, SecondOfDay(before), before.weekday);
    }
  }

  lemma DayPasses(c: Clock)
    requires ValidDate(c)
    ensures var next := NextSecond(c);
      ValidDate(next) &&
      (SecondOfDay(next), next.weekday) ==
        if SecondOfDay(c) + 1 == DAY then (0, (c.weekday + 1) % 7) else (SecondOfDay(c) + 1, c.weekday)
  {
    SecondOfDayBound(c);
    if SecondOfDay(c) + 1 < DAY {
      NextWithinDay(c);
    } else {
      NextDayAdds(c);
    }
  }

  lemma CarryDay(x: nat, day: nat, w: nat, second: nat, weekday: nat)
    requires day > 0 && second == x % day && weekday == (w + x / day) % 7
    ensures (x + 1) % day == if second + 1 == day then 0 else second + 1
    ensures (w + (x + 1) / day) % 7 == if second + 1 == day then (weekday + 1) % 7 else weekday
  {
    ModSucc(x, day);
    DivSucc(x, day);
  }

  /** A tick from a date of the calendar leads to one, floor((accumulated + cycles) / hz) seconds on. */
  lemma TickAdds(c: Clock, cycles: nat, hz: nat)
    requires ValidDate(c) && hz > 0
    ensures var after := Ticked(c, cycles, hz);
      ValidDate(after) && Absolute(after) == (Absolute(c) + (c.accumulator + cycles) / hz) % (DAYS * DAY) &&
      after.accumulator == (c.accumulator + cycles) % hz
  {
    DivBounds(c.accumulator + cycles, hz);
    var n, r := (c.accumulator + cycles) / hz, (c.accumulator + cycles) % hz;
    SecondsAdd(c, n);
    PhaseIsApart(Seconds(c, n), r);
  }

  lemma TickKeepsWeekday(c: Clock, cycles: nat, hz: nat)
    requires ValidDate(c) && hz > 0
    ensures var n := (c.accumulator + cycles) / hz;
      Ticked(c, cycles, hz).weekday == (c.weekday + (SecondOfDay(c) + n) / DAY) % 7
  {
    DivBounds(c.accumulator + cycles, hz);
    WeekdayInStep(c, (c.accumulator + cycles) / hz);
  }

  lemma PhaseIsApart(c: Clock, accumulator: nat)
    ensures var d := c.(accumulator := accumulator); (ValidDate(d) <==> ValidDate(c)) && Absolute(d) == Absolute(c)
  {
  }

  lemma {:induction false} SecondsCompose(c: Clock, n: nat, m: nat)
    ensures Seconds(Seconds(c, n), m) == Seconds(c, n + m)
  {
    if m > 0 {
      SecondsCompose(c, n, m - 1);
    }
  }

  lemma {:induction false} SecondsKeepPhase(c: Clock, n: nat, accumulator: nat)
    ensures Seconds(c.(accumulator := accumulator), n) == Seconds(c, n).(accumulator := accumulator)
  {
    if n > 0 {
      SecondsKeepPhase(c, n - 1, accumulator);
      NextSecondKeepsPhase(Seconds(c, n - 1), accumulator);
    }
  }

  /** Ticking in instalments is ticking once, from any state whatever. */
  lemma TicksCompose(c: Clock, a: nat, b: nat, hz: nat)
    ensures Ticked(Ticked(c, a, hz), b, hz) == Ticked(c, a + b, hz)
  {
    if hz > 0 {
      DivBounds(c.accumulator + a, hz);
      var n, r := (c.accumulator + a) / hz, (c.accumulator + a) % hz;
      DivBounds(r + b, hz);
      SecondsCompose(c, n, (r + b) / hz);
      SecondsKeepPhase(Seconds(c, n), (r + b) / hz, r);
      Instalments(c.accumulator, a, b, hz);
      assert Ticked(c, a, hz) == Seconds(c, n).(accumulator := r);
    }
  }

  // ---------------------------------------------------------------------------
  // Setting the clock
  // ---------------------------------------------------------------------------

  lemma BcdRoundTrip(value: nat, radix: nat)
    requires value < radix <= 100
    ensures FromBcd(ToBcd(value)) == value && FromBcd(ToBcd(value)) % radix == value
  {
    SmallMod(value, radix);
  }

  lemma HourRoundTrip(hour: nat)
    requires hour < 24
    ensures FromBcd(HourByte(hour) % 0x80) % 24 == hour
  {
    assert HourByte(hour) % 0x80 == ToBcd(hour);
    BcdRoundTrip(hour, 24);
  }

  /** The seven bytes: two decimal digits each, the weekday as it is, and bit 7 of the hour from noon on. */
  lemma BytesInNumbers(c: Clock)
    requires InRange(c)
    ensures var b := DateTimeBytes(c);
      b[0] / 16 == c.year / 10 && b[0] % 16 == c.year % 10 && b[1] / 16 == c.month / 10 && b[1] % 16 == c.month % 10 &&
      b[2] / 16 == c.day / 10 && b[2] % 16 == c.day % 10 && b[3] == c.weekday &&
      b[4] / 16 % 8 == c.hour / 10 && b[4] % 16 == c.hour % 10 && (b[4] >= 0x80 <==> c.hour >= 12) &&
      b[5] / 16 == c.minute / 10 && b[5] % 16 == c.minute % 10 && b[6] / 16 == c.second / 10 && b[6] % 16 == c.second % 10
  {
    TwoDigits(c.year);
    TwoDigits(c.month);
    TwoDigits(c.day);
    TwoDigits(c.hour);
    TwoDigits(c.minute);
    TwoDigits(c.second);
    HourDigits(c.hour);
    hide ToBcd, HourByte;
  }

  lemma TwoDigits(value: nat)
    requires value < 100
    ensures ToBcd(value) / 16 == value / 10 && ToBcd(value) % 16 == value % 10
  {
    DivUniqueLeft(ToBcd(value), value / 10, 16, value % 10);
  }

  lemma HourDigits(hour: nat)
    requires hour < 24
    ensures HourByte(hour) / 16 % 8 == hour / 10 && HourByte(hour) % 16 == hour % 10 && (HourByte(hour) >= 0x80 <==> hour >= 12)
  {
    TwoDigits(hour);
    var high := hour / 10 + if hour >= 12 then 8 else 0;
    DivUniqueLeft(HourByte(hour), high, 16, hour % 10);
  }

  /** What the bytes set: a month or day too small or too large is the first or last there is; the rest wrap. */
  lemma SettingInNumbers(c: Clock, bytes: seq<uint8>)
    requires |bytes| == 7
    ensures var after, month, day := SetBytes(c, bytes), bytes[1] / 16 * 10 + bytes[1] % 16, bytes[2] / 16 * 10 + bytes[2] % 16;
      after.month == (if month == 0 then 1 else if month <= 12 then month else 12) &&
      after.day == (if day == 0 then 1 else if day <= 31 then day else 31) &&
      after.year == (bytes[0] / 16 * 10 + bytes[0] % 16) % 100 && after.hour == (bytes[4] / 16 % 8 * 10 + bytes[4] % 16) % 24 &&
      after.minute == (bytes[5] / 16 * 10 + bytes[5] % 16) % 60 && after.second == (bytes[6] / 16 * 10 + bytes[6] % 16) % 60
  {
    assert bytes[4] % 0x80 / 16 == bytes[4] / 16 % 8 && bytes[4] % 0x80 % 16 == bytes[4] % 16;
  }

  /** What the chip answers, written back, sets the same date and time. */
  lemma DateTimeRoundTrip(c: Clock, other: Clock)
    requires InRange(c)
    ensures SetBytes(other, DateTimeBytes(c)) == c.(status := other.status, accumulator := other.accumulator)
  {
    BcdRoundTrip(c.year, 100);
    BcdRoundTrip(c.month, 100);
    BcdRoundTrip(c.day, 100);
    HourRoundTrip(c.hour);
    BcdRoundTrip(c.minute, 60);
    BcdRoundTrip(c.second, 60);
    SmallMod(c.weekday, 8);
    BytesBack(other, DateTimeBytes(c), c);
  }

  lemma BytesBack(other: Clock, bytes: seq<uint8>, c: Clock)
    requires |bytes| == 7 && 1 <= c.month <= 12 && 1 <= c.day <= 31
    requires FromBcd(bytes[0]) % 100 == c.year && FromBcd(bytes[1]) == c.month && FromBcd(bytes[2]) == c.day
    requires bytes[3] % 8 == c.weekday && FromBcd(bytes[4] % 0x80) % 24 == c.hour
    requires FromBcd(bytes[5]) % 60 == c.minute && FromBcd(bytes[6]) % 60 == c.second
    ensures SetBytes(other, bytes) == c.(status := other.status, accumulator := other.accumulator)
  {
  }

  /** Any seven bytes leave each field in its range, but a date of the calendar only if the day exists and the weekday is one. */
  lemma SetIsValidWhen(c: Clock, bytes: seq<uint8>)
    requires |bytes| == 7
    ensures InRange(SetBytes(c, bytes))
    ensures ValidDate(SetBytes(c, bytes)) <==>
      bytes[3] % 8 != 7 &&
      Clamp(FromBcd(bytes[2]), 1, 31) <= DaysInMonth(FromBcd(bytes[0]) % 100, Clamp(FromBcd(bytes[1]), 1, 12))
  {
  }

  /** 31 February, on weekday seven. */
  lemma ImpossibleDate(c: Clock)
    ensures var set31 := SetBytes(c, [0x00, 0x02, 0x31, 0x07, 0x00, 0x00, 0x00]);
      !ValidDate(set31) && set31.month == 2 && set31.day == 31 && set31.weekday == 7
  {
    var bytes: seq<uint8> := [0x00, 0x02, 0x31, 0x07, 0x00, 0x00, 0x00];
    assert bytes[1] == 2 && bytes[2] == 0x31 && bytes[3] == 7;
  }

  /** However it was set, the next midnight brings the clock back to a date of the calendar. */
  lemma MidnightRepairs(c: Clock)
    requires InRange(c)
    ensures ValidDate(NextDay(c))
  {
  }

  /** So within a day's seconds every setting is repaired, and stays so. */
  lemma {:induction false} RepairedWithinADay(c: Clock, n: nat)
    requires InRange(c) && SecondOfDay(c) + n >= DAY
    ensures ValidDate(Seconds(c, n))
    decreases n
  {
    SecondsFromFront(c, n);
    if c.second == 59 && c.minute == 59 && c.hour == 23 {
      MidnightRepairs(c);
      SecondsAdd(NextSecond(c), n - 1);
    } else {
      RepairedWithinADay(NextSecond(c), n - 1);
    }
  }

  lemma {:induction false} SecondsFromFront(c: Clock, n: nat)
    ensures n > 0 ==> Seconds(c, n) == Seconds(NextSecond(c), n - 1)
  {
    if n > 1 {
      SecondsFromFront(c, n - 1);
    }
  }
}

/** The time stamp in an archive file name: local date and time with the offset from UTC. */
module Stamps {
  import opened Wrappers
  import opened Numerals
  import opened ArchiveGrammar

  datatype Stamp = Stamp(
    year: nat, month: nat, day: nat, hour: nat, minute: nat, second: nat,
    east: bool, offsetHours: nat, offsetMinutes: nat)

  // ---- The Gregorian calendar ---------------------------------------------

  predicate IsLeap(year: nat) { year % 4 == 0 && (year % 100 != 0 || year % 400 == 0) }

  function DaysIn(year: nat, month: nat): nat {
    if month == 2 then if IsLeap(year) then 29 else 28
    else if month in {4, 6, 9, 11} then 30
    else 31
  }

  function DaysBeforeMonth(year: nat, month: nat): nat {
    if month <= 1 then 0 else DaysBeforeMonth(year, month - 1) + DaysIn(year, month - 1)
  }

  /** Days before a date, from the first of January of the year one on. */
  function DaysBefore(year: nat, month: nat, day: nat): int {
    var y := year - 1;
    y * 365 + y / 4 - y / 100 + y / 400 + DaysBeforeMonth(year, month) + day - 1
  }

  function OffsetSeconds(s: Stamp): int {
    var seconds := s.offsetHours * 3600 + s.offsetMinutes * 60;
    if s.east then seconds else -seconds
  }

  /** The instant that a stamp names, in seconds from the year one on. */
  function UtcSeconds(s: Stamp): int {
    DaysBefore(s.year, s.month, s.day) * 86400 + s.hour * 3600 + s.minute * 60 + s.second - OffsetSeconds(s)
  }

  const END_OF_TIME := 3_652_059 * 86400

  /** A date and a time of day that a calendar and a clock can show. */
  predicate OnTheClock(s: Stamp) {
    && 1 <= s.year && 1 <= s.month <= 12 && 1 <= s.day <= DaysIn(s.year, s.month)
    && s.hour < 24 && s.minute < 60 && s.second < 60
  }

  /** The stamps that `strptime` and the conversion to UTC accept. */
  predicate Legal(s: Stamp) {
    && OnTheClock(s) && s.year <= 9999
    && s.offsetHours < 24 && s.offsetMinutes < 60
    && 0 <= UtcSeconds(s) < END_OF_TIME
  }

  /** The last day that there is lies before the end of time, and the next day would not. */
  lemma {:induction false} CalendarEnds()
    ensures DaysBefore(1, 1, 1) == 0 && DaysBefore(9999, 12, 31) + 1 == END_OF_TIME / 86400
  {
    assert DaysBeforeMonth(9999, 4) == 90;
    assert DaysBeforeMonth(9999, 8) == 212;
    assert DaysBeforeMonth(9999, 12) == 334;
  }

  lemma {:induction false} MonthPasses(year: nat, month: nat)
    requires month >= 1
    ensures DaysBeforeMonth(year, month + 1) == DaysBeforeMonth(year, month) + DaysIn(year, month)
  {
  }

  /** The months of a year begin after these many days. */
  lemma {:induction false} MonthsBegin(year: nat)
    ensures DaysBeforeMonth(year, 1) == 0 && DaysBeforeMonth(year, 2) == 31
    ensures var extra := if IsLeap(year) then 1 else 0;
            && DaysBeforeMonth(year, 3) == 59 + extra && DaysBeforeMonth(year, 4) == 90 + extra
            && DaysBeforeMonth(year, 5) == 120 + extra && DaysBeforeMonth(year, 6) == 151 + extra
            && DaysBeforeMonth(year, 7) == 181 + extra && DaysBeforeMonth(year, 8) == 212 + extra
            && DaysBeforeMonth(year, 9) == 243 + extra && DaysBeforeMonth(year, 10) == 273 + extra
            && DaysBeforeMonth(year, 11) == 304 + extra && DaysBeforeMonth(year, 12) == 334 + extra
            && DaysBeforeMonth(year, 13) == 365 + extra
  {
    assert DaysBeforeMonth(year, 1) == 0;
    hide DaysBeforeMonth, IsLeap;
    MonthPasses(year, 1);
    MonthPasses(year, 2);
    MonthPasses(year, 3);
    MonthPasses(year, 4);
    MonthPasses(year, 5);
    MonthPasses(year, 6);
    MonthPasses(year, 7);
    MonthPasses(year, 8);
    MonthPasses(year, 9);
    MonthPasses(year, 10);
    MonthPasses(year, 11);
    MonthPasses(year, 12);
  }

  /** Two midnights by which the calendar can be told: the first that there is, and that from which
      Unix counts. */
  lemma {:induction false} CalendarAnchors(s: Stamp)
    requires s.month == 1 && s.day == 1 && s.hour == 0 && s.minute == 0 && s.second == 0
    requires s.offsetHours == 0 && s.offsetMinutes == 0
    ensures s.year == 1 ==> UtcSeconds(s) == 0
    ensures s.year == 1970 ==> UtcSeconds(s) == 62_135_596_800
  {
    assert DaysBeforeMonth(s.year, s.month) == 0;
    hide DaysBeforeMonth;
  }

  function AtUtc(s: Stamp): Stamp { s.(east := true, offsetHours := 0, offsetMinutes := 0) }

  /** A wall clock east of Greenwich shows a time before Greenwich does, one west of it after. */
  lemma {:induction false} OffsetMovesInstant(s: Stamp)
    ensures var ahead := s.offsetHours * 3600 + s.offsetMinutes * 60;
            UtcSeconds(AtUtc(s)) == if s.east then UtcSeconds(s) + ahead else UtcSeconds(s) - ahead
  {
  }

  function NextDay(s: Stamp): Stamp {
    if s.day < DaysIn(s.year, s.month) then s.(day := s.day + 1)
    else if s.month < 12 then s.(month := s.month + 1, day := 1)
    else s.(year := s.year + 1, month := 1, day := 1)
  }

  /** What calendar and clock show a second later. */
  function NextSecond(s: Stamp): Stamp {
    if s.second < 59 then s.(second := s.second + 1)
    else if s.minute < 59 then s.(minute := s.minute + 1, second := 0)
    else if s.hour < 23 then s.(hour := s.hour + 1, minute := 0, second := 0)
    else NextDay(s.(hour := 0, minute := 0, second := 0))
  }

  lemma {:induction false} QuotientsStep(year: nat)
    requires year >= 1
    ensures year / 4 == (year - 1) / 4 + if year % 4 == 0 then 1 else 0
    ensures year / 100 == (year - 1) / 100 + if year % 100 == 0 then 1 else 0
    ensures year / 400 == (year - 1) / 400 + if year % 400 == 0 then 1 else 0
  {
  }

  lemma {:induction false} Multiples(n: nat)
    ensures 4 * n % 4 == 0 && 100 * n % 100 == 0
  {
  }

  lemma {:induction false} CenturiesAreFourths(year: nat)
    ensures (year % 100 == 0 ==> year % 4 == 0) && (year % 400 == 0 ==> year % 100 == 0)
  {
    if year % 100 == 0 {
      var centuries := year / 100;
      assert year == 4 * (25 * centuries);
      Multiples(25 * centuries);
    }
    if year % 400 == 0 {
      var cycles := year / 400;
      assert year == 100 * (4 * cycles);
      Multiples(4 * cycles);
    }
  }

  lemma {:induction false} LeapYearsPass(year: nat)
    requires year >= 1
    ensures year / 4 - year / 100 + year / 400
         == (year - 1) / 4 - (year - 1) / 100 + (year - 1) / 400 + if IsLeap(year) then 1 else 0
  {
    QuotientsStep(year);
    CenturiesAreFourths(year);
  }

  lemma {:induction false} YearPasses(year: nat)
    requires year >= 1
    ensures DaysBefore(year + 1, 1, 1) == DaysBefore(year, 12, 31) + 1
  {
    LeapYearsPass(year);
    MonthsBegin(year);
    MonthsBegin(year + 1);
    hide DaysBeforeMonth, IsLeap;
  }

  /** The day after a date counts one more, whether it is in the same month and year or not. */
  lemma {:induction false} NextDayIsOneLater(s: Stamp)
    requires OnTheClock(s)
    ensures OnTheClock(NextDay(s)) && UtcSeconds(NextDay(s)) == UtcSeconds(s) + 86400
  {
    if s.day == DaysIn(s.year, s.month) {
      if s.month == 12 {
        YearPasses(s.year);
      } else {
        MonthPasses(s.year, s.month);
      }
    }
    hide DaysBeforeMonth, IsLeap, OffsetSeconds;
  }

  /** Time passes evenly over the ends of minutes, hours, days, months and years, leap years included. */
  lemma {:induction false} NextSecondIsOneLater(s: Stamp)
    requires OnTheClock(s)
    ensures OnTheClock(NextSecond(s)) && UtcSeconds(NextSecond(s)) == UtcSeconds(s) + 1
  {
    if s.second == 59 && s.minute == 59 && s.hour == 23 {
      NextDayIsOneLater(s.(hour := 0, minute := 0, second := 0));
    }
    hide NextDay, DaysIn;
  }

  /** The first second of the calendar cannot be that of a clock east of Greenwich, nor the last one that
      of a clock west of it: in UTC they would lie outside the calendar. */
  lemma {:induction false} EdgesOfTime(s: Stamp, t: Stamp)
    requires s == Stamp(1, 1, 1, 0, 0, 0, s.east, s.offsetHours, s.offsetMinutes)
    requires t == Stamp(9999, 12, 31, 23, 59, 59, s.east, s.offsetHours, s.offsetMinutes)
    requires s.offsetHours < 24 && s.offsetMinutes < 60
    ensures Legal(s) <==> !s.east || s.offsetHours == s.offsetMinutes == 0
    ensures Legal(t) <==> s.east || s.offsetHours == s.offsetMinutes == 0
  {
    MonthsBegin(s.year);
    MonthsBegin(t.year);
    hide DaysBeforeMonth;
  }

  // ---- Printing and reading -----------------------------------------------

  function DateText(s: Stamp): string { Padded(s.year, 4, 10) + Padded(s.month, 2, 10) + Padded(s.day, 2, 10) }

  function TimeText(s: Stamp): string { Padded(s.hour, 2, 10) + Padded(s.minute, 2, 10) + Padded(s.second, 2, 10) }

  function OffsetText(s: Stamp): string { Padded(s.offsetHours, 2, 10) + Padded(s.offsetMinutes, 2, 10) }

  function StampText(s: Stamp): string {
    DateText(s) + "T" + TimeText(s) + [if s.east then '+' else '-'] + OffsetText(s)
  }

  function FieldsOf(text: string): Stamp
    requires IsStamp(text)
  {
    Stamp(Value(text[..4], 10), Value(text[4..6], 10), Value(text[6..8], 10),
          Value(text[9..11], 10), Value(text[11..13], 10), Value(text[13..15], 10),
          text[15] == '+', Value(text[16..18], 10), Value(text[18..], 10))
  }

  function ReadStamp(text: string): Option<Stamp>
    requires IsStamp(text)
  {
    if Legal(FieldsOf(text)) then Some(FieldsOf(text)) else None
  }

  lemma {:induction false} FieldRoundTrip(n: nat, width: nat)
    requires (width == 2 && n < 100) || (width == 4 && n < 10_000)
    ensures |Padded(n, width, 10)| == width && Decimal(Padded(n, width, 10)) && Value(Padded(n, width, 10), 10) == n
  {
    assert Power(10, 1) == 10 && Power(10, 2) == 100;
    Powers();
    PaddedWidth(n, width, 10);
    PaddedIsDigits(n, width, 10);
    PaddedRoundTrip(n, width, 10);
  }

  lemma {:induction false} PartsRoundTrip(a: string, b: string, c: string)
    requires |b| == 2 && |c| == 2 && Decimal(a) && Decimal(b) && Decimal(c)
    ensures var text := a + b + c;
            && |text| == |a| + 4 && Decimal(text)
            && text[..|a|] == a && text[|a|..|a| + 2] == b && text[|a| + 2..] == c
  {
  }

  /** A legal stamp is printed in the pattern of the name, and is read back. */
  lemma {:induction false} StampRoundTrip(s: Stamp)
    requires Legal(s)
    ensures IsStamp(StampText(s)) && ReadStamp(StampText(s)) == Some(s)
  {
    FieldRoundTrip(s.year, 4);
    FieldRoundTrip(s.month, 2);
    FieldRoundTrip(s.day, 2);
    FieldRoundTrip(s.hour, 2);
    FieldRoundTrip(s.minute, 2);
    FieldRoundTrip(s.second, 2);
    FieldRoundTrip(s.offsetHours, 2);
    FieldRoundTrip(s.offsetMinutes, 2);
    hide Padded, Value, Decimal, Legal;
    StampSlices(Padded(s.year, 4, 10), Padded(s.month, 2, 10), Padded(s.day, 2, 10),
                Padded(s.hour, 2, 10), Padded(s.minute, 2, 10), Padded(s.second, 2, 10),
                if s.east then '+' else '-', Padded(s.offsetHours, 2, 10), Padded(s.offsetMinutes, 2, 10));
    hide IsStamp;
    assert FieldsOf(StampText(s)) == s;
  }

  lemma {:induction false} StampSlices(y: string, mo: string, d: string, h: string, mi: string, sec: string,
                                       sign: char, oh: string, om: string)
    requires |y| == 4 && |mo| == |d| == |h| == |mi| == |sec| == |oh| == |om| == 2 && (sign == '+' || sign == '-')
    requires Decimal(y) && Decimal(mo) && Decimal(d) && Decimal(h) && Decimal(mi) && Decimal(sec) && Decimal(oh)
          && Decimal(om)
    ensures var text := (y + mo + d) + "T" + (h + mi + sec) + [sign] + (oh + om);
            && IsStamp(text)
            && text[..4] == y && text[4..6] == mo && text[6..8] == d
            && text[9..11] == h && text[11..13] == mi && text[13..15] == sec && text[15] == sign
            && text[16..18] == oh && text[18..] == om
  {
    NoDigits();
    PartsRoundTrip(y, mo, d);
    PartsRoundTrip(h, mi, sec);
    PartsRoundTrip("", oh, om);
    hide Decimal;
    assert "" + oh + om == oh + om;
    StampParts(y + mo + d, h + mi + sec, sign, oh + om);
  }

  lemma {:induction false} NoDigits()
    ensures Decimal("")
  {
  }

  lemma {:induction false} StampParts(date: string, time: string, sign: char, offset: string)
    requires |date| == 8 && |time| == 6 && |offset| == 4
    ensures var text := date + "T" + time + [sign] + offset;
            && |text| == 20 && text[..8] == date && text[8] == 'T' && text[9..15] == time && text[15] == sign
            && text[16..] == offset
            && text[..4] == date[..4] && text[4..6] == date[4..6] && text[6..8] == date[6..]
            && text[9..11] == time[..2] && text[11..13] == time[2..4] && text[13..15] == time[4..]
            && text[16..18] == offset[..2] && text[18..] == offset[2..]
  {
  }
}

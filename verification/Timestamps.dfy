/** The notice deadline travels as text (section 5.6 of RFC 3339) from the plan to the reservation
    (internal/solve/solve.go:37, internal/schedule/schedule.go:88). */
module Timestamps {
  import opened Domain
  import opened Keys
  import opened Slots
  import opened Calendar

  // ---------------------------------------------------------------------------------------
  // Text

  /** The tens and the units digit. */
  function Tens(n: nat): char
    requires n < 100
  {
    Digit(n / 10)
  }

  function Units(n: nat): char
    requires n < 100
  {
    Digit(n % 10)
  }

  /** The year is printed with at least four digits, and a sign before year 0. */
  function YearDigits(y: int): string {
    if y < 0 then "-" + PaddedYear(-y) else PaddedYear(y)
  }

  function PaddedYear(y: nat): string {
    if y < 10000 then [Tens(y / 100), Units(y / 100), Tens(y % 100), Units(y % 100)] else NatToString(y)
  }

  /** The zones the planner prints in: UTC, and the Indian zone after a shift to a local hour. */
  datatype Zone = Utc | Ist

  function Offset(z: Zone): Time {
    if z == Utc then 0 else IST_OFFSET
  }

  function ZoneText(z: Zone): string {
    if z == Utc then "Z" else "+05:30"
  }

  /** The text of a civil date and a clock time. */
  function Text(c: Civil, hour: nat, minute: nat, second: nat, z: Zone): string
    requires c.month < 100 && c.day < 100 && hour < 100 && minute < 100 && second < 100
  {
    YearDigits(c.year) + FieldText(c.month, c.day, hour, minute, second) + ZoneText(z)
  }

  function FieldText(month: nat, day: nat, hour: nat, minute: nat, second: nat): (s: string)
    requires month < 100 && day < 100 && hour < 100 && minute < 100 && second < 100
    ensures |s| == 15
  {
    ['-', Tens(month), Units(month), '-', Tens(day), Units(day), 'T', Tens(hour), Units(hour),
     ':', Tens(minute), Units(minute), ':', Tens(second), Units(second)]
  }

  lemma ClockSplits(clock: Time)
    requires 0 <= clock < DAY
    ensures var h, m, s := clock / HOUR, clock % HOUR / MINUTE, clock % MINUTE / SECOND;
            && 0 <= h <= 23 && 0 <= m <= 59 && 0 <= s <= 59
            && h * HOUR + m * MINUTE + s * SECOND == clock - clock % SECOND
  {
    Regroup(clock, MINUTE);
    Regroup(clock, SECOND);
  }

  /** Dividing by a unit inside one sixty times as large: the quotient stays below sixty, and the
      smaller remainder is that of the whole. */
  lemma Regroup(x: int, unit: int)
    requires unit > 0
    ensures var rest := x % (60 * unit);
            0 <= rest / unit < 60 && rest == rest / unit * unit + x % unit
  {
    var a, r := x / unit, x % unit;
    RegroupParts(a / 60, a % 60, r, unit);
    assert x == (a / 60 * 60 + a % 60) * unit + r;
  }

  lemma RegroupParts(q: int, k: int, r: int, unit: int)
    requires unit > 0 && 0 <= k < 60 && 0 <= r < unit
    ensures var x := (q * 60 + k) * unit + r;
            var rest := x % (60 * unit);
            rest / unit == k && rest == k * unit + r && x % unit == r
  {
    var rest := k * unit + r;
    Distribute(q, k, unit);
    Multiples(k, unit);
    Multiples(59 - k, unit);
    RemainderIs((q * 60 + k) * unit + r, q, 60 * unit, rest);
    RemainderIs((q * 60 + k) * unit + r, q * 60 + k, unit, r);
    RemainderIs(rest, k, unit, r);
  }

  lemma Distribute(q: int, k: int, unit: int)
    ensures (q * 60 + k) * unit == q * (60 * unit) + k * unit
    ensures (59 - k) * unit == 59 * unit - k * unit
  {
  }

  lemma RemainderIs(x: int, q: int, unit: int, r: int)
    requires unit > 0 && 0 <= r < unit && x == q * unit + r
    ensures x % unit == r && x / unit == q
  {
    Multiples(x / unit - q, unit);
    assert (x / unit - q) * unit == r - x % unit;
  }

  lemma Multiples(d: int, unit: int)
    requires unit > 0
    ensures d >= 0 ==> d * unit >= 0
    ensures d >= 1 ==> d * unit >= unit
    ensures d <= -1 ==> d * unit <= -unit
  {
  }

  datatype Fields = Fields(hour: nat, minute: nat, second: nat)

  /** Hour, minute and second of a clock time; the fraction of a second is dropped. */
  function FieldsOf(clock: Time): (f: Fields)
    requires 0 <= clock < DAY
    ensures f.hour <= 23 && f.minute <= 59 && f.second <= 59
    ensures f.hour * HOUR + f.minute * MINUTE + f.second * SECOND == clock - clock % SECOND
  {
    ClockSplits(clock);
    Fields(clock / HOUR, clock % HOUR / MINUTE, clock % MINUTE / SECOND)
  }

  /** The text of a local day number and clock time, whole seconds only. */
  function LocalText(day: int, clock: Time, z: Zone): string
    requires 0 <= clock < DAY
  {
    var f := FieldsOf(clock);
    Text(CivilOf(day), f.hour, f.minute, f.second, z)
  }

  function LocalDay(t: Time, z: Zone): int {
    (t + Offset(z)) / DAY
  }

  function LocalClock(t: Time, z: Zone): (clock: Time)
    ensures 0 <= clock < DAY
  {
    (t + Offset(z)) % DAY
  }

  /** The instant of a local day and clock time, its fraction of a second dropped. */
  function Instant(day: int, clock: Time, z: Zone): Time {
    day * DAY + (clock - clock % SECOND) - Offset(z)
  }

  function LocalYear(t: Time, z: Zone): int {
    CivilOf(LocalDay(t, z)).year
  }

  /** time.Format(time.RFC3339): whole seconds only. */
  function Format(t: Time, z: Zone): string {
    LocalText(LocalDay(t, z), LocalClock(t, z), z)
  }

  predicate TwoDigitsAt(s: string, i: nat) {
    i + 2 <= |s| && IsDigit(s[i]) && IsDigit(s[i + 1])
  }

  function NumberAt(s: string, i: nat): (n: nat)
    requires TwoDigitsAt(s, i)
    ensures n < 100
  {
    10 * DigitValue(s[i]) + DigitValue(s[i + 1])
  }

  predicate HasDateShape(s: string)
    requires |s| >= 20
  {
    && TwoDigitsAt(s, 0) && TwoDigitsAt(s, 2) && s[4] == '-' && TwoDigitsAt(s, 5) && s[7] == '-' && TwoDigitsAt(s, 8)
  }

  predicate HasTimeShape(s: string)
    requires |s| >= 20
  {
    && s[10] == 'T' && TwoDigitsAt(s, 11) && s[13] == ':' && TwoDigitsAt(s, 14) && s[16] == ':' && TwoDigitsAt(s, 17)
    && (s[19..] == "Z" || s[19..] == "+05:30")
  }

  predicate HasShape(s: string) {
    |s| >= 20 && HasDateShape(s) && HasTimeShape(s)
  }

  /** time.Parse(time.RFC3339, s) for the texts `Format` can produce: a four-digit year, fields in
      range, no fraction. */
  function Parse(s: string): Option<Time> {
    if !HasShape(s) then None
    else
      var year, month, day := 100 * NumberAt(s, 0) + NumberAt(s, 2), NumberAt(s, 5), NumberAt(s, 8);
      var hour, minute, second := NumberAt(s, 11), NumberAt(s, 14), NumberAt(s, 17);
      var offset := if s[19..] == "Z" then 0 else IST_OFFSET;
      if !(1 <= month <= 12) || !(1 <= day <= DaysInMonth(year, month)) || hour > 23 || minute > 59 || second > 59
      then None
      else Some(DayNumber(Civil(year, month, day)) * DAY + hour * HOUR + minute * MINUTE + second * SECOND - offset)
  }

  function WholeSeconds(t: Time): Time {
    t - t % SECOND
  }

  lemma TwoDigitsReadBack(s: string, i: nat, n: nat)
    requires n < 100 && i + 2 <= |s| && s[i] == Tens(n) && s[i + 1] == Units(n)
    ensures TwoDigitsAt(s, i) && NumberAt(s, i) == n
  {
  }

  /** Which character stands where. */
  function CharAt(c: Civil, hour: nat, minute: nat, second: nat, i: nat): char
    requires 0 <= c.year < 10000 && c.month < 100 && c.day < 100 && hour < 100 && minute < 100 && second < 100 && i < 19
  {
    if i < 4 then YearDigits(c.year)[i] else FieldText(c.month, c.day, hour, minute, second)[i - 4]
  }

  lemma TextAt(c: Civil, hour: nat, minute: nat, second: nat, z: Zone, i: nat)
    requires 0 <= c.year < 10000 && c.month < 100 && c.day < 100 && hour < 100 && minute < 100 && second < 100 && i < 19
    ensures var s := Text(c, hour, minute, second, z);
            |s| > 19 && s[19..] == ZoneText(z) && s[i] == CharAt(c, hour, minute, second, i)
  {
    var head := YearDigits(c.year) + FieldText(c.month, c.day, hour, minute, second);
    assert Text(c, hour, minute, second, z)[..19] == head;
    assert Text(c, hour, minute, second, z)[i] == head[i];
  }

  lemma PairAt(c: Civil, hour: nat, minute: nat, second: nat, z: Zone, i: nat, n: nat)
    requires 0 <= c.year < 10000 && c.month < 100 && c.day < 100 && hour < 100 && minute < 100 && second < 100
    requires i + 1 < 19 && n < 100
    requires CharAt(c, hour, minute, second, i) == Tens(n) && CharAt(c, hour, minute, second, i + 1) == Units(n)
    ensures var s := Text(c, hour, minute, second, z);
            TwoDigitsAt(s, i) && NumberAt(s, i) == n
  {
    hide Text, CharAt;
    TextAt(c, hour, minute, second, z, i);
    TextAt(c, hour, minute, second, z, i + 1);
    TwoDigitsReadBack(Text(c, hour, minute, second, z), i, n);
  }

  /** The fields of the date stand where the parser looks for them. */
  lemma DateFieldsReadBack(c: Civil, hour: nat, minute: nat, second: nat, z: Zone)
    requires 0 <= c.year < 10000 && c.month < 100 && c.day < 100 && hour < 100 && minute < 100 && second < 100
    ensures var s := Text(c, hour, minute, second, z);
            && |s| >= 20 && HasDateShape(s)
            && 100 * NumberAt(s, 0) + NumberAt(s, 2) == c.year
            && NumberAt(s, 5) == c.month && NumberAt(s, 8) == c.day
  {
    hide Text;
    PairAt(c, hour, minute, second, z, 0, c.year / 100);
    PairAt(c, hour, minute, second, z, 2, c.year % 100);
    TextAt(c, hour, minute, second, z, 4);
    PairAt(c, hour, minute, second, z, 5, c.month);
    TextAt(c, hour, minute, second, z, 7);
    PairAt(c, hour, minute, second, z, 8, c.day);
  }

  /** So do those of the time. */
  lemma TimeFieldsReadBack(c: Civil, hour: nat, minute: nat, second: nat, z: Zone)
    requires 0 <= c.year < 10000 && c.month < 100 && c.day < 100 && hour < 100 && minute < 100 && second < 100
    ensures var s := Text(c, hour, minute, second, z);
            && |s| >= 20 && HasTimeShape(s) && s[19..] == ZoneText(z)
            && NumberAt(s, 11) == hour && NumberAt(s, 14) == minute && NumberAt(s, 17) == second
  {
    hide Text;
    TextAt(c, hour, minute, second, z, 10);
    PairAt(c, hour, minute, second, z, 11, hour);
    TextAt(c, hour, minute, second, z, 13);
    PairAt(c, hour, minute, second, z, 14, minute);
    TextAt(c, hour, minute, second, z, 16);
    PairAt(c, hour, minute, second, z, 17, second);
  }

  /** Parsing the text of a valid date and time. */
  lemma ParseText(c: Civil, hour: nat, minute: nat, second: nat, z: Zone)
    requires 0 <= c.year < 10000 && 1 <= c.month <= 12 && 1 <= c.day <= DaysInMonth(c.year, c.month)
    requires hour <= 23 && minute <= 59 && second <= 59
    ensures Parse(Text(c, hour, minute, second, z))
         == Some(DayNumber(c) * DAY + hour * HOUR + minute * MINUTE + second * SECOND - Offset(z))
  {
    hide Text, HasDateShape, HasTimeShape;
    DateFieldsReadBack(c, hour, minute, second, z);
    TimeFieldsReadBack(c, hour, minute, second, z);
    assert c == Civil(c.year, c.month, c.day);
  }

  predicate FourDigitYear(y: int) {
    0 <= y < 10000
  }

  /** A sign stands where the parser wants a digit, or a fifth digit where it wants a dash. */
  lemma RefuseText(c: Civil, hour: nat, minute: nat, second: nat, z: Zone)
    requires !FourDigitYear(c.year) && c.month < 100 && c.day < 100 && hour < 100 && minute < 100 && second < 100
    ensures Parse(Text(c, hour, minute, second, z)) == None
  {
    var s := Text(c, hour, minute, second, z);
    if c.year < 0 {
      assert s[0] == YearDigits(c.year)[0] == '-';
    } else {
      LongYear(c.year);
      assert s[4] == PaddedYear(c.year)[4];
    }
  }

  /** A local day and clock time read back up to the second. */
  lemma LocalRoundTrip(day: int, clock: Time, z: Zone)
    requires 0 <= clock < DAY
    ensures Parse(LocalText(day, clock, z))
              == if FourDigitYear(CivilOf(day).year) then Some(Instant(day, clock, z)) else None
  {
    hide Text, Parse, CivilOf, DayNumber, FieldsOf;
    var c, f := CivilOf(day), FieldsOf(clock);
    DateReadsBackFromCivil(day);
    if FourDigitYear(c.year) {
      ParseText(c, f.hour, f.minute, f.second, z);
    } else {
      RefuseText(c, f.hour, f.minute, f.second, z);
    }
  }

  /** The text round trip: parsing what was printed gives the instant with its fraction of a
      second dropped, if and only if the local year has four digits. */
  lemma TextRoundTrip(t: Time, z: Zone)
    ensures Parse(Format(t, z)) == if FourDigitYear(LocalYear(t, z)) then Some(WholeSeconds(t)) else None
  {
    var day, clock := LocalDay(t, z), LocalClock(t, z);
    assert Format(t, z) == LocalText(day, clock, z);
    LocalRoundTrip(day, clock, z);
    assert Instant(day, clock, z) == WholeSeconds(t) by {
      SecondsOfDay(t, z);
    }
  }

  /** Whole seconds of the local day are whole seconds of the instant. */
  lemma SecondsOfDay(t: Time, z: Zone)
    ensures Instant(LocalDay(t, z), LocalClock(t, z), z) == WholeSeconds(t)
  {
    var local, offset := t + Offset(z), Offset(z);
    var q, r := local / DAY, local % DAY;
    RemainderIs(local, q * 86400 + r / SECOND, SECOND, r % SECOND);
    RemainderIs(local - offset, q * 86400 + r / SECOND - offset / SECOND, SECOND, r % SECOND);
  }

  /** A year from 10000 on prints at least five digits. */
  lemma LongYear(y: nat)
    requires y >= 10000
    ensures |PaddedYear(y)| >= 5 && forall i | 0 <= i < |PaddedYear(y)| :: IsDigit(PaddedYear(y)[i])
  {
    assert |NatToString(y / 10)| >= 4 by {
      assert |NatToString(y / 100)| >= 3 by {
        assert |NatToString(y / 1000)| >= 2;
      }
    }
  }

  /** The deadline a reservation stores: under one second earlier than 24 hours before the slot,
      never later; it gets lost exactly in years that do not have four digits. */
  lemma DeadlineSurvivesText(scheduledFor: Time, z: Zone)
    ensures var deliverBy := Parse(Format(scheduledFor - NOTICE_LEAD, z));
            && (deliverBy.Some? <==> FourDigitYear(LocalYear(scheduledFor - NOTICE_LEAD, z)))
            && (deliverBy.Some? ==> DeadlineFits(deliverBy.value, scheduledFor))
  {
    hide Format, Parse, LocalYear;
    TextRoundTrip(scheduledFor - NOTICE_LEAD, z);
  }
}

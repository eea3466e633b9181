/** Whole numbers and times as text (the profile of section 5.6 of RFC 3339, to the second). */
module TextFormats {
  import opened Common
  import opened QueryString

  // ----- whole numbers -----

  function Digit(n: nat): (c: char)
    requires n < 10
    ensures '0' <= c <= '9' && DigitValue(c) == n
  {
    ('0' as int + n) as char
  }

  function DigitValue(c: char): (n: int)
    ensures -1 <= n < 10
  {
    if '0' <= c <= '9' then c as int - '0' as int else -1
  }

  function Decimal(n: nat): string {
    if n < 10 then [Digit(n)] else Decimal(n / 10) + [Digit(n % 10)]
  }

  /** "%.0f" of a whole number. */
  function Whole(n: int): string {
    if n < 0 then "-" + Decimal(-n) else Decimal(n)
  }

  /** The value of a run of digits, or -1. */
  function Digits(s: string): (n: int)
    ensures n >= -1
  {
    if s == "" then -1
    else
      var d, high := DigitValue(s[|s| - 1]), if |s| == 1 then 0 else Digits(s[..|s| - 1]);
      if d == -1 || high == -1 then -1 else 10 * high + d
  }

  function ParseWhole(s: string): Option<int> {
    if s != "" && s[0] == '-' then
      if Digits(s[1..]) == -1 then None else Some(-Digits(s[1..]))
    else
      if Digits(s) == -1 then None else Some(Digits(s))
  }

  predicate IsNumeral(s: string) {
    forall c | c in s :: '0' <= c <= '9' || c == '-'
  }

  lemma {:induction false} DecimalReads(n: nat)
    ensures Digits(Decimal(n)) == n && Decimal(n) != "" && Decimal(n)[0] != '-' && IsNumeral(Decimal(n))
    ensures n >= 10000 ==> |Decimal(n)| > 4
    ensures forall c | c in Decimal(n) :: '0' <= c <= '9'
  {
    if n >= 10 {
      DecimalReads(n / 10);
      AtLeastFour(n / 10);
      assert Decimal(n)[..|Decimal(n)| - 1] == Decimal(n / 10);
    }
  }

  lemma {:induction false} AtLeastFour(n: nat)
    ensures n >= 10 ==> |Decimal(n)| >= 2
    ensures n >= 100 ==> |Decimal(n)| >= 3
    ensures n >= 1000 ==> |Decimal(n)| >= 4
  {
    if n >= 10 {
      AtLeastFour(n / 10);
    }
  }

  lemma MinusReads(s: string)
    requires Digits(s) != -1 && IsNumeral(s)
    ensures ParseWhole("-" + s) == Some(-Digits(s)) && IsNumeral("-" + s)
  {
    assert ("-" + s)[1..] == s;
  }

  lemma WholeReads(n: int)
    ensures ParseWhole(Whole(n)) == Some(n) && IsNumeral(Whole(n))
  {
    DecimalReads(if n < 0 then -n else n);
    if n < 0 {
      MinusReads(Decimal(-n));
    }
  }

  // ----- times -----

  /** A time in some zone, zone in minutes east. */
  datatype Time = Time(year: nat, month: nat, day: nat, hour: nat, minute: nat, second: nat, nanos: nat, zone: int)

  function DaysIn(year: nat, month: nat): nat {
    if month == 2 then if year % 4 == 0 && (year % 100 != 0 || year % 400 == 0) then 29 else 28
    else if month in {4, 6, 9, 11} then 30
    else 31
  }

  predicate OnTheCalendar(year: nat, month: nat, day: nat, hour: nat, minute: nat, second: nat) {
    1 <= month <= 12 && 1 <= day <= DaysIn(year, month) && hour < 24 && minute < 60 && second < 60
  }

  predicate IsTime(t: Time) {
    OnTheCalendar(t.year, t.month, t.day, t.hour, t.minute, t.second) && -1440 < t.zone < 1440
  }

  function DaysBefore(year: nat, month: nat): nat {
    if month <= 1 then 0 else DaysBefore(year, month - 1) + DaysIn(year, month - 1)
  }

  function LeapDays(year: nat): int {
    year / 4 - year / 100 + year / 400
  }

  /** The number of a day, counting through the calendar. */
  function DayNumber(year: nat, month: nat, day: nat): int {
    365 * year + LeapDays(year) + DaysBefore(year, month) + day - if DaysIn(year, 2) == 29 then 1 else 0
  }

  lemma DaysInYear(year: nat)
    ensures DaysBefore(year, 12) + 31 == if DaysIn(year, 2) == 29 then 366 else 365
  {
    assert DaysBefore(year, 2) == 31;
    assert DaysBefore(year, 3) == DaysBefore(year, 2) + DaysIn(year, 2);
    assert DaysBefore(year, 5) == DaysBefore(year, 3) + 61;
    assert DaysBefore(year, 7) == DaysBefore(year, 5) + 61;
    assert DaysBefore(year, 9) == DaysBefore(year, 7) + 62;
    assert DaysBefore(year, 11) == DaysBefore(year, 9) + 61;
  }

  lemma LeapDaysGrow(year: nat)
    ensures LeapDays(year + 1) == LeapDays(year) + if DaysIn(year + 1, 2) == 29 then 1 else 0
  {
    assert (year + 1) / 4 == year / 4 + if (year + 1) % 4 == 0 then 1 else 0;
    assert (year + 1) / 100 == year / 100 + if (year + 1) % 100 == 0 then 1 else 0;
    assert (year + 1) / 400 == year / 400 + if (year + 1) % 400 == 0 then 1 else 0;
  }

  /** The day after the last of a month or year has the next number, as has every other next day. */
  lemma DaysAreCounted(year: nat, month: nat)
    requires 1 <= month <= 12
    ensures DayNumber(year, month, DaysIn(year, month)) + 1
         == if month < 12 then DayNumber(year, month + 1, 1) else DayNumber(year + 1, 1, 1)
  {
    if month == 12 {
      DaysInYear(year);
      LeapDaysGrow(year);
    }
  }

  /** A time as a number of nanoseconds, the same in every zone. */
  function Instant(t: Time): int {
    (((DayNumber(t.year, t.month, t.day) * 24 + t.hour) * 60 + t.minute - t.zone) * 60 + t.second) * 1_000_000_000
    + t.nanos
  }

  /** What that number is: it counts nanoseconds through the calendar, and a clock further east shows the same time
      later. */
  lemma InstantCounts(t: Time)
    requires IsTime(t)
    ensures Instant(t.(nanos := t.nanos + 1)) == Instant(t) + 1
    ensures Instant(t.(second := t.second + 1)) == Instant(t) + 1_000_000_000
    ensures Instant(t.(minute := t.minute + 1)) == Instant(t) + 60 * 1_000_000_000
    ensures Instant(t.(hour := t.hour + 1)) == Instant(t) + 3600 * 1_000_000_000
    ensures Instant(t.(day := t.day + 1)) == Instant(t) + 86400 * 1_000_000_000
    ensures Instant(t.(month := if t.month < 12 then t.month + 1 else 1, day := 1,
                       year := if t.month < 12 then t.year else t.year + 1))
         == Instant(t.(day := DaysIn(t.year, t.month))) + 86400 * 1_000_000_000
    ensures Instant(t.(zone := t.zone + 1)) == Instant(t) - 60 * 1_000_000_000
  {
    DaysAreCounted(t.year, t.month);
  }

  function Pad2(n: nat): (s: string)
    requires n < 100
    ensures |s| == 2 && Two(s, 0) == n && IsNumeral(s)
  {
    [Digit(n / 10), Digit(n % 10)]
  }

  /** The two digits at i, or -1. */
  function Two(s: string, i: nat): int
    requires i + 2 <= |s|
  {
    if DigitValue(s[i]) == -1 || DigitValue(s[i + 1]) == -1 then -1 else 10 * DigitValue(s[i]) + DigitValue(s[i + 1])
  }

  function FormatYear(year: nat): string {
    if year < 10000 then Pad2(year / 100) + Pad2(year % 100) else Decimal(year)
  }

  function Magnitude(zone: int): nat {
    if zone < 0 then -zone else zone
  }

  function FormatZone(zone: int): string
    requires -1440 < zone < 1440
  {
    if zone == 0 then "Z"
    else [if zone < 0 then '-' else '+'] + Pad2(Magnitude(zone) / 60) + ":" + Pad2(Magnitude(zone) % 60)
  }

  function FormatClock(t: Time): (s: string)
    requires IsTime(t)
    ensures |s| == 15
    ensures s[0] == '-' && s[3] == '-' && s[6] == 'T' && s[9] == ':' && s[12] == ':'
    ensures Two(s, 1) == t.month && Two(s, 4) == t.day && Two(s, 7) == t.hour
    ensures Two(s, 10) == t.minute && Two(s, 13) == t.second
    ensures forall c | c in s :: '0' <= c <= '9' || c == '-' || c == 'T' || c == ':'
  {
    "-" + Pad2(t.month) + "-" + Pad2(t.day) + "T" + Pad2(t.hour) + ":" + Pad2(t.minute) + ":" + Pad2(t.second)
  }

  /** t.Format(time.RFC3339) */
  function FormatTime(t: Time): string
    requires IsTime(t)
  {
    FormatYear(t.year) + FormatClock(t) + FormatZone(t.zone)
  }

  function ParseZone(s: string): Option<int> {
    if s == "Z" then Some(0)
    else if |s| != 6 || (s[0] != '+' && s[0] != '-') || s[3] != ':' || Two(s, 1) == -1 || Two(s, 4) == -1 then None
    else
      var z := 60 * Two(s, 1) + Two(s, 4);
      Some(if s[0] == '-' then -z else z)
  }

  /** time.Parse(time.RFC3339, s) */
  function ParseTime(s: string): Option<Time> {
    if |s| < 20 || s[4] != '-' || s[7] != '-' || s[10] != 'T' || s[13] != ':' || s[16] != ':' then None
    else
      var century, year, month, day := Two(s, 0), Two(s, 2), Two(s, 5), Two(s, 8);
      var hour, minute, second, zone := Two(s, 11), Two(s, 14), Two(s, 17), ParseZone(s[19..]);
      if century < 0 || year < 0 || month < 0 || day < 0 || hour < 0 || minute < 0 || second < 0 || zone.None? then None
      else if !OnTheCalendar(100 * century + year, month, day, hour, minute, second) then None
      else Some(Time(100 * century + year, month, day, hour, minute, second, 0, zone.value))
  }

  lemma ZoneReads(zone: int)
    requires -1440 < zone < 1440
    ensures ParseZone(FormatZone(zone)) == Some(zone)
    ensures zone <= 0 ==> forall c | c in FormatZone(zone) :: !IsWildcard(c)
    ensures zone > 0 ==> FormatZone(zone)[0] == '+'
  {
    var s := FormatZone(zone);
    if zone != 0 {
      var h, m := Pad2(Magnitude(zone) / 60), Pad2(Magnitude(zone) % 60);
      assert s[1] == h[0] && s[2] == h[1] && s[4] == m[0] && s[5] == m[1];
    }
  }

  lemma WildIsPlain(s: string)
    requires forall c | c in s :: !IsWildcard(c)
    ensures Wild(s) == s
  {
  }

  lemma TwoAt(s: string, part: string, from: nat, i: nat)
    requires from + |part| <= |s| && s[from..from + |part|] == part && i + 2 <= |part|
    ensures Two(s, from + i) == Two(part, i)
  {
    assert s[from + i] == part[i] && s[from + i + 1] == part[i + 1];
  }

  lemma ClockReads(s: string, clock: string)
    requires |s| >= 19 && |clock| == 15 && s[4..19] == clock
    ensures Two(s, 5) == Two(clock, 1) && Two(s, 8) == Two(clock, 4) && Two(s, 11) == Two(clock, 7)
    ensures Two(s, 14) == Two(clock, 10) && Two(s, 17) == Two(clock, 13)
    ensures s[4] == clock[0] && s[7] == clock[3] && s[10] == clock[6] && s[13] == clock[9] && s[16] == clock[12]
  {
    TwoAt(s, clock, 4, 1);
    TwoAt(s, clock, 4, 4);
    TwoAt(s, clock, 4, 7);
    TwoAt(s, clock, 4, 10);
    TwoAt(s, clock, 4, 13);
    forall i | 0 <= i < 15 ensures s[4 + i] == clock[i] {
      assert s[4..19][i] == s[4 + i];
    }
  }

  lemma YearReads(s: string, year: nat)
    requires year < 10000 && |s| >= 4 && s[..4] == FormatYear(year)
    ensures Two(s, 0) == year / 100 && Two(s, 2) == year % 100
  {
    TwoAt(s, Pad2(year / 100), 0, 0);
    TwoAt(s, Pad2(year % 100), 2, 0);
  }

  lemma TimeReads(t: Time)
    requires IsTime(t) && t.year < 10000
    ensures ParseTime(FormatTime(t)) == Some(t.(nanos := 0))
  {
    var s, year, clock, zone := FormatTime(t), FormatYear(t.year), FormatClock(t), FormatZone(t.zone);
    assert |year| == 4 && s[..4] == year && s[4..19] == clock && s[19..] == zone;
    YearReads(s, t.year);
    ClockReads(s, clock);
    ZoneReads(t.zone);
  }

  predicate Sendable(t: Time) {
    t.zone <= 0 && t.year < 10000
  }

  lemma SendableIsPlain(t: Time)
    requires IsTime(t) && Sendable(t)
    ensures forall c | c in FormatTime(t) :: !IsWildcard(c)
  {
    var s, year, clock, zone := FormatTime(t), FormatYear(t.year), FormatClock(t), FormatZone(t.zone);
    DecimalReads(t.year);
    ZoneReads(t.zone);
    forall c | c in s ensures !IsWildcard(c) {
      assert c in year || c in clock || c in zone;
    }
  }

  /** A time survives the wildcard encoding exactly when it is in UTC or west of it, and has a four-digit
      year; a zone to the east is written with a '+', which the encoding takes for a wildcard. */
  lemma TimeSurvivesIffSendable(t: Time)
    requires IsTime(t)
    ensures ParseTime(Wild(FormatTime(t))) == if Sendable(t) then Some(t.(nanos := 0)) else None
  {
    var s, year, clock, zone := FormatTime(t), FormatYear(t.year), FormatClock(t), FormatZone(t.zone);
    DecimalReads(t.year);
    ZoneReads(t.zone);
    if Sendable(t) {
      SendableIsPlain(t);
      WildIsPlain(s);
      TimeReads(t);
    } else if t.year >= 10000 {
      assert s[4] == year[4] && year[4] in year;
    } else {
      assert |year| == 4 && s[19] == zone[0];
      assert Wild(s)[19..][0] == '%';
    }
  }

  lemma TimeIsClean(t: Time)
    requires IsTime(t)
    ensures Clean(FormatTime(t))
  {
    var year, clock, zone := FormatYear(t.year), FormatClock(t), FormatZone(t.zone);
    DecimalReads(t.year);
    forall c | c in FormatTime(t) ensures !IsSeparator(c) {
      assert c in year || c in clock || c in zone;
    }
  }

  lemma WholesAsWritten()
    ensures Whole(0) == "0" && Whole(100) == "100" && Whole(-1205) == "-1205"
  {
    assert Decimal(12) == "12" && Decimal(120) == "120" && Decimal(1205) == "1205";
    assert Decimal(10) == "10" && Decimal(100) == "100";
  }

  lemma ClockAsWritten(nanos: nat, zone: int)
    requires -1440 < zone < 1440
    ensures FormatClock(Time(2016, 3, 4, 5, 16, 27, nanos, zone)) == "-03-04T05:16:27"
  {
    assert Pad2(3) == "03" && Pad2(4) == "04" && Pad2(5) == "05" && Pad2(16) == "16" && Pad2(27) == "27";
    assert "-" + "03" + "-" + "04" + "T" + "05" + ":" + "16" + ":" + "27" == "-03-04T05:16:27";
  }

  lemma ZonesAsWritten()
    ensures FormatZone(0) == "Z" && FormatZone(-210) == "-03:30" && FormatZone(60) == "+01:00"
  {
    assert FormatZone(-210) == "-03:30" by {
      assert Pad2(3) == "03" && Pad2(30) == "30";
    }
    assert FormatZone(60) == "+01:00" by {
      assert Pad2(1) == "01" && Pad2(0) == "00";
    }
  }

  /** One time in full, in UTC and elsewhere. */
  lemma TimesAsWritten()
    ensures FormatTime(Time(2016, 3, 4, 5, 16, 27, 0, 0)) == "2016" + "-03-04T05:16:27" + "Z"
    ensures FormatTime(Time(2016, 3, 4, 5, 16, 27, 999, -210)) == "2016" + "-03-04T05:16:27" + "-03:30"
    ensures FormatTime(Time(2016, 3, 4, 5, 16, 27, 0, 60)) == "2016" + "-03-04T05:16:27" + "+01:00"
  {
    assert FormatYear(2016) == "2016" by {
      assert Pad2(20) == "20" && Pad2(16) == "16";
    }
    ClockAsWritten(0, 0);
    ClockAsWritten(999, -210);
    ClockAsWritten(0, 60);
    ZonesAsWritten();
  }
}

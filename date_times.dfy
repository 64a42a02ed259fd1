/** Python `datetime` values as this service uses them: a civil date and time
    of day with an optional UTC offset, the elapsed-time arithmetic behind
    `arrival - departure`, `datetime.fromisoformat` (CPython's grammar for the
    text `isoformat` writes) and `datetime.isoformat` itself. */
module DateTimes {
  import opened Wrappers
  import opened Digits

  datatype Date = Date(year: nat, month: nat, day: nat)

  /** A `datetime` with microsecond 0. `utcOffset` is the offset in seconds
      east of UTC, or None for a naive value. */
  datatype DateTime = DateTime(date: Date, hour: nat, minute: nat, second: nat, utcOffset: Option<int>)

  const SecondsPerDay := 86400

  predicate IsLeap(year: int) {
    year % 4 == 0 && (year % 100 != 0 || year % 400 == 0)
  }

  function DaysInMonth(year: int, month: int): int {
    if month == 2 then (if IsLeap(year) then 29 else 28)
    else if month == 4 || month == 6 || month == 9 || month == 11 then 30
    else 31
  }

  /** Python's MINYEAR..MAXYEAR and the proleptic Gregorian calendar. */
  predicate ValidDate(d: Date) {
    1 <= d.year <= 9999 && 1 <= d.month <= 12 && 1 <= d.day <= DaysInMonth(d.year, d.month)
  }

  /** What the `datetime` and `timezone` constructors accept: an offset must be
      strictly within one day. */
  predicate ValidDateTime(dt: DateTime) {
    && ValidDate(dt.date)
    && dt.hour < 24 && dt.minute < 60 && dt.second < 60
    && (dt.utcOffset.Some? ==> -SecondsPerDay < dt.utcOffset.value < SecondsPerDay)
  }

  function DaysBeforeYear(year: int): int {
    var y := year - 1;
    y * 365 + y / 4 - y / 100 + y / 400
  }

  function DaysBeforeMonth(year: int, month: int): int
    decreases month
  {
    if month <= 1 then 0 else DaysBeforeMonth(year, month - 1) + DaysInMonth(year, month - 1)
  }

  /** `date.toordinal()`: 0001-01-01 is day 1. */
  function Ordinal(d: Date): int {
    DaysBeforeYear(d.year) + DaysBeforeMonth(d.year, d.month) + d.day
  }

  /** Seconds on one time line. Differences of instants are what Python's
      `datetime` subtraction yields: for two aware values the UTC offsets are
      taken out, for two naive values the civil fields are compared as they are. */
  function Instant(dt: DateTime): (t: int)
    ensures dt.hour < 24 && dt.minute < 60 && dt.second < 60 ==>
              Ordinal(dt.date) * SecondsPerDay <= t + dt.utcOffset.GetOr(0) < (Ordinal(dt.date) + 1) * SecondsPerDay
  {
    Ordinal(dt.date) * 86400 + dt.hour * 3600 + dt.minute * 60 + dt.second
      - dt.utcOffset.GetOr(0)
  }

  function NextDay(d: Date): Date {
    if d.day < DaysInMonth(d.year, d.month) then Date(d.year, d.month, d.day + 1)
    else if d.month < 12 then Date(d.year, d.month + 1, 1)
    else Date(d.year + 1, 1, 1)
  }

  lemma DaysInYear(year: int)
    ensures DaysBeforeMonth(year, 13) == if IsLeap(year) then 366 else 365
  {
    assert DaysBeforeMonth(year, 3) == 31 + DaysInMonth(year, 2);
    assert DaysBeforeMonth(year, 7) == DaysBeforeMonth(year, 3) + 122;
    assert DaysBeforeMonth(year, 13) == DaysBeforeMonth(year, 7) + 184;
  }

  lemma DivisibleChain(n: int)
    ensures n % 100 == 0 ==> n % 4 == 0
    ensures n % 400 == 0 ==> n % 100 == 0
  {
    if n % 100 == 0 {
      assert n == 4 * (25 * (n / 100));
    }
    if n % 400 == 0 {
      assert n == 100 * (4 * (n / 400));
    }
  }

  lemma DaysBeforeNextYear(year: int)
    ensures DaysBeforeYear(year + 1) == DaysBeforeYear(year) + (if IsLeap(year) then 366 else 365)
  {
    assert year / 4 == (year - 1) / 4 + (if year % 4 == 0 then 1 else 0);
    assert year / 100 == (year - 1) / 100 + (if year % 100 == 0 then 1 else 0);
    assert year / 400 == (year - 1) / 400 + (if year % 400 == 0 then 1 else 0);
    DivisibleChain(year);
  }


  /** The ordinal counts days: the day after a valid date is one more, across
      month and year ends, leap days included. */
  lemma OrdinalNextDay(d: Date)
    requires ValidDate(d)
    ensures Ordinal(NextDay(d)) == Ordinal(d) + 1
  {
    if d.day < DaysInMonth(d.year, d.month) {
    } else if d.month < 12 {
      assert DaysBeforeMonth(d.year, d.month + 1) == DaysBeforeMonth(d.year, d.month) + DaysInMonth(d.year, d.month);
    } else {
      DaysInYear(d.year);
      DaysBeforeNextYear(d.year);
      assert DaysBeforeMonth(d.year, 13) == DaysBeforeMonth(d.year, 12) + 31;
    }
  }

  /** `date.fromisoformat` on exactly `YYYY-MM-DD`. */
  function ParseDate(s: string): (r: Option<Date>)
    ensures r.Some? ==> ValidDate(r.value)
  {
    if |s| != 10 || s[4] != '-' || s[7] != '-' then None
    else
      var year :- ParseDigits(s[..4]);
      var month :- ParseDigits(s[5..7]);
      var day :- ParseDigits(s[8..]);
      if ValidDate(Date(year, month, day)) then Some(Date(year, month, day)) else None
  }

  datatype Clock = Clock(hour: nat, minute: nat, second: nat)

  /** `HH`, `HH:MM` or `HH:MM:SS`, two digits each; the missing fields are 0. */
  function ParseClock(s: string): Option<Clock> {
    if |s| == 2 then
      var h :- ParseDigits(s);
      Some(Clock(h, 0, 0))
    else if |s| == 5 && s[2] == ':' then
      var h :- ParseDigits(s[..2]);
      var m :- ParseDigits(s[3..]);
      Some(Clock(h, m, 0))
    else if |s| == 8 && s[2] == ':' && s[5] == ':' then
      var h :- ParseDigits(s[..2]);
      var m :- ParseDigits(s[3..5]);
      var sec :- ParseDigits(s[6..]);
      Some(Clock(h, m, sec))
    else None
  }

  /** Where the UTC offset of a time part starts: at its first '+' or '-'. */
  function SignIndex(s: string): (i: nat)
    ensures i <= |s|
    ensures forall k :: 0 <= k < i ==> s[k] != '+' && s[k] != '-'
    ensures i < |s| ==> s[i] == '+' || s[i] == '-'
  {
    if s == [] then 0
    else if s[0] == '+' || s[0] == '-' then 0
    else 1 + SignIndex(s[1..])
  }

  /** A UTC offset `+HH:MM` or `+HH:MM:SS` (or with '-'), in seconds. */
  function ParseOffset(tz: string): Option<int> {
    if |tz| != 6 && |tz| != 9 then None
    else
      var off :- ParseClock(tz[1..]);
      var magnitude := off.hour * 3600 + off.minute * 60 + off.second;
      Some(if tz[0] == '-' then -magnitude else magnitude)
  }

  /** Python 3.7 to 3.10 read the time part as UTF-8 bytes. A character
      below 128 is one byte; any other takes two to four. */
  predicate IsOneByte(x: char) {
    (x as int) < 128
  }

  /** The clock text in front of an offset. Python 3.7 to 3.10 stop reading
      the clock at the offset's sign and ignore one byte left over after its
      last two-digit field, so `HH:MM:` or `HH:MMx` before `+00:00` read as
      `HH:MM` when x is one byte. */
  function ClockBeforeOffset(t: string): string {
    if (|t| == 3 || |t| == 6 || |t| == 9) && IsOneByte(t[|t| - 1]) then t[..|t| - 1] else t
  }

  /** The clock text of a time part without an offset. There the byte after
      the last two-digit field must be the end of the text, and the parser
      takes a NUL byte for that end, so `HH:MM` followed by NUL reads as
      `HH:MM`. */
  function ClockBeforeEnd(t: string): string {
    if (|t| == 3 || |t| == 6 || |t| == 9) && t[|t| - 1] == '\0' then t[..|t| - 1] else t
  }

  /** The text after the date separator: a clock, then an optional offset
      starting at the first sign. */
  function ParseTime(s: string): Option<(Clock, Option<int>)> {
    var i := SignIndex(s);
    if i == |s| then
      var clock :- ParseClock(ClockBeforeEnd(s));
      Some((clock, None))
    else
      var clock :- ParseClock(ClockBeforeOffset(s[..i]));
      var offset :- ParseOffset(s[i..]);
      Some((clock, Some(offset)))
  }

  /** `datetime.fromisoformat`: `YYYY-MM-DD`, alone or followed by any one
      separator character and a time part; None where Python raises ValueError. */
  function FromIsoFormat(s: string): (r: Option<DateTime>)
    ensures r.Some? ==> ValidDateTime(r.value)
    ensures r.Some? ==> |s| >= 10 && ParseDate(s[..10]) == Some(r.value.date)
  {
    if |s| < 10 then None
    else
      var date :- ParseDate(s[..10]);
      if |s| == 10 then Some(DateTime(date, 0, 0, 0, None))
      else
        var time :- ParseTime(s[11..]);
        var dt := DateTime(date, time.0.hour, time.0.minute, time.0.second, time.1);
        if ValidDateTime(dt) then Some(dt) else None
  }

  function DateText(d: Date): (s: string)
    ensures |s| == 10
  {
    Pad(d.year, 4) + "-" + Pad(d.month, 2) + "-" + Pad(d.day, 2)
  }

  /** `HH:MM`, with `:SS` only when there are seconds, for a non-negative offset. */
  function OffsetBody(m: nat): string {
    var hours, rest := m / 3600, m % 3600;
    Pad(hours, 2) + ":" + Pad(rest / 60, 2) + (if rest % 60 != 0 then ":" + Pad(rest % 60, 2) else "")
  }

  /** The offset part `isoformat` writes: a sign, then the offset's magnitude. */
  function OffsetText(offset: int): string {
    if offset < 0 then "-" + OffsetBody(-offset) else "+" + OffsetBody(offset)
  }

  function ClockText(dt: DateTime): string {
    Pad(dt.hour, 2) + ":" + Pad(dt.minute, 2) + ":" + Pad(dt.second, 2)
  }

  function ZoneText(offset: Option<int>): string {
    match offset
    case None => ""
    case Some(o) => OffsetText(o)
  }

  /** `datetime.isoformat()` for a value without microseconds. */
  function IsoFormat(dt: DateTime): string {
    DateText(dt.date) + "T" + (ClockText(dt) + ZoneText(dt.utcOffset))
  }

  lemma ParseDateText(d: Date)
    requires ValidDate(d)
    ensures ParseDate(DateText(d)) == Some(d)
  {
    var s := DateText(d);
    assert s[..4] == Pad(d.year, 4);
    assert s[5..7] == Pad(d.month, 2);
    assert s[8..] == Pad(d.day, 2);
    ValuePad(d.year, 4);
    ValuePad(d.month, 2);
    ValuePad(d.day, 2);
  }

  lemma ParseClockText(h: nat, m: nat, sec: nat)
    requires h < 100 && m < 100 && sec < 100
    ensures ParseClock(Pad(h, 2) + ":" + Pad(m, 2)) == Some(Clock(h, m, 0))
    ensures ParseClock(Pad(h, 2) + ":" + Pad(m, 2) + ":" + Pad(sec, 2)) == Some(Clock(h, m, sec))
  {
    ValuePad(h, 2);
    ValuePad(m, 2);
    ValuePad(sec, 2);
    var s5 := Pad(h, 2) + ":" + Pad(m, 2);
    assert s5[..2] == Pad(h, 2) && s5[3..] == Pad(m, 2);
    var s8 := s5 + ":" + Pad(sec, 2);
    assert s8[..2] == Pad(h, 2) && s8[3..5] == Pad(m, 2) && s8[6..] == Pad(sec, 2);
  }

  /** A prefix without signs moves the offset start by its length. */
  lemma {:induction false} SignIndexAppend(a: string, b: string)
    requires forall k :: 0 <= k < |a| ==> a[k] != '+' && a[k] != '-'
    ensures SignIndex(a + b) == |a| + SignIndex(b)
  {
    if a != [] {
      var ab := a + b;
      assert ab[0] == a[0] && a[0] != '+' && a[0] != '-';
      assert ab[1..] == a[1..] + b;
      SignIndexAppend(a[1..], b);
      assert SignIndex(ab) == 1 + SignIndex(ab[1..]);
    } else {
      assert a + b == b;
    }
  }

  lemma OffsetArith(m: nat)
    requires m < SecondsPerDay
    ensures m / 3600 < 24 && m % 3600 / 60 < 60 && m % 3600 % 60 < 60
    ensures (m / 3600) * 3600 + (m % 3600 / 60) * 60 + m % 3600 % 60 == m
  {
    var hours, rest := m / 3600, m % 3600;
    assert m == hours * 3600 + rest && rest < 3600;
    assert rest == (rest / 60) * 60 + rest % 60;
  }

  lemma ParseOffsetBody(m: nat)
    requires m < SecondsPerDay
    ensures |OffsetBody(m)| == 5 || |OffsetBody(m)| == 8
    ensures ParseClock(OffsetBody(m)) == Some(Clock(m / 3600, m % 3600 / 60, m % 3600 % 60))
  {
    var hours, minutes, seconds := m / 3600, m % 3600 / 60, m % 3600 % 60;
    OffsetArith(m);
    ParseClockText(hours, minutes, seconds);
    if seconds == 0 {
      assert OffsetBody(m) == Pad(hours, 2) + ":" + Pad(minutes, 2);
    } else {
      assert OffsetBody(m) == Pad(hours, 2) + ":" + Pad(minutes, 2) + ":" + Pad(seconds, 2);
    }
  }

  /** The offset `isoformat` writes reads back as the same number of seconds. */
  lemma ParseOffsetText(o: int)
    requires -SecondsPerDay < o < SecondsPerDay
    ensures ParseOffset(OffsetText(o)) == Some(o)
  {
    var m: nat := if o < 0 then -o else o;
    var body := OffsetBody(m);
    ParseOffsetBody(m);
    OffsetArith(m);
    var sign := if o < 0 then '-' else '+';
    var tz := [sign] + body;
    assert OffsetText(o) == tz;
    assert tz[0] == sign && tz[1..] == body;
  }


  /** A time part is its clock text followed by its offset text, if any. */
  lemma ParseTimeParts(clock: string, c: Clock, tz: string, offset: Option<int>)
    requires forall k :: 0 <= k < |clock| ==> clock[k] != '+' && clock[k] != '-'
    requires ParseClock(clock) == Some(c)
    requires offset.None? ==> tz == ""
    requires offset.Some? ==> -SecondsPerDay < offset.value < SecondsPerDay && tz == OffsetText(offset.value)
    ensures ParseTime(clock + tz) == Some((c, offset))
  {
    SignIndexAppend(clock, tz);
    var s := clock + tz;
    assert s[..|clock|] == clock;
    if offset.Some? {
      ParseOffsetText(offset.value);
      assert s[|clock|..] == tz;
      assert ClockBeforeOffset(clock) == clock;
    } else {
      assert s == clock;
      assert ClockBeforeEnd(clock) == clock;
    }
  }

  /** One byte between a clock and its offset is ignored. */
  lemma StrayCharBeforeOffset(clock: string, x: char, tz: string)
    requires forall k :: 0 <= k < |clock| ==> clock[k] != '+' && clock[k] != '-'
    requires ParseClock(clock).Some? && x != '+' && x != '-' && IsOneByte(x)
    requires |tz| > 0 && (tz[0] == '+' || tz[0] == '-')
    ensures ParseTime(clock + [x] + tz) == ParseTime(clock + tz)
  {
    var t := clock + [x];
    SignIndexAppend(clock, tz);
    SignIndexAppend(t, tz);
    var s, s' := t + tz, clock + tz;
    assert s[..|t|] == t && s[|t|..] == tz;
    assert s'[..|clock|] == clock && s'[|clock|..] == tz;
    assert ClockBeforeOffset(t) == clock;
    assert ClockBeforeOffset(clock) == clock;
  }

  /** A time part without an offset is a clock text with no sign in it,
      followed by at most one NUL. */
  lemma NaiveTimePart(t: string, c: Clock)
    requires ParseTime(t) == Some((c, None))
    ensures forall k :: 0 <= k < |t| ==> t[k] != '+' && t[k] != '-'
    ensures ParseClock(ClockBeforeEnd(t)) == Some(c)
    ensures |t| in {2, 3, 5, 6, 8, 9}
  {
  }

  /** A character of more than one byte between a time and its offset is
      refused. */
  lemma WideCharBeforeOffset(t: string, c: Clock, x: char, tz: string)
    requires ParseTime(t) == Some((c, None)) && !IsOneByte(x)
    requires |tz| > 0 && (tz[0] == '+' || tz[0] == '-')
    ensures ParseTime(t + [x] + tz) == None
  {
    NaiveTimePart(t, c);
    var t' := t + [x];
    SignIndexAppend(t', tz);
    assert (t' + tz)[..|t'|] == t';
    assert ClockBeforeOffset(t') == t';
  }

  /** A NUL after a clock time without an offset is ignored. */
  lemma NulAfterClock(clock: string, c: Clock)
    requires forall k :: 0 <= k < |clock| ==> clock[k] != '+' && clock[k] != '-'
    requires ParseClock(clock) == Some(c)
    ensures ParseTime(clock + "\0") == Some((c, None))
  {
    var t := clock + "\0";
    SignIndexAppend(t, []);
    assert t + [] == t;
    assert ClockBeforeEnd(t) == clock;
  }

  /** Any other character after a time without an offset is refused. */
  lemma OtherCharAfterTime(t: string, c: Clock, x: char)
    requires ParseTime(t) == Some((c, None)) && x != '\0'
    ensures ParseTime(t + [x]) == None
  {
    NaiveTimePart(t, c);
    SignIndexAppend(t, [x]);
    var t' := t + [x];
    if x == '+' || x == '-' {
      assert t'[|t|..] == [x];
    } else {
      assert SignIndex([x]) == 1;
      assert ClockBeforeEnd(t') == t';
    }
  }

  /** The date and time parts of `date + [sep] + time`. */
  lemma SplitAtSeparator(date: string, sep: char, time: string)
    requires |date| == 10
    ensures (date + [sep] + time)[..10] == date
    ensures (date + [sep] + time)[11..] == time
  {
    assert (date + [sep] + time)[11..] == (date + [sep]) [11..] + time;
  }

  /** A time part without an offset, followed by "+00:00", reads as the same
      clock at offset zero. */
  lemma ParseTimeUtc(t: string, c: Clock)
    requires ParseTime(t) == Some((c, None))
    ensures ParseTime(t + "+00:00") == Some((c, Some(0)))
  {
    NaiveTimePart(t, c);
    var clock := ClockBeforeEnd(t);
    assert Pad(0, 2) == "00";
    ParseTimeParts(clock, c, "+00:00", Some(0));
    if t != clock {
      assert t == clock + ['\0'];
      StrayCharBeforeOffset(clock, '\0', "+00:00");
    }
  }

  /** Appending "+00:00" to text that reads as a naive value gives the same
      civil time, aware at offset zero. */
  lemma AppendUtcOffset(s: string, dt: DateTime)
    requires |s| > 10 && FromIsoFormat(s) == Some(dt) && dt.utcOffset.None?
    ensures FromIsoFormat(s + "+00:00") == Some(dt.(utcOffset := Some(0)))
  {
    var date, t := s[..10], s[11..];
    assert s == date + [s[10]] + t;
    SplitAtSeparator(date, s[10], t + "+00:00");
    assert s + "+00:00" == date + [s[10]] + (t + "+00:00");
    var c := Clock(dt.hour, dt.minute, dt.second);
    ParseTimeUtc(t, c);
  }


  /** Likewise with one byte that is not a sign between the time and
      "+00:00", when the text does not already end in NUL. */
  lemma AppendStrayAndUtcOffset(s: string, x: char, dt: DateTime)
    requires |s| > 10 && FromIsoFormat(s) == Some(dt) && dt.utcOffset.None?
    requires s[|s| - 1] != '\0'
    requires x != '+' && x != '-' && IsOneByte(x)
    ensures FromIsoFormat(s + [x] + "+00:00") == Some(dt.(utcOffset := Some(0)))
  {
    var date, t := s[..10], s[11..];
    assert s == date + [s[10]] + t;
    SplitAtSeparator(date, s[10], t + [x] + "+00:00");
    assert s + [x] + "+00:00" == date + [s[10]] + (t + [x] + "+00:00");
    var c := Clock(dt.hour, dt.minute, dt.second);
    NaiveTimePart(t, c);
    assert ClockBeforeEnd(t) == t;
    StrayCharBeforeOffset(t, x, "+00:00");
    ParseTimeUtc(t, c);
  }

  /** A character of more than one byte there makes the text invalid. */
  lemma AppendWideAndUtcOffset(s: string, x: char, dt: DateTime)
    requires |s| > 10 && FromIsoFormat(s) == Some(dt) && dt.utcOffset.None?
    requires !IsOneByte(x)
    ensures FromIsoFormat(s + [x] + "+00:00") == None
  {
    var date, t := s[..10], s[11..];
    assert s == date + [s[10]] + t;
    SplitAtSeparator(date, s[10], t + [x] + "+00:00");
    assert s + [x] + "+00:00" == date + [s[10]] + (t + [x] + "+00:00");
    WideCharBeforeOffset(t, Clock(dt.hour, dt.minute, dt.second), x, "+00:00");
  }

  /** A NUL after an accepted naive text that does not already end in one
      leaves its value unchanged. */
  lemma AppendNul(s: string, dt: DateTime)
    requires |s| > 10 && FromIsoFormat(s) == Some(dt) && dt.utcOffset.None?
    requires s[|s| - 1] != '\0'
    ensures FromIsoFormat(s + "\0") == Some(dt)
  {
    var date, t := s[..10], s[11..];
    assert s == date + [s[10]] + t;
    SplitAtSeparator(date, s[10], t + "\0");
    assert s + "\0" == date + [s[10]] + (t + "\0");
    var c := Clock(dt.hour, dt.minute, dt.second);
    NaiveTimePart(t, c);
    assert ClockBeforeEnd(t) == t;
    NulAfterClock(t, c);
  }

  /** `fromisoformat` reads back what `isoformat` writes. */
  lemma IsoFormatRoundTrip(dt: DateTime)
    requires ValidDateTime(dt)
    ensures FromIsoFormat(IsoFormat(dt)) == Some(dt)
  {
    var date, clock, tz := DateText(dt.date), ClockText(dt), ZoneText(dt.utcOffset);
    SplitAtSeparator(date, 'T', clock + tz);
    ParseDateText(dt.date);
    ParseClockText(dt.hour, dt.minute, dt.second);
    assert forall k :: 0 <= k < |clock| ==> clock[k] == ':' || IsDigit(clock[k]);
    ParseTimeParts(clock, Clock(dt.hour, dt.minute, dt.second), tz, dt.utcOffset);
  }

}

// Weekly schedules: which instants they allow, when the next window starts, when the
// active one ends (internal/config/schedule.go).

module Schedules {
  import opened Wrappers
  import opened Text

  // ----- instants -----

  /** Nanoseconds of local time in one fixed-offset zone; day 0 is Thursday 1970-01-01. */
  type Instant = int

  const MINUTE: int := 60_000_000_000

  const WEEKDAYS: seq<string> := ["mon", "tue", "wed", "thu", "fri", "sat", "sun"]

  function DayOf(t: Instant): int { t / 86_400_000_000_000 }

  function MinuteOf(t: Instant): int { t % 86_400_000_000_000 / 60_000_000_000 }

  /** The first instant of a minute of a day. */
  function At(day: int, minute: int): Instant {
    day * 86_400_000_000_000 + minute * 60_000_000_000
  }

  function DayName(day: int): string {
    WEEKDAYS[(day + 3) % 7]
  }

  lemma AtParts(day: int, minute: int)
    requires 0 <= minute < 1440
    ensures DayOf(At(day, minute)) == day && MinuteOf(At(day, minute)) == minute
  {
  }

  /** The first instant of a minute is at or before an instant of that day exactly when the
      minute is. */
  lemma AtOrder(t: Instant, minute: int)
    requires 0 <= minute < 1440
    ensures At(DayOf(t), minute) <= t <==> minute <= MinuteOf(t)
    ensures 0 <= MinuteOf(t) < 1440
  {
  }

  // ----- times of day -----

  /** "15:04": one or two hour digits below 24, a colon, two minute digits below 60. */
  function ParseTime(s: string): Option<int> {
    var n := if s == [] || !IsDigit(s[0]) then 0 else if |s| == 1 || !IsDigit(s[1]) then 1 else 2;
    var rest := s[n..];
    if n == 0 || |rest| != 3 || rest[0] != ':' || !AllDigits(rest[1..]) then None
    else
      var hour := DecimalValue(s[..n]);
      var minute := DecimalValue(rest[1..]);
      if hour < 24 && minute < 60 then Some(60 * hour + minute) else None
  }

  function DigitChar(d: int): char
    requires 0 <= d < 10
  {
    '0' + d as char
  }

  /** A minute of the day written "HH:MM". */
  function ClockText(m: int): string
    requires 0 <= m < 1440
  {
    [DigitChar(m / 600), DigitChar(m / 60 % 10), ':', DigitChar(m % 60 / 10), DigitChar(m % 10)]
  }

  lemma TwoDigits(s: string)
    requires AllDigits(s)
    ensures |s| == 1 ==> DecimalValue(s) == DigitValue(s[0])
    ensures |s| == 2 ==> DecimalValue(s) == 10 * DigitValue(s[0]) + DigitValue(s[1])
  {
  }

  /** The digits of a text that parses, and its value. */
  lemma ParseTimeShape(s: string, n: int)
    requires 1 <= n <= 2 && |s| == n + 3 && s[n] == ':'
    requires IsDigit(s[0]) && IsDigit(s[n - 1]) && IsDigit(s[n + 1]) && IsDigit(s[n + 2])
    ensures var hour := if n == 1 then DigitValue(s[0]) else 10 * DigitValue(s[0]) + DigitValue(s[1]);
            var minute := 10 * DigitValue(s[n + 1]) + DigitValue(s[n + 2]);
            ParseTime(s) == if hour < 24 && minute < 60 then Some(60 * hour + minute) else None
  {
    var rest := s[n..];
    assert AllDigits(rest[1..]) && AllDigits(s[..n]);
    TwoDigits(s[..n]);
    TwoDigits(rest[1..]);
  }

  lemma ParsedShape(s: string) returns (n: int, hour: int, minute: int)
    requires ParseTime(s).Some?
    ensures 1 <= n <= 2 && |s| == n + 3 && s[n] == ':'
    ensures IsDigit(s[0]) && IsDigit(s[n - 1]) && IsDigit(s[n + 1]) && IsDigit(s[n + 2])
    ensures hour == if n == 1 then DigitValue(s[0]) else 10 * DigitValue(s[0]) + DigitValue(s[1])
    ensures minute == 10 * DigitValue(s[n + 1]) + DigitValue(s[n + 2])
    ensures ParseTime(s) == Some(60 * hour + minute) && hour < 24 && minute < 60
  {
    n := if |s| == 1 || !IsDigit(s[1]) then 1 else 2;
    assert s[n..][0] == s[n] && s[n..][1..] == s[n + 1..];
    assert s[n + 1..][0] == s[n + 1] && s[n + 1..][1] == s[n + 2];
    hour := if n == 1 then DigitValue(s[0]) else 10 * DigitValue(s[0]) + DigitValue(s[1]);
    minute := 10 * DigitValue(s[n + 1]) + DigitValue(s[n + 2]);
    ParseTimeShape(s, n);
  }

  lemma ParsedIsClockText(s: string)
    requires ParseTime(s).Some?
    ensures var m := ParseTime(s).value;
            0 <= m < 1440 && (s == ClockText(m) || (m < 600 && s == ClockText(m)[1..]))
  {
    var n, hour, minute := ParsedShape(s);
    if n == 1 {
      WritesDigits('0', s[0], s[2], s[3], hour, minute);
      assert s == ClockText(60 * hour + minute)[1..];
    } else {
      WritesDigits(s[0], s[1], s[3], s[4], hour, minute);
      assert s == ClockText(60 * hour + minute);
    }
  }

  lemma WritesDigits(a: char, b: char, c: char, d: char, hour: int, minute: int)
    requires IsDigit(a) && IsDigit(b) && IsDigit(c) && IsDigit(d)
    requires hour == 10 * DigitValue(a) + DigitValue(b) < 24 && minute == 10 * DigitValue(c) + DigitValue(d) < 60
    ensures var m := 60 * hour + minute;
            0 <= m < 1440 && ClockText(m) == [a, b, ':', c, d] && (a == '0' ==> m < 600)
  {
    var m := 60 * hour + minute;
    assert m / 60 == hour && m % 60 == minute;
    ClockDigits(m);
  }

  lemma ClockDigits(m: int)
    requires 0 <= m < 1440
    ensures m / 600 == m / 60 / 10 && m % 10 == m % 60 % 10
    ensures forall d :: 0 <= d < 10 ==> IsDigit(DigitChar(d)) && DigitValue(DigitChar(d)) == d
  {
  }

  lemma ClockTextParses(m: int)
    requires 0 <= m < 1440
    ensures ParseTime(ClockText(m)) == Some(m)
    ensures m < 600 ==> ParseTime(ClockText(m)[1..]) == Some(m)
  {
    ClockDigits(m);
    ParseTimeShape(ClockText(m), 2);
    if m < 600 {
      ParseTimeShape(ClockText(m)[1..], 1);
    }
  }

  /** Exactly the 24-hour clock readings parse, with or without a leading zero. */
  lemma ParseTimeReadsClock(s: string, m: int)
    ensures ParseTime(s) == Some(m) <==>
            0 <= m < 1440 && (s == ClockText(m) || (m < 600 && s == ClockText(m)[1..]))
  {
    if ParseTime(s).Some? {
      ParsedIsClockText(s);
    }
    if 0 <= m < 1440 {
      ClockTextParses(m);
    }
  }

  lemma ParseTimeRange(s: string)
    ensures ParseTime(s).Some? ==> 0 <= ParseTime(s).value < 1440
  {
  }

  // ----- schedules -----

  datatype Schedule = Schedule(days: seq<string>, from: string, to: string)

  predicate HasDay(days: seq<string>, day: string) {
    exists i :: 0 <= i < |days| && ToLower(days[i]) == day
  }

  method ContainsDay(days: seq<string>, day: string) returns (found: bool)
    ensures found <==> HasDay(days, day)
  {
    for k := 0 to |days|
      invariant forall i :: 0 <= i < k ==> ToLower(days[i]) != day
    {
      if ToLower(days[k]) == day {
        return true;
      }
    }
    return false;
  }

  /** The schedule applies on a day. */
  predicate On(s: Schedule, day: int) {
    HasDay(s.days, DayName(day))
  }

  /** Open at a minute of a day. */
  predicate OpenAt(s: Schedule, day: int, minute: int) {
    && On(s, day)
    && ParseTime(s.from).Some? && ParseTime(s.to).Some?
    && ParseTime(s.from).value <= minute < ParseTime(s.to).value
  }

  predicate Active(s: Schedule, t: Instant) {
    OpenAt(s, DayOf(t), MinuteOf(t))
  }

  predicate InSchedule(schedules: seq<Schedule>, t: Instant) {
    exists i :: 0 <= i < |schedules| && Active(schedules[i], t)
  }

  /** Early-return scan of the list. */
  method IsInSchedule(schedules: seq<Schedule>, now: Instant) returns (inside: bool)
    ensures inside <==> InSchedule(schedules, now)
  {
    var day := ToLower(DayName(DayOf(now)));
    LowerDayNames(DayOf(now));
    var nowMinutes := MinuteOf(now);
    for k := 0 to |schedules|
      invariant forall i :: 0 <= i < k ==> !Active(schedules[i], now)
    {
      var s := schedules[k];
      var applies := ContainsDay(s.days, day);
      if !applies { continue; }
      var from := ParseTime(s.from);
      if from.None? { continue; }
      var to := ParseTime(s.to);
      if to.None? { continue; }
      if from.value <= nowMinutes < to.value {
        return true;
      }
    }
    return false;
  }

  lemma LowerDayNames(day: int)
    ensures ToLower(DayName(day)) == DayName(day)
  {
  }

  // ----- the next start -----

  /** The schedule has a day that exists and a start that parses. */
  predicate Usable(s: Schedule) {
    && ParseTime(s.from).Some?
    && exists k :: 0 <= k < 7 && HasDay(s.days, WEEKDAYS[k])
  }

  predicate StartsAt(s: Schedule, t: Instant) {
    && On(s, DayOf(t))
    && ParseTime(s.from).Some?
    && t == At(DayOf(t), ParseTime(s.from).value)
  }

  predicate IsStart(schedules: seq<Schedule>, t: Instant) {
    exists i :: 0 <= i < |schedules| && StartsAt(schedules[i], t)
  }

  // ----- the weekdays by name -----

  /** The text in small letters, in capitals, or in both. */
  predicate AnyCase(s: string, text: string) {
    |s| == |text| && forall i :: 0 <= i < |s| ==> s[i] == text[i] || s[i] as int == text[i] as int - 32
  }

  lemma LowerAnyCase(s: string, text: string)
    requires AnyCase(s, text) && forall i :: 0 <= i < |text| ==> 'a' <= text[i] <= 'z'
    ensures ToLower(s) == text
  {
  }

  /** "mon" is the day four days after 1970-01-01, and so on through the week. */
  lemma DayIsNamed(k: int, text: string, day: int)
    requires 0 <= k < 7 && text == ["mon", "tue", "wed", "thu", "fri", "sat", "sun"][k]
    ensures DayName(day) == text <==> day % 7 == (k + 4) % 7
    ensures forall i :: 0 <= i < |text| ==> 'a' <= text[i] <= 'z'
  {
    assert WEEKDAYS[k] == text;
    assert (day + 3) % 7 == k <==> day % 7 == (k + 4) % 7;
    DaysDiffer((day + 3) % 7, k);
  }

  lemma DaysDiffer(j: int, k: int)
    requires 0 <= j < 7 && 0 <= k < 7
    ensures WEEKDAYS[j] == WEEKDAYS[k] ==> j == k
  {
    if WEEKDAYS[j] == WEEKDAYS[k] {
      assert WEEKDAYS[j][0] == WEEKDAYS[k][0] && WEEKDAYS[j][1] == WEEKDAYS[k][1];
    }
  }

  /** A schedule for one weekday, by its name in any case: when it is in force and when it starts. */
  lemma WeekdayExact(k: int, text: string, s: Schedule, t: Instant)
    requires 0 <= k < 7 && text == ["mon", "tue", "wed", "thu", "fri", "sat", "sun"][k]
    requires |s.days| == 1 && AnyCase(s.days[0], text) && ParseTime(s.from).Some? && ParseTime(s.to).Some?
    ensures var from, to := ParseTime(s.from).value, ParseTime(s.to).value;
            InSchedule([s], t) <==> DayOf(t) % 7 == (k + 4) % 7 && from <= MinuteOf(t) < to
    ensures var from := ParseTime(s.from).value;
            IsStart([s], t) <==> DayOf(t) % 7 == (k + 4) % 7 && t == At(DayOf(t), from)
  {
    DayIsNamed(k, text, DayOf(t));
    LowerAnyCase(s.days[0], text);
    assert On(s, DayOf(t)) <==> ToLower(s.days[0]) == DayName(DayOf(t));
    assert [s][0] == s;
    assert InSchedule([s], t) <==> Active([s][0], t);
    assert IsStart([s], t) <==> StartsAt([s][0], t);
  }

  /** The earliest start after `now`, over the whole future. */
  ghost predicate IsNextStart(schedules: seq<Schedule>, now: Instant, t: Instant) {
    && now < t && IsStart(schedules, t)
    && forall u :: now < u && IsStart(schedules, u) ==> t <= u
  }

  predicate AnyUsable(schedules: seq<Schedule>) {
    exists i :: 0 <= i < |schedules| && Usable(schedules[i])
  }

  /** A usable schedule starts again within a week. */
  lemma UsableStarts(s: Schedule, now: Instant) returns (t: Instant)
    requires Usable(s)
    ensures now < t && StartsAt(s, t)
  {
    var k :| 0 <= k < 7 && HasDay(s.days, WEEKDAYS[k]);
    var from := ParseTime(s.from).value;
    ParseTimeRange(s.from);
    var day := DayOf(now) + 1 + (k - DayOf(now) - 4) % 7;
    assert (day + 3) % 7 == k;
    t := At(day, from);
    AtParts(day, from);
  }

  lemma LeastStart(schedules: seq<Schedule>, now: Instant, start: Instant)
    requires now < start && IsStart(schedules, start)
    ensures exists t :: IsNextStart(schedules, now, t)
    decreases start - now
  {
    if earlier :| now < earlier < start && IsStart(schedules, earlier) {
      LeastStart(schedules, now, earlier);
    } else {
      assert IsNextStart(schedules, now, start);
    }
  }

  lemma NextStartExists(schedules: seq<Schedule>, now: Instant)
    requires AnyUsable(schedules)
    ensures exists t :: IsNextStart(schedules, now, t)
  {
    var i :| 0 <= i < |schedules| && Usable(schedules[i]);
    var t := UsableStarts(schedules[i], now);
    LeastStart(schedules, now, t);
  }

  ghost function NextStart(schedules: seq<Schedule>, now: Instant): Option<Instant> {
    if AnyUsable(schedules) then
      NextStartExists(schedules, now);
      var t :| IsNextStart(schedules, now, t);
      Some(t)
    else None
  }

  /** What the search considers for one schedule and one of the next days. */
  predicate Considered(s: Schedule, now: Instant, offset: int) {
    && On(s, DayOf(now) + offset)
    && ParseTime(s.from).Some?
    && !(offset == 0 && ParseTime(s.from).value <= MinuteOf(now))
  }

  /** Any later start is matched, or beaten, by one the eight-day search considers. */
  lemma EightDaysSuffice(s: Schedule, now: Instant, t: Instant) returns (offset: int)
    requires now < t && StartsAt(s, t)
    ensures 0 <= offset < 8 && Considered(s, now, offset)
    ensures At(DayOf(now) + offset, ParseTime(s.from).value) <= t
  {
    ParseTimeRange(s.from);
    offset := SameWeekdaySoon(now, DayOf(t), ParseTime(s.from).value);
  }

  /** A minute of a later day recurs on the same weekday within eight days. */
  lemma SameWeekdaySoon(now: Instant, day: int, minute: int) returns (offset: int)
    requires 0 <= minute < 1440 && now < At(day, minute)
    ensures 0 <= offset < 8 && DayName(DayOf(now) + offset) == DayName(day)
    ensures now < At(DayOf(now) + offset, minute) <= At(day, minute)
    ensures offset == 0 ==> MinuteOf(now) < minute
  {
    var today := DayOf(now);
    AtOrder(now, minute);
    offset := (day - today) % 7;
    if offset == 0 && minute <= MinuteOf(now) {
      offset := 7;
    }
    WeekdayRecurs(today, day, offset);
    AtSteps(today, minute, offset);
    AtSteps(today, minute, day - today);
  }

  /** Days a whole number of weeks apart have the same name. */
  lemma WeekdayRecurs(today: int, day: int, offset: int)
    requires (day - today - offset) % 7 == 0
    ensures DayName(today + offset) == DayName(day)
  {
    assert (today + offset + 3) % 7 == (day + 3) % 7;
  }

  lemma AtSteps(day: int, minute: int, offset: int)
    ensures At(day + offset, minute) == At(day, minute) + offset * 86_400_000_000_000
  {
  }

  lemma ConsideredIsStart(s: Schedule, now: Instant, offset: int)
    requires 0 <= offset && Considered(s, now, offset)
    ensures now < At(DayOf(now) + offset, ParseTime(s.from).value)
    ensures StartsAt(s, At(DayOf(now) + offset, ParseTime(s.from).value))
  {
  }

  /** `best` is at or before everything the search considers on a day, or on the first days. */
  ghost predicate BeatsDay(schedules: seq<Schedule>, now: Instant, d: int, best: Option<Instant>) {
    forall i :: 0 <= i < |schedules| && Considered(schedules[i], now, d)
      ==> best.Some? && best.value <= At(DayOf(now) + d, ParseTime(schedules[i].from).value)
  }

  ghost predicate BeatsConsidered(schedules: seq<Schedule>, now: Instant, days: int, best: Option<Instant>) {
    forall d :: 0 <= d < days ==> BeatsDay(schedules, now, d, best)
  }

  lemma BeatsOneMore(schedules: seq<Schedule>, now: Instant, days: int, found: Option<Instant>, best: Option<Instant>)
    requires BeatsConsidered(schedules, now, days, found) && BeatsDay(schedules, now, days, best)
    requires found.Some? ==> best.Some? && best.value <= found.value
    ensures BeatsConsidered(schedules, now, days + 1, best)
  {
    forall d | 0 <= d < days + 1 ensures BeatsDay(schedules, now, d, best) {
      BeatsOneDay(schedules, now, days, d, found, best);
    }
  }

  lemma BeatsOneDay(schedules: seq<Schedule>, now: Instant, days: int, d: int, found: Option<Instant>,
                    best: Option<Instant>)
    requires BeatsConsidered(schedules, now, days, found) && BeatsDay(schedules, now, days, best)
    requires found.Some? ==> best.Some? && best.value <= found.value
    requires 0 <= d <= days
    ensures BeatsDay(schedules, now, d, best)
  {
    if d < days {
      assert BeatsDay(schedules, now, d, found);
      BeatsDayLower(schedules, now, d, found, best);
    }
  }

  lemma BeatsDayLower(schedules: seq<Schedule>, now: Instant, d: int, found: Option<Instant>, best: Option<Instant>)
    requires BeatsDay(schedules, now, d, found)
    requires found.Some? ==> best.Some? && best.value <= found.value
    ensures BeatsDay(schedules, now, d, best)
  {
  }

  lemma BeatsEveryStart(schedules: seq<Schedule>, now: Instant, best: Option<Instant>, t: Instant)
    requires BeatsConsidered(schedules, now, 8, best)
    requires now < t && IsStart(schedules, t)
    ensures best.Some? && best.value <= t
  {
    var i :| 0 <= i < |schedules| && StartsAt(schedules[i], t);
    var d := EightDaysSuffice(schedules[i], now, t);
    assert BeatsDay(schedules, now, d, best);
  }

  lemma NextStartIs(schedules: seq<Schedule>, now: Instant, t: Instant)
    requires IsNextStart(schedules, now, t)
    ensures NextStart(schedules, now) == Some(t)
  {
  }

  lemma NextStartMeaning(schedules: seq<Schedule>, now: Instant)
    ensures NextStart(schedules, now).Some? <==> AnyUsable(schedules)
    ensures NextStart(schedules, now).Some? ==> IsNextStart(schedules, now, NextStart(schedules, now).value)
  {
  }

  lemma SearchIsComplete(schedules: seq<Schedule>, now: Instant, best: Option<Instant>)
    requires best.Some? ==> now < best.value && IsStart(schedules, best.value)
    requires BeatsConsidered(schedules, now, 8, best)
    ensures best == NextStart(schedules, now)
  {
    forall u | now < u && IsStart(schedules, u) ensures best.Some? && best.value <= u {
      BeatsEveryStart(schedules, now, best, u);
    }
    if best.Some? {
      NextStartIs(schedules, now, best.value);
    } else if AnyUsable(schedules) {
      NextStartExists(schedules, now);
    }
  }

  /** Searches today and the seven days after it; the answer is right over all time. */
  method NextScheduleStart(schedules: seq<Schedule>, now: Instant) returns (best: Option<Instant>)
    ensures best == NextStart(schedules, now)
    ensures best.Some? ==> IsNextStart(schedules, now, best.value)
    ensures best.None? <==> !AnyUsable(schedules)
  {
    NextStartMeaning(schedules, now);
    if |schedules| == 0 {
      return None;
    }
    best := None;
    var dayOffset := 0;
    while dayOffset < 8
      invariant 0 <= dayOffset <= 8
      invariant best.Some? ==> now < best.value && IsStart(schedules, best.value)
      invariant BeatsConsidered(schedules, now, dayOffset, best)
    {
      ghost var found := best;
      best := SearchDay(schedules, now, dayOffset, best);
      BeatsOneMore(schedules, now, dayOffset, found, best);
      dayOffset := dayOffset + 1;
    }
    SearchIsComplete(schedules, now, best);
  }

  /** The inner loop: one day's schedules. */
  method SearchDay(schedules: seq<Schedule>, now: Instant, dayOffset: int, found: Option<Instant>)
    returns (best: Option<Instant>)
    requires 0 <= dayOffset
    requires found.Some? ==> now < found.value && IsStart(schedules, found.value)
    ensures best.Some? ==> now < best.value && IsStart(schedules, best.value)
    ensures found.Some? ==> best.Some? && best.value <= found.value
    ensures BeatsDay(schedules, now, dayOffset, best)
  {
    best := found;
    var candidate := DayOf(now) + dayOffset;
    var day := ToLower(DayName(candidate));
    LowerDayNames(candidate);
    for k := 0 to |schedules|
      invariant best.Some? ==> now < best.value && IsStart(schedules, best.value)
      invariant found.Some? ==> best.Some? && best.value <= found.value
      invariant forall i :: 0 <= i < k && Considered(schedules[i], now, dayOffset)
                  ==> best.Some? && best.value <= At(candidate, ParseTime(schedules[i].from).value)
    {
      var s := schedules[k];
      var applies := ContainsDay(s.days, day);
      if !applies { continue; }
      var from := ParseTime(s.from);
      if from.None? { continue; }
      if dayOffset == 0 && from.value <= MinuteOf(now) { continue; }
      var t := At(candidate, from.value);
      ConsideredIsStart(s, now, dayOffset);
      if best.None? || t < best.value {
        best := Some(t);
      }
    }
  }

  // ----- the end of the active window -----

  /** The end, today, of the first listed schedule that is active. */
  function WindowEnd(schedules: seq<Schedule>, now: Instant): Option<Instant> {
    if schedules == [] then None
    else if Active(schedules[0], now) then Some(At(DayOf(now), ParseTime(schedules[0].to).value))
    else WindowEnd(schedules[1..], now)
  }

  method ScheduleEndTime(schedules: seq<Schedule>, now: Instant) returns (end: Option<Instant>)
    ensures end == WindowEnd(schedules, now)
    ensures end.Some? <==> InSchedule(schedules, now)
    ensures end.Some? ==> now < end.value && forall t :: now <= t < end.value ==> InSchedule(schedules, t)
  {
    WindowEndIsInSchedule(schedules, now);
    var day := ToLower(DayName(DayOf(now)));
    LowerDayNames(DayOf(now));
    var nowMinutes := MinuteOf(now);
    for k := 0 to |schedules|
      invariant WindowEnd(schedules, now) == WindowEnd(schedules[k..], now)
    {
      var s := schedules[k];
      assert schedules[k..][1..] == schedules[k + 1..];
      var applies := ContainsDay(s.days, day);
      if !applies { continue; }
      var from := ParseTime(s.from);
      if from.None? { continue; }
      var to := ParseTime(s.to);
      if to.None? { continue; }
      if from.value <= nowMinutes < to.value {
        return Some(At(DayOf(now), to.value));
      }
    }
    return None;
  }

  /** Being active lasts until the window's end, which is on the same day. */
  lemma ActiveUntilTo(s: Schedule, now: Instant)
    requires Active(s, now)
    ensures var end := At(DayOf(now), ParseTime(s.to).value);
            now < end && DayOf(end) == DayOf(now) && MinuteOf(end) == ParseTime(s.to).value &&
            forall t :: now <= t < end ==> Active(s, t)
  {
    var to := ParseTime(s.to).value;
    ParseTimeRange(s.to);
    AtOrder(now, to);
    AtParts(DayOf(now), to);
    forall t | now <= t < At(DayOf(now), to) ensures Active(s, t) {
      WithinDay(now, t, At(DayOf(now), to));
      AtOrder(t, to);
    }
  }

  lemma WithinDay(a: Instant, t: Instant, b: Instant)
    requires a <= t <= b && DayOf(a) == DayOf(b)
    ensures DayOf(t) == DayOf(a) && MinuteOf(a) <= MinuteOf(t) <= MinuteOf(b)
  {
  }

  lemma InScheduleTail(schedules: seq<Schedule>, t: Instant)
    requires schedules != []
    ensures InSchedule(schedules, t) <==> Active(schedules[0], t) || InSchedule(schedules[1..], t)
  {
  }

  /** The end is given exactly inside a window; until then every instant is in schedule. */
  lemma {:induction false} WindowEndIsInSchedule(schedules: seq<Schedule>, now: Instant)
    ensures WindowEnd(schedules, now).Some? <==> InSchedule(schedules, now)
    ensures WindowEnd(schedules, now).Some? ==>
              var end := WindowEnd(schedules, now).value;
              now < end && DayOf(end) == DayOf(now) &&
              forall t :: now <= t < end ==> InSchedule(schedules, t)
  {
    if schedules != [] {
      if Active(schedules[0], now) {
        ActiveUntilTo(schedules[0], now);
      } else {
        WindowEndIsInSchedule(schedules[1..], now);
        InScheduleTail(schedules, now);
        forall t | InSchedule(schedules[1..], t) ensures InSchedule(schedules, t) {
          InScheduleTail(schedules, t);
        }
      }
    }
  }

  /** A window that a schedule opens on a day. */
  predicate Opens(s: Schedule, day: int) {
    On(s, day) && ParseTime(s.from).Some? && ParseTime(s.to).Some? && ParseTime(s.from).value < ParseTime(s.to).value
  }

  /** The day's windows neither overlap nor touch. */
  predicate Separate(schedules: seq<Schedule>, day: int) {
    forall i, j :: 0 <= i < j < |schedules| && Opens(schedules[i], day) && Opens(schedules[j], day) ==>
      || ParseTime(schedules[i].to).value < ParseTime(schedules[j].from).value
      || ParseTime(schedules[j].to).value < ParseTime(schedules[i].from).value
  }

  /** The end is the first instant out of schedule. */
  ghost predicate EndsAt(schedules: seq<Schedule>, now: Instant, end: Instant) {
    && now < end && !InSchedule(schedules, end)
    && forall t :: now <= t < end ==> InSchedule(schedules, t)
  }

  /** The first listed schedule that is open at a minute of a day: the one whose end is reported. */
  predicate Reported(schedules: seq<Schedule>, day: int, i: int, minute: int) {
    && 0 <= i < |schedules| && OpenAt(schedules[i], day, minute)
    && forall j :: 0 <= j < i ==> !OpenAt(schedules[j], day, minute)
  }

  lemma {:induction false} WindowEndIsFirstTo(schedules: seq<Schedule>, now: Instant) returns (i: int)
    requires InSchedule(schedules, now)
    ensures Reported(schedules, DayOf(now), i, MinuteOf(now))
    ensures WindowEnd(schedules, now) == Some(At(DayOf(now), ParseTime(schedules[i].to).value))
  {
    InScheduleTail(schedules, now);
    if Active(schedules[0], now) {
      i := 0;
    } else {
      var k := WindowEndIsFirstTo(schedules[1..], now);
      i := k + 1;
      forall j | 0 <= j < i ensures !OpenAt(schedules[j], DayOf(now), MinuteOf(now)) {
        assert j > 0 ==> schedules[j] == schedules[1..][j - 1];
      }
    }
  }

  /** At the end of schedule `i` none is open. */
  predicate NoneSpans(schedules: seq<Schedule>, day: int, i: int)
    requires 0 <= i < |schedules| && ParseTime(schedules[i].to).Some?
  {
    forall j :: 0 <= j < |schedules| ==> !OpenAt(schedules[j], day, ParseTime(schedules[i].to).value)
  }

  /** The end reported for `now` is the first instant out of schedule exactly when no window of
      the day spans the end of the schedule that is reported. */
  lemma WindowEndExact(schedules: seq<Schedule>, now: Instant, i: int)
    requires Reported(schedules, DayOf(now), i, MinuteOf(now))
    ensures var end := WindowEnd(schedules, now);
            end.Some? && (EndsAt(schedules, now, end.value) <==> NoneSpans(schedules, DayOf(now), i))
  {
    assert Active(schedules[i], now);
    var k := WindowEndIsFirstTo(schedules, now);
    assert k == i;
    WindowEndIsInSchedule(schedules, now);
    ActiveUntilTo(schedules[i], now);
  }

  /** All the ends reported on a day are right. */
  ghost predicate EndsAreRight(schedules: seq<Schedule>, day: int) {
    forall now :: DayOf(now) == day && InSchedule(schedules, now) ==>
      WindowEnd(schedules, now).Some? && EndsAt(schedules, now, WindowEnd(schedules, now).value)
  }

  /** They are right exactly when, on that day, no window spans the end of one that is somewhere
      the first listed. */
  lemma WindowEndsExact(schedules: seq<Schedule>, day: int)
    ensures EndsAreRight(schedules, day) <==>
            forall i, minute :: Reported(schedules, day, i, minute) ==> NoneSpans(schedules, day, i)
  {
    if EndsAreRight(schedules, day) {
      forall i, minute | Reported(schedules, day, i, minute) ensures NoneSpans(schedules, day, i) {
        var now := At(day, minute);
        ParseTimeRange(schedules[i].from);
        ParseTimeRange(schedules[i].to);
        AtParts(day, minute);
        assert Active(schedules[i], now);
        WindowEndExact(schedules, now, i);
      }
    }
    if forall i, minute :: Reported(schedules, day, i, minute) ==> NoneSpans(schedules, day, i) {
      forall now | DayOf(now) == day && InSchedule(schedules, now)
        ensures WindowEnd(schedules, now).Some? && EndsAt(schedules, now, WindowEnd(schedules, now).value)
      {
        var i := WindowEndIsFirstTo(schedules, now);
        WindowEndExact(schedules, now, i);
      }
    }
  }

  /** With separate windows the reported end is the first later instant out of schedule. */
  lemma WindowEndIsFirstOut(schedules: seq<Schedule>, now: Instant)
    requires InSchedule(schedules, now) && Separate(schedules, DayOf(now))
    ensures WindowEnd(schedules, now).Some? && EndsAt(schedules, now, WindowEnd(schedules, now).value)
  {
    var i := WindowEndIsFirstTo(schedules, now);
    WindowEndExact(schedules, now, i);
    var end := ParseTime(schedules[i].to).value;
    forall j | 0 <= j < |schedules| ensures !OpenAt(schedules[j], DayOf(now), end) {
      assert Opens(schedules[i], DayOf(now));
      if OpenAt(schedules[j], DayOf(now), end) {
        assert Opens(schedules[j], DayOf(now));
      }
    }
  }

  lemma ReadsWindow(s: Schedule, day: int, from: int, to: int, t: Instant)
    requires 0 <= from < 1440 && 0 <= to < 1440
    requires s == Schedule([DayName(day)], ClockText(from), ClockText(to))
    requires DayOf(t) == day
    ensures Active(s, t) <==> from <= MinuteOf(t) < to
    ensures ParseTime(s.from) == Some(from) && ParseTime(s.to) == Some(to)
  {
    ClockTextParses(from);
    ClockTextParses(to);
    LowerDayNames(day);
    assert ToLower(s.days[0]) == DayName(day);
  }

  lemma SampleTexts()
    ensures DayName(4) == "mon"
    ensures ClockText(840) == "14:00" && ClockText(900) == "15:00" && ClockText(960) == "16:00"
            && ClockText(1080) == "18:00"
  {
  }

  /** A window that runs on past the first one's end makes the reported end too early. */
  lemma OverlapEndsEarly()
    ensures var a, b := Schedule(["mon"], "14:00", "16:00"), Schedule(["mon"], "15:00", "18:00");
            WindowEnd([a, b], At(4, 900)) == Some(At(4, 960)) && InSchedule([a, b], At(4, 960))
  {
    var a, b := Schedule(["mon"], "14:00", "16:00"), Schedule(["mon"], "15:00", "18:00");
    SampleTexts();
    AtParts(4, 900);
    AtParts(4, 960);
    ReadsWindow(a, 4, 840, 960, At(4, 900));
    ReadsWindow(b, 4, 900, 1080, At(4, 960));
    assert [a, b][0] == a && [a, b][1] == b;
  }

  lemma DayMonotone(a: Instant, b: Instant)
    requires a <= b
    ensures DayOf(a) <= DayOf(b)
  {
  }

  /** The last minute of a day is never in schedule, so no allowed stretch crosses midnight. */
  lemma NothingCrossesMidnight(schedules: seq<Schedule>, from: Instant, to: Instant)
    requires from <= to
    requires forall t :: from <= t <= to ==> InSchedule(schedules, t)
    ensures DayOf(from) == DayOf(to)
  {
    var last := At(DayOf(from), 1439);
    AtParts(DayOf(from), 1439);
    AtOrder(from, 1439);
    DayMonotone(from, to);
    if DayOf(from) < DayOf(to) {
      var t := if from <= last then last else from;
      assert from <= t <= to && MinuteOf(t) == 1439;
      assert InSchedule(schedules, t);
      var i :| 0 <= i < |schedules| && Active(schedules[i], t);
      ParseTimeRange(schedules[i].to);
    }
  }
}

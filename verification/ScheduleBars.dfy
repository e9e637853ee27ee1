// The bars drawn for a weekday, against the schedules that grant access
// (internal/server/templates.go).

module ScheduleBars {
  import opened Wrappers
  import opened Text
  import opened Schedules

  // ----- the lenient parser -----

  /** Drops the white space that a %d verb skips; a newline stops it. */
  function SkipSpace(s: string): string {
    if s != [] && IsSpace(s[0]) && s[0] != '\n' then SkipSpace(s[1..]) else s
  }

  datatype Scan = NoNumber | Number(value: int, rest: string)

  /** One %d verb: an optional sign and digits, and what follows them. */
  function ScanInt(s: string): Scan {
    var t := SkipSpace(s);
    var sign := if t != [] && (t[0] == '+' || t[0] == '-') then 1 else 0;
    var n := DigitRun(t[sign..]);
    var number := Atoi(t[..sign + n]);
    if n == 0 || number.None? then NoNumber else Number(number.value, t[sign + n..])
  }

  /** h*60 + m in 64 bits. */
  function InMinutes(hour: int, minute: int): int {
    Wrap64(Wrap64(hour * 60) + minute)
  }

  lemma SmallFits(hour: int, minute: int)
    requires 0 <= hour < 100 && 0 <= minute < 100
    ensures InMinutes(hour, minute) == 60 * hour + minute
  {
  }

  /** Sscanf with "%d:%d": whatever follows the second number is ignored. */
  function MinutesOf(s: string): Option<int> {
    var hour := ScanInt(s);
    if hour.NoNumber? || hour.rest == [] || hour.rest[0] != ':' then None
    else
      var minute := ScanInt(hour.rest[1..]);
      if minute.NoNumber? then None else Some(InMinutes(hour.value, minute.value))
  }

  lemma {:induction false} DigitRunIs(s: string, n: nat)
    requires n <= |s| && AllDigits(s[..n]) && (n < |s| ==> !IsDigit(s[n]))
    ensures DigitRun(s) == n
  {
  }

  lemma ScanDigits(s: string, n: nat)
    requires 1 <= n <= 2 && n <= |s| && AllDigits(s[..n]) && (n < |s| ==> !IsDigit(s[n]))
    ensures ScanInt(s) == Number(DecimalValue(s[..n]), s[n..]) && DecimalValue(s[..n]) < 100
  {
    assert IsDigit(s[..n][0]);
    assert SkipSpace(s) == s && s[0..] == s;
    DigitRunIs(s, n);
    TwoDigits(s[..n]);
  }

  lemma ScanOne(s: string)
    requires s != "" && IsDigit(s[0]) && (|s| > 1 ==> !IsDigit(s[1]))
    ensures ScanInt(s) == Number(DigitValue(s[0]), s[1..])
  {
    assert s[..1] == [s[0]];
    ScanDigits(s, 1);
    TwoDigits(s[..1]);
  }

  lemma ScanTwo(s: string)
    requires |s| > 1 && IsDigit(s[0]) && IsDigit(s[1]) && (|s| > 2 ==> !IsDigit(s[2]))
    ensures ScanInt(s) == Number(10 * DigitValue(s[0]) + DigitValue(s[1]), s[2..])
  {
    assert s[..2] == [s[0], s[1]];
    ScanDigits(s, 2);
    TwoDigits(s[..2]);
  }

  lemma AtoiReads(sign: string, digits: string, value: int)
    requires sign in ["", "+", "-"] && digits != "" && AllDigits(digits) && DecimalValue(digits) <= MAX_INT64
    requires value == DecimalValue(digits)
    ensures Atoi(sign + digits) == Some(if sign == "-" then -value else value)
  {
    var s := sign + digits;
    assert WithoutSign(s) == digits by {
      assert IsDigit(digits[0]);
    }
    assert s[0] == '-' <==> sign == "-" by {
      assert IsDigit(digits[0]);
    }
  }

  lemma SignFirst(sign: string, digits: string, rest: string)
    requires sign in ["", "+", "-"] && digits != "" && IsDigit(digits[0])
    ensures var t := sign + (digits + rest);
            && t != "" && !IsSpace(t[0]) && (t[0] == '+' || t[0] == '-' <==> sign != "")
            && t[|sign|..] == digits + rest && t[..|sign| + |digits|] == sign + digits && t[|sign| + |digits|..] == rest
  {
  }

  /** Blanks, a sign or none, digits, and whatever follows them. */
  lemma ScanReads(blanks: string, sign: string, digits: string, rest: string, value: int)
    requires forall i :: 0 <= i < |blanks| ==> blanks[i] == ' ' || blanks[i] == '\t'
    requires sign in ["", "+", "-"] && digits != "" && AllDigits(digits) && DecimalValue(digits) <= MAX_INT64
    requires rest == "" || !IsDigit(rest[0])
    requires value == DecimalValue(digits)
    ensures ScanInt(blanks + (sign + (digits + rest))) == Number(if sign == "-" then -value else value, rest)
  {
    SignFirst(sign, digits, rest);
    SkipsBlanks(blanks, sign + (digits + rest));
    ScanSkips(blanks + (sign + (digits + rest)), sign + (digits + rest));
    ScanSigned(sign, digits, rest, value);
  }

  lemma ScanSkips(s: string, t: string)
    requires SkipSpace(s) == t == SkipSpace(t)
    ensures ScanInt(s) == ScanInt(t)
  {
  }

  lemma ScanSigned(sign: string, digits: string, rest: string, value: int)
    requires sign in ["", "+", "-"] && digits != "" && AllDigits(digits) && DecimalValue(digits) <= MAX_INT64
    requires rest == "" || !IsDigit(rest[0])
    requires value == DecimalValue(digits)
    ensures ScanInt(sign + (digits + rest)) == Number(if sign == "-" then -value else value, rest)
  {
    SignFirst(sign, digits, rest);
    FirstRun(digits, rest);
    AtoiReads(sign, digits, value);
    ScanFrom(sign + (digits + rest), |sign|, |digits|, if sign == "-" then -value else value);
  }

  lemma FirstRun(digits: string, rest: string)
    requires AllDigits(digits) && (rest == "" || !IsDigit(rest[0]))
    ensures DigitRun(digits + rest) == |digits|
  {
    assert (digits + rest)[..|digits|] == digits;
    DigitRunIs(digits + rest, |digits|);
  }

  lemma ScanFrom(t: string, sign: nat, n: nat, number: int)
    requires t != "" && !IsSpace(t[0]) && sign == (if t[0] == '+' || t[0] == '-' then 1 else 0)
    requires sign + n <= |t| && n > 0 && DigitRun(t[sign..]) == n && Atoi(t[..sign + n]) == Some(number)
    ensures ScanInt(t) == Number(number, t[sign + n..])
  {
  }

  lemma {:induction false} SkipsBlanks(blanks: string, t: string)
    requires forall i :: 0 <= i < |blanks| ==> blanks[i] == ' ' || blanks[i] == '\t'
    requires t != "" && !IsSpace(t[0])
    ensures SkipSpace(blanks + t) == t == SkipSpace(t)
  {
    if blanks == "" {
      assert blanks + t == t;
    } else {
      assert (blanks + t)[1..] == blanks[1..] + t;
      SkipsBlanks(blanks[1..], t);
    }
  }

  lemma MinutesSteps(s: string, hour: int, rest: string, minute: int, tail: string)
    requires ScanInt(s) == Number(hour, rest) && rest != [] && rest[0] == ':'
    requires ScanInt(rest[1..]) == Number(minute, tail)
    requires 0 <= hour < 100 && 0 <= minute < 100
    ensures MinutesOf(s) == Some(60 * hour + minute)
  {
    SmallFits(hour, minute);
  }

  /** Hour digits, a colon, two minute digits. */
  lemma LenientReads(s: string, n: int, hour: int, minute: int)
    requires 1 <= n <= 2 && |s| == n + 3 && s[n] == ':'
    requires IsDigit(s[0]) && IsDigit(s[n - 1]) && IsDigit(s[n + 1]) && IsDigit(s[n + 2])
    requires hour == if n == 1 then DigitValue(s[0]) else 10 * DigitValue(s[0]) + DigitValue(s[1])
    requires minute == 10 * DigitValue(s[n + 1]) + DigitValue(s[n + 2])
    ensures MinutesOf(s) == Some(60 * hour + minute)
  {
    var rest, minutes := s[n..], s[n + 1..];
    assert rest[1..] == minutes && minutes[0] == s[n + 1] && minutes[1] == s[n + 2];
    if n == 1 {
      ScanOne(s);
    } else {
      ScanTwo(s);
    }
    ScanTwo(minutes);
    MinutesSteps(s, hour, rest, minute, minutes[2..]);
  }

  /** Whatever the strict parser reads, the lenient one reads as the same minute. */
  lemma LenientAgrees(s: string)
    requires ParseTime(s).Some?
    ensures MinutesOf(s) == ParseTime(s)
  {
    var n, hour, minute := ParsedShape(s);
    LenientReads(s, n, hour, minute);
  }

  // ----- the bars -----

  datatype Bar = Bar(left: real, width: real, text: string)

  /** The schedule gets a bar on the day: the day is listed literally, and To is after From. */
  predicate Draws(s: Schedule, day: string) {
    && day in s.days
    && MinutesOf(s.from).Some? && MinutesOf(s.to).Some? && MinutesOf(s.from).value < MinutesOf(s.to).value
  }

  function BarOf(s: Schedule): Bar
    requires MinutesOf(s.from).Some? && MinutesOf(s.to).Some?
  {
    var from, to := MinutesOf(s.from).value, MinutesOf(s.to).value;
    Bar(from as real / 14.4, (to - from) as real / 14.4, s.from + "–" + s.to)
  }

  function BarsOf(schedules: seq<Schedule>, day: string): seq<Bar> {
    if schedules == [] then []
    else
      var s := schedules[|schedules| - 1];
      BarsOf(schedules[..|schedules| - 1], day) + if Draws(s, day) then [BarOf(s)] else []
  }

  method DrawBars(schedules: seq<Schedule>, day: string) returns (bars: seq<Bar>)
    ensures bars == BarsOf(schedules, day)
  {
    bars := [];
    for k := 0 to |schedules|
      invariant bars == BarsOf(schedules[..k], day)
    {
      assert schedules[..k + 1][..k] == schedules[..k];
      var s := schedules[k];
      var found := ListsDay(s.days, day);
      if !found {
        continue;
      }
      var from := MinutesOf(s.from);
      var to := MinutesOf(s.to);
      if from.None? || to.None? || to.value <= from.value {
        continue;
      }
      bars := bars + [BarOf(s)];
    }
    assert schedules[..|schedules|] == schedules;
  }

  method ListsDay(days: seq<string>, day: string) returns (found: bool)
    ensures found <==> day in days
  {
    found := false;
    for i := 0 to |days|
      invariant found <==> day in days[..i]
    {
      if days[i] == day {
        found := true;
      }
    }
    assert days[..|days|] == days;
  }

  /** The minute, as a percentage of the 24 hours of a day, lies in the bar. */
  predicate Covers(bar: Bar, minute: int) {
    bar.left <= 100.0 * minute as real / 1440.0 < bar.left + bar.width
  }

  lemma BarCovers(s: Schedule, minute: int)
    requires MinutesOf(s.from).Some? && MinutesOf(s.to).Some?
    ensures Covers(BarOf(s), minute) <==> MinutesOf(s.from).value <= minute < MinutesOf(s.to).value
  {
    var from, to := MinutesOf(s.from).value, MinutesOf(s.to).value;
    assert BarOf(s).left == 100.0 * from as real / 1440.0;
    assert BarOf(s).left + BarOf(s).width == 100.0 * to as real / 1440.0;
  }

  /** The label shows both texts as they are, with one character between. */
  lemma LabelShowsTimes(s: Schedule)
    requires MinutesOf(s.from).Some? && MinutesOf(s.to).Some?
    ensures var text := BarOf(s).text;
            HasPrefix(text, s.from) && HasSuffix(text, s.to) && |text| == |s.from| + 1 + |s.to|
  {
  }

  /** The schedule's bar covers the minute. */
  predicate Spans(s: Schedule, day: string, minute: int) {
    Draws(s, day) && Covers(BarOf(s), minute)
  }

  predicate CoveredIn(bars: seq<Bar>, minute: int) {
    exists i :: 0 <= i < |bars| && Covers(bars[i], minute)
  }

  lemma CoveredByLast(bars: seq<Bar>, bar: Bar, minute: int)
    ensures CoveredIn(bars + [bar], minute) <==> CoveredIn(bars, minute) || Covers(bar, minute)
  {
    var more := bars + [bar];
    assert more[|bars|] == bar;
    if i :| 0 <= i < |bars| && Covers(bars[i], minute) {
      assert more[i] == bars[i];
    }
  }

  function SpansAtMinute(day: string, minute: int): Schedule -> bool {
    s => Spans(s, day, minute)
  }

  predicate Any<T>(s: seq<T>, p: T -> bool) {
    exists i :: 0 <= i < |s| && p(s[i])
  }

  lemma LastOfAny<T>(s: seq<T>, p: T -> bool)
    requires s != []
    ensures Any(s, p) <==> Any(s[..|s| - 1], p) || p(s[|s| - 1])
  {
  }

  /** Some bar covers the minute exactly when some schedule's bar does. */
  lemma {:induction false} CoveredBySome(schedules: seq<Schedule>, day: string, minute: int)
    ensures CoveredIn(BarsOf(schedules, day), minute) <==> Any(schedules, SpansAtMinute(day, minute))
  {
    if schedules != [] {
      var before, s := schedules[..|schedules| - 1], schedules[|schedules| - 1];
      CoveredBySome(before, day, minute);
      LastOfAny(schedules, SpansAtMinute(day, minute));
      if Draws(s, day) {
        CoveredByLast(BarsOf(before, day), BarOf(s), minute);
      } else {
        assert BarsOf(schedules, day) == BarsOf(before, day);
      }
    }
  }

  // ----- bars and access -----

  /** Days in lower case, times that the strict parser reads. */
  predicate Tidy(s: Schedule) {
    && (forall i :: 0 <= i < |s.days| ==> ToLower(s.days[i]) == s.days[i])
    && ParseTime(s.from).Some? && ParseTime(s.to).Some?
  }

  lemma TidyBar(s: Schedule, t: Instant)
    requires Tidy(s)
    ensures Active(s, t) <==> Spans(s, DayName(DayOf(t)), MinuteOf(t))
  {
    LenientAgrees(s.from);
    LenientAgrees(s.to);
    BarCovers(s, MinuteOf(t));
    var day := DayName(DayOf(t));
    if HasDay(s.days, day) {
      var i :| 0 <= i < |s.days| && ToLower(s.days[i]) == day;
      assert s.days[i] == day;
    }
    if day in s.days {
      var i :| 0 <= i < |s.days| && s.days[i] == day;
      assert ToLower(s.days[i]) == day;
    }
  }

  /** The bar, if there is one, reaches into the day. */
  predicate Visible(s: Schedule, day: string) {
    Draws(s, day) && MinutesOf(s.from).value < 1440 && 0 < MinutesOf(s.to).value
  }

  /** Bar and access agree at every minute of the day. */
  ghost predicate Agrees(s: Schedule, day: int) {
    forall minute :: 0 <= minute < 1440 ==> (Active(s, At(day, minute)) <==> Spans(s, DayName(day), minute))
  }

  lemma ActiveAt(s: Schedule, day: int, minute: int)
    requires 0 <= minute < 1440
    ensures Active(s, At(day, minute)) <==> Opens(s, day) && ParseTime(s.from).value <= minute < ParseTime(s.to).value
  {
    AtParts(day, minute);
  }

  lemma SpansAt(s: Schedule, day: string, minute: int)
    ensures Spans(s, day, minute) <==> Draws(s, day) && MinutesOf(s.from).value <= minute < MinutesOf(s.to).value
  {
  }

  lemma OpenBarExact(s: Schedule, day: int)
    requires Opens(s, day)
    ensures Agrees(s, day) <==> DayName(day) in s.days
  {
    LenientAgrees(s.from);
    LenientAgrees(s.to);
    ParseTimeRange(s.from);
    forall minute | 0 <= minute < 1440
      ensures Active(s, At(day, minute)) <==> ParseTime(s.from).value <= minute < ParseTime(s.to).value
      ensures Spans(s, DayName(day), minute) <==>
              DayName(day) in s.days && ParseTime(s.from).value <= minute < ParseTime(s.to).value
    {
      ActiveAt(s, day, minute);
      SpansAt(s, DayName(day), minute);
    }
    assert Active(s, At(day, ParseTime(s.from).value));
  }

  lemma ClosedBarExact(s: Schedule, day: int)
    requires !Opens(s, day)
    ensures Agrees(s, day) <==> !Visible(s, DayName(day))
  {
    forall minute | 0 <= minute < 1440
      ensures !Active(s, At(day, minute))
      ensures Spans(s, DayName(day), minute) <==>
              Draws(s, DayName(day)) && MinutesOf(s.from).value <= minute < MinutesOf(s.to).value
    {
      ActiveAt(s, day, minute);
      SpansAt(s, DayName(day), minute);
    }
    if Visible(s, DayName(day)) {
      var from := MinutesOf(s.from).value;
      assert Spans(s, DayName(day), if from < 0 then 0 else from);
    }
  }

  /** For one schedule of any texts, bar and access agree on a whole day exactly when an open
      window has its day written in lower case, and where none opens no bar is to be seen. */
  lemma BarExact(s: Schedule, day: int)
    ensures Agrees(s, day) <==> if Opens(s, day) then DayName(day) in s.days else !Visible(s, DayName(day))
  {
    if Opens(s, day) {
      OpenBarExact(s, day);
    } else {
      ClosedBarExact(s, day);
    }
  }

  // ----- lists of schedules -----

  /** The bars of a weekday cover exactly the minutes that are in schedule on it. */
  ghost predicate ShowsDay(schedules: seq<Schedule>, day: int) {
    forall minute :: 0 <= minute < 1440 ==>
      (CoveredIn(BarsOf(schedules, DayName(day)), minute) <==> InSchedule(schedules, At(day, minute)))
  }

  /** The bars show what each schedule's bar shows. */
  lemma BarsShowSchedule(schedules: seq<Schedule>, day: int)
    requires forall i :: 0 <= i < |schedules| ==> Agrees(schedules[i], day)
    ensures ShowsDay(schedules, day)
  {
    forall minute | 0 <= minute < 1440
      ensures CoveredIn(BarsOf(schedules, DayName(day)), minute) <==> InSchedule(schedules, At(day, minute))
    {
      CoveredBySome(schedules, DayName(day), minute);
      assert forall i :: 0 <= i < |schedules| ==>
          (Active(schedules[i], At(day, minute)) <==> Spans(schedules[i], DayName(day), minute));
    }
  }

  /** The bars of any of these schedules are right exactly when each schedule's bar is. */
  lemma BarsExact(schedules: set<Schedule>, day: int)
    ensures (forall list: seq<Schedule> :: (forall s :: s in list ==> s in schedules) ==> ShowsDay(list, day)) <==>
            forall s :: s in schedules ==> Agrees(s, day)
  {
    if forall list: seq<Schedule> :: (forall s :: s in list ==> s in schedules) ==> ShowsDay(list, day) {
      forall s | s in schedules ensures Agrees(s, day) {
        assert ShowsDay([s], day);
        ShowsOne(s, day);
      }
    }
    if forall s :: s in schedules ==> Agrees(s, day) {
      forall list: seq<Schedule> | (forall s :: s in list ==> s in schedules) ensures ShowsDay(list, day) {
        BarsShowSchedule(list, day);
      }
    }
  }

  lemma ShowsOne(s: Schedule, day: int)
    requires ShowsDay([s], day)
    ensures Agrees(s, day)
  {
    forall minute | 0 <= minute < 1440 ensures Active(s, At(day, minute)) <==> Spans(s, DayName(day), minute) {
      CoveredBySome([s], DayName(day), minute);
      assert [s][0] == s;
      assert InSchedule([s], At(day, minute)) <==> Active([s][0], At(day, minute));
    }
  }

  /** Days in lower case and times that parse are enough. */
  lemma TidyBarsShowSchedule(schedules: seq<Schedule>, day: int)
    requires forall i :: 0 <= i < |schedules| ==> Tidy(schedules[i])
    ensures ShowsDay(schedules, day)
  {
    forall i | 0 <= i < |schedules| ensures Agrees(schedules[i], day) {
      TidyAgrees(schedules[i], day);
    }
    BarsShowSchedule(schedules, day);
  }

  lemma TidyAgrees(s: Schedule, day: int)
    requires Tidy(s)
    ensures Agrees(s, day)
  {
    forall minute | 0 <= minute < 1440 ensures Active(s, At(day, minute)) <==> Spans(s, DayName(day), minute) {
      AtParts(day, minute);
      TidyBar(s, At(day, minute));
    }
  }

  lemma LenientReadsShort(hour: char, minute: char)
    requires IsDigit(hour) && IsDigit(minute)
    ensures MinutesOf([hour, ':', minute]) == Some(60 * DigitValue(hour) + DigitValue(minute))
  {
    var s := [hour, ':', minute];
    assert s[1..][1..] == [minute];
    ScanOne(s);
    ScanOne([minute]);
    MinutesSteps(s, DigitValue(hour), s[1..], DigitValue(minute), [minute][1..]);
  }

  lemma StrictRefusesShort(hour: char, minute: char)
    requires IsDigit(hour)
    ensures ParseTime([hour, ':', minute]) == None
  {
  }

  /** A bar for a time that grants no access. */
  lemma LooseTimeIsDrawn()
    ensures var s := Schedule(["mon"], "8:5", "14:00");
            Visible(s, "mon") && !Opens(s, 4) && !Agrees(s, 4)
  {
    var s := Schedule(["mon"], "8:5", "14:00");
    SampleTexts();
    LenientReadsShort('8', '5');
    StrictRefusesShort('8', '5');
    assert s.from == ['8', ':', '5'];
    ClockTextParses(840);
    LenientAgrees(s.to);
    assert s.days[0] == "mon";
    BarExact(s, 4);
  }

  /** No bar for a day in capitals, on which access is granted. */
  lemma CapitalDayIsNotDrawn()
    ensures var s := Schedule(["MON"], "14:00", "16:00");
            Opens(s, 4) && !Draws(s, "mon") && !Agrees(s, 4)
  {
    var s := Schedule(["MON"], "14:00", "16:00");
    SampleTexts();
    ClockTextParses(840);
    ClockTextParses(960);
    assert ToLower("MON") == "mon";
    assert ToLower(s.days[0]) == "mon";
    assert s.days[0] != "mon" by { assert "MON"[0] != "mon"[0]; }
    BarExact(s, 4);
  }
}

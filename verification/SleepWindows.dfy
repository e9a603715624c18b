/** Sleep windows: validation and the per-minute evaluator. */
module SleepWindows {
  import opened Options
  import opened Text

  // ---------------------------------------------------------------- numbers and times as text

  predicate IsDigit(c: char) { '0' <= c <= '9' }

  predicate AllDigits(s: string) { forall i :: 0 <= i < |s| ==> IsDigit(s[i]) }

  function DigitValue(c: char): nat
    requires IsDigit(c)
  {
    (c as int) - ('0' as int)
  }

  function Digits(s: string): nat
    requires AllDigits(s)
  {
    if s == "" then 0 else 10 * Digits(s[..|s| - 1]) + DigitValue(s[|s| - 1])
  }

  const MAX_INT: int := 0x7fff_ffff_ffff_ffff

  /** strconv.Atoi: an optional sign, then decimal digits, within 64 bits. */
  function Atoi(s: string): Option<int> {
    var signed := s != "" && (s[0] == '+' || s[0] == '-');
    var digits := if signed then s[1..] else s;
    if digits == "" || !AllDigits(digits) then None
    else
      var magnitude: int := Digits(digits);
      var n := if signed && s[0] == '-' then -magnitude else magnitude;
      if -MAX_INT - 1 <= n <= MAX_INT then Some(n) else None
  }

  /** A number of 64 bits, or none. */
  function Word(n: int): Option<int> {
    if -0x8000_0000_0000_0000 <= n < 0x8000_0000_0000_0000 then Some(n) else None
  }

  lemma AtoiSigned(s: string)
    requires s != "" && AllDigits(s)
    ensures Atoi("+" + s) == Word(Digits(s)) && Atoi("-" + s) == Word(0 - Digits(s))
  {
    var p, m := "+" + s, "-" + s;
    assert p[0] == '+' && p[1..] == s;
    assert m[0] == '-' && m[1..] == s;
  }

  /** Digits are a number if it fits 64 bits, with a sign as well; no other text is one. */
  lemma AtoiExactly(s: string)
    ensures s != "" && AllDigits(s) ==> Atoi(s) == Word(Digits(s))
    ensures s != "" && AllDigits(s) ==> Atoi("+" + s) == Word(Digits(s)) && Atoi("-" + s) == Word(0 - Digits(s))
    ensures Atoi(s).Some? ==> s != "" && (AllDigits(s) || ((s[0] == '+' || s[0] == '-') && |s| > 1 && AllDigits(s[1..])))
  {
    if s != "" && AllDigits(s) {
      assert IsDigit(s[0]);
      AtoiSigned(s);
    }
  }

  predicate HasColon(t: string) { IndexOf(t, ':') < |t| }

  function HourText(t: string): string
    requires HasColon(t)
  {
    t[..IndexOf(t, ':')]
  }

  function MinuteText(t: string): string
    requires HasColon(t)
  {
    t[IndexOf(t, ':') + 1..]
  }

  /** validateTime succeeds. */
  predicate ValidTime(t: string) {
    && HasColon(t)
    && Atoi(HourText(t)).Some? && 0 <= Atoi(HourText(t)).value <= 23
    && Atoi(MinuteText(t)).Some? && 0 <= Atoi(MinuteText(t)).value <= 59
    && |HourText(t)| == 2 && |MinuteText(t)| == 2
  }

  function TimeToMinutes(t: string): (m: nat)
    requires ValidTime(t)
    ensures m < 1440
  {
    Atoi(HourText(t)).value * 60 + Atoi(MinuteText(t)).value
  }

  // ---------------------------------------------------------------- windows

  datatype SleepWindow = SleepWindow(daysOfWeek: seq<int>, startTime: string, endTime: string, allDay: bool)

  datatype WindowError = NoDays | InvalidDay(day: int) | DuplicateDay(day: int) | BadStart | BadEnd | SameTimes

  predicate ValidWindow(w: SleepWindow) {
    && ValidDays(w)
    && (w.allDay || (ValidTime(w.startTime) && ValidTime(w.endTime) && w.startTime != w.endTime))
  }

  predicate ValidDays(w: SleepWindow) {
    && w.daysOfWeek != []
    && (forall i :: 0 <= i < |w.daysOfWeek| ==> 0 <= w.daysOfWeek[i] <= 6)
    && (forall i, j :: 0 <= i < j < |w.daysOfWeek| ==> w.daysOfWeek[i] != w.daysOfWeek[j])
  }

  /** The days are looked at one by one before the times; the first fault is reported. */
  method ValidateWindow(w: SleepWindow) returns (err: Option<WindowError>)
    ensures err.None? <==> ValidWindow(w)
    ensures err == Some(NoDays) <==> w.daysOfWeek == []
    ensures err.Some? && err.value.InvalidDay? ==> err.value.day in w.daysOfWeek && !(0 <= err.value.day <= 6)
    ensures err.Some? && err.value.DuplicateDay? ==>
              exists i, j :: 0 <= i < j < |w.daysOfWeek| && w.daysOfWeek[i] == w.daysOfWeek[j] == err.value.day
    ensures err.Some? && (err.value.InvalidDay? || err.value.DuplicateDay?) <==> w.daysOfWeek != [] && !ValidDays(w)
    ensures err == Some(BadStart) <==> ValidDays(w) && !w.allDay && !ValidTime(w.startTime)
    ensures err == Some(BadEnd) <==> ValidDays(w) && !w.allDay && ValidTime(w.startTime) && !ValidTime(w.endTime)
    ensures err == Some(SameTimes) <==> ValidDays(w) && !w.allDay && ValidTime(w.startTime) && w.startTime == w.endTime
  {
    if w.daysOfWeek == [] {
      return Some(NoDays);
    }
    var seen: set<int> := {};
    for i := 0 to |w.daysOfWeek|
      invariant seen == set d | d in w.daysOfWeek[..i]
      invariant forall j :: 0 <= j < i ==> 0 <= w.daysOfWeek[j] <= 6
      invariant forall j, k :: 0 <= j < k < i ==> w.daysOfWeek[j] != w.daysOfWeek[k]
    {
      var d := w.daysOfWeek[i];
      if d < 0 || d > 6 {
        return Some(InvalidDay(d));
      }
      if d in seen {
        assert d in w.daysOfWeek[..i];
        return Some(DuplicateDay(d));
      }
      seen := seen + {d};
      assert w.daysOfWeek[..i + 1] == w.daysOfWeek[..i] + [d];
    }
    if w.allDay {
      return None;
    }
    if !ValidTime(w.startTime) {
      return Some(BadStart);
    }
    if !ValidTime(w.endTime) {
      return Some(BadEnd);
    }
    if w.startTime == w.endTime {
      return Some(SameTimes);
    }
    return None;
  }

  ghost predicate ValidWindows(ws: seq<SleepWindow>) {
    forall i :: 0 <= i < |ws| ==> ValidWindow(ws[i])
  }

  /** Two digits and two digits, without a sign. */
  predicate Plain(t: string) {
    HasColon(t) && AllDigits(HourText(t)) && AllDigits(MinuteText(t))
  }

  /** A sign in front of one digit read as a zero. */
  function PlainText(s: string): string
    requires |s| == 2
  {
    if AllDigits(s) then s else ['0', s[1]]
  }

  function PlainTime(t: string): string
    requires ValidTime(t)
  {
    PlainText(HourText(t)) + ":" + PlainText(MinuteText(t))
  }

  lemma TwoDigitValue(s: string)
    requires |s| == 2 && AllDigits(s)
    ensures Atoi(s) == Some(10 * DigitValue(s[0]) + DigitValue(s[1]))
  {
    assert s[..1] == [s[0]] && [s[0]][..0] == "";
    assert Digits([s[0]]) == DigitValue(s[0]);
    assert IsDigit(s[0]);
  }

  /** The number of a two-character text is that of its plain form. */
  lemma PlainTextValue(s: string)
    requires |s| == 2 && Atoi(s).Some? && Atoi(s).value >= 0
    ensures AllDigits(PlainText(s)) && Atoi(PlainText(s)) == Atoi(s)
    ensures (PlainText(s) == s <==> AllDigits(s))
  {
    if !AllDigits(s) {
      assert s[1..] == [s[1]] && [s[1]][..0] == "";
      assert AllDigits(s[1..]) && IsDigit(s[1..][0]);
      assert Digits(s[1..]) == DigitValue(s[1]);
      TwoDigitValue(PlainText(s));
    }
  }

  lemma TwoDigitsUnique(a: string, b: string)
    requires |a| == |b| == 2 && AllDigits(a) && AllDigits(b) && Atoi(a) == Atoi(b)
    ensures a == b
  {
    TwoDigitValue(a);
    TwoDigitValue(b);
  }

  /** Joined by a colon they can be told apart again. */
  lemma JoinedTexts(hour: string, minute: string)
    requires |hour| == 2 && AllDigits(hour)
    ensures var t := hour + ":" + minute; HasColon(t) && HourText(t) == hour && MinuteText(t) == minute
  {
    var t := hour + ":" + minute;
    assert t[0] == hour[0] && t[1] == hour[1] && t[2] == ':' && IsDigit(hour[0]) && IsDigit(hour[1]);
    assert IndexOf(t, ':') == 2;
  }

  /** Every valid text has a plain form of the same minute, which is itself exactly if it has no sign: a
      text with a sign is never the only one for its minute. */
  lemma PlainFormSameMinute(t: string)
    requires ValidTime(t)
    ensures ValidTime(PlainTime(t)) && Plain(PlainTime(t)) && TimeToMinutes(PlainTime(t)) == TimeToMinutes(t)
    ensures PlainTime(t) == t <==> Plain(t)
  {
    PlainTextValue(HourText(t));
    PlainTextValue(MinuteText(t));
    JoinedTexts(PlainText(HourText(t)), PlainText(MinuteText(t)));
    assert t == HourText(t) + ":" + MinuteText(t);
  }

  /** Two valid texts denote the same minute exactly when their plain forms are equal, and texts without a
      sign exactly when they are equal: comparing the texts is right up to signs. */
  lemma SameMinuteExactly(a: string, b: string)
    requires ValidTime(a) && ValidTime(b)
    ensures TimeToMinutes(a) == TimeToMinutes(b) <==> PlainTime(a) == PlainTime(b)
    ensures Plain(a) && Plain(b) ==> (TimeToMinutes(a) == TimeToMinutes(b) <==> a == b)
  {
    PlainFormSameMinute(a);
    PlainFormSameMinute(b);
    if TimeToMinutes(a) == TimeToMinutes(b) {
      PlainTimesDiffer(PlainTime(a), PlainTime(b));
    }
  }

  lemma PlainTimesDiffer(a: string, b: string)
    requires ValidTime(a) && ValidTime(b) && Plain(a) && Plain(b) && TimeToMinutes(a) == TimeToMinutes(b)
    ensures a == b
  {
    var h, k := Atoi(HourText(a)).value, Atoi(HourText(b)).value;
    var m, n := Atoi(MinuteText(a)).value, Atoi(MinuteText(b)).value;
    assert 60 * h + m == 60 * k + n && h == k && m == n;
    TwoDigitsUnique(HourText(a), HourText(b));
    TwoDigitsUnique(MinuteText(a), MinuteText(b));
    assert a == HourText(a) + ":" + MinuteText(a);
    assert b == HourText(b) + ":" + MinuteText(b);
  }

  /** Different texts can be the same time of day: a signed hour passes validation, so a valid window
      may start and end at the same minute.  The evaluator then reads it as a full day. */
  lemma DistinctTextsSameMinute()
    ensures "+5:00" != "05:00" && ValidTime("+5:00") && ValidTime("05:00")
    ensures TimeToMinutes("+5:00") == TimeToMinutes("05:00") == 300
    ensures ValidWindow(SleepWindow([1], "+5:00", "05:00", false))
  {
    FiveOClock('+');
    FiveOClock('0');
    var a, b := "+5:00", "05:00";
    assert a[0] == '+' && b[0] == '0';
    assert a == ['+', '5', ':', '0', '0'] && b == ['0', '5', ':', '0', '0'];
  }

  lemma FiveOClock(c: char)
    requires c == '+' || c == '0'
    ensures ValidTime([c, '5', ':', '0', '0']) && TimeToMinutes([c, '5', ':', '0', '0']) == 300
  {
    var t := [c, '5', ':', '0', '0'];
    assert t[0] == c && t[1] == '5' && t[2] == ':';
    assert HourText(t) == [c, '5'] && MinuteText(t) == "00";
    SmallNumbers();
  }

  lemma SmallNumbers()
    ensures Atoi("+5") == Some(5) && Atoi("05") == Some(5) && Atoi("00") == Some(0)
  {
    var a, b, c := "+5", "05", "00";
    assert a[1..] == "5" && "5"[..0] == "" && b[..1] == "0" && c[..1] == "0" && "0"[..0] == "";
    assert Digits("5") == 5 && Digits("0") == 0 && Digits(b) == 5 && Digits(c) == 0;
  }

  predicate DayInSet(day: int, days: seq<int>) { day in days }

  // ---------------------------------------------------------------- evaluation

  /** A window with its times read as minutes of the day. */
  datatype Span = Span(days: seq<int>, allDay: bool, start: int, end: int)

  predicate ValidSpan(span: Span) { 0 <= span.start < 1440 && 0 <= span.end < 1440 }

  function SpanOf(w: SleepWindow): (span: Span)
    requires ValidWindow(w)
    ensures ValidSpan(span) && span.days == w.daysOfWeek && span.allDay == w.allDay
  {
    if w.allDay then Span(w.daysOfWeek, true, 0, 0)
    else Span(w.daysOfWeek, false, TimeToMinutes(w.startTime), TimeToMinutes(w.endTime))
  }

  ghost predicate ValidSpans(spans: seq<Span>) {
    forall i :: 0 <= i < |spans| ==> ValidSpan(spans[i])
  }

  function Spans(ws: seq<SleepWindow>): (spans: seq<Span>)
    requires ValidWindows(ws)
    ensures |spans| == |ws| && ValidSpans(spans)
    ensures forall i :: 0 <= i < |ws| ==> spans[i] == SpanOf(ws[i])
  {
    seq(|ws|, i requires 0 <= i < |ws| => SpanOf(ws[i]))
  }

  /** windowContains. */
  predicate Contains(span: Span, day: int, minute: int) {
    if span.allDay then DayInSet(day, span.days)
    else if span.start < span.end
    then DayInSet(day, span.days) && span.start <= minute < span.end
    else
      (DayInSet(day, span.days) && minute >= span.start) ||
      (DayInSet((day + 6) % 7, span.days) && minute < span.end)
  }

  // ---------------------------------------------------------------- local time

  /** Local time counts seconds from 1970-01-01 00:00, a Thursday, on the local clock. */
  function DayOf(t: int): int { t / 86400 }

  function Midnight(day: int): int { 86400 * day }

  function Weekday(day: int): (d: int)
    ensures 0 <= d < 7
  {
    (day + 4) % 7
  }

  function MinuteOf(t: int): (m: int)
    ensures 0 <= m < 1440
  {
    t % 86400 / 60
  }

  /** The clock: a time is its day, its minute of the day and less than a minute more; days of the week follow
      one another, 0 is Sunday, and 1 January 1970 was a Thursday, 1 January 2000 a Saturday. */
  lemma LocalClock(t: int)
    ensures Midnight(DayOf(t)) + 60 * MinuteOf(t) <= t < Midnight(DayOf(t)) + 60 * MinuteOf(t) + 60
    ensures Midnight(DayOf(t) + 1) == Midnight(DayOf(t)) + 24 * 3600
    ensures Weekday(DayOf(t) + 1) == if Weekday(DayOf(t)) == 6 then 0 else Weekday(DayOf(t)) + 1
    ensures Weekday(DayOf(0)) == 4 && Weekday(DayOf(946684800)) == 6
  {
  }

  /** Some span covers this local time. */
  ghost predicate Asleep(spans: seq<Span>, t: int) {
    exists i :: 0 <= i < |spans| && Contains(spans[i], Weekday(DayOf(t)), MinuteOf(t))
  }

  /** The evaluated state at a UTC time, in a zone that is `offset` seconds ahead. */
  ghost predicate SleepingAt(ws: seq<SleepWindow>, offset: int, now: int)
    requires ValidWindows(ws)
  {
    Asleep(Spans(ws), now + offset)
  }

  /** EvaluateInLocation for a zone with a fixed offset. */
  method Evaluate(spans: seq<Span>, offset: int, now: int) returns (sleeping: bool)
    ensures sleeping <==> Asleep(spans, now + offset)
  {
    if spans == [] {
      return false;
    }
    var local := now + offset;
    var day, minute := Weekday(DayOf(local)), MinuteOf(local);
    for i := 0 to |spans|
      invariant forall j :: 0 <= j < i ==> !Contains(spans[j], day, minute)
    {
      if Contains(spans[i], day, minute) {
        return true;
      }
    }
    return false;
  }
}

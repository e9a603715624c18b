/** The migration of a pair of cron expressions to a sleep window keeps its meaning. */
module CronMigration {
  import opened Options
  import opened SleepWindows
  import opened Text
  import Sorting
  import TextLaws

  // ---------------------------------------------------------------- text

  function DecimalText(n: nat): (s: string)
    ensures s != "" && AllDigits(s) && Digits(s) == n
  {
    var last := [('0' as int + n % 10) as char];
    if n < 10 then last
    else
      var s := DecimalText(n / 10) + last;
      assert s[..|s| - 1] == DecimalText(n / 10);
      s
  }

  /** The verb %02d. */
  function TwoDigits(n: int): string {
    if n < 0 then "-" + DecimalText(-n) else if n < 10 then "0" + DecimalText(n) else DecimalText(n)
  }

  function TimeText(hour: int, minute: int): string {
    TwoDigits(hour) + ":" + TwoDigits(minute)
  }

  function ParseTime(t: string): Option<(int, int)> {
    if !HasColon(t) then None
    else
      var hour, minute := Atoi(HourText(t)), Atoi(MinuteText(t));
      if hour.None? || minute.None? then None else Some((hour.value, minute.value))
  }

  predicate IsInt64(n: int) { -MAX_INT - 1 <= n <= MAX_INT }

  lemma AtoiDigits(s: string)
    requires s != "" && AllDigits(s) && IsInt64(Digits(s))
    ensures Atoi(s) == Some(Digits(s))
  {
    assert IsDigit(s[0]);
  }

  lemma AtoiMinus(s: string, n: int)
    requires s != "" && AllDigits(s) && n == 0 - Digits(s) && IsInt64(n)
    ensures Atoi("-" + s) == Some(n)
  {
    assert ("-" + s)[0] == '-' && ("-" + s)[1..] == s;
  }

  lemma AtoiPadded(s: string)
    requires |s| == 1 && AllDigits(s)
    ensures Atoi("0" + s) == Some(Digits(s))
  {
    var t := "0" + s;
    assert t[..1] == "0" && t[1] == s[0] && "0"[..0] == "" && s[..0] == "";
    assert Digits("0") == 0 && Digits(t) == Digits(s);
    AtoiDigits(t);
  }

  lemma TwoDigitsRoundTrip(n: int)
    requires IsInt64(n)
    ensures Atoi(TwoDigits(n)) == Some(n) && ':' !in TwoDigits(n)
    ensures 0 <= n < 100 ==> |TwoDigits(n)| == 2
  {
    if n < 0 {
      AtoiMinus(DecimalText(-n), n);
    } else if n < 10 {
      AtoiPadded(DecimalText(n));
    } else {
      AtoiDigits(DecimalText(n));
      assert n < 100 ==> |DecimalText(n / 10)| == 1;
    }
  }

  lemma CutAt(a: string, b: string, t: string)
    requires t == a + ":" + b
    ensures t[..|a|] == a && t[|a| + 1..] == b
  {
  }

  /** A number that is not negative is printed without a sign. */
  lemma TwoDigitsPlain(n: nat)
    ensures AllDigits(TwoDigits(n))
  {
  }

  /** Reading a printed time gives back the hour and the minute, in range or not. */
  lemma TimeRoundTrip(hour: int, minute: int)
    requires IsInt64(hour) && IsInt64(minute)
    ensures HasColon(TimeText(hour, minute))
    ensures HourText(TimeText(hour, minute)) == TwoDigits(hour)
    ensures MinuteText(TimeText(hour, minute)) == TwoDigits(minute)
    ensures ParseTime(TimeText(hour, minute)) == Some((hour, minute))
  {
    TwoDigitsRoundTrip(hour);
    TwoDigitsRoundTrip(minute);
    TextLaws.IndexOfFirst(TwoDigits(hour), ':', TwoDigits(minute));
    CutAt(TwoDigits(hour), TwoDigits(minute), TimeText(hour, minute));
  }

  // ---------------------------------------------------------------- day-of-week field

  /** One element of the comma-separated list: a range of days, or text that is no number. */
  datatype Part = Malformed | Days(first: int, last: int)

  function ReadPart(part: string): Part {
    var i := IndexOf(part, '-');
    var first := Atoi(part[..i]);
    var last := if i < |part| then Atoi(part[i + 1..]) else first;
    if first.None? || last.None? then Malformed else Days(first.value, last.value)
  }

  /** The elements of a day-of-week field. */
  function ReadParts(field: string): (parts: seq<Part>) {
    var texts := Split(field, ',');
    seq(|texts|, i requires 0 <= i < |texts| => ReadPart(texts[i]))
  }

  predicate PartNames(part: Part, day: int) {
    part.Days? && part.first <= day <= part.last
  }

  ghost predicate SomePartNames(parts: seq<Part>, day: int) {
    exists i :: 0 <= i < |parts| && PartNames(parts[i], day)
  }

  /** The days that a day-of-week field names. */
  ghost predicate FieldNames(field: string, day: int) {
    if field == "*" then 0 <= day <= 6 else SomePartNames(ReadParts(field), day)
  }

  ghost predicate WellNamed(field: string) {
    field == "*" || forall part :: part in ReadParts(field) ==> part.Days?
  }

  method ParseDow(field: string) returns (days: Option<seq<int>>)
    ensures days.Some? <==> WellNamed(field)
    ensures days.Some? ==> Sorting.Unique(days.value) && Sorting.Ascending(days.value, Sorting.Identity)
    ensures days.Some? ==> forall d :: d in days.value <==> FieldNames(field, d)
  {
    if field == "*" {
      return Some([0, 1, 2, 3, 4, 5, 6]);
    }
    var keys := CollectDays(ReadParts(field));
    if keys.None? {
      return None;
    }
    Sorting.SortSorts(keys.value, Sorting.Identity);
    Sorting.PermutedUnique(keys.value, Sorting.Sort(keys.value, Sorting.Identity));
    return Some(Sorting.Sort(keys.value, Sorting.Identity));
  }

  /** The days named by the elements, each once, in no particular order. */
  method CollectDays(parts: seq<Part>) returns (keys: Option<seq<int>>)
    ensures keys.Some? <==> forall part :: part in parts ==> part.Days?
    ensures keys.Some? ==> Sorting.Unique(keys.value) && forall d :: d in keys.value <==> SomePartNames(parts, d)
  {
    var found: seq<int> := [];
    for i := 0 to |parts|
      invariant forall j :: 0 <= j < i ==> parts[j].Days?
      invariant Sorting.Unique(found) && forall d :: d in found <==> SomePartNames(parts[..i], d)
    {
      if parts[i].Malformed? {
        assert parts[i] in parts;
        return None;
      }
      NamesGrow(parts, i);
      found := AddRange(found, parts[i].first, parts[i].last);
    }
    assert parts[..|parts|] == parts;
    return Some(found);
  }

  method AddRange(keys: seq<int>, first: int, last: int) returns (r: seq<int>)
    requires Sorting.Unique(keys)
    ensures Sorting.Unique(r) && forall d :: d in r <==> d in keys || first <= d <= last
  {
    r := keys;
    var d := first;
    while d <= last
      invariant Sorting.Unique(r) && forall k :: k in r <==> k in keys || (first <= k < d && k <= last)
    {
      if d !in r {
        r := r + [d];
      }
      d := d + 1;
    }
  }

  lemma NamesGrow(parts: seq<Part>, i: nat)
    requires i < |parts|
    ensures forall d :: SomePartNames(parts[..i + 1], d) <==> SomePartNames(parts[..i], d) || PartNames(parts[i], d)
  {
    forall d
      ensures SomePartNames(parts[..i + 1], d) <==> SomePartNames(parts[..i], d) || PartNames(parts[i], d)
    {
      if SomePartNames(parts[..i], d) {
        var k :| 0 <= k < i && PartNames(parts[..i][k], d);
        assert parts[..i + 1][k] == parts[..i][k];
      }
      if PartNames(parts[i], d) {
        assert parts[..i + 1][i] == parts[i];
      }
      if SomePartNames(parts[..i + 1], d) {
        var k :| 0 <= k < i + 1 && PartNames(parts[..i + 1][k], d);
        assert k < i ==> parts[..i][k] == parts[..i + 1][k];
      }
    }
  }

  // ---------------------------------------------------------------- crons

  /** A cron that fires at one time of day on some days of the week. */
  datatype Cron = Cron(minute: int, hour: int, days: seq<int>)

  /** `c` is what the text says: a minute, an hour, two stars and a day-of-week field. */
  ghost predicate Reads(expr: string, c: Cron) {
    var fields := Fields(expr);
    && |fields| == 5 && fields[2] == "*" && fields[3] == "*"
    && Atoi(fields[0]) == Some(c.minute) && Atoi(fields[1]) == Some(c.hour)
    && WellNamed(fields[4]) && Sorting.Unique(c.days) && forall d :: d in c.days <==> FieldNames(fields[4], d)
  }

  method ParseSingleCron(expr: string) returns (cron: Option<Cron>)
    ensures cron.Some? ==> Reads(expr, cron.value)
    ensures cron.None? ==> forall c :: !Reads(expr, c)
  {
    var fields := Fields(expr);
    if |fields| != 5 {
      return None;
    }
    var minute, hour := Atoi(fields[0]), Atoi(fields[1]);
    if minute.None? || hour.None? || fields[2] != "*" || fields[3] != "*" {
      return None;
    }
    var days := ParseDow(fields[4]);
    if days.None? {
      return None;
    }
    return Some(Cron(minute.value, hour.value, days.value));
  }

  function TimeOf(c: Cron): int { 60 * c.hour + c.minute }

  ghost predicate WellFormed(c: Cron) {
    IsInt64(c.minute) && IsInt64(c.hour) && Sorting.Unique(c.days)
  }

  lemma ReadsWellFormed(expr: string, c: Cron)
    requires Reads(expr, c)
    ensures WellFormed(c)
  {
  }

  predicate Overnight(sleep: Cron, wake: Cron) { TimeOf(wake) <= TimeOf(sleep) }

  function NextDay(day: int): int { (day + 1) % 7 }

  /** The pair the code accepts: overnight, each sleep day is followed by a wake day; otherwise the
      days are the same. */
  ghost predicate Accepted(sleep: Cron, wake: Cron) {
    if Overnight(sleep, wake)
    then forall d :: d in sleep.days ==> NextDay(d) in wake.days
    else forall d :: d in sleep.days <==> d in wake.days
  }

  method DaysMatch(overnight: bool, sleep: Cron, wake: Cron) returns (ok: bool)
    requires overnight == Overnight(sleep, wake) && Sorting.Unique(sleep.days) && Sorting.Unique(wake.days)
    ensures ok <==> Accepted(sleep, wake)
  {
    if overnight {
      for i := 0 to |sleep.days|
        invariant forall j :: 0 <= j < i ==> NextDay(sleep.days[j]) in wake.days
      {
        if NextDay(sleep.days[i]) !in wake.days {
          assert sleep.days[i] in sleep.days;
          return false;
        }
      }
    } else {
      SameSize(sleep.days, wake.days);
      if |sleep.days| != |wake.days| {
        return false;
      }
      for i := 0 to |wake.days|
        invariant forall j :: 0 <= j < i ==> wake.days[j] in sleep.days
      {
        var d := wake.days[i];
        if d !in sleep.days {
          assert d in wake.days;
          return false;
        }
      }
      SameDays(sleep.days, wake.days);
    }
    return true;
  }

  lemma {:induction false} SetSize(s: seq<int>)
    requires Sorting.Unique(s)
    ensures |set d | d in s| == |s|
  {
    if s != [] {
      var n := |s| - 1;
      SetSize(s[..n]);
      assert s == s[..n] + [s[n]];
      assert (set d | d in s) == (set d | d in s[..n]) + {s[n]};
      assert s[n] !in s[..n];
    }
  }

  lemma SameSize(a: seq<int>, b: seq<int>)
    requires Sorting.Unique(a) && Sorting.Unique(b)
    ensures (forall d :: d in a <==> d in b) ==> |a| == |b|
  {
    SetSize(a);
    SetSize(b);
    if forall d :: d in a <==> d in b {
      assert (set d | d in a) == (set d | d in b);
    }
  }

  lemma SameDays(a: seq<int>, b: seq<int>)
    requires Sorting.Unique(a) && Sorting.Unique(b) && |a| == |b| && forall i :: 0 <= i < |b| ==> b[i] in a
    ensures forall d :: d in a <==> d in b
  {
    SetSize(a);
    SetSize(b);
    var inA, inB := set d | d in a, set d | d in b;
    assert inB <= inA;
    assert |inA - inB| == 0;
    forall d | d in a
      ensures d in b
    {
      assert d in inA && d !in inA - inB;
    }
  }

  /** The window that stands for a pair of crons. */
  ghost predicate Shows(w: SleepWindow, sleep: Cron, wake: Cron) {
    && !w.allDay && Sorting.Unique(w.daysOfWeek) && (forall d :: d in w.daysOfWeek <==> d in sleep.days)
    && w.startTime == TimeText(sleep.hour, sleep.minute)
    && w.endTime == TimeText(wake.hour, wake.minute)
  }

  predicate IsOvernightTimes(startTime: string, endTime: string)
    requires ParseTime(startTime).Some? && ParseTime(endTime).Some?
  {
    var start, end := ParseTime(startTime).value, ParseTime(endTime).value;
    60 * end.0 + end.1 <= 60 * start.0 + start.1
  }

  lemma OvernightByText(sleep: Cron, wake: Cron)
    requires WellFormed(sleep) && WellFormed(wake)
    ensures ParseTime(TimeText(sleep.hour, sleep.minute)).Some? && ParseTime(TimeText(wake.hour, wake.minute)).Some?
    ensures IsOvernightTimes(TimeText(sleep.hour, sleep.minute), TimeText(wake.hour, wake.minute)) == Overnight(sleep, wake)
  {
    TimeRoundTrip(sleep.hour, sleep.minute);
    TimeRoundTrip(wake.hour, wake.minute);
  }

  method WindowOf(sleep: Cron, wake: Cron) returns (w: Option<SleepWindow>)
    requires WellFormed(sleep) && WellFormed(wake)
    ensures w.Some? <==> Accepted(sleep, wake)
    ensures w.Some? ==> Shows(w.value, sleep, wake)
  {
    var startTime, endTime := TimeText(sleep.hour, sleep.minute), TimeText(wake.hour, wake.minute);
    OvernightByText(sleep, wake);
    var ok := DaysMatch(IsOvernightTimes(startTime, endTime), sleep, wake);
    if !ok {
      return None;
    }
    Sorting.SortSorts(sleep.days, Sorting.Identity);
    Sorting.PermutedUnique(sleep.days, Sorting.Sort(sleep.days, Sorting.Identity));
    return Some(SleepWindow(Sorting.Sort(sleep.days, Sorting.Identity), startTime, endTime, false));
  }

  /** CronsToWindows: the one window that stands for the two texts, or none when a text is not of
      the simple form or the pair is not accepted. */
  method CronsToWindows(sleepCron: string, wakeCron: string) returns (ws: seq<SleepWindow>)
    ensures |ws| <= 1
    ensures ws != [] ==> exists sleep, wake :: Reads(sleepCron, sleep) && Reads(wakeCron, wake) &&
                                               Accepted(sleep, wake) && Shows(ws[0], sleep, wake)
    ensures ws == [] ==> forall sleep, wake :: Reads(sleepCron, sleep) && Reads(wakeCron, wake) ==> !Accepted(sleep, wake)
  {
    if sleepCron == "" || wakeCron == "" {
      return [];
    }
    var sleep := ParseSingleCron(sleepCron);
    if sleep.None? {
      return [];
    }
    var wake := ParseSingleCron(wakeCron);
    if wake.None? {
      return [];
    }
    ReadsWellFormed(sleepCron, sleep.value);
    ReadsWellFormed(wakeCron, wake.value);
    var window := WindowOf(sleep.value, wake.value);
    if window.None? {
      return [];
    }
    return [window.value];
  }

  // ---------------------------------------------------------------- meaning

  ghost predicate InRange(c: Cron) {
    0 <= c.minute <= 59 && 0 <= c.hour <= 23 && forall i :: 0 <= i < |c.days| ==> 0 <= c.days[i] <= 6
  }

  /** Time counts minutes from a Sunday midnight. */
  ghost predicate Fires(c: Cron, t: int) {
    t / 1440 % 7 in c.days && t % 1440 == TimeOf(c)
  }

  ghost predicate Quiet(c: Cron, after: int, upTo: int) {
    forall t :: after < t <= upTo ==> !Fires(c, t)
  }

  /** The most recent event up to `t` is a sleep event. */
  ghost predicate LastEventSleeps(sleep: Cron, wake: Cron, t: int) {
    exists e :: e <= t && Fires(sleep, e) && Quiet(wake, e, t)
  }

  predicate Inside(span: Span, t: int) {
    Contains(span, t / 1440 % 7, t % 1440)
  }

  /** The window stands for these days and times. */
  ghost predicate SpanFor(span: Span, sleep: Cron, wake: Cron) {
    && !span.allDay && span.start == TimeOf(sleep) && span.end == TimeOf(wake)
    && forall d :: d in span.days <==> d in sleep.days
  }

  /** With fields in range, different times and at least one day, the window passes validation. */
  lemma ShownIsValid(w: SleepWindow, sleep: Cron, wake: Cron)
    requires InRange(sleep) && InRange(wake) && TimeOf(sleep) != TimeOf(wake) && sleep.days != []
    requires Shows(w, sleep, wake)
    ensures ValidWindow(w) && SpanFor(SpanOf(w), sleep, wake)
  {
    PrintedTime(sleep.hour, sleep.minute);
    PrintedTime(wake.hour, wake.minute);
    ShownDays(w, sleep);
  }

  lemma ShownDays(w: SleepWindow, sleep: Cron)
    requires InRange(sleep) && sleep.days != [] && Sorting.Unique(w.daysOfWeek) && forall d :: d in w.daysOfWeek <==> d in sleep.days
    ensures ValidDays(w)
  {
    assert sleep.days[0] in w.daysOfWeek;
    DaysInRange(w.daysOfWeek, sleep.days);
  }

  lemma PrintedTime(hour: int, minute: int)
    requires 0 <= hour <= 23 && 0 <= minute <= 59
    ensures ValidTime(TimeText(hour, minute)) && TimeToMinutes(TimeText(hour, minute)) == 60 * hour + minute
  {
    TimeRoundTrip(hour, minute);
    TwoDigitsRoundTrip(hour);
    TwoDigitsRoundTrip(minute);
  }

  lemma DaysInRange(a: seq<int>, b: seq<int>)
    requires (forall d :: d in a <==> d in b) && forall i :: 0 <= i < |b| ==> 0 <= b[i] <= 6
    ensures forall i :: 0 <= i < |a| ==> 0 <= a[i] <= 6
  {
    forall i | 0 <= i < |a|
      ensures 0 <= a[i] <= 6
    {
      var d := a[i];
      assert d in b;
    }
  }

  /** Each sleep event is followed by a wake event before its window would end. */
  ghost predicate Followed(sleep: Cron, wake: Cron) {
    forall d :: d in sleep.days ==> (if Overnight(sleep, wake) then NextDay(d) else d) in wake.days
  }

  ghost predicate Regular(sleep: Cron, wake: Cron) {
    InRange(sleep) && InRange(wake) && TimeOf(sleep) != TimeOf(wake)
  }

  /** Where the window says sleeping, the last event was the start of the window. */
  lemma InsideSleeps(span: Span, sleep: Cron, wake: Cron, t: int)
    requires Regular(sleep, wake) && SpanFor(span, sleep, wake) && Inside(span, t)
    ensures LastEventSleeps(sleep, wake, t)
  {
    var day, minute := t / 1440, t % 1440;
    var start := if minute >= span.start && day % 7 in span.days then day else day - 1;
    var e := 1440 * start + span.start;
    DayBefore(day);
    assert e / 1440 == start && e % 1440 == span.start;
    assert Fires(sleep, e);
    forall f | e < f <= t
      ensures !Fires(wake, f)
    {
      SameOrNext(start, span.start, f, t);
    }
  }

  lemma DayBefore(day: int)
    ensures (day % 7 + 6) % 7 == (day - 1) % 7 && NextDay(day % 7) == (day + 1) % 7
  {
  }

  lemma SameOrNext(start: int, minute: int, f: int, t: int)
    requires 0 <= minute < 1440 && 1440 * start + minute < f <= t
    requires t / 1440 == start || t / 1440 == start + 1
    ensures f / 1440 == start ==> f % 1440 > minute
    ensures f / 1440 == t / 1440 ==> f % 1440 <= t % 1440
    ensures f / 1440 == start || f / 1440 == t / 1440
  {
  }

  /** The end of the window that opens at `e`. */
  function EndAfter(e: int, sleep: Cron, wake: Cron): int {
    e - TimeOf(sleep) + TimeOf(wake) + (if Overnight(sleep, wake) then 1440 else 0)
  }

  lemma EndFires(sleep: Cron, wake: Cron, e: int)
    requires Regular(sleep, wake) && Fires(sleep, e)
    ensures Fires(wake, EndAfter(e, sleep, wake)) <==>
            (if Overnight(sleep, wake) then NextDay(e / 1440 % 7) else e / 1440 % 7) in wake.days
    ensures e < EndAfter(e, sleep, wake)
  {
    DayBefore(e / 1440);
  }

  /** Between a sleep event and the end of its window the window says sleeping. */
  lemma SleepsInside(span: Span, sleep: Cron, wake: Cron, t: int)
    requires Regular(sleep, wake) && SpanFor(span, sleep, wake) && Followed(sleep, wake)
    requires LastEventSleeps(sleep, wake, t)
    ensures Inside(span, t)
  {
    var e :| e <= t && Fires(sleep, e) && Quiet(wake, e, t);
    EndFires(sleep, wake, e);
    DayBefore(t / 1440);
    assert t < EndAfter(e, sleep, wake);
    assert e / 1440 == t / 1440 || e / 1440 == t / 1440 - 1;
  }

  /** At the end of an unfollowed window the crons still say sleeping, the window does not. */
  lemma UnfollowedDiffers(span: Span, sleep: Cron, wake: Cron, d: int) returns (t: int)
    requires Regular(sleep, wake) && SpanFor(span, sleep, wake) && d in sleep.days
    requires (if Overnight(sleep, wake) then NextDay(d) else d) !in wake.days
    ensures LastEventSleeps(sleep, wake, t) && !Inside(span, t)
  {
    assert 0 <= d <= 6;
    var e := 1440 * d + TimeOf(sleep);
    assert e / 1440 == d && e % 1440 == TimeOf(sleep) && Fires(sleep, e);
    EndFires(sleep, wake, e);
    t := EndAfter(e, sleep, wake);
    DayBefore(t / 1440);
    forall f | e < f <= t
      ensures !Fires(wake, f)
    {
      SameOrNext(d, TimeOf(sleep), f, t);
    }
  }

  /** The candidate window means the same as the crons exactly when every sleep event is followed by
      its wake event. */
  lemma SameMeaning(span: Span, sleep: Cron, wake: Cron)
    requires Regular(sleep, wake) && SpanFor(span, sleep, wake)
    ensures (forall t :: Inside(span, t) <==> LastEventSleeps(sleep, wake, t)) <==> Followed(sleep, wake)
  {
    if Followed(sleep, wake) {
      forall t
        ensures Inside(span, t) <==> LastEventSleeps(sleep, wake, t)
      {
        if Inside(span, t) {
          InsideSleeps(span, sleep, wake, t);
        }
        if LastEventSleeps(sleep, wake, t) {
          SleepsInside(span, sleep, wake, t);
        }
      }
    } else {
      var d :| d in sleep.days && (if Overnight(sleep, wake) then NextDay(d) else d) !in wake.days;
      var t := UnfollowedDiffers(span, sleep, wake, d);
    }
  }

  /** The migration preserves meaning: the evaluator says sleeping for the returned window exactly
      when the most recent cron event was a sleep event. */
  lemma MigrationKeepsMeaning(w: SleepWindow, sleep: Cron, wake: Cron)
    requires Regular(sleep, wake) && sleep.days != [] && Accepted(sleep, wake) && Shows(w, sleep, wake)
    ensures ValidWindow(w)
    ensures forall t :: Inside(SpanOf(w), t) <==> LastEventSleeps(sleep, wake, t)
  {
    ShownIsValid(w, sleep, wake);
    SameMeaning(SpanOf(w), sleep, wake);
  }

  /** No pair is refused overnight that a window could stand for; during the day an extra wake day is
      enough to refuse a pair that a window could stand for. */
  lemma Refused(sleep: Cron, wake: Cron)
    requires Regular(sleep, wake) && !Accepted(sleep, wake)
    ensures Overnight(sleep, wake) ==> !Followed(sleep, wake)
    ensures !Overnight(sleep, wake) && Followed(sleep, wake) ==> exists d :: d in wake.days && d !in sleep.days
  {
  }

  lemma RefusedInVain()
    ensures exists sleep, wake :: Regular(sleep, wake) && !Accepted(sleep, wake) && Followed(sleep, wake)
  {
    var sleep, wake := Cron(0, 9, [1]), Cron(0, 17, [1, 2]);
    assert 2 in wake.days && 2 !in sleep.days;
    assert Regular(sleep, wake) && !Accepted(sleep, wake) && Followed(sleep, wake);
  }
}

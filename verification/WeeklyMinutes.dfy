/** The dashboard's count of weekly sleep minutes agrees with the evaluator. */
module WeeklyMinutes {
  import opened SleepWindows
  import Sorting

  const MINUTES_PER_DAY := 1440

  /** Minutes from `start` up to, but not including, `end`. */
  datatype Interval = Interval(start: int, end: int)

  function StartOf(i: Interval): int { i.start }

  predicate Within(i: Interval) { 0 <= i.start <= i.end <= MINUTES_PER_DAY }

  ghost predicate AllWithin(intervals: seq<Interval>) {
    forall i :: 0 <= i < |intervals| ==> Within(intervals[i])
  }

  ghost predicate Covered(intervals: seq<Interval>, minute: int) {
    exists i :: 0 <= i < |intervals| && intervals[i].start <= minute < intervals[i].end
  }

  ghost function CoveredMinutes(intervals: seq<Interval>): set<nat> {
    set m: nat | m < MINUTES_PER_DAY && Covered(intervals, m)
  }

  /** The days of a window are days of the week. */
  ghost predicate WeekDays(span: Span) {
    forall i :: 0 <= i < |span.days| ==> 0 <= span.days[i] < 7
  }

  ghost predicate SleepsAt(spans: seq<Span>, day: int, minute: int) {
    exists i :: 0 <= i < |spans| && Contains(spans[i], day, minute)
  }

  /** What is counted: the pairs of a day and a minute at which the evaluator says sleeping. */
  ghost function SleepPairs(spans: seq<Span>, days: nat): set<(nat, nat)> {
    set d: nat, m: nat | d < days && m < MINUTES_PER_DAY && SleepsAt(spans, d, m) :: (d, m)
  }

  // ---------------------------------------------------------------- the code

  method AddWindow(days: seq<seq<Interval>>, span: Span) returns (r: seq<seq<Interval>>)
    requires |days| == 7 && (forall d :: 0 <= d < 7 ==> AllWithin(days[d]))
    requires ValidSpan(span) && WeekDays(span)
    ensures |r| == 7 && forall d :: 0 <= d < 7 ==> AllWithin(r[d])
    ensures forall d, m :: 0 <= d < 7 && 0 <= m < MINUTES_PER_DAY ==>
              (Covered(r[d], m) <==> Covered(days[d], m) || Contains(span, d, m))
  {
    var startMin := if span.allDay then 0 else span.start;
    var endMin := if span.allDay then MINUTES_PER_DAY else span.end;
    r := days;
    for j := 0 to |span.days|
      invariant |r| == 7 && forall d :: 0 <= d < 7 ==> AllWithin(r[d])
      invariant forall d, m :: 0 <= d < 7 && 0 <= m < MINUTES_PER_DAY ==>
                  (Covered(r[d], m) <==> Covered(days[d], m) || Contains(span.(days := span.days[..j]), d, m))
    {
      ghost var before := r;
      var day := span.days[j];
      if endMin > startMin {
        r := Push(r, day, Interval(startMin, endMin));
      } else {
        r := Push(r, day, Interval(startMin, MINUTES_PER_DAY));
        r := Push(r, (day + 1) % 7, Interval(0, endMin));
      }
      OneMoreDay(span, j);
    }
    assert span.days[..|span.days|] == span.days;
  }

  function Push(days: seq<seq<Interval>>, day: int, i: Interval): (r: seq<seq<Interval>>)
    requires |days| == 7 && 0 <= day < 7 && Within(i) && (forall d :: 0 <= d < 7 ==> AllWithin(days[d]))
    ensures |r| == 7 && forall d :: 0 <= d < 7 ==> AllWithin(r[d])
    ensures forall d, m :: 0 <= d < 7 ==>
              (Covered(r[d], m) <==> Covered(days[d], m) || (d == day && i.start <= m < i.end))
  {
    CoveredGrows(days[day], i);
    WithinGrows(days[day], i);
    days[day := days[day] + [i]]
  }

  lemma WithinGrows(intervals: seq<Interval>, i: Interval)
    requires AllWithin(intervals) && Within(i)
    ensures AllWithin(intervals + [i])
  {
  }

  lemma CoveredGrows(intervals: seq<Interval>, i: Interval)
    ensures forall m :: Covered(intervals + [i], m) <==> Covered(intervals, m) || i.start <= m < i.end
  {
    var r := intervals + [i];
    assert r[|intervals|] == i;
    forall m | Covered(intervals, m)
      ensures Covered(r, m)
    {
      var k :| 0 <= k < |intervals| && intervals[k].start <= m < intervals[k].end;
      assert r[k] == intervals[k];
    }
  }

  lemma OneMoreDay(span: Span, j: nat)
    requires j < |span.days| && ValidSpan(span) && WeekDays(span)
    ensures forall d, m :: 0 <= d < 7 && 0 <= m < MINUTES_PER_DAY ==>
              (Contains(span.(days := span.days[..j + 1]), d, m) <==>
               Contains(span.(days := span.days[..j]), d, m) || Contains(span.(days := [span.days[j]]), d, m))
  {
    assert span.days[..j + 1] == span.days[..j] + [span.days[j]];
  }

  /** The sweep over one day's intervals in order of their starts. */
  method MergeDay(intervals: seq<Interval>) returns (total: int)
    requires AllWithin(intervals)
    ensures total == |CoveredMinutes(intervals)|
  {
    Sorting.SortSorts(intervals, StartOf);
    var sorted := Sorting.Sort(intervals, StartOf);
    SortedCovers(intervals, sorted);
    total := 0;
    var start, end := 0, 0;
    assert CoveredMinutes(sorted[..0]) == {};
    for i := 0 to |sorted|
      invariant 0 <= start <= end <= MINUTES_PER_DAY
      invariant forall j :: i <= j < |sorted| ==> start <= sorted[j].start
      invariant forall m :: start <= m < end ==> Covered(sorted[..i], m)
      invariant forall m :: Covered(sorted[..i], m) ==> m < end
      invariant total + (end - start) == |CoveredMinutes(sorted[..i])|
    {
      var next := sorted[i];
      assert next in intervals;
      assert sorted[..i + 1] == sorted[..i] + [next];
      CoveredGrows(sorted[..i], next);
      if next.start > end {
        AddRange(sorted[..i], sorted[..i + 1], next.start, next.end);
        total := total + (end - start);
        start, end := next.start, next.end;
      } else {
        AddRange(sorted[..i], sorted[..i + 1], end, if next.end > end then next.end else end);
        end := if next.end > end then next.end else end;
      }
    }
    assert sorted[..|sorted|] == sorted;
    total := total + (end - start);
  }

  lemma SortedCovers(intervals: seq<Interval>, sorted: seq<Interval>)
    requires AllWithin(intervals) && forall x :: x in sorted <==> x in intervals
    ensures AllWithin(sorted) && CoveredMinutes(sorted) == CoveredMinutes(intervals)
  {
    forall i | 0 <= i < |sorted|
      ensures Within(sorted[i])
    {
      assert sorted[i] in intervals;
    }
    forall m
      ensures Covered(sorted, m) <==> Covered(intervals, m)
    {
      if Covered(sorted, m) {
        var i :| 0 <= i < |sorted| && sorted[i].start <= m < sorted[i].end;
        assert sorted[i] in intervals;
      }
      if Covered(intervals, m) {
        var i :| 0 <= i < |intervals| && intervals[i].start <= m < intervals[i].end;
        assert intervals[i] in sorted;
      }
    }
  }

  ghost function Range(a: nat, b: nat): (r: set<nat>)
    requires a <= b
    ensures |r| == b - a && forall m: nat :: m in r <==> a <= m < b
    decreases b - a
  {
    if a == b then {} else Range(a, b - 1) + {b - 1}
  }

  /** Covering the fresh minutes of one range adds its length. */
  lemma AddRange(before: seq<Interval>, now: seq<Interval>, a: int, b: int)
    requires 0 <= a <= b <= MINUTES_PER_DAY
    requires forall m :: Covered(before, m) ==> m < a
    requires forall m :: Covered(now, m) <==> Covered(before, m) || a <= m < b
    ensures |CoveredMinutes(now)| == |CoveredMinutes(before)| + (b - a)
  {
    assert CoveredMinutes(now) == CoveredMinutes(before) + Range(a, b);
    assert CoveredMinutes(before) !! Range(a, b);
  }

  /** weeklySleepMinutes. */
  method WeeklySleepMinutes(ws: seq<SleepWindow>) returns (total: int)
    requires ValidWindows(ws)
    ensures total == |SleepPairs(Spans(ws), 7)|
  {
    total := SpanMinutes(Spans(ws));
  }

  /** The same on windows whose times have been read. */
  method SpanMinutes(spans: seq<Span>) returns (total: int)
    requires ValidSpans(spans) && forall i :: 0 <= i < |spans| ==> WeekDays(spans[i])
    ensures total == |SleepPairs(spans, 7)|
  {
    var days: seq<seq<Interval>> := [[], [], [], [], [], [], []];
    for i := 0 to |spans|
      invariant |days| == 7 && forall d :: 0 <= d < 7 ==> AllWithin(days[d])
      invariant forall d, m :: 0 <= d < 7 && 0 <= m < MINUTES_PER_DAY ==>
                  (Covered(days[d], m) <==> SleepsAt(spans[..i], d, m))
    {
      days := AddWindow(days, spans[i]);
      SleepsGrows(spans, i);
    }
    assert spans[..|spans|] == spans;
    total := 0;
    assert SleepPairs(spans, 0) == {};
    for d := 0 to 7
      invariant total == |SleepPairs(spans, d)|
    {
      var ofDay := MergeDay(days[d]);
      OneDay(spans, d, CoveredMinutes(days[d]));
      total := total + ofDay;
    }
  }

  lemma SleepsGrows(spans: seq<Span>, i: nat)
    requires i < |spans|
    ensures forall d, m :: SleepsAt(spans[..i + 1], d, m) <==> SleepsAt(spans[..i], d, m) || Contains(spans[i], d, m)
  {
  }

  ghost function Paired(d: nat, minutes: set<nat>): (pairs: set<(nat, nat)>)
    ensures |pairs| == |minutes| && forall p: (nat, nat) :: p in pairs <==> p.0 == d && p.1 in minutes
  {
    if minutes == {} then {}
    else
      var m :| m in minutes;
      Paired(d, minutes - {m}) + {(d, m)}
  }

  lemma OneDay(spans: seq<Span>, d: nat, minutes: set<nat>)
    requires forall m: nat :: m in minutes <==> m < MINUTES_PER_DAY && SleepsAt(spans, d, m)
    ensures |SleepPairs(spans, d + 1)| == |SleepPairs(spans, d)| + |minutes|
  {
    var pairs := Paired(d, minutes);
    forall p: (nat, nat)
      ensures p in SleepPairs(spans, d + 1) <==> p in SleepPairs(spans, d) || p in pairs
    {
      assert p == (p.0, p.1);
    }
    assert SleepPairs(spans, d + 1) == SleepPairs(spans, d) + pairs;
    assert SleepPairs(spans, d) !! pairs;
  }
}

/** The search for the next change of the evaluated state is exact and complete. */
module NextTransition {
  import opened Options
  import opened SleepWindows
  import Sorting

  const LOOKAHEAD_DAYS: nat := 8

  /** `t` is one of the boundary times that `span` contributes for calendar day `day`. */
  ghost predicate IsBoundary(span: Span, day: int, t: int) {
    var today := DayInSet(Weekday(day), span.days);
    if span.allDay then
      (today && t == Midnight(day)) ||
      (today && !DayInSet(Weekday(day + 1), span.days) && t == Midnight(day + 1))
    else
      (today && t == Midnight(day) + 60 * span.start) ||
      ((if span.start < span.end then today else DayInSet((Weekday(day) + 6) % 7, span.days)) &&
       t == Midnight(day) + 60 * span.end)
  }

  ghost predicate Generated(spans: seq<Span>, day: int, t: int) {
    exists i :: 0 <= i < |spans| && IsBoundary(spans[i], day, t)
  }

  ghost predicate InList(spans: seq<Span>, today: int, numDays: nat, t: int) {
    exists day :: today <= day < today + numDays && Generated(spans, day, t)
  }

  // ---------------------------------------------------------------- the code

  method SpanBoundaries(span: Span, day: int) returns (b: seq<int>)
    ensures forall t :: t in b <==> IsBoundary(span, day, t)
  {
    b := [];
    var today := DayInSet(Weekday(day), span.days);
    if span.allDay {
      if today {
        b := b + [Midnight(day)];
      }
      if today && !DayInSet(Weekday(day + 1), span.days) {
        b := b + [Midnight(day + 1)];
      }
      if today && !DayInSet((Weekday(day) + 6) % 7, span.days) {
        b := b + [Midnight(day)];
      }
      return;
    }
    if today {
      b := b + [Midnight(day) + 60 * span.start];
    }
    if span.start < span.end {
      if today {
        b := b + [Midnight(day) + 60 * span.end];
      }
    } else {
      if DayInSet((Weekday(day) + 6) % 7, span.days) {
        b := b + [Midnight(day) + 60 * span.end];
      }
    }
  }

  method DayBoundaries(spans: seq<Span>, day: int) returns (b: seq<int>)
    ensures forall t :: t in b <==> Generated(spans, day, t)
  {
    b := [];
    for i := 0 to |spans|
      invariant forall t :: t in b <==> Generated(spans[..i], day, t)
    {
      var ofSpan := SpanBoundaries(spans[i], day);
      GeneratedGrows(spans, i, day);
      b := b + ofSpan;
    }
    assert spans[..|spans|] == spans;
  }

  lemma GeneratedGrows(spans: seq<Span>, i: nat, day: int)
    requires i < |spans|
    ensures forall t :: Generated(spans[..i + 1], day, t) <==> Generated(spans[..i], day, t) || IsBoundary(spans[i], day, t)
  {
  }

  method CollectBoundaries(spans: seq<Span>, local: int, numDays: nat) returns (boundaries: seq<int>)
    ensures Sorting.Ascending(boundaries, Sorting.Identity)
    ensures forall t :: t in boundaries <==> InList(spans, DayOf(local), numDays, t)
  {
    var today := DayOf(local);
    boundaries := [];
    for offset := 0 to numDays
      invariant forall t :: t in boundaries <==> InList(spans, today, offset, t)
    {
      var ofDay := DayBoundaries(spans, today + offset);
      ListGrows(spans, today, offset);
      boundaries := boundaries + ofDay;
    }
    Sorting.SortSorts(boundaries, Sorting.Identity);
    boundaries := Sorting.Sort(boundaries, Sorting.Identity);
  }

  lemma ListGrows(spans: seq<Span>, today: int, offset: nat)
    ensures forall t :: InList(spans, today, offset + 1, t) <==>
                        InList(spans, today, offset, t) || Generated(spans, today + offset, t)
  {
    var last := today + offset;
    forall t | Generated(spans, last, t)
      ensures InList(spans, today, offset + 1, t)
    {
      assert today <= last < today + (offset + 1);
    }
  }

  /** The search itself, on local times: the first later time with the other state, if there is one. */
  method NextChange(spans: seq<Span>, local: int) returns (next: Option<int>)
    requires ValidSpans(spans)
    ensures next.Some? ==>
              && local < next.value
              && Asleep(spans, next.value) != Asleep(spans, local)
              && (forall u :: local < u < next.value ==> Asleep(spans, u) == Asleep(spans, local))
    ensures next.None? ==> forall u :: Asleep(spans, u) == Asleep(spans, local)
  {
    var current := Evaluate(spans, 0, local);
    var boundaries := CollectBoundaries(spans, local, LOOKAHEAD_DAYS);
    for i := 0 to |boundaries|
      invariant forall j :: 0 <= j < i ==> boundaries[j] <= local || Asleep(spans, boundaries[j]) == current
    {
      if boundaries[i] <= local {
        continue;
      }
      var stateAtBoundary := Evaluate(spans, 0, boundaries[i]);
      if stateAtBoundary != current {
        FirstDifferent(spans, local, boundaries, i);
        return Some(boundaries[i]);
      }
    }
    NoneDifferent(spans, local, boundaries);
    return None;
  }

  /** NextTransitionInLocation for a zone with a fixed offset; times are UTC seconds.  A result is
      the first instant after `now` with the other state; no result means that there is none. */
  method NextTransition(ws: seq<SleepWindow>, offset: int, now: int) returns (next: Option<int>)
    requires ValidWindows(ws)
    ensures next.Some? ==>
              && now < next.value
              && SleepingAt(ws, offset, next.value) != SleepingAt(ws, offset, now)
              && (forall u :: now < u < next.value ==> SleepingAt(ws, offset, u) == SleepingAt(ws, offset, now))
    ensures next.None? ==> forall u :: SleepingAt(ws, offset, u) == SleepingAt(ws, offset, now)
  {
    if ws == [] {
      return None;
    }
    var spans := Spans(ws);
    var change := NextChange(spans, now + offset);
    if change.None? {
      return None;
    }
    return Some(change.value - offset);
  }

  // ---------------------------------------------------------------- why it is exact

  predicate ContainsAt(span: Span, t: int) {
    Contains(span, Weekday(DayOf(t)), MinuteOf(t))
  }

  /** A span opens or closes only at a boundary it contributes for that day or, at midnight, for the
      day before. */
  lemma SpanChange(span: Span, t: int)
    requires ValidSpan(span) && ContainsAt(span, t - 1) != ContainsAt(span, t)
    ensures IsBoundary(span, DayOf(t), t) || (t == Midnight(DayOf(t)) && IsBoundary(span, DayOf(t) - 1, t))
  {
  }

  lemma StateChange(spans: seq<Span>, t: int)
    requires ValidSpans(spans) && Asleep(spans, t - 1) != Asleep(spans, t)
    ensures Generated(spans, DayOf(t), t) || (t == Midnight(DayOf(t)) && Generated(spans, DayOf(t) - 1, t))
  {
    var i :| 0 <= i < |spans| && ContainsAt(spans[i], t - 1) != ContainsAt(spans[i], t);
    SpanChange(spans[i], t);
  }

  /** Every later change up to the end of the last day looked at is in the list. */
  lemma ChangeInList(spans: seq<Span>, local: int, t: int)
    requires ValidSpans(spans) && local < t && DayOf(t) < DayOf(local) + LOOKAHEAD_DAYS
    requires Asleep(spans, t - 1) != Asleep(spans, t)
    ensures InList(spans, DayOf(local), LOOKAHEAD_DAYS, t)
  {
    StateChange(spans, t);
    assert DayOf(local) <= DayOf(t);
    if !Generated(spans, DayOf(t), t) {
      assert DayOf(local) <= DayOf(t) - 1;
    }
  }

  lemma {:induction false} NoChangeUpTo(spans: seq<Span>, local: int, end: int)
    requires ValidSpans(spans) && local <= end && DayOf(end) < DayOf(local) + LOOKAHEAD_DAYS
    requires forall c :: local < c <= end && InList(spans, DayOf(local), LOOKAHEAD_DAYS, c) ==>
                           Asleep(spans, c) == Asleep(spans, local)
    ensures forall u :: local <= u <= end ==> Asleep(spans, u) == Asleep(spans, local)
    decreases end - local
  {
    if local < end {
      NoChangeUpTo(spans, local, end - 1);
      if Asleep(spans, end) != Asleep(spans, local) {
        ChangeInList(spans, local, end);
      }
    }
  }

  lemma BoundaryRange(spans: seq<Span>, day: int, t: int)
    requires ValidSpans(spans) && Generated(spans, day, t)
    ensures DayOf(t - 1) <= day
  {
  }

  lemma FirstDifferent(spans: seq<Span>, local: int, boundaries: seq<int>, i: nat)
    requires ValidSpans(spans) && i < |boundaries| && local < boundaries[i]
    requires Sorting.Ascending(boundaries, Sorting.Identity)
    requires forall t :: t in boundaries <==> InList(spans, DayOf(local), LOOKAHEAD_DAYS, t)
    requires forall j :: 0 <= j < i ==> boundaries[j] <= local || Asleep(spans, boundaries[j]) == Asleep(spans, local)
    ensures forall u :: local < u < boundaries[i] ==> Asleep(spans, u) == Asleep(spans, local)
  {
    var b := boundaries[i];
    assert b in boundaries;
    var day :| DayOf(local) <= day < DayOf(local) + LOOKAHEAD_DAYS && Generated(spans, day, b);
    BoundaryRange(spans, day, b);
    forall c | local < c < b && c in boundaries
      ensures Asleep(spans, c) == Asleep(spans, local)
    {
      var j :| 0 <= j < |boundaries| && boundaries[j] == c;
      assert j < i;
    }
    NoChangeUpTo(spans, local, b - 1);
  }

  /** Eight calendar days reach a full week ahead, and a state that holds for a week holds forever. */
  lemma NoneDifferent(spans: seq<Span>, local: int, boundaries: seq<int>)
    requires ValidSpans(spans)
    requires forall t :: t in boundaries <==> InList(spans, DayOf(local), LOOKAHEAD_DAYS, t)
    requires forall j :: 0 <= j < |boundaries| ==>
               boundaries[j] <= local || Asleep(spans, boundaries[j]) == Asleep(spans, local)
    ensures forall u :: Asleep(spans, u) == Asleep(spans, local)
  {
    forall c | local < c && c in boundaries
      ensures Asleep(spans, c) == Asleep(spans, local)
    {
      var j :| 0 <= j < |boundaries| && boundaries[j] == c;
    }
    assert DayOf(local + 604800) == DayOf(local) + 7;
    NoChangeUpTo(spans, local, local + 604800);
    ConstantWeek(spans, local);
  }

  lemma WeeklyPeriod(spans: seq<Span>, t: int)
    ensures Asleep(spans, t + 604800) == Asleep(spans, t)
  {
    assert DayOf(t + 604800) == DayOf(t) + 7 && MinuteOf(t + 604800) == MinuteOf(t);
    assert Weekday(DayOf(t) + 7) == Weekday(DayOf(t));
  }

  lemma {:induction false} ManyWeeks(spans: seq<Span>, t: int, n: nat, u: int)
    requires u == t + 604800 * n
    ensures Asleep(spans, u) == Asleep(spans, t)
  {
    if n > 0 {
      ManyWeeks(spans, t, n - 1, u - 604800);
      WeeklyPeriod(spans, u - 604800);
    }
  }

  /** A state that does not change for a week never changes. */
  lemma ConstantWeek(spans: seq<Span>, local: int)
    requires forall u :: local <= u <= local + 604800 ==> Asleep(spans, u) == Asleep(spans, local)
    ensures forall u :: Asleep(spans, u) == Asleep(spans, local)
  {
    forall u: int
      ensures Asleep(spans, u) == Asleep(spans, local)
    {
      var q, r := (u - local) / 604800, (u - local) % 604800;
      if q >= 0 {
        ManyWeeks(spans, local + r, q, u);
      } else {
        ManyWeeks(spans, u, -q, local + r);
      }
    }
  }
}

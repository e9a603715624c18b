/** What a tick does for one policy, and how long it takes until the policy is in its intended
    state.  Time counts seconds. */
module SchedulerTicks {
  import opened Options
  import opened SchedulerClaims

  const RECONCILE_BACKOFF := 300

  /** The cached state and since when, the stored state, and when a transition failed, a correction was
      tried, and each exception was tried for the last time. */
  datatype PolicyView = PolicyView(
    cached: PolicyState,
    since: Option<int>,
    stored: PolicyState,
    lastFailed: Option<int>,
    lastReconcile: Option<int>,
    lastAttempts: map<nat, int>)

  datatype Settings = Settings(
    intended: PolicyState,
    autoWake: bool,
    timeoutMinutes: int,
    reconcileWhileAwake: bool,
    enforceSleep: bool)

  /** An active exception with targeting filters; stay_awake asks for a wake, force_sleep for a sleep. */
  datatype Targeted = Targeted(id: nat, direction: Direction)

  /** What a tick finds: the targeted exceptions, how many rows wait to be restored, whether a workload
      that was put to sleep is up again (None when a query fails), and whether the windows alone say
      awake. */
  datatype Findings = Findings(
    exceptions: seq<Targeted>,
    restorable: Option<nat>,
    drifted: Option<bool>,
    scheduledAwake: bool)

  datatype Action =
    | Rest
    | Reset
    | Start(direction: Direction)
    | Retry(id: nat, direction: Direction)           // of a targeted exception
    | Correct(direction: Direction, scoped: bool)    // of drift

  predicate BackoffElapsed(last: Option<int>, now: int) {
    last.None? || now - last.value >= RECONCILE_BACKOFF
  }

  /** The first exception that has not been tried for a while. */
  function FirstDue(exceptions: seq<Targeted>, last: map<nat, int>, now: int): Option<Targeted> {
    if exceptions == [] then None
    else
      var e := exceptions[0];
      if BackoffElapsed(if e.id in last then Some(last[e.id]) else None, now) then Some(e)
      else FirstDue(exceptions[1..], last, now)
  }

  predicate AsksAwake(exceptions: seq<Targeted>) {
    exists i :: 0 <= i < |exceptions| && exceptions[i].direction == Wake
  }

  /** reconcilePolicy, for a policy whose cached state is the intended one. */
  function Reconcile(v: PolicyView, c: Settings, now: int, f: Findings): Action {
    var due := FirstDue(f.exceptions, v.lastAttempts, now);
    if due.Some? then Retry(due.value.id, due.value.direction)
    else if !BackoffElapsed(v.lastReconcile, now) then Rest
    else if v.cached == Awake && c.reconcileWhileAwake && f.restorable.Some? && f.restorable.value > 0 then
      Correct(Wake, !f.scheduledAwake && AsksAwake(f.exceptions))
    else if v.cached == Sleeping && c.enforceSleep && f.drifted == Some(true) then Correct(Sleep, false)
    else Rest
  }

  /** evaluatePolicy, resetStuckTransition and executeTransition up to their effect. */
  function Decide(v: PolicyView, running: bool, c: Settings, now: int, f: Findings): Action {
    if c.intended == Unknown then Rest
    else if v.cached == c.intended then Reconcile(v, c, now, f)
    else if v.cached == Transitioning then
      if running || v.since.None? || now - v.since.value <= StuckTimeout(c.timeoutMinutes) then Rest else Reset
    else if c.intended == Awake && !c.autoWake then Rest
    else if !BackoffElapsed(v.lastFailed, now) then Rest
    else Start(if c.intended == Awake then Wake else Sleep)
  }

  predicate Runs(action: Action) {
    action.Start? || action.Retry? || action.Correct?
  }

  /** Retries and corrections are recorded whether or not their run starts. */
  function Recorded(v: PolicyView, action: Action, now: int): PolicyView {
    match action
    case Retry(id, _) => v.(lastAttempts := v.lastAttempts[id := now])
    case Correct(_, _) => v.(lastReconcile := Some(now))
    case _ => v
  }

  function Claimed(v: PolicyView, now: int): PolicyView {
    v.(cached := Transitioning, since := Some(now), stored := Transitioning)
  }

  /** What the action leaves when all calls work; the compare-and-set refuses a claim on a policy that is
      stored as transitioning. */
  function Acted(v: PolicyView, action: Action, running: bool, now: int): PolicyView {
    if action.Reset? then v.(cached := Unknown, stored := Unknown)
    else if Runs(action) && !running && v.stored != Transitioning then Claimed(Recorded(v, action, now), now)
    else Recorded(v, action, now)
  }

  predicate ScopedRun(action: Action) {
    action.Retry? || (action.Correct? && action.scoped)
  }

  /** How an execution ends: well, with an error or a cancellation, or with a panic. */
  datatype Ending = Succeeds | Fails | Panics

  /** An execution under way: when it will end and how, and whether it is narrowed to an exception. */
  datatype Running = Running(ends: int, scoped: bool, ending: Ending)

  datatype Timed = Timed(v: PolicyView, run: Option<Running>)

  /** An ordinary execution that succeeds brings the intended state about, a narrowed one puts it back, with
      the time of the claim.  After any other the state is unknown, and unless it was narrowed and did not
      panic, a failed transition is on record. */
  function Ended(v: PolicyView, c: Settings, run: Running): PolicyView {
    var quiet := run.scoped && !run.ending.Panics?;
    var state := if run.ending.Succeeds? then c.intended else Unknown;
    v.(cached := state, stored := state,
       since := if quiet then v.since else Some(run.ends),
       lastFailed := if quiet then v.lastFailed else if run.ending.Succeeds? then None else Some(run.ends))
  }

  function Complete(x: Timed, c: Settings, now: int): Timed {
    if x.run.Some? && x.run.value.ends <= now then Timed(Ended(x.v, c, x.run.value), None) else x
  }

  /** One tick with a working store; an execution that starts takes `duration` and ends with `ending`. */
  function Tick(x: Timed, c: Settings, now: int, duration: nat, ending: Ending, f: Findings): Timed {
    var y := Complete(x, c, now);
    var action := Decide(y.v, y.run.Some?, c, now, f);
    Timed(Acted(y.v, action, y.run.Some?, now),
          if Runs(action) && y.run.None? && y.v.stored != Transitioning then Some(Running(now + duration, ScopedRun(action), ending))
          else y.run)
  }

  /** When the ticks come, how long the executions take that they start and how these end, and what the
      ticks find. */
  datatype Schedule = Schedule(ticks: nat -> int, durations: nat -> nat, endings: nat -> Ending, finds: nat -> Findings)

  function Before(x: Timed, c: Settings, plan: Schedule, n: nat): Timed
    decreases n, 0
  {
    if n == 0 then x else AfterTicks(x, c, plan, n - 1)
  }

  function AfterTicks(x: Timed, c: Settings, plan: Schedule, n: nat): Timed
    decreases n, 1
  {
    Tick(Before(x, c, plan, n), c, plan.ticks(n), plan.durations(n), plan.endings(n), plan.finds(n))
  }

  /** Tick `n` finds the policy in its intended state, as the cache says, and asks for another run. */
  predicate CorrectsAt(x: Timed, c: Settings, plan: Schedule, n: nat) {
    var y := Complete(Before(x, c, plan, n), c, plan.ticks(n));
    var action := Decide(y.v, y.run.Some?, c, plan.ticks(n), plan.finds(n));
    action.Retry? || action.Correct?
  }

  predicate SpacedAt(plan: Schedule, n: nat, gap: nat) {
    plan.ticks(n) < plan.ticks(n + 1) <= plan.ticks(n) + gap
  }

  /** Ticks come at most `gap` apart, from `now` on, and no execution takes longer than `longest`. */
  ghost predicate Timely(plan: Schedule, now: int, gap: nat, longest: nat) {
    && now < plan.ticks(0) <= now + gap
    && (forall n: nat :: SpacedAt(plan, n, gap))
    && (forall n: nat :: plan.durations(n) <= longest)
  }

  /** And every execution succeeds. */
  ghost predicate Regular(plan: Schedule, now: int, gap: nat, longest: nat) {
    Timely(plan, now, gap, longest) && forall n: nat :: plan.endings(n) == Succeeds
  }

  predicate Reached(x: Timed, c: Settings) {
    x.v.cached == x.v.stored == c.intended && x.run.None?
  }

  /** In the intended state, or in an execution that ends in it within `longest`. */
  predicate Steady(x: Timed, c: Settings, t: int, longest: nat) {
    Reached(x, c) ||
    (x.run.Some? && x.run.value.ending.Succeeds? && x.v.cached == x.v.stored == Transitioning &&
     t <= x.run.value.ends <= t + longest)
  }

  /** The cache and the store do not contradict each other. */
  predicate Consistent(v: PolicyView, intended: PolicyState) {
    v.cached == Transitioning || (if v.cached == intended then v.stored == intended else v.stored != Transitioning)
  }

  /** Idle, with clock readings that are not in the future. */
  predicate Idle(x: Timed, now: int) {
    && x.run.None?
    && (x.v.cached == Transitioning ==> x.v.since.Some? && x.v.since.value <= now)
    && (x.v.lastFailed.Some? ==> x.v.lastFailed.value <= now)
  }

  predicate CanReach(c: Settings) {
    c.intended == Sleeping || (c.intended == Awake && c.autoWake)
  }

  // ---------------------------------------------------------------- the bound

  lemma TickSteady(x: Timed, c: Settings, before: int, t: int, longest: nat, duration: nat, f: Findings)
    requires Steady(x, c, before, longest) && before < t && duration <= longest && c.intended != Transitioning
    ensures Steady(Tick(x, c, t, duration, Succeeds, f), c, t, longest)
  {
  }

  /** Where the policy stands after a tick at `t`, when it will have settled down by `soon`, or by `late` if
      it has to be freed first. */
  predicate OnTrack(x: Timed, c: Settings, now: int, t: int, gap: nat, longest: nat) {
    Steady(x, c, t, longest) ||
    (Idle(x, now) && x.v.cached != c.intended &&
     var stuck := StuckTimeout(c.timeoutMinutes);
     if x.v.cached == Transitioning then t <= now + stuck else x.v.stored != Transitioning && t <= now + stuck + gap)
  }

  lemma TickOnTrack(x: Timed, c: Settings, now: int, before: int, t: int, gap: nat, longest: nat, duration: nat, f: Findings)
    requires CanReach(c) && OnTrack(x, c, now, before, gap, longest) && before < t <= before + gap && duration <= longest
    ensures OnTrack(Tick(x, c, t, duration, Succeeds, f), c, now, t, gap, longest)
  {
    if Steady(x, c, before, longest) {
      TickSteady(x, c, before, t, longest, duration, f);
    }
  }

  lemma {:induction false} StaysOnTrack(x: Timed, c: Settings, plan: Schedule, now: int, gap: nat, longest: nat, n: nat)
    requires CanReach(c) && Idle(x, now) && Consistent(x.v, c.intended) && Regular(plan, now, gap, longest)
    ensures OnTrack(AfterTicks(x, c, plan, n), c, now, plan.ticks(n), gap, longest)
  {
    if n == 0 {
      TickOnTrack(x, c, now, now, plan.ticks(0), gap, longest, plan.durations(0), plan.finds(0));
    } else {
      StaysOnTrack(x, c, plan, now, gap, longest, n - 1);
      assert SpacedAt(plan, n - 1, gap);
      TickOnTrack(AfterTicks(x, c, plan, n - 1), c, now, plan.ticks(n - 1), plan.ticks(n), gap, longest, plan.durations(n), plan.finds(n));
    }
  }

  /** Bounded convergence: from an idle, consistent policy, once the stuck timeout and one tick have
      passed, whatever drift the ticks find, the policy is at every tick in its intended state or in an
      execution that ends in it within `longest`. */
  lemma Converges(x: Timed, c: Settings, plan: Schedule, now: int, gap: nat, longest: nat, n: nat)
    requires CanReach(c) && Idle(x, now) && Consistent(x.v, c.intended) && Regular(plan, now, gap, longest)
    requires plan.ticks(n) > now + StuckTimeout(c.timeoutMinutes) + gap
    ensures Steady(AfterTicks(x, c, plan, n), c, plan.ticks(n), longest)
  {
    StaysOnTrack(x, c, plan, now, gap, longest, n);
  }

  /** A policy whose cached state is not stuck gets there without waiting for the stuck timeout. */
  predicate SoonOnTrack(x: Timed, c: Settings, now: int, t: int, longest: nat) {
    Steady(x, c, t, longest) ||
    (Idle(x, now) && x.v.cached != Transitioning && x.v.cached != c.intended && x.v.stored != Transitioning && t < now + RECONCILE_BACKOFF)
  }

  lemma TickSoonOnTrack(x: Timed, c: Settings, now: int, before: int, t: int, longest: nat, duration: nat, f: Findings)
    requires CanReach(c) && SoonOnTrack(x, c, now, before, longest) && before < t && duration <= longest
    ensures SoonOnTrack(Tick(x, c, t, duration, Succeeds, f), c, now, t, longest)
  {
    if Steady(x, c, before, longest) {
      TickSteady(x, c, before, t, longest, duration, f);
    }
  }

  lemma {:induction false} ConvergesSoon(x: Timed, c: Settings, plan: Schedule, now: int, gap: nat, longest: nat, n: nat)
    requires CanReach(c) && Idle(x, now) && Consistent(x.v, c.intended) && Regular(plan, now, gap, longest)
    requires x.v.cached != Transitioning
    ensures SoonOnTrack(AfterTicks(x, c, plan, n), c, now, plan.ticks(n), longest)
    ensures plan.ticks(n) >= now + RECONCILE_BACKOFF ==> Steady(AfterTicks(x, c, plan, n), c, plan.ticks(n), longest)
  {
    if n == 0 {
      TickSoonOnTrack(x, c, now, now, plan.ticks(0), longest, plan.durations(0), plan.finds(0));
    } else {
      ConvergesSoon(x, c, plan, now, gap, longest, n - 1);
      assert SpacedAt(plan, n - 1, gap);
      TickSoonOnTrack(AfterTicks(x, c, plan, n - 1), c, now, plan.ticks(n - 1), plan.ticks(n), longest, plan.durations(n), plan.finds(n));
    }
  }

  // ---------------------------------------------------------------- what drift adds

  /** A tick up to `n`, less than `longest` before `t`, has asked for a correction. */
  ghost predicate CorrectedLately(x: Timed, c: Settings, plan: Schedule, n: nat, t: int, longest: nat) {
    exists i: nat :: i <= n && t <= plan.ticks(i) + longest && CorrectsAt(x, c, plan, i)
  }

  /** An execution under way is the one that brought the policy to its intended state, or a correction. */
  lemma {:induction false} WhyRunning(x: Timed, c: Settings, plan: Schedule, now: int, gap: nat, longest: nat, n: nat)
    requires CanReach(c) && Idle(x, now) && Consistent(x.v, c.intended) && Regular(plan, now, gap, longest)
    ensures var y := AfterTicks(x, c, plan, n);
            y.run.Some? ==>
              y.run.value.ends <= now + StuckTimeout(c.timeoutMinutes) + 2 * gap + longest ||
              CorrectedLately(x, c, plan, n, y.run.value.ends, longest)
  {
    var y := AfterTicks(x, c, plan, n);
    var before := Complete(Before(x, c, plan, n), c, plan.ticks(n));
    if n > 0 {
      WhyRunning(x, c, plan, now, gap, longest, n - 1);
      StaysOnTrack(x, c, plan, now, gap, longest, n - 1);
      assert SpacedAt(plan, n - 1, gap);
      if y.run.Some? && y.run == before.run {
        assert y.run == AfterTicks(x, c, plan, n - 1).run;
        if i: nat :| i <= n - 1 && y.run.value.ends <= plan.ticks(i) + longest && CorrectsAt(x, c, plan, i) {
          assert i <= n;
        }
      }
    }
    if y.run.Some? && y.run != before.run && CorrectsAt(x, c, plan, n) {
      assert y.run.value.ends <= plan.ticks(n) + longest;
    }
  }

  /** Once the first transition is over, only a correction of drift found less than `longest` ago keeps the
      policy from being in its intended state. */
  lemma OnlyDriftDisturbs(x: Timed, c: Settings, plan: Schedule, now: int, gap: nat, longest: nat, n: nat)
    requires CanReach(c) && Idle(x, now) && Consistent(x.v, c.intended) && Regular(plan, now, gap, longest)
    requires plan.ticks(n) > now + StuckTimeout(c.timeoutMinutes) + 2 * gap + longest
    ensures Reached(AfterTicks(x, c, plan, n), c) || CorrectedLately(x, c, plan, n, plan.ticks(n), longest)
  {
    Converges(x, c, plan, now, gap, longest, n);
    WhyRunning(x, c, plan, now, gap, longest, n);
    var y := AfterTicks(x, c, plan, n);
    if !Reached(y, c) {
      var i: nat :| i <= n && y.run.value.ends <= plan.ticks(i) + longest && CorrectsAt(x, c, plan, i);
      assert plan.ticks(n) <= plan.ticks(i) + longest;
    }
  }

  // ---------------------------------------------------------------- the exact condition

  /** An idle policy whose cache and store contradict each other stays as it is, as far as the two states
      go: if it is stored as transitioning every claim is refused; otherwise the cache shows the intended
      state and nothing is started, until a tick asks for a correction. */
  lemma {:induction false} Starves(x: Timed, c: Settings, plan: Schedule, n: nat)
    requires x.run.None? && !Consistent(x.v, c.intended)
    requires x.v.stored == Transitioning || forall i: nat :: i <= n ==> !CorrectsAt(x, c, plan, i)
    ensures var y := AfterTicks(x, c, plan, n); y.run.None? && y.v.cached == x.v.cached && y.v.stored == x.v.stored
  {
    if n > 0 {
      Starves(x, c, plan, n - 1);
    }
    assert x.v.stored == Transitioning || !CorrectsAt(x, c, plan, n);
  }

  lemma {:induction false} StaysSteady(x: Timed, c: Settings, plan: Schedule, now: int, gap: nat, longest: nat, m: nat, n: nat)
    requires Regular(plan, now, gap, longest) && m <= n && c.intended != Transitioning
    requires Steady(AfterTicks(x, c, plan, m), c, plan.ticks(m), longest)
    ensures Steady(AfterTicks(x, c, plan, n), c, plan.ticks(n), longest)
  {
    if m < n {
      StaysSteady(x, c, plan, now, gap, longest, m, n - 1);
      assert SpacedAt(plan, n - 1, gap);
      TickSteady(AfterTicks(x, c, plan, n - 1), c, plan.ticks(n - 1), plan.ticks(n), longest, plan.durations(n), plan.finds(n));
    }
  }

  /** The first correction heals a policy that is not stored as transitioning. */
  lemma {:induction false} Heals(x: Timed, c: Settings, plan: Schedule, now: int, gap: nat, longest: nat, m: nat)
    requires x.run.None? && !Consistent(x.v, c.intended) && x.v.stored != Transitioning && c.intended != Transitioning
    requires Regular(plan, now, gap, longest) && CorrectsAt(x, c, plan, m)
    ensures Steady(AfterTicks(x, c, plan, m), c, plan.ticks(m), longest)
  {
    if i: nat :| i < m && CorrectsAt(x, c, plan, i) {
      Heals(x, c, plan, now, gap, longest, i);
      StaysSteady(x, c, plan, now, gap, longest, i, m);
    } else if m > 0 {
      Starves(x, c, plan, m - 1);
    }
  }

  ghost predicate EventuallySteady(x: Timed, c: Settings, plan: Schedule, longest: nat) {
    exists m: nat :: SteadyFrom(x, c, plan, longest, m)
  }

  ghost predicate SteadyFrom(x: Timed, c: Settings, plan: Schedule, longest: nat, m: nat) {
    forall n: nat :: n >= m ==> Steady(AfterTicks(x, c, plan, n), c, plan.ticks(n), longest)
  }

  /** For given findings, the policy settles down exactly when cache and store are consistent to begin
      with, or it is not stored as transitioning and some tick asks for a correction. */
  lemma SettlesExactly(x: Timed, c: Settings, plan: Schedule, now: int, gap: nat, longest: nat)
    requires CanReach(c) && Idle(x, now) && Regular(plan, now, gap, longest)
    ensures EventuallySteady(x, c, plan, longest) <==>
            Consistent(x.v, c.intended) || (x.v.stored != Transitioning && exists m: nat :: CorrectsAt(x, c, plan, m))
  {
    var bound := StuckTimeout(c.timeoutMinutes) + gap;
    if Consistent(x.v, c.intended) {
      TicksPass(plan, now, gap, longest, bound);
      Converges(x, c, plan, now, gap, longest, bound);
      SteadyOn(x, c, plan, now, gap, longest, bound);
    } else if x.v.stored != Transitioning && exists m: nat :: CorrectsAt(x, c, plan, m) {
      var m: nat :| CorrectsAt(x, c, plan, m);
      Heals(x, c, plan, now, gap, longest, m);
      SteadyOn(x, c, plan, now, gap, longest, m);
    } else {
      forall m: nat
        ensures !SteadyFrom(x, c, plan, longest, m)
      {
        Starves(x, c, plan, m);
        assert !Steady(AfterTicks(x, c, plan, m), c, plan.ticks(m), longest);
      }
    }
  }

  lemma SteadyOn(x: Timed, c: Settings, plan: Schedule, now: int, gap: nat, longest: nat, m: nat)
    requires Regular(plan, now, gap, longest) && c.intended != Transitioning
    requires Steady(AfterTicks(x, c, plan, m), c, plan.ticks(m), longest)
    ensures SteadyFrom(x, c, plan, longest, m)
  {
    forall n: nat | n >= m
      ensures Steady(AfterTicks(x, c, plan, n), c, plan.ticks(n), longest)
    {
      StaysSteady(x, c, plan, now, gap, longest, m, n);
    }
  }

  function WithFindings(plan: Schedule, finds: nat -> Findings): Schedule {
    plan.(finds := finds)
  }

  /** Past the bound the policy is steady whatever the ticks find. */
  ghost predicate SteadyAnyway(x: Timed, c: Settings, plan: Schedule, bound: int, longest: nat) {
    forall finds: nat -> Findings, n: nat :: plan.ticks(n) > bound ==>
      Steady(AfterTicks(x, c, WithFindings(plan, finds), n), c, plan.ticks(n), longest)
  }

  /** The policy settles down within the bound whatever the ticks find exactly when cache and store are
      consistent to begin with. */
  lemma ConvergesExactly(x: Timed, c: Settings, plan: Schedule, now: int, gap: nat, longest: nat)
    requires CanReach(c) && Idle(x, now) && Regular(plan, now, gap, longest)
    ensures Consistent(x.v, c.intended) <==>
            SteadyAnyway(x, c, plan, now + StuckTimeout(c.timeoutMinutes) + gap, longest)
  {
    var bound := StuckTimeout(c.timeoutMinutes) + gap;
    if Consistent(x.v, c.intended) {
      forall finds: nat -> Findings, n: nat | plan.ticks(n) > now + bound
        ensures Steady(AfterTicks(x, c, WithFindings(plan, finds), n), c, plan.ticks(n), longest)
      {
        SameTicks(plan, finds, now, gap, longest);
        Converges(x, c, WithFindings(plan, finds), now, gap, longest, n);
      }
    } else {
      var finds := (n: nat) => NOTHING;
      TicksPass(plan, now, gap, longest, bound);
      forall i: nat
        ensures !CorrectsAt(x, c, WithFindings(plan, finds), i)
      {
      }
      Starves(x, c, WithFindings(plan, finds), bound);
      assert !Steady(AfterTicks(x, c, WithFindings(plan, finds), bound), c, plan.ticks(bound), longest);
    }
  }

  // ---------------------------------------------------------------- when nothing is done, and what is

  /** Without automatic waking a policy that should be awake is not woken. */
  lemma {:induction false} NotWoken(x: Timed, c: Settings, plan: Schedule, n: nat)
    requires c.intended == Awake && !c.autoWake && x.run.None? && x.v.cached != Awake
    ensures AfterTicks(x, c, plan, n).run.None? && AfterTicks(x, c, plan, n).v.cached != Awake
    ensures x.v.cached != Transitioning ==> AfterTicks(x, c, plan, n) == x
  {
    if n > 0 {
      NotWoken(x, c, plan, n - 1);
    }
  }

  /** Without an intended state nothing is done at all. */
  lemma {:induction false} LeftAlone(x: Timed, c: Settings, plan: Schedule, n: nat)
    requires c.intended == Unknown && x.run.None?
    ensures AfterTicks(x, c, plan, n) == x
  {
    if n > 0 {
      LeftAlone(x, c, plan, n - 1);
    }
  }

  /** The tick has nothing to put right: no targeted exception, and the setting for the state is off, or there
      is no drift, or the query for it fails. */
  predicate NothingToCorrect(c: Settings, f: Findings) {
    && f.exceptions == []
    && (c.intended == Awake ==> !c.reconcileWhileAwake || f.restorable == None || f.restorable == Some(0))
    && (c.intended == Sleeping ==> !c.enforceSleep || f.drifted != Some(true))
  }

  lemma {:induction false} StaysUntouched(x: Timed, c: Settings, plan: Schedule, n: nat)
    requires Reached(x, c) && c.intended != Transitioning
    requires forall i: nat :: i <= n ==> NothingToCorrect(c, plan.finds(i))
    ensures AfterTicks(x, c, plan, n) == x
  {
    assert NothingToCorrect(c, plan.finds(n));
    if n > 0 {
      StaysUntouched(x, c, plan, n - 1);
    }
  }

  /** It has not been tried for five minutes. */
  predicate Due(e: Targeted, last: map<nat, int>, now: int) {
    e.id in last ==> now >= last[e.id] + 300
  }

  /** The exception is due, and none before it in the list is. */
  predicate DueFirst(exceptions: seq<Targeted>, last: map<nat, int>, now: int, i: nat)
    requires i < |exceptions|
  {
    Due(exceptions[i], last, now) && forall j :: 0 <= j < i ==> !Due(exceptions[j], last, now)
  }

  lemma OneDueFirst(exceptions: seq<Targeted>, last: map<nat, int>, now: int, i: nat, j: nat)
    requires i < |exceptions| && j < |exceptions| && DueFirst(exceptions, last, now, i) && DueFirst(exceptions, last, now, j)
    ensures i == j
  {
  }

  lemma {:induction false} FirstDueIs(exceptions: seq<Targeted>, last: map<nat, int>, now: int)
    ensures match FirstDue(exceptions, last, now)
            case Some(e) => exists i :: 0 <= i < |exceptions| && exceptions[i] == e && DueFirst(exceptions, last, now, i)
            case None => forall i :: 0 <= i < |exceptions| ==> !Due(exceptions[i], last, now)
  {
    if exceptions != [] {
      FirstDueIs(exceptions[1..], last, now);
      var rest := exceptions[1..];
      assert forall j :: 0 < j < |exceptions| ==> exceptions[j] == rest[j - 1];
      if i :| 0 <= i < |rest| && Some(rest[i]) == FirstDue(rest, last, now) && DueFirst(rest, last, now, i) {
        assert exceptions[i + 1] == rest[i];
        if !Due(exceptions[0], last, now) {
          assert DueFirst(exceptions, last, now, i + 1);
        }
      }
    }
  }

  /** A policy in its intended state whose targeted exceptions are not due: drift, or rows left to restore,
      start an execution when the setting is on and the last correction is five minutes old; a wake is
      narrowed to an exception when the windows alone do not say awake. */
  lemma DriftCorrected(x: Timed, c: Settings, now: int, duration: nat, ending: Ending, f: Findings)
    requires Reached(x, c) && (c.intended == Sleeping || c.intended == Awake)
    requires forall i :: 0 <= i < |f.exceptions| ==> !Due(f.exceptions[i], x.v.lastAttempts, now)
    requires x.v.lastReconcile.Some? ==> now >= x.v.lastReconcile.value + 300
    requires if c.intended == Sleeping then c.enforceSleep && f.drifted == Some(true)
             else c.reconcileWhileAwake && f.restorable.Some? && f.restorable.value > 0
    ensures var scoped := c.intended == Awake && !f.scheduledAwake && exists e :: e in f.exceptions && e.direction == Wake;
            var y := Tick(x, c, now, duration, ending, f);
            && y.run == Some(Running(now + duration, scoped, ending))
            && y.v == x.v.(cached := Transitioning, stored := Transitioning, since := Some(now), lastReconcile := Some(now))
  {
    FirstDueIs(f.exceptions, x.v.lastAttempts, now);
    assert AsksAwake(f.exceptions) <==> exists e :: e in f.exceptions && e.direction == Wake;
  }

  /** A targeted exception that is due is tried, before any drift is looked at. */
  lemma ExceptionRetried(x: Timed, c: Settings, now: int, duration: nat, ending: Ending, f: Findings, i: nat)
    requires Reached(x, c) && (c.intended == Sleeping || c.intended == Awake)
    requires i < |f.exceptions| && DueFirst(f.exceptions, x.v.lastAttempts, now, i)
    ensures var y := Tick(x, c, now, duration, ending, f);
            && y.run == Some(Running(now + duration, true, ending))
            && y.v == x.v.(cached := Transitioning, stored := Transitioning, since := Some(now),
                           lastAttempts := x.v.lastAttempts[f.exceptions[i].id := now])
  {
    FirstDueIs(f.exceptions, x.v.lastAttempts, now);
    var due := FirstDue(f.exceptions, x.v.lastAttempts, now);
    assert Due(f.exceptions[i], x.v.lastAttempts, now);
    var j :| 0 <= j < |f.exceptions| && f.exceptions[j] == due.value && DueFirst(f.exceptions, x.v.lastAttempts, now, j);
    OneDueFirst(f.exceptions, x.v.lastAttempts, now, i, j);
  }

  // ---------------------------------------------------------------- executions that fail

  /** After an ordinary execution that failed at `at`: nothing is claimed, and the failure is on record. */
  predicate HasFailed(v: PolicyView, at: int) {
    v.cached == v.stored == Unknown && v.lastFailed == Some(at)
  }

  lemma FailureRecorded(x: Timed, c: Settings, now: int)
    requires x.run.Some? && x.run.value.ends <= now && !x.run.value.ending.Succeeds?
    requires x.run.value.ending.Panics? || !x.run.value.scoped
    ensures HasFailed(Complete(x, c, now).v, x.run.value.ends) && Complete(x, c, now).run.None?
  {
  }

  /** An execution that tick `n` finds failed is tried again by the first tick that comes five minutes after
      its end or later, and by none before, whatever the ticks find. */
  lemma {:induction false} RetriesAfterFailure(x: Timed, c: Settings, plan: Schedule, n: nat, m: nat, at: int)
    requires CanReach(c) && n <= m
    requires var y := Complete(Before(x, c, plan, n), c, plan.ticks(n)); HasFailed(y.v, at) && y.run.None?
    requires forall i: nat :: n <= i < m ==> plan.ticks(i) < at + RECONCILE_BACKOFF
    requires forall i: nat :: n <= i < m ==> plan.ticks(i) <= plan.ticks(m)
    ensures plan.ticks(m) < at + RECONCILE_BACKOFF ==>
              HasFailed(AfterTicks(x, c, plan, m).v, at) && AfterTicks(x, c, plan, m).run.None?
    ensures plan.ticks(m) >= at + RECONCILE_BACKOFF ==>
              AfterTicks(x, c, plan, m).run == Some(Running(plan.ticks(m) + plan.durations(m), false, plan.endings(m)))
  {
    if n < m {
      assert plan.ticks(m - 1) < at + RECONCILE_BACKOFF;
      RetriesBefore(x, c, plan, n, m - 1, at);
    }
  }

  lemma {:induction false} RetriesBefore(x: Timed, c: Settings, plan: Schedule, n: nat, m: nat, at: int)
    requires CanReach(c) && n <= m
    requires var y := Complete(Before(x, c, plan, n), c, plan.ticks(n)); HasFailed(y.v, at) && y.run.None?
    requires forall i: nat :: n <= i <= m ==> plan.ticks(i) < at + RECONCILE_BACKOFF
    ensures HasFailed(AfterTicks(x, c, plan, m).v, at) && AfterTicks(x, c, plan, m).run.None?
  {
    assert plan.ticks(m) < at + RECONCILE_BACKOFF;
    if n < m {
      RetriesBefore(x, c, plan, n, m - 1, at);
    }
  }

  /** Where the policy stands when executions fail that are over by `over`, of which `now` is no later. */
  predicate Trying(x: Timed, c: Settings, now: int, t: int, longest: nat, over: int) {
    && (x.v.lastFailed.Some? ==> x.v.lastFailed.value <= over)
    && (|| Steady(x, c, t, longest)
        || (x.run.Some? && x.v.cached == x.v.stored == Transitioning && t <= x.run.value.ends <= over)
        || (x.run.None? && x.v.cached != c.intended &&
            if x.v.cached == Transitioning then
              x.v.since.Some? && x.v.since.value <= now && t <= now + StuckTimeout(c.timeoutMinutes)
            else x.v.stored != Transitioning))
  }

  lemma TickTrying(x: Timed, c: Settings, now: int, before: int, t: int, longest: nat, over: int, duration: nat, ending: Ending, f: Findings)
    requires CanReach(c) && Trying(x, c, now, before, longest, over) && before < t && now <= over
    requires duration <= longest && (ending.Succeeds? || t + longest <= over)
    ensures Trying(Tick(x, c, t, duration, ending, f), c, now, t, longest, over)
    ensures before > now + StuckTimeout(c.timeoutMinutes) && t >= over + RECONCILE_BACKOFF ==>
              Steady(Tick(x, c, t, duration, ending, f), c, t, longest)
  {
  }

  lemma {:induction false} StaysTrying(x: Timed, c: Settings, plan: Schedule, now: int, gap: nat, longest: nat, m: nat, n: nat)
    requires CanReach(c) && Idle(x, now) && Consistent(x.v, c.intended) && Timely(plan, now, gap, longest)
    requires forall i: nat :: i >= m ==> plan.endings(i) == Succeeds
    ensures Trying(AfterTicks(x, c, plan, n), c, now, plan.ticks(n), longest, plan.ticks(m) + longest)
    ensures n > 0 && plan.ticks(n - 1) > now + StuckTimeout(c.timeoutMinutes) && plan.ticks(n) >= plan.ticks(m) + longest + RECONCILE_BACKOFF ==>
              Steady(AfterTicks(x, c, plan, n), c, plan.ticks(n), longest)
  {
    TicksGrow(plan, now, gap, longest, 0, m);
    if n <= m {
      TicksGrow(plan, now, gap, longest, n, m);
    }
    if n == 0 {
      TickTrying(x, c, now, now, plan.ticks(0), longest, plan.ticks(m) + longest, plan.durations(0), plan.endings(0), plan.finds(0));
    } else {
      StaysTrying(x, c, plan, now, gap, longest, m, n - 1);
      assert SpacedAt(plan, n - 1, gap);
      TickTrying(AfterTicks(x, c, plan, n - 1), c, now, plan.ticks(n - 1), plan.ticks(n), longest, plan.ticks(m) + longest,
                 plan.durations(n), plan.endings(n), plan.finds(n));
    }
  }

  lemma {:induction false} TicksGrow(plan: Schedule, now: int, gap: nat, longest: nat, n: nat, m: nat)
    requires Timely(plan, now, gap, longest) && n <= m
    ensures plan.ticks(n) <= plan.ticks(m)
  {
    if n < m {
      TicksGrow(plan, now, gap, longest, n, m - 1);
      assert SpacedAt(plan, m - 1, gap);
    }
  }

  /** Executions may fail and panic for as long as they like: once those that tick `m` and later ticks start
      succeed, the policy settles down after the last failure, five minutes, and the stuck timeout with one
      tick, whatever the ticks find. */
  lemma RecoversFromFailures(x: Timed, c: Settings, plan: Schedule, now: int, gap: nat, longest: nat, m: nat, n: nat)
    requires CanReach(c) && Idle(x, now) && Consistent(x.v, c.intended) && Timely(plan, now, gap, longest)
    requires forall i: nat :: i >= m ==> plan.endings(i) == Succeeds
    requires plan.ticks(n) > now + StuckTimeout(c.timeoutMinutes) + gap
    requires plan.ticks(n) >= plan.ticks(m) + longest + RECONCILE_BACKOFF
    ensures Steady(AfterTicks(x, c, plan, n), c, plan.ticks(n), longest)
  {
    if n > 0 {
      assert SpacedAt(plan, n - 1, gap);
    }
    StaysTrying(x, c, plan, now, gap, longest, m, n);
  }

  const NOTHING := Findings([], Some(0), Some(false), true)

  lemma SameTicks(plan: Schedule, finds: nat -> Findings, now: int, gap: nat, longest: nat)
    requires Regular(plan, now, gap, longest)
    ensures Regular(WithFindings(plan, finds), now, gap, longest)
  {
    forall n: nat
      ensures SpacedAt(WithFindings(plan, finds), n, gap)
    {
      assert SpacedAt(plan, n, gap);
    }
  }

  lemma {:induction false} TicksPass(plan: Schedule, now: int, gap: nat, longest: nat, n: nat)
    requires Regular(plan, now, gap, longest)
    ensures plan.ticks(n) > now + n
  {
    if n > 0 {
      TicksPass(plan, now, gap, longest, n - 1);
      assert SpacedAt(plan, n - 1, gap);
    }
  }
}

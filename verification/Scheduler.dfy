/** The scheduler's methods as they are written.  Their state is always the end of a legal run of the
    claim protocol (`Valid`), so everything proved about runs holds of them, whatever their calls
    answer; and one tick does what `SchedulerTicks` says. */
module Scheduler {
  import opened Options
  import opened SchedulerClaims
  import opened SchedulerTicks

  /** A transition that is under way began at a time not in the future. */
  predicate Dated(row: Row, clock: int) {
    row.state == Transitioning ==> row.since.Some? && row.since.value <= clock
  }

  ghost predicate AllDated(rows: map<nat, Row>, clock: int) {
    forall p :: p in rows ==> Dated(rows[p], clock)
  }

  /** A number above all attempt numbers. */
  ghost function FreshAttempt(keys: set<nat>): (bound: nat)
    ensures forall k :: k in keys ==> k < bound
  {
    if keys == {} then 0
    else
      var k: nat :| k in keys;
      var below := FreshAttempt(keys - {k});
      assert forall j :: j in keys ==> j == k || j in keys - {k};
      if k < below then below else k + 1
  }

  function TimeOf(times: map<nat, int>, p: nat): Option<int> {
    if p in times then Some(times[p]) else None
  }

  datatype RunResult = Started | AlreadyInFlight | ClaimRefused | CreateFailed

  const WORKING := Answer(Committed, true, Success, false)

  /** The answer to the call after the next `i`. */
  function AnswerAt(answers: seq<Answer>, i: nat): Answer {
    if i < |answers| then answers[i] else WORKING
  }

  /** What the execution leaves as the state of its policy. */
  ghost predicate LeavesState(direction: Direction, baseline: Baseline, status: ExecStatus, panicked: bool, state: PolicyState) {
    && (panicked || status != Success ==> state == Unknown)
    && (!panicked && status == Success && baseline.NotScoped? ==> state == if direction == Sleep then Sleeping else Awake)
    && (!panicked && status == Success && baseline.Scoped? ==>
          state == if baseline.state == Transitioning then Unknown else baseline.state)
  }

  class PolicyScheduler {
    var db: map<nat, Row>
    var policies: map<nat, Row>      // the cache
    var inflight: set<nat>
    var lastFailed: map<nat, int>
    var lastReconcile: map<nat, int>
    var lastAttempts: map<nat, int>  // of targeted exceptions, by their id
    var clock: int
    var answers: seq<Answer>         // what the calls to come will answer; all is well once it is used up
    ghost var claims: State

    ghost predicate Matches()
      reads this
    {
      db == claims.db && policies == claims.cache && inflight == claims.inflight && clock == claims.clock
    }

    ghost predicate Clocked()
      reads this
    {
      AllDated(db, clock) && AllDated(policies, clock) && forall p :: p in lastFailed ==> lastFailed[p] <= clock
    }

    ghost predicate Valid()
      reads this
    {
      Reachable(claims) && claims.up && Matches() && Clocked()
    }

    ghost predicate AttemptIs(t: nat, attempt: Attempt)
      reads this
    {
      t in claims.attempts && claims.attempts[t] == attempt
    }

    function View(p: nat): PolicyView
      reads this
      requires p in policies && p in db
    {
      PolicyView(policies[p].state, policies[p].since, db[p].state, TimeOf(lastFailed, p), TimeOf(lastReconcile, p), lastAttempts)
    }

    constructor (rows: map<nat, Row>, clock: int, answers: seq<Answer>)
      ensures Reachable(claims) && !claims.up && Matches() && Clocked() == AllDated(rows, clock)
      ensures db == rows && policies == map[] && inflight == {} && lastFailed == map[] && this.clock == clock && this.answers == answers
    {
      db, policies, inflight, lastFailed := rows, map[], {}, map[];
      lastReconcile, lastAttempts := map[], map[];
      this.clock, this.answers := clock, answers;
      claims := State(false, clock, rows, map[], {}, map[], map[], {}, {});
      ReachStart(State(false, clock, rows, map[], {}, map[], map[], {}, {}));
    }

    ghost method Take(step: Step)
      requires Reachable(claims) && Enabled(claims, step)
      modifies this`claims
      ensures Reachable(claims) && claims == Next(old(claims), step)
    {
      ReachNext(claims, step);
      claims := Next(claims, step);
    }

    method NextAnswer() returns (a: Answer)
      modifies this`answers
      ensures old(answers) == [] ==> a == WORKING && answers == []
      ensures old(answers) != [] ==> a == old(answers)[0] && answers == old(answers)[1..]
    {
      a := WORKING;
      if answers != [] {
        a := answers[0];
        answers := answers[1..];
      }
    }

    method Advance(seconds: nat)
      requires Valid()
      modifies this`clock, this`claims
      ensures Valid() && clock == old(clock) + seconds && claims == old(claims).(clock := clock)
    {
      Take(Wait(seconds));
      clock := clock + seconds;
    }

    /** Startup recovery; when it fails the process exits. */
    method RecoverInterruptedState() returns (ok: bool)
      requires Reachable(claims) && !claims.up && Matches() && policies == map[] && lastFailed == map[]
      requires forall p :: p in db && db[p].state != Transitioning ==> Dated(db[p], clock)
      modifies this
      ensures ok ==> Valid() && policies == map[] && inflight == {} && db.Keys == old(db).Keys && clock == old(clock)
      ensures ok ==> forall p :: p in db ==>
                db[p] == if old(db)[p].state == Transitioning
                         then old(db)[p].(state := Unknown, since := Some(clock)) else old(db)[p]
    {
      var a := NextAnswer();
      if Lands(a.reply) {
        db := map p | p in db :: Recovered(db[p], clock);
      }
      ClaimsInv();
      Take(Recover(a.reply));
      return a.reply.Committed?;
    }

    lemma ClaimsInv()
      requires Reachable(claims)
      ensures Inv(claims)
    {
      ReachableInv(claims);
    }

    /** A policy without an execution is stored as transitioning only if a write of its last execution
        failed, and no two executions are for one policy. */
    lemma IdlePolicies(p: nat)
      requires Valid() && p in db && p !in inflight && p !in claims.owed
      ensures db[p].state != Transitioning
    {
      ClaimsInv();
    }

    /** The cache is read anew from the store. */
    method Reload(enabled: set<nat>)
      requires Valid()
      modifies this`policies, this`claims
      ensures Valid() && policies == map p | p in db && p in enabled :: db[p]
    {
      policies := map p | p in db && p in enabled :: db[p];
      Take(SchedulerClaims.Reload(enabled));
    }

    // ------------------------------------------------------------ steps of an attempt

    /** A step that changes neither the store nor the cache and does not leave. */
    ghost method Pass(t: nat, attempt: Attempt, next: Stage, a: Answer)
      requires Valid() && AttemptIs(t, attempt) && ActOf(claims, t, a) == GoTo(next)
      modifies this`claims
      ensures Valid() && AttemptIs(t, attempt.(stage := next))
    {
      Take(Act(t, a));
    }

    /** A store write whose answer is `a`. */
    method StoreState(state: PolicyState, a: Answer, ghost t: nat, ghost attempt: Attempt, p: nat)
      requires Valid() && AttemptIs(t, attempt) && p == attempt.policy
      requires var e := ActOf(claims, t, a);
               e.next.Some? && e.cached.None? && e.stored == if Lands(a.reply) then Some(state) else None
      modifies this`db, this`claims
      ensures Valid() && AttemptIs(t, attempt.(stage := ActOf(old(claims), t, a).next.value))
      ensures db == if Lands(a.reply) then SetState(old(db), p, state, Some(clock)) else old(db)
    {
      if Lands(a.reply) {
        db := SetState(db, p, state, Some(clock));
      }
      Take(Act(t, a));
    }

    /** A section under the lock that caches a state. */
    method CacheState(state: PolicyState, since: Option<int>, ghost t: nat, ghost attempt: Attempt, p: nat)
      requires Valid() && AttemptIs(t, attempt) && p == attempt.policy
      requires var e := ActOf(claims, t, WORKING); e.next.Some? && e.stored.None? && e.cached == Some(state)
      requires since == CachedSince(claims, attempt) && (state == Transitioning ==> since == Some(clock))
      modifies this`policies, this`claims
      ensures Valid() && AttemptIs(t, attempt.(stage := ActOf(old(claims), t, WORKING).next.value))
      ensures policies == SetState(old(policies), p, state, since)
    {
      policies := SetState(policies, p, state, since);
      Take(Act(t, WORKING));
    }

    /** The attempt leaves the set in flight, and caches a state if it says so. */
    method LeaveFlight(cached: Option<PolicyState>, ghost t: nat, ghost attempt: Attempt, p: nat)
      requires Valid() && AttemptIs(t, attempt) && p == attempt.policy && cached != Some(Transitioning)
      requires ActOf(claims, t, WORKING) == Effect(None, false, cached, None)
      modifies this`policies, this`inflight, this`claims
      ensures Valid() && inflight == old(inflight) - {p}
      ensures policies == if cached.Some? then SetState(old(policies), p, cached.value, Some(clock)) else old(policies)
    {
      if cached.Some? {
        policies := SetState(policies, p, cached.value, Some(clock));
      }
      inflight := inflight - {p};
      Take(Act(t, WORKING));
    }

    // ------------------------------------------------------------ executions

    /** SetPolicyTransitioning, then the cache. */
    method ClaimTransition(p: nat, ghost t: nat, ghost attempt: Attempt) returns (ok: bool)
      requires Valid() && AttemptIs(t, attempt) && attempt.stage == Claiming && p == attempt.policy
      modifies this`db, this`policies, this`answers, this`claims
      ensures Valid() && AttemptIs(t, attempt.(stage := if ok then Creating else Refused))
      ensures ok ==> p in old(db) && old(db)[p].state != Transitioning
      ensures ok ==> db == SetState(old(db), p, Transitioning, Some(clock))
      ensures ok ==> policies == SetState(old(policies), p, Transitioning, Some(clock))
      ensures !ok ==> policies == old(policies)
      ensures !ok ==> db == old(db) || (db == SetState(old(db), p, Transitioning, Some(clock)) && old(answers) != [])
      ensures old(answers) == [] ==> answers == [] && ok == (p in old(db) && old(db)[p].state != Transitioning)
    {
      var a := NextAnswer();
      var wins := p in db && db[p].state != Transitioning;
      if !wins {
        Pass(t, attempt, Refused, a);
        return false;
      }
      if a.reply.Failed? {
        Pass(t, attempt, Refused, a);
        return false;
      }
      StoreState(Transitioning, a, t, attempt, p);
      if !a.reply.Committed? {
        return false;
      }
      CacheState(Transitioning, Some(clock), t, attempt.(stage := Marking), p);
      return true;
    }

    /** `run` up to the start of its goroutine. */
    method Run(p: nat, direction: Direction, baseline: Baseline) returns (result: RunResult, ghost t: nat)
      requires Valid()
      modifies this`db, this`policies, this`inflight, this`answers, this`claims
      ensures Valid()
      ensures result.AlreadyInFlight? <==> p in old(inflight)
      ensures result.AlreadyInFlight? ==> db == old(db) && answers == old(answers) && claims == old(claims)
      ensures result.AlreadyInFlight? || result.ClaimRefused? ==> policies == old(policies) && inflight == old(inflight)
      ensures result.ClaimRefused? ==>
                db == old(db) || (db == SetState(old(db), p, Transitioning, Some(clock)) && old(answers) != [])
      ensures result.CreateFailed? ==>
                && inflight == old(inflight)
                && policies == SetState(SetState(old(policies), p, Transitioning, Some(clock)), p, Unknown, Some(clock))
                && (db == SetState(old(db), p, Transitioning, Some(clock)) ||
                    db == SetState(SetState(old(db), p, Transitioning, Some(clock)), p, Unknown, Some(clock)))
      ensures result.Started? ==>
                && inflight == old(inflight) + {p}
                && p in old(db) && old(db)[p].state != Transitioning
                && db == SetState(old(db), p, Transitioning, Some(clock))
                && policies == SetState(old(policies), p, Transitioning, Some(clock))
                && AttemptIs(t, Attempt(p, direction, baseline, Executing))
      ensures old(answers) == [] && p !in old(inflight) ==>
                answers == [] && result == if p in old(db) && old(db)[p].state != Transitioning then Started else ClaimRefused
      ensures old(answers) == [] && result.ClaimRefused? ==> db == old(db)
    {
      t := 0;
      if p in inflight {
        return AlreadyInFlight, t;
      }
      t := EnterFlight(p, direction, baseline);
      ghost var attempt := Attempt(p, direction, baseline, Claiming);
      var claimed := ClaimTransition(p, t, attempt);
      if !claimed {
        LeaveFlight(None, t, attempt.(stage := Refused), p);
        return ClaimRefused, t;
      }
      var created := CreateOrRollBack(p, t, attempt.(stage := Creating));
      return if created then Started else CreateFailed, t;
    }

    method EnterFlight(p: nat, direction: Direction, baseline: Baseline) returns (ghost t: nat)
      requires Valid() && p !in inflight
      modifies this`inflight, this`claims
      ensures Valid() && inflight == old(inflight) + {p}
      ensures AttemptIs(t, Attempt(p, direction, baseline, Claiming))
    {
      t := FreshAttempt(claims.attempts.Keys);
      inflight := inflight + {p};
      Take(Enter(t, p, direction, baseline));
    }

    /** CreatePolicyExecution; a failure rolls the claim back and leaves. */
    method CreateOrRollBack(p: nat, ghost t: nat, ghost attempt: Attempt) returns (created: bool)
      requires Valid() && AttemptIs(t, attempt) && attempt.stage == Creating && p == attempt.policy
      modifies this`db, this`policies, this`inflight, this`answers, this`claims
      ensures Valid()
      ensures created ==>
                db == old(db) && policies == old(policies) && inflight == old(inflight) && AttemptIs(t, attempt.(stage := Executing))
      ensures !created ==>
                && inflight == old(inflight) - {p} && policies == SetState(old(policies), p, Unknown, Some(clock))
                && (db == old(db) || db == SetState(old(db), p, Unknown, Some(clock)))
      ensures old(answers) == [] ==> answers == [] && created
    {
      var a := NextAnswer();
      Pass(t, attempt, if a.ok then Executing else RollingBack, a);
      if a.ok {
        return true;
      }
      var b := NextAnswer();
      StoreState(Unknown, b, t, attempt.(stage := RollingBack), p);
      LeaveFlight(Some(Unknown), t, attempt.(stage := Abandoning), p);
      return false;
    }

    /** The goroutine of an execution: the scaler, the final state in store and cache, leaving.  A
        scoped execution restores its baseline state, unless the scaler panicked. */
    method ExecuteAndFinalize(p: nat, direction: Direction, baseline: Baseline, ghost t: nat)
      returns (status: ExecStatus, panicked: bool)
      requires Valid() && AttemptIs(t, Attempt(p, direction, baseline, Executing))
      modifies this`db, this`policies, this`inflight, this`lastFailed, this`answers, this`claims
      ensures Valid() && inflight == old(inflight) - {p}
      ensures status == AnswerAt(old(answers), 0).status && panicked == AnswerAt(old(answers), 0).panicked
      ensures |old(answers)| <= 1 ==> answers == []
      ensures exists state :: LeavesState(direction, baseline, status, panicked, state) &&
                policies == SetState(old(policies), p, state,
                                     if baseline.Scoped? && !panicked && p in old(policies)
                                     then old(policies)[p].since else Some(clock)) &&
                db == if Lands(AnswerAt(old(answers), 1).reply) then SetState(old(db), p, state, Some(clock)) else old(db)
      ensures lastFailed == if baseline.Scoped? && !panicked then old(lastFailed)
                            else if status.Success? && !panicked then old(lastFailed) - {p}
                            else old(lastFailed)[p := clock]
    {
      ghost var attempt := Attempt(p, direction, baseline, Executing);
      var a := NextAnswer();
      status, panicked := a.status, a.panicked;
      var outcome := Outcome(Attempt(p, direction, baseline, Executing), status, panicked);
      var restores := baseline.Scoped? && !panicked;
      Pass(t, attempt, Settling(outcome, restores), a);
      if !restores {
        RecordTransition(p, status.Success? && !panicked);
      }
      Finalize(p, outcome, restores, t, attempt.(stage := Settling(outcome, restores)));
      assert LeavesState(direction, baseline, status, panicked, outcome);
    }

    /** The final state in the store, in the cache, and out of flight. */
    method Finalize(p: nat, outcome: PolicyState, restores: bool, ghost t: nat, ghost attempt: Attempt)
      requires Valid() && AttemptIs(t, attempt) && attempt.stage == Settling(outcome, restores) && p == attempt.policy && outcome != Transitioning
      modifies this`db, this`policies, this`inflight, this`answers, this`claims
      ensures Valid() && inflight == old(inflight) - {p}
      ensures policies == SetState(old(policies), p, outcome, if restores then SinceOf(old(policies), p) else Some(clock))
      ensures db == if Lands(AnswerAt(old(answers), 0).reply) then SetState(old(db), p, outcome, Some(clock)) else old(db)
      ensures old(answers) == [] ==> answers == []
    {
      var b := NextAnswer();
      StoreState(outcome, b, t, attempt, p);
      CacheState(outcome, if restores then SinceOf(policies, p) else Some(clock), t, attempt.(stage := Caching(outcome, restores)), p);
      LeaveFlight(None, t, attempt.(stage := Leaving), p);
    }

    /** clearFailedTransition and recordFailedTransition. */
    method RecordTransition(p: nat, succeeded: bool)
      requires Valid()
      modifies this`lastFailed
      ensures Valid() && lastFailed == if succeeded then old(lastFailed) - {p} else old(lastFailed)[p := clock]
    {
      lastFailed := if succeeded then lastFailed - {p} else lastFailed[p := clock];
    }

    // ------------------------------------------------------------ one tick

    /** resetStuckTransition: a claim without an execution, older than the policy's timeout. */
    method ResetStuckTransition(p: nat) returns (acted: bool)
      requires Valid() && p in policies && policies[p].state == Transitioning
      modifies this`db, this`policies, this`answers, this`claims
      ensures Valid()
      ensures var row := old(policies)[p];
              acted <==> p !in inflight && row.since.Some? && clock - row.since.value > StuckTimeout(row.timeoutMinutes)
      ensures !acted ==> db == old(db) && policies == old(policies) && answers == old(answers) && claims == old(claims)
      ensures acted ==> policies == SetState(old(policies), p, Unknown, old(policies)[p].since)
      ensures acted ==> db == old(db) || db == SetState(old(db), p, Unknown, Some(clock))
      ensures acted && old(answers) == [] ==> answers == [] && db == SetState(old(db), p, Unknown, Some(clock))
    {
      if p in inflight {
        return false;
      }
      var row := policies[p];
      if row.since.None? || clock - row.since.value <= StuckTimeout(row.timeoutMinutes) {
        return false;
      }
      var a := NextAnswer();
      WriteUnknown(p, a.reply);
      return true;
    }

    method WriteUnknown(p: nat, reply: Reply)
      requires Valid() && p !in inflight && p in policies && Aged(policies[p], clock)
      modifies this`db, this`policies, this`claims
      ensures Valid() && policies == SetState(old(policies), p, Unknown, old(policies)[p].since)
      ensures db == if Lands(reply) then SetState(old(db), p, Unknown, Some(clock)) else old(db)
    {
      ghost var r := FreshAttempt(claims.resets.Keys);
      StoreUnknown(p, reply, r);
      policies := SetState(policies, p, Unknown, policies[p].since);
      Take(CacheReset(r));
    }

    /** The copy of the policy and the check that it has no execution. */
    ghost method PassCheck(p: nat, r: nat)
      requires Valid() && p !in inflight && p in policies && Aged(policies[p], clock) && r !in claims.resets
      modifies this`claims
      ensures Valid() && claims == old(claims).(resets := claims.resets)
      ensures r in claims.resets && claims.resets[r] == StuckReset(p, Checked)
    {
      Take(CopyStuck(r, p));
      Take(CheckStuck(r));
    }

    method StoreUnknown(p: nat, reply: Reply, ghost r: nat)
      requires Valid() && p !in inflight && p in policies && Aged(policies[p], clock) && r !in claims.resets
      modifies this`db, this`claims
      ensures Valid() && r in claims.resets && claims.resets[r] == StuckReset(p, Stored)
      ensures db == if Lands(reply) then SetState(old(db), p, Unknown, Some(clock)) else old(db)
    {
      PassCheck(p, r);
      Take(StoreReset(r, reply));
      if Lands(reply) {
        db := SetState(db, p, Unknown, Some(clock));
      }
    }

    /** failedTransitionBackoffElapsed. */
    method FailedTransitionBackoffElapsed(p: nat) returns (elapsed: bool)
      requires Valid()
      ensures elapsed <==> BackoffElapsed(TimeOf(lastFailed, p), clock)
    {
      elapsed := p !in lastFailed || clock - lastFailed[p] >= RECONCILE_BACKOFF;
    }

    /** reconcileBackoffElapsed. */
    method ReconcileBackoffElapsed(p: nat) returns (elapsed: bool)
      ensures elapsed <==> BackoffElapsed(TimeOf(lastReconcile, p), clock)
    {
      elapsed := p !in lastReconcile || clock - lastReconcile[p] >= RECONCILE_BACKOFF;
    }

    /** What `run` does for a policy that has no execution in flight, as far as its view goes. */
    ghost predicate RanAs(before: PolicyView, p: nat, wasRunning: bool, obedient: bool, result: RunResult)
      reads this
    {
      && p in policies && p in db
      && (obedient && !wasRunning ==>
            answers == [] && (result == Started <==> p in inflight) && result != CreateFailed &&
            View(p) == if before.stored != Transitioning then Claimed(before, clock) else before)
      && (obedient && !wasRunning ==> (result == Started <==> before.stored != Transitioning))
      && (wasRunning ==> result == AlreadyInFlight && View(p) == before && p in inflight)
    }

    /** `run` for a policy in store and cache. */
    method RunOne(p: nat, direction: Direction, baseline: Baseline) returns (result: RunResult, ghost t: nat)
      requires Valid() && p in policies && p in db
      modifies this`db, this`policies, this`inflight, this`answers, this`claims
      ensures Valid() && RanAs(old(View(p)), p, old(p in inflight), old(answers == []), result)
      ensures policies[p].timeoutMinutes == old(policies[p].timeoutMinutes)
      ensures result.Started? ==> AttemptIs(t, Attempt(p, direction, baseline, Executing))
      ensures old(answers == []) && result.AlreadyInFlight? ==> answers == [] && claims == old(claims)
    {
      result, t := Run(p, direction, baseline);
    }

    /** reconcileScopedExceptions: the first targeted exception that is due is tried again. */
    method ReconcileScopedExceptions(p: nat, exceptions: seq<Targeted>) returns (due: Option<Targeted>)
      requires Valid()
      modifies this`lastAttempts
      ensures Valid() && due == FirstDue(exceptions, old(lastAttempts), clock)
      ensures lastAttempts == if due.Some? then old(lastAttempts)[due.value.id := clock] else old(lastAttempts)
    {
      for i := 0 to |exceptions|
        invariant lastAttempts == old(lastAttempts)
        invariant FirstDue(exceptions, lastAttempts, clock) == FirstDue(exceptions[i..], lastAttempts, clock)
      {
        var e := exceptions[i];
        assert exceptions[i..][0] == e && exceptions[i..][1..] == exceptions[i + 1..];
        if e.id !in lastAttempts || clock - lastAttempts[e.id] >= RECONCILE_BACKOFF {
          lastAttempts := lastAttempts[e.id := clock];
          return Some(e);
        }
      }
      return None;
    }

    /** reconcilePolicy with its three branches: what it decides, recorded. */
    method ReconcilePolicy(p: nat, c: Settings, f: Findings) returns (action: Action)
      requires Valid() && p in policies && p in db
      modifies this`lastAttempts, this`lastReconcile
      ensures Valid() && action == Reconcile(old(View(p)), c, clock, f)
      ensures View(p) == Recorded(old(View(p)), action, clock)
    {
      var due := ReconcileScopedExceptions(p, f.exceptions);
      if due.Some? {
        return Retry(due.value.id, due.value.direction);
      }
      var elapsed := ReconcileBackoffElapsed(p);
      if c.reconcileWhileAwake && policies[p].state == Awake && elapsed && f.restorable.Some? && f.restorable.value > 0 {
        lastReconcile := lastReconcile[p := clock];
        return Correct(Wake, !f.scheduledAwake && AsksAwake(f.exceptions));
      }
      if c.enforceSleep && policies[p].state == Sleeping && elapsed && f.drifted == Some(true) {
        lastReconcile := lastReconcile[p := clock];
        return Correct(Sleep, false);
      }
      return Rest;
    }

    function BaselineOf(p: nat, action: Action): Baseline
      reads this
      requires p in policies
    {
      if ScopedRun(action) then Scoped(policies[p].state) else NotScoped
    }

    /** evaluatePolicy: it acts as decided, and with working calls it is one tick of the timed model. */
    method EvaluatePolicy(p: nat, c: Settings, f: Findings) returns (result: Option<RunResult>, ghost t: nat)
      requires Valid() && p in policies && p in db && c.intended != Transitioning && c.timeoutMinutes == policies[p].timeoutMinutes
      modifies this`db, this`policies, this`inflight, this`answers, this`lastAttempts, this`lastReconcile, this`claims
      ensures Valid() && p in policies && p in db && policies[p].timeoutMinutes == old(policies[p].timeoutMinutes)
      ensures var action := Decide(old(View(p)), p in old(inflight), c, clock, f);
              && (result.Some? <==> Runs(action))
              && (action.Rest? ==> db == old(db) && policies == old(policies) && inflight == old(inflight))
              && (action.Reset? ==> policies[p].state == Unknown)
              && (old(answers == []) ==> answers == [] && View(p) == Acted(old(View(p)), action, p in old(inflight), clock))
              && (p in old(inflight) ==> p in inflight && result != Some(Started))
              && (old(answers == []) && p !in old(inflight) ==>
                    (p in inflight <==> result == Some(Started)) &&
                    (p in inflight <==> Runs(action) && old(View(p)).stored != Transitioning))
              && (result == Some(Started) ==>
                    AttemptIs(t, Attempt(p, action.direction, old(BaselineOf(p, action)), Executing)))
              && (p in old(inflight) && old(answers == []) ==> claims == old(claims))
    {
      result, t := None, 0;
      var row := policies[p];
      if c.intended == Unknown {
        return;
      }
      var action: Action;
      if row.state == c.intended {
        action := ReconcilePolicy(p, c, f);
        if action.Rest? {
          return;
        }
      } else if row.state == Transitioning {
        var acted := ResetStuckTransition(p);
        return;
      } else {
        if c.intended == Awake && !c.autoWake {
          return;
        }
        var elapsed := FailedTransitionBackoffElapsed(p);
        if !elapsed {
          return;
        }
        action := Start(if c.intended == Awake then Wake else Sleep);
      }
      var r;
      r, t := RunOne(p, action.direction, BaselineOf(p, action));
      result := Some(r);
    }

    // ------------------------------------------------------------ many ticks

    /** The execution under way of policy `p`: its attempt, and that its success brings `c.intended`. */
    ghost predicate UnderWay(p: nat, c: Settings, run: Option<Running>, t: nat, attempt: Attempt)
      reads this
    {
      (p in inflight <==> run.Some?) &&
      (run.Some? ==>
         && attempt.policy == p && attempt.stage == Executing && AttemptIs(t, attempt) && run.value.ends >= clock
         && (attempt.baseline.Scoped? <==> run.value.scoped)
         && LeavesState(attempt.direction, attempt.baseline, Success, false, c.intended))
    }

    /** The scaler of the execution returns, well or not. */
    method EndRun(p: nat, c: Settings, run: Running, ghost t: nat, direction: Direction, baseline: Baseline)
      requires Valid() && answers == [] && p in policies && p in db && clock == run.ends
      requires AttemptIs(t, Attempt(p, direction, baseline, Executing)) && (baseline.Scoped? <==> run.scoped)
      requires LeavesState(direction, baseline, Success, false, c.intended)
      modifies this
      ensures Valid() && answers == [] && p in policies && p in db && clock == old(clock) && p !in inflight
      ensures View(p) == Ended(old(View(p)), c, run)
      ensures policies[p].timeoutMinutes == old(policies[p].timeoutMinutes)
    {
      answers := [AnswerFor(run.ending)];
      var status, panicked := ExecuteAndFinalize(p, direction, baseline, t);
    }

    /** An execution that is over by `until` runs to its end. */
    method FinishDue(p: nat, c: Settings, run: Option<Running>, until: int, ghost t: nat, direction: Direction, baseline: Baseline)
      returns (left: Option<Running>)
      requires Valid() && answers == [] && p in policies && p in db && clock <= until
      requires UnderWay(p, c, run, t, Attempt(p, direction, baseline, Executing))
      modifies this
      ensures Valid() && answers == [] && p in policies && p in db && clock == until
      ensures Timed(View(p), left) == Complete(Timed(old(View(p)), run), c, until)
      ensures policies[p].timeoutMinutes == old(policies[p].timeoutMinutes)
      ensures UnderWay(p, c, left, t, Attempt(p, direction, baseline, Executing))
    {
      left := run;
      if run.Some? && run.value.ends <= until {
        Advance(run.value.ends - clock);
        EndRun(p, c, run.value, t, direction, baseline);
        left := None;
      }
      Advance(until - clock);
    }

    /** The scaler fails, or it panics. */
    function AnswerFor(ending: Ending): Answer {
      match ending
      case Succeeds => WORKING
      case Fails => Answer(Committed, true, Failure, false)
      case Panics => Answer(Committed, true, Success, true)
    }

    lemma RightOutcome(v: PolicyView, running: bool, c: Settings, f: Findings, p: nat)
      requires CanReach(c) && Runs(Decide(v, running, c, clock, f))
      ensures var action := Decide(v, running, c, clock, f);
              LeavesState(action.direction, if ScopedRun(action) then Scoped(v.cached) else NotScoped, Success, false, c.intended)
    {
    }

    /** The ticks up to `n`, each at its time, with executions that end when the plan says: the methods do
        what the timed model says. */
    method FollowPlan(p: nat, c: Settings, plan: Schedule, n: nat, ghost gap: nat) returns (run: Option<Running>)
      requires Valid() && answers == [] && p in policies && p in db && p !in inflight
      requires CanReach(c) && c.timeoutMinutes == policies[p].timeoutMinutes
      requires clock < plan.ticks(0) && forall i: nat :: SpacedAt(plan, i, gap)
      modifies this
      ensures Valid() && p in policies && p in db && clock == plan.ticks(n)
      ensures Timed(View(p), run) == AfterTicks(Timed(old(View(p)), None), c, plan, n)
      ensures run.Some? <==> p in inflight
    {
      run := None;
      ghost var x := Timed(View(p), None);
      ghost var t := 0;
      var direction, baseline := Sleep, NotScoped;
      for i := 0 to n + 1
        invariant Valid() && answers == [] && p in policies && p in db && c.timeoutMinutes == policies[p].timeoutMinutes
        invariant clock < plan.ticks(i) && (i > 0 ==> clock == plan.ticks(i - 1))
        invariant Timed(View(p), run) == Before(x, c, plan, i)
        invariant UnderWay(p, c, run, t, Attempt(p, direction, baseline, Executing))
      {
        run := FinishDue(p, c, run, plan.ticks(i), t, direction, baseline);
        run, direction, baseline, t := EvaluateNext(p, c, plan, i, run, t, direction, baseline);
        assert SpacedAt(plan, i, gap);
      }
    }

    /** Tick `i`, for a policy whose execution, if any, is not over. */
    method EvaluateNext(p: nat, c: Settings, plan: Schedule, i: nat, run: Option<Running>, ghost t: nat, direction: Direction, baseline: Baseline)
      returns (run': Option<Running>, direction': Direction, baseline': Baseline, ghost t': nat)
      requires Valid() && answers == [] && p in policies && p in db && c.timeoutMinutes == policies[p].timeoutMinutes
      requires CanReach(c) && clock == plan.ticks(i) && (run.Some? ==> run.value.ends > clock)
      requires UnderWay(p, c, run, t, Attempt(p, direction, baseline, Executing))
      modifies this
      ensures Valid() && answers == [] && p in policies && p in db && c.timeoutMinutes == policies[p].timeoutMinutes
      ensures clock == old(clock)
      ensures Timed(View(p), run') == Tick(Timed(old(View(p)), run), c, clock, plan.durations(i), plan.endings(i), plan.finds(i))
      ensures UnderWay(p, c, run', t', Attempt(p, direction', baseline', Executing))
    {
      run', direction', baseline', t' := run, direction, baseline, t;
      var action := Decide(View(p), p in inflight, c, clock, plan.finds(i));
      var base := BaselineOf(p, action);
      if Runs(action) {
        RightOutcome(View(p), p in inflight, c, plan.finds(i), p);
      }
      var result;
      ghost var u;
      result, u := EvaluatePolicy(p, c, plan.finds(i));
      if result == Some(Started) {
        run', direction', baseline', t' := Some(Running(clock + plan.durations(i), ScopedRun(action), plan.endings(i))), action.direction, base, u;
      }
    }

    // ------------------------------------------------------------ convergence

    /** From any valid state of the scheduler, a settled policy is, past the bound, at every tick in its
        intended state or in an execution that ends in it, whatever its state and clocks are and whatever
        drift the ticks find. */
    lemma ConvergesWhenSettled(p: nat, c: Settings, plan: Schedule, gap: nat, longest: nat, n: nat)
      requires Valid() && Settled(claims, p) && p in policies && p in db && c.timeoutMinutes == policies[p].timeoutMinutes
      requires CanReach(c) && Regular(plan, clock, gap, longest) && plan.ticks(n) > clock + StuckTimeout(c.timeoutMinutes) + gap
      ensures Steady(AfterTicks(Timed(View(p), None), c, plan, n), c, plan.ticks(n), longest)
    {
      SettledAgrees(claims, p);
      Converges(Timed(View(p), None), c, plan, clock, gap, longest, n);
    }
  }
}

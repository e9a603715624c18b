/** How executions claim a policy: an in-memory set of policies in flight, and a compare-and-set on
    the stored state.  Ticks, triggers, exceptions, recovery, resets, reloads, panics and crashes
    interleave; each lock section and each store call is one step. */
module SchedulerClaims {
  import opened Options

  datatype PolicyState = Sleeping | Awake | Transitioning | Unknown

  datatype Direction = Sleep | Wake

  datatype ExecStatus = Success | Failure | Interrupted

  /** What a store write answers: done, not done, or an error although it was done. */
  datatype Reply = Committed | Failed | Ambiguous

  predicate Lands(reply: Reply) { !reply.Failed? }

  /** A policy, as far as the scheduler uses it; times are in seconds. */
  datatype Row = Row(state: PolicyState, since: Option<int>, timeoutMinutes: int)

  const STUCK_TIMEOUT_FLOOR := 900
  const DEFAULT_EXECUTION_TIMEOUT := 7200

  /** Grace of five minutes on top of the policy's own execution timeout. */
  function StuckTimeout(timeoutMinutes: int): (seconds: int)
    ensures seconds >= 900 && seconds > 60 * timeoutMinutes
    ensures timeoutMinutes >= 10 ==> seconds == 60 * timeoutMinutes + 300
    ensures 0 < timeoutMinutes < 10 ==> seconds == 900
    ensures timeoutMinutes <= 0 ==> seconds == 125 * 60
  {
    var t := (if timeoutMinutes * 60 <= 0 then DEFAULT_EXECUTION_TIMEOUT else timeoutMinutes * 60) + 300;
    if t < STUCK_TIMEOUT_FLOOR then STUCK_TIMEOUT_FLOOR else t
  }

  /** Transitioning for longer than the stuck timeout. */
  predicate Aged(row: Row, now: int) {
    row.state == Transitioning && row.since.Some? && now - row.since.value > StuckTimeout(row.timeoutMinutes)
  }

  /** What an attempt does next. */
  datatype Stage =
    | Claiming                         // SetPolicyTransitioning
    | Refused                          // leave after a claim that failed
    | Marking                          // cache the claimed state
    | Creating                         // CreatePolicyExecution
    | RollingBack                      // store "unknown" after a failed create
    | Abandoning                       // cache "unknown" and leave
    | Executing                        // the scaler runs
    | Settling(outcome: PolicyState, restores: bool)   // store the final state
    | Caching(outcome: PolicyState, restores: bool)    // cache it; restoring keeps the time of the claim
    | Leaving

  /** One call of `run`; `baseline` is the state to restore after a scoped execution. */
  datatype Attempt = Attempt(policy: nat, direction: Direction, baseline: Baseline, stage: Stage)

  datatype Baseline = NotScoped | Scoped(state: PolicyState)

  datatype ResetStage = Copied | Checked | Stored

  /** A tick whose copy of a policy says that it is stuck: it has the copy, it has found nothing in
      flight, it has stored "unknown"; then it caches that. */
  datatype StuckReset = StuckReset(policy: nat, stage: ResetStage)

  /** `owed` names the policies whose last state write left a claim behind; `crossed` those whose stored
      state was written by a reset while they were in flight, or by an emergency scale, neither by an
      execution nor read into the cache since. */
  datatype State = State(
    up: bool,
    clock: int,
    db: map<nat, Row>,
    cache: map<nat, Row>,
    inflight: set<nat>,
    attempts: map<nat, Attempt>,
    resets: map<nat, StuckReset>,
    ghost owed: set<nat>,
    ghost crossed: set<nat>)

  /** What the surroundings answer to an attempt: the store, the create call, the scaler. */
  datatype Answer = Answer(reply: Reply, ok: bool, status: ExecStatus, panicked: bool)

  datatype Step =
    | Enter(t: nat, p: nat, direction: Direction, baseline: Baseline)
    | Act(t: nat, answer: Answer)
    | CopyStuck(r: nat, p: nat)         // a tick copies a policy that is stuck, as far as the cache says
    | CheckStuck(r: nat)                // it finds no execution in flight
    | DropReset(r: nat)                 // it finds one
    | StoreReset(r: nat, reply: Reply)
    | CacheReset(r: nat)
    | Reload(enabled: set<nat>)
    | SetTimeout(p: nat, minutes: int)  // an update of the policy
    | CreatePolicy(p: nat, minutes: int)
    | DeletePolicy(p: nat)
    | EmergencyWrite(p: nat, restored: bool, reply: Reply)   // emergency scale stores a state and caches none
    | Wait(seconds: nat)
    | Crash
    | Recover(reply: Reply)

  /** The state that an execution leaves. */
  function Outcome(attempt: Attempt, status: ExecStatus, panicked: bool): (state: PolicyState)
    ensures state != Transitioning
  {
    if panicked || !status.Success? then Unknown
    else if attempt.baseline.NotScoped? then (if attempt.direction.Sleep? then Sleeping else Awake)
    else if attempt.baseline.state == Transitioning then Unknown
    else attempt.baseline.state
  }

  /** What one step of an attempt does to its policy: a state stored, a claim left behind, a state
      cached, and its next stage, or none when it leaves. */
  datatype Effect = Effect(stored: Option<PolicyState>, owes: bool, cached: Option<PolicyState>, next: Option<Stage>)

  function GoTo(stage: Stage): Effect { Effect(None, false, None, Some(stage)) }

  function StoreThen(state: PolicyState, reply: Reply, next: Stage): Effect {
    if Lands(reply) then Effect(Some(state), false, None, Some(next)) else Effect(None, true, None, Some(next))
  }

  function EffectOf(attempt: Attempt, stored: Option<PolicyState>, a: Answer): Effect {
    match attempt.stage
    case Claiming =>
      var wins := stored.Some? && stored.value != Transitioning;
      if !wins || a.reply.Failed? then GoTo(Refused)
      else if a.reply.Ambiguous? then Effect(Some(Transitioning), true, None, Some(Refused))
      else Effect(Some(Transitioning), false, None, Some(Marking))
    case Refused => Effect(None, false, None, None)
    case Marking => Effect(None, false, Some(Transitioning), Some(Creating))
    case Creating => GoTo(if a.ok then Executing else RollingBack)
    case RollingBack => StoreThen(Unknown, a.reply, Abandoning)
    case Abandoning => Effect(None, false, Some(Unknown), None)
    case Executing =>
      GoTo(Settling(Outcome(attempt, a.status, a.panicked), attempt.baseline.Scoped? && !a.panicked))
    case Settling(outcome, restores) => StoreThen(outcome, a.reply, Caching(outcome, restores))
    case Caching(outcome, _) => Effect(None, false, Some(outcome), Some(Leaving))
    case Leaving => Effect(None, false, None, None)
  }

  function Lookup(rows: map<nat, Row>, p: nat): Option<PolicyState> {
    if p in rows then Some(rows[p].state) else None
  }

  function SinceOf(rows: map<nat, Row>, p: nat): Option<int> {
    if p in rows then rows[p].since else None
  }

  /** An update of one row or one cache entry changes nothing when there is none. */
  function SetState(rows: map<nat, Row>, p: nat, state: PolicyState, since: Option<int>): map<nat, Row> {
    if p in rows then rows[p := rows[p].(state := state, since := since)] else rows
  }

  ghost function Owed(owed: set<nat>, p: nat, e: Effect): set<nat> {
    if e.owes then owed + {p}
    else if e.stored.Some? && e.stored.value != Transitioning then owed - {p}
    else owed
  }

  /** The time that goes into the cache with a state. */
  function CachedSince(s: State, attempt: Attempt): Option<int> {
    if attempt.stage.Caching? && attempt.stage.restores then SinceOf(s.cache, attempt.policy) else Some(s.clock)
  }

  ghost function Apply(s: State, t: nat, e: Effect): State
    requires t in s.attempts
  {
    var attempt := s.attempts[t];
    var p := attempt.policy;
    State(
      s.up,
      s.clock,
      if e.stored.Some? then SetState(s.db, p, e.stored.value, Some(s.clock)) else s.db,
      if e.cached.Some? then SetState(s.cache, p, e.cached.value, CachedSince(s, attempt)) else s.cache,
      if e.next.Some? then s.inflight else s.inflight - {p},
      if e.next.Some? then s.attempts[t := attempt.(stage := e.next.value)] else s.attempts - {t},
      s.resets,
      Owed(s.owed, p, e),
      if attempt.stage.Settling? && e.stored.Some? then s.crossed - {p} else s.crossed)
  }

  ghost function ActOf(s: State, t: nat, a: Answer): Effect
    requires t in s.attempts
  {
    EffectOf(s.attempts[t], Lookup(s.db, s.attempts[t].policy), a)
  }

  /** Ids are not used again: nothing knows a new one. */
  predicate Unused(s: State, p: nat) {
    p !in s.db && p !in s.cache && p !in s.inflight && forall r :: r in s.resets ==> s.resets[r].policy != p
  }

  predicate Enabled(s: State, step: Step) {
    match step
    case Enter(t, p, _, _) => s.up && t !in s.attempts && p !in s.inflight
    case Act(t, _) => t in s.attempts
    case CopyStuck(r, p) => s.up && r !in s.resets && p in s.cache && Aged(s.cache[p], s.clock)
    case CheckStuck(r) => r in s.resets && s.resets[r].stage == Copied && s.resets[r].policy !in s.inflight
    case DropReset(r) => r in s.resets && s.resets[r].stage == Copied && s.resets[r].policy in s.inflight
    case StoreReset(r, _) => r in s.resets && s.resets[r].stage == Checked
    case CacheReset(r) => r in s.resets && s.resets[r].stage == Stored
    case Reload(_) => s.up
    case SetTimeout(p, _) => s.up && p in s.db
    case CreatePolicy(p, _) => s.up && Unused(s, p)
    case DeletePolicy(p) => s.up && p in s.db
    case EmergencyWrite(p, _, _) => s.up && p in s.db
    case Wait(_) => true
    case Crash => true
    case Recover(_) => !s.up
  }

  ghost function Next(s: State, step: Step): State
    requires Enabled(s, step)
  {
    match step
    case Enter(t, p, direction, baseline) =>
      s.(inflight := s.inflight + {p}, attempts := s.attempts[t := Attempt(p, direction, baseline, Claiming)])
    case Act(t, a) => Apply(s, t, ActOf(s, t, a))
    case CopyStuck(r, p) => s.(resets := s.resets[r := StuckReset(p, Copied)])
    case CheckStuck(r) => s.(resets := s.resets[r := s.resets[r].(stage := Checked)])
    case DropReset(r) => s.(resets := s.resets - {r})
    case StoreReset(r, reply) =>
      var p := s.resets[r].policy;
      var stored := s.(resets := s.resets[r := StuckReset(p, Stored)]);
      if !Lands(reply) then stored
      else
        stored.(db := SetState(s.db, p, Unknown, Some(s.clock)), owed := s.owed - {p},
                crossed := if p in s.inflight then s.crossed + {p} else s.crossed)
    case CacheReset(r) =>
      var p := s.resets[r].policy;
      s.(cache := SetState(s.cache, p, Unknown, SinceOf(s.cache, p)), resets := s.resets - {r})
    case Reload(enabled) =>
      s.(cache := map p | p in s.db && p in enabled :: s.db[p], crossed := s.crossed * s.inflight)
    case SetTimeout(p, minutes) => s.(db := s.db[p := s.db[p].(timeoutMinutes := minutes)])
    case CreatePolicy(p, minutes) =>
      s.(db := s.db[p := Row(Unknown, None, minutes)], owed := s.owed - {p}, crossed := s.crossed - {p})
    case DeletePolicy(p) => s.(db := s.db - {p})
    case EmergencyWrite(p, restored, reply) =>
      if !Lands(reply) then s
      else
        s.(db := SetState(s.db, p, if restored then Awake else Unknown, Some(s.clock)),
           owed := s.owed - {p}, crossed := s.crossed + {p})
    case Wait(seconds) => s.(clock := s.clock + seconds)
    case Crash => s.(up := false, cache := map[], inflight := {}, attempts := map[], resets := map[])
    case Recover(reply) =>
      var db := if Lands(reply) then map p | p in s.db :: Recovered(s.db[p], s.clock) else s.db;
      if reply.Committed? then s.(up := true, db := db, owed := {}, crossed := {}) else s.(db := db)
  }

  /** Startup recovery of one row. */
  function Recovered(row: Row, now: int): Row {
    if row.state == Transitioning then row.(state := Unknown, since := Some(now)) else row
  }

  ghost predicate Legal(s: State, steps: seq<Step>)
    decreases |steps|
  {
    steps == [] || (Enabled(s, steps[0]) && Legal(Next(s, steps[0]), steps[1..]))
  }

  ghost function After(s: State, steps: seq<Step>): State
    requires Legal(s, steps)
    decreases |steps|
  {
    if steps == [] then s else After(Next(s, steps[0]), steps[1..])
  }

  /** Before startup recovery; the stored states are whatever the last process left. */
  predicate Initial(s: State) {
    !s.up && s.cache == map[] && s.inflight == {} && s.attempts == map[] && s.resets == map[]
  }

  lemma {:induction false} LegalAppend(s: State, steps: seq<Step>, step: Step)
    requires Legal(s, steps) && Enabled(After(s, steps), step)
    ensures Legal(s, steps + [step])
    ensures After(s, steps + [step]) == Next(After(s, steps), step)
    decreases |steps|
  {
    if steps == [] {
      assert steps + [step] == [step] && [step][1..] == [];
      assert After(Next(s, step), []) == Next(s, step);
    } else {
      LegalAppend(Next(s, steps[0]), steps[1..], step);
      assert (steps + [step])[1..] == steps[1..] + [step];
    }
  }

  /** The end of a legal run from an initial state. */
  ghost predicate Reachable(s: State) {
    exists start, steps :: Initial(start) && Legal(start, steps) && After(start, steps) == s
  }

  lemma ReachStart(s: State)
    requires Initial(s)
    ensures Reachable(s)
  {
    assert Legal(s, []) && After(s, []) == s;
  }

  lemma ReachNext(s: State, step: Step)
    requires Reachable(s) && Enabled(s, step)
    ensures Reachable(Next(s, step))
  {
    var start, steps :| Initial(start) && Legal(start, steps) && After(start, steps) == s;
    LegalAppend(start, steps, step);
  }

  // ---------------------------------------------------------------- what every step keeps

  /** The set in flight is exactly the policies of the attempts, and no two attempts share one. */
  ghost predicate Exclusive(s: State) {
    && (forall t :: t in s.attempts ==> s.attempts[t].policy in s.inflight)
    && (forall p :: p in s.inflight ==> exists t :: t in s.attempts && s.attempts[t].policy == p)
    && (forall t, u :: t in s.attempts && u in s.attempts && s.attempts[t].policy == s.attempts[u].policy ==> t == u)
  }

  /** The attempt may have its policy stored as transitioning. */
  predicate Holds(stage: Stage) {
    stage.Marking? || stage.Creating? || stage.RollingBack? || stage.Executing? || stage.Settling?
  }

  predicate HoldsPolicy(s: State, t: nat, p: nat) {
    t in s.attempts && s.attempts[t].policy == p && Holds(s.attempts[t].stage)
  }

  ghost predicate Held(s: State, p: nat) {
    exists t :: HoldsPolicy(s, t, p)
  }

  ghost predicate NotLeftBehind(s: State) {
    s.up ==> forall p :: p in s.db && s.db[p].state == Transitioning && p !in s.owed ==> Held(s, p)
  }

  ghost predicate Inv(s: State) {
    && Exclusive(s) && NotLeftBehind(s)
    && (!s.up ==> s.cache == map[] && s.attempts == map[] && s.inflight == {} && s.resets == map[])
    && (forall t :: t in s.attempts && s.attempts[t].stage.Settling? ==> s.attempts[t].stage.outcome != Transitioning)
  }

  /** An effect is sound for an attempt whose policy is stored as `stored`: once the attempt no longer holds
      the policy, a stored claim is owed. */
  ghost predicate Sound(attempt: Attempt, stored: Option<PolicyState>, owed: bool, e: Effect) {
    var after := if e.stored.Some? && stored.Some? then e.stored else stored;
    && (e.next.Some? && e.next.value.Settling? ==> e.next.value.outcome != Transitioning)
    && ((e.next.Some? && Holds(e.next.value)) ||
        (after == Some(Transitioning) ==>
           e.owes || (owed && !(e.stored.Some? && e.stored.value != Transitioning))))
  }

  lemma EffectSound(attempt: Attempt, stored: Option<PolicyState>, owed: bool, a: Answer)
    requires !Holds(attempt.stage) && stored == Some(Transitioning) ==> owed
    requires attempt.stage.Settling? ==> attempt.stage.outcome != Transitioning
    ensures Sound(attempt, stored, owed, EffectOf(attempt, stored, a))
  {
  }

  lemma ApplyExclusive(s: State, t: nat, e: Effect)
    requires Exclusive(s) && t in s.attempts
    ensures Exclusive(Apply(s, t, e))
  {
    var r := Apply(s, t, e);
    forall p | p in r.inflight
      ensures exists u :: u in r.attempts && r.attempts[u].policy == p
    {
      var u :| u in s.attempts && s.attempts[u].policy == p;
      assert u in r.attempts && r.attempts[u].policy == p;
    }
  }

  /** Another attempt's hold, and the stored state of another policy, are untouched. */
  lemma OthersUntouched(s: State, t: nat, e: Effect, p: nat)
    requires t in s.attempts && p != s.attempts[t].policy
    ensures var r := Apply(s, t, e);
            Lookup(r.db, p) == Lookup(s.db, p) && (p in r.owed <==> p in s.owed) && (Held(s, p) ==> Held(r, p))
  {
    if Held(s, p) {
      var u :| HoldsPolicy(s, u, p);
      assert HoldsPolicy(Apply(s, t, e), u, p);
    }
  }

  lemma OwnHold(s: State, t: nat)
    requires Exclusive(s) && t in s.attempts && Held(s, s.attempts[t].policy)
    ensures Holds(s.attempts[t].stage)
  {
  }

  lemma ApplyNotLeftBehind(s: State, t: nat, e: Effect, p: nat)
    requires Exclusive(s) && NotLeftBehind(s) && s.up && t in s.attempts
    requires var p := s.attempts[t].policy; Sound(s.attempts[t], Lookup(s.db, p), p in s.owed, e)
    requires var r := Apply(s, t, e); p in r.db && r.db[p].state == Transitioning && p !in r.owed
    ensures Held(Apply(s, t, e), p)
  {
    var r := Apply(s, t, e);
    if p == s.attempts[t].policy {
      assert HoldsPolicy(r, t, p);
    } else {
      OthersUntouched(s, t, e, p);
    }
  }

  lemma ApplyKeeps(s: State, t: nat, e: Effect)
    requires Inv(s) && t in s.attempts
    requires var p := s.attempts[t].policy; Sound(s.attempts[t], Lookup(s.db, p), p in s.owed, e)
    ensures Inv(Apply(s, t, e))
  {
    var r := Apply(s, t, e);
    ApplyExclusive(s, t, e);
    forall q | q in r.db && r.db[q].state == Transitioning && q !in r.owed
      ensures Held(r, q)
    {
      ApplyNotLeftBehind(s, t, e, q);
    }
  }

  lemma ActKeeps(s: State, t: nat, a: Answer)
    requires Inv(s) && t in s.attempts
    ensures Inv(Next(s, Act(t, a)))
  {
    var p := s.attempts[t].policy;
    if !Holds(s.attempts[t].stage) && Held(s, p) {
      OwnHold(s, t);
    }
    EffectSound(s.attempts[t], Lookup(s.db, p), p in s.owed, a);
    ApplyKeeps(s, t, ActOf(s, t, a));
  }

  lemma EnterKeeps(s: State, t: nat, p: nat, direction: Direction, baseline: Baseline)
    requires Inv(s) && t !in s.attempts && p !in s.inflight && s.up
    ensures Inv(Next(s, Enter(t, p, direction, baseline)))
  {
    var r := Next(s, Enter(t, p, direction, baseline));
    forall q | q in r.inflight
      ensures exists u :: u in r.attempts && r.attempts[u].policy == q
    {
      if q == p {
        assert t in r.attempts && r.attempts[t].policy == p;
      } else {
        var u :| u in s.attempts && s.attempts[u].policy == q;
        assert u in r.attempts && r.attempts[u].policy == q;
      }
    }
    forall q | Held(s, q)
      ensures Held(r, q)
    {
      var u :| HoldsPolicy(s, u, q);
      assert HoldsPolicy(r, u, q);
    }
  }

  /** A step that moves no attempt and stores no claim. */
  lemma QuietKeeps(s: State, r: State)
    requires Inv(s) && r.attempts == s.attempts && r.inflight == s.inflight && r.up == s.up && r.up
    requires forall p :: p in r.db && r.db[p].state == Transitioning ==> p in s.db && s.db[p].state == Transitioning && (p in s.owed ==> p in r.owed)
    ensures Inv(r)
  {
    forall p | p in r.inflight
      ensures exists t :: t in r.attempts && r.attempts[t].policy == p
    {
      var t :| t in s.attempts && s.attempts[t].policy == p;
      assert t in r.attempts;
    }
    forall p | Held(s, p)
      ensures Held(r, p)
    {
      var t :| HoldsPolicy(s, t, p);
      assert HoldsPolicy(r, t, p);
    }
  }

  lemma WaitKeeps(s: State, r: State)
    requires Inv(s) && r == s.(clock := r.clock)
    ensures Inv(r)
  {
    if s.up {
      QuietKeeps(s, r);
    }
  }

  lemma AdminKeeps(s: State, step: Step)
    requires Inv(s) && Enabled(s, step)
    requires step.CreatePolicy? || step.DeletePolicy? || step.EmergencyWrite?
    ensures Inv(Next(s, step))
  {
    QuietKeeps(s, Next(s, step));
  }

  lemma ResetKeeps(s: State, step: Step)
    requires Inv(s) && Enabled(s, step)
    requires step.CopyStuck? || step.CheckStuck? || step.DropReset? || step.StoreReset? || step.CacheReset?
    ensures Inv(Next(s, step))
  {
    QuietKeeps(s, Next(s, step));
  }

  lemma StepKeeps(s: State, step: Step)
    requires Inv(s) && Enabled(s, step)
    ensures Inv(Next(s, step))
  {
    match step
    case Enter(t, p, direction, baseline) => EnterKeeps(s, t, p, direction, baseline);
    case Act(t, a) => ActKeeps(s, t, a);
    case CopyStuck(_, _) => ResetKeeps(s, step);
    case CheckStuck(_) => ResetKeeps(s, step);
    case DropReset(_) => ResetKeeps(s, step);
    case SetTimeout(_, _) => QuietKeeps(s, Next(s, step));
    case CreatePolicy(_, _) => AdminKeeps(s, step);
    case DeletePolicy(_) => AdminKeeps(s, step);
    case EmergencyWrite(_, _, _) => AdminKeeps(s, step);
    case Wait(_) => WaitKeeps(s, Next(s, step));
    case StoreReset(_, _) => ResetKeeps(s, step);
    case CacheReset(_) => ResetKeeps(s, step);
    case Reload(_) => QuietKeeps(s, Next(s, step));
    case Crash =>
    case Recover(_) =>
  }

  lemma {:induction false} RunKeeps(s: State, steps: seq<Step>)
    requires Inv(s) && Legal(s, steps)
    ensures Inv(After(s, steps))
    decreases |steps|
  {
    if steps != [] {
      StepKeeps(s, steps[0]);
      RunKeeps(Next(s, steps[0]), steps[1..]);
    }
  }

  lemma ReachableInv(s: State)
    requires Reachable(s)
    ensures Inv(s)
  {
    var start, steps :| Initial(start) && Legal(start, steps) && After(start, steps) == s;
    RunKeeps(start, steps);
  }

  // ---------------------------------------------------------------- what can happen at any time

  /** The process may die at every moment and time may pass, and a policy that is not in flight may be taken up
      by any number of callers, of whom one is first. */
  lemma AnythingCanHappen(s: State, p: nat, t: nat, seconds: nat)
    ensures Enabled(s, Crash) && !Next(s, Crash).up && Next(s, Crash).db == s.db && Next(s, Crash).attempts == map[]
    ensures Enabled(s, Wait(seconds)) && Next(s, Wait(seconds)) == s.(clock := s.clock + seconds)
    ensures forall direction, baseline ::
              Enabled(s, Enter(t, p, direction, baseline)) <==> s.up && t !in s.attempts && p !in s.inflight
    ensures forall a :: Enabled(s, Act(t, a)) <==> t in s.attempts
  {
  }

  /** A tick that copied a stuck policy goes on if nothing is in flight for it and forgets it otherwise; what it
      has stored it caches. */
  lemma ResetGoesOn(s: State, r: nat, reply: Reply)
    requires r in s.resets
    ensures s.resets[r].stage == Copied ==>
              && (Enabled(s, CheckStuck(r)) <==> s.resets[r].policy !in s.inflight)
              && (Enabled(s, DropReset(r)) <==> s.resets[r].policy in s.inflight)
              && (Enabled(s, DropReset(r)) ==> Next(s, DropReset(r)) == s.(resets := s.resets - {r}))
    ensures s.resets[r].stage == Checked ==> Enabled(s, StoreReset(r, reply))
    ensures s.resets[r].stage == Stored ==>
              Enabled(s, CacheReset(r)) && r !in Next(s, CacheReset(r)).resets &&
              (s.resets[r].policy in s.cache ==> Lookup(Next(s, CacheReset(r)).cache, s.resets[r].policy) == Some(Unknown))
  {
  }

  /** While the process runs, policies may be created, changed, deleted, reloaded and written by an emergency
      scale, which the cache does not see. */
  lemma PoliciesCanChange(s: State, p: nat, reply: Reply, restored: bool, minutes: int)
    requires s.up
    ensures Enabled(s, Reload({p})) && Lookup(Next(s, Reload({p})).cache, p) == Lookup(s.db, p)
    ensures p in s.db ==> Enabled(s, DeletePolicy(p)) && p !in Next(s, DeletePolicy(p)).db
    ensures p in s.db ==>
              Enabled(s, SetTimeout(p, minutes)) && Next(s, SetTimeout(p, minutes)).db[p] == s.db[p].(timeoutMinutes := minutes)
    ensures Unused(s, p) ==> Enabled(s, CreatePolicy(p, minutes)) && Lookup(Next(s, CreatePolicy(p, minutes)).db, p) == Some(Unknown)
    ensures p in s.db ==>
              var step := EmergencyWrite(p, restored, reply);
              && Enabled(s, step) && Next(s, step).cache == s.cache
              && Lookup(Next(s, step).db, p) == if reply == Failed then Lookup(s.db, p) else Some(if restored then Awake else Unknown)
  {
  }

  // ---------------------------------------------------------------- results

  /** However ticks, triggers, exceptions, recovery, resets, reloads and crashes interleave, a policy
      has at most one execution, and it is in flight exactly while it has one. */
  lemma OneExecutionPerPolicy(s: State, steps: seq<Step>, t: nat, u: nat)
    requires Initial(s) && Legal(s, steps)
    requires t in After(s, steps).attempts && u in After(s, steps).attempts
    ensures After(s, steps).attempts[t].policy == After(s, steps).attempts[u].policy ==> t == u
    ensures After(s, steps).attempts[t].policy in After(s, steps).inflight
  {
    RunKeeps(s, steps);
  }

  /** A policy with nothing in flight is stored as transitioning only if a state write of its own
      last execution failed, or its claim was reported as failed although it was made. */
  lemma IdleIsNotTransitioning(s: State, steps: seq<Step>, p: nat)
    requires Initial(s) && Legal(s, steps)
    requires var r := After(s, steps); r.up && p !in r.inflight && p in r.db && p !in r.owed
    ensures After(s, steps).db[p].state != Transitioning
  {
    RunKeeps(s, steps);
  }

  /** The step's store write is done and says so. */
  predicate Works(step: Step) {
    match step
    case Act(_, a) => a.reply.Committed?
    case StoreReset(_, reply) => reply.Committed?
    case Recover(reply) => reply.Committed?
    case _ => true
  }

  ghost predicate AllWork(steps: seq<Step>) {
    forall i :: 0 <= i < |steps| ==> Works(steps[i])
  }

  lemma {:induction false} NothingOwed(s: State, steps: seq<Step>)
    requires Legal(s, steps) && AllWork(steps) && s.owed == {}
    ensures After(s, steps).owed == {}
    decreases |steps|
  {
    if steps != [] {
      assert Works(steps[0]);
      assert Next(s, steps[0]).owed == {};
      NothingOwed(Next(s, steps[0]), steps[1..]);
    }
  }

  /** With working store writes no idle policy is left transitioning, and no claim by an attempt that got
      into the set in flight is refused. */
  lemma WorkingStore(s: State, steps: seq<Step>, p: nat)
    requires Initial(s) && s.owed == {} && Legal(s, steps) && AllWork(steps)
    requires var r := After(s, steps); r.up && p in r.db
    ensures p !in After(s, steps).inflight ==> After(s, steps).db[p].state != Transitioning
    ensures forall t, a: Answer :: t in After(s, steps).attempts && After(s, steps).attempts[t].policy == p &&
                                   After(s, steps).attempts[t].stage.Claiming? && a.reply.Committed? ==>
                                     ActOf(After(s, steps), t, a).next == Some(Marking)
  {
    NothingOwed(s, steps);
    RunKeeps(s, steps);
  }

  /** How many steps of its own an attempt can still take. */
  function Rank(stage: Stage): nat {
    match stage
    case Claiming => 7
    case Marking => 6
    case Creating => 5
    case Executing => 4
    case Settling(_, _) => 3
    case Caching(_, _) => 2
    case RollingBack => 2
    case Leaving => 1
    case Abandoning => 1
    case Refused => 1
  }

  lemma OwnStepProgress(attempt: Attempt, stored: Option<PolicyState>, a: Answer)
    ensures var next := EffectOf(attempt, stored, a).next; next.Some? ==> Rank(next.value) < Rank(attempt.stage)
    ensures Rank(attempt.stage) > 0
    ensures a.reply.Committed? ==> !EffectOf(attempt, stored, a).owes
  {
  }

  /** The attempt runs on, with one answer for each of its steps, until it leaves. */
  ghost function RunOut(s: State, t: nat, answers: seq<Answer>): State
    decreases |answers|
  {
    if answers == [] || t !in s.attempts then s else RunOut(Next(s, Act(t, answers[0])), t, answers[1..])
  }

  ghost predicate AllCommitted(answers: seq<Answer>) {
    forall i :: 0 <= i < |answers| ==> answers[i].reply.Committed?
  }

  /** Every exit path -- claim refused, create failed, success, failure, panic -- takes the policy out
      of flight within seven steps of the attempt, whatever the store answers; and if the store works,
      the policy is not left transitioning. */
  lemma {:induction false} EveryExitLeaves(s: State, t: nat, answers: seq<Answer>)
    requires Inv(s) && s.up && t in s.attempts && |answers| >= Rank(s.attempts[t].stage)
    ensures var p, r := s.attempts[t].policy, RunOut(s, t, answers);
            Inv(r) && r.up && t !in r.attempts && p !in r.inflight
    ensures var p, r := s.attempts[t].policy, RunOut(s, t, answers);
            AllCommitted(answers) && p !in s.owed && p in r.db ==> r.db[p].state != Transitioning
    decreases |answers|
  {
    var a, p, attempt := answers[0], s.attempts[t].policy, s.attempts[t];
    OwnStepProgress(attempt, Lookup(s.db, p), a);
    ActKeeps(s, t, a);
    var next := Next(s, Act(t, a));
    assert AllCommitted(answers) ==> AllCommitted(answers[1..]) && a.reply.Committed?;
    if t in next.attempts {
      EveryExitLeaves(next, t, answers[1..]);
    } else {
      assert RunOut(next, t, answers[1..]) == next;
    }
  }

  /** What an execution leaves when the store works: an ordinary one that succeeds the state of its direction,
      a narrowed one that succeeds the state it found, and any that fails, is interrupted or panics the
      state unknown, in the store and in the cache. */
  lemma FinalState(s: State, t: nat, answers: seq<Answer>)
    requires Inv(s) && t in s.attempts && s.attempts[t].stage.Executing? && |answers| == 4 && AllCommitted(answers)
    requires var p := s.attempts[t].policy; p in s.db && p in s.cache
    ensures var attempt, p, r := s.attempts[t], s.attempts[t].policy, RunOut(s, t, answers);
            && p !in r.inflight && p in r.db && p in r.cache && r.db[p].state == r.cache[p].state
            && (answers[0].panicked || answers[0].status != Success ==> r.db[p].state == Unknown)
            && (!answers[0].panicked && answers[0].status == Success ==>
                  && (attempt.baseline.NotScoped? && attempt.direction == Sleep ==> r.db[p].state == Sleeping)
                  && (attempt.baseline.NotScoped? && attempt.direction == Wake ==> r.db[p].state == Awake)
                  && (attempt.baseline.Scoped? && attempt.baseline.state != Transitioning ==> r.db[p].state == attempt.baseline.state)
                  && (attempt.baseline == Scoped(Transitioning) ==> r.db[p].state == Unknown))
  {
    var s1 := Next(s, Act(t, answers[0]));
    var s2 := Next(s1, Act(t, answers[1]));
    assert answers[1].reply.Committed? && answers[1..][0] == answers[1];
    CachesAndLeaves(s2, t, answers[2..]);
    assert answers[1..][1..] == answers[2..];
    assert RunOut(s, t, answers) == RunOut(s1, t, answers[1..]) == RunOut(s2, t, answers[2..]);
  }

  /** A final write that fails leaves the claim behind: nothing is in flight, the cache shows the
      outcome, the store still says transitioning, and whoever tries next is refused. */
  lemma FailedFinalWrite(s: State, t: nat, answers: seq<Answer>)
    requires Inv(s) && t in s.attempts && s.attempts[t].stage.Settling? && |answers| == 3 && answers[0].reply.Failed?
    requires var p := s.attempts[t].policy; p in s.db && s.db[p].state == Transitioning && p in s.cache
    ensures var p, r := s.attempts[t].policy, RunOut(s, t, answers);
            && p !in r.inflight && p in r.cache && r.cache[p].state == s.attempts[t].stage.outcome
            && p in r.db && r.db[p].state == Transitioning
    ensures forall attempt: Attempt, a :: attempt.stage.Claiming? ==>
              EffectOf(attempt, Lookup(RunOut(s, t, answers).db, s.attempts[t].policy), a) == GoTo(Refused)
  {
    var s1 := Next(s, Act(t, answers[0]));
    CachesAndLeaves(s1, t, answers[1..]);
    assert RunOut(s, t, answers) == RunOut(s1, t, answers[1..]);
  }

  lemma CachesAndLeaves(s: State, t: nat, answers: seq<Answer>)
    requires t in s.attempts && s.attempts[t].stage.Caching? && |answers| == 2 && s.attempts[t].policy in s.cache
    ensures var p, r := s.attempts[t].policy, RunOut(s, t, answers);
            && p !in r.inflight && p in r.cache && r.cache[p].state == s.attempts[t].stage.outcome && r.db == s.db
  {
    var s1 := Next(s, Act(t, answers[0]));
    var s2 := Next(s1, Act(t, answers[1]));
    assert RunOut(s1, t, answers[1..]) == s2;
    assert RunOut(s, t, answers) == s2;
  }

  // ---------------------------------------------------------------- cache and store agree

  /** A reset has stored "unknown" for the policy and will cache it. */
  ghost predicate ResetPending(s: State, p: nat) {
    exists r :: r in s.resets && s.resets[r] == StuckReset(p, Stored)
  }

  /** The cache shows the stored state, or "unknown", or is about to. */
  ghost predicate Agrees(s: State, p: nat) {
    p in s.cache && p in s.db ==> s.cache[p].state == s.db[p].state || s.cache[p].state == Unknown || ResetPending(s, p)
  }

  /** What cache and store show while an attempt is in this stage. */
  ghost predicate StageAgrees(s: State, p: nat, stage: Stage) {
    if stage.Claiming? || stage.Refused? || stage.Leaving? then Agrees(s, p)
    else if stage.Caching? then p in s.db ==> s.db[p].state == stage.outcome
    else true
  }

  /** Unless a write failed or a reset crossed an execution. */
  ghost predicate PolicyAgrees(s: State, p: nat) {
    p !in s.owed && p !in s.crossed ==>
      && (p !in s.inflight ==> Agrees(s, p))
      && (forall t :: t in s.attempts && s.attempts[t].policy == p ==> StageAgrees(s, p, s.attempts[t].stage))
  }

  ghost predicate AllAgree(s: State) {
    s.up ==> forall p :: PolicyAgrees(s, p)
  }

  /** The step changes nothing that concerns `p`, except that resets for it may be added. */
  ghost predicate Unconcerned(s: State, t: State, p: nat) {
    && Lookup(t.db, p) == Lookup(s.db, p) && Lookup(t.cache, p) == Lookup(s.cache, p)
    && (p in t.owed <==> p in s.owed) && (p in t.crossed <==> p in s.crossed) && (p in t.inflight <==> p in s.inflight)
    && (ResetPending(s, p) ==> ResetPending(t, p))
    && (forall u :: u in t.attempts && t.attempts[u].policy == p ==> u in s.attempts && s.attempts[u] == t.attempts[u])
  }

  lemma UnconcernedAgrees(s: State, t: State, p: nat)
    requires PolicyAgrees(s, p) && Unconcerned(s, t, p)
    ensures PolicyAgrees(t, p)
  {
  }

  lemma ActUnconcerned(s: State, t: nat, a: Answer, p: nat)
    requires t in s.attempts && s.attempts[t].policy != p
    ensures Unconcerned(s, Next(s, Act(t, a)), p)
  {
    var r := Next(s, Act(t, a));
    if ResetPending(s, p) {
      var u :| u in s.resets && s.resets[u] == StuckReset(p, Stored);
      assert u in r.resets && r.resets[u] == StuckReset(p, Stored);
    }
  }

  /** One step of the attempt itself. */
  lemma ActAgrees(s: State, t: nat, a: Answer)
    requires Inv(s) && t in s.attempts && PolicyAgrees(s, s.attempts[t].policy)
    ensures PolicyAgrees(Next(s, Act(t, a)), s.attempts[t].policy)
  {
    var r, p := Next(s, Act(t, a)), s.attempts[t].policy;
    if ResetPending(s, p) {
      var u :| u in s.resets && s.resets[u] == StuckReset(p, Stored);
      assert u in r.resets && r.resets[u] == StuckReset(p, Stored);
    }
    var stage := s.attempts[t].stage;
    if p !in r.owed && p !in r.crossed {
      if stage.Claiming? || stage.Refused? || stage.Marking? || stage.Creating? || stage.Executing? {
        EarlyAgrees(s, t, a);
      } else {
        LateAgrees(s, t, a);
      }
    }
  }

  /** Before a final state is written. */
  lemma EarlyAgrees(s: State, t: nat, a: Answer)
    requires Exclusive(s) && t in s.attempts && PolicyAgrees(s, s.attempts[t].policy)
    requires var stage := s.attempts[t].stage;
             stage.Claiming? || stage.Refused? || stage.Marking? || stage.Creating? || stage.Executing?
    requires var r, p := Next(s, Act(t, a)), s.attempts[t].policy;
             p !in r.owed && p !in r.crossed && (ResetPending(s, p) ==> ResetPending(r, p))
    ensures PolicyAgrees(Next(s, Act(t, a)), s.attempts[t].policy)
  {
  }

  lemma LateAgrees(s: State, t: nat, a: Answer)
    requires Exclusive(s) && t in s.attempts && PolicyAgrees(s, s.attempts[t].policy)
    requires var stage := s.attempts[t].stage;
             stage.RollingBack? || stage.Abandoning? || stage.Settling? || stage.Caching? || stage.Leaving?
    requires var r, p := Next(s, Act(t, a)), s.attempts[t].policy;
             p !in r.owed && p !in r.crossed && (ResetPending(s, p) ==> ResetPending(r, p))
    ensures PolicyAgrees(Next(s, Act(t, a)), s.attempts[t].policy)
  {
  }

  lemma EnterAgrees(s: State, step: Step, p: nat)
    requires Inv(s) && Enabled(s, step) && step.Enter? && PolicyAgrees(s, p)
    ensures PolicyAgrees(Next(s, step), p)
  {
    var r := Next(s, step);
    if ResetPending(s, p) {
      var u :| u in s.resets && s.resets[u] == StuckReset(p, Stored);
      assert u in r.resets && r.resets[u] == StuckReset(p, Stored);
    }
    if p != step.p {
      UnconcernedAgrees(s, r, p);
    }
  }

  /** A step of a reset of `p` itself. */
  lemma OwnResetAgrees(s: State, step: Step, p: nat)
    requires Inv(s) && Enabled(s, step) && PolicyAgrees(s, p)
    requires (step.StoreReset? || step.CacheReset?) && s.resets[step.r].policy == p
    ensures PolicyAgrees(Next(s, step), p)
  {
    var r := Next(s, step);
    if step.StoreReset? {
      assert step.r in r.resets && r.resets[step.r] == StuckReset(p, Stored);
    }
  }

  /** A step of a reset, other than storing or caching for `p`, or of the surroundings. */
  lemma OtherUnconcerned(s: State, step: Step, p: nat)
    requires Enabled(s, step) && !step.Enter? && !step.Act? && !step.Reload? && !step.Crash? && !step.Recover?
    requires step.StoreReset? || step.CacheReset? ==> s.resets[step.r].policy != p
    requires !step.CreatePolicy? && !step.DeletePolicy? && !step.EmergencyWrite?
    ensures Unconcerned(s, Next(s, step), p)
  {
    var r := Next(s, step);
    if ResetPending(s, p) {
      var u :| u in s.resets && s.resets[u] == StuckReset(p, Stored);
      assert u in r.resets && r.resets[u] == StuckReset(p, Stored);
    }
  }

  lemma ResetAgrees(s: State, step: Step, p: nat)
    requires Inv(s) && Enabled(s, step) && PolicyAgrees(s, p)
    requires !step.Enter? && !step.Act? && !step.Reload? && !step.Crash? && !step.Recover?
    requires !step.CreatePolicy? && !step.DeletePolicy? && !step.EmergencyWrite?
    ensures PolicyAgrees(Next(s, step), p)
  {
    if (step.StoreReset? || step.CacheReset?) && s.resets[step.r].policy == p {
      OwnResetAgrees(s, step, p);
    } else {
      OtherUnconcerned(s, step, p);
      UnconcernedAgrees(s, Next(s, step), p);
    }
  }

  lemma AdminUnconcerned(s: State, step: Step, p: nat)
    requires Enabled(s, step) && (step.CreatePolicy? || step.DeletePolicy? || step.EmergencyWrite?) && step.p != p
    ensures Unconcerned(s, Next(s, step), p)
  {
    assert Next(s, step).resets == s.resets;
  }

  /** A policy is created, deleted, or written by an emergency scale. */
  lemma AdminAgrees(s: State, step: Step, p: nat)
    requires Inv(s) && Enabled(s, step) && PolicyAgrees(s, p)
    requires step.CreatePolicy? || step.DeletePolicy? || step.EmergencyWrite?
    ensures PolicyAgrees(Next(s, step), p)
  {
    if step.p != p {
      AdminUnconcerned(s, step, p);
      UnconcernedAgrees(s, Next(s, step), p);
    }
  }

  lemma ReloadAgrees(s: State, step: Step, p: nat)
    requires Exclusive(s) && step.Reload? && Enabled(s, step) && PolicyAgrees(s, p)
    ensures PolicyAgrees(Next(s, step), p)
  {
  }

  lemma StepAgrees(s: State, step: Step)
    requires Inv(s) && AllAgree(s) && Enabled(s, step)
    ensures AllAgree(Next(s, step))
  {
    forall p | Next(s, step).up
      ensures PolicyAgrees(Next(s, step), p)
    {
      match step
      case Enter(_, _, _, _) => EnterAgrees(s, step, p);
      case Act(t, a) =>
        if s.attempts[t].policy == p {
          ActAgrees(s, t, a);
        } else {
          ActUnconcerned(s, t, a, p);
          UnconcernedAgrees(s, Next(s, step), p);
        }
      case CopyStuck(_, _) => ResetAgrees(s, step, p);
      case CheckStuck(_) => ResetAgrees(s, step, p);
      case DropReset(_) => ResetAgrees(s, step, p);
      case SetTimeout(_, _) => ResetAgrees(s, step, p);
      case CreatePolicy(_, _) => AdminAgrees(s, step, p);
      case DeletePolicy(_) => AdminAgrees(s, step, p);
      case EmergencyWrite(_, _, _) => AdminAgrees(s, step, p);
      case Wait(_) => ResetAgrees(s, step, p);
      case StoreReset(_, _) => ResetAgrees(s, step, p);
      case CacheReset(_) => ResetAgrees(s, step, p);
      case Reload(_) => ReloadAgrees(s, step, p);
      case Recover(_) =>
    }
  }

  lemma {:induction false} RunAgrees(s: State, steps: seq<Step>)
    requires Inv(s) && AllAgree(s) && Legal(s, steps)
    ensures AllAgree(After(s, steps))
    decreases |steps|
  {
    if steps != [] {
      StepKeeps(s, steps[0]);
      StepAgrees(s, steps[0]);
      RunAgrees(Next(s, steps[0]), steps[1..]);
    }
  }

  /** Nothing concerns the policy: no execution, no reset under way, no write that failed, and no reset
      across its last execution or emergency write that the cache has not seen. */
  ghost predicate Settled(s: State, p: nat) {
    && s.up && p in s.db && p in s.cache && p !in s.inflight && p !in s.owed && p !in s.crossed
    && forall r :: r in s.resets ==> s.resets[r].policy != p
  }

  /** A settled policy of a reachable state is not stored as transitioning, and its cache shows the
      stored state or "unknown". */
  lemma SettledAgrees(s: State, p: nat)
    requires Reachable(s) && Settled(s, p)
    ensures s.db[p].state != Transitioning && (s.cache[p].state == s.db[p].state || s.cache[p].state == Unknown)
  {
    var start, steps :| Initial(start) && Legal(start, steps) && After(start, steps) == s;
    RunAgrees(start, steps);
    RunKeeps(start, steps);
    assert PolicyAgrees(s, p);
  }

  // ---------------------------------------------------------------- a reset that crosses an execution

  const FINE := Answer(Committed, true, Success, false)

  /** One policy, with an execution in this stage and a reset in this stage, or none. */
  ghost function Race(stored: Row, cached: Row, stage: Option<Stage>, reset: Option<ResetStage>, clock: int): State {
    State(true, clock, map[1 := stored], map[1 := cached], if stage.Some? then {1} else {},
          if stage.Some? then map[0 := Attempt(1, Sleep, NotScoped, stage.value)] else map[],
          if reset.Some? then map[0 := StuckReset(1, reset.value)] else map[], {}, {})
  }

  lemma RaceAct(stored: Row, cached: Row, stage: Stage, reset: Option<ResetStage>, clock: int)
    requires var e := EffectOf(Attempt(1, Sleep, NotScoped, stage), Some(stored.state), FINE); !e.owes
    requires stage.Caching? ==> !stage.restores
    ensures var e := EffectOf(Attempt(1, Sleep, NotScoped, stage), Some(stored.state), FINE);
            Next(Race(stored, cached, Some(stage), reset, clock), Act(0, FINE)) ==
            Race(if e.stored.Some? then stored.(state := e.stored.value, since := Some(clock)) else stored,
                 if e.cached.Some? then cached.(state := e.cached.value, since := Some(clock)) else cached,
                 e.next, reset, clock)
  {
    var s := Race(stored, cached, Some(stage), reset, clock);
    var e := EffectOf(Attempt(1, Sleep, NotScoped, stage), Some(stored.state), FINE);
    assert Owed(s.owed, 1, e) == {} && s.crossed - {1} == {};
  }

  /** Five steps take an execution from its claim to the caching of its outcome. */
  lemma RaceRuns(stored: Row, cached: Row, reset: Option<ResetStage>, clock: int)
    requires stored.state != Transitioning && Reachable(Race(stored, cached, None, reset, clock))
    ensures var claimed := stored.(state := Transitioning, since := Some(clock));
            var marked := cached.(state := Transitioning, since := Some(clock));
            Reachable(Race(claimed, marked, Some(Executing), reset, clock))
  {
    var s := Race(stored, cached, None, reset, clock);
    var t := Reach(s, Enter(0, 1, Sleep, NotScoped));
    assert t == Race(stored, cached, Some(Claiming), reset, clock);
    var claimed := stored.(state := Transitioning, since := Some(clock));
    var marked := cached.(state := Transitioning, since := Some(clock));
    RaceAct(stored, cached, Claiming, reset, clock);
    t := Reach(t, Act(0, FINE));
    RaceAct(claimed, cached, Marking, reset, clock);
    t := Reach(t, Act(0, FINE));
    RaceAct(claimed, marked, Creating, reset, clock);
    t := Reach(t, Act(0, FINE));
  }

  lemma RaceSettles(stored: Row, cached: Row, reset: Option<ResetStage>, clock: int)
    requires Reachable(Race(stored, cached, Some(Executing), reset, clock))
    ensures var done := stored.(state := Sleeping, since := Some(clock));
            Reachable(Race(done, cached, Some(Caching(Sleeping, false)), reset, clock))
  {
    var t := Race(stored, cached, Some(Executing), reset, clock);
    RaceAct(stored, cached, Executing, reset, clock);
    t := Reach(t, Act(0, FINE));
    RaceAct(stored, cached, Settling(Sleeping, false), reset, clock);
    t := Reach(t, Act(0, FINE));
  }

  lemma RaceLeaves(stored: Row, cached: Row, reset: Option<ResetStage>, clock: int)
    requires Reachable(Race(stored, cached, Some(Caching(Sleeping, false)), reset, clock))
    ensures Reachable(Race(stored, cached.(state := Sleeping, since := Some(clock)), None, reset, clock))
  {
    var t := Race(stored, cached, Some(Caching(Sleeping, false)), reset, clock);
    RaceAct(stored, cached, Caching(Sleeping, false), reset, clock);
    t := Reach(t, Act(0, FINE));
    RaceAct(stored, cached.(state := Sleeping, since := Some(clock)), Leaving, reset, clock);
    t := Reach(t, Act(0, FINE));
  }

  lemma RaceStart()
    ensures Reachable(Race(Row(Awake, None, 120), Row(Awake, None, 120), None, None, 0))
  {
    var s := State(false, 0, map[1 := Row(Awake, None, 120)], map[], {}, map[], map[], {}, {});
    ReachStart(s);
    s := Reach(s, Recover(Committed));
    assert s.db == map[1 := Row(Awake, None, 120)];
    s := Reach(s, Reload({1}));
    assert s == Race(Row(Awake, None, 120), Row(Awake, None, 120), None, None, 0);
  }

  /** An execution runs for longer than the stuck timeout, because the timeout of its policy was lowered
      meanwhile; a tick copies the policy just before the execution ends, and then finds nothing in
      flight. */
  lemma StaleCopy()
    ensures Reachable(Race(Row(Sleeping, Some(901), 10), Row(Sleeping, Some(901), 10), None, Some(Checked), 901))
  {
    RaceStart();
    RaceRuns(Row(Awake, None, 120), Row(Awake, None, 120), None, 0);
    StaleCopyTaken();
    RaceSettles(Row(Transitioning, Some(0), 10), Row(Transitioning, Some(0), 10), Some(Copied), 901);
    RaceLeaves(Row(Sleeping, Some(901), 10), Row(Transitioning, Some(0), 10), Some(Copied), 901);
    var s := Race(Row(Sleeping, Some(901), 10), Row(Sleeping, Some(901), 10), None, Some(Copied), 901);
    var t := Reach(s, CheckStuck(0));
    assert t == Race(Row(Sleeping, Some(901), 10), Row(Sleeping, Some(901), 10), None, Some(Checked), 901);
  }

  lemma StaleCopyTaken()
    requires Reachable(Race(Row(Transitioning, Some(0), 120), Row(Transitioning, Some(0), 120), Some(Executing), None, 0))
    ensures Reachable(Race(Row(Transitioning, Some(0), 10), Row(Transitioning, Some(0), 10), Some(Executing), Some(Copied), 901))
  {
    var s := Race(Row(Transitioning, Some(0), 120), Row(Transitioning, Some(0), 120), Some(Executing), None, 0);
    s := Reach(s, SetTimeout(1, 10));
    assert s.db == map[1 := Row(Transitioning, Some(0), 10)];
    s := Reach(s, Reload({1}));
    assert s.cache == map[1 := Row(Transitioning, Some(0), 10)];
    s := Reach(s, Wait(901));
    assert Aged(s.cache[1], 901);
    s := Reach(s, CopyStuck(0, 1));
    assert s == Race(Row(Transitioning, Some(0), 10), Row(Transitioning, Some(0), 10), Some(Executing), Some(Copied), 901);
  }

  /** The reset is written after the next execution has stored its outcome and before it caches it. */
  lemma ResetLands() returns (s: State)
    ensures Reachable(s) && s.up && s.inflight == {1} && s.resets == map[] && s.owed == {}
    ensures s.db == map[1 := Row(Unknown, Some(901), 10)] && s.cache.Keys == {1}
    ensures s.attempts == map[0 := Attempt(1, Sleep, NotScoped, Caching(Sleeping, false))]
  {
    StaleCopy();
    RaceRuns(Row(Sleeping, Some(901), 10), Row(Sleeping, Some(901), 10), Some(Checked), 901);
    RaceSettles(Row(Transitioning, Some(901), 10), Row(Transitioning, Some(901), 10), Some(Checked), 901);
    s := Race(Row(Sleeping, Some(901), 10), Row(Transitioning, Some(901), 10), Some(Caching(Sleeping, false)), Some(Checked), 901);
    s := Reach(s, StoreReset(0, Committed));
    assert s.db == map[1 := Row(Unknown, Some(901), 10)] && s.owed == {};
    s := Reach(s, CacheReset(0));
    assert s.resets == map[];
  }

  /** Why a crossing reset matters: with store writes that all work, a reset that a tick decided on a copy
      taken during one execution and wrote during the next leaves the cache sleeping and the store
      unknown, with nothing under way.  A claim would be accepted then, but while sleeping is what is
      wanted nothing makes one. */
  lemma CrossingReset()
    ensures exists s :: Reachable(s) && s.up && s.inflight == {} && s.resets == map[] && s.owed == {} &&
                        Lookup(s.cache, 1) == Some(Sleeping) && Lookup(s.db, 1) == Some(Unknown) && AcceptsClaims(s, 1)
  {
    var s := ResetLands();
    s := Reach(s, Act(0, FINE));
    assert Lookup(s.cache, 1) == Some(Sleeping);
    s := Reach(s, Act(0, FINE));
    assert s.inflight == {} && s.owed == {};
  }

  /** Whoever tries next gets the claim, when the store works. */
  ghost predicate AcceptsClaims(s: State, p: nat) {
    forall t: nat, direction: Direction, a: Answer ::
      var step := Enter(t, p, direction, NotScoped);
      t !in s.attempts && a.reply.Committed? ==> Enabled(s, step) && ActOf(Next(s, step), t, a).next == Some(Marking)
  }

  lemma Reach(s: State, step: Step) returns (t: State)
    requires Reachable(s) && Enabled(s, step)
    ensures Reachable(t) && t == Next(s, step)
  {
    ReachNext(s, step);
    t := Next(s, step);
  }
}

/** The claim protocol and the sleep/wake protocol together.  An execution of the one is a run of the
    other: it begins while its attempt executes, and returns before the attempt goes on.  That a policy
    has no other run in flight is not checked anywhere; it follows from the claims. */
module Coordination {
  import Claims = SchedulerClaims
  import Protocol = SnapshotProtocol
  import Safety = SnapshotSafety
  import Theorems = SnapshotTheorems

  /** `runs` names, for each policy whose scaler is running, the attempt that it runs for. */
  datatype State = State(claims: Claims.State, protocol: Protocol.State, runs: map<nat, nat>)

  datatype Step =
    | Schedule(move: Claims.Step)
    | Launch(t: nat, exec: nat, direction: Protocol.Direction, apply: bool, read: map<Protocol.Key, nat>)
    | Scale(work: Protocol.Step)
    | Return(t: nat, recorded: bool, answer: Claims.Answer)
    | BeginEmergency(p: nat, exec: nat, read: map<Protocol.Key, nat>)
    | EndEmergency(p: nat, recorded: bool)
    | Die
    | Recover(reply: Claims.Reply)

  predicate HasLaunched(s: State, t: nat) {
    exists p :: p in s.runs && s.runs[p] == t
  }

  predicate EmergencyRun(s: State, p: nat) {
    p in s.protocol.inflight && s.protocol.inflight[p].direction.Emergency?
  }

  /** What an attempt starts: a wake, a sleep, or an enforce-sleep. */
  predicate Fits(direction: Claims.Direction, started: Protocol.Direction) {
    if direction.Wake? then started.Wake? else started.Sleep? || started.Enforce?
  }

  predicate Executes(s: State, t: nat) {
    t in s.claims.attempts && s.claims.attempts[t].stage == Claims.Executing
  }

  ghost predicate Enabled(s: State, step: Step) {
    match step
    case Schedule(c) =>
      // An emergency scale stops the scheduler first.
      && Claims.Enabled(s.claims, c) && !c.Crash? && !c.Recover?
      && (c.Act? ==> !HasLaunched(s, c.t))
      && (c.Enter? ==> forall p :: p in s.protocol.inflight ==> !EmergencyRun(s, p))
    case Launch(t, e, direction, apply, read) =>
      && Executes(s, t) && !HasLaunched(s, t) && Fits(s.claims.attempts[t].direction, direction)
      && e !in s.protocol.execs && Protocol.Readable(s.protocol, s.claims.attempts[t].policy, direction, read)
    case Scale(w) =>
      (w.Select? || w.Call? || w.Abort? || w.Retain? || w.Outside?) && Protocol.Enabled(s.protocol, w)
    case Return(t, recorded, _) =>
      Executes(s, t) && HasLaunched(s, t) && Protocol.Enabled(s.protocol, Protocol.End(s.claims.attempts[t].policy, recorded))
    case BeginEmergency(p, e, read) =>
      s.claims.up && s.claims.inflight == {} && Protocol.Enabled(s.protocol, Protocol.Begin(p, e, Protocol.Emergency, true, read))
    case EndEmergency(p, recorded) => EmergencyRun(s, p) && Protocol.Enabled(s.protocol, Protocol.End(p, recorded))
    case Die => true
    case Recover(reply) => Claims.Enabled(s.claims, Claims.Recover(reply)) && s.protocol.inflight == map[]
  }

  ghost function Next(s: State, step: Step): State
    requires Enabled(s, step)
  {
    match step
    case Schedule(c) => s.(claims := Claims.Next(s.claims, c))
    case Launch(t, e, direction, apply, read) =>
      var p := s.claims.attempts[t].policy;
      s.(protocol := Protocol.Begun(s.protocol, p, e, direction, apply, read), runs := s.runs[p := t])
    case Scale(w) => s.(protocol := Protocol.Next(s.protocol, w))
    case Return(t, recorded, answer) =>
      var p := s.claims.attempts[t].policy;
      State(Claims.Next(s.claims, Claims.Act(t, answer)), Protocol.Next(s.protocol, Protocol.End(p, recorded)), s.runs - {p})
    case BeginEmergency(p, e, read) => s.(protocol := Protocol.Next(s.protocol, Protocol.Begin(p, e, Protocol.Emergency, true, read)))
    case EndEmergency(p, recorded) => s.(protocol := Protocol.Next(s.protocol, Protocol.End(p, recorded)))
    case Die => State(Claims.Next(s.claims, Claims.Crash), Protocol.Next(s.protocol, Protocol.Crash), map[])
    case Recover(reply) =>
      State(Claims.Next(s.claims, Claims.Recover(reply)),
            if Claims.Lands(reply) then Protocol.Next(s.protocol, Protocol.Recover) else s.protocol, s.runs)
  }

  ghost predicate Legal(s: State, steps: seq<Step>)
    decreases |steps|
  {
    steps == [] || (Enabled(s, steps[0]) && Legal(Next(s, steps[0]), steps[1..]))
  }

  ghost function After(s: State, steps: seq<Step>): State
    requires Legal(s, steps)
    decreases |steps|
  {
    if steps == [] then s else After(Next(s, steps[0]), steps[1..])
  }

  predicate Initial(s: State) {
    Claims.Initial(s.claims) && Protocol.Initial(s.protocol) && s.runs == map[]
  }

  // ---------------------------------------------------------------- what every step keeps

  /** The runs in flight are those of the executing attempts that have launched one, and emergency runs
      while there is no attempt. */
  ghost predicate Matched(s: State) {
    && (forall p :: p in s.runs ==> Executes(s, s.runs[p]) && s.claims.attempts[s.runs[p]].policy == p)
    && (forall p :: p in s.runs ==> p in s.protocol.inflight && !EmergencyRun(s, p))
    && (forall p :: p in s.protocol.inflight && p !in s.runs ==> EmergencyRun(s, p) && s.claims.inflight == {})
  }

  ghost predicate Inv(s: State) {
    Matched(s) && Claims.Reachable(s.claims) && Protocol.Reachable(s.protocol)
  }

  /** What the protocol takes for granted of a beginning run. */
  lemma LaunchFindsNoRun(s: State, step: Step)
    requires Inv(s) && step.Launch? && Enabled(s, step)
    ensures s.claims.attempts[step.t].policy !in s.protocol.inflight
  {
    Claims.ReachableInv(s.claims);
    assert forall p :: p in s.runs ==> s.runs[p] != step.t;
  }

  lemma LaunchMatched(s: State, step: Step)
    requires Matched(s) && step.Launch? && Enabled(s, step)
    requires s.claims.attempts[step.t].policy !in s.protocol.inflight
    ensures Matched(Next(s, step))
  {
  }

  lemma LaunchKeeps(s: State, step: Step)
    requires Inv(s) && step.Launch? && Enabled(s, step)
    ensures Inv(Next(s, step))
  {
    LaunchFindsNoRun(s, step);
    var begin := Protocol.Begin(s.claims.attempts[step.t].policy, step.exec, step.direction, step.apply, step.read);
    Protocol.ReachNext(s.protocol, begin);
    LaunchMatched(s, step);
  }

  /** A scheduler step that is not one of a launched attempt leaves the launched ones alone. */
  lemma LaunchedKept(s: State, c: Claims.Step, t: nat)
    requires Enabled(s, Schedule(c)) && HasLaunched(s, t) && t in s.claims.attempts
    ensures var r := Claims.Next(s.claims, c); t in r.attempts && r.attempts[t] == s.claims.attempts[t]
  {
  }

  /** While an emergency run is in flight no attempt begins. */
  lemma EmergencyAlone(s: State, c: Claims.Step, p: nat)
    requires Enabled(s, Schedule(c)) && EmergencyRun(s, p) && s.claims.inflight == {}
    requires forall t :: t in s.claims.attempts ==> s.claims.attempts[t].policy in s.claims.inflight
    ensures Claims.Next(s.claims, c).inflight == {}
  {
  }

  lemma ScheduleKeeps(s: State, c: Claims.Step)
    requires Inv(s) && Enabled(s, Schedule(c))
    ensures Inv(Next(s, Schedule(c)))
  {
    Claims.ReachNext(s.claims, c);
    Claims.ReachableInv(s.claims);
    ScheduleMatched(s, c);
  }

  lemma ScheduleMatched(s: State, c: Claims.Step)
    requires Matched(s) && Enabled(s, Schedule(c))
    requires forall t :: t in s.claims.attempts ==> s.claims.attempts[t].policy in s.claims.inflight
    ensures Matched(Next(s, Schedule(c)))
  {
    var r := Next(s, Schedule(c));
    assert r.runs == s.runs && r.protocol == s.protocol;
    forall p | p in s.runs
      ensures Executes(r, s.runs[p]) && r.claims.attempts[s.runs[p]].policy == p
    {
      LaunchedKept(s, c, s.runs[p]);
    }
    forall p | p in s.protocol.inflight && p !in s.runs
      ensures EmergencyRun(r, p) && r.claims.inflight == {}
    {
      EmergencyAlone(s, c, p);
    }
  }

  lemma ReturnMatched(s: State, step: Step)
    requires Matched(s) && step.Return? && Enabled(s, step)
    requires forall p :: p in s.runs && s.runs[p] == step.t ==> p == s.claims.attempts[step.t].policy
    requires s.claims.attempts[step.t].policy in s.claims.inflight
    ensures Matched(Next(s, step))
  {
    assert forall t :: t in s.claims.attempts && t != step.t ==>
             t in Next(s, step).claims.attempts && Next(s, step).claims.attempts[t] == s.claims.attempts[t];
  }

  lemma ReturnKeeps(s: State, step: Step)
    requires Inv(s) && step.Return? && Enabled(s, step)
    ensures Inv(Next(s, step))
  {
    Claims.ReachNext(s.claims, Claims.Act(step.t, step.answer));
    Protocol.ReachNext(s.protocol, Protocol.End(s.claims.attempts[step.t].policy, step.recorded));
    HasPolicyInFlight(s, step.t);
    ReturnMatched(s, step);
  }

  lemma HasPolicyInFlight(s: State, t: nat)
    requires Claims.Reachable(s.claims) && t in s.claims.attempts
    ensures s.claims.attempts[t].policy in s.claims.inflight
  {
    Claims.ReachableInv(s.claims);
  }

  predicate SameRuns(a: Protocol.State, b: Protocol.State) {
    a.inflight.Keys == b.inflight.Keys && forall p :: p in a.inflight ==> b.inflight[p].direction == a.inflight[p].direction
  }

  /** Workers, retention and others begin and end no run. */
  lemma WorkKeepsRuns(a: Protocol.State, w: Protocol.Step)
    requires Protocol.Enabled(a, w) && (w.Select? || w.Call? || w.Abort? || w.Retain? || w.Outside?)
    ensures SameRuns(a, Protocol.Next(a, w))
  {
  }

  lemma SameRunsMatched(s: State, b: Protocol.State)
    requires Matched(s) && SameRuns(s.protocol, b)
    ensures Matched(s.(protocol := b))
  {
  }

  lemma ScaleKeeps(s: State, w: Protocol.Step)
    requires Inv(s) && Enabled(s, Scale(w))
    ensures Inv(Next(s, Scale(w)))
  {
    Protocol.ReachNext(s.protocol, w);
    WorkKeepsRuns(s.protocol, w);
    SameRunsMatched(s, Protocol.Next(s.protocol, w));
  }

  lemma BeginEmergencyMatched(s: State, step: Step)
    requires Matched(s) && step.BeginEmergency? && Enabled(s, step)
    ensures Matched(Next(s, step))
  {
    assert step.p !in s.runs;
  }

  lemma BeginEmergencyKeeps(s: State, step: Step)
    requires Inv(s) && step.BeginEmergency? && Enabled(s, step)
    ensures Inv(Next(s, step))
  {
    BeginEmergencyMatched(s, step);
    Protocol.ReachNext(s.protocol, Protocol.Begin(step.p, step.exec, Protocol.Emergency, true, step.read));
  }

  lemma EndEmergencyMatched(s: State, step: Step)
    requires Matched(s) && step.EndEmergency? && Enabled(s, step)
    ensures Matched(Next(s, step))
  {
    assert step.p !in s.runs;
  }

  lemma EndEmergencyKeeps(s: State, step: Step)
    requires Inv(s) && step.EndEmergency? && Enabled(s, step)
    ensures Inv(Next(s, step))
  {
    EndEmergencyMatched(s, step);
    Protocol.ReachNext(s.protocol, Protocol.End(step.p, step.recorded));
  }

  lemma ProcessKeeps(s: State, step: Step)
    requires Inv(s) && (step.Die? || step.Recover?) && Enabled(s, step)
    ensures Inv(Next(s, step))
  {
    if step.Die? {
      Claims.ReachNext(s.claims, Claims.Crash);
      Protocol.ReachNext(s.protocol, Protocol.Crash);
    } else {
      Claims.ReachNext(s.claims, Claims.Recover(step.reply));
      Protocol.ReachNext(s.protocol, Protocol.Recover);
    }
  }

  lemma StepKeeps(s: State, step: Step)
    requires Inv(s) && Enabled(s, step)
    ensures Inv(Next(s, step))
  {
    match step
    case Schedule(c) => ScheduleKeeps(s, c);
    case Launch(_, _, _, _, _) => LaunchKeeps(s, step);
    case Scale(w) => ScaleKeeps(s, w);
    case Return(_, _, _) => ReturnKeeps(s, step);
    case BeginEmergency(_, _, _) => BeginEmergencyKeeps(s, step);
    case EndEmergency(_, _) => EndEmergencyKeeps(s, step);
    case Die => ProcessKeeps(s, step);
    case Recover(_) => ProcessKeeps(s, step);
  }

  lemma {:induction false} RunKeeps(s: State, steps: seq<Step>)
    requires Inv(s) && Legal(s, steps)
    ensures Inv(After(s, steps))
    decreases |steps|
  {
    if steps != [] {
      StepKeeps(s, steps[0]);
      RunKeeps(Next(s, steps[0]), steps[1..]);
    }
  }

  // ---------------------------------------------------------------- what can happen

  /** An execution can begin for every executing attempt that has none, with any rows that it may read; the
      scheduler goes on with every other attempt; and the process may die. */
  lemma AnythingCanHappen(s: State, t: nat, e: nat, read: map<Protocol.Key, nat>, a: Claims.Answer)
    ensures Enabled(s, Die) && Next(s, Die).runs == map[] && Next(s, Die).protocol.world == s.protocol.world
    ensures t in s.claims.attempts && !HasLaunched(s, t) ==> Enabled(s, Schedule(Claims.Act(t, a)))
    ensures forall direction, apply ::
              Executes(s, t) && !HasLaunched(s, t) && e !in s.protocol.execs && Fits(s.claims.attempts[t].direction, direction) &&
              Protocol.Readable(s.protocol, s.claims.attempts[t].policy, direction, read) ==>
                Enabled(s, Launch(t, e, direction, apply, read))
    ensures Fits(Claims.Sleep, Protocol.Sleep) && Fits(Claims.Sleep, Protocol.Enforce) && Fits(Claims.Wake, Protocol.Wake)
  {
  }

  // ---------------------------------------------------------------- results

  /** Every run of both together is a run of each: what is proved about one alone holds of it. */
  lemma Refines(s: State, steps: seq<Step>)
    requires Initial(s) && Legal(s, steps)
    ensures Claims.Reachable(After(s, steps).claims) && Protocol.Reachable(After(s, steps).protocol)
  {
    Claims.ReachStart(s.claims);
    Protocol.ReachStart(s.protocol);
    RunKeeps(s, steps);
  }

  /** An execution never begins while another run of its policy is in flight. */
  lemma OneRunPerPolicy(s: State, steps: seq<Step>, step: Step)
    requires Initial(s) && Legal(s, steps) && step.Launch? && Enabled(After(s, steps), step)
    ensures After(s, steps).claims.attempts[step.t].policy !in After(s, steps).protocol.inflight
  {
    Claims.ReachStart(s.claims);
    Protocol.ReachStart(s.protocol);
    RunKeeps(s, steps);
    LaunchFindsNoRun(After(s, steps), step);
  }

  /** Whatever ticks, triggers, resets, reloads, failing calls and crashes do: at most one open row per
      policy and workload, and whatever we scaled to zero has one that brings it back. */
  lemma BaselinesKept(s: State, steps: seq<Step>)
    requires Initial(s) && Legal(s, steps)
    ensures Safety.UniqueOpen(After(s, steps).protocol.world.rows)
    ensures forall k :: k in After(s, steps).protocol.world.zeroed ==> Theorems.Recoverable(After(s, steps).protocol.world, k)
  {
    Refines(s, steps);
    Theorems.ReachableInv(After(s, steps).protocol);
    var w := After(s, steps).protocol.world;
    forall k | k in w.zeroed
      ensures Theorems.Recoverable(w, k)
    {
      assert w.zeroed[k] in w.rows;
    }
  }
}

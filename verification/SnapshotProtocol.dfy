/** The durable sleep/wake protocol as a machine whose steps are single store or cluster calls.

    The cluster is a map from workload to replica count, the database a map from row id to
    snapshot row.  Executions and their workers are volatile: `Crash` forgets all of them.  Each call
    can commit, fail, or commit and still report failure, and anybody may scale, delete or recreate
    a workload between two calls.  `Next` is one step; a run is a sequence of them. */
module SnapshotProtocol {
  import opened Options

  // ---------------------------------------------------------------- stored data

  datatype Key = Key(kind: string, namespace: string, name: string)

  /** `Legacy` is the empty phase of rows written before phases existed. */
  datatype Phase = Legacy | Prepared | Applied | Restored

  datatype Row = Row(policy: nat, sleepExec: nat, key: Key, before: nat, alreadyZero: bool,
                     phase: Phase, wakeExec: Option<nat>, restored: Option<nat>,
                     deletedAtWake: bool, externallyScaled: bool)
  {
    predicate Open() { wakeExec.None? && !deletedAtWake }

    /** Open and scaled down by us: what wake, enforce-sleep and emergency scale look for. */
    predicate Restorable() { Open() && !alreadyZero }

    predicate SameBaseline(other: Row) {
      policy == other.policy && sleepExec == other.sleepExec && key == other.key &&
      before == other.before && alreadyZero == other.alreadyZero
    }
  }

  type Table = map<nat, Row>

  datatype ExecStatus = Running | Ended

  /** What a caller learns from a call: it committed, it had no effect, or it committed but
      the caller was told that it failed. */
  datatype Reply = Committed | Failed | Ambiguous

  function NewRow(policy: nat, exec: nat, key: Key, replicas: nat): Row {
    Row(policy, exec, key, replicas, replicas == 0, Prepared, None, None, false, false)
  }

  function MarkApplied(rows: Table, id: nat): Table {
    if id in rows && rows[id].wakeExec.None? then rows[id := rows[id].(phase := Applied)] else rows
  }

  function CloseRow(rows: Table, id: nat, exec: nat, replicas: nat): Table {
    if id in rows
    then rows[id := rows[id].(wakeExec := Some(exec), restored := Some(replicas), phase := Restored)]
    else rows
  }

  function MarkDeleted(rows: Table, id: nat, exec: nat): Table {
    if id in rows then rows[id := rows[id].(wakeExec := Some(exec), deletedAtWake := true)] else rows
  }

  function MarkExternal(rows: Table, id: nat): Table {
    if id in rows then rows[id := rows[id].(externallyScaled := true)] else rows
  }

  // ---------------------------------------------------------------- executions

  datatype Direction = Sleep | Wake | Enforce | Emergency

  /** `Held` is a skip caused by an active exception; `Skipped` is every other skip. */
  datatype Outcome = Scaled | Skipped | Held | Errored

  /** A worker is the call it makes next; `Finished` when it has returned. */
  datatype Job =
    | Create(replicas: nat)
    | Zero(id: nat)
    | MarkDone(id: nat)
    | Look(id: nat)
    | FlagExternal(id: nat, target: nat, settled: bool)
    | FlagDrift(id: nat)
    | Restore(id: nat, target: nat)
    | Close(id: nat, replicas: nat, outcome: Outcome)
    | MarkGone(id: nat)
    | Finished(outcome: Outcome)

  datatype Snap = Snap(id: nat, row: Row)

  /** One execution of a policy: the rows it read when it began and its workers. `full` records
      that no open row of the policy was left out of `snapped`. */
  datatype Run = Run(exec: nat, direction: Direction, apply: bool, full: bool,
                     snapped: map<Key, Snap>, jobs: map<Key, Job>)

  /** Cluster and snapshot table.  `zeroed` is a history variable: the workloads whose last replica
      write was our scaling to zero, with the row under which that write was made. */
  datatype World = World(cluster: map<Key, nat>, rows: Table, nextRow: nat, zeroed: map<Key, nat>)

  datatype State = State(world: World, execs: map<nat, ExecStatus>, inflight: map<nat, Run>)

  // ---------------------------------------------------------------- worker decisions

  /** sleepWorkload once an intent row is known. */
  function AfterIntent(id: nat, alreadyZero: bool, replicas: nat): Job {
    if alreadyZero then Finished(Skipped)
    else if replicas > 0 then Zero(id)
    else MarkDone(id)
  }

  function FirstJob(run: Run, key: Key, replicas: nat): Job
    requires !run.direction.Sleep? ==> key in run.snapped
  {
    match run.direction
    case Sleep =>
      if !run.apply then Finished(if replicas > 0 then Scaled else Skipped)
      else if key in run.snapped
      then AfterIntent(run.snapped[key].id, run.snapped[key].row.alreadyZero, replicas)
      else Create(replicas)
    case Wake =>
      var snap := run.snapped[key];
      if snap.row.alreadyZero
      then if run.apply then Close(snap.id, 0, Skipped) else Finished(Skipped)
      else Look(snap.id)
    case Enforce => Look(run.snapped[key].id)
    case Emergency => Restore(run.snapped[key].id, 1)
  }

  /** wakeWorkload after a successful lookup; `held` says that an exception blocks the workload. */
  function AfterWakeLookup(run: Run, snap: Snap, live: Option<nat>, held: bool): Job {
    if live.None? then if run.apply then MarkGone(snap.id) else Finished(Skipped)
    else if held then Finished(Held)
    else if !run.apply then Finished(Scaled)
    else if live.value != 0 then FlagExternal(snap.id, snap.row.before, live.value == snap.row.before)
    else Restore(snap.id, snap.row.before)
  }

  /** reconcileSnapshotSleep after a successful lookup. */
  function AfterEnforceLookup(run: Run, snap: Snap, live: Option<nat>, held: bool): Job {
    if live.None? then Finished(Skipped)
    else if held then Finished(Held)
    else if live.value == 0
    then if run.apply && snap.row.phase.Prepared? then MarkDone(snap.id) else Finished(Skipped)
    else if !run.apply then Finished(Scaled)
    else Zero(snap.id)
  }

  // ---------------------------------------------------------------- steps

  datatype Step =
    | Begin(policy: nat, exec: nat, direction: Direction, apply: bool, read: map<Key, nat>)
    | Select(policy: nat, key: Key)
    | Call(policy: nat, key: Key, reply: Reply, held: bool)
    | Abort(policy: nat, key: Key)                 // cancelled before a call, or a recovered panic
    | End(policy: nat, recorded: bool)
    | Crash
    | Recover                                      // running executions become interrupted
    | Retain(exec: nat)                            // retention deletes one old execution
    | Outside(key: Key, replicas: Option<nat>)     // anybody else scales, creates or deletes

  predicate OpenFor(row: Row, policy: nat, direction: Direction) {
    row.policy == policy &&
    if direction.Sleep? || direction.Wake? then row.Open() else row.Restorable()
  }

  /** `read` is what a new execution reads: for each workload the id of an open row.  A sleep
      reads every open row of its policy; the other executions may be narrowed by a namespace
      filter or an exception scope. */
  ghost predicate Readable(s: State, policy: nat, direction: Direction, read: map<Key, nat>) {
    (forall k :: k in read ==>
      read[k] in s.world.rows && OpenFor(s.world.rows[read[k]], policy, direction) && s.world.rows[read[k]].key == k) &&
    (direction.Sleep? ==> CoversAllOpen(s, policy, read.Keys))
  }

  predicate CoversAllOpen(s: State, policy: nat, keys: set<Key>) {
    forall id :: id in s.world.rows && s.world.rows[id].policy == policy && s.world.rows[id].Open() ==>
      s.world.rows[id].key in keys
  }

  ghost predicate Enabled(s: State, step: Step) {
    match step
    case Begin(p, e, direction, apply, read) =>
      (direction.Emergency? ==> apply) && p !in s.inflight && e !in s.execs && Readable(s, p, direction, read)
    case Select(p, k) =>
      p in s.inflight && k !in s.inflight[p].jobs &&
      (if s.inflight[p].direction.Sleep? then k in s.world.cluster else k in s.inflight[p].snapped)
    case Call(p, k, _, _) => p in s.inflight && k in s.inflight[p].jobs && !s.inflight[p].jobs[k].Finished?
    case Abort(p, k) => p in s.inflight && k in s.inflight[p].jobs && !s.inflight[p].jobs[k].Finished?
    case End(p, _) =>
      p in s.inflight && forall k :: k in s.inflight[p].jobs ==> s.inflight[p].jobs[k].Finished?
    case Crash => true
    case Recover => s.inflight == map[]
    case Retain(e) =>
      e in s.execs && s.execs[e].Ended? &&
      forall id :: id in s.world.rows && s.world.rows[id].sleepExec == e ==> s.world.rows[id].wakeExec.Some?
    case Outside(_, _) => true
  }

  function Live(w: World, k: Key): Option<nat> {
    if k in w.cluster then Some(w.cluster[k]) else None
  }

  datatype Effect = Effect(world: World, job: Job)

  /** One call of the worker for `k` in a run of `p`: what it does to cluster and table, and the
      call that follows. */
  function Do(w: World, p: nat, run: Run, k: Key, job: Job, reply: Reply, held: bool): Effect {
    var lands := !reply.Failed?;
    var ok := reply.Committed?;
    match job
    case Create(n) =>
      Effect(if lands
             then w.(rows := w.rows[w.nextRow := NewRow(p, run.exec, k, n)], nextRow := w.nextRow + 1)
             else w,
             if ok then AfterIntent(w.nextRow, n == 0, n) else Finished(Errored))
    case Zero(id) =>
      if !lands || k !in w.cluster then Effect(w, Finished(Errored))
      else
        Effect(w.(cluster := w.cluster[k := 0], zeroed := w.zeroed[k := id]),
               if !ok then Finished(Errored)
               else if run.direction.Enforce? then FlagDrift(id) else MarkDone(id))
    case MarkDone(id) =>
      Effect(if lands then w.(rows := MarkApplied(w.rows, id)) else w,
             if !ok then Finished(Errored)
             else Finished(if run.direction.Enforce? then Skipped else Scaled))
    case Look(_) =>
      Effect(w,
             if !ok || k !in run.snapped then Finished(Errored)
             else if run.direction.Wake? then AfterWakeLookup(run, run.snapped[k], Live(w, k), held)
             else AfterEnforceLookup(run, run.snapped[k], Live(w, k), held))
    case FlagExternal(id, target, settled) =>
      // A failure to set this flag is only logged.
      Effect(if lands then w.(rows := MarkExternal(w.rows, id)) else w,
             if settled then Close(id, target, Scaled) else Restore(id, target))
    case FlagDrift(id) =>
      Effect(if lands then w.(rows := MarkExternal(w.rows, id)) else w, Finished(Scaled))
    case Restore(id, target) =>
      if !lands then Effect(w, Finished(Errored))
      else if k !in w.cluster
      then Effect(w, if run.direction.Emergency? then MarkGone(id) else Finished(Errored))
      else
        Effect(w.(cluster := w.cluster[k := target], zeroed := w.zeroed - {k}),
               if ok then Close(id, target, Scaled) else Finished(Errored))
    case Close(id, n, outcome) =>
      Effect(if lands then w.(rows := CloseRow(w.rows, id, run.exec, n)) else w,
             Finished(if ok then outcome else Errored))
    case MarkGone(id) =>
      Effect(if lands then w.(rows := MarkDeleted(w.rows, id, run.exec)) else w,
             Finished(if ok then Skipped else Errored))
    case Finished(_) => Effect(w, job)
  }

  function SetJob(s: State, w: World, p: nat, k: Key, job: Job): State
    requires p in s.inflight
  {
    var run := s.inflight[p];
    s.(world := w, inflight := s.inflight[p := run.(jobs := run.jobs[k := job])])
  }

  /** An execution is recorded and reads its rows; it takes the place of any other of its policy. */
  function Begun(s: State, p: nat, e: nat, direction: Direction, apply: bool, read: map<Key, nat>): State
    requires forall k :: k in read ==> read[k] in s.world.rows
  {
    var snapped := map k | k in read :: Snap(read[k], s.world.rows[read[k]]);
    s.(execs := s.execs[e := Running],
       inflight := s.inflight[p := Run(e, direction, apply, CoversAllOpen(s, p, read.Keys), snapped, map[])])
  }

  ghost function Next(s: State, step: Step): State
    requires Enabled(s, step)
  {
    match step
    case Begin(p, e, direction, apply, read) => Begun(s, p, e, direction, apply, read)
    case Select(p, k) =>
      var live := Live(s.world, k);
      SetJob(s, s.world, p, k, FirstJob(s.inflight[p], k, if live.Some? then live.value else 0))
    case Call(p, k, reply, held) =>
      var effect := Do(s.world, p, s.inflight[p], k, s.inflight[p].jobs[k], reply, held);
      SetJob(s, effect.world, p, k, effect.job)
    case Abort(p, k) => SetJob(s, s.world, p, k, Finished(Errored))
    case End(p, recorded) =>
      var e := s.inflight[p].exec;
      s.(inflight := s.inflight - {p},
         execs := if recorded then s.execs[e := Ended] else s.execs)
    case Crash => s.(inflight := map[])
    case Recover => s.(execs := map e | e in s.execs :: Ended)
    case Retain(e) =>
      s.(execs := s.execs - {e},
         world := s.world.(rows := map id | id in s.world.rows && s.world.rows[id].sleepExec != e :: s.world.rows[id]))
    case Outside(k, replicas) =>
      s.(world := s.world.(
           cluster := if replicas.Some? then s.world.cluster[k := replicas.value] else s.world.cluster - {k},
           zeroed := s.world.zeroed - {k}))
  }

  ghost predicate Legal(s: State, steps: seq<Step>)
    decreases |steps|
  {
    steps == [] || (Enabled(s, steps[0]) && Legal(Next(s, steps[0]), steps[1..]))
  }

  ghost function After(s: State, steps: seq<Step>): State
    requires Legal(s, steps)
    decreases |steps|
  {
    if steps == [] then s else After(Next(s, steps[0]), steps[1..])
  }

  /** Nothing in flight, nothing open, nothing scaled down by us. */
  predicate Initial(s: State) {
    s.inflight == map[] && s.world.zeroed == map[] &&
    (forall id :: id in s.world.rows ==> id < s.world.nextRow && s.world.rows[id].wakeExec.Some?)
  }

  lemma {:induction false} LegalAppend(s: State, steps: seq<Step>, step: Step)
    requires Legal(s, steps) && Enabled(After(s, steps), step)
    ensures Legal(s, steps + [step])
    ensures After(s, steps + [step]) == Next(After(s, steps), step)
    decreases |steps|
  {
    if steps == [] {
      assert steps + [step] == [step];
      assert [step][1..] == [];
      assert After(Next(s, step), []) == Next(s, step);
    } else {
      LegalAppend(Next(s, steps[0]), steps[1..], step);
      assert (steps + [step])[1..] == steps[1..] + [step];
    }
  }

  /** The end of a legal run from an initial state. */
  ghost predicate Reachable(s: State) {
    exists start, steps :: Initial(start) && Legal(start, steps) && After(start, steps) == s
  }

  lemma ReachStart(s: State)
    requires Initial(s)
    ensures Reachable(s)
  {
    assert Legal(s, []) && After(s, []) == s;
  }

  lemma ReachNext(s: State, step: Step)
    requires Reachable(s) && Enabled(s, step)
    ensures Reachable(Next(s, step))
  {
    var start, steps :| Initial(start) && Legal(start, steps) && After(start, steps) == s;
    LegalAppend(start, steps, step);
  }
}

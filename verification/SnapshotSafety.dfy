/** What every step of the sleep/wake protocol keeps, and what follows for whole runs. */
module SnapshotSafety {
  import opened Options
  import opened SnapshotProtocol

  // ---------------------------------------------------------------- invariant

  /** Row `id` is an open row of policy `p` for workload `k`. */
  predicate Owns(rows: Table, id: nat, p: nat, k: Key) {
    id in rows && rows[id].policy == p && rows[id].key == k && rows[id].Open()
  }

  predicate OwnsBaseline(rows: Table, id: nat, p: nat, k: Key) {
    Owns(rows, id, p, k) && !rows[id].alreadyZero
  }

  ghost predicate NoOpen(rows: Table, p: nat, k: Key) {
    forall id :: id in rows ==> !Owns(rows, id, p, k)
  }

  /** The last write to `k` was not a scaling to zero under row `id`. */
  predicate NotZeroedUnder(zeroed: map<Key, nat>, k: Key, id: nat) {
    k in zeroed ==> zeroed[k] != id
  }

  ghost predicate RowsOk(w: World) {
    && (forall id :: id in w.rows ==> id < w.nextRow)
    && (forall id :: id in w.rows && w.rows[id].deletedAtWake ==> w.rows[id].wakeExec.Some?)
    && (forall id :: id in w.rows && w.rows[id].Open() ==> (w.rows[id].alreadyZero <==> w.rows[id].before == 0))
  }

  /** At most one open row per policy and workload. */
  ghost predicate UniqueOpen(rows: Table) {
    forall i, j ::
      (i in rows && j in rows && rows[i].Open() && rows[j].Open() &&
       rows[i].policy == rows[j].policy && rows[i].key == rows[j].key) ==> i == j
  }

  ghost predicate ZeroedOk(w: World) {
    forall k :: k in w.zeroed ==>
      && k in w.cluster && w.cluster[k] == 0
      && w.zeroed[k] in w.rows && w.rows[w.zeroed[k]].Restorable() && w.rows[w.zeroed[k]].key == k
  }

  ghost predicate WorldOk(w: World) {
    RowsOk(w) && UniqueOpen(w.rows) && ZeroedOk(w)
  }

  predicate SnapOk(rows: Table, p: nat, k: Key, snap: Snap) {
    && Owns(rows, snap.id, p, k)
    && rows[snap.id].SameBaseline(snap.row)
  }

  /** What holds of row and workload when worker `k` of a run of `p` is about to make `job`. */
  ghost predicate JobOk(rows: Table, zeroed: map<Key, nat>, p: nat, run: Run, k: Key, job: Job) {
    (run.apply || job.Look? || job.Finished?) &&
    match job
    case Create(_) => run.direction.Sleep? && k !in run.snapped && NoOpen(rows, p, k)
    case Zero(id) => OwnsBaseline(rows, id, p, k) && (run.direction.Sleep? || run.direction.Enforce?)
    case MarkDone(id) => OwnsBaseline(rows, id, p, k) && (run.direction.Sleep? || run.direction.Enforce?)
    case Look(id) =>
      && (run.direction.Wake? || run.direction.Enforce?)
      && k in run.snapped && run.snapped[k].id == id && SnapOk(rows, p, k, run.snapped[k])
      && !rows[id].alreadyZero
    case FlagExternal(id, target, settled) =>
      && OwnsBaseline(rows, id, p, k) && target == rows[id].before
      && run.direction.Wake? && k in run.snapped && run.snapped[k].id == id
      && (settled ==> NotZeroedUnder(zeroed, k, id))
    case FlagDrift(id) => OwnsBaseline(rows, id, p, k) && run.direction.Enforce?
    case Restore(id, target) =>
      && OwnsBaseline(rows, id, p, k) && target > 0
      && (run.direction.Wake? || run.direction.Emergency?)
      && k in run.snapped && run.snapped[k].id == id
      && (!run.direction.Emergency? ==> target == rows[id].before)
    case Close(id, _, _) =>
      && Owns(rows, id, p, k)
      && (run.direction.Wake? || run.direction.Emergency?)
      && k in run.snapped && run.snapped[k].id == id
      && (rows[id].alreadyZero || NotZeroedUnder(zeroed, k, id))
    case MarkGone(id) =>
      && Owns(rows, id, p, k) && NotZeroedUnder(zeroed, k, id)
      && (run.direction.Wake? || run.direction.Emergency?)
      && k in run.snapped && run.snapped[k].id == id
    case Finished(outcome) =>
      run.direction.Wake? && run.apply && (outcome.Scaled? || outcome.Skipped?) ==>
        k in run.snapped && !Owns(rows, run.snapped[k].id, p, k)
  }

  /** The rows a run read and has not touched yet are still the open rows they were. */
  ghost predicate SnappedOk(rows: Table, p: nat, run: Run) {
    forall k :: k in run.snapped ==>
      && run.snapped[k].row.key == k
      && (k !in run.jobs ==> SnapOk(rows, p, k, run.snapped[k]))
      && (!run.direction.Sleep? && !run.direction.Wake? ==> !run.snapped[k].row.alreadyZero)
  }

  /** A sleep knows every open row of its policy: it read it or a worker of its own created it. */
  ghost predicate SleepKnows(rows: Table, p: nat, run: Run) {
    run.direction.Sleep? ==>
      forall id :: id in rows && rows[id].policy == p && rows[id].Open() ==>
        rows[id].key in run.snapped || (rows[id].key in run.jobs && !run.jobs[rows[id].key].Create?)
  }

  /** A full wake read exactly the rows that are open. */
  ghost predicate FullKnows(rows: Table, p: nat, run: Run) {
    run.full && run.direction.Wake? ==>
      forall id :: id in rows && rows[id].policy == p && rows[id].Open() ==>
        rows[id].key in run.snapped && run.snapped[rows[id].key].id == id
  }

  ghost predicate RunOk(rows: Table, zeroed: map<Key, nat>, p: nat, run: Run) {
    && SnappedOk(rows, p, run)
    && SleepKnows(rows, p, run)
    && FullKnows(rows, p, run)
    && (run.direction.Emergency? ==> run.apply)
    && (forall k :: k in run.jobs ==> JobOk(rows, zeroed, p, run, k, run.jobs[k]))
  }

  ghost predicate RunsOk(s: State) {
    forall p :: p in s.inflight ==> RunOk(s.world.rows, s.world.zeroed, p, s.inflight[p])
  }

  ghost predicate Inv(s: State) {
    WorldOk(s.world) && RunsOk(s)
  }

  // ---------------------------------------------------------------- frames

  /** A change of the tables that other workers cannot notice: it concerns only workload `k`
      of policy `p`. */
  ghost predicate OnlyTouches(rows: Table, rows': Table, zeroed: map<Key, nat>, zeroed': map<Key, nat>, p: nat, k: Key) {
    && (forall id :: id in rows && !(rows[id].policy == p && rows[id].key == k) ==> id in rows' && rows'[id] == rows[id])
    && (forall id :: id in rows' && !(rows'[id].policy == p && rows'[id].key == k) ==> id in rows && rows'[id] == rows[id])
    && (forall id :: id in rows && id in rows' ==> rows'[id].SameBaseline(rows[id]))
    && (forall k' :: k' in zeroed' ==> (k' in zeroed && zeroed'[k'] == zeroed[k']) ||
                                       (k' == k && Owns(rows', zeroed'[k'], p, k)))
  }

  lemma OtherJobKept(rows: Table, rows': Table, zeroed: map<Key, nat>, zeroed': map<Key, nat>,
                     p: nat, k: Key, q: nat, run: Run, k': Key, job: Job)
    requires OnlyTouches(rows, rows', zeroed, zeroed', p, k)
    requires q != p || k' != k
    requires JobOk(rows, zeroed, q, run, k', job)
    ensures JobOk(rows', zeroed', q, run, k', job)
  {
  }

  lemma OtherRunKept(rows: Table, rows': Table, zeroed: map<Key, nat>, zeroed': map<Key, nat>,
                     p: nat, k: Key, q: nat, run: Run)
    requires OnlyTouches(rows, rows', zeroed, zeroed', p, k)
    requires q != p
    requires RunOk(rows, zeroed, q, run)
    ensures RunOk(rows', zeroed', q, run)
  {
    forall k' | k' in run.jobs
      ensures JobOk(rows', zeroed', q, run, k', run.jobs[k'])
    {
      OtherJobKept(rows, rows', zeroed, zeroed', p, k, q, run, k', run.jobs[k']);
    }
    forall id | id in rows' && rows'[id].policy == q && rows'[id].Open()
      ensures id in rows && rows[id] == rows'[id]
    {
    }
  }

  lemma OwnJobsKept(rows: Table, rows': Table, zeroed: map<Key, nat>, zeroed': map<Key, nat>,
                    p: nat, k: Key, run: Run, job: Job)
    requires OnlyTouches(rows, rows', zeroed, zeroed', p, k)
    requires forall k' :: k' in run.jobs ==> JobOk(rows, zeroed, p, run, k', run.jobs[k'])
    requires JobOk(rows', zeroed', p, run, k, job)
    ensures var run' := run.(jobs := run.jobs[k := job]);
            forall k' :: k' in run'.jobs ==> JobOk(rows', zeroed', p, run', k', run'.jobs[k'])
  {
    var run' := run.(jobs := run.jobs[k := job]);
    forall k' | k' in run'.jobs
      ensures JobOk(rows', zeroed', p, run', k', run'.jobs[k'])
    {
      if k' != k {
        OtherJobKept(rows, rows', zeroed, zeroed', p, k, p, run, k', run.jobs[k']);
      }
      JobOkIgnoresJobs(rows', zeroed', p, run, run', k', run'.jobs[k']);
    }
  }

  lemma OwnSnapsKept(rows: Table, rows': Table, zeroed: map<Key, nat>, zeroed': map<Key, nat>,
                     p: nat, k: Key, run: Run, job: Job)
    requires OnlyTouches(rows, rows', zeroed, zeroed', p, k) && SnappedOk(rows, p, run)
    ensures SnappedOk(rows', p, run.(jobs := run.jobs[k := job]))
  {
  }

  lemma OwnKnowledgeKept(rows: Table, rows': Table, zeroed: map<Key, nat>, zeroed': map<Key, nat>,
                         p: nat, k: Key, run: Run, job: Job)
    requires OnlyTouches(rows, rows', zeroed, zeroed', p, k) && !job.Create?
    requires SleepKnows(rows, p, run) && FullKnows(rows, p, run)
    requires run.direction.Wake? ==> forall id :: id in rows' && rows'[id].Open() ==> id in rows && rows[id].Open()
    ensures SleepKnows(rows', p, run.(jobs := run.jobs[k := job])) && FullKnows(rows', p, run.(jobs := run.jobs[k := job]))
  {
    forall id | id in rows' && rows'[id].policy == p && rows'[id].Open() && rows'[id].key != k
      ensures id in rows && rows[id] == rows'[id]
    {
    }
  }

  lemma OwnRunKept(rows: Table, rows': Table, zeroed: map<Key, nat>, zeroed': map<Key, nat>,
                   p: nat, k: Key, run: Run, job: Job)
    requires OnlyTouches(rows, rows', zeroed, zeroed', p, k)
    requires RunOk(rows, zeroed, p, run)
    requires JobOk(rows', zeroed', p, run, k, job) && !job.Create?
    requires run.direction.Wake? ==> forall id :: id in rows' && rows'[id].Open() ==> id in rows && rows[id].Open()
    ensures RunOk(rows', zeroed', p, run.(jobs := run.jobs[k := job]))
  {
    OwnJobsKept(rows, rows', zeroed, zeroed', p, k, run, job);
    OwnSnapsKept(rows, rows', zeroed, zeroed', p, k, run, job);
    OwnKnowledgeKept(rows, rows', zeroed, zeroed', p, k, run, job);
  }

  lemma JobOkIgnoresJobs(rows: Table, zeroed: map<Key, nat>, p: nat, run: Run, run': Run, k: Key, job: Job)
    requires run' == run.(jobs := run'.jobs)
    ensures JobOk(rows, zeroed, p, run, k, job) == JobOk(rows, zeroed, p, run', k, job)
  {
  }

  /** What one call of a worker must satisfy, seen without the other workers. */
  ghost predicate EffectOk(w: World, p: nat, run: Run, k: Key, effect: Effect) {
    var w' := effect.world;
    && WorldOk(w')
    && OnlyTouches(w.rows, w'.rows, w.zeroed, w'.zeroed, p, k)
    && JobOk(w'.rows, w'.zeroed, p, run, k, effect.job) && !effect.job.Create?
    && (run.direction.Wake? ==>
          forall id :: id in w'.rows && w'.rows[id].Open() ==> id in w.rows && w.rows[id].Open())
  }

  lemma WorkerStepKeeps(s: State, p: nat, k: Key, effect: Effect)
    requires RunsOk(s) && p in s.inflight
    requires EffectOk(s.world, p, s.inflight[p], k, effect)
    ensures Inv(SetJob(s, effect.world, p, k, effect.job))
  {
    var w, w' := s.world, effect.world;
    var t := SetJob(s, w', p, k, effect.job);
    forall q | q in t.inflight
      ensures RunOk(w'.rows, w'.zeroed, q, t.inflight[q])
    {
      if q == p {
        OwnRunKept(w.rows, w'.rows, w.zeroed, w'.zeroed, p, k, s.inflight[p], effect.job);
      } else {
        OtherRunKept(w.rows, w'.rows, w.zeroed, w'.zeroed, p, k, q, s.inflight[q]);
      }
    }
  }

  // ---------------------------------------------------------------- calls, one by one

  lemma InsertRowOk(w: World, row: Row, p: nat, k: Key)
    requires WorldOk(w) && NoOpen(w.rows, p, k)
    requires row.policy == p && row.key == k && row.Open() && (row.alreadyZero <==> row.before == 0)
    ensures WorldOk(w.(rows := w.rows[w.nextRow := row], nextRow := w.nextRow + 1))
    ensures OnlyTouches(w.rows, w.rows[w.nextRow := row], w.zeroed, w.zeroed, p, k)
  {
    var rows' := w.rows[w.nextRow := row];
    forall i | i in w.rows && w.rows[i].Open() && w.rows[i].policy == p && w.rows[i].key == k
      ensures false
    {
      assert Owns(w.rows, i, p, k);
    }
  }

  lemma CreateOk(w: World, p: nat, run: Run, k: Key, job: Job, reply: Reply, held: bool)
    requires WorldOk(w) && job.Create? && JobOk(w.rows, w.zeroed, p, run, k, job)
    ensures EffectOk(w, p, run, k, Do(w, p, run, k, job, reply, held))
  {
    if !reply.Failed? {
      InsertRowOk(w, NewRow(p, run.exec, k, job.replicas), p, k);
    }
  }

  /** Replacing one owned row by one with the same baseline; it may close only when it is not the
      row that protects a workload we scaled to zero. */
  lemma UpdateRowOk(w: World, id: nat, row: Row, p: nat, k: Key)
    requires WorldOk(w) && Owns(w.rows, id, p, k) && row.SameBaseline(w.rows[id])
    requires row.deletedAtWake ==> row.wakeExec.Some?
    requires row.Open() || w.rows[id].alreadyZero || NotZeroedUnder(w.zeroed, k, id)
    ensures WorldOk(w.(rows := w.rows[id := row]))
    ensures OnlyTouches(w.rows, w.rows[id := row], w.zeroed, w.zeroed, p, k)
  {
  }

  lemma SameEffectOk(w: World, p: nat, run: Run, k: Key, job: Job)
    requires WorldOk(w) && JobOk(w.rows, w.zeroed, p, run, k, job) && !job.Create?
    ensures EffectOk(w, p, run, k, Effect(w, job))
  {
  }

  lemma UpdateEffectOk(w: World, p: nat, run: Run, k: Key, id: nat, row: Row, job: Job)
    requires WorldOk(w) && Owns(w.rows, id, p, k) && row.SameBaseline(w.rows[id])
    requires row.deletedAtWake ==> row.wakeExec.Some?
    requires row.Open() || w.rows[id].alreadyZero || NotZeroedUnder(w.zeroed, k, id)
    requires JobOk(w.rows[id := row], w.zeroed, p, run, k, job) && !job.Create?
    ensures EffectOk(w, p, run, k, Effect(w.(rows := w.rows[id := row]), job))
  {
    UpdateRowOk(w, id, row, p, k);
  }

  lemma ScaledOk(w: World, k: Key, n: nat, zeroed: map<Key, nat>, p: nat)
    requires WorldOk(w) && k in w.cluster
    requires zeroed == w.zeroed - {k} ||
             (n == 0 && exists id :: OwnsBaseline(w.rows, id, p, k) && zeroed == w.zeroed[k := id])
    ensures WorldOk(w.(cluster := w.cluster[k := n], zeroed := zeroed))
    ensures OnlyTouches(w.rows, w.rows, w.zeroed, zeroed, p, k)
  {
  }

  lemma ZeroOk(w: World, p: nat, run: Run, k: Key, job: Job, reply: Reply, held: bool)
    requires WorldOk(w) && job.Zero? && JobOk(w.rows, w.zeroed, p, run, k, job)
    ensures EffectOk(w, p, run, k, Do(w, p, run, k, job, reply, held))
  {
    if k in w.cluster {
      ScaledOk(w, k, 0, w.zeroed[k := job.id], p);
    }
  }

  lemma RestoreOk(w: World, p: nat, run: Run, k: Key, job: Job, reply: Reply, held: bool)
    requires WorldOk(w) && job.Restore? && JobOk(w.rows, w.zeroed, p, run, k, job)
    ensures EffectOk(w, p, run, k, Do(w, p, run, k, job, reply, held))
  {
    if k in w.cluster {
      ScaledOk(w, k, job.target, w.zeroed - {k}, p);
    }
  }

  lemma MarkOk(w: World, p: nat, run: Run, k: Key, job: Job, reply: Reply, held: bool)
    requires WorldOk(w) && job.MarkDone? && JobOk(w.rows, w.zeroed, p, run, k, job)
    ensures EffectOk(w, p, run, k, Do(w, p, run, k, job, reply, held))
  {
    UpdateRowOk(w, job.id, w.rows[job.id].(phase := Applied), p, k);
  }

  lemma FlagOk(w: World, p: nat, run: Run, k: Key, job: Job, reply: Reply, held: bool)
    requires WorldOk(w) && job.FlagExternal? && JobOk(w.rows, w.zeroed, p, run, k, job)
    ensures EffectOk(w, p, run, k, Do(w, p, run, k, job, reply, held))
  {
    var job' := Do(w, p, run, k, job, reply, held).job;
    if reply.Failed? {
      SameEffectOk(w, p, run, k, job');
    } else {
      UpdateEffectOk(w, p, run, k, job.id, w.rows[job.id].(externallyScaled := true), job');
    }
  }

  lemma DriftOk(w: World, p: nat, run: Run, k: Key, job: Job, reply: Reply, held: bool)
    requires WorldOk(w) && job.FlagDrift? && JobOk(w.rows, w.zeroed, p, run, k, job)
    ensures EffectOk(w, p, run, k, Do(w, p, run, k, job, reply, held))
  {
    var job' := Do(w, p, run, k, job, reply, held).job;
    if reply.Failed? {
      SameEffectOk(w, p, run, k, job');
    } else {
      UpdateEffectOk(w, p, run, k, job.id, w.rows[job.id].(externallyScaled := true), job');
    }
  }

  lemma LookOk(w: World, p: nat, run: Run, k: Key, job: Job, reply: Reply, held: bool)
    requires WorldOk(w) && job.Look? && JobOk(w.rows, w.zeroed, p, run, k, job)
    ensures EffectOk(w, p, run, k, Do(w, p, run, k, job, reply, held))
  {
    SameEffectOk(w, p, run, k, Do(w, p, run, k, job, reply, held).job);
  }

  lemma CloseOk(w: World, p: nat, run: Run, k: Key, job: Job, reply: Reply, held: bool)
    requires WorldOk(w) && job.Close? && JobOk(w.rows, w.zeroed, p, run, k, job)
    ensures EffectOk(w, p, run, k, Do(w, p, run, k, job, reply, held))
  {
    var job' := Do(w, p, run, k, job, reply, held).job;
    if reply.Failed? {
      SameEffectOk(w, p, run, k, job');
    } else {
      UpdateEffectOk(w, p, run, k, job.id, w.rows[job.id].(wakeExec := Some(run.exec), restored := Some(job.replicas),
                     phase := Restored), job');
    }
  }

  lemma GoneOk(w: World, p: nat, run: Run, k: Key, job: Job, reply: Reply, held: bool)
    requires WorldOk(w) && job.MarkGone? && JobOk(w.rows, w.zeroed, p, run, k, job)
    ensures EffectOk(w, p, run, k, Do(w, p, run, k, job, reply, held))
  {
    var job' := Do(w, p, run, k, job, reply, held).job;
    if reply.Failed? {
      SameEffectOk(w, p, run, k, job');
    } else {
      UpdateEffectOk(w, p, run, k, job.id, w.rows[job.id].(wakeExec := Some(run.exec), deletedAtWake := true), job');
    }
  }

  lemma CallOk(w: World, p: nat, run: Run, k: Key, job: Job, reply: Reply, held: bool)
    requires WorldOk(w) && !job.Finished? && JobOk(w.rows, w.zeroed, p, run, k, job)
    ensures EffectOk(w, p, run, k, Do(w, p, run, k, job, reply, held))
  {
    match job
    case Create(_) => CreateOk(w, p, run, k, job, reply, held);
    case Zero(_) => ZeroOk(w, p, run, k, job, reply, held);
    case MarkDone(_) => MarkOk(w, p, run, k, job, reply, held);
    case Look(_) => LookOk(w, p, run, k, job, reply, held);
    case FlagExternal(_, _, _) => FlagOk(w, p, run, k, job, reply, held);
    case FlagDrift(_) => DriftOk(w, p, run, k, job, reply, held);
    case Restore(_, _) => RestoreOk(w, p, run, k, job, reply, held);
    case Close(_, _, _) => CloseOk(w, p, run, k, job, reply, held);
    case MarkGone(_) => GoneOk(w, p, run, k, job, reply, held);
  }

  // ---------------------------------------------------------------- steps

  lemma BeginKeeps(s: State, step: Step)
    requires Inv(s) && step.Begin? && Enabled(s, step)
    ensures Inv(Next(s, step))
  {
    var t := Next(s, step);
    var run := t.inflight[step.policy];
    assert forall k :: k in run.snapped ==> SnapOk(s.world.rows, step.policy, k, run.snapped[k]);
    assert RunOk(s.world.rows, s.world.zeroed, step.policy, run);
    forall q | q in t.inflight && q != step.policy
      ensures RunOk(t.world.rows, t.world.zeroed, q, t.inflight[q])
    {
      assert q in s.inflight;
    }
  }

  /** Taking up a workload leaves the table as it is; its first call is a legal one. */
  lemma FirstJobOk(s: State, p: nat, k: Key, job: Job)
    requires Inv(s) && Enabled(s, Select(p, k))
    requires job == FirstJob(s.inflight[p], k, if k in s.world.cluster then s.world.cluster[k] else 0)
    ensures JobOk(s.world.rows, s.world.zeroed, p, s.inflight[p], k, job)
  {
    assert RunOk(s.world.rows, s.world.zeroed, p, s.inflight[p]);
  }

  lemma SelectedRunOk(rows: Table, zeroed: map<Key, nat>, p: nat, run: Run, k: Key, job: Job)
    requires RunOk(rows, zeroed, p, run) && JobOk(rows, zeroed, p, run, k, job) && k !in run.jobs
    ensures RunOk(rows, zeroed, p, run.(jobs := run.jobs[k := job]))
  {
    OwnJobsKept(rows, rows, zeroed, zeroed, p, k, run, job);
  }

  lemma SelectKeeps(s: State, step: Step)
    requires Inv(s) && step.Select? && Enabled(s, step)
    ensures Inv(Next(s, step))
  {
    var p, k := step.policy, step.key;
    var job := FirstJob(s.inflight[p], k, if k in s.world.cluster then s.world.cluster[k] else 0);
    FirstJobOk(s, p, k, job);
    assert RunOk(s.world.rows, s.world.zeroed, p, s.inflight[p]);
    SelectedRunOk(s.world.rows, s.world.zeroed, p, s.inflight[p], k, job);
    var t := Next(s, step);
    forall q | q in t.inflight && q != p
      ensures RunOk(s.world.rows, s.world.zeroed, q, t.inflight[q])
    {
      assert q in s.inflight;
    }
  }

  lemma CallKeeps(s: State, step: Step)
    requires Inv(s) && step.Call? && Enabled(s, step)
    ensures Inv(Next(s, step))
  {
    var p, k := step.policy, step.key;
    var run := s.inflight[p];
    assert RunOk(s.world.rows, s.world.zeroed, p, run);
    CallOk(s.world, p, run, k, run.jobs[k], step.reply, step.held);
    WorkerStepKeeps(s, p, k, Do(s.world, p, run, k, run.jobs[k], step.reply, step.held));
  }

  lemma AbortKeeps(s: State, step: Step)
    requires Inv(s) && step.Abort? && Enabled(s, step)
    ensures Inv(Next(s, step))
  {
    var p, k := step.policy, step.key;
    assert RunOk(s.world.rows, s.world.zeroed, p, s.inflight[p]);
    WorkerStepKeeps(s, p, k, Effect(s.world, Finished(Errored)));
  }

  lemma RetainKeeps(s: State, step: Step)
    requires Inv(s) && step.Retain? && Enabled(s, step)
    ensures Inv(Next(s, step))
  {
    var t := Next(s, step);
    var rows, rows' := s.world.rows, t.world.rows;
    forall id, p, k | Owns(rows, id, p, k)
      ensures Owns(rows', id, p, k) && rows'[id] == rows[id]
    {
    }
    forall p | p in t.inflight
      ensures RunOk(rows', t.world.zeroed, p, t.inflight[p])
    {
      var run := s.inflight[p];
      assert RunOk(rows, s.world.zeroed, p, run);
      forall k | k in run.jobs
        ensures JobOk(rows', t.world.zeroed, p, run, k, run.jobs[k])
      {
        assert JobOk(rows, s.world.zeroed, p, run, k, run.jobs[k]);
      }
    }
  }

  lemma OutsideKeeps(s: State, step: Step)
    requires Inv(s) && step.Outside? && Enabled(s, step)
    ensures Inv(Next(s, step))
  {
    var t := Next(s, step);
    forall p | p in t.inflight
      ensures RunOk(t.world.rows, t.world.zeroed, p, t.inflight[p])
    {
      var run := s.inflight[p];
      assert RunOk(s.world.rows, s.world.zeroed, p, run);
      forall k | k in run.jobs
        ensures JobOk(t.world.rows, t.world.zeroed, p, run, k, run.jobs[k])
      {
        assert JobOk(s.world.rows, s.world.zeroed, p, run, k, run.jobs[k]);
      }
    }
  }

  lemma StepKeeps(s: State, step: Step)
    requires Inv(s) && Enabled(s, step)
    ensures Inv(Next(s, step))
  {
    match step
    case Begin(_, _, _, _, _) => BeginKeeps(s, step);
    case Select(_, _) => SelectKeeps(s, step);
    case Call(_, _, _, _) => CallKeeps(s, step);
    case Abort(_, _) => AbortKeeps(s, step);
    case End(_, _) =>
    case Crash =>
    case Recover =>
    case Retain(_) => RetainKeeps(s, step);
    case Outside(_, _) => OutsideKeeps(s, step);
  }

  lemma {:induction false} RunKeeps(s: State, steps: seq<Step>)
    requires Inv(s) && Legal(s, steps)
    ensures Inv(After(s, steps))
    decreases |steps|
  {
    if steps != [] {
      StepKeeps(s, steps[0]);
      RunKeeps(Next(s, steps[0]), steps[1..]);
    }
  }
}

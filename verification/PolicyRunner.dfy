/** The sleep, wake, enforce-sleep and emergency code as it is written: store and cluster calls in
    order, with early returns.  A runner's state is always the end of a legal run of the protocol
    (`Valid`), so everything proved about runs holds of these methods, whatever its calls answer. */
module PolicyRunner {
  import opened Options
  import opened Counting
  import opened SnapshotProtocol
  import opened SnapshotSafety
  import opened SnapshotTheorems
  import opened RunSelection
  import Targeting
  import PolicyScopes
  import Sorting
  import WorkPool

  datatype ScaleResult = ScaleOk | NotFound | ScaleError

  /** The worker for `k` has returned and reported these flags. */
  ghost predicate Reported(run: Run, k: Key, scaled: bool, skipped: bool, errored: bool) {
    k in run.jobs &&
    ((scaled && !skipped && !errored && run.jobs[k] == Finished(Scaled)) ||
     (!scaled && skipped && !errored && (run.jobs[k] == Finished(Skipped) || run.jobs[k] == Finished(Held))) ||
     (!scaled && !skipped && errored && run.jobs[k] == Finished(Errored)))
  }

  /** What became of a workload; one in a protected namespace got no worker. */
  function ResultOf(jobs: map<Key, Job>, k: Key): Outcome {
    if k in jobs && jobs[k].Finished? then jobs[k].outcome else Skipped
  }

  /** The results counted: changed, passed over, failed. */
  function Tally(jobs: map<Key, Job>, keys: seq<Key>): Counts {
    if keys == [] then Counts(0, 0, 0)
    else
      var n := |keys| - 1;
      var c := Tally(jobs, keys[..n]);
      match ResultOf(jobs, keys[n])
      case Scaled => c.(scaled := c.scaled + 1)
      case Errored => c.(errors := c.errors + 1)
      case Skipped => c.(skipped := c.skipped + 1)
      case Held => c.(skipped := c.skipped + 1)
  }

  predicate Flags(result: Outcome, scaled: bool, skipped: bool, errored: bool) {
    && (result.Scaled? ==> scaled && !skipped && !errored)
    && (result.Errored? ==> !scaled && !skipped && errored)
    && (result.Skipped? || result.Held? ==> !scaled && skipped && !errored)
  }

  lemma {:induction false} TallySame(a: map<Key, Job>, b: map<Key, Job>, keys: seq<Key>)
    requires forall k :: k in keys ==> ResultOf(a, k) == ResultOf(b, k)
    ensures Tally(a, keys) == Tally(b, keys)
  {
    if keys != [] {
      TallySame(a, b, keys[..|keys| - 1]);
    }
  }

  /** One more result. */
  lemma TallyGrows(a: map<Key, Job>, b: map<Key, Job>, keys: seq<Key>, i: nat, counts: Counts, scaled: bool, skipped: bool, errored: bool)
    requires i < |keys| && (forall k :: k in keys[..i] ==> ResultOf(a, k) == ResultOf(b, k))
    requires Flags(ResultOf(b, keys[i]), scaled, skipped, errored) && counts == Tally(a, keys[..i])
    ensures counts.Add(scaled, skipped, errored) == Tally(b, keys[..i + 1])
  {
    TallySame(a, b, keys[..i]);
    assert keys[..i + 1][..i] == keys[..i];
  }

  /** From the state before a worker was started to the state in which it has reported. */
  lemma WorkerResult(before: State, mid: State, after: State, p: nat, k: Key, scaled: bool, skipped: bool, errored: bool)
    requires p in before.inflight && p in mid.inflight && p in after.inflight
    requires mid.inflight[p].jobs.Keys == before.inflight[p].jobs.Keys + {k}
    requires forall k' :: k' in before.inflight[p].jobs && k' != k ==> mid.inflight[p].jobs[k'] == before.inflight[p].jobs[k']
    requires OnlyWorker(mid, after, p, k) && Reported(after.inflight[p], k, scaled, skipped, errored)
    ensures ResultsKept(before, after, p, k, scaled, skipped, errored)
  {
  }

  /** The worker for `k` reported what became of its workload, and the other results are as they were. */
  ghost predicate ResultsKept(before: State, after: State, p: nat, k: Key, scaled: bool, skipped: bool, errored: bool) {
    p in before.inflight && p in after.inflight && Flags(ResultOf(after.inflight[p].jobs, k), scaled, skipped, errored) &&
    forall k' :: k' != k ==> ResultOf(after.inflight[p].jobs, k') == ResultOf(before.inflight[p].jobs, k')
  }

  /** The tally of the first `i + 1` keys is that of the first `i`, with this worker added. */
  ghost predicate TallyStep(before: State, after: State, p: nat, keys: seq<Key>, i: nat, scaled: bool, skipped: bool, errored: bool)
    requires i < |keys|
  {
    p in before.inflight && p in after.inflight &&
    Tally(after.inflight[p].jobs, keys[..i + 1]) == Tally(before.inflight[p].jobs, keys[..i]).Add(scaled, skipped, errored)
  }

  lemma StepTally(before: State, after: State, p: nat, keys: seq<Key>, i: nat, scaled: bool, skipped: bool, errored: bool)
    requires i < |keys| && keys[i] !in keys[..i] && ResultsKept(before, after, p, keys[i], scaled, skipped, errored)
    ensures TallyStep(before, after, p, keys, i, scaled, skipped, errored)
  {
    TallyGrows(before.inflight[p].jobs, after.inflight[p].jobs, keys, i, Tally(before.inflight[p].jobs, keys[..i]), scaled, skipped, errored);
  }

  lemma {:induction false} TallyTotal(jobs: map<Key, Job>, keys: seq<Key>)
    ensures Tally(jobs, keys).Total() == |keys|
  {
    if keys != [] {
      TallyTotal(jobs, keys[..|keys| - 1]);
    }
  }

  function Plus(a: Counts, b: Counts): Counts {
    Counts(a.scaled + b.scaled, a.skipped + b.skipped, a.errors + b.errors)
  }

  /** Only the worker for `k` of policy `p` took steps between the two states. */
  ghost predicate OnlyWorker(s: State, t: State, p: nat, k: Key) {
    && p in s.inflight && t.execs == s.execs
    && t.inflight.Keys == s.inflight.Keys
    && (forall q :: q in s.inflight && q != p ==> t.inflight[q] == s.inflight[q])
    && t.inflight[p] == s.inflight[p].(jobs := t.inflight[p].jobs)
    && k in s.inflight[p].jobs && t.inflight[p].jobs.Keys == s.inflight[p].jobs.Keys
    && (forall k' :: k' in s.inflight[p].jobs && k' != k ==> t.inflight[p].jobs[k'] == s.inflight[p].jobs[k'])
    && (forall k' :: k' != k ==> Live(t.world, k') == Live(s.world, k'))
    && (forall k' :: k' != k ==> (k' in t.world.zeroed <==> k' in s.world.zeroed))
  }

  function EffectOf(s: State, p: nat, k: Key, reply: Reply, held: bool): Effect
    requires p in s.inflight && k in s.inflight[p].jobs
  {
    Do(s.world, p, s.inflight[p], k, s.inflight[p].jobs[k], reply, held)
  }

  lemma CallMovesOneWorker(s: State, p: nat, k: Key, reply: Reply, held: bool)
    requires p in s.inflight && k in s.inflight[p].jobs
    ensures var effect := EffectOf(s, p, k, reply, held);
            OnlyWorker(s, SetJob(s, effect.world, p, k, effect.job), p, k)
  {
    DoMovesOneWorkload(s.world, p, s.inflight[p], k, s.inflight[p].jobs[k], reply, held);
  }

  lemma DoMovesOneWorkload(w: World, p: nat, run: Run, k: Key, job: Job, reply: Reply, held: bool)
    ensures var after := Do(w, p, run, k, job, reply, held).world;
            forall k' :: k' != k ==> Live(after, k') == Live(w, k') && (k' in after.zeroed <==> k' in w.zeroed)
  {
  }

  // What each single call does; every other call of the same worker leaves its marks the same way.

  lemma CreateEffect(s: State, p: nat, k: Key, n: nat, reply: Reply)
    requires p in s.inflight && k in s.inflight[p].jobs && s.inflight[p].jobs[k] == Create(n)
    ensures EffectOf(s, p, k, reply, false) ==
            Effect(if reply.Failed? then s.world
                   else s.world.(rows := s.world.rows[s.world.nextRow := NewRow(p, s.inflight[p].exec, k, n)],
                                 nextRow := s.world.nextRow + 1),
                   if reply.Committed? then AfterIntent(s.world.nextRow, n == 0, n) else Finished(Errored))
  {
  }

  /** A scale request of `job` to `n` replicas, and whether it removes `k` from the zeroed workloads. */
  lemma ScaleEffect(s: State, p: nat, k: Key, job: Job, n: nat, reply: Reply)
    requires p in s.inflight && k in s.inflight[p].jobs && s.inflight[p].jobs[k] == job
    requires (job.Zero? && n == 0) || (job.Restore? && n == job.target)
    ensures EffectOf(s, p, k, reply, false) ==
            Effect(if reply.Failed? || k !in s.world.cluster then s.world
                   else s.world.(cluster := s.world.cluster[k := n],
                                 zeroed := if job.Zero? then s.world.zeroed[k := job.id] else s.world.zeroed - {k}),
                   AfterScale(s.inflight[p].direction, job,
                              if reply.Failed? || (reply.Ambiguous? && k in s.world.cluster) then ScaleError
                              else if k in s.world.cluster then ScaleOk else NotFound))
  {
  }

  lemma DoneEffect(s: State, p: nat, k: Key, id: nat, reply: Reply)
    requires p in s.inflight && k in s.inflight[p].jobs && s.inflight[p].jobs[k] == MarkDone(id)
    ensures EffectOf(s, p, k, reply, false) ==
            Effect(if reply.Failed? then s.world else s.world.(rows := MarkApplied(s.world.rows, id)),
                   Finished(if !reply.Committed? then Errored
                            else if s.inflight[p].direction.Enforce? then Skipped else Scaled))
  {
  }

  lemma LookEffect(s: State, p: nat, k: Key, reply: Reply, held: bool)
    requires p in s.inflight && k in s.inflight[p].jobs && s.inflight[p].jobs[k].Look?
    requires k in s.inflight[p].snapped
    ensures var run := s.inflight[p];
            EffectOf(s, p, k, reply, held) ==
            Effect(s.world,
                   if !reply.Committed? then Finished(Errored)
                   else if run.direction.Wake? then AfterWakeLookup(run, run.snapped[k], Live(s.world, k), held)
                   else AfterEnforceLookup(run, run.snapped[k], Live(s.world, k), held))
  {
  }

  function AfterFlag(job: Job): Job
    requires job.FlagDrift? || job.FlagExternal?
  {
    if job.FlagDrift? then Finished(Scaled)
    else if job.settled then Close(job.id, job.target, Scaled)
    else Restore(job.id, job.target)
  }

  lemma FlagEffect(s: State, p: nat, k: Key, job: Job, reply: Reply)
    requires p in s.inflight && k in s.inflight[p].jobs && s.inflight[p].jobs[k] == job
    requires job.FlagDrift? || job.FlagExternal?
    ensures EffectOf(s, p, k, reply, false) ==
            Effect(if reply.Failed? then s.world else s.world.(rows := MarkExternal(s.world.rows, job.id)), AfterFlag(job))
  {
  }

  lemma CloseEffect(s: State, p: nat, k: Key, id: nat, n: nat, outcome: Outcome, reply: Reply)
    requires p in s.inflight && k in s.inflight[p].jobs && s.inflight[p].jobs[k] == Close(id, n, outcome)
    ensures EffectOf(s, p, k, reply, false) ==
            Effect(if reply.Failed? then s.world else s.world.(rows := CloseRow(s.world.rows, id, s.inflight[p].exec, n)),
                   Finished(if reply.Committed? then outcome else Errored))
  {
  }

  lemma GoneEffect(s: State, p: nat, k: Key, id: nat, reply: Reply)
    requires p in s.inflight && k in s.inflight[p].jobs && s.inflight[p].jobs[k] == MarkGone(id)
    ensures EffectOf(s, p, k, reply, false) ==
            Effect(if reply.Failed? then s.world else s.world.(rows := MarkDeleted(s.world.rows, id, s.inflight[p].exec)),
                   Finished(if reply.Committed? then Skipped else Errored))
  {
  }

  /** The call that follows a scale request. */
  function AfterScale(direction: Direction, job: Job, r: ScaleResult): Job
    requires job.Zero? || job.Restore?
  {
    if r.ScaleOk? then
      if job.Restore? then Close(job.id, job.target, Scaled)
      else if direction.Enforce? then FlagDrift(job.id) else MarkDone(job.id)
    else if r.NotFound? && job.Restore? && direction.Emergency? then MarkGone(job.id)
    else Finished(Errored)
  }

  /** A call that stores `row` under `id` unless it has no effect. */
  ghost predicate Wrote(before: Table, after: Table, reply: Reply, id: nat, row: Row) {
    after == if reply.Failed? then before else before[id := row]
  }

  /** The row that a sleep creates for a workload. */
  function SleepRow(p: nat, exec: nat, k: Key, replicas: nat): Row {
    Row(p, exec, k, replicas, replicas == 0, Prepared, None, None, false, false)
  }

  /** What a sleep leaves of the table under a row that it had read: done means applied. */
  ghost predicate KnownLeft(before: Table, after: Table, id: nat, p: nat, k: Key, scaled: bool) {
    (!scaled && after == before) ||
    (Owns(before, id, p, k) && !before[id].alreadyZero && after == before[id := before[id].(phase := Applied)])
  }

  /** And with a row of its own: done means applied, skipped prepared; if it fails there is no row, a prepared
      one, or an applied one of a workload at zero. */
  ghost predicate NewLeft(before: Table, after: Table, id: nat, row: Row, scaled: bool, skipped: bool, zero: bool) {
    (id !in before || after == before) &&
    if scaled then id !in before && after == before[id := row.(phase := Applied)]
    else if skipped then id !in before && after == before[id := row]
    else after == before || after == before[id := row] || (zero && after == before[id := row.(phase := Applied)])
  }

  /** The row says that the sleep is done or that the workload was found at zero. */
  predicate Rests(rows: Table, id: nat, p: nat, k: Key) {
    Owns(rows, id, p, k) && (rows[id].alreadyZero || rows[id].phase.Applied?)
  }

  /** A slept workload: at zero and accounted for, unless the policy found it at zero when it first fell
      asleep, in which case it is left alone. */
  ghost predicate SleptIn(cluster: map<Key, nat>, zeroed: map<Key, nat>, run: Run, k: Key, before: map<Key, nat>) {
    (k in cluster && k in before && cluster[k] == 0 && (before[k] > 0 ==> k in zeroed)) ||
    (k in run.snapped && run.snapped[k].row.alreadyZero)
  }

  /** The policy has an open row for the workload, which says that the sleep is done or that the workload was
      found at zero. */
  ghost predicate RestingIn(rows: Table, p: nat, k: Key) {
    exists id :: Rests(rows, id, p, k)
  }

  /** A worker for another workload leaves a slept one as it is. */
  lemma SleptStays(a: World, b: World, p: nat, run: Run, k: Key, other: Key, before: map<Key, nat>)
    requires k != other && Live(b, k) == Live(a, k) && (k in b.zeroed <==> k in a.zeroed) && OtherRowsKept(a.rows, b.rows, other)
    requires SleptIn(a.cluster, a.zeroed, run, k, before) && RestingIn(a.rows, p, k)
    ensures SleptIn(b.cluster, b.zeroed, run, k, before) && RestingIn(b.rows, p, k)
  {
    var id :| Rests(a.rows, id, p, k);
    assert Rests(b.rows, id, p, k);
  }

  ghost predicate AllSleptIn(w: World, p: nat, run: Run, keys: seq<Key>, before: map<Key, nat>) {
    forall k :: k in keys ==> SleptIn(w.cluster, w.zeroed, run, k, before) && RestingIn(w.rows, p, k)
  }

  lemma OneMoreSlept(a: World, b: World, p: nat, run: Run, keys: seq<Key>, k: Key, before: map<Key, nat>)
    requires AllSleptIn(a, p, run, keys, before) && k !in keys && OtherRowsKept(a.rows, b.rows, k)
    requires forall k' :: k' in keys ==> Live(b, k') == Live(a, k') && (k' in b.zeroed <==> k' in a.zeroed)
    requires SleptIn(b.cluster, b.zeroed, run, k, before) && RestingIn(b.rows, p, k)
    ensures AllSleptIn(b, p, run, keys + [k], before)
  {
    forall k' | k' in keys
      ensures SleptIn(b.cluster, b.zeroed, run, k', before) && RestingIn(b.rows, p, k')
    {
      SleptStays(a, b, p, run, k', k, before);
    }
  }

  /** No row of another workload is touched. */
  ghost predicate OtherRowsKept(before: Table, after: Table, k: Key) {
    forall i :: i in before && before[i].key != k ==> i in after && after[i] == before[i]
  }

  lemma KnownRests(before: Table, after: Table, id: nat, p: nat, k: Key, scaled: bool)
    requires KnownLeft(before, after, id, p, k, scaled) && Owns(before, id, p, k)
    ensures OtherRowsKept(before, after, k)
    ensures scaled || (before[id].alreadyZero && after == before) ==> Rests(after, id, p, k)
  {
  }

  lemma NewRests(before: Table, after: Table, id: nat, p: nat, exec: nat, k: Key, replicas: nat, scaled: bool, skipped: bool, zero: bool)
    requires NewLeft(before, after, id, SleepRow(p, exec, k, replicas), scaled, skipped, zero)
    ensures OtherRowsKept(before, after, k)
    ensures scaled || (skipped && replicas == 0) ==> Rests(after, id, p, k)
  {
  }

  lemma NewDone(before: Table, mid: Table, after: Table, id: nat, row: Row, scaled: bool, zero: bool)
    requires id !in before && mid == before[id := row]
    requires after == mid[id := row.(phase := Applied)] || (!scaled && after == mid)
    requires !scaled && after != mid ==> zero
    ensures NewLeft(before, after, id, row, scaled, false, zero)
  {
    assert mid[id := row.(phase := Applied)] == before[id := row.(phase := Applied)];
  }

  /** Row `id` was consumed by execution `exec`, with this many replicas restored. */
  ghost predicate ClosedBy(rows: Table, id: nat, exec: nat, replicas: nat) {
    id in rows && rows[id].wakeExec == Some(exec) && rows[id].restored == Some(replicas) && rows[id].phase.Restored?
  }

  ghost predicate DeletedBy(rows: Table, id: nat, exec: nat) {
    id in rows && rows[id].wakeExec == Some(exec) && rows[id].deletedAtWake
  }

  function Narrowed(read: map<Key, nat>, keys: seq<Key>): map<Key, nat>
    requires forall k :: k in keys ==> k in read
  {
    map k | k in keys :: read[k]
  }

  lemma NarrowedReadable(s: State, p: nat, read: map<Key, nat>, keys: seq<Key>)
    requires Readable(s, p, Wake, read) && forall k :: k in keys ==> k in read
    ensures Readable(s, p, Wake, Narrowed(read, keys))
    ensures (forall k :: k in read ==> k in keys) ==> Narrowed(read, keys) == read
  {
  }

  class Runner {
    var cluster: map<Key, nat>
    var rows: Table
    var nextRow: nat
    var replies: seq<Reply>   // what the calls to come will answer; they succeed once it is used up
    ghost var view: State

    ghost predicate Valid()
      reads this
    {
      && Reachable(view)
      && cluster == view.world.cluster && rows == view.world.rows && nextRow == view.world.nextRow
    }

    /** The worker for `k` is about to make `job`. */
    ghost predicate At(p: nat, k: Key, job: Job)
      reads this
    {
      p in view.inflight && k in view.inflight[p].jobs && view.inflight[p].jobs[k] == job
    }

    constructor (cluster: map<Key, nat>, rows: Table, nextRow: nat, replies: seq<Reply>)
      requires forall id :: id in rows ==> id < nextRow && rows[id].wakeExec.Some?
      ensures Valid() && this.cluster == cluster && this.rows == rows && this.replies == replies
      ensures view == State(World(cluster, rows, nextRow, map[]), map[], map[])
    {
      this.cluster := cluster;
      this.rows := rows;
      this.nextRow := nextRow;
      this.replies := replies;
      ReachStart(State(World(cluster, rows, nextRow, map[]), map[], map[]));
      view := State(World(cluster, rows, nextRow, map[]), map[], map[]);
    }

    lemma ValidInv()
      requires Valid()
      ensures Inv(view)
    {
      ReachableInv(view);
    }

    /** New ids are fresh. */
    lemma NextRowFresh()
      requires Valid()
      ensures nextRow !in rows
    {
      ValidInv();
    }

    /** A row that is about to be marked, flagged or closed is an open row of that policy and workload. */
    lemma RowPresent(p: nat, k: Key, id: nat)
      requires Valid() && p in view.inflight && k in view.inflight[p].jobs
      requires var job := view.inflight[p].jobs[k];
               ((job.Close? || job.MarkGone? || job.FlagExternal? || job.FlagDrift? || job.MarkDone? || job.Zero?) && job.id == id)
      ensures Owns(rows, id, p, k)
      ensures view.inflight[p].jobs[k].MarkDone? || view.inflight[p].jobs[k].Zero? ==> !rows[id].alreadyZero
    {
      ValidInv();
      assert RunOk(rows, view.world.zeroed, p, view.inflight[p]);
      assert JobOk(rows, view.world.zeroed, p, view.inflight[p], k, view.inflight[p].jobs[k]);
    }

    ghost method Take(step: Step)
      requires Reachable(view) && Enabled(view, step)
      modifies this`view
      ensures Reachable(view)
      ensures view == Next(old(view), step)
    {
      ReachNext(view, step);
      view := Next(view, step);
    }

    /** One call of one worker. */
    ghost method Work(p: nat, k: Key, reply: Reply, held: bool, effect: Effect)
      requires Reachable(view)
      requires p in view.inflight && k in view.inflight[p].jobs && !view.inflight[p].jobs[k].Finished?
      requires EffectOf(view, p, k, reply, held) == effect
      modifies this`view
      ensures Reachable(view) && view.world == effect.world
      ensures OnlyWorker(old(view), view, p, k) && At(p, k, effect.job)
    {
      CallMovesOneWorker(view, p, k, reply, held);
      Take(Call(p, k, reply, held));
    }

    /** A scale request of one worker. */
    ghost method WorkScale(p: nat, k: Key, job: Job, n: nat, reply: Reply, r: ScaleResult)
      requires Reachable(view) && At(p, k, job)
      requires (job.Zero? && n == 0) || (job.Restore? && n == job.target)
      requires r == if reply.Failed? || (reply.Ambiguous? && k in view.world.cluster) then ScaleError
                    else if k in view.world.cluster then ScaleOk else NotFound
      modifies this`view
      ensures Reachable(view) && OnlyWorker(old(view), view, p, k)
      ensures view.world.rows == old(view).world.rows && view.world.nextRow == old(view).world.nextRow
      ensures view.world.cluster == if reply.Failed? || k !in old(view).world.cluster then old(view).world.cluster
                                    else old(view).world.cluster[k := n]
      ensures r.ScaleOk? && job.Zero? ==> k in view.world.zeroed
      ensures At(p, k, AfterScale(old(view).inflight[p].direction, job, r))
    {
      ScaleEffect(view, p, k, job, n, reply);
      Work(p, k, reply, false, EffectOf(view, p, k, reply, false));
    }

    /** What the next call will answer. */
    function Upcoming(): Reply
      reads this
    {
      if replies == [] then Committed else replies[0]
    }

    method NextReply() returns (reply: Reply)
      modifies this`replies
      ensures reply == old(Upcoming()) && (old(replies) == [] ==> replies == [])
    {
      reply := Committed;
      if replies != [] {
        reply := replies[0];
        replies := replies[1..];
      }
    }

    // ------------------------------------------------------------ store and cluster calls

    method CreateWorkloadSnapshot(ghost p: nat, ghost k: Key, row: Row) returns (id: nat, ok: bool)
      requires Valid() && p in view.inflight && At(p, k, Create(row.before))
      requires row == Row(p, view.inflight[p].exec, k, row.before, row.before == 0, Prepared, None, None, false, false)
      modifies this
      ensures old(replies) == [] ==> replies == []
      ensures Valid() && OnlyWorker(old(view), view, p, k) && cluster == old(cluster)
      ensures ok <==> old(Upcoming()).Committed?
      ensures id !in old(rows) && rows == if old(Upcoming()).Failed? then old(rows) else old(rows)[id := row]
      ensures At(p, k, if ok then AfterIntent(id, row.alreadyZero, row.before) else Finished(Errored))
    {
      NextRowFresh();
      var reply := NextReply();
      CreateEffect(view, p, k, row.before, reply);
      Work(p, k, reply, false, EffectOf(view, p, k, reply, false));
      id := nextRow;
      if !reply.Failed? {
        rows := rows[id := row];
        nextRow := nextRow + 1;
      }
      ok := reply.Committed?;
    }

    method Scale(ghost p: nat, ghost job: Job, key: Key, replicas: nat) returns (r: ScaleResult)
      requires Valid() && At(p, key, job)
      requires (job.Zero? && replicas == 0) || (job.Restore? && replicas == job.target)
      modifies this
      ensures old(replies) == [] ==> replies == []
      ensures Valid() && OnlyWorker(old(view), view, p, key) && rows == old(rows)
      ensures r.ScaleOk? <==> key in old(cluster) && old(Upcoming()).Committed?
      ensures r.NotFound? <==> key !in old(cluster) && !old(Upcoming()).Failed?
      ensures cluster == if key !in old(cluster) || old(Upcoming()).Failed? then old(cluster)
                         else old(cluster)[key := replicas]
      ensures r.ScaleOk? && job.Zero? ==> key in view.world.zeroed
      ensures At(p, key, AfterScale(old(view).inflight[p].direction, job, r))
    {
      var reply := NextReply();
      r := if reply.Failed? then ScaleError
           else if key !in cluster then NotFound
           else if reply.Committed? then ScaleOk else ScaleError;
      WorkScale(p, key, job, replicas, reply, r);
      if !reply.Failed? && key in cluster {
        cluster := cluster[key := replicas];
      }
    }

    method MarkSnapshotApplied(ghost p: nat, ghost k: Key, id: nat) returns (ok: bool)
      requires Valid() && p in view.inflight && At(p, k, MarkDone(id))
      modifies this
      ensures old(replies) == [] ==> replies == []
      ensures Valid() && OnlyWorker(old(view), view, p, k) && cluster == old(cluster)
      ensures view.world.zeroed == old(view).world.zeroed
      ensures ok <==> old(Upcoming()).Committed?
      ensures Owns(old(rows), id, p, k) && !old(rows)[id].alreadyZero
      ensures Wrote(old(rows), rows, old(Upcoming()), id, old(rows)[id].(phase := Applied))
      ensures At(p, k, if !ok then Finished(Errored)
                       else Finished(if old(view.inflight[p].direction).Enforce? then Skipped else Scaled))
    {
      RowPresent(p, k, id);
      var reply := NextReply();
      DoneEffect(view, p, k, id, reply);
      Work(p, k, reply, false, EffectOf(view, p, k, reply, false));
      if !reply.Failed? {
        rows := MarkApplied(rows, id);
      }
      ok := reply.Committed?;
    }

    /** The lookup of a workload; `verdict` is what its worker's filter is going to say about it. */
    method LookupEntry(ghost p: nat, k: Key, ghost verdict: Option<bool>) returns (live: Option<nat>, ok: bool)
      requires Valid() && p in view.inflight && k in view.inflight[p].jobs && k in view.inflight[p].snapped
      requires view.inflight[p].jobs[k].Look?
      modifies this
      ensures old(replies) == [] ==> replies == []
      ensures Valid() && OnlyWorker(old(view), view, p, k) && rows == old(rows) && cluster == old(cluster)
      ensures live == if k in cluster then Some(cluster[k]) else None
      ensures ok <==> old(Upcoming()).Committed?
      ensures var run := old(view.inflight[p]);
              At(p, k, if !ok || (live.Some? && verdict.None?) then Finished(Errored)
                       else if run.direction.Wake? then AfterWakeLookup(run, run.snapped[k], live, verdict == Some(false))
                       else AfterEnforceLookup(run, run.snapped[k], live, verdict == Some(false)))
    {
      var reply := NextReply();
      ghost var seen := if k in cluster && verdict.None? then Failed else reply;
      LookEffect(view, p, k, seen, verdict == Some(false));
      Work(p, k, seen, verdict == Some(false), EffectOf(view, p, k, seen, verdict == Some(false)));
      live := if k in cluster then Some(cluster[k]) else None;
      ok := reply.Committed?;
    }

    method MarkSnapshotExternallyScaled(ghost p: nat, ghost k: Key, id: nat)
      requires Valid() && p in view.inflight && k in view.inflight[p].jobs
      requires view.inflight[p].jobs[k] == FlagDrift(id) ||
               (view.inflight[p].jobs[k].FlagExternal? && view.inflight[p].jobs[k].id == id)
      modifies this
      ensures old(replies) == [] ==> replies == []
      ensures Valid() && OnlyWorker(old(view), view, p, k) && cluster == old(cluster)
      ensures view.world.zeroed == old(view).world.zeroed
      ensures Owns(old(rows), id, p, k)
      ensures Wrote(old(rows), rows, old(Upcoming()), id, old(rows)[id].(externallyScaled := true))
      ensures At(p, k, AfterFlag(old(view.inflight[p].jobs[k])))
    {
      RowPresent(p, k, id);
      var reply := NextReply();
      FlagEffect(view, p, k, view.inflight[p].jobs[k], reply);
      Work(p, k, reply, false, EffectOf(view, p, k, reply, false));
      if !reply.Failed? {
        rows := MarkExternal(rows, id);
      }
    }

    method CloseSnapshot(ghost p: nat, ghost k: Key, ghost outcome: Outcome, id: nat, exec: nat, replicas: nat)
      returns (ok: bool)
      requires Valid() && At(p, k, Close(id, replicas, outcome)) && view.inflight[p].exec == exec
      modifies this
      ensures old(replies) == [] ==> replies == []
      ensures Valid() && OnlyWorker(old(view), view, p, k) && cluster == old(cluster)
      ensures ok <==> old(Upcoming()).Committed?
      ensures Owns(old(rows), id, p, k)
      ensures Wrote(old(rows), rows, old(Upcoming()), id,
                    old(rows)[id].(wakeExec := Some(exec), restored := Some(replicas), phase := Restored))
      ensures ok ==> ClosedBy(rows, id, exec, replicas)
      ensures At(p, k, Finished(if ok then outcome else Errored))
    {
      RowPresent(p, k, id);
      var reply := NextReply();
      CloseEffect(view, p, k, id, replicas, outcome, reply);
      Work(p, k, reply, false, EffectOf(view, p, k, reply, false));
      if !reply.Failed? {
        rows := CloseRow(rows, id, exec, replicas);
      }
      ok := reply.Committed?;
    }

    method MarkSnapshotDeletedAtWake(ghost p: nat, ghost k: Key, id: nat, exec: nat) returns (ok: bool)
      requires Valid() && p in view.inflight && view.inflight[p].exec == exec && At(p, k, MarkGone(id))
      modifies this
      ensures old(replies) == [] ==> replies == []
      ensures Valid() && OnlyWorker(old(view), view, p, k) && cluster == old(cluster)
      ensures ok <==> old(Upcoming()).Committed?
      ensures Owns(old(rows), id, p, k)
      ensures Wrote(old(rows), rows, old(Upcoming()), id, old(rows)[id].(wakeExec := Some(exec), deletedAtWake := true))
      ensures ok ==> DeletedBy(rows, id, exec)
      ensures At(p, k, Finished(if ok then Skipped else Errored))
    {
      RowPresent(p, k, id);
      var reply := NextReply();
      GoneEffect(view, p, k, id, reply);
      Work(p, k, reply, false, EffectOf(view, p, k, reply, false));
      if !reply.Failed? {
        rows := MarkDeleted(rows, id, exec);
      }
      ok := reply.Committed?;
    }

    // ------------------------------------------------------------ one workload

    /** Policy `p` is executing `run`, whatever its workers are doing. */
    ghost predicate Executing(p: nat, run: Run)
      reads this
    {
      p in view.inflight && view.inflight[p] == run.(jobs := view.inflight[p].jobs)
    }

    /** `id` is its row: the one it read, or the one it creates.  A sleep that is done has its row applied; one
        that fails after it has stored its intent leaves the row prepared, or applied with the workload at
        zero. */
    method SleepWorkload(p: nat, run: Run, k: Key, replicas: nat)
      returns (scaled: bool, skipped: bool, errored: bool, ghost id: nat)
      requires Valid() && Executing(p, run) && run.direction.Sleep?
      requires At(p, k, FirstJob(run, k, replicas))
      modifies this
      ensures Valid() && Executing(p, run) && OnlyWorker(old(view), view, p, k)
      ensures Reported(view.inflight[p], k, scaled, skipped, errored)
      ensures !run.apply ==> cluster == old(cluster) && rows == old(rows) && scaled == (replicas > 0) && skipped == (replicas == 0)
      ensures run.apply && scaled && replicas > 0 ==> k in cluster && cluster[k] == 0 && k in view.world.zeroed
      ensures run.apply && skipped ==> if k in run.snapped then run.snapped[k].row.alreadyZero else replicas == 0
      ensures skipped || replicas == 0 ==> cluster == old(cluster)
      ensures old(replies) == [] && k in old(cluster) ==> !errored && replies == []
      ensures run.apply && k in run.snapped ==>
                id == run.snapped[k].id && KnownLeft(old(rows), rows, id, p, k, scaled) && (skipped ==> rows == old(rows))
      ensures run.apply && k !in run.snapped ==>
                NewLeft(old(rows), rows, id, SleepRow(p, run.exec, k, replicas), scaled, skipped, k in cluster && cluster[k] == 0)
    {
      id := 0;
      if !run.apply {
        return replicas > 0, replicas == 0, false, id;
      }
      var rowId, alreadyZero, known := Intend(p, run, k, replicas);
      id := rowId;
      if !known {
        return false, false, true, id;
      }
      if alreadyZero {
        return false, true, false, id;
      }
      ghost var mid := rows;
      scaled := ApplySleep(p, run, k, rowId, replicas);
      if k !in run.snapped {
        NewDone(old(rows), mid, rows, id, SleepRow(p, run.exec, k, replicas), scaled, k in cluster && cluster[k] == 0);
      }
      return scaled, false, !scaled, id;
    }

    /** The beginning of sleepWorkload in apply mode: the row that was read, or a new one. */
    method Intend(p: nat, run: Run, k: Key, replicas: nat) returns (id: nat, alreadyZero: bool, ok: bool)
      requires Valid() && Executing(p, run) && run.direction.Sleep? && run.apply
      requires At(p, k, FirstJob(run, k, replicas))
      modifies this
      ensures Valid() && Executing(p, run) && OnlyWorker(old(view), view, p, k) && cluster == old(cluster)
      ensures At(p, k, if ok then AfterIntent(id, alreadyZero, replicas) else Finished(Errored))
      ensures alreadyZero == if k in run.snapped then run.snapped[k].row.alreadyZero else replicas == 0
      ensures k in run.snapped ==> ok && id == run.snapped[k].id && rows == old(rows)
      ensures k !in run.snapped ==>
                id !in old(rows) && ((!ok && rows == old(rows)) || rows == old(rows)[id := SleepRow(p, run.exec, k, replicas)])
      ensures old(replies) == [] ==> ok && replies == []
    {
      if k in run.snapped {
        return run.snapped[k].id, run.snapped[k].row.alreadyZero, true;
      }
      id, ok := CreateWorkloadSnapshot(p, k, NewRow(p, run.exec, k, replicas));
      alreadyZero := replicas == 0;
    }

    /** The end of sleepWorkload, for a row that is not at zero already: to zero, then the phase. */
    method ApplySleep(p: nat, run: Run, k: Key, id: nat, replicas: nat) returns (scaled: bool)
      requires Valid() && Executing(p, run) && run.direction.Sleep? && At(p, k, AfterIntent(id, false, replicas))
      modifies this
      ensures Valid() && Executing(p, run) && OnlyWorker(old(view), view, p, k)
      ensures At(p, k, Finished(if scaled then Scaled else Errored))
      ensures Owns(old(rows), id, p, k) && !old(rows)[id].alreadyZero
      ensures scaled ==> rows == old(rows)[id := old(rows)[id].(phase := Applied)]
      ensures scaled && replicas > 0 ==> k in cluster && cluster[k] == 0 && k in view.world.zeroed
      ensures !scaled && rows != old(rows) ==>
                rows == old(rows)[id := old(rows)[id].(phase := Applied)] && (replicas > 0 ==> k in cluster && cluster[k] == 0)
      ensures replicas == 0 ==> cluster == old(cluster)
      ensures old(replies) == [] && k in old(cluster) ==> scaled && replies == []
    {
      RowPresent(p, k, id);
      if replicas == 0 {
        scaled := MarkSnapshotApplied(p, k, id);
        return;
      }
      var r := Scale(p, Zero(id), k, 0);
      if r.ScaleOk? {
        scaled := MarkSnapshotApplied(p, k, id);
        assert k in cluster && cluster[k] == 0;
      } else {
        scaled := false;
      }
    }

    method WakeWorkload(p: nat, run: Run, scope: Scope, k: Key)
      returns (scaled: bool, skipped: bool, errored: bool)
      requires Valid() && Executing(p, run) && run.direction.Wake? && k in run.snapped
      requires At(p, k, FirstJob(run, k, 0))
      modifies this
      ensures Valid() && Executing(p, run) && OnlyWorker(old(view), view, p, k)
      ensures Reported(view.inflight[p], k, scaled, skipped, errored)
      ensures !run.apply ==> cluster == old(cluster) && rows == old(rows)
      ensures scaled || skipped || errored
      ensures !run.apply && !errored ==>
                scaled == (!run.snapped[k].row.alreadyZero && k in cluster && scope.Verdict(k, Targeting.Wake) == Some(true)) && skipped == !scaled
      ensures scope.Verdict(k, Targeting.Wake) != Some(true) ==> cluster == old(cluster)
      ensures old(replies) == [] && scope.Verdict(k, Targeting.Wake).Some? ==> !errored && replies == []
      ensures run.apply && !errored && scope.Verdict(k, Targeting.Wake) != Some(false) ==> Woken(run, k) && Returned(p, k)
      ensures run.apply && scaled ==> ClosedBy(rows, run.snapped[k].id, run.exec, run.snapped[k].row.before)
      ensures run.apply && skipped ==>
                if run.snapped[k].row.alreadyZero then ClosedBy(rows, run.snapped[k].id, run.exec, 0)
                else if k !in cluster then DeletedBy(rows, run.snapped[k].id, run.exec)
                else scope.Verdict(k, Targeting.Wake) == Some(false) && rows == old(rows)
    {
      var snap := run.snapped[k];
      if snap.row.alreadyZero {
        if run.apply {
          var closed := CloseSnapshot(p, k, Skipped, snap.id, run.exec, 0);
          if !closed {
            return false, false, true;
          }
        }
        return false, true, false;
      }
      var live, found := LookupEntry(p, k, scope.Verdict(k, Targeting.Wake));
      if !found {
        return false, false, true;
      }
      if live.None? {
        if run.apply {
          var marked := MarkSnapshotDeletedAtWake(p, k, snap.id, run.exec);
          if !marked {
            return false, false, true;
          }
        }
        return false, true, false;
      }
      var allowed := Targeting.FilterOne(scope.syntax, scope.policy, scope.active(k), scope.WorkloadOf(k), Targeting.Wake);
      if allowed.None? {
        return false, false, true;
      }
      if !allowed.value {
        return false, true, false;
      }
      var target := snap.row.before;
      if live.value != 0 {
        var done;
        done, scaled, skipped, errored := HandleExternallyScaled(p, run, k, live.value);
        if done {
          return;
        }
      }
      if !run.apply {
        return true, false, false;
      }
      var r := Scale(p, Restore(snap.id, target), k, target);
      if !r.ScaleOk? {
        return false, false, true;
      }
      var closed := CloseSnapshot(p, k, Scaled, snap.id, run.exec, target);
      if !closed {
        return false, false, true;
      }
      return true, false, false;
    }

    /** A workload that somebody scaled up while it slept: already at its target, it only needs its
        row closed; otherwise the caller restores it. */
    method HandleExternallyScaled(p: nat, run: Run, k: Key, current: nat)
      returns (done: bool, scaled: bool, skipped: bool, errored: bool)
      requires Valid() && Executing(p, run) && run.direction.Wake? && k in run.snapped
      requires At(p, k, AfterWakeLookup(run, run.snapped[k], Some(current), false)) && current != 0
      requires k in cluster && cluster[k] == current
      modifies this
      ensures Valid() && Executing(p, run) && OnlyWorker(old(view), view, p, k) && cluster == old(cluster)
      ensures !run.apply ==> rows == old(rows)
      ensures run.apply ==> Owns(old(rows), run.snapped[k].id, p, k) && run.snapped[k].id in rows
      ensures run.apply && !old(Upcoming()).Failed? ==> rows[run.snapped[k].id].externallyScaled
      ensures run.apply && done && !errored ==>
                ClosedBy(rows, run.snapped[k].id, run.exec, run.snapped[k].row.before)
      ensures run.apply && !done ==>
                Wrote(old(rows), rows, old(Upcoming()), run.snapped[k].id,
                      old(rows)[run.snapped[k].id].(externallyScaled := true))
      ensures done ==> Reported(view.inflight[p], k, scaled, skipped, errored) && !skipped
      ensures old(replies) == [] ==> !errored && replies == []
      ensures done && run.apply ==> current == run.snapped[k].row.before
      ensures !done ==> At(p, k, if run.apply then Restore(run.snapped[k].id, run.snapped[k].row.before)
                                 else Finished(Scaled))
    {
      var snap := run.snapped[k];
      var target := snap.row.before;
      if run.apply {
        MarkSnapshotExternallyScaled(p, k, snap.id);
      }
      if current == target {
        if run.apply {
          var closed := CloseSnapshot(p, k, Scaled, snap.id, run.exec, target);
          if !closed {
            return true, false, false, true;
          }
        }
        return true, true, false, false;
      }
      return false, false, false, false;
    }

    method ReconcileSnapshotSleep(p: nat, run: Run, scope: Scope, k: Key)
      returns (scaled: bool, skipped: bool, errored: bool)
      requires Valid() && Executing(p, run) && run.direction.Enforce? && k in run.snapped
      requires At(p, k, FirstJob(run, k, 0))
      modifies this
      ensures Valid() && Executing(p, run) && OnlyWorker(old(view), view, p, k)
      ensures Reported(view.inflight[p], k, scaled, skipped, errored)
      ensures !run.apply ==> cluster == old(cluster) && rows == old(rows)
      ensures scope.Verdict(k, Targeting.Sleep) != Some(true) ==> cluster == old(cluster)
      ensures old(replies) == [] && scope.Verdict(k, Targeting.Sleep).Some? ==> !errored && replies == []
      ensures run.apply && !errored && scope.Verdict(k, Targeting.Sleep) != Some(false) && k in cluster ==> cluster[k] == 0
      ensures skipped ==> cluster == old(cluster)
      ensures run.apply && scaled ==>
                var id := run.snapped[k].id;
                Owns(old(rows), id, p, k) &&
                (rows == old(rows) || rows == old(rows)[id := old(rows)[id].(externallyScaled := true)]) &&
                (old(replies) == [] ==> rows[id].externallyScaled)
      ensures run.apply && !errored && scope.Verdict(k, Targeting.Sleep) == Some(true) && Live(old(view).world, k) == Some(0) &&
              run.snapped[k].row.phase.Prepared? ==>
                var id := run.snapped[k].id;
                Owns(old(rows), id, p, k) && rows == old(rows)[id := old(rows)[id].(phase := Applied)]
      ensures run.apply && skipped && !(Live(old(view).world, k) == Some(0) && run.snapped[k].row.phase.Prepared?) ==> rows == old(rows)
      ensures !run.apply && !errored ==>
                scaled == (k in cluster && cluster[k] != 0 && scope.Verdict(k, Targeting.Sleep) == Some(true)) && skipped == !scaled
    {
      var snap := run.snapped[k];
      var live, found := LookupEntry(p, k, scope.Verdict(k, Targeting.Sleep));
      if !found {
        return false, false, true;
      }
      if live.None? {
        return false, true, false;
      }
      var allowed := Targeting.FilterOne(scope.syntax, scope.policy, scope.active(k), scope.WorkloadOf(k), Targeting.Sleep);
      if allowed.None? {
        return false, false, true;
      }
      if !allowed.value {
        return false, true, false;
      }
      if live.value == 0 {
        if run.apply && snap.row.phase.Prepared? {
          var applied := MarkSnapshotApplied(p, k, snap.id);
          if !applied {
            return false, false, true;
          }
        }
        return false, true, false;
      }
      if !run.apply {
        return true, false, false;
      }
      scaled := ScaleBack(p, run, k, snap.id);
      return scaled, false, !scaled;
    }

    /** The end of reconcileSnapshotSleep: back to zero, with the drift recorded if that call succeeds. */
    method ScaleBack(p: nat, run: Run, k: Key, id: nat) returns (scaled: bool)
      requires Valid() && Executing(p, run) && run.direction.Enforce? && At(p, k, Zero(id))
      modifies this
      ensures Valid() && Executing(p, run) && OnlyWorker(old(view), view, p, k)
      ensures At(p, k, Finished(if scaled then Scaled else Errored))
      ensures scaled ==> k in cluster && cluster[k] == 0
      ensures !scaled ==> rows == old(rows)
      ensures Owns(old(rows), id, p, k)
      ensures rows == old(rows) || rows == old(rows)[id := old(rows)[id].(externallyScaled := true)]
      ensures scaled && old(replies) == [] ==> rows[id].externallyScaled
      ensures old(replies) == [] && k in old(cluster) ==> scaled && replies == []
    {
      RowPresent(p, k, id);
      var r := Scale(p, Zero(id), k, 0);
      if !r.ScaleOk? {
        return false;
      }
      MarkSnapshotExternallyScaled(p, k, id);
      return true;
    }

    /** The loop body of emergency scale: one replica, then the row is consumed.  A workload whose row cannot
        be closed counts as scaled and as failed. */
    method EmergencyScaleWorkload(p: nat, run: Run, k: Key)
      returns (scaled: bool, skipped: bool, errored: bool)
      requires Valid() && Executing(p, run) && run.direction.Emergency? && k in run.snapped
      requires At(p, k, FirstJob(run, k, 0))
      modifies this
      ensures Valid() && Executing(p, run) && OnlyWorker(old(view), view, p, k)
      ensures Reported(view.inflight[p], k, scaled && !errored, skipped, errored)
      ensures scaled ==> k in cluster && cluster[k] == 1
      ensures scaled && !errored ==> ClosedBy(rows, run.snapped[k].id, run.exec, 1)
      ensures scaled || skipped || errored
      ensures skipped ==> k !in cluster && DeletedBy(rows, run.snapped[k].id, run.exec)
      ensures old(replies) == [] ==> !errored
    {
      var snap := run.snapped[k];
      var r := Scale(p, Restore(snap.id, 1), k, 1);
      if r.NotFound? {
        var marked := MarkSnapshotDeletedAtWake(p, k, snap.id, run.exec);
        return false, marked, !marked;
      }
      if !r.ScaleOk? {
        return false, false, true;
      }
      var closed := CloseSnapshot(p, k, Scaled, snap.id, run.exec, 1);
      return true, false, !closed;
    }

    // ------------------------------------------------------------ whole executions

    /** The claim, and reading the open rows `read` of the policy. */
    method BeginRun(p: nat, exec: nat, direction: Direction, apply: bool, read: map<Key, nat>) returns (run: Run)
      requires Valid() && p !in view.inflight && exec !in view.execs
      requires Readable(view, p, direction, read) && !direction.Emergency?
      modifies this`view
      ensures Valid() && Executing(p, run) && view.world == old(view.world)
      ensures run.exec == exec && run.direction == direction && run.apply == apply && run.jobs == map[]
      ensures run.snapped.Keys == read.Keys && run.full == CoversAllOpen(old(view), p, read.Keys)
      ensures forall k :: k in read ==> run.snapped[k] == Snap(read[k], rows[read[k]])
      ensures view.inflight[p].jobs == map[]
    {
      Take(Begin(p, exec, direction, apply, read));
      var full := forall id :: id in rows && rows[id].policy == p && rows[id].Open() ==> rows[id].key in read.Keys;
      run := Run(exec, direction, apply, full, map k | k in read :: Snap(read[k], rows[read[k]]), map[]);
    }

    /** Starting the worker of one workload. */
    ghost method SelectWorker(p: nat, run: Run, k: Key)
      requires Valid() && Executing(p, run) && k !in view.inflight[p].jobs
      requires if run.direction.Sleep? then k in cluster else k in run.snapped
      modifies this`view
      ensures Valid() && Executing(p, run) && view.world == old(view.world)
      ensures At(p, k, FirstJob(run, k, if k in cluster then cluster[k] else 0))
      ensures view.inflight[p].jobs.Keys == old(view.inflight[p].jobs.Keys) + {k}
      ensures forall k' :: k' in old(view.inflight[p].jobs) ==>
                view.inflight[p].jobs[k'] == old(view.inflight[p].jobs[k'])
    {
      Take(Select(p, k));
    }

    ghost predicate Slept(run: Run, k: Key, before: map<Key, nat>)
      reads this
    {
      SleptIn(cluster, view.world.zeroed, run, k, before)
    }

    ghost predicate Resting(p: nat, k: Key)
      reads this
    {
      RestingIn(rows, p, k)
    }

    /** A row that was read and not taken up yet. */
    lemma SnappedOwned(p: nat, k: Key)
      requires Valid() && p in view.inflight && k in view.inflight[p].snapped && k !in view.inflight[p].jobs
      ensures var snap := view.inflight[p].snapped[k];
              Owns(rows, snap.id, p, k) && rows[snap.id].alreadyZero == snap.row.alreadyZero
    {
      ValidInv();
      assert RunOk(rows, view.world.zeroed, p, view.inflight[p]);
      assert SnapOk(rows, p, k, view.inflight[p].snapped[k]);
    }

    /** Nothing but workload `k` changed in the cluster. */
    ghost predicate OthersSame(before: World, k: Key)
      reads this
    {
      forall k' :: k' != k ==>
        Live(view.world, k') == Live(before, k') && (k' in view.world.zeroed <==> k' in before.zeroed)
    }

    method SleepOne(p: nat, run: Run, k: Key) returns (scaled: bool, skipped: bool, errored: bool)
      requires Valid() && Executing(p, run) && run.direction.Sleep?
      requires k !in view.inflight[p].jobs && k in cluster
      modifies this
      ensures Valid() && Executing(p, run) && OthersSame(old(view.world), k)
      ensures view.inflight[p].jobs.Keys == old(view.inflight[p].jobs.Keys) + {k}
      ensures scaled || skipped || errored
      ensures !run.apply ==> cluster == old(cluster) && rows == old(rows)
      ensures run.apply && !errored ==> Slept(run, k, old(cluster)) && Resting(p, k)
      ensures OtherRowsKept(old(rows), rows, k)
      ensures ResultsKept(old(view), view, p, k, scaled, skipped, errored)
      ensures old(replies) == [] ==> !errored && replies == []
    {
      if k in run.snapped {
        SnappedOwned(p, k);
      }
      SelectWorker(p, run, k);
      ghost var id, mid := 0, view;
      var replicas := cluster[k];
      scaled, skipped, errored, id := SleepWorkload(p, run, k, replicas);
      WorkerResult(old(view), mid, view, p, k, scaled, skipped, errored);
      if run.apply && k in run.snapped {
        KnownRests(old(rows), rows, id, p, k, scaled);
      } else if run.apply {
        NewRests(old(rows), rows, id, p, run.exec, k, replicas, scaled, skipped, k in cluster && cluster[k] == 0);
      }
    }

    ghost predicate AllSlept(p: nat, run: Run, keys: seq<Key>, before: map<Key, nat>)
      reads this
    {
      AllSleptIn(view.world, p, run, keys, before)
    }

    method SleepNext(p: nat, run: Run, entries: seq<Key>, i: nat, ghost before: map<Key, nat>)
      returns (scaled: bool, skipped: bool, errored: bool)
      requires Valid() && Executing(p, run) && run.direction.Sleep? && i < |entries|
      requires entries[i] in cluster && entries[i] in before && cluster[entries[i]] == before[entries[i]]
      requires entries[i] !in entries[..i] && entries[i] !in view.inflight[p].jobs
      modifies this
      ensures Valid() && Executing(p, run) && OthersSame(old(view.world), entries[i])
      ensures view.inflight[p].jobs.Keys == old(view.inflight[p].jobs.Keys) + {entries[i]}
      ensures scaled || skipped || errored
      ensures !run.apply ==> cluster == old(cluster) && rows == old(rows)
      ensures run.apply && !errored && old(AllSlept(p, run, entries[..i], before)) ==> AllSlept(p, run, entries[..i + 1], before)
      ensures TallyStep(old(view), view, p, entries, i, scaled, skipped, errored)
      ensures old(replies) == [] ==> !errored && replies == []
    {
      assert entries[..i + 1] == entries[..i] + [entries[i]];
      scaled, skipped, errored := SleepOne(p, run, entries[i]);
      StepTally(old(view), view, p, entries, i, scaled, skipped, errored);
      if run.apply && !errored && old(AllSlept(p, run, entries[..i], before)) {
        OneMoreSlept(old(view).world, view.world, p, run, entries[..i], entries[i], before);
      }
    }

    method SleepAll(p: nat, run: Run, entries: seq<Key>) returns (counts: Counts)
      requires Valid() && Executing(p, run) && run.direction.Sleep? && view.inflight[p].jobs == map[]
      requires Sorting.Unique(entries) && forall k :: k in entries ==> k in cluster
      modifies this
      ensures Valid() && counts.Total() == |entries|
      ensures p in view.inflight && counts == Tally(view.inflight[p].jobs, entries)
      ensures !run.apply ==> cluster == old(cluster) && rows == old(rows)
      ensures forall k :: k !in entries ==> Live(view.world, k) == Live(old(view).world, k)
      ensures run.apply && counts.errors == 0 ==> AllSlept(p, run, entries, old(cluster))
      ensures old(replies) == [] ==> counts.errors == 0
    {
      counts := Counts(0, 0, 0);
      assert entries[..0] == [];
      for i := 0 to |entries|
        invariant Valid() && Executing(p, run) && counts == Tally(view.inflight[p].jobs, entries[..i])
        invariant forall k :: k in view.inflight[p].jobs ==> k in entries[..i]
        invariant !run.apply ==> cluster == old(cluster) && rows == old(rows)
        invariant forall k :: k !in entries[..i] ==> Live(view.world, k) == Live(old(view).world, k)
        invariant run.apply && counts.errors == 0 ==> AllSlept(p, run, entries[..i], old(cluster))
        invariant old(replies) == [] ==> counts.errors == 0 && replies == []
      {
        assert entries[..i + 1] == entries[..i] + [entries[i]];
        assert entries[i] !in entries[..i];
        assert Live(view.world, entries[i]) == Live(old(view).world, entries[i]);
        var scaled, skipped, errored := SleepNext(p, run, entries, i, old(cluster));
        counts := counts.Add(scaled, skipped, errored);
      }
      assert entries[..|entries|] == entries;
      TallyTotal(view.inflight[p].jobs, entries);
    }

    /** The selected workloads are slept; `deferred` tells whether a sleep begun earlier stays undone. */
    method SleepSelected(p: nat, run: Run, read: map<Key, nat>, keys: seq<Key>) returns (counts: Counts, deferred: bool)
      requires Valid() && Executing(p, run) && run.direction.Sleep? && view.inflight[p].jobs == map[]
      requires run.snapped.Keys == read.Keys
      requires forall k :: k in read ==> read[k] in rows && run.snapped[k] == Snap(read[k], rows[read[k]])
      requires Sorting.Unique(keys) && forall k :: k in keys ==> k in cluster
      modifies this
      ensures Valid() && counts.Total() == |keys|
      ensures !run.apply ==> cluster == old(cluster) && rows == old(rows)
      ensures forall k :: k !in keys ==> Live(view.world, k) == Live(old(view).world, k)
      ensures run.apply && counts.errors == 0 ==>
                forall k :: k in keys ==>
                  (AsleepNow(k, old(cluster)) || FoundAtZero(old(rows), read, k)) && Resting(p, k)
      ensures old(replies) == [] ==> counts.errors == 0
      ensures !deferred <==> forall k :: k in read && Unresolved(old(rows), read[k]) ==> k in keys
    {
      counts := SleepAll(p, run, keys);
      ZeroedRecoverable();
      deferred := exists k :: k in run.snapped && run.snapped[k].row.phase.Prepared? && !run.snapped[k].row.alreadyZero &&
                              k !in keys;
    }

    /** RunPolicySleep: exactly the listed workloads in the policy's namespaces that are not skipped and
        that the run may touch end at zero, each with a row that brings it back.  `drains` tells whether
        the node actions follow, which they do only when nothing was held back or left undone. */
    method RunPolicySleep(p: nat, exec: nat, apply: bool, scope: Scope, read: map<Key, nat>,
                          deployments: seq<Targeting.Workload>, statefulSets: seq<Targeting.Workload>, listErrors: nat,
                          skip: set<string>, priorities: string)
      returns (counts: Counts, ok: bool, drains: bool)
      requires Valid() && p !in view.inflight && exec !in view.execs && Readable(view, p, Sleep, read)
      requires Sorting.Unique(Keys(deployments + statefulSets))
      requires forall k :: k in Keys(deployments + statefulSets) ==> k in cluster
      modifies this
      ensures Valid()
      ensures !apply || !ok ==> cluster == old(cluster) && rows == old(rows)
      ensures !ok <==> SelectionFails(scope, deployments + statefulSets, skip)
      ensures ok && old(replies) == [] ==> counts.errors == listErrors
      ensures ok ==> counts.Total() + HeldBack(scope, deployments + statefulSets, skip) ==
                       |deployments| + |statefulSets| + listErrors
      ensures forall k :: !Aimed(scope, deployments + statefulSets, skip, k) ==>
                Live(view.world, k) == Live(old(view).world, k)
      ensures ok && apply && counts.errors == 0 ==>
                forall k :: Aimed(scope, deployments + statefulSets, skip, k) ==>
                  (AsleepNow(k, old(cluster)) || FoundAtZero(old(rows), read, k)) && Resting(p, k)
      ensures drains <==> ok && counts.errors == 0 && scope.policy.scope.None? &&
                          HeldBack(scope, deployments + statefulSets, skip) == 0 &&
                          forall k :: k in read && Unresolved(old(rows), read[k]) ==>
                            Aimed(scope, deployments + statefulSets, skip, k)
      ensures drains ==> forall w :: InSelection(scope, deployments + statefulSets, skip, w) ==>
                Aimed(scope, deployments + statefulSets, skip, KeyOf(w))
      ensures drains && apply ==> forall k :: k in read && Unresolved(old(rows), read[k]) ==> k in cluster && cluster[k] == 0
    {
      counts, drains := Counts(0, 0, listErrors), false;
      var run := BeginRun(p, exec, Sleep, apply, read);
      var keys, skipped, whole := SelectEntries(scope, deployments, statefulSets, skip, priorities);
      if keys.None? {
        return counts, false, false;
      }
      var own, deferred := SleepSelected(p, run, read, keys.value);
      counts := Plus(counts.(skipped := skipped), own);
      ok, drains := true, counts.errors == 0 && scope.policy.scope.None? && whole && !deferred;
    }

    /** At zero, and restorable if it was not at zero before. */
    ghost predicate AsleepNow(k: Key, before: map<Key, nat>)
      reads this
    {
      k in cluster && cluster[k] == 0 && (k in before && before[k] > 0 ==> Recoverable(view.world, k))
    }

    lemma ZeroedRecoverable()
      requires Valid()
      ensures forall k :: k in view.world.zeroed ==> Recoverable(view.world, k)
    {
      ValidInv();
      forall k | k in view.world.zeroed
        ensures Recoverable(view.world, k)
      {
        assert view.world.zeroed[k] in view.world.rows;
      }
    }

    method WakeOne(p: nat, run: Run, scope: Scope, k: Key) returns (scaled: bool, skipped: bool, errored: bool)
      requires Valid() && Executing(p, run) && run.direction.Wake?
      requires k !in view.inflight[p].jobs && k in run.snapped
      modifies this
      ensures Valid() && Executing(p, run) && OthersSame(old(view.world), k)
      ensures view.inflight[p].jobs.Keys == old(view.inflight[p].jobs.Keys) + {k}
      ensures forall k' :: k' in old(view.inflight[p].jobs) ==>
                view.inflight[p].jobs[k'] == old(view.inflight[p].jobs[k'])
      ensures scaled || skipped || errored
      ensures !run.apply ==> cluster == old(cluster) && rows == old(rows)
      ensures ResultsKept(old(view), view, p, k, scaled, skipped, errored)
      ensures scope.Verdict(k, Targeting.Wake) != Some(true) ==> Live(view.world, k) == Live(old(view).world, k)
      ensures old(replies) == [] && scope.Verdict(k, Targeting.Wake).Some? ==> !errored && replies == []
      ensures run.apply && !errored && scope.Verdict(k, Targeting.Wake) != Some(false) ==> Woken(run, k) && Returned(p, k)
    {
      SelectWorker(p, run, k);
      ghost var mid := view;
      scaled, skipped, errored := WakeWorkload(p, run, scope, k);
      WorkerResult(old(view), mid, view, p, k, scaled, skipped, errored);
    }

    /** A woken workload has its saved count, unless it was never ours or no longer exists. */
    ghost predicate Woken(run: Run, k: Key)
      reads this
    {
      k in run.snapped &&
      (k in cluster && !run.snapped[k].row.alreadyZero ==> cluster[k] == run.snapped[k].row.before)
    }

    ghost predicate Returned(p: nat, k: Key)
      reads this
    {
      At(p, k, Finished(Scaled)) || At(p, k, Finished(Skipped))
    }

    /** The first `n` snapshots have been taken care of, except those held back. */
    ghost predicate AllWoken(p: nat, run: Run, scope: Scope, snaps: seq<Key>, n: nat)
      requires n <= |snaps|
      reads this
    {
      forall j :: 0 <= j < n && scope.Verdict(snaps[j], Targeting.Wake) != Some(false) ==>
        Woken(run, snaps[j]) && Returned(p, snaps[j])
    }

    /** Replicas of a workload change only if its worker may touch it. */
    ghost predicate Spared(scope: Scope, direction: Targeting.Direction, keys: seq<Key>, before: World)
      reads this
    {
      forall k :: k !in keys || scope.Verdict(k, direction) != Some(true) ==> Live(view.world, k) == Live(before, k)
    }

    /** No worker's filter fails. */
    ghost predicate AllDecided(scope: Scope, direction: Targeting.Direction, keys: seq<Key>) {
      forall k :: k in keys ==> scope.Verdict(k, direction).Some?
    }

    method WakeNext(p: nat, run: Run, scope: Scope, snaps: seq<Key>, i: nat)
      returns (scaled: bool, skipped: bool, errored: bool)
      requires Valid() && Executing(p, run) && run.direction.Wake? && i < |snaps| && snaps[i] in run.snapped
      requires forall j :: 0 <= j < i ==> snaps[j] != snaps[i]
      requires forall k :: k in view.inflight[p].jobs <==> k in snaps[..i]
      modifies this
      ensures Valid() && Executing(p, run) && (scaled || skipped || errored)
      ensures forall k :: k in view.inflight[p].jobs <==> k in snaps[..i + 1]
      ensures !run.apply ==> cluster == old(cluster) && rows == old(rows)
      ensures Spared(scope, Targeting.Wake, snaps, old(view).world)
      ensures run.apply && !errored && old(AllWoken(p, run, scope, snaps, i)) ==> AllWoken(p, run, scope, snaps, i + 1)
      ensures TallyStep(old(view), view, p, snaps, i, scaled, skipped, errored)
      ensures old(replies) == [] && scope.Verdict(snaps[i], Targeting.Wake).Some? ==> !errored && replies == []
    {
      var k := snaps[i];
      assert snaps[..i + 1] == snaps[..i] + [k];
      scaled, skipped, errored := WakeOne(p, run, scope, k);
      StepTally(old(view), view, p, snaps, i, scaled, skipped, errored);
      forall j | 0 <= j < i && run.apply && !errored && old(AllWoken(p, run, scope, snaps, i)) &&
                 scope.Verdict(snaps[j], Targeting.Wake) != Some(false)
        ensures Woken(run, snaps[j]) && Returned(p, snaps[j])
      {
        assert old(Woken(run, snaps[j]) && Returned(p, snaps[j]));
        assert Live(view.world, snaps[j]) == Live(old(view).world, snaps[j]);
      }
    }

    method WakeAll(p: nat, run: Run, scope: Scope, snaps: seq<Key>) returns (counts: Counts)
      requires Valid() && Executing(p, run) && run.direction.Wake? && view.inflight[p].jobs == map[]
      requires Sorting.Unique(snaps) && forall k :: k in snaps <==> k in run.snapped
      modifies this
      ensures Valid() && Executing(p, run) && counts.Total() == |snaps| && counts == Tally(view.inflight[p].jobs, snaps)
      ensures !run.apply ==> cluster == old(cluster) && rows == old(rows)
      ensures Spared(scope, Targeting.Wake, snaps, old(view).world)
      ensures view.inflight[p].jobs.Keys == run.snapped.Keys
      ensures run.apply && counts.errors == 0 ==> AllWoken(p, run, scope, snaps, |snaps|)
      ensures old(replies) == [] && AllDecided(scope, Targeting.Wake, snaps) ==> counts.errors == 0
    {
      counts := Counts(0, 0, 0);
      assert snaps[..0] == [];
      for i := 0 to |snaps|
        invariant Valid() && Executing(p, run) && counts == Tally(view.inflight[p].jobs, snaps[..i])
        invariant forall k :: k in view.inflight[p].jobs <==> k in snaps[..i]
        invariant !run.apply ==> cluster == old(cluster) && rows == old(rows)
        invariant Spared(scope, Targeting.Wake, snaps, old(view).world)
        invariant run.apply && counts.errors == 0 ==> AllWoken(p, run, scope, snaps, i)
        invariant old(replies) == [] && AllDecided(scope, Targeting.Wake, snaps) ==> counts.errors == 0 && replies == []
      {
        assert snaps[i] in snaps;
        assert snaps[i] !in snaps[..i];
        var scaled, skipped, errored := WakeNext(p, run, scope, snaps, i);
        counts := counts.Add(scaled, skipped, errored);
      }
      assert snaps[..|snaps|] == snaps;
      TallyTotal(view.inflight[p].jobs, snaps);
    }

    /** The lookups of filterWakeSnapshots. */
    method LookupAll(scope: Scope, snaps: seq<Key>) returns (live: seq<Targeting.Lookup>)
      modifies this`replies
      ensures |live| == |snaps|
      ensures forall i :: 0 <= i < |snaps| ==>
                live[i].LookupError? || live[i] == LookupOf(scope, snaps[i], snaps[i] in cluster)
      ensures old(replies) == [] ==> replies == [] && forall i :: 0 <= i < |snaps| ==> !live[i].LookupError?
    {
      live := [];
      for i := 0 to |snaps|
        invariant |live| == i
        invariant forall j :: 0 <= j < i ==>
                    live[j].LookupError? || live[j] == LookupOf(scope, snaps[j], snaps[j] in cluster)
        invariant old(replies) == [] ==> replies == [] && forall j :: 0 <= j < i ==> !live[j].LookupError?
      {
        var reply := NextReply();
        live := live + [if reply.Committed? then LookupOf(scope, snaps[i], snaps[i] in cluster) else Targeting.LookupError];
      }
    }

    /** Which rows a wake takes up: those in the policy's namespaces that the filter over them keeps. */
    method ChooseSnapshots(scope: Scope, snaps: seq<Key>, priorities: string) returns (chosen: Option<seq<Key>>)
      requires Sorting.Unique(snaps)
      modifies this`replies
      ensures old(replies) == [] ==> replies == [] && (chosen.None? <==> ChoiceFails(scope, snaps, cluster.Keys))
      ensures scope.first.None? ==> chosen.None?
      ensures chosen.Some? ==> Sorting.Unique(chosen.value)
      ensures chosen.Some? ==> forall k :: k in chosen.value <==> Chosen(scope, snaps, k, k in cluster)
    {
      var inScope := FilterSnapshotsByNamespace(snaps, scope.policy.namespaceFilter);
      var live := LookupAll(scope, inScope);
      if old(replies) == [] && scope.first.Some? && !(scope.first == Some([]) && scope.policy.scope.None?) {
        FailureRight(scope, snaps, inScope, live, cluster.Keys);
      }
      var kept := Targeting.FilterWakeSnapshots(scope.syntax, scope.policy, scope.first, inScope, live);
      if kept.None? {
        return None;
      }
      ChosenRight(scope, snaps, inScope, live, kept.value, cluster.Keys);
      var sorted := WorkPool.SortByPriorityNamespaces(kept.value, priorities, (k: Key) => k.namespace);
      Sorting.PermutedUnique(kept.value, sorted);
      Sorting.SameElements(kept.value, sorted);
      chosen := Some(sorted);
    }

    /** RunPolicyWake: no workload changes whose row is not chosen or that an exception holds back; every
        other chosen one gets its saved count, and when all open rows were read and none was held back
        the policy has no open row left. */
    method RunPolicyWake(p: nat, exec: nat, apply: bool, scope: Scope, read: map<Key, nat>, snaps: seq<Key>, priorities: string)
      returns (counts: Counts, chosen: Option<seq<Key>>)
      requires Valid() && p !in view.inflight && exec !in view.execs && Readable(view, p, Wake, read)
      requires Sorting.Unique(snaps) && forall k :: k in snaps <==> k in read
      modifies this
      ensures Valid()
      ensures !apply || chosen.None? ==> cluster == old(cluster) && rows == old(rows)
      ensures old(replies) == [] ==> (chosen.None? <==> ChoiceFails(scope, snaps, old(cluster).Keys))
      ensures chosen.Some? ==> counts.Total() == |chosen.value|
      ensures chosen.Some? && old(replies) == [] && AllDecided(scope, Targeting.Wake, chosen.value) ==> counts.errors == 0
      ensures chosen.Some? ==> forall k :: k in chosen.value <==> Chosen(scope, snaps, k, k in old(cluster))
      ensures forall k :: chosen.None? || k !in chosen.value || !scope.MayTouch(k, Targeting.Wake) ==>
                Live(view.world, k) == Live(old(view).world, k)
      ensures apply && chosen.Some? && counts.errors == 0 ==>
                forall k :: k in chosen.value && scope.MayTouch(k, Targeting.Wake) && k in cluster && !FoundAtZero(old(rows), read, k) ==>
                  k in read && cluster[k] == old(rows)[read[k]].before
      ensures apply && chosen.Some? && counts.errors == 0 && CoversAllOpen(old(view), p, read.Keys) &&
              (forall k :: k in snaps ==> k in chosen.value && scope.MayTouch(k, Targeting.Wake)) ==>
                WakeDone(view, p) && forall id :: id in rows && rows[id].policy == p ==> !rows[id].Open()
    {
      counts := Counts(0, 0, 0);
      chosen := ChooseSnapshots(scope, snaps, priorities);
      if chosen.None? {
        return;
      }
      assert forall k :: k in chosen.value ==> k in read;
      NarrowedReadable(view, p, read, chosen.value);
      var narrowed := Narrowed(read, chosen.value);
      counts := WakeChosen(p, exec, apply, scope, narrowed, chosen.value);
      assert forall k :: k in chosen.value ==> narrowed[k] == read[k];
    }

    /** The execution itself, for the rows `read` of the chosen workloads. */
    method WakeChosen(p: nat, exec: nat, apply: bool, scope: Scope, read: map<Key, nat>, chosen: seq<Key>) returns (counts: Counts)
      requires Valid() && p !in view.inflight && exec !in view.execs && Readable(view, p, Wake, read)
      requires Sorting.Unique(chosen) && forall k :: k in chosen <==> k in read
      modifies this
      ensures Valid() && counts.Total() == |chosen|
      ensures !apply ==> cluster == old(cluster) && rows == old(rows)
      ensures old(replies) == [] && AllDecided(scope, Targeting.Wake, chosen) ==> counts.errors == 0
      ensures forall k :: k !in chosen || !scope.MayTouch(k, Targeting.Wake) ==> Live(view.world, k) == Live(old(view).world, k)
      ensures apply && counts.errors == 0 ==>
                forall k :: k in chosen && scope.MayTouch(k, Targeting.Wake) && k in cluster && !FoundAtZero(old(rows), read, k) ==>
                  cluster[k] == old(rows)[read[k]].before
      ensures apply && counts.errors == 0 && CoversAllOpen(old(view), p, read.Keys) &&
              (forall k :: k in chosen ==> scope.MayTouch(k, Targeting.Wake)) ==>
                WakeDone(view, p) && forall id :: id in rows && rows[id].policy == p ==> !rows[id].Open()
    {
      var run := BeginRun(p, exec, Wake, apply, read);
      counts := WakeAll(p, run, scope, chosen);
      scope.VerdictsRight(Targeting.Wake);
      if apply && counts.errors == 0 {
        assert forall k :: k in chosen && scope.Verdict(k, Targeting.Wake) != Some(false) ==> Woken(run, k) && Returned(p, k);
        if run.full && forall k :: k in chosen ==> Returned(p, k) {
          FullyWoken(p, run, chosen);
        }
      }
    }

    /** A full wake whose workers all returned without error has closed every row of its policy. */
    lemma FullyWoken(p: nat, run: Run, chosen: seq<Key>)
      requires Valid() && Executing(p, run) && run.full && run.direction.Wake? && run.apply
      requires view.inflight[p].jobs.Keys == run.snapped.Keys && forall k :: k in run.snapped ==> k in chosen
      requires forall k :: k in chosen ==> Returned(p, k)
      ensures WakeDone(view, p) && forall id :: id in rows && rows[id].policy == p ==> !rows[id].Open()
    {
      assert WakeDone(view, p);
      ValidInv();
      forall id | id in rows && rows[id].policy == p
        ensures !rows[id].Open()
      {
        WakeClosesAll(view, p, id);
      }
    }

    method ReconcileOne(p: nat, run: Run, scope: Scope, k: Key) returns (scaled: bool, skipped: bool, errored: bool)
      requires Valid() && Executing(p, run) && run.direction.Enforce?
      requires k !in view.inflight[p].jobs && k in run.snapped
      modifies this
      ensures Valid() && Executing(p, run) && OthersSame(old(view.world), k)
      ensures view.inflight[p].jobs.Keys == old(view.inflight[p].jobs.Keys) + {k}
      ensures scaled || skipped || errored
      ensures !run.apply ==> cluster == old(cluster) && rows == old(rows)
      ensures ResultsKept(old(view), view, p, k, scaled, skipped, errored)
      ensures scope.Verdict(k, Targeting.Sleep) != Some(true) ==> Live(view.world, k) == Live(old(view).world, k)
      ensures old(replies) == [] && scope.Verdict(k, Targeting.Sleep).Some? ==> !errored && replies == []
      ensures run.apply && !errored && scope.Verdict(k, Targeting.Sleep) != Some(false) ==> Down(k)
    {
      SelectWorker(p, run, k);
      ghost var mid := view;
      scaled, skipped, errored := ReconcileSnapshotSleep(p, run, scope, k);
      WorkerResult(old(view), mid, view, p, k, scaled, skipped, errored);
    }

    /** The workload is not to be touched: its namespace is protected or its worker's filter says so. */
    ghost predicate Exempt(scope: Scope, protectedNs: set<string>, k: Key) {
      k.namespace in protectedNs || scope.Verdict(k, Targeting.Sleep) != Some(true)
    }

    /** Down, unless protected or held awake. */
    ghost predicate AllDown(scope: Scope, keys: seq<Key>, protectedNs: set<string>)
      reads this
    {
      forall k :: k in keys && k.namespace !in protectedNs && scope.Verdict(k, Targeting.Sleep) != Some(false) ==> Down(k)
    }

    method ReconcileNext(p: nat, run: Run, scope: Scope, snaps: seq<Key>, i: nat, protectedNs: set<string>)
      returns (scaled: bool, skipped: bool, errored: bool)
      requires Valid() && Executing(p, run) && run.direction.Enforce? && i < |snaps| && snaps[i] in run.snapped
      requires snaps[i] !in snaps[..i] && snaps[i] !in view.inflight[p].jobs
      modifies this
      ensures Valid() && Executing(p, run) && (scaled || skipped || errored)
      ensures forall k :: k in view.inflight[p].jobs ==> k in old(view.inflight[p].jobs) || k == snaps[i]
      ensures !run.apply ==> cluster == old(cluster) && rows == old(rows)
      ensures forall k :: k != snaps[i] || Exempt(scope, protectedNs, k) ==> Live(view.world, k) == Live(old(view).world, k)
      ensures run.apply && !errored && old(AllDown(scope, snaps[..i], protectedNs)) ==> AllDown(scope, snaps[..i + 1], protectedNs)
      ensures TallyStep(old(view), view, p, snaps, i, scaled, skipped, errored)
      ensures old(replies) == [] && scope.Verdict(snaps[i], Targeting.Sleep).Some? ==> !errored && replies == []
    {
      assert snaps[..i + 1] == snaps[..i] + [snaps[i]];
      if snaps[i].namespace in protectedNs {
        StepTally(view, view, p, snaps, i, false, true, false);
        return false, true, false;
      }
      scaled, skipped, errored := ReconcileOne(p, run, scope, snaps[i]);
      StepTally(old(view), view, p, snaps, i, scaled, skipped, errored);
      forall k | k in snaps[..i] && old(AllDown(scope, snaps[..i], protectedNs)) && k.namespace !in protectedNs &&
                 scope.Verdict(k, Targeting.Sleep) != Some(false)
        ensures Down(k)
      {
        assert old(Down(k));
        assert Live(view.world, k) == Live(old(view).world, k);
      }
    }

    method ReconcileAll(p: nat, run: Run, scope: Scope, snaps: seq<Key>, protectedNs: set<string>)
      returns (counts: Counts)
      requires Valid() && Executing(p, run) && run.direction.Enforce? && view.inflight[p].jobs == map[]
      requires Sorting.Unique(snaps) && forall k :: k in snaps ==> k in run.snapped
      modifies this
      ensures Valid() && counts.Total() == |snaps| && p in view.inflight && counts == Tally(view.inflight[p].jobs, snaps)
      ensures !run.apply ==> cluster == old(cluster) && rows == old(rows)
      ensures forall k :: k !in snaps || Exempt(scope, protectedNs, k) ==> Live(view.world, k) == Live(old(view).world, k)
      ensures run.apply && counts.errors == 0 ==> AllDown(scope, snaps, protectedNs)
      ensures old(replies) == [] && AllDecided(scope, Targeting.Sleep, snaps) ==> counts.errors == 0
    {
      counts := Counts(0, 0, 0);
      assert snaps[..0] == [];
      for i := 0 to |snaps|
        invariant Valid() && Executing(p, run) && counts == Tally(view.inflight[p].jobs, snaps[..i])
        invariant forall k :: k in view.inflight[p].jobs ==> k in snaps[..i]
        invariant !run.apply ==> cluster == old(cluster) && rows == old(rows)
        invariant forall k :: k !in snaps[..i] || Exempt(scope, protectedNs, k) ==>
                    Live(view.world, k) == Live(old(view).world, k)
        invariant run.apply && counts.errors == 0 ==> AllDown(scope, snaps[..i], protectedNs)
        invariant old(replies) == [] && AllDecided(scope, Targeting.Sleep, snaps) ==> counts.errors == 0 && replies == []
      {
        assert snaps[..i + 1] == snaps[..i] + [snaps[i]];
        assert snaps[i] !in snaps[..i] && snaps[i] in snaps;
        var scaled, skipped, errored := ReconcileNext(p, run, scope, snaps, i, protectedNs);
        counts := counts.Add(scaled, skipped, errored);
      }
      assert snaps[..|snaps|] == snaps;
      TallyTotal(view.inflight[p].jobs, snaps);
    }

    /** At zero, or gone. */
    ghost predicate Down(k: Key)
      reads this
    {
      Live(view.world, k) == Some(0) || Live(view.world, k) == None
    }

    /** RunPolicySleepReconcile: every workload that the policy put to sleep is back at zero, except those
        in a protected namespace or held awake by an exception, which are untouched. */
    method RunPolicySleepReconcile(p: nat, exec: nat, apply: bool, scope: Scope, read: map<Key, nat>, snaps: seq<Key>,
                                   protectedNs: set<string>)
      returns (counts: Counts)
      requires Valid() && p !in view.inflight && exec !in view.execs && Readable(view, p, Enforce, read)
      requires Sorting.Unique(snaps) && forall k :: k in snaps <==> k in read
      modifies this
      ensures Valid() && counts.Total() == |snaps|
      ensures old(replies) == [] && AllDecided(scope, Targeting.Sleep, snaps) ==> counts.errors == 0
      ensures !apply ==> cluster == old(cluster) && rows == old(rows)
      ensures forall k :: k !in snaps || k.namespace in protectedNs || !scope.MayTouch(k, Targeting.Sleep) ==>
                Live(view.world, k) == Live(old(view).world, k)
      ensures apply && counts.errors == 0 ==>
                forall k :: k in snaps && k.namespace !in protectedNs && scope.MayTouch(k, Targeting.Sleep) && k in cluster ==>
                  cluster[k] == 0
    {
      var run := BeginRun(p, exec, Enforce, apply, read);
      counts := ReconcileAll(p, run, scope, snaps, protectedNs);
      scope.VerdictsRight(Targeting.Sleep);
      assert forall k :: k in cluster ==> Live(view.world, k) == Some(cluster[k]);
    }
  }
}

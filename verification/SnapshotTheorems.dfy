/** The promises of the sleep/wake protocol, for every run of it. */
module SnapshotTheorems {
  import opened Options
  import opened SnapshotProtocol
  import opened SnapshotSafety

  // ---------------------------------------------------------------- no replica count is lost

  /** Workload `k` can be brought back: an open row holds a positive count for it. */
  ghost predicate Recoverable(w: World, k: Key) {
    exists id :: id in w.rows && w.rows[id].Restorable() && w.rows[id].key == k && w.rows[id].before > 0
  }

  lemma InitialInv(s: State)
    requires Initial(s)
    ensures Inv(s)
  {
  }

  /** Whatever fails, crashes or interleaves: a workload that we scaled to zero and nobody scaled
      since has an open row with a positive count, and is at zero. */
  lemma NoBaselineLost(s: State, steps: seq<Step>)
    requires Initial(s) && Legal(s, steps)
    ensures forall k :: k in After(s, steps).world.zeroed ==>
              Recoverable(After(s, steps).world, k) && Live(After(s, steps).world, k) == Some(0)
  {
    InitialInv(s);
    RunKeeps(s, steps);
    var t := After(s, steps);
    forall k | k in t.world.zeroed
      ensures Recoverable(t.world, k)
    {
      var id := t.world.zeroed[k];
      assert id in t.world.rows;
    }
  }

  /** The history variable records exactly our scalings to zero: a workload enters it with every landed
      `Zero` call of its own worker and with nothing else, and leaves it with every other landed write of
      its replica count and with nothing else. */
  lemma ZeroedIsLastWrite(s: State, step: Step, k: Key)
    requires Enabled(s, step)
    ensures Scales(s, step, k, true) && k in s.world.cluster ==> k in Next(s, step).world.zeroed
    ensures Inv(s) && Scales(s, step, k, false) ==> k !in Next(s, step).world.zeroed
    ensures k in Next(s, step).world.zeroed && k !in s.world.zeroed ==> Scales(s, step, k, true)
    ensures k in s.world.zeroed && k !in Next(s, step).world.zeroed ==> Scales(s, step, k, false)
    ensures Live(s.world, k) != Live(Next(s, step).world, k) ==>
              Scales(s, step, k, true) || Scales(s, step, k, false)
    ensures Scales(s, step, k, true) ==> Live(Next(s, step).world, k) == Some(0) || k !in s.world.cluster
  {
    if Inv(s) && k !in s.world.cluster {
      assert k !in s.world.zeroed;
    }
    if step.Call? {
      CallScales(s, step, k);
    }
  }

  /** The step writes the replica count of `k`: our scaling to zero, or any other write. */
  ghost predicate Scales(s: State, step: Step, k: Key, toZero: bool)
    requires Enabled(s, step)
  {
    if toZero
    then step.Call? && step.key == k && !step.reply.Failed? && s.inflight[step.policy].jobs[k].Zero?
    else (step.Outside? && step.key == k) ||
         (step.Call? && step.key == k && !step.reply.Failed? && s.inflight[step.policy].jobs[k].Restore?)
  }

  lemma CallScales(s: State, step: Step, k: Key)
    requires Enabled(s, step) && step.Call?
    ensures Scales(s, step, k, true) && k in s.world.cluster ==> k in Next(s, step).world.zeroed
    ensures Scales(s, step, k, false) && (k in s.world.zeroed ==> k in s.world.cluster) ==> k !in Next(s, step).world.zeroed
    ensures k in Next(s, step).world.zeroed && k !in s.world.zeroed ==> Scales(s, step, k, true)
    ensures k in s.world.zeroed && k !in Next(s, step).world.zeroed ==> Scales(s, step, k, false)
    ensures Live(s.world, k) != Live(Next(s, step).world, k) ==>
              Scales(s, step, k, true) || Scales(s, step, k, false)
    ensures Scales(s, step, k, true) ==> Live(Next(s, step).world, k) == Some(0) || k !in s.world.cluster
  {
  }

  // ---------------------------------------------------------------- one baseline, never rewritten

  /** The workload a step may touch in the snapshot table. */
  ghost predicate ClosesIn(s: State, step: Step, id: nat)
    requires Enabled(s, step) && id in s.world.rows
  {
    var row := s.world.rows[id];
    step.Call? && step.policy == row.policy && step.key == row.key && !step.reply.Failed? &&
    (s.inflight[step.policy].direction.Wake? || s.inflight[step.policy].direction.Emergency?) &&
    (s.inflight[step.policy].jobs[step.key].Close? || s.inflight[step.policy].jobs[step.key].MarkGone?)
  }

  /** An open row keeps its workload and count through every step; it stays open unless a wake or
      an emergency run of its own policy closes it. */
  lemma StepKeepsBaselines(s: State, step: Step, id: nat)
    requires Inv(s) && Enabled(s, step)
    requires id in s.world.rows && s.world.rows[id].Open()
    ensures id in Next(s, step).world.rows
    ensures Next(s, step).world.rows[id].SameBaseline(s.world.rows[id])
    ensures !Next(s, step).world.rows[id].Open() ==> ClosesIn(s, step, id)
  {
    if step.Call? {
      var p, k := step.policy, step.key;
      var run := s.inflight[p];
      assert RunOk(s.world.rows, s.world.zeroed, p, run);
      CallOk(s.world, p, run, k, run.jobs[k], step.reply, step.held);
    }
  }

  /** A row never reopens: once a workload has been restored, that count is not restored again. */
  lemma ClosedStaysClosed(s: State, step: Step, id: nat)
    requires Inv(s) && Enabled(s, step)
    requires id in s.world.rows && !s.world.rows[id].Open()
    ensures id in Next(s, step).world.rows ==> !Next(s, step).world.rows[id].Open()
  {
    if step.Call? {
      var p, k := step.policy, step.key;
      var run := s.inflight[p];
      assert RunOk(s.world.rows, s.world.zeroed, p, run);
      assert JobOk(s.world.rows, s.world.zeroed, p, run, k, run.jobs[k]);
    }
  }

  /** At every reachable state a policy has at most one open row for a workload. */
  lemma OneOpenRow(s: State, steps: seq<Step>, i: nat, j: nat)
    requires Initial(s) && Legal(s, steps)
    requires i in After(s, steps).world.rows && j in After(s, steps).world.rows
    requires After(s, steps).world.rows[i].Open() && After(s, steps).world.rows[j].Open()
    requires After(s, steps).world.rows[i].policy == After(s, steps).world.rows[j].policy
    requires After(s, steps).world.rows[i].key == After(s, steps).world.rows[j].key
    ensures i == j
  {
    InitialInv(s);
    RunKeeps(s, steps);
  }

  /** A plan-mode run reads and reports; it writes neither cluster nor table. */
  lemma PlanWritesNothing(s: State, step: Step)
    requires Inv(s) && Enabled(s, step)
    requires step.Select? || step.Call? || step.Abort?
    requires !s.inflight[step.policy].apply
    ensures Next(s, step).world == s.world
  {
  }

  // ---------------------------------------------------------------- what can happen at any time

  /** The process may die at every moment, anybody may scale, create or delete any workload, and a call that is
      due may get any answer; what dies with the process is its executions, and nothing else. */
  lemma AnythingCanHappen(s: State, k: Key, n: nat)
    ensures Enabled(s, Crash) && Next(s, Crash) == s.(inflight := map[])
    ensures Enabled(s, Outside(k, Some(n))) && Live(Next(s, Outside(k, Some(n))).world, k) == Some(n)
    ensures Enabled(s, Outside(k, None)) && Live(Next(s, Outside(k, None)).world, k) == None
    ensures forall gone: Option<nat> :: Next(s, Outside(k, gone)).world.rows == s.world.rows &&
              forall k' :: k' != k ==> Live(Next(s, Outside(k, gone)).world, k') == Live(s.world, k')
    ensures forall p, reply, held :: p in s.inflight && k in s.inflight[p].jobs && !s.inflight[p].jobs[k].Finished? ==>
              Enabled(s, Call(p, k, reply, held))
    ensures forall p :: p in s.inflight && k in s.inflight[p].jobs && !s.inflight[p].jobs[k].Finished? ==> Enabled(s, Abort(p, k))
  {
  }

  /** With no execution in flight the running ones can be declared ended, and one that has ended and has no
      unfinished row can be forgotten, with exactly its rows. */
  lemma ExecutionsEnd(s: State, e: nat)
    requires s.inflight == map[] && e in s.execs
    ensures Enabled(s, Recover) && Next(s, Recover).world == s.world && Next(s, Recover).execs.Keys == s.execs.Keys
    ensures Next(s, Recover).execs[e] == Ended
    ensures Enabled(s, Retain(e)) <==>
              s.execs[e] == Ended && forall id :: id in s.world.rows && s.world.rows[id].sleepExec == e ==> s.world.rows[id].wakeExec.Some?
    ensures Enabled(s, Retain(e)) ==>
              var t := Next(s, Retain(e));
              && t.world.cluster == s.world.cluster && e !in t.execs
              && forall id :: id in t.world.rows <==> id in s.world.rows && s.world.rows[id].sleepExec != e
  {
  }

  // ---------------------------------------------------------------- what a phase says

  /** A row begins as an intent: prepared, for the count that the worker had seen. */
  lemma NewRowPrepared(s: State, step: Step, id: nat)
    requires Enabled(s, step) && id !in s.world.rows && id in Next(s, step).world.rows
    ensures step.Call? && s.inflight[step.policy].jobs[step.key].Create? && !step.reply.Failed?
    ensures var n := s.inflight[step.policy].jobs[step.key].replicas;
            Next(s, step).world.rows[id] ==
            Row(step.policy, s.inflight[step.policy].exec, step.key, n, n == 0, Prepared, None, None, false, false)
  {
  }

  /** An open row becomes applied by a landed mark of a worker for it, and by every such mark. */
  lemma AppliedByMark(s: State, step: Step, id: nat)
    requires Inv(s) && Enabled(s, step) && id in s.world.rows && s.world.rows[id].Open()
    ensures step.Call? && !step.reply.Failed? && s.inflight[step.policy].jobs[step.key] == MarkDone(id) ==>
              Next(s, step).world.rows == s.world.rows[id := s.world.rows[id].(phase := Applied)]
    ensures id in Next(s, step).world.rows && Next(s, step).world.rows[id].phase.Applied? && !s.world.rows[id].phase.Applied? ==>
              step.Call? && !step.reply.Failed? && s.inflight[step.policy].jobs[step.key] == MarkDone(id)
  {
    if step.Call? {
      var run := s.inflight[step.policy];
      assert RunOk(s.world.rows, s.world.zeroed, step.policy, run);
      assert JobOk(s.world.rows, s.world.zeroed, step.policy, run, step.key, run.jobs[step.key]);
    }
  }

  /** At some moment of the run the workload is at zero. */
  ghost predicate EverZero(s: State, steps: seq<Step>, k: Key)
    requires Legal(s, steps)
    decreases |steps|
  {
    Live(s.world, k) == Some(0) || (steps != [] && EverZero(Next(s, steps[0]), steps[1..], k))
  }

  /** Unless the workload has been at zero, no worker is about to mark a row of it and no new row of it is
      applied. */
  ghost predicate MarksFollow(s: State, k: Key, base: nat, seen: bool) {
    !seen ==>
      && (forall p :: p in s.inflight && k in s.inflight[p].jobs ==> !s.inflight[p].jobs[k].MarkDone?)
      && (forall id :: id in s.world.rows && id >= base && s.world.rows[id].key == k ==> !s.world.rows[id].phase.Applied?)
  }

  ghost predicate NoneApplied(rows: Table, k: Key, base: nat) {
    forall id :: id in rows && id >= base && rows[id].key == k ==> !rows[id].phase.Applied?
  }

  /** A call of the worker for `k`, which leaves the workload elsewhere than at zero. */
  lemma OwnCallMarks(w: World, p: nat, run: Run, k: Key, job: Job, reply: Reply, held: bool, base: nat)
    requires JobOk(w.rows, w.zeroed, p, run, k, job) && !job.Finished? && !job.MarkDone? && NoneApplied(w.rows, k, base)
    requires Live(Do(w, p, run, k, job, reply, held).world, k) != Some(0)
    ensures NoneApplied(Do(w, p, run, k, job, reply, held).world.rows, k, base)
    ensures !Do(w, p, run, k, job, reply, held).job.MarkDone?
  {
  }

  lemma OtherCallMarks(w: World, p: nat, run: Run, k: Key, k': Key, job: Job, reply: Reply, held: bool, base: nat)
    requires WorldOk(w) && JobOk(w.rows, w.zeroed, p, run, k', job) && !job.Finished? && NoneApplied(w.rows, k, base) && k' != k
    ensures NoneApplied(Do(w, p, run, k', job, reply, held).world.rows, k, base)
  {
    CallOk(w, p, run, k', job, reply, held);
  }

  lemma CallMarksFollow(s: State, step: Step, k: Key, base: nat)
    requires Inv(s) && step.Call? && Enabled(s, step) && MarksFollow(s, k, base, false) && Live(Next(s, step).world, k) != Some(0)
    ensures MarksFollow(Next(s, step), k, base, false)
  {
    var p, k' := step.policy, step.key;
    var run := s.inflight[p];
    assert RunOk(s.world.rows, s.world.zeroed, p, run);
    if k' == k {
      OwnCallMarks(s.world, p, run, k, run.jobs[k], step.reply, step.held, base);
    } else {
      OtherCallMarks(s.world, p, run, k, k', run.jobs[k'], step.reply, step.held, base);
    }
    var effect := Do(s.world, p, run, k', run.jobs[k'], step.reply, step.held);
    assert Next(s, step) == SetJob(s, effect.world, p, k', effect.job);
  }

  lemma StepMarksFollow(s: State, step: Step, k: Key, base: nat)
    requires Inv(s) && Enabled(s, step) && MarksFollow(s, k, base, false) && Live(Next(s, step).world, k) != Some(0)
    ensures MarksFollow(Next(s, step), k, base, false)
  {
    if step.Call? {
      CallMarksFollow(s, step, k, base);
    }
  }

  lemma {:induction false} RunMarksFollow(s: State, steps: seq<Step>, k: Key, base: nat)
    requires Inv(s) && Legal(s, steps) && MarksFollow(s, k, base, false) && !EverZero(s, steps, k)
    ensures MarksFollow(After(s, steps), k, base, false)
    decreases |steps|
  {
    if steps != [] {
      StepKeeps(s, steps[0]);
      assert !EverZero(Next(s, steps[0]), steps[1..], k);
      StepMarksFollow(s, steps[0], k, base);
      RunMarksFollow(Next(s, steps[0]), steps[1..], k, base);
    }
  }

  /** A row that says that a sleep was applied tells the truth: its workload has been at zero since the run
      began. */
  lemma AppliedMeansZero(s: State, steps: seq<Step>, id: nat)
    requires Initial(s) && Legal(s, steps)
    requires id in After(s, steps).world.rows && id !in s.world.rows && id >= s.world.nextRow
    requires After(s, steps).world.rows[id].phase.Applied?
    ensures EverZero(s, steps, After(s, steps).world.rows[id].key)
  {
    var k := After(s, steps).world.rows[id].key;
    InitialInv(s);
    if !EverZero(s, steps, k) {
      RunMarksFollow(s, steps, k, s.world.nextRow);
    }
  }

  // ---------------------------------------------------------------- a full wake restores the cluster

  /** Nobody else writes the replica count of `k`, and no emergency scale takes it up (which restores to
      one replica on purpose).  Any policies may select it, in any order and at the same time. */
  predicate Quiet(k: Key, step: Step) {
    match step
    case Begin(_, _, direction, _, read) => direction.Emergency? ==> k !in read
    case Outside(k', _) => k' != k
    case _ => true
  }

  ghost predicate AllQuiet(k: Key, steps: seq<Step>) {
    forall i :: 0 <= i < |steps| ==> Quiet(k, steps[i])
  }

  /** Relative to the original count `n0` of `k`: an open row of any policy holds that count, or records
      that it found the workload at zero; and unless our last write put it to zero it is as it was. */
  ghost predicate WorldCalm(w: World, k: Key, n0: Option<nat>) {
    && (forall id :: id in w.rows && w.rows[id].Open() && w.rows[id].key == k ==>
          w.rows[id].alreadyZero || n0 == Some(w.rows[id].before))
    && (k !in w.zeroed ==> Live(w, k) == n0)
    && (k in w.zeroed ==> n0.Some?)
  }

  predicate JobCalm(n0: Option<nat>, job: Job) {
    job.Create? ==> job.replicas == 0 || n0 == Some(job.replicas)
  }

  ghost predicate Calm(s: State, k: Key, n0: Option<nat>) {
    && WorldCalm(s.world, k, n0)
    && (forall p :: p in s.inflight && s.inflight[p].direction.Emergency? ==> k !in s.inflight[p].snapped && k !in s.inflight[p].jobs)
    && (forall p :: p in s.inflight && k in s.inflight[p].jobs ==> JobCalm(n0, s.inflight[p].jobs[k]))
  }

  /** Replacing open rows only by rows with the same baseline, or adding one with the original count or
      zero, keeps the table calm. */
  lemma TableCalm(w: World, rows: Table, k: Key, n0: Option<nat>)
    requires WorldCalm(w, k, n0)
    requires forall id :: id in rows && rows[id].Open() && rows[id].key == k ==>
               (id in w.rows && w.rows[id].Open() && rows[id].SameBaseline(w.rows[id])) ||
               rows[id].alreadyZero || n0 == Some(rows[id].before)
    ensures forall n :: WorldCalm(w.(rows := rows, nextRow := n), k, n0)
  {
  }

  /** A call that writes no row and no replica count. */
  lemma LookCalm(w: World, p: nat, run: Run, k: Key, job: Job, reply: Reply, held: bool)
    requires job.Look?
    ensures Do(w, p, run, k, job, reply, held).world == w && !Do(w, p, run, k, job, reply, held).job.Create?
  {
  }

  /** A call that writes replica counts only: to zero, or back to the count of its open row. */
  lemma ScaleCalm(w: World, n0: Option<nat>, p: nat, run: Run, k: Key, job: Job, reply: Reply, held: bool)
    requires WorldCalm(w, k, n0) && ZeroedOk(w) && (job.Zero? || job.Restore?)
    requires JobOk(w.rows, w.zeroed, p, run, k, job) && !run.direction.Emergency?
    ensures WorldCalm(Do(w, p, run, k, job, reply, held).world, k, n0)
    ensures !Do(w, p, run, k, job, reply, held).job.Create?
  {
  }

  /** A call that writes the table only. */
  lemma RowCalm(w: World, n0: Option<nat>, p: nat, run: Run, k: Key, job: Job, reply: Reply, held: bool)
    requires WorldCalm(w, k, n0) && JobCalm(n0, job)
    requires !job.Look? && !job.Zero? && !job.Restore? && !job.Finished?
    requires JobOk(w.rows, w.zeroed, p, run, k, job)
    ensures WorldCalm(Do(w, p, run, k, job, reply, held).world, k, n0)
    ensures !Do(w, p, run, k, job, reply, held).job.Create?
  {
    TableCalm(w, Do(w, p, run, k, job, reply, held).world.rows, k, n0);
  }

  lemma CallCalm(w: World, n0: Option<nat>, p: nat, run: Run, k: Key, job: Job, reply: Reply, held: bool)
    requires WorldCalm(w, k, n0) && ZeroedOk(w) && JobCalm(n0, job) && !job.Finished?
    requires JobOk(w.rows, w.zeroed, p, run, k, job) && !run.direction.Emergency?
    ensures WorldCalm(Do(w, p, run, k, job, reply, held).world, k, n0)
    ensures JobCalm(n0, Do(w, p, run, k, job, reply, held).job)
  {
    if job.Look? {
      LookCalm(w, p, run, k, job, reply, held);
    } else if job.Zero? || job.Restore? {
      ScaleCalm(w, n0, p, run, k, job, reply, held);
    } else {
      RowCalm(w, n0, p, run, k, job, reply, held);
    }
  }

  /** A call of the worker of another workload. */
  lemma OtherCallCalm(w: World, k: Key, n0: Option<nat>, p: nat, run: Run, k': Key, job: Job, reply: Reply, held: bool)
    requires WorldCalm(w, k, n0) && k' != k && !job.Finished? && JobOk(w.rows, w.zeroed, p, run, k', job)
    ensures WorldCalm(Do(w, p, run, k', job, reply, held).world, k, n0)
  {
  }

  lemma SelectCalm(s: State, k: Key, n0: Option<nat>, step: Step)
    requires Inv(s) && Calm(s, k, n0) && step.Select? && Enabled(s, step)
    ensures Calm(Next(s, step), k, n0)
  {
    var p, k' := step.policy, step.key;
    var live := Live(s.world, k');
    var job := FirstJob(s.inflight[p], k', if live.Some? then live.value else 0);
    SetJobCalm(s, k, n0, s.world, p, k', job);
  }

  lemma WorkerCalm(s: State, k: Key, n0: Option<nat>, step: Step)
    requires Inv(s) && Calm(s, k, n0)
    requires (step.Call? || step.Abort?) && Enabled(s, step)
    ensures Calm(Next(s, step), k, n0)
  {
    var p, k' := step.policy, step.key;
    var run := s.inflight[p];
    assert RunOk(s.world.rows, s.world.zeroed, p, run);
    if step.Abort? {
      SetJobCalm(s, k, n0, s.world, p, k', Finished(Errored));
    } else {
      var effect := Do(s.world, p, run, k', run.jobs[k'], step.reply, step.held);
      if k' == k {
        CallCalm(s.world, n0, p, run, k, run.jobs[k], step.reply, step.held);
      } else {
        OtherCallCalm(s.world, k, n0, p, run, k', run.jobs[k'], step.reply, step.held);
      }
      SetJobCalm(s, k, n0, effect.world, p, k', effect.job);
    }
  }

  lemma SetJobCalm(s: State, k: Key, n0: Option<nat>, w: World, p: nat, k': Key, job: Job)
    requires Calm(s, k, n0) && p in s.inflight && WorldCalm(w, k, n0) && (k' == k ==> JobCalm(n0, job))
    requires k' == k ==> !s.inflight[p].direction.Emergency?
    ensures Calm(SetJob(s, w, p, k', job), k, n0)
  {
  }

  lemma RetainCalm(s: State, k: Key, n0: Option<nat>, step: Step)
    requires Calm(s, k, n0) && step.Retain? && Enabled(s, step)
    ensures Calm(Next(s, step), k, n0)
  {
    TableCalm(s.world, Next(s, step).world.rows, k, n0);
  }

  /** A step that makes no call: runs are as they were, new without workers, or gone. */
  lemma BookkeepingCalm(s: State, r: State, k: Key, n0: Option<nat>)
    requires Calm(s, k, n0) && WorldCalm(r.world, k, n0)
    requires forall p :: p in r.inflight ==>
               (p in s.inflight && r.inflight[p] == s.inflight[p]) ||
               (r.inflight[p].jobs == map[] && (r.inflight[p].direction.Emergency? ==> k !in r.inflight[p].snapped))
    ensures Calm(r, k, n0)
  {
  }

  lemma StepCalm(s: State, k: Key, n0: Option<nat>, step: Step)
    requires Inv(s) && Calm(s, k, n0) && Enabled(s, step) && Quiet(k, step)
    ensures Calm(Next(s, step), k, n0)
  {
    match step
    case Select(_, _) => SelectCalm(s, k, n0, step);
    case Call(_, _, _, _) => WorkerCalm(s, k, n0, step);
    case Abort(_, _) => WorkerCalm(s, k, n0, step);
    case Retain(_) => RetainCalm(s, k, n0, step);
    case Begin(_, _, _, _, _) => BookkeepingCalm(s, Next(s, step), k, n0);
    case End(_, _) => BookkeepingCalm(s, Next(s, step), k, n0);
    case Crash => BookkeepingCalm(s, Next(s, step), k, n0);
    case Recover => BookkeepingCalm(s, Next(s, step), k, n0);
    case Outside(_, _) => BookkeepingCalm(s, Next(s, step), k, n0);
  }

  lemma {:induction false} RunCalm(s: State, k: Key, n0: Option<nat>, steps: seq<Step>)
    requires Inv(s) && Calm(s, k, n0) && Legal(s, steps) && AllQuiet(k, steps)
    ensures Inv(After(s, steps)) && Calm(After(s, steps), k, n0)
    decreases |steps|
  {
    if steps != [] {
      assert Quiet(k, steps[0]);
      StepKeeps(s, steps[0]);
      StepCalm(s, k, n0, steps[0]);
      assert forall i :: 0 <= i < |steps[1..]| ==> steps[1..][i] == steps[i + 1];
      RunCalm(Next(s, steps[0]), k, n0, steps[1..]);
    }
  }

  /** Policy `p` has a full wake in flight whose workers have all returned, none with an error and
      none held back by an exception. */
  ghost predicate WakeDone(s: State, p: nat) {
    && p in s.inflight && s.inflight[p].direction.Wake? && s.inflight[p].apply && s.inflight[p].full
    && s.inflight[p].jobs.Keys == s.inflight[p].snapped.Keys
    && forall k :: k in s.inflight[p].jobs ==>
         s.inflight[p].jobs[k] == Finished(Scaled) || s.inflight[p].jobs[k] == Finished(Skipped)
  }

  /** A finished, error-free full wake leaves its policy no open row. */
  lemma WakeClosesAll(s: State, p: nat, id: nat)
    requires Inv(s) && WakeDone(s, p)
    requires id in s.world.rows && s.world.rows[id].policy == p
    ensures !s.world.rows[id].Open()
  {
    assert RunOk(s.world.rows, s.world.zeroed, p, s.inflight[p]);
  }

  /** Some policy other than those in `except` still has to bring `k` back. */
  ghost predicate Owing(w: World, k: Key, except: set<nat>) {
    exists id :: id in w.rows && w.rows[id].Restorable() && w.rows[id].key == k && w.rows[id].policy !in except
  }

  /** At every moment of a run in which nobody else writes the workload, however many policies sleep and
      wake it at once and whatever fails, crashes or is repeated: it has its original count, or it is at
      zero and some open row holds that very count. */
  lemma AwayOnlyAtZero(s: State, steps: seq<Step>, k: Key)
    requires Initial(s) && Legal(s, steps) && AllQuiet(k, steps)
    ensures var w := After(s, steps).world;
            Live(w, k) == Live(s.world, k) ||
            (Live(w, k) == Some(0) &&
             exists id :: id in w.rows && w.rows[id].Restorable() && w.rows[id].key == k && Live(s.world, k) == Some(w.rows[id].before))
  {
    InitialInv(s);
    assert Calm(s, k, Live(s.world, k));
    RunCalm(s, k, Live(s.world, k), steps);
    var w := After(s, steps).world;
    if k in w.zeroed {
      assert w.zeroed[k] in w.rows;
    }
  }

  /** When no open row holds a count for it any more, the workload is as it was. */
  lemma NothingOwed(s: State, steps: seq<Step>, k: Key)
    requires Initial(s) && Legal(s, steps) && AllQuiet(k, steps)
    requires !Owing(After(s, steps).world, k, {})
    ensures Live(After(s, steps).world, k) == Live(s.world, k)
  {
    AwayOnlyAtZero(s, steps, k);
  }

  /** After any number of failed, crashed or repeated sleeps, wakes and enforce-sleeps of any policies,
      one error-free full wake of `p` brings every workload that no other policy still has to bring back
      to its original count: slept ones to the count they had, those at zero to zero, and those never
      selected never left it. */
  lemma FullWakeRestores(s: State, steps: seq<Step>, p: nat, k: Key)
    requires Initial(s) && Legal(s, steps) && AllQuiet(k, steps)
    requires WakeDone(After(s, steps), p) && !Owing(After(s, steps).world, k, {p})
    ensures Live(After(s, steps).world, k) == Live(s.world, k)
    ensures !exists id :: id in After(s, steps).world.rows && After(s, steps).world.rows[id].Open() &&
                          After(s, steps).world.rows[id].policy == p
  {
    InitialInv(s);
    RunKeeps(s, steps);
    var t := After(s, steps);
    forall id | id in t.world.rows && t.world.rows[id].policy == p
      ensures !t.world.rows[id].Open()
    {
      WakeClosesAll(t, p, id);
    }
    NothingOwed(s, steps, k);
  }

  lemma ReachableInv(s: State)
    requires Reachable(s)
    ensures Inv(s)
  {
    var start, steps :| Initial(start) && Legal(start, steps) && After(start, steps) == s;
    InitialInv(start);
    RunKeeps(start, steps);
  }
}

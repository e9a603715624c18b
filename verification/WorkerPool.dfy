/** The bounded pool of workers that a run uses, wave after wave.  Each item takes a slot of the semaphore,
    begins, tells what became of it, frees its slot and leaves the wait group; these are separate steps. */
module WorkerPool {
  import opened Counting
  import opened Options
  import opened Text
  import Sorting
  import WorkPool

  /** What a worker reports; it reports nothing when the run was cancelled before it began. */
  datatype Report = Report(scaled: bool, skipped: bool, errored: bool) | Panicked | Dropped

  function Counted(counts: Counts, r: Report): Counts {
    match r
    case Report(scaled, skipped, errored) => counts.Add(scaled, skipped, errored)
    case Panicked => counts.Add(false, false, true)
    case Dropped => counts
  }

  /** The worker says what became of its item. */
  predicate Tells(r: Report) {
    r.Panicked? || (r.Report? && (r.scaled || r.skipped || r.errored))
  }

  datatype Stage = Holding | Working | Told | Freed | Left

  datatype Item = Item(stage: Stage, report: Option<Report>)

  /** `total` items in waves of `wave`, at most `limit` slots; `items` are those taken up so far. */
  datatype Pool = Pool(
    total: nat,
    wave: nat,
    limit: nat,
    current: nat,                    // the current wave
    waveStart: nat,                  // its first item
    items: seq<Item>,
    counts: Counts,
    cancelled: bool,
    stopped: bool)                   // no further item is taken up

  datatype Step =
    | Acquire
    | Begin(item: nat)
    | Drop(item: nat)                // it finds the run cancelled
    | Tell(item: nat, report: Report)
    | Free(item: nat)
    | Leave(item: nat)
    | NextWave                       // the wait group is empty
    | Cancel
    | Stop

  function Sum(items: seq<Item>, weight: Item -> nat): nat {
    if items == [] then 0 else Sum(items[..|items| - 1], weight) + weight(items[|items| - 1])
  }

  /** It has a slot of the semaphore. */
  function Slot(item: Item): nat {
    if item.stage.Holding? || item.stage.Working? || item.stage.Told? then 1 else 0
  }

  function IsWorking(item: Item): nat { if item.stage.Working? then 1 else 0 }

  /** An error counts as an error only, a change as a change, and a skip when it is neither. */
  predicate IsError(r: Report) { r.Panicked? || (r.Report? && r.errored) }

  function Erred(item: Item): nat { if item.report.Some? && IsError(item.report.value) then 1 else 0 }

  function Changed(item: Item): nat {
    if item.report.Some? && item.report.value.Report? && item.report.value.scaled && !item.report.value.errored then 1 else 0
  }

  function Passed(item: Item): nat {
    if item.report.Some? && item.report.value.Report? && item.report.value.skipped && !item.report.value.scaled &&
       !item.report.value.errored then 1 else 0
  }

  function HasTold(item: Item): nat { if item.report.Some? && Tells(item.report.value) then 1 else 0 }

  predicate AllLeft(items: seq<Item>) { forall i :: 0 <= i < |items| ==> items[i].stage.Left? }

  predicate LeftBefore(items: seq<Item>, n: nat) { forall i :: 0 <= i < n && i < |items| ==> items[i].stage.Left? }

  predicate At(s: Pool, i: nat, stage: Stage) { i < |s.items| && s.items[i].stage == stage }

  predicate Enabled(s: Pool, step: Step) {
    match step
    case Acquire => !s.stopped && |s.items| < s.total && |s.items| < s.waveStart + s.wave && Sum(s.items, Slot) < s.limit
    case Begin(i) => At(s, i, Holding) && !s.cancelled
    case Drop(i) => At(s, i, Holding) && s.cancelled
    case Tell(i, report) => At(s, i, Working) && !report.Dropped?
    case Free(i) => At(s, i, Told)
    case Leave(i) => At(s, i, Freed)
    case NextWave => !s.stopped && !s.cancelled && |s.items| < s.total && |s.items| == s.waveStart + s.wave && AllLeft(s.items)
    case Cancel => !s.cancelled
    case Stop => s.cancelled && !s.stopped
  }

  function Put(s: Pool, i: nat, item: Item): Pool
    requires i < |s.items|
  {
    s.(items := s.items[i := item])
  }

  function Next(s: Pool, step: Step): Pool
    requires Enabled(s, step)
  {
    match step
    case Acquire => s.(items := s.items + [Item(Holding, None)])
    case Begin(i) => Put(s, i, Item(Working, None))
    case Drop(i) => Put(s, i, Item(Told, Some(Dropped)))
    case Tell(i, report) => Put(s, i, Item(Told, Some(report))).(counts := Counted(s.counts, report))
    case Free(i) => Put(s, i, s.items[i].(stage := Freed))
    case Leave(i) => Put(s, i, s.items[i].(stage := Left))
    case NextWave => s.(current := s.current + 1, waveStart := |s.items|)
    case Cancel => s.(cancelled := true)
    case Stop => s.(stopped := true)
  }

  ghost predicate Legal(s: Pool, steps: seq<Step>)
    decreases |steps|
  {
    steps == [] || (Enabled(s, steps[0]) && Legal(Next(s, steps[0]), steps[1..]))
  }

  ghost function After(s: Pool, steps: seq<Step>): Pool
    requires Legal(s, steps)
    decreases |steps|
  {
    if steps == [] then s else After(Next(s, steps[0]), steps[1..])
  }

  function Fresh(total: nat, wave: nat, limit: nat): Pool {
    Pool(total, wave, limit, 0, 0, [], Counts(0, 0, 0), false, false)
  }

  /** Everything taken up has left, and nothing more will be. */
  predicate Over(s: Pool) {
    AllLeft(s.items) && (|s.items| == s.total || s.stopped)
  }

  // ---------------------------------------------------------------- sums

  lemma {:induction false} SumPut(items: seq<Item>, weight: Item -> nat, i: nat, item: Item)
    requires i < |items|
    ensures Sum(items[i := item], weight) + weight(items[i]) == Sum(items, weight) + weight(item)
  {
    var n := |items| - 1;
    if i == n {
      assert items[i := item][..n] == items[..n];
    } else {
      assert items[i := item][..n] == items[..n][i := item];
      SumPut(items[..n], weight, i, item);
    }
  }

  lemma SumGrows(items: seq<Item>, weight: Item -> nat, item: Item)
    ensures Sum(items + [item], weight) == Sum(items, weight) + weight(item)
  {
    assert (items + [item])[..|items|] == items;
  }

  lemma {:induction false} SumMonotone(items: seq<Item>, a: Item -> nat, b: Item -> nat)
    requires forall item :: a(item) <= b(item)
    ensures Sum(items, a) <= Sum(items, b)
  {
    if items != [] {
      SumMonotone(items[..|items| - 1], a, b);
    }
  }

  function WorkersOf(items: seq<Item>): set<nat> {
    set i: nat | i < |items| && items[i].stage.Working?
  }

  lemma {:induction false} WorkersCounted(items: seq<Item>)
    ensures |WorkersOf(items)| == Sum(items, IsWorking)
  {
    if items != [] {
      var n := |items| - 1;
      WorkersCounted(items[..n]);
      assert WorkersOf(items) == WorkersOf(items[..n]) + (if items[n].stage.Working? then {n} else {});
    }
  }

  /** The sum of zeros and ones is the number of items exactly if all are ones. */
  lemma {:induction false} AllOnes(items: seq<Item>, weight: Item -> nat)
    requires forall item :: weight(item) <= 1
    ensures Sum(items, weight) <= |items|
    ensures Sum(items, weight) == |items| <==> forall i :: 0 <= i < |items| ==> weight(items[i]) == 1
  {
    if items != [] {
      var n := |items| - 1;
      AllOnes(items[..n], weight);
      assert forall i :: 0 <= i < n ==> items[..n][i] == items[i];
    }
  }

  // ---------------------------------------------------------------- what every step keeps

  /** The first item of a wave. */
  function StartOf(w: nat, wave: nat): nat { if w == 0 then 0 else StartOf(w - 1, wave) + wave }

  lemma {:induction false} StartIsProduct(w: nat, wave: nat)
    ensures StartOf(w, wave) == w * wave
  {
    if w > 0 {
      StartIsProduct(w - 1, wave);
      assert w * wave == (w - 1) * wave + wave;
    }
  }

  ghost predicate Inv(s: Pool) {
    && s.waveStart <= |s.items| <= s.total && |s.items| <= s.waveStart + s.wave
    && LeftBefore(s.items, s.waveStart) && s.waveStart == StartOf(s.current, s.wave)
    && Sum(s.items, Slot) <= s.limit
    && (forall i :: 0 <= i < |s.items| ==> (s.items[i].report.Some? <==> !s.items[i].stage.Holding? && !s.items[i].stage.Working?))
    && CountsAre(s.counts, s.items)
    && (forall i :: 0 <= i < |s.items| && s.items[i].report == Some(Dropped) ==> s.cancelled)
  }

  ghost predicate CountsAre(counts: Counts, items: seq<Item>) {
    counts.errors == Sum(items, Erred) && counts.scaled == Sum(items, Changed) && counts.skipped == Sum(items, Passed)
  }

  /** The three counts together count those who said something. */
  lemma {:induction false} TotalIsTold(items: seq<Item>)
    ensures Sum(items, Erred) + Sum(items, Changed) + Sum(items, Passed) == Sum(items, HasTold)
  {
    if items != [] {
      TotalIsTold(items[..|items| - 1]);
    }
  }

  lemma PutKeeps(s: Pool, i: nat, item: Item, counts: Counts)
    requires Inv(s) && i < |s.items| && !s.items[i].stage.Left?
    requires Slot(item) <= Slot(s.items[i]) && (item.report.Some? <==> !item.stage.Holding? && !item.stage.Working?)
    requires counts.errors + Erred(s.items[i]) == s.counts.errors + Erred(item)
    requires counts.scaled + Changed(s.items[i]) == s.counts.scaled + Changed(item)
    requires counts.skipped + Passed(s.items[i]) == s.counts.skipped + Passed(item)
    requires item.report == Some(Dropped) ==> s.cancelled
    ensures Inv(Put(s, i, item).(counts := counts))
  {
    SumPut(s.items, Slot, i, item);
    SumPut(s.items, Erred, i, item);
    SumPut(s.items, Changed, i, item);
    SumPut(s.items, Passed, i, item);
  }

  lemma AcquireKeeps(s: Pool)
    requires Inv(s) && Enabled(s, Acquire)
    ensures Inv(Next(s, Acquire))
  {
    SumGrows(s.items, Slot, Item(Holding, None));
    SumGrows(s.items, Erred, Item(Holding, None));
    SumGrows(s.items, Changed, Item(Holding, None));
    SumGrows(s.items, Passed, Item(Holding, None));
  }

  lemma NextWaveKeeps(s: Pool)
    requires Inv(s) && Enabled(s, NextWave)
    ensures Inv(Next(s, NextWave))
  {
  }

  lemma StepKeeps(s: Pool, step: Step)
    requires Inv(s) && Enabled(s, step)
    ensures Inv(Next(s, step))
  {
    match step
    case Acquire => AcquireKeeps(s);
    case Begin(i) => PutKeeps(s, i, Item(Working, None), s.counts);
    case Drop(i) => PutKeeps(s, i, Item(Told, Some(Dropped)), s.counts);
    case Tell(i, report) => PutKeeps(s, i, Item(Told, Some(report)), Counted(s.counts, report));
    case Free(i) => PutKeeps(s, i, s.items[i].(stage := Freed), s.counts);
    case Leave(i) => PutKeeps(s, i, s.items[i].(stage := Left), s.counts);
    case NextWave => NextWaveKeeps(s);
    case Cancel =>
    case Stop =>
  }

  lemma {:induction false} RunKeeps(s: Pool, steps: seq<Step>)
    requires Inv(s) && Legal(s, steps)
    ensures Inv(After(s, steps))
    ensures After(s, steps).total == s.total && After(s, steps).limit == s.limit && After(s, steps).wave == s.wave
    decreases |steps|
  {
    if steps != [] {
      StepKeeps(s, steps[0]);
      RunKeeps(Next(s, steps[0]), steps[1..]);
    }
  }

  // ---------------------------------------------------------------- results

  /** At every moment at most `limit` workers run, and everything that has not left belongs to one wave:
      no item of a wave is taken up before the whole wave before has left. */
  lemma Bounded(total: nat, wave: nat, limit: nat, steps: seq<Step>)
    requires Legal(Fresh(total, wave, limit), steps)
    ensures var s := After(Fresh(total, wave, limit), steps);
            && |WorkersOf(s.items)| <= limit
            && (forall i :: 0 <= i < |s.items| && !s.items[i].stage.Left? ==> s.waveStart <= i < s.waveStart + wave)
            && |s.items| <= total
  {
    RunKeeps(Fresh(total, wave, limit), steps);
    var s := After(Fresh(total, wave, limit), steps);
    WorkersCounted(s.items);
    SumMonotone(s.items, IsWorking, Slot);
  }

  /** A run that is not over can always go on. */
  lemma NeverStuck(s: Pool)
    requires Inv(s) && s.wave > 0 && s.limit > 0 && !Over(s)
    ensures exists step: Step :: !step.Cancel? && Enabled(s, step)
  {
    if i: nat :| i < |s.items| && !s.items[i].stage.Left? {
      var step :=
        match s.items[i].stage
        case Holding => if s.cancelled then Drop(i) else Begin(i)
        case Working => Tell(i, Panicked)
        case Told => Free(i)
        case _ => Leave(i);
      assert Enabled(s, step);
    } else if s.cancelled {
      assert Enabled(s, Stop);
    } else {
      SlotsFree(s.items);
      assert Enabled(s, if |s.items| < s.waveStart + s.wave then Acquire else NextWave);
    }
  }

  lemma {:induction false} SlotsFree(items: seq<Item>)
    requires AllLeft(items)
    ensures Sum(items, Slot) == 0
  {
    if items != [] {
      SlotsFree(items[..|items| - 1]);
    }
  }

  /** How many steps an item can still take. */
  function Rank(item: Item): nat {
    match item.stage
    case Holding => 4
    case Working => 3
    case Told => 2
    case Freed => 1
    case Left => 0
  }

  function PoolRank(s: Pool): int {
    s.total - s.waveStart + 5 * (s.total - |s.items|) + Sum(s.items, Rank) +
    (if s.cancelled then 0 else 1) + (if s.stopped then 0 else 1)
  }

  lemma StepLowers(s: Pool, step: Step)
    requires Inv(s) && s.wave > 0 && Enabled(s, step)
    ensures PoolRank(Next(s, step)) < PoolRank(s)
  {
    match step
    case Acquire => SumGrows(s.items, Rank, Item(Holding, None));
    case Begin(i) => SumPut(s.items, Rank, i, Item(Working, None));
    case Drop(i) => SumPut(s.items, Rank, i, Item(Told, Some(Dropped)));
    case Tell(i, report) => SumPut(s.items, Rank, i, Item(Told, Some(report)));
    case Free(i) => SumPut(s.items, Rank, i, s.items[i].(stage := Freed));
    case Leave(i) => SumPut(s.items, Rank, i, s.items[i].(stage := Left));
    case NextWave =>
    case Cancel =>
    case Stop =>
  }

  lemma {:induction false} RunsEnd(s: Pool, steps: seq<Step>)
    requires Inv(s) && s.wave > 0 && Legal(s, steps)
    ensures |steps| <= PoolRank(s)
    decreases |steps|
  {
    if steps != [] {
      StepKeeps(s, steps[0]);
      StepLowers(s, steps[0]);
      RunsEnd(Next(s, steps[0]), steps[1..]);
    }
  }

  /** Every run is over after at most six steps for each item and two more, and before that it can go on. */
  lemma Ends(total: nat, wave: nat, limit: nat, steps: seq<Step>)
    requires wave > 0 && limit > 0 && Legal(Fresh(total, wave, limit), steps)
    ensures |steps| <= 6 * total + 2
    ensures Over(After(Fresh(total, wave, limit), steps)) ||
            exists step: Step :: !step.Cancel? && Enabled(After(Fresh(total, wave, limit), steps), step)
  {
    var start := Fresh(total, wave, limit);
    RunsEnd(start, steps);
    RunKeeps(start, steps);
    if !Over(After(start, steps)) {
      NeverStuck(After(start, steps));
    }
  }

  /** From where it stands, a run that has not been cancelled can still be completed. */
  lemma {:induction false} CanComplete(s: Pool) returns (steps: seq<Step>)
    requires Inv(s) && s.wave > 0 && s.limit > 0 && !s.cancelled && !s.stopped
    ensures Legal(s, steps) && Over(After(s, steps)) && !After(s, steps).cancelled && !After(s, steps).stopped
    decreases PoolRank(s)
  {
    if Over(s) {
      steps := [];
    } else {
      NeverStuck(s);
      var step: Step :| !step.Cancel? && Enabled(s, step);
      StepKeeps(s, step);
      StepLowers(s, step);
      var rest := CanComplete(Next(s, step));
      steps := [step] + rest;
      assert steps[1..] == rest;
    }
  }

  /** So every item of every list can be processed. */
  lemma AllCanBeProcessed(total: nat, wave: nat, limit: nat)
    requires wave > 0 && limit > 0
    ensures exists steps :: Legal(Fresh(total, wave, limit), steps) && Over(After(Fresh(total, wave, limit), steps)) &&
                            |After(Fresh(total, wave, limit), steps).items| == total
  {
    var steps := CanComplete(Fresh(total, wave, limit));
    RunKeeps(Fresh(total, wave, limit), steps);
    assert Over(After(Fresh(total, wave, limit), steps));
  }

  /** How often the worker of an item began. */
  ghost function Begins(steps: seq<Step>, i: nat): nat {
    if steps == [] then 0 else (if steps[0] == Begin(i) then 1 else 0) + Begins(steps[1..], i)
  }

  predicate HasBegun(s: Pool, i: nat) {
    i < |s.items| && (s.items[i].stage.Working? || (s.items[i].report.Some? && !s.items[i].report.value.Dropped?))
  }

  lemma OneBegins(s: Pool, step: Step, i: nat)
    requires Inv(s) && Enabled(s, step)
    ensures HasBegun(Next(s, step), i) <==> step == Begin(i) || HasBegun(s, i)
    ensures step == Begin(i) ==> !HasBegun(s, i)
  {
  }

  lemma {:induction false} BeginsCounted(s: Pool, steps: seq<Step>, i: nat)
    requires Inv(s) && Legal(s, steps)
    ensures Begins(steps, i) + (if HasBegun(s, i) then 1 else 0) == if HasBegun(After(s, steps), i) then 1 else 0
    decreases |steps|
  {
    if steps != [] {
      StepKeeps(s, steps[0]);
      OneBegins(s, steps[0], i);
      BeginsCounted(Next(s, steps[0]), steps[1..], i);
    }
  }

  /** When a run is over that was not cancelled, the worker of each item has begun exactly once, and the
      counts add up to the number of items if and only if every worker said what became of its item. */
  lemma ProcessedOnce(total: nat, wave: nat, limit: nat, steps: seq<Step>)
    requires Legal(Fresh(total, wave, limit), steps)
    requires var s := After(Fresh(total, wave, limit), steps); Over(s) && !s.stopped && !s.cancelled
    ensures var s := After(Fresh(total, wave, limit), steps);
            && |s.items| == total && (forall i: nat :: i < total ==> Begins(steps, i) == 1 && s.items[i].report.Some?)
            && s.counts == Counts(Sum(s.items, Changed), Sum(s.items, Passed), Sum(s.items, Erred))
            && (s.counts.Total() == total <==> forall i :: 0 <= i < total ==> Tells(s.items[i].report.value))
  {
    var start := Fresh(total, wave, limit);
    RunKeeps(start, steps);
    var s := After(start, steps);
    forall i: nat | i < total
      ensures Begins(steps, i) == 1 && s.items[i].report.Some?
    {
      BeginsCounted(start, steps, i);
    }
    TotalIsTold(s.items);
    AllOnes(s.items, HasTold);
  }

  /** The priority order, the waves cut from it and the pool together, at every moment of a run over the
      snapshots: what is under way belongs to one wave, every wave before it has left, and nothing has been
      taken up while something of an earlier place in the priority list has not. */
  lemma WholeWake<T>(snaps: seq<T>, csv: string, ns: T -> string, sorted: seq<T>, size: int, waves: seq<seq<T>>, limit: nat,
                     steps: seq<Step>)
    requires WorkPool.PriorityOrder(snaps, csv, ns, sorted) && WorkPool.Chunked(sorted, WorkPool.WaveSize(size), waves)
    requires Legal(Fresh(|sorted|, WorkPool.WaveSize(size), limit), steps)
    ensures |sorted| == |snaps|
    ensures var s := After(Fresh(|sorted|, WorkPool.WaveSize(size), limit), steps);
            forall i :: 0 <= i < |s.items| && !s.items[i].stage.Left? ==> InOneWave(s, sorted, waves, i)
    ensures var s := After(Fresh(|sorted|, WorkPool.WaveSize(size), limit), steps);
            forall i, j :: 0 <= i < |sorted| && 0 <= j < |sorted| && j < |s.items| && WorkPool.Precedes(SplitCsv(csv), ns(sorted[i]), ns(sorted[j])) ==>
              i < |s.items|
  {
    var wave := WorkPool.WaveSize(size);
    var start := Fresh(|sorted|, wave, limit);
    Sorting.SameElements(snaps, sorted);
    RunKeeps(start, steps);
    var s := After(start, steps);
    forall i | 0 <= i < |s.items| && !s.items[i].stage.Left?
      ensures InOneWave(s, sorted, waves, i)
    {
      UnderWayInWave(s, sorted, waves, i);
    }
  }

  lemma UnderWayInWave<T>(s: Pool, sorted: seq<T>, waves: seq<seq<T>>, i: nat)
    requires Inv(s) && s.wave > 0 && s.total == |sorted| && WorkPool.Chunked(sorted, s.wave, waves)
    requires i < |s.items| && !s.items[i].stage.Left?
    ensures InOneWave(s, sorted, waves, i)
  {
    StartIsProduct(s.current, s.wave);
    ItemInWave(sorted, s.wave, waves, s.current, i);
  }

  /** Item `i` is in the current wave, and whatever comes before that has left. */
  ghost predicate InOneWave<T>(s: Pool, sorted: seq<T>, waves: seq<seq<T>>, i: nat) {
    && s.current < |waves| && LeftBefore(s.items, s.waveStart)
    && s.waveStart <= i < s.waveStart + |waves[s.current]| && i < |sorted| && waves[s.current][i - s.waveStart] == sorted[i]
  }

  lemma ItemInWave<T>(sorted: seq<T>, wave: nat, waves: seq<seq<T>>, w: nat, i: nat)
    requires WorkPool.Chunked(sorted, wave, waves) && wave > 0 && w * wave <= i < w * wave + wave && i < |sorted|
    ensures w < |waves| && i < w * wave + |waves[w]| && waves[w][i - w * wave] == sorted[i]
  {
    WavesReach(sorted, wave, waves, w);
    WorkPool.WaveSlice(sorted, wave, waves, w);
  }

  /** There are as many waves as the items need. */
  lemma WavesReach<T>(sorted: seq<T>, wave: nat, waves: seq<seq<T>>, w: nat)
    requires WorkPool.Chunked(sorted, wave, waves) && w * wave < |sorted|
    ensures w < |waves|
  {
    WorkPool.WavesEnough(waves, wave);
    assert w >= |waves| ==> (w - |waves|) * wave >= 0;
  }
}

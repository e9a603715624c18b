/** Which workloads a run may touch, given the policy, its exception scope and the active exceptions. */
module Targeting {
  import opened Options
  import opened Text

  datatype Workload = Workload(kind: string, namespace: string, name: string, labels: map<string, string>)

  datatype Target = Target(kind: string, namespace: string, name: string)

  /** `targets` is None when the stored list cannot be read. */
  datatype Exception = Exception(exceptionType: string, namespaceFilter: string, labelSelector: string, targets: Option<seq<Target>>)

  const STAY_AWAKE := "stay_awake"
  const FORCE_SLEEP := "force_sleep"

  /** Selector syntax and matching, and the syntax of object names. */
  datatype Syntax = Syntax(
    parses: string -> bool,
    selects: (string, map<string, string>) -> bool,
    validName: (string, string) -> bool)

  datatype Policy = Policy(namespaceFilter: string, labelSelector: string, scope: Option<Exception>)

  datatype Direction = Sleep | Wake

  predicate ValidTarget(x: Syntax, t: Target) {
    (t.kind == "Deployment" || t.kind == "StatefulSet") && x.validName(t.namespace, t.name)
  }

  predicate Malformed(x: Syntax, e: Exception) {
    e.targets.None? || !x.parses(e.labelSelector) ||
    exists i :: 0 <= i < |e.targets.value| && !ValidTarget(x, e.targets.value[i])
  }

  /** The namespaces, the labels and the explicit targets all admit the workload. */
  predicate Selects(x: Syntax, e: Exception, w: Workload)
    requires !Malformed(x, e)
  {
    && (e.namespaceFilter == "" || w.namespace in CsvSet(e.namespaceFilter))
    && x.selects(e.labelSelector, w.labels)
    && (e.targets.value == [] || Target(w.kind, w.namespace, w.name) in e.targets.value)
  }

  /** Matches; None is an error. */
  function Matches(x: Syntax, e: Exception, w: Workload): Option<bool> {
    if Malformed(x, e) then None else Some(Selects(x, e, w))
  }

  /** The policy's own boundary, as an exception without targets. */
  function Boundary(p: Policy): Exception {
    Exception("", p.namespaceFilter, p.labelSelector, Some([]))
  }

  function AllowsExceptionTarget(x: Syntax, p: Policy, w: Workload): Option<bool> {
    if p.scope.None? then Some(true)
    else
      var allowed := Matches(x, Boundary(p), w);
      if allowed != Some(true) then allowed else Matches(x, p.scope.value, w)
  }

  /** What an exception matches: without namespaces and targets every workload that its selector selects;
      namespaces and targets only narrow that down, each for itself. */
  lemma MatchesExactly(x: Syntax, e: Exception, w: Workload)
    ensures Matches(x, e, w) == None <==>
            || e.targets == None || !x.parses(e.labelSelector)
            || exists t :: t in e.targets.value && !((t.kind == "Deployment" || t.kind == "StatefulSet") && x.validName(t.namespace, t.name))
    ensures e.namespaceFilter == "" && e.targets == Some([]) && x.parses(e.labelSelector) ==>
              Matches(x, e, w) == Some(x.selects(e.labelSelector, w.labels))
    ensures e.namespaceFilter != "" ==>
              (Matches(x, e, w) == Some(true) <==>
               Matches(x, e.(namespaceFilter := ""), w) == Some(true) && w.namespace in CsvSet(e.namespaceFilter))
    ensures e.targets.Some? && e.targets.value != [] && Matches(x, e, w).Some? ==>
              (Matches(x, e, w) == Some(true) <==>
               Matches(x, e.(targets := Some([])), w) == Some(true) &&
               exists t :: t in e.targets.value && t.kind == w.kind && t.namespace == w.namespace && t.name == w.name)
  {
    if e.targets.Some? {
      assert forall t :: t in e.targets.value && !ValidTarget(x, t) ==> exists i :: 0 <= i < |e.targets.value| && e.targets.value[i] == t;
      assert Malformed(x, e.(namespaceFilter := "")) == Malformed(x, e);
      if t :| t in e.targets.value && t.kind == w.kind && t.namespace == w.namespace && t.name == w.name {
        assert t == Target(w.kind, w.namespace, w.name);
      }
    }
  }

  /** The boundary of a policy: its namespaces, or all, and its selector. */
  lemma BoundaryIs(x: Syntax, p: Policy, w: Workload)
    ensures Matches(x, Boundary(p), w) == Some(true) <==>
            x.parses(p.labelSelector) && x.selects(p.labelSelector, w.labels) &&
            (p.namespaceFilter == "" || w.namespace in CsvSet(p.namespaceFilter))
    ensures Matches(x, Boundary(p), w) == None <==> !x.parses(p.labelSelector)
  {
  }

  // ---------------------------------------------------------------- the effective exception

  datatype Effective = NoException | StaysAwake | ForcedAsleep

  predicate Hits(x: Syntax, e: Exception, w: Workload, exceptionType: string) {
    e.exceptionType == exceptionType && Matches(x, e, w) == Some(true)
  }

  ghost predicate SomeHits(x: Syntax, es: seq<Exception>, w: Workload, exceptionType: string) {
    exists i :: 0 <= i < |es| && Hits(x, es[i], w, exceptionType)
  }

  ghost predicate SomeMalformed(x: Syntax, es: seq<Exception>) {
    exists i :: 0 <= i < |es| && Malformed(x, es[i])
  }

  /** A malformed exception comes before every force_sleep exception that hits. */
  ghost predicate FailsFirst(x: Syntax, es: seq<Exception>, w: Workload) {
    exists i :: 0 <= i < |es| && Malformed(x, es[i]) && !SomeHits(x, es[..i], w, FORCE_SLEEP)
  }

  /** The exception that counts for a workload: force_sleep wins over stay_awake.  None is an error. */
  ghost function EffectiveOf(x: Syntax, es: seq<Exception>, w: Workload): Option<Effective> {
    if FailsFirst(x, es, w) then None
    else if SomeHits(x, es, w, FORCE_SLEEP) then Some(ForcedAsleep)
    else if SomeHits(x, es, w, STAY_AWAKE) then Some(StaysAwake)
    else Some(NoException)
  }

  method EffectiveExceptionType(x: Syntax, w: Workload, es: seq<Exception>) returns (r: Option<Effective>)
    ensures r == EffectiveOf(x, es, w)
  {
    var effective := NoException;
    for i := 0 to |es|
      invariant !SomeHits(x, es[..i], w, FORCE_SLEEP)
      invariant forall j :: 0 <= j < i ==> !Malformed(x, es[j])
      invariant effective == if SomeHits(x, es[..i], w, STAY_AWAKE) then StaysAwake else NoException
    {
      HitsGrow(x, es, i, w);
      var matches := Matches(x, es[i], w);
      if matches.None? {
        FailureHere(x, es, i, w);
        return None;
      }
      if !matches.value {
        continue;
      }
      if es[i].exceptionType == FORCE_SLEEP {
        NoFailureBefore(x, es, i, w);
        return Some(ForcedAsleep);
      }
      if es[i].exceptionType == STAY_AWAKE {
        effective := StaysAwake;
      }
    }
    assert es[..|es|] == es;
    return Some(effective);
  }

  lemma HitsGrow(x: Syntax, es: seq<Exception>, i: nat, w: Workload)
    requires i < |es|
    ensures forall t :: SomeHits(x, es[..i + 1], w, t) <==> SomeHits(x, es[..i], w, t) || Hits(x, es[i], w, t)
    ensures forall t :: Hits(x, es[i], w, t) ==> SomeHits(x, es, w, t)
  {
  }

  lemma FailureHere(x: Syntax, es: seq<Exception>, i: nat, w: Workload)
    requires i < |es| && Malformed(x, es[i]) && !SomeHits(x, es[..i], w, FORCE_SLEEP)
    ensures EffectiveOf(x, es, w) == None
  {
  }

  lemma NoFailureBefore(x: Syntax, es: seq<Exception>, i: nat, w: Workload)
    requires i < |es| && Hits(x, es[i], w, FORCE_SLEEP) && forall j :: 0 <= j < i ==> !Malformed(x, es[j])
    ensures !FailsFirst(x, es, w) && EffectiveOf(x, es, w) == Some(ForcedAsleep)
  {
  }

  // ---------------------------------------------------------------- the order of the exceptions

  ghost predicate OrderFree(x: Syntax, es: seq<Exception>, w: Workload) {
    forall other: seq<Exception> :: multiset(other) == multiset(es) ==> EffectiveOf(x, other, w) == EffectiveOf(x, es, w)
  }

  lemma PermutedHits(x: Syntax, es: seq<Exception>, other: seq<Exception>, w: Workload)
    requires multiset(other) == multiset(es)
    ensures forall t :: SomeHits(x, es, w, t) ==> SomeHits(x, other, w, t)
    ensures SomeMalformed(x, es) ==> SomeMalformed(x, other)
  {
    forall t | SomeHits(x, es, w, t)
      ensures SomeHits(x, other, w, t)
    {
      var i :| 0 <= i < |es| && Hits(x, es[i], w, t);
      assert es[i] in multiset(other);
      assert es[i] in other;
    }
    if SomeMalformed(x, es) {
      var i :| 0 <= i < |es| && Malformed(x, es[i]);
      assert es[i] in multiset(other);
      assert es[i] in other;
    }
  }

  lemma Moved(es: seq<Exception>, i: nat) returns (other: seq<Exception>)
    requires i < |es|
    ensures multiset(other) == multiset(es) && other != [] && other[0] == es[i]
  {
    other := [es[i]] + es[..i] + es[i + 1..];
    assert es == es[..i] + [es[i]] + es[i + 1..];
  }

  /** The order of the exceptions does not matter exactly when no malformed one meets a force_sleep
      exception for the workload. */
  lemma OrderMatters(x: Syntax, es: seq<Exception>, w: Workload)
    ensures OrderFree(x, es, w) <==> !(SomeMalformed(x, es) && SomeHits(x, es, w, FORCE_SLEEP))
  {
    if SomeMalformed(x, es) && SomeHits(x, es, w, FORCE_SLEEP) {
      var i :| 0 <= i < |es| && Malformed(x, es[i]);
      var k :| 0 <= k < |es| && Hits(x, es[k], w, FORCE_SLEEP);
      var failing := Moved(es, i);
      assert failing[..0] == [];
      assert FailsFirst(x, failing, w);
      var forced := Moved(es, k);
      NoFailureBefore(x, forced, 0, w);
      assert SomeHits(x, forced, w, FORCE_SLEEP);
      assert EffectiveOf(x, failing, w) == None && EffectiveOf(x, forced, w) == Some(ForcedAsleep);
    } else {
      forall other: seq<Exception> | multiset(other) == multiset(es)
        ensures EffectiveOf(x, other, w) == EffectiveOf(x, es, w)
      {
        PermutedHits(x, es, other, w);
        PermutedHits(x, other, es, w);
        FailsExactly(x, es, w);
        FailsExactly(x, other, w);
      }
    }
  }

  lemma FailsExactly(x: Syntax, es: seq<Exception>, w: Workload)
    requires !(SomeMalformed(x, es) && SomeHits(x, es, w, FORCE_SLEEP))
    ensures FailsFirst(x, es, w) <==> SomeMalformed(x, es)
  {
  }

  // ---------------------------------------------------------------- filters

  predicate ForceSleepSelected(p: Policy) {
    p.scope.Some? && p.scope.value.exceptionType == FORCE_SLEEP
  }

  /** Whether a run may touch the workload; None is an error. */
  ghost function Decision(x: Syntax, p: Policy, es: seq<Exception>, w: Workload, direction: Direction): Option<bool> {
    var allowed := AllowsExceptionTarget(x, p, w);
    if allowed != Some(true) then allowed
    else if ForceSleepSelected(p) && direction.Sleep? then Some(true)
    else
      match EffectiveOf(x, es, w)
      case None => None
      case Some(effective) =>
        Some(!(direction.Sleep? && effective.StaysAwake?) && !(direction.Wake? && effective.ForcedAsleep?))
  }

  ghost predicate Failing(x: Syntax, p: Policy, es: seq<Exception>, ws: seq<Workload>, direction: Direction) {
    exists i :: 0 <= i < |ws| && Decision(x, p, es, ws[i], direction).None?
  }

  /** The workloads a run may touch, in their order. */
  ghost function Kept(x: Syntax, p: Policy, es: seq<Exception>, ws: seq<Workload>, direction: Direction): seq<Workload> {
    if ws == [] then []
    else
      var n := |ws| - 1;
      Kept(x, p, es, ws[..n], direction) + (if Decision(x, p, es, ws[n], direction) == Some(true) then [ws[n]] else [])
  }

  /** The loop body of filterEntries: whether one workload stays; None is an error. */
  method Decide(x: Syntax, p: Policy, es: seq<Exception>, entry: Workload, direction: Direction) returns (r: Option<bool>)
    ensures r == Decision(x, p, es, entry, direction)
  {
    var allowed := AllowsExceptionTarget(x, p, entry);
    if allowed != Some(true) {
      return allowed;
    }
    if !ForceSleepSelected(p) || direction.Wake? {
      var effective := EffectiveExceptionType(x, entry, es);
      if effective.None? {
        return None;
      }
      if (direction.Sleep? && effective.value.StaysAwake?) || (direction.Wake? && effective.value.ForcedAsleep?) {
        return Some(false);
      }
    }
    return Some(true);
  }

  /** filterEntries; `es` is what it reads as the active exceptions, None when that fails. */
  method FilterEntries(x: Syntax, p: Policy, es: Option<seq<Exception>>, entries: seq<Workload>, direction: Direction)
    returns (r: Option<seq<Workload>>)
    ensures r == if es.None? || Failing(x, p, es.value, entries, direction) then None
                 else Some(Kept(x, p, es.value, entries, direction))
  {
    if es.None? {
      return None;
    }
    r := FilterAll(x, p, es.value, entries, direction);
  }

  method FilterAll(x: Syntax, p: Policy, es: seq<Exception>, entries: seq<Workload>, direction: Direction)
    returns (r: Option<seq<Workload>>)
    ensures r == if Failing(x, p, es, entries, direction) then None else Some(Kept(x, p, es, entries, direction))
  {
    var result: seq<Workload> := [];
    for i := 0 to |entries|
      invariant forall j :: 0 <= j < i ==> Decision(x, p, es, entries[j], direction).Some?
      invariant result == Kept(x, p, es, entries[..i], direction)
    {
      KeptGrows(x, p, es, entries, i, direction);
      var stays := Decide(x, p, es, entries[i], direction);
      if stays.None? {
        assert Decision(x, p, es, entries[i], direction).None?;
        return None;
      }
      if stays.value {
        result := result + [entries[i]];
      }
    }
    assert entries[..|entries|] == entries;
    assert !Failing(x, p, es, entries, direction);
    return Some(result);
  }

  lemma KeptGrows(x: Syntax, p: Policy, es: seq<Exception>, ws: seq<Workload>, n: nat, direction: Direction)
    requires n < |ws|
    ensures Kept(x, p, es, ws[..n + 1], direction) ==
            Kept(x, p, es, ws[..n], direction) + (if Decision(x, p, es, ws[n], direction) == Some(true) then [ws[n]] else [])
  {
    assert ws[..n + 1][..n] == ws[..n];
  }

  lemma FailingGrows(x: Syntax, p: Policy, es: seq<Exception>, ws: seq<Workload>, n: nat, direction: Direction)
    requires n <= |ws|
    ensures Failing(x, p, es, ws[..n], direction) ==> Failing(x, p, es, ws, direction)
  {
  }

  /** The workload lies in the intersection of the policy boundary and the exception scope, and no
      exception protects it: ordinary sleep leaves stay_awake workloads alone, wake leaves force_sleep
      workloads alone. */
  ghost predicate MayTouch(x: Syntax, p: Policy, es: seq<Exception>, w: Workload, direction: Direction) {
    && (p.scope.Some? ==> Matches(x, Boundary(p), w) == Some(true) && Matches(x, p.scope.value, w) == Some(true))
    && (direction.Sleep? && !(p.scope.Some? && p.scope.value.exceptionType == "force_sleep") ==>
          EffectiveOf(x, es, w) != Some(StaysAwake))
    && (direction.Wake? ==> EffectiveOf(x, es, w) != Some(ForcedAsleep))
  }

  lemma DecidesRight(x: Syntax, p: Policy, es: seq<Exception>, w: Workload, direction: Direction)
    requires Decision(x, p, es, w, direction).Some?
    ensures Decision(x, p, es, w, direction).value <==> MayTouch(x, p, es, w, direction)
  {
  }

  /** The filter returns exactly the offered workloads that the run may touch. */
  lemma {:induction false} KeptExactly(x: Syntax, p: Policy, es: seq<Exception>, ws: seq<Workload>, direction: Direction, w: Workload)
    requires !Failing(x, p, es, ws, direction)
    ensures w in Kept(x, p, es, ws, direction) <==> w in ws && MayTouch(x, p, es, w, direction)
  {
    if ws != [] {
      var n := |ws| - 1;
      FailingGrows(x, p, es, ws, n, direction);
      KeptExactly(x, p, es, ws[..n], direction, w);
      KeptMember(x, p, es, ws, n, direction, w);
    }
  }

  lemma KeptMember(x: Syntax, p: Policy, es: seq<Exception>, ws: seq<Workload>, n: nat, direction: Direction, w: Workload)
    requires n + 1 == |ws| && !Failing(x, p, es, ws, direction)
    ensures w in ws <==> w in ws[..n] || w == ws[n]
    ensures w in Kept(x, p, es, ws, direction) <==>
            w in Kept(x, p, es, ws[..n], direction) || (w == ws[n] && MayTouch(x, p, es, w, direction))
  {
    assert ws == ws[..n] + [ws[n]];
    assert Decision(x, p, es, ws[n], direction).Some?;
    DecidesRight(x, p, es, ws[n], direction);
  }

  /** Reordering the exceptions changes no result of the filter, when no malformed one is among them. */
  lemma {:induction false} FilterOrderFree(x: Syntax, p: Policy, es: seq<Exception>, other: seq<Exception>, ws: seq<Workload>, direction: Direction)
    requires multiset(other) == multiset(es) && !SomeMalformed(x, es)
    ensures Kept(x, p, other, ws, direction) == Kept(x, p, es, ws, direction)
    ensures Failing(x, p, other, ws, direction) <==> Failing(x, p, es, ws, direction)
  {
    forall w: Workload
      ensures EffectiveOf(x, other, w) == EffectiveOf(x, es, w)
    {
      OrderMatters(x, es, w);
    }
    if ws != [] {
      FilterOrderFree(x, p, es, other, ws[..|ws| - 1], direction);
    }
  }

  // ---------------------------------------------------------------- snapshots to wake

  /** What the cluster answers for a snapshot, with the exceptions read after that. */
  datatype Lookup = LookupError | Gone | Live(workload: Workload, active: Option<seq<Exception>>)

  /** What filterEntries says of a single workload; None is an error. */
  ghost function Verdict(x: Syntax, p: Policy, active: Option<seq<Exception>>, w: Workload, direction: Direction): Option<bool> {
    if active.None? then None else Decision(x, p, active.value, w, direction)
  }

  /** Whether a wake may close the snapshot of a workload that was looked up like this. */
  ghost function SnapshotDecision(x: Syntax, p: Policy, live: Lookup): Option<bool> {
    match live
    case LookupError => None
    case Gone => Some(p.scope.None?)
    case Live(w, active) => Verdict(x, p, active, w, Wake)
  }

  ghost function KeptSnapshots<S>(x: Syntax, p: Policy, snaps: seq<S>, live: seq<Lookup>): seq<S>
    requires |snaps| == |live|
  {
    if snaps == [] then []
    else
      var n := |snaps| - 1;
      KeptSnapshots(x, p, snaps[..n], live[..n]) +
      (if SnapshotDecision(x, p, live[n]) == Some(true) then [snaps[n]] else [])
  }

  lemma KeptSnapshotsGrow<S>(x: Syntax, p: Policy, snaps: seq<S>, live: seq<Lookup>, n: nat)
    requires n < |snaps| == |live|
    ensures KeptSnapshots(x, p, snaps[..n + 1], live[..n + 1]) ==
            KeptSnapshots(x, p, snaps[..n], live[..n]) +
            (if SnapshotDecision(x, p, live[n]) == Some(true) then [snaps[n]] else [])
  {
    assert snaps[..n + 1][..n] == snaps[..n] && live[..n + 1][..n] == live[..n];
  }

  /** filterEntries for one live workload. */
  method FilterOne(x: Syntax, p: Policy, active: Option<seq<Exception>>, w: Workload, direction: Direction) returns (r: Option<bool>)
    ensures r == Verdict(x, p, active, w, direction)
  {
    var allowed := FilterEntries(x, p, active, [w], direction);
    if active.Some? {
      OneEntry(x, p, active.value, w, direction);
    }
    return if allowed.None? then None else Some(|allowed.value| > 0);
  }

  lemma OneEntry(x: Syntax, p: Policy, es: seq<Exception>, w: Workload, direction: Direction)
    ensures Failing(x, p, es, [w], direction) <==> Decision(x, p, es, w, direction).None?
    ensures Kept(x, p, es, [w], direction) == if Decision(x, p, es, w, direction) == Some(true) then [w] else []
  {
    assert [w][..0] == [] && [w][0] == w;
    assert Kept(x, p, es, [], direction) == [];
  }

  /** filterWakeSnapshots; `first` is what it reads as the active exceptions, None when that fails, and
      `live` what it learns about the workload of each snapshot. */
  method FilterWakeSnapshots<S>(x: Syntax, p: Policy, first: Option<seq<Exception>>, snaps: seq<S>, live: seq<Lookup>)
    returns (r: Option<seq<S>>)
    requires |snaps| == |live|
    ensures first.None? ==> r.None?
    ensures first == Some([]) && p.scope.None? ==> r == Some(snaps)
    ensures first.Some? && (p.scope.Some? || first.value != []) ==>
              r == if exists i :: 0 <= i < |live| && SnapshotDecision(x, p, live[i]).None? then None
                   else Some(KeptSnapshots(x, p, snaps, live))
  {
    if first.None? {
      return None;
    }
    if p.scope.None? && first.value == [] {
      return Some(snaps);
    }
    var result: seq<S> := [];
    for i := 0 to |snaps|
      invariant forall j :: 0 <= j < i ==> SnapshotDecision(x, p, live[j]).Some?
      invariant result == KeptSnapshots(x, p, snaps[..i], live[..i])
    {
      KeptSnapshotsGrow(x, p, snaps, live, i);
      var stays: bool;
      match live[i] {
        case LookupError =>
          return None;
        case Gone =>
          stays := p.scope.None?;
        case Live(w, active) =>
          var allowed := FilterOne(x, p, active, w, Wake);
          if allowed.None? {
            return None;
          }
          stays := allowed.value;
      }
      if stays {
        result := result + [snaps[i]];
      }
    }
    assert snaps[..|snaps|] == snaps && live[..|live|] == live;
    return Some(result);
  }

  ghost predicate SomeTouched<S>(x: Syntax, p: Policy, snaps: seq<S>, live: seq<Lookup>, snap: S)
    requires |snaps| == |live|
  {
    exists i :: 0 <= i < |snaps| && snaps[i] == snap && SnapshotTouched(x, p, live[i])
  }

  lemma SomeTouchedGrows<S>(x: Syntax, p: Policy, snaps: seq<S>, live: seq<Lookup>, n: nat, snap: S)
    requires n + 1 == |snaps| == |live|
    ensures SomeTouched(x, p, snaps, live, snap) <==>
            SomeTouched(x, p, snaps[..n], live[..n], snap) || (snaps[n] == snap && SnapshotTouched(x, p, live[n]))
  {
    if SomeTouched(x, p, snaps, live, snap) {
      var i :| 0 <= i < |snaps| && snaps[i] == snap && SnapshotTouched(x, p, live[i]);
      if i < n {
        assert snaps[..n][i] == snap && live[..n][i] == live[i];
      }
    }
    if SomeTouched(x, p, snaps[..n], live[..n], snap) {
      var i :| 0 <= i < n && snaps[..n][i] == snap && SnapshotTouched(x, p, live[..n][i]);
      assert snaps[i] == snap && live[i] == live[..n][i];
    }
  }

  /** Exactly the snapshots are kept whose workload the wake may touch, or is gone in a full wake. */
  lemma {:induction false} KeptSnapshotsExactly<S>(x: Syntax, p: Policy, snaps: seq<S>, live: seq<Lookup>, snap: S)
    requires |snaps| == |live|
    requires forall i :: 0 <= i < |live| ==> SnapshotDecision(x, p, live[i]).Some?
    ensures snap in KeptSnapshots(x, p, snaps, live) <==> SomeTouched(x, p, snaps, live, snap)
  {
    if snaps != [] {
      var n := |snaps| - 1;
      assert SnapshotDecision(x, p, live[n]).Some?;
      KeptSnapshotsExactly(x, p, snaps[..n], live[..n], snap);
      SnapshotTouchedRight(x, p, live[n]);
      SomeTouchedGrows(x, p, snaps, live, n, snap);
    }
  }

  ghost predicate SnapshotTouched(x: Syntax, p: Policy, live: Lookup) {
    match live
    case LookupError => false
    case Gone => p.scope.None?
    case Live(w, active) => active.Some? && MayTouch(x, p, active.value, w, Wake)
  }

  lemma SnapshotTouchedRight(x: Syntax, p: Policy, live: Lookup)
    requires SnapshotDecision(x, p, live).Some?
    ensures SnapshotDecision(x, p, live).value <==> SnapshotTouched(x, p, live)
  {
  }
}

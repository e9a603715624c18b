/** What one run of a policy aims at, and which workloads and rows it takes up. */
module RunSelection {
  import opened Options
  import opened SnapshotProtocol
  import Targeting
  import PolicyScopes
  import Sorting
  import WorkPool
  import Text

  type Exceptions = Option<seq<Targeting.Exception>>

  /** The policy, the labels of the live workloads, and the active exceptions as they are read by the
      filter over the whole selection (`first`), by that filter for one snapshot (`seen`), and by the
      worker of one workload (`active`); None when that read fails. */
  datatype Scope = Scope(
    syntax: Targeting.Syntax,
    policy: Targeting.Policy,
    labels: Key -> map<string, string>,
    first: Exceptions,
    seen: Key -> Exceptions,
    active: Key -> Exceptions)
  {
    function WorkloadOf(k: Key): Targeting.Workload {
      Targeting.Workload(k.kind, k.namespace, k.name, labels(k))
    }

    /** What the filter of the worker for `k` says; None is an error. */
    ghost function Verdict(k: Key, direction: Targeting.Direction): Option<bool> {
      Targeting.Verdict(syntax, policy, active(k), WorkloadOf(k), direction)
    }

    /** The policy boundary and the exception scope admit the workload, and no exception that its worker
        read protects it. */
    ghost predicate MayTouch(k: Key, direction: Targeting.Direction) {
      active(k).Some? && Targeting.MayTouch(syntax, policy, active(k).value, WorkloadOf(k), direction)
    }

    lemma VerdictRight(k: Key, direction: Targeting.Direction)
      ensures Verdict(k, direction) == Some(true) ==> MayTouch(k, direction)
      ensures MayTouch(k, direction) ==> Verdict(k, direction) != Some(false)
    {
      if Verdict(k, direction).Some? {
        Targeting.DecidesRight(syntax, policy, active(k).value, WorkloadOf(k), direction);
      }
    }

    lemma VerdictsRight(direction: Targeting.Direction)
      ensures forall k :: Verdict(k, direction) == Some(true) ==> MayTouch(k, direction)
      ensures forall k :: MayTouch(k, direction) ==> Verdict(k, direction) != Some(false)
    {
      forall k
        ensures Verdict(k, direction) == Some(true) ==> MayTouch(k, direction)
        ensures MayTouch(k, direction) ==> Verdict(k, direction) != Some(false)
      {
        VerdictRight(k, direction);
      }
    }
  }

  // ---------------------------------------------------------------- what a sleep selects

  function KeyOf(w: Targeting.Workload): Key {
    Key(w.kind, w.namespace, w.name)
  }

  function Keys(ws: seq<Targeting.Workload>): seq<Key> {
    seq(|ws|, i requires 0 <= i < |ws| => KeyOf(ws[i]))
  }

  /** Listed, in the policy's namespaces, and not in a protected namespace. */
  ghost predicate InSelection(scope: Scope, listed: seq<Targeting.Workload>, skip: set<string>, w: Targeting.Workload) {
    w in listed && w.namespace !in skip && PolicyScopes.InScope(scope.policy.namespaceFilter, w.namespace)
  }

  ghost predicate Targeted(scope: Scope, listed: seq<Targeting.Workload>, skip: set<string>, w: Targeting.Workload) {
    && InSelection(scope, listed, skip, w)
    && scope.first.Some? && Targeting.MayTouch(scope.syntax, scope.policy, scope.first.value, w, Targeting.Sleep)
  }

  /** The key of a workload that a sleep is to put to zero. */
  ghost predicate Aimed(scope: Scope, listed: seq<Targeting.Workload>, skip: set<string>, k: Key) {
    exists w :: Targeted(scope, listed, skip, w) && KeyOf(w) == k
  }

  ghost function Offered(scope: Scope, listed: seq<Targeting.Workload>, skip: set<string>): seq<Targeting.Workload> {
    PolicyScopes.Selected(listed, skip, scope.policy.namespaceFilter)
  }

  ghost function Kept(scope: Scope, listed: seq<Targeting.Workload>, skip: set<string>): seq<Targeting.Workload>
    requires scope.first.Some?
  {
    Targeting.Kept(scope.syntax, scope.policy, scope.first.value, Offered(scope, listed, skip), Targeting.Sleep)
  }

  /** The exceptions cannot be read, or one of the selected workloads cannot be decided. */
  ghost predicate SelectionFails(scope: Scope, listed: seq<Targeting.Workload>, skip: set<string>) {
    scope.first.None? ||
    Targeting.Failing(scope.syntax, scope.policy, scope.first.value, Offered(scope, listed, skip), Targeting.Sleep)
  }

  /** How many selected workloads the filter takes out again. */
  ghost function HeldBack(scope: Scope, listed: seq<Targeting.Workload>, skip: set<string>): int
    requires scope.first.Some?
  {
    |Offered(scope, listed, skip)| - |Kept(scope, listed, skip)|
  }

  /** The policy found this row's workload at zero when it first fell asleep. */
  predicate FoundAtZero(rows: Table, read: map<Key, nat>, k: Key) {
    k in read && read[k] in rows && rows[read[k]].alreadyZero
  }

  /** A sleep that was begun for this row and is not known to be done. */
  predicate Unresolved(rows: Table, id: nat) {
    id in rows && rows[id].phase.Prepared? && !rows[id].alreadyZero
  }

  lemma KeysLast(ws: seq<Targeting.Workload>)
    requires ws != []
    ensures Keys(ws) == Keys(ws[..|ws| - 1]) + [KeyOf(ws[|ws| - 1])]
  {
  }

  lemma KeysMember(ws: seq<Targeting.Workload>, w: Targeting.Workload)
    requires w in ws
    ensures KeyOf(w) in Keys(ws)
  {
    var i :| 0 <= i < |ws| && ws[i] == w;
    assert Keys(ws)[i] == KeyOf(w);
  }

  lemma KeysFrom(ws: seq<Targeting.Workload>, k: Key) returns (w: Targeting.Workload)
    requires k in Keys(ws)
    ensures w in ws && KeyOf(w) == k
  {
    var i :| 0 <= i < |ws| && Keys(ws)[i] == k;
    w := ws[i];
  }

  lemma UniqueLast(keys: seq<Key>, k: Key)
    ensures Sorting.Unique(keys + [k]) <==> Sorting.Unique(keys) && k !in keys
  {
    if Sorting.Unique(keys + [k]) {
      assert forall i :: 0 <= i < |keys| ==> (keys + [k])[i] == keys[i];
      assert (keys + [k])[|keys|] == k;
    }
  }

  /** Taking over the last workload, or not, keeps the keys unique. */
  lemma UniqueKeysGrow(before: seq<Targeting.Workload>, ws: seq<Targeting.Workload>)
    requires ws != [] && Sorting.Unique(Keys(ws))
    requires Sorting.Unique(Keys(before)) && forall k :: k in Keys(before) ==> k in Keys(ws[..|ws| - 1])
    ensures Sorting.Unique(Keys(before + [ws[|ws| - 1]]))
    ensures forall k :: k in Keys(before + [ws[|ws| - 1]]) ==> k in Keys(ws)
    ensures forall k :: k in Keys(before) ==> k in Keys(ws)
  {
    var n := |ws| - 1;
    KeysLast(ws);
    UniqueLast(Keys(ws[..n]), KeyOf(ws[n]));
    KeysLast(before + [ws[n]]);
    assert (before + [ws[n]])[..|before|] == before;
    UniqueLast(Keys(before), KeyOf(ws[n]));
  }

  lemma UniqueKeysPrefix(ws: seq<Targeting.Workload>)
    requires ws != [] && Sorting.Unique(Keys(ws))
    ensures Sorting.Unique(Keys(ws[..|ws| - 1]))
  {
    KeysLast(ws);
    UniqueLast(Keys(ws[..|ws| - 1]), KeyOf(ws[|ws| - 1]));
  }

  lemma {:induction false} SelectedUnique(listed: seq<Targeting.Workload>, skip: set<string>, filter: string)
    requires Sorting.Unique(Keys(listed))
    ensures Sorting.Unique(Keys(PolicyScopes.Selected(listed, skip, filter)))
    ensures forall k :: k in Keys(PolicyScopes.Selected(listed, skip, filter)) ==> k in Keys(listed)
  {
    if listed != [] {
      var n := |listed| - 1;
      var before := PolicyScopes.Selected(listed[..n], skip, filter);
      UniqueKeysPrefix(listed);
      SelectedUnique(listed[..n], skip, filter);
      UniqueKeysGrow(before, listed);
      assert before + [] == before;
    }
  }

  lemma {:induction false} KeptUnique(x: Targeting.Syntax, p: Targeting.Policy, es: seq<Targeting.Exception>,
                                      ws: seq<Targeting.Workload>, direction: Targeting.Direction)
    requires Sorting.Unique(Keys(ws))
    ensures Sorting.Unique(Keys(Targeting.Kept(x, p, es, ws, direction)))
    ensures forall k :: k in Keys(Targeting.Kept(x, p, es, ws, direction)) ==> k in Keys(ws)
  {
    if ws != [] {
      var n := |ws| - 1;
      var before := Targeting.Kept(x, p, es, ws[..n], direction);
      UniqueKeysPrefix(ws);
      KeptUnique(x, p, es, ws[..n], direction);
      UniqueKeysGrow(before, ws);
      assert before + [] == before;
    }
  }

  lemma {:induction false} KeptAll(x: Targeting.Syntax, p: Targeting.Policy, es: seq<Targeting.Exception>,
                                   ws: seq<Targeting.Workload>, direction: Targeting.Direction)
    ensures |Targeting.Kept(x, p, es, ws, direction)| <= |ws|
    ensures |Targeting.Kept(x, p, es, ws, direction)| == |ws| ==> Targeting.Kept(x, p, es, ws, direction) == ws
  {
    if ws != [] {
      var n := |ws| - 1;
      KeptAll(x, p, es, ws[..n], direction);
      assert ws == ws[..n] + [ws[n]];
    }
  }

  /** The filtered list holds exactly the targeted workloads, each once. */
  lemma SelectionRight(scope: Scope, listed: seq<Targeting.Workload>, skip: set<string>)
    requires scope.first.Some? && Sorting.Unique(Keys(listed))
    requires !Targeting.Failing(scope.syntax, scope.policy, scope.first.value, Offered(scope, listed, skip), Targeting.Sleep)
    ensures Sorting.Unique(Keys(Kept(scope, listed, skip)))
    ensures forall k :: k in Keys(Kept(scope, listed, skip)) ==> k in Keys(listed)
    ensures forall w :: w in Kept(scope, listed, skip) <==> Targeted(scope, listed, skip, w)
    ensures HeldBack(scope, listed, skip) == 0 ==>
              forall w :: InSelection(scope, listed, skip, w) ==> Targeted(scope, listed, skip, w)
  {
    var filter := scope.policy.namespaceFilter;
    var offered := Offered(scope, listed, skip);
    SelectedUnique(listed, skip, filter);
    KeptUnique(scope.syntax, scope.policy, scope.first.value, offered, Targeting.Sleep);
    KeptAll(scope.syntax, scope.policy, scope.first.value, offered, Targeting.Sleep);
    forall w
      ensures w in Kept(scope, listed, skip) <==> Targeted(scope, listed, skip, w)
      ensures w in offered <==> InSelection(scope, listed, skip, w)
    {
      PolicyScopes.SelectedInScope(listed, skip, filter, w);
      Targeting.KeptExactly(scope.syntax, scope.policy, scope.first.value, offered, Targeting.Sleep, w);
    }
  }

  /** The selection of RunPolicySleep; `whole` tells that the filter took nothing out again. */
  method SelectEntries(scope: Scope, deployments: seq<Targeting.Workload>, statefulSets: seq<Targeting.Workload>,
                       skip: set<string>, priorities: string)
    returns (keys: Option<seq<Key>>, skipped: nat, whole: bool)
    requires Sorting.Unique(Keys(deployments + statefulSets))
    ensures keys.None? <==> SelectionFails(scope, deployments + statefulSets, skip)
    ensures keys.Some? ==> scope.first.Some? && Sorting.Unique(keys.value)
    ensures keys.Some? ==> forall k :: k in keys.value <==> Aimed(scope, deployments + statefulSets, skip, k)
    ensures keys.Some? ==> forall k :: k in keys.value ==> k in Keys(deployments + statefulSets)
    ensures keys.Some? ==> |keys.value| + skipped + HeldBack(scope, deployments + statefulSets, skip) ==
                             |deployments| + |statefulSets|
    ensures keys.Some? ==> (whole <==> HeldBack(scope, deployments + statefulSets, skip) == 0)
    ensures keys.Some? && whole ==> forall w :: InSelection(scope, deployments + statefulSets, skip, w) ==>
              Aimed(scope, deployments + statefulSets, skip, KeyOf(w))
  {
    ghost var listed := deployments + statefulSets;
    var entries;
    entries, skipped := PolicyScopes.CollectFilteredEntries(deployments, statefulSets, skip, scope.policy.namespaceFilter, 0);
    var kept := Targeting.FilterEntries(scope.syntax, scope.policy, scope.first, entries, Targeting.Sleep);
    if kept.None? {
      return None, skipped, false;
    }
    SelectionRight(scope, listed, skip);
    var sorted := WorkPool.SortByPriorityNamespaces(Keys(kept.value), priorities, (k: Key) => k.namespace);
    Sorting.PermutedUnique(Keys(kept.value), sorted);
    Sorting.SameElements(Keys(kept.value), sorted);
    forall k
      ensures k in sorted <==> Aimed(scope, listed, skip, k)
    {
      if k in sorted {
        var w := KeysFrom(kept.value, k);
      }
      if Aimed(scope, listed, skip, k) {
        var w :| Targeted(scope, listed, skip, w) && KeyOf(w) == k;
        KeysMember(kept.value, w);
      }
    }
    keys, whole := Some(sorted), |kept.value| == |entries|;
  }

  // ---------------------------------------------------------------- which rows a wake takes up

  function LookupOf(scope: Scope, k: Key, existing: bool): Targeting.Lookup {
    if existing then Targeting.Live(scope.WorkloadOf(k), scope.seen(k)) else Targeting.Gone
  }

  /** The row lies in the policy's namespaces; and either no exception is active and none was selected, or
      the wake may touch its workload, or that is gone and the wake is not narrowed to an exception. */
  ghost predicate Chosen(scope: Scope, snaps: seq<Key>, k: Key, existing: bool) {
    && k in snaps && PolicyScopes.InScope(scope.policy.namespaceFilter, k.namespace)
    && ((scope.first == Some([]) && scope.policy.scope.None?) ||
        Targeting.SnapshotTouched(scope.syntax, scope.policy, LookupOf(scope, k, existing)))
  }

  /** The exceptions cannot be read, or one of the live workloads of the rows in the policy's namespaces
      cannot be decided. */
  ghost predicate ChoiceFails(scope: Scope, snaps: seq<Key>, existing: set<Key>) {
    scope.first.None? ||
    (!(scope.first == Some([]) && scope.policy.scope.None?) &&
     exists k :: k in snaps && PolicyScopes.InScope(scope.policy.namespaceFilter, k.namespace) && k in existing && Undecided(scope, k))
  }

  ghost predicate Undecided(scope: Scope, k: Key) {
    Targeting.Verdict(scope.syntax, scope.policy, scope.seen(k), scope.WorkloadOf(k), Targeting.Wake).None?
  }

  /** With lookups that all succeed the filter over the rows fails exactly then. */
  lemma FailureRight(scope: Scope, snaps: seq<Key>, inScope: seq<Key>, live: seq<Targeting.Lookup>, existing: set<Key>)
    requires |live| == |inScope| && scope.first.Some? && !(scope.first == Some([]) && scope.policy.scope.None?)
    requires forall k :: k in inScope <==> k in snaps && PolicyScopes.InScope(scope.policy.namespaceFilter, k.namespace)
    requires forall i :: 0 <= i < |inScope| ==> live[i] == LookupOf(scope, inScope[i], inScope[i] in existing)
    ensures (exists i :: 0 <= i < |live| && Targeting.SnapshotDecision(scope.syntax, scope.policy, live[i]).None?) <==>
            ChoiceFails(scope, snaps, existing)
  {
    if i :| 0 <= i < |live| && Targeting.SnapshotDecision(scope.syntax, scope.policy, live[i]).None? {
      assert inScope[i] in inScope && Undecided(scope, inScope[i]);
    }
    if ChoiceFails(scope, snaps, existing) {
      var k :| k in snaps && PolicyScopes.InScope(scope.policy.namespaceFilter, k.namespace) && k in existing && Undecided(scope, k);
      assert k in inScope;
      var i :| 0 <= i < |inScope| && inScope[i] == k;
      assert Targeting.SnapshotDecision(scope.syntax, scope.policy, live[i]).None?;
    }
  }

  method FilterSnapshotsByNamespace(snaps: seq<Key>, filter: string) returns (result: seq<Key>)
    requires Sorting.Unique(snaps)
    ensures Sorting.Unique(result)
    ensures forall k :: k in result <==> k in snaps && PolicyScopes.InScope(filter, k.namespace)
  {
    if filter == "" {
      return snaps;
    }
    var allowed := Text.CsvSet(filter);
    result := [];
    for i := 0 to |snaps|
      invariant Sorting.Unique(result)
      invariant forall k :: k in result <==> k in snaps[..i] && k.namespace in allowed
    {
      assert snaps[..i + 1] == snaps[..i] + [snaps[i]];
      if snaps[i].namespace in allowed {
        UniqueLast(result, snaps[i]);
        result := result + [snaps[i]];
      }
    }
    assert snaps[..|snaps|] == snaps;
  }

  lemma {:induction false} KeptSnapshotsUnique(x: Targeting.Syntax, p: Targeting.Policy, snaps: seq<Key>, live: seq<Targeting.Lookup>)
    requires |snaps| == |live| && Sorting.Unique(snaps)
    ensures Sorting.Unique(Targeting.KeptSnapshots(x, p, snaps, live))
    ensures forall k :: k in Targeting.KeptSnapshots(x, p, snaps, live) ==> k in snaps
  {
    if snaps != [] {
      var n := |snaps| - 1;
      var before := Targeting.KeptSnapshots(x, p, snaps[..n], live[..n]);
      assert snaps == snaps[..n] + [snaps[n]];
      UniqueLast(snaps[..n], snaps[n]);
      KeptSnapshotsUnique(x, p, snaps[..n], live[..n]);
      UniqueLast(before, snaps[n]);
    }
  }

  /** The filter over the rows keeps exactly the chosen ones, each once. */
  lemma ChosenRight(scope: Scope, snaps: seq<Key>, inScope: seq<Key>, live: seq<Targeting.Lookup>, kept: seq<Key>, existing: set<Key>)
    requires |live| == |inScope| && Sorting.Unique(inScope)
    requires forall k :: k in inScope <==> k in snaps && PolicyScopes.InScope(scope.policy.namespaceFilter, k.namespace)
    requires forall i :: 0 <= i < |inScope| ==>
               live[i].LookupError? || live[i] == LookupOf(scope, inScope[i], inScope[i] in existing)
    requires if scope.first == Some([]) && scope.policy.scope.None? then kept == inScope
             else (forall i :: 0 <= i < |live| ==> Targeting.SnapshotDecision(scope.syntax, scope.policy, live[i]).Some?) &&
                  kept == Targeting.KeptSnapshots(scope.syntax, scope.policy, inScope, live)
    ensures Sorting.Unique(kept)
    ensures forall k :: k in kept <==> Chosen(scope, snaps, k, k in existing)
  {
    if !(scope.first == Some([]) && scope.policy.scope.None?) {
      KeptSnapshotsUnique(scope.syntax, scope.policy, inScope, live);
      forall k
        ensures k in kept <==> Chosen(scope, snaps, k, k in existing)
      {
        ChosenOne(scope, inScope, live, k, existing);
      }
    }
  }

  lemma ChosenOne(scope: Scope, inScope: seq<Key>, live: seq<Targeting.Lookup>, k: Key, existing: set<Key>)
    requires |live| == |inScope|
    requires forall i :: 0 <= i < |inScope| ==>
               live[i].LookupError? || live[i] == LookupOf(scope, inScope[i], inScope[i] in existing)
    requires forall i :: 0 <= i < |live| ==> Targeting.SnapshotDecision(scope.syntax, scope.policy, live[i]).Some?
    ensures k in Targeting.KeptSnapshots(scope.syntax, scope.policy, inScope, live) <==>
            k in inScope && Targeting.SnapshotTouched(scope.syntax, scope.policy, LookupOf(scope, k, k in existing))
  {
    Targeting.KeptSnapshotsExactly(scope.syntax, scope.policy, inScope, live, k);
    if k in inScope {
      var i :| 0 <= i < |inScope| && inScope[i] == k;
      assert Targeting.SnapshotDecision(scope.syntax, scope.policy, live[i]).Some?;
      assert live[i] == LookupOf(scope, k, k in existing);
    }
  }
}

/** Stored apply-mode policies have disjoint namespace scopes, so their scheduled sleeps select
    disjoint workloads. */
module PolicyScopes {
  import opened Options
  import opened Text
  import opened Targeting

  datatype Row = Row(name: string, namespaceFilter: string, apply: bool)

  /** The policy's scope contains the namespace; an empty filter means all. */
  predicate InScope(filter: string, namespace: string) {
    filter == "" || namespace in CsvSet(filter)
  }

  /** What the guard calls an overlap of two filters. */
  predicate FiltersOverlap(a: string, b: string) {
    a == "" || b == "" || exists ns :: ns in CsvSet(a) && ns in CsvSet(b)
  }

  ghost predicate SelectsSome(filter: string) {
    exists ns: string :: InScope(filter, ns)
  }

  /** Filters that share a namespace overlap; and filters that overlap share one, unless one of them is
      a list of blanks that selects nothing at all. */
  lemma OverlapExactly(a: string, b: string)
    ensures (exists ns: string :: InScope(a, ns) && InScope(b, ns)) <==> FiltersOverlap(a, b) && SelectsSome(a) && SelectsSome(b)
  {
    if FiltersOverlap(a, b) && SelectsSome(a) && SelectsSome(b) {
      var x: string :| InScope(a, x);
      var y: string :| InScope(b, y);
      if a != "" && b != "" {
        var ns :| ns in CsvSet(a) && ns in CsvSet(b);
        assert InScope(a, ns) && InScope(b, ns);
      } else if a == "" {
        assert InScope(a, y) && InScope(b, y);
      } else {
        assert InScope(a, x) && InScope(b, x);
      }
    }
  }

  ghost predicate OverlapsOther(rows: map<nat, Row>, exclude: nat, filter: string) {
    exists id :: id in rows && id != exclude && rows[id].apply && FiltersOverlap(filter, rows[id].namespaceFilter)
  }

  /** No namespace is in the scope of two apply-mode policies. */
  ghost predicate DisjointScopes(rows: map<nat, Row>) {
    forall a, b, ns: string :: a in rows && b in rows && a != b && rows[a].apply && rows[b].apply && InScope(rows[a].namespaceFilter, ns) ==>
                                 !InScope(rows[b].namespaceFilter, ns)
  }

  lemma GuardedRowKeeps(rows: map<nat, Row>, id: nat, row: Row)
    requires DisjointScopes(rows) && (row.apply ==> !OverlapsOther(rows, id, row.namespaceFilter))
    ensures DisjointScopes(rows[id := row])
  {
  }

  datatype Answer = Stored(id: nat) | Conflict | NotFound

  class PolicyStore {
    var rows: map<nat, Row>
    var nextId: nat

    ghost predicate Valid()
      reads this
    {
      nextId > 0 && (forall id :: id in rows ==> 0 < id < nextId) && DisjointScopes(rows)
    }

    constructor ()
      ensures Valid() && rows == map[]
    {
      rows, nextId := map[], 1;
    }

    /** namespacesOverlap: looks up the members of the smaller set in the larger one. */
    method NamespacesOverlap(first: set<string>, second: set<string>) returns (overlap: bool)
      ensures overlap <==> exists ns :: ns in first && ns in second
    {
      var a, b := first, second;
      if |a| > |b| {
        a, b := b, a;
      }
      var todo := a;
      while todo != {}
        invariant todo <= a && forall ns :: ns in a && ns !in todo ==> ns !in b
        decreases todo
      {
        var ns :| ns in todo;
        if ns in b {
          return true;
        }
        todo := todo - {ns};
      }
      return false;
    }

    /** HasApplyPolicyOverlap; enabled or not, every apply-mode policy but `exclude` counts. */
    method HasApplyPolicyOverlap(exclude: nat, filter: string) returns (overlap: bool)
      ensures overlap <==> OverlapsOther(rows, exclude, filter)
    {
      var todo := rows.Keys;
      var namespaces := CsvSet(filter);
      while todo != {}
        invariant todo <= rows.Keys
        invariant forall id :: id in rows && id !in todo && id != exclude && rows[id].apply ==>
                    !FiltersOverlap(filter, rows[id].namespaceFilter)
        decreases todo
      {
        var id: nat :| id in todo;
        todo := todo - {id};
        if id != exclude && rows[id].apply {
          if filter == "" || rows[id].namespaceFilter == "" {
            return true;
          }
          var shared := NamespacesOverlap(namespaces, CsvSet(rows[id].namespaceFilter));
          if shared {
            return true;
          }
        }
      }
      return false;
    }

    method Insert(row: Row) returns (id: nat)
      requires Valid() && (row.apply ==> !OverlapsOther(rows, nextId, row.namespaceFilter))
      modifies this
      ensures Valid() && id == old(nextId) && rows == old(rows)[id := row]
    {
      GuardedRowKeeps(rows, nextId, row);
      id := nextId;
      rows, nextId := rows[id := row], nextId + 1;
    }

    /** In every state that the operations can leave behind, two stored apply-mode policies never select the
        same workload. */
    lemma DisjointSelections(a: nat, b: nat, workloads: seq<Workload>, skip: set<string>, w: Workload)
      requires Valid() && a in rows && b in rows && a != b && rows[a].apply && rows[b].apply
      requires w in Selected(workloads, skip, rows[a].namespaceFilter)
      ensures w !in Selected(workloads, skip, rows[b].namespaceFilter)
    {
      SelectionsApart(rows, a, b, workloads, skip, w);
    }

    /** createPolicy; ids start at 1, so nothing is excluded. */
    method CreatePolicy(name: string, filter: string, apply: bool) returns (answer: Answer)
      requires Valid()
      modifies this
      ensures Valid()
      ensures answer.Conflict? <==> apply && OverlapsOther(old(rows), 0, filter)
      ensures answer.Conflict? ==> rows == old(rows)
      ensures !answer.Conflict? ==> answer == Stored(old(nextId)) && rows == old(rows)[old(nextId) := Row(name, filter, apply)]
    {
      if apply {
        var overlap := HasApplyPolicyOverlap(0, filter);
        if overlap {
          return Conflict;
        }
      }
      var id := Insert(Row(name, filter, apply));
      return Stored(id);
    }

    /** updatePolicy with checkPolicyOverlap: the final mode and the final filter count. */
    method UpdatePolicy(id: nat, filter: Option<string>, apply: Option<bool>) returns (answer: Answer)
      requires Valid()
      modifies this
      ensures Valid()
      ensures answer.NotFound? <==> id !in old(rows)
      ensures id in old(rows) ==>
                var row := old(rows)[id].(namespaceFilter := if filter.Some? then filter.value else old(rows)[id].namespaceFilter,
                                          apply := if apply.Some? then apply.value else old(rows)[id].apply);
                && (answer.Conflict? <==> row.apply && OverlapsOther(old(rows), id, row.namespaceFilter))
                && (answer.Stored? ==> rows == old(rows)[id := row])
      ensures !answer.Stored? ==> rows == old(rows)
    {
      if id !in rows {
        return NotFound;
      }
      var row := rows[id].(namespaceFilter := if filter.Some? then filter.value else rows[id].namespaceFilter,
                           apply := if apply.Some? then apply.value else rows[id].apply);
      if row.apply {
        var overlap := HasApplyPolicyOverlap(id, row.namespaceFilter);
        if overlap {
          return Conflict;
        }
      }
      GuardedRowKeeps(rows, id, row);
      rows := rows[id := row];
      return Stored(id);
    }

    /** A new policy by import, under its own or under a new name: always in plan mode. */
    method ImportPolicy(name: string, filter: string) returns (id: nat)
      requires Valid()
      modifies this
      ensures Valid() && id == old(nextId) && rows == old(rows)[id := Row(name, filter, false)]
    {
      id := Insert(Row(name, filter, false));
    }

    /** overwritePolicy: an imported policy loses apply mode. */
    method OverwritePolicy(id: nat, name: string, filter: string)
      requires Valid() && id in rows
      modifies this
      ensures Valid() && rows == old(rows)[id := Row(name, filter, false)]
    {
      GuardedRowKeeps(rows, id, Row(name, filter, false));
      rows := rows[id := Row(name, filter, false)];
    }
  }

  // ---------------------------------------------------------------- what a sleep selects

  ghost function Selected(workloads: seq<Workload>, skip: set<string>, filter: string): seq<Workload> {
    if workloads == [] then []
    else
      var n := |workloads| - 1;
      Selected(workloads[..n], skip, filter) +
      (if workloads[n].namespace in skip || !InScope(filter, workloads[n].namespace) then [] else [workloads[n]])
  }

  /** collectFilteredEntries: deployments, then stateful sets; every workload left out counts as skipped. */
  method CollectFilteredEntries(deployments: seq<Workload>, statefulSets: seq<Workload>, skip: set<string>, filter: string, skippedBefore: nat)
    returns (entries: seq<Workload>, skipped: nat)
    ensures entries == Selected(deployments + statefulSets, skip, filter)
    ensures skipped + |entries| == skippedBefore + |deployments| + |statefulSets|
  {
    var allowed := CsvSet(filter);
    var all := deployments + statefulSets;
    entries, skipped := [], skippedBefore;
    for i := 0 to |all|
      invariant entries == Selected(all[..i], skip, filter) && skipped + |entries| == skippedBefore + i
    {
      assert all[..i + 1][..i] == all[..i];
      if all[i].namespace in skip || !(filter == "" || all[i].namespace in allowed) {
        skipped := skipped + 1;
        assert Selected(all[..i + 1], skip, filter) == Selected(all[..i], skip, filter);
        continue;
      }
      entries := entries + [all[i]];
    }
    assert all[..|all|] == all;
  }

  lemma {:induction false} SelectedInScope(workloads: seq<Workload>, skip: set<string>, filter: string, w: Workload)
    ensures w in Selected(workloads, skip, filter) <==> w in workloads && w.namespace !in skip && InScope(filter, w.namespace)
  {
    if workloads != [] {
      var n := |workloads| - 1;
      SelectedInScope(workloads[..n], skip, filter, w);
      assert workloads == workloads[..n] + [workloads[n]];
    }
  }

  lemma SelectionsApart(rows: map<nat, Row>, a: nat, b: nat, workloads: seq<Workload>, skip: set<string>, w: Workload)
    requires DisjointScopes(rows) && a in rows && b in rows && a != b && rows[a].apply && rows[b].apply
    requires w in Selected(workloads, skip, rows[a].namespaceFilter)
    ensures w !in Selected(workloads, skip, rows[b].namespaceFilter)
  {
    SelectedInScope(workloads, skip, rows[a].namespaceFilter, w);
    SelectedInScope(workloads, skip, rows[b].namespaceFilter, w);
  }
}

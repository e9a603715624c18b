/** Priority order and waves. */
module WorkPool {
  import opened Options
  import opened Text
  import Sorting

  const DEFAULT_CONCURRENCY: nat := 10

  // ---------------------------------------------------------------- priority namespaces

  /** The values in order of their first occurrence. */
  function Distinct(values: seq<string>): (d: seq<string>)
    ensures forall v :: v in d <==> v in values
    ensures forall i, j :: 0 <= i < j < |d| ==> d[i] != d[j]
  {
    if values == [] then []
    else
      var n := |values| - 1;
      assert values == values[..n] + [values[n]];
      if values[n] in Distinct(values[..n]) then Distinct(values[..n]) else Distinct(values[..n]) + [values[n]]
  }

  /** Each namespace of the list is mapped to its place. */
  ghost predicate Ranks(rank: map<string, nat>, order: seq<string>) {
    && (forall i :: 0 <= i < |order| ==> order[i] in rank && rank[order[i]] == i)
    && (forall ns :: ns in rank ==> rank[ns] < |order| && order[rank[ns]] == ns)
  }

  /** parsePriorityList; None when the text names no namespace. */
  method ParsePriorityList(csv: string) returns (rank: Option<map<string, nat>>)
    ensures rank.None? <==> SplitCsv(csv) == []
    ensures rank.Some? ==> Ranks(rank.value, Distinct(SplitCsv(csv)))
  {
    var parts := Split(csv, ',');
    var m: map<string, nat> := map[];
    var idx := 0;
    for i := 0 to |parts|
      invariant Ranks(m, Distinct(Trimmed(parts[..i]))) && idx == |Distinct(Trimmed(parts[..i]))|
    {
      var ns := TrimSpace(parts[i]);
      TrimmedAppend(parts, i);
      if ns == "" {
        assert Trimmed(parts[..i + 1]) == Trimmed(parts[..i]);
        continue;
      }
      RanksGrow(m, Trimmed(parts[..i]), ns);
      if ns !in m {
        m := m[ns := idx];
        idx := idx + 1;
      }
    }
    assert parts[..|parts|] == parts;
    if idx == 0 {
      assert forall v :: v in SplitCsv(csv) <==> v in Distinct(SplitCsv(csv));
      return None;
    }
    return Some(m);
  }

  lemma RanksGrow(m: map<string, nat>, values: seq<string>, ns: string)
    requires Ranks(m, Distinct(values))
    ensures Ranks(if ns in m then m else m[ns := |Distinct(values)|], Distinct(values + [ns]))
    ensures |Distinct(values + [ns])| == |Distinct(values)| + (if ns in m then 0 else 1)
  {
    DistinctGrows(values, ns);
    RanksExtend(m, Distinct(values), ns);
  }

  lemma DistinctGrows(values: seq<string>, ns: string)
    ensures Distinct(values + [ns]) == if ns in Distinct(values) then Distinct(values) else Distinct(values) + [ns]
  {
    assert (values + [ns])[..|values|] == values;
  }

  lemma RanksExtend(m: map<string, nat>, order: seq<string>, ns: string)
    requires Ranks(m, order)
    ensures ns in m <==> ns in order
    ensures ns !in m ==> Ranks(m[ns := |order|], order + [ns])
  {
  }

  lemma {:induction false} TrimmedAll(parts: seq<string>, last: string)
    ensures Trimmed(parts + [last]) == Trimmed(parts) + (if TrimSpace(last) == "" then [] else [TrimSpace(last)])
  {
    if parts == [] {
      assert parts + [last] == [last] && [last][1..] == [];
    } else {
      TrimmedAll(parts[1..], last);
      assert (parts + [last])[1..] == parts[1..] + [last];
    }
  }

  lemma TrimmedAppend(parts: seq<string>, i: nat)
    requires i < |parts|
    ensures Trimmed(parts[..i + 1]) == Trimmed(parts[..i]) + (if TrimSpace(parts[i]) == "" then [] else [TrimSpace(parts[i])])
  {
    assert parts[..i + 1] == parts[..i] + [parts[i]];
    TrimmedAll(parts[..i], parts[i]);
  }

  // ---------------------------------------------------------------- sorting by priority

  /** Listed namespaces by their place, all others after them. */
  function RankOf<T>(rank: map<string, nat>, ns: T -> string): T -> int {
    item => if ns(item) in rank then rank[ns(item)] else |rank|
  }

  /** The buckets hold the items of their rank, in order, and the rest those without a rank. */
  ghost predicate Sorted<T>(buckets: map<int, seq<T>>, rest: seq<T>, items: seq<T>, key: T -> int, most: nat) {
    && (forall k: int :: k < most ==> Bucket(buckets, k) == Sorting.WithKey(items, key, k))
    && rest == Sorting.WithKey(items, key, most)
  }

  method FillBuckets<T>(items: seq<T>, rank: map<string, nat>, ns: T -> string) returns (buckets: map<int, seq<T>>, rest: seq<T>)
    requires forall n :: n in rank ==> rank[n] < |rank|
    ensures Sorted(buckets, rest, items, RankOf(rank, ns), |rank|)
  {
    ghost var key := RankOf(rank, ns);
    rest, buckets := [], map[];
    for i := 0 to |items|
      invariant Sorted(buckets, rest, items[..i], key, |rank|)
    {
      var item := items[i];
      OneMoreItem(items, key, i);
      if ns(item) in rank {
        var r := rank[ns(item)];
        buckets := buckets[r := Bucket(buckets, r) + [item]];
      } else {
        rest := rest + [item];
      }
    }
    assert items[..|items|] == items;
  }

  /** Ascending, and exactly the items with a key below `i`, stably. */
  ghost predicate UpTo<T>(sorted: seq<T>, items: seq<T>, key: T -> int, i: int) {
    && Sorting.Ascending(sorted, key) && (forall j :: 0 <= j < |sorted| ==> 0 <= key(sorted[j]) < i)
    && (forall k :: Sorting.WithKey(sorted, key, k) == if 0 <= k < i then Sorting.WithKey(items, key, k) else [])
  }

  /** sortByPriority: the buckets one after the other, then the rest.  It is the stable sort by rank. */
  method SortByPriority<T>(items: seq<T>, rank: map<string, nat>, ns: T -> string) returns (sorted: seq<T>)
    requires forall n :: n in rank ==> rank[n] < |rank|
    ensures sorted == Sorting.Sort(items, RankOf(rank, ns))
  {
    ghost var key := RankOf(rank, ns);
    var buckets, rest := FillBuckets(items, rank, ns);
    sorted := [];
    for i := 0 to |rank|
      invariant UpTo(sorted, items, key, i)
    {
      AppendBucket(sorted, Bucket(buckets, i), items, key, i);
      sorted := sorted + Bucket(buckets, i);
    }
    AppendBucket(sorted, rest, items, key, |rank|);
    sorted := sorted + rest;
    RanksBound(rank, ns);
    SameOrder(items, sorted, key, |rank|);
  }

  lemma RanksBound<T>(rank: map<string, nat>, ns: T -> string)
    requires forall n :: n in rank ==> rank[n] < |rank|
    ensures forall item: T :: 0 <= RankOf(rank, ns)(item) <= |rank|
  {
  }

  function Bucket<T>(buckets: map<int, seq<T>>, k: int): seq<T> {
    if k in buckets then buckets[k] else []
  }

  lemma OneMoreItem<T>(items: seq<T>, key: T -> int, i: nat)
    requires i < |items|
    ensures forall k :: Sorting.WithKey(items[..i + 1], key, k) ==
                        Sorting.WithKey(items[..i], key, k) + (if key(items[i]) == k then [items[i]] else [])
  {
    forall k
      ensures Sorting.WithKey(items[..i + 1], key, k) ==
              Sorting.WithKey(items[..i], key, k) + (if key(items[i]) == k then [items[i]] else [])
    {
      assert items[..i + 1] == items[..i] + [items[i]];
      Sorting.WithKeyAppend(items[..i], [items[i]], key, k);
      assert [items[i]][1..] == [];
    }
  }

  lemma {:induction false} BucketKeys<T>(items: seq<T>, key: T -> int, i: int, k: int)
    ensures var b := Sorting.WithKey(items, key, i);
            (forall j :: 0 <= j < |b| ==> key(b[j]) == i) && Sorting.WithKey(b, key, k) == if k == i then b else []
  {
    if items != [] {
      BucketKeys(items[1..], key, i, k);
      var b, t := Sorting.WithKey(items, key, i), Sorting.WithKey(items[1..], key, i);
      if key(items[0]) == i {
        assert b[1..] == t;
      } else {
        assert b == t;
      }
    }
  }

  lemma AppendBucket<T>(sorted: seq<T>, bucket: seq<T>, items: seq<T>, key: T -> int, i: nat)
    requires UpTo(sorted, items, key, i) && bucket == Sorting.WithKey(items, key, i)
    ensures UpTo(sorted + bucket, items, key, i + 1)
  {
    BucketKeys(items, key, i, 0);
    forall k
      ensures Sorting.WithKey(sorted + bucket, key, k) == if 0 <= k < i + 1 then Sorting.WithKey(items, key, k) else []
    {
      AppendOneKey(sorted, bucket, items, key, i, k);
    }
    AppendAscending(sorted, bucket, key, i);
  }

  lemma AppendOneKey<T>(sorted: seq<T>, bucket: seq<T>, items: seq<T>, key: T -> int, i: nat, k: int)
    requires bucket == Sorting.WithKey(items, key, i)
    requires Sorting.WithKey(sorted, key, k) == if 0 <= k < i then Sorting.WithKey(items, key, k) else []
    ensures Sorting.WithKey(sorted + bucket, key, k) == if 0 <= k < i + 1 then Sorting.WithKey(items, key, k) else []
  {
    Sorting.WithKeyAppend(sorted, bucket, key, k);
    BucketKeys(items, key, i, k);
  }

  lemma AppendAscending<T>(sorted: seq<T>, bucket: seq<T>, key: T -> int, i: nat)
    requires Sorting.Ascending(sorted, key) && (forall j :: 0 <= j < |sorted| ==> 0 <= key(sorted[j]) < i)
    requires forall j :: 0 <= j < |bucket| ==> key(bucket[j]) == i
    ensures Sorting.Ascending(sorted + bucket, key)
    ensures forall j :: 0 <= j < |sorted + bucket| ==> 0 <= key((sorted + bucket)[j]) < i + 1
  {
  }

  lemma SameOrder<T>(items: seq<T>, sorted: seq<T>, key: T -> int, most: nat)
    requires UpTo(sorted, items, key, most + 1)
    requires forall item :: 0 <= key(item) <= most
    ensures sorted == Sorting.Sort(items, key)
  {
    Sorting.SortSorts(items, key);
    forall k
      ensures Sorting.WithKey(sorted, key, k) == Sorting.WithKey(Sorting.Sort(items, key), key, k)
    {
      Sorting.SortStable(items, key, k);
      if !(0 <= k <= most) {
        Sorting.NoneWithKey(items, key, k);
      }
    }
    Sorting.StableUnique(sorted, Sorting.Sort(items, key), key);
  }

  lemma {:induction false} OrderSize(order: seq<string>)
    requires forall i, j :: 0 <= i < j < |order| ==> order[i] != order[j]
    ensures |set ns | ns in order| == |order|
  {
    if order != [] {
      var n := |order| - 1;
      OrderSize(order[..n]);
      assert order == order[..n] + [order[n]];
      assert (set ns | ns in order) == (set ns | ns in order[..n]) + {order[n]};
    }
  }

  lemma RanksFull(rank: map<string, nat>, order: seq<string>)
    requires Ranks(rank, order) && forall i, j :: 0 <= i < j < |order| ==> order[i] != order[j]
    ensures |rank| == |order|
  {
    OrderSize(order);
    assert rank.Keys == set ns | ns in order;
  }

  /** The list names `a`, and not `b` before or at that place, if at all. */
  ghost predicate Precedes(listed: seq<string>, a: string, b: string) {
    exists i :: 0 <= i < |listed| && listed[i] == a && forall j :: 0 <= j <= i ==> listed[j] != b
  }

  /** The items of which `p` holds, in their order. */
  ghost function Those<T>(s: seq<T>, p: T -> bool): seq<T> {
    if s == [] then [] else (if p(s[0]) then [s[0]] else []) + Those(s[1..], p)
  }

  ghost function OfNamespace<T>(s: seq<T>, ns: T -> string, v: string): seq<T> {
    Those(s, item => ns(item) == v)
  }

  /** As given when the list names nothing.  Otherwise no item comes after one whose namespace it precedes
      in the list, and items of one namespace, and those of namespaces that are not listed, keep their
      order. */
  ghost predicate PriorityOrder<T>(items: seq<T>, csv: string, ns: T -> string, sorted: seq<T>) {
    var listed := SplitCsv(csv);
    && multiset(sorted) == multiset(items)
    && (listed == [] ==> sorted == items)
    && (forall i, j :: 0 <= i < j < |sorted| ==> !Precedes(listed, ns(sorted[j]), ns(sorted[i])))
    && (forall v :: OfNamespace(sorted, ns, v) == OfNamespace(items, ns, v))
    && Those(sorted, item => ns(item) !in listed) == Those(items, item => ns(item) !in listed)
  }

  /** The first occurrences keep their order. */
  lemma {:induction false} DistinctOrder(values: seq<string>, i: nat, j: nat)
    requires i < j < |Distinct(values)|
    ensures Precedes(values, Distinct(values)[i], Distinct(values)[j])
  {
    var n := |values| - 1;
    var before := Distinct(values[..n]);
    var a, b := Distinct(values)[i], Distinct(values)[j];
    if j < |before| {
      DistinctOrder(values[..n], i, j);
      var k :| 0 <= k < n && values[..n][k] == a && forall l :: 0 <= l <= k ==> values[..n][l] != b;
      assert values[k] == a && forall l :: 0 <= l <= k ==> values[l] == values[..n][l];
    } else {
      assert a in values[..n] && b !in values[..n];
      var k :| 0 <= k < n && values[..n][k] == a;
      assert values[k] == a && forall l :: 0 <= l <= k ==> values[l] == values[..n][l];
    }
  }

  /** Precedence is the order of ranks. */
  lemma RankedBefore(listed: seq<string>, rank: map<string, nat>, a: string, b: string)
    requires Ranks(rank, Distinct(listed)) && Precedes(listed, a, b)
    ensures a in rank && (b in rank ==> rank[a] < rank[b])
  {
    var order := Distinct(listed);
    assert a in listed && a in order;
    var i :| 0 <= i < |order| && order[i] == a;
    if b in rank && rank[b] <= rank[a] {
      assert a != b;
      DistinctOrder(listed, rank[b], rank[a]);
      NotBoth(listed, a, b);
    }
  }

  lemma NotBoth(listed: seq<string>, a: string, b: string)
    requires Precedes(listed, a, b)
    ensures !Precedes(listed, b, a)
  {
    var i :| 0 <= i < |listed| && listed[i] == a && forall j :: 0 <= j <= i ==> listed[j] != b;
    forall k | 0 <= k < |listed| && listed[k] == b
      ensures exists j :: 0 <= j <= k && listed[j] == a
    {
      assert i < k && listed[i] == a;
    }
  }

  /** What holds only of items of one rank can be looked for among these. */
  lemma {:induction false} ThoseOfRank<T>(s: seq<T>, p: T -> bool, key: T -> int, k: int)
    requires forall item :: p(item) ==> key(item) == k
    ensures Those(s, p) == Those(Sorting.WithKey(s, key, k), p)
  {
    if s != [] {
      var rest := Sorting.WithKey(s[1..], key, k);
      ThoseOfRank(s[1..], p, key, k);
      if key(s[0]) == k {
        assert Sorting.WithKey(s, key, k) == [s[0]] + rest;
        assert ([s[0]] + rest)[1..] == rest;
      } else {
        assert Sorting.WithKey(s, key, k) == rest;
        assert !p(s[0]);
      }
    }
  }

  lemma SameThose<T>(items: seq<T>, p: T -> bool, key: T -> int, k: int)
    requires forall item :: p(item) ==> key(item) == k
    ensures Those(Sorting.Sort(items, key), p) == Those(items, p)
  {
    ThoseOfRank(items, p, key, k);
    ThoseOfRank(Sorting.Sort(items, key), p, key, k);
    Sorting.SortStable(items, key, k);
  }

  /** The stable order by rank is the priority order. */
  lemma RankOrderIsPriority<T>(items: seq<T>, csv: string, ns: T -> string, rank: map<string, nat>)
    requires Ranks(rank, Distinct(SplitCsv(csv))) && SplitCsv(csv) != []
    ensures PriorityOrder(items, csv, ns, Sorting.Sort(items, RankOf(rank, ns)))
  {
    var listed, key := SplitCsv(csv), RankOf(rank, ns);
    var sorted := Sorting.Sort(items, key);
    Sorting.SortSorts(items, key);
    RanksFull(rank, Distinct(listed));
    assert forall v :: v in rank <==> v in Distinct(listed);
    forall i, j | 0 <= i < j < |sorted|
      ensures !Precedes(listed, ns(sorted[j]), ns(sorted[i]))
    {
      assert key(sorted[i]) <= key(sorted[j]);
      if Precedes(listed, ns(sorted[j]), ns(sorted[i])) {
        RankedBefore(listed, rank, ns(sorted[j]), ns(sorted[i]));
      }
    }
    forall v
      ensures OfNamespace(sorted, ns, v) == OfNamespace(items, ns, v)
    {
      SameThose(items, item => ns(item) == v, key, if v in rank then rank[v] else |rank|);
    }
    SameThose(items, item => ns(item) !in listed, key, |rank|);
  }

  /** sortByPriorityNamespaces: listed namespaces in the order of the list, all others after them, and
      within a namespace the order given. */
  method SortByPriorityNamespaces<T>(items: seq<T>, csv: string, ns: T -> string) returns (sorted: seq<T>)
    ensures PriorityOrder(items, csv, ns, sorted)
  {
    var rank := ParsePriorityList(csv);
    if rank.None? {
      return items;
    }
    RanksFull(rank.value, Distinct(SplitCsv(csv)));
    sorted := SortByPriority(items, rank.value, ns);
    RankOrderIsPriority(items, csv, ns, rank.value);
  }

  // ---------------------------------------------------------------- waves

  function Concat<T>(waves: seq<seq<T>>): seq<T> {
    if waves == [] then [] else Concat(waves[..|waves| - 1]) + waves[|waves| - 1]
  }

  /** Ten when the setting makes no sense. */
  function WaveSize(size: int): (n: nat)
    ensures n > 0 && (size > 0 ==> n == size) && (size <= 0 ==> n == 10)
  {
    if size <= 0 then DEFAULT_CONCURRENCY else size
  }

  /** The waves together are the items, and all but the last are full. */
  ghost predicate Chunked<T>(items: seq<T>, size: nat, waves: seq<seq<T>>) {
    && Concat(waves) == items
    && forall w :: 0 <= w < |waves| ==> 0 < |waves[w]| <= size && (w < |waves| - 1 ==> |waves[w]| == size)
  }

  /** Each wave is a slice of the items. */
  lemma {:induction false} WaveSlice<T>(items: seq<T>, size: nat, waves: seq<seq<T>>, w: nat)
    requires Chunked(items, size, waves) && w < |waves|
    ensures w * size + |waves[w]| <= |items| && waves[w] == items[w * size..w * size + |waves[w]|]
    ensures w == |waves| - 1 ==> w * size + |waves[w]| == |items|
    decreases |waves|
  {
    var n := |waves| - 1;
    var init := Concat(waves[..n]);
    assert items == init + waves[n];
    FullWaves(waves[..n], size);
    if w < n {
      assert Chunked(init, size, waves[..n]);
      WaveSlice(init, size, waves[..n], w);
    }
  }

  lemma {:induction false} WavesEnough<T>(waves: seq<seq<T>>, size: nat)
    requires forall w :: 0 <= w < |waves| ==> |waves[w]| <= size
    ensures |Concat(waves)| <= |waves| * size
  {
    if waves != [] {
      WavesEnough(waves[..|waves| - 1], size);
      assert |waves| * size == (|waves| - 1) * size + size;
    }
  }

  lemma {:induction false} FullWaves<T>(waves: seq<seq<T>>, size: nat)
    requires forall w :: 0 <= w < |waves| ==> |waves[w]| == size
    ensures |Concat(waves)| == |waves| * size
  {
    if waves != [] {
      FullWaves(waves[..|waves| - 1], size);
      assert |waves| * size == (|waves| - 1) * size + size;
    }
  }

  /** chunkSnapshots: the waves together are the snapshots, and all but the last are full. */
  method ChunkSnapshots<T>(snaps: seq<T>, size: int) returns (waves: seq<seq<T>>)
    ensures Chunked(snaps, WaveSize(size), waves)
  {
    var most := WaveSize(size);
    waves := [];
    var i := 0;
    while i < |snaps|
      invariant Concat(waves) == snaps[..if i < |snaps| then i else |snaps|]
      invariant forall w :: 0 <= w < |waves| ==> 0 < |waves[w]| <= most && (i < |snaps| || w < |waves| - 1 ==> |waves[w]| == most)
      decreases |snaps| - i
    {
      var end := if i + most > |snaps| then |snaps| else i + most;
      assert (waves + [snaps[i..end]])[..|waves|] == waves;
      assert snaps[..end] == snaps[..i] + snaps[i..end];
      waves := waves + [snaps[i..end]];
      i := i + most;
    }
    assert snaps[..|snaps|] == snaps;
  }
}

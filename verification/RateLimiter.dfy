/** The sliding-window rate limiter agrees with a counter that never forgets. */
module RateLimiter {
  /** Times at which one key was allowed since its last reset, oldest first. */
  type History = seq<int>

  ghost predicate Ordered(h: History) {
    forall i, j :: 0 <= i < j < |h| ==> h[i] <= h[j]
  }

  /** How many of the events lie in the closed interval of this length. */
  ghost function CountIn(h: History, from: int, length: int): nat {
    if h == [] then 0
    else CountIn(h[..|h| - 1], from, length) + (if from <= h[|h| - 1] <= from + length then 1 else 0)
  }

  lemma {:induction false} CountSuffix(h: History, n: nat, from: int, length: int)
    requires n <= |h| && (forall i :: 0 <= i < n ==> h[i] < from) && (forall i :: n <= i < |h| ==> from <= h[i] <= from + length)
    ensures CountIn(h, from, length) == |h| - n
  {
    if h != [] {
      CountSuffix(h[..|h| - 1], if n < |h| then n else |h| - 1, from, length);
    }
  }

  lemma {:induction false} CountMonotone(h: History, a: int, b: int, length: int)
    requires forall i :: 0 <= i < |h| && a <= h[i] <= a + length ==> b <= h[i] <= b + length
    ensures CountIn(h, a, length) <= CountIn(h, b, length)
  {
    if h != [] {
      CountMonotone(h[..|h| - 1], a, b, length);
    }
  }

  /** What is kept of a key is the end of its history, nothing still within the window is missing, and
      no interval of the window's length holds more than `limit` events. */
  ghost predicate KeyOk(h: History, kept: seq<int>, limit: nat, window: nat, clock: int) {
    && Ordered(h) && (forall i :: 0 <= i < |h| ==> h[i] <= clock)
    && |kept| <= |h| && kept == h[|h| - |kept|..]
    && (forall i :: 0 <= i < |h| - |kept| ==> h[i] < clock - window)
    && (forall from: int :: CountIn(h, from, window) <= limit)
  }

  lemma EmptyOk(limit: nat, window: nat, clock: int)
    ensures KeyOk([], [], limit, window, clock)
  {
  }

  lemma LaterOk(h: History, kept: seq<int>, limit: nat, window: nat, clock: int, later: int)
    requires KeyOk(h, kept, limit, window, clock) && clock <= later
    ensures KeyOk(h, kept, limit, window, later)
  {
  }

  /** Dropping expired entries; what is left is what the window holds. */
  lemma PruneOk(h: History, kept: seq<int>, start: nat, limit: nat, window: nat, clock: int)
    requires KeyOk(h, kept, limit, window, clock) && start <= |kept|
    requires forall i :: 0 <= i < start ==> kept[i] < clock - window
    requires start < |kept| ==> kept[start] >= clock - window
    ensures KeyOk(h, kept[start..], limit, window, clock)
    ensures CountIn(h, clock - window, window) == |kept[start..]|
  {
    var n := |h| - |kept| + start;
    assert kept[start..] == h[n..];
    forall i | 0 <= i < n
      ensures h[i] < clock - window
    {
      if i >= |h| - |kept| {
        assert h[i] == kept[i - (|h| - |kept|)];
      }
    }
    assert start < |kept| ==> h[n] == kept[start];
    CountSuffix(h, n, clock - window, window);
  }

  lemma RecordOk(h: History, kept: seq<int>, limit: nat, window: nat, clock: int)
    requires KeyOk(h, kept, limit, window, clock) && CountIn(h, clock - window, window) < limit
    ensures KeyOk(h + [clock], kept + [clock], limit, window, clock)
  {
    var more := h + [clock];
    assert more[..|more| - 1] == h;
    assert kept + [clock] == more[|more| - |kept + [clock]|..];
    forall from: int
      ensures CountIn(more, from, window) <= limit
    {
      if from <= clock <= from + window {
        CountMonotone(h, from, clock - window, window);
      }
    }
  }

  /** How many entries at the front are expired. */
  method Expired(kept: seq<int>, cutoff: int) returns (start: nat)
    ensures start <= |kept| && (forall i :: 0 <= i < start ==> kept[i] < cutoff)
    ensures start < |kept| ==> kept[start] >= cutoff
  {
    start := 0;
    while start < |kept| && kept[start] < cutoff
      invariant 0 <= start <= |kept|
      invariant forall i :: 0 <= i < start ==> kept[i] < cutoff
    {
      start := start + 1;
    }
  }

  /** Prune, compare with the limit, and append when it is not reached. */
  method Decide(entries: seq<int>, ghost h: History, limit: nat, window: nat, now: int)
    returns (allowed: bool, kept: seq<int>, ghost after: History)
    requires KeyOk(h, entries, limit, window, now)
    ensures KeyOk(after, kept, limit, window, now)
    ensures allowed <==> CountIn(h, now - window, window) < limit
    ensures after == if allowed then h + [now] else h
  {
    var start := Expired(entries, now - window);
    PruneOk(h, entries, start, limit, window, now);
    kept, after := entries[start..], h;
    if |kept| >= limit {
      return false, kept, after;
    }
    RecordOk(h, kept, limit, window, now);
    return true, kept + [now], h + [now];
  }

  class Limiter {
    var entries: map<string, seq<int>>
    const limit: nat
    const window: nat
    var clock: int
    ghost var history: map<string, History>

    ghost function HistoryOf(key: string): History
      reads this
    {
      if key in history then history[key] else []
    }

    function EntriesOf(key: string): seq<int>
      reads this
    {
      if key in entries then entries[key] else []
    }

    ghost predicate Valid()
      reads this
    {
      forall key :: KeyOk(HistoryOf(key), EntriesOf(key), limit, window, clock)
    }

    constructor (limit: nat, window: nat, clock: int)
      ensures Valid() && this.limit == limit && this.window == window && history == map[] && this.clock == clock
    {
      this.limit, this.window, this.clock := limit, window, clock;
      entries, history := map[], map[];
      EmptyOk(limit, window, clock);
    }

    /** The clock does not go back. */
    method Wait(time: nat)
      requires Valid()
      modifies this`clock
      ensures Valid() && clock == old(clock) + time
    {
      clock := clock + time;
      forall key
        ensures KeyOk(HistoryOf(key), EntriesOf(key), limit, window, clock)
      {
        assert old(KeyOk(HistoryOf(key), EntriesOf(key), limit, window, clock));
        LaterOk(HistoryOf(key), EntriesOf(key), limit, window, old(clock), clock);
      }
    }

    /** Allow: refused exactly when `limit` events were allowed in the window that ends now. */
    method Allow(key: string) returns (allowed: bool)
      requires Valid()
      modifies this`entries, this`history
      ensures Valid()
      ensures allowed <==> CountIn(old(HistoryOf(key)), clock - window, window) < limit
      ensures HistoryOf(key) == if allowed then old(HistoryOf(key)) + [clock] else old(HistoryOf(key))
      ensures forall other :: other != key ==> HistoryOf(other) == old(HistoryOf(other)) && EntriesOf(other) == old(EntriesOf(other))
    {
      var kept;
      ghost var h;
      allowed, kept, h := Decide(EntriesOf(key), HistoryOf(key), limit, window, clock);
      Record(key, kept, h);
    }

    method Record(key: string, kept: seq<int>, ghost h: History)
      requires KeyOk(h, kept, limit, window, clock)
      requires forall k :: k != key ==> KeyOk(HistoryOf(k), EntriesOf(k), limit, window, clock)
      modifies this`entries, this`history
      ensures Valid() && HistoryOf(key) == h && EntriesOf(key) == kept
      ensures forall other :: other != key ==> HistoryOf(other) == old(HistoryOf(other)) && EntriesOf(other) == old(EntriesOf(other))
    {
      entries, history := entries[key := kept], history[key := h];
      forall k
        ensures KeyOk(HistoryOf(k), EntriesOf(k), limit, window, clock)
      {
        if k != key {
          assert old(KeyOk(HistoryOf(k), EntriesOf(k), limit, window, clock));
        }
      }
    }

    /** Reset. */
    method Reset(key: string)
      requires Valid()
      modifies this`entries, this`history
      ensures Valid() && HistoryOf(key) == []
      ensures forall other :: other != key ==> HistoryOf(other) == old(HistoryOf(other)) && EntriesOf(other) == old(EntriesOf(other))
    {
      EmptyOk(limit, window, clock);
      entries, history := entries - {key}, history - {key};
      forall k
        ensures KeyOk(HistoryOf(k), EntriesOf(k), limit, window, clock)
      {
        if k != key {
          assert old(KeyOk(HistoryOf(k), EntriesOf(k), limit, window, clock));
        }
      }
    }
  }
}

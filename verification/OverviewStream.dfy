/** The cluster cache, the overview memo and the streams fed by them: no refresh is lost. */
module OverviewStream {
  import opened Options

  /** A memo of the payload built from snapshot `built` by a caller that had read the fetch time of
      snapshot `marker`. */
  datatype Memo = Memo(marker: nat, built: nat)

  /** What a request does next.  Reading the marker, entering the memo's lock, reading the snapshot while
      holding the lock, storing the memo and sending are separate steps. */
  datatype Stage =
    | Waiting
    | Reading
    | HasMarker(marker: nat)
    | Building(marker: nat)
    | Built(marker: nat, built: nat)
    | Sending(marker: nat, built: nat)

  /** A request; only stream subscribers get signals, of which their channel holds one. */
  datatype Client = Client(subscribed: bool, stage: Stage, signalled: bool, lastSent: Option<nat>)

  /** `times` holds the fetch times of the published snapshots, which are known by their place in it;
      `notifying` is set between publish and notify. */
  datatype State = State(
    times: seq<nat>,
    notifying: bool,
    memo: Option<Memo>,
    lockedBy: Option<nat>,
    clients: map<nat, Client>)
  {
    function Version(): nat { if times == [] then 0 else |times| - 1 }

    function FetchedAt(v: nat): nat { if v < |times| then times[v] else 0 }
  }

  datatype Step =
    | Publish(fetched: bool, now: nat)   // a rebuild stores its snapshot; nothing new when every list failed
    | Notify
    | Join(c: nat, subscribe: bool)
    | TakeSignal(c: nat)
    | ReadMarker(c: nat)
    | EnterLock(c: nat)
    | ReadSnapshot(c: nat)
    | StoreMemo(c: nat)
    | Send(c: nat)
    | Leave(c: nat)
    | Invalidate

  predicate At(s: State, c: nat) { c in s.clients }

  predicate Enabled(s: State, step: Step) {
    match step
    case Publish(_, now) => !s.notifying && s.FetchedAt(s.Version()) <= now
    case Notify => s.notifying
    case Join(c, _) => c !in s.clients
    case TakeSignal(c) => At(s, c) && s.clients[c].stage.Waiting? && s.clients[c].signalled
    case ReadMarker(c) => At(s, c) && s.clients[c].stage.Reading?
    case EnterLock(c) => At(s, c) && s.clients[c].stage.HasMarker? && s.lockedBy.None?
    case ReadSnapshot(c) => At(s, c) && s.clients[c].stage.Building?
    case StoreMemo(c) => At(s, c) && s.clients[c].stage.Built?
    case Send(c) => At(s, c) && s.clients[c].stage.Sending?
    case Leave(c) => At(s, c) && !s.clients[c].stage.Building? && !s.clients[c].stage.Built?
    case Invalidate => s.lockedBy.None?
  }

  function MoveTo(s: State, c: nat, stage: Stage): State
    requires c in s.clients
  {
    s.(clients := s.clients[c := s.clients[c].(stage := stage)])
  }

  function Signal(client: Client): Client {
    if client.subscribed then client.(signalled := true) else client
  }

  ghost function Next(s: State, step: Step): State
    requires Enabled(s, step)
  {
    match step
    case Publish(fetched, now) => s.(times := if fetched then s.times + [now] else s.times, notifying := true)
    case Notify => s.(notifying := false, clients := map c | c in s.clients :: Signal(s.clients[c]))
    case Join(c, subscribe) => s.(clients := s.clients[c := Client(subscribe, Reading, false, None)])
    case TakeSignal(c) => s.(clients := s.clients[c := s.clients[c].(signalled := false, stage := Reading)])
    case ReadMarker(c) => MoveTo(s, c, HasMarker(s.Version()))
    case EnterLock(c) =>
      var marker := s.clients[c].stage.marker;
      if s.memo.Some? && s.FetchedAt(s.memo.value.marker) == s.FetchedAt(marker) then MoveTo(s, c, Sending(marker, s.memo.value.built))
      else MoveTo(s, c, Building(marker)).(lockedBy := Some(c))
    case ReadSnapshot(c) => MoveTo(s, c, Built(s.clients[c].stage.marker, s.Version()))
    case StoreMemo(c) =>
      var stage := s.clients[c].stage;
      MoveTo(s, c, Sending(stage.marker, stage.built)).(memo := Some(Memo(stage.marker, stage.built)), lockedBy := None)
    case Send(c) =>
      var client := s.clients[c];
      s.(clients := s.clients[c := client.(lastSent := Some(client.stage.built), stage := Waiting)])
    case Leave(c) => s.(clients := s.clients - {c})
    case Invalidate => s.(memo := None)
  }

  ghost predicate Legal(s: State, steps: seq<Step>)
    decreases |steps|
  {
    steps == [] || (Enabled(s, steps[0]) && Legal(Next(s, steps[0]), steps[1..]))
  }

  ghost function After(s: State, steps: seq<Step>): State
    requires Legal(s, steps)
    decreases |steps|
  {
    if steps == [] then s else After(Next(s, steps[0]), steps[1..])
  }

  const INITIAL := State([0], false, None, None, map[])

  // ---------------------------------------------------------------- what every step keeps

  /** The clock does not run backwards, but two readings may be equal. */
  ghost predicate Ordered(times: seq<nat>) {
    times != [] && forall v, w :: 0 <= v < w < |times| ==> times[v] <= times[w]
  }

  /** Snapshot `b` exists and was fetched no earlier than snapshot `m`. */
  predicate NoOlder(s: State, m: nat, b: nat) {
    m <= s.Version() && b <= s.Version() && s.FetchedAt(m) <= s.FetchedAt(b)
  }

  /** A snapshot fetched later than `v` has been announced to the client, or will be. */
  predicate Current(s: State, client: Client, v: nat) {
    s.FetchedAt(v) == s.FetchedAt(s.Version()) || s.notifying || client.signalled
  }

  /** A payload is never older than the marker its caller read, and a subscriber that is behind knows. */
  predicate ClientOk(s: State, client: Client) {
    match client.stage
    case Waiting =>
      && client.lastSent.Some? && client.lastSent.value <= s.Version()
      && (client.subscribed ==> Current(s, client, client.lastSent.value))
    case Reading => true
    case HasMarker(m) => m <= s.Version() && (client.subscribed ==> Current(s, client, m))
    case Building(m) => m <= s.Version() && (client.subscribed ==> Current(s, client, m))
    case Built(m, b) => NoOlder(s, m, b) && (client.subscribed ==> Current(s, client, b))
    case Sending(m, b) => NoOlder(s, m, b) && (client.subscribed ==> Current(s, client, b))
  }

  ghost predicate Inv(s: State) {
    && Ordered(s.times)
    && (s.memo.Some? ==> NoOlder(s, s.memo.value.marker, s.memo.value.built))
    && forall c :: c in s.clients ==> ClientOk(s, s.clients[c])
  }

  /** The signals only grow, and a snapshot that is left behind is about to be announced. */
  ghost predicate Later(s: State, client: Client, t: State, after: Client) {
    && s.times <= t.times
    && (client.signalled ==> after.signalled)
    && (t.times == s.times || t.notifying)
    && (s.notifying && client.subscribed ==> t.notifying || after.signalled)
  }

  lemma OthersKept(s: State, client: Client, t: State, after: Client)
    requires Ordered(s.times) && ClientOk(s, client) && Later(s, client, t, after)
    requires after.stage == client.stage && after.lastSent == client.lastSent && after.subscribed == client.subscribed
    ensures ClientOk(t, after)
  {
  }

  lemma OwnStepKept(s: State, step: Step, c: nat)
    requires Inv(s) && Enabled(s, step) && c in s.clients && c in Next(s, step).clients
    requires Next(s, step).clients[c].stage != s.clients[c].stage
    ensures ClientOk(Next(s, step), Next(s, step).clients[c])
  {
  }

  lemma StepKeeps(s: State, step: Step)
    requires Inv(s) && Enabled(s, step)
    ensures Inv(Next(s, step))
  {
    var t := Next(s, step);
    forall c | c in t.clients
      ensures ClientOk(t, t.clients[c])
    {
      if c in s.clients {
        if t.clients[c].stage == s.clients[c].stage {
          OthersKept(s, s.clients[c], t, t.clients[c]);
        } else {
          OwnStepKept(s, step, c);
        }
      }
    }
  }

  lemma {:induction false} RunKeeps(s: State, steps: seq<Step>)
    requires Inv(s) && Legal(s, steps)
    ensures Inv(After(s, steps))
    decreases |steps|
  {
    if steps != [] {
      StepKeeps(s, steps[0]);
      RunKeeps(Next(s, steps[0]), steps[1..]);
    }
  }

  /** No lost refresh: whenever a stream subscriber waits, its channel is empty and no rebuild is between
      publish and notify, the last overview it sent was built from a snapshot with the current fetch
      time: from the current snapshot, when that was fetched at another time than the one before. */
  lemma NoLostRefresh(steps: seq<Step>, c: nat)
    requires Legal(INITIAL, steps)
    requires WaitsForMore(After(INITIAL, steps), c)
    ensures var s := After(INITIAL, steps);
            && s.clients[c].lastSent.Some? && s.clients[c].lastSent.value <= s.Version()
            && s.FetchedAt(s.clients[c].lastSent.value) == s.FetchedAt(s.Version())
            && (Advanced(s.times) ==> s.clients[c].lastSent.value == s.Version())
  {
    RunKeeps(INITIAL, steps);
    var s := After(INITIAL, steps);
    var v, last := s.clients[c].lastSent.value, s.Version();
    if v < last {
      assert s.times[v] <= s.times[last - 1] <= s.times[last];
    }
  }

  /** The clock had moved on when the current snapshot was fetched. */
  predicate Advanced(times: seq<nat>) {
    |times| < 2 || times[|times| - 1] != times[|times| - 2]
  }

  predicate WaitsForMore(s: State, c: nat) {
    && c in s.clients && s.clients[c].subscribed && s.clients[c].stage.Waiting?
    && !s.clients[c].signalled && !s.notifying
  }

  /** With these fetch times, every subscriber that waits for more has sent the current overview. */
  ghost predicate AlwaysCurrent(times: seq<nat>) {
    forall steps, c :: Legal(INITIAL, steps) && After(INITIAL, steps).times == times && WaitsForMore(After(INITIAL, steps), c) ==>
      After(INITIAL, steps).clients[c].lastSent == Some(|times| - 1)
  }

  /** Whatever the fetch times are, that holds exactly when the last two differ: otherwise the memo of the
      last snapshot but one can answer for the last. */
  lemma SameReading(times: seq<nat>)
    requires Ordered(times) && times[0] == 0
    ensures AlwaysCurrent(times) <==> Advanced(times)
  {
    if Advanced(times) {
      forall steps, c | Legal(INITIAL, steps) && After(INITIAL, steps).times == times && WaitsForMore(After(INITIAL, steps), c)
        ensures After(INITIAL, steps).clients[c].lastSent == Some(|times| - 1)
      {
        NoLostRefresh(steps, c);
      }
    } else {
      LeftBehind(times);
    }
  }

  lemma LeftBehind(times: seq<nat>)
    requires Ordered(times) && times[0] == 0 && !Advanced(times)
    ensures !AlwaysCurrent(times)
  {
    var v := |times| - 2;
    var early := times[..v + 1];
    assert early + [early[v]] == times;
    PublishAll(early);
    var first := FirstOverview(early, v);
    var woken := Resignalled(first, early, v);
    var s := Moved(woken, EnterLock(1), With(times, Some(Memo(v, v)), None, Sending(v + 1, v), false, Some(v)));
    s := Moved(s, Send(1), With(times, Some(Memo(v, v)), None, Waiting, false, Some(v)));
    var steps :| Legal(INITIAL, steps) && After(INITIAL, steps) == s;
    assert WaitsForMore(After(INITIAL, steps), 1);
  }

  lemma {:induction false} PublishAll(times: seq<nat>)
    requires Ordered(times) && times[0] == 0
    ensures Reachable(State(times, false, None, None, map[]))
  {
    if |times| == 1 {
      ReachStart();
      assert times == [0];
    } else {
      var n := |times| - 1;
      PublishAll(times[..n]);
      assert times[..n] + [times[n]] == times;
      Then(State(times[..n], false, None, None, map[]), Publish(true, times[n]), State(times, true, None, None, map[]));
      Then(State(times, true, None, None, map[]), Notify, State(times, false, None, None, map[]));
    }
  }

  lemma FirstOverview(times: seq<nat>, v: nat) returns (s: State)
    requires v + 1 == |times| && Reachable(State(times, false, None, None, map[]))
    ensures Reachable(s) && s == With(times, Some(Memo(v, v)), None, Waiting, false, Some(v))
  {
    s := Moved(State(times, false, None, None, map[]), Join(1, true), With(times, None, None, Reading, false, None));
    s := Moved(s, ReadMarker(1), With(times, None, None, HasMarker(v), false, None));
    s := Moved(s, EnterLock(1), With(times, None, Some(1), Building(v), false, None));
    s := FirstSent(s, times, v);
  }

  lemma FirstSent(start: State, times: seq<nat>, v: nat) returns (s: State)
    requires v + 1 == |times| && Reachable(start) && start == With(times, None, Some(1), Building(v), false, None)
    ensures Reachable(s) && s == With(times, Some(Memo(v, v)), None, Waiting, false, Some(v))
  {
    s := Moved(start, ReadSnapshot(1), With(times, None, Some(1), Built(v, v), false, None));
    s := Moved(s, StoreMemo(1), With(times, Some(Memo(v, v)), None, Sending(v, v), false, None));
    s := Moved(s, Send(1), With(times, Some(Memo(v, v)), None, Waiting, false, Some(v)));
  }

  lemma Resignalled(first: State, times: seq<nat>, v: nat) returns (s: State)
    requires v + 1 == |times| && Reachable(first) && first == With(times, Some(Memo(v, v)), None, Waiting, false, Some(v))
    ensures Reachable(s) && s == With(times + [times[v]], Some(Memo(v, v)), None, HasMarker(v + 1), false, Some(v))
  {
    var more := times + [times[v]];
    s := Moved(first, Publish(true, times[v]), With(more, Some(Memo(v, v)), None, Waiting, false, Some(v)).(notifying := true));
    s := Moved(s, Notify, With(more, Some(Memo(v, v)), None, Waiting, true, Some(v)));
    s := Moved(s, TakeSignal(1), With(more, Some(Memo(v, v)), None, Reading, false, Some(v)));
    s := Moved(s, ReadMarker(1), With(more, Some(Memo(v, v)), None, HasMarker(v + 1), false, Some(v)));
  }

  /** A state with a single subscriber, between two rebuilds. */
  function With(times: seq<nat>, memo: Option<Memo>, lockedBy: Option<nat>, stage: Stage, signalled: bool, lastSent: Option<nat>): State {
    State(times, false, memo, lockedBy, map[1 := Client(true, stage, signalled, lastSent)])
  }

  ghost predicate Reachable(s: State) {
    exists steps :: Legal(INITIAL, steps) && After(INITIAL, steps) == s
  }

  lemma ReachStart()
    ensures Reachable(INITIAL)
  {
    assert Legal(INITIAL, []) && After(INITIAL, []) == INITIAL;
  }

  lemma Then(s: State, step: Step, t: State)
    requires Reachable(s) && Enabled(s, step) && Next(s, step) == t
    ensures Reachable(t)
  {
    var steps :| Legal(INITIAL, steps) && After(INITIAL, steps) == s;
    LegalAppend(INITIAL, steps, step);
    assert After(INITIAL, steps + [step]) == t;
  }

  lemma Moved(s: State, step: Step, t: State) returns (r: State)
    requires Reachable(s) && Enabled(s, step) && Next(s, step) == t
    ensures Reachable(t) && r == t
  {
    Then(s, step, t);
    r := t;
  }

  lemma {:induction false} LegalAppend(s: State, steps: seq<Step>, step: Step)
    requires Legal(s, steps) && Enabled(After(s, steps), step)
    ensures Legal(s, steps + [step])
    ensures After(s, steps + [step]) == Next(After(s, steps), step)
    decreases |steps|
  {
    if steps == [] {
      assert steps + [step] == [step] && [step][1..] == [];
      assert After(Next(s, step), []) == Next(s, step);
    } else {
      LegalAppend(Next(s, steps[0]), steps[1..], step);
      assert (steps + [step])[1..] == steps[1..] + [step];
    }
  }

  /** The memo never hands a caller a payload older than the marker that the caller read, nor one from
      the future. */
  lemma NeverOlderThanMarker(steps: seq<Step>, c: nat)
    requires Legal(INITIAL, steps)
    requires var s := After(INITIAL, steps); c in s.clients && s.clients[c].stage.Sending?
    ensures var s := After(INITIAL, steps); NoOlder(s, s.clients[c].stage.marker, s.clients[c].stage.built)
  {
    RunKeeps(INITIAL, steps);
  }

  /** A client may join and leave when it likes, lists may fail or not at any time, and after a change of a policy
      the next request builds its overview anew. */
  lemma AnythingCanHappen(s: State, c: nat, subscribe: bool, fetched: bool, now: nat)
    ensures c !in s.clients ==> Enabled(s, Join(c, subscribe)) && Next(s, Join(c, subscribe)).clients.Keys == s.clients.Keys + {c}
    ensures c in s.clients && s.clients[c].stage == Waiting ==> Enabled(s, Leave(c)) && c !in Next(s, Leave(c)).clients
    ensures !s.notifying && now >= s.FetchedAt(s.Version()) ==>
              Enabled(s, Publish(fetched, now)) && Next(s, Publish(fetched, now)).times == s.times + (if fetched then [now] else [])
    ensures s.lockedBy == None ==>
              && Enabled(s, Invalidate)
              && (c in s.clients && s.clients[c].stage.HasMarker? ==>
                    var t := Next(s, Invalidate); Enabled(t, EnterLock(c)) && Next(t, EnterLock(c)).clients[c].stage.Building?)
  {
  }

  // ---------------------------------------------------------------- the cache

  /** The four resource lists and the time at which the snapshot was fetched; 0 is never. */
  datatype Snapshot = Snapshot(nodes: seq<string>, pods: seq<string>, deployments: seq<string>, statefulSets: seq<string>, fetchedAt: nat)

  /** What the listers answer; None is an error. */
  datatype Lists = Lists(
    nodes: Option<seq<string>>,
    pods: Option<seq<string>>,
    deployments: Option<seq<string>>,
    statefulSets: Option<seq<string>>)

  const MAX_SUBSCRIBERS: nat := 100

  function FetchOrKeep(list: Option<seq<string>>, previous: seq<string>): seq<string> {
    if list.Some? then list.value else previous
  }

  /** A list that was fetched is the new one, any other is kept, and the time is new if any was fetched. */
  ghost predicate IsRefresh(before: Snapshot, after: Snapshot, lists: Lists, now: nat) {
    && (if lists.nodes.Some? then after.nodes == lists.nodes.value else after.nodes == before.nodes)
    && (if lists.pods.Some? then after.pods == lists.pods.value else after.pods == before.pods)
    && (if lists.deployments.Some? then after.deployments == lists.deployments.value else after.deployments == before.deployments)
    && (if lists.statefulSets.Some? then after.statefulSets == lists.statefulSets.value else after.statefulSets == before.statefulSets)
    && after.fetchedAt == if lists == Lists(None, None, None, None) then before.fetchedAt else now
  }

  class ClusterCache {
    var snapshot: Snapshot
    var subscribers: seq<nat>       // channels
    var signals: set<nat>           // channels that hold a signal
    var nextChannel: nat

    ghost predicate Valid()
      reads this
    {
      && |subscribers| <= MAX_SUBSCRIBERS
      && (forall i :: 0 <= i < |subscribers| ==> subscribers[i] < nextChannel)
      && (forall ch :: ch in signals ==> ch < nextChannel)
      && (forall i, j :: 0 <= i < j < |subscribers| ==> subscribers[i] != subscribers[j])
    }

    constructor ()
      ensures Valid() && snapshot.fetchedAt == 0 && subscribers == [] && signals == {}
    {
      snapshot := Snapshot([], [], [], [], 0);
      subscribers, signals, nextChannel := [], {}, 0;
    }

    /** buildSnapshotFromListers: a list that fails keeps its previous value.  The fetch time moves to
        `now` unless all four fail; when the clock has advanced it tells snapshots apart. */
    method BuildSnapshotFromListers(lists: Lists, now: nat) returns (s: Snapshot)
      ensures IsRefresh(snapshot, s, lists, now)
      ensures lists == Lists(None, None, None, None) ==> s == snapshot
      ensures now != snapshot.fetchedAt ==>
                (s.fetchedAt == snapshot.fetchedAt <==> lists == Lists(None, None, None, None))
    {
      var fetched := lists.nodes.Some? || lists.pods.Some? || lists.deployments.Some? || lists.statefulSets.Some?;
      s := Snapshot(
        FetchOrKeep(lists.nodes, snapshot.nodes), FetchOrKeep(lists.pods, snapshot.pods),
        FetchOrKeep(lists.deployments, snapshot.deployments), FetchOrKeep(lists.statefulSets, snapshot.statefulSets),
        if fetched then now else snapshot.fetchedAt);
    }

    /** notify: every subscriber's channel holds a signal afterwards. */
    method Notify()
      requires Valid()
      modifies this`signals
      ensures Valid() && forall ch :: ch in signals <==> ch in old(signals) || ch in subscribers
    {
      for i := 0 to |subscribers|
        invariant forall ch :: ch in signals <==> ch in old(signals) || ch in subscribers[..i]
      {
        assert subscribers[..i + 1] == subscribers[..i] + [subscribers[i]];
        if subscribers[i] !in signals {
          signals := signals + {subscribers[i]};
        }
      }
      assert subscribers[..|subscribers|] == subscribers;
    }

    /** rebuildSnapshot: publish, then notify. */
    method RebuildSnapshot(lists: Lists, now: nat)
      requires Valid()
      modifies this`snapshot, this`signals
      ensures Valid() && IsRefresh(old(snapshot), snapshot, lists, now)
      ensures forall ch :: ch in signals <==> ch in old(signals) || ch in subscribers
    {
      var built := BuildSnapshotFromListers(lists, now);
      snapshot := built;
      Notify();
    }

    /** Subscribe; None when there are too many subscribers. */
    method Subscribe() returns (ch: Option<nat>)
      requires Valid()
      modifies this`subscribers, this`nextChannel
      ensures Valid()
      ensures ch.None? <==> |old(subscribers)| >= MAX_SUBSCRIBERS
      ensures subscribers == if ch.Some? then old(subscribers) + [ch.value] else old(subscribers)
      ensures ch.Some? ==> ch.value !in old(subscribers) && ch.value !in signals
    {
      if |subscribers| >= MAX_SUBSCRIBERS {
        return None;
      }
      subscribers := subscribers + [nextChannel];
      nextChannel := nextChannel + 1;
      return Some(nextChannel - 1);
    }

    /** Unsubscribe: exactly this channel goes. */
    method Unsubscribe(ch: nat)
      requires Valid()
      modifies this`subscribers
      ensures Valid() && forall c :: c in subscribers <==> c in old(subscribers) && c != ch
    {
      for i := 0 to |subscribers|
        invariant subscribers == old(subscribers) && ch !in subscribers[..i]
      {
        if subscribers[i] == ch {
          subscribers := subscribers[..i] + subscribers[i + 1..];
          return;
        }
      }
    }
  }

  /** The memo of the overview payload, which is known by the fetch time of its snapshot. */
  class OverviewMemo {
    var payload: Option<nat>
    var marker: nat

    ghost predicate Valid()
      reads this
    {
      payload.Some? ==> marker <= payload.value
    }

    constructor ()
      ensures Valid() && payload.None?
    {
      payload, marker := None, 0;
    }

    /** overviewBytes under the lock: `read` is the marker that the caller read before, `current` the
        fetch time of the snapshot if it is read now. */
    method OverviewBytes(read: nat, current: nat) returns (built: nat)
      requires Valid() && read <= current
      modifies this
      ensures Valid() && read <= built && payload == Some(built) && marker == read
      ensures built == if old(payload).Some? && old(marker) == read then old(payload).value else current
    {
      if payload.Some? && marker == read {
        return payload.value;
      }
      payload, marker := Some(current), read;
      return current;
    }

    /** invalidateOverviewMemo. */
    method Invalidate()
      requires Valid()
      modifies this`payload
      ensures Valid() && payload.None?
    {
      payload := None;
    }
  }
}

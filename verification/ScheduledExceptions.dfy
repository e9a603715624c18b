/** Scheduled exceptions: their life cycle, and the guard against overlapping windows of opposite types. */
module ScheduledExceptions {
  import opened Options

  datatype Status = Pending | Active | Completed | Cancelled

  datatype Kind = StayAwake | ForceSleep

  datatype Row = Row(policy: nat, kind: Kind, startsAt: int, endsAt: int, status: Status)

  datatype State = State(rows: map<nat, Row>, nextId: nat)

  predicate Open(status: Status) { status.Pending? || status.Active? }

  /** One statement of the store, or one handler with its check. */
  datatype Step =
    | Create(policy: nat, kind: Kind, startsAt: int, endsAt: int)       // also an import
    | Edit(id: nat, newKind: Option<Kind>, newStart: Option<int>, newEnd: Option<int>)
    | SetStatus(id: nat, expected: Status, next: Status)
    | Cancel(id: nat)
    | CancelAll

  /** What the overlap query finds: an open exception of another type on the policy, other than
      `exclude`, that begins before the end and ends after the beginning; ids start at 1. */
  ghost predicate Overlaps(rows: map<nat, Row>, policy: nat, kind: Kind, startsAt: int, endsAt: int, exclude: nat) {
    exists id :: id in rows && OverlapsRow(rows[id], id, policy, kind, startsAt, endsAt, exclude)
  }

  predicate OverlapsRow(row: Row, id: nat, policy: nat, kind: Kind, startsAt: int, endsAt: int, exclude: nat) {
    && row.policy == policy && row.kind != kind && Open(row.status)
    && row.startsAt < endsAt && row.endsAt > startsAt
    && (exclude != 0 ==> id != exclude)
  }

  /** The instant lies in the half-open window. */
  predicate Within(t: int, startsAt: int, endsAt: int) { startsAt <= t < endsAt }

  /** For windows that are not empty, that is an open exception of the other type on the same policy, and an
      instant that lies in both windows. */
  lemma OverlapExactly(row: Row, id: nat, policy: nat, kind: Kind, startsAt: int, endsAt: int, exclude: nat)
    requires row.startsAt < row.endsAt && startsAt < endsAt
    ensures OverlapsRow(row, id, policy, kind, startsAt, endsAt, exclude) <==>
            && row.policy == policy && row.kind != kind && (row.status == Pending || row.status == Active) && (exclude == 0 || id != exclude)
            && exists t :: Within(t, row.startsAt, row.endsAt) && Within(t, startsAt, endsAt)
  {
    if row.startsAt < endsAt && row.endsAt > startsAt {
      var t := if row.startsAt < startsAt then startsAt else row.startsAt;
      assert Within(t, row.startsAt, row.endsAt) && Within(t, startsAt, endsAt);
    }
  }

  function Updated<T>(change: Option<T>, current: T): T {
    if change.Some? then change.value else current
  }

  function Edited(row: Row, kind: Option<Kind>, startsAt: Option<int>, endsAt: Option<int>): Row {
    row.(kind := Updated(kind, row.kind), startsAt := Updated(startsAt, row.startsAt), endsAt := Updated(endsAt, row.endsAt))
  }

  /** Only these changes of status are ever asked for. */
  predicate Allowed(expected: Status, next: Status) {
    (expected.Pending? && next.Active?) || (expected.Active? && (next.Pending? || next.Completed?))
  }

  ghost function Apply(s: State, step: Step): State {
    match step
    case Create(policy, kind, startsAt, endsAt) =>
      if endsAt <= startsAt || Overlaps(s.rows, policy, kind, startsAt, endsAt, 0) then s
      else State(s.rows[s.nextId := Row(policy, kind, startsAt, endsAt, Pending)], s.nextId + 1)
    case Edit(id, kind, startsAt, endsAt) =>
      if id !in s.rows || !s.rows[id].status.Pending? || (startsAt.Some? && endsAt.Some? && endsAt.value <= startsAt.value) then s
      else
        var row := Edited(s.rows[id], kind, startsAt, endsAt);
        if Overlaps(s.rows, row.policy, row.kind, row.startsAt, row.endsAt, id) then s
        else s.(rows := s.rows[id := row])
    case SetStatus(id, expected, next) =>
      if id in s.rows && s.rows[id].status == expected && Allowed(expected, next)
      then s.(rows := s.rows[id := s.rows[id].(status := next)]) else s
    case Cancel(id) =>
      if id in s.rows && Open(s.rows[id].status) then s.(rows := s.rows[id := s.rows[id].(status := Cancelled)]) else s
    case CancelAll =>
      s.(rows := map id | id in s.rows :: if Open(s.rows[id].status) then s.rows[id].(status := Cancelled) else s.rows[id])
  }

  ghost function After(s: State, steps: seq<Step>): State
    decreases |steps|
  {
    if steps == [] then s else After(Apply(s, steps[0]), steps[1..])
  }

  predicate Covers(row: Row, t: int) { Within(t, row.startsAt, row.endsAt) }

  predicate Opposed(a: Row, b: Row) {
    a.policy == b.policy && a.kind != b.kind && Open(a.status) && Open(b.status)
  }

  /** No instant lies in the windows of two open exceptions of opposite type on one policy. */
  ghost predicate NoConflict(rows: map<nat, Row>) {
    forall a, b, t: int :: a in rows && b in rows && Opposed(rows[a], rows[b]) && Covers(rows[a], t) ==> !Covers(rows[b], t)
  }

  ghost predicate Inv(s: State) {
    NoConflict(s.rows) && forall id :: id in s.rows ==> 0 < id < s.nextId
  }

  /** A row that the overlap query does not object to conflicts with nothing. */
  lemma NewRowKeeps(s: State, id: nat, row: Row, exclude: nat)
    requires Inv(s) && id > 0 && (exclude == id || (exclude == 0 && id !in s.rows))
    requires !Overlaps(s.rows, row.policy, row.kind, row.startsAt, row.endsAt, exclude)
    ensures NoConflict(s.rows[id := row])
  {
  }

  lemma StepKeeps(s: State, step: Step)
    requires Inv(s) && s.nextId > 0
    ensures Inv(Apply(s, step)) && Apply(s, step).nextId > 0
  {
    match step
    case Create(policy, kind, startsAt, endsAt) =>
      if endsAt > startsAt && !Overlaps(s.rows, policy, kind, startsAt, endsAt, 0) {
        NewRowKeeps(s, s.nextId, Row(policy, kind, startsAt, endsAt, Pending), 0);
      }
    case Edit(id, kind, startsAt, endsAt) =>
      if id in s.rows {
        var row := Edited(s.rows[id], kind, startsAt, endsAt);
        if !Overlaps(s.rows, row.policy, row.kind, row.startsAt, row.endsAt, id) {
          NewRowKeeps(s, id, row, id);
        }
      }
    case _ =>
  }

  /** Over every sequence of creates, edits, imports, ticks, rollbacks and cancels, no instant lies in
      the windows of two open exceptions of opposite type on one policy. */
  lemma {:induction false} NeverConflicting(s: State, steps: seq<Step>)
    requires Inv(s) && s.nextId > 0
    ensures Inv(After(s, steps)) && After(s, steps).nextId > 0
    decreases |steps|
  {
    if steps != [] {
      StepKeeps(s, steps[0]);
      NeverConflicting(Apply(s, steps[0]), steps[1..]);
    }
  }

  /** Completed and cancelled are absorbing: whatever comes later, also a rollback whose activation was
      overtaken by a cancel, the row stays as it is. */
  lemma {:induction false} ClosedStaysClosed(s: State, steps: seq<Step>, id: nat)
    requires id in s.rows && id < s.nextId && !Open(s.rows[id].status)
    ensures id in After(s, steps).rows && After(s, steps).rows[id] == s.rows[id]
    decreases |steps|
  {
    if steps != [] {
      assert id in Apply(s, steps[0]).rows && Apply(s, steps[0]).rows[id] == s.rows[id];
      ClosedStaysClosed(Apply(s, steps[0]), steps[1..], id);
    }
  }

  /** No step deletes a row. */
  lemma {:induction false} RowsStay(s: State, steps: seq<Step>, id: nat)
    requires id in s.rows
    ensures id in After(s, steps).rows
    decreases |steps|
  {
    if steps != [] {
      RowsStay(Apply(s, steps[0]), steps[1..], id);
    }
  }

  /** A cancel that lands between an activation and its rollback wins, whatever else happens. */
  lemma CancelBeatsRollback(s: State, id: nat, between: seq<Step>, later: seq<Step>)
    requires Inv(s) && id in s.rows && s.rows[id].status == Pending && s.nextId > 0
    ensures var activated := Apply(s, SetStatus(id, Pending, Active));
            var cancelled := Apply(After(activated, between), Cancel(id));
            var end := After(Apply(cancelled, SetStatus(id, Active, Pending)), later);
            id in end.rows && !Open(end.rows[id].status)
  {
    var activated := Apply(s, SetStatus(id, Pending, Active));
    StepKeeps(s, SetStatus(id, Pending, Active));
    NeverConflicting(activated, between);
    var cancelled := Apply(After(activated, between), Cancel(id));
    RowsStay(activated, between, id);
    assert cancelled.nextId > id;
    ClosedStaysClosed(Apply(cancelled, SetStatus(id, Active, Pending)), later, id);
  }

  // ---------------------------------------------------------------- what the scheduler sees

  /** The queries for active exceptions include both ends of the window. */
  predicate Listed(row: Row, policy: nat, now: int) {
    row.policy == policy && row.status == Active && row.startsAt <= now <= row.endsAt
  }

  ghost predicate ListedKind(rows: map<nat, Row>, policy: nat, now: int, kind: Kind) {
    exists id :: id in rows && Listed(rows[id], policy, now) && rows[id].kind == kind
  }

  function Later(a: int, b: int): int { if a < b then b else a }

  function Earlier(a: int, b: int): int { if a < b then a else b }

  /** Active exceptions of opposite type on one policy are listed together exactly at the instant, if there
      is one, at which the later of them begins and the earlier of them ends: never, unless their windows
      touch. */
  lemma BothListedOnlyAtEnds(s: State, a: nat, b: nat, policy: nat, now: int)
    requires Inv(s) && a in s.rows && b in s.rows && s.rows[a].kind != s.rows[b].kind
    requires s.rows[a].policy == s.rows[b].policy == policy && s.rows[a].status == s.rows[b].status == Active
    ensures Listed(s.rows[a], policy, now) && Listed(s.rows[b], policy, now) <==>
            now == Later(s.rows[a].startsAt, s.rows[b].startsAt) == Earlier(s.rows[a].endsAt, s.rows[b].endsAt)
  {
    assert Opposed(s.rows[a], s.rows[b]);
    assert Covers(s.rows[a], now) ==> !Covers(s.rows[b], now);
    assert Covers(s.rows[a], now - 1) ==> !Covers(s.rows[b], now - 1);
  }

  /** It happens: the guard lets two windows touch, and both are active at the touching point. */
  lemma TouchingWindows()
    ensures var s := After(State(map[], 1), TOUCHING);
            ListedKind(s.rows, 7, 10, StayAwake) && ListedKind(s.rows, 7, 10, ForceSleep)
  {
    var s0 := State(map[], 1);
    var s1 := Apply(s0, TOUCHING[0]);
    assert s1 == State(map[1 := Row(7, StayAwake, 0, 10, Pending)], 2);
    var s2 := Apply(s1, TOUCHING[1]);
    assert s2 == State(map[1 := Row(7, StayAwake, 0, 10, Pending), 2 := Row(7, ForceSleep, 10, 20, Pending)], 3);
    var s3 := Apply(s2, TOUCHING[2]);
    var s4 := Apply(s3, TOUCHING[3]);
    assert s4.rows[1] == Row(7, StayAwake, 0, 10, Active) && s4.rows[2] == Row(7, ForceSleep, 10, 20, Active);
    assert After(s4, TOUCHING[1..][1..][1..][1..]) == s4;
    assert After(s3, TOUCHING[1..][1..][1..]) == s4;
    assert After(s2, TOUCHING[1..][1..]) == s4;
    assert After(s1, TOUCHING[1..]) == s4;
  }

  const TOUCHING: seq<Step> :=
    [Create(7, StayAwake, 0, 10), Create(7, ForceSleep, 10, 20), SetStatus(1, Pending, Active), SetStatus(2, Pending, Active)]

  datatype Intended = Sleeping | Awake | Unknown

  /** IntendedState: an active force_sleep exception, then an active stay_awake exception, then the windows. */
  function IntendedState(listed: seq<Kind>, hasWindows: bool, insideWindow: bool): Intended {
    if ForceSleep in listed then Sleeping
    else if StayAwake in listed then Awake
    else if !hasWindows then Unknown
    else if insideWindow then Sleeping else Awake
  }

  /** A force_sleep exception says sleeping whatever else there is, a stay_awake one awake unless there is a
      force_sleep one; without either the windows decide, and a policy without windows has no intended
      state. */
  lemma IntendedExactly(listed: seq<Kind>, hasWindows: bool, insideWindow: bool)
    ensures IntendedState(listed, hasWindows, insideWindow) == Sleeping <==>
            ForceSleep in listed || (listed == [] && hasWindows && insideWindow)
    ensures IntendedState(listed, hasWindows, insideWindow) == Awake <==>
            ForceSleep !in listed && (StayAwake in listed || (hasWindows && !insideWindow))
    ensures IntendedState(listed, hasWindows, insideWindow) == Unknown <==> listed == [] && !hasWindows
  {
    assert forall k :: k in listed ==> k == ForceSleep || k == StayAwake;
    assert listed != [] ==> listed[0] in listed;
  }

  /** Away from the ends of windows the precedence of the two types decides nothing: all listed
      exceptions of a policy have the same type, and the intended state is the one it asks for. */
  lemma PrecedenceOnlyAtEnds(s: State, ids: seq<nat>, policy: nat, now: int, hasWindows: bool, insideWindow: bool)
    requires Inv(s) && ids != []
    requires forall i :: 0 <= i < |ids| ==> ids[i] in s.rows && Listed(s.rows[ids[i]], policy, now) && s.rows[ids[i]].endsAt != now
    ensures forall i :: 0 <= i < |ids| ==> s.rows[ids[i]].kind == s.rows[ids[0]].kind
    ensures IntendedState(Kinds(s, ids), hasWindows, insideWindow) ==
            if s.rows[ids[0]].kind == ForceSleep then Sleeping else Awake
  {
    forall i | 0 <= i < |ids|
      ensures s.rows[ids[i]].kind == s.rows[ids[0]].kind
    {
      if s.rows[ids[i]].kind != s.rows[ids[0]].kind {
        BothListedOnlyAtEnds(s, ids[i], ids[0], policy, now);
      }
    }
    var kinds := Kinds(s, ids);
    assert kinds[0] == s.rows[ids[0]].kind;
  }

  function Kinds(s: State, ids: seq<nat>): (kinds: seq<Kind>)
    requires forall i :: 0 <= i < |ids| ==> ids[i] in s.rows
    ensures |kinds| == |ids| && forall i :: 0 <= i < |ids| ==> kinds[i] == s.rows[ids[i]].kind
  {
    seq(|ids|, i requires 0 <= i < |ids| => s.rows[ids[i]].kind)
  }

  // ---------------------------------------------------------------- the code

  datatype Answer = Done(id: nat) | BadRequest | Conflict | NotFound

  /** A tick starts what is due, ends what is over, and touches nothing else. */
  predicate Ticked(before: Row, after: Row, now: int) {
    || after == before
    || (before.status.Pending? && after == before.(status := Active) && now >= before.startsAt)
    || (Open(before.status) && after == before.(status := Completed) && now > before.endsAt)
  }

  /** What a tick makes of a row that it listed with `status`; `started` tells whether the execution of a
      new exception can be started. */
  function TickOf(row: Row, status: Status, now: int, started: bool): Row {
    if status.Pending? && row.status.Pending? && now >= row.startsAt && started then row.(status := Active)
    else if status.Active? && row.status.Active? && now > row.endsAt then row.(status := Completed)
    else row
  }

  class ExceptionStore {
    var rows: map<nat, Row>
    var nextId: nat

    ghost predicate Valid()
      reads this
    {
      Inv(View()) && nextId > 0
    }

    function View(): State
      reads this
    {
      State(rows, nextId)
    }

    constructor ()
      ensures Valid() && rows == map[]
    {
      rows, nextId := map[], 1;
    }

    /** HasOverlappingException: a count over the rows. */
    method HasOverlappingException(policy: nat, kind: Kind, startsAt: int, endsAt: int, exclude: nat) returns (overlap: bool)
      ensures overlap <==> Overlaps(rows, policy, kind, startsAt, endsAt, exclude)
    {
      var todo := rows.Keys;
      while todo != {}
        invariant todo <= rows.Keys
        invariant forall id :: id in rows && id !in todo ==>
                    !OverlapsRow(rows[id], id, policy, kind, startsAt, endsAt, exclude)
        decreases todo
      {
        var id: nat :| id in todo;
        if OverlapsRow(rows[id], id, policy, kind, startsAt, endsAt, exclude) {
          return true;
        }
        todo := todo - {id};
      }
      return false;
    }

    /** createException, and applyExceptionImport without its clock: `future` tells whether the start is
        not in the past, `policyExists` whether the policy was found. */
    method CreateException(policy: nat, kind: Kind, startsAt: int, endsAt: int, future: bool, policyExists: bool)
      returns (answer: Answer)
      requires Valid()
      modifies this
      ensures Valid()
      ensures View() == if future && policyExists then Apply(old(View()), Create(policy, kind, startsAt, endsAt)) else old(View())
      ensures answer.Done? ==> answer.id == old(nextId) && rows == old(rows)[answer.id := Row(policy, kind, startsAt, endsAt, Pending)]
      ensures !answer.Done? ==> View() == old(View())
      ensures answer == Conflict <==> future && policyExists && startsAt < endsAt && Overlaps(old(rows), policy, kind, startsAt, endsAt, 0)
    {
      StepKeeps(View(), Create(policy, kind, startsAt, endsAt));
      if endsAt <= startsAt || !future {
        return BadRequest;
      }
      if !policyExists {
        return NotFound;
      }
      var overlap := HasOverlappingException(policy, kind, startsAt, endsAt, 0);
      if overlap {
        return Conflict;
      }
      rows, nextId := rows[nextId := Row(policy, kind, startsAt, endsAt, Pending)], nextId + 1;
      return Done(nextId - 1);
    }

    /** updateException: only pending exceptions can be edited, and the edited window is checked against
        the others. */
    method UpdateException(id: nat, kind: Option<Kind>, startsAt: Option<int>, endsAt: Option<int>) returns (answer: Answer)
      requires Valid()
      modifies this
      ensures Valid() && View() == Apply(old(View()), Edit(id, kind, startsAt, endsAt))
      ensures answer.Done? ==> id in rows && rows == old(rows)[id := Edited(old(rows)[id], kind, startsAt, endsAt)]
      ensures !answer.Done? ==> View() == old(View())
    {
      StepKeeps(View(), Edit(id, kind, startsAt, endsAt));
      if startsAt.Some? && endsAt.Some? && endsAt.value <= startsAt.value {
        return BadRequest;
      }
      if id !in rows {
        return NotFound;
      }
      if !rows[id].status.Pending? {
        return Conflict;
      }
      var row := Edited(rows[id], kind, startsAt, endsAt);
      var overlap := HasOverlappingException(row.policy, row.kind, row.startsAt, row.endsAt, id);
      if overlap {
        return Conflict;
      }
      rows := rows[id := row];
      return Done(id);
    }

    /** UpdateScheduledExceptionStatus: a compare-and-set on the status. */
    method UpdateStatus(id: nat, expected: Status, next: Status) returns (ok: bool)
      requires Valid() && Allowed(expected, next)
      modifies this
      ensures Valid() && View() == Apply(old(View()), SetStatus(id, expected, next))
      ensures ok <==> id in old(rows) && old(rows)[id].status == expected
    {
      StepKeeps(View(), SetStatus(id, expected, next));
      if id !in rows || rows[id].status != expected {
        return false;
      }
      rows := rows[id := rows[id].(status := next)];
      return true;
    }

    /** CancelScheduledException. */
    method CancelException(id: nat) returns (ok: bool)
      requires Valid()
      modifies this
      ensures Valid() && View() == Apply(old(View()), Cancel(id))
      ensures ok <==> id in old(rows) && Open(old(rows)[id].status)
    {
      StepKeeps(View(), Cancel(id));
      if id !in rows || !Open(rows[id].status) {
        return false;
      }
      rows := rows[id := rows[id].(status := Cancelled)];
      return true;
    }

    /** CancelAllOpenExceptions, as the emergency operation uses it. */
    method CancelAllOpenExceptions()
      requires Valid()
      modifies this
      ensures Valid() && View() == Apply(old(View()), CancelAll)
      ensures forall id :: id in rows ==> !Open(rows[id].status)
    {
      StepKeeps(View(), CancelAll);
      rows := map id | id in rows :: if Open(rows[id].status) then rows[id].(status := Cancelled) else rows[id];
    }

    /** maybeStartException; `started` tells whether its execution could be started. */
    method MaybeStartException(id: nat, now: int, started: bool)
      requires Valid() && id in rows
      modifies this
      ensures Valid() && rows.Keys == old(rows).Keys
      ensures rows == if old(rows)[id].status.Pending? && now >= old(rows)[id].startsAt && started
                      then old(rows)[id := old(rows)[id].(status := Active)] else old(rows)
    {
      if now < rows[id].startsAt {
        return;
      }
      var activated := UpdateStatus(id, Pending, Active);
      if !activated {
        return;
      }
      if !started {
        var reverted := UpdateStatus(id, Active, Pending);
      }
    }

    /** maybeEndException: strictly after the end; whether to revert is for the caller. */
    method MaybeEndException(id: nat, now: int) returns (ended: bool)
      requires Valid() && id in rows
      modifies this
      ensures Valid() && rows.Keys == old(rows).Keys
      ensures ended <==> old(rows)[id].status.Active? && now > old(rows)[id].endsAt
      ensures rows == if ended then old(rows)[id := old(rows)[id].(status := Completed)] else old(rows)
    {
      if now <= rows[id].endsAt {
        return false;
      }
      ended := UpdateStatus(id, Active, Completed);
    }

    /** TickExceptions: `open` lists the open exceptions with the status they were read with.  When the
        list is complete, every pending exception that has begun and can be started is active afterwards,
        and no exception that was active stays so after its end. */
    method TickExceptions(open: seq<(nat, Status)>, now: int, starts: set<nat>)
      requires Valid() && forall i :: 0 <= i < |open| ==> open[i].0 in rows
      requires forall i, j :: 0 <= i < j < |open| ==> open[i].0 != open[j].0
      modifies this
      ensures Valid() && rows.Keys == old(rows).Keys
      ensures forall id :: id in rows ==> Ticked(old(rows)[id], rows[id], now)
      ensures forall i :: 0 <= i < |open| ==>
                rows[open[i].0] == TickOf(old(rows)[open[i].0], open[i].1, now, open[i].0 in starts)
      ensures forall id :: id in rows && (forall i :: 0 <= i < |open| ==> open[i].0 != id) ==> rows[id] == old(rows)[id]
      ensures Complete(old(rows), open) ==>
                forall id :: id in rows && id in starts && old(rows)[id].status == Pending && now >= old(rows)[id].startsAt ==>
                  rows[id].status == Active
      ensures Complete(old(rows), open) ==>
                forall id :: id in rows && old(rows)[id].status == Active && now > old(rows)[id].endsAt ==>
                  rows[id].status == Completed
    {
      for i := 0 to |open|
        invariant Valid() && rows.Keys == old(rows).Keys
        invariant forall j :: 0 <= j < i ==>
                    rows[open[j].0] == TickOf(old(rows)[open[j].0], open[j].1, now, open[j].0 in starts)
        invariant forall id :: id in rows && (forall j :: 0 <= j < i ==> open[j].0 != id) ==> rows[id] == old(rows)[id]
      {
        var id, status := open[i].0, open[i].1;
        if status.Pending? {
          MaybeStartException(id, now, id in starts);
        } else if status.Active? {
          var ended := MaybeEndException(id, now);
        }
      }
      AllTicked(old(rows), rows, open, now, starts);
    }
  }

  /** Every open row is listed with its status. */
  ghost predicate Complete(rows: map<nat, Row>, open: seq<(nat, Status)>) {
    forall id :: id in rows && Open(rows[id].status) ==> (id, rows[id].status) in open
  }

  lemma AllTicked(before: map<nat, Row>, after: map<nat, Row>, open: seq<(nat, Status)>, now: int, starts: set<nat>)
    requires before.Keys == after.Keys && forall i :: 0 <= i < |open| ==> open[i].0 in before
    requires forall i :: 0 <= i < |open| ==>
               after[open[i].0] == TickOf(before[open[i].0], open[i].1, now, open[i].0 in starts)
    requires forall id :: id in after && (forall i :: 0 <= i < |open| ==> open[i].0 != id) ==> after[id] == before[id]
    ensures forall id :: id in after ==> Ticked(before[id], after[id], now)
    ensures Complete(before, open) ==> forall id :: id in after && Open(before[id].status) ==>
              after[id] == TickOf(before[id], before[id].status, now, id in starts)
  {
    forall id | id in after
      ensures Ticked(before[id], after[id], now)
    {
      if i :| 0 <= i < |open| && open[i].0 == id {
        assert after[open[i].0] == TickOf(before[id], open[i].1, now, id in starts);
      }
    }
    forall id | id in after && Open(before[id].status) && Complete(before, open)
      ensures after[id] == TickOf(before[id], before[id].status, now, id in starts)
    {
      assert (id, before[id].status) in open;
      var i :| 0 <= i < |open| && open[i] == (id, before[id].status);
      assert open[i].0 == id;
    }
  }
}

/** Owned cordons: the drain and delete path marks a node before it makes it unschedulable, and undoes
    only its own marks, although updates race with other writers, may be done and still report an
    error, and the process may die at any call. */
module NodeCordons {
  import opened Options

  type Name = string

  /** `version` changes with every write; `owner` is the cordon-owner annotation. */
  datatype Node = Node(unschedulable: bool, owner: Option<nat>, version: nat)

  /** What other actors do; none of them writes the annotation of this program. */
  datatype Outside =
    | Cordon(name: Name)
    | Uncordon(name: Name)
    | ClearMarker(name: Name)
    | Touch(name: Name)
    | Remove(name: Name)
    | Add(name: Name, unschedulable: bool)

  function Act(nodes: map<Name, Node>, version: nat, o: Outside): map<Name, Node> {
    if o.Remove? then nodes - {o.name}
    else if o.Add? then (if o.name in nodes then nodes else nodes[o.name := Node(o.unschedulable, None, version)])
    else if o.name !in nodes then nodes
    else
      var n := nodes[o.name].(version := version);
      nodes[o.name := if o.Cordon? then n.(unschedulable := true)
                      else if o.Uncordon? then n.(unschedulable := false)
                      else if o.ClearMarker? then n.(owner := None)
                      else n]
  }

  /** What others do to a node, and that they do nothing to any other. */
  lemma OthersAct(nodes: map<Name, Node>, version: nat, name: Name, unschedulable: bool)
    ensures name in nodes ==>
              && Act(nodes, version, Cordon(name)) == nodes[name := Node(true, nodes[name].owner, version)]
              && Act(nodes, version, Uncordon(name)) == nodes[name := Node(false, nodes[name].owner, version)]
              && Act(nodes, version, ClearMarker(name)) == nodes[name := Node(nodes[name].unschedulable, None, version)]
              && Act(nodes, version, Touch(name)) == nodes[name := Node(nodes[name].unschedulable, nodes[name].owner, version)]
    ensures Act(nodes, version, Remove(name)) == nodes - {name}
    ensures name !in nodes ==> Act(nodes, version, Add(name, unschedulable)) == nodes[name := Node(unschedulable, None, version)]
  {
  }

  /** Done; not done; done and still an error; the process dies before the call. */
  datatype Reply = Fine | Fails | Ambiguous | Dies

  /** What happens before an interface call, and what the call answers. */
  datatype Event = Event(outside: seq<Outside>, reply: Reply)

  datatype GetResult = Found(node: Node) | NotFound | GetError

  datatype UpdateResult = Updated | Conflict | UpdateError

  /** The writes to nodes that were done for this program. */
  datatype Write = Marked(name: Name, before: Node, owner: nat) | Unmarked(name: Name, before: Node)

  ghost predicate MarkedIn(writes: seq<Write>, name: Name, owner: nat) {
    exists i :: 0 <= i < |writes| && writes[i].Marked? && writes[i].name == name && writes[i].owner == owner
  }

  /** A mark is put on a schedulable node, and only a mark that was put there is taken away. */
  ghost predicate JustifiedAt(writes: seq<Write>, i: nat)
    requires i < |writes|
  {
    match writes[i]
    case Marked(_, before, _) => !before.unschedulable
    case Unmarked(name, before) => before.owner.Some? && MarkedIn(writes[..i], name, before.owner.value)
  }

  ghost predicate Justified(writes: seq<Write>) {
    forall i :: 0 <= i < |writes| ==> JustifiedAt(writes, i)
  }

  /** The mark that a justified write takes away, and the state of the node when it was put there. */
  lemma OwnCordon(writes: seq<Write>, i: nat)
    requires Justified(writes) && i < |writes| && writes[i].Unmarked?
    ensures exists j :: 0 <= j < i && writes[j].Marked? && writes[j].name == writes[i].name &&
                        writes[i].before.owner == Some(writes[j].owner) && !writes[j].before.unschedulable
  {
    assert JustifiedAt(writes, i);
    var j :| 0 <= j < |writes[..i]| && writes[..i][j].Marked? && writes[..i][j].name == writes[i].name &&
             writes[..i][j].owner == writes[i].before.owner.value;
    assert writes[j] == writes[..i][j] && JustifiedAt(writes, j);
  }

  lemma JustifiedGrows(writes: seq<Write>, w: Write)
    requires Justified(writes) && JustifiedAt(writes + [w], |writes|)
    ensures Justified(writes + [w])
    ensures forall n, o :: MarkedIn(writes, n, o) ==> MarkedIn(writes + [w], n, o)
    ensures w.Marked? ==> MarkedIn(writes + [w], w.name, w.owner)
  {
    var more := writes + [w];
    forall i | 0 <= i < |more|
      ensures JustifiedAt(more, i)
    {
      if i < |writes| {
        assert JustifiedAt(writes, i);
        assert more[i] == writes[i] && more[..i] == writes[..i];
      }
    }
    forall n, o | MarkedIn(writes, n, o)
      ensures MarkedIn(more, n, o)
    {
      var i :| 0 <= i < |writes| && writes[i].Marked? && writes[i].name == n && writes[i].owner == o;
      assert more[i] == writes[i];
    }
    assert more[|writes|] == w;
  }

  /** No marker appears on a node. */
  ghost predicate Shrinks(a: map<Name, Node>, b: map<Name, Node>) {
    forall n :: n in b && b[n].owner.Some? ==> n in a && a[n].owner == b[n].owner
  }

  /** A node with an old version is as it was. */
  ghost predicate Versioned(a: map<Name, Node>, version: nat, b: map<Name, Node>) {
    forall n :: n in b && b[n].version < version ==> n in a && a[n] == b[n]
  }

  /** The new writes of a call that was given the marker `owner` to remove. */
  ghost predicate OnlyUnmarks(before: seq<Write>, after: seq<Write>, name: Name, owner: Option<nat>) {
    before <= after &&
    forall i :: |before| <= i < |after| ==> after[i].Unmarked? && after[i].name == name && after[i].before.owner == owner
  }

  ghost predicate AllQuiet(script: seq<Event>) {
    forall i :: 0 <= i < |script| ==> script[i].outside == []
  }

  /** Without interference: one node changed to this, and nothing else. */
  ghost predicate Became(before: map<Name, Node>, after: map<Name, Node>, name: Name, unschedulable: bool, owner: Option<nat>) {
    name in before && name in after && after == before[name := Node(unschedulable, owner, after[name].version)]
  }

  lemma ActKeeps(first: map<Name, Node>, from: nat, nodes: map<Name, Node>, version: nat, o: Outside)
    requires Shrinks(first, nodes) && Versioned(first, from, nodes) && from <= version
    requires forall n :: n in nodes ==> nodes[n].version < version
    ensures Shrinks(first, Act(nodes, version, o)) && Versioned(first, from, Act(nodes, version, o))
    ensures forall n :: n in Act(nodes, version, o) ==> Act(nodes, version, o)[n].version < version + 1
  {
  }

  /** The nodes after what others do, one after another. */
  function ActAll(nodes: map<Name, Node>, version: nat, outside: seq<Outside>): map<Name, Node>
    decreases |outside|
  {
    if outside == [] then nodes else ActAll(Act(nodes, version, outside[0]), version + 1, outside[1..])
  }

  lemma {:induction false} ActAllKeeps(first: map<Name, Node>, from: nat, nodes: map<Name, Node>, version: nat, outside: seq<Outside>)
    requires Shrinks(first, nodes) && Versioned(first, from, nodes) && from <= version
    requires forall n :: n in nodes ==> nodes[n].version < version
    ensures Shrinks(first, ActAll(nodes, version, outside)) && Versioned(first, from, ActAll(nodes, version, outside))
    ensures forall n :: n in ActAll(nodes, version, outside) ==> ActAll(nodes, version, outside)[n].version < version + |outside|
    decreases |outside|
  {
    if outside != [] {
      ActKeeps(first, from, nodes, version, outside[0]);
      ActAllKeeps(first, from, Act(nodes, version, outside[0]), version + 1, outside[1..]);
    }
  }

  lemma {:induction false} NodeKept(nodes: map<Name, Node>, version: nat, outside: seq<Outside>, name: Name)
    requires name in nodes && KeepsNode(outside, name)
    ensures name in ActAll(nodes, version, outside)
    decreases |outside|
  {
    if outside != [] {
      NodeKept(Act(nodes, version, outside[0]), version + 1, outside[1..], name);
    }
  }

  lemma Touched(nodes: map<Name, Node>, version: nat, name: Name)
    requires name in nodes
    ensures ActAll(nodes, version, [Touch(name)]) == nodes[name := nodes[name].(version := version)]
  {
    assert ActAll(Act(nodes, version, Touch(name)), version + 1, []) == Act(nodes, version, Touch(name));
    assert [Touch(name)][1..] == [];
  }

  const GOOD := Event([], Fine)

  function Head(script: seq<Event>): Event { if script == [] then GOOD else script[0] }

  function Tail(script: seq<Event>): seq<Event> { if script == [] then [] else script[1..] }

  const ATTEMPTS: nat := 4

  /** Everything goes well up to at most one call, which fails or is done and still reports an error. */
  ghost predicate OneFault(script: seq<Event>) {
    forall i :: 0 <= i < |script| ==>
      script[i].outside == [] && !script[i].reply.Dies? && (i < |script| - 1 ==> script[i].reply.Fine?)
  }

  /** Others may do what they like, but nobody removes the node, and all calls are fine. */
  ghost predicate Benign(script: seq<Event>, name: Name) {
    forall i :: 0 <= i < |script| ==> script[i].reply.Fine? && KeepsNode(script[i].outside, name)
  }

  ghost predicate KeepsNode(outside: seq<Outside>, name: Name) {
    forall j :: 0 <= j < |outside| ==> outside[j] != Remove(name)
  }

  /** Somebody touches the node between reading it and writing it. */
  function ConflictOn(name: Name): seq<Event> {
    [GOOD, GOOD, Event([Touch(name)], Fine)]
  }

  function Conflicts(name: Name, n: nat): seq<Event> {
    if n == 0 then [] else ConflictOn(name) + Conflicts(name, n - 1)
  }

  /** After a call: the fault is still to come, or it has just happened. */
  ghost predicate Survived(before: seq<Event>, after: seq<Event>, ok: bool) {
    OneFault(before) ==> OneFault(after) && (!ok ==> after == [])
  }

  datatype Attempt = Succeeded | Retry | GaveUp

  class Client {
    var nodes: map<Name, Node>
    var nextVersion: nat
    var nextOwner: nat
    var alive: bool
    var script: seq<Event>     // what is to happen; all calls are fine once it is used up
    ghost var writes: seq<Write>

    ghost predicate Valid()
      reads this
    {
      && (forall n :: n in nodes ==> nodes[n].version < nextVersion)
      && (forall n :: n in nodes && nodes[n].owner.Some? ==>
            nodes[n].owner.value < nextOwner && MarkedIn(writes, n, nodes[n].owner.value))
      && Justified(writes)
    }

    /** `node` was read; if its version is still the current one, so is the rest of it. */
    ghost predicate Seen(name: Name, node: Node)
      reads this
    {
      node.version < nextVersion && (name in nodes && nodes[name].version == node.version ==> nodes[name] == node)
    }

    /** Whenever this program makes a node schedulable, it had itself made that node unschedulable
        before, with the very marker that it now takes away, when the node was schedulable: in every
        state that the methods of this class can leave behind, whatever else happens to the nodes. */
    lemma UndoesOwnCordons(i: nat)
      requires Valid() && i < |writes| && writes[i].Unmarked?
      ensures exists j :: 0 <= j < i && writes[j].Marked? && writes[j].name == writes[i].name &&
                          writes[i].before.owner == Some(writes[j].owner) && !writes[j].before.unschedulable
    {
      OwnCordon(writes, i);
    }

    constructor (nodes: map<Name, Node>, script: seq<Event>)
      requires forall n :: n in nodes ==> nodes[n].owner.None? && nodes[n].version == 0
      ensures Valid() && this.nodes == nodes && this.script == script && alive && writes == []
    {
      this.nodes, this.script := nodes, script;
      nextVersion, nextOwner, alive, writes := 1, 0, true, [];
    }

    // ------------------------------------------------------------ interface calls

    method Interfere(outside: seq<Outside>)
      requires Valid()
      modifies this`nodes, this`nextVersion
      ensures Valid() && Shrinks(old(nodes), nodes) && Versioned(old(nodes), old(nextVersion), nodes)
      ensures nodes == ActAll(old(nodes), old(nextVersion), outside) && nextVersion == old(nextVersion) + |outside|
    {
      ActAllKeeps(nodes, nextVersion, nodes, nextVersion, outside);
      for i := 0 to |outside|
        invariant nextVersion == old(nextVersion) + i
        invariant ActAll(nodes, nextVersion, outside[i..]) == ActAll(old(nodes), old(nextVersion), outside)
      {
        assert outside[i..][0] == outside[i] && outside[i..][1..] == outside[i + 1..];
        nodes := Act(nodes, nextVersion, outside[i]);
        nextVersion := nextVersion + 1;
      }
    }

    method Environment() returns (reply: Reply)
      requires Valid()
      modifies this`nodes, this`nextVersion, this`alive, this`script
      ensures Valid() && Shrinks(old(nodes), nodes) && Versioned(old(nodes), old(nextVersion), nodes)
      ensures nextVersion >= old(nextVersion)
      ensures AllQuiet(old(script)) ==> AllQuiet(script) && nodes == old(nodes)
      ensures script == Tail(old(script))
      ensures Head(old(script)).outside == [] ==> nodes == old(nodes)
      ensures nodes == ActAll(old(nodes), old(nextVersion), Head(old(script)).outside)
      ensures old(alive) ==> reply == Head(old(script)).reply && alive == !reply.Dies?
      ensures old(alive) && OneFault(old(script)) ==> alive && AllQuiet(old(script)) && Survived(old(script), script, reply.Fine?)
      ensures !alive ==> reply == Dies
    {
      reply := Fine;
      if script != [] {
        var event := script[0];
        script := script[1..];
        Interfere(event.outside);
        reply := event.reply;
      }
      if reply == Dies {
        alive := false;
      }
      if !alive {
        reply := Dies;
      }
    }

    method Get(name: Name) returns (r: GetResult)
      requires Valid()
      modifies this`nodes, this`nextVersion, this`alive, this`script
      ensures Valid() && Shrinks(old(nodes), nodes) && Versioned(old(nodes), old(nextVersion), nodes)
      ensures nextVersion >= old(nextVersion)
      ensures AllQuiet(old(script)) ==> AllQuiet(script) && nodes == old(nodes)
      ensures r.Found? ==> name in nodes && nodes[name] == r.node
      ensures r.NotFound? ==> name !in nodes
      ensures script == Tail(old(script))
      ensures old(alive) && Benign(old(script), name) ==> alive && !r.GetError?
      ensures old(alive) && Head(old(script)) == GOOD ==> !r.GetError? && alive && nodes == old(nodes)
      ensures old(alive) && OneFault(old(script)) ==> alive && Survived(old(script), script, !r.GetError?) && nodes == old(nodes)
    {
      var reply := Environment();
      if reply != Fine {
        return GetError;
      }
      return if name in nodes then Found(nodes[name]) else NotFound;
    }

    /** The ownership check before a mutation. */
    method CheckMutation() returns (ok: bool)
      requires Valid()
      modifies this`nodes, this`nextVersion, this`alive, this`script
      ensures nodes == ActAll(old(nodes), old(nextVersion), Head(old(script)).outside)
      ensures old(alive) && Head(old(script)).reply == Fine ==> alive && ok
      ensures Valid() && Shrinks(old(nodes), nodes) && Versioned(old(nodes), old(nextVersion), nodes)
      ensures nextVersion >= old(nextVersion)
      ensures AllQuiet(old(script)) ==> AllQuiet(script) && nodes == old(nodes)
      ensures script == Tail(old(script))
      ensures old(alive) && Head(old(script)) == GOOD ==> ok && alive && nodes == old(nodes)
      ensures old(alive) && OneFault(old(script)) ==> alive && Survived(old(script), script, ok) && nodes == old(nodes)
    {
      var reply := Environment();
      return reply == Fine;
    }

    /** The interface server's side of that update, which checks the version. */
    method WriteMarked(name: Name, seen: Node, owner: nat, reply: Reply) returns (r: UpdateResult)
      requires Valid() && Seen(name, seen) && owner < nextOwner && !seen.unschedulable
      modifies this`nodes, this`nextVersion, this`writes
      ensures Valid()
      ensures var done := !reply.Fails? && !reply.Dies? && name in old(nodes) && old(nodes)[name].version == seen.version;
              && (done ==> writes == old(writes) + [Marked(name, seen, owner)] && nodes == old(nodes)[name := Node(true, Some(owner), old(nextVersion))])
              && (!done ==> writes == old(writes) && nodes == old(nodes))
              && (r.Updated? <==> done && reply == Fine)
              && (r.Conflict? <==> !reply.Fails? && !reply.Dies? && name in old(nodes) && old(nodes)[name].version != seen.version)
    {
      if reply == Fails || reply == Dies {
        return UpdateError;
      }
      if name !in nodes {
        return UpdateError;
      }
      if nodes[name].version != seen.version {
        return Conflict;
      }
      JustifiedGrows(writes, Marked(name, seen, owner));
      writes := writes + [Marked(name, seen, owner)];
      nodes := nodes[name := Node(true, Some(owner), nextVersion)];
      nextVersion := nextVersion + 1;
      return if reply == Fine then Updated else UpdateError;
    }

    /** A version-checked update that puts the marker on a node and makes it unschedulable. */
    method UpdateMarked(name: Name, seen: Node, owner: nat) returns (r: UpdateResult)
      requires Valid() && Seen(name, seen) && owner < nextOwner && !seen.unschedulable
      modifies this`nodes, this`nextVersion, this`alive, this`script, this`writes
      ensures Valid()
      ensures writes == old(writes) || writes == old(writes) + [Marked(name, seen, owner)]
      ensures r.Updated? ==> writes != old(writes)
      ensures r.Conflict? ==> writes == old(writes)
      ensures writes == old(writes) ==> Shrinks(old(nodes), nodes)
      ensures AllQuiet(old(script)) && name in old(nodes) && old(nodes)[name] == seen ==>
                && AllQuiet(script) && !r.Conflict?
                && (if writes == old(writes) then nodes == old(nodes) else Became(old(nodes), nodes, name, true, Some(owner)))
      ensures old(alive) && old(script) == [] && name in old(nodes) && old(nodes)[name] == seen ==>
                r.Updated? && alive && script == []
      ensures old(alive) && OneFault(old(script)) && name in old(nodes) && old(nodes)[name] == seen ==>
                alive && Survived(old(script), script, r.Updated?)
    {
      var reply := Environment();
      r := WriteMarked(name, seen, owner, reply);
    }

    /** The interface server's side of that update, which checks the version. */
    method WriteUnmarked(name: Name, seen: Node, reply: Reply) returns (r: UpdateResult)
      requires Valid() && Seen(name, seen) && seen.owner.Some?
      modifies this`nodes, this`nextVersion, this`writes
      ensures Valid()
      ensures var done := !reply.Fails? && !reply.Dies? && name in old(nodes) && old(nodes)[name].version == seen.version;
              && (done ==> writes == old(writes) + [Unmarked(name, seen)] && nodes == old(nodes)[name := Node(false, None, old(nextVersion))])
              && (!done ==> writes == old(writes) && nodes == old(nodes))
              && (r.Updated? <==> done && reply == Fine)
              && (r.Conflict? <==> !reply.Fails? && !reply.Dies? && name in old(nodes) && old(nodes)[name].version != seen.version)
    {
      if reply == Fails || reply == Dies {
        return UpdateError;
      }
      if name !in nodes {
        return UpdateError;
      }
      if nodes[name].version != seen.version {
        return Conflict;
      }
      JustifiedGrows(writes, Unmarked(name, seen));
      writes := writes + [Unmarked(name, seen)];
      nodes := nodes[name := Node(false, None, nextVersion)];
      nextVersion := nextVersion + 1;
      return if reply == Fine then Updated else UpdateError;
    }

    /** A version-checked update that takes the marker away and makes the node schedulable. */
    method UpdateUnmarked(name: Name, seen: Node) returns (r: UpdateResult)
      requires Valid() && Seen(name, seen) && seen.owner.Some?
      modifies this`nodes, this`nextVersion, this`alive, this`script, this`writes
      ensures Valid() && Shrinks(old(nodes), nodes)
      ensures writes == old(writes) || writes == old(writes) + [Unmarked(name, seen)]
      ensures r.Updated? ==> name in nodes && nodes[name].owner.None?
      ensures script == Tail(old(script))
      ensures old(alive) && Head(old(script)).reply == Fine && KeepsNode(Head(old(script)).outside, name) && name in old(nodes) ==>
                alive && !r.UpdateError?
      ensures old(alive) && Head(old(script)) == Event([Touch(name)], Fine) && name in old(nodes) && old(nodes)[name].version == seen.version ==>
                r.Conflict? && alive && name in nodes && nodes[name].owner == old(nodes)[name].owner
      ensures AllQuiet(old(script)) && name in old(nodes) && old(nodes)[name] == seen ==>
                && AllQuiet(script) && !r.Conflict?
                && (if writes == old(writes) then nodes == old(nodes) else Became(old(nodes), nodes, name, false, None))
                && (r.Updated? ==> writes != old(writes))
      ensures old(alive) && old(script) == [] && name in old(nodes) && old(nodes)[name] == seen ==>
                r.Updated? && alive && script == []
    {
      if name in nodes && KeepsNode(Head(script).outside, name) {
        NodeKept(nodes, nextVersion, Head(script).outside, name);
      }
      if name in nodes && Head(script) == Event([Touch(name)], Fine) {
        Touched(nodes, nextVersion, name);
      }
      var reply := Environment();
      r := WriteUnmarked(name, seen, reply);
    }

    // ------------------------------------------------------------ cordons

    /** cordonForDrain: the marker it may have put on the node, also when it reports an error. */
    method CordonForDrain(name: Name) returns (owner: Option<nat>, ok: bool)
      requires Valid()
      modifies this`nodes, this`nextVersion, this`nextOwner, this`alive, this`script, this`writes
      ensures Valid()
      ensures owner.None? ==> writes == old(writes) && Shrinks(old(nodes), nodes)
      ensures owner.Some? ==>
                && owner.value == old(nextOwner)
                && (writes == old(writes) ||
                    exists seen: Node :: !seen.unschedulable && writes == old(writes) + [Marked(name, seen, owner.value)])
      ensures AllQuiet(old(script)) ==> AllQuiet(script)
      ensures AllQuiet(old(script)) && owner.None? ==> nodes == old(nodes) && (ok ==> name in nodes && nodes[name].unschedulable)
      ensures old(alive) && Head(old(script)) == GOOD && name in old(nodes) && old(nodes)[name].unschedulable ==>
                owner.None? && ok && alive && nodes == old(nodes) && script == Tail(old(script))
      ensures old(alive) && old(script) == [] && name in old(nodes) && !old(nodes)[name].unschedulable ==>
                owner.Some? && ok && alive && script == [] && Became(old(nodes), nodes, name, true, owner)
      ensures old(alive) && OneFault(old(script)) ==> alive && Survived(old(script), script, ok || owner.None?)
      ensures AllQuiet(old(script)) && owner.Some? ==>
                && name in old(nodes) && !old(nodes)[name].unschedulable
                && (nodes == old(nodes) || Became(old(nodes), nodes, name, true, owner))
                && (ok ==> Became(old(nodes), nodes, name, true, owner))
    {
      var got := Get(name);
      if !got.Found? {
        return None, false;
      }
      var node := got.node;
      if node.unschedulable {
        return None, true;
      }
      var allowed := CheckMutation();
      if !allowed {
        return None, false;
      }
      var mine := nextOwner;
      nextOwner := nextOwner + 1;
      var updated := UpdateMarked(name, node, mine);
      return Some(mine), updated.Updated?;
    }

    /** The second half of an attempt: the ownership check and the write. */
    method CheckedUnmark(name: Name, node: Node) returns (a: Attempt)
      requires Valid() && node.owner.Some? && name in nodes && nodes[name] == node
      modifies this`nodes, this`nextVersion, this`alive, this`script, this`writes
      ensures Valid() && Shrinks(old(nodes), nodes)
      ensures OnlyUnmarks(old(writes), writes, name, node.owner)
      ensures a.Succeeded? ==> name in nodes && nodes[name].owner.None?
      ensures AllQuiet(old(script)) ==> AllQuiet(script) && !a.Retry? && Recovered(old(nodes), nodes, name, node.owner, a.Succeeded?)
      ensures old(alive) && old(script) == [] ==> a.Succeeded? && alive && script == []
      ensures old(alive) && Benign(old(script), name) ==> alive && !a.GaveUp? && script == Tail(Tail(old(script)))
      ensures old(alive) && Head(old(script)) == GOOD && Head(Tail(old(script))) == Event([Touch(name)], Fine) ==>
                a.Retry? && alive && script == Tail(Tail(old(script))) && name in nodes && nodes[name].owner == node.owner
    {
      if KeepsNode(Head(script).outside, name) {
        NodeKept(nodes, nextVersion, Head(script).outside, name);
      }
      var allowed := CheckMutation();
      if !allowed {
        return GaveUp;
      }
      var updated := UpdateUnmarked(name, node);
      return match updated case Updated => Succeeded case Conflict => Retry case UpdateError => GaveUp;
    }

    /** One attempt of recoverCordon: read, compare, write. */
    method TryRecover(name: Name, owner: Option<nat>) returns (a: Attempt)
      requires Valid()
      modifies this`nodes, this`nextVersion, this`alive, this`script, this`writes
      ensures Valid() && Shrinks(old(nodes), nodes)
      ensures OnlyUnmarks(old(writes), writes, name, owner)
      ensures a.Succeeded? && owner.Some? && name in nodes ==> nodes[name].owner != owner
      ensures AllQuiet(old(script)) ==> AllQuiet(script) && !a.Retry? && Recovered(old(nodes), nodes, name, owner, a.Succeeded?)
      ensures old(alive) && old(script) == [] ==> a.Succeeded? && alive && script == []
      ensures old(alive) && Benign(old(script), name) ==>
                alive && !a.GaveUp? && (a.Retry? ==> Benign(script, name) && |script| == if |old(script)| < 3 then 0 else |old(script)| - 3)
      ensures old(alive) && ConflictOn(name) <= old(script) && owner.Some? && name in old(nodes) && old(nodes)[name].owner == owner ==>
                a.Retry? && alive && script == old(script)[3..] && name in nodes && nodes[name].owner == owner
    {
      var got := Get(name);
      if got.NotFound? {
        return Succeeded;
      }
      if got.GetError? {
        return GaveUp;
      }
      var node := got.node;
      if node.owner != owner || owner.None? {
        return Succeeded;
      }
      a := CheckedUnmark(name, node);
    }

    /** recoverCordon: up to four attempts while the update conflicts. */
    method RecoverCordon(name: Name, owner: Option<nat>) returns (ok: bool)
      requires Valid()
      modifies this`nodes, this`nextVersion, this`alive, this`script, this`writes
      ensures Valid() && Shrinks(old(nodes), nodes)
      ensures OnlyUnmarks(old(writes), writes, name, owner)
      ensures ok && owner.Some? && name in nodes ==> nodes[name].owner != owner
      ensures AllQuiet(old(script)) ==> AllQuiet(script) && Recovered(old(nodes), nodes, name, owner, ok)
      ensures old(alive) && old(script) == [] ==> ok && alive && script == []
      ensures old(alive) && Benign(old(script), name) && |old(script)| <= 9 ==> ok
      ensures old(alive) && old(script) == Conflicts(name, 4) && owner.Some? && name in old(nodes) && old(nodes)[name].owner == owner ==>
                !ok && name in nodes && nodes[name].owner == owner
    {
      for attempt := 0 to ATTEMPTS
        invariant old(alive) && Benign(old(script), name) && |old(script)| <= 9 ==>
                    attempt <= 3 && alive && Benign(script, name) && |script| <= 9 - 3 * attempt
        invariant old(alive) && old(script) == Conflicts(name, 4) && owner.Some? && name in old(nodes) && old(nodes)[name].owner == owner ==>
                    alive && script == Conflicts(name, 4 - attempt) && name in nodes && nodes[name].owner == owner
        invariant Valid() && Shrinks(old(nodes), nodes) && OnlyUnmarks(old(writes), writes, name, owner)
        invariant attempt > 0 ==> !AllQuiet(old(script))
        invariant attempt == 0 ==> nodes == old(nodes) && script == old(script) && alive == old(alive)
      {
        var a := TryRecover(name, owner);
        if a.Succeeded? {
          return true;
        }
        if a.GaveUp? {
          return false;
        }
      }
      return false;
    }

    /** RecoverNodeCordon: whatever marker the node has now. */
    method RecoverNodeCordon(name: Name) returns (ok: bool, ghost marker: Option<nat>)
      requires Valid()
      modifies this`nodes, this`nextVersion, this`alive, this`script, this`writes
      ensures Valid() && Shrinks(old(nodes), nodes) && old(writes) <= writes
      ensures marker.Some? ==> name in old(nodes) && old(nodes)[name].owner == marker
      ensures OnlyUnmarks(old(writes), writes, name, marker)
      ensures ok && name in nodes ==> nodes[name].owner.None?
      ensures AllQuiet(old(script)) ==>
                && AllQuiet(script)
                && Recovered(old(nodes), nodes, name, if name in old(nodes) then old(nodes)[name].owner else None, ok)
      ensures old(alive) && old(script) == [] ==> ok && alive && script == []
    {
      marker := None;
      var got := Get(name);
      if got.NotFound? {
        return true, None;
      }
      if got.GetError? {
        return false, None;
      }
      marker := got.node.owner;
      ok := RecoverCordon(name, got.node.owner);
    }

    /** Listing, evicting and waiting for the pods of the node; only whether it worked matters here. */
    method DrainPods() returns (ok: bool)
      requires Valid()
      modifies this`nodes, this`nextVersion, this`alive, this`script
      ensures Valid() && Shrinks(old(nodes), nodes)
      ensures AllQuiet(old(script)) ==> AllQuiet(script) && nodes == old(nodes)
      ensures script == Tail(old(script))
      ensures old(alive) && Head(old(script)) == GOOD ==> ok && alive && nodes == old(nodes)
      ensures old(alive) && OneFault(old(script)) ==> alive && Survived(old(script), script, ok) && nodes == old(nodes)
    {
      var reply := Environment();
      return reply == Fine;
    }

    /** DrainNode: on failure it recovers the cordon it may have made, and only that. */
    method DrainNode(name: Name) returns (ok: bool, cleanupFailed: bool)
      requires Valid()
      modifies this
      ensures Valid() && OwnWrites(old(writes), writes, name, old(nextOwner))
      ensures ok ==> !cleanupFailed
      ensures old(alive) && OneFault(old(script)) ==> alive && OneFault(script) && !cleanupFailed
      ensures AllQuiet(old(script)) ==>
                && AllQuiet(script)
                && (name in old(nodes) && old(nodes)[name].unschedulable ==> nodes == old(nodes))
                && (ok ==> name in old(nodes) &&
                           (nodes == old(nodes) || Became(old(nodes), nodes, name, true, Some(old(nextOwner)))) &&
                           nodes[name].unschedulable)
                && (!ok && !cleanupFailed ==> nodes == old(nodes) || Became(old(nodes), nodes, name, false, None))
                && (name in old(nodes) && nodes != old(nodes) ==> !old(nodes)[name].unschedulable)
                && DrainOutcome(old(nodes), nodes, name)
      ensures old(alive) && Head(old(script)) == GOOD && Head(Tail(old(script))) == GOOD &&
              name in old(nodes) && old(nodes)[name].unschedulable ==>
                ok && alive && nodes == old(nodes) && script == Tail(Tail(old(script)))
      ensures old(alive) && old(script) == [] && name in old(nodes) ==>
                && ok && alive && script == []
                && if old(nodes)[name].unschedulable then nodes == old(nodes)
                   else Became(old(nodes), nodes, name, true, Some(old(nextOwner)))
    {
      var owner, cordoned := CordonForDrain(name);
      ghost var marked, markedWrites := nodes, writes;
      ok, cleanupFailed := cordoned, false;
      if cordoned {
        ok := DrainPods();
      }
      if !ok && owner.Some? {
        var recovered := RecoverCordon(name, owner);
        cleanupFailed := !recovered;
      }
    }

    method DeleteNode(name: Name) returns (ok: bool)
      requires Valid()
      modifies this`nodes, this`nextVersion, this`alive, this`script
      ensures Valid() && Shrinks(old(nodes), nodes)
      ensures ok ==> name !in nodes
      ensures AllQuiet(old(script)) ==>
                AllQuiet(script) && (nodes == old(nodes) || nodes == old(nodes) - {name}) && (ok ==> name in old(nodes))
      ensures old(alive) && Head(old(script)) == GOOD && Head(Tail(old(script))) == Event([], Fails) ==>
                !ok && alive && nodes == old(nodes) && script == Tail(Tail(old(script)))
      ensures old(alive) && old(script) == [] && name in old(nodes) ==>
                ok && alive && script == [] && nodes == old(nodes) - {name}
      ensures old(alive) && OneFault(old(script)) && name in old(nodes) ==> alive && Survived(old(script), script, ok)
    {
      var allowed := CheckMutation();
      if !allowed {
        return false;
      }
      var reply := Environment();
      if reply == Fails || reply == Dies || name !in nodes {
        return false;
      }
      nodes := nodes - {name};
      return reply == Fine;
    }

    /** drainAndDeleteNode.  Without interference, a node that stays is as schedulable as it was, except
        that an unschedulable node with a marker left over from before becomes schedulable when only
        its deletion fails. */
    method DrainAndDeleteNode(name: Name, apply: bool) returns (drained: bool, deleted: bool, errored: bool, cleanupOk: bool)
      requires Valid()
      modifies this
      ensures Valid() && old(writes) <= writes && (errored <==> !deleted)
      ensures !apply ==> drained && deleted && nodes == old(nodes) && script == old(script) && writes == old(writes)
      ensures apply && deleted ==> drained
      ensures apply && AllQuiet(old(script)) ==> AllQuiet(script)
      ensures apply && AllQuiet(old(script)) ==> DrainOutcome(old(nodes), nodes, name)
      ensures apply && AllQuiet(old(script)) && deleted ==> nodes == old(nodes) - {name}
      ensures apply && AllQuiet(old(script)) && !deleted && cleanupOk ==>
                || nodes == old(nodes) - {name}
                || nodes == old(nodes)
                || Became(old(nodes), nodes, name, false, None)
      ensures apply && AllQuiet(old(script)) && !deleted && cleanupOk && name in nodes ==>
                && name in old(nodes)
                && (nodes[name].unschedulable <==>
                    old(nodes)[name].unschedulable && (!drained || old(nodes)[name].owner.None?))
      ensures apply && old(alive) && name in old(nodes) && old(nodes)[name].unschedulable && old(nodes)[name].owner.Some? &&
              old(script) == [GOOD, GOOD, GOOD, Event([], Fails)] ==>
                drained && !deleted && cleanupOk && name in nodes && !nodes[name].unschedulable
      ensures apply && old(alive) && old(script) == [] && name in old(nodes) ==>
                drained && deleted && cleanupOk && alive && script == [] && nodes == old(nodes) - {name}
      ensures apply && old(alive) && OneFault(old(script)) && name in old(nodes) ==> alive && cleanupOk
    {
      if !apply {
        return true, true, false, true;
      }
      var ok, cleanupFailed := DrainNode(name);
      if !ok {
        return false, false, true, !cleanupFailed;
      }
      ghost var afterDrain := nodes;
      var gone := DeleteNode(name);
      if !gone {
        var recovered, _ := RecoverNodeCordon(name);
        return true, false, true, recovered;
      }
      return true, true, false, true;
    }

    /** A new process takes over; the cluster is as it is. */
    method Restart()
      requires Valid()
      modifies this`alive
      ensures Valid() && alive
    {
      alive := true;
    }

    /** RecoverOwnedCordons: when it succeeds, no listed node keeps the marker it was listed with,
        whatever others did meanwhile. */
    method RecoverOwnedCordons() returns (ok: bool, listed: map<Name, Node>)
      requires Valid()
      modifies this`nodes, this`nextVersion, this`alive, this`script, this`writes
      ensures Valid() && Shrinks(old(nodes), nodes) && old(writes) <= writes
      ensures ok ==> forall n :: n in listed && listed[n].owner.Some? && n in nodes ==> nodes[n].owner != listed[n].owner
      ensures AllQuiet(old(script)) && ok ==>
                && listed == old(nodes) && nodes.Keys == old(nodes).Keys
                && forall n :: n in nodes ==>
                     if old(nodes)[n].owner.Some? then nodes[n].owner.None? && !nodes[n].unschedulable
                     else nodes[n] == old(nodes)[n]
      ensures old(alive) && old(script) == [] ==> ok && alive && script == []
    {
      listed := map[];
      var reply := Environment();
      if reply != Fine {
        return false, listed;
      }
      listed := nodes;
      var todo := listed.Keys;
      while todo != {}
        invariant Valid() && Shrinks(old(nodes), nodes) && old(writes) <= writes && todo <= listed.Keys
        invariant forall n :: n in listed && n !in todo && listed[n].owner.Some? && n in nodes ==> nodes[n].owner != listed[n].owner
        invariant old(alive) && old(script) == [] ==> alive && script == []
        invariant AllQuiet(old(script)) ==>
                    && AllQuiet(script) && listed == old(nodes) && nodes.Keys == old(nodes).Keys
                    && forall n :: n in nodes ==>
                         if n !in todo && old(nodes)[n].owner.Some? then nodes[n].owner.None? && !nodes[n].unschedulable
                         else nodes[n] == old(nodes)[n]
        decreases todo
      {
        var name :| name in todo;
        todo := todo - {name};
        if listed[name].owner.Some? {
          var recovered := RecoverCordon(name, listed[name].owner);
          if !recovered {
            return false, listed;
          }
        }
      }
      return true, listed;
    }

    /** A drain that dies at any call, and the process that follows it: if no marker was left over from before
        and its recovery succeeds, every node that is still there is as schedulable as it was, and none
        carries a marker. */
    method DrainAndTakeOver(name: Name) returns (ok: bool)
      requires Valid()
      modifies this
      ensures Valid() && old(writes) <= writes
      ensures ok && AllQuiet(old(script)) && (forall n :: n in old(nodes) ==> old(nodes)[n].owner.None?) ==>
                && nodes.Keys <= old(nodes).Keys
                && forall n :: n in nodes ==> nodes[n].owner.None? && nodes[n].unschedulable == old(nodes)[n].unschedulable
    {
      var drained, deleted, errored, cleanupOk := DrainAndDeleteNode(name, true);
      Restart();
      var listed;
      ok, listed := RecoverOwnedCordons();
    }
  }

  /** What a drain and deletion can leave of the nodes, whatever call it dies at: everything as it was, the
      node gone, its own marker on a node that was schedulable, or the node schedulable without a marker,
      when it was so or had a marker. */
  ghost predicate DrainOutcome(before: map<Name, Node>, after: map<Name, Node>, name: Name) {
    || after == before
    || after == before - {name}
    || (name in before && !before[name].unschedulable && name in after && after[name].owner.Some? &&
        Became(before, after, name, true, after[name].owner))
    || (name in before && (before[name].owner.Some? || !before[name].unschedulable) && Became(before, after, name, false, None))
  }

  /** A drain's writes: its own fresh marker on a schedulable node, and that marker off again. */
  ghost predicate OwnWrites(before: seq<Write>, after: seq<Write>, name: Name, mine: nat) {
    before <= after &&
    forall i :: |before| <= i < |after| ==>
      && after[i].name == name
      && (if after[i].Marked? then after[i].owner == mine && !after[i].before.unschedulable
          else after[i].before.owner == Some(mine))
  }

  /** Without interference the node is as it was, or its marker is gone and it is schedulable; the
      latter for sure if recovery succeeded and the node had the marker. */
  ghost predicate Recovered(before: map<Name, Node>, after: map<Name, Node>, name: Name, owner: Option<nat>, ok: bool) {
    var marked := owner.Some? && name in before && before[name].owner == owner;
    || (after == before && (ok ==> !marked))
    || (marked && Became(before, after, name, false, None))
  }
}

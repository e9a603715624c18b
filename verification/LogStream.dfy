/** Live log streaming of one execution: the publisher, the shared replay buffer, batches to the
    database, and a client that joins at any moment. */
module LogStream {
  const FLUSH_SIZE: nat := 50
  const REPLAY_SIZE: nat := 256
  const CHANNEL_BUFFER: nat := 256
  const MAX_LOG_LINES: nat := 5000

  datatype Line = Line(seqNo: nat, message: string)

  function Last(s: seq<Line>, n: nat): seq<Line> {
    if |s| <= n then s else s[|s| - n..]
  }

  function First(s: seq<Line>, n: nat): seq<Line> {
    if |s| <= n then s else s[..n]
  }

  /** The lines whose number is greater than `n`, in their order. */
  function NewerThan(s: seq<Line>, n: nat): seq<Line> {
    if s == [] then []
    else if s[0].seqNo > n then [s[0]] + NewerThan(s[1..], n)
    else NewerThan(s[1..], n)
  }

  /** Lines are numbered from `first` on without gaps. */
  ghost predicate Numbered(s: seq<Line>, first: nat) {
    forall i :: 0 <= i < |s| ==> s[i].seqNo == first + i
  }

  // ---------------------------------------------------------------- the protocol

  /** What the publishing goroutine does next. */
  datatype Producer = Idle | Appending | Flushing | FinalFlush | Closing | Finishing | Done

  /** A client looks at the status first: `Joining` if the execution was running then, else `Late`. */
  datatype ClientStage = Away | Joining | Subscribed | HasHistory | CaughtUp | Live | Draining | Closed | Late | Served

  /** `joinedAt` and `base` are the numbers of lines published and persisted when it subscribed. */
  datatype Client = Client(
    stage: ClientStage,
    replay: seq<Line>,
    pending: seq<Line>,      // in its channel
    channelClosed: bool,
    existing: seq<Line>,     // what the database returned
    received: seq<Line>,
    ghost joinedAt: nat,
    ghost base: nat,
    ghost readAt: nat,       // lines persisted when it read the database
    ghost readFailed: bool,
    ghost joinedOpen: bool,  // it subscribed before the broker closed the execution
    ghost dropped: bool)     // its channel overflowed

  datatype State = State(
    history: seq<Line>,      // everything published
    appended: nat,           // how many of them reached the batch buffer
    persisted: nat,          // how many of them left the batch buffer
    db: seq<Line>,
    producer: Producer,
    brokerOpen: bool,
    running: bool,           // the stored status of the execution
    client: Client,
    ghost lost: bool)        // a batch failed

  datatype Step =
    | Publish(message: string)
    | Append
    | Flush(ok: bool)
    | EndOfLog
    | CloseBroker
    | Finish(ok: bool)       // the final status is stored, or that fails
    | CheckStatus
    | ReadLate(ok: bool)
    | Subscribe
    | ReadDb(ok: bool)
    | SendReplay
    | Recheck(ok: bool)
    | Receive
    | SeeClosed

  function Replay(s: State): seq<Line> {
    if s.brokerOpen then Last(s.history, REPLAY_SIZE) else []
  }

  function MaxSeq(lines: seq<Line>): nat {
    if lines == [] then 0
    else
      var rest := MaxSeq(lines[..|lines| - 1]);
      if lines[|lines| - 1].seqNo > rest then lines[|lines| - 1].seqNo else rest
  }

  /** It has a channel. */
  predicate HasChannel(c: Client) {
    c.stage == Subscribed || c.stage == HasHistory || (HasBacklog(c) && c.stage != Closed)
  }

  predicate HasBacklog(c: Client) {
    c.stage == CaughtUp || c.stage == Live || c.stage == Draining || c.stage == Closed
  }

  predicate Listens(s: State) {
    s.brokerOpen && HasChannel(s.client)
  }

  predicate Enabled(s: State, step: Step) {
    var c := s.client;
    match step
    case Publish(_) => s.producer == Idle
    case Append => s.producer == Appending
    case Flush(_) => s.producer == Flushing || s.producer == FinalFlush
    case EndOfLog => s.producer == Idle
    case CloseBroker => s.producer == Closing
    case Finish(_) => s.producer == Finishing
    case CheckStatus => c.stage == Away
    case ReadLate(_) => c.stage == Late
    case Subscribe => c.stage == Joining
    case ReadDb(_) => c.stage == Subscribed
    case SendReplay => c.stage == HasHistory
    case Recheck(_) => c.stage == CaughtUp
    case Receive => (c.stage == Live || c.stage == Draining) && c.pending != []
    case SeeClosed => (c.stage == Draining || (c.stage == Live && c.channelClosed)) && c.pending == []
  }

  /** A line to the client's channel; it is dropped when the channel is full. */
  function Offer(c: Client, line: Line): Client {
    if |c.pending| < CHANNEL_BUFFER then c.(pending := c.pending + [line]) else c.(dropped := true)
  }

  function Next(s: State, step: Step): State
    requires Enabled(s, step)
  {
    var c := s.client;
    match step
    case Publish(message) =>
      var line := Line(|s.history| + 1, message);
      s.(history := s.history + [line], producer := Appending,
         client := if Listens(s) then Offer(c, line) else c)
    case Append =>
      s.(appended := s.appended + 1,
         producer := if s.appended + 1 - s.persisted >= FLUSH_SIZE then Flushing else Idle)
    case Flush(ok) =>
      s.(persisted := s.appended, lost := s.lost || !ok,
         db := if ok && s.persisted <= s.appended <= |s.history| then s.db + s.history[s.persisted..s.appended] else s.db,
         producer := if s.producer == FinalFlush then Closing else Idle)
    case EndOfLog => s.(producer := FinalFlush)
    case CloseBroker =>
      s.(brokerOpen := false, producer := Finishing,
         client := if Listens(s) then c.(channelClosed := true) else c)
    case Finish(ok) => s.(running := s.running && !ok, producer := Done)
    case CheckStatus => s.(client := c.(stage := if s.running then Joining else Late))
    case ReadLate(ok) =>
      var existing := if ok then First(s.db, MAX_LOG_LINES) else [];
      s.(client := c.(stage := Served, existing := existing, received := existing, readFailed := !ok))
    case Subscribe =>
      s.(client := Client(Subscribed, Replay(s), [], false, [], [], |s.history|, s.persisted, 0, false, s.brokerOpen, false))
    case ReadDb(ok) =>
      var existing := if ok then First(s.db, MAX_LOG_LINES) else [];
      s.(client := c.(stage := HasHistory, existing := existing, received := existing, readAt := s.persisted,
         readFailed := !ok))
    case SendReplay =>
      s.(client := c.(stage := CaughtUp, received := c.received + NewerThan(c.replay, MaxSeq(c.existing))))
    case Recheck(ok) => s.(client := c.(stage := if s.running || !ok then Live else Draining))
    case Receive => s.(client := c.(received := c.received + [c.pending[0]], pending := c.pending[1..]))
    case SeeClosed => s.(client := c.(stage := Closed))
  }

  ghost predicate Legal(s: State, steps: seq<Step>)
    decreases |steps|
  {
    steps == [] || (Enabled(s, steps[0]) && Legal(Next(s, steps[0]), steps[1..]))
  }

  ghost function After(s: State, steps: seq<Step>): State
    requires Legal(s, steps)
    decreases |steps|
  {
    if steps == [] then s else After(Next(s, steps[0]), steps[1..])
  }

  const NO_CLIENT := Client(Away, [], [], false, [], [], 0, 0, 0, false, false, false)

  const INITIAL := State([], 0, 0, [], Idle, true, true, NO_CLIENT, false)

  // ---------------------------------------------------------------- what every step keeps

  ghost predicate ProducerOk(s: State) {
    && Numbered(s.history, 1)
    && s.persisted <= s.appended <= |s.history|
    && (if s.producer == Appending then s.appended + 1 == |s.history| else s.appended == |s.history|)
    && s.appended - s.persisted <= FLUSH_SIZE - (if s.producer == Flushing then 0 else 1)
    && (!s.lost ==> s.db == s.history[..s.persisted])
    && (s.brokerOpen <==> s.producer != Finishing && s.producer != Done)
    && (s.producer == Closing || !s.brokerOpen ==> s.persisted == |s.history|)
    && (!s.running ==> s.producer == Done)
  }

  /** The replay buffer reaches back to what was persisted when the client joined. */
  ghost predicate JoinOk(s: State) {
    var c := s.client;
    && c.base <= c.joinedAt <= |s.history| && c.base <= s.persisted
    && c.joinedAt - c.base <= REPLAY_SIZE
    && (c.replay == Last(s.history[..c.joinedAt], REPLAY_SIZE) || (c.replay == [] && c.base == c.joinedAt))
  }

  ghost predicate ReadOk(s: State) {
    var c := s.client;
    && c.base <= c.readAt <= s.persisted && c.readAt <= |s.history|
    && (!s.lost && !c.readFailed ==> c.existing == First(s.history[..c.readAt], MAX_LOG_LINES))
  }

  /** What a client that came too late got: the stored lines, of which there will be no more. */
  ghost predicate ServedOk(s: State) {
    !s.lost && !s.client.readFailed ==> s.client.received == First(s.history, MAX_LOG_LINES)
  }

  /** History and replay, as the client gets them before any live line. */
  ghost function Backlog(s: State): seq<Line> {
    s.client.existing + NewerThan(s.client.replay, MaxSeq(s.client.existing))
  }

  /** What it received since then, followed by what waits in its channel, is every line published
      after it joined. */
  ghost predicate LiveOk(s: State) {
    var c := s.client;
    && Backlog(s) <= c.received
    && (!c.dropped ==> c.joinedAt <= |s.history| && c.received[|Backlog(s)|..] + c.pending == s.history[c.joinedAt..])
  }

  ghost predicate ClientOk(s: State) {
    var c := s.client;
    match c.stage
    case Away => true
    case Joining => true
    case Late => !s.running
    case Served => !s.running && ServedOk(s)
    case Subscribed => JoinOk(s) && c.received == [] && WaitingOk(s)
    case HasHistory => JoinOk(s) && ReadOk(s) && c.received == c.existing && WaitingOk(s)
    case CaughtUp => JoinOk(s) && ReadOk(s) && c.received == Backlog(s) && WaitingOk(s)
    case Live => JoinOk(s) && ReadOk(s) && LiveOk(s)
    case Draining => JoinOk(s) && ReadOk(s) && LiveOk(s) && !s.brokerOpen
    case Closed => JoinOk(s) && ReadOk(s) && LiveOk(s) && c.pending == [] && !s.brokerOpen
  }

  /** Nothing live has been taken from the channel yet. */
  ghost predicate WaitingOk(s: State) {
    var c := s.client;
    !c.dropped ==> c.joinedAt <= |s.history| && c.pending == s.history[c.joinedAt..]
  }

  /** Its channel is closed exactly when it subscribed in time and the broker has closed. */
  ghost predicate ChannelOk(s: State) {
    HasChannel(s.client) ==>
      (s.brokerOpen ==> s.client.joinedOpen) && (s.client.channelClosed <==> s.client.joinedOpen && !s.brokerOpen)
  }

  ghost predicate Inv(s: State) {
    ProducerOk(s) && ClientOk(s) && ChannelOk(s)
  }

  lemma ProducerKeeps(s: State, step: Step)
    requires ProducerOk(s) && Enabled(s, step)
    ensures ProducerOk(Next(s, step))
  {
  }

  lemma OneMore(history: seq<Line>, line: Line, n: nat)
    requires n <= |history|
    ensures (history + [line])[..n] == history[..n] && (history + [line])[n..] == history[n..] + [line]
  {
  }

  lemma JoinKept(s: State, message: string)
    requires s.producer == Idle && JoinOk(s)
    ensures JoinOk(Next(s, Publish(message)))
  {
    OneMore(s.history, Line(|s.history| + 1, message), s.client.joinedAt);
  }

  lemma ReadKept(s: State, message: string)
    requires s.producer == Idle && ReadOk(s)
    ensures ReadOk(Next(s, Publish(message)))
  {
    OneMore(s.history, Line(|s.history| + 1, message), s.client.readAt);
  }

  lemma JoinAndReadKept(s: State, message: string)
    requires s.producer == Idle && ProducerOk(s)
    ensures JoinOk(s) ==> JoinOk(Next(s, Publish(message)))
    ensures ReadOk(s) ==> ReadOk(Next(s, Publish(message)))
  {
    if JoinOk(s) {
      JoinKept(s, message);
    }
    if ReadOk(s) {
      ReadKept(s, message);
    }
  }

  lemma WaitingKept(s: State, message: string)
    requires s.producer == Idle && Listens(s) && WaitingOk(s)
    ensures WaitingOk(Next(s, Publish(message)))
  {
    if s.client.joinedAt <= |s.history| {
      OneMore(s.history, Line(|s.history| + 1, message), s.client.joinedAt);
    }
  }

  lemma LiveKept(s: State, message: string)
    requires s.producer == Idle && Listens(s) && LiveOk(s)
    ensures LiveOk(Next(s, Publish(message)))
  {
    var c, line := s.client, Line(|s.history| + 1, message);
    assert Backlog(Next(s, Publish(message))) == Backlog(s);
    if c.joinedAt <= |s.history| {
      OneMore(s.history, line, c.joinedAt);
    }
  }

  /** A client that does not listen is not touched. */
  lemma PublishUnheard(s: State, message: string)
    requires Inv(s) && s.producer == Idle && !Listens(s)
    ensures ClientOk(Next(s, Publish(message)))
  {
    JoinAndReadKept(s, message);
    assert s.brokerOpen;
  }

  lemma PublishKeeps(s: State, message: string)
    requires Inv(s) && s.producer == Idle
    ensures ClientOk(Next(s, Publish(message)))
  {
    if !Listens(s) {
      PublishUnheard(s, message);
      return;
    }
    var t := Next(s, Publish(message));
    JoinAndReadKept(s, message);
    assert t.client.stage == s.client.stage;
    if LiveOk(s) {
      LiveKept(s, message);
    }
    if WaitingOk(s) {
      WaitingKept(s, message);
    }
    assert Backlog(t) == Backlog(s);
  }

  lemma FlushKeeps(s: State, ok: bool)
    requires Inv(s) && (s.producer == Flushing || s.producer == FinalFlush)
    ensures ClientOk(Next(s, Flush(ok)))
  {
  }

  lemma JoinKeeps(s: State)
    requires Inv(s) && s.client.stage == Joining
    ensures ClientOk(Next(s, Subscribe))
  {
  }

  lemma LateKeeps(s: State, ok: bool)
    requires Inv(s) && s.client.stage == Late
    ensures ClientOk(Next(s, ReadLate(ok)))
  {
    assert s.history[..|s.history|] == s.history;
  }

  lemma ReadKeeps(s: State, ok: bool)
    requires Inv(s) && s.client.stage == Subscribed
    ensures ClientOk(Next(s, ReadDb(ok)))
  {
  }

  lemma SendKeeps(s: State)
    requires Inv(s) && s.client.stage == HasHistory
    ensures ClientOk(Next(s, SendReplay))
  {
  }

  lemma RecheckKeeps(s: State, ok: bool)
    requires Inv(s) && s.client.stage == CaughtUp
    ensures ClientOk(Next(s, Recheck(ok)))
  {
    assert s.client.received[|Backlog(s)|..] == [];
  }

  lemma ReceiveLive(s: State)
    requires LiveOk(s) && Enabled(s, Receive)
    ensures LiveOk(Next(s, Receive))
  {
    var c, t := s.client, Next(s, Receive);
    var backlog := Backlog(s);
    assert Backlog(t) == backlog;
    assert t.client.received[|backlog|..] == c.received[|backlog|..] + [c.pending[0]];
    assert c.pending == [c.pending[0]] + c.pending[1..];
  }

  lemma ReceiveKeeps(s: State)
    requires Inv(s) && Enabled(s, Receive)
    ensures ClientOk(Next(s, Receive))
  {
    ReceiveLive(s);
  }

  /** The publisher's steps that tell the client nothing but that it is over. */
  lemma QuietKeeps(s: State, step: Step)
    requires Inv(s) && Enabled(s, step)
    requires step == Append || step == EndOfLog || step == CloseBroker || step.Finish?
    ensures ClientOk(Next(s, step))
  {
  }

  lemma ClientKeeps(s: State, step: Step)
    requires Inv(s) && Enabled(s, step)
    ensures ClientOk(Next(s, step))
  {
    match step
    case Publish(message) => PublishKeeps(s, message);
    case Flush(ok) => FlushKeeps(s, ok);
    case Append => QuietKeeps(s, step);
    case EndOfLog => QuietKeeps(s, step);
    case CloseBroker => QuietKeeps(s, step);
    case Finish(_) => QuietKeeps(s, step);
    case CheckStatus =>
    case ReadLate(ok) => LateKeeps(s, ok);
    case Subscribe => JoinKeeps(s);
    case ReadDb(ok) => ReadKeeps(s, ok);
    case SendReplay => SendKeeps(s);
    case Recheck(ok) => RecheckKeeps(s, ok);
    case Receive => ReceiveKeeps(s);
    case SeeClosed =>
  }

  lemma ChannelKeeps(s: State, step: Step)
    requires ProducerOk(s) && ChannelOk(s) && Enabled(s, step)
    ensures ChannelOk(Next(s, step))
  {
  }

  lemma StepKeeps(s: State, step: Step)
    requires Inv(s) && Enabled(s, step)
    ensures Inv(Next(s, step))
  {
    ProducerKeeps(s, step);
    ClientKeeps(s, step);
    ChannelKeeps(s, step);
  }

  lemma {:induction false} RunKeeps(s: State, steps: seq<Step>)
    requires Inv(s) && Legal(s, steps)
    ensures Inv(After(s, steps))
    decreases |steps|
  {
    if steps != [] {
      StepKeeps(s, steps[0]);
      RunKeeps(Next(s, steps[0]), steps[1..]);
    }
  }

  // ---------------------------------------------------------------- results

  lemma {:induction false} MaxSeqNumbered(s: seq<Line>, first: nat)
    requires Numbered(s, first) && first > 0
    ensures MaxSeq(s) == if s == [] then 0 else first + |s| - 1
  {
    if s != [] {
      MaxSeqNumbered(s[..|s| - 1], first);
    }
  }

  /** Of consecutive lines, the newer ones are a suffix. */
  lemma {:induction false} NewerThanNumbered(s: seq<Line>, first: nat, n: nat)
    requires Numbered(s, first)
    ensures NewerThan(s, n) == if n < first then s else if n - first + 1 >= |s| then [] else s[n - first + 1..]
  {
    if s != [] {
      assert forall i :: 0 <= i < |s[1..]| ==> s[1..][i] == s[i + 1];
      NewerThanNumbered(s[1..], first + 1, n);
    }
  }

  /** The backlog of a client that joined after `joined` lines and read `read` persisted ones, when
      the replay buffer reaches back to them: the first `max` of both, in order, without a gap or a
      repeat -- exactly as long as the database answer is not cut off, or the replay buffer covers the
      cut. */
  lemma BacklogExact(history: seq<Line>, joined: nat, read: nat, replay: seq<Line>)
    requires Numbered(history, 1) && joined <= |history| && read <= |history|
    requires replay == Last(history[..joined], REPLAY_SIZE) && joined <= read + REPLAY_SIZE
    ensures var existing := First(history[..read], MAX_LOG_LINES);
            existing + NewerThan(replay, MaxSeq(existing)) == history[..if read > joined then read else joined] <==>
            read <= MAX_LOG_LINES || (read <= joined && joined <= MAX_LOG_LINES + REPLAY_SIZE)
  {
    var existing := First(history[..read], MAX_LOG_LINES);
    var e := if read <= MAX_LOG_LINES then read else MAX_LOG_LINES;
    assert existing == history[..e];
    var start := ReplaySuffix(history, joined, e, replay);
    Pieces(history, e, start, joined, if read > joined then read else joined);
  }

  /** A prefix and a slice together are a longer prefix: by their lengths, when there is no gap. */
  lemma Pieces(history: seq<Line>, e: nat, start: nat, joined: nat, most: nat)
    requires e <= |history| && start <= joined <= |history| && most <= |history| && joined <= most
    requires start == e || (start == joined && joined <= e) || (start > e && e + joined - start < joined)
    ensures history[..e] + history[start..joined] == history[..most] <==>
            (start == e && joined == most) || (start == joined && joined <= e && e == most)
  {
    var whole := history[..e] + history[start..joined];
    assert |whole| == e + joined - start;
    if start == e {
      assert whole == history[..joined];
    } else if start == joined && joined <= e {
      assert whole == history[..e];
    }
  }

  /** Which part of the replay buffer is newer than `e` lines. */
  lemma ReplaySuffix(history: seq<Line>, joined: nat, e: nat, replay: seq<Line>) returns (start: nat)
    requires Numbered(history, 1) && joined <= |history| && e <= |history|
    requires replay == Last(history[..joined], REPLAY_SIZE)
    ensures start <= joined && NewerThan(replay, MaxSeq(history[..e])) == history[start..joined]
    ensures start == if e + REPLAY_SIZE < joined then joined - REPLAY_SIZE else if e > joined then joined else e
  {
    MaxSeqNumbered(history[..e], 1);
    var from := if joined <= REPLAY_SIZE then 0 else joined - REPLAY_SIZE;
    start := if e < from then from else if e > joined then joined else e;
    NewerInSlice(history, from, joined, e, start);
  }

  lemma NewerInSlice(history: seq<Line>, from: nat, to: nat, e: nat, start: nat)
    requires Numbered(history, 1) && from <= to <= |history|
    requires start == if e < from then from else if e > to then to else e
    ensures NewerThan(history[from..to], e) == history[start..to]
  {
    var s := history[from..to];
    assert forall i :: 0 <= i < |s| ==> s[i] == history[from + i];
    NewerThanNumbered(s, from + 1, e);
    if from < start < to {
      assert s[start - from..] == history[start..to];
    }
  }

  lemma InitialInv()
    ensures Inv(INITIAL)
  {
  }

  function Max(a: nat, b: nat): nat { if a < b then b else a }

  // ---------------------------------------------------------------- what can happen

  /** A client may come at any moment, and goes on or gets what is stored by what it then finds; a read that
      fails gives nothing. */
  lemma ClientsCome(s: State, ok: bool)
    ensures s.client.stage == Away ==>
              Enabled(s, CheckStatus) && Next(s, CheckStatus).client.stage == if s.running then Joining else Late
    ensures s.client.stage == Late ==>
              Enabled(s, ReadLate(ok)) && Next(s, ReadLate(ok)).client.stage == Served &&
              (!ok ==> Next(s, ReadLate(ok)).client.received == [])
    ensures s.client.stage == Joining ==> Enabled(s, Subscribe)
    ensures s.client.stage == Subscribed ==> Enabled(s, ReadDb(ok)) && (!ok ==> Next(s, ReadDb(ok)).client.received == [])
    ensures s.client.stage == CaughtUp ==>
              Enabled(s, Recheck(ok)) && (Next(s, Recheck(ok)).client.stage == Draining <==> ok && !s.running)
  {
  }

  /** A publisher that is idle may publish any line or be at the end, and its calls may fail. */
  lemma PublisherGoesOn(s: State, message: string, ok: bool)
    ensures s.producer == Idle ==> Enabled(s, Publish(message)) && Enabled(s, EndOfLog)
    ensures s.producer == Appending ==> Enabled(s, Append)
    ensures s.producer == Flushing || s.producer == FinalFlush ==> Enabled(s, Flush(ok))
    ensures s.producer == Closing ==> Enabled(s, CloseBroker) && !Next(s, CloseBroker).brokerOpen
    ensures s.producer == Finishing ==> Enabled(s, Finish(ok)) && Next(s, Finish(ok)).running == (s.running && !ok)
  {
  }

  // ---------------------------------------------------------------- runs

  /** The state after the first `n` steps. */
  ghost function At(steps: seq<Step>, n: nat): State
    requires n <= |steps| && Legal(INITIAL, steps[..n])
  {
    After(INITIAL, steps[..n])
  }

  lemma {:induction false} SplitRun(s: State, steps: seq<Step>, n: nat)
    requires Legal(s, steps) && n <= |steps|
    ensures Legal(s, steps[..n]) && Legal(After(s, steps[..n]), steps[n..])
    ensures After(s, steps) == After(After(s, steps[..n]), steps[n..])
    decreases n
  {
    if n > 0 {
      SplitRun(Next(s, steps[0]), steps[1..], n - 1);
      assert steps[..n][1..] == steps[1..][..n - 1] && steps[1..][n - 1..] == steps[n..];
    } else {
      assert steps[0..] == steps;
    }
  }

  /** Step `n` of a run happens in the state before it, and the rest goes on from the state after it. */
  lemma StepOf(steps: seq<Step>, n: nat)
    requires Legal(INITIAL, steps) && n < |steps|
    ensures Legal(INITIAL, steps[..n]) && Enabled(At(steps, n), steps[n])
    ensures Legal(Next(At(steps, n), steps[n]), steps[n + 1..])
    ensures After(INITIAL, steps) == After(Next(At(steps, n), steps[n]), steps[n + 1..])
    ensures Inv(At(steps, n))
  {
    SplitRun(INITIAL, steps, n);
    assert steps[n..][0] == steps[n] && steps[n..][1..] == steps[n + 1..];
    InitialInv();
    RunKeeps(INITIAL, steps[..n]);
  }

  /** Every batch reaches the database. */
  ghost predicate AllFlushed(steps: seq<Step>) {
    forall i :: 0 <= i < |steps| && steps[i].Flush? ==> steps[i].ok
  }

  lemma {:induction false} NothingLost(s: State, steps: seq<Step>)
    requires Legal(s, steps) && AllFlushed(steps)
    ensures After(s, steps).lost == s.lost
    decreases |steps|
  {
    if steps != [] {
      assert steps[0].Flush? ==> steps[0].ok;
      assert forall i :: 0 <= i < |steps[1..]| ==> steps[1..][i] == steps[i + 1];
      NothingLost(Next(s, steps[0]), steps[1..]);
    }
  }

  /** No line is published while the client's channel is full. */
  ghost predicate Roomy(s: State, steps: seq<Step>)
    requires Legal(s, steps)
    decreases |steps|
  {
    steps == [] ||
    (!(steps[0].Publish? && Listens(s) && |s.client.pending| >= CHANNEL_BUFFER) && Roomy(Next(s, steps[0]), steps[1..]))
  }

  lemma {:induction false} NothingDropped(s: State, steps: seq<Step>)
    requires Legal(s, steps) && Roomy(s, steps) && !s.client.dropped
    ensures !After(s, steps).client.dropped
    decreases |steps|
  {
    if steps != [] {
      NothingDropped(Next(s, steps[0]), steps[1..]);
    }
  }

  lemma OfferBounded(c: Client, line: Line)
    requires |c.pending| <= 256
    ensures |Offer(c, line).pending| <= 256
  {
  }

  lemma ChannelStep(s: State, step: Step)
    requires Enabled(s, step) && |s.client.pending| <= 256
    ensures |Next(s, step).client.pending| <= 256
  {
    match step
    case Publish(message) => OfferBounded(s.client, Line(|s.history| + 1, message));
    case Receive =>
    case Append => assert Next(s, step).client == s.client;
    case Flush(_) => assert Next(s, step).client == s.client;
    case EndOfLog => assert Next(s, step).client == s.client;
    case CloseBroker =>
    case Finish(_) => assert Next(s, step).client == s.client;
    case CheckStatus =>
    case ReadLate(_) =>
    case Subscribe => assert Next(s, step).client.pending == [];
    case ReadDb(_) =>
    case SendReplay =>
    case Recheck(_) =>
    case SeeClosed =>
  }

  /** A channel holds at most 256 lines; a publisher never waits for a client. */
  lemma {:induction false} ChannelBounded(s: State, steps: seq<Step>)
    requires Legal(s, steps) && |s.client.pending| <= 256
    ensures |After(s, steps).client.pending| <= 256
    decreases |steps|
  {
    if steps != [] {
      ChannelStep(s, steps[0]);
      ChannelBounded(Next(s, steps[0]), steps[1..]);
    }
  }

  predicate HasJoined(c: Client) { HasChannel(c) || c.stage == Closed }

  predicate HasRead(c: Client) { HasBacklog(c) || c.stage == HasHistory }

  lemma JoinedStep(s: State, step: Step)
    requires Enabled(s, step) && HasJoined(s.client)
    ensures var c := Next(s, step).client; HasJoined(c) && c.joinedAt == s.client.joinedAt && c.joinedOpen == s.client.joinedOpen
    ensures var c := Next(s, step).client; HasRead(s.client) ==> HasRead(c) && c.readAt == s.client.readAt && c.readFailed == s.client.readFailed
  {
  }

  lemma {:induction false} JoinedStays(s: State, steps: seq<Step>)
    requires Legal(s, steps) && HasJoined(s.client)
    ensures var c := After(s, steps).client; HasJoined(c) && c.joinedAt == s.client.joinedAt && c.joinedOpen == s.client.joinedOpen
    ensures var c := After(s, steps).client; HasRead(s.client) ==> HasRead(c) && c.readAt == s.client.readAt && c.readFailed == s.client.readFailed
    decreases |steps|
  {
    if steps != [] {
      JoinedStep(s, steps[0]);
      JoinedStays(Next(s, steps[0]), steps[1..]);
    }
  }

  lemma {:induction false} ServedStays(s: State, steps: seq<Step>)
    requires Legal(s, steps) && s.client.stage == Served
    ensures After(s, steps).client == s.client
    decreases |steps|
  {
    if steps != [] {
      ServedStays(Next(s, steps[0]), steps[1..]);
    }
  }

  /** What the ghost fields of a client say: the state in which it subscribed and in which it read. */
  lemma JoinedWhen(steps: seq<Step>, n: nat, m: nat)
    requires Legal(INITIAL, steps) && n < m < |steps| && steps[n] == Subscribe && steps[m] == ReadDb(true) && AllFlushed(steps)
    ensures Legal(INITIAL, steps[..n]) && Legal(INITIAL, steps[..m])
    ensures var s := After(INITIAL, steps);
            && s.client.joinedAt == |At(steps, n).history| && s.client.joinedOpen == At(steps, n).brokerOpen
            && s.client.readAt == |At(steps, m).db| && !s.client.readFailed && !s.lost
  {
    StepOf(steps, n);
    JoinedStays(Next(At(steps, n), steps[n]), steps[n + 1..]);
    StepOf(steps, m);
    JoinedStays(Next(At(steps, m), steps[m]), steps[m + 1..]);
    NothingLost(INITIAL, steps);
    NothingLost(INITIAL, steps[..m]);
  }

  /** What was published, in its order. */
  function Messages(steps: seq<Step>): seq<string> {
    if steps == [] then [] else (if steps[0].Publish? then [steps[0].message] else []) + Messages(steps[1..])
  }

  function Lines(first: nat, messages: seq<string>): seq<Line> {
    seq(|messages|, i requires 0 <= i < |messages| => Line(first + i, messages[i]))
  }

  lemma LinesGrow(first: nat, message: string, rest: seq<string>)
    ensures Lines(first, [message] + rest) == [Line(first, message)] + Lines(first + 1, rest)
  {
  }

  lemma HistoryStep(s: State, step: Step)
    requires Enabled(s, step)
    ensures Next(s, step).history == s.history + (if step.Publish? then [Line(|s.history| + 1, step.message)] else [])
  {
  }

  lemma Joined(a: seq<Line>, line: Line, b: seq<Line>)
    ensures a + [line] + b == a + ([line] + b)
  {
  }

  lemma {:induction false} HistoryGrows(s: State, steps: seq<Step>)
    requires Legal(s, steps)
    ensures After(s, steps).history == s.history + Lines(|s.history| + 1, Messages(steps))
    decreases |steps|
  {
    if steps != [] {
      var t := Next(s, steps[0]);
      HistoryGrows(t, steps[1..]);
      HistoryStep(s, steps[0]);
      if steps[0].Publish? {
        LinesGrow(|s.history| + 1, steps[0].message, Messages(steps[1..]));
        Joined(s.history, Line(|s.history| + 1, steps[0].message), Lines(|t.history| + 1, Messages(steps[1..])));
      } else {
        assert Messages(steps) == Messages(steps[1..]);
      }
    }
  }

  /** The history holds the published messages in their order, numbered from 1; and when the execution is over
      and every batch reached the database, so does the database. */
  lemma HistoryIs(steps: seq<Step>)
    requires Legal(INITIAL, steps)
    ensures After(INITIAL, steps).history == Lines(1, Messages(steps))
    ensures After(INITIAL, steps).producer == Done && AllFlushed(steps) ==> After(INITIAL, steps).db == After(INITIAL, steps).history
  {
    HistoryGrows(INITIAL, steps);
    assert [] + Lines(1, Messages(steps)) == Lines(1, Messages(steps));
    InitialInv();
    RunKeeps(INITIAL, steps);
    if AllFlushed(steps) && After(INITIAL, steps).producer == Done {
      NothingLost(INITIAL, steps);
      AllStored(After(INITIAL, steps));
    }
  }

  lemma AllStored(s: State)
    requires ProducerOk(s) && s.producer == Done && !s.lost
    ensures s.db == s.history
  {
    assert s.history[..|s.history|] == s.history;
  }

  // ---------------------------------------------------------------- what the client gets

  lemma BacklogOf(s: State)
    requires Inv(s) && HasBacklog(s.client) && !s.lost && !s.client.readFailed && s.client.readAt <= MAX_LOG_LINES
    ensures var c := s.client;
            && Max(c.readAt, c.joinedAt) <= |s.history|
            && Backlog(s) == s.history[..Max(c.readAt, c.joinedAt)]
            && Backlog(s) <= c.received
  {
    var c := s.client;
    if c.replay == Last(s.history[..c.joinedAt], REPLAY_SIZE) {
      BacklogExact(s.history, c.joinedAt, c.readAt, c.replay);
    } else {
      assert NewerThan([], MaxSeq(c.existing)) == [];
    }
  }

  /** A client that subscribes with step `n` and reads the database with step `m`, when every batch reaches
      the database: for every interleaving it gets first the lines up to the later of the two, in order,
      no gap, no repeat.  What makes it true is that a batch fits the replay buffer. */
  lemma BacklogComplete(steps: seq<Step>, n: nat, m: nat)
    requires Legal(INITIAL, steps) && n < m < |steps| && steps[n] == Subscribe && steps[m] == ReadDb(true) && AllFlushed(steps)
    requires HasBacklog(After(INITIAL, steps).client)
    ensures Legal(INITIAL, steps[..n]) && Legal(INITIAL, steps[..m])
    ensures var s, joined, read := After(INITIAL, steps), |At(steps, n).history|, |At(steps, m).db|;
            read <= 5000 ==>
              Max(read, joined) <= |s.history| && s.history[..Max(read, joined)] <= s.client.received
  {
    JoinedWhen(steps, n, m);
    InitialInv();
    RunKeeps(INITIAL, steps);
    if |At(steps, m).db| <= MAX_LOG_LINES {
      BacklogOf(After(INITIAL, steps));
    }
  }

  /** If the channel always has room, then with the live channel no published line is missing; the lines
      saved between subscribing and reading come twice, and no others. */
  lemma NothingMissed(steps: seq<Step>, n: nat, m: nat)
    requires Legal(INITIAL, steps) && n < m < |steps| && steps[n] == Subscribe && steps[m] == ReadDb(true) && AllFlushed(steps)
    requires HasBacklog(After(INITIAL, steps).client) && Roomy(INITIAL, steps)
    ensures Legal(INITIAL, steps[..n]) && Legal(INITIAL, steps[..m])
    ensures var s, joined, read := After(INITIAL, steps), |At(steps, n).history|, |At(steps, m).db|;
            read <= 5000 ==>
              && Max(read, joined) <= |s.history|
              && s.client.received + s.client.pending == s.history[..Max(read, joined)] + s.history[joined..]
              && (s.client.received + s.client.pending == s.history <==> read <= joined)
  {
    JoinedWhen(steps, n, m);
    NothingDropped(INITIAL, steps);
    InitialInv();
    RunKeeps(INITIAL, steps);
    var s := After(INITIAL, steps);
    var c := s.client;
    if c.readAt <= MAX_LOG_LINES {
      BacklogOf(s);
      if c.stage == CaughtUp {
        assert c.received[|Backlog(s)|..] == [];
      }
      Together(s.history, Backlog(s), c.received, c.pending, c.joinedAt, c.readAt);
    }
  }

  lemma Together(history: seq<Line>, backlog: seq<Line>, received: seq<Line>, pending: seq<Line>, joined: nat, read: nat)
    requires Max(read, joined) <= |history| && backlog == history[..Max(read, joined)] && backlog <= received
    requires received[|backlog|..] + pending == history[joined..]
    ensures received + pending == history[..Max(read, joined)] + history[joined..]
    ensures received + pending == history <==> read <= joined
  {
  }

  lemma ServedState(s: State)
    requires Inv(s) && s.client.stage == Served && !s.lost && !s.client.readFailed
    ensures s.client.received == First(s.history, MAX_LOG_LINES) && forall step :: !Enabled(s, step)
  {
  }

  lemma LiveState(s: State)
    requires Inv(s) && s.client.stage == Live && s.producer == Done && s.client.pending == []
    ensures Enabled(s, SeeClosed) <==> s.client.joinedOpen
    ensures !s.client.joinedOpen ==> forall step :: !Enabled(s, step)
  {
  }

  /** A client that finds the execution over with step `m` gets all its lines, up to the limit, when every
      batch has reached the database; nothing more happens to either. */
  lemma LateClientServed(steps: seq<Step>, m: nat)
    requires Legal(INITIAL, steps) && m < |steps| && steps[m] == ReadLate(true) && AllFlushed(steps)
    ensures var s := After(INITIAL, steps);
            s.client.received == First(s.history, 5000) && forall step :: !Enabled(s, step)
  {
    StepOf(steps, m);
    ServedStays(Next(At(steps, m), steps[m]), steps[m + 1..]);
    NothingLost(INITIAL, steps);
    InitialInv();
    RunKeeps(INITIAL, steps);
    ServedState(After(INITIAL, steps));
  }

  /** Once the execution is over, a live client that subscribed with step `n` sees its channel closed exactly
      when the broker had not closed the execution by then; otherwise nothing can happen to it any more. */
  lemma LiveClientEnds(steps: seq<Step>, n: nat)
    requires Legal(INITIAL, steps) && n < |steps| && steps[n] == Subscribe
    requires var s := After(INITIAL, steps); s.client.stage == Live && s.producer == Done && s.client.pending == []
    ensures Legal(INITIAL, steps[..n])
    ensures var s := After(INITIAL, steps); Enabled(s, SeeClosed) <==> At(steps, n).brokerOpen
    ensures var s := After(INITIAL, steps); !At(steps, n).brokerOpen ==> forall step :: !Enabled(s, step)
  {
    StepOf(steps, n);
    JoinedStays(Next(At(steps, n), steps[n]), steps[n + 1..]);
    InitialInv();
    RunKeeps(INITIAL, steps);
    LiveState(After(INITIAL, steps));
  }

  predicate IsClientStep(step: Step) {
    step.ReadDb? || step.SendReplay? || step.Recheck? || step.Receive? || step.SeeClosed?
  }

  function StepsLeft(c: Client): nat {
    match c.stage
    case Subscribed => 4 + |c.pending|
    case HasHistory => 3 + |c.pending|
    case CaughtUp => 2 + |c.pending|
    case Live => 1 + |c.pending|
    case Draining => 1 + |c.pending|
    case _ => 0
  }

  /** What the client does next. */
  function NextOwn(c: Client): Step {
    match c.stage
    case Subscribed => ReadDb(true)
    case HasHistory => SendReplay
    case CaughtUp => Recheck(true)
    case _ => if c.pending != [] then Receive else SeeClosed
  }

  lemma OwnEnabled(s: State)
    requires ChannelOk(s) && ProducerOk(s) && s.producer == Done && HasChannel(s.client) && s.client.joinedOpen
    ensures Enabled(s, NextOwn(s.client)) && IsClientStep(NextOwn(s.client))
  {
  }

  /** It comes one step nearer to the end. */
  ghost predicate Nearer(s: State, t: State) {
    && t.producer == s.producer && t.client.joinedOpen == s.client.joinedOpen
    && StepsLeft(t.client) == StepsLeft(s.client) - 1
    && (HasChannel(t.client) || (t.client.stage == Closed && t.client.pending == []))
  }

  lemma EarlyStep(s: State, step: Step)
    requires HasChannel(s.client) && Enabled(s, step) && (step == ReadDb(true) || step == SendReplay || step == Recheck(true))
    ensures Nearer(s, Next(s, step))
  {
  }

  lemma LiveStep(s: State, step: Step)
    requires HasChannel(s.client) && Enabled(s, step) && (step == Receive || step == SeeClosed)
    ensures Nearer(s, Next(s, step))
  {
  }

  lemma OwnStep(s: State) returns (t: State)
    requires Inv(s) && s.producer == Done && HasChannel(s.client) && s.client.joinedOpen
    ensures Enabled(s, NextOwn(s.client)) && IsClientStep(NextOwn(s.client)) && t == Next(s, NextOwn(s.client))
    ensures Inv(t) && Nearer(s, t)
  {
    OwnEnabled(s);
    var step := NextOwn(s.client);
    if step == Receive || step == SeeClosed {
      LiveStep(s, step);
    } else {
      EarlyStep(s, step);
    }
    StepKeeps(s, step);
    t := Next(s, step);
  }

  /** Once the execution is over, a client that subscribed in time gets to the end by itself: it reads, takes
      what waits in its channel, and sees that this is closed. */
  lemma {:induction false} ClientFinishes(s: State) returns (steps: seq<Step>)
    requires Inv(s) && s.producer == Done && HasChannel(s.client) && s.client.joinedOpen
    ensures Legal(s, steps) && After(s, steps).client.stage == Closed && After(s, steps).client.pending == []
    ensures |steps| == StepsLeft(s.client) && forall i :: 0 <= i < |steps| ==> IsClientStep(steps[i])
    decreases StepsLeft(s.client)
  {
    var step := NextOwn(s.client);
    var t := OwnStep(s);
    var rest := [];
    if t.client.stage != Closed {
      rest := ClientFinishes(t);
    } else {
      assert After(t, []) == t;
    }
    steps := [step] + rest;
    assert steps[1..] == rest;
  }

  /** It happens: a client subscribes after the broker closed and looks at the status before the
      execution is marked finished. */
  lemma LiveForever()
    ensures exists steps :: Legal(INITIAL, steps) && StuckLive(After(INITIAL, steps))
  {
    ReachStart();
    var s := Then(INITIAL, CheckStatus);
    s := Then(s, EndOfLog);
    s := Then(s, Flush(true));
    s := Then(s, CloseBroker);
    s := Then(s, Subscribe);
    s := Then(s, ReadDb(true));
    s := Then(s, SendReplay);
    s := Then(s, Recheck(true));
    s := Then(s, Finish(true));
    var steps :| Legal(INITIAL, steps) && After(INITIAL, steps) == s;
    ReachableInv(s);
    LiveState(s);
  }

  ghost predicate StuckLive(s: State) {
    s.client.stage == Live && s.producer == Done && forall step :: !Enabled(s, step)
  }

  ghost predicate Reachable(s: State) {
    exists steps :: Legal(INITIAL, steps) && After(INITIAL, steps) == s
  }

  lemma ReachStart()
    ensures Reachable(INITIAL)
  {
    assert Legal(INITIAL, []) && After(INITIAL, []) == INITIAL;
  }

  lemma ReachNext(s: State, step: Step)
    requires Reachable(s) && Enabled(s, step)
    ensures Reachable(Next(s, step))
  {
    var steps :| Legal(INITIAL, steps) && After(INITIAL, steps) == s;
    var more := Extend(steps, step);
  }

  lemma Then(s: State, step: Step) returns (t: State)
    requires Reachable(s) && Enabled(s, step)
    ensures Reachable(t) && t == Next(s, step)
  {
    ReachNext(s, step);
    t := Next(s, step);
  }

  lemma ReachableInv(s: State)
    requires Reachable(s)
    ensures Inv(s)
  {
    var steps :| Legal(INITIAL, steps) && After(INITIAL, steps) == s;
    InitialInv();
    RunKeeps(INITIAL, steps);
  }

  lemma Extend(steps: seq<Step>, step: Step) returns (more: seq<Step>)
    requires Legal(INITIAL, steps) && Enabled(After(INITIAL, steps), step)
    ensures Legal(INITIAL, more) && After(INITIAL, more) == Next(After(INITIAL, steps), step)
  {
    LegalAppend(INITIAL, steps, step);
    more := steps + [step];
  }

  lemma {:induction false} LegalAppend(s: State, steps: seq<Step>, step: Step)
    requires Legal(s, steps) && Enabled(After(s, steps), step)
    ensures Legal(s, steps + [step])
    ensures After(s, steps + [step]) == Next(After(s, steps), step)
    decreases |steps|
  {
    if steps == [] {
      assert steps + [step] == [step] && [step][1..] == [];
      assert After(Next(s, step), []) == Next(s, step);
    } else {
      LegalAppend(Next(s, steps[0]), steps[1..], step);
      assert (steps + [step])[1..] == steps[1..] + [step];
    }
  }
}

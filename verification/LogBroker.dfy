/** The log code as it is written: the replay ring, the broker, the drain loop and the replay filter. */
module LogBroker {
  import opened LogStream

  const MAX_SUBSCRIBERS: nat := 50

  /** A ring buffer of the most recent lines. */
  class ReplayRing {
    const buf: array<Line>
    var pos: nat
    var count: nat
    ghost var published: seq<Line>

    ghost predicate Valid()
      reads this, buf
    {
      && buf.Length == REPLAY_SIZE
      && pos == |published| % REPLAY_SIZE
      && count == (if |published| < REPLAY_SIZE then |published| else REPLAY_SIZE)
      && forall k :: |published| - count <= k < |published| ==> buf[k % REPLAY_SIZE] == published[k]
    }

    constructor ()
      ensures Valid() && published == [] && fresh(buf)
    {
      buf := new Line[REPLAY_SIZE](_ => Line(0, ""));
      pos, count, published := 0, 0, [];
    }

    method Push(line: Line)
      requires Valid()
      modifies this, buf
      ensures Valid() && published == old(published) + [line]
    {
      ghost var n := |published|;
      NextSlot(n);
      buf[pos] := line;
      pos := (pos + 1) % REPLAY_SIZE;
      if count < REPLAY_SIZE {
        count := count + 1;
      }
      published := published + [line];
      forall k | n + 1 - count <= k <= n
        ensures buf[k % REPLAY_SIZE] == published[k]
      {
        if k < n {
          OtherSlot(k, n);
        }
      }
    }

    lemma NextSlot(n: nat)
      ensures n % REPLAY_SIZE < REPLAY_SIZE && (n % REPLAY_SIZE + 1) % REPLAY_SIZE == (n + 1) % REPLAY_SIZE
    {
    }

    lemma OtherSlot(k: int, n: int)
      requires n - REPLAY_SIZE < k < n
      ensures k % REPLAY_SIZE != n % REPLAY_SIZE
    {
    }

    lemma OldestSlot(n: int, count: int)
      ensures (n % REPLAY_SIZE - count + REPLAY_SIZE) % REPLAY_SIZE == (n - count) % REPLAY_SIZE
    {
    }

    lemma SlotAfter(oldest: int, i: int)
      ensures (oldest % REPLAY_SIZE + i) % REPLAY_SIZE == (oldest + i) % REPLAY_SIZE
    {
    }

    /** As new. */
    method Clear()
      requires Valid()
      modifies this
      ensures Valid() && published == []
    {
      pos, count, published := 0, 0, [];
    }

    /** The lines kept, oldest first. */
    method Snapshot() returns (out: seq<Line>)
      requires Valid()
      ensures out == Last(published, 256)
    {
      out := [];
      var start := (pos - count + REPLAY_SIZE) % REPLAY_SIZE;
      ghost var oldest := |published| - count;
      OldestSlot(|published|, count);
      for i := 0 to count
        invariant out == published[oldest..oldest + i]
      {
        SlotAfter(oldest, i);
        out := out + [buf[(start + i) % REPLAY_SIZE]];
      }
    }
  }

  /** The replay buffer and the subscribers' channels of one execution; `hasRing` tells whether there
      is a replay buffer yet. */
  class Broker {
    const ring: ReplayRing
    var hasRing: bool
    var channels: seq<seq<Line>>

    ghost predicate Valid()
      reads this, ring, ring.buf
    {
      ring.Valid() && |channels| <= MAX_SUBSCRIBERS && (!hasRing ==> ring.published == [])
    }

    /** What the replay buffer has seen. */
    ghost function Published(): seq<Line>
      reads ring
    {
      ring.published
    }

    constructor ()
      ensures Valid() && Published() == [] && channels == [] && fresh(ring) && fresh(ring.buf)
    {
      ring := new ReplayRing();
      hasRing, channels := false, [];
    }

    /** A new channel and the replay lines, unless there are too many subscribers. */
    method Subscribe() returns (ok: bool, replay: seq<Line>)
      requires Valid()
      modifies this
      ensures Valid() && hasRing == old(hasRing)
      ensures ok == (|old(channels)| < 50)
      ensures channels == if ok then old(channels) + [[]] else old(channels)
      ensures ok ==> replay == Last(Published(), 256)
    {
      replay := [];
      if |channels| >= MAX_SUBSCRIBERS {
        return false, [];
      }
      channels := channels + [[]];
      if hasRing {
        replay := ring.Snapshot();
      }
      return true, replay;
    }

    /** Each channel gets the line unless it is full. */
    method Publish(line: Line)
      requires Valid()
      modifies this, ring, ring.buf
      ensures Valid() && Published() == old(Published()) + [line]
      ensures |channels| == |old(channels)|
      ensures forall i :: 0 <= i < |channels| ==>
                channels[i] == if |old(channels)[i]| < 256 then old(channels)[i] + [line] else old(channels)[i]
    {
      hasRing := true;
      ring.Push(line);
      for i := 0 to |channels|
        invariant Valid() && Published() == old(Published()) + [line]
        invariant |channels| == |old(channels)|
        invariant forall j :: i <= j < |channels| ==> channels[j] == old(channels)[j]
        invariant forall j :: 0 <= j < i ==>
                    channels[j] == if |old(channels)[j]| < CHANNEL_BUFFER then old(channels)[j] + [line] else old(channels)[j]
      {
        if |channels[i]| < CHANNEL_BUFFER {
          channels := channels[i := channels[i] + [line]];
        }
      }
    }

    /** All channels close, with what they still hold, and the replay buffer is gone. */
    method Close() returns (left: seq<seq<Line>>)
      requires Valid()
      modifies this, ring
      ensures Valid() && !hasRing && Published() == [] && channels == [] && left == old(channels)
    {
      left := channels;
      hasRing, channels := false, [];
      ring.Clear();
    }
  }

  /** The protocol state in which this is published, this waits in the batch, and this is stored. */
  ghost predicate Drained(s: State, producer: Producer, published: seq<Line>, buf: seq<Line>, db: seq<Line>) {
    && s.producer == producer && s.client == NO_CLIENT && s.history == published && s.db == db
    && s.appended == |published| && s.persisted <= |published| && buf == published[s.persisted..]
  }

  lemma OneLine(s: State, published: seq<Line>, buf: seq<Line>, db: seq<Line>, line: Line) returns (t: State)
    requires Reachable(s) && Drained(s, Idle, published, buf, db) && line.seqNo == |published| + 1
    ensures Reachable(t) && t.lost == s.lost
    ensures Drained(t, if |buf| + 1 >= FLUSH_SIZE then Flushing else Idle, published + [line], buf + [line], db)
  {
    OneMore(published, line, s.persisted);
    ReachNext(s, LogStream.Publish(line.message));
    var u := Next(s, LogStream.Publish(line.message));
    ReachNext(u, Append);
    t := Next(u, Append);
  }

  lemma OneBatch(s: State, producer: Producer, published: seq<Line>, buf: seq<Line>, db: seq<Line>, ok: bool) returns (t: State)
    requires Reachable(s) && Drained(s, producer, published, buf, db) && (producer == Flushing || producer == FinalFlush)
    ensures Reachable(t) && t.lost == (s.lost || !ok) && t.persisted == |published|
    ensures Drained(t, if producer == FinalFlush then Closing else Idle, published, [], if ok then db + buf else db)
  {
    ReachNext(s, Flush(ok));
    t := Next(s, Flush(ok));
    assert published[s.persisted..|published|] == buf;
  }

  /** AppendPolicyLogLines; an error loses the batch. */
  method FlushBatch(db: seq<Line>, buf: seq<Line>, oks: seq<bool>) returns (stored: seq<Line>, ok: bool, rest: seq<bool>)
    ensures stored == if ok then db + buf else db
    ensures if buf != [] && oks != [] then ok == oks[0] && rest == oks[1..] else ok && rest == oks
    ensures AllTrue(oks) ==> ok && AllTrue(rest)
  {
    ok, rest := true, oks;
    if buf != [] && oks != [] {
      ok, rest := oks[0], oks[1..];
    }
    stored := if ok then db + buf else db;
  }

  /** One turn of the drain loop. */
  method DrainLine(line: Line, broker: Broker, buf: seq<Line>, db: seq<Line>, oks: seq<bool>, ghost s: State)
    returns (batch: seq<Line>, stored: seq<Line>, rest: seq<bool>, ghost t: State)
    requires broker.Valid() && line.seqNo == |broker.Published()| + 1
    requires Reachable(s) && Drained(s, Idle, broker.Published(), buf, db)
    modifies broker, broker.ring, broker.ring.buf
    ensures broker.Valid()
    ensures broker.Published() == old(broker.Published()) + [line]
    ensures Reachable(t) && Drained(t, Idle, broker.Published(), batch, stored)
    ensures AllTrue(oks) ==> t.lost == s.lost && AllTrue(rest)
  {
    t := OneLine(s, broker.Published(), buf, db, line);
    broker.Publish(line);
    batch, stored, rest := buf + [line], db, oks;
    if |batch| >= FLUSH_SIZE {
      var ok;
      stored, ok, rest := FlushBatch(db, batch, oks);
      t := OneBatch(t, Flushing, broker.Published(), batch, db, ok);
      batch := [];
    }
  }

  ghost predicate AllTrue(oks: seq<bool>) {
    forall i :: 0 <= i < |oks| ==> oks[i]
  }

  /** drainLogChannel for the lines of a log: publish each, collect batches, flush.  It is a run of
      the protocol, up to the closing of the broker. */
  method DrainLogChannel(messages: seq<string>, broker: Broker, oks: seq<bool>) returns (db: seq<Line>, ghost s: State)
    requires broker.Valid() && broker.Published() == []
    modifies broker, broker.ring, broker.ring.buf
    ensures broker.Valid()
    ensures Reachable(s) && Drained(s, Closing, broker.Published(), [], db)
    ensures broker.Published() == LinesOf(messages)
    ensures AllTrue(oks) ==> !s.lost && db == broker.Published()
    ensures !s.lost ==> db == broker.Published()
  {
    var buf: seq<Line> := [];
    var seqNo, rest := 0, oks;
    db, s := [], INITIAL;
    ReachStart();
    for i := 0 to |messages|
      invariant broker.Valid()
      invariant Reachable(s) && Drained(s, Idle, broker.Published(), buf, db)
      invariant seqNo == i && broker.Published() == LinesOf(messages[..i])
      invariant AllTrue(oks) ==> !s.lost && AllTrue(rest)
    {
      LinesGrow(messages, i);
      seqNo := seqNo + 1;
      buf, db, rest, s := DrainLine(Line(seqNo, messages[i]), broker, buf, db, rest, s);
    }
    assert messages[..|messages|] == messages;
    db, s := DrainRest(broker.Published(), buf, db, rest, s);
  }

  /** The lines of a log, numbered from 1. */
  ghost function LinesOf(messages: seq<string>): (lines: seq<Line>)
    ensures |lines| == |messages|
  {
    seq(|messages|, i requires 0 <= i < |messages| => Line(i + 1, messages[i]))
  }

  lemma LinesGrow(messages: seq<string>, i: nat)
    requires i < |messages|
    ensures LinesOf(messages[..i + 1]) == LinesOf(messages[..i]) + [Line(i + 1, messages[i])]
  {
  }

  /** The flush after the last line. */
  method DrainRest(ghost published: seq<Line>, buf: seq<Line>, db: seq<Line>, oks: seq<bool>, ghost s: State)
    returns (stored: seq<Line>, ghost t: State)
    requires Reachable(s) && Drained(s, Idle, published, buf, db)
    ensures Reachable(t) && Drained(t, Closing, published, [], stored)
    ensures AllTrue(oks) ==> t.lost == s.lost
    ensures !t.lost ==> stored == published
  {
    ReachNext(s, EndOfLog);
    var ok, rest;
    stored, ok, rest := FlushBatch(db, buf, oks);
    t := OneBatch(Next(s, EndOfLog), FinalFlush, published, buf, db, ok);
    AllStored(t);
  }

  lemma AllStored(s: State)
    requires Reachable(s)
    ensures !s.lost && s.persisted == |s.history| ==> s.db == s.history
  {
    ReachableInv(s);
    assert s.history[..|s.history|] == s.history;
  }

  /** wsSendReplayAfterDB: the replay lines that the database did not return. */
  method SendReplayAfterDb(dbLines: seq<Line>, replayLines: seq<Line>) returns (tail: seq<Line>)
    ensures tail == NewerThan(replayLines, MaxSeq(dbLines))
  {
    var maxDbSeq := 0;
    for i := 0 to |dbLines|
      invariant maxDbSeq == MaxSeq(dbLines[..i])
    {
      assert dbLines[..i + 1][..i] == dbLines[..i];
      if dbLines[i].seqNo > maxDbSeq {
        maxDbSeq := dbLines[i].seqNo;
      }
    }
    assert dbLines[..|dbLines|] == dbLines;
    tail := [];
    for i := 0 to |replayLines|
      invariant tail + NewerThan(replayLines[i..], maxDbSeq) == NewerThan(replayLines, maxDbSeq)
    {
      assert replayLines[i..][1..] == replayLines[i + 1..];
      if replayLines[i].seqNo > maxDbSeq {
        tail := tail + [replayLines[i]];
      }
    }
  }
}

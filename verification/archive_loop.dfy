/** archive.go: fetch in batches, write and fsync each batch, only then commit its offsets. */
module ArchiveLoop {
  import opened ArchiveBytes
  import opened ArchiveModel
  import opened ArchiveInvariant
  import opened ArchiveTheorems
  import opened ArchiveWorld
  import opened ArchiveWriting
  import opened ArchiveBatches
  import opened ArchivePowerLoss

  datatype FlushOutcome = Flushed | WriteFailed | FlushFailed | CommitFailed

  datatype RunOutcome = BadBatchSize | BadBatchWait | ShutDown | Failed

  /** The lines of batch whose key is this hour, in order. */
  ghost function LinesFor(batch: seq<Message>, keys: seq<nat>, hour: nat): seq<Byte>
    requires |batch| == |keys|
  {
    if batch == [] then []
    else
      var n := |batch| - 1;
      LinesFor(batch[..n], keys[..n], hour) + (if keys[n] == hour then batch[n].value + [10] else [])
  }

  lemma LinesForOneMore(batch: seq<Message>, keys: seq<nat>, m: Message, key: nat, hour: nat)
    requires |batch| == |keys|
    ensures LinesFor(batch + [m], keys + [key], hour)
            == LinesFor(batch, keys, hour) + (if key == hour then LineOf(m) else [])
  {
    assert (batch + [m])[..|batch|] == batch;
    assert (keys + [key])[..|keys|] == keys;
  }

  ghost predicate NonDecreasing(keys: seq<nat>) {
    forall i, j :: 0 <= i < j < |keys| ==> keys[i] <= keys[j]
  }

  /** The hours lines were written in between two readings of the clock, in the order they were written. */
  ghost predicate Timely(keys: seq<nat>, from: nat, to: nat) {
    NonDecreasing(keys) && forall j :: 0 <= j < |keys| ==> from / 3600 <= keys[j] <= to / 3600
  }

  /** Each line of batch has been added to the hour of its key, verbatim and in order; nothing else has changed. */
  ghost predicate Spread(a: State, b: State, batch: seq<Message>, keys: seq<nat>) {
    && |batch| == |keys|
    && forall hour: nat :: Future(b, hour) == Future(a, hour) + LinesFor(batch, keys, hour)
  }

  lemma Associates(a: seq<Byte>, b: seq<Byte>, c: seq<Byte>)
    ensures (a + b) + c == a + (b + c)
  {
  }

  lemma SpreadOneMore(a: State, b: State, c: State, batch: seq<Message>, keys: seq<nat>, m: Message, key: nat)
    requires Spread(a, b, batch, keys) && OneLineMore(b, c, m, key)
    ensures Spread(a, c, batch + [m], keys + [key])
  {
    forall hour: nat
      ensures Future(c, hour) == Future(a, hour) + LinesFor(batch + [m], keys + [key], hour)
    {
      LinesForOneMore(batch, keys, m, key, hour);
      Associates(Future(a, hour), LinesFor(batch, keys, hour), if hour == key then LineOf(m) else []);
    }
  }

  /** Where the writing loop stands: the first i lines are written, each in an hour the clock has shown since. */
  ghost predicate WrittenSoFar(start: State, now: State, batch: seq<Message>, i: nat, keys: seq<nat>) {
    && i <= |batch| && now.w.Up? && now.w.pc == Writing && now.w.written == i
    && HourOf(start.clock) <= HourOf(now.clock) && Timely(keys, start.clock, now.clock)
    && Spread(start, now, batch[..i], keys)
  }

  lemma WroteOneMore(start: State, before: State, now: State, batch: seq<Message>, i: nat, keys: seq<nat>, key: nat)
    requires WrittenSoFar(start, before, batch, i, keys) && i < |batch|
    requires now.w.Up? && now.w.pc == Writing && now.w.written == i + 1 && OneLineMore(before, now, batch[i], key)
    requires HourOf(before.clock) <= key <= HourOf(now.clock)
    ensures WrittenSoFar(start, now, batch, i + 1, keys + [key])
  {
    SpreadOneMore(start, before, now, batch[..i], keys, batch[i], key);
    assert batch[..i] + [batch[i]] == batch[..i + 1];
  }

  /** The batch's lines go to the writer one by one. */
  method WriteBatch(w: ArchiveWriter, batch: seq<Message>) returns (ok: bool, ghost keys: seq<nat>)
    requires w.Valid() && w.world.s.w.pc == Writing && w.world.s.w.batch == batch && w.world.s.w.written == 0
    modifies w, w.world
    ensures w.Valid() && old(w.world.schedule) <= w.world.schedule
    ensures SameBatch(old(w.world.s), w.world.s) && FailsByFault(old(w.world.turns), w.world.turns, ok)
    ensures w.world.s.w.pc == if ok then Writing else Exiting
    ensures ok ==> w.world.s.w.written == |batch| && Timely(keys, old(w.world.s.clock), w.world.s.clock)
    ensures ok ==> HourOf(old(w.world.s.clock)) <= HourOf(w.world.s.clock)
    ensures ok && batch != [] ==> |keys| == |batch| && keys[|keys| - 1] == w.curKey
    ensures ok ==> Spread(old(w.world.s), w.world.s, batch, keys)
  {
    var i := 0;
    ok, keys := true, [];
    assert batch[..0] == [];
    while ok && i < |batch|
      invariant w.Valid() && old(w.world.schedule) <= w.world.schedule
      invariant SameBatch(old(w.world.s), w.world.s) && FailsByFault(old(w.world.turns), w.world.turns, ok)
      invariant w.world.s.w.pc == if ok then Writing else Exiting
      invariant 0 <= i <= |batch| && (ok ==> WrittenSoFar(old(w.world.s), w.world.s, batch, i, keys))
      invariant ok && i > 0 ==> |keys| == i && keys[i - 1] == w.curKey
      decreases |batch| - i, if ok then 1 else 0
    {
      ghost var before := w.world.s;
      ok := w.Write(batch[i]);
      if ok {
        WroteOneMore(old(w.world.s), before, w.world.s, batch, i, keys, w.curKey);
        keys := keys + [w.curKey];
        i := i + 1;
      }
    }
    assert batch[..|batch|] == batch;
  }

  /** The first p partitions have been committed to the batch's end, the others not yet. */
  ghost predicate CommittedUpTo(before: Offsets, after: Offsets, batch: seq<Message>, p: nat) {
    && |after| == |before|
    && (forall q: nat :: q < |before| && q < p ==> after[q] == BatchEnd(batch, q, before[q]))
    && (forall q: nat :: p <= q < |before| ==> after[q] == before[q])
  }

  lemma CommittedSome(before: Offsets, after: Offsets, batch: seq<Message>, p: nat)
    requires CommittedUpTo(before, after, batch, p)
    ensures CommittedBetween(before, after, [], batch)
  {
    assert [] + batch == batch;
  }

  /** CommitMessages: the batch's end offset for every partition; an error leaves the first few committed, and no others. */
  method CommitMessages(w: ArchiveWriter, batch: seq<Message>) returns (ok: bool, ghost sent: nat)
    requires w.Valid() && w.world.s.w.pc == Committing && w.world.s.w.batch == batch
    modifies w, w.world
    ensures w.Valid() && old(w.world.schedule) <= w.world.schedule
    ensures FailsByFault(old(w.world.turns), w.world.turns, ok)
    ensures w.world.s.w.pc == if ok then Fetching else Exiting
    ensures ok ==> w.world.s.w.batch == [] && w.world.s.w.position == old(w.world.s.w.position)
    ensures CommittedUpTo(old(w.world.s.broker.committed), w.world.s.broker.committed, batch, sent)
    ensures ok ==> CommittedExactly(old(w.world.s.broker.committed), w.world.s.broker.committed, batch)
    ensures ok ==> w.world.s.h == old(w.world.s.h) && old(w.world.s.clock) <= w.world.s.clock
  {
    var spill: nat;
    var p: nat := 0;
    ok := true;
    w.world.Known();
    while ok && p < |w.world.s.broker.committed|
      invariant w.Valid() && old(w.world.schedule) <= w.world.schedule
      invariant w.world.s.w.pc == if ok then Committing else Exiting
      invariant w.world.s.w.batch == batch && w.world.s.h == old(w.world.s.h)
      invariant w.world.s.w.position == old(w.world.s.w.position) && old(w.world.s.clock) <= w.world.s.clock
      invariant p <= |w.world.s.broker.committed| && FailsByFault(old(w.world.turns), w.world.turns, ok)
      invariant CommittedUpTo(old(w.world.s.broker.committed), w.world.s.broker.committed, batch, p)
      decreases |w.world.s.broker.committed| - p, if ok then 1 else 0
    {
      ok, spill := w.Attempt();
      if ok {
        CommitOne(w, p);
        p := p + 1;
      }
    }
    sent := p;
    if ok {
      AllCommitted(w, batch, old(w.world.s.broker.committed));
      w.Take(BatchDone);
    }
  }

  method CommitOne(w: ArchiveWriter, p: nat)
    requires w.Valid() && w.world.s.w.pc == Committing && p < |w.world.s.broker.committed|
    modifies w, w.world`s, w.world`schedule
    ensures w.Valid() && old(w.world.schedule) <= w.world.schedule
    ensures w.world.s.w == old(w.world.s.w) && w.world.s.h == old(w.world.s.h) && w.world.s.clock == old(w.world.s.clock)
    ensures w.world.s.broker.committed
            == old(w.world.s.broker.committed)[p := BatchEnd(w.world.s.w.batch, p, old(w.world.s.broker.committed)[p])]
  {
    w.Take(Commit(p));
  }

  lemma AllCommitted(w: ArchiveWriter, batch: seq<Message>, before: Offsets)
    requires w.Valid() && w.world.s.w.pc == Committing && w.world.s.w.batch == batch
    requires CommittedExactly(before, w.world.s.broker.committed, batch)
    ensures ConsumerEnabled(w.world.s, BatchDone)
  {
    w.world.Known();
    forall m | m in batch
      ensures m.partition < |w.world.s.broker.committed| && m.offset < w.world.s.broker.committed[m.partition]
    {
      InBatchBelowEnd(batch, m, before[m.partition]);
    }
  }

  /** The lines of a batch are all in one hour's file if and only if the hour did not turn while they were written. */
  lemma AllInOneHourIff(batch: seq<Message>, keys: seq<nat>)
    requires batch != [] && |keys| == |batch| && NonDecreasing(keys)
    ensures LinesFor(batch, keys, keys[|keys| - 1]) == Lines(batch) <==> keys[0] == keys[|keys| - 1]
  {
    var key := keys[|keys| - 1];
    LinesForAtMost(batch, keys, key);
    if keys[0] == key {
      LinesForAll(batch, keys, key);
    } else {
      var k := keys[0];
      assert k in keys && k != key;
    }
  }

  lemma {:induction false} LinesForAll(batch: seq<Message>, keys: seq<nat>, key: nat)
    requires |keys| == |batch| && forall i :: 0 <= i < |keys| ==> keys[i] == key
    ensures LinesFor(batch, keys, key) == Lines(batch)
  {
    if batch != [] {
      LinesForAll(batch[..|batch|-1], keys[..|batch|-1], key);
    }
  }

  lemma {:induction false} LinesForAtMost(batch: seq<Message>, keys: seq<nat>, key: nat)
    requires |keys| == |batch|
    ensures |LinesFor(batch, keys, key)| <= |Lines(batch)|
    ensures (exists k <- keys :: k != key) ==> |LinesFor(batch, keys, key)| < |Lines(batch)|
  {
    if batch != [] {
      var n := |batch| - 1;
      LinesForAtMost(batch[..n], keys[..n], key);
      assert keys == keys[..n] + [keys[n]];
    }
  }

  /** What Flush made durable: the open hour's file, whole, and nothing else. */
  ghost predicate OnlyOpenHourDurable(s: State, curKey: nat) {
    forall hour: nat :: Bytes(Durable(s, hour)) == if hour == curKey then HourBytes(s, hour) else []
  }

  lemma FlushedIsDurable(w: ArchiveWriter)
    requires w.Valid() && w.world.s.w.pc == Committing
    ensures OnlyOpenHourDurable(w.world.s, w.curKey)
  {
    DurableIffInOpenHour(w.world.start, w.world.schedule, Message(0, 0, []));
  }

  /** Every line written, then fsynced: durable are then the lines written in the hour now open, and no others. */
  method WriteOut(w: ArchiveWriter, batch: seq<Message>) returns (r: FlushOutcome, ghost keys: seq<nat>)
    requires w.Valid() && w.world.s.w.pc == Fetching && w.world.s.w.batch == batch != []
    modifies w, w.world
    ensures w.Valid() && old(w.world.schedule) <= w.world.schedule
    ensures FailsByFault(old(w.world.turns), w.world.turns, r.Flushed?) && !r.CommitFailed?
    ensures w.world.s.w.pc == if r.Flushed? then Committing else Exiting
    ensures SameBatch(old(w.world.s), w.world.s)
    ensures r.Flushed? ==> |keys| == |batch| && Timely(keys, old(w.world.s.clock), w.world.s.clock)
    ensures r.Flushed? ==> forall hour: nat ::
              HourBytes(w.world.s, hour) == old(Future(w.world.s, hour)) + LinesFor(batch, keys, hour)
    ensures r.Flushed? ==> keys[|keys| - 1] == w.curKey && OnlyOpenHourDurable(w.world.s, w.curKey)
  {
    w.Take(Seal);
    assert SameFuture(old(w.world.s), w.world.s);
    var ok;
    ok, keys := WriteBatch(w, batch);
    if !ok { return WriteFailed, keys; }
    ok := w.Flush();
    r := if ok then Flushed else FlushFailed;
    if ok {
      FlushedIsDurable(w);
    }
  }

  /**
   Writes every message, fsyncs, then commits. Without a fault it succeeds: the lines are in
   the files, verbatim and in order, each in the hour it was written in, and exactly the
   batch's offsets are committed. If a write or the fsync fails no offset has moved; if the
   commit does, on each partition all of the batch's or none.
   */
  method FlushBatch(w: ArchiveWriter, batch: seq<Message>) returns (r: FlushOutcome, ghost keys: seq<nat>)
    requires w.Valid() && w.world.s.w.pc == Fetching && w.world.s.w.batch == batch != []
    modifies w, w.world
    ensures w.Valid() && old(w.world.schedule) <= w.world.schedule
    ensures FailsByFault(old(w.world.turns), w.world.turns, r.Flushed?)
    ensures w.world.s.w.pc == if r.Flushed? then Fetching else Exiting
    ensures r.Flushed? ==> w.world.s.w.batch == [] && w.world.s.w.position == old(w.world.s.w.position)
    ensures r.Flushed? ==> |keys| == |batch| && Timely(keys, old(w.world.s.clock), w.world.s.clock)
    ensures r.Flushed? ==> forall hour: nat ::
              HourBytes(w.world.s, hour) == old(Future(w.world.s, hour)) + LinesFor(batch, keys, hour)
    ensures r.Flushed? ==> CommittedExactly(old(w.world.s.broker.committed), w.world.s.broker.committed, batch)
    ensures r.CommitFailed? ==> CommittedBetween(old(w.world.s.broker.committed), w.world.s.broker.committed, [], batch)
    ensures r.WriteFailed? || r.FlushFailed? ==> w.world.s.broker.committed == old(w.world.s.broker.committed)
  {
    r, keys := WriteOut(w, batch);
    if !r.Flushed? { return; }
    var ok;
    ghost var sent;
    ok, sent := CommitMessages(w, batch);
    r := if ok then Flushed else CommitFailed;
    CommittedSome(old(w.world.s.broker.committed), w.world.s.broker.committed, batch, sent);
  }

  method FetchInto(w: ArchiveWriter, p: nat)
    requires w.Valid() && w.world.s.w.pc == Fetching && ConsumerEnabled(w.world.s, Fetch(p))
    modifies w, w.world`s, w.world`schedule
    ensures w.Valid() && old(w.world.schedule) <= w.world.schedule
    ensures w.world.s.w.pc == Fetching && w.world.s.broker == old(w.world.s.broker)
    ensures w.world.s.w.position == old(w.world.s.w.position)[p := old(w.world.s.w.position)[p] + 1]
    ensures w.world.s.w.batch == old(w.world.s.w.batch)
              + [MessageAt(old(w.world.s.broker), p, old(w.world.s.w.position)[p])]
  {
    w.Take(Fetch(p));
  }

  /** The deferred Close, then the end of the process. */
  method Leave(w: ArchiveWriter)
    requires w.Valid() && w.world.s.w.pc == Exiting
    modifies w, w.world
    ensures w.world.Valid() && w.world.s.w.Down? && old(w.world.schedule) <= w.world.schedule
    ensures w.world.s.broker.committed == old(w.world.s.broker.committed)
    ensures Faults(w.world.turns) <= old(Faults(w.world.turns))
  {
    if w.curFile {
      var ok := w.Close();
    }
    w.world.Do(ByConsumer(Exit));
  }

  /** Where Run began: the reader's offsets, the topics, the committed offsets. */
  datatype Outset = Outset(script: seq<Fetched>, batchSize: int, position: Offsets, log: seq<seq<seq<Byte>>>, committed: Offsets)

  ghost predicate PlayedFrom(from: Outset, events: seq<Event>, b: Broker) {
    Played(from.script, events, from.batchSize, from.position, from.log, b)
  }

  /** Between two turns of the loop. */
  ghost predicate Between(from: Outset, s: State, events: seq<Event>, flushed: seq<Message>, batch: seq<Message>) {
    && s.w.Up? && s.w.pc == Fetching && s.w.batch == batch
    && PlayedFrom(from, events, s.broker)
    && Behind(events, from.position, s.w.position)
    && InHand(events, from.batchSize, flushed, batch)
    && CommittedExactly(from.committed, s.broker.committed, flushed)
  }

  /** On a shutdown exactly the full and the timed-out batches are committed, up to the event it came at. */
  ghost predicate EndedWell(from: Outset, s: State, events: seq<Event>) {
    && PlayedFrom(from, events, s.broker)
    && |events| <= |from.script| && (|events| == |from.script| || from.script[|events|].Cancelled?)
    && CommittedExactly(from.committed, s.broker.committed, Batches(events, from.batchSize).done)
  }

  /** Nothing to fetch but an error, or the deadline of a batch that was never opened. */
  ghost predicate BadFetch(from: Outset, events: seq<Event>) {
    && |events| < |from.script|
    && (|| from.script[|events|].Broken?
        || (from.script[|events|].DeadlineExceeded? && Batches(events, from.batchSize).open == []))
  }

  /** On an error the flushed batches are committed, and of the one in hand on each partition all or none. */
  ghost predicate EndedBadly(from: Outset, s: State, events: seq<Event>, flushed: seq<Message>, hand: seq<Message>) {
    && PlayedFrom(from, events, s.broker)
    && (|| (Batches(events, from.batchSize) == Batching(flushed, hand)
            && CommittedExactly(from.committed, s.broker.committed, flushed))
        || (Batches(events, from.batchSize) == Batching(flushed + hand, [])
            && CommittedBetween(from.committed, s.broker.committed, flushed, hand)))
  }

  lemma StillPlayed(w: World, from: Outset, events: seq<Event>, early: seq<Step>)
    requires w.Valid() && early <= w.schedule
    requires Legal(w.start, early) ==> PlayedFrom(from, events, After(w.start, early).broker)
    ensures PlayedFrom(from, events, w.s.broker)
  {
    TopicGrows(w.start, early, w.schedule);
    PlayedLater(from.script, events, from.batchSize, from.position, from.log, After(w.start, early).broker, w.s.broker);
  }

  /** One flushBatch inside Run: an error ends the loop. */
  method FlushStep(w: ArchiveWriter, batch: seq<Message>, ghost from: Outset, ghost events: seq<Event>, ghost flushed: seq<Message>)
      returns (running: bool)
    requires w.Valid() && w.world.s.w.pc == Fetching && w.world.s.w.batch == batch != []
    requires PlayedFrom(from, events, w.world.s.broker) && Behind(events, from.position, w.world.s.w.position)
    requires Batches(events, from.batchSize) == Batching(flushed + batch, [])
    requires from.batchSize > 0 && CommittedExactly(from.committed, w.world.s.broker.committed, flushed)
    modifies w, w.world
    ensures w.Valid() && old(w.world.schedule) <= w.world.schedule
    ensures FailsByFault(old(w.world.turns), w.world.turns, running)
    ensures running ==> Between(from, w.world.s, events, flushed + batch, [])
    ensures !running ==> w.world.s.w.pc == Exiting && EndedBadly(from, w.world.s, events, flushed, batch)
  {
    ghost var mid, early := w.world.s.broker.committed, w.world.schedule;
    var outcome, keys := FlushBatch(w, batch);
    running := outcome.Flushed?;
    StillPlayed(w.world, from, events, early);
    if running {
      CommittedMore(from.committed, mid, w.world.s.broker.committed, flushed, batch);
    } else {
      Unmoved(mid, batch);
      CommittedPartOf(from.committed, mid, w.world.s.broker.committed, flushed, batch);
    }
  }

  lemma Unmoved(before: Offsets, batch: seq<Message>)
    ensures CommittedBetween(before, before, [], batch)
  {
  }

  /** A fetch that gives the partition's next message, or finds none. */
  method FetchStep(w: ArchiveWriter, p: nat, batch: seq<Message>, ghost from: Outset, ghost events: seq<Event>,
                   ghost flushed: seq<Message>)
      returns (batch': seq<Message>, ghost events': seq<Event>)
    requires w.Valid() && Between(from, w.world.s, events, flushed, batch) && |batch| < from.batchSize
    requires |events| < |from.script| && from.script[|events|] == Got(p)
    requires |from.log| == |w.world.s.broker.log| && forall q :: 0 <= q < |from.log| ==> |from.log[q]| <= |w.world.s.broker.log[q]|
    modifies w, w.world`s, w.world`schedule
    ensures w.Valid() && old(w.world.schedule) <= w.world.schedule
    ensures Between(from, w.world.s, events', flushed, batch') && |events'| == |events| + 1
  {
    ghost var s := w.world.s;
    if ConsumerEnabled(w.world.s, Fetch(p)) {
      FetchInto(w, p);
      batch' := w.world.s.w.batch;
      ghost var m := MessageAt(s.broker, p, s.w.position[p]);
      events' := events + [Arrived(m)];
      ArrivedOk(from.script, events, m, from.batchSize, from.position, from.log, s.broker, s.w.position);
      PlayedMore(from.script, events, Arrived(m), from.batchSize, from.position, from.log, s.broker);
      ArrivedInHand(events, from.batchSize, flushed, batch, m);
      ArrivedBehind(events, from.position, s.w.position, m);
    } else {
      batch', events' := batch, events + [Nothing];
      NothingOk(from.script, events, from.batchSize, from.position, from.log, s.broker, s.w.position);
      PlayedMore(from.script, events, Nothing, from.batchSize, from.position, from.log, s.broker);
      NothingInHand(events, from.batchSize, flushed, batch);
      NoneBehind(events, from.position, s.w.position, Nothing);
    }
  }

  /** The wait of the open batch is over: it is flushed as it is. */
  method WaitStep(w: ArchiveWriter, batch: seq<Message>, ghost from: Outset, ghost events: seq<Event>, ghost flushed: seq<Message>)
      returns (running: bool)
    requires w.Valid() && Between(from, w.world.s, events, flushed, batch) && batch != [] && |batch| < from.batchSize
    requires |events| < |from.script| && from.script[|events|].DeadlineExceeded?
    modifies w, w.world
    ensures w.Valid() && old(w.world.schedule) <= w.world.schedule
    ensures FailsByFault(old(w.world.turns), w.world.turns, running)
    ensures running ==> Between(from, w.world.s, events + [Waited], flushed + batch, [])
    ensures !running ==> w.world.s.w.pc == Exiting && EndedBadly(from, w.world.s, events + [Waited], flushed, batch)
  {
    WaitedOk(from.script, events, from.batchSize, from.position, from.log, w.world.s.broker);
    PlayedMore(from.script, events, Waited, from.batchSize, from.position, from.log, w.world.s.broker);
    WaitedInHand(events, from.batchSize, flushed, batch);
    NoneBehind(events, from.position, w.world.s.w.position, Waited);
    running := FlushStep(w, batch, from, events + [Waited], flushed);
  }

  function OutsetOf(script: seq<Fetched>, batchSize: int, s: State): Outset
    requires s.w.Up?
  {
    Outset(script, batchSize, s.w.position, s.broker.log, s.broker.committed)
  }

  lemma NothingYet(s: State, from: Outset)
    requires Inv(s) && s.w.Up? && s.w.pc == Fetching && s.w.batch == [] && from.batchSize > 0
    requires from == OutsetOf(from.script, from.batchSize, s)
    ensures Between(from, s, [], [], [])
  {
  }

  /** The others have run in between, and nothing of Run's has changed. */
  lemma BetweenLater(w: World, early: seq<Step>, from: Outset, a: State, events: seq<Event>, flushed: seq<Message>, batch: seq<Message>)
    requires w.Valid() && early <= w.schedule && (Legal(w.start, early) ==> a == After(w.start, early))
    requires Between(from, a, events, flushed, batch)
    requires w.s.w.Up? && w.s.w == a.w.(pc := w.s.w.pc) && w.s.broker.committed == a.broker.committed
    ensures PlayedFrom(from, events, w.s.broker) && Behind(events, from.position, w.s.w.position)
    ensures CommittedExactly(from.committed, w.s.broker.committed, flushed)
    ensures w.s.w.pc == Fetching ==> Between(from, w.s, events, flushed, batch)
  {
    StillPlayed(w, from, events, early);
  }

  ghost predicate InRange(from: Outset, base: Offsets) {
    && |from.committed| == |from.position| == |base|
    && forall p :: 0 <= p < |base| ==> base[p] <= from.committed[p] <= from.position[p]
  }

  lemma StartOffsets(s: State, from: Outset)
    requires Inv(s) && s.w.Up? && from == OutsetOf(from.script, from.batchSize, s)
    ensures InRange(from, s.broker.base)
  {
  }

  lemma Setting(w: ArchiveWriter, from: Outset)
    requires w.Valid() && w.world.s.w.pc == Fetching && w.world.s.w.batch == [] && from.batchSize > 0
    requires from == OutsetOf(from.script, from.batchSize, w.world.s)
    ensures Between(from, w.world.s, [], [], []) && InRange(from, w.world.s.broker.base)
  {
    w.world.Known();
    NothingYet(w.world.s, from);
    StartOffsets(w.world.s, from);
  }

  /** One turn of the loop that fetches. */
  method FetchOrFail(w: ArchiveWriter, batch: seq<Message>, next: Fetched, deadline: bool,
                     ghost from: Outset, ghost events: seq<Event>, ghost flushed: seq<Message>, ghost sched: seq<Step>)
      returns (running: bool, batch': seq<Message>, ghost events': seq<Event>, ghost flushed': seq<Message>)
    requires w.Valid() && Between(from, w.world.s, events, flushed, batch) && |batch| < from.batchSize
    requires |events| < |from.script| && from.script[|events|] == next && !next.Cancelled? && (deadline <==> batch != [])
    requires sched <= w.world.schedule && (Legal(w.world.start, sched) ==> After(w.world.start, sched).broker.log == from.log)
    modifies w, w.world
    ensures w.Valid() && old(w.world.schedule) <= w.world.schedule
    ensures Faults(w.world.turns) <= old(Faults(w.world.turns))
    ensures running ==> Between(from, w.world.s, events', flushed', batch') && |events'| == |events| + 1
    ensures running ==> Faults(w.world.turns) == old(Faults(w.world.turns))
    ensures !running ==> w.world.s.w.pc == Exiting && EndedBadly(from, w.world.s, events', flushed', batch')
    ensures !running ==> Faults(w.world.turns) < old(Faults(w.world.turns)) || BadFetch(from, events')
  {
    ghost var early, s := w.world.schedule, w.world.s;
    batch', events', flushed' := batch, events, flushed;
    var ok, spill := w.Attempt();
    BetweenLater(w.world, early, from, s, events, flushed, batch);
    if !ok || next.Broken? || (next.DeadlineExceeded? && !deadline) {
      w.Take(Unwind);
      running := false;
    } else if next.DeadlineExceeded? {
      running := WaitStep(w, batch, from, events, flushed);
      events' := events + [Waited];
      if running {
        batch', flushed' := [], flushed + batch;
      }
    } else {
      TopicGrows(w.world.start, sched, w.world.schedule);
      LongerTopics(from.log, w.world.s.broker, After(w.world.start, sched).broker);
      running := true;
      batch', events' := FetchStep(w, next.partition, batch, from, events, flushed);
    }
  }

  lemma LongerTopics(log: seq<seq<seq<Byte>>>, b: Broker, before: Broker)
    requires LogGrows(before, b) && before.log == log
    ensures |log| == |b.log| && forall q :: 0 <= q < |log| ==> |log[q]| <= |b.log[q]|
  {
  }

  /** How Run came out of its loop. */
  ghost predicate Stopped(r: RunOutcome, from: Outset, s: State, events: seq<Event>, flushed: seq<Message>, hand: seq<Message>,
                          before: seq<Turn>, after: seq<Turn>) {
    && (r.ShutDown? || r.Failed?)
    && (r.ShutDown? ==> EndedWell(from, s, events))
    && (r.Failed? ==> EndedBadly(from, s, events, flushed, hand))
    && (r.Failed? ==> Faults(after) < Faults(before) || BadFetch(from, events))
  }

  /** The deferred Close changes nothing of what Run has come to. */
  method Finish(w: ArchiveWriter, r: RunOutcome, ghost from: Outset, ghost events: seq<Event>, ghost flushed: seq<Message>,
                ghost hand: seq<Message>, ghost before: seq<Turn>, ghost sched: seq<Step>, ghost early: seq<Step>)
    requires w.Valid() && w.world.s.w.pc == Exiting && early == w.world.schedule && from.batchSize > 0
    requires Stopped(r, from, w.world.s, events, flushed, hand, before, w.world.turns)
    requires sched <= early && (Legal(w.world.start, sched) ==> InRange(from, After(w.world.start, sched).broker.base))
    modifies w, w.world
    ensures w.world.Valid() && w.world.s.w.Down? && old(w.world.schedule) <= w.world.schedule
    ensures Stopped(r, from, w.world.s, events, flushed, hand, before, w.world.turns)
    ensures r.ShutDown? ==> OpenIsOpen(w.world.s, Batches(events, from.batchSize))
  {
    Leave(w);
    StillPlayed(w.world, from, events, early);
    if r.ShutDown? {
      w.world.Known();
      TopicGrows(w.world.start, sched, w.world.schedule);
      OpenStaysUncommitted(w.world.s, from.committed, from.script, events, from.batchSize, from.position, from.log);
    }
  }

  /** What was flushed is archived, and of the open batch nothing is committed. */
  ghost predicate OpenIsOpen(s: State, b: Batching) {
    && (forall m <- b.done :: InLedger(s.h.ledger, m))
    && (forall m <- b.open :: !IsCommitted(s.broker, m.partition, m.offset))
  }

  /**
   Consumes until shutdown or an error. On a shutdown exactly the batches that were full or
   timed out have been written, fsynced and committed, and of the open batch nothing has been.
   On an error the batches before the one in hand are committed. It fails only by a fault, or
   by what was fetched.
   */
  method Run(w: ArchiveWriter, script: seq<Fetched>, batchSize: int, batchWait: int)
      returns (r: RunOutcome, ghost events: seq<Event>, ghost flushed: seq<Message>, ghost hand: seq<Message>)
    requires w.Valid() && w.world.s.w.pc == Fetching && w.world.s.w.batch == []
    modifies w, w.world
    ensures w.world.Valid() && old(w.world.schedule) <= w.world.schedule
    ensures r.BadBatchSize? <==> batchSize <= 0
    ensures r.BadBatchWait? <==> batchSize > 0 && batchWait <= 0
    ensures r.BadBatchSize? || r.BadBatchWait? ==> w.world.s == old(w.world.s)
    ensures !r.BadBatchSize? && !r.BadBatchWait? ==> w.world.s.w.Down?
    ensures !r.BadBatchSize? && !r.BadBatchWait? ==>
              Stopped(r, OutsetOf(script, batchSize, old(w.world.s)), w.world.s, events, flushed, hand,
                      old(w.world.turns), w.world.turns)
    ensures r.ShutDown? ==> OpenIsOpen(w.world.s, Batches(events, batchSize))
  {
    events, flushed, hand := [], [], [];
    if batchSize <= 0 {
      return BadBatchSize, events, flushed, hand;
    }
    if batchWait <= 0 {
      return BadBatchWait, events, flushed, hand;
    }
    ghost var from, sched := OutsetOf(script, batchSize, w.world.s), w.world.schedule;
    Setting(w, from);
    var batch: seq<Message> := [];
    var deadline := false;       // set from a batch's first message until it is flushed
    var running := true;
    var i := 0;
    r := ShutDown;
    while running
      invariant w.Valid() && sched <= w.world.schedule
      invariant 0 <= i <= |script|
      invariant running ==> Between(from, w.world.s, events, flushed, batch) && |events| == i && r == ShutDown
      invariant running ==> (deadline <==> batch != []) && Faults(w.world.turns) == old(Faults(w.world.turns))
      invariant !running ==> w.world.s.w.pc == Exiting
                             && Stopped(r, from, w.world.s, events, flushed, batch, old(w.world.turns), w.world.turns)
      decreases if running then 1 else 0, |script| - i, |batch|
    {
      if |batch| >= batchSize {
        running := FlushStep(w, batch, from, events, flushed);
        if running {
          flushed := flushed + batch;
          batch, deadline := [], false;
        } else {
          r := Failed;
        }
      } else if i == |script| || script[i].Cancelled? {
        w.Take(Unwind);
        running := false;
      } else {
        running, batch, events, flushed := FetchOrFail(w, batch, script[i], deadline, from, events, flushed, sched);
        deadline := batch != [];
        i := i + 1;
        if !running {
          r := Failed;
        }
      }
    }
    hand := batch;
    Finish(w, r, from, events, flushed, hand, old(w.world.turns), sched, w.world.schedule);
  }

  /** NewArchiveWriter: without a fault every hour file but the current hour's is gzipped before the first line is written. */
  method NewArchiveWriter(world: World) returns (w: ArchiveWriter, ok: bool)
    requires world.Valid() && world.s.w.Down?
    modifies world
    ensures fresh(w) && w.world == world && w.Valid() && old(world.schedule) <= world.schedule
    ensures FailsByFault(old(world.turns), world.turns, ok)
    ensures ok ==> world.s.w.pc == Fetching && world.s.w.batch == [] && world.s.disk.plain.Keys <= {w.curKey}
    ensures ok ==> world.s.w.position == world.s.broker.committed == old(world.s.broker.committed)
    ensures !ok ==> world.s.w.pc == Exiting
  {
    w := new ArchiveWriter(world);
    ok := w.FinalizeStale(ToFetch);
  }

  /** Both programs end, wherever they are: what their memory held is gone. */
  function Crashed(s: State): State {
    var t := if s.w.Up? then ConsumerApply(s, Exit) else s;
    CompactorApply(t, CompactorExit)
  }

  /**
   Wherever in these methods both programs die, and whatever is run after that, a message
   committed by then is still held.
   */
  lemma NoCrashPointLosesCommitted(world: World, n: nat, p: nat, o: nat, more: seq<Step>)
    requires world.Valid() && n <= |world.schedule|
    requires Legal(world.start, world.schedule[..n]) ==>
               && IsCommitted(After(world.start, world.schedule[..n]).broker, p, o)
               && Legal(Crashed(After(world.start, world.schedule[..n])), more)
    ensures Legal(world.start, world.schedule[..n])
    ensures
      var crashed := Crashed(After(world.start, world.schedule[..n]));
      && IsCommitted(crashed.broker, p, o) && Held(crashed, MessageAt(crashed.broker, p, o))
      && IsCommitted(After(crashed, more).broker, p, o) && Held(After(crashed, more), MessageAt(crashed.broker, p, o))
  {
    LegalPrefix(world.start, world.schedule, n);
    InvInitially(world.start);
    InvAlways(world.start, world.schedule[..n]);
    var s := After(world.start, world.schedule[..n]);
    CrashKeeps(s);
    CommittedIsHeld(Crashed(s), p, o);
    CommitsNeverGoBack(Crashed(s), more, p, o);
    InvAlways(Crashed(s), more);
    CommittedIsHeld(After(Crashed(s), more), p, o);
  }

  lemma CrashKeeps(s: State)
    requires Inv(s)
    ensures Inv(Crashed(s)) && Crashed(s).broker == s.broker
  {
    var t := if s.w.Up? then ConsumerApply(s, Exit) else s;
    if s.w.Up? {
      ConsumerKeeps(s, Exit);
    }
    CompactorKeeps(t, CompactorExit);
  }
}

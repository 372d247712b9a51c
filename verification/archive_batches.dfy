/** What Run makes of the messages it fetches: which are flushed in which batch, and which wait. */
module ArchiveBatches {
  import opened ArchiveBytes
  import opened ArchiveModel
  import opened ArchiveInvariant
  import opened ArchiveTheorems

  /** What FetchMessage came back with: a message of a partition, the batch deadline, shutdown, or an error. */
  datatype Fetched = Got(partition: nat) | DeadlineExceeded | Cancelled | Broken

  /** How it went: a message, nothing there yet, or an open batch whose wait was over. */
  datatype Event = Arrived(m: Message) | Nothing | Waited

  /** The messages flushed so far, and the open batch. */
  datatype Batching = Batching(done: seq<Message>, open: seq<Message>)

  /** A batch is flushed when it is full, or when its wait is over. */
  function Batches(events: seq<Event>, batchSize: int): Batching {
    if events == [] then Batching([], [])
    else
      var b := Batches(events[..|events|-1], batchSize);
      match events[|events|-1]
      case Arrived(m) =>
        if |b.open| + 1 >= batchSize then Batching(b.done + (b.open + [m]), []) else Batching(b.done, b.open + [m])
      case Nothing => b
      case Waited => Batching(b.done + b.open, [])
  }

  function Arrivals(events: seq<Event>): seq<Message> {
    if events == [] then []
    else
      var before := Arrivals(events[..|events|-1]);
      if events[|events|-1].Arrived? then before + [events[|events|-1].m] else before
  }

  /** How many messages of the partition have arrived. */
  function Count(events: seq<Event>, p: nat): nat {
    if events == [] then 0
    else
      var last := events[|events|-1];
      Count(events[..|events|-1], p) + (if last.Arrived? && last.m.partition == p then 1 else 0)
  }

  /** Nothing is dropped and nothing is reordered between fetching and flushing. */
  lemma {:induction false} BatchesSplit(events: seq<Event>, batchSize: int)
    requires batchSize > 0
    ensures Batches(events, batchSize).done + Batches(events, batchSize).open == Arrivals(events)
    ensures |Batches(events, batchSize).open| < batchSize
  {
    if events != [] {
      BatchesSplit(events[..|events|-1], batchSize);
    }
  }

  /**
   The i-th event is what the script called for: the partition's next message, and none only
   if the topic had no more to begin with.
   */
  ghost predicate EventOk(script: seq<Fetched>, events: seq<Event>, i: nat, batchSize: int,
                          start: Offsets, log: seq<seq<seq<Byte>>>, b: Broker)
    requires i < |events|
  {
    i < |script|
    && match events[i]
       case Arrived(m) =>
         && script[i] == Got(m.partition) && m.partition < |start|
         && m.offset == start[m.partition] + Count(events[..i], m.partition) && OnTopic(b, m)
       case Nothing =>
         && script[i].Got?
         && (script[i].partition < |start| && script[i].partition < |log| ==>
               |log[script[i].partition]| <= start[script[i].partition] + Count(events[..i], script[i].partition))
       case Waited => script[i].DeadlineExceeded? && Batches(events[..i], batchSize).open != []
  }

  ghost predicate Played(script: seq<Fetched>, events: seq<Event>, batchSize: int,
                         start: Offsets, log: seq<seq<seq<Byte>>>, b: Broker) {
    forall i {:trigger EventOk(script, events, i, batchSize, start, log, b)} :: 0 <= i < |events| ==>
      EventOk(script, events, i, batchSize, start, log, b)
  }

  lemma PlayedMore(script: seq<Fetched>, events: seq<Event>, e: Event, batchSize: int,
                   start: Offsets, log: seq<seq<seq<Byte>>>, b: Broker)
    requires Played(script, events, batchSize, start, log, b)
    requires EventOk(script, events + [e], |events|, batchSize, start, log, b)
    ensures Played(script, events + [e], batchSize, start, log, b)
  {
    var more := events + [e];
    forall i | 0 <= i < |more| ensures EventOk(script, more, i, batchSize, start, log, b) {
      if i < |events| {
        assert EventOk(script, events, i, batchSize, start, log, b);
        assert more[i] == events[i] && more[..i] == events[..i];
      }
    }
  }

  /** The topics of a later broker hold all that an earlier one's held; the group's beginning is the same. */
  ghost predicate LogGrows(b: Broker, b': Broker) {
    && |b'.log| == |b.log| && b'.base == b.base
    && forall p :: 0 <= p < |b.log| ==> b.log[p] <= b'.log[p]
  }

  lemma PlayedLater(script: seq<Fetched>, events: seq<Event>, batchSize: int,
                    start: Offsets, log: seq<seq<seq<Byte>>>, b: Broker, b': Broker)
    requires Played(script, events, batchSize, start, log, b) && LogGrows(b, b')
    ensures Played(script, events, batchSize, start, log, b')
  {
    forall i | 0 <= i < |events| ensures EventOk(script, events, i, batchSize, start, log, b') {
      assert EventOk(script, events, i, batchSize, start, log, b);
    }
  }

  // ----- what arrived, arrived in order

  lemma {:induction false} ArrivalsInTurn(script: seq<Fetched>, events: seq<Event>, batchSize: int,
                                          start: Offsets, log: seq<seq<seq<Byte>>>, b: Broker)
    requires Played(script, events, batchSize, start, log, b)
    ensures forall m <- Arrivals(events) ::
              && m.partition < |start| && OnTopic(b, m)
              && start[m.partition] <= m.offset < start[m.partition] + Count(events, m.partition)
    ensures forall i, j :: 0 <= i < j < |Arrivals(events)| && Arrivals(events)[i].partition == Arrivals(events)[j].partition ==>
              Arrivals(events)[i].offset < Arrivals(events)[j].offset
  {
    if events != [] {
      var n := |events| - 1;
      var before := events[..n];
      forall i | 0 <= i < n ensures EventOk(script, before, i, batchSize, start, log, b) {
        assert EventOk(script, events, i, batchSize, start, log, b);
        assert before[i] == events[i] && before[..i] == events[..i];
      }
      ArrivalsInTurn(script, before, batchSize, start, log, b);
      assert EventOk(script, events, n, batchSize, start, log, b);
    }
  }

  /** The batch's end is past everything in it and nothing else. */
  lemma {:induction false} BatchEndBelow(batch: seq<Message>, p: nat, current: nat, limit: nat)
    requires current <= limit && forall m <- batch :: m.partition == p ==> m.offset < limit
    ensures BatchEnd(batch, p, current) <= limit
  {
    if batch != [] {
      BatchEndBelow(batch[..|batch|-1], p, current, limit);
    }
  }

  lemma {:induction false} InBatchBelowEnd(batch: seq<Message>, m: Message, current: nat)
    requires m in batch
    ensures m.offset < BatchEnd(batch, m.partition, current)
  {
    var b := batch[..|batch|-1];
    if m != batch[|batch|-1] {
      assert m in b;
      InBatchBelowEnd(b, m, current);
    }
  }

  /** Exactly the offsets of done have been committed. */
  ghost predicate CommittedExactly(before: Offsets, after: Offsets, done: seq<Message>) {
    && |after| == |before|
    && forall p: nat :: p < |before| ==> after[p] == BatchEnd(done, p, before[p])
  }

  /** Those of flushed have, and of the batch in hand on each partition all or none. */
  ghost predicate CommittedBetween(before: Offsets, after: Offsets, flushed: seq<Message>, hand: seq<Message>) {
    && |after| == |before|
    && forall p: nat :: p < |before| ==>
         after[p] == BatchEnd(flushed, p, before[p]) || after[p] == BatchEnd(flushed + hand, p, before[p])
  }

  /** What is committed for a batch is one past its highest offset on the partition, and stays where it is without one. */
  lemma {:induction false} BatchEndIsPastLast(batch: seq<Message>, p: nat, current: nat)
    ensures current <= BatchEnd(batch, p, current)
    ensures forall m <- batch :: m.partition == p ==> m.offset + 1 <= BatchEnd(batch, p, current)
    ensures BatchEnd(batch, p, current) == current
            || exists m <- batch :: m.partition == p && m.offset + 1 == BatchEnd(batch, p, current)
  {
    if batch != [] {
      var n := |batch| - 1;
      BatchEndIsPastLast(batch[..n], p, current);
      assert batch == batch[..n] + [batch[n]];
    }
  }

  /** Two batches committed one after the other, as one. */
  lemma {:induction false} BatchEndAppend(a: seq<Message>, b: seq<Message>, p: nat, current: nat)
    ensures BatchEnd(a + b, p, current) == BatchEnd(b, p, BatchEnd(a, p, current))
  {
    if b == [] {
      assert a + b == a;
    } else {
      assert (a + b)[..|a + b|-1] == a + b[..|b|-1];
      BatchEndAppend(a, b[..|b|-1], p, current);
    }
  }

  lemma CommittedMore(before: Offsets, mid: Offsets, after: Offsets, done: seq<Message>, batch: seq<Message>)
    requires CommittedExactly(before, mid, done) && CommittedExactly(mid, after, batch)
    ensures CommittedExactly(before, after, done + batch)
  {
    forall p: nat | p < |before| ensures after[p] == BatchEnd(done + batch, p, before[p]) {
      BatchEndAppend(done, batch, p, before[p]);
    }
  }

  lemma CommittedPartOf(before: Offsets, mid: Offsets, after: Offsets, done: seq<Message>, batch: seq<Message>)
    requires CommittedExactly(before, mid, done) && CommittedBetween(mid, after, [], batch)
    ensures CommittedBetween(before, after, done, batch)
  {
    forall p: nat | p < |before|
      ensures after[p] == BatchEnd(done, p, before[p]) || after[p] == BatchEnd(done + batch, p, before[p])
    {
      BatchEndAppend(done, batch, p, before[p]);
      assert [] + batch == batch;
    }
  }

  /**
   What a shutdown leaves: the flushed batches are committed and archived, and of the open
   batch no message is.
   */
  lemma OpenStaysUncommitted(s: State, before: Offsets, script: seq<Fetched>, events: seq<Event>, batchSize: int,
                             start: Offsets, log: seq<seq<seq<Byte>>>)
    requires Inv(s) && batchSize > 0 && Played(script, events, batchSize, start, log, s.broker)
    requires |before| == |start| == |s.broker.base| && forall p :: 0 <= p < |start| ==> s.broker.base[p] <= before[p] <= start[p]
    requires CommittedExactly(before, s.broker.committed, Batches(events, batchSize).done)
    ensures forall m <- Batches(events, batchSize).done :: InLedger(s.h.ledger, m)
    ensures forall m <- Batches(events, batchSize).open :: !IsCommitted(s.broker, m.partition, m.offset)
  {
    var b := Batches(events, batchSize);
    var all := Arrivals(events);
    BatchesSplit(events, batchSize);
    ArrivalsInTurn(script, events, batchSize, start, log, s.broker);
    forall m | m in b.done ensures InLedger(s.h.ledger, m) {
      assert m in all;
      InBatchBelowEnd(b.done, m, before[m.partition]);
      assert m == MessageAt(s.broker, m.partition, m.offset);
    }
    forall m | m in b.open ensures !IsCommitted(s.broker, m.partition, m.offset) {
      OpenIsLater(b.done, b.open, m);
      BatchEndBelow(b.done, m.partition, before[m.partition], m.offset);
    }
  }

  /** Of one partition's messages those in the later part have the higher offsets. */
  lemma OpenIsLater(done: seq<Message>, open: seq<Message>, m: Message)
    requires forall i, j :: 0 <= i < j < |done + open| && (done + open)[i].partition == (done + open)[j].partition ==>
               (done + open)[i].offset < (done + open)[j].offset
    requires m in open
    ensures forall x <- done :: x.partition == m.partition ==> x.offset < m.offset
  {
    var j :| 0 <= j < |open| && open[j] == m;
    assert (done + open)[|done| + j] == m;
    forall x | x in done && x.partition == m.partition ensures x.offset < m.offset {
      var i :| 0 <= i < |done| && done[i] == x;
      assert (done + open)[i] == x;
    }
  }

  lemma TopicGrowsStep(s: State, step: Step)
    requires Enabled(s, step)
    ensures LogGrows(s.broker, Apply(s, step).broker)
  {
  }

  /** Along a schedule nothing produced goes away. */
  lemma {:induction false} TopicGrows(s: State, early: seq<Step>, late: seq<Step>)
    requires Legal(s, late) && early <= late
    ensures Legal(s, early) && LogGrows(After(s, early).broker, After(s, late).broker)
  {
    if |early| == |late| {
      assert early == late;
    } else {
      var before := late[..|late|-1];
      assert early <= before;
      TopicGrows(s, early, before);
      TopicGrowsStep(After(s, before), late[|late|-1]);
      GrowsOn(After(s, early).broker, After(s, before).broker, After(s, late).broker);
    }
  }

  lemma GrowsOn(a: Broker, b: Broker, c: Broker)
    requires LogGrows(a, b) && LogGrows(b, c)
    ensures LogGrows(a, c)
  {
  }

  // ----- Run, from event to event

  /** flushed is committed for, batch is in hand: still open, or full and about to be flushed. */
  ghost predicate InHand(events: seq<Event>, batchSize: int, flushed: seq<Message>, batch: seq<Message>) {
    && |batch| <= batchSize
    && Batches(events, batchSize)
       == if |batch| >= batchSize then Batching(flushed + batch, []) else Batching(flushed, batch)
  }

  /** The reader stands behind exactly what has arrived. */
  ghost predicate Behind(events: seq<Event>, start: Offsets, position: Offsets) {
    |position| == |start| && forall p: nat :: p < |start| ==> position[p] == start[p] + Count(events, p)
  }

  lemma ArrivedInHand(events: seq<Event>, batchSize: int, flushed: seq<Message>, batch: seq<Message>, m: Message)
    requires InHand(events, batchSize, flushed, batch) && |batch| < batchSize
    ensures InHand(events + [Arrived(m)], batchSize, flushed, batch + [m])
  {
    assert (events + [Arrived(m)])[..|events|] == events;
  }

  lemma NothingInHand(events: seq<Event>, batchSize: int, flushed: seq<Message>, batch: seq<Message>)
    requires InHand(events, batchSize, flushed, batch)
    ensures InHand(events + [Nothing], batchSize, flushed, batch)
  {
    assert (events + [Nothing])[..|events|] == events;
  }

  lemma WaitedInHand(events: seq<Event>, batchSize: int, flushed: seq<Message>, batch: seq<Message>)
    requires InHand(events, batchSize, flushed, batch) && |batch| < batchSize
    ensures Batches(events + [Waited], batchSize) == Batching(flushed + batch, [])
  {
    assert (events + [Waited])[..|events|] == events;
  }

  lemma ArrivedBehind(events: seq<Event>, start: Offsets, position: Offsets, m: Message)
    requires Behind(events, start, position) && m.partition < |position| && m.offset == position[m.partition]
    ensures Behind(events + [Arrived(m)], start, position[m.partition := m.offset + 1])
  {
    assert (events + [Arrived(m)])[..|events|] == events;
  }

  lemma NoneBehind(events: seq<Event>, start: Offsets, position: Offsets, e: Event)
    requires Behind(events, start, position) && !e.Arrived?
    ensures Behind(events + [e], start, position)
  {
    assert (events + [e])[..|events|] == events;
  }

  lemma ArrivedOk(script: seq<Fetched>, events: seq<Event>, m: Message, batchSize: int,
                  start: Offsets, log: seq<seq<seq<Byte>>>, b: Broker, position: Offsets)
    requires Behind(events, start, position) && |events| < |script| && script[|events|] == Got(m.partition)
    requires m.partition < |position| && m.offset == position[m.partition] && OnTopic(b, m)
    ensures EventOk(script, events + [Arrived(m)], |events|, batchSize, start, log, b)
  {
    assert (events + [Arrived(m)])[..|events|] == events;
  }

  lemma NothingOk(script: seq<Fetched>, events: seq<Event>, batchSize: int,
                  start: Offsets, log: seq<seq<seq<Byte>>>, b: Broker, position: Offsets)
    requires Behind(events, start, position) && |events| < |script| && script[|events|].Got?
    requires script[|events|].partition < |position| && script[|events|].partition < |log| ==>
               |log[script[|events|].partition]| <= position[script[|events|].partition]
    ensures EventOk(script, events + [Nothing], |events|, batchSize, start, log, b)
  {
    assert (events + [Nothing])[..|events|] == events;
  }

  lemma WaitedOk(script: seq<Fetched>, events: seq<Event>, batchSize: int,
                 start: Offsets, log: seq<seq<seq<Byte>>>, b: Broker)
    requires |events| < |script| && script[|events|].DeadlineExceeded? && Batches(events, batchSize).open != []
    ensures EventOk(script, events + [Waited], |events|, batchSize, start, log, b)
  {
    assert (events + [Waited])[..|events|] == events;
  }
}

/**
 Power loss: what the consumer has fsynced, and no more, is sure to outlive it. Flush syncs
 the open hour's file alone, and neither rotate nor gzipFile syncs anything, so the promise
 that nothing is committed until it is durable holds exactly for lines of the open hour.
 */
module ArchivePowerLoss {
  import opened ArchiveBytes
  import opened ArchiveModel
  import opened ArchiveInvariant
  import opened ArchiveFetched
  import opened ArchiveTheorems

  /** What of an hour is sure to outlive a power loss: of its plain file, as much as the last fsync covered. */
  function Durable(s: State, hour: nat): Content {
    if hour in s.disk.plain && hour in s.h.synced && s.h.synced[hour] <= |s.disk.plain[hour]|
    then s.disk.plain[hour][..s.h.synced[hour]] else []
  }

  ghost predicate IsDurable(s: State, m: Message) {
    exists hour :: Whole(m) in Durable(s, hour)
  }

  // ----- what is fsynced when

  /** Outside finalizeStale only the current hour's file is plain. */
  ghost predicate Tidy(d: Disk, w: Writer) {
    w.Up? && (w.pc.Fetching? || w.pc.Writing? || w.pc.Appending? || w.pc.Rotating? || w.pc.Committing?) ==>
      d.plain.Keys <= {w.curKey}
  }

  /** Lines have been written to an open file. */
  ghost predicate Opened(w: Writer) {
    w.Up? ==>
      && (w.pc.Writing? || w.pc.Appending? || w.pc.Rotating? || w.pc.Committing? || Returning(w.pc, ToAppend) ==> w.batch != [])
      && ((w.pc.Writing? && w.written > 0) || w.pc.Committing? ==> w.isOpen)
  }

  /** An fsync covers what was there, and nothing under it changes. */
  ghost predicate SyncedOk(s: State) {
    && (forall hour <- s.h.synced :: hour in s.h.ledger && s.h.synced[hour] <= |s.h.ledger[hour]|)
    && (s.w.Up? && s.w.spilled > 0 && s.w.curKey in s.h.synced && s.w.curKey in s.h.ledger ==>
          s.h.synced[s.w.curKey] < |s.h.ledger[s.w.curKey]|)
    && (s.w.Up? && s.w.pc.Committing? ==>
          s.w.curKey in s.h.synced && s.w.curKey in s.h.ledger && s.h.synced[s.w.curKey] == |s.h.ledger[s.w.curKey]|)
  }

  ghost predicate SyncInv(s: State) {
    Tidy(s.disk, s.w) && Opened(s.w) && SyncedOk(s)
  }

  lemma TidyStep(s: State, step: Step)
    requires Inv(s) && Enabled(s, step) && Tidy(s.disk, s.w)
    ensures Tidy(Apply(s, step).disk, Apply(s, step).w)
  {
    if !step.ByConsumer? {
      OthersFrame(s, step);
    }
  }

  lemma OpenedByConsumer(s: State, step: ConsumerStep)
    requires BufferOk(s.disk, s.w) && ConsumerEnabled(s, step) && Opened(s.w)
    ensures Opened(ConsumerApply(s, step).w)
  {
  }

  lemma OpenedStep(s: State, step: Step)
    requires Inv(s) && Enabled(s, step) && Opened(s.w)
    ensures Opened(Apply(s, step).w)
  {
    if step.ByConsumer? {
      OpenedByConsumer(s, step.w);
    } else {
      OthersFrame(s, step);
    }
  }

  lemma SyncedBySpill(s: State)
    requires Inv(s) && ConsumerEnabled(s, Spill) && SyncInv(s)
    ensures SyncedOk(ConsumerApply(s, Spill))
  {
    SpillShape(s);
  }

  lemma SyncedByOpen(s: State)
    requires Inv(s) && ConsumerEnabled(s, OpenFile) && SyncInv(s)
    ensures SyncedOk(ConsumerApply(s, OpenFile))
  {
    NewHourIsNew(s, OpenFile);
  }

  lemma SyncedBySync(s: State)
    requires Inv(s) && ConsumerEnabled(s, Synced) && SyncInv(s)
    ensures SyncedOk(ConsumerApply(s, Synced))
  {
  }

  lemma SyncedByRest(s: State, step: ConsumerStep)
    requires Inv(s) && ConsumerEnabled(s, step) && SyncInv(s) && !step.Spill? && !step.OpenFile? && !step.Synced?
    ensures SyncedOk(ConsumerApply(s, step))
  {
    LedgerFrame(s, step);
  }

  lemma SyncStep(s: State, step: Step)
    requires Inv(s) && Enabled(s, step) && SyncInv(s)
    ensures SyncInv(Apply(s, step))
  {
    TidyStep(s, step);
    OpenedStep(s, step);
    if !step.ByConsumer? {
      OthersFrame(s, step);
    } else if step.w.Spill? {
      SyncedBySpill(s);
    } else if step.w.OpenFile? {
      SyncedByOpen(s);
    } else if step.w.Synced? {
      SyncedBySync(s);
    } else {
      SyncedByRest(s, step.w);
    }
  }

  lemma {:induction false} SyncAlways(s: State, schedule: seq<Step>)
    requires Initial(s) && Legal(s, schedule)
    ensures Inv(After(s, schedule)) && SyncInv(After(s, schedule))
  {
    InvInitially(s);
    InvAlways(s, schedule);
    if schedule != [] {
      var before := schedule[..|schedule|-1];
      SyncAlways(s, before);
      SyncStep(After(s, before), schedule[|schedule|-1]);
    }
  }

  // ----- when the promise holds

  /**
   When a batch's offsets are about to be committed, the open hour's file is durable whole and
   nothing else is: a message is durable exactly if its line is in the open hour.
   */
  lemma DurableIffInOpenHour(s: State, schedule: seq<Step>, m: Message)
    requires Initial(s) && Legal(s, schedule) && After(s, schedule).w.Up? && After(s, schedule).w.pc.Committing?
    ensures
      var t := After(s, schedule);
      && t.w.curKey in t.h.ledger
      && (forall hour :: Durable(t, hour) == if hour == t.w.curKey then t.h.ledger[hour] else [])
      && (IsDurable(t, m) <==> Whole(m) in t.h.ledger[t.w.curKey])
  {
    SyncAlways(s, schedule);
    var t := After(s, schedule);
    assert Durable(t, t.w.curKey) == t.h.ledger[t.w.curKey];
  }

  /** Between two states what was durable of the hour still is, or its plain file has gone for good. */
  ghost predicate StillDurable(s: State, t: State, hour: nat) {
    && (hour in t.disk.plain ==> Durable(s, hour) <= Durable(t, hour))
    && (hour !in t.disk.plain ==> Durable(s, hour) == [] || hour in t.h.ledger)
  }

  lemma SameFilesDurable(s: State, u: State, t: State, hour: nat)
    requires Inv(u) && StillDurable(s, u, hour)
    requires t.disk.plain == u.disk.plain && t.h.synced == u.h.synced && t.h.ledger == u.h.ledger
    ensures StillDurable(s, t, hour)
  {
  }

  lemma SpillDurable(s: State, u: State, hour: nat)
    requires Inv(u) && SyncInv(u) && ConsumerEnabled(u, Spill) && StillDurable(s, u, hour)
    ensures StillDurable(s, ConsumerApply(u, Spill), hour)
  {
    SpillShape(u);
    GrowKeepsPrefix(u.disk.plain[u.w.curKey], u.w.buf[0], u.w.spilled,
                    if u.w.curKey in u.h.synced then u.h.synced[u.w.curKey] else 0);
  }

  lemma GrowKeepsPrefix(c: Content, m: Message, k: nat, n: nat)
    requires k > 0 ==> LastIs(c, Frag(m, k)) && n < |c|
    requires n <= |c|
    ensures |c| <= |Grow(c, m, k)| && Grow(c, m, k)[..n] == c[..n]
  {
  }

  lemma OpenDurable(s: State, u: State, hour: nat)
    requires Inv(u) && SyncInv(u) && ConsumerEnabled(u, OpenFile) && StillDurable(s, u, hour)
    ensures StillDurable(s, ConsumerApply(u, OpenFile), hour)
  {
    NewHourIsNew(u, OpenFile);
  }

  lemma SyncDurable(s: State, u: State, hour: nat)
    requires Inv(u) && SyncInv(u) && ConsumerEnabled(u, Synced) && StillDurable(s, u, hour)
    ensures StillDurable(s, ConsumerApply(u, Synced), hour)
  {
    if u.w.curKey in u.disk.plain {
      var whole := u.disk.plain[u.w.curKey];
      assert whole[..|whole|] == whole;
    }
  }

  lemma RemoveDurable(s: State, u: State, hour: nat)
    requires Inv(u) && ConsumerEnabled(u, RemovePlain) && StillDurable(s, u, hour)
    ensures StillDurable(s, ConsumerApply(u, RemovePlain), hour)
  {
  }

  lemma OtherFilesSame(u: State, step: ConsumerStep)
    requires Inv(u) && ConsumerEnabled(u, step)
    requires !step.Spill? && !step.OpenFile? && !step.Synced? && !step.RemovePlain?
    ensures var t := ConsumerApply(u, step);
            t.disk.plain == u.disk.plain && t.h.synced == u.h.synced && t.h.ledger == u.h.ledger
  {
  }

  lemma DurableStep(s: State, u: State, step: Step, hour: nat)
    requires Inv(u) && SyncInv(u) && Enabled(u, step) && StillDurable(s, u, hour)
    ensures StillDurable(s, Apply(u, step), hour)
  {
    if !step.ByConsumer? {
      OthersFrame(u, step);
      SameFilesDurable(s, u, Apply(u, step), hour);
    } else if step.w.Spill? {
      SpillDurable(s, u, hour);
    } else if step.w.OpenFile? {
      OpenDurable(s, u, hour);
    } else if step.w.Synced? {
      SyncDurable(s, u, hour);
    } else if step.w.RemovePlain? {
      RemoveDurable(s, u, hour);
    } else {
      OtherFilesSame(u, step.w);
      SameFilesDurable(s, u, Apply(u, step), hour);
    }
  }

  lemma {:induction false} DurableAlong(s: State, schedule: seq<Step>, hour: nat)
    requires Inv(s) && SyncInv(s) && Legal(s, schedule)
    ensures Inv(After(s, schedule)) && SyncInv(After(s, schedule)) && StillDurable(s, After(s, schedule), hour)
  {
    if schedule != [] {
      var before := schedule[..|schedule|-1];
      var u, step := After(s, before), schedule[|schedule|-1];
      DurableAlong(s, before, hour);
      InvStep(u, step);
      SyncStep(u, step);
      DurableStep(s, u, step, hour);
    }
  }

  /** What is durable stays so exactly as long as its plain file does: gzipFile ends it, for it syncs nothing. */
  lemma DurableUntilFinalized(s: State, schedule: seq<Step>, hour: nat)
    requires Inv(s) && SyncInv(s) && Legal(s, schedule)
    ensures
      var t := After(s, schedule);
      if hour in t.disk.plain then Durable(s, hour) <= Durable(t, hour) else Durable(t, hour) == []
  {
    DurableAlong(s, schedule, hour);
  }

  // ----- a batch that crosses the hour

  const VALUE: seq<Byte> := [49]

  function First(): Message { Message(0, 0, VALUE) }

  function Second(): Message { Message(0, 1, VALUE) }

  function Both(): seq<Message> { [First(), Second()] }

  /** Two messages on one partition, nothing fetched yet. */
  function Morning(): State {
    State(0, Broker([[VALUE, VALUE]], [0], [0]), NoFiles(), Down, Idle, History(map[], 0, 0, [0], map[]))
  }

  function NoFiles(): Disk { Disk(map[], map[], map[], map[]) }

  ghost predicate Comes(schedule: seq<Step>, s: State) {
    Legal(Morning(), schedule) && After(Morning(), schedule) == s
  }

  lemma Go(schedule: seq<Step>, s: State, step: Step) returns (more: seq<Step>, t: State)
    requires Comes(schedule, s) && Enabled(s, step)
    ensures Comes(more, t) && t == Apply(s, step)
  {
    LegalExtend(Morning(), schedule, step);
    more, t := schedule + [step], Apply(s, step);
  }

  /** A process starts at midnight. */
  lemma CrossingStarts() returns (x: seq<Step>, s: State)
    ensures Comes(x, s) && s == Morning().(w := Up(0, false, [], 0, [0], [], 0, Fetching))
  {
    x, s := Go([], Morning(), ByConsumer(Boot));
    x, s := Go(x, s, ByConsumer(Glob));
    assert s.w.pc.todo == {};
    x, s := Go(x, s, ByConsumer(Finalized));
  }

  /** Both messages are in its batch. */
  lemma CrossingFetches() returns (x: seq<Step>, s: State)
    ensures Comes(x, s) && s == Morning().(w := Up(0, false, [], 0, [2], Both(), 0, Writing),
                                           h := History(map[], 0, 0, [2], map[]))
  {
    x, s := CrossingStarts();
    x, s := Go(x, s, ByConsumer(Fetch(0)));
    assert s.w.batch == [First()] && s.w.position == [1] && s.h.reached == [1];
    x, s := Go(x, s, ByConsumer(Fetch(0)));
    assert s.w.batch == Both() && s.w.position == [2] && s.h.reached == [2];
    x, s := Go(x, s, ByConsumer(Seal));
  }

  /** The first one's line goes to hour 0. */
  lemma CrossingOpens() returns (x: seq<Step>, s: State)
    ensures Comes(x, s)
    ensures s == Morning().(disk := NoFiles().(plain := map[0 := []]), w := Up(0, true, [First()], 0, [2], Both(), 1, Writing),
                            h := History(map[0 := []], 0, 0, [2], map[]))
  {
    x, s := CrossingFetches();
    x, s := Go(x, s, ByConsumer(ReadClock));
    x, s := Go(x, s, ByConsumer(OpenFile));
    x, s := Go(x, s, ByConsumer(Glob));
    assert s.w.pc.todo == {};
    x, s := Go(x, s, ByConsumer(Finalized));
    x, s := Go(x, s, ByConsumer(AppendLine));
    assert s.w.buf == [First()];
  }

  /** The state once k bytes of m's line are in the open file. */
  function Spilled(s: State, buf: seq<Message>, spilled: nat, m: Message, k: nat): State
    requires s.w.Up?
  {
    var c := [Frag(m, k)];
    s.(disk := s.disk.(plain := s.disk.plain[s.w.curKey := c]), w := s.w.(buf := buf, spilled := spilled),
       h := s.h.(ledger := s.h.ledger[s.w.curKey := c]))
  }

  lemma SpillFirst(x: seq<Step>, s: State, m: Message) returns (y: seq<Step>, t: State)
    requires Comes(x, s) && s.w.Up? && s.w.isOpen && s.w.buf == [m] && m.value == VALUE && s.w.spilled == 0
    requires s.w.curKey in s.disk.plain && s.disk.plain[s.w.curKey] == []
    ensures Comes(y, t) && t == Spilled(s, [m], 1, m, 1)
  {
    assert |LineOf(m)| == 2;
    assert Grow([], m, 0) == [Frag(m, 1)];
    y, t := Go(x, s, ByConsumer(Spill));
  }

  lemma SpillSecond(x: seq<Step>, s: State, m: Message) returns (y: seq<Step>, t: State)
    requires Comes(x, s) && s.w.Up? && s.w.isOpen && s.w.buf == [m] && m.value == VALUE && s.w.spilled == 1
    requires s.w.curKey in s.disk.plain && s.disk.plain[s.w.curKey] == [Frag(m, 1)]
    ensures Comes(y, t) && t == Spilled(s, [], 0, m, 2)
  {
    assert |LineOf(m)| == 2;
    assert Grow([Frag(m, 1)], m, 1) == [Frag(m, 2)];
    assert [m][1..] == [];
    y, t := Go(x, s, ByConsumer(Spill));
  }

  /** Both bytes of a line reach an empty file. */
  lemma SpillLine(x: seq<Step>, s: State, m: Message) returns (y: seq<Step>, t: State)
    requires Comes(x, s) && s.w.Up? && s.w.isOpen && s.w.buf == [m] && m.value == VALUE && s.w.spilled == 0
    requires s.w.curKey in s.disk.plain && s.disk.plain[s.w.curKey] == []
    ensures Comes(y, t) && t == Spilled(s, [], 0, m, 2) && Whole(m) == Frag(m, 2)
  {
    y, t := SpillFirst(x, s, m);
    y, t := SpillSecond(y, t, m);
    SpilledTwice(s, m);
  }

  lemma SpilledTwice(s: State, m: Message)
    requires s.w.Up?
    ensures Spilled(Spilled(s, [m], 1, m, 1), [], 0, m, 2) == Spilled(s, [], 0, m, 2)
  {
    var c, d := [Frag(m, 1)], [Frag(m, 2)];
    assert s.disk.plain[s.w.curKey := c][s.w.curKey := d] == s.disk.plain[s.w.curKey := d];
    assert s.h.ledger[s.w.curKey := c][s.w.curKey := d] == s.h.ledger[s.w.curKey := d];
  }

  /** An hour later the clock is read for the second, and hour 0 is closed with the first line in it. */
  lemma CrossingTurns() returns (x: seq<Step>, s: State)
    ensures Comes(x, s)
    ensures s == Morning().(clock := HOUR, disk := NoFiles().(plain := map[0 := [Whole(First())]]),
                            w := Up(0, false, [], 0, [2], Both(), 1, Rotating(1, HOUR)),
                            h := History(map[0 := [Whole(First())]], 0, 0, [2], map[]))
  {
    x, s := CrossingOpens();
    x, s := Go(x, s, Outside(Tick(HOUR)));
    x, s := Go(x, s, ByConsumer(ReadClock));
    x, s := SpillLine(x, s, First());
    assert s.disk.plain == map[0 := [Whole(First())]] && s.h.ledger == s.disk.plain;
    x, s := Go(x, s, ByConsumer(CloseFile));
  }

  /** Hour 1 is opened, hour 0 about to be compressed. */
  lemma CrossingRotates() returns (x: seq<Step>, s: State)
    ensures Comes(x, s)
    ensures s == Morning().(clock := HOUR, disk := NoFiles().(plain := map[0 := [Whole(First())], 1 := []]),
                            w := Up(1, true, [], 0, [2], Both(), 1, GzOpen(0, {}, ToAppend)),
                            h := History(map[0 := [Whole(First())], 1 := []], 1, 0, [2], map[]))
  {
    x, s := CrossingTurns();
    x, s := Go(x, s, ByConsumer(OpenFile));
    x, s := Go(x, s, ByConsumer(Glob));
    assert s.w.pc.todo == {0};
    x, s := Go(x, s, ByConsumer(GzStat(0)));
    assert s.w.pc.todo == {};
  }

  /** Hour 0 is compressed, and its plain file removed. */
  lemma CrossingCompresses() returns (x: seq<Step>, s: State)
    ensures Comes(x, s)
    ensures s == Morning().(clock := HOUR, disk := NoFiles().(plain := map[1 := []], gz := map[0 := [Whole(First())]]),
                            w := Up(1, true, [], 0, [2], Both(), 1, Appending),
                            h := History(map[0 := [Whole(First())], 1 := []], 1, 0, [2], map[]))
  {
    x, s := CrossingRotates();
    x, s := Go(x, s, ByConsumer(CreateTmp));
    x, s := Go(x, s, ByConsumer(GzChunk(1)));
    assert [Whole(First())][..1] == [Whole(First())];
    assert s.disk.tmp == map[0 := [Whole(First())]];
    x, s := Go(x, s, ByConsumer(RenameTmp));
    assert s.disk.gz == map[0 := [Whole(First())]] && s.disk.tmp == map[];
    x, s := Go(x, s, ByConsumer(RemovePlain));
    assert s.disk.plain == map[1 := []];
    x, s := Go(x, s, ByConsumer(Finalized));
  }

  /** The second line goes to hour 1, which is fsynced, and both offsets are committed. */
  lemma CrossingCommits() returns (x: seq<Step>, s: State)
    ensures Comes(x, s)
    ensures s.disk.plain == map[1 := [Whole(Second())]] && s.h.synced == map[1 := 1]
    ensures s.broker == Morning().broker.(committed := [2])
  {
    x, s := CrossingCompresses();
    x, s := Go(x, s, ByConsumer(AppendLine));
    assert s.w.buf == [Second()];
    x, s := SpillLine(x, s, Second());
    assert s.disk.plain == map[1 := [Whole(Second())]];
    x, s := Go(x, s, ByConsumer(Synced));
    assert s.h.synced == map[1 := 1];
    x, s := Go(x, s, ByConsumer(Commit(0)));
    BothCommitted();
    assert s.broker.committed == [2];
  }

  /**
   The promise fails for a batch that crosses the hour: Flush has synced, the offsets are
   committed, and the batch's first line is in a .gz that never was synced.
   */
  lemma CrossingBatchIsNotDurable() returns (x: seq<Step>, s: State)
    ensures Initial(Morning()) && Comes(x, s)
    ensures IsCommitted(s.broker, 0, 0) && MessageAt(s.broker, 0, 0) == First() && Held(s, First())
    ensures !IsDurable(s, First()) && IsDurable(s, Second())
  {
    x, s := CrossingCommits();
    CommittedNeverLost(Morning(), x, 0, 0);
    assert Whole(Second()) in Durable(s, 1);
  }

  lemma BothCommitted()
    ensures BatchEnd(Both(), 0, 0) == 2
  {
    assert Both()[..1] == [First()];
    assert [First()][..0] == [];
  }
}

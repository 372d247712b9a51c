/** What the archive promises over whole runs of both programs. */
module ArchiveTheorems {
  import opened ArchiveBytes
  import opened ArchiveModel
  import opened ArchiveInvariant
  import opened ArchiveFetched

  // ----- no committed message is ever lost

  ghost predicate IsCommitted(b: Broker, p: nat, o: nat) {
    && p < |b.base| && p < |b.committed| && p < |b.log|
    && b.base[p] <= o < b.committed[p] && o < |b.log[p]|
  }

  /** The message is whole in a plain hour file, in a .gz, or in a published Parquet day. */
  ghost predicate OnDisk(d: Disk, m: Message) {
    || (exists hour :: hour in d.plain && HoldsLine(Bytes(d.plain[hour]), m))
    || (exists hour :: hour in d.gz && HoldsLine(Bytes(d.gz[hour]), m))
    || (exists hour :: DayOf(hour) in d.parquet && hour in d.parquet[DayOf(hour)]
                       && HoldsRow(d.parquet[DayOf(hour)][hour], m))
  }

  /** The line written for m itself, and no other message's, is whole in this hour, which stands on disk as it was written. */
  ghost predicate HeldIn(s: State, m: Message, hour: nat) {
    && hour in s.h.ledger && Whole(m) in s.h.ledger[hour]
    && (|| (hour in s.disk.plain && s.disk.plain[hour] == s.h.ledger[hour])
        || (hour in s.disk.gz && s.disk.gz[hour] == s.h.ledger[hour])
        || (DayOf(hour) in s.disk.parquet && hour in s.disk.parquet[DayOf(hour)]
            && s.disk.parquet[DayOf(hour)][hour] == RowsOf(s.h.ledger[hour])))
  }

  ghost predicate Held(s: State, m: Message) {
    exists hour :: HeldIn(s, m, hour)
  }

  lemma LedgerIsHeld(s: State, hour: nat, m: Message)
    requires Inv(s) && hour in s.h.ledger && Whole(m) in s.h.ledger[hour]
    ensures HeldIn(s, m, hour)
  {
    if hour !in s.disk.plain && hour !in s.disk.gz {
      assert Published(s.clock, s.disk, s.h.ledger, DayOf(hour));
    }
  }

  lemma HeldIsOnDisk(s: State, hour: nat, m: Message)
    requires Inv(s) && HeldIn(s, m, hour)
    ensures OnDisk(s.disk, m)
  {
    if hour in s.disk.plain && s.disk.plain[hour] == s.h.ledger[hour] {
      WholeLineIsHeld(s.disk.plain[hour], m);
    } else if hour in s.disk.gz && s.disk.gz[hour] == s.h.ledger[hour] {
      WholeLineIsHeld(s.disk.gz[hour], m);
    } else {
      WholeLineHasRow(s.h.ledger[hour], m);
    }
  }

  lemma CommittedIsHeld(s: State, p: nat, o: nat)
    requires Inv(s) && IsCommitted(s.broker, p, o)
    ensures Held(s, MessageAt(s.broker, p, o)) && OnDisk(s.disk, MessageAt(s.broker, p, o))
  {
    var m := MessageAt(s.broker, p, o);
    assert InLedger(s.h.ledger, m);
    var hour :| hour in s.h.ledger && Whole(m) in s.h.ledger[hour];
    LedgerIsHeld(s, hour, m);
    HeldIsOnDisk(s, hour, m);
  }

  /**
   However the steps of both programs, crashes and restarts interleave, every message
   below a committed offset is whole on disk: its own line, not one that reads the same.
   */
  lemma CommittedNeverLost(s: State, schedule: seq<Step>, p: nat, o: nat)
    requires Initial(s) && Legal(s, schedule)
    requires IsCommitted(After(s, schedule).broker, p, o)
    ensures var t := After(s, schedule);
            Held(t, MessageAt(t.broker, p, o)) && OnDisk(t.disk, MessageAt(t.broker, p, o))
  {
    InvInitially(s);
    InvAlways(s, schedule);
    CommittedIsHeld(After(s, schedule), p, o);
  }

  /**
   In every reachable state, per partition: what is committed is archived, what is archived
   has been fetched, and what has been fetched was produced.
   */
  lemma CommitSafety(s: State, schedule: seq<Step>)
    requires Initial(s) && Legal(s, schedule)
    ensures
      var t := After(s, schedule);
      && |t.broker.base| == |t.broker.committed| == |t.h.reached| == |t.broker.log|
      && (t.w.Up? ==> |t.w.position| == |t.broker.log|)
      && forall p :: 0 <= p < |t.broker.log| ==>
           && t.broker.base[p] <= t.broker.committed[p] <= t.h.reached[p] <= |t.broker.log[p]|
           && (t.w.Up? ==> t.broker.committed[p] <= t.w.position[p] <= t.h.reached[p])
           && (forall o :: t.broker.base[p] <= o < t.broker.committed[p] ==>
                 InLedger(t.h.ledger, MessageAt(t.broker, p, o)))
    ensures
      var t := After(s, schedule);
      forall hour, f :: hour in t.h.ledger && f in t.h.ledger[hour] ==> WasFetched(t.broker, t.h.reached, f.msg)
  {
    FetchedAlways(s, schedule);
  }

  /** Nothing is in a plain file, a .gz or a Parquet day but what was written to its hour, from messages that were fetched. */
  lemma OnlyFetchedOnDisk(s: State, schedule: seq<Step>, hour: nat)
    requires Initial(s) && Legal(s, schedule)
    requires var d := After(s, schedule).disk;
             hour in d.plain || hour in d.gz || (DayOf(hour) in d.parquet && hour in d.parquet[DayOf(hour)])
    ensures
      var t := After(s, schedule);
      && hour in t.h.ledger
      && (forall f <- t.h.ledger[hour] :: WasFetched(t.broker, t.h.reached, f.msg))
      && (hour in t.disk.plain ==> t.disk.plain[hour] == t.h.ledger[hour])
      && (hour in t.disk.gz ==> t.disk.gz[hour] == t.h.ledger[hour])
      && (DayOf(hour) in t.disk.parquet && hour in t.disk.parquet[DayOf(hour)] ==>
            t.disk.parquet[DayOf(hour)][hour] == RowsOf(t.h.ledger[hour]))
  {
    FetchedAlways(s, schedule);
    var t := After(s, schedule);
    if DayOf(hour) in t.disk.parquet && hour in t.disk.parquet[DayOf(hour)] {
      assert Published(t.clock, t.disk, t.h.ledger, DayOf(hour));
    }
  }

  /** Only Commit moves a committed offset, forward, and only past lines that are archived. */
  lemma CommitStep(s: State, step: ConsumerStep)
    requires Inv(s) && ConsumerEnabled(s, step) && step.Commit?
    ensures
      var t := ConsumerApply(s, step);
      && |t.broker.committed| == |s.broker.committed|
      && (forall p :: 0 <= p < |s.broker.committed| ==> s.broker.committed[p] <= t.broker.committed[p])
      && (forall p, o :: 0 <= p < |s.broker.committed| && s.broker.committed[p] <= o < t.broker.committed[p] ==>
            o < |s.broker.log[p]| && InLedger(s.h.ledger, MessageAt(s.broker, p, o)))
  {
    var p := step.partition;
    BatchEndBounds(s.w.batch, p, s.broker.committed[p], s.w.position[p]);
    assert InFlight(s.w) == [];
  }

  lemma BrokerStep(s: State, step: Step)
    requires Enabled(s, step) && !(step.ByConsumer? && step.w.Commit?)
    ensures Apply(s, step).broker.base == s.broker.base
    ensures Apply(s, step).broker.committed == s.broker.committed
    ensures |Apply(s, step).broker.log| == |s.broker.log|
    ensures forall p, o :: 0 <= p < |s.broker.log| && 0 <= o < |s.broker.log[p]| ==>
              o < |Apply(s, step).broker.log[p]| && Apply(s, step).broker.log[p][o] == s.broker.log[p][o]
  {
  }

  lemma {:induction false} CommitsNeverGoBack(s: State, schedule: seq<Step>, p: nat, o: nat)
    requires Inv(s) && Legal(s, schedule) && IsCommitted(s.broker, p, o)
    ensures IsCommitted(After(s, schedule).broker, p, o)
    ensures MessageAt(After(s, schedule).broker, p, o) == MessageAt(s.broker, p, o)
  {
    if schedule != [] {
      var before := schedule[..|schedule|-1];
      CommitsNeverGoBack(s, before, p, o);
      InvAlways(s, before);
      var u, step := After(s, before), schedule[|schedule|-1];
      if step.ByConsumer? && step.w.Commit? {
        CommitStep(u, step.w);
      } else {
        BrokerStep(u, step);
      }
    }
  }

  // ----- what is written stays written

  /** Appends only: no hour ever loses a byte of what was written to it. */
  lemma AppendOnlyStep(s: State, step: Step)
    requires Inv(s) && Enabled(s, step)
    ensures forall hour <- s.h.ledger ::
              hour in Apply(s, step).h.ledger && Bytes(s.h.ledger[hour]) <= Bytes(Apply(s, step).h.ledger[hour])
  {
    if !step.ByConsumer? {
      OthersFrame(s, step);
    } else if step.w.Spill? {
      GrowAppends(s.disk.plain[s.w.curKey], s.w.buf[0], s.w.spilled);
    } else if step.w.OpenFile? {
      NewHourIsNew(s, step.w);
    } else {
      LedgerFrame(s, step.w);
    }
  }

  lemma GrowAppends(c: Content, m: Message, k: nat)
    requires k > 0 ==> LastIs(c, Frag(m, k))
    requires k <= |m.value|
    ensures Bytes(Grow(c, m, k)) == Bytes(c) + [LineOf(m)[k]]
  {
    var g := Grow(c, m, k);
    var b := if k == 0 then c else c[..|c|-1];
    assert g[..|g|-1] == b;
    assert FragBytes(Frag(m, k + 1)) == LineOf(m)[..k] + [LineOf(m)[k]];
    if k > 0 {
      assert Bytes(c) == Bytes(b) + LineOf(m)[..k];
    }
  }

  lemma {:induction false} AppendOnly(s: State, schedule: seq<Step>, hour: nat)
    requires Inv(s) && Legal(s, schedule) && hour in s.h.ledger
    ensures hour in After(s, schedule).h.ledger
    ensures Bytes(s.h.ledger[hour]) <= Bytes(After(s, schedule).h.ledger[hour])
  {
    if schedule != [] {
      var before := schedule[..|schedule|-1];
      AppendOnly(s, before, hour);
      InvAlways(s, before);
      AppendOnlyStep(After(s, before), schedule[|schedule|-1]);
    }
  }

  // ----- duplication

  /** How often the message's line was written whole, over the hours below n. */
  function Occurrences(ledger: map<nat, Content>, m: Message, n: nat): nat {
    if n == 0 then 0
    else Occurrences(ledger, m, n - 1) + (if n - 1 in ledger then multiset(ledger[n-1])[Whole(m)] else 0)
  }

  function Written(s: State, m: Message): nat {
    Occurrences(s.h.ledger, m, s.h.top + 1)
  }

  /** Written or on its way to be. */
  function Copies(s: State, m: Message): nat {
    Written(s, m) + multiset(InFlight(s.w))[m]
  }

  /** One copy for each ended process, and one more once this process has fetched the message. */
  function Budget(s: State, m: Message): nat {
    s.h.deaths
    + (if s.w.Up? && m.partition < |s.w.position| && m.offset < s.w.position[m.partition] then 1 else 0)
  }

  lemma {:induction false} OccurrencesAt(ledger: map<nat, Content>, hour: nat, c: Content, m: Message, n: nat)
    requires hour < n
    ensures Occurrences(ledger[hour := c], m, n) + (if hour in ledger then multiset(ledger[hour])[Whole(m)] else 0)
            == Occurrences(ledger, m, n) + multiset(c)[Whole(m)]
  {
    if hour < n - 1 {
      OccurrencesAt(ledger, hour, c, m, n - 1);
    } else {
      OccurrencesBelow(ledger, hour, c, m, n - 1);
    }
  }

  lemma {:induction false} OccurrencesBelow(ledger: map<nat, Content>, hour: nat, c: Content, m: Message, n: nat)
    requires n <= hour
    ensures Occurrences(ledger[hour := c], m, n) == Occurrences(ledger, m, n)
  {
    if n > 0 {
      OccurrencesBelow(ledger, hour, c, m, n - 1);
    }
  }

  lemma {:induction false} OccurrencesBeyond(ledger: map<nat, Content>, m: Message, n: nat, n': nat)
    requires n <= n' && forall hour <- ledger :: hour < n
    ensures Occurrences(ledger, m, n') == Occurrences(ledger, m, n)
  {
    if n < n' {
      OccurrencesBeyond(ledger, m, n, n' - 1);
    }
  }

  /** Growing the file by one byte completes at most one line. */
  lemma GrowCounts(c: Content, m: Message, k: nat, x: Message)
    requires k > 0 ==> LastIs(c, Frag(m, k))
    requires k <= |m.value|
    ensures multiset(Grow(c, m, k))[Whole(x)]
            == multiset(c)[Whole(x)] + (if k == |m.value| && x == m then 1 else 0)
  {
    if k > 0 {
      var b := c[..|c|-1];
      assert c == b + [Frag(m, k)];
    }
  }

  /** The line this step writes whole, if it does. */
  ghost predicate Completes(s: State, step: Step, m: Message) {
    && Enabled(s, step) && step.ByConsumer? && step.w.Spill?
    && s.w.spilled == |s.w.buf[0].value| && s.w.buf[0] == m
  }

  /** Neither program outside the consumer's thread touches its registers, the ledger or the plain files. */
  lemma OthersFrame(s: State, step: Step)
    requires Enabled(s, step) && !step.ByConsumer?
    ensures Apply(s, step).w == s.w && Apply(s, step).h == s.h
    ensures Apply(s, step).disk.plain == s.disk.plain && Apply(s, step).disk.tmp == s.disk.tmp
    ensures s.clock <= Apply(s, step).clock
  {
  }

  lemma LedgerFrame(s: State, step: ConsumerStep)
    requires ConsumerEnabled(s, step) && !step.Spill? && !step.OpenFile?
    ensures ConsumerApply(s, step).h.ledger == s.h.ledger
    ensures !step.Boot? ==> ConsumerApply(s, step).h.top == s.h.top
  {
  }

  lemma GrownHour(ledger: map<nat, Content>, hour: nat, head: Message, k: nat, m: Message, n: nat)
    requires hour in ledger && hour < n && k <= |head.value|
    requires k > 0 ==> LastIs(ledger[hour], Frag(head, k))
    ensures Occurrences(ledger[hour := Grow(ledger[hour], head, k)], m, n)
            == Occurrences(ledger, m, n) + (if k == |head.value| && m == head then 1 else 0)
  {
    GrowCounts(ledger[hour], head, k, m);
    OccurrencesAt(ledger, hour, Grow(ledger[hour], head, k), m, n);
  }

  /** What one spilled byte does to the ledger. */
  lemma SpillShape(s: State)
    requires Inv(s) && ConsumerEnabled(s, Spill)
    ensures
      var t := ConsumerApply(s, Spill);
      && s.w.curKey in s.h.ledger && s.h.ledger[s.w.curKey] == s.disk.plain[s.w.curKey]
      && s.w.curKey <= s.h.top && s.w.spilled <= |s.w.buf[0].value|
      && t.h == s.h.(ledger := s.h.ledger[s.w.curKey := Grow(s.disk.plain[s.w.curKey], s.w.buf[0], s.w.spilled)])
  {
  }

  lemma WrittenBySpill(s: State, m: Message)
    requires Inv(s) && ConsumerEnabled(s, Spill)
    ensures Written(ConsumerApply(s, Spill), m)
            == Written(s, m) + (if Completes(s, ByConsumer(Spill), m) then 1 else 0)
  {
    SpillShape(s);
    GrownHour(s.h.ledger, s.w.curKey, s.w.buf[0], s.w.spilled, m, s.h.top + 1);
  }

  lemma WrittenByOpenFile(s: State, m: Message)
    requires Inv(s) && ConsumerEnabled(s, OpenFile)
    ensures Written(ConsumerApply(s, OpenFile), m) == Written(s, m)
  {
    var t := ConsumerApply(s, OpenFile);
    NewHourIsNew(s, OpenFile);
    OccurrencesBeyond(s.h.ledger, m, s.h.top + 1, t.h.top + 1);
    if t.h.ledger != s.h.ledger {
      OccurrencesAt(s.h.ledger, t.h.top, [], m, t.h.top + 1);
    }
  }

  lemma BootMovesTop(s: State)
    requires Inv(s) && ConsumerEnabled(s, Boot)
    ensures s.h.top <= ConsumerApply(s, Boot).h.top
  {
  }

  lemma WrittenStep(s: State, step: Step, m: Message)
    requires Inv(s) && Enabled(s, step)
    ensures Written(Apply(s, step), m) == Written(s, m) + (if Completes(s, step, m) then 1 else 0)
  {
    if !step.ByConsumer? {
      OthersFrame(s, step);
    } else if step.w.Spill? {
      WrittenBySpill(s, m);
    } else if step.w.OpenFile? {
      WrittenByOpenFile(s, m);
    } else {
      LedgerFrame(s, step.w);
      if step.w.Boot? {
        BootMovesTop(s);
        OccurrencesBeyond(s.h.ledger, m, s.h.top + 1, Apply(s, step).h.top + 1);
      }
    }
  }

  /** No step but a fetch adds to what is in flight; a completed line leaves it. */
  lemma FlightOfConsumer(s: State, step: ConsumerStep)
    requires Inv(s) && ConsumerEnabled(s, step)
    requires !step.Fetch? && !step.Boot? && !step.Exit? && !step.Spill?
    ensures InFlight(ConsumerApply(s, step).w) == InFlight(s.w)
  {
    if step.AppendLine? {
      FlightOfAppend(s);
    } else if step.BatchDone? {
      FlightOfDone(s);
    } else {
      FlightOfRest(s, step);
    }
  }

  lemma FlightOfAppend(s: State)
    requires ConsumerEnabled(s, AppendLine) && BufferOk(s.disk, s.w)
    ensures InFlight(ConsumerApply(s, AppendLine).w) == InFlight(s.w)
  {
    assert s.w.batch[s.w.written..] == [s.w.batch[s.w.written]] + s.w.batch[s.w.written + 1..];
  }

  lemma FlightOfDone(s: State)
    requires Inv(s) && ConsumerEnabled(s, BatchDone)
    ensures InFlight(ConsumerApply(s, BatchDone).w) == InFlight(s.w)
  {
  }

  lemma FlightOfRest(s: State, step: ConsumerStep)
    requires ConsumerEnabled(s, step) && BufferOk(s.disk, s.w)
    requires !step.Fetch? && !step.Boot? && !step.Exit? && !step.Spill? && !step.AppendLine? && !step.BatchDone?
    ensures InFlight(ConsumerApply(s, step).w) == InFlight(s.w)
  {
  }

  lemma FlightOfFetch(s: State, step: ConsumerStep)
    requires Inv(s) && ConsumerEnabled(s, step) && step.Fetch?
    ensures InFlight(ConsumerApply(s, step).w)
            == InFlight(s.w) + [MessageAt(s.broker, step.partition, s.w.position[step.partition])]
  {
  }

  lemma FlightOfSpill(s: State)
    requires Inv(s) && ConsumerEnabled(s, Spill)
    ensures var t := ConsumerApply(s, Spill);
            if s.w.spilled == |s.w.buf[0].value| then InFlight(s.w) == [s.w.buf[0]] + InFlight(t.w)
            else InFlight(t.w) == InFlight(s.w)
  {
    var t := ConsumerApply(s, Spill);
    if s.w.spilled == |s.w.buf[0].value| {
      assert t.w == s.w.(buf := s.w.buf[1..], spilled := 0);
      HeadFirst(s.w.buf, s.w.batch[s.w.written..]);
    } else {
      assert t.w == s.w.(spilled := s.w.spilled + 1);
    }
  }

  lemma HeadFirst(buf: seq<Message>, rest: seq<Message>)
    requires buf != []
    ensures buf + rest == [buf[0]] + (buf[1..] + rest)
  {
  }

  lemma FlightStep(s: State, step: Step)
    requires Inv(s) && Enabled(s, step)
    ensures
      var t := Apply(s, step);
      if step.ByConsumer? && step.w.Fetch? then
        InFlight(t.w) == InFlight(s.w) + [MessageAt(s.broker, step.w.partition, s.w.position[step.w.partition])]
      else if step.ByConsumer? && (step.w.Boot? || step.w.Exit?) then InFlight(t.w) == []
      else if step.ByConsumer? && step.w.Spill? && s.w.spilled == |s.w.buf[0].value| then
        InFlight(s.w) == [s.w.buf[0]] + InFlight(t.w)
      else InFlight(t.w) == InFlight(s.w)
  {
    if !step.ByConsumer? {
      OthersFrame(s, step);
    } else if step.w.Spill? {
      FlightOfSpill(s);
    } else if step.w.Fetch? {
      FlightOfFetch(s, step.w);
    } else if !step.w.Boot? && !step.w.Exit? {
      FlightOfConsumer(s, step.w);
    }
  }

  lemma BudgetFrame(s: State, step: ConsumerStep)
    requires Inv(s) && ConsumerEnabled(s, step) && !step.Boot? && !step.Exit? && !step.Fetch?
    ensures forall m :: Budget(ConsumerApply(s, step), m) == Budget(s, m)
  {
  }

  /** Boot and Exit empty what is in flight; an Exit adds to the budget what it takes from it. */
  lemma BudgetOfRestart(s: State, step: ConsumerStep, m: Message)
    requires Inv(s) && ConsumerEnabled(s, step) && (step.Boot? || step.Exit?) && Copies(s, m) <= Budget(s, m)
    ensures Copies(ConsumerApply(s, step), m) <= Budget(ConsumerApply(s, step), m)
  {
    WrittenStep(s, ByConsumer(step), m);
    FlightStep(s, ByConsumer(step));
  }

  lemma BudgetOfFetch(s: State, step: ConsumerStep, m: Message)
    requires Inv(s) && ConsumerEnabled(s, step) && step.Fetch? && Copies(s, m) <= Budget(s, m)
    ensures Copies(ConsumerApply(s, step), m) <= Budget(ConsumerApply(s, step), m)
  {
    FetchCopies(s, step, m);
    FetchRaises(s, step.partition, m);
  }

  lemma FetchCopies(s: State, step: ConsumerStep, m: Message)
    requires Inv(s) && ConsumerEnabled(s, step) && step.Fetch?
    ensures Copies(ConsumerApply(s, step), m)
            == Copies(s, m) + (if m == MessageAt(s.broker, step.partition, s.w.position[step.partition]) then 1 else 0)
  {
    WrittenStep(s, ByConsumer(step), m);
    FlightOfFetch(s, step);
  }

  /** One copy more is allowed for the message fetched, none fewer for any other. */
  lemma FetchRaises(s: State, p: nat, m: Message)
    requires ConsumerEnabled(s, Fetch(p))
    ensures Budget(ConsumerApply(s, Fetch(p)), m)
            >= Budget(s, m) + (if m == MessageAt(s.broker, p, s.w.position[p]) then 1 else 0)
  {
    var t := ConsumerApply(s, Fetch(p));
    assert t.w.position == s.w.position[p := s.w.position[p] + 1];
  }

  lemma CopiesFrame(s: State, step: Step, m: Message)
    requires Inv(s) && Enabled(s, step)
    requires !step.ByConsumer? || (!step.w.Boot? && !step.w.Exit? && !step.w.Fetch?)
    ensures Copies(Apply(s, step), m) == Copies(s, m)
  {
    WrittenStep(s, step, m);
    FlightStep(s, step);
  }

  lemma BudgetStep(s: State, step: Step, m: Message)
    requires Inv(s) && Enabled(s, step) && Copies(s, m) <= Budget(s, m)
    ensures Copies(Apply(s, step), m) <= Budget(Apply(s, step), m)
  {
    if !step.ByConsumer? {
      CopiesFrame(s, step, m);
      OthersFrame(s, step);
    } else if step.w.Fetch? {
      BudgetOfFetch(s, step.w, m);
    } else if step.w.Boot? || step.w.Exit? {
      BudgetOfRestart(s, step.w, m);
    } else {
      CopiesFrame(s, step, m);
      BudgetFrame(s, step.w);
    }
  }

  /** A message is written at most once per process end, plus once. */
  lemma {:induction false} BoundedDuplication(s: State, schedule: seq<Step>, m: Message)
    requires Initial(s) && Legal(s, schedule)
    ensures Written(After(s, schedule), m) <= Copies(After(s, schedule), m) <= Budget(After(s, schedule), m)
    ensures Written(After(s, schedule), m) <= 1 + After(s, schedule).h.deaths
  {
    InvInitially(s);
    if schedule == [] {
      assert Occurrences(s.h.ledger, m, 0) == 0;
    } else {
      var before := schedule[..|schedule|-1];
      BoundedDuplication(s, before, m);
      InvAlways(s, before);
      BudgetStep(After(s, before), schedule[|schedule|-1], m);
    }
  }

  lemma InFlightIsUncommitted(s: State, m: Message)
    requires Inv(s) && s.w.Up? && s.w.buf != [] && s.w.buf[0] == m
    ensures !IsCommitted(s.broker, m.partition, m.offset)
  {
    assert m in InFlight(s.w);
  }

  /** Once committed, a message is never written again: not after a crash, not after a rotation. */
  lemma {:induction false} CommittedNeverRewritten(s: State, schedule: seq<Step>, p: nat, o: nat)
    requires Inv(s) && Legal(s, schedule) && IsCommitted(s.broker, p, o)
    ensures Written(After(s, schedule), MessageAt(s.broker, p, o)) == Written(s, MessageAt(s.broker, p, o))
  {
    if schedule != [] {
      var before := schedule[..|schedule|-1];
      CommittedNeverRewritten(s, before, p, o);
      CommitsNeverGoBack(s, before, p, o);
      InvAlways(s, before);
      var u, step := After(s, before), schedule[|schedule|-1];
      var m := MessageAt(s.broker, p, o);
      WrittenStep(u, step, m);
      if Completes(u, step, m) {
        InFlightIsUncommitted(u, m);
        assert false;
      }
    }
  }

  // ----- a day that passed the gates

  lemma SettledLedger(s: State, step: Step, day: nat)
    requires Inv(s) && Enabled(s, step) && Settled(s.clock, s.disk, day)
    ensures
      var t := Apply(s, step);
      && (forall hour | DayOf(hour) == day :: hour in t.h.ledger <==> hour in s.h.ledger)
      && (forall hour <- s.h.ledger | DayOf(hour) == day :: t.h.ledger[hour] == s.h.ledger[hour])
  {
    if !step.ByConsumer? {
      OthersFrame(s, step);
    } else if step.w.OpenFile? {
      NewHourIsNew(s, step.w);
    } else if !step.w.Spill? {
      LedgerFrame(s, step.w);
    }
  }

  lemma SettledByConsumer(s: State, step: ConsumerStep, day: nat)
    requires Inv(s) && ConsumerEnabled(s, step) && Settled(s.clock, s.disk, day)
    ensures
      var t := ConsumerApply(s, step);
      && Settled(t.clock, t.disk, day)
      && t.disk.parquet == s.disk.parquet
      && (forall hour | DayOf(hour) == day :: hour in t.disk.gz <==> hour in s.disk.gz)
      && (forall hour <- s.disk.gz | DayOf(hour) == day :: t.disk.gz[hour] == s.disk.gz[hour])
  {
    if step.OpenFile? {
      NewHourIsNew(s, step);
    }
  }

  lemma SettledByOthers(s: State, step: Step, day: nat)
    requires Inv(s) && Enabled(s, step) && !step.ByConsumer? && Settled(s.clock, s.disk, day)
    ensures
      var t := Apply(s, step);
      && Settled(t.clock, t.disk, day)
      && (forall hour <- t.disk.gz | DayOf(hour) == day :: hour in s.disk.gz && t.disk.gz[hour] == s.disk.gz[hour])
      && (day in s.disk.parquet ==> day in t.disk.parquet && t.disk.parquet[day] == s.disk.parquet[day])
  {
    OthersFrame(s, step);
    if step.ByCompactor? {
      CompactorTouches(s, step.c);
    }
  }

  /** The compactor only takes .gz files away, and only adds days to Parquet. */
  lemma CompactorTouches(s: State, step: CompactorStep)
    requires Inv(s) && CompactorEnabled(s, step)
    ensures
      var t := CompactorApply(s, step);
      && (forall hour <- t.disk.gz :: hour in s.disk.gz && t.disk.gz[hour] == s.disk.gz[hour])
      && (forall day <- s.disk.parquet :: day in t.disk.parquet && t.disk.parquet[day] == s.disk.parquet[day])
  {
    if step.Publish? {
      assert s.c.day !in s.disk.parquet;
    }
  }

  /** No step of either program adds to, changes or reopens a settled day's hours. */
  lemma SettledStep(s: State, step: Step, day: nat)
    requires Inv(s) && Enabled(s, step) && Settled(s.clock, s.disk, day)
    ensures
      var t := Apply(s, step);
      && Settled(t.clock, t.disk, day)
      && (forall hour | DayOf(hour) == day :: hour in t.h.ledger <==> hour in s.h.ledger)
      && (forall hour <- s.h.ledger | DayOf(hour) == day :: t.h.ledger[hour] == s.h.ledger[hour])
      && (forall hour <- t.disk.gz | DayOf(hour) == day :: hour in s.disk.gz && t.disk.gz[hour] == s.disk.gz[hour])
      && (day in s.disk.parquet ==> day in t.disk.parquet && t.disk.parquet[day] == s.disk.parquet[day])
  {
    SettledLedger(s, step, day);
    if step.ByConsumer? {
      SettledByConsumer(s, step.w, day);
    } else {
      SettledByOthers(s, step, day);
    }
  }

  lemma {:induction false} SettledDayIsFrozen(s: State, schedule: seq<Step>, day: nat)
    requires Inv(s) && Legal(s, schedule) && Settled(s.clock, s.disk, day)
    ensures
      var t := After(s, schedule);
      && Settled(t.clock, t.disk, day)
      && (forall hour | DayOf(hour) == day :: hour in t.h.ledger <==> hour in s.h.ledger)
      && (forall hour <- s.h.ledger | DayOf(hour) == day :: t.h.ledger[hour] == s.h.ledger[hour])
      && (forall hour <- t.disk.gz | DayOf(hour) == day :: hour in s.disk.gz && t.disk.gz[hour] == s.disk.gz[hour])
      && (day in s.disk.parquet ==> day in t.disk.parquet && t.disk.parquet[day] == s.disk.parquet[day])
  {
    if schedule != [] {
      var before := schedule[..|schedule|-1];
      SettledDayIsFrozen(s, before, day);
      InvAlways(s, before);
      SettledStep(After(s, before), schedule[|schedule|-1], day);
    }
  }

  /** Every day the compactor has let through its gates, or published, is settled. */
  lemma GatesSettle(s: State, schedule: seq<Step>, day: nat)
    requires Initial(s) && Legal(s, schedule)
    ensures
      var t := After(s, schedule);
      && (t.c.Gating? && day in t.c.eligible ==> Settled(t.clock, t.disk, day))
      && (t.c.Compacting? && day in t.c.todo ==> Settled(t.clock, t.disk, day))
      && (t.c.Folding? && (day in t.c.todo || day == t.c.day) ==> Settled(t.clock, t.disk, day))
      && (day in t.disk.parquet ==> Settled(t.clock, t.disk, day))
  {
    InvInitially(s);
    InvAlways(s, schedule);
  }

  /** date=D exists only with exactly the hours of D ever written, unlinked or not, and exactly the rows of each. */
  lemma PublishedIsExact(s: State, schedule: seq<Step>, day: nat)
    requires Initial(s) && Legal(s, schedule) && day in After(s, schedule).disk.parquet
    ensures
      var t := After(s, schedule);
      && t.disk.parquet[day].Keys == HoursOfDay(t.h.ledger.Keys, day)
      && forall hour <- t.disk.parquet[day] ::
           && t.disk.parquet[day][hour] == RowsOf(t.h.ledger[hour])
           && WellFormed(t.h.ledger[hour])
           && t.disk.parquet[day][hour] == multiset(GluedRows(t.h.ledger[hour]))
  {
    InvInitially(s);
    InvAlways(s, schedule);
    var t := After(s, schedule);
    assert Published(t.clock, t.disk, t.h.ledger, day);
    forall hour | hour in t.disk.parquet[day]
      ensures t.disk.parquet[day][hour] == RowsOf(t.h.ledger[hour]) == multiset(GluedRows(t.h.ledger[hour]))
    {
      RowsAreGluedRows(t.h.ledger[hour]);
    }
  }

  /** Wherever the unlink loop is interrupted, an hour gone from the raw tier still has all its rows. */
  lemma DeletedHoursAreFolded(s: State, schedule: seq<Step>, hour: nat)
    requires Initial(s) && Legal(s, schedule)
    requires hour in After(s, schedule).h.ledger
    requires hour !in After(s, schedule).disk.plain && hour !in After(s, schedule).disk.gz
    ensures
      var t := After(s, schedule);
      && DayOf(hour) in t.disk.parquet && hour in t.disk.parquet[DayOf(hour)]
      && t.disk.parquet[DayOf(hour)][hour] == RowsOf(t.h.ledger[hour])
  {
    InvInitially(s);
    InvAlways(s, schedule);
    PublishedIsExact(s, schedule, DayOf(hour));
  }

  /** The rows of an hour that are no longer in the raw tier. */
  function DeletedIn(ledger: map<nat, Content>, gz: map<nat, Content>, hour: nat): nat {
    if hour in ledger && hour !in gz then |RowsOf(ledger[hour])| else 0
  }

  function DeletedRows(ledger: map<nat, Content>, gz: map<nat, Content>, day: nat): nat -> nat {
    (i: nat) => DeletedIn(ledger, gz, 24 * day + i)
  }

  lemma DeletedRowsAt(ledger: map<nat, Content>, gz: map<nat, Content>, day: nat, i: nat)
    ensures DeletedRows(ledger, gz, day)(i) == DeletedIn(ledger, gz, 24 * day + i)
  {
  }

  lemma {:induction false} TotalsAdd(a: nat -> nat, b: nat -> nat, both: nat -> nat, n: nat)
    requires forall i: nat :: i < n ==> both(i) == a(i) + b(i)
    ensures Total(both, n) == Total(a, n) + Total(b, n)
  {
    if n > 0 {
      TotalsAdd(a, b, both, n - 1);
    }
  }

  lemma {:induction false} TotalZero(count: nat -> nat, n: nat)
    ensures Total(count, n) == 0 <==> forall i: nat :: i < n ==> count(i) == 0
  {
    if n > 0 {
      TotalZero(count, n - 1);
    }
  }

  /** Each row of a folded hour is still in the raw tier, or has been deleted from it. */
  lemma FoldedOrDeletedIn(s: State, day: nat, hour: nat)
    requires Inv(s) && day in s.disk.parquet && DayOf(hour) == day
    ensures RowsIn(s.disk.parquet[day], hour) == LinesIn(s.disk.gz, hour) + DeletedIn(s.h.ledger, s.disk.gz, hour)
  {
    assert Published(s.clock, s.disk, s.h.ledger, day);
  }

  lemma FoldedOrDeleted(s: State, day: nat, i: nat)
    requires Inv(s) && day in s.disk.parquet && i < 24
    ensures ParquetRows(s.disk.parquet[day], day)(i)
            == GzRows(s.disk.gz, day)(i) + DeletedRows(s.h.ledger, s.disk.gz, day)(i)
  {
    assert DayOf(24 * day + i) == day;
    FoldedOrDeletedIn(s, day, 24 * day + i);
    ParquetRowsAt(s.disk.parquet[day], day, i);
    GzRowsAt(s.disk.gz, day, i);
    DeletedRowsAt(s.h.ledger, s.disk.gz, day, i);
  }

  lemma CountsDifferByDeleted(s: State, day: nat)
    requires Inv(s) && day in s.disk.parquet
    ensures Total(ParquetRows(s.disk.parquet[day], day), 24)
            == Total(GzRows(s.disk.gz, day), 24) + Total(DeletedRows(s.h.ledger, s.disk.gz, day), 24)
  {
    forall i: nat | i < 24
      ensures ParquetRows(s.disk.parquet[day], day)(i)
              == GzRows(s.disk.gz, day)(i) + DeletedRows(s.h.ledger, s.disk.gz, day)(i)
    {
      FoldedOrDeleted(s, day, i);
    }
    TotalsAdd(GzRows(s.disk.gz, day), DeletedRows(s.h.ledger, s.disk.gz, day),
              ParquetRows(s.disk.parquet[day], day), 24);
  }

  /**
   Verification compares counts, so it passes exactly while no row-holding hour
   has been unlinked: a crash inside the unlink loop makes it fail from then on.
   */
  lemma VerificationPassesIffNothingDeleted(s: State, schedule: seq<Step>, day: nat)
    requires Initial(s) && Legal(s, schedule) && day in After(s, schedule).disk.parquet
    ensures
      var t := After(s, schedule);
      CountsAgree(t.disk, day) <==>
        forall i: nat :: i < 24 ==> DeletedRows(t.h.ledger, t.disk.gz, day)(i) == 0
  {
    InvInitially(s);
    InvAlways(s, schedule);
    CountsDifferByDeleted(After(s, schedule), day);
    TotalZero(DeletedRows(After(s, schedule).h.ledger, After(s, schedule).disk.gz, day), 24);
  }

  // ----- finalisation

  /** What a reader of the raw tier takes for an hour: its .gz if there is one, else its plain file. */
  function HourContent(d: Disk, hour: nat): Content
    requires hour in d.plain || hour in d.gz
  {
    if hour in d.gz then d.gz[hour] else d.plain[hour]
  }

  /** The .gz name never holds partial content, and stands beside the plain file only with the same content. */
  lemma GzIsComplete(s: State, schedule: seq<Step>, hour: nat)
    requires Initial(s) && Legal(s, schedule) && hour in After(s, schedule).disk.gz
    ensures
      var t := After(s, schedule);
      && hour in t.h.ledger && t.disk.gz[hour] == t.h.ledger[hour]
      && (hour in t.disk.plain ==> t.disk.plain[hour] == t.disk.gz[hour])
      && (t.w.Up? ==> hour != t.w.curKey)
  {
    InvInitially(s);
    InvAlways(s, schedule);
  }

  /** No step inside finalizeStale, nor a crash there, changes any hour's content or makes an hour vanish. */
  lemma FinalizationKeepsContent(s: State, step: ConsumerStep, hour: nat)
    requires Inv(s) && ConsumerEnabled(s, step)
    requires step.Glob? || step.GzStat? || step.CreateTmp? || step.GzChunk? || step.RenameTmp?
             || step.RemovePlain? || step.Finalized? || step.AbortTmp? || step.Unwind? || step.Exit? || step.Boot?
    requires hour in s.disk.plain || hour in s.disk.gz
    ensures
      var t := ConsumerApply(s, step);
      (hour in t.disk.plain || hour in t.disk.gz) && HourContent(t.disk, hour) == HourContent(s.disk, hour)
  {
  }

  /** One finalizeStale that runs to its end leaves no plain file but the current hour's. */
  lemma FinalizationConverges(s: State, schedule: seq<Step>)
    requires Initial(s) && Legal(s, schedule) && ConsumerEnabled(After(s, schedule), Finalized)
    ensures After(s, schedule).disk.plain.Keys <= {After(s, schedule).w.curKey}
  {
    InvInitially(s);
    InvAlways(s, schedule);
  }

  predicate IsFinalizing(pc: Pc) {
    pc.Scan? || pc.Finalize? || pc.GzOpen? || pc.GzCopy? || pc.GzRemove?
  }

  /** What is left of a finalizeStale that nothing interrupts. */
  function Work(s: State): nat
    requires s.w.Up?
  {
    match s.w.pc
    case Scan(_) => 5 * |s.disk.plain| + 6
    case Finalize(todo, _) => 5 * |todo| + 1
    case GzOpen(hour, todo, _) => 5 * |todo| + 5
    case GzCopy(hour, todo, _) =>
      5 * |todo| + (if hour in s.disk.plain && hour in s.disk.tmp && s.disk.tmp[hour] == s.disk.plain[hour] then 3 else 4)
    case GzRemove(hour, todo, _) => 5 * |todo| + 2
    case _ => 0
  }

  /** The steps of finalizeStale that succeed. */
  predicate Finalizes(step: Step) {
    && step.ByConsumer?
    && (step.w.Glob? || step.w.GzStat? || step.w.CreateTmp? || step.w.GzChunk? || step.w.RenameTmp?
        || step.w.RemovePlain? || step.w.Finalized?)
  }

  lemma {:induction false} LegalCons(s: State, step: Step, rest: seq<Step>)
    requires Enabled(s, step) && Legal(Apply(s, step), rest)
    ensures Legal(s, [step] + rest) && After(s, [step] + rest) == After(Apply(s, step), rest)
  {
    var all := [step] + rest;
    if rest == [] {
      assert all[..0] == [];
    } else {
      assert all[..|all|-1] == [step] + rest[..|rest|-1];
      LegalCons(s, step, rest[..|rest|-1]);
    }
  }

  lemma RestOfPlain(plain: map<nat, Content>, curKey: nat)
    ensures |plain.Keys - {curKey}| <= |plain|
  {
    assert plain.Keys - {curKey} <= plain.Keys;
    SubsetSize(plain.Keys - {curKey}, plain.Keys);
  }

  lemma {:induction false} SubsetSize(a: set<nat>, b: set<nat>)
    requires a <= b
    ensures |a| <= |b|
  {
    if x :| x in a {
      SubsetSize(a - {x}, b - {x});
    }
  }

  /** The step is one of finalizeStale's, possible now, and takes it nearer to its end. */
  ghost predicate MovesOn(s: State, step: ConsumerStep)
    requires s.w.Up?
  {
    && ConsumerEnabled(s, step) && Finalizes(ByConsumer(step))
    && var t := ConsumerApply(s, step);
       && t.w.Up? && t.w == s.w.(pc := t.w.pc)
       && (if IsFinalizing(t.w.pc) then Work(t) < Work(s)
           else step == Finalized && (t.w.pc.Fetching? || t.w.pc.Appending?))
  }

  lemma ScanMoves(s: State)
    requires s.w.Up? && s.w.pc.Scan?
    ensures MovesOn(s, Glob)
  {
    RestOfPlain(s.disk.plain, s.w.curKey);
  }

  lemma StatMoves(s: State, hour: nat)
    requires s.w.Up? && s.w.pc.Finalize? && hour in s.w.pc.todo
    ensures MovesOn(s, GzStat(hour))
  {
  }

  lemma EndMoves(s: State)
    requires s.w.Up? && s.w.pc.Finalize? && s.w.pc.todo == {}
    ensures MovesOn(s, Finalized)
  {
  }

  lemma CreateMoves(s: State)
    requires s.w.Up? && s.w.pc.GzOpen?
    ensures MovesOn(s, CreateTmp)
  {
  }

  lemma ChunkMoves(s: State)
    requires s.w.Up? && s.w.pc.GzCopy? && s.w.pc.hour in s.disk.plain && s.w.pc.hour in s.disk.tmp
    requires s.disk.tmp[s.w.pc.hour] != s.disk.plain[s.w.pc.hour]
    ensures MovesOn(s, GzChunk(|s.disk.plain[s.w.pc.hour]|))
  {
    var plain := s.disk.plain[s.w.pc.hour];
    assert plain[..|plain|] == plain;
  }

  lemma RenameMoves(s: State)
    requires s.w.Up? && s.w.pc.GzCopy? && s.w.pc.hour in s.disk.plain && s.w.pc.hour in s.disk.tmp
    requires s.disk.tmp[s.w.pc.hour] == s.disk.plain[s.w.pc.hour]
    ensures MovesOn(s, RenameTmp)
  {
  }

  lemma RemoveMoves(s: State)
    requires s.w.Up? && s.w.pc.GzRemove?
    ensures MovesOn(s, RemovePlain)
  {
    var t := ConsumerApply(s, RemovePlain);
    assert t.w == s.w.(pc := Finalize(s.w.pc.todo, s.w.pc.next));
  }

  lemma CopyHasBoth(s: State)
    requires Inv(s) && s.w.Up? && s.w.pc.GzCopy?
    ensures s.w.pc.hour in s.disk.plain && s.w.pc.hour in s.disk.tmp
  {
  }

  /** Until it is done, finalizeStale always has such a step. */
  lemma FinalizationMoves(s: State) returns (step: ConsumerStep)
    requires Inv(s) && s.w.Up? && IsFinalizing(s.w.pc)
    ensures MovesOn(s, step)
  {
    if s.w.pc.Scan? {
      step := Glob;
      ScanMoves(s);
    } else if s.w.pc.Finalize? {
      step := StatOrEnd(s);
    } else if s.w.pc.GzOpen? {
      step := CreateTmp;
      CreateMoves(s);
    } else if s.w.pc.GzCopy? {
      CopyHasBoth(s);
      step := ChunkOrRename(s);
    } else {
      step := RemovePlain;
      RemoveMoves(s);
    }
  }

  lemma StatOrEnd(s: State) returns (step: ConsumerStep)
    requires s.w.Up? && s.w.pc.Finalize?
    ensures MovesOn(s, step)
  {
    if hour :| hour in s.w.pc.todo {
      step := GzStat(hour);
      StatMoves(s, hour);
    } else {
      step := Finalized;
      EndMoves(s);
    }
  }

  lemma ChunkOrRename(s: State) returns (step: ConsumerStep)
    requires s.w.Up? && s.w.pc.GzCopy? && s.w.pc.hour in s.disk.plain && s.w.pc.hour in s.disk.tmp
    ensures MovesOn(s, step)
  {
    if s.disk.tmp[s.w.pc.hour] == s.disk.plain[s.w.pc.hour] {
      step := RenameTmp;
      RenameMoves(s);
    } else {
      step := GzChunk(|s.disk.plain[s.w.pc.hour]|);
      ChunkMoves(s);
    }
  }

  ghost predicate Completed(s: State, t: State) {
    && s.w.Up? && t.w.Up? && t.w == s.w.(pc := t.w.pc) && (t.w.pc.Fetching? || t.w.pc.Appending?)
    && t.disk.plain.Keys <= {t.w.curKey}
  }

  lemma LastMoveCompletes(s: State)
    requires Inv(s) && ConsumerEnabled(s, Finalized)
    ensures Completed(s, ConsumerApply(s, Finalized))
  {
  }

  /** Steps of finalizeStale alone that run it to its end. */
  ghost predicate RunsThrough(s: State, steps: seq<Step>) {
    && Legal(s, steps) && (forall step <- steps :: Finalizes(step))
    && s.w.Up? && After(s, steps).w.Up? && Completed(s, After(s, steps))
  }

  /** From anywhere inside it, a finalizeStale that nothing interrupts ends with no plain file but the current hour's. */
  lemma {:induction false} FinalizationCompletes(s: State) returns (steps: seq<Step>)
    requires Inv(s) && s.w.Up? && IsFinalizing(s.w.pc)
    ensures RunsThrough(s, steps)
    decreases Work(s)
  {
    var step := FinalizationMoves(s);
    var t := ConsumerApply(s, step);
    if IsFinalizing(t.w.pc) {
      InvStep(s, ByConsumer(step));
      var rest := FinalizationCompletes(t);
      steps := MoveFirst(s, step, rest);
    } else {
      steps := LastMove(s, step);
    }
  }

  lemma MoveFirst(s: State, step: ConsumerStep, rest: seq<Step>) returns (steps: seq<Step>)
    requires s.w.Up? && IsFinalizing(s.w.pc) && MovesOn(s, step) && RunsThrough(ConsumerApply(s, step), rest)
    ensures RunsThrough(s, steps)
  {
    LegalCons(s, ByConsumer(step), rest);
    steps := [ByConsumer(step)] + rest;
  }

  lemma LastMove(s: State, step: ConsumerStep) returns (steps: seq<Step>)
    requires Inv(s) && s.w.Up? && IsFinalizing(s.w.pc) && MovesOn(s, step) && !IsFinalizing(ConsumerApply(s, step).w.pc)
    ensures RunsThrough(s, steps)
  {
    LastMoveCompletes(s);
    LegalCons(s, ByConsumer(step), []);
    steps := [ByConsumer(step)] + [];
  }
}

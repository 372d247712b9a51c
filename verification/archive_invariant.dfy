/**
 The invariant that spans both programs, kept by every step of either, and what
 it says about whole runs: no committed message is ever lost, duplication is
 bounded by process deaths, a closed day is frozen, finalisation is crash-safe.
 */
module ArchiveInvariant {
  import opened ArchiveBytes
  import opened ArchiveModel

  // ----- what is on disk

  ghost predicate ContentOk(log: seq<seq<seq<Byte>>>, ledger: map<nat, Content>) {
    && (forall hour <- ledger :: WellFormed(ledger[hour]))
    && (forall p, o :: 0 <= p < |log| && 0 <= o < |log[p]| ==> WellFormedValue(log[p][o]))
  }

  /** Every hour ever opened stands on disk as it was written: plain, .gz or Parquet rows. */
  ghost predicate DiskOk(d: Disk, ledger: map<nat, Content>) {
    && (forall hour <- d.plain :: hour in ledger && d.plain[hour] == ledger[hour])
    && (forall hour <- d.gz :: hour in ledger && d.gz[hour] == ledger[hour])
    && (forall hour <- ledger :: hour in d.plain || hour in d.gz || DayOf(hour) in d.parquet)
  }

  /** The clock never goes back, so no hour behind the newest one is opened again. */
  ghost predicate TimeOk(clock: nat, d: Disk, w: Writer, h: History) {
    && HOUR * h.top <= clock
    && (forall hour <- h.ledger :: hour <= h.top)
    && (forall hour <- d.gz :: hour < h.top)
    && (w.Up? ==>
          && w.curKey == h.top
          && (w.isOpen ==> w.curKey in d.plain)
          && (w.pc.Rotating? ==>
                && w.pc.key == HourOf(w.pc.readAt)
                && w.curKey <= w.pc.key
                && w.pc.readAt <= clock < w.pc.readAt + DAY))
  }

  /** The plain files still to be finalised: all there are but the current hour's. */
  ghost predicate Stale(d: Disk, curKey: nat, hours: set<nat>) {
    hours == d.plain.Keys - {curKey}
  }

  /** When a finalised plain file is about to go, its .gz is already there. */
  ghost predicate FinalizeOk(d: Disk, w: Writer) {
    w.Up? ==>
      match w.pc
      case Finalize(todo, _) => Stale(d, w.curKey, todo)
      case GzOpen(hour, todo, _) => Stale(d, w.curKey, todo + {hour}) && hour !in todo
      case GzCopy(hour, todo, _) =>
        && Stale(d, w.curKey, todo + {hour}) && hour !in todo
        && hour in d.tmp && d.tmp[hour] <= d.plain[hour]
      case GzRemove(hour, todo, _) =>
        Stale(d, w.curKey, todo + {hour}) && hour !in todo && hour in d.gz
      case _ => true
  }

  ghost predicate Aged(clock: nat, day: nat) {
    DAY * day + MIN_AGE <= clock
  }

  ghost predicate NoPlain(d: Disk, day: nat) {
    forall hour <- d.plain :: DayOf(hour) != day
  }

  /** The first two gates, as facts about the present state. */
  ghost predicate Settled(clock: nat, d: Disk, day: nat) {
    Aged(clock, day) && NoPlain(d, day)
  }

  ghost predicate Pending(clock: nat, d: Disk, days: set<nat>) {
    forall day <- days :: Settled(clock, d, day) && day !in d.parquet
  }

  ghost predicate FoldedExactly(out: map<nat, Rows>, ledger: map<nat, Content>, day: nat) {
    forall hour <- out :: DayOf(hour) == day && hour in ledger && out[hour] == RowsOf(ledger[hour])
  }

  /** date=D holds every hour of D ever written, with exactly that hour's rows. */
  ghost predicate Published(clock: nat, d: Disk, ledger: map<nat, Content>, day: nat)
    requires day in d.parquet
  {
    && Settled(clock, d, day)
    && FoldedExactly(d.parquet[day], ledger, day)
    && (forall hour <- ledger :: DayOf(hour) == day ==> hour in d.parquet[day])
  }

  ghost predicate ParquetOk(clock: nat, d: Disk, ledger: map<nat, Content>) {
    forall day <- d.parquet :: Published(clock, d, ledger, day)
  }

  ghost predicate CompactorOk(clock: nat, d: Disk, ledger: map<nat, Content>, c: Compactor) {
    match c
    case Idle => true
    case Gating(now, eligible) => now <= clock && Pending(clock, d, eligible)
    case AgedDay(now, eligible, day) => now <= clock && Pending(clock, d, eligible) && Aged(clock, day)
    case ClosedDay(now, eligible, day) => now <= clock && Pending(clock, d, eligible) && Settled(clock, d, day)
    case Compacting(now, todo) => Pending(clock, d, todo)
    case Folding(now, todo, day, sources, out) =>
      && Pending(clock, d, todo + {day}) && day !in todo
      && sources == HoursOfDay(d.gz.Keys, day)
      && out.Keys <= sources && FoldedExactly(out, ledger, day)
    case Sweeping(now, todo) => true
    case Listed(now, todo, day, files) =>
      day in d.parquet && forall hour <- files :: DayOf(hour) == day
    case Unlinking(now, todo, day, files) =>
      day in d.parquet && forall hour <- files :: DayOf(hour) == day
  }

  // ----- what is on its way

  ghost predicate OnTopic(b: Broker, m: Message) {
    m.partition < |b.log| && m.offset < |b.log[m.partition]| && m.value == b.log[m.partition][m.offset]
  }

  ghost predicate InLedger(ledger: map<nat, Content>, m: Message) {
    exists hour :: hour in ledger && Whole(m) in ledger[hour]
  }

  /** The lines fetched but not yet wholly in a file, buffered ones first. */
  function InFlight(w: Writer): seq<Message> {
    if w.Up? && w.written <= |w.batch| then w.buf + w.batch[w.written..] else []
  }

  ghost predicate OffsetsOk(b: Broker, w: Writer) {
    && |b.base| == |b.committed| == |b.log|
    && (forall p :: 0 <= p < |b.log| ==> b.base[p] <= b.committed[p] <= |b.log[p]|)
    && (w.Up? ==>
          && |w.position| == |b.log|
          && forall p :: 0 <= p < |b.log| ==> b.committed[p] <= w.position[p] <= |b.log[p]|)
  }

  /** Inside finalizeStale, with this to do afterwards. */
  ghost predicate Returning(pc: Pc, next: Resume) {
    (pc.Scan? || pc.Finalize? || pc.GzOpen? || pc.GzCopy? || pc.GzRemove?) && pc.next == next
  }

  ghost predicate BufferOk(d: Disk, w: Writer) {
    w.Up? ==>
      && w.written <= |w.batch|
      && (w.buf == [] ==> w.spilled == 0)
      && (w.buf != [] ==> w.isOpen && w.spilled <= |w.buf[0].value|)
      && (w.spilled > 0 ==>
            w.buf != [] && w.curKey in d.plain && LastIs(d.plain[w.curKey], Frag(w.buf[0], w.spilled)))
      && (w.pc.Appending? || Returning(w.pc, ToAppend) ==> w.isOpen && w.written < |w.batch|)
      && (w.pc.Fetching? || Returning(w.pc, ToFetch) ==> w.written == 0)
      && (w.pc.Rotating? ==> w.written < |w.batch|)
      && (w.pc.Committing? ==> w.buf == [] && w.written == |w.batch|)
  }

  /** What the reader has handed over is on the topic, behind its position, and not yet committed. */
  ghost predicate FlightOk(b: Broker, w: Writer)
    requires OffsetsOk(b, w)
  {
    w.Up? ==>
      && (forall m <- w.batch :: OnTopic(b, m) && m.offset < w.position[m.partition])
      && (forall m <- InFlight(w) ::
            OnTopic(b, m) && b.committed[m.partition] <= m.offset < w.position[m.partition])
  }

  ghost predicate CommittedOk(b: Broker, ledger: map<nat, Content>)
    requires OffsetsOk(b, Down)
  {
    forall p, o :: 0 <= p < |b.log| && b.base[p] <= o < b.committed[p] ==> InLedger(ledger, MessageAt(b, p, o))
  }

  ghost predicate FetchedOk(b: Broker, ledger: map<nat, Content>, w: Writer)
    requires OffsetsOk(b, w)
  {
    w.Up? ==>
      forall p, o :: 0 <= p < |b.log| && b.base[p] <= o < w.position[p] ==>
        InLedger(ledger, MessageAt(b, p, o)) || MessageAt(b, p, o) in InFlight(w)
  }

  ghost predicate Inv(s: State) {
    && ContentOk(s.broker.log, s.h.ledger)
    && DiskOk(s.disk, s.h.ledger)
    && TimeOk(s.clock, s.disk, s.w, s.h)
    && FinalizeOk(s.disk, s.w)
    && ParquetOk(s.clock, s.disk, s.h.ledger)
    && CompactorOk(s.clock, s.disk, s.h.ledger, s.c)
    && OffsetsOk(s.broker, s.w)
    && BufferOk(s.disk, s.w)
    && FlightOk(s.broker, s.w)
    && CommittedOk(s.broker, s.h.ledger)
    && FetchedOk(s.broker, s.h.ledger, s.w)
  }

  // ----- every step keeps it

  lemma {:induction false} BatchEndBounds(batch: seq<Message>, p: nat, current: nat, limit: nat)
    requires current <= limit
    requires forall m <- batch :: m.partition == p ==> m.offset < limit
    ensures current <= BatchEnd(batch, p, current) <= limit
    ensures forall m <- batch :: m.partition == p ==> m.offset < BatchEnd(batch, p, current)
  {
    if batch != [] {
      var b := batch[..|batch|-1];
      assert forall m <- batch :: m in b || m == batch[|batch|-1];
      BatchEndBounds(b, p, current, limit);
    }
  }

  lemma DayBounds(t: nat)
    ensures HOUR * HourOf(t) <= t < HOUR * (HourOf(t) + 1)
    ensures DAY * DayOf(HourOf(t)) <= t < DAY * (DayOf(HourOf(t)) + 1)
  {
  }

  lemma ProduceKeeps(s: State, step: OutsideStep)
    requires Inv(s) && OutsideEnabled(s, step) && (step.Produce?)
    ensures Inv(OutsideApply(s, step))
  {
    var t := OutsideApply(s, step);
    var p := step.partition;
    assert forall q, o :: 0 <= q < |s.broker.log| && 0 <= o < |s.broker.log[q]| ==>
        t.broker.log[q][o] == s.broker.log[q][o] && MessageAt(t.broker, q, o) == MessageAt(s.broker, q, o);
    assert t.broker.log[p][|s.broker.log[p]|] == step.value;
  }

  /** Changes confined to days the gates keep out leave the compactor's side as it was. */
  lemma ClosedDaysUntouched(clock: nat, d: Disk, ledger: map<nat, Content>, c: Compactor,
                            d': Disk, ledger': map<nat, Content>)
    requires ParquetOk(clock, d, ledger) && CompactorOk(clock, d, ledger, c)
    requires d'.gz == d.gz && d'.parquet == d.parquet
    requires forall hour <- d'.plain :: hour in d.plain || !Aged(clock, DayOf(hour))
    requires forall hour <- ledger' ::
               Settled(clock, d, DayOf(hour)) ==> hour in ledger && ledger'[hour] == ledger[hour]
    requires forall hour <- ledger :: hour in ledger'
    ensures ParquetOk(clock, d', ledger') && CompactorOk(clock, d', ledger', c)
  {
    assert forall day :: Settled(clock, d, day) ==> Settled(clock, d', day);
    assert forall day, out :: Settled(clock, d, day) && FoldedExactly(out, ledger, day) ==>
        FoldedExactly(out, ledger', day);
  }

  lemma LedgerGrows(ledger: map<nat, Content>, ledger': map<nat, Content>)
    requires forall hour <- ledger :: hour in ledger'
    requires forall hour <- ledger, m :: Whole(m) in ledger[hour] ==> Whole(m) in ledger'[hour]
    ensures forall m :: InLedger(ledger, m) ==> InLedger(ledger', m)
  {
  }

  /** A torn fragment is never a whole line, so growing one loses no line. */
  lemma GrowKeepsWhole(c: Content, m: Message, k: nat)
    requires k > 0 ==> LastIs(c, Frag(m, k))
    requires k <= |m.value|
    ensures forall x :: Whole(x) in c ==> Whole(x) in Grow(c, m, k)
    ensures k == |m.value| ==> Whole(m) in Grow(c, m, k)
  {
    var g := Grow(c, m, k);
    forall x | Whole(x) in c ensures Whole(x) in g {
      var i :| 0 <= i < |c| && c[i] == Whole(x);
      assert g[i] == c[i];
    }
    assert g[|g|-1] == Frag(m, k + 1);
  }

  /** An hour file created by rotate belongs to an hour never written before. */
  lemma NewHourIsNew(s: State, step: ConsumerStep)
    requires Inv(s) && ConsumerEnabled(s, step) && step.OpenFile?
    ensures !Aged(s.clock, DayOf(s.w.pc.key))
    ensures s.w.pc.key !in s.disk.plain ==> s.w.pc.key !in s.h.ledger
  {
    DayBounds(s.w.pc.readAt);
  }

  lemma OpenFileKeepsDisk(s: State, step: ConsumerStep)
    requires Inv(s) && ConsumerEnabled(s, step) && step.OpenFile?
    ensures var t := ConsumerApply(s, step);
            && ContentOk(t.broker.log, t.h.ledger)
            && DiskOk(t.disk, t.h.ledger)
            && TimeOk(t.clock, t.disk, t.w, t.h)
  {
  }

  lemma OpenFileKeepsParquet(s: State, step: ConsumerStep)
    requires Inv(s) && ConsumerEnabled(s, step) && step.OpenFile?
    ensures var t := ConsumerApply(s, step);
            && FinalizeOk(t.disk, t.w)
            && ParquetOk(t.clock, t.disk, t.h.ledger)
            && CompactorOk(t.clock, t.disk, t.h.ledger, t.c)
  {
    var t := ConsumerApply(s, step);
    DayBounds(s.w.pc.readAt);
    NewHourIsNew(s, step);
    ClosedDaysUntouched(s.clock, s.disk, s.h.ledger, s.c, t.disk, t.h.ledger);
  }

  lemma OpenFileKeepsFlight(s: State, step: ConsumerStep)
    requires Inv(s) && ConsumerEnabled(s, step) && step.OpenFile?
    ensures var t := ConsumerApply(s, step);
            && OffsetsOk(t.broker, t.w)
            && BufferOk(t.disk, t.w)
            && FlightOk(t.broker, t.w)
            && CommittedOk(t.broker, t.h.ledger)
            && FetchedOk(t.broker, t.h.ledger, t.w)
  {
    var t := ConsumerApply(s, step);
    NewHourIsNew(s, step);
    LedgerGrows(s.h.ledger, t.h.ledger);
  }

  lemma OpenFileKeeps(s: State, step: ConsumerStep)
    requires Inv(s) && ConsumerEnabled(s, step) && (step.OpenFile?)
    ensures Inv(ConsumerApply(s, step))
  {
    OpenFileKeepsDisk(s, step);
    OpenFileKeepsParquet(s, step);
    OpenFileKeepsFlight(s, step);
  }

  lemma SpillKeepsDisk(s: State, step: ConsumerStep)
    requires Inv(s) && ConsumerEnabled(s, step) && step.Spill?
    ensures var t := ConsumerApply(s, step);
            && ContentOk(t.broker.log, t.h.ledger)
            && DiskOk(t.disk, t.h.ledger)
            && TimeOk(t.clock, t.disk, t.w, t.h)
  {
  }

  lemma SpillKeepsParquet(s: State, step: ConsumerStep)
    requires Inv(s) && ConsumerEnabled(s, step) && step.Spill?
    ensures var t := ConsumerApply(s, step);
            && FinalizeOk(t.disk, t.w)
            && ParquetOk(t.clock, t.disk, t.h.ledger)
            && CompactorOk(t.clock, t.disk, t.h.ledger, t.c)
  {
    var t := ConsumerApply(s, step);
    ClosedDaysUntouched(s.clock, s.disk, s.h.ledger, s.c, t.disk, t.h.ledger);
  }

  lemma SpillKeepsFlight(s: State, step: ConsumerStep)
    requires Inv(s) && ConsumerEnabled(s, step) && step.Spill?
    ensures var t := ConsumerApply(s, step);
            && OffsetsOk(t.broker, t.w)
            && BufferOk(t.disk, t.w)
            && FlightOk(t.broker, t.w)
            && CommittedOk(t.broker, t.h.ledger)
            && FetchedOk(t.broker, t.h.ledger, t.w)
  {
    var t := ConsumerApply(s, step);
    var m := s.w.buf[0];
    GrowKeepsWhole(s.disk.plain[s.w.curKey], m, s.w.spilled);
    LedgerGrows(s.h.ledger, t.h.ledger);
    if s.w.spilled + 1 == |LineOf(m)| {
      assert InFlight(t.w) == InFlight(s.w)[1..];
      assert InLedger(t.h.ledger, m);
    }
  }

  lemma SpillKeeps(s: State, step: ConsumerStep)
    requires Inv(s) && ConsumerEnabled(s, step) && (step.Spill?)
    ensures Inv(ConsumerApply(s, step))
  {
    SpillKeepsDisk(s, step);
    SpillKeepsParquet(s, step);
    SpillKeepsFlight(s, step);
  }

  lemma CommitKeeps(s: State, step: ConsumerStep)
    requires Inv(s) && ConsumerEnabled(s, step) && (step.Commit?)
    ensures Inv(ConsumerApply(s, step))
  {
    var t := ConsumerApply(s, step);
    BatchEndBounds(s.w.batch, step.partition, s.broker.committed[step.partition], s.w.position[step.partition]);
    assert InFlight(s.w) == [];
    assert forall p, o :: 0 <= p < |s.broker.log| && s.broker.base[p] <= o < s.w.position[p] ==>
        MessageAt(t.broker, p, o) == MessageAt(s.broker, p, o);
  }

  lemma GatePlainKeeps(s: State, step: CompactorStep)
    requires Inv(s) && CompactorEnabled(s, step) && (step.GatePlain?)
    ensures Inv(CompactorApply(s, step))
  {
    forall hour | hour in s.disk.plain ensures DayOf(hour) != s.c.day {
      assert hour !in HoursOfDay(s.disk.plain.Keys, s.c.day);
    }
  }

  /** The stale files listed, one of them looked up. */
  lemma GzipPreparationsKeep(s: State, step: ConsumerStep)
    requires Inv(s) && ConsumerEnabled(s, step)
    requires step.Glob? || step.GzStat?
    ensures Inv(ConsumerApply(s, step))
  {
  }

  /** An empty tmp file for it. */
  lemma TmpCreationsKeep(s: State, step: ConsumerStep)
    requires Inv(s) && ConsumerEnabled(s, step)
    requires step.CreateTmp?
    ensures Inv(ConsumerApply(s, step))
  {
  }

  /** The copy grows. */
  lemma GzipCopiesKeep(s: State, step: ConsumerStep)
    requires Inv(s) && ConsumerEnabled(s, step)
    requires step.GzChunk?
    ensures Inv(ConsumerApply(s, step))
  {
  }

  /** The complete copy gets the final name. */
  lemma GzipRenamesKeep(s: State, step: ConsumerStep)
    requires Inv(s) && ConsumerEnabled(s, step)
    requires step.RenameTmp?
    ensures Inv(ConsumerApply(s, step))
  {
  }

  /** The plain file goes once its .gz is complete. */
  lemma PlainRemovalsKeep(s: State, step: ConsumerStep)
    requires Inv(s) && ConsumerEnabled(s, step)
    requires step.RemovePlain?
    ensures Inv(ConsumerApply(s, step))
  {
  }

  /** A process starts from the committed offsets. */
  lemma BootsKeep(s: State, step: ConsumerStep)
    requires Inv(s) && ConsumerEnabled(s, step)
    requires step.Boot?
    ensures Inv(ConsumerApply(s, step))
  {
  }

  /** The reader's position moves on. */
  lemma FetchesKeep(s: State, step: ConsumerStep)
    requires Inv(s) && ConsumerEnabled(s, step)
    requires step.Fetch?
    ensures Inv(ConsumerApply(s, step))
  {
    FetchesKeepDisk(s, step);
    FetchesKeepFlight(s, step);
  }

  lemma FetchesKeepDisk(s: State, step: ConsumerStep)
    requires Inv(s) && ConsumerEnabled(s, step) && step.Fetch?
    ensures var t := ConsumerApply(s, step);
            && ContentOk(t.broker.log, t.h.ledger)
            && DiskOk(t.disk, t.h.ledger)
            && TimeOk(t.clock, t.disk, t.w, t.h)
            && FinalizeOk(t.disk, t.w)
            && ParquetOk(t.clock, t.disk, t.h.ledger)
            && CompactorOk(t.clock, t.disk, t.h.ledger, t.c)
  {
  }

  lemma FetchesKeepFlight(s: State, step: ConsumerStep)
    requires Inv(s) && ConsumerEnabled(s, step) && step.Fetch?
    ensures var t := ConsumerApply(s, step);
            && OffsetsOk(t.broker, t.w)
            && BufferOk(t.disk, t.w)
            && FlightOk(t.broker, t.w)
            && CommittedOk(t.broker, t.h.ledger)
            && FetchedOk(t.broker, t.h.ledger, t.w)
  {
    var t := ConsumerApply(s, step);
    var p := step.partition;
    var m := MessageAt(s.broker, p, s.w.position[p]);
    assert InFlight(t.w) == InFlight(s.w) + [m];
  }

  /** A batch sealed, the clock read for its next line. */
  lemma WritesKeep(s: State, step: ConsumerStep)
    requires Inv(s) && ConsumerEnabled(s, step)
    requires step.Seal? || step.ReadClock?
    ensures Inv(ConsumerApply(s, step))
  {
  }

  /** A line moves from the batch into the buffer. */
  lemma AppendsKeep(s: State, step: ConsumerStep)
    requires Inv(s) && ConsumerEnabled(s, step)
    requires step.AppendLine?
    ensures Inv(ConsumerApply(s, step))
  {
  }

  /** A finalisation over, a file closed. */
  lemma EndsKeep(s: State, step: ConsumerStep)
    requires Inv(s) && ConsumerEnabled(s, step)
    requires step.Finalized? || step.CloseFile?
    ensures Inv(ConsumerApply(s, step))
  {
  }

  /** A batch fsynced, a batch done. */
  lemma BatchEndsKeep(s: State, step: ConsumerStep)
    requires Inv(s) && ConsumerEnabled(s, step)
    requires step.Synced? || step.BatchDone?
    ensures Inv(ConsumerApply(s, step))
  {
  }

  /** An error sets in, or the process ends: what is buffered is lost, what is on disk stays. */
  lemma UnwindingsKeep(s: State, step: ConsumerStep)
    requires Inv(s) && ConsumerEnabled(s, step)
    requires step.Unwind? || step.Exit?
    ensures Inv(ConsumerApply(s, step))
  {
  }

  /** A failed compression removes its tmp file. */
  lemma AbortedTmpsKeep(s: State, step: ConsumerStep)
    requires Inv(s) && ConsumerEnabled(s, step)
    requires step.AbortTmp?
    ensures Inv(ConsumerApply(s, step))
  {
  }

  /** The gates of one pass. */
  lemma GatesKeep(s: State, step: CompactorStep)
    requires Inv(s) && CompactorEnabled(s, step)
    requires step.PassStart? || step.GateAge? || step.GateParquet? || step.GateReject? || step.Gated?
    ensures Inv(CompactorApply(s, step))
  {
  }

  /** A day folded hour by hour. */
  lemma FoldsKeep(s: State, step: CompactorStep)
    requires Inv(s) && CompactorEnabled(s, step)
    requires step.SkipEmptyDay? || step.StartDay? || step.FoldHour? || step.FoldFail?
    ensures Inv(CompactorApply(s, step))
  {
  }

  /** A day published, and the sweep begun. */
  lemma PublicationsKeep(s: State, step: CompactorStep)
    requires Inv(s) && CompactorEnabled(s, step)
    requires step.Publish? || step.Compacted? || step.ListRaw?
    ensures Inv(CompactorApply(s, step))
  {
  }

  /** Raw files deleted after verification. */
  lemma DeletionsKeep(s: State, step: CompactorStep)
    requires Inv(s) && CompactorEnabled(s, step)
    requires step.Unlink?
    ensures Inv(CompactorApply(s, step))
  {
  }

  /** The sweep moves on. */
  lemma SweepsKeep(s: State, step: CompactorStep)
    requires Inv(s) && CompactorEnabled(s, step)
    requires step.Verified? || step.KeepRaw? || step.DayDone? || step.PassEnd? || step.CompactorExit?
    ensures Inv(CompactorApply(s, step))
  {
  }

  lemma TickKeeps(s: State, step: OutsideStep)
    requires Inv(s) && OutsideEnabled(s, step) && step.Tick?
    ensures Inv(OutsideApply(s, step))
  {
  }

  lemma ConsumerKeeps(s: State, w: ConsumerStep)
    requires Inv(s) && ConsumerEnabled(s, w)
    ensures Inv(ConsumerApply(s, w))
  {
    if w.Glob? || w.GzStat? { GzipPreparationsKeep(s, w); }
    else if w.CreateTmp? { TmpCreationsKeep(s, w); }
    else if w.GzChunk? { GzipCopiesKeep(s, w); }
    else if w.RenameTmp? { GzipRenamesKeep(s, w); }
    else if w.RemovePlain? { PlainRemovalsKeep(s, w); }
    else if w.Boot? { BootsKeep(s, w); }
    else if w.Fetch? { FetchesKeep(s, w); }
    else if w.Seal? || w.ReadClock? { WritesKeep(s, w); }
    else if w.AppendLine? { AppendsKeep(s, w); }
    else if w.Finalized? || w.CloseFile? { EndsKeep(s, w); }
    else if w.Synced? || w.BatchDone? { BatchEndsKeep(s, w); }
    else if w.Unwind? || w.Exit? { UnwindingsKeep(s, w); }
    else if w.AbortTmp? { AbortedTmpsKeep(s, w); }
    else if w.OpenFile? { OpenFileKeeps(s, w); }
    else if w.Spill? { SpillKeeps(s, w); }
    else { CommitKeeps(s, w); }
  }

  lemma CompactorKeeps(s: State, c: CompactorStep)
    requires Inv(s) && CompactorEnabled(s, c)
    ensures Inv(CompactorApply(s, c))
  {
    if c.PassStart? || c.GateAge? || c.GateParquet? || c.GateReject? || c.Gated? { GatesKeep(s, c); }
    else if c.GatePlain? { GatePlainKeeps(s, c); }
    else if c.SkipEmptyDay? || c.StartDay? || c.FoldHour? || c.FoldFail? { FoldsKeep(s, c); }
    else if c.Publish? || c.Compacted? || c.ListRaw? { PublicationsKeep(s, c); }
    else if c.Unlink? { DeletionsKeep(s, c); }
    else { SweepsKeep(s, c); }
  }

  /** Any step of any party keeps the invariant. */
  lemma InvStep(s: State, step: Step)
    requires Inv(s) && Enabled(s, step)
    ensures Inv(Apply(s, step))
  {
    match step
    case Outside(o) => if o.Tick? { TickKeeps(s, o); } else { ProduceKeeps(s, o); }
    case ByConsumer(w) => ConsumerKeeps(s, w);
    case ByCompactor(c) => CompactorKeeps(s, c);
  }

  /** The invariant holds after every schedule: every interleaving, error, crash and restart. */
  lemma {:induction false} InvAlways(s: State, schedule: seq<Step>)
    requires Inv(s) && Legal(s, schedule)
    ensures Inv(After(s, schedule))
  {
    if schedule != [] {
      var before := schedule[..|schedule|-1];
      InvAlways(s, before);
      InvStep(After(s, before), schedule[|schedule|-1]);
    }
  }

  lemma InvInitially(s: State)
    requires Initial(s)
    ensures Inv(s)
  {
  }
}

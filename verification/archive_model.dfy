/**
 The archive as two crash-prone processes over one file tree: the Go consumer
 (fetch, write, fsync, commit; hourly rotation; gzip of closed hours) and the
 Python compactor (gates, fold, publish, verify, unlink). One Step is one file
 operation or one decision, so a crash can fall between any two of them.
 */
module ArchiveModel {
  import opened ArchiveBytes

  // Time in seconds since the epoch; hours and days are numbered from the epoch.
  const HOUR := 3600
  const DAY := 86400
  const MIN_AGE := 172800

  function HourOf(t: nat): nat { t / HOUR }

  function DayOf(hour: nat): nat { hour / 24 }

  type Offsets = seq<nat>

  /** The topic and the consumer group: base is where the group began to commit. */
  datatype Broker = Broker(log: seq<seq<seq<Byte>>>, base: Offsets, committed: Offsets)

  type Rows = multiset<seq<Byte>>

  /** The tree: HH.ndjson, HH.ndjson.gz.tmp, HH.ndjson.gz by hour; parquet/date=D by day, then hour. */
  datatype Disk = Disk(
    plain: map<nat, Content>,
    tmp: map<nat, Content>,
    gz: map<nat, Content>,
    parquet: map<nat, map<nat, Rows>>)

  /** What finalizeStale returns to: NewArchiveWriter, or the line that caused the rotation. */
  datatype Resume = ToFetch | ToAppend

  /** Where the consumer's single thread stands. */
  datatype Pc =
    | Scan(next: Resume)                                  // about to glob the plain files
    | Finalize(todo: set<nat>, next: Resume)              // gzipping the stale ones
    | GzOpen(hour: nat, todo: set<nat>, next: Resume)     // no .gz yet: about to create the tmp
    | GzCopy(hour: nat, todo: set<nat>, next: Resume)     // tmp created, compressing
    | GzRemove(hour: nat, todo: set<nat>, next: Resume)   // .gz complete, plain still there
    | Fetching
    | Writing                                             // flushBatch, between two lines
    | Rotating(key: nat, readAt: nat)                     // clock read, hour file not yet open
    | Appending                                           // hour file open, line not yet buffered
    | Committing                                          // fsynced
    | Exiting                                             // an error or a shutdown unwinds Run

  datatype Writer =
    | Down
    | Up(curKey: nat, isOpen: bool,            // ArchiveWriter.curKey, curFile != nil
         buf: seq<Message>, spilled: nat,      // buffered lines; bytes of the first already in the file
         position: Offsets,                    // the reader's next offsets
         batch: seq<Message>, written: nat,    // flushBatch has passed batch[..written] to Write
         pc: Pc)

  datatype Compactor =
    | Idle
    | Gating(now: nat, eligible: set<nat>)
    | AgedDay(now: nat, eligible: set<nat>, day: nat)     // age gate passed
    | ClosedDay(now: nat, eligible: set<nat>, day: nat)   // no plain file either
    | Compacting(now: nat, todo: set<nat>)
    | Folding(now: nat, todo: set<nat>, day: nat, sources: set<nat>, out: map<nat, Rows>)
    | Sweeping(now: nat, todo: set<nat>)
    | Listed(now: nat, todo: set<nat>, day: nat, files: set<nat>)
    | Unlinking(now: nat, todo: set<nat>, day: nat, files: set<nat>)

  /** Bookkeeping no program reads. */
  datatype History = History(
    ledger: map<nat, Content>,     // all that was ever appended, by hour
    top: nat,                      // the newest hour opened
    deaths: nat,                   // process ends
    reached: Offsets,              // how far any process has ever fetched
    synced: map<nat, nat>)         // how much of an hour's plain file its last fsync covered

  datatype State = State(clock: nat, broker: Broker, disk: Disk, w: Writer, c: Compactor, h: History)

  datatype OutsideStep =
    | Tick(seconds: nat)
    | Produce(partition: nat, value: seq<Byte>)

  datatype ConsumerStep =
    | Boot
    | Glob
    | GzStat(hour: nat)
    | CreateTmp
    | GzChunk(n: nat)
    | RenameTmp
    | RemovePlain
    | Finalized
    | Fetch(partition: nat)
    | Seal
    | ReadClock
    | CloseFile
    | OpenFile
    | AppendLine
    | Spill
    | Synced
    | Commit(partition: nat)
    | BatchDone
    | Unwind
    | AbortTmp
    | Exit

  datatype CompactorStep =
    | PassStart
    | GateAge(day: nat)
    | GatePlain
    | GateParquet
    | GateReject
    | Gated
    | SkipEmptyDay(day: nat)
    | StartDay(day: nat)
    | FoldHour(hour: nat)
    | FoldFail
    | Publish
    | Compacted
    | ListRaw(day: nat)
    | Verified
    | KeepRaw
    | Unlink(hour: nat)
    | DayDone
    | PassEnd
    | CompactorExit

  datatype Step = Outside(o: OutsideStep) | ByConsumer(w: ConsumerStep) | ByCompactor(c: CompactorStep)

  // ----- small readings of a state

  function MessageAt(b: Broker, p: nat, o: nat): Message
    requires p < |b.log| && o < |b.log[p]|
  {
    Message(p, o, b.log[p][o])
  }

  function HoursOfDay(hours: set<nat>, day: nat): set<nat> {
    set h | h in hours && DayOf(h) == day
  }

  /** The offset CommitMessages sends for p: one past the batch's highest, if any. */
  function BatchEnd(batch: seq<Message>, p: nat, current: nat): nat {
    if batch == [] then current
    else
      var rest := BatchEnd(batch[..|batch|-1], p, current);
      var m := batch[|batch|-1];
      if m.partition == p && m.offset + 1 > rest then m.offset + 1 else rest
  }

  /** The high-water mark of p is at least o. */
  function Raised(reached: Offsets, p: nat, o: nat): Offsets {
    if p < |reached| && reached[p] < o then reached[p := o] else reached
  }

  function LastIs(c: Content, f: Frag): bool {
    |c| > 0 && c[|c|-1] == f
  }

  /** One more byte of m's line reaches the file; k of them are there already. */
  function Grow(c: Content, m: Message, k: nat): Content
    requires k > 0 ==> LastIs(c, Frag(m, k))
  {
    (if k == 0 then c else c[..|c|-1]) + [Frag(m, k + 1)]
  }

  /** The running total of a count over the first n hours of a day. */
  function Total(count: nat -> nat, n: nat): nat {
    if n == 0 then 0 else Total(count, n - 1) + count(n - 1)
  }

  /** The raw lines of an hour's file, none if there is no file. */
  function LinesIn(gz: map<nat, Content>, hour: nat): nat {
    if hour in gz then |RowsOf(gz[hour])| else 0
  }

  function GzRows(gz: map<nat, Content>, day: nat): nat -> nat {
    (i: nat) => LinesIn(gz, 24 * day + i)
  }

  lemma GzRowsAt(gz: map<nat, Content>, day: nat, i: nat)
    ensures GzRows(gz, day)(i) == LinesIn(gz, 24 * day + i)
  {
  }

  /** The Parquet rows folded from an hour. */
  function RowsIn(out: map<nat, Rows>, hour: nat): nat {
    if hour in out then |out[hour]| else 0
  }

  function ParquetRows(out: map<nat, Rows>, day: nat): nat -> nat {
    (i: nat) => RowsIn(out, 24 * day + i)
  }

  lemma ParquetRowsAt(out: map<nat, Rows>, day: nat, i: nat)
    ensures ParquetRows(out, day)(i) == RowsIn(out, 24 * day + i)
  {
  }

  /** verify_counts: the day's Parquet rows equal its raw lines, both counted on disk. */
  predicate CountsAgree(d: Disk, day: nat)
    requires day in d.parquet
  {
    Total(GzRows(d.gz, day), 24) == Total(ParquetRows(d.parquet[day], day), 24)
  }

  // ----- steps

  predicate OutsideEnabled(s: State, step: OutsideStep) {
    match step
    case Tick(n) =>
      // opening an hour file takes less than a day from reading the clock
      s.w.Up? && s.w.pc.Rotating? ==> s.clock + n < s.w.pc.readAt + DAY
    case Produce(p, v) => p < |s.broker.log| && v != [] && NEWLINE !in v
  }

  predicate ConsumerEnabled(s: State, step: ConsumerStep) {
    match step
    case Boot => s.w.Down?
    case Glob => s.w.Up? && s.w.pc.Scan?
    case GzStat(hour) => s.w.Up? && s.w.pc.Finalize? && hour in s.w.pc.todo
    case CreateTmp => s.w.Up? && s.w.pc.GzOpen?
    case GzChunk(n) =>
      s.w.Up? && s.w.pc.GzCopy? && s.w.pc.hour in s.disk.plain && n <= |s.disk.plain[s.w.pc.hour]|
    case RenameTmp =>
      && s.w.Up? && s.w.pc.GzCopy?
      && s.w.pc.hour in s.disk.plain && s.w.pc.hour in s.disk.tmp
      && s.disk.tmp[s.w.pc.hour] == s.disk.plain[s.w.pc.hour]
    case RemovePlain => s.w.Up? && s.w.pc.GzRemove?
    case Finalized => s.w.Up? && s.w.pc.Finalize? && s.w.pc.todo == {}
    case Fetch(p) =>
      && s.w.Up? && s.w.pc.Fetching?
      && p < |s.broker.log| && p < |s.w.position| && s.w.position[p] < |s.broker.log[p]|
    case Seal => s.w.Up? && s.w.pc.Fetching? && s.w.batch != []
    case ReadClock => s.w.Up? && s.w.pc.Writing? && s.w.written < |s.w.batch|
    case CloseFile => s.w.Up? && s.w.isOpen && s.w.buf == [] && (s.w.pc.Rotating? || s.w.pc.Exiting?)
    case OpenFile => s.w.Up? && s.w.pc.Rotating? && !s.w.isOpen
    case AppendLine => s.w.Up? && s.w.pc.Appending? && s.w.isOpen && s.w.written < |s.w.batch|
    case Spill =>
      && s.w.Up? && s.w.isOpen && s.w.buf != []
      && s.w.curKey in s.disk.plain
      && (s.w.spilled > 0 ==> LastIs(s.disk.plain[s.w.curKey], Frag(s.w.buf[0], s.w.spilled)))
    case Synced => s.w.Up? && s.w.pc.Writing? && s.w.written == |s.w.batch| && s.w.buf == []
    case Commit(p) => s.w.Up? && s.w.pc.Committing? && p < |s.broker.committed|
    case BatchDone =>
      && s.w.Up? && s.w.pc.Committing?
      && forall m <- s.w.batch ::
           m.partition < |s.broker.committed| && m.offset < s.broker.committed[m.partition]
    case Unwind => s.w.Up?
    case AbortTmp => s.w.Up? && s.w.pc.GzCopy?
    case Exit => s.w.Up?
  }

  predicate CompactorEnabled(s: State, step: CompactorStep) {
    match step
    case PassStart => s.c.Idle?
    case GateAge(day) => s.c.Gating? && s.c.now >= DAY * day + MIN_AGE
    case GatePlain => s.c.AgedDay? && HoursOfDay(s.disk.plain.Keys, s.c.day) == {}
    case GateParquet => s.c.ClosedDay? && s.c.day !in s.disk.parquet
    case GateReject => s.c.AgedDay? || s.c.ClosedDay?
    case Gated => s.c.Gating?
    case SkipEmptyDay(day) =>
      s.c.Compacting? && day in s.c.todo && HoursOfDay(s.disk.gz.Keys, day) == {}
    case StartDay(day) =>
      s.c.Compacting? && day in s.c.todo && HoursOfDay(s.disk.gz.Keys, day) != {}
    case FoldHour(hour) => s.c.Folding? && hour in s.c.sources && hour in s.disk.gz
    case FoldFail => s.c.Folding?
    case Publish => s.c.Folding? && s.c.out.Keys == s.c.sources
    case Compacted => s.c.Compacting? && s.c.todo == {}
    case ListRaw(day) =>
      s.c.Sweeping? && day in s.c.todo && HoursOfDay(s.disk.gz.Keys, day) != {} && day in s.disk.parquet
    case Verified => s.c.Listed? && s.c.day in s.disk.parquet && CountsAgree(s.disk, s.c.day)
    case KeepRaw => s.c.Listed?
    case Unlink(hour) => s.c.Unlinking? && hour in s.c.files
    case DayDone => s.c.Unlinking?       // the last file is gone, or an unlink failed
    case PassEnd => s.c.Sweeping?
    case CompactorExit => true
  }

  predicate Enabled(s: State, step: Step) {
    match step
    case Outside(o) => OutsideEnabled(s, o)
    case ByConsumer(w) => ConsumerEnabled(s, w)
    case ByCompactor(c) => CompactorEnabled(s, c)
  }

  function OutsideApply(s: State, step: OutsideStep): State
    requires OutsideEnabled(s, step)
  {
    match step
    case Tick(n) => s.(clock := s.clock + n)
    case Produce(p, v) =>
      s.(broker := s.broker.(log := s.broker.log[p := s.broker.log[p] + [v]]))
  }

  function ConsumerApply(s: State, step: ConsumerStep): State
    requires ConsumerEnabled(s, step)
  {
    match step
    // NewArchiveWriter: the current hour is set aside before anything is finalized
    case Boot =>
      var key := HourOf(s.clock);
      s.(w := Up(key, false, [], 0, s.broker.committed, [], 0, Scan(ToFetch)),
         h := s.h.(top := key))
    case Glob => s.(w := s.w.(pc := Finalize(s.disk.plain.Keys - {s.w.curKey}, s.w.pc.next)))
    case GzStat(hour) =>
      var todo := s.w.pc.todo - {hour};
      s.(w := s.w.(pc := if hour in s.disk.gz
                         then GzRemove(hour, todo, s.w.pc.next)
                         else GzOpen(hour, todo, s.w.pc.next)))
    case CreateTmp =>
      s.(disk := s.disk.(tmp := s.disk.tmp[s.w.pc.hour := []]),
         w := s.w.(pc := GzCopy(s.w.pc.hour, s.w.pc.todo, s.w.pc.next)))
    case GzChunk(n) =>
      s.(disk := s.disk.(tmp := s.disk.tmp[s.w.pc.hour := s.disk.plain[s.w.pc.hour][..n]]))
    case RenameTmp =>
      s.(disk := s.disk.(gz := s.disk.gz[s.w.pc.hour := s.disk.tmp[s.w.pc.hour]],
                         tmp := s.disk.tmp - {s.w.pc.hour}),
         w := s.w.(pc := GzRemove(s.w.pc.hour, s.w.pc.todo, s.w.pc.next)))
    case RemovePlain =>
      s.(disk := s.disk.(plain := s.disk.plain - {s.w.pc.hour}),
         w := s.w.(pc := Finalize(s.w.pc.todo, s.w.pc.next)))
    case Finalized => s.(w := s.w.(pc := if s.w.pc.next.ToFetch? then Fetching else Appending))
    case Fetch(p) =>
      s.(w := s.w.(batch := s.w.batch + [MessageAt(s.broker, p, s.w.position[p])],
                   position := s.w.position[p := s.w.position[p] + 1]),
         h := s.h.(reached := Raised(s.h.reached, p, s.w.position[p] + 1)))
    case Seal => s.(w := s.w.(written := 0, pc := Writing))
    case ReadClock =>
      var key := HourOf(s.clock);
      s.(w := s.w.(pc := if key != s.w.curKey || !s.w.isOpen then Rotating(key, s.clock) else Appending))
    case CloseFile => s.(w := s.w.(isOpen := false))
    case OpenFile =>
      var key := s.w.pc.key;
      var isNew := key !in s.disk.plain;
      s.(disk := if isNew then s.disk.(plain := s.disk.plain[key := []]) else s.disk,
         w := s.w.(curKey := key, isOpen := true, buf := [], spilled := 0, pc := Scan(ToAppend)),
         h := s.h.(ledger := if isNew then s.h.ledger[key := []] else s.h.ledger, top := key))
    case AppendLine =>
      s.(w := s.w.(buf := s.w.buf + [s.w.batch[s.w.written]], written := s.w.written + 1, pc := Writing))
    case Spill =>
      var m := s.w.buf[0];
      var k := s.w.spilled;
      var c := Grow(s.disk.plain[s.w.curKey], m, k);
      s.(disk := s.disk.(plain := s.disk.plain[s.w.curKey := c]),
         w := if k + 1 == |LineOf(m)| then s.w.(buf := s.w.buf[1..], spilled := 0)
              else s.w.(spilled := k + 1),
         h := s.h.(ledger := s.h.ledger[s.w.curKey := c]))
    case Synced =>
      s.(w := s.w.(pc := Committing),
         h := s.h.(synced := if s.w.isOpen && s.w.curKey in s.disk.plain
                             then s.h.synced[s.w.curKey := |s.disk.plain[s.w.curKey]|]
                             else s.h.synced))
    case Commit(p) =>
      var end := BatchEnd(s.w.batch, p, s.broker.committed[p]);
      s.(broker := s.broker.(committed := s.broker.committed[p := end]))
    case BatchDone => s.(w := s.w.(batch := [], written := 0, pc := Fetching))
    case Unwind => s.(w := s.w.(pc := Exiting))
    case AbortTmp =>
      s.(disk := s.disk.(tmp := s.disk.tmp - {s.w.pc.hour}), w := s.w.(pc := Exiting))
    case Exit => s.(w := Down, h := s.h.(deaths := s.h.deaths + 1))
  }

  function CompactorApply(s: State, step: CompactorStep): State
    requires CompactorEnabled(s, step)
  {
    match step
    case PassStart => s.(c := Gating(s.clock, {}))
    case GateAge(day) => s.(c := AgedDay(s.c.now, s.c.eligible, day))
    case GatePlain => s.(c := ClosedDay(s.c.now, s.c.eligible, s.c.day))
    case GateParquet => s.(c := Gating(s.c.now, s.c.eligible + {s.c.day}))
    case GateReject => s.(c := Gating(s.c.now, s.c.eligible))
    case Gated => s.(c := Compacting(s.c.now, s.c.eligible))
    case SkipEmptyDay(day) => s.(c := Compacting(s.c.now, s.c.todo - {day}))
    case StartDay(day) =>
      s.(c := Folding(s.c.now, s.c.todo - {day}, day, HoursOfDay(s.disk.gz.Keys, day), map[]))
    case FoldHour(hour) => s.(c := s.c.(out := s.c.out[hour := RowsOf(s.disk.gz[hour])]))
    case FoldFail => s.(c := Compacting(s.c.now, s.c.todo))
    case Publish =>
      s.(disk := s.disk.(parquet := s.disk.parquet[s.c.day := s.c.out]),
         c := Compacting(s.c.now, s.c.todo))
    case Compacted => s.(c := Sweeping(s.c.now, s.disk.parquet.Keys))
    case ListRaw(day) =>
      s.(c := Listed(s.c.now, s.c.todo - {day}, day, HoursOfDay(s.disk.gz.Keys, day)))
    case Verified => s.(c := Unlinking(s.c.now, s.c.todo, s.c.day, s.c.files))
    case KeepRaw => s.(c := Sweeping(s.c.now, s.c.todo))
    case Unlink(hour) =>
      s.(disk := s.disk.(gz := s.disk.gz - {hour}), c := s.c.(files := s.c.files - {hour}))
    case DayDone => s.(c := Sweeping(s.c.now, s.c.todo))
    case PassEnd => s.(c := Idle)
    case CompactorExit => s.(c := Idle)
  }

  function Apply(s: State, step: Step): State
    requires Enabled(s, step)
  {
    match step
    case Outside(o) => OutsideApply(s, o)
    case ByConsumer(w) => ConsumerApply(s, w)
    case ByCompactor(c) => CompactorApply(s, c)
  }

  // ----- runs

  ghost predicate Initial(s: State) {
    && |s.broker.base| == |s.broker.committed| == |s.broker.log|
    && s.broker.base == s.broker.committed
    && (forall p :: 0 <= p < |s.broker.log| ==> s.broker.base[p] <= |s.broker.log[p]|)
    && (forall p, o :: 0 <= p < |s.broker.log| && 0 <= o < |s.broker.log[p]| ==> WellFormedValue(s.broker.log[p][o]))
    && s.disk == Disk(map[], map[], map[], map[])
    && s.w == Down && s.c == Idle
    && s.h == History(map[], 0, 0, s.broker.committed, map[])
  }

  /** The states visited from s by a schedule of steps; the schedule decides every race and every crash. */
  ghost predicate Legal(s: State, schedule: seq<Step>)
    decreases |schedule|, 0
  {
    schedule == []
    || (Legal(s, schedule[..|schedule|-1])
        && Enabled(After(s, schedule[..|schedule|-1]), schedule[|schedule|-1]))
  }

  ghost function After(s: State, schedule: seq<Step>): State
    requires Legal(s, schedule)
    decreases |schedule|, 1
  {
    if schedule == [] then s
    else Apply(After(s, schedule[..|schedule|-1]), schedule[|schedule|-1])
  }

  lemma LegalExtend(s: State, schedule: seq<Step>, step: Step)
    requires Legal(s, schedule) && Enabled(After(s, schedule), step)
    ensures Legal(s, schedule + [step])
    ensures After(s, schedule + [step]) == Apply(After(s, schedule), step)
  {
    assert (schedule + [step])[..|schedule|] == schedule;
  }

  lemma {:induction false} LegalPrefix(s: State, schedule: seq<Step>, n: nat)
    requires Legal(s, schedule) && n <= |schedule|
    ensures Legal(s, schedule[..n])
  {
    if n == |schedule| {
      assert schedule[..n] == schedule;
    } else {
      LegalPrefix(s, schedule[..|schedule|-1], n);
      assert schedule[..|schedule|-1][..n] == schedule[..n];
    }
  }
}

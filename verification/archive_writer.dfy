/** writer.go and archive.go: the hour-file writer and the batch, write, fsync, commit loop. */
module ArchiveWriting {
  import opened ArchiveBytes
  import opened ArchiveModel
  import opened ArchiveInvariant
  import opened ArchiveTheorems
  import opened ArchiveWorld

  // ----- the bytes of the open hour, written and still to be written

  function Lines(ms: seq<Message>): seq<Byte> {
    if ms == [] then [] else Lines(ms[..|ms|-1]) + LineOf(ms[|ms|-1])
  }

  lemma {:induction false} LinesCons(m: Message, ms: seq<Message>)
    ensures Lines([m] + ms) == LineOf(m) + Lines(ms)
  {
    var all := [m] + ms;
    if ms == [] {
      assert all[..0] == [];
    } else {
      assert all[..|all|-1] == [m] + ms[..|ms|-1];
      LinesCons(m, ms[..|ms|-1]);
    }
  }

  /** What the buffer still holds, once k bytes of its first line have left it. */
  function Unwritten(buf: seq<Message>, k: nat): seq<Byte> {
    if k <= |Lines(buf)| then Lines(buf)[k..] else []
  }

  /** The bytes of an hour's file, nothing if there is none yet. */
  ghost function HourBytes(s: State, hour: nat): seq<Byte> {
    if hour in s.h.ledger then Bytes(s.h.ledger[hour]) else []
  }

  /** An hour as it will stand once the buffer is flushed. */
  ghost function Future(s: State, hour: nat): seq<Byte> {
    HourBytes(s, hour)
    + (if s.w.Up? && s.w.isOpen && hour == s.w.curKey then Unwritten(s.w.buf, s.w.spilled) else [])
  }

  ghost predicate SameFuture(a: State, b: State) {
    forall hour: nat :: Future(b, hour) == Future(a, hour)
  }

  /** One line more in one hour, and not a byte of difference in any other. */
  ghost predicate OneLineMore(a: State, b: State, m: Message, key: nat) {
    forall hour: nat :: Future(b, hour) == Future(a, hour) + (if hour == key then LineOf(m) else [])
  }

  /** Every byte that was on its way has arrived. */
  ghost predicate AllOut(a: State, b: State) {
    forall hour: nat :: HourBytes(b, hour) == Future(a, hour)
  }

  /** The buffer once one more byte has left it. */
  function AfterByte(buf: seq<Message>, k: nat): (seq<Message>, nat)
    requires buf != []
  {
    if k + 1 == |LineOf(buf[0])| then (buf[1..], 0) else (buf, k + 1)
  }

  lemma UnwrittenShrinks(buf: seq<Message>, k: nat)
    requires buf != [] && k < |LineOf(buf[0])|
    ensures Unwritten(buf, k) == [LineOf(buf[0])[k]] + Unwritten(AfterByte(buf, k).0, AfterByte(buf, k).1)
  {
    var all := Lines(buf);
    LinesCons(buf[0], buf[1..]);
    assert buf == [buf[0]] + buf[1..];
    assert all == LineOf(buf[0]) + Lines(buf[1..]);
    assert all[k..] == [all[k]] + all[k + 1..];
    assert Unwritten(AfterByte(buf, k).0, AfterByte(buf, k).1) == all[k + 1..];
  }

  /** Between two states only bytes have moved from the buffer to the open file. */
  ghost predicate OnlySpilled(a: State, b: State) {
    && SameLines(a, b)
    && b.w.pc == a.w.pc && b.w.curKey == a.w.curKey && b.w.isOpen == a.w.isOpen
    && SameFuture(a, b)
    && a.clock <= b.clock
  }

  function Left(s: State): nat {
    if s.w.Up? then |Unwritten(s.w.buf, s.w.spilled)| else 0
  }

  lemma Shift(b: seq<Byte>, x: Byte, rest: seq<Byte>)
    ensures (b + [x]) + rest == b + ([x] + rest)
  {
  }

  lemma SpillFrame(s: State)
    requires Inv(s) && s.w.Up? && s.w.buf != []
    ensures ConsumerEnabled(s, Spill)
    ensures
      var t := ConsumerApply(s, Spill);
      && SameLines(s, t)
      && t.w.pc == s.w.pc && t.w.curKey == s.w.curKey && t.w.isOpen == s.w.isOpen
      && (t.w.buf, t.w.spilled) == AfterByte(s.w.buf, s.w.spilled)
      && t.disk == s.disk.(plain := s.disk.plain[s.w.curKey := Grow(s.disk.plain[s.w.curKey], s.w.buf[0], s.w.spilled)])
      && t.h.ledger == s.h.ledger[s.w.curKey := t.disk.plain[s.w.curKey]]
      && s.w.curKey in s.disk.plain && s.w.curKey in s.h.ledger && s.w.spilled <= |s.w.buf[0].value|
      && t.clock == s.clock
  {
  }

  /** The byte that leaves the buffer is the byte that reaches the file. */
  lemma SpillMovesOneByte(s: State)
    requires Inv(s) && s.w.Up? && s.w.buf != []
    ensures ConsumerEnabled(s, Spill)
    ensures OnlySpilled(s, ConsumerApply(s, Spill))
    ensures Left(ConsumerApply(s, Spill)) + 1 == Left(s)
  {
    SpillFrame(s);
    var t := ConsumerApply(s, Spill);
    var c, buf, k := s.disk.plain[s.w.curKey], s.w.buf, s.w.spilled;
    UnwrittenShrinks(buf, k);
    GrowAppends(c, buf[0], k);
    Shift(Bytes(c), LineOf(buf[0])[k], Unwritten(t.w.buf, t.w.spilled));
  }

  lemma SomethingLeft(s: State)
    requires Inv(s) && s.w.Up? && s.w.buf != []
    ensures Left(s) > 0
  {
    UnwrittenShrinks(s.w.buf, s.w.spilled);
  }

  lemma HeadLeft(s: State)
    requires Inv(s) && s.w.Up?
    ensures s.w.spilled <= |Lines(s.w.buf)|
  {
    if s.w.buf != [] {
      LinesCons(s.w.buf[0], s.w.buf[1..]);
      assert s.w.buf == [s.w.buf[0]] + s.w.buf[1..];
    }
  }

  lemma UnwrittenGrows(buf: seq<Message>, k: nat, m: Message)
    requires k <= |Lines(buf)|
    ensures Unwritten(buf + [m], k) == Unwritten(buf, k) + LineOf(m)
  {
    LinesOneMore(buf, m);
    DropOfSum(Lines(buf), LineOf(m), k);
  }

  lemma LinesOneMore(buf: seq<Message>, m: Message)
    ensures Lines(buf + [m]) == Lines(buf) + LineOf(m)
  {
    assert (buf + [m])[..|buf|] == buf;
  }

  lemma DropOfSum(a: seq<Byte>, b: seq<Byte>, k: nat)
    requires k <= |a|
    ensures (a + b)[k..] == a[k..] + b
  {
  }

  /** The batch in hand and the committed offsets are as they were. */
  ghost predicate SameBatch(a: State, b: State) {
    && a.w.Up? && b.w.Up?
    && b.w.batch == a.w.batch && b.w.position == a.w.position
    && b.broker.committed == a.broker.committed && b.broker.base == a.broker.base
  }

  /** And so is the number of its lines written. */
  ghost predicate SameLines(a: State, b: State) {
    SameBatch(a, b) && b.w.written == a.w.written
  }

  /** Between two states finalizeStale has run some of its way: nothing else of this thread's has moved. */
  ghost predicate OnlyFinalized(a: State, b: State) {
    && a.w.Up? && b.w.Up? && b.w == a.w.(pc := b.w.pc)
    && b.h == a.h
    && b.broker.base == a.broker.base && b.broker.committed == a.broker.committed
    && a.clock <= b.clock
    && (forall hour <- b.disk.plain :: hour in a.disk.plain && b.disk.plain[hour] == a.disk.plain[hour])
    && (a.w.curKey in a.disk.plain ==> a.w.curKey in b.disk.plain)
  }

  lemma FinalizingKeepsFuture(a: State, b: State)
    requires OnlyFinalized(a, b)
    ensures SameLines(a, b) && SameFuture(a, b)
  {
  }

  class ArchiveWriter {
    const world: World
    var curKey: nat
    var curFile: bool          // curFile != nil
    var buf: seq<Message>      // lines in the buffer

    ghost predicate Valid()
      reads this, world
    {
      && world.Valid() && world.s.w.Up?
      && world.s.w.curKey == curKey && world.s.w.isOpen == curFile && world.s.w.buf == buf
    }

    /** The current hour is set aside before NewArchiveWriter finalizes anything. */
    constructor (world: World)
      requires world.Valid() && world.s.w.Down?
      modifies world
      ensures Valid() && this.world == world && world.s == ConsumerApply(old(world.s), Boot)
      ensures world.schedule == old(world.schedule) + [ByConsumer(Boot)] && world.turns == old(world.turns)
    {
      this.world := world;
      curKey, curFile, buf := HourOf(world.s.clock), false, [];
      new;
      world.Do(ByConsumer(Boot));
    }

    /** One step of this thread, and its effect on the writer's own fields. */
    method Take(step: ConsumerStep)
      requires Valid() && ConsumerEnabled(world.s, step) && !step.Exit? && !step.Boot?
      modifies this, world`s, world`schedule
      ensures Valid() && world.s == ConsumerApply(old(world.s), step)
      ensures old(world.schedule) <= world.schedule
    {
      world.Do(ByConsumer(step));
      curKey, curFile, buf := world.s.w.curKey, world.s.w.isOpen, world.s.w.buf;
    }

    /** The others run; if the coming operation is to fail, Run starts to unwind. */
    method Attempt() returns (ok: bool, spill: nat)
      requires Valid()
      modifies this, world
      ensures Valid() && old(world.schedule) <= world.schedule
      ensures FailsByFault(old(world.turns), world.turns, ok)
      ensures OnlyFinalized(old(world.s), world.s)
      ensures SameLines(old(world.s), world.s) && SameFuture(old(world.s), world.s)
      ensures world.s.w.pc == if ok then old(world.s.w.pc) else Exiting
      ensures world.s.disk.plain == old(world.s.disk.plain) && world.s.disk.tmp == old(world.s.disk.tmp)
    {
      ok, spill := world.Yield(Consumer);
      if !ok {
        Take(Unwind);
      }
    }

    /** bufio hands n more bytes to the file, or all it has. */
    method SpillBytes(n: nat)
      requires Valid()
      modifies this, world`s, world`schedule
      ensures Valid() && old(world.schedule) <= world.schedule
      ensures OnlySpilled(old(world.s), world.s)
      ensures n >= old(Left(world.s)) ==> buf == []
    {
      var i := 0;
      while i < n && buf != []
        invariant Valid() && old(world.schedule) <= world.schedule
        invariant OnlySpilled(old(world.s), world.s)
        invariant 0 <= i <= n && i + Left(world.s) == old(Left(world.s))
      {
        world.Known();
        SpillMovesOneByte(world.s);
        Take(Spill);
        i := i + 1;
      }
      if buf != [] {
        world.Known();
        SomethingLeft(world.s);
      }
    }

    // ----- the file operations of finalizeStale

    /** The hour's .gz is there, with this content. */
    ghost predicate GzHolds(hour: nat, content: Content)
      reads world
    {
      hour in world.s.disk.gz && world.s.disk.gz[hour] == content
    }

    method Glob(ghost next: Resume) returns (matches: set<nat>)
      requires Valid() && world.s.w.pc == Scan(next)
      modifies this, world`s, world`schedule
      ensures Valid() && old(world.schedule) <= world.schedule && OnlyFinalized(old(world.s), world.s)
      ensures world.s.w.pc == Finalize(matches, next) && matches == world.s.disk.plain.Keys - {curKey}
    {
      matches := world.s.disk.plain.Keys - {curKey};
      Take(ConsumerStep.Glob);
    }

    method StatGz(hour: nat, ghost todo: set<nat>, ghost next: Resume) returns (found: bool)
      requires Valid() && world.s.w.pc == Finalize(todo, next) && hour in todo
      modifies this, world`s, world`schedule
      ensures Valid() && old(world.schedule) <= world.schedule && OnlyFinalized(old(world.s), world.s)
      ensures world.s.w.pc == if found then GzRemove(hour, todo - {hour}, next) else GzOpen(hour, todo - {hour}, next)
      ensures hour in old(world.s.disk.plain) && world.s.disk.plain == old(world.s.disk.plain)
    {
      world.Known();
      found := hour in world.s.disk.gz;
      Take(GzStat(hour));
    }

    method CreateTmp(hour: nat, ghost todo: set<nat>, ghost next: Resume)
      requires Valid() && world.s.w.pc == GzOpen(hour, todo, next)
      modifies this, world`s, world`schedule
      ensures Valid() && old(world.schedule) <= world.schedule && OnlyFinalized(old(world.s), world.s)
      ensures world.s.w.pc == GzCopy(hour, todo, next)
      ensures world.s.disk.plain == old(world.s.disk.plain)
      ensures hour in world.s.disk.tmp && world.s.disk.tmp[hour] == []
    {
      Take(ConsumerStep.CreateTmp);
    }

    method WriteTmp(hour: nat, n: nat, ghost todo: set<nat>, ghost next: Resume)
      requires Valid() && world.s.w.pc == GzCopy(hour, todo, next)
      requires hour in world.s.disk.plain && n <= |world.s.disk.plain[hour]|
      modifies this, world`s, world`schedule
      ensures Valid() && old(world.schedule) <= world.schedule && OnlyFinalized(old(world.s), world.s)
      ensures world.s.w.pc == GzCopy(hour, todo, next)
      ensures world.s.disk.plain == old(world.s.disk.plain)
      ensures hour in world.s.disk.tmp && world.s.disk.tmp[hour] == world.s.disk.plain[hour][..n]
    {
      Take(GzChunk(n));
    }

    method RenameTmp(hour: nat, ghost todo: set<nat>, ghost next: Resume)
      requires Valid() && world.s.w.pc == GzCopy(hour, todo, next)
      requires hour in world.s.disk.plain && hour in world.s.disk.tmp
      requires world.s.disk.tmp[hour] == world.s.disk.plain[hour]
      modifies this, world`s, world`schedule
      ensures Valid() && old(world.schedule) <= world.schedule && OnlyFinalized(old(world.s), world.s)
      ensures world.s.w.pc == GzRemove(hour, todo, next)
      ensures hour in world.s.disk.plain && GzHolds(hour, world.s.disk.plain[hour])
    {
      Take(ConsumerStep.RenameTmp);
    }

    method RemoveTmp(hour: nat, ghost todo: set<nat>, ghost next: Resume)
      requires Valid() && world.s.w.pc == GzCopy(hour, todo, next)
      modifies this, world`s, world`schedule
      ensures Valid() && old(world.schedule) <= world.schedule && OnlyFinalized(old(world.s), world.s)
      ensures world.s.w.pc == Exiting
    {
      Take(AbortTmp);
    }

    method RemovePlain(hour: nat, ghost todo: set<nat>, ghost next: Resume)
      requires Valid() && world.s.w.pc == GzRemove(hour, todo, next)
      modifies this, world`s, world`schedule
      ensures Valid() && old(world.schedule) <= world.schedule && OnlyFinalized(old(world.s), world.s)
      ensures world.s.w.pc == Finalize(todo, next)
      ensures hour in old(world.s.disk.plain) && hour !in world.s.disk.plain
      ensures GzHolds(hour, old(world.s.disk.plain[hour]))
    {
      world.Known();
      Take(ConsumerStep.RemovePlain);
    }

    method EndFinalize(ghost next: Resume)
      requires Valid() && world.s.w.pc == Finalize({}, next)
      modifies this, world`s, world`schedule
      ensures Valid() && old(world.schedule) <= world.schedule && OnlyFinalized(old(world.s), world.s)
      ensures world.s.w.pc == if next.ToFetch? then Fetching else Appending
      ensures world.s.disk.plain.Keys <= {curKey}
    {
      world.Known();
      Take(Finalized);
    }

    // ----- gzipFile and finalizeStale

    /** tmp, rename, remove; only the remove if a complete .gz is already there. */
    method GzipFile(hour: nat, ghost todo: set<nat>, ghost next: Resume) returns (ok: bool)
      requires Valid() && world.s.w.pc == Finalize(todo, next) && hour in todo
      modifies this, world
      ensures Valid() && old(world.schedule) <= world.schedule
      ensures FailsByFault(old(world.turns), world.turns, ok)
      ensures OnlyFinalized(old(world.s), world.s)
      ensures world.s.w.pc == if ok then Finalize(todo - {hour}, next) else Exiting
      ensures ok ==> && hour in old(world.s.disk.plain) && hour !in world.s.disk.plain
                     && GzHolds(hour, old(world.s.disk.plain[hour]))
    {
      var spill: nat;
      ok, spill := Attempt();
      if !ok { return; }
      var found := StatGz(hour, todo, next);
      if !found {
        ok := CompressTmp(hour, todo - {hour}, next);
        if !ok { return; }
      }
      ok, spill := Attempt();
      if !ok { return; }
      RemovePlain(hour, todo - {hour}, next);
    }

    /** The .gz.tmp is filled chunk by chunk. */
    method CopyToTmp(hour: nat, ghost todo: set<nat>, ghost next: Resume) returns (ok: bool)
      requires Valid() && world.s.w.pc == GzCopy(hour, todo, next)
      requires hour in world.s.disk.plain && hour in world.s.disk.tmp && world.s.disk.tmp[hour] == []
      modifies this, world
      ensures Valid() && old(world.schedule) <= world.schedule
      ensures FailsByFault(old(world.turns), world.turns, ok)
      ensures OnlyFinalized(old(world.s), world.s) && world.s.w.pc == GzCopy(hour, todo, next)
      ensures ok ==> hour in world.s.disk.plain && hour in world.s.disk.tmp
                     && world.s.disk.tmp[hour] == world.s.disk.plain[hour]
    {
      var chunk: nat;
      var n, size := 0, |world.s.disk.plain[hour]|;
      ok := true;
      while ok && n < size
        invariant Valid() && old(world.schedule) <= world.schedule
        invariant OnlyFinalized(old(world.s), world.s) && FailsByFault(old(world.turns), world.turns, ok)
        invariant world.s.w.pc == GzCopy(hour, todo, next)
        invariant hour in world.s.disk.plain && |world.s.disk.plain[hour]| == size && 0 <= n <= size
        invariant hour in world.s.disk.tmp && world.s.disk.tmp[hour] == world.s.disk.plain[hour][..n]
        decreases size - n, if ok then 1 else 0
      {
        ok, chunk := world.Yield(Consumer);
        if ok {
          n := if n + chunk + 1 < size then n + chunk + 1 else size;
          WriteTmp(hour, n, todo, next);
        }
      }
    }

    /** The .gz.tmp is renamed when complete; on an error it is removed. */
    method CompressTmp(hour: nat, ghost todo: set<nat>, ghost next: Resume) returns (ok: bool)
      requires Valid() && world.s.w.pc == GzOpen(hour, todo, next) && hour in world.s.disk.plain
      modifies this, world
      ensures Valid() && old(world.schedule) <= world.schedule
      ensures FailsByFault(old(world.turns), world.turns, ok)
      ensures OnlyFinalized(old(world.s), world.s)
      ensures world.s.w.pc == if ok then GzRemove(hour, todo, next) else Exiting
      ensures ok ==> hour in world.s.disk.plain && GzHolds(hour, old(world.s.disk.plain[hour]))
    {
      var chunk: nat;
      ok, chunk := Attempt();
      if !ok { return; }
      CreateTmp(hour, todo, next);
      ok := CopyToTmp(hour, todo, next);
      if ok {
        ok, chunk := world.Yield(Consumer);
      }
      if ok {
        RenameTmp(hour, todo, next);
      } else {
        RemoveTmp(hour, todo, next);
      }
    }

    /** Gzips every plain hour file except the current hour's. */
    method FinalizeStale(ghost next: Resume) returns (ok: bool)
      requires Valid() && world.s.w.pc == Scan(next)
      modifies this, world
      ensures Valid() && old(world.schedule) <= world.schedule
      ensures FailsByFault(old(world.turns), world.turns, ok)
      ensures OnlyFinalized(old(world.s), world.s)
      ensures SameLines(old(world.s), world.s) && SameFuture(old(world.s), world.s)
      ensures world.s.w.pc == if !ok then Exiting else if next.ToFetch? then Fetching else Appending
      ensures ok ==> world.s.disk.plain.Keys <= {curKey}
    {
      var spill: nat;
      ok, spill := Attempt();
      if !ok { return; }
      var matches := Glob(next);
      while ok && matches != {}
        invariant Valid() && old(world.schedule) <= world.schedule
        invariant OnlyFinalized(old(world.s), world.s) && FailsByFault(old(world.turns), world.turns, ok)
        invariant world.s.w.pc == if ok then Finalize(matches, next) else Exiting
        decreases |matches|, if ok then 1 else 0
      {
        var path :| path in matches;
        ok := GzipFile(path, matches, next);
        if ok {
          matches := matches - {path};
        }
      }
      if ok {
        EndFinalize(next);
      }
      FinalizingKeepsFuture(old(world.s), world.s);
    }

    // ----- Close, rotate, Write, Flush

    method ReleaseFile()
      requires Valid() && curFile && buf == [] && (world.s.w.pc.Rotating? || world.s.w.pc.Exiting?)
      modifies this, world`s, world`schedule
      ensures Valid() && old(world.schedule) <= world.schedule
      ensures SameLines(old(world.s), world.s) && SameFuture(old(world.s), world.s)
      ensures world.s.w.pc == old(world.s.w.pc) && curKey == old(curKey) && !curFile
      ensures old(world.s.clock) <= world.s.clock
    {
      world.Known();
      Take(CloseFile);
    }

    /** Flushes the buffer and closes the file, leaving it plain. */
    method Close() returns (ok: bool)
      requires Valid() && curFile && (world.s.w.pc.Rotating? || world.s.w.pc.Exiting?)
      modifies this, world
      ensures Valid() && old(world.schedule) <= world.schedule
      ensures FailsByFault(old(world.turns), world.turns, ok)
      ensures SameLines(old(world.s), world.s) && curKey == old(curKey) && SameFuture(old(world.s), world.s)
      ensures ok ==> world.s.w.pc == old(world.s.w.pc) && !curFile
      ensures !ok ==> world.s.w.pc == Exiting
      ensures old(world.s.clock) <= world.s.clock
    {
      var spill: nat;
      ok, spill := Attempt();
      if ok {
        SpillBytes(Left(world.s));
        ReleaseFile();
      }
    }

    method Open(key: nat)
      requires Valid() && world.s.w.pc.Rotating? && world.s.w.pc.key == key && !curFile
      modifies this, world`s, world`schedule
      ensures Valid() && old(world.schedule) <= world.schedule
      ensures SameLines(old(world.s), world.s) && SameFuture(old(world.s), world.s)
      ensures world.s.w.pc == Scan(ToAppend) && curKey == key && curFile && buf == []
      ensures old(world.s.clock) <= world.s.clock
    {
      world.Known();
      NewHourIsNew(world.s, OpenFile);
      Take(OpenFile);
    }

    /** rotate: closes the current hour, opens the given one, finalizes the rest. */
    method Rotate(key: nat) returns (ok: bool)
      requires Valid() && world.s.w.pc.Rotating? && world.s.w.pc.key == key
      modifies this, world
      ensures Valid() && old(world.schedule) <= world.schedule
      ensures FailsByFault(old(world.turns), world.turns, ok)
      ensures SameLines(old(world.s), world.s) && SameFuture(old(world.s), world.s)
      ensures world.s.w.pc == if ok then Appending else Exiting
      ensures ok ==> curFile && curKey == key && world.s.disk.plain.Keys <= {key}
      ensures old(world.s.clock) <= world.s.clock
    {
      var spill: nat;
      if curFile {
        ok := Close();
        if !ok { return; }
      }
      ok, spill := Attempt();
      if !ok { return; }
      Open(key);
      ok := FinalizeStale(ToAppend);
    }

    /** The hour of the clock, and whether its file is the one that is open. */
    method CurrentHour() returns (key: nat, stays: bool)
      requires Valid() && world.s.w.pc == Writing && world.s.w.written < |world.s.w.batch|
      modifies this, world`s, world`schedule
      ensures Valid() && old(world.schedule) <= world.schedule
      ensures SameLines(old(world.s), world.s) && SameFuture(old(world.s), world.s)
      ensures key == HourOf(world.s.clock) && world.s.clock == old(world.s.clock)
      ensures stays ==> world.s.w.pc == Appending && curFile && curKey == key
      ensures !stays ==> world.s.w.pc.Rotating? && world.s.w.pc.key == key
    {
      key := HourOf(world.s.clock);
      stays := key == curKey && curFile;
      Take(ReadClock);
    }

    method AppendToBuffer(m: Message)
      requires Valid() && world.s.w.pc == Appending && curFile
      requires world.s.w.written < |world.s.w.batch| && m == world.s.w.batch[world.s.w.written]
      modifies this, world`s, world`schedule
      ensures Valid() && old(world.schedule) <= world.schedule
      ensures SameBatch(old(world.s), world.s) && curKey == old(curKey)
      ensures world.s.w.pc == Writing && world.s.w.written == old(world.s.w.written) + 1
      ensures OneLineMore(old(world.s), world.s, m, curKey)
      ensures old(world.s.clock) <= world.s.clock
    {
      world.Known();
      HeadLeft(world.s);
      UnwrittenGrows(buf, world.s.w.spilled, m);
      Take(AppendLine);
    }

    /** Write: one line to the current hour, rotating first when the hour has changed. */
    method Write(m: Message) returns (ok: bool)
      requires Valid() && world.s.w.pc == Writing
      requires world.s.w.written < |world.s.w.batch| && m == world.s.w.batch[world.s.w.written]
      modifies this, world
      ensures Valid() && old(world.schedule) <= world.schedule
      ensures FailsByFault(old(world.turns), world.turns, ok)
      ensures SameBatch(old(world.s), world.s)
      ensures world.s.w.pc == if ok then Writing else Exiting
      ensures ok ==> world.s.w.written == old(world.s.w.written) + 1
      ensures ok ==> OneLineMore(old(world.s), world.s, m, curKey)
      ensures ok ==> old(world.s.clock) / 3600 <= curKey <= world.s.clock / 3600
    {
      var spill: nat;
      ok, spill := Attempt();
      if !ok { return; }
      var key, stays := CurrentHour();
      if !stays {
        ok := Rotate(key);
        if !ok { return; }
      }
      AppendToBuffer(m);
      ok, spill := Attempt();
      if !ok { return; }
      SpillBytes(spill);
    }

    method Sync()
      requires Valid() && world.s.w.pc == Writing && world.s.w.written == |world.s.w.batch| && buf == []
      modifies this, world`s, world`schedule
      ensures Valid() && old(world.schedule) <= world.schedule
      ensures SameLines(old(world.s), world.s) && world.s.w.pc == Committing && buf == [] && curKey == old(curKey)
      ensures AllOut(old(world.s), world.s)
      ensures old(world.s.clock) <= world.s.clock
    {
      world.Known();
      Take(Synced);
    }

    /** Flush: everything buffered reaches the file and is fsynced. */
    method Flush() returns (ok: bool)
      requires Valid() && world.s.w.pc == Writing && world.s.w.written == |world.s.w.batch|
      modifies this, world
      ensures Valid() && old(world.schedule) <= world.schedule
      ensures FailsByFault(old(world.turns), world.turns, ok)
      ensures SameLines(old(world.s), world.s)
      ensures world.s.w.pc == if ok then Committing else Exiting
      ensures ok ==> buf == [] && AllOut(old(world.s), world.s) && curKey == old(curKey)
      ensures old(world.s.clock) <= world.s.clock
    {
      var spill: nat;
      ok, spill := Attempt();
      if !ok { return; }
      SpillBytes(Left(world.s));
      ok, spill := Attempt();
      if !ok { return; }
      Sync();
    }
  }
}

/** eligibility.py, compact.py and main.py: the gates, the fold, verify-then-delete, and one pass of them. */
module ArchiveCompaction {
  import opened ArchiveBytes
  import opened ArchiveModel
  import opened ArchiveInvariant
  import opened ArchiveTheorems
  import opened ArchiveWorld

  // ----- sorted lists of days

  predicate Ascending(days: seq<nat>) {
    forall i :: 0 <= i < |days| - 1 ==> days[i] <= days[i + 1]
  }

  function Insert(days: seq<nat>, day: nat): (r: seq<nat>)
    requires Ascending(days)
    ensures Ascending(r) && multiset(r) == multiset(days) + multiset{day}
    ensures |r| == |days| + 1 && (r[0] == day || (days != [] && r[0] == days[0]))
  {
    if days == [] || day <= days[0] then [day] + days
    else
      assert days == [days[0]] + days[1..];
      [days[0]] + Insert(days[1..], day)
  }

  function Sorted(days: seq<nat>): (r: seq<nat>)
    ensures Ascending(r) && multiset(r) == multiset(days)
  {
    if days == [] then []
    else
      assert days == [days[0]] + days[1..];
      Insert(Sorted(days[1..]), days[0])
  }

  predicate Distinct(days: seq<nat>) {
    forall i, j :: 0 <= i < j < |days| ==> days[i] != days[j]
  }

  // ----- gates

  /** _old_enough: the day's midnight is at least MIN_AGE before now. */
  predicate OldEnough(day: nat, now: nat) {
    now >= DAY * day + MIN_AGE
  }

  /** _grace_elapsed: the Parquet output is keepRawDays old; 0 or less means at once. */
  predicate GraceElapsed(mtime: int, keepRawDays: int, now: int) {
    keepRawDays <= 0 || now - mtime >= keepRawDays * DAY
  }

  /** Between two states settled days have stayed settled. */
  ghost predicate Kept(a: State, b: State) {
    && a.clock <= b.clock
    && forall day: nat :: Settled(a.clock, a.disk, day) ==> Settled(b.clock, b.disk, day)
  }

  /** Between two states only others have run: the compactor and Parquet are as they were, settled days' raw files too. */
  ghost predicate Quiet(a: State, b: State) {
    && b.c == a.c && b.disk.parquet == a.disk.parquet
    && Kept(a, b) && Carried(a.disk.gz, b.disk.gz)
    && forall day: nat :: Settled(a.clock, a.disk, day) ==> SameRaw(a.disk, b.disk, day)
  }

  /** What the three gates ask of a day: 48 hours since its midnight, no plain file in its 24 hours, no Parquet. */
  ghost predicate Passes(s: State, now: nat, day: nat) {
    && now - 86_400 * day >= 172_800
    && (forall hour: nat :: 24 * day <= hour < 24 * day + 24 ==> hour !in s.disk.plain)
    && day !in s.disk.parquet
  }

  lemma PassesAre(s: State, now: nat, day: nat)
    ensures Passes(s, now, day) <==> OldEnough(day, now) && NoPlain(s.disk, day) && day !in s.disk.parquet
  {
  }

  lemma PassingStays(a: State, b: State, now: nat)
    requires Kept(a, b) && now <= a.clock && b.disk.parquet == a.disk.parquet
    ensures forall day: nat :: Passes(a, now, day) ==> Passes(b, now, day)
  {
    forall day: nat | Passes(a, now, day) ensures Passes(b, now, day) {
      PassesAre(a, now, day);
      assert Settled(a.clock, a.disk, day);
      PassesAre(b, now, day);
    }
  }

  lemma AgedNow(world: World, day: nat)
    requires world.Valid()
    requires (world.s.c.Gating? && OldEnough(day, world.s.c.now)) || (world.s.c.AgedDay? && day == world.s.c.day)
    ensures Aged(world.s.clock, day)
  {
    world.Known();
  }

  lemma TotalStep(count: nat -> nat, n: nat)
    ensures Total(count, n + 1) == Total(count, n) + count(n)
  {
  }

  class Compaction {
    const world: World

    constructor (world: World)
      ensures this.world == world
    {
      this.world := world;
    }

    ghost predicate Valid()
      reads this, world
    {
      world.Valid()
    }

    method Take(step: CompactorStep)
      requires Valid() && CompactorEnabled(world.s, step)
      modifies world`s, world`schedule
      ensures Valid() && world.s == CompactorApply(old(world.s), step)
      ensures old(world.schedule) <= world.schedule
    {
      world.Do(ByCompactor(step));
    }

    /** _has_plain_ndjson: any hour of the day still plain; a directory that cannot be read counts as one. */
    method HasPlainNdjson(day: nat) returns (plain: bool)
      ensures plain <==> !NoPlain(world.s.disk, day)
    {
      var i := 0;
      while i < 24
        invariant 0 <= i <= 24
        invariant forall hour: nat :: 24 * day <= hour < 24 * day + i ==> hour !in world.s.disk.plain
      {
        if 24 * day + i in world.s.disk.plain {
          assert DayOf(24 * day + i) == day;
          return true;
        }
        i := i + 1;
      }
      plain := false;
    }

    /** The writer and the clock run on. */
    method Pause() returns (ok: bool)
      requires Valid()
      modifies world
      ensures FailsByFault(old(world.turns), world.turns, ok)
      ensures Valid() && old(world.schedule) <= world.schedule && Quiet(old(world.s), world.s)
    {
      var spill;
      ok, spill := world.Yield(CompactorPass);
    }

    /** A step that only moves the compactor along leaves everything else alone. */
    method Move(step: CompactorStep)
      requires Valid() && CompactorEnabled(world.s, step) && !step.Publish? && !step.Unlink?
      modifies world`s, world`schedule
      ensures Valid() && old(world.schedule) <= world.schedule
      ensures world.s == old(world.s).(c := CompactorApply(old(world.s), step).c)
    {
      Take(step);
    }

    /** The three gates for one day directory, one check after another while the writer runs on. */
    method CheckDay(day: nat) returns (eligible: bool, readable: bool)
      requires Valid() && world.s.c.Gating?
      modifies world
      ensures Valid() && old(world.schedule) <= world.schedule && Kept(old(world.s), world.s)
      ensures world.s.disk.parquet == old(world.s.disk.parquet)
      ensures world.s.c == Gating(old(world.s.c.now), old(world.s.c.eligible) + (if eligible then {day} else {}))
      ensures eligible ==> Passes(world.s, old(world.s.c.now), day)
      ensures old(Passes(world.s, world.s.c.now, day)) && readable ==> eligible
      ensures Faults(world.turns) + (if readable then 0 else 1) <= old(Faults(world.turns))
      ensures Carried(old(world.s.disk.gz), world.s.disk.gz)
    {
      eligible, readable := false, true;
      PassesAre(world.s, world.s.c.now, day);
      if !OldEnough(day, world.s.c.now) { return; }
      AgedNow(world, day);
      ghost var quiet := Settled(world.s.clock, world.s.disk, day);
      Move(GateAge(day));
      readable := Pause();
      var plain := HasPlainNdjson(day);
      if !readable || plain {
        Move(GateReject);
        return;
      }
      AgedNow(world, day);
      assert Settled(world.s.clock, world.s.disk, day);
      Move(GatePlain);
      var ok := Pause();
      eligible := day !in world.s.disk.parquet;
      Move(if eligible then GateParquet else GateReject);
      PassesAre(world.s, old(world.s.c.now), day);
    }

    /**
     eligible_days: of the day directories found, in whatever order, those that
     pass all three gates, oldest first. A day that passed when the check began is missed
     only if a fault kept its directory from being read, one fault a day.
     */
    method EligibleDays(listing: seq<nat>) returns (days: seq<nat>, ghost unreadable: set<nat>)
      requires Valid() && world.s.c.Gating? && world.s.c.eligible == {} && Distinct(listing)
      modifies world
      ensures Valid() && old(world.schedule) <= world.schedule
      ensures world.s.disk.parquet == old(world.s.disk.parquet)
      ensures Ascending(days) && Distinct(days)
      ensures world.s.c == Gating(old(world.s.c.now), set day | day in days)
      ensures forall day <- days :: day in listing && Passes(world.s, old(world.s.c.now), day)
      ensures forall day <- listing :: old(Passes(world.s, world.s.c.now, day)) ==> day in days || day in unreadable
      ensures Faults(world.turns) + |unreadable| <= old(Faults(world.turns))
      ensures Carried(old(world.s.disk.gz), world.s.disk.gz)
    {
      var found := [];
      unreadable := {};
      world.Known();
      var i := 0;
      while i < |listing|
        invariant 0 <= i <= |listing|
        invariant Valid() && old(world.schedule) <= world.schedule
        invariant GatedTo(old(world.s), world.s, listing, i, found, unreadable)
        invariant Faults(world.turns) + |unreadable| <= old(Faults(world.turns))
      {
        ghost var before := world.s;
        PassingStays(old(world.s), before, old(world.s.c.now));
        var eligible, readable := CheckDay(listing[i]);
        PassingStays(before, world.s, old(world.s.c.now));
        GatedOneMore(old(world.s), before, world.s, listing, i, found, unreadable, eligible, readable);
        if eligible {
          found := found + [listing[i]];
        } else if !readable {
          unreadable := unreadable + {listing[i]};
        }
        i := i + 1;
      }
      days := Sorted(found);
      SameDays(days, found);
      DistinctAsMultiset(found);
      DistinctFromMultiset(days);
    }

    // ----- the fold

    /** The day's closed hours on disk, oldest first. */
    method RawFiles(day: nat) returns (files: seq<nat>)
      ensures Ascending(files) && Distinct(files)
      ensures forall hour: nat :: hour in files <==> hour in HoursOfDay(world.s.disk.gz.Keys, day)
    {
      files := [];
      var i := 0;
      while i < 24
        invariant 0 <= i <= 24 && Ascending(files) && Distinct(files)
        invariant forall hour <- files :: hour < 24 * day + i
        invariant forall hour: nat :: hour in files <==>
                    hour in world.s.disk.gz && 24 * day <= hour < 24 * day + i
      {
        if 24 * day + i in world.s.disk.gz {
          assert files != [] ==> files[|files|-1] in files;
          files := files + [24 * day + i];
        }
        i := i + 1;
      }
    }

    /** The raw lines of one hour of the day, none if it has no file. */
    method CountHour(day: nat, i: nat) returns (lines: nat)
      ensures lines == GzRows(world.s.disk.gz, day)(i)
    {
      lines := LinesIn(world.s.disk.gz, 24 * day + i);
    }

    method CountGz(day: nat) returns (total: nat)
      ensures total == Total(GzRows(world.s.disk.gz, day), 24)
    {
      var i: nat := 0;
      total := 0;
      while i < 24
        invariant i <= 24 && total == Total(GzRows(world.s.disk.gz, day), i)
      {
        var lines := CountHour(day, i);
        TotalStep(GzRows(world.s.disk.gz, day), i);
        total := total + lines;
        i := i + 1;
      }
    }

    method CountParquet(day: nat) returns (total: nat)
      requires day in world.s.disk.parquet
      ensures total == Total(ParquetRows(world.s.disk.parquet[day], day), 24)
    {
      var i: nat := 0;
      var out := world.s.disk.parquet[day];
      total := 0;
      while i < 24
        invariant i <= 24 && total == Total(ParquetRows(out, day), i)
      {
        TotalStep(ParquetRows(out, day), i);
        ParquetRowsAt(out, day, i);
        if 24 * day + i in out {
          total := total + |out[24 * day + i]|;
        }
        i := i + 1;
      }
    }

    /** verify_counts: both sides re-counted on disk. */
    method VerifyCounts(day: nat) returns (agree: bool)
      requires day in world.s.disk.parquet
      ensures agree <==> CountsAgree(world.s.disk, day)
    {
      var source := CountGz(day);
      var rows := CountParquet(day);
      agree := source == rows;
    }

    /** One hour read and folded; an unreadable one makes the whole day fail. */
    method FoldOne(hour: nat) returns (ok: bool, lines: nat)
      requires Valid() && world.s.c.Folding? && hour in world.s.c.sources && hour in world.s.disk.gz
      modifies world
      ensures FailsByFault(old(world.turns), world.turns, ok)
      ensures Valid() && old(world.schedule) <= world.schedule
      ensures world.s.disk.parquet == old(world.s.disk.parquet)
      ensures forall hour <- old(world.s.disk.gz) ::
                hour in world.s.disk.gz && world.s.disk.gz[hour] == old(world.s.disk.gz[hour])
      ensures ok ==> lines == |RowsOf(old(world.s.disk.gz)[hour])|
      ensures world.s.c == if ok then old(world.s.c).(out := old(world.s.c.out)[hour := RowsOf(old(world.s.disk.gz)[hour])])
                           else Compacting(old(world.s.c.now), old(world.s.c.todo))
    {
      ok := Pause();
      lines := 0;
      if ok {
        lines := |RowsOf(world.s.disk.gz[hour])|;
        Move(FoldHour(hour));
      } else {
        Move(FoldFail);
      }
    }

    /** One hour of the day, if it has a file. */
    method FoldSlot(hour: nat, found: bool, ghost gz: map<nat, Content>) returns (ok: bool, lines: nat)
      requires Valid() && world.s.c.Folding? && Carried(gz, world.s.disk.gz)
      requires found == (hour in gz) && (found ==> hour in world.s.c.sources)
      modifies world
      ensures FailsByFault(old(world.turns), world.turns, ok)
      ensures Valid() && old(world.schedule) <= world.schedule
      ensures world.s.disk.parquet == old(world.s.disk.parquet) && Carried(gz, world.s.disk.gz)
      ensures !ok ==> world.s.c == Compacting(old(world.s.c.now), old(world.s.c.todo))
      ensures ok ==> lines == LinesIn(gz, hour)
      ensures ok ==> world.s.c == old(world.s.c).(out := Folded(RowsOf, old(world.s.c.out), gz, hour))
    {
      ok, lines := true, 0;
      if found {
        ok, lines := FoldOne(hour);
      }
    }

    /** Every file folded in turn, oldest hour first. */
    method FoldAll(day: nat, files: seq<nat>) returns (ok: bool, lines: nat)
      requires Valid() && world.s.c.Folding? && world.s.c.day == day && world.s.c.out == map[]
      requires world.s.c.sources == HoursOfDay(world.s.disk.gz.Keys, day)
      requires forall hour: nat :: hour in files <==> hour in world.s.c.sources
      modifies world
      ensures FailsByFault(old(world.turns), world.turns, ok)
      ensures Valid() && old(world.schedule) <= world.schedule
      ensures world.s.disk.parquet == old(world.s.disk.parquet)
      ensures !ok ==> world.s.c == Compacting(old(world.s.c.now), old(world.s.c.todo))
      ensures ok ==> lines == Total(GzRows(old(world.s.disk.gz), day), 24)
      ensures ok ==> world.s.c.Folding? && world.s.c == old(world.s.c).(out := world.s.c.out)
      ensures ok ==> ExactFold(world.s.c.out, old(world.s.disk.gz), day)
      ensures Carried(old(world.s.disk.gz), world.s.disk.gz)
    {
      ghost var gz, parquet, c := world.s.disk.gz, world.s.disk.parquet, world.s.c;
      ok, lines := true, 0;
      var i: nat := 0;
      while ok && i < 24
        invariant i <= 24
        invariant Valid() && old(world.schedule) <= world.schedule
        invariant world.s.disk.parquet == parquet && Carried(gz, world.s.disk.gz)
        invariant !ok ==> world.s.c == Compacting(c.now, c.todo)
        invariant FailsByFault(old(world.turns), world.turns, ok)
        invariant ok ==> lines == Total(GzRows(gz, day), i)
        invariant ok ==> world.s.c == c.(out := FoldedTo(RowsOf, gz, day, i))
        decreases 24 - i
      {
        var more;
        SlotOfDay(gz, day, i);
        ok, more := FoldSlot(24 * day + i, 24 * day + i in files, gz);
        GzRowsAt(gz, day, i);
        lines := lines + more;
        i := i + 1;
      }
      if ok {
        FoldingEnds(RowsOf, gz, day);
      }
    }

    /**
     compact_day: folds one day and publishes it under its final name in one
     move. What is published is exactly the day's raw rows, and both counts
     reported are theirs. A fault before the move publishes nothing; one after
     it, in reading back, leaves the day published all the same.
     */
    method CompactDay(day: nat) returns (r: CompactOutcome)
      requires Valid() && world.s.c.Compacting? && day in world.s.c.todo
      modifies world
      ensures Valid() && old(world.schedule) <= world.schedule
      ensures FailsByFault(old(world.turns), world.turns, r.Compacted?)
      ensures world.s.c == Compacting(old(world.s.c.now), old(world.s.c.todo) - {day})
      ensures r.NotPublished? ==> world.s.disk.parquet == old(world.s.disk.parquet)
      ensures r.NotReadBack? ==> PublishedFrom(old(world.s.disk), world.s.disk, day)
      ensures r.Compacted? ==> Reported(old(world.s.disk), world.s.disk, day, r.result)
      ensures Carried(old(world.s.disk.gz), world.s.disk.gz)
    {
      var files := RawFiles(day);
      if files == [] {
        NoFiles(files, HoursOfDay(world.s.disk.gz.Keys, day));
        Move(SkipEmptyDay(day));
        return CompactOutcome.Compacted(CompactResult(day, files, 0, 0));
      }
      assert files[0] in HoursOfDay(world.s.disk.gz.Keys, day);
      Move(StartDay(day));
      r := FoldAndPublish(day, files);
    }

    method FoldAndPublish(day: nat, files: seq<nat>) returns (r: CompactOutcome)
      requires Valid() && world.s.c.Folding? && world.s.c.day == day && world.s.c.out == map[]
      requires world.s.c.sources == HoursOfDay(world.s.disk.gz.Keys, day)
      requires (forall hour: nat :: hour in files <==> hour in world.s.c.sources) && files != [] && Ascending(files)
      modifies world
      ensures Valid() && old(world.schedule) <= world.schedule
      ensures FailsByFault(old(world.turns), world.turns, r.Compacted?)
      ensures world.s.c == Compacting(old(world.s.c.now), old(world.s.c.todo))
      ensures CameOut(old(world.s.disk), world.s.disk, day, r)
      ensures Carried(old(world.s.disk.gz), world.s.disk.gz)
    {
      var ok, lines := FoldAll(day, files);
      if !ok { return NotPublished; }
      r := PublishFolded(day, files, lines, old(world.s.disk));
    }

    /** What has been folded is published, unless that fails. */
    method PublishFolded(day: nat, files: seq<nat>, lines: nat, ghost a: Disk) returns (r: CompactOutcome)
      requires Valid() && world.s.c.Folding? && world.s.c.day == day && world.s.c.sources == HoursOfDay(a.gz.Keys, day)
      requires ExactFold(world.s.c.out, a.gz, day) && world.s.disk.parquet == a.parquet && Carried(a.gz, world.s.disk.gz)
      requires files != [] && Ascending(files) && forall hour: nat :: hour in files <==> hour in HoursOfDay(a.gz.Keys, day)
      requires lines == Total(GzRows(a.gz, day), 24)
      modifies world
      ensures Valid() && old(world.schedule) <= world.schedule
      ensures FailsByFault(old(world.turns), world.turns, r.Compacted?)
      ensures world.s.c == Compacting(old(world.s.c.now), old(world.s.c.todo))
      ensures CameOut(a, world.s.disk, day, r) && Carried(a.gz, world.s.disk.gz)
    {
      var ok := Pause();
      if !ok {
        Move(FoldFail);
        return NotPublished;
      }
      ghost var out := world.s.c.out;
      var rows;
      ok, rows := PublishDay(day, a.gz);
      r := if ok then CompactOutcome.Compacted(CompactResult(day, files, lines, rows)) else NotReadBack;
      PublishedOut(a, world.s.disk, day, out, files, lines, rows, r);
    }

    /** The whole directory appears under its final name at once; its rows are then read back. */
    method PublishDay(day: nat, ghost gz: map<nat, Content>) returns (ok: bool, rows: nat)
      requires Valid() && world.s.c.Folding? && world.s.c.day == day
      requires world.s.c.sources == HoursOfDay(gz.Keys, day) && ExactFold(world.s.c.out, gz, day)
      modifies world
      ensures FailsByFault(old(world.turns), world.turns, ok)
      ensures Valid() && old(world.schedule) <= world.schedule
      ensures world.s.c == Compacting(old(world.s.c.now), old(world.s.c.todo))
      ensures world.s.disk.parquet == old(world.s.disk.parquet)[day := old(world.s.c.out)]
      ensures ok ==> rows == Total(GzRows(gz, day), 24)
      ensures Carried(old(world.s.disk.gz), world.s.disk.gz)
    {
      ghost var out := world.s.c.out;
      Take(Publish);
      ok := Pause();
      rows := 0;
      if ok {
        rows := CountParquet(day);
        ExactTotals(out, gz, day);
      }
    }

    // ----- verify, then delete

    method UnlinkOne(hour: nat)
      requires Valid() && world.s.c.Unlinking? && hour in world.s.c.files
      modifies world`s, world`schedule
      ensures Valid() && old(world.schedule) <= world.schedule && Kept(old(world.s), world.s)
      ensures world.s.c == old(world.s.c).(files := old(world.s.c.files) - {hour})
      ensures world.s.disk == old(world.s.disk).(gz := old(world.s.disk.gz) - {hour})
    {
      Take(Unlink(hour));
    }

    /** The next file goes, unless the unlink fails. */
    method UnlinkNext(day: nat, hour: nat, ghost a: State, ghost rest: set<nat>) returns (ok: bool)
      requires Valid() && UnlinkedTo(a, world.s, day, rest) && hour in rest
      modifies world
      ensures Valid() && old(world.schedule) <= world.schedule && FailsByFault(old(world.turns), world.turns, ok)
      ensures UnlinkedTo(a, world.s, day, if ok then rest - {hour} else rest)
    {
      ghost var before := world.s;
      ok := Pause();
      QuietUnlinks(a, before, world.s, day, rest);
      if ok {
        before := world.s;
        UnlinkOne(hour);
        OneUnlinked(a, before, world.s, day, rest, hour);
      }
    }

    /** The unlink loop: oldest first; an error leaves the rest for a human. */
    method UnlinkAll(day: nat, files: seq<nat>) returns (ok: bool)
      requires Valid() && world.s.c.Unlinking? && world.s.c.day == day && Settled(world.s.clock, world.s.disk, day)
      requires forall hour: nat :: hour in files <==> hour in world.s.c.files
      requires world.s.c.files == HoursOfDay(world.s.disk.gz.Keys, day)
      requires Distinct(files)
      modifies world
      ensures Valid() && old(world.schedule) <= world.schedule && Kept(old(world.s), world.s)
      ensures world.s.disk.parquet == old(world.s.disk.parquet)
      ensures world.s.c == Sweeping(old(world.s.c.now), old(world.s.c.todo))
      ensures ok ==> HoursOfDay(world.s.disk.gz.Keys, day) == {}
      ensures CarriedBut(old(world.s.disk.gz), world.s.disk.gz, day)
      ensures FailsByFault(old(world.turns), world.turns, ok)
      ensures OthersSame(old(world.s), world.s, day)
    {
      var i := 0;
      ok := true;
      assert files[0..] == files;
      while ok && i < |files|
        invariant 0 <= i <= |files|
        invariant Valid() && old(world.schedule) <= world.schedule
        invariant UnlinkedTo(old(world.s), world.s, day, HoursIn(files[i..]))
        invariant FailsByFault(old(world.turns), world.turns, ok)
        decreases |files| - i, if ok then 1 else 0
      {
        ok := UnlinkNext(day, files[i], old(world.s), HoursIn(files[i..]));
        if ok {
          RestOfFiles(files, i);
          i := i + 1;
        }
      }
      Move(DayDone);
    }

    /**
     delete_raw_day: nothing without raw files, without a published day, or
     inside the grace period; then verify, then unlink. Whatever the outcome, a raw
     file is gone only if the grace period was over and the counts were equal, and
     neither published rows nor other days' files are touched.
     */
    method DeleteRawDay(day: nat, keepRawDays: int, mtime: int) returns (r: DeleteResult)
      requires Valid() && world.s.c.Sweeping? && day in world.s.c.todo
      modifies world
      ensures Valid() && old(world.schedule) <= world.schedule && Kept(old(world.s), world.s)
      ensures world.s.disk.parquet == old(world.s.disk.parquet)
      ensures world.s.c.Sweeping? && world.s.c.now == old(world.s.c.now)
              && old(world.s.c.todo) - {day} <= world.s.c.todo <= old(world.s.c.todo)
      ensures r == DeletedFiles([]) <==> !old(Deletable(world.s, day, keepRawDays, mtime))
      ensures r == DeletedFiles([]) ==> world.s == old(world.s) && world.turns == old(world.turns)
      ensures old(Deletable(world.s, day, keepRawDays, mtime)) ==>
                SweptDay(r, old(world.s.disk), world.s.disk, day, old(world.turns), world.turns)
      ensures forall hour: nat :: hour in old(world.s.disk.gz) && hour !in world.s.disk.gz ==>
                && hour / 24 == day && day in old(world.s.disk.parquet)
                && (keepRawDays <= 0 || old(world.s.c.now) - mtime >= keepRawDays * 86_400)
                && old(CountsAgree(world.s.disk, day))
      ensures CarriedBut(old(world.s.disk.gz), world.s.disk.gz, day) && OthersSame(old(world.s), world.s, day)
    {
      var files := RawFiles(day);
      DeletableIs(world.s, day, keepRawDays, mtime);
      if files == [] || day !in world.s.disk.parquet || !GraceElapsed(mtime, keepRawDays, world.s.c.now) {
        if files == [] {
          NoFiles(files, HoursOfDay(world.s.disk.gz.Keys, day));
        }
        return DeletedFiles([]);
      }
      assert files[0] in HoursOfDay(world.s.disk.gz.Keys, day);
      ghost var a := world.s.disk;
      r := VerifyThenDelete(day, files);
      OnlyDayGone(a, world.s.disk, day, r, old(world.turns), world.turns);
    }

    method VerifyThenDelete(day: nat, files: seq<nat>) returns (r: DeleteResult)
      requires Valid() && world.s.c.Sweeping? && day in world.s.c.todo && day in world.s.disk.parquet
      requires files != [] && Distinct(files) && HoursOfDay(world.s.disk.gz.Keys, day) != {}
      requires forall hour: nat :: hour in files <==> hour in HoursOfDay(world.s.disk.gz.Keys, day)
      modifies world
      ensures Valid() && old(world.schedule) <= world.schedule && Kept(old(world.s), world.s)
      ensures world.s.disk.parquet == old(world.s.disk.parquet)
      ensures world.s.c == Sweeping(old(world.s.c.now), old(world.s.c.todo) - {day})
      ensures SweptDay(r, old(world.s.disk), world.s.disk, day, old(world.turns), world.turns)
      ensures CarriedBut(old(world.s.disk.gz), world.s.disk.gz, day) && OthersSame(old(world.s), world.s, day)
      ensures r != DeletedFiles([])
    {
      PublishedIsSettled(world, day);
      var agree := ListAndVerify(day);
      if agree {
        r := DeleteVerified(day, files, old(world.s), old(world.turns));
      } else {
        r := VerificationError;
      }
    }

    method ListFiles(day: nat)
      requires Valid() && world.s.c.Sweeping? && day in world.s.c.todo && day in world.s.disk.parquet
      requires HoursOfDay(world.s.disk.gz.Keys, day) != {}
      modifies world`s, world`schedule
      ensures Valid() && old(world.schedule) <= world.schedule
      ensures world.s == old(world.s).(c := Listed(old(world.s.c.now), old(world.s.c.todo) - {day}, day,
                                                   HoursOfDay(old(world.s.disk.gz.Keys), day)))
    {
      Move(ListRaw(day));
    }

    method Conclude(agree: bool)
      requires Valid() && world.s.c.Listed? && world.s.c.day in world.s.disk.parquet
      requires agree ==> CountsAgree(world.s.disk, world.s.c.day)
      modifies world`s, world`schedule
      ensures Valid() && old(world.schedule) <= world.schedule
      ensures world.s == old(world.s).(c := if agree then Unlinking(old(world.s.c.now), old(world.s.c.todo), old(world.s.c.day), old(world.s.c.files))
                                            else Sweeping(old(world.s.c.now), old(world.s.c.todo)))
    {
      if agree {
        Move(Verified);
      } else {
        Move(KeepRaw);
      }
    }

    method CountListed(day: nat) returns (agree: bool, ghost counted: State)
      requires Valid() && world.s.c.Listed? && world.s.c.day == day && day in world.s.disk.parquet
      requires Settled(world.s.clock, world.s.disk, day)
      modifies world
      ensures Valid() && old(world.schedule) <= world.schedule && Quiet(old(world.s), counted)
      ensures world.s == counted.(c := if agree then Unlinking(counted.c.now, counted.c.todo, day, counted.c.files)
                                       else Sweeping(counted.c.now, counted.c.todo))
      ensures agree ==> CountsAgree(counted.disk, day) && FailsByFault(old(world.turns), world.turns, true)
      ensures !agree ==> || FailsByFault(old(world.turns), world.turns, false)
                         || (!CountsAgree(counted.disk, day) && FailsByFault(old(world.turns), world.turns, true))
    {
      agree := VerifyDay(day);
      counted := world.s;
      Conclude(agree);
    }

    /** The day's files listed and both sides counted: on to deleting, or back to the sweep. */
    method ListAndVerify(day: nat) returns (agree: bool)
      requires Valid() && world.s.c.Sweeping? && day in world.s.c.todo && day in world.s.disk.parquet
      requires HoursOfDay(world.s.disk.gz.Keys, day) != {} && Settled(world.s.clock, world.s.disk, day)
      modifies world
      ensures Valid() && old(world.schedule) <= world.schedule
      ensures world.s.c == if agree then Unlinking(old(world.s.c.now), old(world.s.c.todo) - {day}, day,
                                                   HoursOfDay(world.s.disk.gz.Keys, day))
                           else Sweeping(old(world.s.c.now), old(world.s.c.todo) - {day})
      ensures Counted(old(world.s), world.s, day, agree, old(world.turns), world.turns)
    {
      ghost var a := world.s;
      ListFiles(day);
      ghost var listed := world.s;
      ghost var counted;
      agree, counted := CountListed(day);
      VerifiedDay(a, listed, counted, world.s, day, agree, old(world.turns), world.turns);
    }

    method DeleteVerified(day: nat, files: seq<nat>, ghost a: State, ghost before: seq<Turn>) returns (r: DeleteResult)
      requires Valid() && world.s.c.Unlinking? && world.s.c.day == day && Settled(world.s.clock, world.s.disk, day)
      requires forall hour: nat :: hour in files <==> hour in HoursOfDay(a.disk.gz.Keys, day)
      requires world.s.c.files == HoursOfDay(world.s.disk.gz.Keys, day) && Distinct(files) && files != []
      requires day in a.disk.parquet && SameRaw(a.disk, world.s.disk, day) && CountsAgree(a.disk, day)
      requires Kept(a, world.s) && world.s.disk.parquet == a.disk.parquet && FailsByFault(before, world.turns, true)
      requires CarriedBut(a.disk.gz, world.s.disk.gz, day) && OthersSame(a, world.s, day)
      modifies world
      ensures Valid() && old(world.schedule) <= world.schedule && Kept(a, world.s)
      ensures world.s.disk.parquet == a.disk.parquet && r != DeletedFiles([])
      ensures world.s.c == Sweeping(old(world.s.c.now), old(world.s.c.todo))
      ensures SweptDay(r, a.disk, world.s.disk, day, before, world.turns)
      ensures CarriedBut(a.disk.gz, world.s.disk.gz, day) && OthersSame(a, world.s, day)
    {
      ghost var b, turns := world.s, world.turns;
      var ok := UnlinkAll(day, files);
      r := if ok then DeletedFiles(files) else Interrupted;
      DeletedDay(a, b, world.s, day, files, r, before, turns, world.turns);
    }

    /** verify_counts, which also fails when the day cannot be read. */
    method VerifyDay(day: nat) returns (agree: bool)
      requires Valid() && day in world.s.disk.parquet && Settled(world.s.clock, world.s.disk, day)
      modifies world
      ensures Valid() && old(world.schedule) <= world.schedule && Quiet(old(world.s), world.s)
      ensures agree ==> CountsAgree(world.s.disk, day) && FailsByFault(old(world.turns), world.turns, true)
      ensures !agree ==> || FailsByFault(old(world.turns), world.turns, false)
                         || (!CountsAgree(world.s.disk, day) && FailsByFault(old(world.turns), world.turns, true))
    {
      var ok := Pause();
      agree := false;
      if ok {
        agree := VerifyCounts(day);
      }
    }

    // ----- one pass

    /** Every eligible day compacted, a failed one counted and left for the next pass. */
    method CompactAll(days: seq<nat>) returns (failures: nat)
      requires Valid() && world.s.c.Compacting? && world.s.c.todo == (set day | day in days) && Distinct(days)
      modifies world
      ensures Valid() && old(world.schedule) <= world.schedule
      ensures world.s.c == Compacting(old(world.s.c.now), {})
      ensures old(world.s.disk.parquet).Keys <= world.s.disk.parquet.Keys
      ensures Faults(world.turns) + failures == old(Faults(world.turns))
      ensures failures == 0 ==> forall day <- days ::
                day in world.s.disk.parquet || old(HoursOfDay(world.s.disk.gz.Keys, day)) == {}
      ensures Carried(old(world.s.disk.gz), world.s.disk.gz)
    {
      failures := 0;
      var i := 0;
      while i < |days|
        invariant 0 <= i <= |days|
        invariant Valid() && old(world.schedule) <= world.schedule
        invariant world.s.c == Compacting(old(world.s.c.now), set day | day in days[i..])
        invariant old(world.s.disk.parquet).Keys <= world.s.disk.parquet.Keys
        invariant Carried(old(world.s.disk.gz), world.s.disk.gz)
        invariant Faults(world.turns) + failures == old(Faults(world.turns))
        invariant failures == 0 ==> forall k :: 0 <= k < i ==>
                    days[k] in world.s.disk.parquet || old(HoursOfDay(world.s.disk.gz.Keys, days[k])) == {}
      {
        assert days[i..] == [days[i]] + days[i + 1..];
        MoreHours(old(world.s.disk.gz), world.s.disk.gz, days[i]);
        ghost var disk := world.s.disk;
        var r := CompactDay(days[i]);
        if !r.Compacted? {
          failures := failures + 1;
        } else {
          ReportedOrEmpty(disk, world.s.disk, days[i], r.result);
        }
        i := i + 1;
      }
    }

    /** Days with a Parquet output, oldest first. */
    method CompactedDays() returns (days: seq<nat>)
      ensures Ascending(days) && Distinct(days)
      ensures forall day: nat :: day in days <==> day in world.s.disk.parquet
    {
      var left := world.s.disk.parquet.Keys;
      var found: seq<nat> := [];
      while left != {}
        invariant Distinct(found) && left <= world.s.disk.parquet.Keys
        invariant forall day: nat :: day in world.s.disk.parquet <==> day in found || day in left
        invariant forall day <- found :: day !in left
        decreases |left|
      {
        var day :| day in left;
        found := found + [day];
        left := left - {day};
      }
      days := Sorted(found);
      SameDays(days, found);
      DistinctAsMultiset(found);
      DistinctFromMultiset(days);
    }

    /** One day of the sweep: it fails by a fault, or because its counts disagree. */
    method SweepDay(day: nat, keepRawDays: int, mtime: int) returns (failed: bool, ghost found: bool)
      requires Valid() && world.s.c.Sweeping? && day in world.s.c.todo && day in world.s.disk.parquet
      modifies world
      ensures Valid() && old(world.schedule) <= world.schedule && Kept(old(world.s), world.s)
      ensures world.s.disk.parquet == old(world.s.disk.parquet)
      ensures world.s.c.Sweeping? && world.s.c.now == old(world.s.c.now) && old(world.s.c.todo) - {day} <= world.s.c.todo
      ensures OthersSame(old(world.s), world.s, day)
      ensures found ==> failed && Disagrees(world.s.disk, day)
      ensures Faults(world.turns) + (if failed then 1 else 0) == old(Faults(world.turns)) + (if found then 1 else 0)
      ensures failed || Swept(world.s, day, keepRawDays, mtime, world.s.c.now)
      ensures forall hour: nat :: hour in old(world.s.disk.gz) && hour !in world.s.disk.gz ==>
                hour / 24 == day && (keepRawDays <= 0 || old(world.s.c.now) - mtime >= keepRawDays * 86_400)
    {
      ghost var s, before := world.s, world.turns;
      var r := DeleteRawDay(day, keepRawDays, mtime);
      failed := !r.DeletedFiles?;
      found := MiscountFound(r, s.disk, day, before, world.turns);
      DayCameTo(s, world.s, day, keepRawDays, mtime, r, before, world.turns);
    }

    /**
     Every compacted day verified, then deleted. A day fails only by a fault or because its
     counts disagree; without faults every day past its grace period has no raw files left,
     or its counts disagree.
     */
    method SweepAll(days: seq<nat>, keepRawDays: int, mtimes: nat -> int) returns (failures: nat, ghost disagreeing: set<nat>)
      requires Valid() && world.s.c.Sweeping? && world.s.c.todo == (set day | day in days) && Distinct(days)
      requires forall day <- days :: day in world.s.disk.parquet
      modifies world
      ensures Valid() && old(world.schedule) <= world.schedule && world.s.c.Sweeping?
      ensures world.s.disk.parquet == old(world.s.disk.parquet)
      ensures |disagreeing| <= failures && failures + Faults(world.turns) <= old(Faults(world.turns)) + |disagreeing|
      ensures forall day <- disagreeing :: Disagrees(world.s.disk, day)
      ensures old(Faults(world.turns)) == 0 ==> forall day <- days ::
                Swept(world.s, day, keepRawDays, mtimes(day), old(world.s.c.now)) || day in disagreeing
      ensures forall hour: nat :: hour in old(world.s.disk.gz) && hour !in world.s.disk.gz ==>
                && hour / 24 in old(world.s.disk.parquet)
                && (keepRawDays <= 0 || old(world.s.c.now) - mtimes(hour / 24) >= keepRawDays * 86_400)
    {
      failures, disagreeing := 0, {};
      var i := 0;
      while i < |days|
        invariant 0 <= i <= |days|
        invariant Valid() && old(world.schedule) <= world.schedule && world.s.c.Sweeping?
        invariant world.s.c.now == old(world.s.c.now) && world.s.disk.parquet == old(world.s.disk.parquet)
        invariant StillToDo(days, i, world.s.c.todo)
        invariant |disagreeing| <= failures && failures + Faults(world.turns) <= old(Faults(world.turns)) + |disagreeing|
        invariant SweptTo(world.s, days, i, disagreeing, keepRawDays, mtimes, old(Faults(world.turns)) == 0)
        invariant GoneLate(old(world.s.disk), world.s.disk, keepRawDays, mtimes, old(world.s.c.now))
      {
        ghost var s := world.s;
        world.Known();
        var failed;
        ghost var found;
        failed, found := SweepDay(days[i], keepRawDays, mtimes(days[i]));
        SweptOneMore(s, world.s, days, i, disagreeing, keepRawDays, mtimes, old(Faults(world.turns)) == 0, failed, found);
        OneDayMore(disagreeing, days[i], found);
        OneDayDone(days, i, s.c.todo, world.s.c.todo);
        failures := failures + (if failed then 1 else 0);
        disagreeing := disagreeing + (if found then {days[i]} else {});
        i := i + 1;
      }
    }

    /** The first half of a pass: gates and compaction. */
    method CompactPass(listing: seq<nat>) returns (failures: nat, ghost unreadable: set<nat>)
      requires Valid() && world.s.c.Idle? && Distinct(listing)
      modifies world
      ensures Valid() && old(world.schedule) <= world.schedule
      ensures world.s.c == Compacting(old(world.s.clock), {})
      ensures old(world.s.disk.parquet).Keys <= world.s.disk.parquet.Keys
      ensures failures + |unreadable| + Faults(world.turns) <= old(Faults(world.turns))
      ensures failures == 0 ==> AllPublished(old(world.s), world.s, listing, unreadable)
      ensures Carried(old(world.s.disk.gz), world.s.disk.gz)
    {
      Move(PassStart);
      ghost var a := world.s;
      var days;
      days, unreadable := EligibleDays(listing);
      ghost var gz := world.s.disk.gz;
      Move(Gated);
      failures := CompactAll(days);
      if failures == 0 {
        GatedArePublished(old(world.s), a, gz, world.s, listing, days, unreadable);
      }
    }

    /** The second half: every published day is swept. */
    method SweepPass(keepRawDays: int, mtimes: nat -> int) returns (failures: nat, ghost disagreeing: set<nat>)
      requires Valid() && world.s.c.Compacting? && world.s.c.todo == {}
      modifies world
      ensures Valid() && old(world.schedule) <= world.schedule && world.s.c.Idle?
      ensures world.s.disk.parquet == old(world.s.disk.parquet)
      ensures |disagreeing| <= failures && failures + Faults(world.turns) <= old(Faults(world.turns)) + |disagreeing|
      ensures forall day <- disagreeing :: Disagrees(world.s.disk, day)
      ensures old(Faults(world.turns)) == 0 ==> forall day <- world.s.disk.parquet ::
                Swept(world.s, day, keepRawDays, mtimes(day), old(world.s.c.now)) || day in disagreeing
      ensures forall hour: nat :: hour in old(world.s.disk.gz) && hour !in world.s.disk.gz ==>
                && hour / 24 in old(world.s.disk.parquet)
                && (keepRawDays <= 0 || old(world.s.c.now) - mtimes(hour / 24) >= keepRawDays * 86_400)
    {
      Move(CompactorStep.Compacted);
      var days := CompactedDays();
      assert world.s.c.todo == set day | day in days;
      failures, disagreeing := SweepAll(days, keepRawDays, mtimes);
      Move(PassEnd);
    }

    /**
     run_once: compact every eligible day, then verify and delete; the number of days that
     failed. Without faults it leaves every listed day that passed the gates published (or
     it had no files), and of every published day past its grace period no raw file, unless
     its counts disagree; and the failures are just those days.
     */
    method RunOnce(listing: seq<nat>, keepRawDays: int, mtimes: nat -> int)
        returns (failures: nat, ghost unreadable: set<nat>, ghost disagreeing: set<nat>)
      requires Valid() && world.s.c.Idle? && Distinct(listing)
      modifies world
      ensures Valid() && old(world.schedule) <= world.schedule && world.s.c.Idle?
      ensures old(world.s.disk.parquet).Keys <= world.s.disk.parquet.Keys
      ensures |disagreeing| <= failures
      ensures failures + |unreadable| + Faults(world.turns) <= old(Faults(world.turns)) + |disagreeing|
      ensures forall day <- disagreeing :: Disagrees(world.s.disk, day)
      ensures failures == |disagreeing| ==> AllPublished(old(world.s), world.s, listing, unreadable)
      ensures old(Faults(world.turns)) == 0 ==> forall day <- world.s.disk.parquet ::
                Swept(world.s, day, keepRawDays, mtimes(day), old(world.s.clock)) || day in disagreeing
      ensures forall hour: nat :: hour in old(world.s.disk.gz) && hour !in world.s.disk.gz ==>
                && hour / 24 in world.s.disk.parquet
                && (keepRawDays <= 0 || old(world.s.clock) - mtimes(hour / 24) >= keepRawDays * 86_400)
    {
      var failed;
      failed, unreadable := CompactPass(listing);
      var unverified;
      unverified, disagreeing := SweepPass(keepRawDays, mtimes);
      failures := failed + unverified;
    }
  }

  /** Every listed day that passed the gates is published, or had no files, or could not be read. */
  ghost predicate AllPublished(a: State, b: State, listing: seq<nat>, unreadable: set<nat>) {
    forall day <- listing :: Passes(a, a.clock, day) ==>
      day in b.disk.parquet || day in unreadable || HoursOfDay(a.disk.gz.Keys, day) == {}
  }

  lemma GatedArePublished(a: State, s: State, gz: map<nat, Content>, t: State, listing: seq<nat>, days: seq<nat>, unreadable: set<nat>)
    requires s.disk == a.disk && s.clock == a.clock && Carried(s.disk.gz, gz)
    requires forall day <- listing :: Passes(s, a.clock, day) ==> day in days || day in unreadable
    requires forall day <- days :: day in t.disk.parquet || HoursOfDay(gz.Keys, day) == {}
    ensures AllPublished(a, t, listing, unreadable)
  {
    forall day: nat ensures HoursOfDay(a.disk.gz.Keys, day) <= HoursOfDay(gz.Keys, day) {
      MoreHours(a.disk.gz, gz, day);
    }
  }

  /** The first i listed days have been through the gates. */
  ghost predicate GatedTo(a: State, s: State, listing: seq<nat>, i: nat, found: seq<nat>, unreadable: set<nat>)
    requires a.c.Gating? && i <= |listing|
  {
    && Kept(a, s) && s.disk.parquet == a.disk.parquet && Carried(a.disk.gz, s.disk.gz) && a.c.now <= s.clock
    && s.c == Gating(a.c.now, set day | day in found)
    && Distinct(found) && (forall day <- found :: day in listing[..i] && Passes(s, a.c.now, day))
    && (forall k :: 0 <= k < i && Passes(a, a.c.now, listing[k]) ==> listing[k] in found || listing[k] in unreadable)
  }

  lemma GatedOneMore(a: State, s: State, t: State, listing: seq<nat>, i: nat, found: seq<nat>, unreadable: set<nat>,
                     eligible: bool, readable: bool)
    requires a.c.Gating? && i < |listing| && Distinct(listing) && GatedTo(a, s, listing, i, found, unreadable)
    requires Kept(s, t) && t.disk.parquet == s.disk.parquet && Carried(s.disk.gz, t.disk.gz)
    requires t.c == Gating(a.c.now, s.c.eligible + (if eligible then {listing[i]} else {}))
    requires forall day: nat :: Passes(a, a.c.now, day) ==> Passes(s, a.c.now, day)
    requires forall day: nat :: Passes(s, a.c.now, day) ==> Passes(t, a.c.now, day)
    requires eligible ==> Passes(t, a.c.now, listing[i])
    requires Passes(s, a.c.now, listing[i]) && readable ==> eligible
    ensures eligible ==> GatedTo(a, t, listing, i + 1, found + [listing[i]], unreadable)
    ensures !eligible && !readable ==> GatedTo(a, t, listing, i + 1, found, unreadable + {listing[i]})
    ensures !eligible && readable ==> GatedTo(a, t, listing, i + 1, found, unreadable)
  {
    assert listing[..i + 1] == listing[..i] + [listing[i]];
    if eligible {
      assert (set day | day in found + [listing[i]]) == (set day | day in found) + {listing[i]};
    }
  }

  // ----- the sweep, day by day

  /** delete_raw_day gets as far as verifying: raw files, a published day, and that for keepRawDays days. */
  ghost predicate Deletable(s: State, day: nat, keepRawDays: int, mtime: int)
    requires s.c.Sweeping?
  {
    && (exists hour: nat :: 24 * day <= hour < 24 * day + 24 && hour in s.disk.gz)
    && day in s.disk.parquet
    && (keepRawDays <= 0 || s.c.now - mtime >= keepRawDays * 86_400)
  }

  lemma DeletableIs(s: State, day: nat, keepRawDays: int, mtime: int)
    requires s.c.Sweeping?
    ensures Deletable(s, day, keepRawDays, mtime) <==>
              HoursOfDay(s.disk.gz.Keys, day) != {} && day in s.disk.parquet && GraceElapsed(mtime, keepRawDays, s.c.now)
  {
    if hour :| hour in HoursOfDay(s.disk.gz.Keys, day) {
      assert 24 * day <= hour < 24 * day + 24 && hour in s.disk.gz;
    }
    if hour: nat :| 24 * day <= hour < 24 * day + 24 && hour in s.disk.gz {
      assert hour in HoursOfDay(s.disk.gz.Keys, day);
    }
  }

  /** What a verified day comes to. Files are gone only after equal counts; without a fault exactly then, and all of them. */
  ghost predicate SweptDay(r: DeleteResult, a: Disk, b: Disk, day: nat, before: seq<Turn>, after: seq<Turn>)
    requires day in a.parquet
  {
    && (!(HoursOfDay(a.gz.Keys, day) <= b.gz.Keys) ==> CountsAgree(a, day))
    && (r.DeletedFiles? ==>
          && CountsAgree(a, day) && FailsByFault(before, after, true)
          && (forall hour: nat :: hour in r.files <==> hour in HoursOfDay(a.gz.Keys, day))
          && HoursOfDay(b.gz.Keys, day) == {})
    && (r.VerificationError? ==>
          && SameRaw(a, b, day)
          && (FailsByFault(before, after, false) || (!CountsAgree(a, day) && FailsByFault(before, after, true))))
    && (r.Interrupted? ==> CountsAgree(a, day) && FailsByFault(before, after, false))
  }

  /** The day's raw files are the same at two moments. */
  ghost predicate SameRaw(a: Disk, b: Disk, day: nat) {
    && HoursOfDay(b.gz.Keys, day) == HoursOfDay(a.gz.Keys, day)
    && forall hour <- HoursOfDay(a.gz.Keys, day) :: hour in a.gz && hour in b.gz && b.gz[hour] == a.gz[hour]
  }

  /** No other settled day's raw files have changed. */
  ghost predicate OthersSame(a: State, b: State, day: nat) {
    forall other: nat :: other != day && Settled(a.clock, a.disk, other) ==> SameRaw(a.disk, b.disk, other)
  }

  ghost predicate Disagrees(d: Disk, day: nat) {
    day in d.parquet && HoursOfDay(d.gz.Keys, day) != {} && !CountsAgree(d, day)
  }

  /** Raw files have gone only of published days, and only after these had been published for keepRawDays days. */
  ghost predicate GoneLate(a: Disk, b: Disk, keepRawDays: int, mtimes: nat -> int, now: nat) {
    forall hour: nat :: hour in a.gz && hour !in b.gz ==>
      && hour / 24 in a.parquet
      && (keepRawDays <= 0 || now - mtimes(hour / 24) >= keepRawDays * 86_400)
  }

  /** Of a day that was swept, if the counts agreed; of no other. */
  lemma OnlyDayGone(a: Disk, b: Disk, day: nat, r: DeleteResult, before: seq<Turn>, after: seq<Turn>)
    requires day in a.parquet && SweptDay(r, a, b, day, before, after) && CarriedBut(a.gz, b.gz, day)
    ensures forall hour: nat :: hour in a.gz && hour !in b.gz ==> hour / 24 == day && CountsAgree(a, day)
  {
    forall hour: nat | hour in a.gz && hour !in b.gz ensures hour / 24 == day && CountsAgree(a, day) {
      assert DayOf(hour) == day;
      assert hour in HoursOfDay(a.gz.Keys, day);
    }
  }

  /** The day is done with: within its grace period, or all its raw files deleted. */
  ghost predicate Swept(s: State, day: nat, keepRawDays: int, mtime: int, now: nat) {
    || (keepRawDays > 0 && now - mtime < keepRawDays * 86_400)
    || HoursOfDay(s.disk.gz.Keys, day) == {}
  }

  /** Nothing has been deleted yet; both sides have been counted, or could not be. */
  ghost predicate Counted(a: State, b: State, day: nat, agree: bool, before: seq<Turn>, after: seq<Turn>)
    requires day in a.disk.parquet
  {
    && Kept(a, b) && b.disk.parquet == a.disk.parquet && Settled(b.clock, b.disk, day)
    && CarriedBut(a.disk.gz, b.disk.gz, day) && OthersSame(a, b, day) && SameRaw(a.disk, b.disk, day)
    && (agree ==> CountsAgree(a.disk, day) && FailsByFault(before, after, true))
    && (!agree ==> SweptDay(VerificationError, a.disk, b.disk, day, before, after))
  }

  lemma VerifiedDay(a: State, listed: State, counted: State, b: State, day: nat, agree: bool, before: seq<Turn>, after: seq<Turn>)
    requires day in a.disk.parquet && Settled(a.clock, a.disk, day) && listed == a.(c := listed.c) && Quiet(listed, counted)
    requires b == counted.(c := b.c)
    requires agree ==> CountsAgree(b.disk, day) && FailsByFault(before, after, true)
    requires !agree ==> || FailsByFault(before, after, false)
                        || (!CountsAgree(b.disk, day) && FailsByFault(before, after, true))
    ensures Counted(a, b, day, agree, before, after)
  {
    assert SameRaw(a.disk, b.disk, day);
    SameCounts(a.disk, b.disk, day);
  }

  lemma DeletedDay(a: State, b: State, c: State, day: nat, files: seq<nat>, r: DeleteResult,
                   before: seq<Turn>, turns: seq<Turn>, after: seq<Turn>)
    requires day in a.disk.parquet && SameRaw(a.disk, b.disk, day) && CountsAgree(a.disk, day)
    requires forall hour: nat :: hour in files <==> hour in HoursOfDay(a.disk.gz.Keys, day)
    requires CarriedBut(a.disk.gz, b.disk.gz, day) && OthersSame(a, b, day) && Kept(a, b)
    requires CarriedBut(b.disk.gz, c.disk.gz, day) && OthersSame(b, c, day)
    requires r == DeletedFiles(files) || r == Interrupted
    requires r.DeletedFiles? ==> HoursOfDay(c.disk.gz.Keys, day) == {}
    requires FailsByFault(before, turns, true) && FailsByFault(turns, after, r.DeletedFiles?)
    ensures SweptDay(r, a.disk, c.disk, day, before, after)
    ensures CarriedBut(a.disk.gz, c.disk.gz, day) && OthersSame(a, c, day)
  {
    forall other: nat | other != day && Settled(a.clock, a.disk, other) ensures SameRaw(a.disk, c.disk, other) {
      assert SameRaw(a.disk, b.disk, other) && SameRaw(b.disk, c.disk, other);
    }
  }

  /** Of the day's raw files the rest are still there, and nothing else has been touched. */
  ghost predicate UnlinkedTo(a: State, s: State, day: nat, rest: set<nat>) {
    && Kept(a, s) && s.disk.parquet == a.disk.parquet && Settled(s.clock, s.disk, day)
    && s.c.Unlinking? && a.c.Unlinking? && s.c == a.c.(files := rest) && rest == HoursOfDay(s.disk.gz.Keys, day)
    && CarriedBut(a.disk.gz, s.disk.gz, day) && OthersSame(a, s, day)
  }

  lemma QuietUnlinks(a: State, s: State, t: State, day: nat, rest: set<nat>)
    requires UnlinkedTo(a, s, day, rest) && Quiet(s, t)
    ensures UnlinkedTo(a, t, day, rest)
  {
    forall other: nat | other != day && Settled(a.clock, a.disk, other) ensures SameRaw(a.disk, t.disk, other) {
      assert SameRaw(a.disk, s.disk, other) && SameRaw(s.disk, t.disk, other);
    }
  }

  lemma OneUnlinked(a: State, s: State, t: State, day: nat, rest: set<nat>, hour: nat)
    requires UnlinkedTo(a, s, day, rest) && hour in rest && Kept(s, t)
    requires t.c == s.c.(files := s.c.files - {hour}) && t.disk == s.disk.(gz := s.disk.gz - {hour})
    ensures UnlinkedTo(a, t, day, rest - {hour})
  {
    assert DayOf(hour) == day;
    forall other: nat | other != day && Settled(a.clock, a.disk, other) ensures SameRaw(a.disk, t.disk, other) {
      assert SameRaw(a.disk, s.disk, other);
    }
  }

  function HoursIn(files: seq<nat>): set<nat> {
    set hour | hour in files
  }

  lemma RestOfFiles(files: seq<nat>, i: nat)
    requires Distinct(files) && i < |files|
    ensures HoursIn(files[i..]) - {files[i]} == HoursIn(files[i + 1..])
  {
    assert files[i..] == [files[i]] + files[i + 1..];
  }

  lemma SameCounts(a: Disk, b: Disk, day: nat)
    requires SameRaw(a, b, day) && day in a.parquet && b.parquet == a.parquet
    ensures CountsAgree(b, day) == CountsAgree(a, day)
  {
    forall i: nat | i < 24 ensures GzRows(a.gz, day)(i) == GzRows(b.gz, day)(i) {
      SlotOfDay(a.gz, day, i);
      SlotOfDay(b.gz, day, i);
      GzRowsAt(a.gz, day, i);
      GzRowsAt(b.gz, day, i);
    }
    SameTotals(GzRows(a.gz, day), GzRows(b.gz, day), 24);
  }

  /** Verification failed, and not by a fault. */
  ghost predicate MiscountFound(r: DeleteResult, a: Disk, day: nat, before: seq<Turn>, after: seq<Turn>)
    requires day in a.parquet
  {
    r.VerificationError? && !CountsAgree(a, day) && FailsByFault(before, after, true)
  }

  lemma DayCameTo(a: State, b: State, day: nat, keepRawDays: int, mtime: int, r: DeleteResult, before: seq<Turn>, after: seq<Turn>)
    requires a.c.Sweeping? && b.c.Sweeping? && b.c.now == a.c.now && day in a.disk.parquet && b.disk.parquet == a.disk.parquet
    requires r == DeletedFiles([]) <==> !Deletable(a, day, keepRawDays, mtime)
    requires r == DeletedFiles([]) ==> b == a && after == before
    requires Deletable(a, day, keepRawDays, mtime) ==> SweptDay(r, a.disk, b.disk, day, before, after)
    ensures MiscountFound(r, a.disk, day, before, after) ==> Disagrees(b.disk, day)
    ensures Faults(after) + (if r.DeletedFiles? then 0 else 1)
            == Faults(before) + (if MiscountFound(r, a.disk, day, before, after) then 1 else 0)
    ensures r.DeletedFiles? ==> Swept(b, day, keepRawDays, mtime, b.c.now)
  {
    DeletableIs(a, day, keepRawDays, mtime);
    if MiscountFound(r, a.disk, day, before, after) {
      DayDisagrees(a.disk, b.disk, day);
    }
  }

  lemma DayDisagrees(a: Disk, b: Disk, day: nat)
    requires SameRaw(a, b, day) && b.parquet == a.parquet && Disagrees(a, day)
    ensures Disagrees(b, day)
  {
    SameCounts(a, b, day);
  }

  /** The first i days are swept; without faults, each is done with or its counts disagree. */
  ghost predicate SweptTo(s: State, days: seq<nat>, i: nat, disagreeing: set<nat>, keepRawDays: int, mtimes: nat -> int, faultless: bool)
    requires i <= |days|
  {
    && s.c.Sweeping?
    && (forall day <- disagreeing :: day in days[..i] && Disagrees(s.disk, day))
    && (faultless ==> forall k :: 0 <= k < i ==> Swept(s, days[k], keepRawDays, mtimes(days[k]), s.c.now) || days[k] in disagreeing)
  }

  ghost predicate StillToDo(days: seq<nat>, i: nat, todo: set<nat>) {
    forall k :: i <= k < |days| ==> days[k] in todo
  }

  lemma OneDayDone(days: seq<nat>, i: nat, todo: set<nat>, after: set<nat>)
    requires Distinct(days) && i < |days| && StillToDo(days, i, todo) && todo - {days[i]} <= after
    ensures StillToDo(days, i + 1, after)
  {
    forall k | i + 1 <= k < |days| ensures days[k] in after {
      assert days[k] in todo && days[i] != days[k];
    }
  }

  lemma OneDayMore(days: set<nat>, day: nat, more: bool)
    requires day !in days
    ensures |days + (if more then {day} else {})| == |days| + (if more then 1 else 0)
  {
  }

  lemma SweptOneMore(a: State, b: State, days: seq<nat>, i: nat, disagreeing: set<nat>, keepRawDays: int, mtimes: nat -> int,
                     faultless: bool, failed: bool, found: bool)
    requires Inv(a) && Distinct(days) && i < |days| && b.disk.parquet == a.disk.parquet
    requires forall day <- days :: day in a.disk.parquet
    requires OthersSame(a, b, days[i]) && SweptTo(a, days, i, disagreeing, keepRawDays, mtimes, faultless)
    requires b.c.Sweeping? && b.c.now == a.c.now
    requires found ==> Disagrees(b.disk, days[i])
    requires (faultless ==> (failed ==> found)) && (failed || Swept(b, days[i], keepRawDays, mtimes(days[i]), b.c.now))
    ensures days[i] !in disagreeing
    ensures SweptTo(b, days, i + 1, disagreeing + (if found then {days[i]} else {}), keepRawDays, mtimes, faultless)
  {
    forall day | day in days[..i] ensures SameRaw(a.disk, b.disk, day) && day != days[i] {
      assert Published(a.clock, a.disk, a.h.ledger, day);
    }
    forall day | day in disagreeing ensures Disagrees(b.disk, day) {
      DayDisagrees(a.disk, b.disk, day);
    }
    assert days[..i + 1] == days[..i] + [days[i]];
    if faultless {
      forall k | 0 <= k < i ensures Swept(b, days[k], keepRawDays, mtimes(days[k]), b.c.now) || days[k] in disagreeing {
        assert days[k] in days[..i];
      }
    }
  }

  ghost predicate CameOut(a: Disk, b: Disk, day: nat, r: CompactOutcome) {
    && (r.NotPublished? ==> b.parquet == a.parquet)
    && (r.NotReadBack? ==> PublishedFrom(a, b, day))
    && (r.Compacted? ==> Reported(a, b, day, r.result))
  }

  lemma PublishedOut(a: Disk, b: Disk, day: nat, out: map<nat, Rows>, files: seq<nat>, lines: nat, rows: nat, r: CompactOutcome)
    requires ExactFold(out, a.gz, day) && b.parquet == a.parquet[day := out]
    requires files != [] && Ascending(files) && forall hour: nat :: hour in files <==> hour in HoursOfDay(a.gz.Keys, day)
    requires lines == Total(GzRows(a.gz, day), 24) && (r.Compacted? ==> rows == lines)
    requires r == CompactOutcome.Compacted(CompactResult(day, files, lines, rows)) || r == NotReadBack
    ensures CameOut(a, b, day, r)
  {
  }

  lemma ReportedOrEmpty(a: Disk, b: Disk, day: nat, r: CompactResult)
    requires Reported(a, b, day, r)
    ensures day in b.parquet || HoursOfDay(a.gz.Keys, day) == {}
    ensures a.parquet.Keys <= b.parquet.Keys
  {
    if r.sourceFiles == [] {
      NoFiles(r.sourceFiles, HoursOfDay(a.gz.Keys, day));
    }
  }

  lemma {:induction false} DistinctAsMultiset(days: seq<nat>)
    requires Distinct(days)
    ensures forall day: nat :: multiset(days)[day] <= 1
  {
    if days != [] {
      var b := days[..|days|-1];
      DistinctAsMultiset(b);
      assert days == b + [days[|days|-1]];
      assert days[|days|-1] !in multiset(b);
    }
  }

  lemma {:induction false} DistinctFromMultiset(days: seq<nat>)
    requires forall day: nat :: multiset(days)[day] <= 1
    ensures Distinct(days)
  {
    if days != [] {
      var b: seq<nat> := days[..|days|-1];
      var x: nat := days[|days|-1];
      assert days == b + [x];
      forall day: nat ensures multiset(b)[day] <= 1 && (day == x ==> multiset(b)[day] == 0) {
        assert multiset(days)[day] == multiset(b)[day] + multiset{x}[day];
      }
      DistinctFromMultiset(b);
      assert x !in multiset(b);
    }
  }

  lemma PublishedIsSettled(world: World, day: nat)
    requires world.Valid() && day in world.s.disk.parquet
    ensures Settled(world.s.clock, world.s.disk, day)
  {
    world.Known();
    assert Published(world.s.clock, world.s.disk, world.s.h.ledger, day);
  }

  /** The .gz files of one moment are all there at another, unchanged. */
  ghost predicate Carried(gz: map<nat, Content>, gz': map<nat, Content>) {
    forall hour <- gz :: hour in gz' && gz'[hour] == gz[hour]
  }

  /** The same of every day's but one. */
  ghost predicate CarriedBut(gz: map<nat, Content>, gz': map<nat, Content>, day: nat) {
    forall hour <- gz :: DayOf(hour) != day ==> hour in gz' && gz'[hour] == gz[hour]
  }

  /** Of the day's files exactly those of hours before the limit are folded, each into its rows. */
  ghost predicate FoldedBelow(rows: Content -> Rows, out: map<nat, Rows>, gz: map<nat, Content>, day: nat, limit: nat) {
    && (forall hour: nat :: hour in out <==> hour in HoursOfDay(gz.Keys, day) && hour < limit)
    && (forall hour <- out :: out[hour] == rows(gz[hour]))
  }

  /** One hour more, if it has a file. */
  ghost function Folded(rows: Content -> Rows, out: map<nat, Rows>, gz: map<nat, Content>, hour: nat): map<nat, Rows> {
    if hour in gz then out[hour := rows(gz[hour])] else out
  }

  lemma FoldedNext(rows: Content -> Rows, out: map<nat, Rows>, gz: map<nat, Content>, day: nat, hour: nat)
    requires FoldedBelow(rows, out, gz, day, hour) && DayOf(hour) == day
    ensures FoldedBelow(rows, Folded(rows, out, gz, hour), gz, day, hour + 1)
  {
  }

  lemma SlotOfDay(gz: map<nat, Content>, day: nat, i: nat)
    requires i < 24
    ensures DayOf(24 * day + i) == day
    ensures 24 * day + i in HoursOfDay(gz.Keys, day) <==> 24 * day + i in gz
  {
  }

  /** The day's first n hours, folded in turn. */
  ghost function FoldedTo(rows: Content -> Rows, gz: map<nat, Content>, day: nat, n: nat): map<nat, Rows> {
    if n == 0 then map[] else Folded(rows, FoldedTo(rows, gz, day, n - 1), gz, 24 * day + n - 1)
  }

  lemma {:induction false} FoldedSoFar(rows: Content -> Rows, gz: map<nat, Content>, day: nat, n: nat)
    requires n <= 24
    ensures FoldedBelow(rows, FoldedTo(rows, gz, day, n), gz, day, 24 * day + n)
  {
    if n > 0 {
      FoldedSoFar(rows, gz, day, n - 1);
      SlotOfDay(gz, day, n - 1);
      FoldedNext(rows, FoldedTo(rows, gz, day, n - 1), gz, day, 24 * day + n - 1);
    }
  }

  lemma FoldingEnds(rows: Content -> Rows, gz: map<nat, Content>, day: nat)
    ensures FoldedInto(rows, FoldedTo(rows, gz, day, 24), gz, day)
  {
    FoldedSoFar(rows, gz, day, 24);
    AllHoursFolded(rows, FoldedTo(rows, gz, day, 24), gz, day);
  }

  lemma AllHoursFolded(rows: Content -> Rows, out: map<nat, Rows>, gz: map<nat, Content>, day: nat)
    requires FoldedBelow(rows, out, gz, day, 24 * day + 24)
    ensures FoldedInto(rows, out, gz, day)
  {
    forall hour: nat ensures hour in out <==> hour in HoursOfDay(gz.Keys, day) {
      assert hour in HoursOfDay(gz.Keys, day) ==> DayOf(hour) == day;
    }
  }

  /** out holds exactly the rows of exactly the day's .gz files. */
  ghost predicate ExactFold(out: map<nat, Rows>, gz: map<nat, Content>, day: nat) {
    FoldedInto(RowsOf, out, gz, day)
  }

  ghost predicate FoldedInto(rows: Content -> Rows, out: map<nat, Rows>, gz: map<nat, Content>, day: nat) {
    && out.Keys == HoursOfDay(gz.Keys, day)
    && (forall hour <- out :: out[hour] == rows(gz[hour]))
  }

  lemma ExactTotals(out: map<nat, Rows>, gz: map<nat, Content>, day: nat)
    requires ExactFold(out, gz, day)
    ensures Total(GzRows(gz, day), 24) == Total(ParquetRows(out, day), 24)
  {
    forall i: nat | i < 24 ensures GzRows(gz, day)(i) == ParquetRows(out, day)(i) {
      assert DayOf(24 * day + i) == day;
      GzRowsAt(gz, day, i);
      ParquetRowsAt(out, day, i);
    }
    SameTotals(GzRows(gz, day), ParquetRows(out, day), 24);
  }

  /** date=D has appeared, with exactly the rows D's .gz files had; no other day has changed. */
  ghost predicate PublishedFrom(a: Disk, b: Disk, day: nat) {
    && day in b.parquet && ExactFold(b.parquet[day], a.gz, day)
    && b.parquet == a.parquet[day := b.parquet[day]]
  }

  lemma MoreHours(gz: map<nat, Content>, gz': map<nat, Content>, day: nat)
    requires Carried(gz, gz')
    ensures HoursOfDay(gz.Keys, day) <= HoursOfDay(gz'.Keys, day)
  {
  }

  lemma NoFiles(files: seq<nat>, hours: set<nat>)
    requires files == [] && forall hour: nat :: hour in files <==> hour in hours
    ensures hours == {}
  {
  }

  lemma {:induction false} SameTotals(a: nat -> nat, b: nat -> nat, n: nat)
    requires forall i: nat :: i < n ==> a(i) == b(i)
    ensures Total(a, n) == Total(b, n)
  {
    if n > 0 {
      SameTotals(a, b, n - 1);
    }
  }

  /** Outcome of compacting one day: raw lines read, rows published. */
  datatype CompactResult = CompactResult(day: nat, sourceFiles: seq<nat>, sourceLines: nat, parquetRows: nat)

  /** How compacting a day came out: done, failed before it was published, or failed after. */
  datatype CompactOutcome = Compacted(result: CompactResult) | NotPublished | NotReadBack

  /** The day's files are named, and both counts are its raw lines; if it has any it is published from them. */
  ghost predicate Reported(a: Disk, b: Disk, day: nat, r: CompactResult) {
    && r.day == day && Ascending(r.sourceFiles)
    && (forall hour: nat :: hour in r.sourceFiles <==> hour in HoursOfDay(a.gz.Keys, day))
    && r.sourceLines == r.parquetRows
    && (r.sourceFiles == [] ==> b.parquet == a.parquet)
    && (r.sourceFiles != [] ==> PublishedFrom(a, b, day) && r.sourceLines == Total(GzRows(a.gz, day), 24))
  }

  /** Outcome of delete_raw_day: the files unlinked, a failed verification, or an error half way. */
  datatype DeleteResult = DeletedFiles(files: seq<nat>) | VerificationError | Interrupted

  lemma SameDays(a: seq<nat>, b: seq<nat>)
    requires multiset(a) == multiset(b)
    ensures forall day: nat :: day in a <==> day in b
    ensures (set day | day in a) == (set day | day in b)
  {
    forall day: nat ensures day in a <==> day in b {
      assert day in a <==> day in multiset(a);
      assert day in b <==> day in multiset(b);
    }
  }
}

/** consumer.py: the loop of run and _process_window, as far as arrivals go. */
module ArrivalPipeline {
  import opened Pings
  import opened ServiceDay
  import opened Arrivals
  import opened ArrivalRuns

  /** The 30-minute gate over a window's results. */
  method KeepInGate(results: seq<Result>) returns (kept: seq<Result>)
    ensures kept == Gated(results)
  {
    kept := [];
    var i := 0;
    while i < |results|
      invariant 0 <= i <= |results| && kept == Gated(results[..i])
    {
      assert results[..i + 1][..i] == results[..i];
      if Away(results[i].scheduledAt, results[i].actualAt) <= GATE {
        kept := kept + [results[i]];
      }
      i := i + 1;
    }
    assert results[..i] == results;
  }

  /** What one turn of the loop leaves behind, given the frame it flushed. */
  ghost predicate Taken(tt: Timetable, overlap: int, retention: int, frame: seq<Ping>, seen: SeenVisits,
                        passed: seq<Result>, rows: seq<Ping>, newSeen: SeenVisits) {
    && rows == Carry(frame, overlap)
    && (frame == [] ==> passed == [] && newSeen == seen)
    && (frame != [] ==>
          var done := FilterNew(seen, WindowResults(tt, frame));
          passed == done.passed && newSeen == PurgeSeen(done.seen, MaxTime(frame) - retention))
  }

  /** One turn of the loop: what arrives is added, the window flushed and its arrivals filtered. */
  method TakeWindow(buffer: PingWindowBuffer, tracker: DeviationResultTracker, tt: Timetable, arrivals: seq<Ping>, ghost frame: seq<Ping>)
    returns (passed: seq<Result>)
    requires frame == buffer.rows + arrivals
    modifies buffer, tracker
    ensures Taken(tt, buffer.overlap, tracker.retention, frame, old(tracker.seen), passed, buffer.rows, tracker.seen)
  {
    buffer.AddAll(arrivals);
    var batch := buffer.Flush();
    passed := [];
    if batch == [] {
      return;
    }
    var reference := MaxTime(batch);
    var results := ComputeArrivalDeviations(tt, batch);
    var inGate := KeepInGate(results);
    ghost var done := FilterNew(tracker.seen, inGate);
    passed := tracker.KeepNew(inGate, reference);
    assert tracker.seen == PurgeSeen(done.seen, reference - tracker.retention);
  }

  // ----- the run, filled in window by window

  ghost predicate InStep(r: Run, j: nat, rows: seq<Ping>, seen: SeenVisits) {
    && Cut(r) && j <= |r.cuts| && seen == r.seen[j]
    && rows == (if j == 0 then [] else Carry(FrameOf(r, j - 1), r.overlap))
    && (forall k {:trigger Filters(r, k)} :: 0 <= k < j ==> Filters(r, k))
  }

  ghost function Blank(tt: Timetable, stream: seq<Ping>, cuts: seq<nat>, overlap: int, retention: int): Run
    requires Cuts(stream, cuts)
  {
    Run(tt, stream, cuts, overlap, retention, seq(|cuts|, j requires 0 <= j < |cuts| => Frame(stream, cuts, overlap, j)),
        seq(|cuts| + 1, _ => map[]), seq(|cuts|, _ => []))
  }

  lemma BlankIsInStep(tt: Timetable, stream: seq<Ping>, cuts: seq<nat>, overlap: int, retention: int)
    requires InOrder(stream) && DistinctTimes(stream) && Cuts(stream, cuts) && overlap >= 0
    ensures InStep(Blank(tt, stream, cuts, overlap, retention), 0, [], map[])
  {
    var r := Blank(tt, stream, cuts, overlap, retention);
    forall k | 0 <= k < |cuts| ensures IsFrame(r, k) {
    }
  }

  ghost function FillIn(r: Run, j: nat, passed: seq<Result>, seen: SeenVisits): Run
    requires Cut(r) && j < |r.cuts|
  {
    r.(reported := r.reported[j := passed], seen := r.seen[j + 1 := seen])
  }

  lemma FilledIsCut(r: Run, j: nat, passed: seq<Result>, seen: SeenVisits)
    requires Cut(r) && j < |r.cuts|
    ensures Cut(FillIn(r, j, passed, seen))
  {
    forall k | 0 <= k < |r.cuts| ensures IsFrame(FillIn(r, j, passed, seen), k) {
      assert IsFrame(r, k);
    }
  }

  lemma NewestOfFrame(r: Run, j: nat)
    requires Cut(r) && j < |r.cuts|
    ensures FrameOf(r, j) == [] <==> r.cuts[j] == 0
    ensures r.cuts[j] > 0 ==> MaxTime(FrameOf(r, j)) == r.stream[r.cuts[j] - 1].time
  {
    var lo := FrameSlice(r, j);
    if r.cuts[j] > 0 {
      MaxTimeOfSlice(r.stream, lo, r.cuts[j]);
    }
  }

  lemma WindowFilters(r: Run, j: nat, rows: seq<Ping>, seen: SeenVisits, passed: seq<Result>, newRows: seq<Ping>, newSeen: SeenVisits)
    requires Cut(r) && j < |r.cuts| && seen == r.seen[j] && Cut(FillIn(r, j, passed, newSeen))
    requires Taken(r.tt, r.overlap, r.retention, FrameOf(r, j), seen, passed, newRows, newSeen)
    ensures Filters(FillIn(r, j, passed, newSeen), j)
  {
    NewestOfFrame(r, j);
  }

  lemma FiltersStay(r: Run, j: nat, k: nat, passed: seq<Result>, newSeen: SeenVisits)
    requires Cut(r) && k < j < |r.cuts| && Filters(r, k) && Cut(FillIn(r, j, passed, newSeen))
    ensures Filters(FillIn(r, j, passed, newSeen), k)
  {
  }

  lemma StepTaken(r: Run, j: nat, rows: seq<Ping>, seen: SeenVisits, passed: seq<Result>, newRows: seq<Ping>, newSeen: SeenVisits)
    returns (q: Run)
    requires j < |r.cuts| && InStep(r, j, rows, seen)
    requires Taken(r.tt, r.overlap, r.retention, FrameOf(r, j), seen, passed, newRows, newSeen)
    ensures q == FillIn(r, j, passed, newSeen) && InStep(q, j + 1, newRows, newSeen)
  {
    q := FillIn(r, j, passed, newSeen);
    FilledIsCut(r, j, passed, newSeen);
    WindowFilters(r, j, rows, seen, passed, newRows, newSeen);
    forall k | 0 <= k < j + 1 ensures Filters(q, k) {
      if k < j {
        assert Filters(r, k);
        FiltersStay(r, j, k, passed, newSeen);
      }
    }
  }

  lemma FrameComesNext(r: Run, j: nat, rows: seq<Ping>, seen: SeenVisits)
    requires j < |r.cuts| && InStep(r, j, rows, seen)
    ensures Arrived(r.cuts, j) <= r.cuts[j] <= |r.stream|
    ensures rows + r.stream[Arrived(r.cuts, j)..r.cuts[j]] == FrameOf(r, j)
  {
    assert IsFrame(r, j);
    if j > 0 {
      assert IsFrame(r, j - 1);
    }
  }

  ghost predicate IsOver(r: Run, tt: Timetable, stream: seq<Ping>, cuts: seq<nat>, overlap: int, retention: int) {
    r.tt == tt && r.stream == stream && r.cuts == cuts && r.overlap == overlap && r.retention == retention
  }

  method OneWindow(buffer: PingWindowBuffer, tracker: DeviationResultTracker, tt: Timetable, arrivals: seq<Ping>, ghost r: Run, ghost j: nat)
    returns (passed: seq<Result>, ghost q: Run)
    requires j < |r.cuts| && InStep(r, j, buffer.rows, tracker.seen)
    requires tt == r.tt && buffer.overlap == r.overlap && tracker.retention == r.retention
    requires Arrived(r.cuts, j) <= r.cuts[j] <= |r.stream| && arrivals == r.stream[Arrived(r.cuts, j)..r.cuts[j]]
    modifies buffer, tracker
    ensures q == r.(reported := r.reported[j := passed], seen := q.seen)
    ensures InStep(q, j + 1, buffer.rows, tracker.seen)
  {
    FrameComesNext(r, j, buffer.rows, tracker.seen);
    ghost var rows, seen := buffer.rows, tracker.seen;
    passed := TakeWindow(buffer, tracker, tt, arrivals, FrameOf(r, j));
    q := StepTaken(r, j, rows, seen, passed, buffer.rows, tracker.seen);
  }

  /** The whole consumer over a stream and its flush points: what it reports at each flush is a valid run. */
  method Consume(tt: Timetable, stream: seq<Ping>, cuts: seq<nat>, overlap: int, retention: int)
    returns (reported: seq<seq<Result>>, ghost r: Run)
    requires InOrder(stream) && DistinctTimes(stream) && Cuts(stream, cuts) && overlap >= 0
    ensures Valid(r) && IsOver(r, tt, stream, cuts, overlap, retention) && reported == r.reported
  {
    var buffer := new PingWindowBuffer(overlap);
    var tracker := new DeviationResultTracker(retention);
    reported := [];
    r := Blank(tt, stream, cuts, overlap, retention);
    BlankIsInStep(tt, stream, cuts, overlap, retention);
    var arrived, j := 0, 0;
    while j < |cuts|
      invariant 0 <= j <= |cuts| && arrived == Arrived(cuts, j) && IsOver(r, tt, stream, cuts, overlap, retention)
      invariant InStep(r, j, buffer.rows, tracker.seen)
      invariant reported == r.reported[..j]
    {
      CutsInOrder(stream, cuts, j);
      var passed;
      passed, r := OneWindow(buffer, tracker, tt, stream[arrived..cuts[j]], r, j);
      assert r.reported[..j + 1] == reported + [passed];
      reported, arrived := reported + [passed], cuts[j];
      j := j + 1;
    }
    assert r.reported[..j] == r.reported;
  }
}

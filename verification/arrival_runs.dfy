/** Whole runs of the deviation side of the consumer: each arrival is reported exactly once. */
module ArrivalRuns {
  import opened Options
  import opened Pings
  import opened ServiceDay
  import opened Arrivals

  /** A run: the stream, its flush points, the frames that gives, and what was seen before each flush and reported at it. */
  datatype Run = Run(
    tt: Timetable,
    stream: seq<Ping>,
    cuts: seq<nat>,
    overlap: int,
    retention: int,
    frames: seq<seq<Ping>>,
    seen: seq<SeenVisits>,
    reported: seq<seq<Result>>)

  ghost function FrameOf(r: Run, j: nat): seq<Ping>
    requires j < |r.frames|
  {
    r.frames[j]
  }

  /** The j-th frame is the one the buffer gives. */
  ghost predicate IsFrame(r: Run, j: nat)
    requires Cuts(r.stream, r.cuts) && j < |r.cuts| == |r.frames|
  {
    r.frames[j] == Frame(r.stream, r.cuts, r.overlap, j)
  }

  ghost predicate Cut(r: Run) {
    && InOrder(r.stream) && DistinctTimes(r.stream) && Cuts(r.stream, r.cuts) && r.overlap >= 0
    && |r.frames| == |r.cuts| && |r.seen| == |r.cuts| + 1 && |r.reported| == |r.cuts| && r.seen[0] == map[]
    && (forall j {:trigger IsFrame(r, j)} :: 0 <= j < |r.cuts| ==> IsFrame(r, j))
  }

  /** The j-th window; an empty frame is not processed. */
  ghost predicate Filters(r: Run, j: nat)
    requires Cut(r) && j < |r.cuts|
  {
    if r.cuts[j] == 0 then r.reported[j] == [] && r.seen[j + 1] == r.seen[j]
    else
      var done := FilterNew(r.seen[j], WindowResults(r.tt, FrameOf(r, j)));
      && r.reported[j] == done.passed
      && r.seen[j + 1] == PurgeSeen(done.seen, r.stream[r.cuts[j] - 1].time - r.retention)
  }

  ghost predicate Valid(r: Run) {
    Cut(r) && forall j {:trigger Filters(r, j)} :: 0 <= j < |r.cuts| ==> Filters(r, j)
  }

  // ----- first arrivals of a frame and of the stream

  lemma FrameSlice(r: Run, j: nat) returns (lo: nat)
    requires Cut(r) && j < |r.cuts|
    ensures lo == Start(r.stream, r.cuts, r.overlap, j) <= Arrived(r.cuts, j) <= r.cuts[j]
    ensures FrameOf(r, j) == r.stream[lo..r.cuts[j]] && DistinctTimes(FrameOf(r, j))
    ensures FrameOf(r, j) == [] <==> r.cuts[j] == 0
  {
    lo := Start(r.stream, r.cuts, r.overlap, j);
    assert IsFrame(r, j);
    FrameIsSlice(r.stream, r.cuts, r.overlap, j);
    StartsMove(r.stream, r.cuts, r.overlap, j);
    SliceIsOrdered(r.stream, lo, r.cuts[j]);
  }

  ghost predicate Reports(results: seq<Result>, v: Visit) {
    exists res :: res in results && res.visit == v
  }

  /** A slice reports on a visit only if it holds an arrival of it. */
  lemma SliceNeedsArrival(tt: Timetable, stream: seq<Ping>, lo: nat, hi: nat, v: Visit) returns (k: nat)
    requires DistinctTimes(stream) && lo <= hi <= |stream| && DistinctTimes(stream[lo..hi])
    requires Reports(WindowResults(tt, stream[lo..hi]), v)
    ensures lo <= k < hi && IsArrival(stream[k]) && VisitOf(stream[k]) == v
  {
    var res :| res in WindowResults(tt, stream[lo..hi]) && res.visit == v;
    WindowHolds(tt, stream[lo..hi], res);
    var i: nat :| IsFirstArrival(stream[lo..hi], i) && IsScheduled(tt, stream[lo..hi][i]) && ResultOf(tt, stream[lo..hi][i]) == res;
    k := lo + i;
  }

  /** A slice that holds the stream's first arrival of a visit reports just that. */
  lemma SliceReportsFirst(tt: Timetable, stream: seq<Ping>, lo: nat, hi: nat, i: nat)
    requires DistinctTimes(stream) && lo <= i < hi <= |stream| && DistinctTimes(stream[lo..hi])
    requires IsFirstArrival(stream, i) && IsScheduled(tt, stream[i]) && InGate(ResultOf(tt, stream[i]))
    ensures ResultOf(tt, stream[i]) in WindowResults(tt, stream[lo..hi])
    ensures OneResultEach(WindowResults(tt, stream[lo..hi]))
  {
    var slice := stream[lo..hi];
    assert slice[i - lo] == stream[i];
    forall k | 0 <= k < |slice| && IsArrival(slice[k]) && VisitOf(slice[k]) == VisitOf(slice[i - lo])
      ensures slice[i - lo].time <= slice[k].time
    {
      assert slice[k] == stream[lo + k];
    }
    assert IsFirstArrival(slice, i - lo);
    WindowHolds(tt, slice, ResultOf(tt, stream[i]));
  }

  // ----- before, at and after the flush the first arrival comes in

  /** The stream's first arrival of its visit, scheduled, in the gate, and not dwelling too long. */
  ghost predicate IsProper(r: Run, i: nat)
    requires Cut(r)
  {
    && i < |r.stream| && IsFirstArrival(r.stream, i)
    && IsScheduled(r.tt, r.stream[i]) && InGate(ResultOf(r.tt, r.stream[i]))
    && forall k :: 0 <= k < |r.stream| && IsArrival(r.stream[k]) && VisitOf(r.stream[k]) == VisitOf(r.stream[i]) ==>
         r.stream[k].time - r.stream[i].time <= r.retention - r.overlap
  }

  lemma NoEarlierArrival(stream: seq<Ping>, i: nat, k: nat)
    requires InOrder(stream) && DistinctTimes(stream) && IsFirstArrival(stream, i)
    requires k < |stream| && IsArrival(stream[k]) && VisitOf(stream[k]) == VisitOf(stream[i])
    ensures i <= k
  {
  }

  /** The visit has been neither seen nor reported before the n-th flush. */
  ghost predicate Silent(r: Run, v: Visit, n: nat)
    requires Cut(r) && n <= |r.cuts|
  {
    v !in r.seen[n] && forall m :: 0 <= m < n ==> !Reports(r.reported[m], v)
  }

  lemma {:induction false} SilentBefore(r: Run, i: nat, j: nat, n: nat)
    requires Valid(r) && i < |r.stream| && IsFirstArrival(r.stream, i) && n <= j < |r.cuts| && Arrived(r.cuts, j) <= i
    ensures Silent(r, VisitOf(r.stream[i]), n)
  {
    if n > 0 {
      SilentBefore(r, i, j, n - 1);
      SilentNext(r, i, j, n - 1);
    }
  }

  lemma SilentNext(r: Run, i: nat, j: nat, n: nat)
    requires Valid(r) && i < |r.stream| && IsFirstArrival(r.stream, i) && n < j < |r.cuts| && Arrived(r.cuts, j) <= i
    requires Silent(r, VisitOf(r.stream[i]), n)
    ensures Silent(r, VisitOf(r.stream[i]), n + 1)
  {
    assert Filters(r, n);
    SilentWindow(r, i, j, n);
    SilentGrows(r, VisitOf(r.stream[i]), n);
  }

  lemma SilentGrows(r: Run, v: Visit, n: nat)
    requires Cut(r) && n < |r.cuts| && Silent(r, v, n) && v !in r.seen[n + 1] && !Reports(r.reported[n], v)
    ensures Silent(r, v, n + 1)
  {
  }

  lemma CutsBehind(r: Run, m: nat, j: nat)
    requires Cut(r) && m < j <= |r.cuts|
    ensures r.cuts[m] <= Arrived(r.cuts, j)
  {
  }

  lemma SilentWindow(r: Run, i: nat, j: nat, m: nat)
    requires Cut(r) && i < |r.stream| && IsFirstArrival(r.stream, i) && m < j < |r.cuts| && Arrived(r.cuts, j) <= i && Filters(r, m)
    requires VisitOf(r.stream[i]) !in r.seen[m]
    ensures VisitOf(r.stream[i]) !in r.seen[m + 1] && !Reports(r.reported[m], VisitOf(r.stream[i]))
  {
    var v := VisitOf(r.stream[i]);
    var lo := FrameSlice(r, m);
    var results := WindowResults(r.tt, FrameOf(r, m));
    CutsBehind(r, m, j);
    if Reports(results, v) {
      var k := SliceNeedsArrival(r.tt, r.stream, lo, r.cuts[m], v);
      NoEarlierArrival(r.stream, i, k);
    }
    NotReported(r, m, v);
  }

  /** A window that has nothing on an unseen visit leaves it unseen. */
  lemma NotReported(r: Run, m: nat, v: Visit)
    requires Cut(r) && m < |r.cuts| && Filters(r, m) && !Reports(WindowResults(r.tt, FrameOf(r, m)), v)
    ensures !Reports(r.reported[m], v)
    ensures v in r.seen[m + 1] ==> v in r.seen[m] && r.seen[m + 1][v] == r.seen[m][v]
  {
    var lo := FrameSlice(r, m);
    OneEachWindow(r, m);
    FilterKeepsUnseen(r.seen[m], WindowResults(r.tt, FrameOf(r, m)), v);
  }

  lemma OneEachWindow(r: Run, m: nat)
    requires Cut(r) && m < |r.cuts|
    ensures OneResultEach(WindowResults(r.tt, FrameOf(r, m)))
  {
    var lo := FrameSlice(r, m);
    WindowHolds(r.tt, FrameOf(r, m), Result(Visit(0, 0, 0), 0, 0));
  }

  /** The visit is still seen, or so long past that no frame can hold an arrival of it. */
  ghost predicate IsDone(r: Run, i: nat, m: nat)
    requires Cut(r) && i < |r.stream| && 0 < m <= |r.cuts| && r.cuts[m - 1] > 0
  {
    || (VisitOf(r.stream[i]) in r.seen[m] && r.seen[m][VisitOf(r.stream[i])] == r.stream[i].time)
    || r.stream[i].time < r.stream[r.cuts[m - 1] - 1].time - r.retention
  }

  lemma DoneWindow(r: Run, i: nat, m: nat)
    requires Cut(r) && IsProper(r, i) && 0 < m < |r.cuts| && r.cuts[m - 1] > 0 && Filters(r, m) && IsDone(r, i, m)
    ensures r.cuts[m] > 0 && !Reports(r.reported[m], VisitOf(r.stream[i])) && IsDone(r, i, m + 1)
  {
    var v := VisitOf(r.stream[i]);
    assert r.cuts[m - 1] <= r.cuts[m];
    assert r.stream[r.cuts[m - 1] - 1].time <= r.stream[r.cuts[m] - 1].time;
    OneEachWindow(r, m);
    FilterKeepsUnseen(r.seen[m], WindowResults(r.tt, FrameOf(r, m)), v);
    if r.stream[i].time < r.stream[r.cuts[m - 1] - 1].time - r.retention && Reports(WindowResults(r.tt, FrameOf(r, m)), v) {
      NoArrivalLeft(r, i, m);
    }
  }

  lemma NoArrivalLeft(r: Run, i: nat, m: nat)
    requires Cut(r) && IsProper(r, i) && 0 < m < |r.cuts| && r.cuts[m - 1] > 0
    requires r.stream[i].time < r.stream[r.cuts[m - 1] - 1].time - r.retention
    ensures !Reports(WindowResults(r.tt, FrameOf(r, m)), VisitOf(r.stream[i]))
  {
    var lo := FrameSlice(r, m);
    if Reports(WindowResults(r.tt, FrameOf(r, m)), VisitOf(r.stream[i])) {
      var k := SliceNeedsArrival(r.tt, r.stream, lo, r.cuts[m], VisitOf(r.stream[i]));
      StartIsCutoff(r.stream, r.cuts, r.overlap, m, k);
    }
  }

  /** The flush that brings the first arrival in reports it. */
  lemma FirstWindow(r: Run, i: nat, j: nat)
    requires Cut(r) && IsProper(r, i) && j < |r.cuts| && Arrived(r.cuts, j) <= i < r.cuts[j] && Filters(r, j)
    requires VisitOf(r.stream[i]) !in r.seen[j]
    ensures ResultOf(r.tt, r.stream[i]) in r.reported[j] && OneResultEach(r.reported[j]) && IsDone(r, i, j + 1)
  {
    var v := VisitOf(r.stream[i]);
    var lo := FrameSlice(r, j);
    SliceReportsFirst(r.tt, r.stream, lo, r.cuts[j], i);
    FilterKeepsUnseen(r.seen[j], WindowResults(r.tt, FrameOf(r, j)), v);
    FilterOneEach(r.seen[j], WindowResults(r.tt, FrameOf(r, j)));
  }

  lemma {:induction false} FilterOneEach(seen: SeenVisits, results: seq<Result>)
    requires OneResultEach(results)
    ensures OneResultEach(FilterNew(seen, results).passed)
  {
    if results != [] {
      var n := |results| - 1;
      FilterOneEach(seen, results[..n]);
      FilterKeepsUnseen(seen, results[..n], results[n].visit);
      var head := FilterNew(seen, results[..n]).passed;
      forall k | 0 <= k < |head| ensures head[k].visit != results[n].visit {
        assert head[k] in head;
        var m :| 0 <= m < n && results[m] == head[k];
      }
    }
  }

  /** Since flush j the visit is done with and has not been reported again. */
  ghost predicate QuietSince(r: Run, i: nat, j: nat, n: nat)
    requires Cut(r) && i < |r.stream| && j < n <= |r.cuts|
  {
    && r.cuts[n - 1] > 0 && IsDone(r, i, n)
    && forall m :: j < m < n ==> !Reports(r.reported[m], VisitOf(r.stream[i]))
  }

  lemma QuietNext(r: Run, i: nat, j: nat, n: nat)
    requires Valid(r) && IsProper(r, i) && j < n < |r.cuts| && QuietSince(r, i, j, n)
    ensures QuietSince(r, i, j, n + 1)
  {
    assert Filters(r, n);
    QuietStep(r, i, j, n);
  }

  lemma QuietStep(r: Run, i: nat, j: nat, n: nat)
    requires Cut(r) && IsProper(r, i) && j < n < |r.cuts| && Filters(r, n) && QuietSince(r, i, j, n)
    ensures QuietSince(r, i, j, n + 1)
  {
    DoneWindow(r, i, n);
  }

  lemma {:induction false} SilentAfter(r: Run, i: nat, j: nat, n: nat)
    requires Valid(r) && IsProper(r, i) && j < n <= |r.cuts| && r.cuts[j] > 0 && IsDone(r, i, j + 1)
    ensures QuietSince(r, i, j, n)
  {
    if n > j + 1 {
      SilentAfter(r, i, j, n - 1);
      QuietNext(r, i, j, n - 1);
    }
  }

  lemma ProperIsReportedOnce(r: Run, i: nat, j: nat)
    requires Valid(r) && IsProper(r, i) && j < |r.cuts| && Arrived(r.cuts, j) <= i < r.cuts[j]
    ensures ResultOf(r.tt, r.stream[i]) in r.reported[j] && OneResultEach(r.reported[j])
    ensures forall m :: 0 <= m < |r.cuts| && m != j ==> !Reports(r.reported[m], VisitOf(r.stream[i]))
  {
    SilentBefore(r, i, j, j);
    assert Filters(r, j);
    FirstWindow(r, i, j);
    SilentAfter(r, i, j, |r.cuts|);
  }

  /** No ping of the i-th one's visit comes longer after it than retention minus overlap. */
  ghost predicate DwellsBriefly(r: Run, i: nat) {
    && i < |r.stream|
    && forall k :: 0 <= k < |r.stream| && StopsAlike(r.stream[i], r.stream[k]) ==>
         r.stream[k].time - r.stream[i].time <= r.retention - r.overlap
  }

  /**
   Exactly once: wherever the stream is cut, the first arrival of a visit that was due within 30
   minutes of it on some service day, and whose stop lasts no longer than retention minus overlap,
   is reported at one flush only, once: at the time of that ping, against the nearest service day.
   */
  lemma ArrivalReportedExactlyOnce(r: Run, i: nat, j: nat) returns (res: Result)
    requires Valid(r) && IsTimetable(r.tt) && j < |r.cuts| && Arrived(r.cuts, j) <= i < r.cuts[j] <= |r.stream|
    requires IsFirstArrival(r.stream, i) && IsDue(r.tt, r.stream[i]) && DwellsBriefly(r, i)
    ensures res in r.reported[j] && Tells(r.tt, r.stream[i], res) && OneResultEach(r.reported[j])
    ensures forall m :: 0 <= m < |r.cuts| && m != j ==> !Reports(r.reported[m], res.visit)
  {
    DueIsInGate(r.tt, r.stream[i]);
    res := ResultOf(r.tt, r.stream[i]);
    ResultTells(r.tt, r.stream[i], res);
    forall k | 0 <= k < |r.stream| && IsArrival(r.stream[k]) && VisitOf(r.stream[k]) == VisitOf(r.stream[i])
      ensures r.stream[k].time - r.stream[i].time <= r.retention - r.overlap
    {
      assert StopsAlike(r.stream[i], r.stream[k]);
    }
    ProperIsReportedOnce(r, i, j);
  }

  // ----- the bound on the dwell is exact

  function StopPing(trip: int, stop: int, time: int): Ping {
    Ping(1, trip, 0, time, None, true, stop, true)
  }

  /** A stop reported at 0 and again a dwell later, and another vehicle's ping an overlap after that. */
  function LongStop(trip: int, stop: int, dwell: int, overlap: int): seq<Ping> {
    [StopPing(trip, stop, 0), StopPing(trip, stop, dwell), Ping(2, trip, 0, dwell + overlap, None, false, stop, false)]
  }

  lemma LongStopStream(trip: int, stop: int, dwell: int, overlap: int)
    requires dwell > 0 && overlap >= 0
    ensures var stream := LongStop(trip, stop, dwell, overlap); InOrder(stream) && DistinctTimes(stream) && Cuts(stream, [3, 3])
  {
  }

  lemma LongStopFrames(trip: int, stop: int, dwell: int, overlap: int)
    requires dwell > 0 && overlap >= 0
    ensures var stream := LongStop(trip, stop, dwell, overlap);
            && InOrder(stream) && DistinctTimes(stream) && Cuts(stream, [3, 3])
            && Frame(stream, [3, 3], overlap, 0) == stream[0..3] && Frame(stream, [3, 3], overlap, 1) == stream[1..3]
  {
    var stream, cuts := LongStop(trip, stop, dwell, overlap), [3, 3];
    LongStopStream(trip, stop, dwell, overlap);
    FrameIsSlice(stream, cuts, overlap, 0);
    FrameIsSlice(stream, cuts, overlap, 1);
    StartIsCutoff(stream, cuts, overlap, 1, 0);
    StartIsCutoff(stream, cuts, overlap, 1, 1);
  }

  ghost function LongStopRun(tt: Timetable, trip: int, stop: int, dwell: int, overlap: int, retention: int): Run {
    var stream := LongStop(trip, stop, dwell, overlap);
    var cutoff := dwell + overlap - retention;
    var first := FilterNew(map[], WindowResults(tt, stream[0..3]));
    var second := FilterNew(PurgeSeen(first.seen, cutoff), WindowResults(tt, stream[1..3]));
    Run(tt, stream, [3, 3], overlap, retention, [stream[0..3], stream[1..3]],
        [map[], PurgeSeen(first.seen, cutoff), PurgeSeen(second.seen, cutoff)], [first.passed, second.passed])
  }

  /** A stop any longer can be reported twice: its entry is purged while a later ping of it is still carried. */
  lemma LongerStopReportedTwice(tt: Timetable, trip: int, stop: int, dwell: int, overlap: int, retention: int)
    requires IsTimetable(tt) && overlap >= 0
    requires IsDue(tt, StopPing(trip, stop, 0)) && IsDue(tt, StopPing(trip, stop, dwell))
    requires dwell > retention - overlap >= 0
    ensures var r, v := LongStopRun(tt, trip, stop, dwell, overlap, retention), Visit(1, trip, stop);
            Valid(r) && Reports(r.reported[0], v) && Reports(r.reported[1], v)
  {
    DueIsInGate(tt, StopPing(trip, stop, 0));
    DueIsInGate(tt, StopPing(trip, stop, dwell));
    LongStopValid(tt, trip, stop, dwell, overlap, retention);
    var r, v := LongStopRun(tt, trip, stop, dwell, overlap, retention), Visit(1, trip, stop);
    LongStopReports(tt, trip, stop, dwell, overlap, 0);
    LongStopReports(tt, trip, stop, dwell, overlap, 1);
    FilterKeepsUnseen(map[], WindowResults(tt, r.stream[0..3]), v);
    FilterKeepsUnseen(r.seen[1], WindowResults(tt, r.stream[1..3]), v);
  }

  lemma LongStopValid(tt: Timetable, trip: int, stop: int, dwell: int, overlap: int, retention: int)
    requires dwell > 0 && overlap >= 0
    ensures Valid(LongStopRun(tt, trip, stop, dwell, overlap, retention))
  {
    var r := LongStopRun(tt, trip, stop, dwell, overlap, retention);
    LongStopFrames(trip, stop, dwell, overlap);
    forall j | 0 <= j < 2 ensures IsFrame(r, j) {
    }
    assert Cut(r);
    assert Filters(r, 0) && Filters(r, 1);
  }

  lemma LongStopReports(tt: Timetable, trip: int, stop: int, dwell: int, overlap: int, lo: nat)
    requires dwell > 0 && overlap >= 0 && lo < 2
    requires IsScheduled(tt, StopPing(trip, stop, 0)) && InGate(ResultOf(tt, StopPing(trip, stop, if lo == 0 then 0 else dwell)))
    ensures var results := WindowResults(tt, LongStop(trip, stop, dwell, overlap)[lo..3]);
            OneResultEach(results) && ResultOf(tt, StopPing(trip, stop, if lo == 0 then 0 else dwell)) in results
  {
    var slice := LongStop(trip, stop, dwell, overlap)[lo..3];
    LongStopFrames(trip, stop, dwell, overlap);
    SliceIsOrdered(LongStop(trip, stop, dwell, overlap), lo, 3);
    assert IsFirstArrival(slice, 0);
    WindowHolds(tt, slice, ResultOf(tt, slice[0]));
  }
}

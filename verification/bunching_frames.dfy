/** consumer.py: whole runs of the windowed pipeline, and how a frame's view compares with the uncut stream's. */
module BunchingFrames {
  import opened Options
  import opened Pings
  import opened Bunching
  import opened BunchingEvents
  import opened BunchingTracker

  /**
   One run: a stream, the flush points that cut it up, the frames that gives, what
   detection reported for each, and what was tracked and had been emitted before each flush.
   */
  datatype Run = Run(
    st: Static,
    stream: seq<Ping>,
    cuts: seq<nat>,
    overlap: int,
    retention: int,
    least: nat,                   // MIN_CONSECUTIVE
    frames: seq<seq<Ping>>,
    detections: seq<seq<Event>>,
    tracked: seq<Seen>,
    logs: seq<seq<Action>>)

  ghost function FrameOf(r: Run, j: nat): seq<Ping>
    requires j < |r.frames|
  {
    r.frames[j]
  }

  /** The j-th frame is the one the buffer gives. */
  ghost predicate IsFrame(r: Run, j: nat)
    requires Cuts(r.stream, r.cuts) && j < |r.cuts| == |r.frames|
  {
    r.frames[j] == Frame(r.stream, r.cuts, r.overlap, j)
  }

  ghost predicate Cut(r: Run) {
    && InOrder(r.stream) && DistinctTimes(r.stream) && Cuts(r.stream, r.cuts) && r.overlap >= 0 && r.least >= 2
    && |r.frames| == |r.cuts| && |r.detections| == |r.cuts| && |r.tracked| == |r.cuts| + 1 && |r.logs| == |r.cuts| + 1
    && r.tracked[0] == map[] && r.logs[0] == []
    && (forall j {:trigger IsFrame(r, j)} :: 0 <= j < |r.cuts| ==> IsFrame(r, j))
  }

  /** Detection reports what it should on a batch of pings: on its close pairs, knowing its far ones. */
  ghost predicate Finds(st: Static, pings: seq<Ping>, least: nat, events: seq<Event>) {
    exists close, separated ::
      close == ClosePairs(st, pings) && separated == Some(FarPairs(st, pings)) && Detects(close, separated, least, events)
  }

  ghost predicate Detected(r: Run, j: nat)
    requires Cut(r) && j < |r.cuts|
  {
    Finds(r.st, FrameOf(r, j), r.least, r.detections[j])
  }

  /** The j-th window: reconcile, then purge at its newest ping; an empty frame is not processed. */
  ghost predicate Reconciles(r: Run, j: nat)
    requires Cut(r) && j < |r.cuts|
  {
    if r.cuts[j] == 0 then r.logs[j + 1] == r.logs[j] && r.tracked[j + 1] == r.tracked[j]
    else
      var done := Reconcile(r.tracked[j], r.detections[j]);
      && r.logs[j + 1] == r.logs[j] + done.actions
      && r.tracked[j + 1] == Purge(done.seen, r.stream[r.cuts[j] - 1].time - r.retention)
  }

  ghost predicate Valid(r: Run) {
    && Cut(r)
    && (forall j {:trigger Detected(r, j)} :: 0 <= j < |r.cuts| ==> Detected(r, j))
    && (forall j {:trigger Reconciles(r, j)} :: 0 <= j < |r.cuts| ==> Reconciles(r, j))
  }

  /** Everything the run emitted. */
  ghost function Emitted(r: Run): seq<Action>
    requires Cut(r)
  {
    r.logs[|r.cuts|]
  }

  // ----- frames as slices

  lemma FrameFacts(r: Run, j: nat) returns (lo: nat)
    requires Cut(r) && j < |r.cuts|
    ensures lo == Start(r.stream, r.cuts, r.overlap, j) <= Arrived(r.cuts, j) <= r.cuts[j]
    ensures FrameOf(r, j) == r.stream[lo..r.cuts[j]]
    ensures FrameOf(r, j) == [] <==> r.cuts[j] == 0
    ensures r.cuts[j] > 0 ==> MaxTime(FrameOf(r, j)) == r.stream[r.cuts[j] - 1].time
  {
    lo := Start(r.stream, r.cuts, r.overlap, j);
    assert IsFrame(r, j);
    FrameIsSlice(r.stream, r.cuts, r.overlap, j);
    StartsMove(r.stream, r.cuts, r.overlap, j);
    if lo < r.cuts[j] {
      MaxTimeOfSlice(r.stream, lo, r.cuts[j]);
    }
  }

  lemma {:induction false} LaterStart(r: Run, m: nat, j: nat)
    requires Cut(r) && m <= j < |r.cuts|
    ensures Start(r.stream, r.cuts, r.overlap, m) <= Start(r.stream, r.cuts, r.overlap, j)
    decreases j - m
  {
    if m < j {
      StartsMove(r.stream, r.cuts, r.overlap, j);
      LaterStart(r, m, j - 1);
    }
  }

  // ----- a slice's pairs

  /** No vehicle has two pings on known trips and with a position in the same 15 seconds. */
  ghost predicate OnePerBucket(st: Static, stream: seq<Ping>) {
    forall i, j :: 0 <= i < j < |stream| && stream[i].trip in st.directions && stream[i].location.Some? ==>
      !Rivals(st, stream[i], stream[j])
  }

  /** A slice from lo misses nothing that decides who is first in bucket b. */
  ghost predicate Intact(st: Static, stream: seq<Ping>, lo: nat, b: int) {
    OnePerBucket(st, stream) || lo <= Older(stream, b)
  }

  lemma FirstInSlice(st: Static, stream: seq<Ping>, lo: nat, hi: nat, i: nat)
    requires InOrder(stream) && lo <= i < hi <= |stream| && Intact(st, stream, lo, Bucket(stream[i].time))
    ensures IsFirst(st, stream[lo..hi], i - lo) <==> IsFirst(st, stream, i)
  {
    var slice, b := stream[lo..hi], Bucket(stream[i].time);
    if IsFirst(st, slice, i - lo) {
      forall k | 0 <= k < |stream| && Rivals(st, stream[i], stream[k]) ensures stream[i].time <= stream[k].time {
        if k < lo {
          if lo <= Older(stream, b) {
            OlderSplits(stream, b, k);
          }
        } else if k < hi {
          assert stream[k] == slice[k - lo];
        }
      }
    }
    if IsFirst(st, stream, i) {
      forall k | 0 <= k < |slice| && Rivals(st, slice[i - lo], slice[k]) ensures slice[i - lo].time <= slice[k].time {
        assert slice[k] == stream[lo + k];
      }
    }
  }

  lemma MeetInSlice(st: Static, stream: seq<Ping>, lo: nat, hi: nat, i: nat, j: nat)
    requires InOrder(stream) && lo <= i < hi <= |stream| && lo <= j < hi
    requires Bucket(stream[i].time) == Bucket(stream[j].time) && Intact(st, stream, lo, Bucket(stream[i].time))
    ensures Meet(st, stream[lo..hi], i - lo, j - lo) <==> Meet(st, stream, i, j)
  {
    FirstInSlice(st, stream, lo, hi, i);
    FirstInSlice(st, stream, lo, hi, j);
  }

  /** The pings of a meeting are in its bucket. */
  lemma MeetTimes(st: Static, pings: seq<Ping>, p: Pair, i: nat, j: nat)
    requires MeetClose(st, pings, p, i, j) || MeetFar(st, pings, p, i, j)
    ensures p.bucket <= pings[i].time < p.bucket + POLL && p.bucket <= pings[j].time < p.bucket + POLL
    ensures Bucket(pings[i].time) == Bucket(pings[j].time) == p.bucket
  {
  }

  ghost predicate ClosedIn(st: Static, stream: seq<Ping>, p: Pair, lo: nat, hi: nat) {
    exists i: nat, j: nat :: lo <= i < hi && lo <= j < hi && MeetClose(st, stream, p, i, j)
  }

  ghost predicate FarIn(st: Static, stream: seq<Ping>, p: Pair, lo: nat, hi: nat) {
    exists i: nat, j: nat :: lo <= i < hi && lo <= j < hi && MeetFar(st, stream, p, i, j)
  }

  lemma MeetingIntoSlice(st: Static, stream: seq<Ping>, lo: nat, hi: nat, p: Pair, i: nat, j: nat)
    requires InOrder(stream) && lo <= hi <= |stream| && Intact(st, stream, lo, p.bucket)
    requires lo <= i < hi && lo <= j < hi
    ensures MeetClose(st, stream, p, i, j) ==> MeetClose(st, stream[lo..hi], p, i - lo, j - lo)
    ensures MeetFar(st, stream, p, i, j) ==> MeetFar(st, stream[lo..hi], p, i - lo, j - lo)
  {
    if MeetClose(st, stream, p, i, j) || MeetFar(st, stream, p, i, j) {
      MeetTimes(st, stream, p, i, j);
      MeetInSlice(st, stream, lo, hi, i, j);
    }
  }

  lemma MeetingOutOfSlice(st: Static, stream: seq<Ping>, lo: nat, hi: nat, p: Pair, i: nat, j: nat)
    requires InOrder(stream) && lo <= hi <= |stream| && Intact(st, stream, lo, p.bucket)
    requires i < hi - lo && j < hi - lo
    ensures MeetClose(st, stream[lo..hi], p, i, j) ==> MeetClose(st, stream, p, lo + i, lo + j)
    ensures MeetFar(st, stream[lo..hi], p, i, j) ==> MeetFar(st, stream, p, lo + i, lo + j)
  {
    if MeetClose(st, stream[lo..hi], p, i, j) || MeetFar(st, stream[lo..hi], p, i, j) {
      MeetTimes(st, stream[lo..hi], p, i, j);
      MeetInSlice(st, stream, lo, hi, lo + i, lo + j);
    }
  }

  /** Within a slice that is intact for it, a pair is listed exactly when its meeting in the whole stream is inside. */
  lemma CloseInSlice(st: Static, stream: seq<Ping>, lo: nat, hi: nat, p: Pair)
    requires InOrder(stream) && DistinctTimes(stream) && lo <= hi <= |stream| && Intact(st, stream, lo, p.bucket)
    ensures p in ClosePairs(st, stream[lo..hi]) <==> ClosedIn(st, stream, p, lo, hi)
  {
    var slice := stream[lo..hi];
    SliceIsOrdered(stream, lo, hi);
    PairsAreNestedLoops(st, slice, p);
    if i: nat, j: nat :| MeetClose(st, slice, p, i, j) {
      MeetingOutOfSlice(st, stream, lo, hi, p, i, j);
    }
    if i: nat, j: nat :| lo <= i < hi && lo <= j < hi && MeetClose(st, stream, p, i, j) {
      MeetingIntoSlice(st, stream, lo, hi, p, i, j);
    }
  }

  lemma FarInSlice(st: Static, stream: seq<Ping>, lo: nat, hi: nat, p: Pair)
    requires InOrder(stream) && DistinctTimes(stream) && lo <= hi <= |stream| && Intact(st, stream, lo, p.bucket)
    ensures p in FarPairs(st, stream[lo..hi]) <==> FarIn(st, stream, p, lo, hi)
  {
    var slice := stream[lo..hi];
    SliceIsOrdered(stream, lo, hi);
    PairsAreNestedLoops(st, slice, p);
    if i: nat, j: nat :| MeetFar(st, slice, p, i, j) {
      MeetingOutOfSlice(st, stream, lo, hi, p, i, j);
    }
    if i: nat, j: nat :| lo <= i < hi && lo <= j < hi && MeetFar(st, stream, p, i, j) {
      MeetingIntoSlice(st, stream, lo, hi, p, i, j);
    }
  }

  /** Whatever a slice lists as close was close between two pings of the slice. */
  lemma CloseNeedsBoth(st: Static, stream: seq<Ping>, lo: nat, hi: nat, p: Pair) returns (i: nat, j: nat)
    requires InOrder(stream) && DistinctTimes(stream) && lo <= hi <= |stream| && p in ClosePairs(st, stream[lo..hi])
    ensures lo <= i < hi && lo <= j < hi && Usable(st, stream[i]) && Usable(st, stream[j])
    ensures stream[i].vehicle == p.key.a && stream[j].vehicle == p.key.b && p.key.a < p.key.b
    ensures Bucket(stream[i].time) == Bucket(stream[j].time) == p.bucket
  {
    var slice := stream[lo..hi];
    SliceIsOrdered(stream, lo, hi);
    PairsAreNestedLoops(st, slice, p);
    var x: nat, y: nat :| MeetClose(st, slice, p, x, y);
    MeetTimes(st, slice, p, x, y);
    i, j := lo + x, lo + y;
  }

  // ----- the uncut stream's buckets and a frame's

  ghost function CloseOf(st: Static, pings: seq<Ping>, key: Key): set<int> {
    Buckets(ClosePairs(st, pings), key)
  }

  ghost function FarOf(st: Static, pings: seq<Ping>, key: Key): Option<set<int>> {
    Some(Buckets(FarPairs(st, pings), key))
  }

  lemma InBuckets(pairs: seq<Pair>, key: Key, t: int) returns (p: Pair)
    requires t in Buckets(pairs, key)
    ensures p in pairs && p.key == key && p.bucket == t
  {
    p :| p in pairs && p.key == key && p.bucket == t;
  }

  lemma OnGrid(st: Static, pings: seq<Ping>, key: Key, t: int)
    requires DistinctTimes(pings) && (t in CloseOf(st, pings, key) || t in FarOf(st, pings, key).value)
    ensures t % POLL == 0
  {
    if t in CloseOf(st, pings, key) {
      var p := InBuckets(ClosePairs(st, pings), key, t);
      PairsAreNestedLoops(st, pings, p);
      var i: nat, j: nat :| MeetClose(st, pings, p, i, j);
      MeetTimes(st, pings, p, i, j);
    } else {
      var p := InBuckets(FarPairs(st, pings), key, t);
      PairsAreNestedLoops(st, pings, p);
      var i: nat, j: nat :| MeetFar(st, pings, p, i, j);
      MeetTimes(st, pings, p, i, j);
    }
  }

  lemma NextOnGrid(t: int, u: int)
    requires t % POLL == 0 && u % POLL == 0 && t < u
    ensures t + POLL <= u
  {
  }
}

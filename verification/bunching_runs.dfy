/** What the overlap and the tracker guarantee together: spacing, and coverage of the uncut stream's runs. */
module BunchingRuns {
  import opened Options
  import opened Pings
  import opened Bunching
  import opened BunchingEvents
  import opened BunchingTracker
  import opened BunchingFrames

  /** Where an event's first bucket lies: in the frame that showed it. */
  lemma EventInFrame(r: Run, j: nat, ev: Event) returns (p: Pair)
    requires Cut(r) && j < |r.cuts| && Detected(r, j) && ev in r.detections[j]
    ensures ev.start <= ev.end && p.key == ev.key && p.bucket == ev.start && p in ClosePairs(r.st, FrameOf(r, j))
  {
    assert Describes(ClosePairs(r.st, FrameOf(r, j)), Some(FarPairs(r.st, FrameOf(r, j))), r.least, ev);
    p := InBuckets(ClosePairs(r.st, FrameOf(r, j)), ev.key, ev.start);
  }

  lemma EventEndsInFrame(r: Run, j: nat, ev: Event) returns (p: Pair)
    requires Cut(r) && j < |r.cuts| && Detected(r, j) && ev in r.detections[j]
    ensures p.key == ev.key && p.bucket == ev.end && p in ClosePairs(r.st, FrameOf(r, j))
  {
    assert Describes(ClosePairs(r.st, FrameOf(r, j)), Some(FarPairs(r.st, FrameOf(r, j))), r.least, ev);
    p := InBuckets(ClosePairs(r.st, FrameOf(r, j)), ev.key, ev.end);
  }

  // ----- no incident twice

  /** A bucket seen in a slice begins no more than a poll before the slice does. */
  lemma BucketIsLate(st: Static, stream: seq<Ping>, lo: nat, hi: nat, p: Pair)
    requires InOrder(stream) && DistinctTimes(stream) && lo <= hi <= |stream| && p in ClosePairs(st, stream[lo..hi])
    ensures lo < hi && p.bucket > stream[lo].time - POLL
  {
    var i, k := CloseNeedsBoth(st, stream, lo, hi, p);
  }

  lemma EventsStartLate(r: Run, j: nat, ev: Event)
    requires Cut(r) && j < |r.cuts| && Detected(r, j) && ev in r.detections[j]
    ensures r.cuts[j] > 0 && ev.start <= ev.end && Start(r.stream, r.cuts, r.overlap, j) < |r.stream|
    ensures ev.start > r.stream[Start(r.stream, r.cuts, r.overlap, j)].time - POLL
  {
    var lo := FrameFacts(r, j);
    var p := EventInFrame(r, j, ev);
    BucketIsLate(r.st, r.stream, lo, r.cuts[j], p);
  }

  /** Below this every event of the j-th frame would have to start: what is tracked may have been purged below it. */
  ghost function Floor(r: Run, j: nat): int
    requires Cut(r) && j < |r.cuts| && r.cuts[j] > 0
  {
    var cutoff := r.stream[r.cuts[j] - 1].time - r.retention;
    if Arrived(r.cuts, j) > 0 then r.stream[Arrived(r.cuts, j) - 1].time - r.retention
    else if Start(r.stream, r.cuts, r.overlap, j) < |r.stream|
            && r.stream[Start(r.stream, r.cuts, r.overlap, j)].time - 3 * POLL < cutoff
    then r.stream[Start(r.stream, r.cuts, r.overlap, j)].time - 3 * POLL
    else cutoff
  }

  lemma EventsClearFloor(r: Run, j: nat, ev: Event)
    requires Cut(r) && r.retention >= r.overlap + 2 * POLL && j < |r.cuts| && Detected(r, j) && ev in r.detections[j]
    ensures r.cuts[j] > 0 && ev.start <= ev.end && Floor(r, j) + POLL < ev.start
  {
    EventsStartLate(r, j, ev);
    var lo := Start(r.stream, r.cuts, r.overlap, j);
    if Arrived(r.cuts, j) > 0 {
      StartIsCutoff(r.stream, r.cuts, r.overlap, j, lo);
    }
  }

  lemma FloorRises(r: Run, j: nat)
    requires Cut(r) && j < |r.cuts| && r.cuts[j] > 0
    ensures Floor(r, j) <= r.stream[r.cuts[j] - 1].time - r.retention
  {
  }

  ghost predicate SpacedUpTo(r: Run, n: nat)
    requires Cut(r) && n <= |r.cuts|
  {
    && Spaced(r.logs[n])
    && if Arrived(r.cuts, n) == 0 then r.logs[n] == [] && r.tracked[n] == map[]
       else Bounded(r.logs[n], r.tracked[n], r.stream[Arrived(r.cuts, n) - 1].time - r.retention)
  }

  lemma AllClearFloor(r: Run, j: nat)
    requires Cut(r) && r.retention >= r.overlap + 2 * POLL && j < |r.cuts| && r.cuts[j] > 0 && Detected(r, j)
    ensures AllClear(r.detections[j], Floor(r, j))
  {
    forall ev | ev in r.detections[j] ensures ev.start <= ev.end && Floor(r, j) + POLL < ev.start {
      EventsClearFloor(r, j, ev);
    }
  }

  lemma SpacedAfter(r: Run, j: nat)
    requires Cut(r) && j < |r.cuts| && r.cuts[j] > 0 && Reconciles(r, j) && SpacedUpTo(r, j) && AllClear(r.detections[j], Floor(r, j))
    ensures SpacedUpTo(r, j + 1)
  {
    FloorRises(r, j);
    WindowSpaces(r.logs[j], r.tracked[j], Floor(r, j), r.detections[j], r.stream[r.cuts[j] - 1].time - r.retention,
                 r.logs[j + 1], r.tracked[j + 1]);
  }

  lemma SpacedNext(r: Run, j: nat)
    requires Valid(r) && r.retention >= r.overlap + 2 * POLL && j < |r.cuts| && SpacedUpTo(r, j)
    ensures SpacedUpTo(r, j + 1)
  {
    assert Reconciles(r, j) && Detected(r, j);
    if r.cuts[j] > 0 {
      AllClearFloor(r, j);
      SpacedAfter(r, j);
    }
  }

  lemma {:induction false} SpacedSoFar(r: Run, n: nat)
    requires Valid(r) && r.retention >= r.overlap + 2 * POLL && n <= |r.cuts|
    ensures SpacedUpTo(r, n)
  {
    if n > 0 {
      SpacedSoFar(r, n - 1);
      SpacedNext(r, n - 1);
    }
  }

  /**
   No incident is reported twice: along the whole run the end times emitted for a pair
   strictly increase, and every "new" starts more than a poll after all that ended before
   it, purges or not, as long as entries outlive the overlap by two buckets.
   */
  lemma NoIncidentTwice(r: Run)
    requires Valid(r) && r.retention >= r.overlap + 2 * POLL
    ensures Spaced(Emitted(r)) && Dated(Emitted(r))
  {
    SpacedSoFar(r, |r.cuts|);
    forall i | 0 <= i < |Emitted(r)| ensures Emitted(r)[i].event.start <= Emitted(r)[i].event.end {
      assert Emitted(r)[i] in Emitted(r);
    }
  }

  // ----- when a close bucket has fully arrived

  function Later(i: nat, k: nat): nat { if i < k then k else i }

  /** The last of the two first pings of bucket t arrives between flush j and the one before. */
  ghost predicate CompletesIn(r: Run, key: Key, t: int, j: nat)
    requires Cut(r)
  {
    j < |r.cuts| && exists p: Pair, i: nat, k: nat ::
      p.key == key && p.bucket == t && MeetClose(r.st, r.stream, p, i, k)
      && Arrived(r.cuts, j) <= Later(i, k) < r.cuts[j]
  }

  lemma {:induction false} FlushOf(cuts: seq<nat>, idx: nat, n: nat) returns (j: nat)
    requires 0 < n <= |cuts| && idx < cuts[n - 1]
    ensures j < n && Arrived(cuts, j) <= idx < cuts[j]
  {
    if n == 1 || cuts[n - 2] <= idx {
      j := n - 1;
    } else {
      j := FlushOf(cuts, idx, n - 1);
    }
  }

  ghost predicate AllFlushed(r: Run) {
    r.cuts != [] && r.cuts[|r.cuts| - 1] == |r.stream|
  }

  lemma Completes(r: Run, key: Key, t: int) returns (j: nat)
    requires Valid(r) && AllFlushed(r) && t in CloseOf(r.st, r.stream, key)
    ensures CompletesIn(r, key, t, j)
  {
    var p := InBuckets(ClosePairs(r.st, r.stream), key, t);
    PairsAreNestedLoops(r.st, r.stream, p);
    var i: nat, k: nat :| MeetClose(r.st, r.stream, p, i, k);
    j := FlushOf(r.cuts, Later(i, k), |r.cuts|);
  }

  /** Nothing of the pair in bucket u or later lies before the later of its two first pings there. */
  lemma NothingBefore(st: Static, stream: seq<Ping>, late: nat, other: nat, u: int)
    requires InOrder(stream) && DistinctTimes(stream) && other < late < |stream|
    requires IsFirst(st, stream, late) && Bucket(stream[late].time) == u
    requires Usable(st, stream[other]) && stream[other].vehicle == stream[late].vehicle
    ensures Bucket(stream[other].time) < u
  {
    var a, b := stream[late], stream[other];
    assert Bucket(b.time) == u ==> Rivals(st, a, b);
  }

  /** A slice that ends before a meeting is complete shows the pair only in earlier buckets. */
  lemma SliceIsBehind(st: Static, stream: seq<Ping>, lo: nat, hi: nat, p: Pair, i: nat, k: nat, q: Pair)
    requires InOrder(stream) && DistinctTimes(stream) && lo <= hi <= |stream|
    requires MeetClose(st, stream, p, i, k) && hi <= Later(i, k)
    requires q in ClosePairs(st, stream[lo..hi]) && q.key == p.key
    ensures q.bucket < p.bucket
  {
    MeetTimes(st, stream, p, i, k);
    var x, y := CloseNeedsBoth(st, stream, lo, hi, q);
    NothingBefore(st, stream, Later(i, k), if i < k then y else x, p.bucket);
  }

  lemma CutsGrow(cuts: seq<nat>, stream: seq<Ping>, m: nat, j: nat)
    requires Cuts(stream, cuts) && m < j <= |cuts|
    ensures cuts[m] <= Arrived(cuts, j)
  {
  }

  lemma FrameIsBehind(r: Run, key: Key, u: int, j: nat, m: nat, q: Pair)
    requires Cut(r) && CompletesIn(r, key, u, j) && m < j && q in ClosePairs(r.st, FrameOf(r, m)) && q.key == key
    ensures q.bucket < u
  {
    var p: Pair, i: nat, k: nat :|
      p.key == key && p.bucket == u && MeetClose(r.st, r.stream, p, i, k)
      && Arrived(r.cuts, j) <= Later(i, k) < r.cuts[j];
    var lo := FrameFacts(r, m);
    CutsGrow(r.cuts, r.stream, m, j);
    SliceIsBehind(r.st, r.stream, lo, r.cuts[m], p, i, k, q);
  }

  /** Before that flush no frame can show the pair in bucket u or any later one. */
  lemma NothingAhead(r: Run, key: Key, u: int, j: nat, m: nat, ev: Event)
    requires Valid(r) && CompletesIn(r, key, u, j) && m < j && ev in r.detections[m] && ev.key == key
    ensures ev.end < u
  {
    assert Detected(r, m);
    var q := EventEndsInFrame(r, m, ev);
    FrameIsBehind(r, key, u, j, m, q);
  }
}

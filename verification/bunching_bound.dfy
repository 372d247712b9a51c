/** The overlap bound is exact: a run of just enough observations that does not fit into the overlap can be lost. */
module BunchingBound {
  import opened Options
  import opened Pings
  import opened Bunching
  import opened BunchingEvents
  import opened BunchingTracker
  import opened BunchingFrames
  import opened BunchingRuns
  import opened BunchingCoverage

  // ----- n observations, a gap apart

  predicate IsGap(gap: int) {
    gap == POLL || gap == TOLERANCE * POLL
  }

  lemma OnTheGrid(n: int, gap: int)
    requires IsGap(gap)
    ensures n * gap % POLL == 0 && Bucket(n * gap) == n * gap && Bucket(n * gap + POLL - 1) == n * gap
  {
    if gap == POLL {
      MultipleOfPoll(n, n * gap);
    } else {
      assert n * gap == n * (TOLERANCE * POLL);
      MultipleOfPoll(TOLERANCE * n, n * gap);
    }
  }

  lemma MultipleOfPoll(n: int, t: int)
    requires t == n * POLL
    ensures t % POLL == 0 && Bucket(t) == t && Bucket(t + POLL - 1) == t
  {
  }

  lemma GapApart(m: int, n: int, gap: int)
    requires IsGap(gap) && m < n
    ensures m * gap + gap <= n * gap
  {
    if gap == POLL {
      assert m * gap == m * POLL && n * gap == n * POLL;
    } else {
      assert m * gap == m * (TOLERANCE * POLL) && n * gap == n * (TOLERANCE * POLL);
    }
  }

  function Multiples(lo: int, hi: int, gap: int): set<int>
    decreases hi - lo
  {
    if hi <= lo then {} else Multiples(lo, hi - 1, gap) + {(hi - 1) * gap}
  }

  lemma {:induction false} InMultiples(lo: int, hi: int, gap: int, t: int)
    ensures t in Multiples(lo, hi, gap) <==> exists n {:trigger n * gap} :: lo <= n < hi && t == n * gap
    decreases hi - lo
  {
    if lo < hi {
      InMultiples(lo, hi - 1, gap, t);
      if t == (hi - 1) * gap {
        var n := hi - 1;
        assert lo <= n < hi && t == n * gap;
      }
    }
  }

  lemma IsMultiple(lo: int, hi: int, gap: int, n: int)
    requires lo <= n < hi
    ensures n * gap in Multiples(lo, hi, gap)
  {
    InMultiples(lo, hi, gap, n * gap);
  }

  lemma {:induction false} CountMultiples(lo: int, hi: int, gap: int)
    requires IsGap(gap) && lo <= hi
    ensures |Multiples(lo, hi, gap)| == hi - lo
    decreases hi - lo
  {
    if lo < hi {
      CountMultiples(lo, hi - 1, gap);
      var last := (hi - 1) * gap;
      if last in Multiples(lo, hi - 1, gap) {
        InMultiples(lo, hi - 1, gap, last);
        var n :| lo <= n < hi - 1 && last == n * gap;
        GapApart(n, hi - 1, gap);
      }
    }
  }

  // ----- the stream that is missed

  /** A place where two vehicles on one trip count as bunched. */
  predicate Bunches(st: Static, trip: int, place: Location) {
    trip in st.directions && !st.nearTerminal(place, trip) && st.distance(place, place) <= DISTANCE_THRESHOLD
  }

  function At(vehicle: int, trip: int, time: int, place: Location): Ping {
    Ping(vehicle, trip, 0, time, Some(place), false, 0, false)
  }

  function Last(k: nat, gap: int): int { (k - 1) * gap + POLL - 1 }

  function MissedPing(trip: int, place: Location, k: nat, gap: int, i: nat): Ping {
    if i + 2 <= 2 * k then At(1 + i % 2, trip, (i / 2) * gap, place)
    else At(if i + 1 == 2 * k then 3 else 2, trip, Last(k, gap), place)
  }

  /** Vehicles 1 and 2 meet k times, a gap apart; in the last bucket vehicle 3 reports just before 2 does. */
  function Missed(trip: int, place: Location, k: nat, gap: int): seq<Ping> {
    seq(2 * k + 1, i requires 0 <= i => MissedPing(trip, place, k, gap, i))
  }

  /** Which of the k buckets the i-th ping is in. */
  function Slot(k: nat, i: nat): int {
    if i + 2 <= 2 * k then i / 2 else k - 1
  }

  lemma MissedAt(trip: int, place: Location, k: nat, gap: int, i: nat)
    requires k >= 2 && IsGap(gap) && i < 2 * k + 1
    ensures Missed(trip, place, k, gap)[i] == MissedPing(trip, place, k, gap, i)
    ensures 0 <= Slot(k, i) < k && Bucket(Missed(trip, place, k, gap)[i].time) == Slot(k, i) * gap
    ensures Slot(k, i) * gap <= Missed(trip, place, k, gap)[i].time <= Slot(k, i) * gap + POLL - 1
  {
    OnTheGrid(Slot(k, i), gap);
  }

  lemma MissedInOrder(trip: int, place: Location, k: nat, gap: int, i: nat, j: nat)
    requires k >= 2 && IsGap(gap) && i < j < 2 * k + 1
    ensures Missed(trip, place, k, gap)[i].time <= Missed(trip, place, k, gap)[j].time
    ensures Missed(trip, place, k, gap)[i].vehicle == Missed(trip, place, k, gap)[j].vehicle ==>
              Slot(k, i) < Slot(k, j) && Missed(trip, place, k, gap)[i].time < Missed(trip, place, k, gap)[j].time
  {
    MissedAt(trip, place, k, gap, i);
    MissedAt(trip, place, k, gap, j);
    if Slot(k, i) < Slot(k, j) {
      GapApart(Slot(k, i), Slot(k, j), gap);
    }
  }

  lemma MissedStream(trip: int, place: Location, k: nat, gap: int)
    requires k >= 2 && IsGap(gap)
    ensures InOrder(Missed(trip, place, k, gap)) && DistinctTimes(Missed(trip, place, k, gap))
  {
    var stream := Missed(trip, place, k, gap);
    forall i, j | 0 <= i < j < |stream|
      ensures stream[i].time <= stream[j].time
      ensures stream[i].vehicle == stream[j].vehicle ==> stream[i].time != stream[j].time
    {
      MissedInOrder(trip, place, k, gap, i, j);
    }
  }

  // ----- neither frame shows enough of it

  /** Too few observations of any pair. */
  ghost predicate Sparse(close: seq<Pair>, least: nat) {
    forall key :: |Buckets(close, key)| < least
  }

  lemma NothingLasting(close: seq<Pair>, separated: Option<seq<Pair>>, least: nat)
    requires Sparse(close, least)
    ensures Detects(close, separated, least, [])
  {
    forall key, b, e ensures !IsLasting(close, separated, least, key, b, e) {
      assert |Buckets(close, key)| < least;
      SubsetSize(Span(Buckets(close, key), b, e), Buckets(close, key));
    }
  }

  /** A pair listed in a slice is listed in a bucket of two of the slice's pings. */
  lemma PairInSlice(st: Static, trip: int, place: Location, k: nat, gap: int, lo: nat, hi: nat, p: Pair) returns (i: nat, j: nat)
    requires k >= 2 && IsGap(gap) && lo <= hi <= 2 * k + 1
    requires p in ClosePairs(st, Missed(trip, place, k, gap)[lo..hi])
    ensures lo <= i < hi && lo <= j < hi && p.bucket == Slot(k, i) * gap == Slot(k, j) * gap
    ensures MissedPing(trip, place, k, gap, i).vehicle == p.key.a < p.key.b == MissedPing(trip, place, k, gap, j).vehicle
  {
    MissedStream(trip, place, k, gap);
    i, j := CloseNeedsBoth(st, Missed(trip, place, k, gap), lo, hi, p);
    MissedAt(trip, place, k, gap, i);
    MissedAt(trip, place, k, gap, j);
  }

  lemma SlotInSlice(st: Static, trip: int, place: Location, k: nat, gap: int, lo: nat, hi: nat, p: Pair) returns (i: nat)
    requires k >= 2 && IsGap(gap) && lo <= hi <= 2 * k + 1
    requires p in ClosePairs(st, Missed(trip, place, k, gap)[lo..hi])
    ensures lo <= i < hi && AtSlot(k, gap, i, p.bucket)
  {
    var j;
    i, j := PairInSlice(st, trip, place, k, gap, lo, hi, p);
  }

  ghost predicate AtSlot(k: nat, gap: int, i: nat, bucket: int)
    requires k >= 2
  {
    bucket == Slot(k, i) * gap
  }

  lemma LateSlot(k: nat, gap: int, i: nat, bucket: int)
    requires k >= 2 && 2 <= i < 2 * k + 1 && AtSlot(k, gap, i, bucket)
    ensures bucket in Multiples(1, k, gap)
  {
    BucketOfSlot(1, k, gap, i, bucket);
  }

  lemma SlotsApart(m: int, n: int, gap: int)
    requires IsGap(gap) && m * gap == n * gap
    ensures m == n
  {
    if m < n {
      GapApart(m, n, gap);
    } else if n < m {
      GapApart(n, m, gap);
    }
  }

  /** Before the last ping, pairs without vehicle 3 are not seen in the last bucket. */
  lemma EarlyBuckets(st: Static, trip: int, place: Location, k: nat, gap: int, p: Pair)
    requires k >= 2 && IsGap(gap) && p in ClosePairs(st, Missed(trip, place, k, gap)[0..2 * k])
    ensures p.key.b == 3 ==> p.bucket == (k - 1) * gap
    ensures p.key.b != 3 ==> p.bucket in Multiples(0, k - 1, gap)
  {
    var i, j := PairInSlice(st, trip, place, k, gap, 0, 2 * k, p);
    SlotsApart(Slot(k, i), Slot(k, j), gap);
    if p.key.b != 3 {
      IsMultiple(0, k - 1, gap, Slot(k, j));
    }
  }

  lemma EarlyIsSparse(st: Static, trip: int, place: Location, k: nat, gap: int)
    requires k >= 2 && IsGap(gap)
    ensures Sparse(ClosePairs(st, Missed(trip, place, k, gap)[0..2 * k]), k)
  {
    var close := ClosePairs(st, Missed(trip, place, k, gap)[0..2 * k]);
    CountMultiples(0, k - 1, gap);
    forall key ensures |Buckets(close, key)| < k {
      var most := if key.b == 3 then {(k - 1) * gap} else Multiples(0, k - 1, gap);
      forall t | t in Buckets(close, key) ensures t in most {
        var p := InBuckets(close, key, t);
        EarlyBuckets(st, trip, place, k, gap, p);
      }
      SubsetSize(Buckets(close, key), most);
    }
  }

  lemma SlotBounds(k: nat, i: nat)
    requires k >= 2 && i < 2 * k + 1
    ensures 0 <= Slot(k, i) < k && (i >= 2 ==> 1 <= Slot(k, i))
  {
  }

  lemma BucketOfSlot(lo: nat, k: nat, gap: int, i: nat, bucket: int)
    requires k >= 2 && lo <= 1 && i < 2 * k + 1 && (i >= 2 || lo == 0) && bucket == Slot(k, i) * gap
    ensures bucket in Multiples(lo, k, gap)
  {
    SlotBounds(k, i);
    IsMultiple(lo, k, gap, Slot(k, i));
  }

  /** Once the first two pings are gone, no pair is seen in the first bucket. */
  lemma LateBuckets(st: Static, trip: int, place: Location, k: nat, gap: int, lo: nat, hi: nat, p: Pair)
    requires k >= 2 && IsGap(gap) && 2 <= lo <= hi <= 2 * k + 1
    requires p in ClosePairs(st, Missed(trip, place, k, gap)[lo..hi])
    ensures p.bucket in Multiples(1, k, gap)
  {
    var i := SlotInSlice(st, trip, place, k, gap, lo, hi, p);
    LateSlot(k, gap, i, p.bucket);
  }

  lemma LateIsSparse(st: Static, trip: int, place: Location, k: nat, gap: int, lo: nat)
    requires k >= 2 && IsGap(gap) && 2 <= lo <= 2 * k + 1
    ensures Sparse(ClosePairs(st, Missed(trip, place, k, gap)[lo..2 * k + 1]), k)
  {
    var close := ClosePairs(st, Missed(trip, place, k, gap)[lo..2 * k + 1]);
    CountMultiples(1, k, gap);
    forall key ensures |Buckets(close, key)| < k {
      forall t | t in Buckets(close, key) ensures t in Multiples(1, k, gap) {
        var p := InBuckets(close, key, t);
        LateBuckets(st, trip, place, k, gap, lo, 2 * k + 1, p);
      }
      SubsetSize(Buckets(close, key), Multiples(1, k, gap));
    }
  }

  // ----- in the uncut stream it is a run

  function MissedKey(st: Static, trip: int): Key
    requires trip in st.directions
  {
    Key(0, st.directions[trip], 1, 2)
  }

  lemma MissedFirst(st: Static, trip: int, place: Location, k: nat, gap: int, i: nat)
    requires k >= 2 && IsGap(gap) && i < 2 * k + 1 && trip in st.directions
    ensures IsFirst(st, Missed(trip, place, k, gap), i)
  {
    var stream := Missed(trip, place, k, gap);
    MissedAt(trip, place, k, gap, i);
    forall x | 0 <= x < |stream| && Rivals(st, stream[i], stream[x]) ensures stream[i].time <= stream[x].time {
      MissedAt(trip, place, k, gap, x);
      SlotsApart(Slot(k, i), Slot(k, x), gap);
      if x < i {
        MissedInOrder(trip, place, k, gap, x, i);
      }
      if i < x {
        MissedInOrder(trip, place, k, gap, i, x);
      }
    }
  }

  /** Both vehicles of the n-th bucket, the last one's partner at the end of the stream. */
  lemma MissedMeet(st: Static, trip: int, place: Location, k: nat, gap: int, n: nat) returns (i: nat, j: nat)
    requires Bunches(st, trip, place) && k >= 2 && IsGap(gap) && n < k
    ensures MeetClose(st, Missed(trip, place, k, gap), Pair(MissedKey(st, trip), n * gap, st.distance(place, place)), i, j)
  {
    i, j := 2 * n, if n < k - 1 then 2 * n + 1 else 2 * k;
    MissedAt(trip, place, k, gap, i);
    MissedAt(trip, place, k, gap, j);
    MissedFirst(st, trip, place, k, gap, i);
    MissedFirst(st, trip, place, k, gap, j);
  }

  lemma MissedIsClose(st: Static, trip: int, place: Location, k: nat, gap: int, n: nat)
    requires Bunches(st, trip, place) && k >= 2 && IsGap(gap) && n < k
    ensures n * gap in CloseOf(st, Missed(trip, place, k, gap), MissedKey(st, trip))
  {
    var stream := Missed(trip, place, k, gap);
    var p := Pair(MissedKey(st, trip), n * gap, st.distance(place, place));
    var i, j := MissedMeet(st, trip, place, k, gap, n);
    MissedStream(trip, place, k, gap);
    PairsAreNestedLoops(st, stream, p);
    assert p in ClosePairs(st, stream) && p.key == MissedKey(st, trip) && p.bucket == n * gap;
  }

  lemma MissedOnlyThere(st: Static, trip: int, place: Location, k: nat, gap: int, key: Key, t: int)
    requires k >= 2 && IsGap(gap)
    requires t in CloseOf(st, Missed(trip, place, k, gap), key) || t in FarOf(st, Missed(trip, place, k, gap), key).value
    ensures t in Multiples(0, k, gap)
  {
    var stream := Missed(trip, place, k, gap);
    MissedStream(trip, place, k, gap);
    if t in CloseOf(st, stream, key) {
      var p := InBuckets(ClosePairs(st, stream), key, t);
      PairsAreNestedLoops(st, stream, p);
      var i: nat, j: nat :| MeetClose(st, stream, p, i, j);
      MissedAt(trip, place, k, gap, i);
      BucketOfSlot(0, k, gap, i, t);
    } else {
      var p := InBuckets(FarPairs(st, stream), key, t);
      PairsAreNestedLoops(st, stream, p);
      var i: nat, j: nat :| MeetFar(st, stream, p, i, j);
      MissedAt(trip, place, k, gap, i);
      BucketOfSlot(0, k, gap, i, t);
    }
  }

  lemma MissedBuckets(st: Static, trip: int, place: Location, k: nat, gap: int)
    requires Bunches(st, trip, place) && k >= 2 && IsGap(gap)
    ensures CloseOf(st, Missed(trip, place, k, gap), MissedKey(st, trip)) == Multiples(0, k, gap)
  {
    var c := CloseOf(st, Missed(trip, place, k, gap), MissedKey(st, trip));
    forall t | t in c ensures t in Multiples(0, k, gap) {
      MissedOnlyThere(st, trip, place, k, gap, MissedKey(st, trip), t);
    }
    forall t | t in Multiples(0, k, gap) ensures t in c {
      InMultiples(0, k, gap, t);
      var n :| 0 <= n < k && t == n * gap;
      MissedIsClose(st, trip, place, k, gap, n);
    }
  }

  /** Neighbouring multiples are a gap apart. */
  lemma NextMultiple(k: nat, gap: int, t: int, u: int)
    requires IsGap(gap) && Next(Multiples(0, k, gap), t, u)
    ensures u == t + gap && forall v :: v in Multiples(0, k, gap) ==> v <= t || u <= v
  {
    InMultiples(0, k, gap, t);
    InMultiples(0, k, gap, u);
    var m :| 0 <= m < k && t == m * gap;
    var n :| 0 <= n < k && u == n * gap;
    if n <= m {
      if n < m {
        GapApart(n, m, gap);
      }
    } else {
      GapApart(m, n, gap);
      if m + 1 < n {
        GapApart(m, m + 1, gap);
        GapApart(m + 1, n, gap);
        var w := m + 1;
        InMultiples(0, k, gap, w * gap);
      }
      assert (m + 1) * gap == m * gap + gap;
    }
  }

  lemma MissedIsRun(st: Static, trip: int, place: Location, k: nat, gap: int)
    requires Bunches(st, trip, place) && k >= 2 && IsGap(gap)
    ensures var stream, key := Missed(trip, place, k, gap), MissedKey(st, trip);
            && IsRun(CloseOf(st, stream, key), FarOf(st, stream, key), 0, (k - 1) * gap)
            && |Span(CloseOf(st, stream, key), 0, (k - 1) * gap)| == k
  {
    var stream, key := Missed(trip, place, k, gap), MissedKey(st, trip);
    var c, s, e := CloseOf(st, stream, key), FarOf(st, stream, key), (k - 1) * gap;
    MissedBuckets(st, trip, place, k, gap);
    MissedIsClose(st, trip, place, k, gap, 0);
    MissedIsClose(st, trip, place, k, gap, k - 1);
    forall t, u | Next(c, t, u) ensures Link(s, t, u) {
      NextMultiple(k, gap, t, u);
      forall v | v in s.value ensures v <= t || u <= v {
        MissedOnlyThere(st, trip, place, k, gap, key, v);
      }
    }
    forall t | t in c ensures 0 <= t <= e {
      InMultiples(0, k, gap, t);
      var n :| 0 <= n < k && t == n * gap;
      if 0 < n {
        GapApart(0, n, gap);
      }
      if n < k - 1 {
        GapApart(n, k - 1, gap);
      }
    }
    assert Span(c, 0, e) == c;
    CountMultiples(0, k, gap);
  }

  // ----- the run that misses it

  ghost function MissedRun(st: Static, trip: int, place: Location, k: nat, gap: int, overlap: int, retention: int): Run
    requires k >= 2
  {
    var stream, cuts := Missed(trip, place, k, gap), [2 * k, 2 * k + 1];
    Run(st, stream, cuts, overlap, retention, k, [Frame(stream, cuts, overlap, 0), Frame(stream, cuts, overlap, 1)],
        [[], []], [map[], map[], map[]], [[], [], []])
  }

  lemma MissedIsCut(st: Static, trip: int, place: Location, k: nat, gap: int, overlap: int, retention: int)
    requires k >= 2 && IsGap(gap) && 0 <= overlap
    ensures Cut(MissedRun(st, trip, place, k, gap, overlap, retention))
  {
    var r := MissedRun(st, trip, place, k, gap, overlap, retention);
    MissedStream(trip, place, k, gap);
    forall j | 0 <= j < 2 ensures IsFrame(r, j) {
    }
  }

  lemma MissedReconciles(st: Static, trip: int, place: Location, k: nat, gap: int, overlap: int, retention: int, j: nat)
    requires k >= 2 && j < 2 && Cut(MissedRun(st, trip, place, k, gap, overlap, retention))
    ensures Reconciles(MissedRun(st, trip, place, k, gap, overlap, retention), j)
  {
  }

  lemma MissedStart(trip: int, place: Location, k: nat, gap: int, overlap: int)
    requires k >= 2 && IsGap(gap) && 0 <= overlap && (k - 1) * gap + POLL > overlap + 1
    ensures Cuts(Missed(trip, place, k, gap), [2 * k, 2 * k + 1])
    ensures Start(Missed(trip, place, k, gap), [2 * k, 2 * k + 1], overlap, 1) >= 2
  {
    var stream := Missed(trip, place, k, gap);
    MissedStream(trip, place, k, gap);
    MissedAt(trip, place, k, gap, 1);
    MissedAt(trip, place, k, gap, 2 * k - 1);
    StartIsCutoff(stream, [2 * k, 2 * k + 1], overlap, 1, 1);
  }

  lemma MissedDetected(st: Static, trip: int, place: Location, k: nat, gap: int, overlap: int, retention: int, j: nat)
    requires k >= 2 && IsGap(gap) && 0 <= overlap && (k - 1) * gap + POLL > overlap + 1 && j < 2
    requires Cut(MissedRun(st, trip, place, k, gap, overlap, retention))
    ensures Detected(MissedRun(st, trip, place, k, gap, overlap, retention), j)
  {
    var r := MissedRun(st, trip, place, k, gap, overlap, retention);
    var lo := FrameFacts(r, j);
    MissedStart(trip, place, k, gap, overlap);
    if j == 0 {
      EarlyIsSparse(st, trip, place, k, gap);
    } else {
      LateIsSparse(st, trip, place, k, gap, lo);
    }
    NothingLasting(ClosePairs(st, FrameOf(r, j)), Some(FarPairs(st, FrameOf(r, j))), k);
  }

  /** A run of just enough observations in the uncut stream, a gap apart. */
  ghost predicate Presents(r: Run, st: Static, k: nat, overlap: int, retention: int, key: Key, b: int, gap: int) {
    && Valid(r) && AllFlushed(r) && r.st == st && r.least == k && r.overlap == overlap && r.retention == retention
    && IsRun(CloseOf(st, r.stream, key), FarOf(st, r.stream, key), b, b + (k - 1) * gap)
    && |Span(CloseOf(st, r.stream, key), b, b + (k - 1) * gap)| == k
  }

  /**
   With any smaller overlap a run can be lost: this one of the uncut stream is in no frame,
   and nothing at all is emitted.
   */
  lemma SmallerOverlapMisses(st: Static, trip: int, place: Location, k: nat, gap: int, overlap: int, retention: int)
    requires Bunches(st, trip, place) && k >= 2 && IsGap(gap)
    requires 0 <= overlap && (k - 1) * gap + POLL > overlap + 1
    ensures var r := MissedRun(st, trip, place, k, gap, overlap, retention);
            Presents(r, st, k, overlap, retention, MissedKey(st, trip), 0, gap) && Emitted(r) == []
  {
    var r := MissedRun(st, trip, place, k, gap, overlap, retention);
    MissedIsRun(st, trip, place, k, gap);
    MissedIsCut(st, trip, place, k, gap, overlap, retention);
    forall j | 0 <= j < 2 ensures Detected(r, j) && Reconciles(r, j) {
      MissedDetected(st, trip, place, k, gap, overlap, retention, j);
      MissedReconciles(st, trip, place, k, gap, overlap, retention, j);
    }
  }

  ghost predicate Covered(r: Run, key: Key, b: int, e: int)
    requires Cut(r)
  {
    exists a :: a in Emitted(r) && a.event.key == key && a.event.start <= b && e <= a.event.end
  }

  lemma FittingRunIsCovered(r: Run, key: Key, b: int, e: int)
    requires Valid(r) && AllFlushed(r) && r.retention >= (TOLERANCE + 1) * POLL && Lasts(r, key, b, e) && Fits(r, b, e)
    ensures Covered(r, key, b, e)
  {
    forall u | u in CloseOf(r.st, r.stream, key) && b <= u <= e && |Span(CloseOf(r.st, r.stream, key), b, u)| >= r.least
      ensures Reaches(r, key, b, u)
    {
      assert Fits(r, b, u);
    }
    var a := UncutRunIsCovered(r, key, b, e);
  }

  /**
   The bound is exact, whatever the least number k of observations. A run of k observations a
   gap apart is reported wherever the stream is cut if and only if the overlap spans it: k polls
   for adjacent buckets, 2k - 1 for a run that bridges a skipped one each time.
   */
  lemma OverlapBoundIsExact(st: Static, trip: int, place: Location, k: nat, gap: int, overlap: int, retention: int)
    requires Bunches(st, trip, place) && k >= 2 && IsGap(gap)
    requires 0 <= overlap && retention >= (TOLERANCE + 1) * POLL
    ensures (k - 1) * gap + POLL <= overlap + 1
            <==> forall r, key, b :: Presents(r, st, k, overlap, retention, key, b, gap) ==> Covered(r, key, b, b + (k - 1) * gap)
  {
    if (k - 1) * gap + POLL <= overlap + 1 {
      forall r, key, b | Presents(r, st, k, overlap, retention, key, b, gap) ensures Covered(r, key, b, b + (k - 1) * gap) {
        FittingRunIsCovered(r, key, b, b + (k - 1) * gap);
      }
    } else {
      SmallerOverlapMisses(st, trip, place, k, gap, overlap, retention);
      var r, key := MissedRun(st, trip, place, k, gap, overlap, retention), MissedKey(st, trip);
      assert Presents(r, st, k, overlap, retention, key, 0, gap) && !Covered(r, key, 0, 0 + (k - 1) * gap);
    }
  }

  /** The documented bound, in whole seconds: runs of k adjacent buckets survive every cut exactly if OVERLAP >= k * POLL. */
  lemma DocumentedBoundIsExact(st: Static, trip: int, place: Location, k: nat, overlap: int, retention: int)
    requires Bunches(st, trip, place) && k >= 2
    requires 0 <= overlap && overlap % SECOND == 0 && retention >= (TOLERANCE + 1) * POLL
    ensures overlap >= k * POLL
            <==> forall r, key, b :: Presents(r, st, k, overlap, retention, key, b, POLL) ==> Covered(r, key, b, b + (k - 1) * POLL)
  {
    OverlapBoundIsExact(st, trip, place, k, POLL, overlap, retention);
  }

  /** The default of 30 seconds keeps every run of two adjacent buckets, and not every run that bridges a skipped one. */
  lemma DefaultOverlap(st: Static, trip: int, place: Location)
    requires Bunches(st, trip, place)
    ensures MIN_CONSECUTIVE == 2 && OVERLAP == 30_000 && RETENTION == 600_000
    ensures forall r, key, b :: Presents(r, st, MIN_CONSECUTIVE, OVERLAP, RETENTION, key, b, 15_000) ==> Covered(r, key, b, b + 15_000)
    ensures !forall r, key, b :: Presents(r, st, MIN_CONSECUTIVE, OVERLAP, RETENTION, key, b, 30_000) ==> Covered(r, key, b, b + 30_000)
  {
    OverlapBoundIsExact(st, trip, place, MIN_CONSECUTIVE, 15_000, OVERLAP, RETENTION);
    OverlapBoundIsExact(st, trip, place, MIN_CONSECUTIVE, 30_000, OVERLAP, RETENTION);
  }
}

/** The overlap claim of consumer.py: cutting the stream into windows loses no run of the uncut stream. */
module BunchingCoverage {
  import opened Options
  import opened Pings
  import opened Bunching
  import opened BunchingEvents
  import opened BunchingTracker
  import opened BunchingFrames
  import opened BunchingRuns

  // ----- a linked pair of buckets is seen whole

  /** The frame in which bucket u completes reaches back to bucket t. */
  lemma FrameReachesBack(r: Run, t: int, u: int, j: nat, idx: nat)
    requires Cut(r) && j < |r.cuts| && Arrived(r.cuts, j) <= idx < |r.stream| && r.stream[idx].time < u + POLL
    requires u - t + POLL <= r.overlap + 1
    ensures Start(r.stream, r.cuts, r.overlap, j) <= Older(r.stream, t)
  {
    var n := Arrived(r.cuts, j);
    if n > 0 {
      assert r.stream[n - 1].time <= r.stream[idx].time;
      OlderMonotone(r.stream, r.stream[n - 1].time - r.overlap, t);
    }
  }

  /** What a slice that reaches from bucket t to the completion of bucket u shows of the buckets between. */
  lemma SliceShows(st: Static, stream: seq<Ping>, lo: nat, hi: nat, t: int, p: Pair, i: nat, k: nat, q: Pair)
    requires InOrder(stream) && DistinctTimes(stream) && lo <= hi <= |stream| && lo <= Older(stream, t)
    requires MeetClose(st, stream, p, i, k) && Later(i, k) < hi && t <= q.bucket
    requires q.bucket < p.bucket || q == p
    ensures q in ClosePairs(st, stream[lo..hi]) <==> q in ClosePairs(st, stream)
    ensures q in FarPairs(st, stream[lo..hi]) ==> q in FarPairs(st, stream)
  {
    OlderMonotone(stream, t, q.bucket);
    CloseInSlice(st, stream, lo, hi, q);
    FarInSlice(st, stream, lo, hi, q);
    PairsAreNestedLoops(st, stream, q);
    MeetTimes(st, stream, p, i, k);
    if x: nat, y: nat :| MeetClose(st, stream, q, x, y) {
      MeetTimes(st, stream, q, x, y);
      if q == p {
        MeetIsUnique(st, stream, i, k, x, y);
      } else {
        NextOnGrid(q.bucket, p.bucket);
      }
      OlderSplits(stream, t, x);
      OlderSplits(stream, t, y);
      assert lo <= x < hi && lo <= y < hi;
    }
  }

  lemma SameBuckets(st: Static, stream: seq<Ping>, lo: nat, hi: nat, t: int, p: Pair, i: nat, k: nat, v: int)
    requires InOrder(stream) && DistinctTimes(stream) && lo <= hi <= |stream| && lo <= Older(stream, t)
    requires MeetClose(st, stream, p, i, k) && Later(i, k) < hi && t <= v <= p.bucket
    ensures v in CloseOf(st, stream[lo..hi], p.key) <==> v in CloseOf(st, stream, p.key)
    ensures v < p.bucket && v in FarOf(st, stream[lo..hi], p.key).value ==> v in FarOf(st, stream, p.key).value
  {
    if v == p.bucket {
      SliceShows(st, stream, lo, hi, t, p, i, k, p);
      PairsAreNestedLoops(st, stream, p);
    } else {
      if v in CloseOf(st, stream[lo..hi], p.key) {
        var q := InBuckets(ClosePairs(st, stream[lo..hi]), p.key, v);
        SliceShows(st, stream, lo, hi, t, p, i, k, q);
      }
      if v in CloseOf(st, stream, p.key) {
        var q := InBuckets(ClosePairs(st, stream), p.key, v);
        SliceShows(st, stream, lo, hi, t, p, i, k, q);
      }
      if v in FarOf(st, stream[lo..hi], p.key).value {
        var q := InBuckets(FarPairs(st, stream[lo..hi]), p.key, v);
        SliceShows(st, stream, lo, hi, t, p, i, k, q);
      }
    }
  }

  /** The buckets between t and a meeting are the same in the slice, and no more of them separated. */
  lemma SliceSees(st: Static, stream: seq<Ping>, lo: nat, hi: nat, key: Key, t: int, p: Pair, i: nat, k: nat)
    requires InOrder(stream) && DistinctTimes(stream) && lo <= hi <= |stream| && lo <= Older(stream, t)
    requires p.key == key && MeetClose(st, stream, p, i, k) && Later(i, k) < hi
    ensures Sees(CloseOf(st, stream[lo..hi], key), FarOf(st, stream[lo..hi], key),
                 CloseOf(st, stream, key), FarOf(st, stream, key), t, p.bucket)
  {
    forall v | t <= v <= p.bucket
      ensures v in CloseOf(st, stream[lo..hi], key) <==> v in CloseOf(st, stream, key)
      ensures v < p.bucket && v in FarOf(st, stream[lo..hi], key).value ==> v in FarOf(st, stream, key).value
    {
      SameBuckets(st, stream, lo, hi, t, p, i, k, v);
    }
  }

  ghost predicate Sees(c: set<int>, s: Option<set<int>>, c': set<int>, s': Option<set<int>>, t: int, u: int) {
    && s.Some? && s'.Some?
    && (forall v :: t <= v <= u ==> (v in c <==> v in c'))
    && (forall v :: t <= v < u && v in s.value ==> v in s'.value)
  }

  /** What sees a run between two buckets has it, observation by observation. */
  lemma SeenRun(c: set<int>, s: Option<set<int>>, c': set<int>, s': Option<set<int>>, t: int, u: int)
    requires Sees(c, s, c', s', t, u) && IsRun(c', s', t, u)
    ensures IsRun(c, s, t, u) && Span(c, t, u) == Span(c', t, u)
  {
    forall x, y | Next(c, x, y) && t <= x && y <= u ensures Link(s, x, y) {
      assert Next(c', x, y);
      assert Link(s', x, y);
    }
  }

  /** The stretch fits into the overlap. */
  ghost predicate Fits(r: Run, t: int, u: int) {
    u - t + POLL <= r.overlap + 1
  }

  /** From t to u the pair is bunched for as many observations as detection asks for. */
  ghost predicate Lasts(r: Run, key: Key, t: int, u: int) {
    && IsRun(CloseOf(r.st, r.stream, key), FarOf(r.st, r.stream, key), t, u)
    && |Span(CloseOf(r.st, r.stream, key), t, u)| >= r.least
  }

  lemma FrameHasRun(r: Run, key: Key, t: int, u: int, j: nat)
    requires Cut(r) && CompletesIn(r, key, u, j) && Lasts(r, key, t, u) && Fits(r, t, u)
    ensures IsRun(CloseOf(r.st, FrameOf(r, j), key), FarOf(r.st, FrameOf(r, j), key), t, u)
    ensures |Span(CloseOf(r.st, FrameOf(r, j), key), t, u)| >= r.least
  {
    var p: Pair, i: nat, k: nat :|
      p.key == key && p.bucket == u && MeetClose(r.st, r.stream, p, i, k)
      && Arrived(r.cuts, j) <= Later(i, k) < r.cuts[j];
    MeetTimes(r.st, r.stream, p, i, k);
    var lo := FrameFacts(r, j);
    FrameReachesBack(r, t, u, j, Later(i, k));
    SliceSees(r.st, r.stream, lo, r.cuts[j], key, t, p, i, k);
    SeenRun(CloseOf(r.st, FrameOf(r, j), key), FarOf(r.st, FrameOf(r, j), key),
            CloseOf(r.st, r.stream, key), FarOf(r.st, r.stream, key), t, u);
  }

  /** A run of enough observations is reported. */
  lemma RunIsReported(st: Static, pings: seq<Ping>, least: nat, key: Key, t: int, u: int, events: seq<Event>) returns (x: nat)
    requires Finds(st, pings, least, events)
    requires IsRun(CloseOf(st, pings, key), FarOf(st, pings, key), t, u) && |Span(CloseOf(st, pings, key), t, u)| >= least
    ensures x < |events| && events[x].key == key && events[x].start <= t && u <= events[x].end
  {
    var c := CloseOf(st, pings, key);
    var b, e := ExtendRun(c, FarOf(st, pings, key), t, u);
    SpanWidens(c, t, u, b, e);
    assert IsLasting(ClosePairs(st, pings), Some(FarPairs(st, pings)), least, key, b, e);
    var ev :| ev in events && ev.key == key && ev.start == b && ev.end == e;
    x :| 0 <= x < |events| && events[x] == ev;
  }

  lemma SubsetSize(a: set<int>, b: set<int>)
    requires a <= b
    ensures |a| <= |b|
  {
    assert b == a + (b - a);
  }

  lemma SpanWidens(c: set<int>, t: int, u: int, b: int, e: int)
    requires b <= t && u <= e
    ensures |Span(c, t, u)| <= |Span(c, b, e)|
  {
    SubsetSize(Span(c, t, u), Span(c, b, e));
  }

  /** One observation more. */
  lemma SpanNext(c: set<int>, b: int, t: int, u: int)
    requires Next(c, t, u) && b <= t
    ensures |Span(c, b, u)| == |Span(c, b, t)| + 1
  {
    assert Span(c, b, u) == Span(c, b, t) + {u};
  }

  lemma TwoAtLeast(c: set<int>, b: int, e: int, t: int, u: int)
    requires t in c && u in c && b <= t < u <= e
    ensures |Span(c, b, e)| >= 2
  {
    var s := Span(c, b, e);
    assert s == (s - {t, u}) + {t, u};
    assert |{t, u}| == 2;
  }

  /** The frame that completes u reports an event over the whole stretch. */
  lemma StretchIsReported(r: Run, key: Key, t: int, u: int, j: nat) returns (x: nat)
    requires Cut(r) && CompletesIn(r, key, u, j) && Detected(r, j) && Lasts(r, key, t, u) && Fits(r, t, u)
    ensures x < |r.detections[j]| && r.detections[j][x].key == key
    ensures r.detections[j][x].start <= t && u <= r.detections[j][x].end
  {
    FrameHasRun(r, key, t, u, j);
    x := RunIsReported(r.st, FrameOf(r, j), r.least, key, t, u, r.detections[j]);
  }

  // ----- what the tracker holds meanwhile

  /** The incident begun at b is tracked, up to bucket t and short of bucket u. */
  ghost predicate Holds(seen: Seen, key: Key, b: int, t: int, u: int) {
    key in seen && seen[key].start <= b && t <= seen[key].end < u
  }

  /** An event of the pair that is on the grid and ends before u. */
  ghost predicate Short(ev: Event, key: Key, u: int) {
    ev.key == key ==> ev.start <= ev.end < u && ev.start % POLL == 0
  }

  lemma ConsiderHolds(seen: Seen, ev: Event, key: Key, b: int, t: int, u: int)
    requires Holds(seen, key, b, t, u) && Short(ev, key, u) && t % POLL == 0 && u <= t + TOLERANCE * POLL
    ensures Holds(Consider(seen, ev).seen, key, b, t, u)
  {
  }

  lemma {:induction false} ReconcileHolds(seen: Seen, events: seq<Event>, x: nat, y: nat, key: Key, b: int, t: int, u: int)
    requires x <= y <= |events| && Holds(Reconcile(seen, events[..x]).seen, key, b, t, u)
    requires t % POLL == 0 && u <= t + TOLERANCE * POLL && forall i :: x <= i < y ==> Short(events[i], key, u)
    ensures Holds(Reconcile(seen, events[..y]).seen, key, b, t, u)
  {
    if x < y {
      ReconcileHolds(seen, events, x, y - 1, key, b, t, u);
      assert events[..y][..y - 1] == events[..y - 1];
      ConsiderHolds(Reconcile(seen, events[..y - 1]).seen, events[y - 1], key, b, t, u);
    }
  }

  lemma {:induction false} ReconcileEndsBefore(seen: Seen, events: seq<Event>, y: nat, key: Key, u: int)
    requires y <= |events| && (key in seen ==> seen[key].end < u)
    requires forall i :: 0 <= i < y && events[i].key == key ==> events[i].end < u
    ensures var after := Reconcile(seen, events[..y]).seen; key in after ==> after[key].end < u
  {
    if y == 0 {
      assert events[..0] == [];
    } else {
      ReconcileEndsBefore(seen, events, y - 1, key, u);
      assert events[..y][..y - 1] == events[..y - 1];
    }
  }

  /** Nothing tracked before flush j has reached bucket u, if no event of an earlier frame has. */
  lemma {:induction false} TrackedEndsBefore(r: Run, key: Key, u: int, j: nat)
    requires Valid(r) && j <= |r.cuts|
    requires forall m, ev :: 0 <= m < j && ev in r.detections[m] && ev.key == key ==> ev.end < u
    ensures key in r.tracked[j] ==> r.tracked[j][key].end < u
  {
    if j > 0 {
      TrackedEndsBefore(r, key, u, j - 1);
      assert Reconciles(r, j - 1);
      var events := r.detections[j - 1];
      ReconcileEndsBefore(r.tracked[j - 1], events, |events|, key, u);
      assert events[..|events|] == events;
    }
  }

  lemma EventOnGrid(r: Run, j: nat, ev: Event)
    requires Cut(r) && j < |r.cuts| && Detected(r, j) && ev in r.detections[j]
    ensures ev.start <= ev.end && ev.start % POLL == 0
  {
    var lo := FrameFacts(r, j);
    SliceIsOrdered(r.stream, lo, r.cuts[j]);
    var p := EventInFrame(r, j, ev);
    OnGrid(r.st, FrameOf(r, j), ev.key, ev.start);
  }

  /** While bucket u is incomplete every frame's events of the pair are short of it. */
  lemma EventsShort(r: Run, key: Key, u: int, m: nat, j: nat)
    requires Valid(r) && CompletesIn(r, key, u, j) && m < j
    ensures forall i :: 0 <= i < |r.detections[m]| ==> Short(r.detections[m][i], key, u)
  {
    forall i | 0 <= i < |r.detections[m]| ensures Short(r.detections[m][i], key, u) {
      var ev := r.detections[m][i];
      assert Detected(r, m);
      EventOnGrid(r, m, ev);
      if ev.key == key {
        NothingAhead(r, key, u, j, m, ev);
      }
    }
  }

  /** Nor has time moved on enough to purge what is tracked. */
  lemma TooEarlyToPurge(r: Run, key: Key, u: int, m: nat, j: nat)
    requires Cut(r) && CompletesIn(r, key, u, j) && m < j && r.cuts[m] > 0
    ensures r.stream[r.cuts[m] - 1].time < u + POLL
  {
    var p: Pair, i: nat, k: nat :|
      p.key == key && p.bucket == u && MeetClose(r.st, r.stream, p, i, k)
      && Arrived(r.cuts, j) <= Later(i, k) < r.cuts[j];
    MeetTimes(r.st, r.stream, p, i, k);
    CutsGrow(r.cuts, r.stream, m, j);
    assert r.stream[r.cuts[m] - 1].time <= r.stream[Later(i, k)].time;
  }

  /** From the x-th event of a flush on, what is tracked stays tracked across the flush. */
  lemma HoldsAcross(r: Run, key: Key, b: int, t: int, u: int, m: nat, x: nat, j: nat)
    requires Cut(r) && CompletesIn(r, key, u, j) && m < j && Reconciles(r, m) && x <= |r.detections[m]|
    requires r.retention >= (TOLERANCE + 1) * POLL && t % POLL == 0 && u <= t + TOLERANCE * POLL
    requires Holds(Reconcile(r.tracked[m], r.detections[m][..x]).seen, key, b, t, u)
    requires r.cuts[m] > 0 || x == 0
    requires forall i :: 0 <= i < |r.detections[m]| ==> Short(r.detections[m][i], key, u)
    ensures Holds(r.tracked[m + 1], key, b, t, u)
  {
    var events := r.detections[m];
    if r.cuts[m] > 0 {
      ReconcileHolds(r.tracked[m], events, x, |events|, key, b, t, u);
      assert events[..|events|] == events;
      TooEarlyToPurge(r, key, u, m, j);
    } else {
      assert events[..0] == [];
    }
  }

  lemma {:induction false} HoldsThrough(r: Run, key: Key, b: int, t: int, u: int, m: nat, n: nat, j: nat)
    requires Valid(r) && CompletesIn(r, key, u, j) && m <= n <= j
    requires r.retention >= (TOLERANCE + 1) * POLL && t % POLL == 0 && u <= t + TOLERANCE * POLL
    requires Holds(r.tracked[m], key, b, t, u)
    ensures Holds(r.tracked[n], key, b, t, u)
  {
    if m < n {
      HoldsThrough(r, key, b, t, u, m, n - 1, j);
      assert Reconciles(r, n - 1);
      EventsShort(r, key, u, n - 1, j);
      assert r.detections[n - 1][..0] == [];
      HoldsAcross(r, key, b, t, u, n - 1, 0, j);
    }
  }

  // ----- covering a run, link by link

  /** The x-th event of flush j shows bucket t, and emits an action that reaches back to b. */
  ghost predicate CoveredIn(r: Run, key: Key, b: int, t: int, j: nat, x: nat)
    requires Cut(r)
  {
    && j < |r.cuts| && x < |r.detections[j]|
    && var ev := r.detections[j][x];
       var got := Consider(Reconcile(r.tracked[j], r.detections[j][..x]).seen, ev);
    && ev.key == key && ev.start <= t <= ev.end
    && got.actions != [] && got.actions[0].event.key == key
    && got.actions[0].event.start <= b && got.actions[0].event.end == ev.end
    && key in got.seen && got.seen[key] == got.actions[0].event
  }

  lemma CoverFirst(r: Run, key: Key, b: int, u: int, j: nat) returns (x: nat)
    requires Valid(r) && CompletesIn(r, key, u, j) && Lasts(r, key, b, u) && Fits(r, b, u)
    ensures CoveredIn(r, key, b, u, j, x)
  {
    assert Detected(r, j);
    LongerThanOne(CloseOf(r.st, r.stream, key), b, u);
    x := StretchIsReported(r, key, b, u, j);
    forall m, ev | 0 <= m < j && ev in r.detections[m] && ev.key == key ensures ev.end < u {
      NothingAhead(r, key, u, j, m, ev);
    }
    TrackedEndsBefore(r, key, u, j);
    EarlierEventsEnd(r, key, u, j, x);
    ReconcileEndsBefore(r.tracked[j], r.detections[j], x, key, u);
  }

  lemma EarlierEventsEnd(r: Run, key: Key, u: int, j: nat, x: nat)
    requires Cut(r) && j < |r.cuts| && Detected(r, j) && x < |r.detections[j]|
    requires r.detections[j][x].key == key && r.detections[j][x].start < u
    ensures forall i :: 0 <= i < x && r.detections[j][i].key == key ==> r.detections[j][i].end < u
  {
  }

  lemma CoveredHolds(r: Run, key: Key, b: int, t: int, u: int, j: nat, x: nat)
    requires Cut(r) && CoveredIn(r, key, b, t, j, x) && Short(r.detections[j][x], key, u)
    ensures Holds(Reconcile(r.tracked[j], r.detections[j][..x + 1]).seen, key, b, t, u)
  {
    assert r.detections[j][..x + 1][..x] == r.detections[j][..x];
  }

  lemma ShownNotEmpty(r: Run, j: nat, x: nat)
    requires Valid(r) && j < |r.cuts| && x < |r.detections[j]|
    ensures r.cuts[j] > 0
  {
    assert Detected(r, j);
    EventsStartLate(r, j, r.detections[j][x]);
  }

  lemma HoldsUntil(r: Run, key: Key, b: int, t: int, u: int, j: nat, x: nat, j2: nat)
    requires Valid(r) && r.retention >= (TOLERANCE + 1) * POLL
    requires CoveredIn(r, key, b, t, j, x) && CompletesIn(r, key, u, j2) && j < j2
    requires t % POLL == 0 && u <= t + TOLERANCE * POLL
    ensures Holds(r.tracked[j2], key, b, t, u)
  {
    EventsShort(r, key, u, j, j2);
    CoveredHolds(r, key, b, t, u, j, x);
    ShownNotEmpty(r, j, x);
    assert Reconciles(r, j);
    HoldsAcross(r, key, b, t, u, j, x + 1, j2);
    HoldsThrough(r, key, b, t, u, j + 1, j2, j2);
  }

  lemma CoverHeld(r: Run, key: Key, b: int, v: int, t: int, u: int, j: nat) returns (y: nat)
    requires Cut(r) && CompletesIn(r, key, u, j) && Detected(r, j) && Lasts(r, key, v, u) && Fits(r, v, u)
    requires v <= t && t % POLL == 0 && u <= t + TOLERANCE * POLL && Holds(r.tracked[j], key, b, t, u)
    ensures CoveredIn(r, key, b, u, j, y)
  {
    var events := r.detections[j];
    y := StretchIsReported(r, key, v, u, j);
    EarlierEventsEnd(r, key, u, j, y);
    forall i | 0 <= i < y ensures Short(events[i], key, u) {
      EventOnGrid(r, j, events[i]);
    }
    assert events[..0] == [];
    ReconcileHolds(r.tracked[j], events, 0, y, key, b, t, u);
  }

  /** t and u are neighbours among the pair's buckets, and linked. */
  ghost predicate LinkOf(r: Run, key: Key, t: int, u: int) {
    Next(CloseOf(r.st, r.stream, key), t, u) && Link(FarOf(r.st, r.stream, key), t, u)
  }

  lemma CoverNextLater(r: Run, key: Key, b: int, v: int, t: int, u: int, j: nat, x: nat, j2: nat) returns (y: nat)
    requires Valid(r) && r.retention >= (TOLERANCE + 1) * POLL
    requires CoveredIn(r, key, b, t, j, x) && CompletesIn(r, key, u, j2) && LinkOf(r, key, t, u)
    requires v <= t && Lasts(r, key, v, u) && Fits(r, v, u) && j < j2
    ensures CoveredIn(r, key, b, u, j2, y)
  {
    OnGrid(r.st, r.stream, key, t);
    HoldsUntil(r, key, b, t, u, j, x, j2);
    assert Detected(r, j2);
    y := CoverHeld(r, key, b, v, t, u, j2);
  }

  lemma CoverNext(r: Run, key: Key, b: int, v: int, t: int, u: int, j: nat, x: nat, j2: nat) returns (y: nat)
    requires Valid(r) && r.retention >= (TOLERANCE + 1) * POLL
    requires CoveredIn(r, key, b, t, j, x) && CompletesIn(r, key, t, j)
    requires CompletesIn(r, key, u, j2) && LinkOf(r, key, t, u)
    requires v <= t && Lasts(r, key, v, u) && Fits(r, v, u)
    ensures CoveredIn(r, key, b, u, j2, y)
  {
    assert Detected(r, j2);
    var z := StretchIsReported(r, key, v, u, j2);
    if j2 < j {
      NothingAhead(r, key, t, j, j2, r.detections[j2][z]);
    }
    if j < j2 {
      y := CoverNextLater(r, key, b, v, t, u, j, x, j2);
    } else {
      y := x;
      SameStretch(r, key, t, j, x, z);
    }
  }

  /** Two events of a frame over one bucket are one. */
  lemma SameStretch(r: Run, key: Key, t: int, j: nat, x: nat, z: nat)
    requires Cut(r) && j < |r.cuts| && Detected(r, j) && x < |r.detections[j]| && z < |r.detections[j]|
    requires r.detections[j][x].key == key && r.detections[j][z].key == key
    requires r.detections[j][x].start <= t <= r.detections[j][x].end && r.detections[j][z].start <= t <= r.detections[j][z].end
    ensures x == z
  {
  }

  /** Some stretch of enough observations that ends with u, and not before b, fits into the overlap. */
  ghost predicate Reaches(r: Run, key: Key, b: int, u: int) {
    exists v :: v in CloseOf(r.st, r.stream, key) && b <= v <= u
                && |Span(CloseOf(r.st, r.stream, key), v, u)| >= r.least && Fits(r, v, u)
  }

  /** So it is for every bucket of the run that has enough observations behind it. */
  ghost predicate AllFit(r: Run, key: Key, b: int, e: int) {
    forall u :: u in CloseOf(r.st, r.stream, key) && b <= u <= e && |Span(CloseOf(r.st, r.stream, key), b, u)| >= r.least ==>
      Reaches(r, key, b, u)
  }

  lemma PartOfRun(c: set<int>, s: Option<set<int>>, b: int, e: int, v: int, u: int)
    requires IsRun(c, s, b, e) && v in c && u in c && b <= v <= u <= e
    ensures IsRun(c, s, v, u)
  {
  }

  /** If b to u is just enough, only b reaches. */
  lemma OnlyFromStart(c: set<int>, b: int, v: int, u: int, n: nat)
    requires b in c && b <= v <= u && |Span(c, b, u)| <= n <= |Span(c, v, u)|
    ensures v == b
  {
    if b < v {
      assert Span(c, v, u) <= Span(c, b, u) - {b};
      SubsetSize(Span(c, v, u), Span(c, b, u) - {b});
    }
  }

  lemma LongerThanOne(c: set<int>, v: int, u: int)
    requires |Span(c, v, u)| >= 2 && v <= u
    ensures v < u
  {
    if v == u {
      assert Span(c, v, u) <= {u};
      SubsetSize(Span(c, v, u), {u});
    }
  }

  lemma {:induction false} CoverUpTo(r: Run, key: Key, b: int, e: int, u: int) returns (j: nat, x: nat)
    requires Valid(r) && AllFlushed(r) && r.retention >= (TOLERANCE + 1) * POLL
    requires IsRun(CloseOf(r.st, r.stream, key), FarOf(r.st, r.stream, key), b, e) && AllFit(r, key, b, e)
    requires u in CloseOf(r.st, r.stream, key) && b <= u <= e && |Span(CloseOf(r.st, r.stream, key), b, u)| >= r.least
    ensures CompletesIn(r, key, u, j) && CoveredIn(r, key, b, u, j, x)
    decreases u - b
  {
    var c, s := CloseOf(r.st, r.stream, key), FarOf(r.st, r.stream, key);
    LongerThanOne(c, b, u);
    var t := Predecessor(c, u, b);
    SpanNext(c, b, t, u);
    assert Reaches(r, key, b, u);
    var v :| v in c && b <= v <= u && |Span(c, v, u)| >= r.least && Fits(r, v, u);
    PartOfRun(c, s, b, e, v, u);
    j := Completes(r, key, u);
    if |Span(c, b, t)| < r.least {
      OnlyFromStart(c, b, v, u, r.least);
      x := CoverFirst(r, key, b, u, j);
    } else {
      LongerThanOne(c, v, u);
      var j0, x0 := CoverUpTo(r, key, b, e, t);
      x := CoverNext(r, key, b, v, t, u, j0, x0, j);
    }
  }

  lemma {:induction false} LogGrows(r: Run, j: nat, n: nat, a: Action)
    requires Valid(r) && j <= n <= |r.cuts| && a in r.logs[j]
    ensures a in r.logs[n]
  {
    if j < n {
      LogGrows(r, j, n - 1, a);
      assert Reconciles(r, n - 1);
    }
  }

  lemma {:induction false} ActionsGrow(seen: Seen, events: seq<Event>, x: nat, y: nat, a: Action)
    requires x < y <= |events| && a in Consider(Reconcile(seen, events[..x]).seen, events[x]).actions
    ensures a in Reconcile(seen, events[..y]).actions
  {
    assert events[..y][..y - 1] == events[..y - 1];
    if x < y - 1 {
      ActionsGrow(seen, events, x, y - 1, a);
    }
  }

  /** What one event emits is in the log of the run. */
  lemma ActionIsEmitted(r: Run, j: nat, x: nat, a: Action)
    requires Valid(r) && j < |r.cuts| && x < |r.detections[j]|
    requires a in Consider(Reconcile(r.tracked[j], r.detections[j][..x]).seen, r.detections[j][x]).actions
    ensures a in Emitted(r)
  {
    var events := r.detections[j];
    assert Reconciles(r, j);
    ShownNotEmpty(r, j, x);
    ActionsGrow(r.tracked[j], events, x, |events|, a);
    assert events[..|events|] == events;
    LogGrows(r, j + 1, |r.cuts|, a);
  }

  /**
   Cutting is harmless: wherever the stream is cut, a run of the uncut stream that is long
   enough, and whose stretches of just enough observations fit into the overlap, is covered,
   from first bucket to last, by one emitted action.
   */
  lemma UncutRunIsCovered(r: Run, key: Key, b: int, e: int) returns (a: Action)
    requires Valid(r) && AllFlushed(r) && r.retention >= (TOLERANCE + 1) * POLL
    requires Lasts(r, key, b, e) && AllFit(r, key, b, e)
    ensures a in Emitted(r) && a.event.key == key && a.event.start <= b && e <= a.event.end
  {
    var j, x := CoverUpTo(r, key, b, e, e);
    var got := Consider(Reconcile(r.tracked[j], r.detections[j][..x]).seen, r.detections[j][x]);
    a := got.actions[0];
    ActionIsEmitted(r, j, x, a);
  }
}

/** With one ping a vehicle and bucket, the windowed pipeline stores exactly what detection finds in the uncut stream. */
module BunchingRefinement {
  import opened Options
  import opened Pings
  import opened Bunching
  import opened BunchingEvents
  import opened BunchingTracker
  import opened BunchingFrames
  import opened BunchingRuns
  import opened BunchingCoverage

  // ----- between two close buckets a slice misses nothing

  /** Pings of a later bucket come later. */
  lemma LaterBucketLater(stream: seq<Ping>, x: nat, y: nat)
    requires InOrder(stream) && x < |stream| && y < |stream| && Bucket(stream[x].time) < Bucket(stream[y].time)
    ensures x < y
  {
    NextOnGrid(Bucket(stream[x].time), Bucket(stream[y].time));
  }

  lemma MeetingBetween(st: Static, stream: seq<Ping>, lo: nat, hi: nat, pb: Pair, pe: Pair, q: Pair, x: nat, y: nat)
    requires InOrder(stream) && DistinctTimes(stream) && lo <= hi <= |stream| && OnePerBucket(st, stream)
    requires pb in ClosePairs(st, stream[lo..hi]) && pe in ClosePairs(st, stream[lo..hi])
    requires pb.bucket < q.bucket < pe.bucket
    requires MeetClose(st, stream, q, x, y) || MeetFar(st, stream, q, x, y)
    ensures lo <= x < hi && lo <= y < hi
  {
    var i, k := CloseNeedsBoth(st, stream, lo, hi, pb);
    var m, n := CloseNeedsBoth(st, stream, lo, hi, pe);
    MeetTimes(st, stream, q, x, y);
    LaterBucketLater(stream, i, x);
    LaterBucketLater(stream, i, y);
    LaterBucketLater(stream, x, m);
    LaterBucketLater(stream, y, m);
  }

  lemma SliceIsSound(st: Static, stream: seq<Ping>, lo: nat, hi: nat, q: Pair)
    requires InOrder(stream) && DistinctTimes(stream) && lo <= hi <= |stream| && OnePerBucket(st, stream)
    ensures q in ClosePairs(st, stream[lo..hi]) ==> q in ClosePairs(st, stream)
    ensures q in FarPairs(st, stream[lo..hi]) ==> q in FarPairs(st, stream)
  {
    CloseInSlice(st, stream, lo, hi, q);
    FarInSlice(st, stream, lo, hi, q);
    PairsAreNestedLoops(st, stream, q);
  }

  /** One pair of vehicles is listed in a bucket with one distance. */
  lemma CloseIsUnique(st: Static, pings: seq<Ping>, p: Pair, q: Pair)
    requires DistinctTimes(pings) && p in ClosePairs(st, pings) && q in ClosePairs(st, pings)
    requires p.key == q.key && p.bucket == q.bucket
    ensures p == q
  {
    PairsAreNestedLoops(st, pings, p);
    PairsAreNestedLoops(st, pings, q);
    var i: nat, k: nat :| MeetClose(st, pings, p, i, k);
    var x: nat, y: nat :| MeetClose(st, pings, q, x, y);
    MeetTimes(st, pings, p, i, k);
    MeetTimes(st, pings, q, x, y);
    MeetIsUnique(st, pings, i, k, x, y);
  }

  lemma PairBetween(st: Static, stream: seq<Ping>, lo: nat, hi: nat, pb: Pair, pe: Pair, q: Pair)
    requires InOrder(stream) && DistinctTimes(stream) && lo <= hi <= |stream| && OnePerBucket(st, stream)
    requires pb in ClosePairs(st, stream[lo..hi]) && pe in ClosePairs(st, stream[lo..hi])
    requires pb.key == q.key == pe.key && pb.bucket <= q.bucket <= pe.bucket
    ensures q in ClosePairs(st, stream[lo..hi]) <==> q in ClosePairs(st, stream)
    ensures pb.bucket < q.bucket < pe.bucket ==> (q in FarPairs(st, stream[lo..hi]) <==> q in FarPairs(st, stream))
  {
    SliceIsSound(st, stream, lo, hi, q);
    SliceIsSound(st, stream, lo, hi, pb);
    SliceIsSound(st, stream, lo, hi, pe);
    if q in ClosePairs(st, stream) && q.bucket == pb.bucket {
      CloseIsUnique(st, stream, q, pb);
    } else if q in ClosePairs(st, stream) && q.bucket == pe.bucket {
      CloseIsUnique(st, stream, q, pe);
    } else if pb.bucket < q.bucket < pe.bucket {
      CloseInSlice(st, stream, lo, hi, q);
      FarInSlice(st, stream, lo, hi, q);
      PairsAreNestedLoops(st, stream, q);
      if x: nat, y: nat :| MeetClose(st, stream, q, x, y) {
        MeetingBetween(st, stream, lo, hi, pb, pe, q, x, y);
      }
      if x: nat, y: nat :| MeetFar(st, stream, q, x, y) {
        MeetingBetween(st, stream, lo, hi, pb, pe, q, x, y);
      }
    }
  }

  /** The buckets of a slice and of the stream agree from one close bucket of the slice to another. */
  lemma BucketsBetween(st: Static, stream: seq<Ping>, lo: nat, hi: nat, key: Key, b: int, e: int, v: int)
    requires InOrder(stream) && DistinctTimes(stream) && lo <= hi <= |stream| && OnePerBucket(st, stream)
    requires b in CloseOf(st, stream[lo..hi], key) && e in CloseOf(st, stream[lo..hi], key) && b <= v <= e
    ensures v in CloseOf(st, stream[lo..hi], key) <==> v in CloseOf(st, stream, key)
    ensures b < v < e ==> (v in FarOf(st, stream[lo..hi], key).value <==> v in FarOf(st, stream, key).value)
  {
    var pb := InBuckets(ClosePairs(st, stream[lo..hi]), key, b);
    var pe := InBuckets(ClosePairs(st, stream[lo..hi]), key, e);
    if v in CloseOf(st, stream[lo..hi], key) {
      var q := InBuckets(ClosePairs(st, stream[lo..hi]), key, v);
      PairBetween(st, stream, lo, hi, pb, pe, q);
    }
    if v in CloseOf(st, stream, key) {
      var q := InBuckets(ClosePairs(st, stream), key, v);
      PairBetween(st, stream, lo, hi, pb, pe, q);
    }
    if b < v < e && v in FarOf(st, stream[lo..hi], key).value {
      var q := InBuckets(FarPairs(st, stream[lo..hi]), key, v);
      PairBetween(st, stream, lo, hi, pb, pe, q);
    }
    if b < v < e && v in FarOf(st, stream, key).value {
      var q := InBuckets(FarPairs(st, stream), key, v);
      PairBetween(st, stream, lo, hi, pb, pe, q);
    }
  }

  // ----- two sets of buckets that agree on a stretch have the same runs there

  ghost predicate Agree(c: set<int>, s: Option<set<int>>, c': set<int>, s': Option<set<int>>, b: int, e: int) {
    && s.Some? && s'.Some?
    && (forall v :: b <= v <= e ==> (v in c <==> v in c'))
    && (forall v :: b < v < e ==> (v in s.value <==> v in s'.value))
  }

  lemma NextAgrees(c: set<int>, c': set<int>, b: int, e: int, t: int, u: int)
    requires (forall v :: b <= v <= e ==> (v in c <==> v in c')) && b <= t && u <= e && Next(c, t, u)
    ensures Next(c', t, u)
  {
  }

  lemma RunsAgree(c: set<int>, s: Option<set<int>>, c': set<int>, s': Option<set<int>>, b: int, e: int)
    requires Agree(c, s, c', s', b, e) && IsRun(c, s, b, e)
    ensures IsRun(c', s', b, e)
  {
    forall t, u | Next(c', t, u) && b <= t && u <= e ensures Link(s', t, u) {
      NextAgrees(c', c, b, e, t, u);
      assert Link(s, t, u);
    }
  }

  lemma SliceAgrees(st: Static, stream: seq<Ping>, lo: nat, hi: nat, key: Key, b: int, e: int)
    requires InOrder(stream) && DistinctTimes(stream) && lo <= hi <= |stream| && OnePerBucket(st, stream)
    requires b in CloseOf(st, stream[lo..hi], key) && e in CloseOf(st, stream[lo..hi], key)
    ensures Agree(CloseOf(st, stream[lo..hi], key), FarOf(st, stream[lo..hi], key),
                  CloseOf(st, stream, key), FarOf(st, stream, key), b, e)
  {
    forall v | b <= v <= e
      ensures v in CloseOf(st, stream[lo..hi], key) <==> v in CloseOf(st, stream, key)
      ensures b < v < e ==> (v in FarOf(st, stream[lo..hi], key).value <==> v in FarOf(st, stream, key).value)
    {
      BucketsBetween(st, stream, lo, hi, key, b, e, v);
    }
  }

  // ----- runs of a frame are runs of the stream, and no later frame sees them begin earlier

  lemma FrameAgrees(r: Run, key: Key, j: nat, b: int, e: int)
    requires Cut(r) && OnePerBucket(r.st, r.stream) && j < |r.cuts|
    requires b in CloseOf(r.st, FrameOf(r, j), key) && e in CloseOf(r.st, FrameOf(r, j), key)
    ensures Agree(CloseOf(r.st, FrameOf(r, j), key), FarOf(r.st, FrameOf(r, j), key),
                  CloseOf(r.st, r.stream, key), FarOf(r.st, r.stream, key), b, e)
  {
    var lo := FrameFacts(r, j);
    SliceAgrees(r.st, r.stream, lo, r.cuts[j], key, b, e);
  }

  lemma CloseAcross(st: Static, stream: seq<Ping>, lo: nat, hi: nat, lo': nat, hi': nat, pb: Pair, pp: Pair)
    requires InOrder(stream) && DistinctTimes(stream) && OnePerBucket(st, stream)
    requires lo <= hi <= |stream| && lo' <= hi' <= |stream| && lo <= lo' && hi <= hi'
    requires pb in ClosePairs(st, stream[lo'..hi']) && pp in ClosePairs(st, stream[lo..hi]) && pb.bucket < pp.bucket
    ensures pb in ClosePairs(st, stream[lo..hi]) && pp in ClosePairs(st, stream[lo'..hi'])
  {
    CloseInSlice(st, stream, lo, hi, pb);
    CloseInSlice(st, stream, lo, hi, pp);
    CloseInSlice(st, stream, lo', hi', pb);
    CloseInSlice(st, stream, lo', hi', pp);
    var x: nat, y: nat :| lo' <= x < hi' && lo' <= y < hi' && MeetClose(st, stream, pb, x, y);
    var i: nat, k: nat :| lo <= i < hi && lo <= k < hi && MeetClose(st, stream, pp, i, k);
    MeetTimes(st, stream, pb, x, y);
    MeetTimes(st, stream, pp, i, k);
    LaterBucketLater(stream, x, i);
    LaterBucketLater(stream, x, k);
    LaterBucketLater(stream, y, i);
    LaterBucketLater(stream, y, k);
  }

  lemma SlicesAcross(st: Static, stream: seq<Ping>, lo: nat, hi: nat, lo': nat, hi': nat, key: Key, b: int, p: int)
    requires InOrder(stream) && DistinctTimes(stream) && OnePerBucket(st, stream)
    requires lo <= hi <= |stream| && lo' <= hi' <= |stream| && lo <= lo' && hi <= hi'
    requires b in CloseOf(st, stream[lo'..hi'], key) && p in CloseOf(st, stream[lo..hi], key) && b < p
    ensures b in CloseOf(st, stream[lo..hi], key) && p in CloseOf(st, stream[lo'..hi'], key)
  {
    var pb := InBuckets(ClosePairs(st, stream[lo'..hi']), key, b);
    var pp := InBuckets(ClosePairs(st, stream[lo..hi]), key, p);
    CloseAcross(st, stream, lo, hi, lo', hi', pb, pp);
  }

  lemma NoEarlierInSlices(st: Static, stream: seq<Ping>, lo: nat, hi: nat, lo': nat, hi': nat, key: Key,
                          p: int, pe: int, b: int, e: int)
    requires InOrder(stream) && DistinctTimes(stream) && OnePerBucket(st, stream)
    requires lo <= hi <= |stream| && lo' <= hi' <= |stream| && lo <= lo' && hi <= hi'
    requires IsMaximal(CloseOf(st, stream[lo..hi], key), FarOf(st, stream[lo..hi], key), p, pe)
    requires IsRun(CloseOf(st, stream[lo'..hi'], key), FarOf(st, stream[lo'..hi'], key), b, e) && p <= e
    ensures p <= b
  {
    if b < p {
      SlicesAcross(st, stream, lo, hi, lo', hi', key, b, p);
      SliceAgrees(st, stream, lo, hi, key, b, p);
      SliceAgrees(st, stream, lo', hi', key, b, p);
      ReachesBack(CloseOf(st, stream[lo..hi], key), FarOf(st, stream[lo..hi], key),
                  CloseOf(st, stream[lo'..hi'], key), FarOf(st, stream[lo'..hi'], key),
                  CloseOf(st, stream, key), FarOf(st, stream, key), p, pe, b, e);
    }
  }

  lemma CutsMonotone(r: Run, m: nat, n: nat)
    requires Cut(r) && m <= n < |r.cuts|
    ensures r.cuts[m] <= r.cuts[n]
  {
  }

  /** If a run begins a maximal run of one frame, no run of a later frame that reaches it begins earlier. */
  lemma NoEarlierStart(r: Run, key: Key, m: nat, n: nat, p: int, pe: int, b: int, e: int)
    requires Cut(r) && OnePerBucket(r.st, r.stream) && m <= n < |r.cuts|
    requires IsMaximal(CloseOf(r.st, FrameOf(r, m), key), FarOf(r.st, FrameOf(r, m), key), p, pe)
    requires IsRun(CloseOf(r.st, FrameOf(r, n), key), FarOf(r.st, FrameOf(r, n), key), b, e) && p <= e
    ensures p <= b
  {
    var lo := FrameFacts(r, m);
    var lo' := FrameFacts(r, n);
    LaterStart(r, m, n);
    CutsMonotone(r, m, n);
    NoEarlierInSlices(r.st, r.stream, lo, r.cuts[m], lo', r.cuts[n], key, p, pe, b, e);
  }

  lemma ReachesBack(c: set<int>, s: Option<set<int>>, c': set<int>, s': Option<set<int>>, d: set<int>, f: Option<set<int>>,
                    p: int, pe: int, b: int, e: int)
    requires IsRun(c', s', b, e) && b < p <= e && b in c && p in c' && p in c
    requires Agree(c, s, d, f, b, p) && Agree(c', s', d, f, b, p)
    ensures !IsMaximal(c, s, p, pe)
  {
    var t := Predecessor(c', p, b);
    assert Link(s', t, p);
    NextAgrees(c', c, b, p, t, p);
    assert Link(s, t, p);
  }

  // ----- what is emitted is true of the uncut stream

  /** The event is a run of the uncut stream of enough observations, at its smallest distance. */
  ghost predicate IsUncut(r: Run, ev: Event) {
    && Lasts(r, ev.key, ev.start, ev.end)
    && IsClosest(ClosePairs(r.st, r.stream), ev.key, ev.start, ev.end, ev.minDistance)
  }

  /** p begins a maximal run of a frame up to the n-th. */
  ghost predicate Anchored(r: Run, key: Key, p: int, n: nat)
    requires Cut(r)
  {
    exists m: nat, pe: int :: m <= n && m < |r.cuts|
      && IsMaximal(CloseOf(r.st, FrameOf(r, m), key), FarOf(r.st, FrameOf(r, m), key), p, pe)
  }

  /** What makes it safe to reconcile an event of the n-th frame. */
  ghost predicate Sound(r: Run, ev: Event, n: nat)
    requires Cut(r)
  {
    && IsUncut(r, ev) && Anchored(r, ev.key, ev.start, n)
    && forall p :: Anchored(r, ev.key, p, n) && p <= ev.end ==> p <= ev.start
  }

  lemma ClosestInFrame(r: Run, j: nat, ev: Event)
    requires Cut(r) && OnePerBucket(r.st, r.stream) && j < |r.cuts|
    requires ev.start in CloseOf(r.st, FrameOf(r, j), ev.key) && ev.end in CloseOf(r.st, FrameOf(r, j), ev.key)
    requires IsClosest(ClosePairs(r.st, FrameOf(r, j)), ev.key, ev.start, ev.end, ev.minDistance)
    ensures IsClosest(ClosePairs(r.st, r.stream), ev.key, ev.start, ev.end, ev.minDistance)
  {
    var close, all := ClosePairs(r.st, FrameOf(r, j)), ClosePairs(r.st, r.stream);
    var lo := FrameFacts(r, j);
    var pb := InBuckets(close, ev.key, ev.start);
    var pe := InBuckets(close, ev.key, ev.end);
    forall q: Pair | q.key == ev.key && ev.start <= q.bucket <= ev.end ensures q in close <==> q in all {
      PairBetween(r.st, r.stream, lo, r.cuts[j], pb, pe, q);
    }
  }

  lemma EventIsMaximal(r: Run, j: nat, ev: Event)
    requires Cut(r) && j < |r.cuts| && Detected(r, j) && ev in r.detections[j]
    ensures IsMaximal(CloseOf(r.st, FrameOf(r, j), ev.key), FarOf(r.st, FrameOf(r, j), ev.key), ev.start, ev.end)
    ensures IsClosest(ClosePairs(r.st, FrameOf(r, j)), ev.key, ev.start, ev.end, ev.minDistance)
    ensures |Span(CloseOf(r.st, FrameOf(r, j), ev.key), ev.start, ev.end)| >= r.least
  {
    assert Describes(ClosePairs(r.st, FrameOf(r, j)), Some(FarPairs(r.st, FrameOf(r, j))), r.least, ev);
  }

  lemma EventIsSound(r: Run, j: nat, ev: Event)
    requires Cut(r) && OnePerBucket(r.st, r.stream) && j < |r.cuts| && Detected(r, j) && ev in r.detections[j]
    ensures Sound(r, ev, j)
  {
    EventIsMaximal(r, j, ev);
    FrameAgrees(r, ev.key, j, ev.start, ev.end);
    RunsAgree(CloseOf(r.st, FrameOf(r, j), ev.key), FarOf(r.st, FrameOf(r, j), ev.key),
              CloseOf(r.st, r.stream, ev.key), FarOf(r.st, r.stream, ev.key), ev.start, ev.end);
    assert Span(CloseOf(r.st, FrameOf(r, j), ev.key), ev.start, ev.end) == Span(CloseOf(r.st, r.stream, ev.key), ev.start, ev.end);
    ClosestInFrame(r, j, ev);
    forall p | Anchored(r, ev.key, p, j) && p <= ev.end ensures p <= ev.start {
      var m: nat, pe: int :| m <= j && m < |r.cuts|
        && IsMaximal(CloseOf(r.st, FrameOf(r, m), ev.key), FarOf(r.st, FrameOf(r, m), ev.key), p, pe);
      NoEarlierStart(r, ev.key, m, j, p, pe, ev.start, ev.end);
    }
  }

  // ----- reconciling keeps it so

  /** What the tracker and the log keep, up to events of the n-th frame. */
  ghost predicate Kept(r: Run, log: seq<Action>, seen: Seen, n: nat)
    requires Cut(r)
  {
    && CarriesOn(log)
    && (forall i {:trigger IsUncut(r, log[i].event)} :: 0 <= i < |log| ==> IsUncut(r, log[i].event))
    && (forall key {:trigger IsKept(r, log, key, seen[key], n)} :: key in seen ==> IsKept(r, log, key, seen[key], n))
  }

  /** A tracked incident is what was last emitted for its pair. */
  ghost predicate IsKept(r: Run, log: seq<Action>, key: Key, ev: Event, n: nat)
    requires Cut(r)
  {
    ev.key == key && Anchored(r, key, ev.start, n) && exists i: nat :: LastBefore(log, key, i, |log|) && log[i].event == ev
  }

  /** Two runs, the second begun no more than a poll after the first ended, are one. */
  lemma RunsJoin(c: set<int>, s: Option<set<int>>, p: int, pe: int, b: int, e: int)
    requires IsRun(c, s, p, pe) && IsRun(c, s, b, e) && p <= b <= pe + POLL && pe < e
    requires forall v :: v in c ==> v % POLL == 0
    ensures IsRun(c, s, p, e)
  {
    forall t, u | Next(c, t, u) && p <= t && u <= e ensures Link(s, t, u) {
      if pe <= t && u <= b {
        NextOnGrid(t, u);
      }
    }
  }

  lemma ClosestJoins(close: seq<Pair>, key: Key, p: int, pe: int, b: int, e: int, d: real, f: real)
    requires IsClosest(close, key, p, pe, d) && IsClosest(close, key, b, e, f) && p <= b <= pe + POLL && pe < e
    requires pe in Buckets(close, key) && forall v :: v in Buckets(close, key) ==> v % POLL == 0
    ensures IsClosest(close, key, p, e, if d <= f then d else f)
  {
    forall q | q in close && q.key == key && p <= q.bucket <= e ensures (if d <= f then d else f) <= q.distance {
      assert q.bucket in Buckets(close, key);
      if pe < q.bucket {
        NextOnGrid(pe, q.bucket);
      }
    }
  }

  lemma MergedIsUncut(r: Run, previous: Event, ev: Event)
    requires Cut(r) && IsUncut(r, previous) && IsUncut(r, ev) && previous.key == ev.key
    requires previous.start <= ev.start && Continues(previous, ev) && ev.end > previous.end
    ensures IsUncut(r, Merged(previous, ev))
  {
    var c := CloseOf(r.st, r.stream, ev.key);
    forall v | v in c ensures v % POLL == 0 {
      OnGrid(r.st, r.stream, ev.key, v);
    }
    SpanWidens(c, previous.start, previous.end, previous.start, ev.end);
    RunsJoin(c, FarOf(r.st, r.stream, ev.key), previous.start, previous.end, ev.start, ev.end);
    ClosestJoins(ClosePairs(r.st, r.stream), ev.key, previous.start, previous.end, ev.start, ev.end,
                 previous.minDistance, ev.minDistance);
  }

  lemma StillLast(log: seq<Action>, a: Action, key: Key, i: nat)
    requires LastBefore(log, key, i, |log|) && a.event.key != key
    ensures LastBefore(log + [a], key, i, |log| + 1)
  {
  }

  /** An update reaches back exactly as far as what is tracked, so its document key is the incident's. */
  lemma UpdateKeepsStart(r: Run, log: seq<Action>, seen: Seen, ev: Event, n: nat)
    requires Cut(r) && Kept(r, log, seen, n) && Sound(r, ev, n)
    requires ev.key in seen && ev.end > seen[ev.key].end
    ensures seen[ev.key].start <= ev.start && Merged(seen[ev.key], ev).start == seen[ev.key].start
  {
    var previous := seen[ev.key];
    assert IsKept(r, log, ev.key, previous, n);
    var i: nat :| LastBefore(log, ev.key, i, |log|) && log[i].event == previous;
    assert IsUncut(r, log[i].event);
  }

  lemma KeptAfter(r: Run, log: seq<Action>, seen: Seen, n: nat, a: Action)
    requires Cut(r) && Kept(r, log, seen, n) && IsUncut(r, a.event) && Anchored(r, a.event.key, a.event.start, n)
    requires a.kind.Update? ==> a.event.key in seen && seen[a.event.key].start == a.event.start
    ensures Kept(r, log + [a], seen[a.event.key := a.event], n)
  {
    var more, now := log + [a], seen[a.event.key := a.event];
    if a.kind.Update? {
      assert IsKept(r, log, a.event.key, seen[a.event.key], n);
      var i: nat :| LastBefore(log, a.event.key, i, |log|) && log[i].event == seen[a.event.key];
    }
    CarriesOnAfter(log, a);
    forall i | 0 <= i < |more| ensures IsUncut(r, more[i].event) {
      if i < |log| {
        assert IsUncut(r, log[i].event);
      }
    }
    forall key | key in now ensures IsKept(r, more, key, now[key], n) {
      if key in seen {
        assert IsKept(r, log, key, seen[key], n);
      }
      StillKept(r, log, seen, n, a, key);
    }
  }

  lemma StillKept(r: Run, log: seq<Action>, seen: Seen, n: nat, a: Action, key: Key)
    requires Cut(r) && Anchored(r, a.event.key, a.event.start, n)
    requires key in seen && key != a.event.key ==> IsKept(r, log, key, seen[key], n)
    requires key in seen || key == a.event.key
    ensures IsKept(r, log + [a], key, seen[a.event.key := a.event][key], n)
  {
    if key == a.event.key {
      assert LastBefore(log + [a], key, |log|, |log| + 1);
    } else {
      var i: nat :| LastBefore(log, key, i, |log|) && log[i].event == seen[key];
      StillLast(log, a, key, i);
    }
  }

  lemma UpdateKeeps(r: Run, log: seq<Action>, seen: Seen, ev: Event, n: nat)
    requires Cut(r) && Kept(r, log, seen, n) && Sound(r, ev, n)
    requires ev.key in seen && Continues(seen[ev.key], ev) && ev.end > seen[ev.key].end
    ensures Kept(r, log + [Action(Update, Merged(seen[ev.key], ev))], seen[ev.key := Merged(seen[ev.key], ev)], n)
  {
    UpdateKeepsStart(r, log, seen, ev, n);
    assert IsKept(r, log, ev.key, seen[ev.key], n);
    var i: nat :| LastBefore(log, ev.key, i, |log|) && log[i].event == seen[ev.key];
    assert IsUncut(r, log[i].event);
    MergedIsUncut(r, seen[ev.key], ev);
    KeptAfter(r, log, seen, n, Action(Update, Merged(seen[ev.key], ev)));
  }

  lemma ConsiderKeeps(r: Run, log: seq<Action>, seen: Seen, ev: Event, n: nat)
    requires Cut(r) && Kept(r, log, seen, n) && Sound(r, ev, n)
    ensures Kept(r, log + Consider(seen, ev).actions, Consider(seen, ev).seen, n)
  {
    if ev.key !in seen || !Continues(seen[ev.key], ev) {
      KeptAfter(r, log, seen, n, Action(New, ev));
    } else if ev.end > seen[ev.key].end {
      UpdateKeeps(r, log, seen, ev, n);
    } else {
      assert log + [] == log;
    }
  }

  lemma KeptJoins(r: Run, log: seq<Action>, a: seq<Action>, b: seq<Action>, seen: Seen, n: nat)
    requires Cut(r) && Kept(r, (log + a) + b, seen, n)
    ensures Kept(r, log + (a + b), seen, n)
  {
    assert (log + a) + b == log + (a + b);
  }

  lemma {:induction false} ReconcileKeeps(r: Run, log: seq<Action>, seen: Seen, events: seq<Event>, x: nat, n: nat)
    requires Cut(r) && Kept(r, log, seen, n) && x <= |events|
    requires forall i {:trigger Sound(r, events[i], n)} :: 0 <= i < |events| ==> Sound(r, events[i], n)
    ensures Kept(r, log + Reconcile(seen, events[..x]).actions, Reconcile(seen, events[..x]).seen, n)
  {
    if x == 0 {
      assert log + [] == log;
    } else {
      ReconcileKeeps(r, log, seen, events, x - 1, n);
      var before := Reconcile(seen, events[..x - 1]);
      assert Sound(r, events[x - 1], n);
      ConsiderKeeps(r, log + before.actions, before.seen, events[x - 1], n);
      KeptJoins(r, log, before.actions, Consider(before.seen, events[x - 1]).actions, Consider(before.seen, events[x - 1]).seen, n);
      ReconcileStep(seen, events, x);
    }
  }

  lemma KeptLater(r: Run, log: seq<Action>, seen: Seen, n: nat, cutoff: int)
    requires Cut(r) && Kept(r, log, seen, n)
    ensures Kept(r, log, Purge(seen, cutoff), n + 1) && Kept(r, log, seen, n + 1)
  {
    forall key | key in seen ensures IsKept(r, log, key, seen[key], n + 1) {
      assert IsKept(r, log, key, seen[key], n);
    }
  }

  lemma {:induction false} RunKeeps(r: Run, n: nat)
    requires Valid(r) && OnePerBucket(r.st, r.stream) && n <= |r.cuts|
    ensures Kept(r, r.logs[n], r.tracked[n], n)
  {
    if n > 0 {
      var j := n - 1;
      RunKeeps(r, j);
      assert Reconciles(r, j) && Detected(r, j);
      forall i | 0 <= i < |r.detections[j]| ensures Sound(r, r.detections[j][i], j) {
        EventIsSound(r, j, r.detections[j][i]);
      }
      ReconcileKeeps(r, r.logs[j], r.tracked[j], r.detections[j], |r.detections[j]|, j);
      assert r.detections[j][..|r.detections[j]|] == r.detections[j];
      var cutoff := if r.cuts[j] > 0 then r.stream[r.cuts[j] - 1].time - r.retention else 0;
      KeptLater(r, r.logs[j] + Reconcile(r.tracked[j], r.detections[j]).actions, Reconcile(r.tracked[j], r.detections[j]).seen, j, cutoff);
      KeptLater(r, r.logs[j], r.tracked[j], j, cutoff);
    }
  }
}

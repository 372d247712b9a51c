/** Where a vehicle reports twice in a bucket the document key of an incident can drift. */
module BunchingDrift {
  import opened Options
  import opened Pings
  import opened Bunching
  import opened BunchingEvents
  import opened BunchingTracker
  import opened BunchingFrames
  import opened BunchingRuns
  import opened BunchingCoverage
  import opened BunchingBound

  /**
   Vehicle 1 is away at 0 and beside vehicle 2 from 10 s on. The second frame no longer
   has its first ping, so bucket 0 has become a close one there.
   */
  function Drifting(trip: int, place: Location, away: Location): seq<Ping> {
    [At(1, trip, 0, away), At(1, trip, 10 * SECOND, place), At(2, trip, 10 * SECOND, place),
     At(1, trip, 15 * SECOND, place), At(2, trip, 15 * SECOND, place),
     At(1, trip, 30 * SECOND, place), At(2, trip, 39 * SECOND, place),
     At(1, trip, 45 * SECOND, place), At(2, trip, 45 * SECOND, place)]
  }

  predicate Parts(st: Static, trip: int, place: Location, away: Location) {
    Bunches(st, trip, place) && !st.nearTerminal(away, trip) && st.distance(away, place) > DISTANCE_THRESHOLD
  }

  lemma DriftingStream(trip: int, place: Location, away: Location)
    ensures InOrder(Drifting(trip, place, away)) && DistinctTimes(Drifting(trip, place, away))
  {
  }

  function DriftKey(st: Static, trip: int): Key
    requires trip in st.directions
  {
    Key(0, st.directions[trip], 1, 2)
  }

  function Slot(i: nat): int {
    if i < 3 then 0 else if i < 5 then 15 * SECOND else if i < 7 then 30 * SECOND else 45 * SECOND
  }

  lemma DriftSlot(trip: int, place: Location, away: Location, i: nat)
    requires i < 9
    ensures var p := Drifting(trip, place, away)[i];
            && Bucket(p.time) == Slot(i) && p.trip == trip && p.route == 0
            && p.vehicle == (if i in {2, 4, 6, 8} then 2 else 1)
            && p.location == Some(if i == 0 then away else place)
  {
  }

  ghost predicate DriftFrame(lo: nat, hi: nat) {
    (lo == 0 && hi == 7) || (lo == 1 && hi == 9)
  }

  lemma DriftFirst(st: Static, trip: int, place: Location, away: Location, lo: nat, hi: nat, i: nat)
    requires Parts(st, trip, place, away) && DriftFrame(lo, hi) && lo <= i < hi && !(lo == 0 && i == 1)
    ensures IsFirst(st, Drifting(trip, place, away)[lo..hi], i - lo)
  {
    var stream := Drifting(trip, place, away);
    var slice := stream[lo..hi];
    DriftSlot(trip, place, away, i);
    forall k | 0 <= k < |slice| && Rivals(st, slice[i - lo], slice[k]) ensures slice[i - lo].time <= slice[k].time {
      DriftSlot(trip, place, away, lo + k);
      assert slice[k] == stream[lo + k] && slice[i - lo] == stream[i];
    }
  }

  lemma DriftClose(st: Static, trip: int, place: Location, away: Location, lo: nat, hi: nat, i: nat)
    requires Parts(st, trip, place, away) && DriftFrame(lo, hi) && lo <= i && i + 1 < hi && i in {1, 3, 5, 7} && !(lo == 0 && i == 1)
    ensures Slot(i) in CloseOf(st, Drifting(trip, place, away)[lo..hi], DriftKey(st, trip))
  {
    var stream := Drifting(trip, place, away);
    var slice := stream[lo..hi];
    DriftingStream(trip, place, away);
    SliceIsOrdered(stream, lo, hi);
    DriftFirst(st, trip, place, away, lo, hi, i);
    DriftFirst(st, trip, place, away, lo, hi, i + 1);
    DriftSlot(trip, place, away, i);
    DriftSlot(trip, place, away, i + 1);
    var x: nat := i - lo;
    var p := Pair(DriftKey(st, trip), Slot(i), st.distance(place, place));
    DriftMeets(st, slice, trip, place, x, Slot(i));
    PairsAreNestedLoops(st, slice, p);
    assert p in ClosePairs(st, slice) && p.key == DriftKey(st, trip) && p.bucket == Slot(i);
  }

  lemma DriftMeets(st: Static, slice: seq<Ping>, trip: int, place: Location, x: nat, bucket: int)
    requires Bunches(st, trip, place) && x + 1 < |slice| && IsFirst(st, slice, x) && IsFirst(st, slice, x + 1)
    requires Bucket(slice[x].time) == Bucket(slice[x + 1].time) == bucket
    requires slice[x].trip == slice[x + 1].trip == trip && slice[x].route == slice[x + 1].route == 0
    requires slice[x].vehicle == 1 && slice[x + 1].vehicle == 2
    requires slice[x].location == slice[x + 1].location == Some(place)
    ensures MeetClose(st, slice, Pair(DriftKey(st, trip), bucket, st.distance(place, place)), x, x + 1)
  {
  }

  /** Every pair the frames list is of vehicles 1 and 2, at one distance; bucket 0 only without the first ping. */
  lemma DriftOnly(st: Static, trip: int, place: Location, away: Location, lo: nat, hi: nat, p: Pair)
    requires Parts(st, trip, place, away) && DriftFrame(lo, hi)
    requires p in ClosePairs(st, Drifting(trip, place, away)[lo..hi])
    ensures p.key == DriftKey(st, trip) && p.distance == st.distance(place, place)
    ensures p.bucket in {Slot(0), Slot(3), Slot(5), Slot(7)}
    ensures lo == 0 ==> p.bucket in {Slot(3), Slot(5)}
  {
    var stream := Drifting(trip, place, away);
    var slice := stream[lo..hi];
    DriftingStream(trip, place, away);
    SliceIsOrdered(stream, lo, hi);
    PairsAreNestedLoops(st, slice, p);
    var i: nat, k: nat :| MeetClose(st, slice, p, i, k);
    DriftMeeting(st, trip, place, away, lo, hi, p, i, k);
  }

  lemma DriftMeeting(st: Static, trip: int, place: Location, away: Location, lo: nat, hi: nat, p: Pair, i: nat, k: nat)
    requires Parts(st, trip, place, away) && DriftFrame(lo, hi)
    requires MeetClose(st, Drifting(trip, place, away)[lo..hi], p, i, k)
    ensures p.key == DriftKey(st, trip) && p.distance == st.distance(place, place) && p.bucket == Slot(lo + i)
    ensures p.bucket in {Slot(0), Slot(3), Slot(5), Slot(7)}
    ensures lo == 0 ==> p.bucket in {Slot(3), Slot(5)}
  {
    var stream := Drifting(trip, place, away);
    var slice := stream[lo..hi];
    DriftSlot(trip, place, away, lo + i);
    DriftSlot(trip, place, away, lo + k);
    assert slice[i] == stream[lo + i] && slice[k] == stream[lo + k];
    if lo == 0 && i == 1 {
      assert Rivals(st, slice[1], slice[0]) by {
        DriftSlot(trip, place, away, 0);
      }
    }
  }

  /** A table of one pair whose buckets are all adjacent is reported as one event. */
  lemma SoleRun(close: seq<Pair>, separated: seq<Pair>, key: Key, b: int, e: int, d: real)
    requires forall p :: p in close ==> p.key == key && p.distance == d && b <= p.bucket <= e
    requires b in Buckets(close, key) && e in Buckets(close, key) && b < e
    requires forall t, u :: Next(Buckets(close, key), t, u) ==> u - t == POLL
    ensures Detects(close, Some(separated), MIN_CONSECUTIVE, [Event(key, b, e, |Buckets(close, key)|, d)])
  {
    var c := Buckets(close, key);
    var ev := Event(key, b, e, |c|, d);
    assert Span(c, b, e) == c;
    TwoAtLeast(c, b, e, b, e);
    var p := InBuckets(close, key, b);
    assert Describes(close, Some(separated), MIN_CONSECUTIVE, ev);
    forall k, b', e' | IsLasting(close, Some(separated), MIN_CONSECUTIVE, k, b', e') ensures Reports([ev], k, b', e') {
      var q := InBuckets(close, k, b');
      MaximalHolds(c, Breaks(Some(separated), key), b', e', b, e);
      MaximalHolds(c, Breaks(Some(separated), key), b, e, b', e');
      assert ev in [ev];
    }
  }

  lemma DriftBuckets(st: Static, trip: int, place: Location, away: Location, lo: nat, hi: nat)
    requires Parts(st, trip, place, away) && DriftFrame(lo, hi)
    ensures CloseOf(st, Drifting(trip, place, away)[lo..hi], DriftKey(st, trip))
            == if lo == 0 then {Slot(3), Slot(5)} else {Slot(0), Slot(3), Slot(5), Slot(7)}
  {
    var c := CloseOf(st, Drifting(trip, place, away)[lo..hi], DriftKey(st, trip));
    forall t | t in c ensures t in {Slot(0), Slot(3), Slot(5), Slot(7)} && (lo == 0 ==> t in {Slot(3), Slot(5)}) {
      var p := InBuckets(ClosePairs(st, Drifting(trip, place, away)[lo..hi]), DriftKey(st, trip), t);
      DriftOnly(st, trip, place, away, lo, hi, p);
    }
    DriftClose(st, trip, place, away, lo, hi, 3);
    DriftClose(st, trip, place, away, lo, hi, 5);
    if lo == 1 {
      DriftClose(st, trip, place, away, lo, hi, 1);
      DriftClose(st, trip, place, away, lo, hi, 7);
    }
  }

  function DriftEvent(st: Static, trip: int, place: Location, first: bool): Event
    requires trip in st.directions
  {
    if first then Event(DriftKey(st, trip), Slot(3), Slot(5), 2, st.distance(place, place))
    else Event(DriftKey(st, trip), Slot(0), Slot(7), 4, st.distance(place, place))
  }

  lemma DriftDetects(st: Static, trip: int, place: Location, away: Location, lo: nat, hi: nat)
    requires Parts(st, trip, place, away) && DriftFrame(lo, hi)
    ensures var slice := Drifting(trip, place, away)[lo..hi];
            Finds(st, slice, MIN_CONSECUTIVE, [DriftEvent(st, trip, place, lo == 0)])
  {
    var slice := Drifting(trip, place, away)[lo..hi];
    DriftBuckets(st, trip, place, away, lo, hi);
    forall p | p in ClosePairs(st, slice)
      ensures p.key == DriftKey(st, trip) && p.distance == st.distance(place, place)
      ensures (if lo == 0 then Slot(3) else Slot(0)) <= p.bucket <= (if lo == 0 then Slot(5) else Slot(7))
    {
      DriftOnly(st, trip, place, away, lo, hi, p);
    }
    SoleRun(ClosePairs(st, slice), FarPairs(st, slice), DriftKey(st, trip),
            if lo == 0 then Slot(3) else Slot(0), if lo == 0 then Slot(5) else Slot(7), st.distance(place, place));
  }

  function DriftLog(st: Static, trip: int, place: Location): seq<Action>
    requires trip in st.directions
  {
    var first, second := DriftEvent(st, trip, place, true), DriftEvent(st, trip, place, false);
    [Action(New, first), Action(Update, Merged(first, second))]
  }

  ghost function DriftRun(st: Static, trip: int, place: Location, away: Location): Run
    requires trip in st.directions
  {
    var first, second := DriftEvent(st, trip, place, true), DriftEvent(st, trip, place, false);
    var key, log := DriftKey(st, trip), DriftLog(st, trip, place);
    var stream := Drifting(trip, place, away);
    Run(st, stream, [7, 9], OVERLAP, RETENTION, MIN_CONSECUTIVE, [Frame(stream, [7, 9], OVERLAP, 0), Frame(stream, [7, 9], OVERLAP, 1)],
        [[first], [second]],
        [map[], map[key := first], map[key := Merged(first, second)]], [[], log[..1], log])
  }

  lemma DriftReconciles(st: Static, trip: int, place: Location, away: Location, j: nat)
    requires Parts(st, trip, place, away) && j < 2 && Cut(DriftRun(st, trip, place, away))
    ensures Reconciles(DriftRun(st, trip, place, away), j)
  {
    var r := DriftRun(st, trip, place, away);
    ReconcileStep(r.tracked[j], r.detections[j], 1);
    assert r.detections[j][..1] == r.detections[j] && r.detections[j][..0] == [];
  }

  /**
   Without the one-ping condition the documented stability fails: one incident, reported
   "new" once and then updated, ends up in two documents.
   */
  lemma KeyCanDrift(st: Static, trip: int, place: Location, away: Location)
    requires Parts(st, trip, place, away)
    ensures var r := DriftRun(st, trip, place, away);
            && Valid(r) && AllFlushed(r) && !OnePerBucket(st, r.stream)
            && News(Emitted(r)) == 1 && |Persist(map[], Emitted(r))| == 2
  {
    var r := DriftRun(st, trip, place, away);
    DriftingStream(trip, place, away);
    forall j | 0 <= j < 2 ensures IsFrame(r, j) {
    }
    assert Cut(r);
    forall j | 0 <= j < 2 ensures Detected(r, j) && Reconciles(r, j) {
      var lo := FrameFacts(r, j);
      if j == 1 {
        StartIsCutoff(r.stream, r.cuts, r.overlap, 1, 0);
        StartIsCutoff(r.stream, r.cuts, r.overlap, 1, 1);
      }
      DriftDetects(st, trip, place, away, lo, r.cuts[j]);
      DriftReconciles(st, trip, place, away, j);
    }
    assert Rivals(st, r.stream[0], r.stream[1]);
    DriftStored(DriftLog(st, trip, place));
  }

  lemma DriftStored(log: seq<Action>)
    requires |log| == 2 && log[0].kind.New? && log[1].kind.Update? && DocKey(log[0].event.key, log[0].event.start) != DocKey(log[1].event.key, log[1].event.start)
    ensures News(log) == 1 && |Persist(map[], log)| == 2
  {
    assert log[..1] == [log[0]] && [log[0]][..0] == [];
    var none: Store := map[];
    var one := Persist(none, [log[0]]);
    assert Persist(none, [log[0]][..0]) == none;
    assert one == map[DocKey(log[0].event.key, log[0].event.start) := OperationOf(log[0]).doc];
    var two := Persist(none, log);
    assert two == one[DocKey(log[1].event.key, log[1].event.start) := OperationOf(log[1]).doc];
    assert two.Keys == {DocKey(log[0].event.key, log[0].event.start), DocKey(log[1].event.key, log[1].event.start)};
    assert |two| == |two.Keys|;
    assert News([log[0]]) == 1;
  }
}

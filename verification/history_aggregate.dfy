/** history-chart.ts: aggregateBuckets, and that it drops nothing. */
module HistoryAggregate {
  import opened Options
  import opened HistoryBuckets

  // ----- totals

  function SumOf<T>(s: seq<T>, f: T -> nat): nat {
    if s == [] then 0 else SumOf(s[..|s|-1], f) + f(s[|s|-1])
  }

  lemma {:induction false} SumUpdate<T>(s: seq<T>, k: nat, x: T, f: T -> nat)
    requires k < |s|
    ensures SumOf(s[k := x], f) + f(s[k]) == SumOf(s, f) + f(x)
  {
    var n := |s| - 1;
    if k < n {
      assert s[k := x][..n] == s[..n][k := x];
      SumUpdate(s[..n], k, x, f);
    } else {
      assert s[k := x][..n] == s[..n];
    }
  }

  lemma SumAppend<T>(s: seq<T>, x: T, f: T -> nat)
    ensures SumOf(s + [x], f) == SumOf(s, f) + f(x)
  {
    assert (s + [x])[..|s|] == s;
  }

  function VehiclesOf(p: Point): nat { p.vehicles }
  function BunchingOf(p: Point): nat { p.bunching }
  function OneOf(p: Point): nat { 1 }
  function VehiclesIn(b: Bucket): nat { b.vehicleTotal }
  function BunchingIn(b: Bucket): nat { b.bunchingTotal }
  function HoursIn(b: Bucket): nat { b.hours + b.noService }
  function VehiclesShown(f: Finished): nat { f.vehicleTotal }
  function BunchingShown(f: Finished): nat { f.bunchingTotal }
  function HoursShown(f: Finished): nat { f.hours + f.noService }

  /** The buckets account for every vehicle, every bunching event and every hour of the points. */
  ghost predicate Accounts(buckets: seq<Bucket>, points: seq<Point>) {
    && SumOf(buckets, VehiclesIn) == SumOf(points, VehiclesOf)
    && SumOf(buckets, BunchingIn) == SumOf(points, BunchingOf)
    && SumOf(buckets, HoursIn) == SumOf(points, OneOf)
  }

  lemma AddAccounts(buckets: seq<Bucket>, k: nat, points: seq<Point>, p: Point)
    requires k < |buckets| && Accounts(buckets, points)
    ensures Accounts(buckets[k := AddPoint(buckets[k], p)], points + [p])
  {
    SumUpdate(buckets, k, AddPoint(buckets[k], p), VehiclesIn);
    SumUpdate(buckets, k, AddPoint(buckets[k], p), BunchingIn);
    SumUpdate(buckets, k, AddPoint(buckets[k], p), HoursIn);
    SumAppend(points, p, VehiclesOf);
    SumAppend(points, p, BunchingOf);
    SumAppend(points, p, OneOf);
  }

  lemma NewAccounts(buckets: seq<Bucket>, points: seq<Point>, start: int, groupDays: int)
    requires Accounts(buckets, points)
    ensures Accounts(buckets + [NewBucket(start, groupDays)], points)
  {
    SumAppend(buckets, NewBucket(start, groupDays), VehiclesIn);
    SumAppend(buckets, NewBucket(start, groupDays), BunchingIn);
    SumAppend(buckets, NewBucket(start, groupDays), HoursIn);
  }

  lemma {:induction false} OneEach(points: seq<Point>)
    ensures SumOf(points, OneOf) == |points|
  {
    if points != [] {
      OneEach(points[..|points|-1]);
    }
  }

  // ----- the table of buckets by their start

  /** Which bucket of the list a start stands for. */
  ghost predicate Indexed(buckets: seq<Bucket>, byKey: map<int, nat>) {
    && (forall key :: key in byKey ==> byKey[key] < |buckets| && buckets[byKey[key]].start == key)
    && (forall k :: 0 <= k < |buckets| ==> buckets[k].start in byKey)
  }

  /** The bucket a start stands for holds exactly its own points so far; one the table has lost holds none. */
  ghost predicate Holds(cal: Calendar, points: seq<Point>, bucketHours: nat, buckets: seq<Bucket>, byKey: map<int, nat>, k: nat)
    requires k < |buckets| && buckets[k].start in byKey
  {
    var b := buckets[k];
    b == if byKey[b.start] == k then Gather(cal, points, bucketHours, b.start, b.groupDays) else NewBucket(b.start, b.groupDays)
  }

  ghost predicate Filled(cal: Calendar, points: seq<Point>, bucketHours: nat, buckets: seq<Bucket>, byKey: map<int, nat>) {
    && Indexed(buckets, byKey) && Accounts(buckets, points)
    && (forall k {:trigger Holds(cal, points, bucketHours, buckets, byKey, k)} :: 0 <= k < |buckets| ==>
          Holds(cal, points, bucketHours, buckets, byKey, k))
    && (forall p :: p in points ==> BucketStart(cal, p.hour, bucketHours) in byKey)
  }

  lemma {:induction false} GatherKeeps(cal: Calendar, points: seq<Point>, bucketHours: nat, start: int, groupDays: int)
    ensures Gather(cal, points, bucketHours, start, groupDays).start == start
    ensures Gather(cal, points, bucketHours, start, groupDays).groupDays == groupDays
    ensures (forall p :: p in points ==> BucketStart(cal, p.hour, bucketHours) != start) ==>
              Gather(cal, points, bucketHours, start, groupDays) == NewBucket(start, groupDays)
  {
    if points != [] {
      GatherKeeps(cal, points[..|points|-1], bucketHours, start, groupDays);
    }
  }

  lemma GatherOne(cal: Calendar, points: seq<Point>, p: Point, bucketHours: nat, start: int, groupDays: int)
    ensures Gather(cal, points + [p], bucketHours, start, groupDays)
            == if BucketStart(cal, p.hour, bucketHours) == start then AddPoint(Gather(cal, points, bucketHours, start, groupDays), p)
               else Gather(cal, points, bucketHours, start, groupDays)
  {
    assert (points + [p])[..|points|] == points;
  }

  lemma FillOne(cal: Calendar, points: seq<Point>, bucketHours: nat, buckets: seq<Bucket>, byKey: map<int, nat>, p: Point)
    requires Filled(cal, points, bucketHours, buckets, byKey) && BucketStart(cal, p.hour, bucketHours) in byKey
    ensures var k := byKey[BucketStart(cal, p.hour, bucketHours)];
            k < |buckets| && Filled(cal, points + [p], bucketHours, buckets[k := AddPoint(buckets[k], p)], byKey)
  {
    var start := BucketStart(cal, p.hour, bucketHours);
    var k := byKey[start];
    var now := buckets[k := AddPoint(buckets[k], p)];
    AddAccounts(buckets, k, points, p);
    forall m | 0 <= m < |now| ensures Holds(cal, points + [p], bucketHours, now, byKey, m) {
      assert Holds(cal, points, bucketHours, buckets, byKey, m);
      GatherOne(cal, points, p, bucketHours, buckets[m].start, buckets[m].groupDays);
    }
  }

  ghost predicate IsEmpty(b: Bucket) {
    b == NewBucket(b.start, b.groupDays)
  }

  /** A bucket with a start the points have not needed yet. */
  lemma FillNew(cal: Calendar, points: seq<Point>, bucketHours: nat, buckets: seq<Bucket>, byKey: map<int, nat>, start: int, groupDays: int)
    requires Filled(cal, points, bucketHours, buckets, byKey)
    requires forall p :: p in points ==> BucketStart(cal, p.hour, bucketHours) != start
    requires start in byKey ==> IsEmpty(buckets[byKey[start]])
    ensures Filled(cal, points, bucketHours, buckets + [NewBucket(start, groupDays)], byKey[start := |buckets|])
  {
    var now, keys := buckets + [NewBucket(start, groupDays)], byKey[start := |buckets|];
    NewAccounts(buckets, points, start, groupDays);
    NewIndexed(buckets, byKey, start, groupDays);
    forall m | 0 <= m < |now| ensures Holds(cal, points, bucketHours, now, keys, m) {
      if m < |buckets| {
        assert Holds(cal, points, bucketHours, buckets, byKey, m);
        assert now[m] == buckets[m];
      } else {
        GatherKeeps(cal, points, bucketHours, start, groupDays);
      }
    }
  }

  lemma NewIndexed(buckets: seq<Bucket>, byKey: map<int, nat>, start: int, groupDays: int)
    requires Indexed(buckets, byKey)
    ensures Indexed(buckets + [NewBucket(start, groupDays)], byKey[start := |buckets|])
  {
  }

  // ----- the loops

  /** One bucket per observed hour, each with a point of its own. */
  method PassThrough(cal: Calendar, points: seq<Point>, bucketHours: nat) returns (buckets: seq<Bucket>, ghost byKey: map<int, nat>)
    requires bucketHours <= 1
    ensures Filled(cal, points, bucketHours, buckets, byKey)
    ensures forall k :: 0 <= k < |buckets| ==> byKey[buckets[k].start] == k && IsObserved(cal, points, bucketHours, buckets[k].start)
  {
    buckets := [];
    var keys: map<int, nat> := map[];
    var i := 0;
    while i < |points|
      invariant 0 <= i <= |points| && Filled(cal, points[..i], bucketHours, buckets, keys)
      invariant forall k :: 0 <= k < |buckets| ==> keys[buckets[k].start] == k && IsObserved(cal, points, bucketHours, buckets[k].start)
    {
      var p := points[i];
      var start := BucketStart(cal, p.hour, 1);
      assert IsObserved(cal, points, bucketHours, start);
      if start !in keys {
        FillNew(cal, points[..i], bucketHours, buckets, keys, start, 1);
        keys := keys[start := |buckets|];
        buckets := buckets + [NewBucket(start, 1)];
      }
      FillOne(cal, points[..i], bucketHours, buckets, keys, p);
      assert points[..i + 1] == points[..i] + [p];
      buckets := buckets[keys[start] := AddPoint(buckets[keys[start]], p)];
      i := i + 1;
    }
    assert points[..i] == points;
    byKey := keys;
  }

  /** Some point belongs to the bucket that starts then. */
  ghost predicate IsObserved(cal: Calendar, points: seq<Point>, bucketHours: nat, start: int) {
    exists p :: p in points && BucketStart(cal, p.hour, bucketHours) == start
  }

  /** first and last are the first and last observed local day. */
  ghost predicate IsDayRange(cal: Calendar, points: seq<Point>, first: int, last: int) {
    && (forall p :: p in points ==> first <= LocalDayIndex(cal, p.hour) <= last)
    && (exists p :: p in points && LocalDayIndex(cal, p.hour) == first)
    && (exists p :: p in points && LocalDayIndex(cal, p.hour) == last)
  }

  method DayRange(cal: Calendar, points: seq<Point>) returns (first: int, last: int)
    requires points != []
    ensures first <= last && IsDayRange(cal, points, first, last)
  {
    var firstDay: Option<int>, lastDay: Option<int> := None, None;
    ghost var f, l := 0, 0;       // where they were observed
    var i := 0;
    while i < |points|
      invariant 0 <= i <= |points| && (i > 0 ==> firstDay.Some? && lastDay.Some? && firstDay.value <= lastDay.value)
      invariant forall k :: 0 <= k < i ==> firstDay.value <= LocalDayIndex(cal, points[k].hour) <= lastDay.value
      invariant i == 0 ==> firstDay == None && lastDay == None
      invariant i > 0 ==> 0 <= f < i && LocalDayIndex(cal, points[f].hour) == firstDay.value
      invariant i > 0 ==> 0 <= l < i && LocalDayIndex(cal, points[l].hour) == lastDay.value
    {
      var dayIndex := LocalDayIndex(cal, points[i].hour);
      if firstDay.None? || dayIndex < firstDay.value {
        firstDay, f := Some(dayIndex), i;
      }
      if lastDay.None? || dayIndex > lastDay.value {
        lastDay, l := Some(dayIndex), i;
      }
      i := i + 1;
    }
    first, last := firstDay.value, lastDay.value;
    assert points[f] in points && points[l] in points;
  }

  /** The buckets stand where the slots do. */
  ghost predicate StandOn(buckets: seq<Bucket>, starts: seq<int>) {
    |buckets| == |starts| && forall k :: 0 <= k < |buckets| ==> buckets[k].start == starts[k]
  }

  /** An empty bucket a grid slot. */
  method LayOut(cal: Calendar, grid: seq<Slot>, bucketHours: nat) returns (buckets: seq<Bucket>, byKey: map<int, nat>)
    ensures Filled(cal, [], bucketHours, buckets, byKey) && StandOn(buckets, Starts(grid))
  {
    buckets, byKey := [], map[];
    var i := 0;
    while i < |grid|
      invariant 0 <= i <= |grid| && Filled(cal, [], bucketHours, buckets, byKey)
      invariant |buckets| == i && forall k :: 0 <= k < i ==> buckets[k].start == grid[k].start
    {
      var s := grid[i];
      if s.start in byKey {
        assert Holds(cal, [], bucketHours, buckets, byKey, byKey[s.start]);
        assert IsEmpty(buckets[byKey[s.start]]);
      }
      FillNew(cal, [], bucketHours, buckets, byKey, s.start, s.groupDays);
      byKey := byKey[s.start := |buckets|];
      buckets := buckets + [NewBucket(s.start, s.groupDays)];
      i := i + 1;
    }
  }

  lemma StartIsKey(buckets: seq<Bucket>, byKey: map<int, nat>, starts: seq<int>, start: int)
    requires Indexed(buckets, byKey) && StandOn(buckets, starts) && start in starts
    ensures start in byKey
  {
    var k :| 0 <= k < |starts| && starts[k] == start;
    assert buckets[k].start == start;
  }

  method FillGrid(cal: Calendar, points: seq<Point>, bucketHours: nat)
    returns (buckets: seq<Bucket>, ghost byKey: map<int, nat>, ghost first: int, ghost last: int)
    requires IsCalendar(cal) && bucketHours > 1 && points != []
    ensures Filled(cal, points, bucketHours, buckets, byKey)
    ensures IsDayRange(cal, points, first, last) && exists starts :: IsGrid(cal, first, last, bucketHours, starts) && StandOn(buckets, starts)
  {
    var firstDay, lastDay := DayRange(cal, points);
    first, last := firstDay, lastDay;
    var grid := BucketGrid(cal, firstDay, lastDay, bucketHours);
    var keys: map<int, nat>;
    buckets, keys := LayOut(cal, grid, bucketHours);
    var i := 0;
    while i < |points|
      invariant 0 <= i <= |points| && Filled(cal, points[..i], bucketHours, buckets, keys)
      invariant StandOn(buckets, Starts(grid))
    {
      var p := points[i];
      var bucketKey := BucketStart(cal, p.hour, bucketHours);
      EveryPointHasBucket(cal, first, last, bucketHours, p.hour, Starts(grid));
      StartIsKey(buckets, keys, Starts(grid), bucketKey);
      if bucketKey in keys {
        FillOne(cal, points[..i], bucketHours, buckets, keys, p);
        assert points[..i + 1] == points[..i] + [p];
        buckets := buckets[keys[bucketKey] := AddPoint(buckets[keys[bucketKey]], p)];
      }
      i := i + 1;
    }
    assert points[..i] == points;
    byKey := keys;
  }

  /**
   The list shows every point: in a bucket it belongs to, which tells of exactly the points that
   belong there, and in all the totals. What two buckets with one start would share is told by one.
   */
  ghost predicate Shows(cal: Calendar, points: seq<Point>, bucketHours: nat, finished: seq<Finished>) {
    && SumOf(finished, VehiclesShown) == SumOf(points, VehiclesOf)
    && SumOf(finished, BunchingShown) == SumOf(points, BunchingOf)
    && SumOf(finished, HoursShown) == |points|
    && (forall p :: p in points ==> IsShown(cal, points, bucketHours, finished, p))
    && (forall k {:trigger TellsOwn(cal, points, bucketHours, finished, k)} :: 0 <= k < |finished| ==>
          IsFair(finished[k]) && (TellsOwn(cal, points, bucketHours, finished, k) || Tells(finished[k], [])))
  }

  /** The k-th bucket tells of its points. */
  ghost predicate TellsOwn(cal: Calendar, points: seq<Point>, bucketHours: nat, finished: seq<Finished>, k: nat) {
    k < |finished| && Tells(finished[k], Members(cal, points, bucketHours, finished[k].start))
  }

  ghost predicate IsShown(cal: Calendar, points: seq<Point>, bucketHours: nat, finished: seq<Finished>, p: Point) {
    exists k: nat :: TellsOwn(cal, points, bucketHours, finished, k) && BelongsTo(cal, p.hour, bucketHours, finished[k].start)
  }

  function FinishAll(buckets: seq<Bucket>): seq<Finished> {
    if buckets == [] then [] else FinishAll(buckets[..|buckets|-1]) + [Finish(buckets[|buckets|-1])]
  }

  lemma {:induction false} FinishKeepsTotals(buckets: seq<Bucket>)
    ensures SumOf(FinishAll(buckets), VehiclesShown) == SumOf(buckets, VehiclesIn)
    ensures SumOf(FinishAll(buckets), BunchingShown) == SumOf(buckets, BunchingIn)
    ensures SumOf(FinishAll(buckets), HoursShown) == SumOf(buckets, HoursIn)
  {
    if buckets != [] {
      var n := |buckets| - 1;
      FinishKeepsTotals(buckets[..n]);
      SumAppend(FinishAll(buckets[..n]), Finish(buckets[n]), VehiclesShown);
      SumAppend(FinishAll(buckets[..n]), Finish(buckets[n]), BunchingShown);
      SumAppend(FinishAll(buckets[..n]), Finish(buckets[n]), HoursShown);
    }
  }

  lemma {:induction false} FinishAllAt(buckets: seq<Bucket>)
    ensures |FinishAll(buckets)| == |buckets|
    ensures forall k :: 0 <= k < |buckets| ==> FinishAll(buckets)[k] == Finish(buckets[k])
  {
    if buckets != [] {
      FinishAllAt(buckets[..|buckets|-1]);
    }
  }

  /** A bucket the table stands for tells of its points, any other of none. */
  lemma BucketTells(cal: Calendar, points: seq<Point>, bucketHours: nat, buckets: seq<Bucket>, byKey: map<int, nat>, k: nat)
    requires IsCalendar(cal) && Filled(cal, points, bucketHours, buckets, byKey) && k < |buckets|
    ensures byKey[buckets[k].start] == k ==> Tells(Finish(buckets[k]), Members(cal, points, bucketHours, buckets[k].start))
    ensures byKey[buckets[k].start] != k ==> Tells(Finish(buckets[k]), [])
    ensures IsFair(Finish(buckets[k]))
  {
    var b := buckets[k];
    assert Holds(cal, points, bucketHours, buckets, byKey, k);
    if byKey[b.start] == k {
      GatherAddsUp(cal, points, bucketHours, b.start, b.groupDays);
      FinishTells(b, Members(cal, points, bucketHours, b.start));
      GatherBalances(cal, points, bucketHours, b.start, b.groupDays);
    } else {
      GatherAddsUp(cal, [], bucketHours, b.start, b.groupDays);
      FinishTells(b, []);
    }
    FinishIsFair(b);
  }

  lemma PointIsShown(cal: Calendar, points: seq<Point>, bucketHours: nat, buckets: seq<Bucket>, byKey: map<int, nat>, p: Point)
    requires IsCalendar(cal) && Filled(cal, points, bucketHours, buckets, byKey) && p in points
    ensures IsShown(cal, points, bucketHours, FinishAll(buckets), p)
  {
    var start := BucketStart(cal, p.hour, bucketHours);
    var k := byKey[start];
    FinishAllAt(buckets);
    BucketTells(cal, points, bucketHours, buckets, byKey, k);
    BucketStartIff(cal, p.hour, bucketHours, start);
    assert TellsOwn(cal, points, bucketHours, FinishAll(buckets), k);
  }

  lemma FilledShows(cal: Calendar, points: seq<Point>, bucketHours: nat, buckets: seq<Bucket>, byKey: map<int, nat>)
    requires IsCalendar(cal) && Filled(cal, points, bucketHours, buckets, byKey)
    ensures Shows(cal, points, bucketHours, FinishAll(buckets))
  {
    var finished := FinishAll(buckets);
    FinishKeepsTotals(buckets);
    FinishAllAt(buckets);
    OneEach(points);
    forall p | p in points ensures IsShown(cal, points, bucketHours, finished, p) {
      PointIsShown(cal, points, bucketHours, buckets, byKey, p);
    }
    forall k | 0 <= k < |finished|
      ensures IsFair(finished[k]) && (TellsOwn(cal, points, bucketHours, finished, k) || Tells(finished[k], []))
    {
      BucketTells(cal, points, bucketHours, buckets, byKey, k);
    }
  }

  /** first and last are the first and last local day of the points. */
  ghost predicate IsSpan(cal: Calendar, points: seq<Point>, first: int, last: int) {
    && (forall p :: p in points ==> first <= cal.dayOf(p.hour) <= last)
    && (exists p :: p in points && cal.dayOf(p.hour) == first)
    && (exists p :: p in points && cal.dayOf(p.hour) == last)
  }

  lemma RangeIsSpan(cal: Calendar, points: seq<Point>, first: int, last: int)
    requires IsCalendar(cal) && IsDayRange(cal, points, first, last)
    ensures IsSpan(cal, points, first, last)
  {
    forall p | p in points ensures LocalDayIndex(cal, p.hour) == cal.dayOf(p.hour) {
      assert cal.dayOf(cal.at(cal.dayOf(p.hour), 0)) == cal.dayOf(p.hour);
      DayIndexIff(cal, p.hour);
    }
  }

  /** Which buckets there are: one an observed hour, or every one of the grid over the observed days, in order. */
  ghost predicate IsComplete(cal: Calendar, points: seq<Point>, bucketHours: nat, finished: seq<Finished>) {
    if bucketHours <= 1 then
      && (forall k :: 0 <= k < |finished| ==> exists p :: p in points && BelongsTo(cal, p.hour, bucketHours, finished[k].start))
      && (forall j, k :: 0 <= j < k < |finished| ==> finished[j].start != finished[k].start)
    else
      exists first, last, starts ::
        IsSpan(cal, points, first, last) && IsGrid(cal, first, last, bucketHours, starts)
        && |finished| == |starts| && forall k :: 0 <= k < |finished| ==> finished[k].start == starts[k]
  }

  lemma ObservedBelongs(cal: Calendar, points: seq<Point>, bucketHours: nat, start: int)
    requires IsCalendar(cal) && IsObserved(cal, points, bucketHours, start)
    ensures exists p :: p in points && BelongsTo(cal, p.hour, bucketHours, start)
  {
    var p :| p in points && BucketStart(cal, p.hour, bucketHours) == start;
    BucketStartIff(cal, p.hour, bucketHours, start);
  }

  lemma ObservedComplete(cal: Calendar, points: seq<Point>, bucketHours: nat, buckets: seq<Bucket>, byKey: map<int, nat>)
    requires IsCalendar(cal) && bucketHours <= 1 && Filled(cal, points, bucketHours, buckets, byKey)
    requires forall k :: 0 <= k < |buckets| ==> byKey[buckets[k].start] == k && IsObserved(cal, points, bucketHours, buckets[k].start)
    ensures IsComplete(cal, points, bucketHours, FinishAll(buckets))
  {
    FinishAllAt(buckets);
    forall k | 0 <= k < |buckets| ensures exists p :: p in points && BelongsTo(cal, p.hour, bucketHours, buckets[k].start) {
      ObservedBelongs(cal, points, bucketHours, buckets[k].start);
    }
  }

  lemma GridComplete(cal: Calendar, points: seq<Point>, bucketHours: nat, first: int, last: int, buckets: seq<Bucket>)
    requires IsCalendar(cal) && bucketHours > 1 && IsDayRange(cal, points, first, last)
    requires exists starts :: IsGrid(cal, first, last, bucketHours, starts) && StandOn(buckets, starts)
    ensures IsComplete(cal, points, bucketHours, FinishAll(buckets))
  {
    var starts :| IsGrid(cal, first, last, bucketHours, starts) && StandOn(buckets, starts);
    RangeIsSpan(cal, points, first, last);
    FinishAllAt(buckets);
  }

  /** aggregateBuckets: no point and no bucket is dropped, and every bucket tells of its own points. */
  method AggregateBuckets(cal: Calendar, points: seq<Point>, bucketHours: nat) returns (finished: seq<Finished>)
    requires IsCalendar(cal)
    ensures points == [] ==> finished == []
    ensures points != [] ==> IsComplete(cal, points, bucketHours, finished)
    ensures Shows(cal, points, bucketHours, finished)
  {
    if points == [] {
      return [];
    }
    var buckets: seq<Bucket>;
    ghost var byKey: map<int, nat>;
    if bucketHours <= 1 {
      buckets, byKey := PassThrough(cal, points, bucketHours);
      ObservedComplete(cal, points, bucketHours, buckets, byKey);
    } else {
      ghost var first, last;
      buckets, byKey, first, last := FillGrid(cal, points, bucketHours);
      GridComplete(cal, points, bucketHours, first, last, buckets);
    }
    finished := FinishBuckets(buckets);
    FilledShows(cal, points, bucketHours, buckets, byKey);
  }

  method FinishBuckets(buckets: seq<Bucket>) returns (finished: seq<Finished>)
    ensures finished == FinishAll(buckets)
  {
    finished := [];
    var i := 0;
    while i < |buckets|
      invariant 0 <= i <= |buckets| && finished == FinishAll(buckets[..i])
    {
      assert buckets[..i + 1][..i] == buckets[..i];
      finished := finished + [Finish(buckets[i])];
      i := i + 1;
    }
    assert buckets[..i] == buckets;
  }
}

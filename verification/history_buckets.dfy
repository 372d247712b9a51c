/** history-chart.ts: local-day bucketing of the hourly history. */
module HistoryBuckets {
  import opened Options

  // Milliseconds.
  const HOUR := 60 * 60 * 1000
  const DAY := 24 * HOUR

  /** The viewer's calendar: the local day and hour of an instant, and the instant of a local day and hour. */
  datatype Calendar = Calendar(dayOf: int -> int, hourOf: int -> nat, at: (int, int) -> int)

  /** Local midnights drift from multiples of 24 hours by less than half a day, whatever the clock changes. */
  predicate DriftOk(drift: int) {
    -43_200_000 <= drift < 43_200_000
  }

  function Drift(cal: Calendar, day: int): int {
    cal.at(day, 0) - cal.at(0, 0) - day * 86_400_000
  }

  ghost predicate IsCalendar(cal: Calendar) {
    && (forall t :: cal.hourOf(t) < 24)
    && (forall day :: cal.dayOf(cal.at(day, 0)) == day && DriftOk(Drift(cal, day)))
  }

  datatype Point = Point(hour: int, vehicles: nat, bunching: nat, onTimePct: real, avgDeviation: real, p95Deviation: real)

  // ----- day arithmetic

  /** Math.round of a quotient: halves go up. */
  function RoundDiv(a: int, b: int): int
    requires b > 0
  {
    (2 * a + b) / (2 * b)
  }

  function StartOfLocalDay(cal: Calendar, t: int): int {
    cal.at(cal.dayOf(t), 0)
  }

  function LocalDayIndex(cal: Calendar, t: int): int {
    RoundDiv(StartOfLocalDay(cal, t) - cal.at(0, 0), DAY)
  }

  function DayFromIndex(cal: Calendar, day: int): int {
    cal.at(day, 0)
  }

  /** The rounded quotient is the day exactly when the day's midnight drifts less than half a day. */
  lemma DayIndexIff(cal: Calendar, t: int)
    ensures LocalDayIndex(cal, t) == cal.dayOf(t) <==> DriftOk(Drift(cal, cal.dayOf(t)))
  {
    var day, drift := cal.dayOf(t), Drift(cal, cal.dayOf(t));
    assert StartOfLocalDay(cal, t) - cal.at(0, 0) == day * DAY + drift;
    RoundsTo(day, drift);
  }

  lemma RoundsTo(day: int, drift: int)
    ensures RoundDiv(day * DAY + drift, DAY) == day <==> DriftOk(drift)
  {
    var n := 2 * (day * DAY + drift) + DAY;
    assert n == day * (2 * DAY) + (2 * drift + DAY);
    var q := n / (2 * DAY);
    assert q * (2 * DAY) <= n < (q + 1) * (2 * DAY);
  }

  /** localDayIndex undoes dayFromIndex. */
  lemma DayIndexUndoes(cal: Calendar, day: int)
    requires IsCalendar(cal)
    ensures LocalDayIndex(cal, DayFromIndex(cal, day)) == day
  {
    DayIndexIff(cal, DayFromIndex(cal, day));
  }

  /** The number of days nearest to so many hours; a half day more counts as one. */
  function GroupDays(bucketHours: nat): (n: int)
    ensures 24 * n - 12 <= bucketHours < 24 * n + 12
  {
    RoundDiv(bucketHours, 24)
  }

  function BucketStart(cal: Calendar, t: int, bucketHours: nat): int {
    if bucketHours <= 1 then cal.at(cal.dayOf(t), cal.hourOf(t))
    else if bucketHours < 24 then cal.at(cal.dayOf(t), cal.hourOf(t) / bucketHours * bucketHours)
    else DayFromIndex(cal, LocalDayIndex(cal, t) / GroupDays(bucketHours) * GroupDays(bucketHours))
  }

  // ----- which bucket an instant belongs to, in its own day and hour

  /** h is the start of the hour's slot within the day. */
  ghost predicate IsSlot(h: nat, hour: nat, bucketHours: nat)
    requires bucketHours > 0
  {
    h % bucketHours == 0 && h <= hour < h + bucketHours
  }

  /** The group of n days from one that is a multiple of n, n the days nearest to bucketHours. */
  ghost predicate IsGroup(first: int, n: int, day: int, bucketHours: nat) {
    && n > 0 && 24 * n - 12 <= bucketHours < 24 * n + 12
    && first % n == 0 && first <= day < first + n
  }

  /** The instant's bucket starts then: its own hour, the slot of its hour within its day, or the midnight its group of days begins with. */
  ghost predicate BelongsTo(cal: Calendar, t: int, bucketHours: nat, start: int) {
    if bucketHours <= 1 then start == cal.at(cal.dayOf(t), cal.hourOf(t))
    else if bucketHours < 24 then
      exists h: nat :: IsSlot(h, cal.hourOf(t), bucketHours) && start == cal.at(cal.dayOf(t), h)
    else
      exists first, n :: IsGroup(first, n, cal.dayOf(t), bucketHours) && start == cal.at(first, 0)
  }

  lemma FloorIsSlot(hour: nat, b: nat, h: nat)
    requires b > 0
    ensures IsSlot(hour / b * b, hour, b)
    ensures IsSlot(h, hour, b) ==> h == hour / b * b
  {
    var q := hour / b;
    assert q * b <= hour < q * b + b;
    MultipleIs(q, b);
    if IsSlot(h, hour, b) {
      assert h == h / b * b;
      MultiplesMeet(q, h / b, b, hour);
    }
  }

  lemma NextMultiple(p: int, q: int, b: nat)
    requires p < q
    ensures p * b + b <= q * b
  {
    Product(q - p - 1, b);
    assert q * b == p * b + b + (q - p - 1) * b;
  }

  lemma Product(x: nat, y: nat)
    ensures x * y >= 0
  {
  }

  lemma MultipleIs(q: int, b: nat)
    requires b > 0
    ensures q * b % b == 0
  {
    var x := q * b;
    assert x == x / b * b + x % b;
    if q < x / b {
      NextMultiple(q, x / b, b);
    } else if x / b < q {
      NextMultiple(x / b, q, b);
    }
  }

  /** Two multiples of b that both have x in the b from them on are one. */
  lemma MultiplesMeet(p: int, q: int, b: nat, x: int)
    requires b > 0 && p * b <= x < p * b + b && q * b <= x < q * b + b
    ensures p == q
  {
    if p < q {
      NextMultiple(p, q, b);
    } else if q < p {
      NextMultiple(q, p, b);
    }
  }

  lemma FloorIsGroup(day: int, bucketHours: nat, first: int, n: int)
    requires bucketHours >= 24
    ensures var m := GroupDays(bucketHours); IsGroup(day / m * m, m, day, bucketHours)
    ensures IsGroup(first, n, day, bucketHours) ==> first == day / GroupDays(bucketHours) * GroupDays(bucketHours)
  {
    var m := GroupDays(bucketHours);
    var q := day / m;
    assert q * m <= day < q * m + m;
    MultipleIs(q, m);
    if IsGroup(first, n, day, bucketHours) {
      assert n == m;
      assert first == first / m * m;
      MultiplesMeet(q, first / m, m, day);
    }
  }

  /** bucketStart gives that bucket and no other. */
  lemma BucketStartIff(cal: Calendar, t: int, bucketHours: nat, start: int)
    requires IsCalendar(cal)
    ensures BelongsTo(cal, t, bucketHours, start) <==> start == BucketStart(cal, t, bucketHours)
  {
    if 1 < bucketHours < 24 {
      FloorIsSlot(cal.hourOf(t), bucketHours, 0);
      if h: nat :| IsSlot(h, cal.hourOf(t), bucketHours) && start == cal.at(cal.dayOf(t), h) {
        FloorIsSlot(cal.hourOf(t), bucketHours, h);
      }
    } else if bucketHours >= 24 {
      assert cal.dayOf(cal.at(cal.dayOf(t), 0)) == cal.dayOf(t);
      DayIndexIff(cal, t);
      FloorIsGroup(cal.dayOf(t), bucketHours, 0, 0);
      if first, n :| IsGroup(first, n, cal.dayOf(t), bucketHours) && start == cal.at(first, 0) {
        FloorIsGroup(cal.dayOf(t), bucketHours, first, n);
      }
    }
  }

  // ----- the grid

  datatype Slot = Slot(start: int, groupDays: int)

  function GroupStart(cal: Calendar, g: int, bucketHours: nat): int {
    DayFromIndex(cal, g * GroupDays(bucketHours))
  }

  lemma CeilOf(a: nat, b: nat)
    requires a > 0 && b > 0
    ensures var q := (a + b - 1) / b; q >= 1 && (q - 1) * b < a <= q * b
  {
    var q := (a + b - 1) / b;
    assert q * b <= a + b - 1 < (q + 1) * b;
    assert (q + 1) * b == q * b + b && (q - 1) * b == q * b - b;
    assert q <= 0 ==> q * b <= 0;
  }

  /** Math.ceil(24 / bucketHours) */
  function PerDay(bucketHours: nat): (n: int)
    requires bucketHours > 0
    ensures n >= 1 && (n - 1) * bucketHours < 24 <= n * bucketHours
  {
    CeilOf(24, bucketHours);
    (24 + bucketHours - 1) / bucketHours
  }

  /** Where the i-th bucket of a day stands in the grid. */
  function Position(first: int, day: int, i: int, bucketHours: nat): int
    requires bucketHours > 0
  {
    (day - first) * PerDay(bucketHours) + i
  }

  /** The starts of every bucket of the days up to, not including, a day: day by day, in order. */
  ghost predicate IsDayGrid(cal: Calendar, first: int, day: int, bucketHours: nat, starts: seq<int>)
    requires bucketHours > 0
  {
    && |starts| == Position(first, day, 0, bucketHours)
    && forall d, i :: first <= d < day && 0 <= i < PerDay(bucketHours) ==>
         0 <= Position(first, d, i, bucketHours) < |starts|
         && starts[Position(first, d, i, bucketHours)] == cal.at(d, i * bucketHours)
  }

  /** The starts of every group of days from one to another, in order. */
  ghost predicate IsGroupGrid(cal: Calendar, first: int, g: int, bucketHours: nat, starts: seq<int>)
    requires bucketHours >= 24
  {
    var from := first / GroupDays(bucketHours);
    && |starts| == g - from
    && forall h :: from <= h < g ==> starts[h - from] == GroupStart(cal, h, bucketHours)
  }

  /** Every bucket start of the days from first to last, in order, whether or not it has data. */
  ghost predicate IsGrid(cal: Calendar, first: int, last: int, bucketHours: nat, starts: seq<int>)
    requires bucketHours > 1
  {
    if bucketHours < 24 then IsDayGrid(cal, first, last + 1, bucketHours, starts)
    else IsGroupGrid(cal, first, last / GroupDays(bucketHours) + 1, bucketHours, starts)
  }

  function Starts(grid: seq<Slot>): seq<int> {
    seq(|grid|, i requires 0 <= i < |grid| => grid[i].start)
  }

  lemma RowMajor(a: int, b: int, n: int, i: int)
    requires 0 <= a < b && 0 <= i < n
    ensures 0 <= a * n + i < b * n
  {
    Product(a, n);
    NextMultiple(a, b, n);
  }

  lemma PositionBounds(first: int, day: int, d: int, i: int, bucketHours: nat)
    requires bucketHours > 0 && first <= d < day && 0 <= i < PerDay(bucketHours)
    ensures 0 <= Position(first, d, i, bucketHours) < Position(first, day, 0, bucketHours)
  {
    RowMajor(d - first, day - first, PerDay(bucketHours), i);
  }

  /** One day's starts more. */
  lemma DayAdded(cal: Calendar, first: int, day: int, bucketHours: nat, starts: seq<int>, more: seq<int>)
    requires bucketHours > 0 && first <= day && IsDayGrid(cal, first, day, bucketHours, starts)
    requires |more| == |starts| + PerDay(bucketHours) && more[..|starts|] == starts
    requires forall i :: 0 <= i < PerDay(bucketHours) ==> more[|starts| + i] == cal.at(day, i * bucketHours)
    ensures IsDayGrid(cal, first, day + 1, bucketHours, more)
  {
    var n := PerDay(bucketHours);
    assert (day + 1 - first) * n == (day - first) * n + n;
    forall d, i | first <= d < day + 1 && 0 <= i < n
      ensures 0 <= Position(first, d, i, bucketHours) < |more| && more[Position(first, d, i, bucketHours)] == cal.at(d, i * bucketHours)
    {
      PositionBounds(first, day + 1, d, i, bucketHours);
      if d < day {
        PositionBounds(first, day, d, i, bucketHours);
        assert more[Position(first, d, i, bucketHours)] == starts[Position(first, d, i, bucketHours)];
      } else {
        assert Position(first, day, i, bucketHours) == |starts| + i;
      }
    }
  }

  /** bucketGrid: exactly the bucket starts of the days from first to last, in order. */
  method BucketGrid(cal: Calendar, first: int, last: int, bucketHours: nat) returns (grid: seq<Slot>)
    requires IsCalendar(cal) && first <= last && bucketHours > 1
    ensures IsGrid(cal, first, last, bucketHours, Starts(grid))
    ensures forall s :: s in grid ==> s.groupDays == if bucketHours < 24 then 1 else GroupDays(bucketHours)
  {
    grid := [];
    if bucketHours < 24 {
      var day := first;
      while day <= last
        invariant first <= day <= last + 1
        invariant IsDayGrid(cal, first, day, bucketHours, Starts(grid))
        invariant forall s :: s in grid ==> s.groupDays == 1
      {
        var more := DaySlots(cal, grid, day, bucketHours);
        DayAdded(cal, first, day, bucketHours, Starts(grid), Starts(more));
        grid := more;
        day := day + 1;
      }
    } else {
      var groupDays := GroupDays(bucketHours);
      var lastGroup := last / groupDays;
      var g := first / groupDays;
      FloorMonotone(first, last, groupDays);
      while g <= lastGroup
        invariant first / groupDays <= g <= lastGroup + 1
        invariant IsGroupGrid(cal, first, g, bucketHours, Starts(grid))
        invariant forall s :: s in grid ==> s.groupDays == groupDays
      {
        grid := grid + [Slot(DayFromIndex(cal, g * groupDays), groupDays)];
        g := g + 1;
      }
    }
  }

  /** The inner loop: one day's buckets. */
  method DaySlots(cal: Calendar, grid: seq<Slot>, day: int, bucketHours: nat) returns (more: seq<Slot>)
    requires IsCalendar(cal) && bucketHours > 0
    requires forall s :: s in grid ==> s.groupDays == 1
    ensures |more| == |grid| + PerDay(bucketHours) && Starts(more)[..|grid|] == Starts(grid)
    ensures forall i :: 0 <= i < PerDay(bucketHours) ==> Starts(more)[|grid| + i] == cal.at(day, i * bucketHours)
    ensures forall s :: s in more ==> s.groupDays == 1
  {
    more := grid;
    var base := DayFromIndex(cal, day);
    var i := 0;
    while i < PerDay(bucketHours)
      invariant 0 <= i <= PerDay(bucketHours) && |more| == |grid| + i
      invariant forall k :: 0 <= k < |grid| ==> more[k] == grid[k]
      invariant forall k :: 0 <= k < i ==> more[|grid| + k].start == cal.at(day, k * bucketHours)
      invariant forall s :: s in more ==> s.groupDays == 1
    {
      more := more + [Slot(cal.at(cal.dayOf(base), i * bucketHours), 1)];
      i := i + 1;
    }
  }

  lemma FloorMonotone(a: int, b: int, n: int)
    requires n > 0 && a <= b
    ensures a / n <= b / n
  {
    var x, y := a / n, b / n;
    assert x * n <= a && b < (y + 1) * n;
    assert y < x ==> (y + 1) * n <= x * n;
  }

  lemma FloorInRange(h: nat, n: nat)
    requires h < 24 && n > 0
    ensures 0 <= h / n < PerDay(n)
  {
    var q, i := PerDay(n), h / n;
    assert i * n <= h && 24 + n - 1 < (q + 1) * n;
    assert q * n >= 24;
    assert q <= i ==> q * n <= i * n;
  }

  /** No point is dropped: the bucket every point of those days belongs to is in the grid. */
  lemma EveryPointHasBucket(cal: Calendar, first: int, last: int, bucketHours: nat, t: int, starts: seq<int>)
    requires IsCalendar(cal) && bucketHours > 1 && first <= LocalDayIndex(cal, t) <= last
    requires IsGrid(cal, first, last, bucketHours, starts)
    ensures BucketStart(cal, t, bucketHours) in starts
  {
    var day := LocalDayIndex(cal, t);
    assert DriftOk(Drift(cal, cal.dayOf(t))) by {
      assert cal.dayOf(cal.at(cal.dayOf(t), 0)) == cal.dayOf(t);
    }
    DayIndexIff(cal, t);
    if bucketHours < 24 {
      var i := cal.hourOf(t) / bucketHours;
      FloorInRange(cal.hourOf(t), bucketHours);
      assert starts[Position(first, day, i, bucketHours)] == cal.at(day, i * bucketHours);
    } else {
      var n := GroupDays(bucketHours);
      FloorMonotone(first, day, n);
      FloorMonotone(day, last, n);
      assert starts[day / n - first / n] == GroupStart(cal, day / n, bucketHours);
    }
  }

  // ----- one bucket

  datatype Bucket = Bucket(
    start: int,
    groupDays: int,
    pctWeightedSum: real,
    devWeightedSum: real,
    weight: nat,
    minOnTime: Option<real>,
    maxOnTime: Option<real>,
    p95Max: Option<real>,
    vehicleTotal: nat,
    bunchingTotal: nat,
    hours: nat,
    noService: nat)

  function NewBucket(start: int, groupDays: int): Bucket {
    Bucket(start, groupDays, 0.0, 0.0, 0, None, None, None, 0, 0, 0, 0)
  }

  function Lower(a: Option<real>, x: real): Option<real> {
    if a.None? || x < a.value then Some(x) else a
  }

  function Higher(a: Option<real>, x: real): Option<real> {
    if a.None? || x > a.value then Some(x) else a
  }

  function AddPoint(b: Bucket, p: Point): Bucket {
    var b := b.(vehicleTotal := b.vehicleTotal + p.vehicles, bunchingTotal := b.bunchingTotal + p.bunching);
    if p.vehicles > 0 then
      b.(hours := b.hours + 1,
         pctWeightedSum := b.pctWeightedSum + p.onTimePct * p.vehicles as real,
         devWeightedSum := b.devWeightedSum + p.avgDeviation * p.vehicles as real,
         weight := b.weight + p.vehicles,
         minOnTime := Lower(b.minOnTime, p.onTimePct),
         maxOnTime := Higher(b.maxOnTime, p.onTimePct),
         p95Max := Higher(b.p95Max, p.p95Deviation))
    else
      b.(noService := b.noService + 1)
  }

  /** What a bucket gathers: the points it is the bucket of, in order. */
  function Gather(cal: Calendar, points: seq<Point>, bucketHours: nat, start: int, groupDays: int): Bucket {
    if points == [] then NewBucket(start, groupDays)
    else
      var n := |points| - 1;
      var b := Gather(cal, points[..n], bucketHours, start, groupDays);
      if BucketStart(cal, points[n].hour, bucketHours) == start then AddPoint(b, points[n]) else b
  }

  datatype Finished = Finished(
    start: int,
    weightedOnTime: Option<real>,
    weightedAvgDev: Option<real>,
    minOnTime: Option<real>,
    maxOnTime: Option<real>,
    p95Max: Option<real>,
    vehicleTotal: nat,
    bunchingTotal: nat,
    hours: nat,
    noService: nat)

  function Finish(b: Bucket): Finished {
    Finished(b.start,
             if b.weight > 0 then Some(b.pctWeightedSum / b.weight as real) else None,
             if b.weight > 0 then Some(b.devWeightedSum / b.weight as real) else None,
             b.minOnTime, b.maxOnTime, b.p95Max, b.vehicleTotal, b.bunchingTotal, b.hours, b.noService)
  }

  /** The weighted sum lies between the weighted bounds; no service means no bounds. */
  ghost predicate Balanced(b: Bucket) {
    && (b.weight > 0 <==> b.minOnTime.Some?) && (b.minOnTime.Some? <==> b.maxOnTime.Some?) && (b.weight > 0 <==> b.hours > 0)
    && (b.weight == 0 ==> b.pctWeightedSum == 0.0)
    && (b.weight > 0 ==>
          b.minOnTime.value * b.weight as real <= b.pctWeightedSum <= b.maxOnTime.value * b.weight as real)
  }

  lemma Scales(x: real, y: real, w: real)
    requires x <= y && w >= 0.0
    ensures x * w <= y * w
  {
  }

  lemma ScalesStrictly(x: real, y: real, w: real)
    requires x < y && w > 0.0
    ensures x * w < y * w
  {
  }

  /** A weighted sum between two bounds stays so when a term between them is added. */
  lemma SumStaysBetween(low: real, high: real, sum: real, w: real, x: real, v: real)
    requires v >= 0.0 && low <= x <= high && low * w <= sum <= high * w
    ensures low * (w + v) <= sum + x * v <= high * (w + v)
  {
    Scales(low, x, v);
    Scales(x, high, v);
    assert low * (w + v) == low * w + low * v && high * (w + v) == high * w + high * v;
  }

  lemma AddPointBalances(b: Bucket, p: Point)
    requires Balanced(b)
    ensures Balanced(AddPoint(b, p))
  {
    if p.vehicles > 0 {
      var v, w := p.vehicles as real, b.weight as real;
      var low, high := Lower(b.minOnTime, p.onTimePct).value, Higher(b.maxOnTime, p.onTimePct).value;
      if b.weight > 0 {
        Scales(low, b.minOnTime.value, w);
        Scales(b.maxOnTime.value, high, w);
      }
      SumStaysBetween(low, high, b.pctWeightedSum, w, p.onTimePct, v);
      assert (b.weight + p.vehicles) as real == w + v;
    }
  }

  lemma {:induction false} GatherBalances(cal: Calendar, points: seq<Point>, bucketHours: nat, start: int, groupDays: int)
    ensures Balanced(Gather(cal, points, bucketHours, start, groupDays))
  {
    if points != [] {
      GatherBalances(cal, points[..|points|-1], bucketHours, start, groupDays);
      AddPointBalances(Gather(cal, points[..|points|-1], bucketHours, start, groupDays), points[|points|-1]);
    }
  }

  /** A bucket with service shows an average between its worst and its best hour; one without is a gap. */
  ghost predicate IsFair(f: Finished) {
    if f.hours == 0 then f.weightedOnTime.None? && f.minOnTime.None?
    else f.weightedOnTime.Some? && f.minOnTime.Some? && f.maxOnTime.Some?
         && f.minOnTime.value <= f.weightedOnTime.value <= f.maxOnTime.value
  }

  lemma QuotientBetween(low: real, sum: real, high: real, w: real)
    requires w > 0.0 && low * w <= sum <= high * w
    ensures low <= sum / w <= high
  {
    var q := sum / w;
    assert q * w == sum;
    if q < low {
      ScalesStrictly(q, low, w);
    } else if high < q {
      ScalesStrictly(high, q, w);
    }
  }

  lemma FinishIsFair(b: Bucket)
    requires Balanced(b)
    ensures IsFair(Finish(b))
  {
    if b.weight > 0 {
      QuotientBetween(b.minOnTime.value, b.pctWeightedSum, b.maxOnTime.value, b.weight as real);
    }
  }

  // ----- what a finished bucket says, in the fields of its points

  /** The points that belong to the bucket, in order. */
  ghost function Members(cal: Calendar, points: seq<Point>, bucketHours: nat, start: int): seq<Point> {
    if points == [] then []
    else
      var n := |points| - 1;
      Members(cal, points[..n], bucketHours, start) + (if BelongsTo(cal, points[n].hour, bucketHours, start) then [points[n]] else [])
  }

  ghost function Vehicles(own: seq<Point>): nat {
    if own == [] then 0 else Vehicles(own[..|own|-1]) + own[|own|-1].vehicles
  }

  ghost function Events(own: seq<Point>): nat {
    if own == [] then 0 else Events(own[..|own|-1]) + own[|own|-1].bunching
  }

  /** Every hour counts as often as it had vehicles. */
  ghost function OnTimeSum(own: seq<Point>): real {
    if own == [] then 0.0
    else OnTimeSum(own[..|own|-1]) + own[|own|-1].onTimePct * own[|own|-1].vehicles as real
  }

  ghost function DeviationSum(own: seq<Point>): real {
    if own == [] then 0.0
    else DeviationSum(own[..|own|-1]) + own[|own|-1].avgDeviation * own[|own|-1].vehicles as real
  }

  ghost function Served(own: seq<Point>): set<int> {
    set i | 0 <= i < |own| && own[i].vehicles > 0
  }

  /** The smallest share on time of any hour with service; none without one. */
  ghost predicate IsWorst(own: seq<Point>, x: Option<real>) {
    && (x.None? <==> Served(own) == {})
    && (x.Some? ==> exists i :: i in Served(own) && own[i].onTimePct == x.value)
    && (x.Some? ==> forall i :: i in Served(own) ==> x.value <= own[i].onTimePct)
  }

  ghost predicate IsBest(own: seq<Point>, x: Option<real>) {
    && (x.None? <==> Served(own) == {})
    && (x.Some? ==> exists i :: i in Served(own) && own[i].onTimePct == x.value)
    && (x.Some? ==> forall i :: i in Served(own) ==> own[i].onTimePct <= x.value)
  }

  ghost predicate IsLargestP95(own: seq<Point>, x: Option<real>) {
    && (x.None? <==> Served(own) == {})
    && (x.Some? ==> exists i :: i in Served(own) && own[i].p95Deviation == x.value)
    && (x.Some? ==> forall i :: i in Served(own) ==> own[i].p95Deviation <= x.value)
  }

  /** What the bucket has added up. */
  ghost predicate AddsUp(b: Bucket, own: seq<Point>) {
    && b.vehicleTotal == b.weight == Vehicles(own) && b.bunchingTotal == Events(own)
    && b.pctWeightedSum == OnTimeSum(own) && b.devWeightedSum == DeviationSum(own)
    && b.hours == |Served(own)| && b.noService == |own| - |Served(own)|
  }

  ghost predicate Ranges(b: Bucket, own: seq<Point>) {
    IsWorst(own, b.minOnTime) && IsBest(own, b.maxOnTime) && IsLargestP95(own, b.p95Max)
  }

  lemma ServedGrows(own: seq<Point>, p: Point)
    ensures Served(own + [p]) == Served(own) + (if p.vehicles > 0 then {|own|} else {})
  {
  }

  lemma NothingAdded(w: real)
    ensures w * 0.0 == 0.0
  {
  }

  lemma AddedUp(b: Bucket, own: seq<Point>, p: Point)
    requires AddsUp(b, own)
    ensures AddsUp(AddPoint(b, p), own + [p])
  {
    assert (own + [p])[..|own|] == own;
    ServedGrows(own, p);
    NothingAdded(p.onTimePct);
    NothingAdded(p.avgDeviation);
  }

  lemma Ranged(b: Bucket, own: seq<Point>, p: Point)
    requires Ranges(b, own)
    ensures Ranges(AddPoint(b, p), own + [p])
  {
    var more, after := own + [p], AddPoint(b, p);
    ServedGrows(own, p);
    assert forall i :: 0 <= i < |own| ==> more[i] == own[i];
    if p.vehicles > 0 {
      assert |own| in Served(more) && more[|own|] == p;
    }
    RangedStill(own, p, b.minOnTime, b.maxOnTime, b.p95Max);
  }

  /** The old extremes are still those of an hour with service. */
  lemma RangedStill(own: seq<Point>, p: Point, worst: Option<real>, best: Option<real>, p95: Option<real>)
    requires IsWorst(own, worst) && IsBest(own, best) && IsLargestP95(own, p95)
    ensures worst.Some? ==> exists i :: i in Served(own + [p]) && (own + [p])[i].onTimePct == worst.value
    ensures best.Some? ==> exists i :: i in Served(own + [p]) && (own + [p])[i].onTimePct == best.value
    ensures p95.Some? ==> exists i :: i in Served(own + [p]) && (own + [p])[i].p95Deviation == p95.value
  {
    if worst.Some? {
      var i :| i in Served(own) && own[i].onTimePct == worst.value;
      assert i in Served(own + [p]) && (own + [p])[i] == own[i];
    }
    if best.Some? {
      var i :| i in Served(own) && own[i].onTimePct == best.value;
      assert i in Served(own + [p]) && (own + [p])[i] == own[i];
    }
    if p95.Some? {
      var i :| i in Served(own) && own[i].p95Deviation == p95.value;
      assert i in Served(own + [p]) && (own + [p])[i] == own[i];
    }
  }

  /** A bucket adds up exactly the points that belong to it. */
  lemma {:induction false} GatherAddsUp(cal: Calendar, points: seq<Point>, bucketHours: nat, start: int, groupDays: int)
    requires IsCalendar(cal)
    ensures AddsUp(Gather(cal, points, bucketHours, start, groupDays), Members(cal, points, bucketHours, start))
    ensures Ranges(Gather(cal, points, bucketHours, start, groupDays), Members(cal, points, bucketHours, start))
  {
    if points != [] {
      var n := |points| - 1;
      GatherAddsUp(cal, points[..n], bucketHours, start, groupDays);
      BucketStartIff(cal, points[n].hour, bucketHours, start);
      var b, own := Gather(cal, points[..n], bucketHours, start, groupDays), Members(cal, points[..n], bucketHours, start);
      AddedUp(b, own, points[n]);
      Ranged(b, own, points[n]);
      assert own + [] == own;
    }
  }

  /**
   A finished bucket over these points: totals, hours with and without service, averages
   weighted by vehicles where there were any, and the extremes of the hours with service.
   */
  ghost predicate Tells(f: Finished, own: seq<Point>) {
    && f.vehicleTotal == Vehicles(own) && f.bunchingTotal == Events(own)
    && f.hours == |Served(own)| && f.noService == |own| - |Served(own)|
    && (if Vehicles(own) > 0 then
          && f.weightedOnTime == Some(OnTimeSum(own) / Vehicles(own) as real)
          && f.weightedAvgDev == Some(DeviationSum(own) / Vehicles(own) as real)
        else f.weightedOnTime == None && f.weightedAvgDev == None)
    && IsWorst(own, f.minOnTime) && IsBest(own, f.maxOnTime) && IsLargestP95(own, f.p95Max)
  }

  lemma FinishTells(b: Bucket, own: seq<Point>)
    requires AddsUp(b, own) && Ranges(b, own)
    ensures Tells(Finish(b), own)
  {
  }
}
